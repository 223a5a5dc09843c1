/** What a stream of facts says, told without the tree: which nodes there are, the bytes and blocks of each,
    its kind, its members and its parent. The tree the stream builds says the same. */
module DiskUsageFacts {
  import opened DiskUsageModel
  import opened DiskUsageTotals
  import opened DiskUsageScan

  // ---------------------------------------------------------------- reading the facts

  /** Bytes reported for a node. */
  function BytesFor(facts: seq<Fact>, n: NodeId): nat {
    if facts == [] then 0
    else
      var last := facts[|facts| - 1];
      BytesFor(facts[..|facts| - 1], n) + if last.NodeSizeAdded? && last.node == n then last.bytes else 0
  }

  /** Blocks on disk reported for a node. */
  function BlocksFor(facts: seq<Fact>, n: NodeId): nat {
    if facts == [] then 0
    else
      var last := facts[|facts| - 1];
      BlocksFor(facts[..|facts| - 1], n) + if last.NodeAllocatedAdded? && last.node == n then last.bytes else 0
  }

  /** The last announcement counts; a node that holds members is a container from then on. */
  function KindFor(facts: seq<Fact>, n: NodeId): Kind {
    if facts == [] then Container
    else match facts[|facts| - 1]
      case NodeDiscovered(m, kind) => if m == n then kind else KindFor(facts[..|facts| - 1], n)
      case NodeLinked(c, _) => if c == n then Container else KindFor(facts[..|facts| - 1], n)
      case _ => KindFor(facts[..|facts| - 1], n)
  }

  function StateFor(facts: seq<Fact>, n: NodeId): ScanState {
    if facts == [] then Unknown
    else match facts[|facts| - 1]
      case ContainerScanStarted(c) => if c == n then Scanning else StateFor(facts[..|facts| - 1], n)
      case ContainerScanCompleted(c) => if c == n then Complete else StateFor(facts[..|facts| - 1], n)
      case _ => StateFor(facts[..|facts| - 1], n)
  }

  /** The nodes linked from a container, in order. */
  function LinksFrom(facts: seq<Fact>, c: NodeId): seq<NodeId> {
    if facts == [] then []
    else
      var last := facts[|facts| - 1];
      LinksFrom(facts[..|facts| - 1], c) + if last.NodeLinked? && last.container == c then [last.node] else []
  }

  function Named(fact: Fact): set<NodeId> {
    match fact
    case NodeDiscovered(n, _) => {n}
    case NodeLinked(c, n) => {c, n}
    case NodeSizeAdded(n, _) => {n}
    case NodeAllocatedAdded(n, _) => {n}
    case ContainerScanStarted(c) => {c}
    case ContainerScanCompleted(c) => {c}
  }

  function AllNamed(facts: seq<Fact>): set<NodeId> {
    if facts == [] then {} else AllNamed(facts[..|facts| - 1]) + Named(facts[|facts| - 1])
  }

  /** The container of the first link to a node that puts it neither under itself nor under something that,
      in the tree given, lies below it. */
  ghost function ParentFor(facts: seq<Fact>, n: NodeId, nodes: Nodes): Option<NodeId>
    requires Acyclic(nodes)
  {
    if facts == [] then None
    else
      var last := facts[|facts| - 1];
      var earlier := ParentFor(facts[..|facts| - 1], n, nodes);
      if earlier.None? && last.NodeLinked? && last.node == n && n !in {last.container} + Ancestors(nodes, last.container)
      then Some(last.container) else earlier
  }

  // ---------------------------------------------------------------- one fact

  ghost function Before(nodes: Nodes, n: NodeId): Node { if n in nodes then nodes[n] else FRESH }

  /** What a fact does to one node's own fields, apart from its parent. */
  ghost predicate FactTells(before: Nodes, fact: Fact, after: Nodes, n: NodeId)
    requires n in after
  {
    var b := Before(before, n);
    after[n].size == Clamp(b.size + if fact.NodeSizeAdded? && fact.node == n then fact.bytes else 0) &&
    after[n].onDisk == Clamp(b.onDisk + if fact.NodeAllocatedAdded? && fact.node == n then fact.bytes else 0) &&
    after[n].kind == KindAfter(b.kind, fact, n) &&
    after[n].scanState == StateAfter(b.scanState, fact, n)
  }

  function KindAfter(kind: Kind, fact: Fact, n: NodeId): Kind {
    match fact
    case NodeDiscovered(m, k) => if m == n then k else kind
    case NodeLinked(c, _) => if c == n then Container else kind
    case _ => kind
  }

  function StateAfter(state: ScanState, fact: Fact, n: NodeId): ScanState {
    match fact
    case ContainerScanStarted(c) => if c == n then Scanning else state
    case ContainerScanCompleted(c) => if c == n then Complete else state
    case _ => state
  }

  lemma BumpKeepsState(nodes: Nodes, at: set<NodeId>, size: int, onDisk: int, effective: int, n: NodeId)
    requires n in nodes
    ensures Bump(nodes, at, size, onDisk, effective)[n].scanState == nodes[n].scanState
  {
  }

  lemma ResizeTells(nodes: Nodes, id: NodeId, node: Node, n: NodeId)
    requires Acyclic(nodes) && id in nodes && n in nodes && OwnSizesOnly(nodes[id], node)
    ensures var r := Resize(nodes, id, node);
            r.Keys == nodes.Keys && r[n].kind == nodes[n].kind && r[n].scanState == nodes[n].scanState &&
            r[n].size == (if n == id then node.size else nodes[n].size) &&
            r[n].onDisk == (if n == id then node.onDisk else nodes[n].onDisk)
  {
    hide Bump, Ancestors;
    ResizeShape(nodes, id, node);
    BumpKeepsState(nodes[id := node], Ancestors(nodes, id), node.size - nodes[id].size, node.onDisk - nodes[id].onDisk,
      Own(Effective, node) - Own(Effective, nodes[id]), n);
  }

  lemma LinkTells(t: Tree, c: NodeId, m: NodeId, n: NodeId)
    requires Acyclic(t.nodes)
    ensures var after := Applied(t, NodeLinked(c, m)).nodes;
            after.Keys == t.nodes.Keys + {c, m} && (n in after ==> FactTells(t.nodes, NodeLinked(c, m), after, n))
  {
    hide Registered, Refuses, Ancestors, Acyclic;
    var n1 := AsContainer(t.nodes, c);
    SameParentsAcyclic(t.nodes, n1);
    RegisteredKeepsOwn(n1, c, m, n);
  }

  lemma RegisteredKeepsOwn(nodes: Nodes, c: NodeId, m: NodeId, n: NodeId)
    requires Acyclic(nodes) && c in nodes
    ensures var after := Registered(nodes, c, m);
            after.Keys == nodes.Keys + {m} &&
            (n in after ==> var b, a := Before(nodes, n), after[n];
               a.size == b.size && a.onDisk == b.onDisk && a.kind == b.kind && a.scanState == b.scanState)
  {
    hide Adopt, Ancestors;
    if !Refuses(nodes, c, m) {
      AdoptShape(nodes, c, m);
      AdoptKeepsState(nodes, c, m, n);
    }
  }

  lemma AdoptKeepsState(nodes: Nodes, c: NodeId, m: NodeId, n: NodeId)
    requires Acyclic(nodes)
    ensures var n1 := Ensure(nodes, m); n in n1 ==> Adopt(nodes, c, m)[n].scanState == n1[n].scanState
  {
  }

  lemma SizeTells(t: Tree, id: NodeId, bytes: U64, n: NodeId)
    requires Acyclic(t.nodes)
    ensures var after := Applied(t, NodeSizeAdded(id, bytes)).nodes;
            after.Keys == t.nodes.Keys + {id} && (n in after ==> FactTells(t.nodes, NodeSizeAdded(id, bytes), after, n))
  {
    hide Resize, Ancestors, Acyclic;
    var n1 := Ensure(t.nodes, id);
    SameParentsAcyclic(t.nodes, n1);
    ResizeTells(n1, id, MoreBytes(n1[id], bytes), if n in n1 then n else id);
  }

  lemma BlocksTell(t: Tree, id: NodeId, bytes: U64, n: NodeId)
    requires Acyclic(t.nodes)
    ensures var after := Applied(t, NodeAllocatedAdded(id, bytes)).nodes;
            after.Keys == t.nodes.Keys + {id} && (n in after ==> FactTells(t.nodes, NodeAllocatedAdded(id, bytes), after, n))
  {
    hide Resize, Ancestors, Acyclic;
    var n1 := Ensure(t.nodes, id);
    SameParentsAcyclic(t.nodes, n1);
    ResizeTells(n1, id, MoreOnDisk(n1[id], bytes), if n in n1 then n else id);
  }

  lemma NodeTold(t: Tree, fact: Fact, n: NodeId)
    requires Acyclic(t.nodes)
    ensures var after := Applied(t, fact).nodes;
            after.Keys == t.nodes.Keys + Named(fact) && (n in after ==> FactTells(t.nodes, fact, after, n))
  {
    hide SizeAdded, OnDiskAdded, Registered, Ancestors, Acyclic;
    match fact
    case NodeLinked(c, m) => LinkTells(t, c, m, n);
    case NodeSizeAdded(id, bytes) => SizeTells(t, id, bytes, n);
    case NodeAllocatedAdded(id, bytes) => BlocksTell(t, id, bytes, n);
    case _ =>
  }

  lemma MembersTold(t: Tree, fact: Fact, c: NodeId)
    requires Acyclic(t.nodes)
    ensures MembersOf(Applied(t, fact).containers, c) ==
            MembersOf(t.containers, c) + if fact.NodeLinked? && fact.container == c then [fact.node] else []
  {
  }

  // ---------------------------------------------------------------- parents

  /** Nodes stay, and a node with a parent keeps it. */
  ghost predicate ParentsPersist(before: Nodes, after: Nodes) {
    forall n :: n in before ==> n in after && (before[n].parent.Some? ==> after[n].parent == before[n].parent)
  }

  lemma {:induction false} ChainsGrow(before: Nodes, after: Nodes, n: NodeId)
    requires Acyclic(before) && Acyclic(after) && ParentsPersist(before, after)
    ensures Ancestors(before, n) <= Ancestors(after, n)
    decreases Rank(before, n)
  {
    if n in before && before[n].parent.Some? {
      ParentRanksLower(before, n);
      ChainsGrow(before, after, before[n].parent.value);
    }
  }

  lemma OtherFactsKeepParents(t: Tree, fact: Fact)
    requires Acyclic(t.nodes) && !fact.NodeLinked?
    ensures SameParents(t.nodes, Applied(t, fact).nodes)
  {
    hide Resize;
    match fact
    case NodeSizeAdded(id, bytes) =>
      var n1 := Ensure(t.nodes, id);
      SameParentsAcyclic(t.nodes, n1);
      ResizeShape(n1, id, MoreBytes(n1[id], bytes));
    case NodeAllocatedAdded(id, bytes) =>
      var n1 := Ensure(t.nodes, id);
      SameParentsAcyclic(t.nodes, n1);
      ResizeShape(n1, id, MoreOnDisk(n1[id], bytes));
    case _ =>
  }

  lemma NotBelowItself(nodes: Nodes, c: NodeId, m: NodeId)
    requires Acyclic(nodes) && m in nodes && nodes[m].parent == Some(c)
    ensures m !in {c} + Ancestors(nodes, c)
  {
    ParentRanksLower(nodes, m);
    AncestorsRankLower(nodes, c);
  }

  lemma RefusedLink(nodes: Nodes, c: NodeId, m: NodeId)
    requires Acyclic(nodes) && Refuses(nodes, c, m)
    ensures m in nodes && Registered(nodes, c, m) == nodes
    ensures nodes[m].parent.None? ==> m in {c} + Ancestors(nodes, c)
  {
    hide Adopt;
  }

  lemma AcceptedLink(nodes: Nodes, c: NodeId, m: NodeId)
    requires Acyclic(nodes) && c in nodes && !Refuses(nodes, c, m)
    ensures Before(nodes, m).parent == None
    ensures var after := Registered(nodes, c, m);
            after.Keys == nodes.Keys + {m} && after[m].parent == Some(c) &&
            forall n :: n in after && n != m ==> after[n].parent == Before(nodes, n).parent
  {
    hide Adopt, Ancestors;
    AdoptShape(nodes, c, m);
  }

  /** A link to a node without parent gives it one, unless it would close a cycle. */
  lemma LinkSetsParent(t: Tree, c: NodeId, m: NodeId)
    requires Acyclic(t.nodes) && Acyclic(Applied(t, NodeLinked(c, m)).nodes)
    ensures var after := Applied(t, NodeLinked(c, m)).nodes;
            ParentsPersist(t.nodes, after) && m in after &&
            (forall n :: n in after && n != m ==> after[n].parent == Before(t.nodes, n).parent) &&
            (Before(t.nodes, m).parent.None? ==>
               after[m].parent == if m in {c} + Ancestors(after, c) then None else Some(c))
  {
    hide Registered, Refuses, Ancestors, Acyclic;
    var n1 := AsContainer(t.nodes, c);
    SameParentsAcyclic(t.nodes, n1);
    if Refuses(n1, c, m) {
      RefusedLink(n1, c, m);
    } else {
      AcceptedLink(n1, c, m);
      NotBelowItself(Registered(n1, c, m), c, m);
    }
  }

  /** What the parents should be. */
  ghost predicate ParentsTold(facts: seq<Fact>, nodes: Nodes)
    requires Acyclic(nodes)
  {
    forall n {:trigger ParentFor(facts, n, nodes)} :: n in nodes ==> nodes[n].parent == ParentFor(facts, n, nodes)
  }

  /** The first link that counts stays the first, and those before it still do not count. */
  lemma {:induction false} SameFirstLink(facts: seq<Fact>, n: NodeId, before: Nodes, after: Nodes)
    requires Acyclic(before) && Acyclic(after) && ParentsPersist(before, after)
    requires ParentFor(facts, n, before).Some? ==> n in before && before[n].parent == ParentFor(facts, n, before)
    ensures ParentFor(facts, n, after) == ParentFor(facts, n, before)
    decreases |facts|
  {
    if facts != [] {
      var last := facts[|facts| - 1];
      SameFirstLink(facts[..|facts| - 1], n, before, after);
      if last.NodeLinked? && last.node == n {
        ChainsGrow(before, after, last.container);
        if ParentFor(facts, n, before) == Some(last.container) {
          ParentRanksLower(after, n);
          AncestorsRankLower(after, last.container);
        }
      }
    }
  }

  // ---------------------------------------------------------------- whole streams

  /** A stream's last fact is applied to what the facts before it built. */
  lemma LastFact(t: Tree, facts: seq<Fact>)
    requires WellFormed(t.nodes) && Stream(t, facts) && facts != []
    ensures var front, last := facts[..|facts| - 1], facts[|facts| - 1];
            Stream(t, front) && var mid := AppliedAll(t, front);
            WellFormed(mid.nodes) && Announceable(mid.nodes, last) && AppliedAll(t, facts) == Applied(mid, last)
    decreases |facts|
  {
    hide Announceable, Applied, Acyclic, ParentsAreContainers;
    FactKeepsTotals(t, facts[0]);
    var front := facts[..|facts| - 1];
    if front == [] {
      assert facts[1..] == [] && facts == [facts[0]];
      NothingApplied(t);
      NothingApplied(Applied(t, facts[0]));
    } else {
      LastFact(Applied(t, facts[0]), facts[1..]);
      assert facts[1..][..|facts[1..]| - 1] == front[1..];
      assert Stream(t, front);
      StreamKeepsTotals(t, front);
    }
  }

  /** The tree's own sizes, kinds, states and members are those the facts tell. */
  ghost predicate OwnTold(root: NodeId, facts: seq<Fact>, t: Tree) {
    t.nodes.Keys == {root} + AllNamed(facts) &&
    (forall n :: n in t.nodes ==>
       t.nodes[n].size == Clamp(BytesFor(facts, n)) && t.nodes[n].onDisk == Clamp(BlocksFor(facts, n)) &&
       t.nodes[n].kind == KindFor(facts, n) && t.nodes[n].scanState == StateFor(facts, n)) &&
    (forall c :: MembersOf(t.containers, c) == LinksFrom(facts, c))
  }

  lemma {:induction false} Unnamed(root: NodeId, facts: seq<Fact>, n: NodeId)
    requires n !in AllNamed(facts)
    ensures BytesFor(facts, n) == 0 == BlocksFor(facts, n) && KindFor(facts, n) == Container && StateFor(facts, n) == Unknown
  {
    if facts != [] {
      Unnamed(root, facts[..|facts| - 1], n);
    }
  }

  lemma FactKeepsTold(root: NodeId, facts: seq<Fact>, mid: Tree, t: Tree)
    requires facts != [] && Acyclic(mid.nodes) && t == Applied(mid, facts[|facts| - 1])
    requires OwnTold(root, facts[..|facts| - 1], mid)
    ensures OwnTold(root, facts, t)
  {
    hide Applied, Acyclic;
    var front, last := facts[..|facts| - 1], facts[|facts| - 1];
    NodeTold(mid, last, root);
    forall n | n in t.nodes
      ensures t.nodes[n].size == Clamp(BytesFor(facts, n)) && t.nodes[n].onDisk == Clamp(BlocksFor(facts, n)) &&
              t.nodes[n].kind == KindFor(facts, n) && t.nodes[n].scanState == StateFor(facts, n)
    {
      NodeTold(mid, last, n);
      if n !in mid.nodes {
        Unnamed(root, front, n);
      }
    }
    forall c ensures MembersOf(t.containers, c) == LinksFrom(facts, c) {
      MembersTold(mid, last, c);
    }
  }

  lemma FactKeepsParentsTold(facts: seq<Fact>, mid: Tree, t: Tree)
    requires facts != [] && Acyclic(mid.nodes) && t == Applied(mid, facts[|facts| - 1]) && Acyclic(t.nodes)
    requires ParentsTold(facts[..|facts| - 1], mid.nodes)
    requires forall n :: n !in mid.nodes ==> ParentFor(facts[..|facts| - 1], n, mid.nodes) == None
    ensures ParentsTold(facts, t.nodes)
  {
    hide Applied, Acyclic, Ancestors;
    var front, last := facts[..|facts| - 1], facts[|facts| - 1];
    if last.NodeLinked? {
      LinkSetsParent(mid, last.container, last.node);
    } else {
      OtherFactsKeepParents(mid, last);
    }
    forall n | n in t.nodes ensures t.nodes[n].parent == ParentFor(facts, n, t.nodes) {
      assert n in mid.nodes ==> mid.nodes[n].parent == ParentFor(front, n, mid.nodes);
      SameFirstLink(front, n, mid.nodes, t.nodes);
    }
  }

  lemma {:induction false} StrangersHaveNoParent(facts: seq<Fact>, n: NodeId, nodes: Nodes)
    requires Acyclic(nodes) && n !in AllNamed(facts)
    ensures ParentFor(facts, n, nodes) == None
  {
    if facts != [] {
      StrangersHaveNoParent(facts[..|facts| - 1], n, nodes);
    }
  }

  /** Whatever the facts and their order, the tree they build from a new one is told by them: its nodes are
      the root and those named, each with the sum of the bytes and the sum of the blocks reported for it, as
      far as they fit u64, the kind last announced, the members linked from it in order, and for parent the
      container of the first link to it that does not close a cycle. */
  lemma {:induction false} FactsTellTheTree(root: NodeId, facts: seq<Fact>)
    requires WellFormed(NewTree(root).nodes) && Stream(NewTree(root), facts)
    ensures var t := AppliedAll(NewTree(root), facts);
            t.nodes.Keys == {root} + AllNamed(facts) &&
            (forall n :: n in t.nodes ==>
               t.nodes[n].size == Clamp(BytesFor(facts, n)) && t.nodes[n].onDisk == Clamp(BlocksFor(facts, n)) &&
               t.nodes[n].kind == KindFor(facts, n) && t.nodes[n].scanState == StateFor(facts, n)) &&
            (forall c :: MembersOf(t.containers, c) == LinksFrom(facts, c)) &&
            Acyclic(t.nodes) &&
            forall n {:trigger ParentFor(facts, n, t.nodes)} :: n in t.nodes ==> t.nodes[n].parent == ParentFor(facts, n, t.nodes)
    decreases |facts|
  {
    hide Applied, AppliedAll, Stream, Acyclic, Ancestors, ParentsAreContainers;
    if facts == [] {
      assert AppliedAll(NewTree(root), []) == NewTree(root) by { NothingApplied(NewTree(root)); }
    } else {
      LastFact(NewTree(root), facts);
      var front := facts[..|facts| - 1];
      var mid := AppliedAll(NewTree(root), front);
      FactsTellTheTree(root, front);
      StreamKeepsTotals(NewTree(root), facts);
      FactKeepsTold(root, facts, mid, AppliedAll(NewTree(root), facts));
      forall n | n !in mid.nodes ensures ParentFor(front, n, mid.nodes) == None {
        StrangersHaveNoParent(front, n, mid.nodes);
      }
      FactKeepsParentsTold(facts, mid, AppliedAll(NewTree(root), facts));
    }
  }

  lemma NothingApplied(t: Tree)
    requires WellFormed(t.nodes)
    ensures Stream(t, []) && AppliedAll(t, []) == t
  {
  }

  /** Each of the three sizes a node reports, from the facts. */
  lemma SizesFollowTheFacts(root: NodeId, facts: seq<Fact>, n: NodeId)
    requires WellFormed(NewTree(root).nodes) && Stream(NewTree(root), facts) && n in AppliedAll(NewTree(root), facts).nodes
    ensures var node := AppliedAll(NewTree(root), facts).nodes[n];
            Own(Apparent, node) == Clamp(BytesFor(facts, n)) && Own(OnDisk, node) == Clamp(BlocksFor(facts, n)) &&
            Own(Effective, node) == Clamp(if BlocksFor(facts, n) > 0 then BlocksFor(facts, n) else BytesFor(facts, n))
  {
    FactsTellTheTree(root, facts);
  }

  // ---------------------------------------------------------------- all nodes together

  /** All bytes a stream reports. */
  function AllBytes(facts: seq<Fact>): nat {
    if facts == [] then 0
    else
      var last := facts[|facts| - 1];
      AllBytes(facts[..|facts| - 1]) + if last.NodeSizeAdded? then last.bytes else 0
  }

  /** All blocks a stream reports. */
  function AllBlocks(facts: seq<Fact>): nat {
    if facts == [] then 0
    else
      var last := facts[|facts| - 1];
      AllBlocks(facts[..|facts| - 1]) + if last.NodeAllocatedAdded? then last.bytes else 0
  }

  function Reported(axis: Axis, fact: Fact): nat {
    if (axis.Apparent? && fact.NodeSizeAdded?) || (axis.OnDisk? && fact.NodeAllocatedAdded?) then fact.bytes else 0
  }

  lemma NewNodesWeighNothing(axis: Axis, nodes: Nodes, keys: set<NodeId>)
    requires nodes.Keys <= keys
    ensures SetSum(axis, nodes, keys) == Grand(axis, nodes)
  {
    var added := keys - nodes.Keys;
    SetSumUnion(axis, nodes, nodes.Keys, added);
    assert nodes.Keys + added == keys;
    SetSumZero(axis, nodes, added);
  }

  /** The one node a fact adds to. */
  function Target(fact: Fact): NodeId {
    if fact.NodeLinked? || fact.ContainerScanStarted? || fact.ContainerScanCompleted? then fact.container else fact.node
  }

  lemma FactWeighs(axis: Axis, t: Tree, fact: Fact, n: NodeId)
    requires Acyclic(t.nodes) && !axis.Effective?
    ensures var after := Applied(t, fact).nodes;
            t.nodes.Keys <= after.Keys && Target(fact) in after &&
            (n in after ==> Weight(axis, after, n) == Clamp(Weight(axis, t.nodes, n) + if n == Target(fact) then Reported(axis, fact) else 0))
  {
    hide Applied, Acyclic, KindAfter, StateAfter;
    NodeTold(t, fact, n);
  }

  /** A fact adds what it reports to the sum over all nodes, unless that no longer fits u64. */
  lemma GrandGrows(axis: Axis, t: Tree, fact: Fact)
    requires Acyclic(t.nodes) && !axis.Effective? && Grand(axis, Applied(t, fact).nodes) <= U64_MAX
    ensures Grand(axis, Applied(t, fact).nodes) == Clamp(Grand(axis, t.nodes) + Reported(axis, fact))
  {
    hide Applied, Acyclic, SetSum, Weight, Target, Reported, Clamp;
    var after, id := Applied(t, fact).nodes, Target(fact);
    FactWeighs(axis, t, fact, id);
    forall n | n in after && n != id ensures Weight(axis, t.nodes, n) == Weight(axis, after, n) {
      FactWeighs(axis, t, fact, n);
      WeightFits(axis, t.nodes, n);
    }
    NewNodesWeighNothing(axis, t.nodes, after.Keys);
    SetSumChange(axis, t.nodes, after, after.Keys, id);
    SetSumOut(axis, after, after.Keys, id);
    SetSumOut(axis, t.nodes, after.Keys, id);
    ClampedSum(Weight(axis, t.nodes, id), Grand(axis, t.nodes) - Weight(axis, t.nodes, id), Reported(axis, fact));
  }

  lemma WeightFits(axis: Axis, nodes: Nodes, n: NodeId)
    ensures Clamp(Weight(axis, nodes, n) + 0) == Weight(axis, nodes, n)
  {
  }

  lemma ClampedSum(w: nat, rest: nat, more: nat)
    requires rest + Clamp(w + more) <= U64_MAX
    ensures rest + Clamp(w + more) == Clamp(w + rest + more)
  {
  }

  /** Over a whole stream: the sum over all nodes is what was reported in all. */
  lemma {:induction false} GrandIsReported(root: NodeId, facts: seq<Fact>)
    requires WellFormed(NewTree(root).nodes) && Stream(NewTree(root), facts) && Fits(AppliedAll(NewTree(root), facts).nodes)
    ensures var nodes := AppliedAll(NewTree(root), facts).nodes;
            Grand(Apparent, nodes) == Clamp(AllBytes(facts)) && Grand(OnDisk, nodes) == Clamp(AllBlocks(facts))
    decreases |facts|
  {
    hide Applied, AppliedAll, Stream, Acyclic, ParentsAreContainers, Grand;
    if facts == [] {
      NothingApplied(NewTree(root));
      NewTreeWeighsNothing(Apparent, root);
      NewTreeWeighsNothing(OnDisk, root);
    } else {
      LastFact(NewTree(root), facts);
      var front, last := facts[..|facts| - 1], facts[|facts| - 1];
      var mid := AppliedAll(NewTree(root), front);
      FitsBackwards(mid, last);
      GrandIsReported(root, front);
      GrandGrows(Apparent, mid, last);
      GrandGrows(OnDisk, mid, last);
    }
  }

  lemma NewTreeWeighsNothing(axis: Axis, root: NodeId)
    ensures Grand(axis, NewTree(root).nodes) == 0
  {
    var nodes := NewTree(root).nodes;
    SetSumOut(axis, nodes, {root}, root);
    assert nodes.Keys == {root} && {root} - {root} == {};
  }

  /** A finished scan, in any delivery order: the root's OnDisk total is the sum of all blocks the visitor
      reported, and its Apparent total the sum of all bytes. */
  lemma ScannedBlocksAreTheRootTotal(root: NodeId, events: seq<Event>, descendPackages: bool)
    requires Deliverable(Scan(root + 1, {}, {}, Stats(0, 0, 0)), {root}, events, descendPackages)
    ensures var facts := [NodeDiscovered(root, Container)] + AfterEvents(Scan(root + 1, {}, {}, Stats(0, 0, 0)), events, descendPackages).facts;
            WellFormed(NewTree(root).nodes) && Stream(NewTree(root), facts) &&
            var t := AppliedAll(NewTree(root), facts);
            Fits(t.nodes) ==>
              root in t.nodes &&
              t.nodes[root].onDisk + t.nodes[root].descendantOnDisk == Clamp(AllBlocks(facts)) &&
              t.nodes[root].size + t.nodes[root].descendantSize == Clamp(AllBytes(facts))
  {
    hide Deliverable, AfterEvents, Applied, AppliedAll, Stream, Acyclic, ParentsAreContainers, AllBlocks, AllBytes, Fits;
    ScannedBytesAreTheRootTotal(root, events, descendPackages);
    var facts := [NodeDiscovered(root, Container)] + AfterEvents(Scan(root + 1, {}, {}, Stats(0, 0, 0)), events, descendPackages).facts;
    var t := AppliedAll(NewTree(root), facts);
    if Fits(t.nodes) {
      GrandIsReported(root, facts);
      SubtreeSum(Apparent, t.nodes, root);
      SubtreeSum(OnDisk, t.nodes, root);
    }
  }
}
