/** The disk-usage tree: nodes with incrementally kept descendant totals along parent chains, and
    container/member edges. This module holds the values, the meaning of the totals, and what each
    operation of the tree does to them; DiskUsageTree is the mutable object. */
module DiskUsageModel {
  datatype Option<T> = None | Some(value: T)

  type NodeId = nat

  const U64_MAX: nat := 0xFFFF_FFFF_FFFF_FFFF

  type U64 = n: nat | n <= U64_MAX

  datatype Kind = Container | File

  datatype ScanState = Unknown | Scanning | Complete

  /** The three sizes a node reports: bytes, blocks on disk, and blocks with a fallback to bytes. */
  datatype Axis = Apparent | OnDisk | Effective

  datatype Node = Node(
    size: U64, onDisk: U64,
    descendantSize: U64, descendantOnDisk: U64, descendantEffective: U64,
    parent: Option<NodeId>, kind: Kind, scanState: ScanState)

  const FRESH := Node(0, 0, 0, 0, 0, None, Container, Unknown)

  type Nodes = map<NodeId, Node>

  datatype Tree = Tree(nodes: Nodes, containers: map<NodeId, seq<NodeId>>)

  function Own(axis: Axis, n: Node): U64 {
    match axis
    case Apparent => n.size
    case OnDisk => n.onDisk
    case Effective => if n.onDisk > 0 then n.onDisk else n.size
  }

  function Below(axis: Axis, n: Node): U64 {
    match axis
    case Apparent => n.descendantSize
    case OnDisk => n.descendantOnDisk
    case Effective => n.descendantEffective
  }

  // ---------------------------------------------------------------- parent chains

  ghost predicate RankedAt(nodes: Nodes, depth: map<NodeId, nat>, n: NodeId)
    requires n in nodes
  {
    n in depth &&
    (nodes[n].parent.Some? ==> var p := nodes[n].parent.value; p in nodes && p in depth && depth[p] < depth[n])
  }

  ghost predicate Ranked(nodes: Nodes, depth: map<NodeId, nat>) {
    forall n {:trigger RankedAt(nodes, depth, n)} :: n in nodes ==> RankedAt(nodes, depth, n)
  }

  /** Every parent chain stays inside the tree and ends. */
  ghost predicate Acyclic(nodes: Nodes) {
    exists depth :: Ranked(nodes, depth)
  }

  ghost function Depth(nodes: Nodes): (depth: map<NodeId, nat>)
    requires Acyclic(nodes)
    ensures Ranked(nodes, depth)
  {
    var depth :| Ranked(nodes, depth);
    depth
  }

  ghost function Rank(nodes: Nodes, n: NodeId): nat
    requires Acyclic(nodes)
  {
    if n in nodes then assert RankedAt(nodes, Depth(nodes), n); Depth(nodes)[n] else 0
  }

  lemma ParentRanksLower(nodes: Nodes, n: NodeId)
    requires Acyclic(nodes) && n in nodes && nodes[n].parent.Some?
    ensures nodes[n].parent.value in nodes && Rank(nodes, nodes[n].parent.value) < Rank(nodes, n)
  {
    assert RankedAt(nodes, Depth(nodes), n);
  }

  ghost function Ancestors(nodes: Nodes, n: NodeId): set<NodeId>
    requires Acyclic(nodes)
    decreases Rank(nodes, n)
  {
    if n !in nodes || nodes[n].parent.None? then {}
    else
      ParentRanksLower(nodes, n);
      {nodes[n].parent.value} + Ancestors(nodes, nodes[n].parent.value)
  }

  /** Proper descendants. */
  ghost function Descendants(nodes: Nodes, n: NodeId): set<NodeId>
    requires Acyclic(nodes)
  {
    set m | m in nodes && n in Ancestors(nodes, m)
  }

  ghost function Subtree(nodes: Nodes, n: NodeId): set<NodeId>
    requires Acyclic(nodes)
  {
    {n} + Descendants(nodes, n)
  }

  lemma {:induction false} AncestorsRankLower(nodes: Nodes, n: NodeId)
    requires Acyclic(nodes)
    ensures Ancestors(nodes, n) <= nodes.Keys
    ensures forall a :: a in Ancestors(nodes, n) ==> Rank(nodes, a) < Rank(nodes, n)
    ensures n !in Ancestors(nodes, n)
    decreases Rank(nodes, n)
  {
    if n in nodes && nodes[n].parent.Some? {
      ParentRanksLower(nodes, n);
      AncestorsRankLower(nodes, nodes[n].parent.value);
    }
  }

  /** Chains are linear: the ancestors of an ancestor are ancestors, and two ancestors of one node are
      comparable. */
  lemma {:induction false} ChainsAreLinear(nodes: Nodes, n: NodeId, a: NodeId)
    requires Acyclic(nodes) && a in Ancestors(nodes, n)
    ensures Ancestors(nodes, a) <= Ancestors(nodes, n)
    ensures forall b :: b in Ancestors(nodes, n) ==> b == a || b in Ancestors(nodes, a) || a in Ancestors(nodes, b)
    decreases Rank(nodes, n)
  {
    var p := nodes[n].parent.value;
    if a != p {
      ParentRanksLower(nodes, n);
      ChainsAreLinear(nodes, p, a);
    }
  }

  /** `after` keeps every parent of `before`; added nodes have none. */
  ghost predicate SameParents(before: Nodes, after: Nodes) {
    before.Keys <= after.Keys &&
    forall n :: n in after ==> after[n].parent == if n in before then before[n].parent else None
  }

  lemma SameParentsAcyclic(before: Nodes, after: Nodes)
    requires Acyclic(before) && SameParents(before, after)
    ensures Acyclic(after)
  {
    var depth: map<NodeId, nat> := map n: NodeId | n in after :: Rank(before, n);
    forall n | n in after ensures RankedAt(after, depth, n) {
      if after[n].parent.Some? {
        ParentRanksLower(before, n);
      }
    }
    assert Ranked(after, depth);
  }

  lemma {:induction false} SameAncestors(before: Nodes, after: Nodes, n: NodeId)
    requires Acyclic(before) && Acyclic(after) && SameParents(before, after)
    ensures Ancestors(after, n) == Ancestors(before, n)
    decreases Rank(before, n)
  {
    if n in before && before[n].parent.Some? {
      ParentRanksLower(before, n);
      SameAncestors(before, after, before[n].parent.value);
    }
  }

  lemma SameDescendants(before: Nodes, after: Nodes, n: NodeId)
    requires Acyclic(before) && Acyclic(after) && SameParents(before, after)
    ensures Descendants(after, n) == Descendants(before, n)
  {
    forall m ensures Ancestors(after, m) == Ancestors(before, m) {
      SameAncestors(before, after, m);
    }
  }

  // ---------------------------------------------------------------- sums over sets of nodes

  ghost function Weight(axis: Axis, nodes: Nodes, n: NodeId): nat {
    if n in nodes then Own(axis, nodes[n]) else 0
  }

  ghost function SetSum(axis: Axis, nodes: Nodes, s: set<NodeId>): nat {
    if s == {} then 0 else var x :| x in s; Weight(axis, nodes, x) + SetSum(axis, nodes, s - {x})
  }

  lemma {:induction false} SetSumOut(axis: Axis, nodes: Nodes, s: set<NodeId>, x: NodeId)
    requires x in s
    ensures SetSum(axis, nodes, s) == Weight(axis, nodes, x) + SetSum(axis, nodes, s - {x})
    decreases s
  {
    var y :| y in s && SetSum(axis, nodes, s) == Weight(axis, nodes, y) + SetSum(axis, nodes, s - {y});
    if y != x {
      SetSumOut(axis, nodes, s - {y}, x);
      SetSumOut(axis, nodes, s - {x}, y);
      assert s - {y} - {x} == s - {x} - {y};
    }
  }

  lemma {:induction false} SetSumUnion(axis: Axis, nodes: Nodes, a: set<NodeId>, b: set<NodeId>)
    requires a !! b
    ensures SetSum(axis, nodes, a + b) == SetSum(axis, nodes, a) + SetSum(axis, nodes, b)
    decreases a
  {
    if a == {} {
      assert a + b == b;
    } else {
      var x :| x in a;
      SetSumOut(axis, nodes, a, x);
      SetSumOut(axis, nodes, a + b, x);
      assert a + b - {x} == (a - {x}) + b;
      SetSumUnion(axis, nodes, a - {x}, b);
    }
  }

  lemma SetSumSubset(axis: Axis, nodes: Nodes, a: set<NodeId>, b: set<NodeId>)
    requires a <= b
    ensures SetSum(axis, nodes, a) <= SetSum(axis, nodes, b)
  {
    SetSumUnion(axis, nodes, a, b - a);
    assert a + (b - a) == b;
  }

  lemma {:induction false} SetSumSame(axis: Axis, before: Nodes, after: Nodes, s: set<NodeId>)
    requires forall n :: n in s ==> Weight(axis, before, n) == Weight(axis, after, n)
    ensures SetSum(axis, before, s) == SetSum(axis, after, s)
    decreases s
  {
    if s != {} {
      var x :| x in s;
      SetSumOut(axis, before, s, x);
      SetSumOut(axis, after, s, x);
      SetSumSame(axis, before, after, s - {x});
    }
  }

  /** Only `id` changes weight: a sum moves by that change if it includes `id`, and not otherwise. */
  lemma SetSumChange(axis: Axis, before: Nodes, after: Nodes, s: set<NodeId>, id: NodeId)
    requires forall n :: n in s && n != id ==> Weight(axis, before, n) == Weight(axis, after, n)
    ensures SetSum(axis, after, s) + (if id in s then Weight(axis, before, id) else 0) ==
            SetSum(axis, before, s) + (if id in s then Weight(axis, after, id) else 0)
  {
    if id in s {
      SetSumOut(axis, before, s, id);
      SetSumOut(axis, after, s, id);
      SetSumSame(axis, before, after, s - {id});
    } else {
      SetSumSame(axis, before, after, s);
    }
  }

  // ---------------------------------------------------------------- the invariants

  /** Every node's three descendant totals are the sums over its proper descendants. */
  ghost predicate Exact(nodes: Nodes)
    requires Acyclic(nodes)
  {
    forall axis: Axis, n :: n in nodes ==> Below(axis, nodes[n]) == SetSum(axis, nodes, Descendants(nodes, n))
  }

  /** Only nodes known as containers are parents: the cycle check looks at nothing else. */
  ghost predicate ParentsAreContainers(nodes: Nodes) {
    forall n {:trigger ParentIsContainer(nodes, n)} :: n in nodes ==> ParentIsContainer(nodes, n)
  }

  ghost predicate ParentIsContainer(nodes: Nodes, n: NodeId)
    requires n in nodes
  {
    nodes[n].parent.Some? ==>
      nodes[n].parent.value in nodes && nodes[nodes[n].parent.value].kind == Container
  }

  lemma SameParentsContainers(before: Nodes, after: Nodes)
    requires ParentsAreContainers(before) && SameParents(before, after)
    requires forall n :: n in before && before[n].kind == Container ==> after[n].kind == Container
    ensures ParentsAreContainers(after)
  {
    forall n | n in after ensures ParentIsContainer(after, n) {
      if n in before {
        assert ParentIsContainer(before, n);
      }
    }
  }

  ghost predicate WellFormed(nodes: Nodes) {
    Acyclic(nodes) && ParentsAreContainers(nodes)
  }

  ghost function Grand(axis: Axis, nodes: Nodes): nat {
    SetSum(axis, nodes, nodes.Keys)
  }

  /** All byte and block counts together fit u64. */
  ghost predicate Fits(nodes: Nodes) {
    Grand(Apparent, nodes) + Grand(OnDisk, nodes) <= U64_MAX
  }

  lemma {:induction false} EffectiveIsSmaller(nodes: Nodes, s: set<NodeId>)
    ensures SetSum(Effective, nodes, s) <= SetSum(Apparent, nodes, s) + SetSum(OnDisk, nodes, s)
    decreases s
  {
    if s != {} {
      var x :| x in s;
      SetSumOut(Effective, nodes, s, x);
      SetSumOut(Apparent, nodes, s, x);
      SetSumOut(OnDisk, nodes, s, x);
      EffectiveIsSmaller(nodes, s - {x});
    }
  }

  lemma FitsBoundsEverySum(axis: Axis, nodes: Nodes, s: set<NodeId>)
    requires Fits(nodes) && s <= nodes.Keys
    ensures SetSum(axis, nodes, s) <= U64_MAX
  {
    SetSumSubset(Apparent, nodes, s, nodes.Keys);
    SetSumSubset(OnDisk, nodes, s, nodes.Keys);
    EffectiveIsSmaller(nodes, s);
  }

  // ---------------------------------------------------------------- operations

  function Clamp(n: int): U64 { if n < 0 then 0 else if n <= U64_MAX then n else U64_MAX }

  function Ensure(nodes: Nodes, id: NodeId): (r: Nodes)
    ensures id in r && nodes.Keys <= r.Keys
  {
    if id in nodes then nodes else nodes[id := FRESH]
  }

  /** Saturating addition (or subtraction) to a node's descendant totals. */
  function Shift(n: Node, size: int, onDisk: int, effective: int): Node {
    n.(descendantSize := Clamp(n.descendantSize + size),
       descendantOnDisk := Clamp(n.descendantOnDisk + onDisk),
       descendantEffective := Clamp(n.descendantEffective + effective))
  }

  ghost function Bump(nodes: Nodes, at: set<NodeId>, size: int, onDisk: int, effective: int): Nodes {
    map n | n in nodes :: if n in at then Shift(nodes[n], size, onDisk, effective) else nodes[n]
  }

  /** A node's own sizes change and its whole chain moves by the difference, axis by axis. */
  ghost function Resize(nodes: Nodes, id: NodeId, node: Node): Nodes
    requires Acyclic(nodes) && id in nodes
  {
    Bump(nodes[id := node], Ancestors(nodes, id), node.size - nodes[id].size, node.onDisk - nodes[id].onDisk,
         Own(Effective, node) - Own(Effective, nodes[id]))
  }

  function MoreBytes(n: Node, bytes: U64): Node { n.(size := Clamp(n.size + bytes)) }

  function MoreOnDisk(n: Node, bytes: U64): Node { n.(onDisk := Clamp(n.onDisk + bytes)) }

  ghost function SizeAdded(nodes: Nodes, id: NodeId, bytes: U64): Nodes
    requires Acyclic(nodes)
  {
    var n1 := Ensure(nodes, id);
    SameParentsAcyclic(nodes, n1);
    Resize(n1, id, MoreBytes(n1[id], bytes))
  }

  ghost function OnDiskAdded(nodes: Nodes, id: NodeId, bytes: U64): Nodes
    requires Acyclic(nodes)
  {
    var n1 := Ensure(nodes, id);
    SameParentsAcyclic(nodes, n1);
    Resize(n1, id, MoreOnDisk(n1[id], bytes))
  }

  /** The link takes effect: `n` gets its parent and the chain above receives n's whole subtree. */
  ghost function Adopt(nodes: Nodes, c: NodeId, n: NodeId): Nodes
    requires Acyclic(nodes)
  {
    var n1 := Ensure(nodes, n);
    var k := n1[n];
    Bump(n1[n := k.(parent := Some(c))], {c} + Ancestors(nodes, c),
         Clamp(k.size + k.descendantSize), Clamp(k.onDisk + k.descendantOnDisk),
         Clamp(Own(Effective, k) + k.descendantEffective))
  }

  /** register_parent: refused for a known container already on the chain, and for a node with a parent. */
  ghost predicate Refuses(nodes: Nodes, c: NodeId, n: NodeId)
    requires Acyclic(nodes)
  {
    n in nodes &&
    ((nodes[n].kind == Container && (n == c || n in Ancestors(nodes, c))) || nodes[n].parent.Some?)
  }

  ghost function Registered(nodes: Nodes, c: NodeId, n: NodeId): Nodes
    requires Acyclic(nodes)
  {
    if Refuses(nodes, c, n) then nodes else Adopt(nodes, c, n)
  }

  datatype Fact =
    | NodeDiscovered(node: NodeId, kind: Kind)
    | NodeLinked(container: NodeId, node: NodeId)
    | NodeSizeAdded(node: NodeId, bytes: U64)
    | NodeAllocatedAdded(node: NodeId, bytes: U64)
    | ContainerScanStarted(container: NodeId)
    | ContainerScanCompleted(container: NodeId)

  function AsContainer(nodes: Nodes, c: NodeId): Nodes {
    var n1 := Ensure(nodes, c);
    n1[c := n1[c].(kind := Container)]
  }

  function MembersOf(containers: map<NodeId, seq<NodeId>>, c: NodeId): seq<NodeId> {
    if c in containers then containers[c] else []
  }

  ghost function Applied(t: Tree, fact: Fact): Tree
    requires Acyclic(t.nodes)
  {
    match fact
    case NodeDiscovered(id, kind) =>
      var n1 := Ensure(t.nodes, id);
      t.(nodes := n1[id := n1[id].(kind := kind)])
    case NodeLinked(c, n) =>
      var n1 := AsContainer(t.nodes, c);
      SameParentsAcyclic(t.nodes, n1);
      Tree(Registered(n1, c, n), t.containers[c := MembersOf(t.containers, c) + [n]])
    case NodeSizeAdded(id, bytes) => t.(nodes := SizeAdded(t.nodes, id, bytes))
    case NodeAllocatedAdded(id, bytes) => t.(nodes := OnDiskAdded(t.nodes, id, bytes))
    case ContainerScanStarted(id) =>
      var n1 := Ensure(t.nodes, id);
      t.(nodes := n1[id := n1[id].(scanState := Scanning)])
    case ContainerScanCompleted(id) =>
      var n1 := Ensure(t.nodes, id);
      t.(nodes := n1[id := n1[id].(scanState := Complete)])
  }

  // ---------------------------------------------------------------- facts keep the invariants

  ghost predicate IsParent(nodes: Nodes, p: NodeId) {
    exists n :: n in nodes && nodes[n].parent == Some(p)
  }

  /** The stream never re-announces as a file a node that already holds members. */
  ghost predicate Announceable(nodes: Nodes, fact: Fact) {
    fact.NodeDiscovered? && fact.kind == File ==> !IsParent(nodes, fact.node)
  }

  /** The nodes differ in nothing that parents, sizes or totals depend on, up to fresh nodes. */
  ghost predicate SameNumbers(before: Nodes, after: Nodes) {
    SameParents(before, after) &&
    forall n :: n in after ==> forall axis: Axis ::
      var old_ := if n in before then before[n] else FRESH;
      Own(axis, after[n]) == Own(axis, old_) && Below(axis, after[n]) == Below(axis, old_)
  }

  lemma SameNumbersExact(before: Nodes, after: Nodes)
    requires Acyclic(before) && SameNumbers(before, after)
    ensures Acyclic(after)
    ensures forall axis: Axis :: Grand(axis, after) == Grand(axis, before)
    ensures Exact(before) ==> Exact(after)
  {
    SameParentsAcyclic(before, after);
    forall axis: Axis ensures Grand(axis, after) == Grand(axis, before) {
      var added := after.Keys - before.Keys;
      SetSumUnion(axis, after, before.Keys, added);
      assert before.Keys + added == after.Keys;
      SetSumSame(axis, before, after, before.Keys);
      SetSumSame(axis, before, after, added);
      SetSumZero(axis, before, added);
    }
    forall axis: Axis, n | n in after && Exact(before)
      ensures Below(axis, after[n]) == SetSum(axis, after, Descendants(after, n))
    {
      SameDescendants(before, after, n);
      if n !in before {
        forall m ensures n !in Ancestors(before, m) {
          AncestorsRankLower(before, m);
        }
        assert Descendants(before, n) == {};
      }
      SetSumSame(axis, before, after, Descendants(before, n));
    }
  }

  lemma {:induction false} SetSumZero(axis: Axis, nodes: Nodes, s: set<NodeId>)
    requires s !! nodes.Keys
    ensures SetSum(axis, nodes, s) == 0
    decreases s
  {
    if s != {} {
      var x :| x in s;
      SetSumOut(axis, nodes, s, x);
      SetSumZero(axis, nodes, s - {x});
    }
  }
}
