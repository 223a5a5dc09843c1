/** The mutable disk-usage tree: totals are pushed up parent chains by loops, one hop at a time. Each
    method is tied to the function of DiskUsageModel that says what it does to the whole tree. */
module DiskUsageObject {
  import opened DiskUsageModel
  import opened DiskUsageTotals

  /** `gone` is what a walk along container edges from `id` deletes: the least set that holds `id` and
      the members of each container in it. */
  ghost predicate Reach(containers: map<NodeId, seq<NodeId>>, id: NodeId, gone: set<NodeId>) {
    id in gone && MembersClosed(containers, gone) &&
    forall s: set<NodeId> :: id in s && MembersClosed(containers, s) ==> gone <= s
  }

  ghost predicate MembersClosed(containers: map<NodeId, seq<NodeId>>, s: set<NodeId>) {
    forall c, m :: c in s && m in MembersOf(containers, c) ==> m in s
  }

  function Negated(n: int): int { -n }

  /** The chain above `id` gives up id's subtree, then `gone` disappears with its edges. */
  ghost function Removed(t: Tree, id: NodeId, gone: set<NodeId>): Tree
    requires Acyclic(t.nodes)
  {
    var nodes :=
      if id in t.nodes then
        var k := t.nodes[id];
        Bump(t.nodes, Ancestors(t.nodes, id), Negated(Clamp(k.size + k.descendantSize)),
             Negated(Clamp(k.onDisk + k.descendantOnDisk)), Negated(Clamp(Own(Effective, k) + k.descendantEffective)))
      else t.nodes;
    Tree(nodes - gone, map c | c in t.containers && c !in gone :: Without(t.containers[c], id))
  }

  function Without(members: seq<NodeId>, id: NodeId): seq<NodeId> {
    if members == [] then []
    else (if members[0] == id then [] else [members[0]]) + Without(members[1..], id)
  }

  // What a write at one node followed by a propagation amounts to.

  lemma WriteThenPropagate(before: Nodes, id: NodeId, node: Node)
    requires Acyclic(before) && id in before && OwnSizesOnly(before[id], node)
    ensures var mid := before[id := node];
            Acyclic(mid) && Ancestors(mid, id) == Ancestors(before, id) &&
            Resize(before, id, node) == Bump(mid, Ancestors(mid, id), node.size - before[id].size,
              node.onDisk - before[id].onDisk, Own(Effective, node) - Own(Effective, before[id]))
  {
    var mid := before[id := node];
    SameParentsAcyclic(before, mid);
    SameAncestors(before, mid, id);
  }

  lemma TwoPropagations(nodes: Nodes, at: set<NodeId>, onDisk: int, effective: U64)
    ensures Bump(Bump(nodes, at, 0, onDisk, 0), at, 0, 0, Negated(effective)) == Bump(nodes, at, 0, onDisk, Negated(effective))
  {
  }

  lemma BumpKeepsChains(nodes: Nodes, at: set<NodeId>, size: int, onDisk: int, effective: int, id: NodeId)
    requires Acyclic(nodes)
    ensures var r := Bump(nodes, at, size, onDisk, effective); Acyclic(r) && Ancestors(r, id) == Ancestors(nodes, id)
  {
    var r := Bump(nodes, at, size, onDisk, effective);
    BumpKeepsShape(nodes, at, size, onDisk, effective);
    SameParentsAcyclic(nodes, r);
    SameAncestors(nodes, r, id);
  }

  lemma LinkHangs(before: Nodes, c: NodeId, n: NodeId)
    requires c in before && (n in before ==> before[n].parent == None)
    ensures var n1 := Ensure(before, n); Hung(n1, n1[n := n1[n].(parent := Some(c))], c, n)
  {
  }

  lemma LinkThenPropagate(before: Nodes, c: NodeId, n: NodeId)
    requires WellFormed(before) && c in before && before[c].kind == Container && !Refuses(before, c, n)
    ensures var n1 := Ensure(before, n); var k := n1[n]; var mid := n1[n := k.(parent := Some(c))];
            Acyclic(mid) &&
            Adopt(before, c, n) == Bump(mid, Ancestors(mid, n), Clamp(k.size + k.descendantSize),
              Clamp(k.onDisk + k.descendantOnDisk), Clamp(Own(Effective, k) + k.descendantEffective))
  {
    var n1 := Ensure(before, n);
    var mid := n1[n := n1[n].(parent := Some(c))];
    hide Hung, Exact, Acyclic, ParentsAreContainers, SameNumbers;
    AcceptedLinkIsForeign(before, c, n);
    EnsureSame(before, n);
    LinkHangs(before, c, n);
    HungRoot(n1, mid, c, n);
    SameAncestors(before, n1, c);
  }

  lemma HungRoot(before: Nodes, after: Nodes, c: NodeId, n: NodeId)
    requires Acyclic(before) && Hung(before, after, c, n) && c !in Subtree(before, n)
    ensures Acyclic(after) && Ancestors(after, n) == {c} + Ancestors(before, c)
  {
    HungAcyclic(before, after, c, n);
    HungAncestors(before, after, c, n, c);
    assert Ancestors(after, n) == {c} + Ancestors(after, c);
  }

  /** Half-way through the deletion: everything owed is deleted or on the stack, nothing else is. */
  ghost predicate Swept(containers: map<NodeId, seq<NodeId>>, id: NodeId, gone: set<NodeId>, stack: seq<NodeId>) {
    (id in gone || id in stack) &&
    (forall c, m :: c in gone && m in MembersOf(containers, c) ==> m in gone || m in stack) &&
    (forall s: set<NodeId> :: id in s && MembersClosed(containers, s) ==> gone <= s && forall x :: x in stack ==> x in s)
  }

  lemma SweepOne(containers: map<NodeId, seq<NodeId>>, id: NodeId, gone: set<NodeId>, stack: seq<NodeId>, n: NodeId)
    requires Swept(containers, id, gone, stack + [n])
    ensures Swept(containers, id, gone + {n}, stack + (if n in gone then [] else MembersOf(containers, n)))
  {
    assert n in stack + [n];
    forall x | x in stack ensures x in stack + [n] {}
    forall x | x in stack + [n] ensures x in stack || x == n {}
  }

  lemma MinusOne<V>(m: map<NodeId, V>, gone: set<NodeId>, n: NodeId)
    ensures (m - gone) - {n} == m - (gone + {n})
    ensures n in m - gone ==> ((m - gone) - {n}).Keys < (m - gone).Keys
    ensures n !in m - gone ==> (m - gone) - {n} == m - gone
  {
    if n in m - gone {
      assert ((m - gone) - {n}).Keys == (m - gone).Keys - {n};
    }
  }

  class DiskUsageTree {
    var nodes: Nodes
    var containers: map<NodeId, seq<NodeId>>
    const root: NodeId
    var complete: bool

    ghost function View(): Tree
      reads this
    {
      Tree(nodes, containers)
    }

    constructor (root: NodeId)
      ensures this.root == root && View() == NewTree(root) && !complete
    {
      this.root := root;
      nodes, containers, complete := map[root := FRESH], map[], false;
    }

    method EnsureNode(id: NodeId)
      modifies this`nodes
      ensures nodes == Ensure(old(nodes), id)
    {
      if id !in nodes {
        nodes := nodes[id := FRESH];
      }
    }

    method ParentChainContains(start: NodeId, needle: NodeId) returns (found: bool)
      requires Acyclic(nodes)
      ensures found <==> needle == start || needle in Ancestors(nodes, start)
    {
      var current := start;
      while true
        invariant needle == start || needle in Ancestors(nodes, start) <==>
                  needle == current || needle in Ancestors(nodes, current)
        decreases Rank(nodes, current)
      {
        if current == needle {
          return true;
        }
        if current !in nodes || nodes[current].parent.None? {
          return false;
        }
        ParentRanksLower(nodes, current);
        current := nodes[current].parent.value;
      }
    }

    method PropagateAdd(node: NodeId, size: U64, onDisk: U64, effective: U64)
      requires Acyclic(nodes)
      modifies this`nodes
      ensures nodes == Bump(old(nodes), Ancestors(old(nodes), node), size, onDisk, effective)
    {
      var current := node;
      ghost var start := nodes;
      ghost var done: set<NodeId> := {};
      while current in nodes && nodes[current].parent.Some?
        invariant nodes == Bump(start, done, size, onDisk, effective)
        invariant Ancestors(start, node) == done + Ancestors(start, current)
        invariant done !! Ancestors(start, current)
        decreases Rank(start, current)
      {
        var p := nodes[current].parent.value;
        ParentRanksLower(start, current);
        AncestorsRankLower(start, p);
        nodes := nodes[p := Shift(nodes[p], size, onDisk, effective)];
        done := done + {p};
        current := p;
      }
      assert Ancestors(start, node) == done;
    }

    method PropagateEffectiveSub(node: NodeId, bytes: U64)
      requires Acyclic(nodes)
      modifies this`nodes
      ensures nodes == Bump(old(nodes), Ancestors(old(nodes), node), 0, 0, Negated(bytes))
    {
      var current := node;
      ghost var start := nodes;
      ghost var done: set<NodeId> := {};
      while current in nodes && nodes[current].parent.Some?
        invariant nodes == Bump(start, done, 0, 0, Negated(bytes))
        invariant Ancestors(start, node) == done + Ancestors(start, current)
        invariant done !! Ancestors(start, current)
        decreases Rank(start, current)
      {
        var p := nodes[current].parent.value;
        ParentRanksLower(start, current);
        AncestorsRankLower(start, p);
        if p in nodes {
          var k := nodes[p];
          nodes := nodes[p := k.(descendantEffective := Clamp(k.descendantEffective - bytes))];
        }
        done := done + {p};
        current := p;
      }
      assert Ancestors(start, node) == done;
    }

    method RegisterParent(container: NodeId, node: NodeId)
      requires WellFormed(nodes) && container in nodes && nodes[container].kind == Container
      modifies this`nodes
      ensures nodes == Registered(old(nodes), container, node)
    {
      if node in nodes && nodes[node].kind == Container {
        var cycle := ParentChainContains(container, node);
        if cycle {
          return;
        }
      }
      if node in nodes && nodes[node].parent.Some? {
        return;
      }
      LinkThenPropagate(nodes, container, node);
      EnsureNode(node);
      var k := nodes[node];
      nodes := nodes[node := k.(parent := Some(container))];
      PropagateAdd(node, Clamp(k.size + k.descendantSize), Clamp(k.onDisk + k.descendantOnDisk),
        Clamp(Own(Effective, k) + k.descendantEffective));
    }

    method AddLinkUnchecked(container: NodeId, node: NodeId)
      requires WellFormed(nodes) && container in nodes && nodes[container].kind == Container
      modifies this`nodes, this`containers
      ensures nodes == Registered(old(nodes), container, node)
      ensures containers == old(containers)[container := MembersOf(old(containers), container) + [node]]
    {
      containers := containers[container := (if container in containers then containers[container] else []) + [node]];
      RegisterParent(container, node);
    }

    method AddSize(id: NodeId, bytes: U64)
      requires Acyclic(nodes)
      modifies this`nodes
      ensures nodes == SizeAdded(old(nodes), id, bytes)
    {
      hide Resize, SameNumbers, ParentsAreContainers, Exact, Bump;
      ghost var before := nodes;
      EnsureNode(id);
      EnsureSame(before, id);
      var k := nodes[id];
      var grown := k.(size := Clamp(k.size + bytes));
      var delta := grown.size - k.size;
      WriteThenPropagate(nodes, id, grown);
      nodes := nodes[id := grown];
      PropagateAdd(id, delta, 0, if k.onDisk == 0 then delta else 0);
    }

    method AddAllocated(id: NodeId, bytes: U64)
      requires Acyclic(nodes)
      modifies this`nodes
      ensures nodes == OnDiskAdded(old(nodes), id, bytes)
    {
      hide Resize, SameNumbers, Exact, Bump, RankedAt;
      ghost var before := nodes;
      EnsureNode(id);
      EnsureSame(before, id);
      var k := nodes[id];
      var oldEffective := if k.onDisk > 0 then k.onDisk else k.size;
      var grown := k.(onDisk := Clamp(k.onDisk + bytes));
      var newEffective := if grown.onDisk > 0 then grown.onDisk else grown.size;
      WriteThenPropagate(nodes, id, grown);
      nodes := nodes[id := grown];
      ghost var mid := nodes;
      if newEffective >= oldEffective {
        PropagateAdd(id, 0, grown.onDisk - k.onDisk, newEffective - oldEffective);
      } else {
        PropagateAdd(id, 0, grown.onDisk - k.onDisk, 0);
        BumpKeepsChains(mid, Ancestors(mid, id), 0, grown.onDisk - k.onDisk, 0, id);
        TwoPropagations(mid, Ancestors(mid, id), grown.onDisk - k.onDisk, oldEffective - newEffective);
        PropagateEffectiveSub(id, oldEffective - newEffective);
      }
    }

    method ApplyFact(fact: Fact)
      requires WellFormed(nodes) && Announceable(nodes, fact)
      modifies this`nodes, this`containers
      ensures View() == Applied(old(View()), fact)
      ensures WellFormed(nodes) && (old(Exact(nodes)) && Fits(nodes) ==> Exact(nodes))
    {
      FactKeepsTotals(View(), fact);
      match fact
      case NodeDiscovered(id, kind) =>
        EnsureNode(id);
        nodes := nodes[id := nodes[id].(kind := kind)];
      case NodeLinked(c, n) =>
        ghost var before := nodes;
        EnsureNode(c);
        nodes := nodes[c := nodes[c].(kind := Container)];
        SameParentsAcyclic(before, nodes);
        SameParentsContainers(before, nodes);
        AddLinkUnchecked(c, n);
      case NodeSizeAdded(id, bytes) =>
        AddSize(id, bytes);
      case NodeAllocatedAdded(id, bytes) =>
        AddAllocated(id, bytes);
      case ContainerScanStarted(id) =>
        EnsureNode(id);
        nodes := nodes[id := nodes[id].(scanState := Scanning)];
      case ContainerScanCompleted(id) =>
        EnsureNode(id);
        nodes := nodes[id := nodes[id].(scanState := Complete)];
    }

    method ApplyFacts(facts: seq<Fact>)
      requires WellFormed(nodes) && Stream(View(), facts)
      modifies this`nodes, this`containers
      ensures View() == AppliedAll(old(View()), facts)
      ensures WellFormed(nodes) && (old(Exact(nodes)) && Fits(nodes) ==> Exact(nodes))
    {
      ghost var start := View();
      StreamKeepsTotals(start, facts);
      for i := 0 to |facts|
        invariant WellFormed(nodes) && Stream(View(), facts[i..])
        invariant AppliedAll(View(), facts[i..]) == AppliedAll(start, facts)
      {
        assert facts[i..][1..] == facts[i + 1..];
        ApplyFact(facts[i]);
      }
    }

    method RemoveSubtree(id: NodeId) returns (ghost gone: set<NodeId>)
      requires Acyclic(nodes)
      modifies this`nodes, this`containers
      ensures Reach(old(containers), id, gone)
      ensures View() == Removed(old(View()), id, gone)
    {
      if id in nodes {
        var k := nodes[id];
        SubtractAbove(id, Clamp(k.size + k.descendantSize), Clamp(k.onDisk + k.descendantOnDisk),
          Clamp(Own(Effective, k) + k.descendantEffective));
      }
      gone := DeleteMembers(id);
      RetainOthers(id);
    }

    method SubtractAbove(id: NodeId, size: U64, onDisk: U64, effective: U64)
      requires Acyclic(nodes)
      modifies this`nodes
      ensures nodes == Bump(old(nodes), Ancestors(old(nodes), id), Negated(size), Negated(onDisk), Negated(effective))
    {
      var current := id;
      ghost var start := nodes;
      ghost var done: set<NodeId> := {};
      while current in nodes && nodes[current].parent.Some?
        invariant nodes == Bump(start, done, Negated(size), Negated(onDisk), Negated(effective))
        invariant Ancestors(start, id) == done + Ancestors(start, current)
        invariant done !! Ancestors(start, current)
        decreases Rank(start, current)
      {
        var p := nodes[current].parent.value;
        ParentRanksLower(start, current);
        AncestorsRankLower(start, p);
        if p in nodes {
          nodes := nodes[p := Shift(nodes[p], Negated(size), Negated(onDisk), Negated(effective))];
        }
        done := done + {p};
        current := p;
      }
      assert Ancestors(start, id) == done;
    }

    method DeleteMembers(id: NodeId) returns (ghost gone: set<NodeId>)
      modifies this`nodes, this`containers
      ensures Reach(old(containers), id, gone)
      ensures nodes == old(nodes) - gone
      ensures containers == old(containers) - gone
    {
      ghost var nodes0, containers0 := nodes, containers;
      var stack := [id];
      gone := {};
      while stack != []
        invariant nodes == nodes0 - gone && containers == containers0 - gone
        invariant Swept(containers0, id, gone, stack)
        decreases containers.Keys, |stack|
      {
        var n := stack[|stack| - 1];
        SweepOne(containers0, id, gone, stack[..|stack| - 1], n);
        assert stack == stack[..|stack| - 1] + [n];
        MinusOne(nodes0, gone, n);
        MinusOne(containers0, gone, n);
        assert MembersOf(containers, n) == if n in gone then [] else MembersOf(containers0, n);
        stack := stack[..|stack| - 1] + MembersOf(containers, n);
        nodes, containers := nodes - {n}, containers - {n};
        gone := gone + {n};
      }
    }

    method RetainOthers(id: NodeId)
      modifies this`containers
      ensures containers == map c | c in old(containers) :: Without(old(containers)[c], id)
    {
      ghost var before := containers;
      var todo := containers.Keys;
      while todo != {}
        invariant todo <= before.Keys
        invariant containers.Keys == before.Keys
        invariant forall c :: c in before ==> containers[c] == if c in todo then before[c] else Without(before[c], id)
        decreases todo
      {
        var c :| c in todo;
        var kept := Retained(containers[c], id);
        containers := containers[c := kept];
        todo := todo - {c};
      }
    }
  }

  lemma {:induction false} WithoutKeepsOthers(members: seq<NodeId>, id: NodeId, m: NodeId)
    ensures m in Without(members, id) <==> m in members && m != id
  {
    if members != [] {
      WithoutKeepsOthers(members[1..], id, m);
    }
  }

  lemma WithoutFirst(members: seq<NodeId>, i: nat, id: NodeId, kept: seq<NodeId>)
    requires i < |members|
    ensures kept + Without(members[i..], id) ==
            (if members[i] != id then kept + [members[i]] else kept) + Without(members[i + 1..], id)
  {
    assert members[i..][1..] == members[i + 1..];
  }

  lemma WithoutNothing(kept: seq<NodeId>, members: seq<NodeId>, id: NodeId)
    ensures kept + Without(members[|members|..], id) == kept
  {
  }

  method Retained(members: seq<NodeId>, id: NodeId) returns (kept: seq<NodeId>)
    ensures kept == Without(members, id)
    ensures forall m :: m in kept <==> m in members && m != id
  {
    hide Without;
    kept := [];
    assert members[0..] == members;
    for i := 0 to |members|
      invariant kept + Without(members[i..], id) == Without(members, id)
    {
      WithoutFirst(members, i, id, kept);
      if members[i] != id {
        kept := kept + [members[i]];
      }
    }
    WithoutNothing(kept, members, id);
    forall m ensures m in kept <==> m in members && m != id {
      WithoutKeepsOthers(members, id, m);
    }
  }
}
