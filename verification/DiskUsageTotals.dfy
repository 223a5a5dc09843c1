/** After every fact, in any order, the descendant totals are exact. */
module DiskUsageTotals {
  import opened DiskUsageModel

  function Delta(axis: Axis, size: int, onDisk: int, effective: int): int {
    match axis
    case Apparent => size
    case OnDisk => onDisk
    case Effective => effective
  }

  lemma ShiftMoves(axis: Axis, n: Node, size: int, onDisk: int, effective: int)
    ensures Own(axis, Shift(n, size, onDisk, effective)) == Own(axis, n)
    ensures Below(axis, Shift(n, size, onDisk, effective)) == Clamp(Below(axis, n) + Delta(axis, size, onDisk, effective))
  {
  }

  /** Bump moves the totals at the given nodes, and nothing else anywhere. */
  lemma BumpEffect(axis: Axis, nodes: Nodes, at: set<NodeId>, size: int, onDisk: int, effective: int, n: NodeId)
    requires n in nodes
    ensures var r := Bump(nodes, at, size, onDisk, effective);
            n in r && Own(axis, r[n]) == Own(axis, nodes[n]) &&
            Below(axis, r[n]) == if n in at then Clamp(Below(axis, nodes[n]) + Delta(axis, size, onDisk, effective))
                                 else Below(axis, nodes[n])
  {
    ShiftMoves(axis, nodes[n], size, onDisk, effective);
  }

  lemma BumpKeepsShape(nodes: Nodes, at: set<NodeId>, size: int, onDisk: int, effective: int)
    ensures var r := Bump(nodes, at, size, onDisk, effective);
            r.Keys == nodes.Keys &&
            forall n :: n in r ==>
              r[n].parent == nodes[n].parent && r[n].kind == nodes[n].kind &&
              r[n].size == nodes[n].size && r[n].onDisk == nodes[n].onDisk
  {
  }

  lemma ResizeExactAt(axis: Axis, before: Nodes, after: Nodes, id: NodeId, delta: int, n: NodeId)
    requires Acyclic(before) && Acyclic(after) && SameParents(before, after) && after.Keys == before.Keys
    requires id in before && n in before && Exact(before) && Fits(after)
    requires forall m :: m in before && m != id ==> Own(axis, after[m]) == Own(axis, before[m])
    requires Own(axis, after[id]) == Own(axis, before[id]) + delta
    requires Below(axis, after[n]) == if n in Ancestors(before, id) then Clamp(Below(axis, before[n]) + delta) else Below(axis, before[n])
    ensures Below(axis, after[n]) == SetSum(axis, after, Descendants(after, n))
  {
    SameDescendants(before, after, n);
    SetSumChange(axis, before, after, Descendants(before, n), id);
    FitsBoundsEverySum(axis, after, Descendants(after, n));
    assert id in Descendants(before, n) <==> n in Ancestors(before, id);
  }

  /** Only the node's own sizes differ. */
  predicate OwnSizesOnly(n: Node, r: Node) {
    r == n.(size := r.size, onDisk := r.onDisk)
  }

  lemma ResizedOnEachAxis(axis: Axis, n: Node, r: Node)
    requires OwnSizesOnly(n, r)
    ensures Own(axis, r) == Own(axis, n) + Delta(axis, r.size - n.size, r.onDisk - n.onDisk, Own(Effective, r) - Own(Effective, n))
    ensures Below(axis, r) == Below(axis, n)
  {
  }

  lemma ResizeShape(nodes: Nodes, id: NodeId, node: Node)
    requires Acyclic(nodes) && id in nodes && OwnSizesOnly(nodes[id], node)
    ensures var r := Resize(nodes, id, node);
            r.Keys == nodes.Keys && SameParents(nodes, r) && Acyclic(r) &&
            forall n :: n in r ==>
              r[n].kind == nodes[n].kind &&
              r[n].size == (if n == id then node.size else nodes[n].size) &&
              r[n].onDisk == (if n == id then node.onDisk else nodes[n].onDisk)
  {
    var r := Resize(nodes, id, node);
    BumpKeepsShape(nodes[id := node], Ancestors(nodes, id), node.size - nodes[id].size, node.onDisk - nodes[id].onDisk,
      Own(Effective, node) - Own(Effective, nodes[id]));
    SameParentsAcyclic(nodes, r);
  }

  lemma ResizeEffect(axis: Axis, nodes: Nodes, id: NodeId, node: Node, n: NodeId)
    requires Acyclic(nodes) && id in nodes && OwnSizesOnly(nodes[id], node) && n in nodes
    ensures var r := Resize(nodes, id, node); var delta := Own(axis, node) - Own(axis, nodes[id]);
            n in r && Own(axis, r[n]) == Own(axis, nodes[n]) + (if n == id then delta else 0) &&
            Below(axis, r[n]) == if n in Ancestors(nodes, id) then Clamp(Below(axis, nodes[n]) + delta) else Below(axis, nodes[n])
  {
    ResizedOnEachAxis(axis, nodes[id], node);
    BumpEffect(axis, nodes[id := node], Ancestors(nodes, id), node.size - nodes[id].size, node.onDisk - nodes[id].onDisk,
      Own(Effective, node) - Own(Effective, nodes[id]), n);
  }

  /** Changing one node's own sizes and shifting its ancestors by the change keeps the totals exact. */
  lemma ResizeKeepsExact(before: Nodes, id: NodeId, node: Node)
    requires WellFormed(before) && id in before && OwnSizesOnly(before[id], node)
    ensures var after := Resize(before, id, node);
            WellFormed(after) && (Exact(before) && Fits(after) ==> Exact(after))
  {
    var after := Resize(before, id, node);
    ResizeShape(before, id, node);
    SameParentsContainers(before, after);
    if Exact(before) && Fits(after) {
      forall axis: Axis, n | n in after ensures Below(axis, after[n]) == SetSum(axis, after, Descendants(after, n)) {
        forall m | m in before ensures Own(axis, after[m]) == Own(axis, before[m]) + if m == id then Own(axis, node) - Own(axis, before[id]) else 0 {
          ResizeEffect(axis, before, id, node, m);
        }
        ResizeEffect(axis, before, id, node, n);
        ResizeExactAt(axis, before, after, id, Own(axis, node) - Own(axis, before[id]), n);
      }
    }
  }

  lemma EnsureSame(nodes: Nodes, id: NodeId)
    requires Acyclic(nodes)
    ensures SameNumbers(nodes, Ensure(nodes, id)) && Acyclic(Ensure(nodes, id))
    ensures ParentsAreContainers(nodes) ==> ParentsAreContainers(Ensure(nodes, id))
    ensures Exact(nodes) ==> Exact(Ensure(nodes, id))
  {
    SameNumbersExact(nodes, Ensure(nodes, id));
    if ParentsAreContainers(nodes) {
      SameParentsContainers(nodes, Ensure(nodes, id));
    }
  }

  lemma SizeAddedKeeps(nodes: Nodes, id: NodeId, bytes: U64)
    requires WellFormed(nodes)
    ensures var after := SizeAdded(nodes, id, bytes);
            WellFormed(after) && (Exact(nodes) && Fits(after) ==> Exact(after))
  {
    EnsureSame(nodes, id);
    ResizeKeepsExact(Ensure(nodes, id), id, MoreBytes(Ensure(nodes, id)[id], bytes));
  }

  lemma OnDiskAddedKeeps(nodes: Nodes, id: NodeId, bytes: U64)
    requires WellFormed(nodes)
    ensures var after := OnDiskAdded(nodes, id, bytes);
            WellFormed(after) && (Exact(nodes) && Fits(after) ==> Exact(after))
  {
    EnsureSame(nodes, id);
    ResizeKeepsExact(Ensure(nodes, id), id, MoreOnDisk(Ensure(nodes, id)[id], bytes));
  }

  // ---------------------------------------------------------------- linking

  /** The chains after `n`, a node without parent, is hung below `c`. */
  ghost predicate Hung(before: Nodes, after: Nodes, c: NodeId, n: NodeId) {
    before.Keys == after.Keys && c in before && n in before && before[n].parent == None &&
    forall m :: m in after ==> after[m].parent == if m == n then Some(c) else before[m].parent
  }

  lemma HungAcyclic(before: Nodes, after: Nodes, c: NodeId, n: NodeId)
    requires Acyclic(before) && Hung(before, after, c, n) && c !in Subtree(before, n)
    ensures Acyclic(after)
  {
    var sub := Subtree(before, n);
    var lower: map<NodeId, nat> :=
      map m: NodeId | m in after :: if m in sub then Rank(before, m) + Rank(before, c) + 1 else Rank(before, m);
    forall m | m in after ensures RankedAt(after, lower, m) {
      if m != n && after[m].parent.Some? {
        ParentRanksLower(before, m);
        assert Ancestors(before, m) == {before[m].parent.value} + Ancestors(before, before[m].parent.value);
      }
    }
    assert Ranked(after, lower);
  }

  lemma {:induction false} HungAncestors(before: Nodes, after: Nodes, c: NodeId, n: NodeId, m: NodeId)
    requires Acyclic(before) && Acyclic(after) && Hung(before, after, c, n) && c !in Subtree(before, n)
    ensures Ancestors(after, m) ==
            Ancestors(before, m) + (if m in Subtree(before, n) then {c} + Ancestors(before, c) else {})
    decreases Rank(after, m)
  {
    if m in after && after[m].parent.Some? {
      ParentRanksLower(after, m);
      HungAncestors(before, after, c, n, after[m].parent.value);
      if m == n {
        assert Ancestors(before, n) == {};
      } else {
        var p := before[m].parent.value;
        assert Ancestors(before, m) == {p} + Ancestors(before, p);
        assert m in Subtree(before, n) <==> p in Subtree(before, n);
      }
    }
  }

  lemma HungDescendants(before: Nodes, after: Nodes, c: NodeId, n: NodeId, x: NodeId)
    requires Acyclic(before) && Acyclic(after) && Hung(before, after, c, n) && c !in Subtree(before, n)
    ensures Descendants(after, x) ==
            Descendants(before, x) + (if x in {c} + Ancestors(before, c) then Subtree(before, n) else {})
    ensures x in {c} + Ancestors(before, c) ==> Descendants(before, x) !! Subtree(before, n)
  {
    forall m | m in before
      ensures m in Descendants(after, x) <==>
              m in Descendants(before, x) || (m in Subtree(before, n) && x in {c} + Ancestors(before, c))
    {
      HungAncestors(before, after, c, n, m);
    }
    if x in {c} + Ancestors(before, c) {
      forall m | m in Subtree(before, n) ensures m !in Descendants(before, x) {
        if x in Ancestors(before, m) {
          if m != n {
            ChainsAreLinear(before, m, n);
          }
          if x != c {
            ChainsAreLinear(before, c, x);
          }
          assert false;
        }
      }
    }
  }

  lemma AdoptExactAt(axis: Axis, before: Nodes, after: Nodes, c: NodeId, n: NodeId, x: NodeId)
    requires Acyclic(before) && Acyclic(after) && Hung(before, after, c, n) && c !in Subtree(before, n)
    requires Fits(after) && x in before
    requires Below(axis, before[x]) == SetSum(axis, before, Descendants(before, x))
    requires SetSum(axis, before, Subtree(before, n)) == Own(axis, before[n]) + Below(axis, before[n])
    requires forall m :: m in before ==> Weight(axis, before, m) == Weight(axis, after, m)
    requires Below(axis, after[x]) ==
             (if x == c || x in Ancestors(before, c)
              then Clamp(Below(axis, before[x]) + Clamp(Own(axis, before[n]) + Below(axis, before[n])))
              else Below(axis, before[x]))
    ensures Below(axis, after[x]) == SetSum(axis, after, Descendants(after, x))
  {
    HungDescendants(before, after, c, n, x);
    var d, sub := Descendants(before, x), Subtree(before, n);
    assert d <= before.Keys && sub <= before.Keys;
    if x == c || x in Ancestors(before, c) {
      assert Descendants(after, x) == d + sub;
      SetSumUnion(axis, before, d, sub);
      SetSumSame(axis, before, after, d + sub);
      FitsBoundsEverySum(axis, after, d + sub);
    } else {
      assert Descendants(after, x) == d;
      SetSumSame(axis, before, after, d);
    }
  }

  lemma SubtreeSum(axis: Axis, nodes: Nodes, n: NodeId)
    requires Acyclic(nodes) && n in nodes && Exact(nodes)
    ensures SetSum(axis, nodes, Subtree(nodes, n)) == Own(axis, nodes[n]) + Below(axis, nodes[n])
  {
    AncestorsRankLower(nodes, n);
    SetSumOut(axis, nodes, Subtree(nodes, n), n);
    assert Subtree(nodes, n) - {n} == Descendants(nodes, n);
  }

  /** Adopt's shape: who hangs where, and what no link touches. */
  lemma AdoptShape(nodes: Nodes, c: NodeId, n: NodeId)
    requires Acyclic(nodes) && c in nodes && (n in nodes ==> nodes[n].parent == None)
    ensures var n1 := Ensure(nodes, n); var after := Adopt(nodes, c, n);
            Hung(n1, after, c, n) &&
            forall m :: m in n1 ==> after[m].kind == n1[m].kind && after[m].size == n1[m].size && after[m].onDisk == n1[m].onDisk
  {
    hide Ancestors, Clamp, Bump;
    var n1 := Ensure(nodes, n);
    var k := n1[n];
    BumpKeepsShape(n1[n := k.(parent := Some(c))], {c} + Ancestors(nodes, c), Clamp(k.size + k.descendantSize),
      Clamp(k.onDisk + k.descendantOnDisk), Clamp(Own(Effective, k) + k.descendantEffective));
  }

  /** Adopt's totals: c's chain gains the subtree of n. */
  lemma AdoptEffect(axis: Axis, nodes: Nodes, c: NodeId, n: NodeId, m: NodeId)
    requires Acyclic(nodes) && c in nodes && m in Ensure(nodes, n)
    ensures var n1 := Ensure(nodes, n); var after := Adopt(nodes, c, n);
            m in after && Own(axis, after[m]) == Own(axis, n1[m]) &&
            Below(axis, after[m]) == if m in {c} + Ancestors(nodes, c)
                                     then Clamp(Below(axis, n1[m]) + Clamp(Own(axis, n1[n]) + Below(axis, n1[n])))
                                     else Below(axis, n1[m])
  {
    var n1 := Ensure(nodes, n);
    var k := n1[n];
    BumpEffect(axis, n1[n := k.(parent := Some(c))], {c} + Ancestors(nodes, c), Clamp(k.size + k.descendantSize),
      Clamp(k.onDisk + k.descendantOnDisk), Clamp(Own(Effective, k) + k.descendantEffective), m);
  }

  /** A link that is not refused joins two disjoint trees, because a node on c's chain is a container. */
  lemma AcceptedLinkIsForeign(nodes: Nodes, c: NodeId, n: NodeId)
    requires WellFormed(nodes) && c in nodes && nodes[c].kind == Container && !Refuses(nodes, c, n)
    ensures n in nodes ==> nodes[n].parent == None
    ensures var n1 := Ensure(nodes, n); Acyclic(n1) && c !in Subtree(n1, n)
  {
    EnsureSame(nodes, n);
    var n1 := Ensure(nodes, n);
    SameAncestors(nodes, n1, c);
    AncestorsRankLower(nodes, c);
    if n in Ancestors(nodes, c) {
      AncestorsAreContainers(nodes, c, n);
    }
  }

  lemma {:induction false} AncestorsAreContainers(nodes: Nodes, m: NodeId, a: NodeId)
    requires WellFormed(nodes) && a in Ancestors(nodes, m)
    ensures a in nodes && nodes[a].kind == Container
    decreases Rank(nodes, m)
  {
    ParentRanksLower(nodes, m);
    assert ParentIsContainer(nodes, m);
    if nodes[m].parent.value != a {
      AncestorsAreContainers(nodes, nodes[m].parent.value, a);
    }
  }

  lemma AdoptKeeps(nodes: Nodes, c: NodeId, n: NodeId)
    requires WellFormed(nodes) && c in nodes && nodes[c].kind == Container && !Refuses(nodes, c, n)
    ensures var after := Adopt(nodes, c, n);
            WellFormed(after) && (Exact(nodes) && Fits(after) ==> Exact(after))
  {
    hide Adopt, Fits, SetSum, Descendants, SameNumbers;
    AcceptedLinkIsForeign(nodes, c, n);
    AdoptShape(nodes, c, n);
    EnsureSame(nodes, n);
    var n1, after := Ensure(nodes, n), Adopt(nodes, c, n);
    HungAcyclic(n1, after, c, n);
    SameAncestors(nodes, n1, c);
    forall m | m in after ensures ParentIsContainer(after, m) {
      assert ParentIsContainer(n1, m);
    }
    if Exact(nodes) && Fits(after) {
      forall axis: Axis, x | x in after ensures Below(axis, after[x]) == SetSum(axis, after, Descendants(after, x)) {
        forall m | m in n1 ensures Own(axis, after[m]) == Own(axis, n1[m]) {
          AdoptEffect(axis, nodes, c, n, m);
        }
        AdoptEffect(axis, nodes, c, n, x);
        SubtreeSum(axis, n1, n);
        AdoptExactAt(axis, n1, after, c, n, x);
      }
    }
  }

  lemma {:induction false} ChainSurvivesAdoption(nodes: Nodes, after: Nodes, c: NodeId, n: NodeId, x: NodeId)
    requires Acyclic(nodes) && Acyclic(after) && n in nodes && Hung(nodes, after, c, n) && n in {x} + Ancestors(nodes, x)
    ensures n in {x} + Ancestors(after, x)
    decreases Rank(nodes, x)
  {
    if x != n {
      ParentRanksLower(nodes, x);
      ChainSurvivesAdoption(nodes, after, c, n, nodes[x].parent.value);
      ParentRanksLower(after, x);
      assert Ancestors(after, x) == {nodes[x].parent.value} + Ancestors(after, nodes[x].parent.value);
    }
  }

  /** The cycle check skips nodes announced as files. Whatever their kinds, a link that is not refused
      closes a cycle exactly when the node already lies on the container's chain, which is possible
      only for a node that was announced as a file after it had become a parent. */
  lemma LinkClosesCycleIff(nodes: Nodes, c: NodeId, n: NodeId)
    requires Acyclic(nodes) && c in nodes && nodes[c].kind == Container && !Refuses(nodes, c, n)
    ensures !Acyclic(Adopt(nodes, c, n)) <==> n in {c} + Ancestors(nodes, c)
    ensures !Acyclic(Adopt(nodes, c, n)) ==> n in nodes && nodes[n].kind == File && IsParent(nodes, n)
  {
    var after := Adopt(nodes, c, n);
    EnsureSame(nodes, n);
    AdoptShape(nodes, c, n);
    AncestorsRankLower(nodes, c);
    SameAncestors(nodes, Ensure(nodes, n), c);
    if n in {c} + Ancestors(nodes, c) {
      if n != c {
        OnChainIsParent(nodes, c, n);
      }
      if Acyclic(after) {
        ChainSurvivesAdoption(nodes, after, c, n, c);
        ParentRanksLower(after, n);
        AncestorsRankLower(after, c);
        assert false;
      }
    } else {
      HungAcyclic(Ensure(nodes, n), after, c, n);
    }
  }

  lemma {:induction false} OnChainIsParent(nodes: Nodes, m: NodeId, a: NodeId)
    requires Acyclic(nodes) && a in Ancestors(nodes, m)
    ensures IsParent(nodes, a)
    decreases Rank(nodes, m)
  {
    ParentRanksLower(nodes, m);
    if nodes[m].parent.value != a {
      OnChainIsParent(nodes, nodes[m].parent.value, a);
    } else {
      assert nodes[m].parent == Some(a);
    }
  }

  // ---------------------------------------------------------------- any stream of facts

  lemma LinkKeeps(nodes: Nodes, c: NodeId, n: NodeId)
    requires WellFormed(nodes)
    ensures var n1 := AsContainer(nodes, c);
            Acyclic(n1) && var after := Registered(n1, c, n);
            WellFormed(after) && (Exact(nodes) && Fits(after) ==> Exact(after))
  {
    var n1 := AsContainer(nodes, c);
    SameNumbersExact(nodes, n1);
    SameParentsContainers(nodes, n1);
    if !Refuses(n1, c, n) {
      AdoptKeeps(n1, c, n);
    }
  }

  lemma DiscoveryKeeps(t: Tree, id: NodeId, kind: Kind)
    requires WellFormed(t.nodes) && Announceable(t.nodes, NodeDiscovered(id, kind))
    ensures var after := Applied(t, NodeDiscovered(id, kind)).nodes;
            WellFormed(after) && (Exact(t.nodes) ==> Exact(after))
  {
    var after := Applied(t, NodeDiscovered(id, kind)).nodes;
    SameNumbersExact(t.nodes, after);
    forall n | n in after ensures ParentIsContainer(after, n) {
      if n in t.nodes {
        assert ParentIsContainer(t.nodes, n);
        assert t.nodes[n].parent == Some(id) ==> IsParent(t.nodes, id);
      }
    }
  }

  lemma ScanStateKeeps(t: Tree, fact: Fact)
    requires WellFormed(t.nodes) && (fact.ContainerScanStarted? || fact.ContainerScanCompleted?)
    ensures var after := Applied(t, fact).nodes;
            WellFormed(after) && (Exact(t.nodes) ==> Exact(after))
  {
    SameNumbersExact(t.nodes, Applied(t, fact).nodes);
    SameParentsContainers(t.nodes, Applied(t, fact).nodes);
  }

  /** One fact, whatever came before: chains stay acyclic and inside the tree, and the totals stay
      exact as long as they fit u64. */
  lemma FactKeepsTotals(t: Tree, fact: Fact)
    requires WellFormed(t.nodes) && Announceable(t.nodes, fact)
    ensures var after := Applied(t, fact).nodes;
            WellFormed(after) && (Exact(t.nodes) && Fits(after) ==> Exact(after))
  {
    match fact
    case NodeSizeAdded(id, bytes) => SizeAddedKeeps(t.nodes, id, bytes);
    case NodeAllocatedAdded(id, bytes) => OnDiskAddedKeeps(t.nodes, id, bytes);
    case NodeLinked(c, n) => LinkKeeps(t.nodes, c, n);
    case NodeDiscovered(id, kind) => DiscoveryKeeps(t, id, kind);
    case ContainerScanStarted(_) => ScanStateKeeps(t, fact);
    case ContainerScanCompleted(_) => ScanStateKeeps(t, fact);
  }

  ghost predicate GrownFrom(nodes: Nodes, after: Nodes, n: NodeId)
    requires n in after
  {
    var before := if n in nodes then nodes[n] else FRESH;
    before.size <= after[n].size && before.onDisk <= after[n].onDisk
  }

  lemma LinkGrows(nodes: Nodes, c: NodeId, m: NodeId, n: NodeId)
    requires Acyclic(nodes)
    ensures var n1 := AsContainer(nodes, c);
            Acyclic(n1) && (n in Registered(n1, c, m) ==> GrownFrom(nodes, Registered(n1, c, m), n))
  {
    var n1 := AsContainer(nodes, c);
    SameParentsAcyclic(nodes, n1);
    if !Refuses(n1, c, m) {
      AdoptShape(n1, c, m);
    }
  }

  /** A node's own sizes never shrink. */
  lemma FactGrows(t: Tree, fact: Fact, n: NodeId)
    requires WellFormed(t.nodes) && Announceable(t.nodes, fact) && n in Applied(t, fact).nodes
    ensures GrownFrom(t.nodes, Applied(t, fact).nodes, n)
  {
    hide Registered, Resize, SetSum, Descendants;
    match fact
    case NodeLinked(c, m) => LinkGrows(t.nodes, c, m, n);
    case NodeSizeAdded(id, bytes) =>
      EnsureSame(t.nodes, id);
      ResizeShape(Ensure(t.nodes, id), id, MoreBytes(Ensure(t.nodes, id)[id], bytes));
    case NodeAllocatedAdded(id, bytes) =>
      EnsureSame(t.nodes, id);
      ResizeShape(Ensure(t.nodes, id), id, MoreOnDisk(Ensure(t.nodes, id)[id], bytes));
    case _ =>
  }

  lemma FactKeepsNodes(t: Tree, fact: Fact)
    requires WellFormed(t.nodes) && Announceable(t.nodes, fact)
    ensures t.nodes.Keys <= Applied(t, fact).nodes.Keys
  {
    match fact
    case NodeLinked(c, m) =>
      var n1 := AsContainer(t.nodes, c);
      SameParentsAcyclic(t.nodes, n1);
      if !Refuses(n1, c, m) {
        AdoptShape(n1, c, m);
      }
    case _ =>
  }

  lemma {:induction false} SetSumMonotone(axis: Axis, before: Nodes, after: Nodes, s: set<NodeId>)
    requires forall n :: n in s ==> Weight(axis, before, n) <= Weight(axis, after, n)
    ensures SetSum(axis, before, s) <= SetSum(axis, after, s)
    decreases s
  {
    if s != {} {
      var x :| x in s;
      SetSumOut(axis, before, s, x);
      SetSumOut(axis, after, s, x);
      SetSumMonotone(axis, before, after, s - {x});
    }
  }

  lemma FitsBackwards(t: Tree, fact: Fact)
    requires WellFormed(t.nodes) && Announceable(t.nodes, fact)
    requires Fits(Applied(t, fact).nodes)
    ensures Fits(t.nodes)
  {
    var after := Applied(t, fact).nodes;
    FactKeepsNodes(t, fact);
    forall n | n in t.nodes ensures t.nodes[n].size <= after[n].size && t.nodes[n].onDisk <= after[n].onDisk {
      FactGrows(t, fact, n);
    }
    SetSumMonotone(Apparent, t.nodes, after, t.nodes.Keys);
    SetSumMonotone(OnDisk, t.nodes, after, t.nodes.Keys);
    SetSumSubset(Apparent, after, t.nodes.Keys, after.Keys);
    SetSumSubset(OnDisk, after, t.nodes.Keys, after.Keys);
  }

  ghost predicate Stream(t: Tree, facts: seq<Fact>)
    requires WellFormed(t.nodes)
    decreases facts
  {
    facts != [] ==>
      Announceable(t.nodes, facts[0]) &&
      (FactKeepsTotals(t, facts[0]); Stream(Applied(t, facts[0]), facts[1..]))
  }

  ghost function AppliedAll(t: Tree, facts: seq<Fact>): Tree
    requires WellFormed(t.nodes) && Stream(t, facts)
    decreases facts
  {
    if facts == [] then t
    else
      FactKeepsTotals(t, facts[0]);
      AppliedAll(Applied(t, facts[0]), facts[1..])
  }

  /** A whole stream, in any order of links, sizes and announcements: if the final byte and block
      counts together fit u64, every total along the way and at the end was exact. */
  lemma {:induction false} StreamKeepsTotals(t: Tree, facts: seq<Fact>)
    requires WellFormed(t.nodes) && Stream(t, facts)
    ensures var end := AppliedAll(t, facts).nodes;
            WellFormed(end) && (Fits(end) ==> Fits(t.nodes)) &&
            (Exact(t.nodes) && Fits(end) ==> Exact(end))
    decreases facts
  {
    if facts != [] {
      FactKeepsTotals(t, facts[0]);
      StreamKeepsTotals(Applied(t, facts[0]), facts[1..]);
      if Fits(AppliedAll(t, facts).nodes) {
        FitsBackwards(t, facts[0]);
      }
    }
  }

  function NewTree(root: NodeId): Tree {
    Tree(map[root := FRESH], map[])
  }

  lemma NewTreeIsExact(root: NodeId)
    ensures WellFormed(NewTree(root).nodes) && Exact(NewTree(root).nodes)
  {
    var nodes := NewTree(root).nodes;
    assert RankedAt(nodes, map[root := 0], root);
    assert Ranked(nodes, map[root := 0]);
    AncestorsRankLower(nodes, root);
    assert Descendants(nodes, root) == {};
  }

  lemma RootHoldsTwo(t: Tree)
    requires t == NewTree(1) && WellFormed(t.nodes)
    ensures var t1 := Applied(t, NodeLinked(1, 2));
            WellFormed(t1.nodes) && t1.nodes.Keys == {1, 2} && t1.nodes[2].parent == Some(1) && t1.nodes[1].parent == None &&
            IsParent(t1.nodes, 1)
  {
    hide Adopt;
    FactKeepsTotals(t, NodeLinked(1, 2));
    var n1 := AsContainer(t.nodes, 1);
    SameParentsAcyclic(t.nodes, n1);
    AdoptShape(n1, 1, 2);
    assert Applied(t, NodeLinked(1, 2)).nodes[2].parent == Some(1);
  }

  lemma FileAboveIsLinked(nodes: Nodes)
    requires Acyclic(nodes) && nodes.Keys == {1, 2} && nodes[1].kind == File && nodes[1].parent == None && nodes[2].parent == Some(1)
    ensures var n1 := AsContainer(nodes, 2); Acyclic(n1) && !Refuses(n1, 2, 1) && !Acyclic(Registered(n1, 2, 1))
  {
    hide Adopt;
    var n1 := AsContainer(nodes, 2);
    SameParentsAcyclic(nodes, n1);
    LinkClosesCycleIff(n1, 2, 1);
    assert Ancestors(n1, 2) == {1} + Ancestors(n1, 1);
  }

  /** A stream that closes a cycle: the root holds 2, is announced again as a file, and is then linked
      below 2. Only the second announcement is out of order; the link is accepted. */
  lemma ReannouncedParentClosesCycle()
    ensures WellFormed(NewTree(1).nodes) && Announceable(NewTree(1).nodes, NodeLinked(1, 2))
    ensures var t1 := Applied(NewTree(1), NodeLinked(1, 2));
            WellFormed(t1.nodes) && !Announceable(t1.nodes, NodeDiscovered(1, File)) &&
            var t2 := Applied(t1, NodeDiscovered(1, File));
            Acyclic(t2.nodes) && Announceable(t2.nodes, NodeLinked(2, 1)) && Acyclic(AsContainer(t2.nodes, 2)) &&
            !Refuses(AsContainer(t2.nodes, 2), 2, 1) && !Acyclic(Applied(t2, NodeLinked(2, 1)).nodes)
  {
    hide Registered, Refuses, Acyclic, ParentsAreContainers, AsContainer;
    NewTreeIsExact(1);
    RootHoldsTwo(NewTree(1));
    var t1 := Applied(NewTree(1), NodeLinked(1, 2));
    var t2 := Applied(t1, NodeDiscovered(1, File));
    SameParentsAcyclic(t1.nodes, t2.nodes);
    FileAboveIsLinked(t2.nodes);
  }
}
