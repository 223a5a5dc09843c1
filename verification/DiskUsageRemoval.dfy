/** Removing a subtree keeps the totals exact when every node is linked from one container. */
module DiskUsageRemoval {
  import opened DiskUsageModel
  import opened DiskUsageTotals
  import opened DiskUsageObject

  /** Container edges are exactly the parent edges, without repetition: what the scanner produces. */
  ghost predicate OneContainer(t: Tree) {
    (forall c: NodeId, m: NodeId :: m in MembersOf(t.containers, c) ==> m in t.nodes && t.nodes[m].parent == Some(c)) &&
    (forall n :: n in t.nodes && t.nodes[n].parent.Some? ==> n in MembersOf(t.containers, t.nodes[n].parent.value)) &&
    (forall c :: Distinct(MembersOf(t.containers, c)))
  }

  predicate Distinct(s: seq<NodeId>) {
    forall i, j :: 0 <= i < j < |s| ==> s[i] != s[j]
  }

  /** A tree as a scan leaves it. */
  ghost predicate Sound(t: Tree) {
    WellFormed(t.nodes) && OneContainer(t) && Exact(t.nodes) && Fits(t.nodes)
  }

  lemma {:induction false} DescendantsAreGone(t: Tree, id: NodeId, gone: set<NodeId>, m: NodeId)
    requires Acyclic(t.nodes) && OneContainer(t) && Reach(t.containers, id, gone) && m in Descendants(t.nodes, id)
    ensures m in gone
    decreases Rank(t.nodes, m)
  {
    var p := t.nodes[m].parent.value;
    ParentRanksLower(t.nodes, m);
    if p != id {
      DescendantsAreGone(t, id, gone, p);
    }
    assert m in MembersOf(t.containers, p);
  }

  lemma GoneIsSubtree(t: Tree, id: NodeId, gone: set<NodeId>)
    requires Acyclic(t.nodes) && OneContainer(t) && Reach(t.containers, id, gone)
    ensures gone == Subtree(t.nodes, id)
  {
    forall m | m in Descendants(t.nodes, id) ensures m in gone {
      DescendantsAreGone(t, id, gone, m);
    }
    forall c, m | c in Subtree(t.nodes, id) && m in MembersOf(t.containers, c) ensures m in Subtree(t.nodes, id) {
      assert Ancestors(t.nodes, m) == {c} + Ancestors(t.nodes, c);
    }
  }

  /** After dropping a subtree, every surviving chain is what it was. */
  lemma {:induction false} SurvivingAncestors(before: Nodes, after: Nodes, id: NodeId, n: NodeId)
    requires Acyclic(before) && Acyclic(after) && n in after
    requires forall m :: m in after <==> m in before && m !in Subtree(before, id)
    requires forall m :: m in after ==> after[m].parent == before[m].parent
    ensures Ancestors(after, n) == Ancestors(before, n)
    decreases Rank(before, n)
  {
    if before[n].parent.Some? {
      var p := before[n].parent.value;
      ParentRanksLower(before, n);
      assert Ancestors(before, n) == {p} + Ancestors(before, p);
      SurvivingAncestors(before, after, id, p);
    }
  }

  lemma SurvivorsAcyclic(before: Nodes, after: Nodes, id: NodeId)
    requires Acyclic(before)
    requires forall m :: m in after <==> m in before && m !in Subtree(before, id)
    requires forall m :: m in after ==> after[m].parent == before[m].parent
    ensures Acyclic(after)
  {
    var depth: map<NodeId, nat> := map n: NodeId | n in after :: Rank(before, n);
    forall n | n in after ensures RankedAt(after, depth, n) {
      if after[n].parent.Some? {
        ParentRanksLower(before, n);
        assert Ancestors(before, n) == {after[n].parent.value} + Ancestors(before, after[n].parent.value);
      }
    }
    assert Ranked(after, depth);
  }

  lemma SurvivingDescendants(before: Nodes, after: Nodes, id: NodeId, n: NodeId)
    requires Acyclic(before) && Acyclic(after) && id in before && n in after
    requires forall m :: m in after <==> m in before && m !in Subtree(before, id)
    requires forall m :: m in after ==> after[m].parent == before[m].parent
    ensures n in Ancestors(before, id) ==>
              Subtree(before, id) <= Descendants(before, n) &&
              Descendants(after, n) == Descendants(before, n) - Subtree(before, id)
    ensures n !in Ancestors(before, id) ==> Descendants(after, n) == Descendants(before, n)
  {
    forall m | m in after ensures Ancestors(after, m) == Ancestors(before, m) {
      SurvivingAncestors(before, after, id, m);
    }
    forall m | m in Subtree(before, id)
      ensures m in Descendants(before, n) <==> n in Ancestors(before, id)
    {
      if m != id {
        ChainsAreLinear(before, m, id);
        if n in Ancestors(before, m) {
          assert n !in Subtree(before, id);
        }
      }
    }
  }

  lemma RemovedShape(t: Tree, id: NodeId, gone: set<NodeId>, n: NodeId)
    requires Acyclic(t.nodes) && n in Removed(t, id, gone).nodes
    ensures var after := Removed(t, id, gone).nodes;
            n in t.nodes && n !in gone && after[n].parent == t.nodes[n].parent && after[n].kind == t.nodes[n].kind &&
            after[n].size == t.nodes[n].size && after[n].onDisk == t.nodes[n].onDisk
  {
    if id in t.nodes {
      var k := t.nodes[id];
      BumpKeepsShape(t.nodes, Ancestors(t.nodes, id), Negated(Clamp(k.size + k.descendantSize)),
        Negated(Clamp(k.onDisk + k.descendantOnDisk)), Negated(Clamp(Own(Effective, k) + k.descendantEffective)));
    }
  }

  lemma RemovedEffect(axis: Axis, t: Tree, id: NodeId, gone: set<NodeId>, n: NodeId)
    requires Acyclic(t.nodes) && id in t.nodes && n in t.nodes && n !in gone
    ensures var after := Removed(t, id, gone).nodes; var k := t.nodes[id];
            n in after && Own(axis, after[n]) == Own(axis, t.nodes[n]) &&
            Below(axis, after[n]) == if n in Ancestors(t.nodes, id)
                                     then Clamp(Below(axis, t.nodes[n]) - Clamp(Own(axis, k) + Below(axis, k)))
                                     else Below(axis, t.nodes[n])
  {
    var k := t.nodes[id];
    BumpEffect(axis, t.nodes, Ancestors(t.nodes, id), Negated(Clamp(k.size + k.descendantSize)),
      Negated(Clamp(k.onDisk + k.descendantOnDisk)), Negated(Clamp(Own(Effective, k) + k.descendantEffective)), n);
  }

  /** What survives, and that survivors keep their parent, kind and own sizes. */
  lemma RemovedSurvivors(t: Tree, id: NodeId, gone: set<NodeId>)
    requires Acyclic(t.nodes) && id in t.nodes
    ensures var after := Removed(t, id, gone).nodes;
            (forall m :: m in after <==> m in t.nodes && m !in gone) &&
            forall m :: m in after ==>
              after[m].parent == t.nodes[m].parent && after[m].kind == t.nodes[m].kind &&
              after[m].size == t.nodes[m].size && after[m].onDisk == t.nodes[m].onDisk
  {
    forall m | m in t.nodes && m !in gone ensures m in Removed(t, id, gone).nodes {
      RemovedEffect(Apparent, t, id, gone, m);
    }
    forall m | m in Removed(t, id, gone).nodes
      ensures var after := Removed(t, id, gone).nodes;
              m in t.nodes && m !in gone && after[m].parent == t.nodes[m].parent && after[m].kind == t.nodes[m].kind &&
              after[m].size == t.nodes[m].size && after[m].onDisk == t.nodes[m].onDisk
    {
      RemovedShape(t, id, gone, m);
    }
  }

  /** The subtraction on the chain of `id`: it does not clamp, and gives the sum over what survives. */
  lemma SubtractionIsExact(axis: Axis, nodes: Nodes, id: NodeId, n: NodeId)
    requires Acyclic(nodes) && Exact(nodes) && Fits(nodes) && id in nodes && n in nodes
    requires Subtree(nodes, id) <= Descendants(nodes, n)
    ensures Own(axis, nodes[id]) + Below(axis, nodes[id]) <= Below(axis, nodes[n])
    ensures Clamp(Below(axis, nodes[n]) - Clamp(Own(axis, nodes[id]) + Below(axis, nodes[id]))) ==
            SetSum(axis, nodes, Descendants(nodes, n) - Subtree(nodes, id))
  {
    var all, sub := Descendants(nodes, n), Subtree(nodes, id);
    SetSumUnion(axis, nodes, all - sub, sub);
    assert (all - sub) + sub == all;
    SubtreeSum(axis, nodes, id);
    FitsBoundsEverySum(axis, nodes, all);
  }

  lemma RemovedExactAt(axis: Axis, t: Tree, id: NodeId, gone: set<NodeId>, n: NodeId)
    requires Sound(t) && id in t.nodes && gone == Subtree(t.nodes, id)
    requires Acyclic(Removed(t, id, gone).nodes) && n in Removed(t, id, gone).nodes
    ensures var after := Removed(t, id, gone).nodes;
            Below(axis, after[n]) == SetSum(axis, after, Descendants(after, n))
  {
    var after := Removed(t, id, gone).nodes;
    RemovedSurvivors(t, id, gone);
    SurvivingDescendants(t.nodes, after, id, n);
    RemovedEffect(axis, t, id, gone, n);
    forall m | m in Descendants(after, n) ensures Weight(axis, after, m) == Weight(axis, t.nodes, m) {
      RemovedEffect(axis, t, id, gone, m);
    }
    SetSumSame(axis, t.nodes, after, Descendants(after, n));
    if n in Ancestors(t.nodes, id) {
      SubtractionIsExact(axis, t.nodes, id, n);
    }
  }

  lemma {:induction false} WithoutKeeps(members: seq<NodeId>, id: NodeId)
    ensures forall m :: m in Without(members, id) <==> m in members && m != id
    ensures Distinct(members) ==> Distinct(Without(members, id))
  {
    if members != [] {
      WithoutKeeps(members[1..], id);
      assert Distinct(members) ==> Distinct(members[1..]);
      assert Distinct(members) ==> members[0] !in members[1..];
    }
  }

  lemma ParentOutside(nodes: Nodes, id: NodeId, n: NodeId)
    requires Acyclic(nodes) && n in nodes && nodes[n].parent.Some?
    ensures nodes[n].parent.value in Subtree(nodes, id) ==> n in Subtree(nodes, id)
    ensures n in Subtree(nodes, id) && n != id ==> nodes[n].parent.value in Subtree(nodes, id)
  {
    ParentRanksLower(nodes, n);
    assert Ancestors(nodes, n) == {nodes[n].parent.value} + Ancestors(nodes, nodes[n].parent.value);
  }

  lemma RemovedEdges(t: Tree, id: NodeId, gone: set<NodeId>, c: NodeId, m: NodeId)
    requires Acyclic(t.nodes) && OneContainer(t) && id in t.nodes && gone == Subtree(t.nodes, id)
    ensures var after := Removed(t, id, gone);
            m in MembersOf(after.containers, c) <==> m in after.nodes && after.nodes[m].parent == Some(c)
    ensures Distinct(MembersOf(Removed(t, id, gone).containers, c))
  {
    RemovedSurvivors(t, id, gone);
    assert Distinct(MembersOf(t.containers, c));
    if c in t.containers {
      WithoutKeeps(t.containers[c], id);
    }
    if m in t.nodes && t.nodes[m].parent == Some(c) {
      ParentOutside(t.nodes, id, m);
    }
  }

  lemma RemovedOneContainer(t: Tree, id: NodeId, gone: set<NodeId>)
    requires Acyclic(t.nodes) && OneContainer(t) && id in t.nodes && gone == Subtree(t.nodes, id)
    ensures OneContainer(Removed(t, id, gone))
  {
    var after := Removed(t, id, gone);
    forall c: NodeId, m: NodeId | m in MembersOf(after.containers, c) ensures m in after.nodes && after.nodes[m].parent == Some(c) {
      RemovedEdges(t, id, gone, c, m);
    }
    forall n | n in after.nodes && after.nodes[n].parent.Some? ensures n in MembersOf(after.containers, after.nodes[n].parent.value) {
      RemovedEdges(t, id, gone, after.nodes[n].parent.value, n);
    }
    forall c ensures Distinct(MembersOf(after.containers, c)) {
      RemovedEdges(t, id, gone, c, id);
    }
  }

  /** Removing any node of a sound tree leaves a sound tree: chains, edges and all three totals. */
  lemma RemovalKeepsSound(t: Tree, id: NodeId, gone: set<NodeId>)
    requires Sound(t) && id in t.nodes && Reach(t.containers, id, gone)
    ensures gone == Subtree(t.nodes, id) && Sound(Removed(t, id, gone))
  {
    GoneIsSubtree(t, id, gone);
    var after := Removed(t, id, gone);
    RemovedSurvivors(t, id, gone);
    SurvivorsAcyclic(t.nodes, after.nodes, id);
    RemovedOneContainer(t, id, gone);
    forall axis: Axis, n | n in after.nodes
      ensures Below(axis, after.nodes[n]) == SetSum(axis, after.nodes, Descendants(after.nodes, n))
    {
      RemovedExactAt(axis, t, id, gone, n);
    }
    forall n | n in after.nodes ensures ParentIsContainer(after.nodes, n) {
      assert ParentIsContainer(t.nodes, n);
      if t.nodes[n].parent.Some? {
        ParentOutside(t.nodes, id, n);
      }
    }
    RemovalFits(t, after, id, gone);
  }

  lemma RemovalFits(t: Tree, after: Tree, id: NodeId, gone: set<NodeId>)
    requires Acyclic(t.nodes) && after == Removed(t, id, gone) && Fits(t.nodes)
    ensures Fits(after.nodes)
  {
    forall n | n in after.nodes
      ensures n in t.nodes && Weight(Apparent, after.nodes, n) == Weight(Apparent, t.nodes, n)
              && Weight(OnDisk, after.nodes, n) == Weight(OnDisk, t.nodes, n)
    {
      RemovedShape(t, id, gone, n);
    }
    SetSumSame(Apparent, after.nodes, t.nodes, after.nodes.Keys);
    SetSumSame(OnDisk, after.nodes, t.nodes, after.nodes.Keys);
    SetSumSubset(Apparent, t.nodes, after.nodes.Keys, t.nodes.Keys);
    SetSumSubset(OnDisk, t.nodes, after.nodes.Keys, t.nodes.Keys);
  }

  /** One container per node is needed: file 4 is linked from 2, its parent, and also from 3. Removing 3
      deletes the file but leaves its bytes in the totals of 2. */
  lemma SharedMemberSpoilsTotals(t: Tree, gone: set<NodeId>)
    requires WellFormed(t.nodes) && Exact(t.nodes) && Fits(t.nodes)
    requires t.nodes.Keys == {1, 2, 3, 4} && t.nodes[1].parent == None
    requires t.nodes[2].parent == Some(1) && t.nodes[3].parent == Some(1) && t.nodes[4].parent == Some(2)
    requires t.nodes[4].size == 5
    requires t.containers == map[1 := [2, 3], 2 := [4], 3 := [4]]
    requires Reach(t.containers, 3, gone)
    ensures var after := Removed(t, 3, gone).nodes;
            2 in after && 4 !in after && (Acyclic(after) ==> !Exact(after))
  {
    hide Fits;
    var after := Removed(t, 3, gone).nodes;
    assert 4 in MembersOf(t.containers, 3);
    assert MembersClosed(t.containers, {3, 4}) by {
      forall c, m | c in {3, 4} && m in MembersOf(t.containers, c) ensures m in {3, 4} {}
    }
    assert gone == {3, 4};
    assert Ancestors(t.nodes, 1) == {};
    assert Ancestors(t.nodes, 2) == {1};
    assert Ancestors(t.nodes, 3) == {1};
    assert Ancestors(t.nodes, 4) == {2, 1};
    assert Descendants(t.nodes, 2) == {4};
    RemovedEffect(Apparent, t, 3, gone, 2);
    SetSumOut(Apparent, t.nodes, {4}, 4);
    assert {4} - {4} == {};
    assert Below(Apparent, t.nodes[2]) == 5;
    if Acyclic(after) {
      assert after.Keys == {1, 2};
      RemovedShape(t, 3, gone, 2);
      assert 1 in t.nodes && 1 !in gone;
      RemovedEffect(Apparent, t, 3, gone, 1);
      RemovedShape(t, 3, gone, 1);
      AncestorsRankLower(after, 2);
      assert Ancestors(after, 1) == {};
      assert Descendants(after, 2) == {};
      assert SetSum(Apparent, after, Descendants(after, 2)) == 0;
    }
  }
}
