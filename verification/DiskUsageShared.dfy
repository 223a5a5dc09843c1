/** Nodes linked from several containers: what removal then does to the totals, exactly. */
module DiskUsageShared {
  import opened DiskUsageModel
  import opened DiskUsageTotals
  import opened DiskUsageObject
  import opened DiskUsageRemoval

  /** Every parent edge is a container edge. */
  ghost predicate ParentsList(t: Tree) {
    forall n :: n in t.nodes && t.nodes[n].parent.Some? ==> n in MembersOf(t.containers, t.nodes[n].parent.value)
  }

  /** A tree as any stream of facts leaves it: a node may be linked from several containers. */
  ghost predicate Linked(t: Tree) {
    WellFormed(t.nodes) && ParentsList(t)
  }

  // ---------------------------------------------------------------- every stream builds linked trees

  lemma LinkKeepsParentsListed(t: Tree, c: NodeId, n: NodeId)
    requires Linked(t) && Announceable(t.nodes, NodeLinked(c, n))
    ensures ParentsList(Applied(t, NodeLinked(c, n)))
  {
    hide Announceable;
    var n1 := AsContainer(t.nodes, c);
    SameParentsAcyclic(t.nodes, n1);
    if !Refuses(n1, c, n) {
      AdoptShape(n1, c, n);
    }
  }

  lemma ResizeKeepsParentsListed(t: Tree, id: NodeId, node: Node)
    requires Linked(t) && OwnSizesOnly(Ensure(t.nodes, id)[id], node) && Acyclic(Ensure(t.nodes, id))
    ensures ParentsList(Tree(Resize(Ensure(t.nodes, id), id, node), t.containers))
  {
    hide Resize;
    ResizeShape(Ensure(t.nodes, id), id, node);
  }

  lemma FactKeepsLinked(t: Tree, fact: Fact)
    requires Linked(t) && Announceable(t.nodes, fact)
    ensures Linked(Applied(t, fact))
  {
    hide Resize, Registered;
    FactKeepsTotals(t, fact);
    match fact
    case NodeLinked(c, n) => LinkKeepsParentsListed(t, c, n);
    case NodeSizeAdded(id, bytes) =>
      SameParentsAcyclic(t.nodes, Ensure(t.nodes, id));
      ResizeKeepsParentsListed(t, id, MoreBytes(Ensure(t.nodes, id)[id], bytes));
    case NodeAllocatedAdded(id, bytes) =>
      SameParentsAcyclic(t.nodes, Ensure(t.nodes, id));
      ResizeKeepsParentsListed(t, id, MoreOnDisk(Ensure(t.nodes, id)[id], bytes));
    case _ =>
  }

  lemma {:induction false} StreamIsLinked(t: Tree, facts: seq<Fact>)
    requires Linked(t) && Stream(t, facts)
    ensures Linked(AppliedAll(t, facts))
    decreases |facts|
  {
    if facts != [] {
      FactKeepsTotals(t, facts[0]);
      FactKeepsLinked(t, facts[0]);
      StreamIsLinked(Applied(t, facts[0]), facts[1..]);
    }
  }

  // ---------------------------------------------------------------- what removal takes

  lemma {:induction false} DescendantsGoToo(t: Tree, gone: set<NodeId>, a: NodeId, m: NodeId)
    requires Linked(t) && MembersClosed(t.containers, gone) && a in gone && m in Descendants(t.nodes, a)
    ensures m in gone
    decreases Rank(t.nodes, m)
  {
    var p := t.nodes[m].parent.value;
    ParentRanksLower(t.nodes, m);
    if p != a {
      DescendantsGoToo(t, gone, a, p);
    }
    assert m in MembersOf(t.containers, p);
  }

  /** Members reached from the subtree hang below it. */
  ghost predicate MembersStayInside(t: Tree, id: NodeId)
    requires Acyclic(t.nodes)
  {
    forall c, m :: c in Subtree(t.nodes, id) && m in MembersOf(t.containers, c) && m != id ==>
      m in t.nodes && t.nodes[m].parent.Some? && t.nodes[m].parent.value in Subtree(t.nodes, id)
  }

  lemma BelowParent(nodes: Nodes, id: NodeId, m: NodeId)
    requires Acyclic(nodes) && m in nodes && m != id
    ensures m in Subtree(nodes, id) <==> nodes[m].parent.Some? && nodes[m].parent.value in Subtree(nodes, id)
  {
    if nodes[m].parent.Some? {
      ParentRanksLower(nodes, m);
      assert Ancestors(nodes, m) == {nodes[m].parent.value} + Ancestors(nodes, nodes[m].parent.value);
    }
  }

  /** Removal takes the subtree, and no more exactly when no container in it holds a node whose parent is
      elsewhere. */
  lemma RemovalTakesSubtreeIff(t: Tree, id: NodeId, gone: set<NodeId>)
    requires Linked(t) && Reach(t.containers, id, gone)
    ensures Subtree(t.nodes, id) <= gone
    ensures gone == Subtree(t.nodes, id) <==> MembersStayInside(t, id)
  {
    forall m | m in Descendants(t.nodes, id) ensures m in gone {
      DescendantsGoToo(t, gone, id, m);
    }
    if MembersStayInside(t, id) {
      forall c, m | c in Subtree(t.nodes, id) && m in MembersOf(t.containers, c) ensures m in Subtree(t.nodes, id) {
        if m != id {
          BelowParent(t.nodes, id, m);
        }
      }
      assert MembersClosed(t.containers, Subtree(t.nodes, id));
    }
    if gone == Subtree(t.nodes, id) {
      forall c, m | c in Subtree(t.nodes, id) && m in MembersOf(t.containers, c) && m != id
        ensures m in t.nodes && t.nodes[m].parent.Some? && t.nodes[m].parent.value in Subtree(t.nodes, id)
      {
        assert m in gone;
        BelowParent(t.nodes, id, m);
      }
    }
  }

  // ---------------------------------------------------------------- the surviving tree

  lemma SurvivorsShape(t: Tree, id: NodeId, gone: set<NodeId>)
    requires Acyclic(t.nodes)
    ensures var after := Removed(t, id, gone).nodes;
            (forall m :: m in after <==> m in t.nodes && m !in gone) &&
            forall m :: m in after ==>
              after[m].parent == t.nodes[m].parent && after[m].kind == t.nodes[m].kind && forall axis: Axis :: Own(axis, after[m]) == Own(axis, t.nodes[m])
  {
    if id in t.nodes {
      RemovedSurvivors(t, id, gone);
    }
  }

  lemma ParentSurvives(t: Tree, gone: set<NodeId>, m: NodeId)
    requires Linked(t) && MembersClosed(t.containers, gone) && m in t.nodes && m !in gone && t.nodes[m].parent.Some?
    ensures t.nodes[m].parent.value in t.nodes && t.nodes[m].parent.value !in gone
  {
    assert ParentIsContainer(t.nodes, m);
    assert m in MembersOf(t.containers, t.nodes[m].parent.value);
  }

  lemma SurvivorsWellFormed(t: Tree, id: NodeId, gone: set<NodeId>)
    requires Linked(t) && MembersClosed(t.containers, gone)
    ensures WellFormed(Removed(t, id, gone).nodes)
  {
    var after := Removed(t, id, gone).nodes;
    SurvivorsShape(t, id, gone);
    var depth: map<NodeId, nat> := map n: NodeId | n in after :: Rank(t.nodes, n);
    forall n | n in after ensures RankedAt(after, depth, n) && ParentIsContainer(after, n) {
      assert ParentIsContainer(t.nodes, n);
      if after[n].parent.Some? {
        ParentRanksLower(t.nodes, n);
        ParentSurvives(t, gone, n);
      }
    }
    assert Ranked(after, depth);
  }

  /** Every surviving chain is what it was. */
  lemma {:induction false} SurvivorsKeepChains(t: Tree, id: NodeId, gone: set<NodeId>, n: NodeId)
    requires Linked(t) && MembersClosed(t.containers, gone) && n in Removed(t, id, gone).nodes && Acyclic(Removed(t, id, gone).nodes)
    ensures Ancestors(Removed(t, id, gone).nodes, n) == Ancestors(t.nodes, n)
    decreases Rank(t.nodes, n)
  {
    SurvivorsShape(t, id, gone);
    if t.nodes[n].parent.Some? {
      ParentRanksLower(t.nodes, n);
      ParentSurvives(t, gone, n);
      SurvivorsKeepChains(t, id, gone, t.nodes[n].parent.value);
    }
  }

  /** Nodes that disappear from under n without being subtracted from its totals. */
  ghost function Forgotten(t: Tree, id: NodeId, gone: set<NodeId>, n: NodeId): set<NodeId>
    requires Acyclic(t.nodes)
  {
    Descendants(t.nodes, n) * gone - Subtree(t.nodes, id)
  }

  /** After the removal a survivor's total is the sum over what was below it, less the subtree. */
  lemma TotalAfterRemoval(axis: Axis, t: Tree, id: NodeId, gone: set<NodeId>, n: NodeId)
    requires Linked(t) && Exact(t.nodes) && Fits(t.nodes) && Subtree(t.nodes, id) <= gone && n in t.nodes && n !in gone
    ensures n in Removed(t, id, gone).nodes
    ensures Below(axis, Removed(t, id, gone).nodes[n]) == SetSum(axis, t.nodes, Descendants(t.nodes, n) - Subtree(t.nodes, id))
  {
    SurvivorsShape(t, id, gone);
    if id in t.nodes {
      RemovedEffect(axis, t, id, gone, n);
      if n in Ancestors(t.nodes, id) {
        SubtreeBelow(t.nodes, id, n);
        SubtractionIsExact(axis, t.nodes, id, n);
      } else {
        NothingShared(t.nodes, id, n);
      }
    } else {
      AncestorsRankLower(t.nodes, id);
      forall m ensures id !in Ancestors(t.nodes, m) {
        AncestorsRankLower(t.nodes, m);
      }
      assert Descendants(t.nodes, n) - Subtree(t.nodes, id) == Descendants(t.nodes, n);
    }
  }

  lemma SubtreeBelow(nodes: Nodes, id: NodeId, n: NodeId)
    requires Acyclic(nodes) && id in nodes && n in Ancestors(nodes, id)
    ensures Subtree(nodes, id) <= Descendants(nodes, n)
  {
    forall m | m in Subtree(nodes, id) ensures m in Descendants(nodes, n) {
      if m != id {
        ChainsAreLinear(nodes, m, id);
      }
    }
  }

  lemma NothingShared(nodes: Nodes, id: NodeId, n: NodeId)
    requires Acyclic(nodes) && n in nodes && n !in Subtree(nodes, id) && n !in Ancestors(nodes, id)
    ensures Descendants(nodes, n) - Subtree(nodes, id) == Descendants(nodes, n)
  {
    forall m | m in Descendants(nodes, n) ensures m !in Subtree(nodes, id) {
      if m in Subtree(nodes, id) && m != id {
        ChainsAreLinear(nodes, m, id);
      }
    }
  }

  lemma RightAtIff(axis: Axis, t: Tree, id: NodeId, gone: set<NodeId>, n: NodeId)
    requires Linked(t) && Exact(t.nodes) && Fits(t.nodes) && Reach(t.containers, id, gone) && n in t.nodes && n !in gone
    requires Acyclic(Removed(t, id, gone).nodes)
    ensures var after := Removed(t, id, gone).nodes;
            n in after && (Below(axis, after[n]) == SetSum(axis, after, Descendants(after, n)) <==>
                           SetSum(axis, t.nodes, Forgotten(t, id, gone, n)) == 0)
  {
    hide SetSum, Removed;
    RemovalTakesSubtreeIff(t, id, gone);
    TotalAfterRemoval(axis, t, id, gone, n);
    StillBelow(axis, t, id, gone, n);
    var kept, lost := Descendants(t.nodes, n) - gone, Forgotten(t, id, gone, n);
    SetSumUnion(axis, t.nodes, kept, lost);
    assert kept + lost == Descendants(t.nodes, n) - Subtree(t.nodes, id);
  }

  lemma StillBelow(axis: Axis, t: Tree, id: NodeId, gone: set<NodeId>, n: NodeId)
    requires Linked(t) && MembersClosed(t.containers, gone) && Acyclic(Removed(t, id, gone).nodes) && n in t.nodes && n !in gone
    ensures var after := Removed(t, id, gone).nodes;
            Descendants(after, n) == Descendants(t.nodes, n) - gone &&
            SetSum(axis, after, Descendants(after, n)) == SetSum(axis, t.nodes, Descendants(t.nodes, n) - gone)
  {
    hide SetSum, Removed;
    var after := Removed(t, id, gone).nodes;
    SurvivorsShape(t, id, gone);
    forall m | m in after ensures Ancestors(after, m) == Ancestors(t.nodes, m) {
      SurvivorsKeepChains(t, id, gone, m);
    }
    assert Descendants(after, n) == Descendants(t.nodes, n) - gone;
    SetSumSame(axis, t.nodes, after, Descendants(after, n));
  }

  // ---------------------------------------------------------------- the exact condition

  /** x disappears although it does not hang below id, and an ancestor of it stays. */
  ghost predicate Orphaned(t: Tree, id: NodeId, gone: set<NodeId>, x: NodeId)
    requires Acyclic(t.nodes)
  {
    x in t.nodes && x in gone && x !in Subtree(t.nodes, id) && exists n :: n in Ancestors(t.nodes, x) && n in t.nodes && n !in gone
  }

  ghost predicate Weightless(t: Tree, x: NodeId) {
    forall axis: Axis :: Weight(axis, t.nodes, x) == 0
  }

  lemma {:induction false} ZeroSum(axis: Axis, nodes: Nodes, s: set<NodeId>)
    ensures SetSum(axis, nodes, s) == 0 <==> forall x :: x in s ==> Weight(axis, nodes, x) == 0
    decreases s
  {
    forall x | x in s && SetSum(axis, nodes, s) == 0 ensures Weight(axis, nodes, x) == 0 {
      SetSumOut(axis, nodes, s, x);
    }
    if s != {} {
      var x :| x in s;
      SetSumOut(axis, nodes, s, x);
      ZeroSum(axis, nodes, s - {x});
    }
  }

  /** On any tree a stream can build, totals stay exact after a removal if and only if whatever disappears
      from under a surviving node without being in the subtree weighs nothing. */
  lemma RemovalKeepsTotalsIff(t: Tree, id: NodeId, gone: set<NodeId>)
    requires Linked(t) && Exact(t.nodes) && Fits(t.nodes) && Reach(t.containers, id, gone)
    ensures WellFormed(Removed(t, id, gone).nodes)
    ensures Exact(Removed(t, id, gone).nodes) <==> forall x :: Orphaned(t, id, gone, x) ==> Weightless(t, x)
  {
    hide SetSum, Removed, Reach;
    var after := Removed(t, id, gone).nodes;
    ReachIsClosed(t, id, gone);
    SurvivorsWellFormed(t, id, gone);
    SurvivorsShape(t, id, gone);
    forall axis: Axis, n | n in after
      ensures Below(axis, after[n]) == SetSum(axis, after, Descendants(after, n)) <==>
              forall x :: x in Forgotten(t, id, gone, n) ==> Weight(axis, t.nodes, x) == 0
    {
      RightAtIff(axis, t, id, gone, n);
      ZeroSum(axis, t.nodes, Forgotten(t, id, gone, n));
    }
    if Exact(after) {
      forall x, axis: Axis | Orphaned(t, id, gone, x) ensures Weight(axis, t.nodes, x) == 0 {
        var n :| n in Ancestors(t.nodes, x) && n in t.nodes && n !in gone;
        assert x in Forgotten(t, id, gone, n);
        assert Below(axis, after[n]) == SetSum(axis, after, Descendants(after, n));
      }
    }
    if forall x :: Orphaned(t, id, gone, x) ==> Weightless(t, x) {
      forall axis: Axis, n | n in after ensures Below(axis, after[n]) == SetSum(axis, after, Descendants(after, n)) {
        forall x | x in Forgotten(t, id, gone, n) ensures Weight(axis, t.nodes, x) == 0 {
          assert Orphaned(t, id, gone, x);
          assert Weightless(t, x);
        }
      }
    }
  }

  lemma ReachIsClosed(t: Tree, id: NodeId, gone: set<NodeId>)
    requires Reach(t.containers, id, gone)
    ensures MembersClosed(t.containers, gone) && id in gone
  {
  }

  // ---------------------------------------------------------------- a stream that spoils totals

  /** A file of five bytes linked from 2 and again from 3. */
  const TWO_LINKS: seq<Fact> := [NodeLinked(1, 2), NodeLinked(1, 3), NodeLinked(2, 4), NodeLinked(3, 4), NodeSizeAdded(4, 5)]

  /** The parent, size and disk blocks of every node. */
  ghost predicate Looks(nodes: Nodes, parents: map<NodeId, Option<NodeId>>, size: U64) {
    nodes.Keys == parents.Keys &&
    forall n :: n in nodes ==> nodes[n].parent == parents[n] && nodes[n].size == (if n == 4 then size else 0) && nodes[n].onDisk == 0
  }

  lemma NewNodeLinked(t: Tree, c: NodeId, n: NodeId, parents: map<NodeId, Option<NodeId>>)
    requires WellFormed(t.nodes) && Looks(t.nodes, parents, 0) && c in parents && n !in parents
    ensures var after := Applied(t, NodeLinked(c, n));
            WellFormed(after.nodes) && Looks(after.nodes, parents[n := Some(c)], 0) &&
            after.containers == t.containers[c := MembersOf(t.containers, c) + [n]]
  {
    hide Adopt, Exact, SameParents;
    FactKeepsTotals(t, NodeLinked(c, n));
    var n1 := AsContainer(t.nodes, c);
    SameParentsAcyclic(t.nodes, n1);
    AdoptShape(n1, c, n);
  }

  lemma SecondLink(t: Tree, c: NodeId, n: NodeId, parents: map<NodeId, Option<NodeId>>)
    requires WellFormed(t.nodes) && Looks(t.nodes, parents, 0) && c in parents && n in parents && parents[n].Some?
    ensures var after := Applied(t, NodeLinked(c, n));
            WellFormed(after.nodes) && Looks(after.nodes, parents, 0) &&
            after.containers == t.containers[c := MembersOf(t.containers, c) + [n]]
  {
    FactKeepsTotals(t, NodeLinked(c, n));
    SameParentsAcyclic(t.nodes, AsContainer(t.nodes, c));
  }

  lemma FiveBytesAdded(t: Tree, parents: map<NodeId, Option<NodeId>>)
    requires WellFormed(t.nodes) && Looks(t.nodes, parents, 0) && 4 in parents
    ensures var after := Applied(t, NodeSizeAdded(4, 5));
            WellFormed(after.nodes) && Looks(after.nodes, parents, 5) && after.containers == t.containers
  {
    hide Resize;
    FactKeepsTotals(t, NodeSizeAdded(4, 5));
    SameParentsAcyclic(t.nodes, Ensure(t.nodes, 4));
    ResizeShape(t.nodes, 4, MoreBytes(t.nodes[4], 5));
  }

  lemma {:induction false} OneMoreFact(t: Tree, facts: seq<Fact>, fact: Fact)
    requires WellFormed(t.nodes) && Stream(t, facts) && Announceable(AppliedAll(t, facts).nodes, fact)
    ensures WellFormed(AppliedAll(t, facts).nodes) && Stream(t, facts + [fact])
    ensures AppliedAll(t, facts + [fact]) == Applied(AppliedAll(t, facts), fact)
    decreases |facts|
  {
    hide Applied, Acyclic, ParentsAreContainers, Announceable;
    StreamKeepsTotals(t, facts);
    if facts == [] {
      FactKeepsTotals(t, fact);
      assert ([fact])[1..] == [];
    } else {
      FactKeepsTotals(t, facts[0]);
      OneMoreFact(Applied(t, facts[0]), facts[1..], fact);
      assert (facts + [fact])[1..] == facts[1..] + [fact];
    }
  }

  /** What a stream from a new tree has built. */
  ghost predicate Builds(facts: seq<Fact>, parents: map<NodeId, Option<NodeId>>, size: U64, containers: map<NodeId, seq<NodeId>>) {
    var start := NewTree(1);
    WellFormed(start.nodes) && Stream(start, facts) &&
    var t := AppliedAll(start, facts);
    WellFormed(t.nodes) && Looks(t.nodes, parents, size) && t.containers == containers
  }

  lemma LinkBuilds(facts: seq<Fact>, parents: map<NodeId, Option<NodeId>>, containers: map<NodeId, seq<NodeId>>, c: NodeId, n: NodeId,
                    parents2: map<NodeId, Option<NodeId>>, members: seq<NodeId>)
    requires Builds(facts, parents, 0, containers) && c in parents && (n in parents ==> parents[n].Some?)
    requires parents2 == (if n in parents then parents else parents[n := Some(c)])
    requires members == MembersOf(containers, c) + [n]
    ensures Builds(facts + [NodeLinked(c, n)], parents2, 0, containers[c := members])
  {
    hide Applied, Acyclic, ParentsAreContainers, Stream, AppliedAll, Looks;
    var t := AppliedAll(NewTree(1), facts);
    OneMoreFact(NewTree(1), facts, NodeLinked(c, n));
    if n in parents {
      SecondLink(t, c, n, parents);
    } else {
      NewNodeLinked(t, c, n, parents);
    }
  }

  lemma BytesBuild(facts: seq<Fact>, parents: map<NodeId, Option<NodeId>>, containers: map<NodeId, seq<NodeId>>)
    requires Builds(facts, parents, 0, containers) && 4 in parents
    ensures Builds(facts + [NodeSizeAdded(4, 5)], parents, 5, containers)
  {
    hide Applied, Acyclic, ParentsAreContainers, Stream, AppliedAll, Looks;
    OneMoreFact(NewTree(1), facts, NodeSizeAdded(4, 5));
    FiveBytesAdded(AppliedAll(NewTree(1), facts), parents);
  }

  const UNDER_ROOT: map<NodeId, Option<NodeId>> := map[1 := None, 2 := Some(1), 3 := Some(1)]
  const WITH_FILE: map<NodeId, Option<NodeId>> := map[1 := None, 2 := Some(1), 3 := Some(1), 4 := Some(2)]

  lemma RootBuilds()
    ensures Builds([], map[1 := None], 0, map[])
  {
    NewTreeIsExact(1);
  }

  lemma ContainersBuild()
    ensures Builds([NodeLinked(1, 2), NodeLinked(1, 3)], UNDER_ROOT, 0, map[1 := [2, 3]])
  {
    hide Builds;
    RootBuilds();
    var linked: map<NodeId, seq<NodeId>> := map[][1 := [2]];
    LinkBuilds([], map[1 := None], map[], 1, 2, map[1 := None, 2 := Some(1)], [2]);
    LinkBuilds([] + [NodeLinked(1, 2)], map[1 := None, 2 := Some(1)], linked, 1, 3, UNDER_ROOT, [2, 3]);
    assert [] + [NodeLinked(1, 2)] + [NodeLinked(1, 3)] == [NodeLinked(1, 2), NodeLinked(1, 3)];
    assert linked[1 := [2, 3]] == map[1 := [2, 3]];
  }

  lemma FileBuilds(facts: seq<Fact>)
    requires Builds(facts, UNDER_ROOT, 0, map[1 := [2, 3]])
    ensures Builds(facts + [NodeLinked(2, 4)] + [NodeLinked(3, 4)], WITH_FILE, 0, map[1 := [2, 3], 2 := [4], 3 := [4]])
  {
    hide Builds;
    var linked: map<NodeId, seq<NodeId>> := map[1 := [2, 3]];
    LinkBuilds(facts, UNDER_ROOT, linked, 2, 4, WITH_FILE, [4]);
    LinkBuilds(facts + [NodeLinked(2, 4)], WITH_FILE, linked[2 := [4]], 3, 4, WITH_FILE, [4]);
    assert linked[2 := [4]][3 := [4]] == map[1 := [2, 3], 2 := [4], 3 := [4]];
  }

  /** The tree that stream leaves. */
  lemma TwoLinksBuild()
    ensures Builds(TWO_LINKS, WITH_FILE, 5, map[1 := [2, 3], 2 := [4], 3 := [4]])
  {
    hide Builds;
    ContainersBuild();
    var facts := [NodeLinked(1, 2), NodeLinked(1, 3)];
    FileBuilds(facts);
    BytesBuild(facts + [NodeLinked(2, 4)] + [NodeLinked(3, 4)], WITH_FILE, map[1 := [2, 3], 2 := [4], 3 := [4]]);
    assert TWO_LINKS == facts + [NodeLinked(2, 4)] + [NodeLinked(3, 4)] + [NodeSizeAdded(4, 5)];
  }

  lemma FiveBytesFit(nodes: Nodes, parents: map<NodeId, Option<NodeId>>)
    requires Looks(nodes, parents, 5) && 4 in parents
    ensures Fits(nodes)
  {
    SetSumOut(Apparent, nodes, nodes.Keys, 4);
    ZeroSum(Apparent, nodes, nodes.Keys - {4});
    ZeroSum(OnDisk, nodes, nodes.Keys);
  }

  /** A stream that a scan can produce after which a removal spoils the totals: the file is deleted with
      container 3, but its bytes stay in the total of 2. */
  lemma SharedMemberIsReachable()
    ensures Linked(NewTree(1)) && Stream(NewTree(1), TWO_LINKS)
    ensures var t := AppliedAll(NewTree(1), TWO_LINKS);
            Linked(t) && Exact(t.nodes) && Fits(t.nodes) && Reach(t.containers, 3, {3, 4}) &&
            var after := Removed(t, 3, {3, 4}).nodes;
            WellFormed(after) && 2 in after && 4 !in after && !Exact(after)
  {
    hide Removed, Stream, AppliedAll;
    TwoLinksBuild();
    NewTreeIsExact(1);
    var t := AppliedAll(NewTree(1), TWO_LINKS);
    FiveBytesFit(t.nodes, WITH_FILE);
    StreamKeepsTotals(NewTree(1), TWO_LINKS);
    StreamIsLinked(NewTree(1), TWO_LINKS);
    ThreeTakesFour(t);
    SharedMemberSpoilsTotals(t, {3, 4});
    RemovalKeepsTotalsIff(t, 3, {3, 4});
  }

  lemma ThreeTakesFour(t: Tree)
    requires t.containers == map[1 := [2, 3], 2 := [4], 3 := [4]]
    ensures Reach(t.containers, 3, {3, 4})
  {
    assert 4 in MembersOf(t.containers, 3);
    forall c, m | c in {3, 4} && m in MembersOf(t.containers, c) ensures m in {3, 4} {}
  }
}
