/** The filtered layout: a container that matches keeps everything below it, one that does not keeps only
    its matching descendants, whatever the depth limit shows. */
module DiskUsageFilter {
  import opened DiskUsageModel
  import opened DiskUsageTotals
  import opened DiskUsageRemoval
  import opened DiskUsageLayout

  /** Some matching node below or at id has x below or at it. */
  ghost predicate CountedBy(nodes: Nodes, hits: set<NodeId>, id: NodeId, x: NodeId)
    requires Acyclic(nodes)
  {
    exists y :: y in hits && y in Subtree(nodes, id) && x in Subtree(nodes, y)
  }

  /** The union of the subtrees of all matches below or at id. */
  ghost function Counted(nodes: Nodes, hits: set<NodeId>, id: NodeId): set<NodeId>
    requires Acyclic(nodes)
  {
    set x | x in Subtree(nodes, id) && CountedBy(nodes, hits, id, x)
  }

  /** The focus itself is never a search result. */
  function Searched(hits: set<NodeId>, id: NodeId, structural: bool): set<NodeId> {
    if structural then hits - {id} else hits
  }

  /** What building owes its caller when no cancellation was seen. */
  ghost predicate Filtered(t: Tree, hits: set<NodeId>, id: NodeId, mode: SizeMode, visited: set<NodeId>,
                           result: Option<LayoutNode>, after: set<NodeId>)
  {
    Sound(t) && id in t.nodes && visited !! Subtree(t.nodes, id) ==>
      after <= visited + Subtree(t.nodes, id) &&
      match result
      case None => SetSum(AxisOf(mode), t.nodes, Counted(t.nodes, hits, id)) == 0
      case Some(node) => node.id == id && node.size == SetSum(AxisOf(mode), t.nodes, Counted(t.nodes, hits, id)) &&
                         Counted(t.nodes, hits, id) != {}
  }

  lemma SubtreeNests(nodes: Nodes, id: NodeId, y: NodeId)
    requires Acyclic(nodes) && y in Subtree(nodes, id)
    ensures Subtree(nodes, y) <= Subtree(nodes, id)
  {
    forall x | x in Subtree(nodes, y) ensures x in Subtree(nodes, id) {
      if x != y {
        ChainsAreLinear(nodes, x, y);
      }
    }
  }

  /** A match counts whole. */
  lemma MatchCountsWhole(nodes: Nodes, hits: set<NodeId>, id: NodeId)
    requires Acyclic(nodes) && id in hits
    ensures Counted(nodes, hits, id) == Subtree(nodes, id)
  {
    forall x | x in Subtree(nodes, id) ensures CountedBy(nodes, hits, id, x) {
      assert id in hits && id in Subtree(nodes, id);
    }
  }

  lemma FileHasNothingBelow(t: Tree, id: NodeId)
    requires WellFormed(t.nodes) && id in t.nodes && t.nodes[id].kind == File
    ensures Subtree(t.nodes, id) == {id}
  {
    forall x | x in Descendants(t.nodes, id) ensures false {
      AncestorsAreContainers(t.nodes, x, id);
    }
  }

  /** Counted nodes of the first members. */
  ghost function CountedOf(t: Tree, hits: set<NodeId>, ids: seq<NodeId>): set<NodeId>
    requires Acyclic(t.nodes)
  {
    if ids == [] then {} else CountedOf(t, hits, ids[..|ids| - 1]) + Counted(t.nodes, hits, ids[|ids| - 1])
  }

  lemma {:induction false} InCountedOf(t: Tree, hits: set<NodeId>, ids: seq<NodeId>, x: NodeId)
    requires Acyclic(t.nodes)
    ensures x in CountedOf(t, hits, ids) <==> exists i :: 0 <= i < |ids| && x in Counted(t.nodes, hits, ids[i])
    ensures x in CountedOf(t, hits, ids) ==> x in SubtreesOf(t.nodes, ids)
  {
    if ids != [] {
      InCountedOf(t, hits, ids[..|ids| - 1], x);
    }
  }

  /** A container that does not match counts what its members count. */
  lemma MembersCount(t: Tree, hits: set<NodeId>, id: NodeId)
    requires Acyclic(t.nodes) && OneContainer(t) && id !in hits
    ensures Counted(t.nodes, hits, id) == CountedOf(t, hits, MembersOf(t.containers, id))
  {
    var ids := MembersOf(t.containers, id);
    MembersCoverDescendants(t, id);
    forall x ensures x in Counted(t.nodes, hits, id) <==> x in CountedOf(t, hits, ids) {
      InCountedOf(t, hits, ids, x);
      if x in Counted(t.nodes, hits, id) {
        var y :| y in hits && y in Subtree(t.nodes, id) && x in Subtree(t.nodes, y);
        InSubtreesOf(t.nodes, ids, y);
        var i :| 0 <= i < |ids| && y in Subtree(t.nodes, ids[i]);
        SubtreeNests(t.nodes, ids[i], y);
        assert CountedBy(t.nodes, hits, ids[i], x);
      }
      if i :| 0 <= i < |ids| && x in Counted(t.nodes, hits, ids[i]) {
        var y :| y in hits && y in Subtree(t.nodes, ids[i]) && x in Subtree(t.nodes, y);
        InSubtreesOf(t.nodes, ids, y);
        InSubtreesOf(t.nodes, ids, x);
        assert CountedBy(t.nodes, hits, id, x);
      }
    }
  }

  /** Half-way through the members. */
  ghost predicate FilterMidway(t: Tree, hits: set<NodeId>, id: NodeId, mode: SizeMode, ids: seq<NodeId>, start: set<NodeId>,
                               seen: set<NodeId>, total: U64, shown: bool)
  {
    Sound(t) && id in t.nodes && start !! Descendants(t.nodes, id) ==>
      total == SetSum(AxisOf(mode), t.nodes, CountedOf(t, hits, ids)) && seen <= start + SubtreesOf(t.nodes, ids) &&
      (shown || total > 0 ==> CountedOf(t, hits, ids) != {})
  }

  lemma CountedFits(t: Tree, axis: Axis, s: set<NodeId>)
    requires Sound(t) && s <= t.nodes.Keys
    ensures SetSum(axis, t.nodes, s) <= U64_MAX
  {
    FitsBoundsEverySum(axis, t.nodes, s);
  }

  lemma SubtreeInside(t: Tree, id: NodeId)
    requires Acyclic(t.nodes) && id in t.nodes
    ensures Subtree(t.nodes, id) <= t.nodes.Keys
  {
  }

  /** The next member's matches are new and the running total still fits. */
  lemma NextCounted(t: Tree, hits: set<NodeId>, id: NodeId, axis: Axis, i: nat)
    requires Sound(t) && id in t.nodes && i < |MembersOf(t.containers, id)|
    ensures var ids := MembersOf(t.containers, id);
            CountedOf(t, hits, ids[..i + 1]) == CountedOf(t, hits, ids[..i]) + Counted(t.nodes, hits, ids[i])
    ensures var ids := MembersOf(t.containers, id);
            SetSum(axis, t.nodes, CountedOf(t, hits, ids[..i + 1])) ==
            SetSum(axis, t.nodes, CountedOf(t, hits, ids[..i])) + SetSum(axis, t.nodes, Counted(t.nodes, hits, ids[i])) <= U64_MAX
  {
    hide SetSum, Subtree, Counted;
    var ids := MembersOf(t.containers, id);
    var m := ids[i];
    assert m in ids;
    assert ids[..i + 1][..i] == ids[..i];
    PrefixIsApart(t, id, i);
    MemberPlace(t, id, i);
    var before, more := CountedOf(t, hits, ids[..i]), Counted(t.nodes, hits, m);
    CountedInside(t.nodes, hits, m);
    forall x | x in before ensures x !in more && x in t.nodes {
      InCountedOf(t, hits, ids[..i], x);
      PrefixInside(t, id, i, x);
    }
    SetSumUnion(axis, t.nodes, before, more);
    SubtreeInside(t, m);
    CountedFits(t, axis, before + more);
  }

  lemma CountedInside(nodes: Nodes, hits: set<NodeId>, id: NodeId)
    requires Acyclic(nodes)
    ensures Counted(nodes, hits, id) <= Subtree(nodes, id)
  {
  }

  lemma PrefixInside(t: Tree, id: NodeId, i: nat, x: NodeId)
    requires Acyclic(t.nodes) && OneContainer(t) && i <= |MembersOf(t.containers, id)| && x in SubtreesOf(t.nodes, MembersOf(t.containers, id)[..i])
    ensures x in t.nodes
  {
    var ids := MembersOf(t.containers, id);
    InSubtreesOf(t.nodes, ids[..i], x);
    InSubtreesOf(t.nodes, ids, x);
    MembersCoverDescendants(t, id);
  }

  /** A member's subtree lies below its container and beside those of earlier members. */
  lemma MemberPlace(t: Tree, id: NodeId, i: nat)
    requires Acyclic(t.nodes) && OneContainer(t) && i < |MembersOf(t.containers, id)|
    ensures var ids := MembersOf(t.containers, id); ids[i] in t.nodes && Subtree(t.nodes, ids[i]) <= Descendants(t.nodes, id)
    ensures var ids := MembersOf(t.containers, id); SubtreesOf(t.nodes, ids[..i]) !! Subtree(t.nodes, ids[i])
  {
    var ids := MembersOf(t.containers, id);
    MembersCoverDescendants(t, id);
    PrefixIsApart(t, id, i);
    forall x | x in Subtree(t.nodes, ids[i]) ensures x in Descendants(t.nodes, id) {
      InSubtreesOf(t.nodes, ids, x);
    }
    assert ids[i] in Subtree(t.nodes, ids[i]);
  }

  lemma FilterNext(t: Tree, hits: set<NodeId>, id: NodeId, mode: SizeMode, i: nat, start: set<NodeId>, seen: set<NodeId>,
                   total: U64, shown: bool, child: Option<LayoutNode>, after: set<NodeId>, nowShown: bool)
    requires i < |MembersOf(t.containers, id)| && (nowShown ==> shown || child.Some?)
    requires FilterMidway(t, hits, id, mode, MembersOf(t.containers, id)[..i], start, seen, total, shown)
    requires Filtered(t, hits, MembersOf(t.containers, id)[i], mode, seen, child, after)
    ensures FilterMidway(t, hits, id, mode, MembersOf(t.containers, id)[..i + 1], start, after,
                         Clamp(total + if child.Some? then child.value.size else 0), nowShown)
  {
    hide SetSum, Subtree, Descendants, Counted, CountedOf;
    var ids := MembersOf(t.containers, id);
    if Sound(t) && id in t.nodes && start !! Descendants(t.nodes, id) {
      assert ids[..i + 1][..i] == ids[..i];
      MemberPlace(t, id, i);
      assert seen !! Subtree(t.nodes, ids[i]);
      NextCounted(t, hits, id, AxisOf(mode), i);
      NoneCounted(t, AxisOf(mode));
    }
  }

  lemma NoneCounted(t: Tree, axis: Axis)
    ensures SetSum(axis, t.nodes, {}) == 0
  {
  }

  lemma FilterStarts(t: Tree, hits: set<NodeId>, id: NodeId, mode: SizeMode, start: set<NodeId>)
    ensures FilterMidway(t, hits, id, mode, [], start, start, 0, false)
  {
  }

  lemma FilterEnds(t: Tree, hits: set<NodeId>, id: NodeId, mode: SizeMode, visited: set<NodeId>, seen: set<NodeId>,
                   total: U64, shown: bool, result: Option<LayoutNode>)
    requires FilterMidway(t, hits, id, mode, MembersOf(t.containers, id), visited + {id}, seen, total, shown) && id !in hits
    requires if total == 0 && !shown then result.None? else result.Some? && result.value.id == id && result.value.size == total
    ensures Filtered(t, hits, id, mode, visited, result, seen)
  {
    if Sound(t) && id in t.nodes && visited !! Subtree(t.nodes, id) {
      AncestorsRankLower(t.nodes, id);
      MembersCoverDescendants(t, id);
      MembersCount(t, hits, id);
    }
  }

  lemma MatchIsFiltered(t: Tree, complete: bool, hits: set<NodeId>, id: NodeId, depth: nat, mode: SizeMode, visited: set<NodeId>,
                        node: LayoutNode, seen: set<NodeId>)
    requires id in hits && Built(t, complete, id, depth, mode, {}, node, seen)
    ensures Filtered(t, hits, id, mode, visited, Some(node), visited + {id})
  {
    if Sound(t) && id in t.nodes {
      MatchCountsWhole(t.nodes, hits, id);
      WholeIsOwnPlusBelow(AxisOf(mode), t, id);
    }
  }

  lemma FileIsFiltered(t: Tree, hits: set<NodeId>, id: NodeId, mode: SizeMode, visited: set<NodeId>, result: Option<LayoutNode>)
    requires id in t.nodes && t.nodes[id].kind == File
    requires if id in hits then result.Some? && result.value.id == id && result.value.size == NodeSize(t.nodes[id], mode) else result.None?
    ensures Filtered(t, hits, id, mode, visited, result, visited + {id})
  {
    if Sound(t) {
      FileHasNothingBelow(t, id);
      if id in hits {
        MatchCountsWhole(t.nodes, hits, id);
        SetSumOut(AxisOf(mode), t.nodes, {id}, id);
        assert {id} - {id} == {};
      } else {
        assert Counted(t.nodes, hits, id) == {};
      }
    }
  }

  /** Members see the same matches as their container's search. */
  lemma SearchedBelow(t: Tree, hits: set<NodeId>, c: NodeId, m: NodeId, structural: bool, mode: SizeMode, visited: set<NodeId>,
                      result: Option<LayoutNode>, after: set<NodeId>)
    requires Filtered(t, hits, m, mode, visited, result, after) && m in MembersOf(t.containers, c)
    ensures Filtered(t, Searched(hits, c, structural), m, mode, visited, result, after)
  {
    hide SetSum, Subtree, MembersOf;
    if Sound(t) && m in t.nodes {
      ContainerIsAbove(t, c, m);
      forall x ensures CountedBy(t.nodes, Searched(hits, c, structural), m, x) <==> CountedBy(t.nodes, hits, m, x) {
        if CountedBy(t.nodes, hits, m, x) {
          var y :| y in hits && y in Subtree(t.nodes, m) && x in Subtree(t.nodes, y);
          assert y in Searched(hits, c, structural);
        }
      }
      assert Counted(t.nodes, Searched(hits, c, structural), m) == Counted(t.nodes, hits, m);
    }
  }

  /** build_filtered_inner. `stopped` tells that the cancellation was seen; the caller then drops the result. */
  method BuildFiltered(t: Tree, complete: bool, hits: set<NodeId>, id: NodeId, depth: nat, mode: SizeMode, visited: set<NodeId>, structural: bool)
    returns (result: Option<LayoutNode>, after: set<NodeId>, stopped: bool)
    ensures visited <= after
    ensures stopped || Filtered(t, Searched(hits, id, structural), id, mode, visited, result, after)
    decreases t.nodes.Keys - visited
  {
    hide Filtered, FilterMidway, Built, MembersOf;
    after, result, stopped := visited, None, false;
    var cancelled: bool := *;
    if cancelled {
      stopped := true;
      return;
    }
    if id in visited {
      RevisitIsFiltered(t, Searched(hits, id, structural), id, mode, visited, result, after);
      return;
    }
    after := visited + {id};
    if id !in t.nodes {
      NotThere(t, Searched(hits, id, structural), id, mode, visited, result, after);
      return;
    }
    var direct := !structural && id in hits;
    if direct && t.nodes[id].kind == Container {
      var node, seen := BuildInner(t, complete, id, depth, mode, {});
      MatchIsFiltered(t, complete, hits, id, depth, mode, visited, node, seen);
      result := Some(node);
      return;
    }
    if t.nodes[id].kind == File {
      if direct {
        result := Some(LayoutNode(id, NodeSize(t.nodes[id], mode), StateOf(t, complete, id), File, []));
      }
      FileIsFiltered(t, Searched(hits, id, structural), id, mode, visited, result);
      return;
    }
    result, after, stopped := FilterMembers(t, complete, hits, id, depth, mode, visited, structural);
  }

  lemma RevisitIsFiltered(t: Tree, hits: set<NodeId>, id: NodeId, mode: SizeMode, visited: set<NodeId>, result: Option<LayoutNode>, after: set<NodeId>)
    requires id in visited
    ensures Filtered(t, hits, id, mode, visited, result, after)
  {
  }

  lemma NotThere(t: Tree, hits: set<NodeId>, id: NodeId, mode: SizeMode, visited: set<NodeId>, result: Option<LayoutNode>, after: set<NodeId>)
    requires id !in t.nodes
    ensures Filtered(t, hits, id, mode, visited, result, after)
  {
  }

  /** The members of a container that does not match. */
  method FilterMembers(t: Tree, complete: bool, hits: set<NodeId>, id: NodeId, depth: nat, mode: SizeMode, visited: set<NodeId>, structural: bool)
    returns (result: Option<LayoutNode>, after: set<NodeId>, stopped: bool)
    requires id in t.nodes && id !in visited && id !in Searched(hits, id, structural)
    ensures visited + {id} <= after
    ensures stopped || Filtered(t, Searched(hits, id, structural), id, mode, visited, result, after)
    decreases t.nodes.Keys - visited, 0
  {
    hide Filtered, FilterMidway, MembersOf;
    after, result, stopped := visited + {id}, None, false;
    var ids := MembersOf(t.containers, id);
    var children: seq<LayoutNode> := [];
    var total: U64 := 0;
    ghost var search := Searched(hits, id, structural);
    FilterStarts(t, search, id, mode, after);
    assert ids[..0] == [];
    for i := 0 to |ids|
      invariant visited + {id} <= after
      invariant stopped || FilterMidway(t, search, id, mode, ids[..i], visited + {id}, after, total, children != [])
    {
      var cancelled: bool := *;
      if cancelled {
        stopped := true;
        return;
      }
      assert id in t.nodes.Keys - visited && id !in t.nodes.Keys - after;
      var child, next, stop := BuildFiltered(t, complete, hits, ids[i], if depth > 0 then depth - 1 else 0, mode, after, false);
      assert ids[i] in ids;
      if !stop && !stopped {
        SearchedBelow(t, hits, id, ids[i], structural, mode, after, child, next);
        FilterNext(t, search, id, mode, i, visited + {id}, after, total, children != [], child, next, children != [] || (child.Some? && depth > 0));
      }
      stopped := stopped || stop;
      after := next;
      if child.Some? {
        total := Clamp(total + child.value.size);
        if depth > 0 {
          children := children + [child.value];
        }
      }
    }
    assert ids[..|ids|] == ids;
    if total != 0 || children != [] {
      result := Some(LayoutNode(id, total, StateOf(t, complete, id), KindOf(t, id), children));
    }
    if !stopped {
      FilterEnds(t, search, id, mode, visited, after, total, children != [], result);
    }
  }
}
