/** Building the layout tree: a depth-limited recursion that trusts the cached totals at its limit. */
module DiskUsageLayout {
  import opened DiskUsageModel
  import opened DiskUsageTotals
  import opened DiskUsageRemoval

  datatype SizeMode = ApparentMode | AllocatedMode

  datatype LayoutNode = LayoutNode(id: NodeId, size: U64, scanState: ScanState, kind: Kind, children: seq<LayoutNode>)

  function AxisOf(mode: SizeMode): Axis {
    match mode
    case ApparentMode => Apparent
    case AllocatedMode => Effective
  }

  function StateOf(t: Tree, complete: bool, id: NodeId): ScanState {
    if id !in t.nodes then if complete then Complete else Unknown
    else if complete && t.nodes[id].kind == Container then Complete
    else t.nodes[id].scanState
  }

  function KindOf(t: Tree, id: NodeId): Kind {
    if id in t.nodes then t.nodes[id].kind else Container
  }

  /** What a node weighs with everything below it. */
  ghost function Whole(axis: Axis, nodes: Nodes, id: NodeId): nat
    requires Acyclic(nodes)
  {
    SetSum(axis, nodes, Subtree(nodes, id))
  }

  // ---------------------------------------------------------------- the reference layout

  /** The layout the caller should see: full subtree sums everywhere, children down to the limit. */
  ghost function Layout(t: Tree, complete: bool, id: NodeId, depth: nat, mode: SizeMode): LayoutNode
    requires Acyclic(t.nodes)
    decreases depth, 1, 0
  {
    LayoutNode(id, Clamp(Whole(AxisOf(mode), t.nodes, id)), StateOf(t, complete, id), KindOf(t, id),
               if depth == 0 then [] else Layouts(t, complete, MembersOf(t.containers, id), depth - 1, mode))
  }

  ghost function Layouts(t: Tree, complete: bool, ids: seq<NodeId>, depth: nat, mode: SizeMode): seq<LayoutNode>
    requires Acyclic(t.nodes)
    decreases depth, 2, |ids|
  {
    if ids == [] then []
    else Layouts(t, complete, ids[..|ids| - 1], depth, mode) + [Layout(t, complete, ids[|ids| - 1], depth, mode)]
  }

  // ---------------------------------------------------------------- subtrees of the members

  ghost function SubtreesOf(nodes: Nodes, ids: seq<NodeId>): set<NodeId>
    requires Acyclic(nodes)
  {
    if ids == [] then {} else SubtreesOf(nodes, ids[..|ids| - 1]) + Subtree(nodes, ids[|ids| - 1])
  }

  lemma {:induction false} InSubtreesOf(nodes: Nodes, ids: seq<NodeId>, x: NodeId)
    requires Acyclic(nodes)
    ensures x in SubtreesOf(nodes, ids) <==> exists i :: 0 <= i < |ids| && x in Subtree(nodes, ids[i])
  {
    if ids != [] {
      InSubtreesOf(nodes, ids[..|ids| - 1], x);
    }
  }

  /** A container is in no member's subtree. */
  lemma ContainerIsAbove(t: Tree, c: NodeId, a: NodeId)
    requires Acyclic(t.nodes) && OneContainer(t) && a in MembersOf(t.containers, c)
    ensures c !in Subtree(t.nodes, a)
  {
    assert Ancestors(t.nodes, a) == {c} + Ancestors(t.nodes, c);
    AncestorsRankLower(t.nodes, a);
    AncestorsRankLower(t.nodes, c);
  }

  /** Subtrees of two members of one container share nothing. */
  lemma SiblingsAreApart(t: Tree, c: NodeId, a: NodeId, b: NodeId)
    requires Acyclic(t.nodes) && OneContainer(t) && a != b
    requires a in MembersOf(t.containers, c) && b in MembersOf(t.containers, c)
    ensures Subtree(t.nodes, a) !! Subtree(t.nodes, b)
  {
    assert Ancestors(t.nodes, a) == {c} + Ancestors(t.nodes, c);
    assert Ancestors(t.nodes, b) == {c} + Ancestors(t.nodes, c);
    AncestorsRankLower(t.nodes, a);
    AncestorsRankLower(t.nodes, b);
    AncestorsRankLower(t.nodes, c);
    forall x | x in Subtree(t.nodes, a) ensures x !in Subtree(t.nodes, b) {
      if x in Subtree(t.nodes, b) && x != a && x != b {
        ChainsAreLinear(t.nodes, x, a);
      }
    }
  }

  lemma PrefixIsApart(t: Tree, c: NodeId, i: nat)
    requires Acyclic(t.nodes) && OneContainer(t) && i < |MembersOf(t.containers, c)|
    ensures var ids := MembersOf(t.containers, c);
            SubtreesOf(t.nodes, ids[..i]) !! Subtree(t.nodes, ids[i]) && c !in Subtree(t.nodes, ids[i])
  {
    var ids := MembersOf(t.containers, c);
    assert Distinct(ids);
    assert ids[i] in ids;
    ContainerIsAbove(t, c, ids[i]);
    forall x | x in SubtreesOf(t.nodes, ids[..i]) ensures x !in Subtree(t.nodes, ids[i]) {
      InSubtreesOf(t.nodes, ids[..i], x);
      var k :| 0 <= k < i && x in Subtree(t.nodes, ids[..i][k]);
      assert ids[k] in ids;
      SiblingsAreApart(t, c, ids[k], ids[i]);
    }
  }

  /** The members' subtrees together are all descendants. */
  lemma MembersCoverDescendants(t: Tree, c: NodeId)
    requires Acyclic(t.nodes) && OneContainer(t)
    ensures SubtreesOf(t.nodes, MembersOf(t.containers, c)) == Descendants(t.nodes, c)
  {
    var ids := MembersOf(t.containers, c);
    forall x ensures x in SubtreesOf(t.nodes, ids) <==> x in Descendants(t.nodes, c) {
      InSubtreesOf(t.nodes, ids, x);
      if x in SubtreesOf(t.nodes, ids) {
        var i :| 0 <= i < |ids| && x in Subtree(t.nodes, ids[i]);
        assert ids[i] in ids;
        assert Ancestors(t.nodes, ids[i]) == {c} + Ancestors(t.nodes, c);
        if x != ids[i] {
          ChainsAreLinear(t.nodes, x, ids[i]);
        }
      }
      if x in Descendants(t.nodes, c) {
        var m := ChildOnChain(t, c, x);
        assert m in ids;
      }
    }
  }

  lemma {:induction false} ChildOnChain(t: Tree, c: NodeId, x: NodeId) returns (m: NodeId)
    requires Acyclic(t.nodes) && OneContainer(t) && x in Descendants(t.nodes, c)
    ensures m in MembersOf(t.containers, c) && x in Subtree(t.nodes, m)
    decreases Rank(t.nodes, x)
  {
    var p := t.nodes[x].parent.value;
    if p == c {
      m := x;
    } else {
      ParentRanksLower(t.nodes, x);
      m := ChildOnChain(t, c, p);
      assert Ancestors(t.nodes, x) == {p} + Ancestors(t.nodes, p);
    }
  }

  // ---------------------------------------------------------------- the builder

  /** What building owes its caller on a sound tree whose subtree at `id` has not been visited. */
  ghost predicate Built(t: Tree, complete: bool, id: NodeId, depth: nat, mode: SizeMode,
                        visited: set<NodeId>, node: LayoutNode, after: set<NodeId>)
  {
    visited <= after &&
    (Sound(t) && id in t.nodes && visited !! Subtree(t.nodes, id) ==>
       node == Layout(t, complete, id, depth, mode) &&
       node.size == Own(AxisOf(mode), t.nodes[id]) + Below(AxisOf(mode), t.nodes[id]) &&
       after <= visited + Subtree(t.nodes, id))
  }

  lemma WholeIsOwnPlusBelow(axis: Axis, t: Tree, id: NodeId)
    requires Sound(t) && id in t.nodes
    ensures Whole(axis, t.nodes, id) == Own(axis, t.nodes[id]) + Below(axis, t.nodes[id]) <= U64_MAX
  {
    SubtreeSum(axis, t.nodes, id);
    FitsBoundsEverySum(axis, t.nodes, Subtree(t.nodes, id));
  }

  /** Half-way through the members: the sum so far, the children so far, and what has been visited. */
  ghost predicate Midway(t: Tree, complete: bool, id: NodeId, depth: nat, mode: SizeMode, ids: seq<NodeId>,
                         start: set<NodeId>, seen: set<NodeId>, children: seq<LayoutNode>, sum: U64)
  {
    start <= seen &&
    (Sound(t) && id in t.nodes && start !! Descendants(t.nodes, id) ==>
       children == Layouts(t, complete, ids, depth, mode) &&
       sum == SetSum(AxisOf(mode), t.nodes, SubtreesOf(t.nodes, ids)) &&
       seen <= start + SubtreesOf(t.nodes, ids))
  }

  lemma MidwayNext(t: Tree, complete: bool, id: NodeId, depth: nat, mode: SizeMode, i: nat,
                   start: set<NodeId>, seen: set<NodeId>, children: seq<LayoutNode>, sum: U64,
                   child: LayoutNode, after: set<NodeId>)
    requires i < |MembersOf(t.containers, id)|
    requires Midway(t, complete, id, depth, mode, MembersOf(t.containers, id)[..i], start, seen, children, sum)
    requires Built(t, complete, MembersOf(t.containers, id)[i], depth, mode, seen, child, after)
    ensures Midway(t, complete, id, depth, mode, MembersOf(t.containers, id)[..i + 1], start, after,
                   children + [child], Clamp(sum + child.size))
  {
    var ids := MembersOf(t.containers, id);
    if Sound(t) && id in t.nodes && start !! Descendants(t.nodes, id) {
      var m := ids[i];
      assert m in ids;
      assert ids[..i + 1][..i] == ids[..i];
      PrefixIsApart(t, id, i);
      MembersCoverDescendants(t, id);
      forall x | x in Subtree(t.nodes, m) ensures x in Descendants(t.nodes, id) {
        InSubtreesOf(t.nodes, ids, x);
      }
      WholeIsOwnPlusBelow(AxisOf(mode), t, m);
      SetSumUnion(AxisOf(mode), t.nodes, SubtreesOf(t.nodes, ids[..i]), Subtree(t.nodes, m));
      forall x | x in SubtreesOf(t.nodes, ids[..i + 1]) ensures x in t.nodes {
        InSubtreesOf(t.nodes, ids[..i + 1], x);
        InSubtreesOf(t.nodes, ids, x);
      }
      FitsBoundsEverySum(AxisOf(mode), t.nodes, SubtreesOf(t.nodes, ids[..i + 1]));
    }
  }

  lemma MembersDone(t: Tree, complete: bool, id: NodeId, depth: nat, mode: SizeMode, visited: set<NodeId>,
                    seen: set<NodeId>, children: seq<LayoutNode>, sum: U64)
    requires Midway(t, complete, id, depth, mode, MembersOf(t.containers, id), visited + {id}, seen, children, sum)
    requires Sound(t) && id in t.nodes && visited !! Subtree(t.nodes, id)
    ensures children == Layouts(t, complete, MembersOf(t.containers, id), depth, mode)
    ensures sum == Below(AxisOf(mode), t.nodes[id]) && seen <= visited + Subtree(t.nodes, id)
  {
    AncestorsRankLower(t.nodes, id);
    MembersCoverDescendants(t, id);
  }

  function NodeSize(n: Node, mode: SizeMode): U64 {
    match mode
    case ApparentMode => n.size
    case AllocatedMode => if n.onDisk > 0 then n.onDisk else n.size
  }

  lemma LeafIsBuilt(t: Tree, complete: bool, id: NodeId, mode: SizeMode, visited: set<NodeId>, node: LayoutNode)
    requires id !in visited
    requires id in t.nodes ==>
               node == LayoutNode(id, Clamp(NodeSize(t.nodes[id], mode) + Below(AxisOf(mode), t.nodes[id])),
                                  StateOf(t, complete, id), KindOf(t, id), [])
    ensures Built(t, complete, id, 0, mode, visited, node, visited + {id})
  {
    if Sound(t) && id in t.nodes {
      WholeIsOwnPlusBelow(AxisOf(mode), t, id);
    }
  }

  lemma BranchIsBuilt(t: Tree, complete: bool, id: NodeId, depth: nat, mode: SizeMode, visited: set<NodeId>,
                      seen: set<NodeId>, children: seq<LayoutNode>, sum: U64, node: LayoutNode)
    requires Midway(t, complete, id, depth, mode, MembersOf(t.containers, id), visited + {id}, seen, children, sum)
    requires id in t.nodes ==>
               node == LayoutNode(id, Clamp(NodeSize(t.nodes[id], mode) + sum), StateOf(t, complete, id), KindOf(t, id), children)
    ensures Built(t, complete, id, depth + 1, mode, visited, node, seen)
  {
    if Sound(t) && id in t.nodes && visited !! Subtree(t.nodes, id) {
      WholeIsOwnPlusBelow(AxisOf(mode), t, id);
      MembersDone(t, complete, id, depth, mode, visited, seen, children, sum);
    }
  }

  lemma RevisitIsBuilt(t: Tree, complete: bool, id: NodeId, depth: nat, mode: SizeMode, visited: set<NodeId>, node: LayoutNode)
    requires id in visited
    ensures Built(t, complete, id, depth, mode, visited, node, visited)
  {
  }

  lemma MidwayStarts(t: Tree, complete: bool, id: NodeId, depth: nat, mode: SizeMode, start: set<NodeId>)
    ensures Midway(t, complete, id, depth, mode, [], start, start, [], 0)
  {
  }

  /** build_inner: the whole tree is walked to `remainingDepth`, below that the cached totals are trusted. */
  method BuildInner(t: Tree, complete: bool, id: NodeId, remainingDepth: nat, mode: SizeMode, visited: set<NodeId>)
    returns (node: LayoutNode, after: set<NodeId>)
    ensures Built(t, complete, id, remainingDepth, mode, visited, node, after)
    decreases remainingDepth
  {
    hide Built, Midway, MembersOf;
    var intrinsic: U64 := if id in t.nodes then NodeSize(t.nodes[id], mode) else 0;
    var state, kind := StateOf(t, complete, id), KindOf(t, id);
    if id in visited {
      node, after := LayoutNode(id, intrinsic, state, kind, []), visited;
      RevisitIsBuilt(t, complete, id, remainingDepth, mode, visited, node);
      return;
    }
    after := visited + {id};
    if remainingDepth == 0 {
      var descendants: U64 := 0;
      if id in t.nodes {
        descendants := match mode
          case ApparentMode => t.nodes[id].descendantSize
          case AllocatedMode => t.nodes[id].descendantEffective;
      }
      node := LayoutNode(id, Clamp(intrinsic + descendants), state, kind, []);
      LeafIsBuilt(t, complete, id, mode, visited, node);
      return;
    }
    var children: seq<LayoutNode> := [];
    var sum: U64 := 0;
    var ids := MembersOf(t.containers, id);
    ghost var start := after;
    assert ids[..0] == [];
    MidwayStarts(t, complete, id, remainingDepth - 1, mode, start);
    for i := 0 to |ids|
      invariant Midway(t, complete, id, remainingDepth - 1, mode, ids[..i], start, after, children, sum)
    {
      var child, next := BuildInner(t, complete, ids[i], remainingDepth - 1, mode, after);
      MidwayNext(t, complete, id, remainingDepth - 1, mode, i, start, after, children, sum, child, next);
      sum := Clamp(sum + child.size);
      children := children + [child];
      after := next;
    }
    assert ids[..|ids|] == ids;
    node := LayoutNode(id, Clamp(intrinsic + sum), state, kind, children);
    BranchIsBuilt(t, complete, id, remainingDepth - 1, mode, visited, after, children, sum, node);
  }

  lemma {:induction false} MembersLaidOut(t: Tree, complete: bool, ids: seq<NodeId>, depth: nat, mode: SizeMode)
    requires Acyclic(t.nodes)
    ensures var r := Layouts(t, complete, ids, depth, mode);
            |r| == |ids| && forall i :: 0 <= i < |ids| ==> r[i].id == ids[i]
  {
    if ids != [] {
      MembersLaidOut(t, complete, ids[..|ids| - 1], depth, mode);
    }
  }

  /** The layout in the tree's own fields: bytes in one mode; in the other blocks on disk, or bytes where a node
      has no blocks. A finished scan shows every container complete. Members come in the order of their links. */
  lemma LayoutSays(t: Tree, complete: bool, id: NodeId, depth: nat, mode: SizeMode)
    requires Sound(t) && id in t.nodes
    ensures var node, n := Layout(t, complete, id, depth, mode), t.nodes[id];
            node.id == id && node.kind == n.kind &&
            (mode == ApparentMode ==> node.size == n.size + n.descendantSize) &&
            (mode == AllocatedMode ==> node.size == (if n.onDisk > 0 then n.onDisk else n.size) + n.descendantEffective) &&
            node.scanState == (if complete && n.kind == Container then Complete else n.scanState) &&
            (depth == 0 ==> node.children == []) &&
            (depth > 0 ==>
               |node.children| == |MembersOf(t.containers, id)| &&
               forall i :: 0 <= i < |node.children| ==> node.children[i].id == MembersOf(t.containers, id)[i])
  {
    hide SetSum, Subtree, Exact;
    WholeIsOwnPlusBelow(AxisOf(mode), t, id);
    if depth > 0 {
      MembersLaidOut(t, complete, MembersOf(t.containers, id), depth - 1, mode);
    }
  }

  /** The root total does not depend on the depth limit: stopping early at cached totals gives the
      same number as walking everything. */
  lemma RootTotalIgnoresDepth(t: Tree, complete: bool, root: NodeId, mode: SizeMode, shallow: nat, deep: nat,
                              a: LayoutNode, seenA: set<NodeId>, b: LayoutNode, seenB: set<NodeId>)
    requires Sound(t) && root in t.nodes
    requires Built(t, complete, root, shallow, mode, {}, a, seenA) && Built(t, complete, root, deep, mode, {}, b, seenB)
    ensures a.size == b.size == Whole(AxisOf(mode), t.nodes, root)
  {
    WholeIsOwnPlusBelow(AxisOf(mode), t, root);
  }
}
