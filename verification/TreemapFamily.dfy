/** Every rectangle of a treemap below the root has an earlier one that stands for its node's parent,
    encloses it, and gives it the share of its content that its size demands. */
module TreemapFamily {
  import opened RealFacts
  import opened TreemapRows
  import opened Treemap

  /** n is root or below it. */
  ghost predicate Occurs(n: LayoutNode, root: LayoutNode)
    decreases root
  {
    n == root || exists k :: 0 <= k < |root.children| && Occurs(n, root.children[k])
  }

  predicate StandsFor(r: Rect, n: LayoutNode) {
    r.id == n.id && r.size == n.size && r.hasChildren == (n.children != [])
  }

  /** r lies in `content` and has the part of it that its size is of `whole`. */
  ghost predicate Share(r: Rect, content: Box, whole: nat) {
    InBox(r.box, content) && Times(Area(r.box), whole as real) == Times(Area(content), r.size as real)
  }

  /** Below the root, a rectangle that shows children has room for them inside its padding and strip. */
  predicate Roomy(r: Rect) {
    r.depth > 0 ==> r.box.w - 2.0 > 2.0 && r.box.h - 2.0 - r.strip > 2.0
  }

  /** out[i] is the nearest earlier rectangle one level up from out[j], and stands for the parent of the
      node that out[j] stands for. */
  ghost predicate Parents(out: seq<Rect>, i: nat, j: nat, parent: LayoutNode, child: LayoutNode)
    requires i < j < |out|
  {
    out[j].depth == out[i].depth + 1 && (forall k :: i < k < j ==> out[k].depth > out[i].depth) &&
    StandsFor(out[i], parent) && StandsFor(out[j], child) && child in parent.children && out[i].laysOutChildren && Roomy(out[i]) &&
    Share(out[j], Content(out[i]), out[i].size)
  }

  ghost predicate HasParent(out: seq<Rect>, j: nat, root: LayoutNode)
    requires j < |out|
  {
    exists i: nat, parent, child :: i < j && Occurs(parent, root) && Parents(out, i, j, parent, child)
  }

  /** A rectangle of the level itself. */
  ghost predicate OnLevel(r: Rect, children: seq<LayoutNode>, parentSize: nat, bounds: Box, depth: nat) {
    r.depth == depth && Share(r, bounds, parentSize) && exists k :: 0 <= k < |children| && StandsFor(r, children[k])
  }

  /** What a level promises of one of its rectangles. */
  ghost predicate Settled(out: seq<Rect>, j: nat, children: seq<LayoutNode>, parentSize: nat, bounds: Box, depth: nat)
    requires j < |out|
  {
    out[j].depth >= depth &&
    (OnLevel(out[j], children, parentSize, bounds, depth) ||
     (out[j].depth > depth && exists k :: 0 <= k < |children| && HasParent(out, j, children[k])))
  }

  lemma ParentStays(pre: seq<Rect>, out: seq<Rect>, j: nat, root: LayoutNode)
    requires j < |out| && HasParent(out, j, root)
    ensures HasParent(pre + out, |pre| + j, root)
  {
    var i: nat, parent, child :| i < j && Occurs(parent, root) && Parents(out, i, j, parent, child);
    forall k | |pre| + i < k < |pre| + j ensures (pre + out)[k].depth > out[i].depth {
      assert (pre + out)[k] == out[k - |pre|];
    }
    assert Parents(pre + out, |pre| + i, |pre| + j, parent, child);
  }

  lemma ParentStaysBefore(out: seq<Rect>, post: seq<Rect>, j: nat, root: LayoutNode)
    requires j < |out| && HasParent(out, j, root)
    ensures HasParent(out + post, j, root)
  {
    var i: nat, parent, child :| i < j && Occurs(parent, root) && Parents(out, i, j, parent, child);
    forall k | i < k < j ensures (out + post)[k].depth > out[i].depth {
      assert (out + post)[k] == out[k];
    }
    assert Parents(out + post, i, j, parent, child);
  }

  /** Areas of the items are the shares of the level's box. */
  ghost predicate Shares(items: seq<Item>, boxes: seq<Box>, children: seq<LayoutNode>, parentSize: nat, bounds: Box) {
    |items| == |boxes| &&
    forall k :: 0 <= k < |items| ==>
      InBox(boxes[k], bounds) &&
      (items[k].index < |children| ==>
         Times(Area(boxes[k]), parentSize as real) == Times(Area(bounds), children[items[k].index].size as real))
  }

  lemma {:induction false} ItemAreas(children: seq<LayoutNode>, scale: real, k: nat)
    requires k < |Items(children, scale)|
    ensures var item := Items(children, scale)[k];
            item.index < |children| && item.area == Times(children[item.index].size as real, scale)
    decreases |children|
  {
    var last := |children| - 1;
    var front := Items(children[..last], scale);
    if k < |front| {
      ItemAreas(children[..last], scale, k);
    }
  }

  lemma LevelShares(children: seq<LayoutNode>, parentSize: nat, bounds: Box, depth: nat, maxDepth: nat, out: seq<Rect>,
                    boxes: seq<Box>, leftover: Box)
    requires bounds.w >= 1.0 && bounds.h >= 1.0 && parentSize > 0
    requires Arranged(Items(children, Quot(Area(bounds), parentSize as real)), children, bounds, depth, maxDepth, out, boxes, leftover)
    ensures Shares(Items(children, Quot(Area(bounds), parentSize as real))[..|boxes|], boxes, children, parentSize, bounds)
  {
    hide Items, Blocks, Times, Quot, SumArea;
    var scale := Quot(Area(bounds), parentSize as real);
    var items := Items(children, scale);
    WholeScale(bounds, parentSize, scale);
    forall k | 0 <= k < |boxes|
      ensures items[k].index < |children| &&
              Times(Area(boxes[k]), parentSize as real) == Times(Area(bounds), children[items[k].index].size as real)
    {
      ItemAreas(children, scale, k);
      assert items[..|boxes|][k] == items[k];
      Proportion(Area(boxes[k]), children[items[k].index].size as real, scale, parentSize as real, Area(bounds));
    }
  }

  lemma WholeScale(bounds: Box, parentSize: nat, scale: real)
    requires parentSize > 0 && scale == Quot(Area(bounds), parentSize as real)
    ensures Times(scale, parentSize as real) == Area(bounds)
  {
    QuotMul(Area(bounds), parentSize as real);
  }

  /** Rectangles of a row of blocks: heads are on the level, the rest have their parents. */
  lemma {:induction false} BlocksSettled(items: seq<Item>, boxes: seq<Box>, children: seq<LayoutNode>, parentSize: nat, bounds: Box,
                                         depth: nat, maxDepth: nat, out: seq<Rect>, j: nat)
    requires Blocks(items, boxes, children, depth, maxDepth, out) && Shares(items, boxes, children, parentSize, bounds) && j < |out|
    ensures Settled(out, j, children, parentSize, bounds, depth)
    decreases children, |items|
  {
    hide HasParent, Share, Occurs;
    var n := |items| - 1;
    var cut :| 0 <= cut <= |out| && Blocks(items[..n], boxes[..n], children, depth, maxDepth, out[..cut]) &&
               items[n].index < |children| && ChildDrawn(children[items[n].index], boxes[n], depth, maxDepth, out[cut..]);
    var front, block := out[..cut], out[cut..];
    assert out == front + block;
    if j < cut {
      BlocksSettled(items[..n], boxes[..n], children, parentSize, bounds, depth, maxDepth, front, j);
      forall k | 0 <= k < |children| && HasParent(front, j, children[k]) ensures HasParent(out, j, children[k]) {
        ParentStaysBefore(front, block, j, children[k]);
      }
    } else {
      var child := children[items[n].index];
      DrawnSettled(child, boxes[n], depth, maxDepth, block, j - cut);
      if j == cut {
        assert StandsFor(out[j], child);
        assert Share(out[j], bounds, parentSize) by { ShareOf(out[j], bounds, parentSize); }
      } else {
        ParentStays(front, block, j - cut, child);
      }
    }
  }

  lemma ShareOf(r: Rect, content: Box, whole: nat)
    requires InBox(r.box, content) && Times(Area(r.box), whole as real) == Times(Area(content), r.size as real)
    ensures Share(r, content, whole)
  {
  }

  lemma {:induction false} LevelSettled(children: seq<LayoutNode>, parentSize: nat, bounds: Box, depth: nat, maxDepth: nat, out: seq<Rect>, j: nat)
    requires LevelDrawn(children, parentSize, bounds, depth, maxDepth, out) && j < |out|
    ensures Settled(out, j, children, parentSize, bounds, depth)
    decreases children
  {
    hide Items, Blocks, Settled, Quot, Times;
    var items := Items(children, Quot(Area(bounds), parentSize as real));
    var boxes, leftover :| Arranged(items, children, bounds, depth, maxDepth, out, boxes, leftover);
    LevelShares(children, parentSize, bounds, depth, maxDepth, out, boxes, leftover);
    BlocksSettled(items[..|boxes|], boxes, children, parentSize, bounds, depth, maxDepth, out, j);
  }

  /** Everything after a node's own rectangle has its parent in the node's picture. */
  lemma {:induction false} DrawnSettled(node: LayoutNode, box: Box, depth: nat, maxDepth: nat, out: seq<Rect>, j: nat)
    requires Drawn(node, box, depth, maxDepth, out) && j < |out|
    ensures out[0].depth == depth && StandsFor(out[0], node) && out[0].box == box
    ensures j > 0 ==> out[j].depth > depth && HasParent(out, j, node)
    decreases node, 1
  {
    hide LevelDrawn, HasParent, Share, Settled;
    if j > 0 {
      BelowSettled(node, depth, maxDepth, out, j);
    }
  }

  lemma {:induction false} AllDeeper(node: LayoutNode, content: Box, depth: nat, maxDepth: nat, below: seq<Rect>)
    requires LevelDrawn(node.children, node.size, content, depth + 1, maxDepth, below)
    ensures forall k :: 0 <= k < |below| ==> below[k].depth > depth
    decreases node, 0, 0
  {
    hide LevelDrawn, Share, HasParent;
    forall k | 0 <= k < |below| ensures below[k].depth > depth {
      LevelSettled(node.children, node.size, content, depth + 1, maxDepth, below, k);
    }
  }

  /** A rectangle over its level. */
  lemma {:induction false} BelowSettled(node: LayoutNode, depth: nat, maxDepth: nat, out: seq<Rect>, j: nat)
    requires 0 < j < |out| && out[0].depth == depth && StandsFor(out[0], node) && out[0].laysOutChildren && Roomy(out[0])
    requires LevelDrawn(node.children, node.size, Content(out[0]), depth + 1, maxDepth, out[1..])
    ensures out[j].depth > depth && HasParent(out, j, node)
    decreases node, 0, 1
  {
    hide LevelDrawn, Share, HasParent, StandsFor, Content;
    var below := out[1..];
    assert out == [out[0]] + below;
    AllDeeper(node, Content(out[0]), depth, maxDepth, below);
    LevelSettled(node.children, node.size, Content(out[0]), depth + 1, maxDepth, below, j - 1);
    if OnLevel(out[j], node.children, node.size, Content(out[0]), depth + 1) {
      ParentIsHead(node, depth, out, j);
    } else {
      var k :| 0 <= k < |node.children| && HasParent(below, j - 1, node.children[k]);
      ParentStays([out[0]], below, j - 1, node.children[k]);
      DeeperParent(out, j, node, k);
    }
  }

  lemma ParentIsHead(node: LayoutNode, depth: nat, out: seq<Rect>, j: nat)
    requires 0 < j < |out| && out[0].depth == depth && StandsFor(out[0], node) && out[0].laysOutChildren && Roomy(out[0])
    requires OnLevel(out[j], node.children, node.size, Content(out[0]), depth + 1)
    requires forall k :: 0 <= k < |out[1..]| ==> out[1..][k].depth > depth
    ensures HasParent(out, j, node)
  {
    hide Share, Content;
    forall k | 0 < k < |out| ensures out[k].depth > depth {
      assert out[k] == out[1..][k - 1];
    }
    var k :| 0 <= k < |node.children| && StandsFor(out[j], node.children[k]);
    assert Parents(out, 0, j, node, node.children[k]);
    assert Occurs(node, node);
  }

  lemma DeeperParent(out: seq<Rect>, j: nat, node: LayoutNode, k: nat)
    requires j < |out| && k < |node.children| && HasParent(out, j, node.children[k])
    ensures HasParent(out, j, node)
  {
    hide Parents;
    var i: nat, parent, child :| i < j && Occurs(parent, node.children[k]) && Parents(out, i, j, parent, child);
    assert Occurs(parent, node);
  }

  /** In the whole picture every rectangle but the root's has its parent's rectangle before it: one level
      up, with only deeper rectangles between, enclosing it in its content and giving it its share. */
  lemma EveryRectangleHasItsParent(root: LayoutNode, bounds: Box, maxDepth: nat, out: seq<Rect>, j: nat)
    requires Pictured(root, bounds, maxDepth, out) && 0 < j < |out|
    ensures HasParent(out, j, root)
  {
    BelowSettled(root, 0, maxDepth, out, j);
  }
}
