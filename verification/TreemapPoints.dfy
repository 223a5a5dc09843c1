/** The treemap under the mouse: every statement is about coordinates. */
module TreemapPoints {
  import opened RealFacts
  import opened TreemapRows
  import opened Treemap
  import opened TreemapFamily

  /** A picture fills its bounds, and every rectangle lies in them. */
  lemma PictureFillsBounds(root: LayoutNode, bounds: Box, maxDepth: nat, out: seq<Rect>)
    requires Pictured(root, bounds, maxDepth, out)
    ensures out != [] && out[0].box == bounds && out[0].depth == 0 && out[0].id == root.id
  {
  }

  /** Pointing at a treemap: there is a picture unless the box is empty or there is nothing to show. A tile is
      hit exactly by the points of the box, its left and top edge included, the others not. The tile hit is the
      deepest under the point, the only one that deep, and lies within every other under the point. */
  method TileAt(root: LayoutNode, bounds: Box, maxDepth: nat, px: real, py: real) returns (out: seq<Rect>, hit: int)
    requires WellSized(root) && Area(bounds) <= MAX_FINITE
    ensures out != [] <==> bounds.w > 0.0 && bounds.h > 0.0 && root.size > 0
    ensures -1 <= hit < |out|
    ensures hit != -1 <==> out != [] && bounds.x <= px < bounds.x + bounds.w && bounds.y <= py < bounds.y + bounds.h
    ensures hit != -1 ==>
              out[hit].box.x <= px < out[hit].box.x + out[hit].box.w && out[hit].box.y <= py < out[hit].box.y + out[hit].box.h
    ensures hit != -1 ==>
              forall k :: (0 <= k < |out| && k != hit &&
                           out[k].box.x <= px < out[k].box.x + out[k].box.w && out[k].box.y <= py < out[k].box.y + out[k].box.h) ==>
                out[k].depth < out[hit].depth &&
                out[k].box.x <= out[hit].box.x && out[hit].box.x + out[hit].box.w <= out[k].box.x + out[k].box.w &&
                out[k].box.y <= out[hit].box.y && out[hit].box.y + out[hit].box.h <= out[k].box.y + out[k].box.h
  {
    hide Pictured, WellSized, Subsequence, Times;
    out := ComputeTreemap(root, bounds, maxDepth);
    if out != [] {
      PictureFillsBounds(root, bounds, maxDepth, out);
    }
    hit := HitTest(out, px, py);
  }

  lemma InsetOf(a: Rect, b: Box)
    requires InBox(b, Content(a)) && Roomy(a)
    ensures var pad, strip := if a.depth == 0 then 0.0 else 1.0, if a.depth == 0 then 0.0 else a.strip;
            a.box.x + pad <= b.x && b.x + b.w <= a.box.x + a.box.w - pad &&
            a.box.y + pad + strip <= b.y && b.y + b.h <= a.box.y + a.box.h - pad
  {
  }

  lemma ContentArea(a: Rect)
    requires Roomy(a)
    ensures Area(Content(a)) == if a.depth == 0 then a.box.w * a.box.h else (a.box.w - 2.0) * (a.box.h - 2.0 - a.strip)
  {
  }

  lemma PlainShare(area: real, whole: real, content: real, size: real)
    requires Times(area, whole) == Times(content, size)
    ensures whole * area == size * content
  {
  }

  lemma PlainArea(b: Box)
    ensures Area(b) == b.w * b.h
  {
  }

  /** A rectangle of the picture lies in that of its node's parent: below the root a pixel inside all its
      edges, and below its label strip. Of the space there it has the part that its size is of its parent's. */
  lemma ChildrenAreInset(root: LayoutNode, bounds: Box, maxDepth: nat, out: seq<Rect>, j: nat) returns (i: nat)
    requires Pictured(root, bounds, maxDepth, out) && 0 < j < |out|
    ensures i < j && out[j].depth == out[i].depth + 1 && out[i].laysOutChildren
    ensures forall k :: i < k < j ==> out[k].depth > out[i].depth
    ensures var a, b := out[i].box, out[j].box; var pad := if out[i].depth == 0 then 0.0 else 1.0;
            var strip := if out[i].depth == 0 then 0.0 else out[i].strip;
            a.x + pad <= b.x && b.x + b.w <= a.x + a.w - pad && a.y + pad + strip <= b.y && b.y + b.h <= a.y + a.h - pad
    ensures out[i].size as real * (out[j].box.w * out[j].box.h) ==
            out[j].size as real * (if out[i].depth == 0 then out[i].box.w * out[i].box.h
                                   else (out[i].box.w - 2.0) * (out[i].box.h - 2.0 - out[i].strip))
  {
    hide Pictured, Occurs, Times, Area, Content, InBox, Roomy;
    EveryRectangleHasItsParent(root, bounds, maxDepth, out, j);
    var parent, child;
    i, parent, child :| i < j && Occurs(parent, root) && Parents(out, i, j, parent, child);
    InsetOf(out[i], out[j].box);
    ContentArea(out[i]);
    PlainArea(out[j].box);
    PlainShare(Area(out[j].box), out[i].size as real, Area(Content(out[i])), out[j].size as real);
  }
}
