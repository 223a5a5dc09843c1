/** What a treemap shows: each rectangle is what its node and its own sides make it, and no child is missing
    that has enough of its parent's size. */
module TreemapShown {
  import opened RealFacts
  import opened TreemapRows
  import opened Treemap
  import opened TreemapFamily

  // ---------------------------------------------------------------- the picture of each node

  /** The len rectangles from j on are the whole picture of `node`, which is root or below it. */
  ghost predicate PictureAt(root: LayoutNode, maxDepth: nat, out: seq<Rect>, j: nat, len: nat, node: LayoutNode) {
    0 < len && j + len <= |out| && Occurs(node, root) && out[j].box.w >= 1.0 && out[j].box.h >= 1.0 &&
    Drawn(node, out[j].box, out[j].depth, maxDepth, out[j..j + len])
  }

  lemma PictureWithin(root: LayoutNode, maxDepth: nat, pre: seq<Rect>, out: seq<Rect>, post: seq<Rect>, j: nat, len: nat, node: LayoutNode)
    requires PictureAt(root, maxDepth, out, j, len, node)
    ensures PictureAt(root, maxDepth, pre + out + post, |pre| + j, len, node)
  {
    hide Occurs, Drawn;
    var all := pre + out + post;
    assert all[|pre| + j..|pre| + j + len] == out[j..j + len] && all[|pre| + j] == out[j];
  }

  lemma PictureBelow(parent: LayoutNode, k: nat, maxDepth: nat, out: seq<Rect>, j: nat, len: nat, node: LayoutNode)
    requires k < |parent.children| && PictureAt(parent.children[k], maxDepth, out, j, len, node)
    ensures PictureAt(parent, maxDepth, out, j, len, node)
  {
    hide Drawn;
  }

  lemma {:induction false} BlocksHold(items: seq<Item>, boxes: seq<Box>, children: seq<LayoutNode>, depth: nat, maxDepth: nat,
                                      out: seq<Rect>, j: nat) returns (k: nat, len: nat, node: LayoutNode)
    requires Blocks(items, boxes, children, depth, maxDepth, out) && j < |out|
    ensures k < |children| && PictureAt(children[k], maxDepth, out, j, len, node)
    decreases children, |items|
  {
    hide PictureAt, Drawn;
    var n := |items| - 1;
    var cut :| 0 <= cut <= |out| && Blocks(items[..n], boxes[..|boxes| - 1], children, depth, maxDepth, out[..cut]) &&
               items[n].index < |children| && ChildDrawn(children[items[n].index], boxes[|boxes| - 1], depth, maxDepth, out[cut..]);
    var front, block := out[..cut], out[cut..];
    if j < cut {
      k, len, node := BlocksHold(items[..n], boxes[..|boxes| - 1], children, depth, maxDepth, front, j);
      PictureWithin(children[k], maxDepth, [], front, block, j, len, node);
      assert [] + front + block == out;
    } else {
      k := items[n].index;
      len, node := DrawnHolds(children[k], boxes[|boxes| - 1], depth, maxDepth, block, j - cut);
      PictureWithin(children[k], maxDepth, front, block, [], j - cut, len, node);
      assert front + block + [] == out;
    }
  }

  lemma {:induction false} LevelHolds(children: seq<LayoutNode>, parentSize: nat, bounds: Box, depth: nat, maxDepth: nat,
                                      out: seq<Rect>, j: nat) returns (k: nat, len: nat, node: LayoutNode)
    requires LevelDrawn(children, parentSize, bounds, depth, maxDepth, out) && j < |out|
    ensures k < |children| && PictureAt(children[k], maxDepth, out, j, len, node)
    decreases children
  {
    hide Items, Blocks, PictureAt, Quot, Rowed, Tiled;
    var items := Items(children, Quot(Area(bounds), parentSize as real));
    var boxes, leftover :| Arranged(items, children, bounds, depth, maxDepth, out, boxes, leftover);
    k, len, node := BlocksHold(items[..|boxes|], boxes, children, depth, maxDepth, out, j);
  }

  lemma {:induction false} DrawnHolds(node: LayoutNode, box: Box, depth: nat, maxDepth: nat, out: seq<Rect>, j: nat)
    returns (len: nat, at: LayoutNode)
    requires Drawn(node, box, depth, maxDepth, out) && box.w >= 1.0 && box.h >= 1.0 && j < |out|
    ensures PictureAt(node, maxDepth, out, j, len, at)
    decreases node, 1
  {
    if j == 0 {
      len, at := |out|, node;
      assert out[0..|out|] == out;
    } else {
      hide LevelDrawn, PictureAt;
      len, at := BelowHolds(node, Content(out[0]), depth, maxDepth, out, j);
    }
  }

  lemma {:induction false} BelowHolds(node: LayoutNode, content: Box, depth: nat, maxDepth: nat, out: seq<Rect>, j: nat)
    returns (len: nat, at: LayoutNode)
    requires 0 < j < |out| && LevelDrawn(node.children, node.size, content, depth + 1, maxDepth, out[1..])
    ensures PictureAt(node, maxDepth, out, j, len, at)
    decreases node, 0
  {
    hide LevelDrawn, PictureAt;
    var k;
    k, len, at := LevelHolds(node.children, node.size, content, depth + 1, maxDepth, out[1..], j - 1);
    PictureWithin(node.children[k], maxDepth, [out[0]], out[1..], [], j - 1, len, at);
    assert [out[0]] + out[1..] + [] == out;
    PictureBelow(node, k, maxDepth, out, j, len, at);
  }

  /** A rectangle below the root stands for a node, is a pixel or more each way, and lays out children exactly
      when the node has some, the depth allows it, and more than two pixels are left each way inside the
      padding and below the label strip of 15 pixels, which it has from 60 by 44 on. */
  lemma RectanglesSay(root: LayoutNode, bounds: Box, maxDepth: nat, out: seq<Rect>, j: nat) returns (node: LayoutNode)
    requires Pictured(root, bounds, maxDepth, out) && 0 < j < |out|
    ensures Occurs(node, root) && StandsFor(out[j], node) && out[j].box.w >= 1.0 && out[j].box.h >= 1.0
    ensures var b := out[j].box; var strip := if b.w >= 60.0 && b.h >= 44.0 then 15.0 else 0.0;
            (out[j].laysOutChildren <==>
               node.children != [] && out[j].depth < maxDepth && b.w - 2.0 > 2.0 && b.h - 2.0 - strip > 2.0) &&
            out[j].strip == (if out[j].laysOutChildren then strip else 0.0)
  {
    hide LevelDrawn, Occurs;
    var len;
    len, node := BelowHolds(root, Content(out[0]), 0, maxDepth, out, j);
  }

  // ---------------------------------------------------------------- nothing large is missing

  lemma {:induction false} ItemFor(children: seq<LayoutNode>, scale: real, k: nat) returns (p: nat)
    requires k < |children| && children[k].size > 0
    ensures p < |Items(children, scale)| && Items(children, scale)[p] == Item(k, Times(children[k].size as real, scale))
    decreases |children|
  {
    var last := |children| - 1;
    if k < last {
      p := ItemFor(children[..last], scale, k);
    } else {
      p := |Items(children[..last], scale)|;
    }
  }

  lemma {:induction false} BlockOf(items: seq<Item>, boxes: seq<Box>, children: seq<LayoutNode>, depth: nat, maxDepth: nat,
                                   out: seq<Rect>, p: nat) returns (j: nat)
    requires |items| == |boxes| && Blocks(items, boxes, children, depth, maxDepth, out) && p < |items|
    requires boxes[p].w >= 1.0 && boxes[p].h >= 1.0
    ensures items[p].index < |children| && j < |out| && out[j].depth == depth && StandsFor(out[j], children[items[p].index])
    decreases |items|
  {
    hide LevelDrawn;
    var n := |items| - 1;
    var cut := LastBlock(items, boxes, children, depth, maxDepth, out);
    if p < n {
      j := BlockOf(items[..n], boxes[..n], children, depth, maxDepth, out[..cut], p);
    } else {
      j := cut;
      assert out[cut..][0] == out[cut];
    }
  }

  lemma {:induction false} PartOfSum(items: seq<Item>, p: nat)
    requires p < |items| && forall i :: 0 <= i < |items| ==> items[i].area >= 0.0
    ensures 0.0 <= items[p].area <= SumArea(items)
  {
    var n := |items| - 1;
    if p < n {
      PartOfSum(items[..n], p);
    } else if n > 0 {
      PartOfSum(items[..n], n - 1);
    }
  }

  lemma RowNotNegative(items: seq<Item>, len: nat, room: Box, rest: Box, boxes: seq<Box>, k: nat)
    requires RowLaid(items, len, room, rest, boxes) && k < |boxes|
    ensures boxes[k].w >= 0.0 && (rest.w >= 1.0 || rest.h >= 1.0)
  {
    hide IsBestRow, SumArea, Quot;
    var row, edge := items[..len], Min(room.w, room.h);
    assert Positive(row);
    SumAreaNonNegative(row);
    NotNegative(SumArea(row), edge);
    var thickness := Quot(SumArea(row), edge);
    SumAreaNonNegative(row[..k]);
    if thickness > 0.0 {
      NotNegative(row[k].area, thickness);
    } else {
      assert Quot(row[k].area, 0.0) == 0.0 by { QuotZero(row[k].area); }
    }
  }

  lemma QuotZero(a: real)
    ensures Quot(a, 0.0) == 0.0
  {
  }

  lemma NotNegative(a: real, b: real)
    requires a >= 0.0 && b > 0.0
    ensures Quot(a, b) >= 0.0
  {
    QuotLe(0.0, a, b);
    QuotMul(0.0, b);
  }

  lemma {:induction false} RowsNotNegative(items: seq<Item>, whole: Box, left: Box, boxes: seq<Box>)
    requires Rowed(items, whole, left, boxes) && whole.w >= 1.0
    ensures (forall k :: 0 <= k < |boxes| ==> boxes[k].w >= 0.0) && (left.w >= 1.0 || left.h >= 1.0)
    decreases |boxes|
  {
    hide RowLaid;
    if boxes != [] {
      var from: nat, room :| from < |boxes| <= |items| &&
        Rowed(items, whole, room, boxes[..from]) && RowLaid(items[from..], |boxes| - from, room, left, boxes[from..]);
      RowsNotNegative(items, whole, room, boxes[..from]);
      forall k | 0 <= k < |boxes| ensures boxes[k].w >= 0.0 {
        if k < from {
          assert boxes[k] == boxes[..from][k];
        } else {
          RowNotNegative(items[from..], |boxes| - from, room, left, boxes[from..], k - from);
        }
      }
      RowNotNegative(items[from..], |boxes| - from, room, left, boxes[from..], 0);
    }
  }

  lemma NoThinSide(w: real, h: real, big: real)
    requires w >= 0.0 && Times(w, h) >= big >= 1.0 && h <= big
    ensures w >= 1.0 && h > 0.0
  {
    if h <= 0.0 {
      MulLe(h, 0.0, w);
    } else if w < 1.0 {
      MulPos(1.0 - w, h);
    }
  }

  /** A box in `bounds` with the area of a strip a pixel wide along the longer side is nowhere thinner. */
  lemma NotThin(b: Box, bounds: Box, area: real)
    requires InBox(b, bounds) && bounds.w >= 1.0 && bounds.h >= 1.0 && Area(b) >= area >= Max(bounds.w, bounds.h)
    requires b.w >= 0.0 || b.h >= 0.0
    ensures b.w >= 1.0 && b.h >= 1.0
  {
    hide Times;
    var big := Max(bounds.w, bounds.h);
    TimesCommutes(b.w, b.h);
    if b.w >= 0.0 {
      NoThinSide(b.w, b.h, big);
    }
    NoThinSide(b.h, b.w, big);
    NoThinSide(b.w, b.h, big);
  }

  lemma Regroup(s: real, lo: real, hi: real, scale: real, p: real)
    requires Times(scale, p) == lo * hi
    ensures (s * lo) * hi == (s * scale) * p && p * hi == hi * p
  {
    assert (s * lo) * hi == s * (lo * hi);
    assert (s * scale) * p == s * (scale * p);
  }

  lemma LargeArea(bounds: Box, parentSize: nat, size: nat, scale: real)
    requires bounds.w >= 1.0 && bounds.h >= 1.0 && parentSize > 0 && scale == Quot(Area(bounds), parentSize as real)
    requires size as real * Min(bounds.w, bounds.h) >= parentSize as real
    ensures Times(size as real, scale) >= Max(bounds.w, bounds.h)
  {
    WholeScale(bounds, parentSize, scale);
    var lo, hi, s, p := Min(bounds.w, bounds.h), Max(bounds.w, bounds.h), size as real, parentSize as real;
    assert Area(bounds) == lo * hi;
    MulLe(p, s * lo, hi);
    Regroup(s, lo, hi, scale, p);
    CancelLe(hi, s * scale, p);
  }

  lemma ItemsAreNonNegative(children: seq<LayoutNode>, scale: real)
    requires scale >= 0.0
    ensures forall i :: 0 <= i < |Items(children, scale)| ==> Items(children, scale)[i].area >= 0.0
  {
    forall i | 0 <= i < |Items(children, scale)| ensures Items(children, scale)[i].area >= 0.0 {
      ItemAreas(children, scale, i);
      TimesLe(children[Items(children, scale)[i].index].size as real, 0.0, scale);
    }
  }

  /** What the unplaced items need is left over. */
  lemma RoomForTheRest(children: seq<LayoutNode>, parentSize: nat, bounds: Box, scale: real, n: nat, left: real)
    requires parentSize > 0 && SumSizes(children) <= parentSize && scale == Quot(Area(bounds), parentSize as real) && scale >= 0.0
    requires n <= |Items(children, scale)| && left + SumArea(Items(children, scale)[..n]) == Area(bounds)
    ensures SumArea(Items(children, scale)[n..]) <= left
  {
    hide Items, SumArea, Quot, Times;
    var items := Items(children, scale);
    WholeScale(bounds, parentSize, scale);
    ItemsSum(children, scale);
    TimesLe(scale, SumSizes(children) as real, parentSize as real);
    SumAreaConcat(items[..n], items[n..]);
    assert items[..n] + items[n..] == items;
  }

  lemma ScaleNotNegative(bounds: Box, parentSize: nat)
    requires bounds.w >= 1.0 && bounds.h >= 1.0 && parentSize > 0
    ensures Quot(Area(bounds), parentSize as real) >= 0.0
  {
    TimesPos(bounds.w, bounds.h);
    QuotPos(Area(bounds), parentSize as real);
  }

  /** The child has at least the part of the whole that a pixel is of the shorter side. */
  predicate LargeEnough(child: LayoutNode, whole: nat, w: real, h: real) { child.size as real * Min(w, h) >= whole as real }

  lemma LevelShows(children: seq<LayoutNode>, parentSize: nat, bounds: Box, depth: nat, maxDepth: nat, out: seq<Rect>, k: nat)
    returns (j: nat)
    requires LevelDrawn(children, parentSize, bounds, depth, maxDepth, out) && SumSizes(children) <= parentSize
    requires bounds.w >= 1.0 && bounds.h >= 1.0 && parentSize > 0 && k < |children|
    requires LargeEnough(children[k], parentSize, bounds.w, bounds.h)
    ensures j < |out| && out[j].depth == depth && StandsFor(out[j], children[k])
  {
    hide Items, Blocks, Quot, Times, Rowed, SumArea, Area;
    var scale := Quot(Area(bounds), parentSize as real);
    var items := Items(children, scale);
    var boxes, leftover :| Arranged(items, children, bounds, depth, maxDepth, out, boxes, leftover);
    ScaleNotNegative(bounds, parentSize);
    LargeArea(bounds, parentSize, children[k].size, scale);
    var p := ItemFor(children, scale, k);
    ItemsAreNonNegative(children, scale);
    RowsNotNegative(items, bounds, leftover, boxes);
    var n := |boxes|;
    if p >= n {
      RoomForTheRest(children, parentSize, bounds, scale, n, Area(leftover));
      PartOfSum(items[n..], p - n);
      NotThin(leftover, bounds, items[p].area);
      assert false;
    }
    NotThin(boxes[p], bounds, items[p].area);
    j := BlockOf(items[..n], boxes, children, depth, maxDepth, out, p);
  }

  lemma {:induction false} SizedBelow(node: LayoutNode, root: LayoutNode)
    requires WellSized(root) && Occurs(node, root)
    ensures WellSized(node)
    decreases root
  {
    if node != root {
      var k :| 0 <= k < |root.children| && Occurs(node, root.children[k]);
      SizedBelow(node, root.children[k]);
    }
  }

  /** The child has a rectangle, the next level below out[i] and with only deeper ones between. */
  ghost predicate ShownBelow(out: seq<Rect>, i: nat, child: LayoutNode)
    requires i < |out|
  {
    exists j :: i < j < |out| && out[j].depth == out[i].depth + 1 && StandsFor(out[j], child) &&
      forall l :: i < l < j ==> out[l].depth > out[i].depth
  }

  lemma ChildIsBelow(node: LayoutNode, maxDepth: nat, out: seq<Rect>, i: nat, len: nat, k: nat)
    requires i < |out| && 0 < len && i + len <= |out| && k < |node.children|
    requires SumSizes(node.children) <= node.size && node.size > 0
    requires LevelDrawn(node.children, node.size, Content(out[i]), out[i].depth + 1, maxDepth, out[i + 1..i + len])
    requires Content(out[i]).w >= 1.0 && Content(out[i]).h >= 1.0
    requires LargeEnough(node.children[k], node.size, Content(out[i]).w, Content(out[i]).h)
    ensures ShownBelow(out, i, node.children[k])
  {
    hide LevelDrawn, Content, StandsFor, SumSizes, LargeEnough;
    var below := out[i + 1..i + len];
    var j := LevelShows(node.children, node.size, Content(out[i]), out[i].depth + 1, maxDepth, below, k);
    AllDeeper(node, Content(out[i]), out[i].depth, maxDepth, below);
    assert out[i + 1 + j] == below[j];
    forall l | i < l < i + 1 + j ensures out[l].depth > out[i].depth {
      assert out[l] == below[l - i - 1];
    }
  }

  /** A rectangle that lays out children has them in its content. */
  lemma LevelBelow(root: LayoutNode, bounds: Box, maxDepth: nat, out: seq<Rect>, i: nat) returns (node: LayoutNode, len: nat)
    requires Pictured(root, bounds, maxDepth, out) && i < |out| && out[i].laysOutChildren
    ensures Occurs(node, root) && StandsFor(out[i], node) && 0 < len && i + len <= |out|
    ensures LevelDrawn(node.children, node.size, Content(out[i]), out[i].depth + 1, maxDepth, out[i + 1..i + len])
    ensures if i == 0 then Content(out[i]) == bounds else
              Content(out[i]).w == out[i].box.w - 2.0 > 2.0 && Content(out[i]).h == out[i].box.h - 2.0 - out[i].strip > 2.0
  {
    hide LevelDrawn;
    if i == 0 {
      node, len := root, |out|;
      assert out[1..] == out[0 + 1..0 + len];
    } else {
      BelowSettled(root, 0, maxDepth, out, i);
      len, node := BelowHolds(root, Content(out[0]), 0, maxDepth, out, i);
      assert out[i..i + len][1..] == out[i + 1..i + len];
    }
  }

  /** Under a rectangle that lays out children, every child is shown that is large enough for the space there. */
  lemma LargeChildrenAreShown(root: LayoutNode, bounds: Box, maxDepth: nat, out: seq<Rect>, i: nat) returns (node: LayoutNode)
    requires WellSized(root) && Pictured(root, bounds, maxDepth, out) && i < |out| && out[i].laysOutChildren && out[i].size > 0
    requires i == 0 ==> bounds.w >= 1.0 && bounds.h >= 1.0
    ensures Occurs(node, root) && StandsFor(out[i], node)
    ensures var b := out[i].box; var w, h := if i == 0 then b.w else b.w - 2.0, if i == 0 then b.h else b.h - 2.0 - out[i].strip;
            forall k :: 0 <= k < |node.children| && LargeEnough(node.children[k], out[i].size, w, h) ==>
              ShownBelow(out, i, node.children[k])
  {
    hide LevelDrawn, ShownBelow, Occurs, Content, Pictured, LargeEnough, SumSizes;
    var len;
    node, len := LevelBelow(root, bounds, maxDepth, out, i);
    SizedBelow(node, root);
    FirstIsRoot(root, bounds, maxDepth, out);
    var inner := Content(out[i]);
    forall k | 0 <= k < |node.children| && LargeEnough(node.children[k], out[i].size, inner.w, inner.h)
      ensures ShownBelow(out, i, node.children[k])
    {
      ChildIsBelow(node, maxDepth, out, i, len, k);
    }
  }

  lemma FirstIsRoot(root: LayoutNode, bounds: Box, maxDepth: nat, out: seq<Rect>)
    requires Pictured(root, bounds, maxDepth, out)
    ensures out != [] && out[0].box == bounds
  {
  }
}
