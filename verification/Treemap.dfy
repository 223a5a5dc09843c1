/** The squarified treemap over real coordinates: nesting, disjointness, preorder, proportional areas,
    and what a hit test therefore finds. */
module Treemap {
  import opened RealFacts
  import opened TreemapRows

  const U64_MAX: nat := 0xFFFF_FFFF_FFFF_FFFF
  const LABEL_STRIP_HEIGHT: real := 15.0
  const LABEL_STRIP_MIN_HEIGHT: real := 44.0
  const LABEL_STRIP_MIN_WIDTH: real := 60.0

  datatype LayoutNode = LayoutNode(id: nat, size: nat, children: seq<LayoutNode>)

  datatype Box = Box(x: real, y: real, w: real, h: real)

  datatype Rect = Rect(id: nat, size: nat, box: Box, depth: nat, hasChildren: bool, laysOutChildren: bool, strip: real)

  function Area(b: Box): real { Times(b.w, b.h) }

  predicate InBox(a: Box, b: Box) {
    b.x <= a.x && a.x + a.w <= b.x + b.w && b.y <= a.y && a.y + a.h <= b.y + b.h
  }

  /** Separated by a vertical or a horizontal line. */
  predicate Apart(a: Box, b: Box) {
    a.x + a.w <= b.x || b.x + b.w <= a.x || a.y + a.h <= b.y || b.y + b.h <= a.y
  }

  /** Half-open: left and top edges belong to the rectangle, right and bottom edges do not. */
  predicate Contains(r: Rect, px: real, py: real) {
    px >= r.box.x && px < r.box.x + r.box.w && py >= r.box.y && py < r.box.y + r.box.h
  }

  /** Where a rectangle's children go: all of the root, elsewhere inside the padding and below the label. */
  function Content(r: Rect): Box {
    if r.depth == 0 then r.box
    else Box(r.box.x + 1.0, r.box.y + 1.0 + r.strip, Max(r.box.w - 2.0, 0.0), Max(r.box.h - 2.0 - r.strip, 0.0))
  }

  /** Children sum to at most their parent, throughout, and sizes are u64. */
  ghost predicate WellSized(n: LayoutNode)
    decreases n
  {
    n.size <= U64_MAX && SumSizes(n.children) <= n.size && forall i :: 0 <= i < |n.children| ==> WellSized(n.children[i])
  }

  function SumSizes(ns: seq<LayoutNode>): nat {
    if ns == [] then 0 else SumSizes(ns[..|ns| - 1]) + ns[|ns| - 1].size
  }

  // ---------------------------------------------------------------- what a list of rectangles satisfies

  /** An earlier and a later rectangle: apart, or the later one lies in the earlier one's content, deeper,
      and as a direct child takes the share of the content that its size has of its parent's. */
  ghost predicate Related(a: Rect, b: Rect) {
    Apart(a.box, b.box) ||
    (InBox(b.box, Content(a)) && InBox(Content(a), a.box) && b.depth > a.depth &&
     (b.depth == a.depth + 1 ==> Times(Area(b.box), a.size as real) == Times(Area(Content(a)), b.size as real)))
  }

  ghost predicate Good(out: seq<Rect>) {
    forall i, j :: 0 <= i < j < |out| ==> Related(out[i], out[j])
  }

  ghost predicate Within(out: seq<Rect>, b: Box, depth: nat) {
    forall r :: r in out ==> InBox(r.box, b) && r.depth >= depth && r.box.w >= 1.0 && r.box.h >= 1.0
  }

  ghost predicate AllApart(out: seq<Rect>, b: Box) {
    forall r :: r in out ==> Apart(r.box, b)
  }

  /** The rectangles of the topmost level have the area that `scale` gives their size. */
  ghost predicate Scaled(out: seq<Rect>, depth: nat, scale: real) {
    forall r :: r in out && r.depth == depth ==> Area(r.box) == Times(r.size as real, scale)
  }

  lemma GoodConcat(a: seq<Rect>, b: seq<Rect>, box: Box, depth: nat)
    requires Good(a) && Good(b) && AllApart(a, box) && Within(b, box, depth)
    ensures Good(a + b)
  {
    forall i, j | 0 <= i < j < |a + b| ensures Related((a + b)[i], (a + b)[j]) {
      if i < |a| <= j {
        assert a[i] in a && b[j - |a|] in b;
      }
    }
  }

  // ---------------------------------------------------------------- rows of a level

  function RowBox(bounds: Box, vertical: bool, thickness: real): Box {
    if vertical then Box(bounds.x, bounds.y, thickness, bounds.h) else Box(bounds.x, bounds.y, bounds.w, thickness)
  }

  function RestBox(bounds: Box, vertical: bool, thickness: real): Box {
    if vertical then Box(bounds.x + thickness, bounds.y, bounds.w - thickness, bounds.h)
    else Box(bounds.x, bounds.y + thickness, bounds.w, bounds.h - thickness)
  }

  function ItemBox(bounds: Box, vertical: bool, thickness: real, offset: real, length: real): Box {
    if vertical then Box(bounds.x, bounds.y + offset, thickness, length) else Box(bounds.x + offset, bounds.y, length, thickness)
  }

  /** The first boxes of a row: one behind the other, as long as their areas demand. */
  ghost predicate RowTiles(row: seq<Item>, room: Box, vertical: bool, thickness: real, boxes: seq<Box>) {
    |boxes| <= |row| &&
    forall k :: 0 <= k < |boxes| ==>
      boxes[k] == ItemBox(room, vertical, thickness, Quot(SumArea(row[..k]), thickness), Quot(row[k].area, thickness))
  }

  /** One row: the best prefix of the items that are left, along the shorter side of the room that is left. */
  ghost predicate RowLaid(items: seq<Item>, len: nat, room: Box, rest: Box, boxes: seq<Box>) {
    0 < len == |boxes| && len <= |items| && Positive(items) && room.w >= 1.0 && room.h >= 1.0 &&
    IsBestRow(items, Min(room.w, room.h), len) &&
    var vertical := room.w >= room.h;
    var thickness := Quot(SumArea(items[..len]), Min(room.w, room.h));
    RowTiles(items[..len], room, vertical, thickness, boxes) && rest == RestBox(room, vertical, thickness)
  }

  /** The boxes are rows of that kind, one after the other, from the whole box down to what is left. */
  ghost predicate Rowed(items: seq<Item>, whole: Box, left: Box, boxes: seq<Box>)
    decreases |boxes|
  {
    if boxes == [] then left == whole
    else
      exists from: nat, room :: from < |boxes| <= |items| &&
        Rowed(items, whole, room, boxes[..from]) && RowLaid(items[from..], |boxes| - from, room, left, boxes[from..])
  }

  lemma RowedFurther(items: seq<Item>, whole: Box, room: Box, left: Box, boxes: seq<Box>, row: seq<Box>)
    requires Rowed(items, whole, room, boxes) && |boxes| + |row| <= |items|
    requires RowLaid(items[|boxes|..], |row|, room, left, row)
    ensures Rowed(items, whole, left, boxes + row)
  {
    hide RowLaid;
    assert (boxes + row)[..|boxes|] == boxes && (boxes + row)[|boxes|..] == row;
    assert |row| > 0 by { RowIsNotEmpty(items[|boxes|..], |row|, room, left, row); }
  }

  lemma RowIsLaid(items: seq<Item>, len: nat, room: Box, vertical: bool, thickness: real, boxes: seq<Box>)
    requires Positive(items) && 0 < len <= |items| && room.w >= 1.0 && room.h >= 1.0 && vertical == (room.w >= room.h)
    requires IsBestRow(items, Min(room.w, room.h), len) && thickness == Quot(SumArea(items[..len]), Min(room.w, room.h))
    requires RowTiles(items[..len], room, vertical, thickness, boxes) && |boxes| == len
    ensures RowLaid(items, len, room, RestBox(room, vertical, thickness), boxes)
  {
  }

  lemma RowIsNotEmpty(items: seq<Item>, len: nat, room: Box, rest: Box, boxes: seq<Box>)
    requires RowLaid(items, len, room, rest, boxes)
    ensures boxes != []
  {
  }

  // ---------------------------------------------------------------- one level of the picture

  /** The boxes, drawn or not, have their items' areas, lie in `whole`, and share no area with each
      other or with `free`. */
  ghost predicate Tiled(boxes: seq<Box>, items: seq<Item>, whole: Box, free: Box) {
    |boxes| == |items| &&
    (forall k :: 0 <= k < |boxes| ==> Area(boxes[k]) == items[k].area && InBox(boxes[k], whole) && Apart(boxes[k], free)) &&
    forall j, k :: 0 <= j < k < |boxes| ==> Apart(boxes[j], boxes[k])
  }

  /** One level is complete: boxes for a prefix of the items, in best rows, fill `bounds` up to `leftover`,
      every visible one is drawn, in order, and items are left out only when the leftover is under a pixel
      thin. */
  ghost predicate Arranged(items: seq<Item>, children: seq<LayoutNode>, bounds: Box, depth: nat, maxDepth: nat, out: seq<Rect>,
                           boxes: seq<Box>, leftover: Box)
    decreases children, |items| + 1
  {
    |boxes| <= |items| &&
    Blocks(items[..|boxes|], boxes, children, depth, maxDepth, out) && Rowed(items, bounds, leftover, boxes) &&
    Tiled(boxes, items[..|boxes|], bounds, leftover) && InBox(leftover, bounds) &&
    Area(leftover) + SumArea(items[..|boxes|]) == Area(bounds) &&
    (|boxes| == |items| || leftover.w < 1.0 || leftover.h < 1.0)
  }

  ghost predicate LevelDrawn(children: seq<LayoutNode>, parentSize: nat, bounds: Box, depth: nat, maxDepth: nat, out: seq<Rect>)
    decreases children
  {
    if bounds.w < 1.0 || bounds.h < 1.0 || parentSize == 0 then out == []
    else
      var items := Items(children, Quot(Area(bounds), parentSize as real));
      exists boxes, leftover :: Arranged(items, children, bounds, depth, maxDepth, out, boxes, leftover)
  }

  /** The list is one contiguous block for each item, in order: the child's whole picture in its box. */
  ghost predicate Blocks(items: seq<Item>, boxes: seq<Box>, children: seq<LayoutNode>, depth: nat, maxDepth: nat, out: seq<Rect>)
    decreases children, |items|
  {
    if items == [] || boxes == [] then out == []
    else
      exists cut :: 0 <= cut <= |out| &&
        Blocks(items[..|items| - 1], boxes[..|boxes| - 1], children, depth, maxDepth, out[..cut]) &&
        var item := items[|items| - 1];
        item.index < |children| && ChildDrawn(children[item.index], boxes[|boxes| - 1], depth, maxDepth, out[cut..])
  }

  /** Boxes under a pixel in either direction show nothing. */
  ghost predicate ChildDrawn(node: LayoutNode, box: Box, depth: nat, maxDepth: nat, out: seq<Rect>)
    decreases node, 1
  {
    if box.w < 1.0 || box.h < 1.0 then out == [] else Drawn(node, box, depth, maxDepth, out)
  }

  /** The node's own rectangle comes first, with its label strip; its children's level follows in its
      content exactly when there is depth, room and something to draw. */
  ghost predicate Drawn(node: LayoutNode, box: Box, depth: nat, maxDepth: nat, out: seq<Rect>)
    decreases node, 0
  {
    var canRecurse := depth < maxDepth && node.children != [];
    var labelled := canRecurse && box.h >= LABEL_STRIP_MIN_HEIGHT && box.w >= LABEL_STRIP_MIN_WIDTH;
    var laysOut := canRecurse && box.w - 2.0 > 2.0 && box.h - 2.0 - (if labelled then LABEL_STRIP_HEIGHT else 0.0) > 2.0;
    out != [] &&
    out[0] == Rect(node.id, node.size, box, depth, node.children != [], laysOut, if labelled && laysOut then LABEL_STRIP_HEIGHT else 0.0) &&
    if laysOut then LevelDrawn(node.children, node.size, Content(out[0]), depth + 1, maxDepth, out[1..]) else out == [out[0]]
  }

  lemma BlocksAppend(items: seq<Item>, boxes: seq<Box>, children: seq<LayoutNode>, depth: nat, maxDepth: nat, out: seq<Rect>,
                     item: Item, box: Box, more: seq<Rect>)
    requires |items| == |boxes| && Blocks(items, boxes, children, depth, maxDepth, out)
    requires item.index < |children| && ChildDrawn(children[item.index], box, depth, maxDepth, more)
    ensures Blocks(items + [item], boxes + [box], children, depth, maxDepth, out + more)
  {
    hide ChildDrawn;
    assert (items + [item])[..|items|] == items && (boxes + [box])[..|boxes|] == boxes;
    assert (out + more)[..|out|] == out && (out + more)[|out|..] == more;
  }

  lemma NoBlocks(q: seq<Box>, children: seq<LayoutNode>, depth: nat, maxDepth: nat, out: seq<Rect>)
    requires Blocks([], q, children, depth, maxDepth, out)
    ensures out == []
  {
  }

  lemma LastBlock(b: seq<Item>, q: seq<Box>, children: seq<LayoutNode>, depth: nat, maxDepth: nat, out: seq<Rect>) returns (cut: nat)
    requires |b| == |q| > 0 && Blocks(b, q, children, depth, maxDepth, out)
    ensures var n := |b| - 1;
            cut <= |out| && Blocks(b[..n], q[..n], children, depth, maxDepth, out[..cut]) &&
            b[n].index < |children| && ChildDrawn(children[b[n].index], q[n], depth, maxDepth, out[cut..])
  {
    hide ChildDrawn;
    var n := |b| - 1;
    cut :| 0 <= cut <= |out| && Blocks(b[..n], q[..n], children, depth, maxDepth, out[..cut]) &&
           b[n].index < |children| && ChildDrawn(children[b[n].index], q[n], depth, maxDepth, out[cut..]);
  }

  lemma {:induction false} BlocksConcat(a: seq<Item>, b: seq<Item>, p: seq<Box>, q: seq<Box>, children: seq<LayoutNode>,
                                        depth: nat, maxDepth: nat, out: seq<Rect>, more: seq<Rect>)
    requires |a| == |p| && |b| == |q|
    requires Blocks(a, p, children, depth, maxDepth, out) && Blocks(b, q, children, depth, maxDepth, more)
    ensures Blocks(a + b, p + q, children, depth, maxDepth, out + more)
    decreases |b|
  {
    hide ChildDrawn, Blocks;
    if b == [] {
      assert more == [] by { NoBlocks(q, children, depth, maxDepth, more); }
      assert a + b == a && p + q == p && out + more == out;
    } else {
      var n := |b| - 1;
      var cut := LastBlock(b, q, children, depth, maxDepth, more);
      BlocksConcat(a, b[..n], p, q[..n], children, depth, maxDepth, out, more[..cut]);
      BlocksAppend(a + b[..n], p + q[..n], children, depth, maxDepth, out + more[..cut], b[n], q[n], more[cut..]);
      assert a + b[..n] + [b[n]] == a + b && p + q[..n] + [q[n]] == p + q;
      assert out + more[..cut] + more[cut..] == out + more;
    }
  }

  lemma TiledConcat(p: seq<Box>, a: seq<Item>, q: seq<Box>, b: seq<Item>, whole: Box, room: Box, region: Box, rest: Box)
    requires Tiled(p, a, whole, room)
    requires |q| == |b| && (forall k :: 0 <= k < |q| ==> Area(q[k]) == b[k].area && InBox(q[k], region))
    requires forall j, k :: 0 <= j < k < |q| ==> Apart(q[j], q[k])
    requires InBox(region, room) && InBox(room, whole) && InBox(rest, room) && Apart(region, rest)
    ensures Tiled(p + q, a + b, whole, rest)
  {
  }

  // ---------------------------------------------------------------- preorder

  datatype Mark = Mark(id: nat, size: nat, depth: nat)

  function Preorder(n: LayoutNode, depth: nat): seq<Mark>
    decreases n
  {
    [Mark(n.id, n.size, depth)] + PreorderAll(n.children, depth + 1)
  }

  function PreorderAll(ns: seq<LayoutNode>, depth: nat): seq<Mark>
    decreases ns
  {
    if ns == [] then [] else Preorder(ns[0], depth) + PreorderAll(ns[1..], depth)
  }

  function Marks(out: seq<Rect>): seq<Mark> {
    if out == [] then [] else [Mark(out[0].id, out[0].size, out[0].depth)] + Marks(out[1..])
  }

  ghost predicate Subsequence<T>(a: seq<T>, b: seq<T>)
    decreases |b|
  {
    a == [] || (b != [] && ((a[0] == b[0] && Subsequence(a[1..], b[1..])) || Subsequence(a, b[1..])))
  }

  lemma {:induction false} SubsequenceConcat<T>(a: seq<T>, b: seq<T>, c: seq<T>, d: seq<T>)
    requires Subsequence(a, b) && Subsequence(c, d)
    ensures Subsequence(a + c, b + d)
    decreases |b|
  {
    if b == [] {
      assert a + c == c && b + d == d;
    } else {
      assert (b + d)[1..] == b[1..] + d;
      if a != [] && a[0] == b[0] && Subsequence(a[1..], b[1..]) {
        assert (a + c)[1..] == a[1..] + c;
        SubsequenceConcat(a[1..], b[1..], c, d);
      } else {
        SubsequenceConcat(a, b[1..], c, d);
      }
    }
  }

  lemma {:induction false} MarksConcat(a: seq<Rect>, b: seq<Rect>)
    ensures Marks(a + b) == Marks(a) + Marks(b)
  {
    if a == [] {
      assert a + b == b;
    } else {
      assert (a + b)[1..] == a[1..] + b;
      MarksConcat(a[1..], b);
    }
  }

  /** The preorder of the children behind a run of items. */
  function Listing(items: seq<Item>, children: seq<LayoutNode>, depth: nat): seq<Mark> {
    if items == [] then []
    else Listing(items[..|items| - 1], children, depth) +
         (if items[|items| - 1].index < |children| then Preorder(children[items[|items| - 1].index], depth) else [])
  }

  lemma NoListing(children: seq<LayoutNode>, depth: nat)
    ensures Listing([], children, depth) == []
  {
  }

  lemma ListingOne(a: seq<Item>, x: Item, children: seq<LayoutNode>, depth: nat)
    ensures Listing(a + [x], children, depth) ==
            Listing(a, children, depth) + if x.index < |children| then Preorder(children[x.index], depth) else []
  {
    assert (a + [x])[..|a|] == a;
  }

  lemma {:induction false} ListingConcat(a: seq<Item>, b: seq<Item>, children: seq<LayoutNode>, depth: nat)
    ensures Listing(a + b, children, depth) == Listing(a, children, depth) + Listing(b, children, depth)
    decreases |b|
  {
    hide Preorder, Listing;
    if b == [] {
      assert Listing([], children, depth) == [] by { NoListing(children, depth); }
      assert a + b == a;
    } else {
      var front, x := b[..|b| - 1], b[|b| - 1];
      ListingConcat(a, front, children, depth);
      ListingOne(a + front, x, children, depth);
      ListingOne(front, x, children, depth);
      assert a + b == (a + front) + [x] && b == front + [x];
    }
  }

  lemma {:induction false} SumAreaConcat(a: seq<Item>, b: seq<Item>)
    ensures SumArea(a + b) == SumArea(a) + SumArea(b)
    decreases |b|
  {
    if b == [] {
      assert a + b == a;
    } else {
      assert (a + b)[..|a + b| - 1] == a + b[..|b| - 1];
      SumAreaConcat(a, b[..|b| - 1]);
    }
  }

  lemma {:induction false} SumAreaNonNegative(items: seq<Item>)
    requires Positive(items)
    ensures SumArea(items) >= 0.0
  {
    if items != [] {
      SumAreaNonNegative(items[..|items| - 1]);
    }
  }

  // ---------------------------------------------------------------- the layout

  /** Items stand for children, with the area their size has at `scale`. */
  ghost predicate ItemsOf(items: seq<Item>, children: seq<LayoutNode>, scale: real) {
    Positive(items) &&
    (forall i :: 0 <= i < |children| ==> WellSized(children[i])) &&
    forall k :: 0 <= k < |items| ==>
      items[k].index < |children| && items[k].area == Times(children[items[k].index].size as real, scale)
  }

  ghost function Left(depth: nat, maxDepth: nat): nat { if maxDepth > depth then maxDepth - depth else 0 }

  method AddNodeRect(node: LayoutNode, box: Box, depth: nat, maxDepth: nat, ghost scale: real) returns (out: seq<Rect>)
    requires WellSized(node) && depth > 0 && Area(box) <= MAX_FINITE && Area(box) == Times(node.size as real, scale)
    ensures ChildDone(node, box, depth, maxDepth, scale, out)
    decreases Left(depth, maxDepth), 0
  {
    hide LevelDrawn, Related, Subsequence, Times, Preorder, Marks;
    var w, h := box.w, box.h;
    if w < 1.0 || h < 1.0 {
      NothingListed(Preorder(node, depth));
      return [];
    }
    var canRecurse := depth < maxDepth && node.children != [];
    var strip := if canRecurse && h >= LABEL_STRIP_MIN_HEIGHT && w >= LABEL_STRIP_MIN_WIDTH then LABEL_STRIP_HEIGHT else 0.0;
    var pad := 1.0;
    var innerW := Max(w - 2.0 * pad, 0.0);
    var innerH := Max(h - 2.0 * pad - strip, 0.0);
    var laysOut := canRecurse && innerW > 2.0 && innerH > 2.0;
    var rect := Rect(node.id, node.size, box, depth, node.children != [], laysOut, if laysOut then strip else 0.0);
    out := [rect];
    HeadListed(node, rect, []);
    assert [rect] + [] == [rect];
    if laysOut {
      var inner := Box(box.x + pad, box.y + pad + strip, innerW, innerH);
      assert inner == Content(rect);
      SmallerArea(inner, box);
      var below := LayoutChildren(node.children, node.size, inner, depth + 1, maxDepth);
      NestBelow(rect, below);
      HeadListed(node, rect, below);
      out := [rect] + below;
      assert out[1..] == below;
    }
    assert Within(out, box, depth) && Scaled(out, depth, scale);
    assert ChildDrawn(node, box, depth, maxDepth, out);
  }

  lemma NothingListed(listed: seq<Mark>)
    ensures Subsequence(Marks([]), listed)
  {
  }

  /** A node's rectangle before what is listed of its children. */
  lemma HeadListed(node: LayoutNode, rect: Rect, below: seq<Rect>)
    requires rect.id == node.id && rect.size == node.size
    requires below == [] || Subsequence(Marks(below), PreorderAll(node.children, rect.depth + 1))
    ensures Subsequence(Marks([rect] + below), Preorder(node, rect.depth))
  {
    var head := [Mark(node.id, node.size, rect.depth)];
    assert Marks([rect]) == head by { assert [rect][1..] == []; }
    MarksConcat([rect], below);
    SubsequenceConcat(head, head, Marks(below), PreorderAll(node.children, rect.depth + 1));
  }

  lemma SmallerArea(a: Box, b: Box)
    requires 0.0 <= a.w <= b.w && 0.0 <= a.h <= b.h
    ensures Area(a) <= Area(b)
  {
    MulLe(a.w, b.w, a.h);
    MulLe(a.h, b.h, b.w);
  }

  lemma NestBelow(rect: Rect, below: seq<Rect>)
    requires Good(below) && Within(below, Content(rect), rect.depth + 1) && InBox(Content(rect), rect.box)
    requires forall r :: r in below && r.depth == rect.depth + 1 ==>
               Times(Area(r.box), rect.size as real) == Times(Area(Content(rect)), r.size as real)
    ensures Good([rect] + below)
    ensures Within(below, rect.box, rect.depth + 1)
  {
    var out := [rect] + below;
    forall i, j | 0 <= i < j < |out| ensures Related(out[i], out[j]) {
      assert out[j] == below[j - 1] && below[j - 1] in below;
      if i > 0 {
        assert out[i] == below[i - 1];
      }
    }
  }

  function Items(children: seq<LayoutNode>, scale: real): seq<Item> {
    if children == [] then []
    else
      var last := |children| - 1;
      Items(children[..last], scale) +
      (if children[last].size > 0 then [Item(last, Times(children[last].size as real, scale))] else [])
  }

  lemma ItemsOfAppend(items: seq<Item>, item: Item, children: seq<LayoutNode>, front: seq<LayoutNode>, scale: real)
    requires ItemsOf(items, front, scale) && front <= children && MIN_POSITIVE <= item.area <= MAX_FINITE
    requires forall i :: 0 <= i < |children| ==> WellSized(children[i])
    requires item.index < |children| && item.area == Times(children[item.index].size as real, scale)
    ensures ItemsOf(items + [item], children, scale)
    ensures SumArea(items + [item]) == SumArea(items) + item.area
  {
    assert (items + [item])[..|items|] == items;
    forall k | 0 <= k < |items + [item]|
      ensures var it := (items + [item])[k];
              MIN_POSITIVE <= it.area <= MAX_FINITE && it.index < |children| && it.area == Times(children[it.index].size as real, scale)
    {
    }
  }

  lemma Distribute(s: real, a: real, b: real)
    ensures Times(s, a) + Times(b, s) == Times(s, a + b)
  {
  }

  lemma {:induction false} ItemsFacts(children: seq<LayoutNode>, scale: real, parent: nat)
    requires scale > 0.0 && 0 < parent <= U64_MAX && SumSizes(children) <= parent
    requires Times(scale, U64_MAX as real) >= 1.0 && Times(scale, parent as real) <= MAX_FINITE
    requires forall i :: 0 <= i < |children| ==> WellSized(children[i])
    ensures ItemsOf(Items(children, scale), children, scale)
    decreases |children|
  {
    if children != [] {
      var last := |children| - 1;
      ItemsFacts(children[..last], scale, parent);
      if children[last].size > 0 {
        AreaIsFinite(children[last].size, scale, parent);
        ItemsOfAppend(Items(children[..last], scale), Item(last, Times(children[last].size as real, scale)), children, children[..last], scale);
      }
    }
  }

  lemma {:induction false} ItemsSum(children: seq<LayoutNode>, scale: real)
    ensures SumArea(Items(children, scale)) == Times(scale, SumSizes(children) as real)
    decreases |children|
  {
    if children != [] {
      var last := |children| - 1;
      var front := Items(children[..last], scale);
      ItemsSum(children[..last], scale);
      var size := children[last].size;
      Distribute(scale, SumSizes(children[..last]) as real, size as real);
      assert SumSizes(children) as real == SumSizes(children[..last]) as real + size as real;
      if size > 0 {
        var item := Item(last, Times(size as real, scale));
        assert (front + [item])[..|front|] == front;
      } else {
        assert Items(children, scale) == front;
      }
    }
  }

  lemma AreaIsFinite(size: nat, scale: real, parent: nat)
    requires scale > 0.0 && 0 < size <= parent <= U64_MAX
    requires Times(scale, U64_MAX as real) >= 1.0 && Times(scale, parent as real) <= MAX_FINITE
    ensures MIN_POSITIVE <= Times(size as real, scale) <= MAX_FINITE
  {
    TimesLe(scale, size as real, parent as real);
    TimesLe(scale, 1.0, size as real);
    if scale < MIN_POSITIVE {
      MulLe(scale, MIN_POSITIVE, U64_MAX as real);
    }
  }

  lemma {:induction false} ItemsListing(children: seq<LayoutNode>, all: seq<LayoutNode>, scale: real, depth: nat)
    requires children <= all
    ensures Subsequence(Listing(Items(children, scale), all, depth), PreorderAll(children, depth))
    decreases |children|
  {
    hide Preorder, Listing;
    NoListing(all, depth);
    if children != [] {
      var last := |children| - 1;
      var front := children[..last];
      ItemsListing(front, all, scale, depth);
      PreorderAllSplit(front, children[last], depth);
      assert children == front + [children[last]];
      var tail := if children[last].size > 0 then [Item(last, Times(children[last].size as real, scale))] else [];
      ListingConcat(Items(front, scale), tail, all, depth);
      var mine := Listing(tail, all, depth);
      if children[last].size > 0 {
        ListingOne([], tail[0], all, depth);
        assert [] + [tail[0]] == tail && [] + Preorder(children[last], depth) == Preorder(children[last], depth);
        SubsequenceReflexive(Preorder(children[last], depth));
      } else {
        NothingListed(Preorder(children[last], depth));
        assert Marks([]) == [];
      }
      SubsequenceConcat(Listing(Items(front, scale), all, depth), PreorderAll(front, depth), mine, Preorder(children[last], depth));
    }
  }

  lemma {:induction false} SubsequenceReflexive<T>(a: seq<T>)
    ensures Subsequence(a, a)
  {
    if a != [] {
      SubsequenceReflexive(a[1..]);
    }
  }

  lemma {:induction false} SubsequenceTransitive<T>(a: seq<T>, b: seq<T>, c: seq<T>)
    requires Subsequence(a, b) && Subsequence(b, c)
    ensures Subsequence(a, c)
    decreases |c|
  {
    if a != [] && c != [] {
      if b[0] == c[0] && Subsequence(b[1..], c[1..]) {
        if a[0] == b[0] && Subsequence(a[1..], b[1..]) {
          SubsequenceTransitive(a[1..], b[1..], c[1..]);
        } else {
          SubsequenceTransitive(a, b[1..], c[1..]);
        }
      } else {
        SubsequenceTransitive(a, b, c[1..]);
      }
    }
  }

  lemma {:induction false} PreorderAllSplit(front: seq<LayoutNode>, last: LayoutNode, depth: nat)
    ensures PreorderAll(front + [last], depth) == PreorderAll(front, depth) + Preorder(last, depth)
    decreases |front|
  {
    if front == [] {
      assert [] + [last] == [last];
      assert [last][1..] == [];
      assert PreorderAll([last], depth) == Preorder(last, depth) + [];
    } else {
      assert (front + [last])[1..] == front[1..] + [last];
      PreorderAllSplit(front[1..], last, depth);
    }
  }

  method LayoutChildren(children: seq<LayoutNode>, parentSize: nat, bounds: Box, depth: nat, maxDepth: nat) returns (out: seq<Rect>)
    requires depth > 0 && SumSizes(children) <= parentSize <= U64_MAX && Area(bounds) <= MAX_FINITE
    requires forall i :: 0 <= i < |children| ==> WellSized(children[i])
    ensures Within(out, bounds, depth) && Good(out)
    ensures Subsequence(Marks(out), PreorderAll(children, depth))
    ensures forall r :: r in out && r.depth == depth ==>
              Times(Area(r.box), parentSize as real) == Times(Area(bounds), r.size as real)
    ensures LevelDrawn(children, parentSize, bounds, depth, maxDepth, out)
    decreases Left(depth, maxDepth), 4
  {
    var w, h := bounds.w, bounds.h;
    if w < 1.0 || h < 1.0 || children == [] {
      if children == [] && parentSize > 0 && w >= 1.0 && h >= 1.0 {
        assert Items(children, Quot(Area(bounds), parentSize as real)) == [];
        assert Arranged([], children, bounds, depth, maxDepth, [], [], bounds);
      }
      return [];
    }
    var totalArea := Times(w, h);
    var scale := if parentSize > 0 then Quot(totalArea, parentSize as real) else 0.0;
    if parentSize == 0 {
      NothingToPlace(children);
      return [];
    }
    ScaleFacts(w, h, parentSize, scale);
    var items := Items(children, scale);
    ItemsFacts(children, scale, parentSize);
    ItemsSum(children, scale);
    ItemsListing(children, children, scale, depth);
    if items == [] {
      assert Arranged(items, children, bounds, depth, maxDepth, [], [], bounds);
      return [];
    }
    TimesLe(scale, SumSizes(children) as real, parentSize as real);
    ghost var leftover, boxes;
    out, leftover, boxes := Squarify(items, children, bounds, depth, maxDepth, scale);
    SubsequenceTransitive(Marks(out), Listing(items, children, depth), PreorderAll(children, depth));
    forall r | r in out && r.depth == depth
      ensures Times(Area(r.box), parentSize as real) == Times(Area(bounds), r.size as real)
    {
      Proportion(Area(r.box), r.size as real, scale, parentSize as real, Area(bounds));
    }
  }

  lemma {:induction false} NothingToPlace(children: seq<LayoutNode>)
    requires SumSizes(children) == 0
    ensures Items(children, 0.0) == []
  {
    if children != [] {
      NothingToPlace(children[..|children| - 1]);
    }
  }

  lemma Proportion(area: real, size: real, scale: real, parent: real, total: real)
    requires area == Times(size, scale) && Times(scale, parent) == total
    ensures Times(area, parent) == Times(total, size)
  {
    assert Times(area, parent) == (size * scale) * parent == size * (scale * parent);
  }

  lemma ScaleFacts(w: real, h: real, parentSize: nat, scale: real)
    requires w >= 1.0 && h >= 1.0 && 0 < parentSize <= U64_MAX && Times(w, h) <= MAX_FINITE
    requires scale == Quot(Times(w, h), parentSize as real)
    ensures scale > 0.0 && Times(scale, parentSize as real) == Times(w, h) <= MAX_FINITE && Times(scale, U64_MAX as real) >= 1.0
  {
    TimesLe(w, 1.0, h);
    QuotPos(Times(w, h), parentSize as real);
    QuotMul(Times(w, h), parentSize as real);
    TimesLe(scale, parentSize as real, U64_MAX as real);
  }

  // ---------------------------------------------------------------- rows

  /** The part of the row not yet filled. */
  function Unfilled(bounds: Box, vertical: bool, thickness: real, offset: real): Box {
    ItemBox(bounds, vertical, thickness, offset, (if vertical then bounds.h else bounds.w) - offset)
  }

  lemma NextFits(done: real, area: real, all: real, t: real, offset: real, length: real, edge: real)
    requires t > 0.0 && area > 0.0 && done >= 0.0 && done + area <= all
    requires Times(offset, t) == done && length == Quot(area, t) && Times(edge, t) == all
    ensures length > 0.0 && 0.0 <= offset && offset + length <= edge
    ensures Times(offset + length, t) == done + area && Times(length, t) == area == Times(t, length)
  {
    QuotPos(area, t);
    QuotMul(area, t);
    assert (offset + length) * t == offset * t + length * t;
    CancelLe(offset + length, edge, t);
    CancelLe(0.0, offset, t);
  }

  lemma Advance(out: seq<Rect>, more: seq<Rect>, listed: seq<Mark>, next: seq<Mark>)
    requires Subsequence(Marks(out), listed) && Subsequence(Marks(more), next)
    ensures Subsequence(Marks(out + more), listed + next)
  {
    MarksConcat(out, more);
    SubsequenceConcat(Marks(out), listed, Marks(more), next);
  }

  /** A row's items up to i are laid out; the rest of the row is free. */
  ghost predicate RowState(row: seq<Item>, children: seq<LayoutNode>, bounds: Box, vertical: bool, thickness: real,
                           depth: nat, maxDepth: nat, scale: real, i: nat, offset: real, out: seq<Rect>, boxes: seq<Box>)
  {
    i <= |row| && Times(offset, thickness) == SumArea(row[..i]) && offset >= 0.0 &&
    RowRects(RowBox(bounds, vertical, thickness), Unfilled(bounds, vertical, thickness, offset), depth, scale, out) &&
    Subsequence(Marks(out), Listing(row[..i], children, depth)) &&
    Blocks(row[..i], boxes, children, depth, maxDepth, out) && RowTiles(row, bounds, vertical, thickness, boxes) &&
    Tiled(boxes, row[..i], RowBox(bounds, vertical, thickness), Unfilled(bounds, vertical, thickness, offset))
  }

  ghost predicate RowRects(whole: Box, free: Box, depth: nat, scale: real, out: seq<Rect>) {
    Within(out, whole, depth) && Good(out) && Scaled(out, depth, scale) && AllApart(out, free)
  }

  /** A finished row. */
  ghost predicate RowDone(row: seq<Item>, children: seq<LayoutNode>, region: Box, depth: nat, maxDepth: nat, scale: real,
                          out: seq<Rect>, boxes: seq<Box>)
  {
    Within(out, region, depth) && Good(out) && Scaled(out, depth, scale) &&
    Subsequence(Marks(out), Listing(row, children, depth)) && Blocks(row, boxes, children, depth, maxDepth, out) &&
    |boxes| == |row| && (forall k :: 0 <= k < |row| ==> Area(boxes[k]) == row[k].area && InBox(boxes[k], region)) &&
    forall j, k :: 0 <= j < k < |boxes| ==> Apart(boxes[j], boxes[k])
  }

  lemma RowStarts(row: seq<Item>, children: seq<LayoutNode>, bounds: Box, vertical: bool, thickness: real, depth: nat, maxDepth: nat, scale: real)
    ensures RowState(row, children, bounds, vertical, thickness, depth, maxDepth, scale, 0, 0.0, [], [])
  {
    assert row[..0] == [];
  }

  lemma RowEnds(row: seq<Item>, children: seq<LayoutNode>, bounds: Box, vertical: bool, thickness: real,
                depth: nat, maxDepth: nat, scale: real, offset: real, out: seq<Rect>, boxes: seq<Box>)
    requires RowState(row, children, bounds, vertical, thickness, depth, maxDepth, scale, |row|, offset, out, boxes)
    ensures RowDone(row, children, RowBox(bounds, vertical, thickness), depth, maxDepth, scale, out, boxes)
    ensures RowTiles(row, bounds, vertical, thickness, boxes)
  {
    assert row[..|row|] == row;
  }

  ghost predicate RowFits(row: seq<Item>, bounds: Box, vertical: bool, thickness: real) {
    bounds.w >= 1.0 && bounds.h >= 1.0 && thickness > 0.0 && thickness <= (if vertical then bounds.w else bounds.h) &&
    Times(if vertical then bounds.h else bounds.w, thickness) == SumArea(row)
  }

  lemma ItemFits(row: seq<Item>, bounds: Box, vertical: bool, thickness: real, i: nat, offset: real)
    requires Positive(row) && RowFits(row, bounds, vertical, thickness) && i < |row|
    requires Times(offset, thickness) == SumArea(row[..i]) && offset >= 0.0
    ensures var length := Quot(row[i].area, thickness);
            var box := ItemBox(bounds, vertical, thickness, offset, length);
            var free := Unfilled(bounds, vertical, thickness, offset);
            var still := Unfilled(bounds, vertical, thickness, offset + length);
            Area(box) == row[i].area && InBox(box, free) && InBox(still, free) && Apart(box, still) &&
            InBox(free, RowBox(bounds, vertical, thickness)) && row[i].area <= MAX_FINITE &&
            offset + length >= 0.0 && Times(offset + length, thickness) == SumArea(row[..i + 1])
  {
    RowPrefix(row, i);
    NextFits(SumArea(row[..i]), row[i].area, SumArea(row), thickness, offset, Quot(row[i].area, thickness),
      if vertical then bounds.h else bounds.w);
  }

  /** What AddNodeRect delivers for one child. */
  ghost predicate ChildDone(child: LayoutNode, box: Box, depth: nat, maxDepth: nat, scale: real, more: seq<Rect>) {
    Within(more, box, depth) && Good(more) && Scaled(more, depth, scale) &&
    Subsequence(Marks(more), Preorder(child, depth)) &&
    ChildDrawn(child, box, depth, maxDepth, more)
  }

  lemma TilesAppend(row: seq<Item>, i: nat, boxes: seq<Box>, box: Box, whole: Box, free: Box, still: Box)
    requires i < |row| && Tiled(boxes, row[..i], whole, free)
    requires Area(box) == row[i].area && InBox(box, free) && InBox(still, free) && Apart(box, still) && InBox(free, whole)
    ensures Tiled(boxes + [box], row[..i + 1], whole, still)
  {
    assert row[..i + 1] == row[..i] + [row[i]];
    TiledConcat(boxes, row[..i], [box], [row[i]], whole, free, box, still);
  }

  lemma RowTilesAppend(row: seq<Item>, room: Box, vertical: bool, thickness: real, boxes: seq<Box>, i: nat, offset: real, length: real)
    requires RowTiles(row, room, vertical, thickness, boxes) && |boxes| == i < |row| && thickness > 0.0
    requires Times(offset, thickness) == SumArea(row[..i]) && length == Quot(row[i].area, thickness)
    ensures RowTiles(row, room, vertical, thickness, boxes + [ItemBox(room, vertical, thickness, offset, length)])
  {
    hide SumArea, ItemBox, Quot;
    QuotIs(SumArea(row[..i]), thickness, offset);
  }

  lemma ListingAppend(row: seq<Item>, children: seq<LayoutNode>, i: nat, depth: nat)
    requires i < |row| && row[i].index < |children|
    ensures Listing(row[..i + 1], children, depth) == Listing(row[..i], children, depth) + Preorder(children[row[i].index], depth)
  {
    assert row[..i + 1][..i] == row[..i];
  }

  lemma ItemLaid(row: seq<Item>, children: seq<LayoutNode>, bounds: Box, vertical: bool, thickness: real,
                 depth: nat, maxDepth: nat, scale: real, i: nat, offset: real, length: real, out: seq<Rect>, boxes: seq<Box>, more: seq<Rect>)
    requires ItemsOf(row, children, scale) && RowFits(row, bounds, vertical, thickness) && i < |row|
    requires RowState(row, children, bounds, vertical, thickness, depth, maxDepth, scale, i, offset, out, boxes)
    requires length == Quot(row[i].area, thickness)
    requires ChildDone(children[row[i].index], ItemBox(bounds, vertical, thickness, offset, length), depth, maxDepth, scale, more)
    ensures RowState(row, children, bounds, vertical, thickness, depth, maxDepth, scale, i + 1, offset + length, out + more,
                     boxes + [ItemBox(bounds, vertical, thickness, offset, length)])
  {
    hide Times, SumArea, Subsequence, Listing, Blocks, ChildDrawn, Quot, Preorder, Marks;
    var box := ItemBox(bounds, vertical, thickness, offset, length);
    var whole, free := RowBox(bounds, vertical, thickness), Unfilled(bounds, vertical, thickness, offset);
    var still := Unfilled(bounds, vertical, thickness, offset + length);
    ItemFits(row, bounds, vertical, thickness, i, offset);
    Join(out, more, whole, free, box, still, depth, scale);
    ListingAppend(row, children, i, depth);
    Advance(out, more, Listing(row[..i], children, depth), Preorder(children[row[i].index], depth));
    assert row[..i + 1] == row[..i] + [row[i]];
    BlocksAppend(row[..i], boxes, children, depth, maxDepth, out, row[i], box, more);
    RowTilesAppend(row, bounds, vertical, thickness, boxes, i, offset, length);
    TilesAppend(row, i, boxes, box, whole, free, still);
  }

  /** One row: consecutive items along the edge, each as long as its area demands. */
  method LayRow(row: seq<Item>, children: seq<LayoutNode>, bounds: Box, vertical: bool, thickness: real,
                depth: nat, maxDepth: nat, ghost scale: real)
    returns (out: seq<Rect>, ghost boxes: seq<Box>)
    requires row != [] && ItemsOf(row, children, scale) && depth > 0 && RowFits(row, bounds, vertical, thickness)
    ensures RowDone(row, children, RowBox(bounds, vertical, thickness), depth, maxDepth, scale, out, boxes)
    ensures RowTiles(row, bounds, vertical, thickness, boxes) && |boxes| == |row|
    decreases Left(depth, maxDepth), 1
  {
    hide Times, SumArea, Subsequence, Listing, Blocks, ChildDrawn, Quot, Preorder, Marks, RowDone, RowTiles, Tiled, RowRects;
    var offset := 0.0;
    out, boxes := [], [];
    RowStarts(row, children, bounds, vertical, thickness, depth, maxDepth, scale);
    for i := 0 to |row|
      invariant RowState(row, children, bounds, vertical, thickness, depth, maxDepth, scale, i, offset, out, boxes)
    {
      var length := if thickness > 0.0 then Quot(row[i].area, thickness) else 0.0;
      var itemBox := ItemBox(bounds, vertical, thickness, offset, length);
      ItemFits(row, bounds, vertical, thickness, i, offset);
      var more := AddNodeRect(children[row[i].index], itemBox, depth, maxDepth, scale);
      ItemLaid(row, children, bounds, vertical, thickness, depth, maxDepth, scale, i, offset, length, out, boxes, more);
      out, boxes, offset := out + more, boxes + [itemBox], offset + length;
    }
    RowEnds(row, children, bounds, vertical, thickness, depth, maxDepth, scale, offset, out, boxes);
  }

  lemma RowPrefix(row: seq<Item>, i: nat)
    requires i < |row| && Positive(row)
    ensures SumArea(row[..i + 1]) == SumArea(row[..i]) + row[i].area <= SumArea(row)
    ensures SumArea(row[..i]) >= 0.0 && row[i].area > 0.0
  {
    var front, back := row[..i + 1], row[i + 1..];
    assert front[..i] == row[..i] && front + back == row;
    SumAreaConcat(front, back);
    SumAreaNonNegative(back);
    SumAreaNonNegative(row[..i]);
    assert SumArea(front) == SumArea(front[..i]) + front[i].area;
  }

  lemma WithinWider(out: seq<Rect>, a: Box, b: Box, depth: nat)
    requires Within(out, a, depth) && InBox(a, b)
    ensures Within(out, b, depth)
  {
  }

  lemma AllApartNarrower(out: seq<Rect>, a: Box, b: Box)
    requires AllApart(out, a) && InBox(b, a)
    ensures AllApart(out, b)
  {
  }

  lemma WithinApart(out: seq<Rect>, a: Box, b: Box, depth: nat)
    requires Within(out, a, depth) && Apart(a, b)
    ensures AllApart(out, b)
  {
  }

  lemma RowGeometry(bounds: Box, vertical: bool, sum: real, edge: real, t: real, remaining: real)
    requires bounds.w >= 1.0 && bounds.h >= 1.0 && edge == (if vertical then bounds.h else bounds.w)
    requires 0.0 < sum <= remaining <= Area(bounds) && t == Quot(sum, edge)
    ensures t > 0.0 && Times(edge, t) == sum && t <= (if vertical then bounds.w else bounds.h)
    ensures Area(RestBox(bounds, vertical, t)) == Area(bounds) - sum
    ensures InBox(RestBox(bounds, vertical, t), bounds) && InBox(RowBox(bounds, vertical, t), bounds)
    ensures Apart(RowBox(bounds, vertical, t), RestBox(bounds, vertical, t))
  {
    hide Times, Quot;
    QuotPos(sum, edge);
    QuotTimes(sum, edge);
    TimesCommutes(t, edge);
    if vertical {
      CancelTimes(t, bounds.w, edge);
      TimesMinus(bounds.w, t, edge);
    } else {
      TimesCommutes(bounds.w, bounds.h);
      CancelTimes(t, bounds.h, edge);
      TimesMinus(bounds.h, t, edge);
      TimesCommutes(bounds.w, bounds.h - t);
    }
  }

  /** Rectangles placed in `region`, part of `room`, join those that stay clear of `room`; together they
      stay clear of `rest`. */
  lemma Join(out: seq<Rect>, more: seq<Rect>, whole: Box, room: Box, region: Box, rest: Box, depth: nat, scale: real)
    requires Within(out, whole, depth) && Good(out) && Scaled(out, depth, scale) && AllApart(out, room)
    requires Within(more, region, depth) && Good(more) && Scaled(more, depth, scale)
    requires InBox(region, room) && InBox(room, whole) && InBox(rest, room) && Apart(region, rest)
    ensures Within(out + more, whole, depth) && Good(out + more) && Scaled(out + more, depth, scale)
    ensures AllApart(out + more, rest)
  {
    WithinWider(more, region, room, depth);
    WithinWider(more, room, whole, depth);
    GoodConcat(out, more, room, depth);
    AllApartNarrower(out, room, rest);
    WithinApart(more, region, rest, depth);
  }

  /** Taking a row off moves its area from the box to the placed items. */
  lemma RowConserves(items: seq<Item>, from: nat, len: nat, start: Box, bounds: Box, vertical: bool, edge: real, t: real)
    requires Positive(items) && 0 < len && from + len <= |items|
    requires bounds.w >= 1.0 && bounds.h >= 1.0 && edge == (if vertical then bounds.h else bounds.w)
    requires t == Quot(SumArea(items[from..][..len]), edge)
    requires Area(bounds) + SumArea(items[..from]) == Area(start) && SumArea(items[from..]) <= Area(bounds)
    ensures var rest := RestBox(bounds, vertical, t);
            Area(rest) + SumArea(items[..from + len]) == Area(start) && SumArea(items[from + len..]) <= Area(rest) &&
            InBox(rest, bounds) && InBox(RowBox(bounds, vertical, t), bounds) && Apart(RowBox(bounds, vertical, t), rest)
    ensures t > 0.0 && Times(edge, t) == SumArea(items[from..][..len]) && t <= (if vertical then bounds.w else bounds.h)
  {
    SplitOff(items, from, len);
    SumIsPositive(items[from..][..len]);
    RowGeometry(bounds, vertical, SumArea(items[from..][..len]), edge, t, SumArea(items[from..]));
  }

  /** The loop's state: items[..from] are placed in `out`, `bounds` is what is left of the box. */
  ghost predicate Placed(items: seq<Item>, children: seq<LayoutNode>, from: nat, start: Box, bounds: Box, out: seq<Rect>,
                         boxes: seq<Box>, depth: nat, maxDepth: nat, scale: real)
  {
    from <= |items| && Area(bounds) + SumArea(items[..from]) == Area(start) && SumArea(items[from..]) <= Area(bounds) &&
    Within(out, start, depth) && Good(out) && Scaled(out, depth, scale) &&
    AllApart(out, bounds) && InBox(bounds, start) &&
    Subsequence(Marks(out), Listing(items[..from], children, depth)) &&
    Tiled(boxes, items[..from], start, bounds) && Blocks(items[..from], boxes, children, depth, maxDepth, out) &&
    Rowed(items, start, bounds, boxes) && |boxes| == from
  }

  lemma RowPlaced(items: seq<Item>, children: seq<LayoutNode>, from: nat, start: Box, bounds: Box, out: seq<Rect>, boxes: seq<Box>,
                  depth: nat, maxDepth: nat, scale: real, len: nat, vertical: bool, edge: real, t: real, more: seq<Rect>, rowBoxes: seq<Box>)
    requires Positive(items) && Placed(items, children, from, start, bounds, out, boxes, depth, maxDepth, scale)
    requires 0 < len && from + len <= |items| && bounds.w >= 1.0 && bounds.h >= 1.0
    requires edge == (if vertical then bounds.h else bounds.w) && t == Quot(SumArea(items[from..][..len]), edge)
    requires RowDone(items[from..][..len], children, RowBox(bounds, vertical, t), depth, maxDepth, scale, more, rowBoxes)
    requires RowLaid(items[from..], len, bounds, RestBox(bounds, vertical, t), rowBoxes)
    ensures Placed(items, children, from + len, start, RestBox(bounds, vertical, t), out + more, boxes + rowBoxes, depth, maxDepth, scale)
  {
    var row := items[from..][..len];
    RowConserves(items, from, len, start, bounds, vertical, edge, t);
    Join(out, more, start, bounds, RowBox(bounds, vertical, t), RestBox(bounds, vertical, t), depth, scale);
    Advance(out, more, Listing(items[..from], children, depth), Listing(row, children, depth));
    ListingConcat(items[..from], row, children, depth);
    BlocksConcat(items[..from], row, boxes, rowBoxes, children, depth, maxDepth, out, more);
    RowedFurther(items, start, bounds, RestBox(bounds, vertical, t), boxes, rowBoxes);
    TiledConcat(boxes, items[..from], rowBoxes, row, start, bounds, RowBox(bounds, vertical, t), RestBox(bounds, vertical, t));
    SplitOff(items, from, len);
  }

  lemma NothingPlaced(items: seq<Item>, children: seq<LayoutNode>, start: Box, depth: nat, maxDepth: nat, scale: real)
    requires SumArea(items) <= Area(start)
    ensures Placed(items, children, 0, start, start, [], [], depth, maxDepth, scale)
  {
    assert items[..0] == [] && items[0..] == items;
  }

  /** One turn of the loop: the best row goes along the shorter side. */
  method PlaceRow(items: seq<Item>, children: seq<LayoutNode>, from: nat, ghost start: Box, bounds: Box, out: seq<Rect>,
                  ghost boxes: seq<Box>, depth: nat, maxDepth: nat, ghost scale: real)
    returns (from': nat, bounds': Box, out': seq<Rect>, ghost boxes': seq<Box>)
    requires ItemsOf(items, children, scale) && depth > 0 && from < |items| && bounds.w >= 1.0 && bounds.h >= 1.0
    requires Placed(items, children, from, start, bounds, out, boxes, depth, maxDepth, scale)
    ensures from < from' == |boxes'| && RowLaid(items[from..], from' - from, bounds, bounds', boxes'[from..])
    ensures Placed(items, children, from', start, bounds', out', boxes', depth, maxDepth, scale)
    ensures IsBestRow(items[from..], Min(bounds.w, bounds.h), from' - from)
    decreases Left(depth, maxDepth), 2
  {
    hide Times, SumArea, Subsequence, Listing, Blocks, ChildDrawn, Quot, Preorder, Marks, RowLaid, Rowed, RowTiles, RowDone, ItemBox;
    var vertical := bounds.w >= bounds.h;
    var edge := if vertical then bounds.h else bounds.w;
    var rowLen := BestRowLen(items[from..], edge);
    var row := items[from..][..rowLen];
    var thickness := Quot(SumArea(row), Max(edge, MIN_POSITIVE));
    RowConserves(items, from, rowLen, start, bounds, vertical, edge, thickness);
    ghost var rowBoxes;
    var more;
    more, rowBoxes := LayRow(row, children, bounds, vertical, thickness, depth, maxDepth, scale);
    RowIsLaid(items[from..], rowLen, bounds, vertical, thickness, rowBoxes);
    RowPlaced(items, children, from, start, bounds, out, boxes, depth, maxDepth, scale, rowLen, vertical, edge, thickness, more, rowBoxes);
    assert (boxes + rowBoxes)[|boxes|..] == rowBoxes;
    from', bounds', out', boxes' := from + rowLen, RestBox(bounds, vertical, thickness), out + more, boxes + rowBoxes;
  }

  lemma PlacedIsArranged(items: seq<Item>, children: seq<LayoutNode>, from: nat, start: Box, bounds: Box, out: seq<Rect>,
                         boxes: seq<Box>, depth: nat, maxDepth: nat, scale: real)
    requires Placed(items, children, from, start, bounds, out, boxes, depth, maxDepth, scale)
    requires from == |items| || bounds.w < 1.0 || bounds.h < 1.0
    ensures Within(out, start, depth) && Good(out) && Scaled(out, depth, scale)
    ensures Subsequence(Marks(out), Listing(items, children, depth))
    ensures Arranged(items, children, start, depth, maxDepth, out, boxes, bounds)
  {
    PrefixIsListed(items, from, children, depth, out);
  }

  /** Rows are split off the box until items or room run out. At every turn what is placed and what is
      left make up the starting box: so they do at the end. */
  method Squarify(items: seq<Item>, children: seq<LayoutNode>, start: Box, depth: nat, maxDepth: nat, ghost scale: real)
    returns (out: seq<Rect>, ghost leftover: Box, ghost boxes: seq<Box>)
    requires ItemsOf(items, children, scale) && SumArea(items) <= Area(start) && depth > 0
    ensures Within(out, start, depth) && Good(out) && Scaled(out, depth, scale)
    ensures Subsequence(Marks(out), Listing(items, children, depth))
    ensures Arranged(items, children, start, depth, maxDepth, out, boxes, leftover)
    decreases Left(depth, maxDepth), 3
  {
    var from := 0;
    var bounds := start;
    out, boxes := [], [];
    NothingPlaced(items, children, start, depth, maxDepth, scale);
    while from < |items| && bounds.w >= 1.0 && bounds.h >= 1.0
      invariant Placed(items, children, from, start, bounds, out, boxes, depth, maxDepth, scale)
      decreases |items| - from
    {
      from, bounds, out, boxes := PlaceRow(items, children, from, start, bounds, out, boxes, depth, maxDepth, scale);
    }
    leftover := bounds;
    PlacedIsArranged(items, children, from, start, bounds, out, boxes, depth, maxDepth, scale);
  }

  lemma PrefixIsListed(items: seq<Item>, from: nat, children: seq<LayoutNode>, depth: nat, out: seq<Rect>)
    requires from <= |items| && Subsequence(Marks(out), Listing(items[..from], children, depth))
    ensures Subsequence(Marks(out), Listing(items, children, depth))
  {
    hide Subsequence, Listing;
    ListingConcat(items[..from], items[from..], children, depth);
    assert items[..from] + items[from..] == items;
    Advance(out, [], Listing(items[..from], children, depth), Listing(items[from..], children, depth));
    assert out + [] == out;
  }

  lemma SplitOff(items: seq<Item>, from: nat, len: nat)
    requires from + len <= |items| && Positive(items)
    ensures items[..from + len] == items[..from] + items[from..][..len]
    ensures SumArea(items[..from + len]) == SumArea(items[..from]) + SumArea(items[from..][..len])
    ensures SumArea(items[from..]) == SumArea(items[from..][..len]) + SumArea(items[from + len..])
    ensures SumArea(items[from + len..]) >= 0.0
  {
    assert items[..from + len] == items[..from] + items[from..][..len];
    assert items[from..] == items[from..][..len] + items[from + len..];
    SumAreaConcat(items[..from], items[from..][..len]);
    SumAreaConcat(items[from..][..len], items[from + len..]);
    SumAreaNonNegative(items[from + len..]);
  }

  // ---------------------------------------------------------------- the whole picture

  /** The root fills the bounds without padding or strip; everything else hangs below it. */
  ghost predicate Pictured(root: LayoutNode, bounds: Box, maxDepth: nat, out: seq<Rect>) {
    var recurse := root.children != [] && maxDepth > 0;
    out != [] &&
    out[0] == Rect(root.id, root.size, bounds, 0, root.children != [], recurse, 0.0) &&
    if recurse then LevelDrawn(root.children, root.size, Content(out[0]), 1, maxDepth, out[1..]) else out == [out[0]]
  }

  method ComputeTreemap(root: LayoutNode, bounds: Box, maxDepth: nat) returns (out: seq<Rect>)
    requires WellSized(root) && Area(bounds) <= MAX_FINITE
    ensures out == [] <==> bounds.w <= 0.0 || bounds.h <= 0.0 || root.size == 0
    ensures Good(out) && Subsequence(Marks(out), Preorder(root, 0))
    ensures forall r :: r in out ==> InBox(r.box, bounds)
    ensures out != [] ==> Pictured(root, bounds, maxDepth, out)
  {
    if bounds.w <= 0.0 || bounds.h <= 0.0 || root.size == 0 {
      return [];
    }
    var recurse := root.children != [] && maxDepth > 0;
    var rect := Rect(root.id, root.size, bounds, 0, root.children != [], recurse, 0.0);
    out := [rect];
    HeadListed(root, rect, []);
    assert [rect] + [] == [rect];
    if recurse {
      var below := LayoutChildren(root.children, root.size, bounds, 1, maxDepth);
      NestBelow(rect, below);
      HeadListed(root, rect, below);
      out := [rect] + below;
      assert out[1..] == below;
    }
  }

  /** In a treemap the last rectangle under the point is the deepest one, and the only one that deep;
      every other rectangle under the point encloses it. */
  lemma LastHitIsDeepest(out: seq<Rect>, px: real, py: real, hit: nat, k: nat)
    requires Good(out) && hit < |out| && Contains(out[hit], px, py)
    requires forall i :: hit < i < |out| ==> !Contains(out[i], px, py)
    requires k < |out| && k != hit && Contains(out[k], px, py)
    ensures out[k].depth < out[hit].depth && InBox(out[hit].box, Content(out[k])) && InBox(Content(out[k]), out[k].box)
  {
    assert Related(out[k], out[hit]);
  }

  /** The search from the end finds a rectangle exactly if one contains the point, left and top edges
      included, right and bottom edges not; and in a treemap the one it finds is the unique deepest: all
      others under the point are shallower and enclose it. */
  method HitTest(rects: seq<Rect>, px: real, py: real) returns (hit: int)
    ensures -1 <= hit < |rects|
    ensures hit >= 0 <==>
              (exists k :: 0 <= k < |rects| &&
                 rects[k].box.x <= px < rects[k].box.x + rects[k].box.w && rects[k].box.y <= py < rects[k].box.y + rects[k].box.h)
    ensures hit >= 0 ==>
              rects[hit].box.x <= px < rects[hit].box.x + rects[hit].box.w &&
              rects[hit].box.y <= py < rects[hit].box.y + rects[hit].box.h
    ensures hit >= 0 && Good(rects) ==>
              forall k :: (0 <= k < |rects| && k != hit &&
                           rects[k].box.x <= px < rects[k].box.x + rects[k].box.w && rects[k].box.y <= py < rects[k].box.y + rects[k].box.h) ==>
                rects[k].depth < rects[hit].depth && InBox(rects[hit].box, Content(rects[k])) &&
                rects[k].box.x <= rects[hit].box.x && rects[hit].box.x + rects[hit].box.w <= rects[k].box.x + rects[k].box.w &&
                rects[k].box.y <= rects[hit].box.y && rects[hit].box.y + rects[hit].box.h <= rects[k].box.y + rects[k].box.h
  {
    hit := |rects| - 1;
    while hit >= 0 && !Contains(rects[hit], px, py)
      invariant -1 <= hit < |rects|
      invariant forall k :: hit < k < |rects| ==> !Contains(rects[k], px, py)
    {
      hit := hit - 1;
    }
    if hit >= 0 && Good(rects) {
      forall k | 0 <= k < |rects| && k != hit && Contains(rects[k], px, py)
        ensures rects[k].depth < rects[hit].depth && InBox(rects[hit].box, Content(rects[k])) && InBox(Content(rects[k]), rects[k].box)
      {
        LastHitIsDeepest(rects, px, py, hit, k);
      }
    }
  }

  /** Rectangles on one level have no point in common. */
  lemma SameDepthIsDisjoint(out: seq<Rect>, i: nat, j: nat, px: real, py: real)
    requires Good(out) && i < j < |out| && out[i].depth == out[j].depth
    requires out[i].box.x <= px < out[i].box.x + out[i].box.w && out[i].box.y <= py < out[i].box.y + out[i].box.h
    ensures px < out[j].box.x || out[j].box.x + out[j].box.w <= px || py < out[j].box.y || out[j].box.y + out[j].box.h <= py
  {
    assert Related(out[i], out[j]);
  }
}
