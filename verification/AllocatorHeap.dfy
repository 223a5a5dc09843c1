/** The size-class allocator's heap: free lists threaded through slab memory, and the smallest steps by
    which alloc, dealloc and refill change it. Memory is a map from addresses to byte cells; a stored
    link is eight cells that remember which link they are part of, so a list is intact exactly while
    nobody has written over its links. */
module AllocatorHeap {
  datatype Option<T> = None | Some(value: T)

  const MAX_SMALL: nat := 2048
  const SLAB: nat := 262144
  const CLASS_ALIGN: nat := 16
  const LINK: nat := 8      // bytes of a link
  const NCLASSES: nat := 16
  const CLASSES: seq<nat> := [16, 32, 48, 64, 96, 128, 192, 256, 320, 384, 512, 768, 1024, 1280, 1536, 2048]

  lemma ClassFacts(k: nat)
    requires k < NCLASSES
    ensures |CLASSES| == NCLASSES && 16 <= CLASSES[k] <= MAX_SMALL && CLASSES[k] % CLASS_ALIGN == 0
    ensures k > 0 ==> CLASSES[k - 1] < CLASSES[k]
  {
  }

  datatype Layout = Layout(size: nat, align: nat)

  /** The system allocator never returns one address twice, so even an empty block occupies a byte. */
  function Extent(layout: Layout): nat { Max(layout.size, 1) }

  /** The smallest class that holds `size` bytes. */
  function ClassIndex(size: nat): (r: Option<nat>)
    ensures r.None? <==> size > MAX_SMALL
    ensures r.Some? ==> r.value < NCLASSES && CLASSES[r.value] >= size && (r.value > 0 ==> CLASSES[r.value - 1] < size)
  {
    if size > MAX_SMALL then None else Position(size, 0)
  }

  function Position(size: nat, from: nat): (r: Option<nat>)
    requires from < NCLASSES && size <= MAX_SMALL && (from > 0 ==> CLASSES[from - 1] < size)
    ensures r.Some? && from <= r.value < NCLASSES && CLASSES[r.value] >= size
    ensures r.value > 0 ==> CLASSES[r.value - 1] < size
    decreases NCLASSES - from
  {
    if CLASSES[from] >= size then Some(from) else Position(size, from + 1)
  }

  function Max(a: nat, b: nat): nat { if a >= b then a else b }
  function Min(a: nat, b: nat): nat { if a <= b then a else b }

  function ClassFor(layout: Layout): (r: Option<nat>)
    ensures r.Some? ==> r.value < NCLASSES && CLASSES[r.value] >= layout.size && layout.align <= CLASS_ALIGN
  {
    if layout.align > CLASS_ALIGN then None else ClassIndex(Max(layout.size, 1))
  }

  /** Requests too large or too strictly aligned go to the system; every other one to the smallest class
      that holds it. */
  lemma ClassForIsSmallest(layout: Layout)
    ensures ClassFor(layout).None? <==> layout.size > 2048 || layout.align > 16
    ensures ClassFor(layout).Some? ==>
              var k := ClassFor(layout).value;
              k < |CLASSES| && layout.size <= CLASSES[k] && forall j :: 0 <= j < k ==> CLASSES[j] < layout.size
  {
    if ClassFor(layout).Some? {
      Ascending(ClassFor(layout).value);
    }
  }

  lemma {:induction false} Ascending(k: nat)
    requires k < NCLASSES
    ensures forall j :: 0 <= j < k ==> CLASSES[j] <= CLASSES[k - 1]
  {
    if k > 1 {
      ClassFacts(k - 1);
      Ascending(k - 1);
    }
  }

  // ---------------------------------------------------------------- memory

  datatype Cell = Byte(b: nat) | Link(to: nat, part: nat)

  type Memory = map<nat, Cell>

  predicate LinkAt(m: Memory, a: nat, to: nat) {
    forall i :: a <= i < a + LINK ==> i in m && m[i] == Link(to, i - a)
  }

  function WriteLink(m: Memory, a: nat, to: nat): (r: Memory)
    ensures LinkAt(r, a, to)
    ensures forall i :: i < a || a + LINK <= i ==> (i in r <==> i in m) && (i in r ==> r[i] == m[i])
  {
    m[a := Link(to, 0)][a + 1 := Link(to, 1)][a + 2 := Link(to, 2)][a + 3 := Link(to, 3)]
     [a + 4 := Link(to, 4)][a + 5 := Link(to, 5)][a + 6 := Link(to, 6)][a + 7 := Link(to, 7)]
  }

  /** The link stored at `a`; meaningless bytes read as null. */
  function ReadLink(m: Memory, a: nat): (r: nat)
    ensures forall to: nat :: LinkAt(m, a, to) ==> r == to
  {
    assert forall to: nat :: LinkAt(m, a, to) ==> m[a] == Link(to, 0);
    if a in m && m[a].Link? then m[a].to else 0
  }

  /** Two byte ranges share no address. */
  predicate Apart(a: nat, n: nat, b: nat, m: nat) {
    a + n <= b || b + m <= a
  }

  // ---------------------------------------------------------------- the heap

  /** What the holder of a class lock is in the middle of. */
  datatype Phase =
    | Quiet
    | Freed(p: nat, linked: bool)       // p is neither live nor listed; linked: its link is written
    | Taking(block: nat, next: nat)     // head and its link have been read
    | Carving(slab: nat, linked: bool)  // the blocks from the slab's `low` upwards are listed

  /** A slab of class k; blocks below `low` are not carved yet. */
  datatype Slab = Slab(k: nat, low: nat)

  /** `heads` and `memory` are the machine's state; the rest is history that no step reads. */
  datatype Heap = Heap(
    heads: seq<nat>, memory: Memory,
    free: seq<seq<nat>>, live: map<nat, Layout>, slabs: map<nat, Slab>, system: map<nat, Layout>, phase: seq<Phase>)

  predicate BlockIn(s: nat, k: nat, a: nat)
    requires k < NCLASSES
  {
    s <= a && a + CLASSES[k] <= s + SLAB && (a - s) % CLASSES[k] == 0
  }

  /** An address where slab s has a block of class k, carved or not. */
  predicate SlotOf(slabs: map<nat, Slab>, s: nat, k: nat, a: nat) {
    k < NCLASSES && s in slabs && slabs[s].k == k && BlockIn(s, k, a)
  }

  ghost predicate Slot(slabs: map<nat, Slab>, k: nat, a: nat) {
    exists s :: SlotOf(slabs, s, k, a)
  }

  /** A block that has been carved. */
  ghost predicate Block(slabs: map<nat, Slab>, k: nat, a: nat) {
    exists s :: SlotOf(slabs, s, k, a) && slabs[s].low <= a
  }

  predicate SlabOk(slab: Slab, s: nat) {
    0 < s && s % CLASS_ALIGN == 0 && slab.k < NCLASSES && s <= slab.low && (slab.low - s) % CLASSES[slab.k] == 0
  }

  ghost predicate Geometry(slabs: map<nat, Slab>, system: map<nat, Layout>) {
    (forall s :: s in slabs ==> SlabOk(slabs[s], s)) &&
    (forall s, t :: s in slabs && t in slabs && s != t ==> Apart(s, SLAB, t, SLAB)) &&
    (forall s, p :: s in slabs && p in system ==> Apart(s, SLAB, p, Extent(system[p]))) &&
    (forall p, q :: p in system && q in system && p != q ==> Apart(p, Extent(system[p]), q, Extent(system[q])))
  }

  predicate Distinct(s: seq<nat>) {
    forall i, j :: 0 <= i < j < |s| ==> s[i] != s[j]
  }

  function HeadOf(list: seq<nat>): nat { if list == [] then 0 else list[0] }

  /** The list is what following links from the head finds. */
  predicate Threaded(m: Memory, head: nat, list: seq<nat>) {
    head == HeadOf(list) && forall i :: 0 <= i < |list| ==> LinkAt(m, list[i], HeadOf(list[i + 1..]))
  }

  ghost predicate LiveIn(live: map<nat, Layout>, k: nat, a: nat) {
    a in live && ClassFor(live[a]) == Some(k)
  }

  predicate InTransit(phase: Phase, a: nat) {
    phase.Freed? && phase.p == a
  }

  /** Free, live and in-transit blocks partition the carved blocks of the class. */
  ghost predicate Partition(h: Heap, k: nat)
    requires |h.free| == |h.phase| == NCLASSES && k < NCLASSES
  {
    forall a :: (Block(h.slabs, k, a) <==> a in h.free[k] || LiveIn(h.live, k, a) || InTransit(h.phase[k], a)) &&
      !(a in h.free[k] && LiveIn(h.live, k, a)) && !(InTransit(h.phase[k], a) && (a in h.free[k] || LiveIn(h.live, k, a)))
  }

  ghost predicate PhaseOk(h: Heap, k: nat)
    requires |h.heads| == |h.free| == |h.phase| == NCLASSES && k < NCLASSES
  {
    match h.phase[k]
    case Quiet => true
    case Freed(p, linked) => linked ==> LinkAt(h.memory, p, h.heads[k])
    case Taking(block, next) => h.free[k] != [] && block == h.free[k][0] && next == HeadOf(h.free[k][1..])
    case Carving(s, linked) =>
      s in h.slabs && h.slabs[s].k == k && h.slabs[s].low <= s + SLAB &&
      (linked ==> s + CLASSES[k] <= h.slabs[s].low && LinkAt(h.memory, h.slabs[s].low - CLASSES[k], h.heads[k]))
  }

  ghost predicate ClassOk(h: Heap, k: nat)
    requires |h.heads| == |h.free| == |h.phase| == NCLASSES && k < NCLASSES
  {
    Distinct(h.free[k]) && Threaded(h.memory, h.heads[k], h.free[k]) && Partition(h, k) && PhaseOk(h, k)
  }

  /** Every live small allocation is a class block. */
  ghost predicate LiveOk(h: Heap) {
    forall a :: a in h.live ==> ClassFor(h.live[a]).Some?
  }

  ghost predicate HeapOk(h: Heap) {
    |h.heads| == |h.free| == |h.phase| == NCLASSES && Geometry(h.slabs, h.system) && LiveOk(h) &&
    forall k :: 0 <= k < NCLASSES ==> ClassOk(h, k)
  }

  // ---------------------------------------------------------------- where blocks lie

  lemma MulLe(c: int, x: int, y: int)
    requires c >= 0 && x <= y
    ensures c * x <= c * y
  {
  }

  /** A multiple has no remainder. */
  lemma ZeroRemainder(t: int, c: int, n: int)
    requires c > 0 && t == c * n
    ensures t % c == 0 && t / c == n
  {
    var q := t / c;
    assert t == c * q + t % c;
    if q < n {
      MulLe(c, q + 1, n);
    } else if q > n {
      MulLe(c, n + 1, q);
    }
  }

  lemma MultiplesApart(x: nat, y: nat, c: nat)
    requires c > 0 && x % c == 0 && y % c == 0 && x < y
    ensures x + c <= y
  {
    var i, j := x / c, y / c;
    assert x == c * i && y == c * j;
    if j <= i {
      MulLe(c, j, i);
    } else {
      MulLe(c, i + 1, j);
    }
  }

  /** Slots of any classes are pairwise disjoint. */
  lemma SlotsApart(h: Heap, k: nat, a: nat, j: nat, b: nat)
    requires Geometry(h.slabs, h.system) && Slot(h.slabs, k, a) && Slot(h.slabs, j, b) && (k != j || a != b)
    ensures k < NCLASSES && j < NCLASSES && Apart(a, CLASSES[k], b, CLASSES[j])
  {
    hide SlabOk, Extent;
    var s :| SlotOf(h.slabs, s, k, a);
    var t :| SlotOf(h.slabs, t, j, b);
    ClassFacts(k);
    if s == t {
      if a < b {
        MultiplesApart(a - s, b - s, CLASSES[k]);
      } else {
        MultiplesApart(b - s, a - s, CLASSES[k]);
      }
    } else {
      assert Apart(s, SLAB, t, SLAB);
    }
  }

  lemma AlignedMultiple(s: nat, a: nat, c: nat)
    requires s <= a && s % 16 == 0 && c % 16 == 0 && c > 0 && (a - s) % c == 0
    ensures a % 16 == 0
  {
    var n, m := (a - s) / c, c / 16;
    assert a - s == c * n && c == 16 * m;
    assert a - s == 16 * (m * n);
    assert s == 16 * (s / 16);
    assert a == 16 * (m * n + s / 16);
  }

  /** Every slot is 16-aligned, inside its slab, not null, and long enough for a link. */
  lemma SlotPlaced(h: Heap, k: nat, a: nat)
    requires Geometry(h.slabs, h.system) && Slot(h.slabs, k, a)
    ensures k < NCLASSES && a > 0 && a % CLASS_ALIGN == 0 && CLASSES[k] >= LINK
    ensures exists s :: s in h.slabs && s <= a && a + CLASSES[k] <= s + SLAB
  {
    var s :| SlotOf(h.slabs, s, k, a);
    ClassFacts(k);
    assert SlabOk(h.slabs[s], s);
    AlignedMultiple(s, a, CLASSES[k]);
  }

  lemma BlockIsSlot(h: Heap, k: nat, a: nat)
    requires Block(h.slabs, k, a)
    ensures Slot(h.slabs, k, a)
  {
  }

  /** Live allocations never overlap, whichever classes they come from. */
  lemma LiveBlocksAreDisjoint(h: Heap, a: nat, b: nat)
    requires HeapOk(h) && a in h.live && b in h.live && a != b
    ensures Apart(a, h.live[a].size, b, h.live[b].size)
    ensures a > 0 && a % CLASS_ALIGN == 0
  {
    var k, j := ClassFor(h.live[a]).value, ClassFor(h.live[b]).value;
    assert ClassOk(h, k) && ClassOk(h, j);
    assert LiveIn(h.live, k, a) && LiveIn(h.live, j, b);
    SlotsApart(h, k, a, j, b);
    SlotPlaced(h, k, a);
  }

  /** A free block overlaps no live one. */
  lemma FreeBlocksAreApart(h: Heap, k: nat, i: nat, b: nat)
    requires HeapOk(h) && k < NCLASSES && i < |h.free[k]| && b in h.live
    ensures Apart(h.free[k][i], CLASSES[k], b, h.live[b].size)
  {
    var j := ClassFor(h.live[b]).value;
    assert ClassOk(h, k) && ClassOk(h, j);
    assert h.free[k][i] in h.free[k] && LiveIn(h.live, j, b);
    SlotsApart(h, k, h.free[k][i], j, b);
  }

  // ---------------------------------------------------------------- writes that hit no link

  /** Both memories agree on [a, a + n). */
  predicate SameOn(m: Memory, r: Memory, a: nat, n: nat) {
    forall i :: a <= i < a + n ==> (i in m <==> i in r) && (i in m ==> m[i] == r[i])
  }

  lemma LinkSurvives(m: Memory, r: Memory, a: nat, to: nat)
    requires LinkAt(m, a, to) && SameOn(m, r, a, LINK)
    ensures LinkAt(r, a, to)
  {
  }

  lemma ThreadSurvives(m: Memory, r: Memory, head: nat, list: seq<nat>)
    requires Threaded(m, head, list) && forall i :: 0 <= i < |list| ==> SameOn(m, r, list[i], LINK)
    ensures Threaded(r, head, list)
  {
    forall i | 0 <= i < |list| ensures LinkAt(r, list[i], HeadOf(list[i + 1..])) {
      LinkSurvives(m, r, list[i], HeadOf(list[i + 1..]));
    }
  }

  /** The slots a class relies on for its lists: listed blocks and what its phase has linked. */
  ghost predicate Relied(h: Heap, k: nat, a: nat)
    requires |h.free| == |h.phase| == NCLASSES && k < NCLASSES
  {
    a in h.free[k] ||
    (h.phase[k].Freed? && h.phase[k].linked && a == h.phase[k].p) ||
    (h.phase[k].Carving? && h.phase[k].linked && h.phase[k].slab in h.slabs && a + CLASSES[k] == h.slabs[h.phase[k].slab].low)
  }

  /** The next slot to carve from a slab. */
  lemma LowerSlot(h: Heap, s: nat)
    requires Geometry(h.slabs, h.system) && s in h.slabs
    requires var slab := h.slabs[s]; slab.k < NCLASSES && s + CLASSES[slab.k] <= slab.low <= s + SLAB
    ensures SlotOf(h.slabs, s, h.slabs[s].k, h.slabs[s].low - CLASSES[h.slabs[s].k])
  {
    assert SlabOk(h.slabs[s], s);
    ClassFacts(h.slabs[s].k);
    SubMultiple(h.slabs[s].low - s, CLASSES[h.slabs[s].k]);
  }

  lemma ReliedIsSlot(h: Heap, k: nat, a: nat)
    requires HeapOk(h) && k < NCLASSES && Relied(h, k, a)
    ensures Slot(h.slabs, k, a)
  {
    assert ClassOk(h, k);
    if h.phase[k].Carving? && h.phase[k].linked && h.phase[k].slab in h.slabs && a + CLASSES[k] == h.slabs[h.phase[k].slab].low {
      var s := h.phase[k].slab;
      assert SlabOk(h.slabs[s], s);
      LowerSlot(h, s);
    } else {
      assert Block(h.slabs, k, a);
    }
  }

  lemma SubMultiple(x: nat, c: nat)
    requires c > 0 && x % c == 0 && x >= c
    ensures (x - c) % c == 0
  {
    assert x == c * (x / c);
    ZeroRemainder(x - c, c, x / c - 1);
  }

  /** If memory changes on no slot that class k relies on, class k stays as it is. */
  lemma ClassSurvivesWrite(h: Heap, r: Memory, k: nat)
    requires HeapOk(h) && k < NCLASSES
    requires forall a :: Relied(h, k, a) ==> SameOn(h.memory, r, a, LINK)
    ensures ClassOk(h.(memory := r), k)
  {
    var h' := h.(memory := r);
    assert ClassOk(h, k);
    forall i | 0 <= i < |h.free[k]| ensures SameOn(h.memory, r, h.free[k][i], LINK) {
      assert Relied(h, k, h.free[k][i]);
    }
    ThreadSurvives(h.memory, r, h.heads[k], h.free[k]);
    assert Partition(h', k);
    match h.phase[k]
    case Freed(p, linked) =>
      if linked {
        assert Relied(h, k, p);
        LinkSurvives(h.memory, r, p, h.heads[k]);
      }
    case Carving(s, linked) =>
      if linked {
        assert Relied(h, k, h.slabs[s].low - CLASSES[k]);
        LinkSurvives(h.memory, r, h.slabs[s].low - CLASSES[k], h.heads[k]);
      }
    case _ =>
  }

  /** A write inside one slot that no list relies on leaves the whole heap in order. */
  lemma HeapSurvivesWrite(h: Heap, r: Memory, k: nat, p: nat)
    requires HeapOk(h) && Slot(h.slabs, k, p) && k < NCLASSES && !Relied(h, k, p)
    requires forall i :: i < p || p + CLASSES[k] <= i ==> (i in h.memory <==> i in r) && (i in h.memory ==> h.memory[i] == r[i])
    ensures HeapOk(h.(memory := r))
  {
    forall j | 0 <= j < NCLASSES ensures ClassOk(h.(memory := r), j) {
      forall a | Relied(h, j, a) ensures SameOn(h.memory, r, a, LINK) {
        ReliedIsSlot(h, j, a);
        SlotsApart(h, j, a, k, p);
        ClassFacts(j);
      }
      ClassSurvivesWrite(h, r, j);
    }
  }
}
