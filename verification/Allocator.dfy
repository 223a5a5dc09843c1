/** The allocator as one thread runs it: alloc, dealloc and realloc over the free lists. Results of the
    system allocator come in as parameters. */
module Allocator {
  import opened AllocatorHeap
  import opened AllocatorSteps

  ghost predicate AllQuiet(h: Heap) {
    |h.phase| == NCLASSES && forall k :: 0 <= k < NCLASSES ==> h.phase[k] == Quiet
  }

  function Bytes(i: nat, size: nat): nat { i * size }

  /** The blocks of a slab from number i on, in address order. */
  function BlocksFrom(slab: nat, size: nat, i: nat, count: nat): seq<nat>
    decreases count - i
  {
    if i >= count then [] else [slab + Bytes(i, size)] + BlocksFrom(slab, size, i + 1, count)
  }

  /** How many blocks of a class fit in a slab. */
  function BlockCount(k: nat): (n: nat)
    requires k < NCLASSES
    ensures n > 0 && CLASSES[k] > 0 && n * CLASSES[k] <= SLAB < (n + 1) * CLASSES[k]
  {
    WholeBlocksFit(k);
    SLAB / CLASSES[k]
  }

  /** What the system allocator may return for a request: null, or fresh aligned memory. */
  ghost predicate SystemResult(h: Heap, p: nat, n: nat, align: nat) {
    p != 0 ==> FreshRegion(h, p, Max(n, 1)) && p !in h.system && (align > 0 ==> p % align == 0)
  }

  /** The request behind an allocation: a slab for a class, the block itself otherwise. */
  ghost predicate Grants(h: Heap, sys: nat, layout: Layout) {
    if ClassFor(layout).Some? then SystemResult(h, sys, SLAB, CLASS_ALIGN) else SystemResult(h, sys, layout.size, layout.align)
  }

  function Copied(m: Memory, p: nat, q: nat, n: nat): Memory
    decreases n
  {
    if n == 0 then m
    else
      var r := Copied(m, p, q, n - 1);
      var from, to := p + n - 1, q + n - 1;
      if from in m then r[to := m[from]] else r - {to}
  }

  lemma {:induction false} CopiedEffect(m: Memory, p: nat, q: nat, n: nat, i: nat)
    ensures var r := Copied(m, p, q, n);
            if q <= i < q + n then (i in r <==> p + (i - q) in m) && (i in r ==> r[i] == m[p + (i - q)])
            else (i in r <==> i in m) && (i in r ==> r[i] == m[i])
    decreases n
  {
    if n > 0 {
      CopiedEffect(m, p, q, n - 1, i);
    }
  }

  /** The block is the first of its class's list, which a refill has just filled if it was empty. */
  ghost predicate ServedFrom(h: Heap, r: Heap, layout: Layout, sys: nat, p: nat) {
    ClassFor(layout).Some? && |h.free| == NCLASSES &&
    var k := ClassFor(layout).value;
    var list := if h.free[k] != [] then h.free[k] else BlocksFrom(sys, CLASSES[k], 0, BlockCount(k));
    list != [] && p == list[0] && r.free == h.free[k := list[1..]] && r.live == h.live[p := layout] &&
    r.system == h.system && p % CLASS_ALIGN == 0
  }

  /** refill has i blocks of the slab still to list. */
  ghost predicate Carved(h: Heap, r: Heap, k: nat, slab: nat, i: nat) {
    k < NCLASSES && |h.phase| == |h.free| == |h.heads| == NCLASSES && |r.heads| == NCLASSES &&
    r.phase == h.phase[k := Carving(slab, false)] &&
    slab in r.slabs && r.slabs[slab] == Slab(k, slab + Bytes(i, CLASSES[k])) &&
    r.free == h.free[k := BlocksFrom(slab, CLASSES[k], i, BlockCount(k))] &&
    r.live == h.live && r.system == h.system && (forall j :: 0 <= j < NCLASSES && j != k ==> r.heads[j] == h.heads[j]) &&
    WritesIn(h.memory, r.memory, slab, SLAB)
  }

  /** Byte i of the new block is byte i of the old one. */
  ghost predicate MovedAt(m: Memory, p: nat, r: Memory, q: nat, i: nat) {
    (q + i in r <==> p + i in m) && (q + i in r ==> r[q + i] == m[p + i])
  }

  class ArosAlloc {
    var heads: seq<nat>
    var memory: Memory
    var slabBytes: nat
    var smallAllocs: nat
    ghost var heap: Heap

    ghost predicate Valid()
      reads this
    {
      heap.heads == heads && heap.memory == memory && HeapOk(heap) && AllQuiet(heap)
    }

    constructor ()
      ensures Valid() && heap.live == map[] && heap.system == map[] && heap.slabs == map[]
      ensures slabBytes == 0 && smallAllocs == 0
    {
      heads, memory, slabBytes, smallAllocs := seq(NCLASSES, _ => 0), map[], 0, 0;
      heap := Heap(seq(NCLASSES, _ => 0), map[], seq(NCLASSES, _ => []), map[], map[], map[], seq(NCLASSES, _ => Quiet));
    }

    /** A fresh slab is cut into blocks, the last one listed first, so the list runs in address order. */
    method Refill(k: nat, slab: nat) returns (ok: bool)
      requires Valid() && k < NCLASSES && heads[k] == 0 && SystemResult(heap, slab, SLAB, CLASS_ALIGN)
      modifies this`heads, this`memory, this`slabBytes, this`heap
      ensures Valid() && ok == (slab != 0)
      ensures !ok ==> unchanged(this)
      ensures ok ==>
                heap.free == old(heap.free)[k := BlocksFrom(slab, CLASSES[k], 0, BlockCount(k))] &&
                heads[k] == slab && heap.live == old(heap.live) && heap.system == old(heap.system) &&
                slabBytes == old(slabBytes) + SLAB && (forall j :: 0 <= j < NCLASSES && j != k ==> heads[j] == old(heads[j])) &&
                WritesIn(old(memory), memory, slab, SLAB)
    {
      hide ClassOk, Geometry, LiveOk, BlocksFrom, LinkAt, HeapOk;
      if slab == 0 {
        return false;
      }
      slabBytes := slabBytes + SLAB;
      var size := CLASSES[k];
      var count := BlockCount(k);
      EmptyList(heap, k);
      BeginCarveKeeps(heap, k, slab);
      heap := BeginCarve(heap, k, slab);
      WholeBlocksFit(k);
      BlocksEnds(slab, size, count);
      var i: nat := count;
      while i > 0
        invariant 0 <= i <= count && heap.heads == heads && heap.memory == memory && slabBytes == old(slabBytes) + SLAB
        invariant HeapOk(heap) && Carved(old(heap), heap, k, slab, i)
        decreases i
      {
        i := i - 1;
        CarvedStep(old(heap), heap, k, slab, i);
        var block := slab + Bytes(i, size);
        memory := WriteLink(memory, block, heads[k]);
        heads := heads[k := block];
        heap := PushCarved(LinkCarved(heap, k), k);
      }
      EndCarveKeeps(heap, k);
      heap := EndCarve(heap, k);
      assert heap.phase == old(heap.phase);
      ListHasHead(heap, k);
      ok := true;
    }

    /** Pops the head: one read of the link behind it, one write of the list's head. */
    method TakeFirst(k: nat, layout: Layout) returns (block: nat)
      requires Valid() && ClassFor(layout) == Some(k) && heap.free[k] != []
      modifies this`heads, this`heap
      ensures Valid() && block == old(heap.free[k][0]) && block > 0 && block % CLASS_ALIGN == 0
      ensures heap.free == old(heap.free)[k := old(heap.free[k][1..])] && heap.live == old(heap.live)[block := layout]
      ensures heap.slabs == old(heap.slabs) && heap.system == old(heap.system) && block !in old(heap.live) && block !in heap.system
    {
      hide ClassOk, Geometry, LiveOk, ReadLink, ClassFor;
      ghost var before := heap;
      TakenBlock(heap, k);
      BeginTakeKeeps(heap, k);
      heap := BeginTake(heap, k);
      block := heads[k];
      var next := ReadLink(memory, block);
      FinishTakeKeeps(heap, k, layout);
      heap := FinishTake(heap, k, layout);
      heads := heads[k := next];
      assert heap.phase == before.phase;
    }

    /** Takes the first block of the class list, after refilling an empty one. Null exactly when the
        system has no memory where it is asked for some: for an empty list, and for a layout no class serves. */
    method Alloc(layout: Layout, sys: nat) returns (p: nat)
      requires Valid() && Grants(heap, sys, layout)
      modifies this
      ensures Valid()
      ensures p == 0 <==> sys == 0 && (ClassFor(layout).Some? ==> old(heap.free)[ClassFor(layout).value] == [])
      ensures p == 0 ==> heap == old(heap)
      ensures p != 0 ==> Holds(heap, p, layout) && p !in old(heap.live) && p !in old(heap.system)
      ensures p != 0 && ClassFor(layout).Some? ==> ServedFrom(old(heap), heap, layout, sys, p) && smallAllocs == old(smallAllocs) + 1
      ensures p != 0 && ClassFor(layout).None? ==> p == sys && heap == SystemTake(old(heap), p, layout)
      ensures forall q, l :: old(Holds(heap, q, l)) ==> SameOn(old(memory), memory, q, l.size)
    {
      hide ClassOk, Geometry, LiveOk, BlocksFrom, FreshRegion, ClassFor, SameOn, WritesIn;
      NothingChanges(memory);
      var class_ := ClassFor(layout);
      if class_.None? {
        if sys != 0 {
          SystemKeeps(heap, sys, layout);
          heap := SystemTake(heap, sys, layout);
          FreshIsNotLive(old(heap), sys, Extent(layout));
        }
        return sys;
      }
      var k := class_.value;
      ghost var before := heap;
      EmptyList(heap, k);
      if heads[k] == 0 {
        var ok := Refill(k, sys);
        if !ok {
          return 0;
        }
        forall q, l | Holds(before, q, l) ensures SameOn(before.memory, memory, q, l.size) {
          HeldIsOutside(before, q, l, sys);
          OutsideIsSame(before.memory, memory, sys, SLAB, q, l.size);
        }
        EmptyList(heap, k);
      }
      p := TakeFirst(k, layout);
      smallAllocs := smallAllocs + 1;
    }

    method Dealloc(p: nat, layout: Layout)
      requires Valid() && Holds(heap, p, layout)
      modifies this
      ensures Valid()
      ensures ClassFor(layout).Some? ==>
                var k := ClassFor(layout).value;
                heap.live == old(heap.live) - {p} && heap.free == old(heap.free)[k := [p] + old(heap.free[k])] &&
                heap.system == old(heap.system) && WritesIn(old(memory), memory, p, LINK)
      ensures ClassFor(layout).None? ==> heap == SystemGive(old(heap), p)
      ensures forall q, l :: Holds(heap, q, l) ==> old(Holds(heap, q, l)) && SameOn(old(memory), memory, q, l.size)
    {
      var class_ := ClassFor(layout);
      if class_.None? {
        SystemKeeps(heap, p, layout);
        heap := SystemGive(heap, p);
        return;
      }
      var k := class_.value;
      ghost var before := heap;
      assert LiveIn(heap.live, k, p);
      BeginFreeKeeps(heap, k, p);
      heap := BeginFree(heap, k, p);
      LinkFreedKeeps(heap, k);
      heap := LinkFreed(heap, k);
      memory := WriteLink(memory, p, heads[k]);
      PushFreedKeeps(heap, k);
      heap := PushFreed(heap, k);
      heads := heads[k := p];
      assert heap.phase == before.phase;
      forall q, l | Holds(heap, q, l) ensures Holds(before, q, l) && SameOn(before.memory, memory, q, l.size) {
        HeldIsApart(before, heap, q, l, p, layout);
      }
    }

    /** Copies what fits from one held block to another. */
    method CopyContents(p: nat, layout: Layout, q: nat, target: Layout)
      requires Valid() && Holds(heap, p, layout) && Holds(heap, q, target) && p != q
      modifies this`memory, this`heap
      ensures Valid() && heap == old(heap).(memory := memory)
      ensures forall i :: 0 <= i < Min(layout.size, target.size) ==> MovedAt(old(memory), p, memory, q, i)
      ensures forall x, l :: x != q && Holds(heap, x, l) ==> SameOn(old(memory), memory, x, l.size)
    {
      ghost var before := heap;
      var n := Min(layout.size, target.size);
      memory := Copied(memory, p, q, n);
      forall i: nat ensures MovesByte(old(memory), p, memory, q, n, i) {
        CopiedEffect(old(memory), p, q, n, i);
      }
      assert WritesIn(old(memory), memory, q, target.size) by {
        forall i: nat ensures i < q || q + target.size <= i ==> (i in old(memory) <==> i in memory) && (i in memory ==> memory[i] == old(memory)[i]) {
          assert MovesByte(old(memory), p, memory, q, n, i);
        }
      }
      ProgramWritesAreHarmless(heap, q, target, memory);
      heap := heap.(memory := memory);
      forall x, l | x != q && Holds(heap, x, l) ensures SameOn(old(memory), memory, x, l.size) {
        HeldBlocksApart(before, x, l, q, target);
      }
      forall i | 0 <= i < n ensures MovedAt(old(memory), p, memory, q, i) {
        assert MovesByte(old(memory), p, memory, q, n, q + i);
      }
    }

    /** A block's contents move to a larger or smaller one, and it is given back. */
    method MoveOver(p: nat, layout: Layout, q: nat, target: Layout)
      requires Valid() && Holds(heap, p, layout) && Holds(heap, q, target) && p != q
      modifies this
      ensures Valid() && Holds(heap, q, target) && forall l :: !Holds(heap, p, l)
      ensures forall i :: 0 <= i < Min(layout.size, target.size) ==> MovedAt(old(memory), p, memory, q, i)
      ensures forall x, l :: x != p && old(Holds(heap, x, l)) ==> Holds(heap, x, l) && (x != q ==> SameOn(old(memory), memory, x, l.size))
      ensures forall x, l :: Holds(heap, x, l) ==> old(Holds(heap, x, l))
    {
      hide HeapOk, ClassFor, SameOn, MovedAt;
      ghost var before := heap;
      CopyContents(p, layout, q, target);
      ghost var copied := heap;
      Dealloc(p, layout);
      StillHeld(copied, heap, p, layout, q, target);
      GivenBack(copied, heap, p, layout);
      NothingChanges(before.memory);
      forall i | 0 <= i < Min(layout.size, target.size) ensures MovedAt(before.memory, p, memory, q, i) {
        MovedAtStays(before.memory, before.memory, p, layout.size, copied.memory, memory, q, target.size, i);
      }
      forall x, l | x != p && Holds(before, x, l) ensures Holds(heap, x, l) && (x != q ==> SameOn(before.memory, memory, x, l.size)) {
        StillHeld(copied, heap, p, layout, x, l);
        if x != q {
          SameOnTrans(before.memory, copied.memory, memory, x, l.size);
        }
      }
    }

    /** The block stays where it is within its class; otherwise the contents move up to the smaller size
        and the old block is given back. What else is held does not change; a failure changes nothing. */
    method Realloc(p: nat, layout: Layout, newSize: nat, sys: nat) returns (q: nat)
      requires Valid() && Holds(heap, p, layout) && p != 0 && Grants(heap, sys, Layout(newSize, layout.align))
      modifies this
      ensures Valid()
      ensures q == 0 ==> heap == old(heap) && sys == 0
      ensures q != 0 ==> Holds(heap, q, Layout(newSize, layout.align))
      ensures q != 0 ==> forall i :: 0 <= i < Min(layout.size, newSize) ==> MovedAt(old(memory), p, memory, q, i)
      ensures ClassFor(layout).Some? && ClassFor(layout) == ClassFor(Layout(newSize, layout.align)) ==> q == p && memory == old(memory)
      ensures forall x, l :: x != p && old(Holds(heap, x, l)) ==> Holds(heap, x, l) && SameOn(old(memory), memory, x, l.size)
      ensures q != 0 ==> forall x, l :: Holds(heap, x, l) ==> (x == q && l == Layout(newSize, layout.align)) || (x != p && old(Holds(heap, x, l)))
    {
      hide HeapOk, ClassFor, BlocksFrom, SameOn, Holds, MovedAt;
      var newLayout := Layout(newSize, layout.align);
      ghost var before := heap;
      if layout.align <= CLASS_ALIGN && ClassFor(layout).Some? && ClassFor(layout) == ClassFor(newLayout) {
        OnlyRelabelled(heap, p, layout, newLayout);
        heap := heap.(live := heap.live[p := newLayout]);
        NothingChanges(memory);
        return p;
      }
      q := Alloc(newLayout, sys);
      if q == 0 {
        NothingChanges(memory);
        return;
      }
      ghost var m0 := memory;
      OthersStayHeld(before, heap, q, newLayout);
      OnlyTaken(before, heap, q, newLayout);
      MoveOver(p, layout, q, newLayout);
      forall i | 0 <= i < Min(layout.size, newSize) ensures MovedAt(before.memory, p, memory, q, i) {
        NothingChanges(memory);
        MovedAtStays(before.memory, m0, p, layout.size, memory, memory, q, newSize, i);
      }
      forall x, l | x != p && Holds(before, x, l) ensures Holds(heap, x, l) && SameOn(before.memory, memory, x, l.size) {
        SameOnTrans(before.memory, m0, memory, x, l.size);
      }
    }
  }

  /** What Copied does to address i. */
  ghost predicate MovesByte(m: Memory, p: nat, r: Memory, q: nat, n: nat, i: nat) {
    if q <= i < q + n then (i in r <==> p + (i - q) in m) && (i in r ==> r[i] == m[p + (i - q)])
    else (i in r <==> i in m) && (i in r ==> r[i] == m[i])
  }

  lemma NothingChanges(m: Memory)
    ensures forall x, n :: SameOn(m, m, x, n)
    ensures forall p, i :: MovedAt(m, p, m, p, i)
  {
  }

  /** Taking a block makes nothing else held. */
  lemma OnlyTaken(h: Heap, r: Heap, q: nat, layout: Layout)
    requires q !in h.live && q !in h.system
    requires if ClassFor(layout).Some? then r.live == h.live[q := layout] && r.system == h.system else r == SystemTake(h, q, layout)
    ensures forall x, l :: Holds(r, x, l) ==> (x == q && l == layout) || Holds(h, x, l)
  {
    hide ClassFor;
  }

  lemma OnlyRelabelled(h: Heap, p: nat, layout: Layout, newLayout: Layout)
    requires HeapOk(h) && Holds(h, p, layout) && ClassFor(layout).Some? && ClassFor(newLayout) == ClassFor(layout)
    ensures var r := h.(live := h.live[p := newLayout]);
            HeapOk(r) && Holds(r, p, newLayout) && (forall x, l :: x != p && Holds(h, x, l) ==> Holds(r, x, l)) &&
            forall x, l :: Holds(r, x, l) ==> (x == p && l == newLayout) || (x != p && Holds(h, x, l))
  {
    hide ClassFor, ClassOk, Slot;
    RelabelKeeps(h, p, newLayout);
    HeldPlace(h, p, layout);
    SlotIsNotSystem(h, ClassFor(layout).value, p);
  }

  /** A block given back is held by nobody, as a class block or otherwise. */
  lemma GivenBack(h: Heap, r: Heap, p: nat, layout: Layout)
    requires HeapOk(h) && Holds(h, p, layout)
    requires if ClassFor(layout).Some? then r.live == h.live - {p} && r.system == h.system else r == SystemGive(h, p)
    ensures forall l :: !Holds(r, p, l)
  {
    hide ClassFor, ClassOk, Slot;
    if p in h.live {
      HeldPlace(h, p, h.live[p]);
      SlotIsNotSystem(h, ClassFor(h.live[p]).value, p);
    }
  }

  lemma OutsideIsSame(m: Memory, r: Memory, p: nat, n: nat, q: nat, l: nat)
    requires WritesIn(m, r, p, n) && Apart(q, l, p, n)
    ensures SameOn(m, r, q, l)
  {
  }

  lemma SameOnTrans(a: Memory, b: Memory, c: Memory, x: nat, n: nat)
    requires SameOn(a, b, x, n) && SameOn(b, c, x, n)
    ensures SameOn(a, c, x, n)
  {
  }

  lemma MovedAtStays(a: Memory, b: Memory, p: nat, n: nat, c: Memory, d: Memory, q: nat, m: nat, i: nat)
    requires SameOn(a, b, p, n) && SameOn(c, d, q, m) && i < n && i < m && MovedAt(b, p, c, q, i)
    ensures MovedAt(a, p, d, q, i)
  {
  }

  // ---------------------------------------------------------------- facts the methods use

  lemma ListHasHead(h: Heap, k: nat)
    requires HeapOk(h) && k < NCLASSES && h.free[k] != []
    ensures h.heads[k] == h.free[k][0] && h.heads[k] > 0 && h.heads[k] % CLASS_ALIGN == 0 && Slot(h.slabs, k, h.heads[k])
  {
    hide BlockIn, ClassFor;
    assert ClassOk(h, k);
    assert h.free[k][0] in h.free[k];
    assert Block(h.slabs, k, h.free[k][0]);
    BlockIsSlot(h, k, h.free[k][0]);
    SlotPlaced(h, k, h.free[k][0]);
  }

  lemma EmptyList(h: Heap, k: nat)
    requires HeapOk(h) && k < NCLASSES
    ensures h.heads[k] == 0 <==> h.free[k] == []
  {
    assert ClassOk(h, k);
    if h.free[k] != [] {
      ListHasHead(h, k);
    }
  }

  lemma BlockFits(slab: nat, size: nat, i: nat, count: nat)
    requires size >= LINK && i < count && count * size <= SLAB
    ensures Bytes(i + 1, size) == Bytes(i, size) + size <= SLAB
    ensures BlocksFrom(slab, size, i, count) == [slab + Bytes(i, size)] + BlocksFrom(slab, size, i + 1, count)
  {
    MulLe(size, i + 1, count);
  }

  /** One turn of refill's loop. */
  lemma CarvedStep(h: Heap, r: Heap, k: nat, slab: nat, i: nat)
    requires HeapOk(r) && Carved(h, r, k, slab, i + 1) && i < BlockCount(k)
    ensures NextBlock(r, k) == slab + Bytes(i, CLASSES[k])
    ensures HeapOk(PushCarved(LinkCarved(r, k), k)) && Carved(h, PushCarved(LinkCarved(r, k), k), k, slab, i)
  {
    hide ClassOk, Geometry, LiveOk, LinkAt, BlockCount, WriteLink, HeapOk, BlocksFrom, InPhase;
    ClassFacts(k);
    BlockFits(slab, CLASSES[k], i, BlockCount(k));
    LinkCarvedKeeps(r, k);
    PushCarvedKeeps(LinkCarved(r, k), k);
  }

  lemma BlocksEnds(slab: nat, size: nat, count: nat)
    requires count > 0
    ensures BlocksFrom(slab, size, count, count) == []
    ensures BlocksFrom(slab, size, 0, count) != [] && BlocksFrom(slab, size, 0, count)[0] == slab
  {
  }

  lemma TakenBlock(h: Heap, k: nat)
    requires HeapOk(h) && k < NCLASSES && h.free[k] != []
    ensures h.heads[k] == h.free[k][0] && h.heads[k] > 0 && h.heads[k] % CLASS_ALIGN == 0 && h.heads[k] !in h.system
  {
    hide ClassOk, BlockIn, LiveOk, SlotOf;
    ListHasHead(h, k);
    SlotIsNotSystem(h, k, h.heads[k]);
  }

  lemma SlotIsNotSystem(h: Heap, k: nat, b: nat)
    requires Geometry(h.slabs, h.system) && Slot(h.slabs, k, b)
    ensures b !in h.system
  {
    SlotPlaced(h, k, b);
    var s :| s in h.slabs && s <= b && b + CLASSES[k] <= s + SLAB;
    assert b in h.system ==> Apart(s, SLAB, b, Extent(h.system[b]));
  }

  /** The bytes an allocation may use: its whole block when it has one. */
  function Room(layout: Layout): (r: nat)
    ensures r >= layout.size
  {
    if ClassFor(layout).Some? then CLASSES[ClassFor(layout).value] else layout.size
  }

  lemma HeldPlace(h: Heap, p: nat, layout: Layout)
    requires HeapOk(h) && Holds(h, p, layout) && ClassFor(layout).Some?
    ensures Slot(h.slabs, ClassFor(layout).value, p) && Room(layout) >= LINK
    ensures exists s :: s in h.slabs && s <= p && p + Room(layout) <= s + SLAB
  {
    var k := ClassFor(layout).value;
    assert LiveIn(h.live, k, p);
    assert ClassOk(h, k);
    BlockIsSlot(h, k, p);
    SlotPlaced(h, k, p);
  }

  lemma FreshIsNotLive(h: Heap, p: nat, n: nat)
    requires HeapOk(h) && n > 0 && FreshRegion(h, p, n)
    ensures p !in h.live
  {
    if p in h.live {
      LiveIsNotFresh(h, p, n);
    }
  }

  lemma LiveIsNotFresh(h: Heap, p: nat, n: nat)
    requires HeapOk(h) && n > 0 && p in h.live
    ensures !FreshRegion(h, p, n)
  {
    HeldPlace(h, p, h.live[p]);
    var s :| s in h.slabs && s <= p && p + Room(h.live[p]) <= s + SLAB;
    assert !Apart(p, n, s, SLAB);
  }

  /** Memory fresh from the system overlaps nothing a program holds. */
  lemma HeldIsOutside(h: Heap, q: nat, l: Layout, slab: nat)
    requires HeapOk(h) && Holds(h, q, l) && FreshRegion(h, slab, SLAB)
    ensures Apart(q, l.size, slab, SLAB)
  {
    if ClassFor(l).Some? {
      HeldPlace(h, q, l);
      var s :| s in h.slabs && s <= q && q + Room(l) <= s + SLAB;
      assert Apart(slab, SLAB, s, SLAB);
    }
  }

  /** Whatever programs hold at different addresses, from the classes or the system, is disjoint. */
  lemma HeldBlocksApart(h: Heap, x: nat, l: Layout, q: nat, layout: Layout)
    requires HeapOk(h) && Holds(h, x, l) && Holds(h, q, layout) && x != q
    ensures Apart(x, Room(l), q, Room(layout))
  {
    if ClassFor(l).Some? && ClassFor(layout).Some? {
      HeldPlace(h, x, l);
      HeldPlace(h, q, layout);
      SlotsApart(h, ClassFor(l).value, x, ClassFor(layout).value, q);
    } else if ClassFor(l).Some? {
      HeldPlace(h, x, l);
      var s :| s in h.slabs && s <= x && x + Room(l) <= s + SLAB;
      assert Apart(s, SLAB, q, Extent(h.system[q]));
    } else if ClassFor(layout).Some? {
      HeldPlace(h, q, layout);
      var s :| s in h.slabs && s <= q && q + Room(layout) <= s + SLAB;
      assert Apart(s, SLAB, x, Extent(h.system[x]));
    }
  }

  lemma RelabelKeeps(h: Heap, p: nat, layout: Layout)
    requires HeapOk(h) && p in h.live && ClassFor(h.live[p]) == ClassFor(layout)
    ensures HeapOk(h.(live := h.live[p := layout]))
  {
    hide ClassFor, Slot, SlotOf, Threaded, Partition;
    var r := h.(live := h.live[p := layout]);
    forall k | 0 <= k < NCLASSES ensures ClassOk(r, k) {
      assert ClassOk(h, k);
      SameForKeeps(h, r, k);
    }
  }

  lemma OthersStayHeld(h: Heap, r: Heap, q: nat, layout: Layout)
    requires q !in h.live && q !in h.system
    requires ClassFor(layout).Some? ==> r.live == h.live[q := layout] && r.system == h.system
    requires ClassFor(layout).None? ==> r == SystemTake(h, q, layout)
    ensures forall x, l :: Holds(h, x, l) ==> Holds(r, x, l) && x != q
  {
  }

  lemma StillHeld(h: Heap, r: Heap, p: nat, layout: Layout, x: nat, l: Layout)
    requires Holds(h, p, layout) && Holds(h, x, l) && x != p
    requires ClassFor(layout).Some? ==> r.live == h.live - {p} && r.system == h.system
    requires ClassFor(layout).None? ==> r.live == h.live && r.system == h.system - {p}
    ensures Holds(r, x, l)
  {
  }

  /** What is held after p is freed was held before, away from p's link. */
  lemma HeldIsApart(h: Heap, r: Heap, q: nat, l: Layout, p: nat, layout: Layout)
    requires HeapOk(h) && Holds(h, p, layout) && ClassFor(layout).Some? && Holds(r, q, l)
    requires r.live == h.live - {p} && r.system == h.system
    ensures Holds(h, q, l) && Apart(q, l.size, p, LINK)
  {
    HeldPlace(h, p, layout);
    SlotIsNotSystem(h, ClassFor(layout).value, p);
    HeldBlocksApart(h, q, l, p, layout);
  }
}
