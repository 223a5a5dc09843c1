/** The atomic steps of alloc, dealloc and refill on one class, and of programs writing into what they
    hold. Each keeps the whole heap in order, whatever the other classes are in the middle of. */
module AllocatorSteps {
  import opened AllocatorHeap

  ghost predicate InPhase(h: Heap, k: nat) {
    HeapOk(h) && k < NCLASSES
  }

  function SetPhase(h: Heap, k: nat, phase: Phase): Heap
    requires k < |h.phase|
  {
    h.(phase := h.phase[k := phase])
  }

  // ---------------------------------------------------------------- the steps

  /** dealloc has the lock; the block is no longer the caller's. */
  function BeginFree(h: Heap, k: nat, p: nat): Heap
    requires k < |h.phase|
  {
    SetPhase(h, k, Freed(p, false)).(live := h.live - {p})
  }

  function LinkFreed(h: Heap, k: nat): Heap
    requires k < |h.phase| && k < |h.heads| && h.phase[k].Freed?
  {
    SetPhase(h, k, Freed(h.phase[k].p, true)).(memory := WriteLink(h.memory, h.phase[k].p, h.heads[k]))
  }

  function PushFreed(h: Heap, k: nat): Heap
    requires k < |h.phase| == |h.heads| == |h.free| && h.phase[k].Freed?
  {
    var p := h.phase[k].p;
    SetPhase(h, k, Quiet).(heads := h.heads[k := p], free := h.free[k := [p] + h.free[k]])
  }

  /** alloc has read the head and the link behind it. */
  function BeginTake(h: Heap, k: nat): Heap
    requires k < |h.phase| && k < |h.heads|
  {
    SetPhase(h, k, Taking(h.heads[k], ReadLink(h.memory, h.heads[k])))
  }

  function FinishTake(h: Heap, k: nat, layout: Layout): Heap
    requires k < |h.phase| == |h.heads| == |h.free| && h.phase[k].Taking? && h.free[k] != []
  {
    SetPhase(h, k, Quiet).(heads := h.heads[k := h.phase[k].next], free := h.free[k := h.free[k][1..]],
                           live := h.live[h.phase[k].block := layout])
  }

  /** refill has a slab and starts at its upper end. */
  function BeginCarve(h: Heap, k: nat, slab: nat): Heap
    requires k < |h.phase| && k < NCLASSES
  {
    SetPhase(h, k, Carving(slab, false)).(slabs := h.slabs[slab := Slab(k, slab + SLAB / CLASSES[k] * CLASSES[k])])
  }

  function NextBlock(h: Heap, k: nat): int
    requires k < |h.phase| && k < NCLASSES && h.phase[k].Carving? && h.phase[k].slab in h.slabs
  {
    h.slabs[h.phase[k].slab].low - CLASSES[k]
  }

  function LinkCarved(h: Heap, k: nat): Heap
    requires k < |h.phase| && k < |h.heads| && k < NCLASSES && h.phase[k].Carving? && h.phase[k].slab in h.slabs
    requires NextBlock(h, k) >= 0
  {
    SetPhase(h, k, Carving(h.phase[k].slab, true)).(memory := WriteLink(h.memory, NextBlock(h, k), h.heads[k]))
  }

  function PushCarved(h: Heap, k: nat): Heap
    requires k < |h.phase| == |h.heads| == |h.free| && k < NCLASSES && h.phase[k].Carving? && h.phase[k].slab in h.slabs
    requires NextBlock(h, k) >= 0
  {
    var s, b := h.phase[k].slab, NextBlock(h, k);
    SetPhase(h, k, Carving(s, false)).(heads := h.heads[k := b], free := h.free[k := [b] + h.free[k]],
                                       slabs := h.slabs[s := Slab(k, b)])
  }

  function EndCarve(h: Heap, k: nat): Heap
    requires k < |h.phase|
  {
    SetPhase(h, k, Quiet)
  }

  // ---------------------------------------------------------------- moving between classes

  /** Nothing class j looks at differs. */
  ghost predicate SameFor(h: Heap, r: Heap, j: nat) {
    |h.heads| == |h.free| == |h.phase| == |r.heads| == |r.free| == |r.phase| == NCLASSES && j < NCLASSES &&
    r.heads[j] == h.heads[j] && r.free[j] == h.free[j] && r.phase[j] == h.phase[j] && r.memory == h.memory &&
    (forall a :: Block(r.slabs, j, a) <==> Block(h.slabs, j, a)) && (forall a :: LiveIn(r.live, j, a) <==> LiveIn(h.live, j, a)) &&
    (h.phase[j].Carving? ==> h.phase[j].slab in h.slabs && h.phase[j].slab in r.slabs && r.slabs[h.phase[j].slab] == h.slabs[h.phase[j].slab])
  }

  lemma SameForKeeps(h: Heap, r: Heap, j: nat)
    requires SameFor(h, r, j) && ClassOk(h, j)
    ensures ClassOk(r, j)
  {
  }

  /** A phase may change where the new phase is justified and moves no block in or out of transit. */
  lemma PhaseChangeKeeps(h: Heap, k: nat, phase: Phase)
    requires InPhase(h, k) && PhaseOk(SetPhase(h, k, phase), k)
    requires forall a :: InTransit(phase, a) == InTransit(h.phase[k], a)
    ensures HeapOk(SetPhase(h, k, phase))
  {
    var r := SetPhase(h, k, phase);
    forall j | 0 <= j < NCLASSES ensures ClassOk(r, j) {
      assert ClassOk(h, j);
      if j != k {
        SameForKeeps(h, r, j);
      }
    }
  }

  // ---------------------------------------------------------------- dealloc

  lemma BeginFreeKeeps(h: Heap, k: nat, p: nat)
    requires InPhase(h, k) && h.phase[k].Quiet? && LiveIn(h.live, k, p)
    ensures HeapOk(BeginFree(h, k, p))
  {
    var r := BeginFree(h, k, p);
    forall j | 0 <= j < NCLASSES ensures ClassOk(r, j) {
      assert ClassOk(h, j);
      if j != k {
        SameForKeeps(h, r, j);
      } else {
        FreeingClassKeeps(h, k, p);
      }
    }
  }

  lemma FreeingClassKeeps(h: Heap, k: nat, p: nat)
    requires InPhase(h, k) && h.phase[k].Quiet? && LiveIn(h.live, k, p)
    ensures ClassOk(BeginFree(h, k, p), k)
  {
    hide Block, Threaded, Distinct, Geometry, LiveOk, ClassFor;
    assert ClassOk(h, k);
    var r := BeginFree(h, k, p);
    forall a ensures LiveIn(h.live, k, a) <==> LiveIn(r.live, k, a) || a == p {}
    forall a ensures InTransit(r.phase[k], a) <==> a == p {}
  }

  lemma LinkFreedKeeps(h: Heap, k: nat)
    requires InPhase(h, k) && h.phase[k].Freed? && !h.phase[k].linked
    ensures HeapOk(LinkFreed(h, k))
  {
    var p := h.phase[k].p;
    assert ClassOk(h, k);
    assert InTransit(h.phase[k], p);
    BlockIsSlot(h, k, p);
    ClassFacts(k);
    var m := WriteLink(h.memory, p, h.heads[k]);
    HeapSurvivesWrite(h, m, k, p);
    PhaseChangeKeeps(h.(memory := m), k, Freed(p, true));
  }

  lemma PushFreedKeeps(h: Heap, k: nat)
    requires InPhase(h, k) && h.phase[k].Freed? && h.phase[k].linked
    ensures HeapOk(PushFreed(h, k))
  {
    var r, p := PushFreed(h, k), h.phase[k].p;
    assert ClassOk(h, k);
    assert InTransit(h.phase[k], p);
    ThreadedPush(h.memory, h.heads[k], h.free[k], p);
    forall j | 0 <= j < NCLASSES ensures ClassOk(r, j) {
      assert ClassOk(h, j);
      if j != k {
        SameForKeeps(h, r, j);
      } else {
        forall a ensures a in r.free[k] <==> a == p || a in h.free[k] {}
      }
    }
  }

  lemma ThreadedPush(m: Memory, head: nat, list: seq<nat>, p: nat)
    requires Threaded(m, head, list) && LinkAt(m, p, head)
    ensures Threaded(m, p, [p] + list)
  {
    hide LinkAt;
    var longer := [p] + list;
    assert longer[1..] == list;
    forall i | 0 <= i < |longer| ensures LinkAt(m, longer[i], HeadOf(longer[i + 1..])) {
      if i > 0 {
        assert longer[i] == list[i - 1] && longer[i + 1..] == list[i..];
      }
    }
  }

  lemma ThreadedPop(m: Memory, head: nat, list: seq<nat>)
    requires Threaded(m, head, list) && list != []
    ensures Threaded(m, HeadOf(list[1..]), list[1..]) && ReadLink(m, head) == HeadOf(list[1..])
  {
    assert LinkAt(m, list[0], HeadOf(list[1..]));
    var rest := list[1..];
    forall i | 0 <= i < |rest| ensures LinkAt(m, rest[i], HeadOf(rest[i + 1..])) {
      assert rest[i] == list[i + 1] && rest[i + 1..] == list[i + 2..];
    }
  }

  // ---------------------------------------------------------------- alloc

  lemma BeginTakeKeeps(h: Heap, k: nat)
    requires InPhase(h, k) && h.phase[k].Quiet? && h.heads[k] != 0
    ensures HeapOk(BeginTake(h, k)) && h.free[k] != []
  {
    assert ClassOk(h, k);
    ThreadedPop(h.memory, h.heads[k], h.free[k]);
    PhaseChangeKeeps(h, k, Taking(h.heads[k], ReadLink(h.memory, h.heads[k])));
  }

  lemma FinishTakeKeeps(h: Heap, k: nat, layout: Layout)
    requires InPhase(h, k) && h.phase[k].Taking? && ClassFor(layout) == Some(k)
    ensures h.free[k] != [] && HeapOk(FinishTake(h, k, layout)) && h.phase[k].block !in h.live
  {
    assert ClassOk(h, k);
    var r, b := FinishTake(h, k, layout), h.free[k][0];
    assert b in h.free[k];
    OneClassPerAddress(h, k, b);
    forall j | 0 <= j < NCLASSES ensures ClassOk(r, j) {
      assert ClassOk(h, j);
      if j != k {
        SameForKeeps(h, r, j);
      } else {
        TakenFromClass(h, k, layout);
      }
    }
  }

  lemma TakenFromClass(h: Heap, k: nat, layout: Layout)
    requires InPhase(h, k) && h.phase[k].Taking? && ClassFor(layout) == Some(k) && h.free[k] != [] && h.free[k][0] !in h.live
    ensures ClassOk(FinishTake(h, k, layout), k)
  {
    assert ClassOk(h, k);
    var r, b := FinishTake(h, k, layout), h.free[k][0];
    ThreadedPop(h.memory, h.heads[k], h.free[k]);
    assert h.free[k] == [b] + h.free[k][1..];
    forall a ensures a in h.free[k] <==> a == b || a in r.free[k] {}
    assert b !in r.free[k];
  }

  /** A listed block is live in no class. */
  lemma OneClassPerAddress(h: Heap, k: nat, b: nat)
    requires HeapOk(h) && k < NCLASSES && b in h.free[k]
    ensures b !in h.live
  {
    assert ClassOk(h, k);
    if b in h.live {
      var j := ClassFor(h.live[b]).value;
      assert ClassOk(h, j) && LiveIn(h.live, j, b);
      BlockIsSlot(h, k, b);
      BlockIsSlot(h, j, b);
      if j != k {
        SlotsApart(h, k, b, j, b);
        ClassFacts(k);
        ClassFacts(j);
      }
    }
  }

  // ---------------------------------------------------------------- refill

  /** Memory the system hands out overlaps nothing it handed out before. */
  ghost predicate FreshRegion(h: Heap, p: nat, n: nat) {
    p > 0 && (forall s :: s in h.slabs ==> Apart(p, n, s, SLAB)) && (forall q :: q in h.system ==> Apart(p, n, q, Extent(h.system[q])))
  }

  lemma WholeBlocksFit(k: nat)
    requires k < NCLASSES
    ensures CLASSES[k] > 0 && SLAB / CLASSES[k] * CLASSES[k] <= SLAB < (SLAB / CLASSES[k] + 1) * CLASSES[k]
    ensures (SLAB / CLASSES[k] * CLASSES[k]) % CLASSES[k] == 0
  {
    ClassFacts(k);
    var c := CLASSES[k];
    assert SLAB == c * (SLAB / c) + SLAB % c;
    ZeroRemainder(SLAB / c * c, c, SLAB / c);
  }

  lemma NothingAboveTheLastBlock(s: nat, k: nat, a: nat)
    requires k < NCLASSES && BlockIn(s, k, a)
    ensures a < s + SLAB / CLASSES[k] * CLASSES[k]
  {
    WholeBlocksFit(k);
    var c := CLASSES[k];
    var n := (a - s) / c;
    assert a - s == c * n;
    if n >= SLAB / c {
      MulLe(c, SLAB / c + 1, n + 1);
    } else {
      MulLe(c, n + 1, SLAB / c);
    }
  }

  lemma NewSlabGeometry(h: Heap, k: nat, slab: nat)
    requires InPhase(h, k) && slab % CLASS_ALIGN == 0 && FreshRegion(h, slab, SLAB)
    ensures slab !in h.slabs && Geometry(BeginCarve(h, k, slab).slabs, BeginCarve(h, k, slab).system)
  {
    var r := BeginCarve(h, k, slab);
    WholeBlocksFit(k);
    forall s | s in r.slabs ensures SlabOk(r.slabs[s], s) {
      if s != slab {
        assert SlabOk(h.slabs[s], s);
      }
    }
  }

  lemma NewSlabHasNoBlocks(h: Heap, k: nat, slab: nat, j: nat, a: nat)
    requires InPhase(h, k) && slab !in h.slabs
    ensures Block(BeginCarve(h, k, slab).slabs, j, a) <==> Block(h.slabs, j, a)
  {
    var r := BeginCarve(h, k, slab);
    if s :| SlotOf(r.slabs, s, j, a) && r.slabs[s].low <= a {
      if s == slab {
        NothingAboveTheLastBlock(s, k, a);
      } else {
        assert SlotOf(h.slabs, s, j, a);
      }
    }
    if s :| SlotOf(h.slabs, s, j, a) && h.slabs[s].low <= a {
      assert SlotOf(r.slabs, s, j, a);
    }
  }

  lemma BeginCarveKeeps(h: Heap, k: nat, slab: nat)
    requires InPhase(h, k) && h.phase[k].Quiet? && slab % CLASS_ALIGN == 0 && FreshRegion(h, slab, SLAB)
    ensures HeapOk(BeginCarve(h, k, slab))
  {
    var r := BeginCarve(h, k, slab);
    WholeBlocksFit(k);
    NewSlabGeometry(h, k, slab);
    forall j | 0 <= j < NCLASSES ensures ClassOk(r, j) {
      assert ClassOk(h, j);
      forall a ensures Block(r.slabs, j, a) <==> Block(h.slabs, j, a) {
        NewSlabHasNoBlocks(h, k, slab, j, a);
      }
      if j != k {
        SameForKeeps(h, r, j);
      }
    }
  }

  lemma OneSlabPerSlot(h: Heap, s: nat, t: nat, k: nat, j: nat, a: nat)
    requires Geometry(h.slabs, h.system) && SlotOf(h.slabs, s, k, a) && SlotOf(h.slabs, t, j, a)
    ensures s == t
  {
    ClassFacts(k);
    ClassFacts(j);
  }

  /** Slots of one slab above and below `low` are different blocks, so the next block is not carved yet. */
  lemma NextBlockIsRaw(h: Heap, k: nat)
    requires InPhase(h, k) && h.phase[k].Carving? && h.phase[k].slab in h.slabs && h.slabs[h.phase[k].slab].low > h.phase[k].slab
    ensures var s := h.phase[k].slab; s in h.slabs && NextBlock(h, k) >= s && SlotOf(h.slabs, s, k, NextBlock(h, k))
    ensures !Block(h.slabs, k, NextBlock(h, k))
  {
    assert ClassOk(h, k);
    var s := h.phase[k].slab;
    assert SlabOk(h.slabs[s], s);
    ClassFacts(k);
    assert 0 % CLASSES[k] == 0;
    MultiplesApart(0, h.slabs[s].low - s, CLASSES[k]);
    LowerSlot(h, s);
    var b := NextBlock(h, k);
    if Block(h.slabs, k, b) {
      var t :| SlotOf(h.slabs, t, k, b) && h.slabs[t].low <= b;
      OneSlabPerSlot(h, s, t, k, k, b);
    }
  }

  lemma LinkCarvedKeeps(h: Heap, k: nat)
    requires InPhase(h, k) && h.phase[k].Carving? && !h.phase[k].linked && h.phase[k].slab in h.slabs
    requires h.slabs[h.phase[k].slab].low > h.phase[k].slab
    ensures NextBlock(h, k) >= 0 && HeapOk(LinkCarved(h, k))
  {
    assert ClassOk(h, k);
    NextBlockIsRaw(h, k);
    var b := NextBlock(h, k);
    ClassFacts(k);
    assert !Relied(h, k, b);
    var m := WriteLink(h.memory, b, h.heads[k]);
    HeapSurvivesWrite(h, m, k, b);
    PhaseChangeKeeps(h.(memory := m), k, Carving(h.phase[k].slab, true));
  }

  /** Listing the next block carves exactly that one. */
  /** A block that was not one before carving is the new one. */
  lemma NewBlockOnly(h: Heap, k: nat, t: nat, a: nat)
    requires InPhase(h, k) && h.phase[k].Carving? && h.phase[k].slab in h.slabs
    requires h.slabs[h.phase[k].slab].low > h.phase[k].slab && NextBlock(h, k) >= 0
    requires SlotOf(PushCarved(h, k).slabs, t, k, a) && PushCarved(h, k).slabs[t].low <= a
    ensures SlotOf(h.slabs, t, k, a) && (h.slabs[t].low <= a || a == NextBlock(h, k))
  {
    hide ClassOk, Geometry, LiveOk;
    NextBlockIsRaw(h, k);
    var s, b := h.phase[k].slab, NextBlock(h, k);
    if t == s && a != b && a < h.slabs[s].low {
      MultiplesApart(b - s, a - s, CLASSES[k]);
    }
  }

  lemma CarvedByOne(h: Heap, k: nat, a: nat)
    requires InPhase(h, k) && h.phase[k].Carving? && h.phase[k].slab in h.slabs
    requires h.slabs[h.phase[k].slab].low > h.phase[k].slab
    ensures NextBlock(h, k) >= 0
    ensures Block(PushCarved(h, k).slabs, k, a) <==> Block(h.slabs, k, a) || a == NextBlock(h, k)
  {
    hide ClassOk, Geometry, LiveOk;
    NextBlockIsRaw(h, k);
    var s, b := h.phase[k].slab, NextBlock(h, k);
    var r := PushCarved(h, k);
    if t :| SlotOf(r.slabs, t, k, a) && r.slabs[t].low <= a {
      NewBlockOnly(h, k, t, a);
    }
    if t :| SlotOf(h.slabs, t, k, a) && h.slabs[t].low <= a {
      assert SlotOf(r.slabs, t, k, a);
    }
    assert SlotOf(r.slabs, s, k, b);
  }

  lemma PushCarvedKeeps(h: Heap, k: nat)
    requires InPhase(h, k) && h.phase[k].Carving? && h.phase[k].linked && h.phase[k].slab in h.slabs
    ensures NextBlock(h, k) >= 0 && HeapOk(PushCarved(h, k))
  {
    assert ClassOk(h, k);
    ClassFacts(k);
    NextBlockIsRaw(h, k);
    var s, b := h.phase[k].slab, NextBlock(h, k);
    var r := PushCarved(h, k);
    LoweredSlabGeometry(h, k);
    forall j | 0 <= j < NCLASSES ensures ClassOk(r, j) {
      assert ClassOk(h, j);
      if j != k {
        forall a ensures Block(r.slabs, j, a) <==> Block(h.slabs, j, a) {
          OtherBlocksStay(h, k, j, a);
        }
        SameForKeeps(h, r, j);
      } else {
        CarvedClassKeeps(h, k);
      }
    }
  }

  lemma CarvedClassKeeps(h: Heap, k: nat)
    requires InPhase(h, k) && h.phase[k].Carving? && h.phase[k].linked && h.phase[k].slab in h.slabs
    ensures NextBlock(h, k) >= 0 && ClassOk(PushCarved(h, k), k)
  {
    hide Block, Threaded, Geometry, LiveOk, ClassFor, LinkAt, LiveIn;
    assert ClassOk(h, k);
    ClassFacts(k);
    NextBlockIsRaw(h, k);
    var b, r := NextBlock(h, k), PushCarved(h, k);
    ThreadedPush(h.memory, h.heads[k], h.free[k], b);
    forall a ensures Block(r.slabs, k, a) <==> Block(h.slabs, k, a) || a == b {
      CarvedByOne(h, k, a);
    }
    forall a ensures a in r.free[k] <==> a == b || a in h.free[k] {}
  }

  lemma LoweredSlabGeometry(h: Heap, k: nat)
    requires InPhase(h, k) && h.phase[k].Carving? && h.phase[k].slab in h.slabs
    requires h.slabs[h.phase[k].slab].low > h.phase[k].slab
    ensures NextBlock(h, k) >= 0 && Geometry(PushCarved(h, k).slabs, PushCarved(h, k).system)
  {
    NextBlockIsRaw(h, k);
    var r := PushCarved(h, k);
    forall t | t in r.slabs ensures SlabOk(r.slabs[t], t) {
      assert SlabOk(h.slabs[t], t);
    }
  }

  lemma OtherBlocksStay(h: Heap, k: nat, j: nat, a: nat)
    requires InPhase(h, k) && h.phase[k].Carving? && h.phase[k].slab in h.slabs && h.slabs[h.phase[k].slab].k == k
    requires NextBlock(h, k) >= 0 && j != k
    ensures Block(PushCarved(h, k).slabs, j, a) <==> Block(h.slabs, j, a)
  {
    var r := PushCarved(h, k);
    forall t ensures SlotOf(r.slabs, t, j, a) == SlotOf(h.slabs, t, j, a) && (SlotOf(h.slabs, t, j, a) ==> r.slabs[t] == h.slabs[t]) {}
  }

  lemma EndCarveKeeps(h: Heap, k: nat)
    requires InPhase(h, k) && (h.phase[k].Carving? || h.phase[k].Taking?)
    ensures HeapOk(EndCarve(h, k))
  {
    PhaseChangeKeeps(h, k, Quiet);
  }

  // ---------------------------------------------------------------- programs and the system allocator

  /** A block of either kind that a program holds. */
  ghost predicate Holds(h: Heap, p: nat, layout: Layout) {
    if ClassFor(layout).Some? then p in h.live && h.live[p] == layout else p in h.system && h.system[p] == layout
  }

  /** Memory changes inside the given range only. */
  ghost predicate WritesIn(m: Memory, r: Memory, p: nat, n: nat) {
    forall i :: i < p || p + n <= i ==> (i in m <==> i in r) && (i in m ==> m[i] == r[i])
  }

  lemma LiveIsNotRelied(h: Heap, k: nat, p: nat)
    requires HeapOk(h) && k < NCLASSES && LiveIn(h.live, k, p)
    ensures Slot(h.slabs, k, p) && !Relied(h, k, p)
  {
    hide Threaded, BlockIn, ClassFor, Distinct, SlabOk, Apart, SlotOf;
    assert ClassOk(h, k);
    BlockIsSlot(h, k, p);
    ClassFacts(k);
    if h.phase[k].Carving? && h.phase[k].linked {
      NextBlockIsRaw(h, k);
    }
  }

  /** Whatever a program writes into a block it holds, no list is damaged. */
  lemma ProgramWritesAreHarmless(h: Heap, p: nat, layout: Layout, r: Memory)
    requires HeapOk(h) && Holds(h, p, layout) && WritesIn(h.memory, r, p, layout.size)
    ensures HeapOk(h.(memory := r))
  {
    if ClassFor(layout).Some? {
      var k := ClassFor(layout).value;
      LiveIsNotRelied(h, k, p);
      HeapSurvivesWrite(h, r, k, p);
    } else {
      forall k | 0 <= k < NCLASSES ensures ClassOk(h.(memory := r), k) {
        forall a: nat | Relied(h, k, a) ensures SameOn(h.memory, r, a, LINK) {
          ReliedIsSlot(h, k, a);
          SlotPlaced(h, k, a);
          var s :| s in h.slabs && s <= a && a + CLASSES[k] <= s + SLAB;
          assert Apart(s, SLAB, p, Extent(h.system[p]));
        }
        ClassSurvivesWrite(h, r, k);
      }
    }
  }

  function SystemTake(h: Heap, p: nat, layout: Layout): Heap { h.(system := h.system[p := layout]) }

  function SystemGive(h: Heap, p: nat): Heap { h.(system := h.system - {p}) }

  lemma SystemKeeps(h: Heap, p: nat, layout: Layout)
    requires HeapOk(h)
    ensures HeapOk(SystemGive(h, p))
    ensures FreshRegion(h, p, Extent(layout)) && p !in h.system ==> HeapOk(SystemTake(h, p, layout))
  {
    hide ClassFor, Extent, SlabOk, Block, Distinct, Threaded, ClassOk;
    SystemIsNoClass(h, SystemGive(h, p));
    SystemIsNoClass(h, SystemTake(h, p, layout));
  }

  lemma SystemIsNoClass(h: Heap, r: Heap)
    requires HeapOk(h) && r == h.(system := r.system)
    ensures forall j :: 0 <= j < NCLASSES ==> ClassOk(r, j)
  {
    forall j | 0 <= j < NCLASSES ensures ClassOk(r, j) {
      assert ClassOk(h, j);
      SameForKeeps(h, r, j);
    }
  }
}
