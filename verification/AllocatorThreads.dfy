/** The allocator under threads: any number of them call alloc and dealloc, spin for a class lock, and
    change the shared heap one small step at a time, while programs store into what they hold. A state
    is a value; a step names who moves. */
module AllocatorThreads {
  import opened AllocatorHeap
  import opened AllocatorSteps
  import opened Allocator

  /** Where a thread is. The states from InAlloc on are inside the class's critical section. */
  datatype Pc =
    | Idle
    | WantAlloc(k: nat, layout: Layout)
    | WantFree(k: nat, p: nat, layout: Layout)
    | InAlloc(k: nat, layout: Layout)
    | Carve(k: nat, layout: Layout, slab: nat)        // at the test of refill's loop
    | CarveLinked(k: nat, layout: Layout, slab: nat)  // the next block's link is written
    | Head(k: nat, layout: Layout)                    // the list is known not to be empty
    | Taken(k: nat, layout: Layout)                   // head and next are read
    | InFree(k: nat, p: nat)
    | FreeLinked(k: nat, p: nat)
    | Done(k: nat, layout: Layout, result: nat)       // alloc is about to release and return
    | FreeDone(k: nat)                                // dealloc is about to release

  datatype Machine = Machine(heap: Heap, locks: seq<bool>, threads: seq<Pc>)

  datatype Step =
    | CallAlloc(t: nat, layout: Layout)
    | CallFree(t: nat, p: nat, layout: Layout)
    | Acquire(t: nat)
    | AskSystem(t: nat, slab: nat)
    | Advance(t: nat)
    | Release(t: nat)
    | Store(p: nat, layout: Layout, memory: Memory)
    | Relabel(p: nat, layout: Layout, newLayout: Layout)
    | TakeFromSystem(p: nat, layout: Layout)
    | GiveToSystem(p: nat, layout: Layout)

  predicate Critical(pc: Pc) { !pc.Idle? && !pc.WantAlloc? && !pc.WantFree? }

  predicate Owns(pc: Pc, k: nat) { Critical(pc) && pc.k == k }

  /** A call to free p is under way: the program has let go of it. */
  ghost predicate Dying(m: Machine, p: nat) {
    exists t :: 0 <= t < |m.threads| && m.threads[t].WantFree? && m.threads[t].p == p
  }

  /** A call to alloc has taken p but not returned it: no program knows of it yet. */
  ghost predicate Unreturned(m: Machine, p: nat) {
    exists t :: 0 <= t < |m.threads| && m.threads[t].Done? && m.threads[t].result == p
  }

  /** A program holds p and may use it. */
  ghost predicate InUse(m: Machine, p: nat, l: Layout) {
    Holds(m.heap, p, l) && !Dying(m, p) && !Unreturned(m, p)
  }

  // ---------------------------------------------------------------- the invariant

  /** What holds of the heap because of where one thread is. */
  ghost predicate ThreadOk(h: Heap, pc: Pc) {
    |h.heads| == |h.phase| == NCLASSES && (!pc.Idle? ==> pc.k < NCLASSES) &&
    match pc
    case Idle => true
    case WantAlloc(k, l) => ClassFor(l) == Some(k)
    case WantFree(k, p, l) => p in h.live && h.live[p] == l && ClassFor(l) == Some(k)
    case InAlloc(k, l) => ClassFor(l) == Some(k) && h.phase[k] == Quiet
    case Carve(k, l, s) => ClassFor(l) == Some(k) && h.phase[k] == Carving(s, false) && Carved(h, k, s)
    case CarveLinked(k, l, s) => ClassFor(l) == Some(k) && h.phase[k] == Carving(s, true) && Carved(h, k, s) && h.slabs[s].low > s
    case Head(k, l) => ClassFor(l) == Some(k) && h.phase[k] == Quiet && h.heads[k] != 0
    case Taken(k, l) => ClassFor(l) == Some(k) && h.phase[k].Taking?
    case InFree(k, p) => h.phase[k] == Freed(p, false)
    case FreeLinked(k, p) => h.phase[k] == Freed(p, true)
    case Done(k, l, _) => ClassFor(l) == Some(k) && h.phase[k] == Quiet
    case FreeDone(k) => h.phase[k] == Quiet
  }

  /** Once refill has listed a block, the list is not empty. */
  ghost predicate Carved(h: Heap, k: nat, s: nat)
    requires k < |h.heads|
  {
    s in h.slabs && h.slabs[s].k == k && (h.heads[k] == 0 ==> h.slabs[s].low > s)
  }

  ghost predicate ThreadsOk(h: Heap, threads: seq<Pc>) {
    forall t :: 0 <= t < |threads| ==> ThreadOk(h, threads[t])
  }

  /** Mutual exclusion. */
  predicate OneOwner(threads: seq<Pc>) {
    forall t, u :: 0 <= t < |threads| && 0 <= u < |threads| && t != u && Critical(threads[t]) && Critical(threads[u]) ==>
      threads[t].k != threads[u].k
  }

  /** No two calls free one block. */
  predicate FreedOnce(threads: seq<Pc>) {
    forall t, u :: 0 <= t < |threads| && 0 <= u < |threads| && t != u && threads[t].WantFree? && threads[u].WantFree? ==>
      threads[t].p != threads[u].p
  }

  ghost predicate Owned(threads: seq<Pc>, k: nat) {
    exists t :: 0 <= t < |threads| && Owns(threads[t], k)
  }

  /** A lock is set exactly while some thread is in its critical section; otherwise nothing is half done. */
  ghost predicate LocksOk(h: Heap, locks: seq<bool>, threads: seq<Pc>) {
    |locks| == |h.phase| == NCLASSES &&
    forall k :: 0 <= k < NCLASSES ==> (locks[k] <==> Owned(threads, k)) && (!locks[k] ==> h.phase[k] == Quiet)
  }

  ghost predicate MachineOk(m: Machine) {
    HeapOk(m.heap) && ThreadsOk(m.heap, m.threads) && OneOwner(m.threads) && FreedOnce(m.threads) &&
    LocksOk(m.heap, m.locks, m.threads)
  }

  /** An empty allocator and n threads that have not called it. */
  function Start(n: nat): (m: Machine)
    ensures MachineOk(m)
  {
    var heap := Heap(seq(NCLASSES, _ => 0), map[], seq(NCLASSES, _ => []), map[], map[], map[], seq(NCLASSES, _ => Quiet));
    EmptyHeapIsOk(heap);
    Machine(heap, seq(NCLASSES, _ => false), seq(n, _ => Idle))
  }

  lemma EmptyHeapIsOk(h: Heap)
    requires h == Heap(h.heads, map[], h.free, map[], map[], map[], h.phase)
    requires |h.heads| == |h.free| == |h.phase| == NCLASSES
    requires forall k :: 0 <= k < NCLASSES ==> h.heads[k] == 0 && h.free[k] == [] && h.phase[k] == Quiet
    ensures HeapOk(h)
  {
    forall k | 0 <= k < NCLASSES ensures ClassOk(h, k) {
      assert forall a :: !Block(h.slabs, k, a);
    }
  }

  // ---------------------------------------------------------------- steps

  predicate CanAdvance(h: Heap, pc: Pc) {
    Critical(pc) && !pc.Done? && !pc.FreeDone? && (pc.InAlloc? ==> pc.k < |h.heads| && h.heads[pc.k] != 0)
  }

  /** What a thread inside its critical section does next. */
  function Advanced(h: Heap, pc: Pc): (Heap, Pc)
    requires HeapOk(h) && ThreadOk(h, pc) && CanAdvance(h, pc)
  {
    assert ClassOk(h, pc.k);
    match pc
    case InAlloc(k, l) => (h, Head(k, l))
    case Carve(k, l, s) =>
      if h.slabs[s].low > s then
        NextBlockIsRaw(h, k);
        (LinkCarved(h, k), CarveLinked(k, l, s))
      else (EndCarve(h, k), Head(k, l))
    case CarveLinked(k, l, s) =>
      NextBlockIsRaw(h, k);
      (PushCarved(h, k), Carve(k, l, s))
    case Head(k, l) => (BeginTake(h, k), Taken(k, l))
    case Taken(k, l) => (FinishTake(h, k, l), Done(k, l, h.phase[k].block))
    case InFree(k, p) => (LinkFreed(h, k), FreeLinked(k, p))
    case FreeLinked(k, p) => (PushFreed(h, k), FreeDone(k))
  }

  ghost predicate Enabled(m: Machine, step: Step) {
    match step
    case CallAlloc(t, l) => t < |m.threads| && m.threads[t].Idle? && ClassFor(l).Some?
    case CallFree(t, p, l) => t < |m.threads| && m.threads[t].Idle? && ClassFor(l).Some? && InUse(m, p, l)
    case Acquire(t) =>
      t < |m.threads| && (m.threads[t].WantAlloc? || m.threads[t].WantFree?) && m.threads[t].k < |m.locks| && !m.locks[m.threads[t].k]
    case AskSystem(t, slab) =>
      t < |m.threads| && m.threads[t].InAlloc? && m.threads[t].k < |m.heap.heads| && m.heap.heads[m.threads[t].k] == 0 &&
      SystemResult(m.heap, slab, SLAB, CLASS_ALIGN)
    case Advance(t) => t < |m.threads| && CanAdvance(m.heap, m.threads[t])
    case Release(t) => t < |m.threads| && (m.threads[t].Done? || m.threads[t].FreeDone?)
    case Store(p, l, memory) => InUse(m, p, l) && WritesIn(m.heap.memory, memory, p, l.size)
    case Relabel(p, l, l') => ClassFor(l).Some? && ClassFor(l') == ClassFor(l) && InUse(m, p, l)
    case TakeFromSystem(p, l) => ClassFor(l).None? && p != 0 && SystemResult(m.heap, p, l.size, l.align)
    case GiveToSystem(p, l) => ClassFor(l).None? && Holds(m.heap, p, l)
  }

  function Moved(m: Machine, t: nat, heap: Heap, pc: Pc): Machine
    requires t < |m.threads|
  {
    Machine(heap, m.locks, m.threads[t := pc])
  }

  ghost function Apply(m: Machine, step: Step): Machine
    requires MachineOk(m) && Enabled(m, step)
  {
    var h := m.heap;
    match step
    case CallAlloc(t, l) => Moved(m, t, h, WantAlloc(ClassFor(l).value, l))
    case CallFree(t, p, l) => Moved(m, t, h, WantFree(ClassFor(l).value, p, l))
    case Acquire(t) =>
      var pc := m.threads[t];
      var r := if pc.WantAlloc? then Moved(m, t, h, InAlloc(pc.k, pc.layout)) else Moved(m, t, BeginFree(h, pc.k, pc.p), InFree(pc.k, pc.p));
      r.(locks := m.locks[pc.k := true])
    case AskSystem(t, slab) =>
      var pc := m.threads[t];
      assert ThreadOk(h, pc);
      if slab == 0 then Moved(m, t, h, Done(pc.k, pc.layout, 0)) else Moved(m, t, BeginCarve(h, pc.k, slab), Carve(pc.k, pc.layout, slab))
    case Advance(t) =>
      assert ThreadOk(h, m.threads[t]);
      var r := Advanced(h, m.threads[t]);
      Moved(m, t, r.0, r.1)
    case Release(t) =>
      assert ThreadOk(h, m.threads[t]);
      Moved(m, t, h, Idle).(locks := m.locks[m.threads[t].k := false])
    case Store(_, _, memory) => m.(heap := h.(memory := memory))
    case Relabel(p, _, l') => m.(heap := h.(live := h.live[p := l']))
    case TakeFromSystem(p, l) => m.(heap := SystemTake(h, p, l))
    case GiveToSystem(p, _) => m.(heap := SystemGive(h, p))
  }

  // ---------------------------------------------------------------- one thread moves

  lemma PushedBlockIsNotNull(h: Heap, k: nat)
    requires InPhase(h, k) && h.phase[k].Carving? && h.phase[k].slab in h.slabs && h.slabs[h.phase[k].slab].low > h.phase[k].slab
    ensures NextBlock(h, k) > 0
  {
    NextBlockIsRaw(h, k);
    SlotPlaced(h, k, NextBlock(h, k));
  }

  /** Nothing outside class k changed for the threads of other classes. */
  ghost predicate Frame(h: Heap, r: Heap, k: nat) {
    |h.heads| == |r.heads| == |h.phase| == |r.phase| == NCLASSES &&
    (forall j :: 0 <= j < NCLASSES && j != k ==> r.heads[j] == h.heads[j] && r.phase[j] == h.phase[j]) &&
    (forall s :: s in h.slabs && h.slabs[s].k != k ==> s in r.slabs && r.slabs[s] == h.slabs[s])
  }

  ghost predicate LiveKept(h: Heap, r: Heap, but: set<nat>) {
    forall p :: p in h.live && p !in but ==> p in r.live && r.live[p] == h.live[p]
  }

  lemma FramedThread(h: Heap, r: Heap, k: nat, but: set<nat>, pc: Pc)
    requires ThreadOk(h, pc) && Frame(h, r, k) && LiveKept(h, r, but) && !Owns(pc, k)
    requires pc.WantFree? ==> pc.p !in but
    ensures ThreadOk(r, pc)
  {
    hide ClassFor;
  }

  /** A step inside class k ended well. */
  ghost predicate Kept(h: Heap, r: Heap, pc: Pc, k: nat) {
    HeapOk(r) && ThreadOk(r, pc) && Owns(pc, k) && Frame(h, r, k) && LiveKept(h, r, {})
  }

  lemma CarveKeeps(h: Heap, pc: Pc)
    requires HeapOk(h) && ThreadOk(h, pc) && pc.Carve?
    ensures Kept(h, Advanced(h, pc).0, Advanced(h, pc).1, pc.k)
  {
    hide ClassFor, Geometry, WriteLink, ClassOk, LiveOk;
    if h.slabs[pc.slab].low > pc.slab {
      NextBlockIsRaw(h, pc.k);
      LinkCarvedKeeps(h, pc.k);
    } else {
      EndCarveKeeps(h, pc.k);
    }
  }

  lemma PushKeeps(h: Heap, pc: Pc)
    requires HeapOk(h) && ThreadOk(h, pc) && pc.CarveLinked?
    ensures Kept(h, Advanced(h, pc).0, Advanced(h, pc).1, pc.k)
  {
    hide ClassFor, Geometry, ClassOk, LiveOk;
    PushedBlockIsNotNull(h, pc.k);
    PushCarvedKeeps(h, pc.k);
  }

  lemma TakeKeeps(h: Heap, pc: Pc)
    requires HeapOk(h) && ThreadOk(h, pc) && CanAdvance(h, pc) && (pc.InAlloc? || pc.Head? || pc.Taken?)
    ensures Kept(h, Advanced(h, pc).0, Advanced(h, pc).1, pc.k)
  {
    hide ClassFor, Geometry, ReadLink, ClassOk, LiveOk;
    if pc.Head? {
      BeginTakeKeeps(h, pc.k);
    } else if pc.Taken? {
      FinishTakeKeeps(h, pc.k, pc.layout);
    }
  }

  lemma FreeKeeps(h: Heap, pc: Pc)
    requires HeapOk(h) && ThreadOk(h, pc) && (pc.InFree? || pc.FreeLinked?)
    ensures Kept(h, Advanced(h, pc).0, Advanced(h, pc).1, pc.k)
  {
    hide ClassFor, Geometry, WriteLink, ClassOk, LiveOk;
    if pc.InFree? {
      LinkFreedKeeps(h, pc.k);
    } else {
      PushFreedKeeps(h, pc.k);
    }
  }

  lemma AdvanceKeeps(h: Heap, pc: Pc)
    requires HeapOk(h) && ThreadOk(h, pc) && CanAdvance(h, pc)
    ensures Kept(h, Advanced(h, pc).0, Advanced(h, pc).1, pc.k)
  {
    hide HeapOk, ThreadOk, Advanced, Kept;
    if pc.Carve? {
      CarveKeeps(h, pc);
    } else if pc.CarveLinked? {
      PushKeeps(h, pc);
    } else if pc.InFree? || pc.FreeLinked? {
      FreeKeeps(h, pc);
    } else {
      TakeKeeps(h, pc);
    }
  }

  // ---------------------------------------------------------------- every step keeps the machine in order

  lemma AcquireKeeps(h: Heap, pc: Pc)
    requires HeapOk(h) && ThreadOk(h, pc) && pc.WantFree? && h.phase[pc.k] == Quiet
    ensures var r := BeginFree(h, pc.k, pc.p);
            HeapOk(r) && ThreadOk(r, InFree(pc.k, pc.p)) && Frame(h, r, pc.k) && LiveKept(h, r, {pc.p})
  {
    hide Geometry, ClassOk, LiveOk, ClassFor;
    BeginFreeKeeps(h, pc.k, pc.p);
  }

  lemma AskSystemKeeps(h: Heap, pc: Pc, slab: nat)
    requires HeapOk(h) && ThreadOk(h, pc) && pc.InAlloc? && SystemResult(h, slab, SLAB, CLASS_ALIGN) && slab != 0
    ensures Kept(h, BeginCarve(h, pc.k, slab), Carve(pc.k, pc.layout, slab), pc.k)
  {
    hide ClassOk, LiveOk, ClassFor;
    BeginCarveKeeps(h, pc.k, slab);
    NewSlabGeometry(h, pc.k, slab);
    assert BlockCount(pc.k) > 0;
    WholeBlocksFit(pc.k);
    CountedBytes(pc.k);
  }

  lemma CountedBytes(k: nat)
    requires k < NCLASSES
    ensures CLASSES[k] > 0 && SLAB / CLASSES[k] * CLASSES[k] > 0
  {
    ClassFacts(k);
    MulLe(CLASSES[k], 1, BlockCount(k));
  }

  /** The other threads keep what they rely on when thread t moves inside class k. */
  lemma ThreadsStay(h: Heap, r: Heap, threads: seq<Pc>, t: nat, pc: Pc, k: nat, but: set<nat>)
    requires ThreadsOk(h, threads) && t < |threads| && ThreadOk(r, pc) && Frame(h, r, k) && LiveKept(h, r, but)
    requires forall u :: 0 <= u < |threads| && u != t ==> !Owns(threads[u], k) && (threads[u].WantFree? ==> threads[u].p !in but)
    ensures ThreadsOk(r, threads[t := pc])
  {
    hide ThreadOk;
    forall u | 0 <= u < |threads| && u != t ensures ThreadOk(r, threads[u]) {
      FramedThread(h, r, k, but, threads[u]);
    }
  }

  /** Locks and owners stay in step when thread t of class k moves within, into or out of its section. */
  lemma LocksStay(h: Heap, r: Heap, locks: seq<bool>, threads: seq<Pc>, t: nat, pc: Pc, k: nat)
    requires LocksOk(h, locks, threads) && OneOwner(threads) && t < |threads| && k < NCLASSES && Frame(h, r, k)
    requires Critical(threads[t]) ==> threads[t].k == k
    requires !Critical(threads[t]) && Critical(pc) ==> !locks[k]
    requires Critical(pc) ==> pc.k == k
    requires !Critical(pc) && Critical(threads[t]) ==> r.phase[k] == Quiet
    requires !Critical(pc) && !Critical(threads[t]) ==> r.phase[k] == h.phase[k]
    ensures OneOwner(threads[t := pc])
    ensures LocksOk(r, if Critical(pc) == Critical(threads[t]) then locks else locks[k := Critical(pc)], threads[t := pc])
  {
    var after := threads[t := pc];
    forall j | 0 <= j < NCLASSES ensures Owned(after, j) == if j == k && Critical(pc) != Critical(threads[t]) then Critical(pc) else locks[j] {
      OwnersStay(threads, t, pc, k, j);
      assert locks[j] <==> Owned(threads, j);
    }
  }

  lemma OwnersStay(threads: seq<Pc>, t: nat, pc: Pc, k: nat, j: nat)
    requires OneOwner(threads) && t < |threads|
    requires Critical(threads[t]) ==> threads[t].k == k
    requires Critical(pc) ==> pc.k == k
    ensures j != k ==> Owned(threads[t := pc], j) == Owned(threads, j)
    ensures Critical(pc) ==> Owned(threads[t := pc], k)
    ensures Critical(threads[t]) ==> Owned(threads, k)
    ensures !Critical(pc) && Critical(threads[t]) ==> !Owned(threads[t := pc], k)
    ensures !Critical(pc) && !Critical(threads[t]) ==> Owned(threads[t := pc], j) == Owned(threads, j)
  {
    var after := threads[t := pc];
    if u :| 0 <= u < |threads| && Owns(threads[u], j) && u != t {
      assert Owns(after[u], j);
    }
    if u :| 0 <= u < |after| && Owns(after[u], j) && u != t {
      assert Owns(threads[u], j);
    }
    if Critical(pc) {
      assert Owns(after[t], k);
    }
    if Critical(threads[t]) {
      assert Owns(threads[t], k);
    }
  }

  lemma OthersDoNotOwn(m: Machine, t: nat, k: nat)
    requires OneOwner(m.threads) && LocksOk(m.heap, m.locks, m.threads) && t < |m.threads| && k < NCLASSES
    requires Owns(m.threads[t], k) || !m.locks[k]
    ensures forall u :: 0 <= u < |m.threads| && u != t ==> !Owns(m.threads[u], k)
  {
    if !m.locks[k] {
      assert !Owned(m.threads, k);
    }
  }

  lemma AdvanceStepKeeps(m: Machine, t: nat)
    requires MachineOk(m) && Enabled(m, Advance(t))
    ensures MachineOk(Apply(m, Advance(t)))
  {
    hide HeapOk, ThreadOk, Advanced, ThreadsOk, OneOwner, FreedOnce, LocksOk, Frame, LiveKept;
    var pc := m.threads[t];
    ThreadAt(m, t);
    AdvanceKeeps(m.heap, pc);
    var r := Advanced(m.heap, pc);
    OthersDoNotOwn(m, t, pc.k);
    ThreadsStay(m.heap, r.0, m.threads, t, r.1, pc.k, {});
    LocksStay(m.heap, r.0, m.locks, m.threads, t, r.1, pc.k);
    FreedOnceStays(m.threads, t, r.1);
  }

  lemma ThreadAt(m: Machine, t: nat)
    requires MachineOk(m) && t < |m.threads|
    ensures ThreadOk(m.heap, m.threads[t]) && (!m.threads[t].Idle? ==> m.threads[t].k < NCLASSES)
    ensures |m.heap.phase| == |m.heap.heads| == |m.heap.free| == |m.locks| == NCLASSES
    ensures Critical(m.threads[t]) ==> m.locks[m.threads[t].k]
  {
    if Critical(m.threads[t]) {
      assert Owns(m.threads[t], m.threads[t].k);
      assert Owned(m.threads, m.threads[t].k);
    }
  }

  lemma FreedOnceStays(threads: seq<Pc>, t: nat, pc: Pc)
    requires FreedOnce(threads) && t < |threads|
    requires pc.WantFree? ==> forall u :: 0 <= u < |threads| && u != t && threads[u].WantFree? ==> threads[u].p != pc.p
    ensures FreedOnce(threads[t := pc])
  {
  }

  lemma AcquireStepKeeps(m: Machine, t: nat)
    requires MachineOk(m) && Enabled(m, Acquire(t))
    ensures MachineOk(Apply(m, Acquire(t)))
  {
    hide HeapOk, ThreadsOk, OneOwner, FreedOnce, Geometry, ClassFor;
    var pc := m.threads[t];
    ThreadAt(m, t);
    OthersDoNotOwn(m, t, pc.k);
    if pc.WantAlloc? {
      var next := InAlloc(pc.k, pc.layout);
      ThreadsStay(m.heap, m.heap, m.threads, t, next, pc.k, {});
      LocksStay(m.heap, m.heap, m.locks, m.threads, t, next, pc.k);
      FreedOnceStays(m.threads, t, next);
    } else {
      var next, r := InFree(pc.k, pc.p), BeginFree(m.heap, pc.k, pc.p);
      AcquireKeeps(m.heap, pc);
      OthersFreeElsewhere(m.threads, t);
      ThreadsStay(m.heap, r, m.threads, t, next, pc.k, {pc.p});
      LocksStay(m.heap, r, m.locks, m.threads, t, next, pc.k);
      FreedOnceStays(m.threads, t, next);
    }
  }

  lemma OthersFreeElsewhere(threads: seq<Pc>, t: nat)
    requires FreedOnce(threads) && t < |threads| && threads[t].WantFree?
    ensures forall u :: 0 <= u < |threads| && u != t ==> threads[u].WantFree? ==> threads[u].p !in {threads[t].p}
  {
  }

  lemma AskSystemStepKeeps(m: Machine, t: nat, slab: nat)
    requires MachineOk(m) && Enabled(m, AskSystem(t, slab))
    ensures MachineOk(Apply(m, AskSystem(t, slab)))
  {
    hide HeapOk, ThreadsOk, OneOwner, FreedOnce, Geometry, ClassFor, LocksOk;
    var pc := m.threads[t];
    ThreadAt(m, t);
    OthersDoNotOwn(m, t, pc.k);
    if slab == 0 {
      ThreadsStay(m.heap, m.heap, m.threads, t, Done(pc.k, pc.layout, 0), pc.k, {});
      LocksStay(m.heap, m.heap, m.locks, m.threads, t, Done(pc.k, pc.layout, 0), pc.k);
      FreedOnceStays(m.threads, t, Done(pc.k, pc.layout, 0));
    } else {
      var next, r := Carve(pc.k, pc.layout, slab), BeginCarve(m.heap, pc.k, slab);
      AskSystemKeeps(m.heap, pc, slab);
      ThreadsStay(m.heap, r, m.threads, t, next, pc.k, {});
      LocksStay(m.heap, r, m.locks, m.threads, t, next, pc.k);
      FreedOnceStays(m.threads, t, next);
    }
  }

  lemma ReleaseStepKeeps(m: Machine, t: nat)
    requires MachineOk(m) && Enabled(m, Release(t))
    ensures MachineOk(Apply(m, Release(t)))
  {
    hide HeapOk, ThreadsOk, OneOwner, FreedOnce, Geometry, LocksOk;
    var pc := m.threads[t];
    ThreadAt(m, t);
    OthersDoNotOwn(m, t, pc.k);
    ThreadsStay(m.heap, m.heap, m.threads, t, Idle, pc.k, {});
    LocksStay(m.heap, m.heap, m.locks, m.threads, t, Idle, pc.k);
    FreedOnceStays(m.threads, t, Idle);
  }

  lemma CallStepKeeps(m: Machine, step: Step)
    requires MachineOk(m) && Enabled(m, step) && (step.CallAlloc? || step.CallFree?)
    ensures MachineOk(Apply(m, step))
  {
    hide HeapOk, ThreadsOk, OneOwner, Geometry, LocksOk;
    var t, k := step.t, ClassFor(step.layout).value;
    var pc := if step.CallAlloc? then WantAlloc(k, step.layout) else WantFree(k, step.p, step.layout);
    ThreadAt(m, t);
    assert ThreadOk(m.heap, pc);
    QuietThreadsStay(m.heap, m.threads, t, pc);
    LocksStay(m.heap, m.heap, m.locks, m.threads, t, pc, k);
    if step.CallFree? {
      assert forall u :: 0 <= u < |m.threads| && m.threads[u].WantFree? ==> m.threads[u].p != step.p;
    }
    FreedOnceStays(m.threads, t, pc);
  }

  lemma QuietThreadsStay(h: Heap, threads: seq<Pc>, t: nat, pc: Pc)
    requires ThreadsOk(h, threads) && t < |threads| && ThreadOk(h, pc)
    ensures ThreadsOk(h, threads[t := pc])
  {
  }

  /** A store or an exchange with the system touches no list, no lock and no class block. */
  lemma ProgramStepKeeps(m: Machine, r: Heap)
    requires MachineOk(m) && HeapOk(r) && r.heads == m.heap.heads && r.phase == m.heap.phase && r.slabs == m.heap.slabs
    requires forall t :: 0 <= t < |m.threads| && m.threads[t].WantFree? ==>
               m.threads[t].p in r.live && r.live[m.threads[t].p] == m.heap.live[m.threads[t].p]
    ensures MachineOk(m.(heap := r))
  {
    hide HeapOk, ClassFor;
    forall t | 0 <= t < |m.threads| ensures ThreadOk(r, m.threads[t]) {
      assert ThreadOk(m.heap, m.threads[t]);
    }
  }

  /** Every step of every thread, and everything programs may do meanwhile, keeps the whole machine in order. */
  lemma StepKeeps(m: Machine, step: Step)
    requires MachineOk(m) && Enabled(m, step)
    ensures MachineOk(Apply(m, step))
  {
    hide HeapOk, ThreadsOk, ThreadOk, OneOwner, FreedOnce, LocksOk, ClassFor, FreshRegion, Holds;
    match step {
      case CallAlloc(_, _) => CallStepKeeps(m, step);
      case CallFree(_, _, _) => CallStepKeeps(m, step);
      case Acquire(t) => AcquireStepKeeps(m, t);
      case AskSystem(t, slab) => AskSystemStepKeeps(m, t, slab);
      case Advance(t) => AdvanceStepKeeps(m, t);
      case Release(t) => ReleaseStepKeeps(m, t);
      case Store(p, l, memory) =>
        ProgramWritesAreHarmless(m.heap, p, l, memory);
        WantedAreLive(m);
        ProgramStepKeeps(m, m.heap.(memory := memory));
      case Relabel(p, l, l') =>
        HeldIsLive(m.heap, p, l);
        RelabelKeeps(m.heap, p, l');
        WantedAreLive(m);
        ProgramStepKeeps(m, m.heap.(live := m.heap.live[p := l']));
      case TakeFromSystem(p, l) =>
        SystemKeeps(m.heap, p, l);
        WantedAreLive(m);
        ProgramStepKeeps(m, SystemTake(m.heap, p, l));
      case GiveToSystem(p, l) =>
        SystemKeeps(m.heap, p, l);
        WantedAreLive(m);
        ProgramStepKeeps(m, SystemGive(m.heap, p));
    }
  }

  lemma HeldIsLive(h: Heap, p: nat, layout: Layout)
    requires Holds(h, p, layout) && ClassFor(layout).Some?
    ensures p in h.live && h.live[p] == layout
  {
  }

  lemma WantedAreLive(m: Machine)
    requires MachineOk(m)
    ensures forall t :: 0 <= t < |m.threads| && m.threads[t].WantFree? ==> m.threads[t].p in m.heap.live
  {
    forall t | 0 <= t < |m.threads| && m.threads[t].WantFree? ensures m.threads[t].p in m.heap.live {
      assert ThreadOk(m.heap, m.threads[t]);
    }
  }
}
