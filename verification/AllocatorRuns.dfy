/** What every interleaving of threads guarantees: mutual exclusion, intact lists, disjoint blocks whose
    contents only their holder changes, and critical sections that end. */
module AllocatorRuns {
  import opened AllocatorHeap
  import opened AllocatorSteps
  import opened Allocator
  import opened AllocatorThreads

  /** The steps can be taken one after the other. */
  ghost predicate Possible(m: Machine, steps: seq<Step>)
    requires MachineOk(m)
    decreases |steps|
  {
    steps == [] || (Enabled(m, steps[0]) && (StepKeeps(m, steps[0]); Possible(Apply(m, steps[0]), steps[1..])))
  }

  ghost function After(m: Machine, steps: seq<Step>): (r: Machine)
    requires MachineOk(m) && Possible(m, steps)
    ensures MachineOk(r)
    decreases |steps|
  {
    if steps == [] then m else StepKeeps(m, steps[0]); After(Apply(m, steps[0]), steps[1..])
  }

  /** The list of class k is complete: what the links spell, without repetition, and exactly the carved
      blocks nobody holds. */
  ghost predicate ListIntact(h: Heap, k: nat)
    requires |h.heads| == |h.free| == NCLASSES && k < NCLASSES
  {
    Threaded(h.memory, h.heads[k], h.free[k]) && Distinct(h.free[k]) &&
    forall a :: (Block(h.slabs, k, a) <==> a in h.free[k] || LiveIn(h.live, k, a)) && !(a in h.free[k] && LiveIn(h.live, k, a))
  }

  /** From an empty allocator, whatever any number of threads do in any order. */
  lemma AnyRunIsSafe(n: nat, steps: seq<Step>)
    requires Possible(Start(n), steps)
    ensures var m := After(Start(n), steps); |m.heap.heads| == |m.heap.free| == |m.locks| == NCLASSES
    ensures var m := After(Start(n), steps);
            forall t, u, k :: 0 <= t < |m.threads| && 0 <= u < |m.threads| && Owns(m.threads[t], k) && Owns(m.threads[u], k) ==> t == u
    ensures var m := After(Start(n), steps); forall k :: 0 <= k < NCLASSES && !m.locks[k] ==> ListIntact(m.heap, k)
    ensures var m := After(Start(n), steps);
            forall a, l, b, l' :: Holds(m.heap, a, l) && Holds(m.heap, b, l') && a != b ==> Apart(a, Room(l), b, Room(l'))
  {
    var m := After(Start(n), steps);
    SafeNow(m);
  }

  lemma SafeNow(m: Machine)
    requires MachineOk(m)
    ensures |m.heap.heads| == |m.heap.free| == |m.locks| == NCLASSES
    ensures forall t, u, k :: 0 <= t < |m.threads| && 0 <= u < |m.threads| && Owns(m.threads[t], k) && Owns(m.threads[u], k) ==> t == u
    ensures forall k :: 0 <= k < NCLASSES && !m.locks[k] ==> ListIntact(m.heap, k)
    ensures forall a, l, b, l' :: Holds(m.heap, a, l) && Holds(m.heap, b, l') && a != b ==> Apart(a, Room(l), b, Room(l'))
  {
    hide Holds, Room, Geometry, ThreadOk, Threaded;
    forall k | 0 <= k < NCLASSES && !m.locks[k] ensures ListIntact(m.heap, k) {
      assert ClassOk(m.heap, k);
    }
    forall a, l, b, l' | Holds(m.heap, a, l) && Holds(m.heap, b, l') && a != b ensures Apart(a, Room(l), b, Room(l')) {
      HeldBlocksApart(m.heap, a, l, b, l');
    }
  }

  // ---------------------------------------------------------------- isolation

  /** The thread that takes the step; none for programs and the system. */
  function Mover(step: Step): (t: Option<nat>) {
    match step
    case CallAlloc(t, _) => Some(t)
    case CallFree(t, _, _) => Some(t)
    case Acquire(t) => Some(t)
    case AskSystem(t, _) => Some(t)
    case Advance(t) => Some(t)
    case Release(t) => Some(t)
    case _ => None
  }

  ghost predicate SameList(h: Heap, r: Heap, k: nat) {
    |h.heads| == |r.heads| == |h.free| == |r.free| == |h.phase| == |r.phase| == NCLASSES && k < NCLASSES &&
    r.heads[k] == h.heads[k] && r.free[k] == h.free[k] && r.phase[k] == h.phase[k]
  }

  lemma AdvancedElsewhere(h: Heap, pc: Pc, k: nat)
    requires HeapOk(h) && ThreadOk(h, pc) && CanAdvance(h, pc) && pc.k != k && k < NCLASSES
    ensures SameList(h, Advanced(h, pc).0, k)
  {
    hide ClassOk, Geometry, LiveOk, ClassFor, ReadLink, WriteLink;
  }

  /** While a thread is inside its critical section nobody else moves its list, so what it read stays true. */
  lemma OthersLeaveTheListAlone(m: Machine, step: Step, t: nat, k: nat)
    requires MachineOk(m) && Enabled(m, step) && t < |m.threads| && Owns(m.threads[t], k) && Mover(step) != Some(t)
    ensures SameList(m.heap, Apply(m, step).heap, k) && Apply(m, step).threads[t] == m.threads[t]
  {
    hide HeapOk, ThreadOk, ClassFor, FreshRegion, LocksOk, FreedOnce;
    ThreadAt(m, t);
    var u := Mover(step);
    if u.Some? {
      ThreadAt(m, u.value);
    }
    if step.Advance? {
      AdvancedElsewhere(m.heap, m.threads[step.t], k);
    }
  }

  /** Memory of a held block changes only under its holder's own stores. */
  lemma HeldContentsStay(m: Machine, step: Step, q: nat, l: Layout)
    requires MachineOk(m) && Enabled(m, step) && Holds(m.heap, q, l) && (step.Store? ==> step.p != q)
    ensures SameOn(m.heap.memory, Apply(m, step).heap.memory, q, l.size)
  {
    hide HeapOk, ThreadOk, ClassFor, FreshRegion, LocksOk, FreedOnce, OneOwner, Holds, SameOn;
    NothingChanges(m.heap.memory);
    if step.Store? {
      HeldBlocksApart(m.heap, q, l, step.p, step.layout);
      OutsideIsSame(m.heap.memory, step.memory, step.p, step.layout.size, q, l.size);
    } else if step.Advance? {
      ThreadAt(m, step.t);
      AdvanceWritesNoHeldBlock(m.heap, m.threads[step.t], q, l);
    }
  }

  /** A slot that is not live overlaps nothing held. */
  lemma RawSlotIsApart(h: Heap, k: nat, a: nat, q: nat, l: Layout)
    requires HeapOk(h) && k < NCLASSES && Slot(h.slabs, k, a) && !LiveIn(h.live, k, a) && Holds(h, q, l)
    ensures Apart(q, l.size, a, LINK)
  {
    hide ClassOk, SlotOf;
    SlotPlaced(h, k, a);
    if ClassFor(l).Some? {
      HeldPlace(h, q, l);
      SlotsApart(h, ClassFor(l).value, q, k, a);
    } else {
      var s :| s in h.slabs && s <= a && a + CLASSES[k] <= s + SLAB;
      assert Apart(s, SLAB, q, Extent(h.system[q]));
    }
  }

  lemma LinkWriteMisses(h: Heap, k: nat, a: nat, q: nat, l: Layout)
    requires HeapOk(h) && k < NCLASSES && Slot(h.slabs, k, a) && !LiveIn(h.live, k, a) && Holds(h, q, l)
    ensures SameOn(h.memory, WriteLink(h.memory, a, h.heads[k]), q, l.size)
  {
    hide ClassOk, Slot, Holds, Geometry, LiveOk;
    RawSlotIsApart(h, k, a, q, l);
    OutsideIsSame(h.memory, WriteLink(h.memory, a, h.heads[k]), a, LINK, q, l.size);
  }

  lemma AdvanceWritesNoHeldBlock(h: Heap, pc: Pc, q: nat, l: Layout)
    requires HeapOk(h) && ThreadOk(h, pc) && CanAdvance(h, pc) && Holds(h, q, l)
    ensures SameOn(h.memory, Advanced(h, pc).0.memory, q, l.size)
  {
    hide Geometry, LiveOk, ClassFor, Holds, WriteLink, ReadLink, Threaded, SameOn, Slot;
    NothingChanges(h.memory);
    assert ClassOk(h, pc.k);
    if pc.Carve? && h.slabs[pc.slab].low > pc.slab {
      NextBlockIsRaw(h, pc.k);
      SlotIsSlot(h, pc.slab, pc.k, NextBlock(h, pc.k));
      LinkWriteMisses(h, pc.k, NextBlock(h, pc.k), q, l);
    } else if pc.InFree? {
      assert InTransit(h.phase[pc.k], pc.p);
      BlockIsSlot(h, pc.k, pc.p);
      LinkWriteMisses(h, pc.k, pc.p, q, l);
    }
  }

  lemma SlotIsSlot(h: Heap, s: nat, k: nat, a: nat)
    requires SlotOf(h.slabs, s, k, a)
    ensures Slot(h.slabs, k, a)
  {
  }

  // ---------------------------------------------------------------- progress

  /** The step a busy thread takes next when it need not wait. */
  ghost function NextStep(m: Machine, t: nat): Step
    requires MachineOk(m) && t < |m.threads|
  {
    ThreadAt(m, t);
    var pc := m.threads[t];
    if pc.WantAlloc? || pc.WantFree? then Acquire(t)
    else if pc.Done? || pc.FreeDone? then Release(t)
    else if pc.InAlloc? && m.heap.heads[pc.k] == 0 then AskSystem(t, 0)
    else Advance(t)
  }

  /** Spinning never blocks everyone: while some call is under way, some thread can move. */
  lemma SomeThreadCanMove(m: Machine, t: nat) returns (u: nat)
    requires MachineOk(m) && t < |m.threads| && !m.threads[t].Idle?
    ensures u < |m.threads| && Enabled(m, NextStep(m, u))
    ensures u == t || Owns(m.threads[u], m.threads[t].k)
  {
    ThreadAt(m, t);
    u := t;
    if (m.threads[t].WantAlloc? || m.threads[t].WantFree?) && m.locks[m.threads[t].k] {
      assert Owned(m.threads, m.threads[t].k);
      u :| 0 <= u < |m.threads| && Owns(m.threads[u], m.threads[t].k);
      ThreadAt(m, u);
    }
  }

  /** Bytes of the slab still to be carved. */
  function Uncarved(h: Heap, s: nat): (n: nat)
    requires s in h.slabs
  {
    if h.slabs[s].low >= s then h.slabs[s].low - s else 0
  }

  /** How many more steps of its own a thread is inside for, at most. */
  ghost function StepsLeft(h: Heap, pc: Pc): nat
    requires ThreadOk(h, pc) && Critical(pc)
  {
    match pc
    case Done(_, _, _) => 1
    case FreeDone(_) => 1
    case FreeLinked(_, _) => 2
    case InFree(_, _) => 3
    case Taken(_, _) => 2
    case Head(_, _) => 3
    case CarveLinked(_, _, s) => 3 + 2 * Uncarved(h, s)
    case Carve(_, _, s) => 4 + 2 * Uncarved(h, s)
    case InAlloc(_, _) => 5 + 2 * SLAB
  }

  lemma AdvanceShortens(h: Heap, pc: Pc)
    requires HeapOk(h) && ThreadOk(h, pc) && CanAdvance(h, pc)
    ensures var r := Advanced(h, pc); ThreadOk(r.0, r.1) && Critical(r.1) && StepsLeft(r.0, r.1) < StepsLeft(h, pc)
  {
    hide Geometry, LiveOk, ClassFor, WriteLink, ReadLink, Threaded, Partition, PhaseOk;
    AdvanceKeeps(h, pc);
    assert ClassOk(h, pc.k);
    ClassFacts(pc.k);
    if pc.CarveLinked? {
      NextBlockIsRaw(h, pc.k);
    }
  }

  lemma RefillShortens(h: Heap, pc: Pc, slab: nat)
    requires HeapOk(h) && ThreadOk(h, pc) && pc.InAlloc? && SystemResult(h, slab, SLAB, CLASS_ALIGN) && slab != 0
    ensures ThreadOk(BeginCarve(h, pc.k, slab), Carve(pc.k, pc.layout, slab))
    ensures StepsLeft(BeginCarve(h, pc.k, slab), Carve(pc.k, pc.layout, slab)) < StepsLeft(h, pc)
  {
    hide Geometry, LiveOk, ClassFor, ClassOk, FreshRegion;
    AskSystemKeeps(h, pc, slab);
    WholeBlocksFit(pc.k);
  }

  /** A thread that is carving sees its slab unchanged by others. */
  lemma OthersLeaveTheSlabAlone(m: Machine, step: Step, t: nat)
    requires MachineOk(m) && Enabled(m, step) && t < |m.threads| && Mover(step) != Some(t)
    requires m.threads[t].Carve? || m.threads[t].CarveLinked?
    ensures m.threads[t].slab in m.heap.slabs && m.threads[t].slab in Apply(m, step).heap.slabs
    ensures Apply(m, step).heap.slabs[m.threads[t].slab] == m.heap.slabs[m.threads[t].slab]
  {
    hide HeapOk, ClassFor, LocksOk, FreedOnce, FreshRegion;
    ThreadAt(m, t);
    if step.Advance? {
      ThreadAt(m, step.t);
      AdvanceKeeps(m.heap, m.threads[step.t]);
    } else if step.AskSystem? && step.slab != 0 {
      ThreadAt(m, step.t);
      NewSlabGeometry(m.heap, m.threads[step.t].k, step.slab);
    }
  }

  /** A critical section is over after a bounded number of its thread's own steps, whatever others do. */
  lemma CriticalSectionsEnd(m: Machine, step: Step, t: nat)
    requires MachineOk(m) && Enabled(m, step) && t < |m.threads| && Critical(m.threads[t])
    ensures ThreadOk(m.heap, m.threads[t]) && StepsLeft(m.heap, m.threads[t]) <= 5 + 2 * SLAB
    ensures var r := Apply(m, step); MachineOk(r) && |r.threads| == |m.threads| && ThreadOk(r.heap, r.threads[t])
    ensures var r := Apply(m, step);
            if Mover(step) == Some(t) then r.threads[t].Idle? || (Critical(r.threads[t]) && StepsLeft(r.heap, r.threads[t]) < StepsLeft(m.heap, m.threads[t]))
            else r.threads[t] == m.threads[t] && StepsLeft(r.heap, r.threads[t]) == StepsLeft(m.heap, m.threads[t])
  {
    hide HeapOk, ThreadOk, Advanced, LocksOk, OneOwner, FreedOnce, ClassFor, FreshRegion;
    StepKeeps(m, step);
    ThreadAt(m, t);
    ThreadAt(Apply(m, step), t) by {
      ApplyKeepsCount(m, step);
    }
    StepsAreFew(m.heap, m.threads[t]);
    if Mover(step) == Some(t) {
      if step.Advance? {
        AdvanceShortens(m.heap, m.threads[t]);
      } else if step.AskSystem? && step.slab != 0 {
        RefillShortens(m.heap, m.threads[t], step.slab);
      }
    } else {
      OthersLeaveTheListAlone(m, step, t, m.threads[t].k);
      if m.threads[t].Carve? || m.threads[t].CarveLinked? {
        OthersLeaveTheSlabAlone(m, step, t);
      }
    }
  }

  lemma ApplyKeepsCount(m: Machine, step: Step)
    requires MachineOk(m) && Enabled(m, step)
    ensures |Apply(m, step).threads| == |m.threads|
  {
    hide HeapOk, ThreadOk, Advanced, LocksOk, OneOwner, FreedOnce, ClassFor, FreshRegion, ThreadsOk;
  }

  lemma StepsAreFew(h: Heap, pc: Pc)
    requires HeapOk(h) && ThreadOk(h, pc) && Critical(pc)
    ensures StepsLeft(h, pc) <= 5 + 2 * SLAB
  {
    hide Geometry, LiveOk, ClassFor, Threaded, Partition;
    assert ClassOk(h, pc.k);
  }
}
