/** What a call to alloc returns when threads interleave: a block that nobody else holds or is about to
    receive, and null only where memory has run out. */
module AllocatorResults {
  import opened AllocatorHeap
  import opened AllocatorSteps
  import opened Allocator
  import opened AllocatorThreads
  import opened AllocatorRuns

  // ---------------------------------------------------------------- results are held, each by one call

  /** What thread t is about to return is held with the layout asked for; no other thread returns it or
      gives it back. */
  ghost predicate ResultHeld(m: Machine, t: nat)
    requires t < |m.threads|
  {
    m.threads[t].Done? && m.threads[t].result != 0 ==>
      var p := m.threads[t].result;
      p in m.heap.live && m.heap.live[p] == m.threads[t].layout && ClassFor(m.threads[t].layout).Some? &&
      forall u :: 0 <= u < |m.threads| && u != t ==>
        (m.threads[u].Done? ==> m.threads[u].result != p) && (m.threads[u].WantFree? ==> m.threads[u].p != p)
  }

  ghost predicate ResultsHeld(m: Machine) {
    forall t: nat :: t < |m.threads| ==> ResultHeld(m, t)
  }

  /** Thread t moves to pc, and only blocks in `but` cease to be live as they were. */
  lemma ResultsStay(m: Machine, r: Machine, t: nat, pc: Pc, but: set<nat>)
    requires ResultsHeld(m) && t < |m.threads| && r.threads == m.threads[t := pc] && LiveKept(m.heap, r.heap, but)
    requires forall u :: 0 <= u < |m.threads| && u != t && m.threads[u].Done? ==> m.threads[u].result !in but
    requires forall u :: 0 <= u < |m.threads| && u != t && m.threads[u].Done? && pc.WantFree? ==> m.threads[u].result != pc.p
    requires forall u :: 0 <= u < |m.threads| && m.threads[u].WantFree? ==> m.threads[u].p in m.heap.live
    requires pc.Done? && pc.result != 0 ==>
               pc.result !in m.heap.live && pc.result in r.heap.live && r.heap.live[pc.result] == pc.layout && ClassFor(pc.layout).Some?
    ensures ResultsHeld(r)
  {
    hide ClassFor;
    forall u: nat | u < |r.threads| ensures ResultHeld(r, u) {
      assert ResultHeld(m, u);
      forall v | 0 <= v < |m.threads| && m.threads[v].Done? && m.threads[v].result != 0 ensures m.threads[v].result in m.heap.live {
        assert ResultHeld(m, v);
      }
    }
  }

  lemma FreedAreLive(m: Machine)
    requires MachineOk(m)
    ensures forall u :: 0 <= u < |m.threads| && m.threads[u].WantFree? ==> m.threads[u].p in m.heap.live
  {
    hide HeapOk, ClassFor, OneOwner, LocksOk, FreedOnce;
    forall u | 0 <= u < |m.threads| && m.threads[u].WantFree? ensures m.threads[u].p in m.heap.live {
      assert ThreadOk(m.heap, m.threads[u]);
    }
  }

  /** A step inside the section changes what is live only by taking a block that was not. */
  lemma AdvancedLive(h: Heap, pc: Pc)
    requires HeapOk(h) && ThreadOk(h, pc) && CanAdvance(h, pc)
    ensures var r := Advanced(h, pc);
            if pc.Taken? then
              r.1.Done? && r.1.layout == pc.layout && r.1.result != 0 && r.1.result !in h.live && r.1.result !in h.system &&
              h.free[pc.k] != [] && r.1.result == h.free[pc.k][0] && r.1.result % CLASS_ALIGN == 0 &&
              r.0.live == h.live[r.1.result := pc.layout] && ClassFor(pc.layout) == Some(pc.k)
            else !r.1.Done? && !r.1.WantFree? && r.0.live == h.live
  {
    hide Geometry, LiveOk, ClassFor, ReadLink, WriteLink, Threaded, Partition;
    assert ClassOk(h, pc.k);
    if pc.Taken? {
      FinishTakeKeeps(h, pc.k, pc.layout);
      TakenBlock(h, pc.k);
    }
  }

  lemma FreeingKeepsResults(m: Machine, t: nat)
    requires MachineOk(m) && Enabled(m, Acquire(t)) && ResultsHeld(m) && m.threads[t].WantFree?
    ensures ResultsHeld(Apply(m, Acquire(t)))
  {
    hide HeapOk, ThreadOk, ThreadsOk, ClassFor, OneOwner, FreedOnce, ResultsHeld;
    var p, r := m.threads[t].p, Apply(m, Acquire(t));
    FreedAreLive(m);
    NotReturnedHere(m, t);
    forall u | 0 <= u < |m.threads| && u != t && m.threads[u].Done? ensures m.threads[u].result !in {p} {
    }
    ResultsStay(m, r, t, r.threads[t], {p});
  }

  lemma ThreadStepKeepsResults(m: Machine, step: Step)
    requires MachineOk(m) && Enabled(m, step) && ResultsHeld(m)
    requires step.Acquire? || step.AskSystem? || step.Advance? || step.Release?
    ensures ResultsHeld(Apply(m, step))
  {
    hide HeapOk, ThreadOk, ThreadsOk, ClassFor, OneOwner, LocksOk, FreedOnce, Advanced, FreshRegion, ResultsHeld;
    var t := step.t;
    FreedAreLive(m);
    ThreadAt(m, t);
    var r := Apply(m, step);
    if step.Advance? {
      AdvancedLive(m.heap, m.threads[t]);
      ResultsStay(m, r, t, r.threads[t], {});
    } else if step.Acquire? && m.threads[t].WantFree? {
      FreeingKeepsResults(m, t);
    } else {
      ResultsStay(m, r, t, r.threads[t], {});
    }
  }

  /** What a thread is freeing, no other is about to return. */
  lemma NotReturnedHere(m: Machine, t: nat)
    requires MachineOk(m) && ResultsHeld(m) && t < |m.threads| && m.threads[t].WantFree?
    ensures forall u :: 0 <= u < |m.threads| && u != t && m.threads[u].Done? ==> m.threads[u].result != m.threads[t].p
  {
    hide ClassFor, LocksOk, OneOwner, FreedOnce;
    assert ThreadOk(m.heap, m.threads[t]);
    LiveIsNotNull(m.heap, m.threads[t].p);
    forall u | 0 <= u < |m.threads| && u != t && m.threads[u].Done? ensures m.threads[u].result != m.threads[t].p {
      assert ResultHeld(m, u);
    }
  }

  lemma LiveIsNotNull(h: Heap, p: nat)
    requires HeapOk(h) && p in h.live
    ensures p > 0 && p % CLASS_ALIGN == 0
  {
    hide ClassOk;
    HeldPlace(h, p, h.live[p]);
    SlotPlaced(h, ClassFor(h.live[p]).value, p);
  }

  lemma CallKeepsResults(m: Machine, step: Step)
    requires MachineOk(m) && Enabled(m, step) && ResultsHeld(m) && (step.CallAlloc? || step.CallFree?)
    ensures ResultsHeld(Apply(m, step))
  {
    hide HeapOk, ThreadOk, ThreadsOk, ClassFor, OneOwner, LocksOk, FreedOnce, ResultsHeld;
    FreedAreLive(m);
    var r := Apply(m, step);
    if step.CallFree? {
      assert forall u :: 0 <= u < |m.threads| && m.threads[u].Done? ==> m.threads[u].result != step.p;
    }
    ResultsStay(m, r, step.t, r.threads[step.t], {});
  }

  lemma ProgramKeepsResults(m: Machine, step: Step)
    requires MachineOk(m) && Enabled(m, step) && ResultsHeld(m)
    requires step.Store? || step.Relabel? || step.TakeFromSystem? || step.GiveToSystem?
    ensures ResultsHeld(Apply(m, step))
  {
    hide HeapOk, ThreadsOk, ClassFor, OneOwner, LocksOk, FreedOnce, FreshRegion;
    var r := Apply(m, step);
    forall t: nat | t < |r.threads| ensures ResultHeld(r, t) {
      assert ResultHeld(m, t);
    }
  }

  lemma StepKeepsResults(m: Machine, step: Step)
    requires MachineOk(m) && Enabled(m, step) && ResultsHeld(m)
    ensures ResultsHeld(Apply(m, step))
  {
    hide MachineOk, Enabled, ResultsHeld, Apply;
    if step.CallAlloc? || step.CallFree? {
      CallKeepsResults(m, step);
    } else if step.Acquire? || step.AskSystem? || step.Advance? || step.Release? {
      ThreadStepKeepsResults(m, step);
    } else {
      ProgramKeepsResults(m, step);
    }
  }

  lemma {:induction false} RunKeepsResults(m: Machine, steps: seq<Step>)
    requires MachineOk(m) && Possible(m, steps) && ResultsHeld(m)
    ensures ResultsHeld(After(m, steps))
    decreases |steps|
  {
    hide MachineOk, Enabled, ResultsHeld, Apply;
    if steps != [] {
      StepKeeps(m, steps[0]);
      StepKeepsResults(m, steps[0]);
      RunKeepsResults(Apply(m, steps[0]), steps[1..]);
    }
  }

  // ---------------------------------------------------------------- which call a thread is in

  function CallOf(step: Step, t: nat): Option<Step> {
    if (step.CallAlloc? || step.CallFree?) && step.t == t then Some(step) else None
  }

  /** The last call thread t made. */
  function LastCall(steps: seq<Step>, t: nat): Option<Step> {
    if steps == [] then None
    else if CallOf(steps[|steps| - 1], t).Some? then Some(steps[|steps| - 1])
    else LastCall(steps[..|steps| - 1], t)
  }

  /** The thread is idle or in that call. */
  predicate InCall(pc: Pc, t: nat, call: Option<Step>) {
    match pc
    case Idle => true
    case WantAlloc(_, l) => call == Some(CallAlloc(t, l))
    case InAlloc(_, l) => call == Some(CallAlloc(t, l))
    case Carve(_, l, _) => call == Some(CallAlloc(t, l))
    case CarveLinked(_, l, _) => call == Some(CallAlloc(t, l))
    case Head(_, l) => call == Some(CallAlloc(t, l))
    case Taken(_, l) => call == Some(CallAlloc(t, l))
    case Done(_, l, _) => call == Some(CallAlloc(t, l))
    case _ => call.Some? && call.value.CallFree?
  }

  lemma StepStaysInCall(m: Machine, step: Step, t: nat, call: Option<Step>)
    requires MachineOk(m) && Enabled(m, step) && t < |m.threads| && InCall(m.threads[t], t, call)
    ensures var r := Apply(m, step);
            |r.threads| == |m.threads| && InCall(r.threads[t], t, if CallOf(step, t).Some? then Some(step) else call)
  {
    hide HeapOk, ThreadOk, ThreadsOk, ClassFor, OneOwner, LocksOk, FreedOnce, FreshRegion;
  }

  lemma {:induction false} AfterLast(m: Machine, steps: seq<Step>)
    requires MachineOk(m) && Possible(m, steps) && steps != []
    ensures var front, last := steps[..|steps| - 1], steps[|steps| - 1];
            Possible(m, front) && Enabled(After(m, front), last) && After(m, steps) == Apply(After(m, front), last)
    decreases |steps|
  {
    hide MachineOk, Enabled, Apply;
    StepKeeps(m, steps[0]);
    var front := steps[..|steps| - 1];
    if front == [] {
      assert steps[1..] == [];
    } else {
      AfterLast(Apply(m, steps[0]), steps[1..]);
      assert steps[1..][..|steps[1..]| - 1] == front[1..];
    }
  }

  lemma {:induction false} RunStaysInCall(n: nat, steps: seq<Step>, t: nat)
    requires Possible(Start(n), steps) && t < n
    ensures var m := After(Start(n), steps); |m.threads| == n && InCall(m.threads[t], t, LastCall(steps, t))
    decreases |steps|
  {
    hide MachineOk, Enabled, Apply, InCall;
    if steps == [] {
      StartsIdle(n, t);
    } else {
      AfterLast(Start(n), steps);
      var front := steps[..|steps| - 1];
      RunStaysInCall(n, front, t);
      StepStaysInCall(After(Start(n), front), steps[|steps| - 1], t, LastCall(front, t));
    }
  }

  lemma StartsIdle(n: nat, t: nat)
    requires t < n
    ensures |Start(n).threads| == n && InCall(Start(n).threads[t], t, None)
  {
  }

  // ---------------------------------------------------------------- from entering the section to the result

  /** Slabs stay, each with its class. */
  ghost predicate SlabsStay(e: Heap, h: Heap) {
    forall s :: s in e.slabs ==> s in h.slabs && h.slabs[s].k == e.slabs[s].k
  }

  /** Live blocks of class k stay live. */
  ghost predicate LiveStays(e: Heap, h: Heap, k: nat) {
    forall a :: LiveIn(e.live, k, a) ==> LiveIn(h.live, k, a)
  }

  /** Blocks held from the system stay held, unless a step gave them back. */
  ghost predicate SystemStays(e: Heap, h: Heap, steps: seq<Step>) {
    forall a :: a in e.system ==> (a in h.system && h.system[a] == e.system[a]) || GiveToSystem(a, e.system[a]) in steps
  }

  /** What a result has to do with the heap e its call found when it entered the section. */
  ghost predicate ResultFrom(e: Heap, k: nat, p: nat, steps: seq<Step>, t: nat) {
    k < |e.free| && (p == 0 <==> AskSystem(t, 0) in steps) &&
    if p == 0 then e.free[k] == []
    else
      p % CLASS_ALIGN == 0 && p !in e.live && (p in e.system ==> GiveToSystem(p, e.system[p]) in steps) &&
      (e.free[k] != [] ==> p == e.free[k][0])
  }

  predicate LayoutIs(pc: Pc, l: Layout) {
    pc.InAlloc? || pc.Carve? || pc.CarveLinked? || pc.Head? || pc.Taken? || pc.Done? ==> pc.layout == l
  }

  /** A thread is on its way through the section of class k that it entered when the heap was e, or has its
      result, or has left. */
  ghost predicate Through(e: Heap, h: Heap, pc: Pc, k: nat, l: Layout, steps: seq<Step>, t: nat) {
    k < NCLASSES && LayoutIs(pc, l) && |e.free| == |h.free| == NCLASSES &&
    if pc.Done? then pc.k == k && ResultFrom(e, k, pc.result, steps, t)
    else Critical(pc) ==> pc.k == k && Inside(e, h, pc, k, steps, t)
  }

  ghost predicate Inside(e: Heap, h: Heap, pc: Pc, k: nat, steps: seq<Step>, t: nat)
    requires k < NCLASSES && |e.free| == |h.free| == NCLASSES
  {
    SlabsStay(e, h) && LiveStays(e, h, k) && SystemStays(e, h, steps) && AskSystem(t, 0) !in steps &&
    (e.free[k] != [] ==> h.free[k] == e.free[k] && (pc.InAlloc? || pc.Head? || pc.Taken?))
  }

  lemma SlotStays(e: Heap, h: Heap, k: nat, a: nat)
    requires HeapOk(e) && HeapOk(h) && SlabsStay(e, h) && Slot(e.slabs, k, a)
    ensures Slot(h.slabs, k, a)
  {
    hide ClassOk, Geometry, LiveOk;
    var s :| SlotOf(e.slabs, s, k, a);
    assert SlotOf(h.slabs, s, k, a);
  }

  /** A block that is free now was not live on entry. */
  lemma FreeWasNotLive(e: Heap, h: Heap, k: nat, p: nat)
    requires HeapOk(e) && HeapOk(h) && k < NCLASSES && SlabsStay(e, h) && LiveStays(e, h, k) && p !in h.live
    requires Slot(h.slabs, k, p)
    ensures p !in e.live
  {
    hide ClassOk, Geometry, ClassFor, Slot;
    if p in e.live {
      var j := ClassFor(e.live[p]).value;
      assert LiveIn(e.live, j, p);
      HeldPlace(e, p, e.live[p]);
      SlotStays(e, h, j, p);
      if j != k {
        ClassFacts(k);
        ClassFacts(j);
        SlotsApart(h, k, p, j, p);
      }
    }
  }

  lemma AdvancedSlabs(h: Heap, pc: Pc)
    requires HeapOk(h) && ThreadOk(h, pc) && CanAdvance(h, pc)
    ensures SlabsStay(h, Advanced(h, pc).0) && Advanced(h, pc).0.system == h.system
    ensures pc.InAlloc? || pc.Head? ==> Advanced(h, pc).0.free == h.free && (Advanced(h, pc).1.Head? || Advanced(h, pc).1.Taken?)
    ensures pc.Taken? ==> Advanced(h, pc).1.Done?
    ensures Advanced(h, pc).1.k == pc.k && forall l :: LayoutIs(pc, l) ==> LayoutIs(Advanced(h, pc).1, l)
  {
    hide Geometry, LiveOk, ClassFor, ReadLink, WriteLink, Threaded, Partition;
    assert ClassOk(h, pc.k);
  }

  /** Any step: slabs stay, and what is held from the system unless it is given back. */
  lemma StepKeepsRegions(m: Machine, step: Step)
    requires MachineOk(m) && Enabled(m, step)
    ensures SlabsStay(m.heap, Apply(m, step).heap) && SystemStays(m.heap, Apply(m, step).heap, [step])
  {
    hide HeapOk, ThreadOk, ThreadsOk, ClassFor, OneOwner, LocksOk, FreedOnce, Advanced;
    if step.Advance? {
      ThreadAt(m, step.t);
      AdvancedSlabs(m.heap, m.threads[step.t]);
    } else if step.AskSystem? && step.slab != 0 {
      ThreadAt(m, step.t);
      NewSlabGeometry(m.heap, m.threads[step.t].k, step.slab);
    }
  }

  /** While t owns class k, blocks of the class stay live. */
  lemma StepKeepsLive(m: Machine, step: Step, t: nat, k: nat)
    requires MachineOk(m) && Enabled(m, step) && t < |m.threads| && Owns(m.threads[t], k)
    ensures LiveStays(m.heap, Apply(m, step).heap, k)
  {
    hide HeapOk, ThreadOk, ThreadsOk, ClassFor, OneOwner, FreedOnce, FreshRegion, Advanced, LocksOk;
    ThreadAt(m, t);
    if step.Advance? {
      ThreadAt(m, step.t);
      AdvancedLive(m.heap, m.threads[step.t]);
    } else if step.Acquire? && m.threads[step.t].WantFree? {
      FreesItsClass(m, step.t);
    }
  }

  lemma FreesItsClass(m: Machine, u: nat)
    requires MachineOk(m) && u < |m.threads| && m.threads[u].WantFree?
    ensures var pc := m.threads[u]; pc.p in m.heap.live && ClassFor(m.heap.live[pc.p]) == Some(pc.k)
  {
    hide HeapOk, ClassFor, OneOwner, LocksOk, FreedOnce;
    assert ThreadOk(m.heap, m.threads[u]);
  }

  lemma StaysTrans(e: Heap, h: Heap, r: Heap, k: nat, steps: seq<Step>, step: Step)
    requires SlabsStay(e, h) && LiveStays(e, h, k) && SystemStays(e, h, steps)
    requires SlabsStay(h, r) && LiveStays(h, r, k) && SystemStays(h, r, [step])
    ensures SlabsStay(e, r) && LiveStays(e, r, k) && SystemStays(e, r, steps + [step])
  {
    hide LiveIn;
  }

  /** Another's step, or a program's. */
  lemma OtherStepThrough(e: Heap, m: Machine, steps: seq<Step>, step: Step, t: nat, k: nat, l: Layout)
    requires MachineOk(m) && Enabled(m, step) && t < |m.threads| && Mover(step) != Some(t)
    requires Through(e, m.heap, m.threads[t], k, l, steps, t)
    ensures var r := Apply(m, step); t < |r.threads| && Through(e, r.heap, r.threads[t], k, l, steps + [step], t)
  {
    hide MachineOk, Apply, Enabled, SlabsStay, LiveStays, SystemStays;
    ApplyKeepsCount(m, step);
    StepKeeps(m, step);
    SameThread(m, step, t);
    FreeCount(Apply(m, step));
    if Critical(m.threads[t]) {
      OthersLeaveTheListAlone(m, step, t, k);
      if !m.threads[t].Done? {
        StepKeepsRegions(m, step);
        StepKeepsLive(m, step, t, k);
        StaysTrans(e, m.heap, Apply(m, step).heap, k, steps, step);
      }
    }
  }

  lemma FreeCount(m: Machine)
    requires MachineOk(m)
    ensures |m.heap.free| == NCLASSES
  {
  }

  lemma SameThread(m: Machine, step: Step, t: nat)
    requires MachineOk(m) && Enabled(m, step) && t < |m.threads| && Mover(step) != Some(t)
    ensures t < |Apply(m, step).threads| && Apply(m, step).threads[t] == m.threads[t]
  {
    hide HeapOk, ThreadOk, Advanced, LocksOk, OneOwner, FreedOnce, ClassFor, FreshRegion, ThreadsOk;
  }

  /** The thread takes the first free block. */
  lemma TakeThrough(e: Heap, h: Heap, pc: Pc, k: nat, steps: seq<Step>, step: Step, t: nat, l: Layout)
    requires HeapOk(e) && HeapOk(h) && ThreadOk(h, pc) && pc.Taken? && pc.k == k && step == Advance(t)
    requires Through(e, h, pc, k, l, steps, t)
    ensures var r := Advanced(h, pc); r.1.Done? && r.1.k == k && |r.0.free| == NCLASSES && ResultFrom(e, k, r.1.result, steps + [step], t)
  {
    hide Geometry, LiveOk, ClassFor, ReadLink, WriteLink, Threaded, SlabsStay, LiveStays;
    AdvancedLive(h, pc);
    FreeIsSlot(h, k);
    var p := Advanced(h, pc).1.result;
    FreeWasNotLive(e, h, k, p);
  }

  lemma FreeIsSlot(h: Heap, k: nat)
    requires HeapOk(h) && k < NCLASSES && h.free[k] != []
    ensures Slot(h.slabs, k, h.free[k][0])
  {
    hide Geometry, LiveOk, Threaded, PhaseOk, LiveIn;
    assert ClassOk(h, k);
    assert h.free[k][0] in h.free[k];
    BlockIsSlot(h, k, h.free[k][0]);
  }

  lemma AdvanceThrough(e: Heap, m: Machine, steps: seq<Step>, t: nat, k: nat, l: Layout)
    requires HeapOk(e) && MachineOk(m) && Enabled(m, Advance(t)) && Through(e, m.heap, m.threads[t], k, l, steps, t)
    ensures var r := Apply(m, Advance(t)); Through(e, r.heap, r.threads[t], k, l, steps + [Advance(t)], t)
  {
    hide HeapOk, ThreadOk, ThreadsOk, ClassFor, OneOwner, LocksOk, FreedOnce, Advanced, ResultFrom, SlabsStay, LiveStays, SystemStays;
    var pc := m.threads[t];
    ThreadAt(m, t);
    FreeCount(m);
    AdvanceKeeps(m.heap, pc);
    AdvancedCount(m.heap, pc);
    AdvancedLive(m.heap, pc);
    AdvancedSlabs(m.heap, pc);
    if pc.Taken? {
      TakeThrough(e, m.heap, pc, k, steps, Advance(t), t, l);
    } else {
      StepKeepsRegions(m, Advance(t));
      StepKeepsLive(m, Advance(t), t, k);
      StaysTrans(e, m.heap, Apply(m, Advance(t)).heap, k, steps, Advance(t));
    }
  }

  lemma AdvancedCount(h: Heap, pc: Pc)
    requires HeapOk(h) && ThreadOk(h, pc) && CanAdvance(h, pc)
    ensures |Advanced(h, pc).0.free| == NCLASSES
  {
    AdvanceKeeps(h, pc);
  }

  /** The thread asks the system: its list was empty on entry, for nobody else could empty it. */
  lemma AskThrough(e: Heap, m: Machine, steps: seq<Step>, t: nat, slab: nat, k: nat, l: Layout)
    requires HeapOk(e) && MachineOk(m) && Enabled(m, AskSystem(t, slab)) && Through(e, m.heap, m.threads[t], k, l, steps, t)
    ensures var r := Apply(m, AskSystem(t, slab)); Through(e, r.heap, r.threads[t], k, l, steps + [AskSystem(t, slab)], t)
  {
    hide HeapOk, ThreadOk, ThreadsOk, ClassFor, OneOwner, LocksOk, FreedOnce, SlabsStay, LiveStays, SystemStays, FreshRegion;
    ThreadAt(m, t);
    FreeCount(m);
    if m.heap.free[k] != [] {
      TakenBlock(m.heap, k);
    }
    StepKeepsRegions(m, AskSystem(t, slab));
    StepKeepsLive(m, AskSystem(t, slab), t, k);
    StaysTrans(e, m.heap, Apply(m, AskSystem(t, slab)).heap, k, steps, AskSystem(t, slab));
  }

  lemma StepThrough(e: Heap, m: Machine, steps: seq<Step>, step: Step, t: nat, k: nat, l: Layout)
    requires HeapOk(e) && MachineOk(m) && Enabled(m, step) && t < |m.threads| && step != Acquire(t)
    requires Through(e, m.heap, m.threads[t], k, l, steps, t)
    ensures var r := Apply(m, step); t < |r.threads| && Through(e, r.heap, r.threads[t], k, l, steps + [step], t)
  {
    hide HeapOk, ThreadOk, ThreadsOk, ClassFor, OneOwner, LocksOk, FreedOnce, Inside, ResultFrom, FreshRegion, Advanced;
    if Mover(step) != Some(t) {
      OtherStepThrough(e, m, steps, step, t, k, l);
    } else if step.Advance? {
      AdvanceThrough(e, m, steps, t, k, l);
    } else if step.AskSystem? {
      AskThrough(e, m, steps, t, step.slab, k, l);
    } else {
      FreeCount(m);
    }
  }

  lemma {:induction false} RunThrough(e: Heap, m: Machine, before: seq<Step>, steps: seq<Step>, t: nat, k: nat, l: Layout)
    requires HeapOk(e) && MachineOk(m) && Possible(m, steps) && t < |m.threads| && Acquire(t) !in steps
    requires Through(e, m.heap, m.threads[t], k, l, before, t)
    ensures var r := After(m, steps); t < |r.threads| && Through(e, r.heap, r.threads[t], k, l, before + steps, t)
    decreases |steps|
  {
    hide HeapOk, MachineOk, Apply, Enabled, Through;
    if steps == [] {
      assert before + steps == before;
    } else {
      StepKeeps(m, steps[0]);
      StepThrough(e, m, before, steps[0], t, k, l);
      RunThrough(e, Apply(m, steps[0]), before + [steps[0]], steps[1..], t, k, l);
      assert (before + [steps[0]]) + steps[1..] == before + steps;
    }
  }

  lemma EntersThrough(m: Machine, t: nat)
    requires MachineOk(m) && Enabled(m, Acquire(t)) && m.threads[t].WantAlloc?
    ensures var r := Apply(m, Acquire(t)); r.heap == m.heap && t < |r.threads| && Through(m.heap, r.heap, r.threads[t], m.threads[t].k, m.threads[t].layout, [], t)
  {
    hide HeapOk, ClassFor, OneOwner, LocksOk, FreedOnce, ThreadsOk;
    ThreadAt(m, t);
    FreeCount(m);
  }

  lemma NoResultsAtStart(n: nat)
    ensures ResultsHeld(Start(n))
  {
  }

  /** In every run, when thread t has called alloc with layout l, entered the section after the steps a, and
      after the steps b is about to return p: if p is not null, it is held with layout l, aligned, no other
      thread is about to return or free it; when t entered it was held by nobody, or by a holder who has given
      it back to the system since; and if the list was not empty then, p was its first block. Null comes
      exactly from a list that was empty and a system that had no slab. */
  lemma AllocReturnsAFreeBlock(n: nat, a: seq<Step>, b: seq<Step>, t: nat, l: Layout)
    requires t < n && Possible(Start(n), a) && Enabled(After(Start(n), a), Acquire(t)) && LastCall(a, t) == Some(CallAlloc(t, l))
    requires MachineOk(Apply(After(Start(n), a), Acquire(t))) && Possible(Apply(After(Start(n), a), Acquire(t)), b) && Acquire(t) !in b
    requires var m := After(Apply(After(Start(n), a), Acquire(t)), b); t < |m.threads| && m.threads[t].Done?
    ensures var e, m := After(Start(n), a).heap, After(Apply(After(Start(n), a), Acquire(t)), b); var p := m.threads[t].result;
            ClassFor(l).Some? && |e.free| == NCLASSES &&
            (p != 0 ==>
               Holds(m.heap, p, l) && p % CLASS_ALIGN == 0 &&
               (forall u :: 0 <= u < |m.threads| && u != t ==>
                  (m.threads[u].Done? ==> m.threads[u].result != p) && (m.threads[u].WantFree? ==> m.threads[u].p != p)) &&
               (forall l' :: Holds(e, p, l') ==> GiveToSystem(p, l') in b) &&
               (e.free[ClassFor(l).value] != [] ==> p == e.free[ClassFor(l).value][0] && forall l' :: !Holds(e, p, l'))) &&
            (p == 0 <==> AskSystem(t, 0) in b) && (p == 0 ==> e.free[ClassFor(l).value] == [])
  {
    hide MachineOk, Apply, Enabled, ClassFor, Through, ResultsHeld;
    var m0 := After(Start(n), a);
    var m1 := Apply(m0, Acquire(t));
    var m := After(m1, b);
    RunStaysInCall(n, a, t);
    WaitsWithLayout(m0, t, l);
    var k := m0.threads[t].k;
    EntersThrough(m0, t);
    HeapIsOk(m0);
    RunThrough(m0.heap, m1, [], b, t, k, l);
    assert [] + b == b;
    NoResultsAtStart(n);
    RunKeepsResults(Start(n), a);
    StepKeepsResults(m0, Acquire(t));
    RunKeepsResults(m1, b);
    ResultIs(m0.heap, m, t, k, l, b);
  }

  lemma HeapIsOk(m: Machine)
    requires MachineOk(m)
    ensures HeapOk(m.heap)
  {
  }

  lemma WaitsWithLayout(m: Machine, t: nat, l: Layout)
    requires MachineOk(m) && Enabled(m, Acquire(t)) && InCall(m.threads[t], t, Some(CallAlloc(t, l)))
    ensures m.threads[t].WantAlloc? && m.threads[t].layout == l && ClassFor(l) == Some(m.threads[t].k)
  {
    hide HeapOk, LocksOk, OneOwner, FreedOnce, ClassFor;
    assert ThreadOk(m.heap, m.threads[t]);
  }

  lemma ResultIs(e: Heap, m: Machine, t: nat, k: nat, l: Layout, b: seq<Step>)
    requires HeapOk(e) && t < |m.threads| && m.threads[t].Done? && Through(e, m.heap, m.threads[t], k, l, b, t)
    requires ResultsHeld(m) && ClassFor(l) == Some(k)
    ensures var p := m.threads[t].result;
            |e.free| == NCLASSES && k < NCLASSES &&
            (p != 0 ==>
               Holds(m.heap, p, l) && p % CLASS_ALIGN == 0 &&
               (forall u :: 0 <= u < |m.threads| && u != t ==>
                  (m.threads[u].Done? ==> m.threads[u].result != p) && (m.threads[u].WantFree? ==> m.threads[u].p != p)) &&
               (forall l' :: Holds(e, p, l') ==> GiveToSystem(p, l') in b) &&
               (e.free[k] != [] ==> p == e.free[k][0] && forall l' :: !Holds(e, p, l'))) &&
            (p == 0 <==> AskSystem(t, 0) in b) && (p == 0 ==> e.free[k] == [])
  {
    hide HeapOk, ClassFor;
    assert ResultHeld(m, t);
    if e.free[k] != [] {
      TakenBlock(e, k);
    }
  }
}
