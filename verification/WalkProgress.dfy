/** Progress of the walk: no deadlock, no lost wake-up, and a bound on the length of every run. */
module WalkProgress {
  import opened Sums
  import opened DirectoryWalk
  import opened WalkSafety

  predicate Final(s: State) {
    s.control.Finished? && forall w :: 0 <= w < |s.workers| ==> s.workers[w].Exited?
  }

  lemma BusyWorkerCanMove(s: State, w: nat) returns (step: Step)
    requires Inv(s) && w < |s.workers| && BusyWeight(0, s.workers[w]) == 1 && s.channel == []
    ensures Enabled(s, step) && !step.Spurious? && !step.SetCancel?
  {
    match s.workers[w]
    case Popped(_) => step := SendStarted(w);
    case Reading(d, pos, _) => step := if pos < |d.entries| then Read(w) else EndOfDirectory(w);
    case Flushing(_, _, _) => step := SendFull(w);
    case Closing(_, batch, _) => step := if batch == [] then SendDone(w) else SendLast(w);
  }

  /** No deadlock and no lost wake-up: short of the final state some thread can move on its own,
      although sends block on a full channel; and no worker sleeps while the queue holds a directory
      or the walk has stopped. */
  lemma NeverStuck(s: State) returns (step: Step)
    requires Inv(s) && !Final(s)
    ensures Enabled(s, step) && !step.Spurious? && !step.SetCancel?
    ensures forall w :: 0 <= w < |s.workers| && s.workers[w].Asleep? ==> s.queue == [] && !s.stopped
  {
    match s.control
    case Top => step := if s.pending > 0 then Check(false) else Finish;
    case Pushing(_) => step := Push;
    case Finished =>
      NothingPendingMeansEmptyChannel(s);
      var w :| 0 <= w < |s.workers| && !s.workers[w].Exited?;
      step := Look(w);
    case Waiting =>
      if s.channel != [] {
        var e := s.channel[0].event;
        step := Receive(if e.Batch? then seq(|e.entries|, _ => false) else []);
      } else if Sum(BusyWeight, 0, s.workers) > 0 {
        var w := SumPositive(BusyWeight, 0, s.workers);
        step := BusyWorkerCanMove(s, w);
      } else if w :| 0 <= w < |s.workers| && !s.workers[w].Exited? {
        SumAtLeast(BusyWeight, 0, s.workers, w);
        step := Look(w);
      } else {
        step := RecvFails;
      }
  }

  /** Steps a directory can still cause, everything below it included. */
  function Cost(d: Dir): nat
    decreases d
  {
    11 + EntriesCost(d.entries)
  }

  function EntriesCost(es: seq<Entry>): nat
    decreases es
  {
    if es == [] then 0 else 8 + Below(es[0]) + EntriesCost(es[1..])
  }

  function Below(e: Entry): nat
    decreases e
  {
    if e.Folder? then Cost(e.dir) else 0
  }

  /** The part of EntriesCost that survives once the entries themselves have been read and sent. */
  function BelowAll(es: seq<Entry>): nat {
    if es == [] then 0 else Below(es[0]) + BelowAll(es[1..])
  }

  function WorkerCost(p: nat, w: Worker): nat {
    match w
    case Idle => 1
    case Asleep => 1
    case Popped(d) => 11 + EntriesCost(d.entries)
    case Reading(d, pos, b) => 7 + 7 * |b| + BelowAll(b) + (if pos <= |d.entries| then EntriesCost(d.entries[pos..]) else 0)
    case Flushing(d, pos, b) => 7 + 7 * |b| + BelowAll(b) + (if pos <= |d.entries| then EntriesCost(d.entries[pos..]) else 0)
    case Closing(d, b, _) => 5 + 7 * |b| + BelowAll(b)
    case Exited => 0
  }

  function EventCost(p: nat, t: Tagged): nat {
    if t.event.Batch? then 4 + BelowAll(t.event.entries) else 3
  }

  function DirCost(p: nat, d: Dir): nat { Cost(d) }

  function ControlCost(c: Control): nat {
    match c
    case Top => 2
    case Waiting => 1
    case Pushing(kids) => 3 + Sum(DirCost, 0, kids)
    case Finished => 0
  }

  function IdleWeight(p: nat, w: Worker): nat { if w.Idle? then 1 else 0 }

  function Work(s: State): nat {
    Sum(DirCost, 0, s.queue) + Sum(WorkerCost, 0, s.workers) + Sum(EventCost, 0, s.channel) +
    ControlCost(s.control) + (if s.cancel then 0 else 1)
  }

  /** Strictly falls with every step but a spurious wake-up. */
  function Measure(s: State): nat {
    Product(Work(s), |s.workers| + 1) + Sum(IdleWeight, 0, s.workers)
  }

  function Product(a: nat, b: nat): nat { a * b }

  lemma {:induction false} BelowAllConcat(a: seq<Entry>, b: seq<Entry>)
    ensures BelowAll(a + b) == BelowAll(a) + BelowAll(b)
  {
    if a == [] {
      assert a + b == b;
    } else {
      assert (a + b)[1..] == a[1..] + b;
      BelowAllConcat(a[1..], b);
    }
  }

  lemma {:induction false} SelectCost(es: seq<Entry>, choices: seq<bool>)
    requires |es| == |choices|
    ensures Sum(DirCost, 0, Select(es, choices)) <= BelowAll(es)
  {
    if es != [] {
      SelectCost(es[1..], choices[1..]);
      SumConcat(DirCost, 0, if choices[0] && es[0].Folder? then [es[0].dir] else [], Select(es[1..], choices[1..]));
    }
  }

  lemma WakeKeepsCost(ws: seq<Worker>)
    ensures Sum(WorkerCost, 0, Wake(ws)) == Sum(WorkerCost, 0, ws)
  {
    SumSame(WorkerCost, 0, Wake(ws), ws);
  }

  lemma IdleAtMostAll(ws: seq<Worker>)
    ensures Sum(IdleWeight, 0, ws) <= |ws|
  {
    SumBounded(IdleWeight, 0, ws, 1);
  }

  lemma ReadCostDrops(s: State, w: nat)
    requires Inv(s) && Enabled(s, Read(w))
    ensures WorkerCost(0, ReadNow(s, w).workers[w]) < WorkerCost(0, s.workers[w])
  {
    var r := s.workers[w];
    var e := r.dir.entries[r.pos];
    assert r.dir.entries[r.pos..][1..] == r.dir.entries[r.pos + 1..];
    BelowAllConcat(r.batch, [e]);
  }

  lemma LookDrops(s: State, w: nat)
    requires Inv(s) && Enabled(s, Look(w))
    ensures Work(LookNow(s, w)) < Work(s) ||
            (Work(LookNow(s, w)) == Work(s) && Sum(IdleWeight, 0, LookNow(s, w).workers) < Sum(IdleWeight, 0, s.workers))
  {
    var s' := LookNow(s, w);
    SumUpdate(WorkerCost, 0, s.workers, w, s'.workers[w]);
    SumUpdate(IdleWeight, 0, s.workers, w, s'.workers[w]);
  }

  lemma ReadDrops(s: State, step: Step)
    requires Inv(s) && Enabled(s, step)
    requires step.Read? || step.EndOfDirectory? || step.BreakOff?
    ensures Work(Apply(s, step)) < Work(s)
  {
    hide Inv, Sum;
    WorkerInOrder(s, step.w);
    SumUpdate(WorkerCost, 0, s.workers, step.w, Apply(s, step).workers[step.w]);
    if step.Read? {
      ReadCostDrops(s, step.w);
    }
  }

  lemma SendDrops(s: State, step: Step)
    requires Inv(s) && Enabled(s, step)
    requires step.SendStarted? || step.SendFull? || step.SendLast? || step.SendDone?
    ensures Work(Apply(s, step)) < Work(s)
  {
    hide Inv, Sum, DirCost;
    WorkerInOrder(s, step.w);
    var s' := Apply(s, step);
    var d := s.workers[step.w].dir;
    assert d.entries[0..] == d.entries;
    SumUpdate(WorkerCost, 0, s.workers, step.w, s'.workers[step.w]);
    SumAppend(EventCost, 0, s.channel, s'.channel[|s.channel|]);
  }

  lemma CoordinatorStepDrops(s: State, step: Step)
    requires Inv(s) && Enabled(s, step)
    requires step.Check? || step.Push? || step.Finish? || step.SetCancel? || step.RecvFails?
    ensures Work(Apply(s, step)) < Work(s)
  {
    WakeKeepsCost(s.workers);
    if step.Push? {
      SumConcat(DirCost, 0, s.queue, s.control.kids);
    }
  }

  lemma ReceiveDrops(s: State, choices: seq<bool>)
    requires Inv(s) && Enabled(s, Receive(choices))
    ensures Work(ReceiveNow(s, choices)) < Work(s)
  {
    var e := s.channel[0].event;
    if e.Batch? {
      SelectCost(e.entries, choices);
    }
  }

  lemma ProductDrops(a: nat, b: nat, a': nat, b': nat, n: nat)
    requires b' <= n && (a' < a || (a' == a && b' < b))
    ensures a' * (n + 1) + b' < a * (n + 1) + b
  {
    if a' < a {
      assert (a' + 1) * (n + 1) <= a * (n + 1);
    }
  }

  /** Every visitor that descends only into folders of the batch it was given makes progress. */
  lemma MeasureDrops(s: State, step: Step)
    requires Inv(s) && Enabled(s, step) && !step.Spurious?
    ensures Measure(Apply(s, step)) < Measure(s)
  {
    hide Inv, Work;
    var s' := Apply(s, step);
    IdleAtMostAll(s'.workers);
    match step {
      case Look(w) => LookDrops(s, w);
      case Receive(choices) => ReceiveDrops(s, choices);
      case RecvFails => CoordinatorStepDrops(s, step);
      case Check(_) => CoordinatorStepDrops(s, step);
      case Push => CoordinatorStepDrops(s, step);
      case Finish => CoordinatorStepDrops(s, step);
      case SetCancel => CoordinatorStepDrops(s, step);
      case SendStarted(_) => SendDrops(s, step);
      case SendFull(_) => SendDrops(s, step);
      case SendLast(_) => SendDrops(s, step);
      case SendDone(_) => SendDrops(s, step);
      case _ => ReadDrops(s, step);
    }
    ProductDrops(Work(s), Sum(IdleWeight, 0, s.workers), Work(s'), Sum(IdleWeight, 0, s'.workers), |s.workers|);
  }

  /** No run without spurious wake-ups is longer than the measure of its start: together with
      NeverStuck, every walk of a finite directory tree ends in the final state under any schedule
      and any cancellation. */
  lemma {:induction false} RunsAreBounded(start: State, steps: seq<Step>, s: State)
    requires Inv(start) && Runs(start, steps, s)
    requires forall i :: 0 <= i < |steps| ==> !steps[i].Spurious?
    ensures |steps| + Measure(s) <= Measure(start)
    decreases steps
  {
    if steps != [] {
      StepKeepsInv(start, steps[0]);
      MeasureDrops(start, steps[0]);
      RunsAreBounded(Apply(start, steps[0]), steps[1..], s);
    }
  }
}
