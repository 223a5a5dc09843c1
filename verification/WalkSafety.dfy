/** Safety of the walk: what every reachable state of every interleaving satisfies. */
module WalkSafety {
  import opened Sums
  import opened DirectoryWalk

  function BusyWeight(p: nat, w: Worker): nat {
    if w.Popped? || w.Reading? || w.Flushing? || w.Closing? then 1 else 0
  }

  function DoneWeight(p: nat, t: Tagged): nat {
    if t.event.Done? then 1 else 0
  }

  function Kids(c: Control): seq<Dir> {
    if c.Pushing? then c.kids else []
  }

  /** Directories still owed a Done: queued, about to be queued, held by a worker, or with their Done in the channel. */
  function Outstanding(s: State): nat {
    |s.queue| + |Kids(s.control)| + Sum(BusyWeight, 0, s.workers) + Sum(DoneWeight, 0, s.channel)
  }

  predicate WorkerOk(w: Worker) {
    (w.Reading? ==> w.pos <= |w.dir.entries| && |w.batch| <= w.pos && |w.batch| < RECURSIVE_BATCH_SIZE) &&
    (w.Flushing? ==> w.pos <= |w.dir.entries| && |w.batch| == RECURSIVE_BATCH_SIZE) &&
    (w.Closing? ==> |w.batch| < RECURSIVE_BATCH_SIZE)
  }

  predicate Inv(s: State) {
    && |s.workers| > 0 && |s.served| == |s.workers|
    && |s.channel| <= 2 * |s.workers|
    && s.pending == Outstanding(s)
    && (forall w :: 0 <= w < |s.workers| ==> WorkerOk(s.workers[w]))
    && (forall w :: 0 <= w < |s.workers| ==> s.workers[w].Asleep? ==> s.queue == [] && !s.stopped)
    && (forall w :: 0 <= w < |s.workers| ==> s.workers[w].Exited? ==> s.stopped)
    && (s.stopped ==> s.queue == [] && (s.cancelApplied || s.control.Finished?))
    && (s.cancelApplied ==> s.cancel && s.stopped && !s.control.Pushing?)
    && (s.control.Waiting? || s.control.Pushing? ==> s.pending > 0 || s.cancelApplied)
    && (s.control.Pushing? ==> s.control.kids != [])
    && (s.control.Finished? ==> s.pending == 0 && s.stopped && s.channel == [])
    && (forall i :: 0 <= i < |s.channel| ==> s.channel[i].worker < |s.workers|)
    && (s.channel != [] ==>
          var t := s.channel[|s.channel| - 1]; t.event.Done? || BusyWeight(0, s.workers[t.worker]) == 1)
  }

  lemma WorkerInOrder(s: State, w: nat)
    requires Inv(s) && w < |s.workers|
    ensures WorkerOk(s.workers[w])
  {
  }

  lemma InitInv(root: Dir, workers: nat)
    requires workers > 0
    ensures Inv(Init(root, workers))
  {
    var ws := Init(root, workers).workers;
    forall i | 0 <= i < |ws| ensures BusyWeight(0, ws[i]) <= 0 {}
    SumBounded(BusyWeight, 0, ws, 0);
  }

  lemma WakeKeepsBusy(ws: seq<Worker>)
    ensures Sum(BusyWeight, 0, Wake(ws)) == Sum(BusyWeight, 0, ws)
  {
    SumSame(BusyWeight, 0, Wake(ws), ws);
  }

  /** A worker goes on without sending. */
  lemma WorkerMoves(s: State, w: nat, to: Worker)
    requires Inv(s) && w < |s.workers| && WorkerOk(to) && BusyWeight(0, to) == BusyWeight(0, s.workers[w])
    requires !to.Asleep? && !to.Exited?
    ensures Inv(Move(s, w, to))
  {
    hide Sum, WorkerOk, BusyWeight;
    SumUpdate(BusyWeight, 0, s.workers, w, to);
  }

  lemma MoveKeepsInv(s: State, step: Step)
    requires Inv(s) && Enabled(s, step)
    requires step.Spurious? || step.Read? || step.EndOfDirectory? || step.BreakOff?
    ensures Inv(Apply(s, step))
  {
    hide Inv;
    WorkerInOrder(s, step.w);
    WorkerMoves(s, step.w, Apply(s, step).workers[step.w]);
  }

  lemma LookKeepsInv(s: State, w: nat)
    requires Inv(s) && Enabled(s, Look(w))
    ensures Inv(LookNow(s, w))
  {
    hide Sum;
    var s' := LookNow(s, w);
    SumUpdate(BusyWeight, 0, s.workers, w, s'.workers[w]);
  }

  /** A worker sends an event and goes on, still busy unless the event was its Done. */
  lemma WorkerSends(s: State, w: nat, event: Event, to: Worker)
    requires Inv(s) && w < |s.workers| && Room(s) && WorkerOk(to) && !to.Asleep? && !to.Exited?
    requires BusyWeight(0, s.workers[w]) == 1 == BusyWeight(0, to) + if event.Done? then 1 else 0
    ensures Inv(Send(s, w, event, to))
  {
    hide Sum, WorkerOk, BusyWeight;
    var t := Tagged(w, event);
    SumUpdate(BusyWeight, 0, s.workers, w, to);
    SumAppend(DoneWeight, 0, s.channel, t);
    SumAtLeast(BusyWeight, 0, s.workers, w);
  }

  lemma SendKeepsInv(s: State, step: Step)
    requires Inv(s) && Enabled(s, step)
    requires step.SendStarted? || step.SendFull? || step.SendLast? || step.SendDone?
    ensures Inv(Apply(s, step))
  {
    hide Inv;
    WorkerInOrder(s, step.w);
    var r := Apply(s, step);
    WorkerSends(s, step.w, r.channel[|s.channel|].event, r.workers[step.w]);
  }

  lemma ReceiveKeepsInv(s: State, choices: seq<bool>)
    requires Inv(s) && Enabled(s, Receive(choices))
    ensures Inv(ReceiveNow(s, choices))
  {
    hide Inv, Select;
    if s.channel[0].event.Batch? && !s.cancelApplied && Select(s.channel[0].event.entries, choices) != [] {
      BatchKeepsInv(s, Select(s.channel[0].event.entries, choices), s.channel[0]);
    } else {
      HeardKeepsInv(s, s.channel[0], s.log + [s.channel[0]]);
      HeardKeepsInv(s, s.channel[0], s.log);
    }
  }

  /** The first event is taken off the channel; a Done is no longer pending. */
  lemma HeardKeepsInv(s: State, t: Tagged, log: seq<Tagged>)
    requires Inv(s) && s.control.Waiting? && s.channel != [] && t == s.channel[0]
    ensures Inv(s.(channel := s.channel[1..], log := log, control := Top,
                   pending := if t.event.Done? then SaturatingSub(s.pending, 1) else s.pending))
  {
    hide Sum, WorkerOk, BusyWeight;
    SumFirst(DoneWeight, 0, s.channel);
  }

  lemma BatchKeepsInv(s: State, kids: seq<Dir>, t: Tagged)
    requires Inv(s) && s.control.Waiting? && s.channel != [] && t == s.channel[0] && t.event.Batch? && !s.cancelApplied && kids != []
    ensures Inv(s.(channel := s.channel[1..], log := s.log + [t], pending := s.pending + |kids|, control := Pushing(kids)))
  {
    hide Sum, WorkerOk, BusyWeight;
    SumFirst(DoneWeight, 0, s.channel);
  }

  /** When nothing is pending no event can be left over: the last one in the channel would be a Done
      or belong to a busy worker. */
  lemma NothingPendingMeansEmptyChannel(s: State)
    requires Inv(s) && s.pending == 0
    ensures s.queue == [] && s.channel == []
    ensures forall w :: 0 <= w < |s.workers| ==> BusyWeight(0, s.workers[w]) == 0
  {
    forall w | 0 <= w < |s.workers| ensures BusyWeight(0, s.workers[w]) == 0 {
      SumAtLeast(BusyWeight, 0, s.workers, w);
    }
    if s.channel != [] {
      SumAtLeast(DoneWeight, 0, s.channel, |s.channel| - 1);
    }
  }

  /** recv finds every sender gone only after an applied cancellation that left nothing pending: the
      early break of the loop loses no directory. */
  lemma RecvFailsOnlyWhenNothingIsPending(s: State)
    requires Inv(s) && Enabled(s, RecvFails)
    ensures s.pending == 0 && s.cancelApplied
  {
    assert s.workers[0].Exited?;
    if Sum(BusyWeight, 0, s.workers) > 0 {
      var i := SumPositive(BusyWeight, 0, s.workers);
      assert false;
    }
  }

  lemma CheckKeepsInv(s: State, saw: bool)
    requires Inv(s) && Enabled(s, Check(saw))
    ensures Inv(CheckNow(s, saw))
  {
    hide Sum;
    WakeKeepsBusy(s.workers);
  }

  lemma PushKeepsInv(s: State)
    requires Inv(s) && Enabled(s, Push)
    ensures Inv(Apply(s, Push))
  {
    hide Sum;
    WakeKeepsBusy(s.workers);
  }

  lemma StopKeepsInv(s: State)
    requires Inv(s) && s.pending == 0
    ensures Inv(StopNow(s))
  {
    hide Sum;
    NothingPendingMeansEmptyChannel(s);
    WakeKeepsBusy(s.workers);
  }

  lemma CoordinatorKeepsInv(s: State, step: Step)
    requires Inv(s) && Enabled(s, step)
    requires step.Check? || step.Push? || step.Finish? || step.SetCancel? || step.RecvFails?
    ensures Inv(Apply(s, step))
  {
    hide Sum, WorkerOk;
    match step
    case Check(saw) => CheckKeepsInv(s, saw);
    case Push => PushKeepsInv(s);
    case Finish => StopKeepsInv(s);
    case RecvFails =>
      RecvFailsOnlyWhenNothingIsPending(s);
      StopKeepsInv(s);
    case SetCancel =>
  }

  lemma StepKeepsInv(s: State, step: Step)
    requires Inv(s) && Enabled(s, step)
    ensures Inv(Apply(s, step))
  {
    match step
    case SetCancel => CoordinatorKeepsInv(s, step);
    case Look(w) => LookKeepsInv(s, w);
    case Spurious(_) => MoveKeepsInv(s, step);
    case Read(_) => MoveKeepsInv(s, step);
    case EndOfDirectory(_) => MoveKeepsInv(s, step);
    case BreakOff(_) => MoveKeepsInv(s, step);
    case SendStarted(_) => SendKeepsInv(s, step);
    case SendFull(_) => SendKeepsInv(s, step);
    case SendLast(_) => SendKeepsInv(s, step);
    case SendDone(_) => SendKeepsInv(s, step);
    case Receive(choices) => ReceiveKeepsInv(s, choices);
    case Check(_) => CoordinatorKeepsInv(s, step);
    case Push => CoordinatorKeepsInv(s, step);
    case Finish => CoordinatorKeepsInv(s, step);
    case RecvFails => CoordinatorKeepsInv(s, step);
  }

  lemma {:induction false} RunKeepsInv(start: State, steps: seq<Step>, s: State)
    requires Inv(start) && Runs(start, steps, s)
    ensures Inv(s)
    decreases steps
  {
    if steps != [] {
      StepKeepsInv(start, steps[0]);
      RunKeepsInv(Apply(start, steps[0]), steps[1..], s);
    }
  }

  predicate SmallBatch(event: Event) { event.Batch? ==> 0 < |event.entries| <= 256 }

  lemma StepKeepsSmall(s: State, step: Step)
    requires Inv(s) && Enabled(s, step) && forall i :: 0 <= i < |s.channel| ==> SmallBatch(s.channel[i].event)
    ensures var s' := Apply(s, step); |s'.workers| == |s.workers| && forall i :: 0 <= i < |s'.channel| ==> SmallBatch(s'.channel[i].event)
  {
    hide Outstanding, Sum;
    if step.SendFull? || step.SendLast? {
      WorkerInOrder(s, step.w);
    }
  }

  lemma {:induction false} RunKeepsSmall(start: State, steps: seq<Step>, s: State)
    requires Inv(start) && Runs(start, steps, s) && forall i :: 0 <= i < |start.channel| ==> SmallBatch(start.channel[i].event)
    ensures |s.workers| == |start.workers| && forall i :: 0 <= i < |s.channel| ==> SmallBatch(s.channel[i].event)
    decreases steps
  {
    if steps != [] {
      StepKeepsInv(start, steps[0]);
      StepKeepsSmall(start, steps[0]);
      RunKeepsSmall(Apply(start, steps[0]), steps[1..], s);
    }
  }

  /** However large the directories, no more than 512 entries for each worker ever wait to be heard: two events
      at most, none with more than 256. A worker with something to send waits only while there are so many. */
  lemma ChannelIsBounded(root: Dir, workers: nat, steps: seq<Step>, s: State)
    requires workers > 0 && Runs(Init(root, workers), steps, s)
    ensures |s.workers| == workers && |s.channel| <= 2 * workers
    ensures forall i :: 0 <= i < |s.channel| && s.channel[i].event.Batch? ==> 0 < |s.channel[i].event.entries| <= 256
    ensures forall w: nat ::
              w < workers &&
              ((s.workers[w].Popped? && !Enabled(s, SendStarted(w))) || (s.workers[w].Flushing? && !Enabled(s, SendFull(w))) ||
               (s.workers[w].Closing? && !Enabled(s, SendLast(w)) && !Enabled(s, SendDone(w)))) ==>
                |s.channel| == 2 * workers
  {
    InitInv(root, workers);
    RunKeepsInv(Init(root, workers), steps, s);
    RunKeepsSmall(Init(root, workers), steps, s);
    forall i | 0 <= i < |s.channel| ensures SmallBatch(s.channel[i].event) {}
  }

  /** In every interleaving, with or without cancellation: `pending` is the number of outstanding
      directories, the loop breaks off early only when that number is zero, and it ends only with nothing queued, no worker inside a
      directory and no event unread. */
  lemma PendingIsExact(root: Dir, workers: nat, steps: seq<Step>, s: State)
    requires workers > 0 && Runs(Init(root, workers), steps, s)
    ensures s.pending == Outstanding(s)
    ensures Enabled(s, RecvFails) ==> s.pending == 0 && s.cancelApplied
    ensures s.control.Finished? ==>
              s.queue == [] && s.channel == [] && forall w :: 0 <= w < |s.workers| ==> BusyWeight(0, s.workers[w]) == 0
  {
    InitInv(root, workers);
    RunKeepsInv(Init(root, workers), steps, s);
    if Enabled(s, RecvFails) {
      RecvFailsOnlyWhenNothingIsPending(s);
    }
    if s.control.Finished? {
      NothingPendingMeansEmptyChannel(s);
    }
  }

  /** Neither saturating subtraction of the coordinator ever clips. */
  lemma SubtractionsNeverClip(root: Dir, workers: nat, steps: seq<Step>, s: State)
    requires workers > 0 && Runs(Init(root, workers), steps, s)
    ensures |s.queue| <= s.pending
    ensures s.control.Waiting? && s.channel != [] && s.channel[0].event.Done? ==> s.pending >= 1
  {
    InitInv(root, workers);
    RunKeepsInv(Init(root, workers), steps, s);
  }

  function BothLeft(): State {
    State([], true, [Exited, Exited], [], 0, true, true, Waiting, [], [[], []])
  }

  lemma BothLeave()
    ensures Runs(BothLeft().(workers := [Idle, Idle]), [Look(0)] + ([Look(1)] + []), BothLeft())
  {
    hide Runs;
    var s := BothLeft().(workers := [Idle, Idle]);
    var s1 := Apply(s, Look(0));
    assert s1.workers == [Exited, Idle];
    assert Apply(s1, Look(1)).workers == [Exited, Exited];
    OneStep(s1, Look(1), [], BothLeft());
    OneStep(s, Look(0), [Look(1)] + [], BothLeft());
  }

  lemma CancelApplies(root: Dir)
    ensures Enabled(Init(root, 2), SetCancel)
    ensures var s1 := Apply(Init(root, 2), SetCancel);
            Enabled(s1, Check(true)) && Apply(s1, Check(true)) == BothLeft().(workers := [Idle, Idle])
  {
    assert Init(root, 2).workers == [Idle, Idle];
  }

  /** The early break does occur: a cancellation applied before any worker has popped empties the queue,
      both workers exit, and recv then finds no sender, with nothing pending. */
  lemma CancelBeforeFirstPopEndsInRecvFailure(root: Dir)
    ensures var steps := [SetCancel, Check(true), Look(0), Look(1)];
            exists s :: Runs(Init(root, 2), steps, s) && Enabled(s, RecvFails) && s.pending == 0 && s.log == []
  {
    hide Runs, Init, Apply;
    CancelApplies(root);
    BothLeave();
    var s0 := Init(root, 2);
    var s1 := Apply(s0, SetCancel);
    OneStep(s1, Check(true), [Look(0)] + ([Look(1)] + []), BothLeft());
    OneStep(s0, SetCancel, [Check(true)] + ([Look(0)] + ([Look(1)] + [])), BothLeft());
    assert [SetCancel] + ([Check(true)] + ([Look(0)] + ([Look(1)] + []))) == [SetCancel, Check(true), Look(0), Look(1)];
    assert Enabled(BothLeft(), RecvFails);
  }

  lemma OneStep(start: State, step: Step, steps: seq<Step>, s: State)
    requires Enabled(start, step) && (if steps == [] then s == Apply(start, step) else Runs(Apply(start, step), steps, s))
    ensures Runs(start, [step] + steps, s)
  {
    assert ([step] + steps)[1..] == steps;
  }
}
