/** What a cancellation does to the walk: from the check that sees the flag on, whatever the interleaving,
    nothing more is taken from the queue and the visitor hears of no more entries. */
module WalkCancellation {
  import opened DirectoryWalk
  import opened WalkSafety

  /** The walk has been stopped by a cancellation. */
  predicate Cancelled(s: State) {
    Inv(s) && s.cancelApplied
  }

  /** What the visitor hears between two states: nothing but starts and ends of directories. */
  ghost predicate OnlyBrackets(log: seq<Tagged>, log': seq<Tagged>) {
    |log| <= |log'| && log'[..|log|] == log && forall i :: |log| <= i < |log'| ==> !log'[i].event.Batch?
  }

  lemma CheckCancels(s: State)
    requires Inv(s) && Enabled(s, Check(true))
    ensures Cancelled(Apply(s, Check(true))) && Apply(s, Check(true)).served == s.served
  {
    StepKeepsInv(s, Check(true));
  }

  lemma StaysCancelled(s: State, step: Step)
    requires Cancelled(s) && Enabled(s, step)
    ensures var s' := Apply(s, step); Cancelled(s') && s'.served == s.served && OnlyBrackets(s.log, s'.log)
  {
    hide Select, Wake;
    StepKeepsInv(s, step);
    if step.Receive? {
      ReceivesNoBatch(s, step.choices);
    }
  }

  lemma ReceivesNoBatch(s: State, choices: seq<bool>)
    requires Cancelled(s) && Enabled(s, Receive(choices))
    ensures var s' := ReceiveNow(s, choices); s'.cancelApplied && s'.served == s.served && OnlyBrackets(s.log, s'.log)
  {
    hide Select, Inv;
  }

  lemma {:induction false} RunStaysCancelled(s: State, steps: seq<Step>, t: State)
    requires Cancelled(s) && Runs(s, steps, t)
    ensures Cancelled(t) && t.served == s.served && OnlyBrackets(s.log, t.log)
    decreases steps
  {
    hide Inv, Apply, Enabled;
    if steps != [] {
      StaysCancelled(s, steps[0]);
      RunStaysCancelled(Apply(s, steps[0]), steps[1..], t);
    }
  }

  /** Once a check of the loop has seen the flag, in any state a run can reach, every later state is stopped
      with an empty queue, no worker has taken another directory, and the visitor has heard no further
      batch: only the ends of directories that had been taken, and starts that were still in flight. */
  lemma CancellationIsFinal(root: Dir, workers: nat, steps: seq<Step>, s: State, more: seq<Step>, t: State)
    requires workers > 0 && Runs(Init(root, workers), steps, s) && Enabled(s, Check(true))
    requires Runs(Apply(s, Check(true)), more, t)
    ensures t.stopped && t.queue == [] && t.served == s.served
    ensures |s.log| <= |t.log| && t.log[..|s.log|] == s.log
    ensures forall i :: |s.log| <= i < |t.log| ==> !t.log[i].event.Batch?
  {
    hide Inv, Apply, Enabled, Runs;
    InitInv(root, workers);
    RunKeepsInv(Init(root, workers), steps, s);
    CheckCancels(s);
    RunStaysCancelled(Apply(s, Check(true)), more, t);
    CancelledMeansStopped(t);
    CheckSaysNothing(s);
  }

  lemma CancelledMeansStopped(s: State)
    requires Cancelled(s)
    ensures s.stopped && s.queue == []
  {
  }

  lemma CheckSaysNothing(s: State)
    requires Enabled(s, Check(true))
    ensures Apply(s, Check(true)).log == s.log
  {
  }
}
