/** The order of the walk: directories are taken first come, first served, whichever worker takes them. */
module WalkOrder {
  import opened DirectoryWalk
  import opened WalkSafety

  /** The directory a step adds to what some worker has taken. */
  function TakenAt(s: State, step: Step, s': State): seq<Dir> {
    if step.Look? && step.w < |s.served| == |s'.served| && |s.served[step.w]| <= |s'.served[step.w]|
    then s'.served[step.w][|s.served[step.w]|..] else []
  }

  /** The directories the visitor chooses to descend into when it hears a batch. */
  function FoundAt(s: State, step: Step, s': State): seq<Dir> {
    if |s'.log| > |s.log| && s'.log[|s.log|].event.Batch? && step.Receive? && |s'.log[|s.log|].event.entries| == |step.choices|
    then Select(s'.log[|s.log|].event.entries, step.choices) else []
  }

  /** All directories a run takes, in the order of the run. */
  function Taken(start: State, steps: seq<Step>, s: State): seq<Dir>
    requires Runs(start, steps, s)
    decreases steps
  {
    if steps == [] then []
    else
      var next := Apply(start, steps[0]);
      TakenAt(start, steps[0], next) + Taken(next, steps[1..], s)
  }

  /** All directories a run finds, in the order of the run. */
  function Found(start: State, steps: seq<Step>, s: State): seq<Dir>
    requires Runs(start, steps, s)
    decreases steps
  {
    if steps == [] then []
    else
      var next := Apply(start, steps[0]);
      FoundAt(start, steps[0], next) + Found(next, steps[1..], s)
  }

  /** Directories found but not taken: queued, or about to be queued. */
  function Ahead(s: State): seq<Dir> {
    s.queue + Kids(s.control)
  }

  lemma StepKeepsOrder(s: State, step: Step)
    requires Inv(s) && Enabled(s, step)
    ensures var s' := Apply(s, step);
            !s'.cancelApplied ==> TakenAt(s, step, s') + Ahead(s') == Ahead(s) + FoundAt(s, step, s')
    ensures Apply(s, step).cancelApplied ==> TakenAt(s, step, Apply(s, step)) == []
    ensures s.cancelApplied ==> Apply(s, step).cancelApplied && FoundAt(s, step, Apply(s, step)) == []
  {
    hide Inv, Ahead, Wake;
    match step
    case Look(w) =>
      if s.cancelApplied {
        CancelledIsStopped(s);
      }
      LookKeepsOrder(s, w);
    case Receive(choices) => ReceiveKeepsOrder(s, choices);
    case Finish => StopKeepsOrder(s);
    case RecvFails =>
      RecvFailsOnlyWhenNothingIsPending(s);
      StopKeepsOrder(s);
    case _ => OtherKeepsOrder(s, step);
  }

  lemma CancelledIsStopped(s: State)
    requires Inv(s) && s.cancelApplied
    ensures s.stopped
  {
  }

  lemma LookKeepsOrder(s: State, w: nat)
    requires Inv(s) && Enabled(s, Look(w))
    ensures var s' := LookNow(s, w);
            TakenAt(s, Look(w), s') + Ahead(s') == Ahead(s) && FoundAt(s, Look(w), s') == [] &&
            (s.stopped ==> TakenAt(s, Look(w), s') == [])
  {
    var s' := LookNow(s, w);
    if !s.stopped && s.queue != [] {
      assert TakenAt(s, Look(w), s') == [s.queue[0]];
      assert [s.queue[0]] + (s.queue[1..] + Kids(s.control)) == s.queue + Kids(s.control);
    }
  }

  lemma ReceiveKeepsOrder(s: State, choices: seq<bool>)
    requires Inv(s) && Enabled(s, Receive(choices))
    ensures var s' := ReceiveNow(s, choices);
            TakenAt(s, Receive(choices), s') == [] && Ahead(s') == Ahead(s) + FoundAt(s, Receive(choices), s') &&
            s'.cancelApplied == s.cancelApplied && (s.cancelApplied ==> FoundAt(s, Receive(choices), s') == [])
  {
    hide Inv, Select;
  }

  lemma StopKeepsOrder(s: State)
    requires Inv(s) && s.pending == 0
    ensures Ahead(StopNow(s)) == [] == s.queue && (!s.control.Pushing? ==> Ahead(s) == [])
  {
    NothingPendingMeansEmptyChannel(s);
  }

  lemma OtherKeepsOrder(s: State, step: Step)
    requires Inv(s) && Enabled(s, step)
    requires !step.Look? && !step.Receive? && !step.Finish? && !step.RecvFails?
    ensures var s' := Apply(s, step);
            TakenAt(s, step, s') == [] == FoundAt(s, step, s') &&
            (!s'.cancelApplied ==> Ahead(s') == Ahead(s)) && (s.cancelApplied ==> s'.cancelApplied)
  {
    hide Inv;
  }

  lemma {:induction false} RunKeepsOrder(start: State, steps: seq<Step>, s: State)
    requires Inv(start) && Runs(start, steps, s)
    ensures start.cancelApplied ==> s.cancelApplied && Taken(start, steps, s) == [] == Found(start, steps, s)
    ensures !s.cancelApplied ==> Taken(start, steps, s) + Ahead(s) == Ahead(start) + Found(start, steps, s)
    ensures !start.cancelApplied ==> Taken(start, steps, s) <= Ahead(start) + Found(start, steps, s)
    decreases steps
  {
    hide Inv, Apply, Enabled, Ahead, TakenAt, FoundAt;
    if steps != [] {
      var next := Apply(start, steps[0]);
      StepKeepsInv(start, steps[0]);
      StepKeepsOrder(start, steps[0]);
      RunKeepsOrder(next, steps[1..], s);
      var a, f := TakenAt(start, steps[0], next), FoundAt(start, steps[0], next);
      var b, g := Taken(next, steps[1..], s), Found(next, steps[1..], s);
      if !next.cancelApplied {
        assert a + (b + Ahead(s)) == (a + b) + Ahead(s);
        assert a + (Ahead(next) + g) == (a + Ahead(next)) + g == (Ahead(start) + f) + g == Ahead(start) + (f + g);
        assert b <= Ahead(next) + g;
        PrefixUnder(a, b, Ahead(next) + g);
      } else {
        assert a + b == [];
      }
    }
  }

  lemma PrefixUnder(a: seq<Dir>, b: seq<Dir>, c: seq<Dir>)
    requires b <= c
    ensures a + b <= a + c
  {
  }

  /** The queue serves the workers first come, first served: the directories any run takes are, in order, the
      first of those it finds, the root before all; and unless a cancellation dropped some, the others are
      waiting in that order. */
  lemma TakenInOrderFound(root: Dir, workers: nat, steps: seq<Step>, s: State)
    requires workers > 0 && Runs(Init(root, workers), steps, s)
    ensures Taken(Init(root, workers), steps, s) <= [root] + Found(Init(root, workers), steps, s)
    ensures !s.cancelApplied ==>
              Taken(Init(root, workers), steps, s) + (s.queue + Kids(s.control)) == [root] + Found(Init(root, workers), steps, s)
  {
    InitInv(root, workers);
    RunKeepsOrder(Init(root, workers), steps, s);
    assert Ahead(Init(root, workers)) == [root];
  }
}
