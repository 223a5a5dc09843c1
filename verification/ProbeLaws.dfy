/** The probe pool over time: how long a key stays taken, what a probe that never comes back costs, which
    thread is used next, and that what a caller got stays so. */
module ProbeLaws {
  import opened ProbePool

  /** No step ends the claim of call c's probe to its key. */
  predicate NeverGivesBack(p: Pool, steps: seq<Step>, c: nat)
    requires Possible(p, steps)
    decreases |steps|
  {
    steps == [] || (!Ends(p, steps[0], c) && NeverGivesBack(Apply(p, steps[0]), steps[1..], c))
  }

  lemma StillHeld(p: Pool, step: Step, c: nat)
    requires PoolOk(p) && Enabled(p, step) && At(p, c) && Unreturned(p, c) && !Ends(p, step, c)
    ensures var r := Apply(p, step); At(r, c) && Unreturned(r, c) && r.calls[c].key == p.calls[c].key
  {
    hide PoolOk, Apply, Enabled, Unreturned, Ends;
    HoldersAfter(p, step);
    assert HolderMoves(p, step, Apply(p, step), c);
  }

  lemma {:induction false} StillHeldAfter(p: Pool, steps: seq<Step>, c: nat)
    requires PoolOk(p) && Possible(p, steps) && At(p, c) && Unreturned(p, c) && NeverGivesBack(p, steps, c)
    ensures var r := After(p, steps); PoolOk(r) && At(r, c) && Unreturned(r, c) && r.calls[c].key == p.calls[c].key
    decreases |steps|
  {
    hide PoolOk, Apply, Enabled, Unreturned, Ends;
    if steps != [] {
      StillHeld(p, steps[0], c);
      StepKeeps(p, steps[0]);
      StillHeldAfter(Apply(p, steps[0]), steps[1..], c);
    }
  }

  lemma AcceptedHolds(p: Pool, c: nat)
    requires PoolOk(p) && Enabled(p, Insert(c)) && p.calls[c].key !in p.inFlight
    ensures var r := Apply(p, Insert(c)); At(r, c) && Unreturned(r, c) && r.calls[c].key == p.calls[c].key
  {
  }

  lemma HeldIsInFlight(p: Pool, c: nat)
    requires PoolOk(p) && At(p, c) && Unreturned(p, c)
    ensures p.calls[c].key in p.inFlight
  {
    hide IdleOk, ClaimsOk, WorkersOk, NoneForgotten;
  }

  /** Once a call has entered its key, every other call for the key is refused in every later state, until the
      probe returns or no thread could be started for it. */
  lemma KeyIsTakenUntilGivenBack(before: seq<Step>, c: nat, steps: seq<Step>, d: nat)
    requires Possible(Empty(), before) && Enabled(After(Empty(), before), Insert(c))
    requires var p := After(Empty(), before);
             p.calls[c].key !in p.inFlight && Possible(Apply(p, Insert(c)), steps) && NeverGivesBack(Apply(p, Insert(c)), steps, c)
    ensures var p := After(Empty(), before); var r := After(Apply(p, Insert(c)), steps);
            Enabled(r, Insert(d)) && r.calls[d].key == p.calls[c].key ==> Apply(r, Insert(d)).calls[d].pc.Refused?
  {
    hide PoolOk, Unreturned, NeverGivesBack;
    var p := After(Empty(), before);
    RunsKeep(Empty(), before);
    AcceptedHolds(p, c);
    StepKeeps(p, Insert(c));
    StillHeldAfter(Apply(p, Insert(c)), steps, c);
    HeldIsInFlight(After(Apply(p, Insert(c)), steps), c);
  }

  /** When it is given back the key is free, and the next call for it is accepted. */
  lemma GivingBackFreesTheKey(p: Pool, step: Step, c: nat)
    requires PoolOk(p) && Enabled(p, step) && At(p, c) && Ends(p, step, c)
    ensures p.calls[c].key in p.inFlight && p.calls[c].key !in Apply(p, step).inFlight
  {
    hide IdleOk, ClaimsOk, NoneForgotten, Apply;
    HoldersAfter(p, step);
    assert HolderMoves(p, step, Apply(p, step), c);
    HeldIsInFlight(p, c);
    KeysAfter(p, step);
  }

  lemma GoneStays(p: Pool, step: Step, w: nat, c: nat)
    requires PoolOk(p) && Enabled(p, step) && w < |p.workers| && p.workers[w].pc == Gone(c)
    ensures var r := Apply(p, step); w < |r.workers| && r.workers[w].pc == Gone(c)
    ensures !Ends(p, step, c)
  {
    hide IdleOk, KeysOk, NoneForgotten, WorkersOk;
    assert WorkerOk(p, w) by { WorkerAt(p, w); }
    assert CallOf(p.workers[w].pc, c);
    if step.Send? {
      ClaimedIsFree(p, step.call);
    }
    if step.Remove? {
      WorkerAt(p, step.worker);
    }
  }

  lemma WorkerAt(p: Pool, w: nat)
    requires PoolOk(p) && w < |p.workers|
    ensures WorkerOk(p, w)
  {
    hide IdleOk, KeysOk, NoneForgotten, ClaimsOk;
  }

  lemma {:induction false} GoneNeverGivesBack(p: Pool, steps: seq<Step>, w: nat, c: nat)
    requires PoolOk(p) && Possible(p, steps) && w < |p.workers| && p.workers[w].pc == Gone(c)
    ensures NeverGivesBack(p, steps, c)
    decreases |steps|
  {
    hide PoolOk, Apply, Enabled, Ends;
    if steps != [] {
      GoneStays(p, steps[0], w, c);
      StepKeeps(p, steps[0]);
      GoneNeverGivesBack(Apply(p, steps[0]), steps[1..], w, c);
    }
  }

  lemma GoneHolds(p: Pool, w: nat, c: nat)
    requires PoolOk(p) && w < |p.workers| && p.workers[w].pc == Gone(c)
    ensures At(p, c) && Unreturned(p, c)
  {
    hide IdleOk, KeysOk, NoneForgotten, ClaimsOk;
    assert WorkerOk(p, w);
    assert CallOf(p.workers[w].pc, c);
  }

  /** A probe that panics takes its key with it: in no later state is another call for the key accepted. */
  lemma PanickedKeyIsLost(before: seq<Step>, w: nat, steps: seq<Step>, d: nat)
    requires Possible(Empty(), before) && Enabled(After(Empty(), before), Panic(w))
    requires Possible(Apply(After(Empty(), before), Panic(w)), steps)
    ensures var p := After(Empty(), before); var r := After(Apply(p, Panic(w)), steps); var c := p.workers[w].pc.call;
            At(p, c) && (Enabled(r, Insert(d)) && r.calls[d].key == p.calls[c].key ==> Apply(r, Insert(d)).calls[d].pc.Refused?)
  {
    hide PoolOk, Unreturned, NeverGivesBack;
    var p := After(Empty(), before);
    RunsKeep(Empty(), before);
    StepKeeps(p, Panic(w));
    var q, c := Apply(p, Panic(w)), p.workers[w].pc.call;
    GoneHolds(q, w, c);
    GoneNeverGivesBack(q, steps, w, c);
    StillHeldAfter(q, steps, c);
    HeldIsInFlight(After(q, steps), c);
  }

  /** Idle threads are a stack: the one that became idle last is used first, and the others stay in order. */
  lemma LastIdleIsUsedFirst(p: Pool, w: nat, c: nat)
    requires Enabled(p, PushIdle(w)) && Enabled(p, PopIdle(c))
    ensures var r := Apply(p, PushIdle(w));
            Enabled(r, PopIdle(c)) && Apply(r, PopIdle(c)).calls[c].pc == Popped(w) && Apply(r, PopIdle(c)).idle == p.idle
  {
  }

  lemma OutcomeStays(p: Pool, step: Step, c: nat)
    requires PoolOk(p) && Enabled(p, step) && At(p, c)
    ensures var r := Apply(p, step);
            At(r, c) && (p.calls[c].outcome != Undecided ==> r.calls[c].outcome == p.calls[c].outcome) &&
            (p.calls[c].answered ==> r.calls[c].answered) && r.calls[c].key == p.calls[c].key
  {
    hide PoolOk;
  }

  /** What a caller got, its answer or nothing by its deadline, no later step takes back. */
  lemma {:induction false} OutcomesAreFinal(p: Pool, steps: seq<Step>, c: nat)
    requires PoolOk(p) && Possible(p, steps) && At(p, c) && p.calls[c].outcome != Undecided
    ensures At(After(p, steps), c) && After(p, steps).calls[c].outcome == p.calls[c].outcome
    decreases |steps|
  {
    hide PoolOk, Apply, Enabled;
    if steps != [] {
      OutcomeStays(p, steps[0], c);
      StepKeeps(p, steps[0]);
      OutcomesAreFinal(Apply(p, steps[0]), steps[1..], c);
    }
  }
}
