/** Order of the visitor's calls: a directory is heard of only after it was handed out, in every
    interleaving and for any visitor, cancelled or not. */
module WalkCausality {
  import opened DirectoryWalk

  /** The root, or a folder in a batch the visitor has been called with. */
  ghost predicate HandedOut(root: Dir, log: seq<Tagged>, d: Dir) {
    d == root || exists i :: 0 <= i < |log| && log[i].event.Batch? && InBatch(log[i].event.entries, d)
  }

  ghost predicate InBatch(es: seq<Entry>, d: Dir) {
    exists k :: 0 <= k < |es| && es[k].Folder? && es[k].dir == d
  }

  ghost predicate AllHandedOut(root: Dir, log: seq<Tagged>, ds: seq<Dir>) {
    forall i :: 0 <= i < |ds| ==> HandedOut(root, log, ds[i])
  }

  ghost predicate Holds(w: Worker) { w.Popped? || w.Reading? || w.Flushing? || w.Closing? }

  /** Every call so far is for a directory handed out by an earlier one. */
  ghost predicate CallsInOrder(root: Dir, log: seq<Tagged>) {
    forall i :: 0 <= i < |log| ==> HandedOut(root, log[..i], log[i].event.dir)
  }

  /** Everything in the machine was handed out. */
  ghost predicate Caused(root: Dir, s: State) {
    AllHandedOut(root, s.log, s.queue) &&
    (s.control.Pushing? ==> AllHandedOut(root, s.log, s.control.kids)) &&
    (forall w :: 0 <= w < |s.workers| && Holds(s.workers[w]) ==> HandedOut(root, s.log, s.workers[w].dir)) &&
    (forall i :: 0 <= i < |s.channel| ==> HandedOut(root, s.log, s.channel[i].event.dir)) &&
    CallsInOrder(root, s.log)
  }

  lemma StillHandedOut(root: Dir, log: seq<Tagged>, t: Tagged, d: Dir)
    requires HandedOut(root, log, d)
    ensures HandedOut(root, log + [t], d)
  {
    if d != root {
      var i :| 0 <= i < |log| && log[i].event.Batch? && InBatch(log[i].event.entries, d);
      assert (log + [t])[i] == log[i];
    }
  }

  lemma {:induction false} SelectedIsInBatch(es: seq<Entry>, choices: seq<bool>, i: nat)
    requires |es| == |choices| && i < |Select(es, choices)|
    ensures InBatch(es, Select(es, choices)[i])
  {
    if choices[0] && es[0].Folder? && i == 0 {
      assert es[0].dir == Select(es, choices)[i];
    } else {
      var j := if choices[0] && es[0].Folder? then i - 1 else i;
      SelectedIsInBatch(es[1..], choices[1..], j);
      var k :| 0 <= k < |es[1..]| && es[1..][k].Folder? && es[1..][k].dir == Select(es[1..], choices[1..])[j];
      assert es[k + 1] == es[1..][k];
    }
  }

  lemma KidsHandedOut(root: Dir, log: seq<Tagged>, t: Tagged, choices: seq<bool>)
    requires t.event.Batch? && |choices| == |t.event.entries|
    ensures AllHandedOut(root, log + [t], Select(t.event.entries, choices))
  {
    var kids := Select(t.event.entries, choices);
    forall i | 0 <= i < |kids| ensures HandedOut(root, log + [t], kids[i]) {
      SelectedIsInBatch(t.event.entries, choices, i);
      assert (log + [t])[|log|] == t;
    }
  }

  lemma OneMoreCall(root: Dir, log: seq<Tagged>, t: Tagged)
    requires CallsInOrder(root, log) && HandedOut(root, log, t.event.dir)
    ensures CallsInOrder(root, log + [t])
  {
    hide HandedOut;
    forall i | 0 <= i < |log + [t]| ensures HandedOut(root, (log + [t])[..i], (log + [t])[i].event.dir) {
      assert i < |log| ==> (log + [t])[..i] == log[..i];
      assert i == |log| ==> (log + [t])[..i] == log;
    }
  }

  /** The log grows by one call; the rest of the machine is as before. */
  lemma CallKeeps(root: Dir, s: State, t: Tagged)
    requires Caused(root, s) && HandedOut(root, s.log, t.event.dir)
    ensures Caused(root, s.(log := s.log + [t]))
  {
    hide HandedOut;
    OneMoreCall(root, s.log, t);
    forall d | HandedOut(root, s.log, d) ensures HandedOut(root, s.log + [t], d) {
      StillHandedOut(root, s.log, t, d);
    }
  }

  lemma ReceiveKeeps(root: Dir, s: State, choices: seq<bool>)
    requires Caused(root, s) && Enabled(s, Receive(choices))
    ensures Caused(root, ReceiveNow(s, choices))
  {
    hide HandedOut, CallsInOrder, Select;
    var t := s.channel[0];
    assert HandedOut(root, s.log, t.event.dir);
    CallKeeps(root, s, t);
    if t.event.Batch? {
      KidsHandedOut(root, s.log, t, choices);
    }
  }

  lemma StepKeeps(root: Dir, s: State, step: Step)
    requires Caused(root, s) && Enabled(s, step)
    ensures Caused(root, Apply(s, step))
  {
    hide HandedOut, CallsInOrder;
    match step
    case Receive(choices) => ReceiveKeeps(root, s, choices);
    case _ =>
  }

  lemma {:induction false} RunKeeps(root: Dir, start: State, steps: seq<Step>, s: State)
    requires Caused(root, start) && Runs(start, steps, s)
    ensures Caused(root, s)
    decreases |steps|
  {
    if steps != [] {
      StepKeeps(root, start, steps[0]);
      RunKeeps(root, Apply(start, steps[0]), steps[1..], s);
    }
  }

  /** In any run from the start, whatever the visitor chooses and whether or not it is cancelled, each call is
      for the root or for a folder of a batch the visitor was called with before. */
  lemma CallsFollowTheirBatch(root: Dir, workers: nat, steps: seq<Step>, s: State, i: nat)
    requires Runs(Init(root, workers), steps, s) && i < |s.log|
    ensures s.log[i].event.dir == root ||
            exists j :: 0 <= j < i && s.log[j].event.Batch? && InBatch(s.log[j].event.entries, s.log[i].event.dir)
  {
    assert Caused(root, Init(root, workers));
    RunKeeps(root, Init(root, workers), steps, s);
    var d := s.log[i].event.dir;
    assert HandedOut(root, s.log[..i], d);
    if d != root {
      var j :| 0 <= j < |s.log[..i]| && s.log[..i][j].event.Batch? && InBatch(s.log[..i][j].event.entries, d);
      assert s.log[j] == s.log[..i][j];
    }
  }
}
