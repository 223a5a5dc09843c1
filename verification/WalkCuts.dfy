/** What one worker tells in any run, cancelled or not: for each directory it took, one script, cut where its
    reader saw the cancellation. The visitor hears all of it but batches that arrive after the
    cancellation was applied. */
module WalkCuts {
  import opened DirectoryWalk
  import opened WalkSafety
  import opened WalkDelivery
  import opened WalkCausality

  /** The scripts of the directories, each cut where its stop says. */
  function Story(ds: seq<Dir>, stops: seq<Option<nat>>): seq<Event>
    requires |ds| == |stops|
  {
    if ds == [] then [] else Story(ds[..|ds| - 1], stops[..|ds| - 1]) + CutScript(ds[|ds| - 1], stops[|ds| - 1])
  }

  /** `some` is `all` without some of its batches. */
  ghost predicate Thinned(some: seq<Event>, all: seq<Event>)
    decreases |all|
  {
    if all == [] then some == []
    else
      var n := |all| - 1;
      (some != [] && some[|some| - 1] == all[n] && Thinned(some[..|some| - 1], all[..n])) ||
      (all[n].Batch? && Thinned(some, all[..n]))
  }

  /** Where a worker is in its directory, given what it has told of it. */
  ghost predicate Midway(w: Worker, told: seq<Event>, stop: Option<nat>) {
    match w
    case Popped(d) => told == [] && stop == None
    case Reading(d, pos, b) => stop == None && ToldUpTo(d, pos, b, told)
    case Flushing(d, pos, b) => stop == None && ToldUpTo(d, pos, b, told)
    case Closing(d, b, failed) => told + (Chunks(d, b) + [Done(d, failed)]) == CutScript(d, stop)
    case _ => told == [] && stop == None
  }

  /** Whole batches have been told, the rest of what was read is in the buffer. */
  ghost predicate ToldUpTo(d: Dir, pos: nat, b: seq<Entry>, told: seq<Event>) {
    |b| <= pos <= |d.entries| && b == d.entries[pos - |b|..pos] && (pos - |b|) % RECURSIVE_BATCH_SIZE == 0 &&
    told == [Started(d)] + Chunks(d, d.entries[..pos - |b|])
  }

  /** What a worker has told: of the directories it has finished, and of the one it holds. */
  datatype Tale = Tale(heard: seq<Event>, stops: seq<Option<nat>>, told: seq<Event>, stop: Option<nat>)

  ghost predicate Tells(s: State, w: nat, x: Tale) {
    w < |s.workers| == |s.served| && |x.stops| <= |s.served[w]| &&
    Took(s.workers[w], s.served[w], |x.stops|) &&
    x.heard + Project(s.channel, w) == Story(s.served[w][..|x.stops|], x.stops) + x.told &&
    Midway(s.workers[w], x.told, x.stop) &&
    Thinned(Project(s.log, w), x.heard) && (!s.cancelApplied ==> Project(s.log, w) == x.heard) &&
    (!s.cancel ==> x.stop == None && forall i :: 0 <= i < |x.stops| ==> x.stops[i] == None)
  }

  /** All but the directory a worker holds are finished. */
  ghost predicate Took(w: Worker, served: seq<Dir>, finished: nat) {
    if Holds(w) then |served| == finished + 1 && served[finished] == w.dir else |served| == finished
  }

  // ---------------------------------------------------------------- chunks

  lemma {:induction false} ChunksSplit(d: Dir, es: seq<Entry>, k: nat)
    requires k <= |es| && k % RECURSIVE_BATCH_SIZE == 0
    ensures Chunks(d, es) == Chunks(d, es[..k]) + Chunks(d, es[k..])
    decreases k
  {
    hide Chunks;
    if k == 0 {
      assert es[..0] == [] && es[0..] == es;
      NoChunks(d);
      assert [] + Chunks(d, es) == Chunks(d, es);
    } else {
      var b, rest := es[..RECURSIVE_BATCH_SIZE], es[RECURSIVE_BATCH_SIZE..];
      ChunksSplit(d, rest, k - RECURSIVE_BATCH_SIZE);
      ChunksPeel(d, b, rest);
      ChunksPeel(d, b, rest[..k - RECURSIVE_BATCH_SIZE]);
      assert es == b + rest && es[..k] == b + rest[..k - RECURSIVE_BATCH_SIZE] && es[k..] == rest[k - RECURSIVE_BATCH_SIZE..];
    }
  }

  lemma NoChunks(d: Dir)
    ensures Chunks(d, []) == []
  {
  }

  lemma OneChunk(d: Dir, b: seq<Entry>)
    requires 0 < |b| <= RECURSIVE_BATCH_SIZE
    ensures Chunks(d, b) == [Batch(d, b)]
  {
  }

  // ---------------------------------------------------------------- one worker's own steps

  /** A worker reads, ends or breaks off: nothing is sent. */
  lemma MidwayAfterRead(s: State, step: Step, told: seq<Event>) returns (stop: Option<nat>)
    requires Inv(s) && Enabled(s, step) && (step.Read? || step.EndOfDirectory? || step.BreakOff?)
    requires Midway(s.workers[step.w], told, None)
    ensures Midway(Apply(s, step).workers[step.w], told, stop) && (stop.Some? ==> s.cancel)
  {
    hide Chunks, Inv, CutScript, ToldUpTo;
    stop := None;
    var r := s.workers[step.w];
    if step.Read? {
      OneMoreRead(r.dir, r.pos, r.batch, told);
    } else if step.EndOfDirectory? {
      ReadToEnd(r.dir, r.batch, told);
    } else {
      stop := Some(r.pos);
      ReadInPart(r.dir, r.pos, r.batch, told);
    }
  }

  lemma OneMoreRead(d: Dir, pos: nat, b: seq<Entry>, told: seq<Event>)
    requires ToldUpTo(d, pos, b, told) && pos < |d.entries|
    ensures ToldUpTo(d, pos + 1, b + [d.entries[pos]], told)
  {
    hide Chunks;
    assert b + [d.entries[pos]] == d.entries[pos - |b|..pos + 1];
  }

  lemma ReadToEnd(d: Dir, b: seq<Entry>, told: seq<Event>)
    requires ToldUpTo(d, |d.entries|, b, told)
    ensures told + (Chunks(d, b) + [Done(d, d.failed)]) == CutScript(d, None)
  {
    hide Chunks;
    var n := |d.entries|;
    assert d.entries[n - |b|..] == b;
    ChunksSplit(d, d.entries, n - |b|);
    ToldAll(d, d.entries, b, told, Done(d, d.failed));
  }

  lemma ReadInPart(d: Dir, pos: nat, b: seq<Entry>, told: seq<Event>)
    requires ToldUpTo(d, pos, b, told)
    ensures told + (Chunks(d, b) + [Done(d, false)]) == CutScript(d, Some(pos))
  {
    hide Chunks;
    var es := d.entries[..pos];
    assert es[..pos - |b|] == d.entries[..pos - |b|] && es[pos - |b|..] == b;
    ChunksSplit(d, es, pos - |b|);
    ToldAll(d, es, b, told, Done(d, false));
  }

  lemma ToldAll(d: Dir, es: seq<Entry>, b: seq<Entry>, told: seq<Event>, done: Event)
    requires |b| <= |es| && told == [Started(d)] + Chunks(d, es[..|es| - |b|])
    requires Chunks(d, es) == Chunks(d, es[..|es| - |b|]) + Chunks(d, b)
    ensures told + (Chunks(d, b) + [done]) == [Started(d)] + Chunks(d, es) + [done]
  {
    hide Chunks;
    Regroup([Started(d)], Chunks(d, es[..|es| - |b|]), Chunks(d, b), [done]);
  }

  lemma Regroup(a: seq<Event>, b: seq<Event>, c: seq<Event>, e: seq<Event>)
    ensures (a + b) + (c + e) == a + (b + c) + e
  {
  }

  /** A worker sends: its event is the next of what it tells. */
  lemma MidwayAfterSend(s: State, step: Step, told: seq<Event>, stop: Option<nat>)
    requires Inv(s) && Enabled(s, step) && (step.SendStarted? || step.SendFull? || step.SendLast?)
    requires Midway(s.workers[step.w], told, stop)
    ensures var s' := Apply(s, step); Midway(s'.workers[step.w], told + [s'.channel[|s.channel|].event], stop)
  {
    hide Inv, Chunks, CutScript;
    WorkerInOrder(s, step.w);
    var r := s.workers[step.w];
    match r
    case Popped(d) =>
      NoChunks(d);
      assert d.entries[..0] == [] && d.entries[0..0] == [];
      assert [] + [Started(d)] == [Started(d)] + [];
    case Flushing(d, pos, b) =>
      ChunksSplit(d, d.entries[..pos], pos - |b|);
      assert d.entries[..pos][..pos - |b|] == d.entries[..pos - |b|] && d.entries[..pos][pos - |b|..] == b;
      OneChunk(d, b);
      assert d.entries[pos..pos] == [];
    case Closing(d, b, failed) =>
      OneChunk(d, b);
      NoChunks(d);
      assert told + ([Batch(d, b)] + [Done(d, failed)]) == (told + [Batch(d, b)]) + ([] + [Done(d, failed)]);
    case _ =>
  }

  lemma StoryAppends(ds: seq<Dir>, stops: seq<Option<nat>>, d: Dir, stop: Option<nat>)
    requires |ds| == |stops|
    ensures Story(ds + [d], stops + [stop]) == Story(ds, stops) + CutScript(d, stop)
  {
    assert (ds + [d])[..|ds|] == ds && (stops + [stop])[..|ds|] == stops;
  }

  // ---------------------------------------------------------------- each step keeps the tale

  lemma ChannelGrows(channel: seq<Tagged>, t: Tagged, w: nat)
    ensures Project(channel + [t], w) == Project(channel, w) + if t.worker == w then [t.event] else []
  {
    ProjectConcat(channel, [t], w);
    ProjectOne(t, w);
  }

  lemma SendTells(s: State, step: Step, w: nat, x: Tale) returns (y: Tale)
    requires Inv(s) && Enabled(s, step) && Tells(s, w, x)
    requires step.SendStarted? || step.SendFull? || step.SendLast?
    ensures Tells(Apply(s, step), w, y)
  {
    hide Inv, Story, Project, Chunks, CutScript, Thinned;
    var s' := Apply(s, step);
    var t := s'.channel[|s.channel|];
    ChannelGrows(s.channel, t, w);
    if step.w == w {
      MidwayAfterSend(s, step, x.told, x.stop);
      y := x.(told := x.told + [t.event]);
      var before, story := Project(s.channel, w), Story(s.served[w][..|x.stops|], x.stops);
      assert x.heard + (before + [t.event]) == (x.heard + before) + [t.event];
      assert (story + x.told) + [t.event] == story + (x.told + [t.event]);
    } else {
      y := x;
      assert Project(s.channel, w) + [] == Project(s.channel, w);
    }
  }

  lemma DoneTells(s: State, v: nat, w: nat, x: Tale) returns (y: Tale)
    requires Inv(s) && Enabled(s, SendDone(v)) && Tells(s, w, x)
    ensures Tells(Apply(s, SendDone(v)), w, y)
  {
    hide Inv, Story, Project, Chunks, CutScript, Thinned;
    var s' := Apply(s, SendDone(v));
    var t := s'.channel[|s.channel|];
    ChannelGrows(s.channel, t, w);
    if v == w {
      var d, n := s.workers[w].dir, |x.stops|;
      NoChunks(d);
      assert [] + [t.event] == [t.event];
      y := Tale(x.heard, x.stops + [x.stop], [], None);
      StoryAppends(s.served[w][..n], x.stops, d, x.stop);
      assert s.served[w] == s.served[w][..n] + [d] == s.served[w][..n + 1];
      var story := Story(s.served[w][..n], x.stops);
      var before := Project(s.channel, w);
      assert x.heard + (before + [t.event]) == (x.heard + before) + [t.event];
      assert (story + x.told) + [t.event] == story + (x.told + [t.event]);
      assert story + CutScript(d, x.stop) == (story + CutScript(d, x.stop)) + [];
    } else {
      y := x;
      assert Project(s.channel, w) + [] == Project(s.channel, w);
    }
  }

  lemma ReadTells(s: State, step: Step, w: nat, x: Tale) returns (y: Tale)
    requires Inv(s) && Enabled(s, step) && Tells(s, w, x)
    requires step.Read? || step.EndOfDirectory? || step.BreakOff?
    ensures Tells(Apply(s, step), w, y)
  {
    hide Inv, Story, Project, Chunks, CutScript, Thinned;
    y := x;
    if step.w == w {
      var stop := MidwayAfterRead(s, step, x.told);
      y := x.(stop := stop);
    }
  }

  lemma LookTells(s: State, v: nat, w: nat, x: Tale)
    requires Inv(s) && Enabled(s, Look(v)) && Tells(s, w, x)
    ensures Tells(Apply(s, Look(v)), w, x)
  {
    hide Inv, Story, Project, Chunks, CutScript, Thinned;
    var s' := Apply(s, Look(v));
    if v == w && !s.stopped && s.queue != [] {
      assert s'.served[w][..|x.stops|] == s.served[w][..|x.stops|];
    }
  }

  lemma ThinnedGrows(some: seq<Event>, all: seq<Event>, e: Event)
    requires Thinned(some, all)
    ensures Thinned(some + [e], all + [e])
    ensures e.Batch? ==> Thinned(some, all + [e])
  {
    assert (all + [e])[..|all|] == all && (some + [e])[..|some|] == some;
  }

  function ByWorker(t: Tagged, w: nat): seq<Event> {
    if t.worker == w then [t.event] else []
  }

  /** The first event of the channel is heard. */
  lemma HearNext(heard: seq<Event>, t: Tagged, rest: seq<Tagged>, w: nat)
    ensures heard + Project([t] + rest, w) == (heard + ByWorker(t, w)) + Project(rest, w)
  {
    hide Project;
    ProjectConcat([t], rest, w);
    ProjectOne(t, w);
    assert heard + (ByWorker(t, w) + Project(rest, w)) == (heard + ByWorker(t, w)) + Project(rest, w);
  }

  /** It is logged, unless it is a batch that is dropped. */
  lemma LogNext(log: seq<Tagged>, t: Tagged, w: nat, heard: seq<Event>, dropped: bool)
    requires Thinned(Project(log, w), heard) && (dropped ==> t.event.Batch?)
    ensures Thinned(Project(if dropped then log else log + [t], w), heard + ByWorker(t, w))
    ensures !dropped && Project(log, w) == heard ==> Project(log + [t], w) == heard + ByWorker(t, w)
  {
    hide Project, Thinned;
    ChannelGrows(log, t, w);
    if t.worker == w {
      ThinnedGrows(Project(log, w), heard, t.event);
    } else {
      assert heard + [] == heard && Project(log, w) + [] == Project(log, w);
    }
  }

  lemma ReceiveTells(s: State, choices: seq<bool>, w: nat, x: Tale) returns (y: Tale)
    requires Inv(s) && Enabled(s, Receive(choices)) && Tells(s, w, x)
    ensures Tells(Apply(s, Receive(choices)), w, y)
  {
    hide Inv, Story, Chunks, CutScript, Thinned, Midway, Select, Project, ByWorker, Took;
    var t := s.channel[0];
    y := x.(heard := x.heard + ByWorker(t, w));
    assert s.channel == [t] + s.channel[1..];
    HearNext(x.heard, t, s.channel[1..], w);
    LogNext(s.log, t, w, x.heard, t.event.Batch? && s.cancelApplied);
  }

  /** Steps that touch neither directories nor events. */
  lemma OtherTells(s: State, step: Step, w: nat, x: Tale)
    requires Inv(s) && Enabled(s, step) && Tells(s, w, x)
    requires step.SetCancel? || step.Spurious? || step.Check? || step.Push? || step.RecvFails? || step.Finish?
    ensures Tells(Apply(s, step), w, x)
  {
    hide Inv, Story, Project, Chunks, CutScript, Thinned;
  }

  lemma StepTells(s: State, step: Step, w: nat, x: Tale) returns (y: Tale)
    requires Inv(s) && Enabled(s, step) && Tells(s, w, x)
    ensures Tells(Apply(s, step), w, y)
  {
    hide Inv, Tells, Apply, Enabled;
    y := x;
    match step {
      case SendStarted(_) => y := SendTells(s, step, w, x);
      case SendFull(_) => y := SendTells(s, step, w, x);
      case SendLast(_) => y := SendTells(s, step, w, x);
      case SendDone(v) => y := DoneTells(s, v, w, x);
      case Read(_) => y := ReadTells(s, step, w, x);
      case EndOfDirectory(_) => y := ReadTells(s, step, w, x);
      case BreakOff(_) => y := ReadTells(s, step, w, x);
      case Look(v) => LookTells(s, v, w, x);
      case Receive(choices) => y := ReceiveTells(s, choices, w, x);
      case _ => OtherTells(s, step, w, x);
    }
  }

  lemma {:induction false} RunTells(start: State, steps: seq<Step>, s: State, w: nat, x: Tale) returns (y: Tale)
    requires Inv(start) && Runs(start, steps, s) && Tells(start, w, x)
    ensures Inv(s) && Tells(s, w, y)
    decreases |steps|
  {
    hide Inv, Tells, Apply, Enabled;
    y := x;
    if steps != [] {
      StepKeepsInv(start, steps[0]);
      var z := StepTells(start, steps[0], w, x);
      y := RunTells(Apply(start, steps[0]), steps[1..], s, w, z);
    }
  }

  // ---------------------------------------------------------------- one Done for each Started

  function StartedIn(es: seq<Event>): seq<Dir> {
    if es == [] then [] else StartedIn(es[..|es| - 1]) + if es[|es| - 1].Started? then [es[|es| - 1].dir] else []
  }

  function DoneIn(es: seq<Event>): seq<Dir> {
    if es == [] then [] else DoneIn(es[..|es| - 1]) + if es[|es| - 1].Done? then [es[|es| - 1].dir] else []
  }

  lemma {:induction false} InConcat(a: seq<Event>, b: seq<Event>)
    ensures StartedIn(a + b) == StartedIn(a) + StartedIn(b) && DoneIn(a + b) == DoneIn(a) + DoneIn(b)
    decreases |b|
  {
    if b == [] {
      assert a + b == a;
    } else {
      assert (a + b)[..|a + b| - 1] == a + b[..|b| - 1];
      InConcat(a, b[..|b| - 1]);
    }
  }

  lemma {:induction false} BatchesOnly(es: seq<Event>)
    requires forall i :: 0 <= i < |es| ==> es[i].Batch?
    ensures StartedIn(es) == [] && DoneIn(es) == []
  {
    if es != [] {
      BatchesOnly(es[..|es| - 1]);
    }
  }

  lemma InCutScript(d: Dir, stop: Option<nat>)
    ensures StartedIn(CutScript(d, stop)) == [d] && DoneIn(CutScript(d, stop)) == [d]
  {
    hide Chunks, ReadOf, StartedIn, DoneIn;
    var chunks := Chunks(d, ReadOf(d, stop));
    ChunksConcatenate(d, ReadOf(d, stop));
    BatchesOnly(chunks);
    var done := Done(d, if BrokeOff(d, stop) then false else d.failed);
    InConcat([Started(d)] + chunks, [done]);
    InConcat([Started(d)], chunks);
    InOne(Started(d));
    InOne(done);
  }

  lemma InOne(e: Event)
    ensures StartedIn([e]) == (if e.Started? then [e.dir] else []) && DoneIn([e]) == (if e.Done? then [e.dir] else [])
  {
    assert [e][..0] == [];
  }

  lemma {:induction false} InStory(ds: seq<Dir>, stops: seq<Option<nat>>)
    requires |ds| == |stops|
    ensures StartedIn(Story(ds, stops)) == ds && DoneIn(Story(ds, stops)) == ds
  {
    hide CutScript;
    if ds != [] {
      var n := |ds| - 1;
      InStory(ds[..n], stops[..n]);
      InConcat(Story(ds[..n], stops[..n]), CutScript(ds[n], stops[n]));
      InCutScript(ds[n], stops[n]);
    }
  }

  lemma {:induction false} ThinningKeeps(some: seq<Event>, all: seq<Event>)
    requires Thinned(some, all)
    ensures StartedIn(some) == StartedIn(all) && DoneIn(some) == DoneIn(all)
    decreases |all|
  {
    if all != [] {
      var n := |all| - 1;
      if some != [] && some[|some| - 1] == all[n] && Thinned(some[..|some| - 1], all[..n]) {
        ThinningKeeps(some[..|some| - 1], all[..n]);
      } else {
        ThinningKeeps(some, all[..n]);
      }
    }
  }

  /** In every finished run, cancelled or not, a worker has told one script for each directory it took, in
      order and each cut at most where its reader saw the flag; the visitor has heard all of it but some
      batches, and those only after the cancellation was applied. So each Started has its Done. */
  lemma EachWorkerTellsCutScripts(root: Dir, workers: nat, steps: seq<Step>, s: State, w: nat)
    returns (heard: seq<Event>, stops: seq<Option<nat>>)
    requires w < workers && Runs(Init(root, workers), steps, s) && s.control.Finished?
    ensures w < |s.served| && |stops| == |s.served[w]| && heard == Story(s.served[w], stops)
    ensures Thinned(Project(s.log, w), heard) && (!s.cancelApplied ==> Project(s.log, w) == heard)
    ensures !s.cancel ==> forall i :: 0 <= i < |stops| ==> stops[i] == None
    ensures StartedIn(Project(s.log, w)) == s.served[w] == DoneIn(Project(s.log, w))
  {
    hide Chunks, Story, Thinned, Project, CutScript;
    InitInv(root, workers);
    var x := Start(root, workers, w);
    var y := RunTells(Init(root, workers), steps, s, w, x);
    NothingPendingMeansEmptyChannel(s);
    heard, stops := y.heard, y.stops;
    assert BusyWeight(0, s.workers[w]) == 0;
    assert s.served[w][..|stops|] == s.served[w];
    NothingInChannel(w);
    assert heard + [] == heard && Story(s.served[w], stops) + [] == Story(s.served[w], stops);
    ThinningKeeps(Project(s.log, w), heard);
    InStory(s.served[w], stops);
  }

  lemma NothingInChannel(w: nat)
    ensures Project([], w) == []
  {
  }

  lemma Start(root: Dir, workers: nat, w: nat) returns (x: Tale)
    requires w < workers
    ensures Tells(Init(root, workers), w, x)
  {
    x := Tale([], [], [], None);
  }
}
