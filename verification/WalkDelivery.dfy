/** Exactly-once delivery: in an uncancelled run every directory the visitor descends into is served
    once, each by one worker that tells its whole script in order, and the visitor sees the same
    multiset of calls as in the serial loop. */
module WalkDelivery {
  import opened Sums
  import opened DirectoryWalk
  import opened WalkSafety
  import opened WalkProgress

  // ---------------------------------------------------------------- what the visitor should see

  function Same<T(==)>(x: T, y: T): nat { if x == y then 1 else 0 }

  function SameEvent(ev: Event, x: Event): nat { Same(ev, x) }

  /** How often `ev` occurs in `es`. */
  function Occ(ev: Event, es: seq<Event>): nat { Sum(SameEvent, ev, es) }

  /** How often the visitor must be called with `ev` for `d` and everything below it. */
  function Visits(descend: Entry -> bool, d: Dir, ev: Event): nat
    decreases d
  {
    Occ(ev, Script(d)) + VisitsBelow(descend, d.entries, ev)
  }

  function VisitsBelow(descend: Entry -> bool, es: seq<Entry>, ev: Event): nat
    decreases es
  {
    if es == [] then 0
    else VisitsAt(descend, es[0], ev) + VisitsBelow(descend, es[1..], ev)
  }

  function VisitsAt(descend: Entry -> bool, e: Entry, ev: Event): nat
    decreases e
  {
    if descend(e) && e.Folder? then Visits(descend, e.dir, ev) else 0
  }

  type Query = (Entry -> bool, Event)

  function VisitsOfDir(q: Query, d: Dir): nat { Visits(q.0, d, q.1) }

  /** Calls an event stands for: itself, and everything below the folders of a batch. */
  function Owes(q: Query, x: Event): nat {
    Same(q.1, x) + (if x.Batch? then VisitsBelow(q.0, x.entries, q.1) else 0)
  }

  function OwesTagged(q: Query, t: Tagged): nat { Owes(q, t.event) }

  /** What a worker has still to send for the directory it holds. */
  function Rest(w: Worker): seq<Event> {
    match w
    case Popped(d) => Script(d)
    case Reading(d, pos, b) => Chunks(d, b + (if pos <= |d.entries| then d.entries[pos..] else [])) + [Done(d, d.failed)]
    case Flushing(d, pos, b) => Chunks(d, b + (if pos <= |d.entries| then d.entries[pos..] else [])) + [Done(d, d.failed)]
    case Closing(d, b, failed) => Chunks(d, b) + [Done(d, failed)]
    case _ => []
  }

  function OwesWorker(q: Query, w: Worker): nat { Sum(Owes, q, Rest(w)) }

  function LogOcc(ev: Event, t: Tagged): nat { Same(ev, t.event) }

  /** Calls made plus calls still owed by every part of the machine. */
  function Ledger(q: Query, s: State): nat {
    Sum(LogOcc, q.1, s.log) + Sum(OwesTagged, q, s.channel) + Sum(OwesWorker, q, s.workers) +
    Sum(VisitsOfDir, q, s.queue) + Sum(VisitsOfDir, q, Kids(s.control))
  }

  lemma {:induction false} VisitsBelowConcat(descend: Entry -> bool, a: seq<Entry>, b: seq<Entry>, ev: Event)
    ensures VisitsBelow(descend, a + b, ev) == VisitsBelow(descend, a, ev) + VisitsBelow(descend, b, ev)
  {
    if a == [] {
      assert a + b == b;
    } else {
      assert (a + b)[1..] == a[1..] + b;
      VisitsBelowConcat(descend, a[1..], b, ev);
    }
  }

  lemma {:induction false} ChunksOwe(q: Query, d: Dir, es: seq<Entry>)
    ensures Sum(Owes, q, Chunks(d, es)) == Occ(q.1, Chunks(d, es)) + VisitsBelow(q.0, es, q.1)
    decreases |es|
  {
    if |es| > RECURSIVE_BATCH_SIZE {
      var a, b := es[..RECURSIVE_BATCH_SIZE], es[RECURSIVE_BATCH_SIZE..];
      assert es == a + b;
      VisitsBelowConcat(q.0, a, b, q.1);
      ChunksOwe(q, d, b);
      SumConcat(Owes, q, [Batch(d, a)], Chunks(d, b));
      SumConcat(SameEvent, q.1, [Batch(d, a)], Chunks(d, b));
      SumOne(Owes, q, Batch(d, a));
      SumOne(SameEvent, q.1, Batch(d, a));
    } else if es != [] {
      SumOne(Owes, q, Batch(d, es));
      SumOne(SameEvent, q.1, Batch(d, es));
    }
  }

  /** A directory's script stands for exactly its visits. */
  lemma ScriptOwes(q: Query, d: Dir)
    ensures Sum(Owes, q, Script(d)) == Visits(q.0, d, q.1)
  {
    var c := Chunks(d, d.entries);
    ChunksOwe(q, d, d.entries);
    SumConcat(Owes, q, [Started(d)] + c, [Done(d, d.failed)]);
    SumConcat(Owes, q, [Started(d)], c);
    SumConcat(SameEvent, q.1, [Started(d)] + c, [Done(d, d.failed)]);
    SumConcat(SameEvent, q.1, [Started(d)], c);
  }

  lemma {:induction false} DescentsOwe(q: Query, es: seq<Entry>)
    ensures Sum(VisitsOfDir, q, Descents(q.0, es)) == VisitsBelow(q.0, es, q.1)
  {
    if es != [] {
      DescentsOwe(q, es[1..]);
      SumConcat(VisitsOfDir, q, if q.0(es[0]) && es[0].Folder? then [es[0].dir] else [], Descents(q.0, es[1..]));
    }
  }

  // ---------------------------------------------------------------- uncancelled stateless runs

  /** The step is taken by a visitor that descends exactly where `descend` says, and nobody cancels. */
  predicate Obeys(descend: Entry -> bool, s: State, step: Step) {
    !step.SetCancel? &&
    (step.Receive? && s.channel != [] && s.channel[0].event.Batch? ==>
       |step.choices| == |s.channel[0].event.entries| &&
       Select(s.channel[0].event.entries, step.choices) == Descents(descend, s.channel[0].event.entries))
  }

  predicate ObedientRun(descend: Entry -> bool, start: State, steps: seq<Step>, s: State)
    decreases steps
  {
    if steps == [] then s == start
    else Enabled(start, steps[0]) && Obeys(descend, start, steps[0]) &&
         ObedientRun(descend, Apply(start, steps[0]), steps[1..], s)
  }

  /** A full batch is the first chunk of whatever it starts. */
  lemma ChunksPeel(d: Dir, batch: seq<Entry>, tail: seq<Entry>)
    requires |batch| == RECURSIVE_BATCH_SIZE
    ensures Chunks(d, batch + tail) == [Batch(d, batch)] + Chunks(d, tail)
  {
    if tail == [] {
      assert batch + tail == batch;
    } else {
      assert (batch + tail)[..RECURSIVE_BATCH_SIZE] == batch && (batch + tail)[RECURSIVE_BATCH_SIZE..] == tail;
    }
  }

  lemma RestAfterFull(d: Dir, pos: nat, b: seq<Entry>)
    requires |b| == RECURSIVE_BATCH_SIZE && pos <= |d.entries|
    ensures Rest(Flushing(d, pos, b)) == [Batch(d, b)] + Rest(Reading(d, pos, []))
  {
    hide Chunks;
    var tail := d.entries[pos..];
    ChunksPeel(d, b, tail);
    assert [] + tail == tail;
  }

  lemma RestAfterLast(d: Dir, b: seq<Entry>, failed: bool)
    requires |b| <= RECURSIVE_BATCH_SIZE
    ensures b != [] ==> Rest(Closing(d, b, failed)) == [Batch(d, b)] + Rest(Closing(d, [], failed))
    ensures Rest(Closing(d, [], failed)) == [Done(d, failed)] + Rest(Idle)
  {
    assert [Done(d, failed)] + [] == [Done(d, failed)];
  }

  lemma RestAfterStarted(d: Dir)
    ensures Rest(Popped(d)) == [Started(d)] + Rest(Reading(d, 0, []))
  {
    assert [] + d.entries[0..] == d.entries;
  }

  /** Sending takes the first event off what the worker still has to tell. */
  lemma RestAfterSend(s: State, step: Step)
    requires Inv(s) && Enabled(s, step)
    requires step.SendStarted? || step.SendFull? || step.SendLast? || step.SendDone?
    ensures var s' := Apply(s, step);
            Rest(s.workers[step.w]) == [s'.channel[|s.channel|].event] + Rest(s'.workers[step.w])
  {
    hide Inv, Rest;
    WorkerInOrder(s, step.w);
    match s.workers[step.w]
    case Popped(d) => RestAfterStarted(d);
    case Flushing(d, pos, b) => RestAfterFull(d, pos, b);
    case Closing(d, b, failed) => RestAfterLast(d, b, failed);
    case _ =>
  }

  /** Reading an entry or closing a directory read to its end changes nothing the worker owes. */
  lemma RestAfterRead(s: State, step: Step)
    requires Inv(s) && Enabled(s, step)
    requires step.Read? || step.EndOfDirectory?
    ensures Rest(Apply(s, step).workers[step.w]) == Rest(s.workers[step.w])
  {
    hide Outstanding, Chunks;
    var r := s.workers[step.w];
    if step.Read? {
      var e := r.dir.entries[r.pos];
      assert r.batch + r.dir.entries[r.pos..] == (r.batch + [e]) + r.dir.entries[r.pos + 1..];
    } else {
      assert r.batch + r.dir.entries[r.pos..] == r.batch;
    }
  }

  lemma WakeKeepsOwed(q: Query, ws: seq<Worker>)
    ensures Sum(OwesWorker, q, Wake(ws)) == Sum(OwesWorker, q, ws)
  {
    SumSame(OwesWorker, q, Wake(ws), ws);
  }

  lemma SendKeepsLedger(q: Query, s: State, step: Step)
    requires Inv(s) && Enabled(s, step)
    requires step.SendStarted? || step.SendFull? || step.SendLast? || step.SendDone?
    ensures Ledger(q, Apply(s, step)) == Ledger(q, s)
  {
    hide Inv, Rest, Ledger;
    var s' := Apply(s, step);
    RestAfterSend(s, step);
    SentIsOwed(q, s, step.w, s'.channel[|s.channel|].event, s'.workers[step.w]);
  }

  /** What a worker sends it owes no longer; the channel owes it instead. */
  lemma SentIsOwed(q: Query, s: State, w: nat, event: Event, to: Worker)
    requires w < |s.workers| && Rest(s.workers[w]) == [event] + Rest(to)
    ensures Ledger(q, Send(s, w, event, to)) == Ledger(q, s)
  {
    hide Rest, Sum, Owes;
    SumUpdate(OwesWorker, q, s.workers, w, to);
    SumAppend(OwesTagged, q, s.channel, Tagged(w, event));
    SumConcat(Owes, q, [event], Rest(to));
    SumOne(Owes, q, event);
  }

  lemma MoveKeepsLedger(q: Query, s: State, step: Step)
    requires Inv(s) && Enabled(s, step)
    requires step.Look? || step.Spurious? || step.Read? || step.EndOfDirectory?
    ensures Ledger(q, Apply(s, step)) == Ledger(q, s)
  {
    hide WorkerOk, Wake;
    var s' := Apply(s, step);
    SumUpdate(OwesWorker, q, s.workers, step.w, s'.workers[step.w]);
    if step.Read? || step.EndOfDirectory? {
      RestAfterRead(s, step);
    } else if step.Look? && s.queue != [] {
      ScriptOwes(q, s.queue[0]);
    }
  }

  lemma ReceiveKeepsLedger(q: Query, s: State, choices: seq<bool>)
    requires Inv(s) && !s.cancel && Enabled(s, Receive(choices)) && Obeys(q.0, s, Receive(choices))
    ensures Ledger(q, ReceiveNow(s, choices)) == Ledger(q, s)
  {
    var t := s.channel[0];
    SumAppend(LogOcc, q.1, s.log, t);
    if t.event.Batch? {
      DescentsOwe(q, t.event.entries);
    }
  }

  lemma StepKeepsLedger(q: Query, s: State, step: Step)
    requires Inv(s) && !s.cancel && Enabled(s, step) && Obeys(q.0, s, step)
    ensures Ledger(q, Apply(s, step)) == Ledger(q, s)
    ensures !Apply(s, step).cancel
  {
    hide VisitsOfDir, Outstanding, OwesTagged;
    match step
    case SendStarted(_) => SendKeepsLedger(q, s, step);
    case SendFull(_) => SendKeepsLedger(q, s, step);
    case SendLast(_) => SendKeepsLedger(q, s, step);
    case SendDone(_) => SendKeepsLedger(q, s, step);
    case Look(_) => MoveKeepsLedger(q, s, step);
    case Spurious(_) => MoveKeepsLedger(q, s, step);
    case Read(_) => MoveKeepsLedger(q, s, step);
    case EndOfDirectory(_) => MoveKeepsLedger(q, s, step);
    case BreakOff(_) =>
    case SetCancel =>
    case Check(_) =>
    case Receive(choices) => ReceiveKeepsLedger(q, s, choices);
    case Push =>
      WakeKeepsOwed(q, s.workers);
      SumConcat(VisitsOfDir, q, s.queue, s.control.kids);
    case RecvFails => RecvFailsOnlyWhenNothingIsPending(s);
    case Finish =>
      WakeKeepsOwed(q, s.workers);
      NothingPendingMeansEmptyChannel(s);
  }

  lemma {:induction false} RunKeepsLedger(q: Query, start: State, steps: seq<Step>, s: State)
    requires Inv(start) && !start.cancel && ObedientRun(q.0, start, steps, s)
    ensures Inv(s) && !s.cancel && Ledger(q, s) == Ledger(q, start)
    decreases steps
  {
    if steps != [] {
      StepKeepsInv(start, steps[0]);
      StepKeepsLedger(q, start, steps[0]);
      RunKeepsLedger(q, Apply(start, steps[0]), steps[1..], s);
    }
  }

  lemma NoBusyWorkerOwesNothing(q: Query, ws: seq<Worker>)
    requires forall w :: 0 <= w < |ws| ==> BusyWeight(0, ws[w]) == 0
    ensures Sum(OwesWorker, q, ws) == 0
  {
    SumBounded(OwesWorker, q, ws, 0);
  }

  /** Once the coordinator leaves its loop, each possible visitor call has been made exactly as often
      as the directory tree below the root demands: nothing lost, nothing twice, in any schedule. */
  lemma EveryVisitHappensExactlyOnce(descend: Entry -> bool, root: Dir, workers: nat, steps: seq<Step>, s: State, ev: Event)
    requires workers > 0 && ObedientRun(descend, Init(root, workers), steps, s) && s.control.Finished?
    ensures Sum(LogOcc, ev, s.log) == Visits(descend, root, ev)
  {
    var q := (descend, ev);
    var init := Init(root, workers);
    InitInv(root, workers);
    RunKeepsLedger(q, init, steps, s);
    NothingPendingMeansEmptyChannel(s);
    NoBusyWorkerOwesNothing(q, s.workers);
    NoBusyWorkerOwesNothing(q, init.workers);
    assert init.queue == [root] && Sum(VisitsOfDir, q, init.queue) == Visits(descend, root, ev);
  }

  // ---------------------------------------------------------------- order within each directory

  function Project(ts: seq<Tagged>, w: nat): seq<Event> {
    if ts == [] then [] else (if ts[0].worker == w then [ts[0].event] else []) + Project(ts[1..], w)
  }

  function Scripts(ds: seq<Dir>): seq<Event> {
    if ds == [] then [] else Script(ds[0]) + Scripts(ds[1..])
  }

  lemma ProjectFirst(t: Tagged, ts: seq<Tagged>, w: nat)
    ensures Project([t] + ts, w) == (if t.worker == w then [t.event] else []) + Project(ts, w)
  {
    assert ([t] + ts)[1..] == ts;
  }

  lemma {:induction false} ProjectConcat(a: seq<Tagged>, b: seq<Tagged>, w: nat)
    ensures Project(a + b, w) == Project(a, w) + Project(b, w)
  {
    if a == [] {
      assert a + b == b;
    } else {
      hide Project;
      var t, rest := a[0], a[1..];
      assert a == [t] + rest && a + b == [t] + (rest + b);
      ProjectFirst(t, rest, w);
      ProjectFirst(t, rest + b, w);
      ProjectConcat(rest, b, w);
    }
  }

  lemma {:induction false} ScriptsConcat(a: seq<Dir>, b: seq<Dir>)
    ensures Scripts(a + b) == Scripts(a) + Scripts(b)
  {
    if a == [] {
      assert a + b == b;
    } else {
      assert (a + b)[1..] == a[1..] + b;
      ScriptsConcat(a[1..], b);
    }
  }

  /** What the visitor has heard from w, what is on its way, and what w still has to tell are together
      the scripts of the directories w took, one after the other. */
  predicate StreamOf(s: State, w: nat)
    requires w < |s.workers| == |s.served|
  {
    Project(s.log + s.channel, w) + Rest(s.workers[w]) == Scripts(s.served[w])
  }

  lemma StreamAfterSend(s: State, s': State, v: nat, w: nat, t: Tagged)
    requires |s.workers| == |s.served| && v < |s.workers| && w < |s.workers| && StreamOf(s, w)
    requires t.worker == v && |s'.workers| == |s.workers| && s'.workers == s.workers[v := s'.workers[v]] && s'.served == s.served
    requires s'.log == s.log && s'.channel == s.channel + [t]
    requires Rest(s.workers[v]) == [t.event] + Rest(s'.workers[v])
    ensures StreamOf(s', w)
  {
    hide Rest, Project;
    assert s'.log + s'.channel == (s.log + s.channel) + [t];
    ProjectConcat(s.log + s.channel, [t], w);
    ProjectOne(t, w);
    var heard := Project(s.log + s.channel, w);
    if v == w {
      assert heard + ([t.event] + Rest(s'.workers[w])) == (heard + [t.event]) + Rest(s'.workers[w]);
    } else {
      assert heard + [] == heard;
    }
  }

  lemma ProjectOne(t: Tagged, w: nat)
    ensures Project([t], w) == if t.worker == w then [t.event] else []
  {
  }

  lemma SendKeepsStream(s: State, step: Step, w: nat)
    requires Inv(s) && w < |s.workers| && Enabled(s, step) && StreamOf(s, w)
    requires step.SendStarted? || step.SendFull? || step.SendLast? || step.SendDone?
    ensures StreamOf(Apply(s, step), w)
  {
    var s' := Apply(s, step);
    RestAfterSend(s, step);
    StreamAfterSend(s, s', step.w, w, s'.channel[|s.channel|]);
  }

  /** A worker takes a directory: it owes the whole script. */
  lemma TakingOwesScript(heard: seq<Event>, rest: seq<Event>, served: seq<Dir>, d: Dir)
    requires heard + rest == Scripts(served) && rest == []
    ensures heard + Rest(Popped(d)) == Scripts(served + [d])
  {
    hide Script;
    ScriptsConcat(served, [d]);
    assert Scripts([d]) == Script(d) + [] == Script(d);
    assert heard + [] == heard;
  }

  lemma LookKeepsStream(s: State, v: nat, w: nat)
    requires Inv(s) && w < |s.workers| && Enabled(s, Look(v)) && StreamOf(s, w)
    ensures StreamOf(LookNow(s, v), w)
  {
    hide Inv, Project, Scripts, Script, Chunks;
    if v == w && !s.stopped && s.queue != [] {
      TakingOwesScript(Project(s.log + s.channel, w), Rest(s.workers[w]), s.served[w], s.queue[0]);
    }
  }

  lemma StepKeepsStream(descend: Entry -> bool, s: State, step: Step, w: nat)
    requires Inv(s) && !s.cancel && w < |s.workers| && Enabled(s, step) && Obeys(descend, s, step) && StreamOf(s, w)
    ensures var s' := Apply(s, step); |s'.workers| == |s.workers| == |s'.served| && StreamOf(s', w)
  {
    hide Project, Outstanding, Scripts, Chunks, Sum, Obeys;
    match step
    case SendStarted(_) => SendKeepsStream(s, step, w);
    case SendFull(_) => SendKeepsStream(s, step, w);
    case SendLast(_) => SendKeepsStream(s, step, w);
    case SendDone(_) => SendKeepsStream(s, step, w);
    case Look(v) => LookKeepsStream(s, v, w);
    case Spurious(_) =>
    case Read(_) => RestAfterRead(s, step);
    case EndOfDirectory(_) => RestAfterRead(s, step);
    case BreakOff(_) =>
    case SetCancel =>
    case Check(_) =>
    case Receive(choices) =>
      assert (s.log + [s.channel[0]]) + s.channel[1..] == s.log + s.channel;
    case Push =>
    case RecvFails => RecvFailsOnlyWhenNothingIsPending(s);
    case Finish =>
  }

  lemma {:induction false} RunKeepsStream(descend: Entry -> bool, start: State, steps: seq<Step>, s: State, w: nat)
    requires Inv(start) && !start.cancel && w < |start.workers| && StreamOf(start, w)
    requires ObedientRun(descend, start, steps, s)
    ensures |s.workers| == |start.workers| == |s.served| && StreamOf(s, w)
    decreases steps
  {
    if steps != [] {
      var ev: Event := Started(Dir("", [], false));
      StepKeepsInv(start, steps[0]);
      StepKeepsLedger((descend, ev), start, steps[0]);
      StepKeepsStream(descend, start, steps[0], w);
      RunKeepsStream(descend, Apply(start, steps[0]), steps[1..], s, w);
    }
  }

  /** At the end each worker's calls are whole scripts: Started, then batches that concatenate to the
      directory's entries (ChunksConcatenate), then Done, never interleaved with another directory. */
  lemma EachWorkerTellsWholeScripts(descend: Entry -> bool, root: Dir, workers: nat, steps: seq<Step>, s: State, w: nat)
    requires w < workers && ObedientRun(descend, Init(root, workers), steps, s) && s.control.Finished?
    ensures w < |s.served| && Project(s.log, w) == Scripts(s.served[w])
  {
    var init := Init(root, workers);
    var q := (descend, Started(root));
    InitInv(root, workers);
    RunKeepsLedger(q, init, steps, s);
    RunKeepsStream(descend, init, steps, s, w);
    NothingPendingMeansEmptyChannel(s);
    assert s.log + s.channel == s.log;
  }

  // ---------------------------------------------------------------- the directories behind the visits

  /** The root and every directory below it that the visitor descends into. */
  function Reached(descend: Entry -> bool, d: Dir): seq<Dir>
    decreases d
  {
    [d] + ReachedBelow(descend, d.entries)
  }

  function ReachedBelow(descend: Entry -> bool, es: seq<Entry>): seq<Dir>
    decreases es
  {
    if es == [] then [] else ReachedAt(descend, es[0]) + ReachedBelow(descend, es[1..])
  }

  function ReachedAt(descend: Entry -> bool, e: Entry): seq<Dir>
    decreases e
  {
    if descend(e) && e.Folder? then Reached(descend, e.dir) else []
  }

  /** The visits owed are the scripts of the reached directories, one each. */
  lemma {:induction false} VisitsAreScripts(descend: Entry -> bool, d: Dir, ev: Event)
    ensures Visits(descend, d, ev) == Occ(ev, Scripts(Reached(descend, d)))
    decreases d
  {
    VisitsBelowAreScripts(descend, d.entries, ev);
    ScriptsConcat([d], ReachedBelow(descend, d.entries));
    assert Scripts([d]) == Script(d) + [] == Script(d);
    SumConcat(SameEvent, ev, Script(d), Scripts(ReachedBelow(descend, d.entries)));
  }

  lemma {:induction false} VisitsBelowAreScripts(descend: Entry -> bool, es: seq<Entry>, ev: Event)
    ensures VisitsBelow(descend, es, ev) == Occ(ev, Scripts(ReachedBelow(descend, es)))
    decreases es
  {
    if es != [] {
      VisitsAtAreScripts(descend, es[0], ev);
      VisitsBelowAreScripts(descend, es[1..], ev);
      ScriptsConcat(ReachedAt(descend, es[0]), ReachedBelow(descend, es[1..]));
      SumConcat(SameEvent, ev, Scripts(ReachedAt(descend, es[0])), Scripts(ReachedBelow(descend, es[1..])));
    }
  }

  lemma {:induction false} VisitsAtAreScripts(descend: Entry -> bool, e: Entry, ev: Event)
    ensures VisitsAt(descend, e, ev) == Occ(ev, Scripts(ReachedAt(descend, e)))
    decreases e
  {
    if descend(e) && e.Folder? {
      VisitsAreScripts(descend, e.dir, ev);
    }
  }

  lemma ScriptStartsOnce(d: Dir, x: Dir)
    ensures Occ(Started(x), Script(d)) == Same(x, d)
  {
    var c := Chunks(d, d.entries);
    ChunksConcatenate(d, d.entries);
    SumConcat(SameEvent, Started(x), [Started(d)] + c, [Done(d, d.failed)]);
    SumConcat(SameEvent, Started(x), [Started(d)], c);
    SumOne(SameEvent, Started(x), Started(d));
    SumOne(SameEvent, Started(x), Done(d, d.failed));
    SumBounded(SameEvent, Started(x), c, 0);
  }

  lemma {:induction false} ScriptsStartEachDirectory(ds: seq<Dir>, x: Dir)
    ensures Occ(Started(x), Scripts(ds)) == multiset(ds)[x]
  {
    if ds != [] {
      ScriptStartsOnce(ds[0], x);
      ScriptsStartEachDirectory(ds[1..], x);
      SumConcat(SameEvent, Started(x), Script(ds[0]), Scripts(ds[1..]));
      assert ds == [ds[0]] + ds[1..];
    }
  }

  /** In a finished uncancelled run each directory is started as often as it occurs among the reached
      ones: once, when paths are distinct. */
  lemma EachDirectoryIsStartedOnce(descend: Entry -> bool, root: Dir, workers: nat, steps: seq<Step>, s: State, x: Dir)
    requires workers > 0 && ObedientRun(descend, Init(root, workers), steps, s) && s.control.Finished?
    ensures Sum(LogOcc, Started(x), s.log) == multiset(Reached(descend, root))[x]
  {
    EveryVisitHappensExactlyOnce(descend, root, workers, steps, s, Started(x));
    VisitsAreScripts(descend, root, Started(x));
    ScriptsStartEachDirectory(Reached(descend, root), x);
  }

  /** The entries carried by a run of events. */
  function EntriesOf(es: seq<Event>): seq<Entry> {
    if es == [] then []
    else (if es[0].Batch? then es[0].entries else []) + EntriesOf(es[1..])
  }

  /** Batches hold 256 entries each, only the last may hold fewer but is not empty, and concatenate to the
      directory's entry list. */
  lemma {:induction false} ChunksConcatenate(d: Dir, es: seq<Entry>)
    ensures EntriesOf(Chunks(d, es)) == es
    ensures forall i :: 0 <= i < |Chunks(d, es)| ==>
              Chunks(d, es)[i].Batch? && Chunks(d, es)[i].dir == d && 0 < |Chunks(d, es)[i].entries| <= 256 &&
              (i < |Chunks(d, es)| - 1 ==> |Chunks(d, es)[i].entries| == 256)
    decreases |es|
  {
    if |es| > RECURSIVE_BATCH_SIZE {
      ChunksConcatenate(d, es[RECURSIVE_BATCH_SIZE..]);
    }
  }

  // ---------------------------------------------------------------- the serial loop

  lemma {:induction false} DescentsCost(descend: Entry -> bool, es: seq<Entry>)
    ensures Sum(DirCost, 0, Descents(descend, es)) <= BelowAll(es)
  {
    if es != [] {
      DescentsCost(descend, es[1..]);
      SumConcat(DirCost, 0, if descend(es[0]) && es[0].Folder? then [es[0].dir] else [], Descents(descend, es[1..]));
    }
  }

  /** Half-way through a directory: what is sent plus what is owed makes up the whole. */
  ghost predicate OnTrack(descend: Entry -> bool, d: Dir, queue: seq<Dir>, log: seq<Event>, left: seq<Entry>,
                          wantQueue: seq<Dir>, wantLog: seq<Event>)
  {
    log + Chunks(d, left) == wantLog && queue + Descents(descend, left) == wantQueue
  }

  lemma FlushStaysOnTrack(descend: Entry -> bool, d: Dir, queue: seq<Dir>, log: seq<Event>,
                          batch: seq<Entry>, tail: seq<Entry>, wantQueue: seq<Dir>, wantLog: seq<Event>)
    requires |batch| == RECURSIVE_BATCH_SIZE
    requires OnTrack(descend, d, queue, log, batch + tail, wantQueue, wantLog)
    ensures OnTrack(descend, d, queue + Descents(descend, batch), log + [Batch(d, batch)], [] + tail, wantQueue, wantLog)
  {
    hide Descents, Chunks;
    DescentsConcat(descend, batch, tail);
    ChunksPeel(d, batch, tail);
    assert [] + tail == tail;
    assert (queue + Descents(descend, batch)) + Descents(descend, tail) == queue + Descents(descend, batch + tail);
    assert (log + [Batch(d, batch)]) + Chunks(d, tail) == log + Chunks(d, batch + tail);
  }

  lemma TrackStarts(descend: Entry -> bool, d: Dir, es: seq<Entry>, queue: seq<Dir>, log: seq<Event>)
    ensures OnTrack(descend, d, queue, log, es, queue + Descents(descend, es), log + Chunks(d, es))
  {
  }

  /** The reader saw the cancellation after `stop` entries. */
  predicate BrokeOff(d: Dir, stop: Option<nat>) { stop.Some? && stop.value <= |d.entries| }

  function ReadOf(d: Dir, stop: Option<nat>): seq<Entry> {
    if BrokeOff(d, stop) then d.entries[..stop.value] else d.entries
  }

  /** What a directory tells that may have been broken off: then its batches end early and no error is reported. */
  function CutScript(d: Dir, stop: Option<nat>): seq<Event> {
    [Started(d)] + Chunks(d, ReadOf(d, stop)) + [Done(d, if BrokeOff(d, stop) then false else d.failed)]
  }

  lemma ScriptIsAll(d: Dir, stop: Option<nat>, log: seq<Event>)
    ensures log + [Started(d)] + Chunks(d, ReadOf(d, stop)) + [Done(d, if BrokeOff(d, stop) then false else d.failed)] ==
            log + CutScript(d, stop)
  {
  }

  lemma LastFlush(descend: Entry -> bool, d: Dir, queue: seq<Dir>, log: seq<Event>, batch: seq<Entry>, wantQueue: seq<Dir>, wantLog: seq<Event>)
    requires |batch| < RECURSIVE_BATCH_SIZE && OnTrack(descend, d, queue, log, batch, wantQueue, wantLog)
    ensures if batch != [] then wantQueue == queue + Descents(descend, batch) && wantLog == log + [Batch(d, batch)]
            else wantQueue == queue && wantLog == log
  {
    assert queue + [] == queue && log + [] == log;
  }

  /** Reading one directory on the calling thread: the visitor hears its script and the queue grows by
      the folders descended into. */
  method ServeSerially(descend: Entry -> bool, d: Dir, stop: Option<nat>, queue0: seq<Dir>, log0: seq<Event>)
    returns (queue: seq<Dir>, log: seq<Event>)
    ensures log == log0 + CutScript(d, stop)
    ensures queue == queue0 + Descents(descend, ReadOf(d, stop))
  {
    hide Descents, Chunks, OnTrack, CutScript, ReadOf;
    var es := ReadOf(d, stop);
    ghost var wantQueue := queue0 + Descents(descend, es);
    ghost var wantLog := log0 + [Started(d)] + Chunks(d, es);
    queue, log := queue0, log0 + [Started(d)];
    var batch: seq<Entry> := [];
    assert batch + es[0..] == es;
    TrackStarts(descend, d, es, queue, log);
    for i := 0 to |es|
      invariant |batch| < RECURSIVE_BATCH_SIZE
      invariant OnTrack(descend, d, queue, log, batch + es[i..], wantQueue, wantLog)
    {
      assert batch + es[i..] == (batch + [es[i]]) + es[i + 1..];
      batch := batch + [es[i]];
      if |batch| >= RECURSIVE_BATCH_SIZE {
        FlushStaysOnTrack(descend, d, queue, log, batch, es[i + 1..], wantQueue, wantLog);
        queue, log := queue + Descents(descend, batch), log + [Batch(d, batch)];
        batch := [];
      }
    }
    assert batch + es[|es|..] == batch;
    assert queue + [] == queue && log + [] == log;
    LastFlush(descend, d, queue, log, batch, wantQueue, wantLog);
    if batch != [] {
      queue, log := queue + Descents(descend, batch), log + [Batch(d, batch)];
    }
    ScriptIsAll(d, stop, log0);
    log := log + [Done(d, if BrokeOff(d, stop) then false else d.failed)];
  }

  lemma {:induction false} DescentsConcat(descend: Entry -> bool, a: seq<Entry>, b: seq<Entry>)
    ensures Descents(descend, a + b) == Descents(descend, a) + Descents(descend, b)
  {
    if a == [] {
      assert a + b == b;
    } else {
      assert (a + b)[1..] == a[1..] + b;
      DescentsConcat(descend, a[1..], b);
    }
  }

  /** The directories' scripts, each cut where `stops` says. */
  function CutScripts(ds: seq<Dir>, stops: nat -> Option<nat>): seq<Event> {
    if ds == [] then [] else CutScripts(ds[..|ds| - 1], stops) + CutScript(ds[|ds| - 1], stops(|ds| - 1))
  }

  lemma OneMoreScript(ds: seq<Dir>, d: Dir, stops: nat -> Option<nat>)
    ensures CutScripts(ds + [d], stops) == CutScripts(ds, stops) + CutScript(d, stops(|ds|))
  {
    assert (ds + [d])[..|ds|] == ds;
  }

  /** The directories found in those, each read as far as `stops` says, in the order they are found. */
  function FoundIn(descend: Entry -> bool, ds: seq<Dir>, stops: nat -> Option<nat>): seq<Dir> {
    if ds == [] then []
    else FoundIn(descend, ds[..|ds| - 1], stops) + Descents(descend, ReadOf(ds[|ds| - 1], stops(|ds| - 1)))
  }

  /** Those read and those in the queue are all that were found, in that order. */
  ghost predicate InOrderFound(descend: Entry -> bool, root: Dir, ds: seq<Dir>, queue: seq<Dir>, stops: nat -> Option<nat>) {
    ds + queue == [root] + FoundIn(descend, ds, stops)
  }

  lemma ReadInOrder(descend: Entry -> bool, root: Dir, ds: seq<Dir>, queue: seq<Dir>, stops: nat -> Option<nat>)
    requires InOrderFound(descend, root, ds, queue, stops)
    ensures ds <= [root] + FoundIn(descend, ds, stops) && (queue == [] ==> ds == [root] + FoundIn(descend, ds, stops))
  {
  }

  lemma OneMoreFound(descend: Entry -> bool, root: Dir, ds: seq<Dir>, d: Dir, rest: seq<Dir>, stops: nat -> Option<nat>)
    requires InOrderFound(descend, root, ds, [d] + rest, stops)
    ensures InOrderFound(descend, root, ds + [d], rest + Descents(descend, ReadOf(d, stops(|ds|))), stops)
  {
    hide Descents, ReadOf;
    assert (ds + [d])[..|ds|] == ds;
    Regroup([root], FoundIn(descend, ds, stops), ds, [d], rest, Descents(descend, ReadOf(d, stops(|ds|))));
  }

  lemma Regroup(head: seq<Dir>, found: seq<Dir>, ds: seq<Dir>, d: seq<Dir>, rest: seq<Dir>, more: seq<Dir>)
    requires ds + (d + rest) == head + found
    ensures (ds + d) + (rest + more) == head + (found + more)
  {
    assert (ds + d) + (rest + more) == (ds + (d + rest)) + more;
  }

  function ReachedAll(descend: Entry -> bool, ds: seq<Dir>): seq<Dir> {
    if ds == [] then [] else Reached(descend, ds[0]) + ReachedAll(descend, ds[1..])
  }

  lemma {:induction false} ReachedAllConcat(descend: Entry -> bool, a: seq<Dir>, b: seq<Dir>)
    ensures ReachedAll(descend, a + b) == ReachedAll(descend, a) + ReachedAll(descend, b)
  {
    if a == [] {
      assert a + b == b;
    } else {
      assert (a + b)[1..] == a[1..] + b;
      ReachedAllConcat(descend, a[1..], b);
    }
  }

  lemma {:induction false} DescentsReach(descend: Entry -> bool, es: seq<Entry>)
    ensures ReachedAll(descend, Descents(descend, es)) == ReachedBelow(descend, es)
  {
    if es != [] {
      DescentsReach(descend, es[1..]);
      var first := if descend(es[0]) && es[0].Folder? then [es[0].dir] else [];
      ReachedAllConcat(descend, first, Descents(descend, es[1..]));
    }
  }

  lemma {:induction false} ReadReachesLess(descend: Entry -> bool, es: seq<Entry>, n: nat)
    requires n <= |es|
    ensures multiset(ReachedBelow(descend, es[..n])) <= multiset(ReachedBelow(descend, es))
    decreases n
  {
    if n > 0 {
      assert es[..n][1..] == es[1..][..n - 1] && es[..n][0] == es[0];
      ReadReachesLess(descend, es[1..], n - 1);
    }
  }

  /** Serving a directory, cut or not, moves it from what is owed to what is done. */
  lemma ServeReaches(descend: Entry -> bool, order: seq<Dir>, d: Dir, stop: Option<nat>, rest: seq<Dir>)
    ensures multiset(order + [d]) + multiset(ReachedAll(descend, rest + Descents(descend, ReadOf(d, stop)))) <=
            multiset(order) + multiset(ReachedAll(descend, [d] + rest))
  {
    var kids := Descents(descend, ReadOf(d, stop));
    ReachedAllConcat(descend, rest, kids);
    DescentsReach(descend, ReadOf(d, stop));
    if BrokeOff(d, stop) {
      ReadReachesLess(descend, d.entries, stop.value);
    }
    ReachedAllConcat(descend, [d], rest);
    assert ReachedAll(descend, [d]) == Reached(descend, d) + [];
  }

  lemma NothingFound(descend: Entry -> bool, root: Dir, stops: nat -> Option<nat>)
    ensures InOrderFound(descend, root, [], [root], stops)
  {
  }

  /** The branch for one worker, first found, first read. `cancelled(i)` is what the check before directory i sees, `stops(i)` where
      the reader of directory i sees the flag, if it does. */
  method SerialWalk(descend: Entry -> bool, root: Dir, cancelled: nat -> bool, stops: nat -> Option<nat>)
    returns (log: seq<Event>, order: seq<Dir>)
    ensures log == CutScripts(order, stops) && forall i :: 0 <= i < |order| ==> !cancelled(i)
    ensures order <= [root] + FoundIn(descend, order, stops) && (order != [root] + FoundIn(descend, order, stops) ==> cancelled(|order|))
    ensures multiset(order) <= multiset(Reached(descend, root))
    ensures !cancelled(|order|) && (forall i :: 0 <= i < |order| ==> stops(i).None?) ==>
              multiset(order) == multiset(Reached(descend, root)) && forall ev :: Occ(ev, log) == Visits(descend, root, ev)
  {
    hide Descents, CutScript, CutScripts, FoundIn, InOrderFound, Reached, ReachedAll, Visits, Occ, Sum, SerialTally, ReadOf;
    var queue := [root];
    log, order := [], [];
    SerialStarts(descend, root, stops);
    NothingFound(descend, root, stops);
    while queue != []
      invariant log == CutScripts(order, stops)
      invariant forall i :: 0 <= i < |order| ==> !cancelled(i)
      invariant InOrderFound(descend, root, order, queue, stops)
      invariant multiset(order) + multiset(ReachedAll(descend, queue)) <= multiset(Reached(descend, root))
      invariant (forall i :: 0 <= i < |order| ==> stops(i).None?) ==> SerialTally(descend, root, log, queue)
      decreases Sum(DirCost, 0, queue)
    {
      var d := queue[0];
      ghost var rest, heard := queue[1..], log;
      assert queue == [d] + rest;
      if cancelled(|order|) {
        break;
      }
      var stop := stops(|order|);
      queue, log := ServeSerially(descend, d, stop, queue[1..], log);
      ServeReaches(descend, order, d, stop, rest);
      ServeCosts(descend, d, stop, rest);
      if stop.None? && SerialTally(descend, root, heard, [d] + rest) {
        ServeKeepsTally(descend, root, d, rest, heard);
      }
      OneMoreScript(order, d, stops);
      OneMoreFound(descend, root, order, d, rest, stops);
      order := order + [d];
    }
    ReadInOrder(descend, root, order, queue, stops);
    if !cancelled(|order|) && forall i :: 0 <= i < |order| ==> stops(i).None? {
      NothingOwed(descend, root, log);
      SerialEnds(descend, root, log, order, stops);
    }
  }

  /** What has been heard and what the queue still owes make up the visits. */
  ghost predicate SerialTally(descend: Entry -> bool, root: Dir, log: seq<Event>, queue: seq<Dir>) {
    forall ev :: Occ(ev, log) + Sum(VisitsOfDir, (descend, ev), queue) == Visits(descend, root, ev)
  }

  lemma SerialStarts(descend: Entry -> bool, root: Dir, stops: nat -> Option<nat>)
    ensures ReachedAll(descend, [root]) == Reached(descend, root) && SerialTally(descend, root, [], [root])
    ensures CutScripts([], stops) == []
  {
    assert ReachedAll(descend, [root]) == Reached(descend, root) + [];
  }

  lemma ServeKeepsTally(descend: Entry -> bool, root: Dir, d: Dir, rest: seq<Dir>, log: seq<Event>)
    requires SerialTally(descend, root, log, [d] + rest)
    ensures SerialTally(descend, root, log + CutScript(d, None), rest + Descents(descend, ReadOf(d, None)))
  {
    assert CutScript(d, None) == Script(d);
    forall ev
      ensures Occ(ev, log + CutScript(d, None)) + Sum(VisitsOfDir, (descend, ev), rest + Descents(descend, d.entries)) == Visits(descend, root, ev)
    {
      var q := (descend, ev);
      assert ([d] + rest)[1..] == rest;
      SumConcat(SameEvent, ev, log, Script(d));
      SumConcat(VisitsOfDir, q, rest, Descents(descend, d.entries));
      DescentsOwe(q, d.entries);
    }
  }

  lemma ServeCosts(descend: Entry -> bool, d: Dir, stop: Option<nat>, rest: seq<Dir>)
    ensures Sum(DirCost, 0, rest + Descents(descend, ReadOf(d, stop))) < Sum(DirCost, 0, [d] + rest)
  {
    SumConcat(DirCost, 0, rest, Descents(descend, ReadOf(d, stop)));
    DescentsCost(descend, ReadOf(d, stop));
    if BrokeOff(d, stop) {
      PrefixCostsLess(d.entries, stop.value);
    }
    CostCoversBelow(d.entries);
    assert ([d] + rest)[1..] == rest;
  }

  lemma {:induction false} PrefixCostsLess(es: seq<Entry>, n: nat)
    requires n <= |es|
    ensures BelowAll(es[..n]) <= BelowAll(es)
    decreases n
  {
    if n > 0 {
      assert es[..n][1..] == es[1..][..n - 1] && es[..n][0] == es[0];
      PrefixCostsLess(es[1..], n - 1);
    }
  }

  /** With nothing cut and nothing left to do, each reached directory was served. */
  lemma {:induction false} SerialEnds(descend: Entry -> bool, root: Dir, log: seq<Event>, order: seq<Dir>, stops: nat -> Option<nat>)
    requires log == CutScripts(order, stops) && forall i :: 0 <= i < |order| ==> stops(i).None?
    requires forall ev :: Occ(ev, log) == Visits(descend, root, ev)
    ensures multiset(order) == multiset(Reached(descend, root))
  {
    hide Visits, Reached, CutScripts, Scripts, Occ;
    UncutScripts(order, stops);
    forall x ensures multiset(order)[x] == multiset(Reached(descend, root))[x] {
      ScriptsStartEachDirectory(order, x);
      VisitsAreScripts(descend, root, Started(x));
      ScriptsStartEachDirectory(Reached(descend, root), x);
    }
  }

  lemma {:induction false} NothingOwed(descend: Entry -> bool, root: Dir, log: seq<Event>)
    requires SerialTally(descend, root, log, [])
    ensures forall ev :: Occ(ev, log) == Visits(descend, root, ev)
  {
    hide Visits, Occ;
    forall ev ensures Occ(ev, log) == Visits(descend, root, ev) {
      assert Occ(ev, log) + Sum(VisitsOfDir, (descend, ev), []) == Visits(descend, root, ev);
    }
  }

  lemma {:induction false} UncutScripts(ds: seq<Dir>, stops: nat -> Option<nat>)
    requires forall i :: 0 <= i < |ds| ==> stops(i).None?
    ensures CutScripts(ds, stops) == Scripts(ds)
  {
    if ds != [] {
      var n := |ds| - 1;
      UncutScripts(ds[..n], stops);
      ScriptsConcat(ds[..n], [ds[n]]);
      assert ds == ds[..n] + [ds[n]];
      assert Scripts([ds[n]]) == Script(ds[n]) + [] == CutScript(ds[n], stops(n));
    }
  }

  lemma {:induction false} CostCoversBelow(es: seq<Entry>)
    ensures BelowAll(es) <= EntriesCost(es)
  {
    if es != [] {
      CostCoversBelow(es[1..]);
    }
  }
}
