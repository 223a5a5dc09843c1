/** The scanner's visitor on the walk: whatever the interleaving, the events it is called with come in an order
    its facts can be applied in, and it enters each directory identity once, cycles or not. */
module WalkScan {
  import W = DirectoryWalk
  import M = DiskUsageModel
  import T = DiskUsageTotals
  import R = DiskUsageRemoval
  import opened DiskUsageScan

  /** The scanner's state and the contexts it has made for the walk's directories. `read` below is what the
      platform tables add to an entry. */
  datatype Naming = Naming(scan: Scan, ids: map<W.Dir, Dir>)

  function ReadAll(es: seq<W.Entry>, read: W.Entry -> Entry): seq<Entry> {
    if es == [] then [] else ReadAll(es[..|es| - 1], read) + [read(es[|es| - 1])]
  }

  /** Contexts for the folders entered out of a batch. */
  function AfterBatch(n: Naming, d: Dir, es: seq<W.Entry>, read: W.Entry -> Entry, descendPackages: bool): Naming {
    if es == [] then n
    else
      var m, e := AfterBatch(n, d, es[..|es| - 1], read, descendPackages), es[|es| - 1];
      var kids := EntryChildren(m.scan, d, read(e), descendPackages);
      Naming(AfterEntry(m.scan, d, read(e), descendPackages), if e.Folder? && kids != [] then m.ids[e.dir := kids[0]] else m.ids)
  }

  /** The folders entered out of a batch, in order: what the visitor answers. */
  function Entered(n: Naming, d: Dir, es: seq<W.Entry>, read: W.Entry -> Entry, descendPackages: bool): seq<W.Dir> {
    if es == [] then []
    else
      var m, e := AfterBatch(n, d, es[..|es| - 1], read, descendPackages), es[|es| - 1];
      Entered(n, d, es[..|es| - 1], read, descendPackages) +
      if e.Folder? && EntryChildren(m.scan, d, read(e), descendPackages) != [] then [e.dir] else []
  }

  function Translated(d: Dir, event: W.Event, read: W.Entry -> Entry): Event {
    match event
    case Started(_) => Started(d)
    case Batch(_, es) => Batch(d, ReadAll(es, read))
    case Done(_, _) => Done(d)
  }

  function AfterCall(n: Naming, event: W.Event, read: W.Entry -> Entry, descendPackages: bool): Naming {
    if event.dir !in n.ids then n
    else if event.Batch? then AfterBatch(n, n.ids[event.dir], event.entries, read, descendPackages)
    else n.(scan := AfterEvent(n.scan, Translated(n.ids[event.dir], event, read), descendPackages).scan)
  }

  /** The scanner after a sequence of visitor calls, and the events it took them for. */
  function AfterLog(n: Naming, log: seq<W.Tagged>, read: W.Entry -> Entry, descendPackages: bool): Naming {
    if log == [] then n
    else AfterCall(AfterLog(n, log[..|log| - 1], read, descendPackages), log[|log| - 1].event, read, descendPackages)
  }

  function EventsOf(n: Naming, log: seq<W.Tagged>, read: W.Entry -> Entry, descendPackages: bool): seq<Event> {
    if log == [] then []
    else
      var m, event := AfterLog(n, log[..|log| - 1], read, descendPackages), log[|log| - 1].event;
      EventsOf(n, log[..|log| - 1], read, descendPackages) +
      if event.dir in m.ids then [Translated(m.ids[event.dir], event, read)] else []
  }

  // ---------------------------------------------------------------- runs with this visitor

  /** The visitor answers a batch with the folders the scanner enters. */
  ghost predicate Answers(n: Naming, s: W.State, step: W.Step, read: W.Entry -> Entry, descendPackages: bool) {
    step.Receive? && s.channel != [] && s.channel[0].event.Batch? && !s.cancelApplied ==>
      var m, event := AfterLog(n, s.log, read, descendPackages), s.channel[0].event;
      |step.choices| == |event.entries| &&
      (event.dir in m.ids ==> W.Select(event.entries, step.choices) == Entered(m, m.ids[event.dir], event.entries, read, descendPackages))
  }

  ghost predicate ScannerRun(n: Naming, start: W.State, steps: seq<W.Step>, s: W.State, read: W.Entry -> Entry, descendPackages: bool)
    decreases |steps|
  {
    if steps == [] then s == start
    else W.Enabled(start, steps[0]) && Answers(n, start, steps[0], read, descendPackages) &&
         ScannerRun(n, W.Apply(start, steps[0]), steps[1..], s, read, descendPackages)
  }

  ghost predicate Holds(w: W.Worker) { w.Popped? || w.Reading? || w.Flushing? || w.Closing? }

  /** Every directory in the machine has a context. */
  ghost predicate Named(ids: map<W.Dir, Dir>, s: W.State) {
    (forall i :: 0 <= i < |s.queue| ==> s.queue[i] in ids) &&
    (s.control.Pushing? ==> forall i :: 0 <= i < |s.control.kids| ==> s.control.kids[i] in ids) &&
    (forall w :: 0 <= w < |s.workers| && Holds(s.workers[w]) ==> s.workers[w].dir in ids) &&
    (forall i :: 0 <= i < |s.channel| ==> s.channel[i].event.dir in ids)
  }

  lemma {:induction false} BatchNames(n: Naming, d: Dir, es: seq<W.Entry>, read: W.Entry -> Entry, descendPackages: bool)
    ensures n.ids.Keys <= AfterBatch(n, d, es, read, descendPackages).ids.Keys
    ensures forall x :: x in Entered(n, d, es, read, descendPackages) ==> x in AfterBatch(n, d, es, read, descendPackages).ids
  {
    hide EntryChildren, AfterEntry;
    if es != [] {
      BatchNames(n, d, es[..|es| - 1], read, descendPackages);
    }
  }

  lemma LogStep(n: Naming, log: seq<W.Tagged>, t: W.Tagged, read: W.Entry -> Entry, descendPackages: bool)
    ensures var m := AfterLog(n, log, read, descendPackages);
            AfterLog(n, log + [t], read, descendPackages) == AfterCall(m, t.event, read, descendPackages) &&
            EventsOf(n, log + [t], read, descendPackages) ==
            EventsOf(n, log, read, descendPackages) + if t.event.dir in m.ids then [Translated(m.ids[t.event.dir], t.event, read)] else []
  {
    assert (log + [t])[..|log|] == log;
  }

  lemma CallKeepsNames(n: Naming, event: W.Event, read: W.Entry -> Entry, descendPackages: bool)
    ensures n.ids.Keys <= AfterCall(n, event, read, descendPackages).ids.Keys
  {
    hide AfterBatch, AfterEvent;
    if event.dir in n.ids && event.Batch? {
      BatchNames(n, n.ids[event.dir], event.entries, read, descendPackages);
    }
  }

  lemma NamedStays(ids: map<W.Dir, Dir>, more: map<W.Dir, Dir>, s: W.State)
    requires Named(ids, s) && ids.Keys <= more.Keys
    ensures Named(more, s)
  {
    forall x | x in ids ensures x in more {
      assert x in ids.Keys;
    }
  }

  lemma ReceiveKeepsNamed(n: Naming, s: W.State, choices: seq<bool>, read: W.Entry -> Entry, descendPackages: bool)
    requires W.Enabled(s, W.Receive(choices)) && Answers(n, s, W.Receive(choices), read, descendPackages)
    requires Named(AfterLog(n, s.log, read, descendPackages).ids, s)
    ensures var r := W.ReceiveNow(s, choices); Named(AfterLog(n, r.log, read, descendPackages).ids, r)
  {
    hide AfterLog, EventsOf, AfterBatch, AfterCall, Entered, W.Select;
    var m, t := AfterLog(n, s.log, read, descendPackages), s.channel[0];
    LogStep(n, s.log, t, read, descendPackages);
    CallKeepsNames(m, t.event, read, descendPackages);
    NamedStays(m.ids, AfterCall(m, t.event, read, descendPackages).ids, s);
    if t.event.Batch? {
      BatchNames(m, m.ids[t.event.dir], t.event.entries, read, descendPackages);
      assert AfterCall(m, t.event, read, descendPackages) == AfterBatch(m, m.ids[t.event.dir], t.event.entries, read, descendPackages) by {
        BatchIsCall(m, t.event, read, descendPackages);
      }
    }
  }

  lemma BatchIsCall(n: Naming, event: W.Event, read: W.Entry -> Entry, descendPackages: bool)
    requires event.Batch? && event.dir in n.ids
    ensures AfterCall(n, event, read, descendPackages) == AfterBatch(n, n.ids[event.dir], event.entries, read, descendPackages)
  {
  }

  lemma WorkerStepKeepsNamed(ids: map<W.Dir, Dir>, s: W.State, step: W.Step)
    requires Named(ids, s) && W.Enabled(s, step)
    requires step.Look? || step.Spurious? || step.Read? || step.EndOfDirectory? || step.BreakOff?
    ensures Named(ids, W.Apply(s, step)) && W.Apply(s, step).log == s.log
  {
  }

  lemma SendKeepsNamed(ids: map<W.Dir, Dir>, s: W.State, step: W.Step)
    requires Named(ids, s) && W.Enabled(s, step) && (step.SendStarted? || step.SendFull? || step.SendLast? || step.SendDone?)
    ensures Named(ids, W.Apply(s, step)) && W.Apply(s, step).log == s.log
  {
  }

  /** Every other step only moves directories about. */
  lemma OtherStepKeepsNamed(ids: map<W.Dir, Dir>, s: W.State, step: W.Step)
    requires Named(ids, s) && W.Enabled(s, step) && !step.Receive?
    ensures Named(ids, W.Apply(s, step)) && W.Apply(s, step).log == s.log
  {
    if step.Look? || step.Spurious? || step.Read? || step.EndOfDirectory? || step.BreakOff? {
      hide Named, W.Apply, W.Enabled;
      WorkerStepKeepsNamed(ids, s, step);
    } else if step.SendStarted? || step.SendFull? || step.SendLast? || step.SendDone? {
      hide Named, W.Apply, W.Enabled;
      SendKeepsNamed(ids, s, step);
    }
  }

  lemma StepKeepsNamed(n: Naming, s: W.State, step: W.Step, read: W.Entry -> Entry, descendPackages: bool)
    requires W.Enabled(s, step) && Answers(n, s, step, read, descendPackages)
    requires Named(AfterLog(n, s.log, read, descendPackages).ids, s)
    ensures var r := W.Apply(s, step); Named(AfterLog(n, r.log, read, descendPackages).ids, r)
  {
    hide AfterLog, Named, Answers;
    if step.Receive? {
      ReceiveKeepsNamed(n, s, step.choices, read, descendPackages);
    } else {
      OtherStepKeepsNamed(AfterLog(n, s.log, read, descendPackages).ids, s, step);
    }
  }

  // ---------------------------------------------------------------- the order of the scanner's events

  /** What the scanner knows agrees with the events it has been called with. */
  ghost predicate InStep(n: Naming, known: set<M.NodeId>, log: seq<W.Tagged>, read: W.Entry -> Entry, descendPackages: bool) {
    var m, events := AfterLog(n, log, read, descendPackages), EventsOf(n, log, read, descendPackages);
    var o := AfterEvents(n.scan, events, descendPackages);
    |events| == |log| && m.scan == o.scan && Deliverable(n.scan, known, events, descendPackages) &&
    forall x :: x in m.ids ==> m.ids[x].id in known + Ids(o.children)
  }

  lemma {:induction false} OneMoreEvent(sc: Scan, known: set<M.NodeId>, events: seq<Event>, e: Event, descendPackages: bool)
    requires Deliverable(sc, known, events, descendPackages)
    requires e.dir.id in known + Ids(AfterEvents(sc, events, descendPackages).children)
    ensures Deliverable(sc, known, events + [e], descendPackages)
    ensures var o := AfterEvents(sc, events, descendPackages); var p := AfterEvent(o.scan, e, descendPackages);
            AfterEvents(sc, events + [e], descendPackages).scan == p.scan &&
            Ids(AfterEvents(sc, events + [e], descendPackages).children) == Ids(o.children) + Ids(p.children)
    decreases |events|
  {
    hide AfterEvent;
    if events == [] {
      var p := AfterEvent(sc, e, descendPackages);
      assert [e][1..] == [];
      assert AfterEvents(p.scan, [], descendPackages) == Outcome(p.scan, [], []);
      assert p.children + [] == p.children;
      assert Ids([]) + Ids(p.children) == Ids(p.children);
    } else {
      var o := AfterEvent(sc, events[0], descendPackages);
      assert (events + [e])[1..] == events[1..] + [e];
      var rest := AfterEvents(o.scan, events[1..], descendPackages);
      IdsConcat(o.children, rest.children);
      assert known + Ids(o.children + rest.children) == (known + Ids(o.children)) + Ids(rest.children);
      OneMoreEvent(o.scan, known + Ids(o.children), events[1..], e, descendPackages);
      var after := AfterEvents(o.scan, events[1..] + [e], descendPackages);
      IdsConcat(o.children, after.children);
    }
  }

  lemma IdsConcat(a: seq<Dir>, b: seq<Dir>)
    ensures Ids(a + b) == Ids(a) + Ids(b)
  {
  }

  /** A batch gives the scanner the state, and the walk the contexts, that its event function says. */
  lemma {:induction false} BatchFollows(n: Naming, d: Dir, es: seq<W.Entry>, read: W.Entry -> Entry, descendPackages: bool)
    ensures var m, o := AfterBatch(n, d, es, read, descendPackages), AfterEntries(n.scan, d, ReadAll(es, read), descendPackages);
            m.scan == o.scan && forall x :: x in m.ids ==> (x in n.ids && m.ids[x] == n.ids[x]) || m.ids[x].id in Ids(o.children)
  {
    hide EntryChildren, EntryFacts, AfterEntry;
    if es != [] {
      var front, e := es[..|es| - 1], es[|es| - 1];
      BatchFollows(n, d, front, read, descendPackages);
      var all := ReadAll(es, read);
      assert all[..|all| - 1] == ReadAll(front, read) && all[|all| - 1] == read(e);
      var o := AfterEntries(n.scan, d, ReadAll(front, read), descendPackages);
      IdsConcat(o.children, EntryChildren(o.scan, d, read(e), descendPackages));
    }
  }

  lemma CallFollows(n: Naming, event: W.Event, read: W.Entry -> Entry, descendPackages: bool)
    requires event.dir in n.ids
    ensures var m, o := AfterCall(n, event, read, descendPackages), AfterEvent(n.scan, Translated(n.ids[event.dir], event, read), descendPackages);
            m.scan == o.scan && forall x :: x in m.ids ==> (x in n.ids && m.ids[x] == n.ids[x]) || m.ids[x].id in Ids(o.children)
  {
    hide AfterBatch, AfterEntries, ReadAll;
    if event.Batch? {
      BatchFollows(n, n.ids[event.dir], event.entries, read, descendPackages);
    }
  }

  lemma OneMoreCall(n: Naming, known: set<M.NodeId>, log: seq<W.Tagged>, t: W.Tagged, read: W.Entry -> Entry, descendPackages: bool)
    requires InStep(n, known, log, read, descendPackages) && t.event.dir in AfterLog(n, log, read, descendPackages).ids
    ensures InStep(n, known, log + [t], read, descendPackages)
  {
    hide AfterLog, EventsOf, AfterCall, AfterEvent, AfterEvents, Deliverable, Translated, Ids;
    var m, events := AfterLog(n, log, read, descendPackages), EventsOf(n, log, read, descendPackages);
    var e := Translated(m.ids[t.event.dir], t.event, read);
    assert e.dir == m.ids[t.event.dir] by { SameContext(m.ids[t.event.dir], t.event, read); }
    LogStep(n, log, t, read, descendPackages);
    OneMoreEvent(n.scan, known, events, e, descendPackages);
    CallFollows(m, t.event, read, descendPackages);
  }

  lemma SameContext(d: Dir, event: W.Event, read: W.Entry -> Entry)
    ensures Translated(d, event, read).dir == d
  {
  }

  lemma StepKeepsInStep(n: Naming, known: set<M.NodeId>, s: W.State, step: W.Step, read: W.Entry -> Entry, descendPackages: bool)
    requires W.Enabled(s, step) && Named(AfterLog(n, s.log, read, descendPackages).ids, s)
    requires InStep(n, known, s.log, read, descendPackages)
    ensures InStep(n, known, W.Apply(s, step).log, read, descendPackages)
  {
    hide AfterLog, InStep;
    match step
    case Receive(_) =>
      assert s.channel[0].event.dir in AfterLog(n, s.log, read, descendPackages).ids;
      OneMoreCall(n, known, s.log, s.channel[0], read, descendPackages);
    case _ =>
  }

  lemma {:induction false} RunKeepsInStep(n: Naming, known: set<M.NodeId>, start: W.State, steps: seq<W.Step>, s: W.State,
                                          read: W.Entry -> Entry, descendPackages: bool)
    requires ScannerRun(n, start, steps, s, read, descendPackages)
    requires Named(AfterLog(n, start.log, read, descendPackages).ids, start) && InStep(n, known, start.log, read, descendPackages)
    ensures InStep(n, known, s.log, read, descendPackages)
    decreases |steps|
  {
    hide AfterLog, InStep, Named, Answers, W.Apply, W.Enabled;
    if steps != [] {
      StepKeepsNamed(n, start, steps[0], read, descendPackages);
      StepKeepsInStep(n, known, start, steps[0], read, descendPackages);
      RunKeepsInStep(n, known, W.Apply(start, steps[0]), steps[1..], s, read, descendPackages);
    }
  }

  function Fresh(root: M.NodeId): Scan { Scan(root + 1, {}, {}, Stats(0, 0, 0)) }

  lemma StartsInStep(root: M.NodeId, dir: W.Dir, device: M.Option<nat>, workers: nat, read: W.Entry -> Entry, descendPackages: bool)
    ensures var n, init := Naming(Fresh(root), map[dir := Dir(root, device)]), W.Init(dir, workers);
            Named(AfterLog(n, init.log, read, descendPackages).ids, init) && InStep(n, {root}, init.log, read, descendPackages)
  {
  }

  /** In every run of the walk with the scanner's visitor, finished or not, cancelled or not, the calls are
      deliverable. So the facts they give build a sound tree whose root total is the byte count reported. */
  lemma EveryScanIsDeliverable(root: M.NodeId, dir: W.Dir, device: M.Option<nat>, workers: nat, steps: seq<W.Step>, s: W.State,
                               read: W.Entry -> Entry, descendPackages: bool)
    requires ScannerRun(Naming(Fresh(root), map[dir := Dir(root, device)]), W.Init(dir, workers), steps, s, read, descendPackages)
    ensures var events := EventsOf(Naming(Fresh(root), map[dir := Dir(root, device)]), s.log, read, descendPackages);
            |events| == |s.log| && Deliverable(Fresh(root), {root}, events, descendPackages) &&
            var o := AfterEvents(Fresh(root), events, descendPackages);
            var facts := [M.NodeDiscovered(root, M.Container)] + o.facts;
            M.WellFormed(T.NewTree(root).nodes) && T.Stream(T.NewTree(root), facts) &&
            var t := T.AppliedAll(T.NewTree(root), facts);
            M.Fits(t.nodes) ==>
              R.Sound(t) && root in t.nodes &&
              M.Own(M.Apparent, t.nodes[root]) + M.Below(M.Apparent, t.nodes[root]) == o.scan.stats.bytes
  {
    hide AfterLog, EventsOf, Deliverable, AfterEvents, ScannerRun, W.Init, M.WellFormed, T.Stream, T.AppliedAll, M.Fits, R.Sound;
    var n := Naming(Fresh(root), map[dir := Dir(root, device)]);
    StartsInStep(root, dir, device, workers, read, descendPackages);
    RunKeepsInStep(n, {root}, W.Init(dir, workers), steps, s, read, descendPackages);
    ScannedBytesAreTheRootTotal(root, EventsOf(n, s.log, read, descendPackages), descendPackages);
  }

  // ---------------------------------------------------------------- each identity is entered once

  /** The platform reports identities of directories, and the directory read has one. */
  predicate Identified(d: Dir, es: seq<Entry>) {
    d.device.Some? && forall i :: 0 <= i < |es| ==> IsDir(es[i]) ==> es[i].identity.Some?
  }

  function Identities(es: seq<Entry>): set<(nat, nat)> {
    set e | e in es && e.identity.Some? :: (e.identity.value.device, e.identity.value.file)
  }

  lemma IdentitiesConcat(a: seq<Entry>, b: seq<Entry>)
    ensures Identities(a + b) == Identities(a) + Identities(b)
  {
    assert forall e :: e in a + b <==> e in a || e in b;
  }

  lemma {:induction false} BatchEntersNew(sc: Scan, d: Dir, es: seq<Entry>, descendPackages: bool)
    requires Identified(d, es)
    ensures var o := AfterEntries(sc, d, es, descendPackages);
            |sc.seenDirs| + |o.children| <= |o.scan.seenDirs| && o.scan.seenDirs <= sc.seenDirs + Identities(es) &&
            forall i :: 0 <= i < |o.children| ==> o.children[i].device.Some?
  {
    hide EntryChildren, EntryFacts, AfterEntry, Identities;
    if es != [] {
      var front, e := es[..|es| - 1], es[|es| - 1];
      BatchEntersNew(sc, d, front, descendPackages);
      var o := AfterEntries(sc, d, front, descendPackages);
      assert IsDir(e) ==> e.identity.Some?;
      EntryEntersNew(o.scan, d, e, descendPackages);
      assert es == front + [e];
      IdentitiesConcat(front, [e]);
    }
  }

  lemma IdentitiesOfOne(e: Entry)
    ensures Identities([e]) == if e.identity.Some? then {(e.identity.value.device, e.identity.value.file)} else {}
  {
    assert forall x :: x in [e] <==> x == e;
  }

  lemma Grows<T>(a: set<T>, b: set<T>)
    requires a <= b
    ensures |a| <= |b|
  {
    assert b == a + (b - a);
  }

  lemma EntryEntersNew(sc: Scan, d: Dir, e: Entry, descendPackages: bool)
    requires d.device.Some? && (IsDir(e) ==> e.identity.Some?)
    ensures var after, kids := AfterEntry(sc, d, e, descendPackages), EntryChildren(sc, d, e, descendPackages);
            |sc.seenDirs| + |kids| <= |after.seenDirs| && after.seenDirs <= sc.seenDirs + Identities([e]) &&
            forall i :: 0 <= i < |kids| ==> kids[i].device.Some?
  {
    hide Identities, Sizes;
    IdentitiesOfOne(e);
    var seen := AfterEntry(sc, d, e, descendPackages).seenDirs;
    if !Leaf(sc, d, e, descendPackages) {
      var key := (e.identity.value.device, e.identity.value.file);
      assert key !in sc.seenDirs && seen == sc.seenDirs + {key};
    } else {
      assert seen == sc.seenDirs || (e.identity.Some? && seen == sc.seenDirs + {(e.identity.value.device, e.identity.value.file)});
      Grows(sc.seenDirs, seen);
    }
  }

  ghost predicate AllIdentified(events: seq<Event>) {
    forall i :: 0 <= i < |events| && events[i].Batch? ==> Identified(events[i].dir, events[i].entries)
  }

  function AllIdentities(events: seq<Event>): set<(nat, nat)> {
    if events == [] then {} else (if events[0].Batch? then Identities(events[0].entries) else {}) + AllIdentities(events[1..])
  }

  /** Whatever the events, as many directories are handed out as new identities are seen at most. So a volume
      with cycles is walked as a finite tree: no more directories are entered than it has identities. */
  lemma {:induction false} EachIdentityIsEnteredOnce(sc: Scan, events: seq<Event>, descendPackages: bool)
    requires AllIdentified(events)
    ensures var o := AfterEvents(sc, events, descendPackages);
            |sc.seenDirs| + |o.children| <= |o.scan.seenDirs| && o.scan.seenDirs <= sc.seenDirs + AllIdentities(events)
    decreases |events|
  {
    hide AfterEntries, Identities;
    if events != [] {
      var o := AfterEvent(sc, events[0], descendPackages);
      assert forall i :: 0 <= i < |events[1..]| ==> events[1..][i] == events[i + 1];
      if events[0].Batch? {
        BatchEntersNew(sc, events[0].dir, events[0].entries, descendPackages);
      }
      EachIdentityIsEnteredOnce(o.scan, events[1..], descendPackages);
    }
  }
}
