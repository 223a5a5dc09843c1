/** Schedules keep the order inside a directory. So totals do not depend on the schedule when the first names
    that the directories hold of a file agree, whatever their later names report. */
module RecursiveDirectories {
  import opened Sums
  import opened DirectoryWalk
  import opened WalkSafety
  import opened WalkDelivery
  import opened RecursiveTotals
  import opened RecursiveOrders

  // ---------------------------------------------------------------- only first names matter

  /** Entry i is the first of its file. */
  predicate FirstAt(es: seq<Entry>, i: nat) {
    i < |es| && forall j :: 0 <= j < i ==> !SameFile(es[j], es[i])
  }

  predicate Fresh(e: Entry, seen: set<(nat, nat)>) {
    e.File? && !(MultiplyLinked(e) && LinkKey(e) in seen)
  }

  lemma {:induction false} FirstNamesDecide(f: Measure, g: Measure, es: seq<Entry>, seen: set<(nat, nat)>)
    requires forall i: nat :: FirstAt(es, i) && Fresh(es[i], seen) ==> f(0, es[i].facts) == g(0, es[i].facts)
    ensures Tallied(f, es, seen) == Tallied(g, es, seen)
    decreases es
  {
    hide Tallied;
    if es == [] {
      NothingTallied(f, seen);
      NothingTallied(g, seen);
    } else {
      var e, rest := es[0], es[1..];
      assert es == [e] + rest;
      assert FirstAt(es, 0);
      TalliedStep(f, e, rest, seen);
      TalliedStep(g, e, rest, seen);
      forall i: nat | FirstAt(rest, i) && Fresh(rest[i], SeenAfter(e, seen)) ensures f(0, rest[i].facts) == g(0, rest[i].facts) {
        assert es[i + 1] == rest[i];
        forall j | 0 <= j < i + 1 ensures !SameFile(es[j], es[i + 1]) {
          if j > 0 {
            assert es[j] == rest[j - 1];
          }
        }
        assert FirstAt(es, i + 1);
      }
      FirstNamesDecide(f, g, rest, SeenAfter(e, seen));
    }
  }

  lemma NothingTallied(f: Measure, seen: set<(nat, nat)>)
    ensures Tallied(f, [], seen) == 0
  {
  }

  /** e is the first name of its file in the directory. */
  ghost predicate FirstIn(d: Dir, e: Entry) {
    exists i: nat :: FirstAt(d.entries, i) && d.entries[i] == e
  }

  ghost predicate FirstName(ds: seq<Dir>, e: Entry) {
    exists d :: d in ds && FirstIn(d, e)
  }

  /** The first names of one file, one for each directory that has any, report one value. */
  ghost predicate AgreeAcross(f: Measure, ds: seq<Dir>) {
    forall a, b :: FirstName(ds, a) && FirstName(ds, b) ==> NoHeavier(f, a, b)
  }

  /** What is first of its file in the list is the first name in its directory. */
  ghost predicate KeepsDirectories(ds: seq<Dir>, es: seq<Entry>) {
    forall i: nat :: FirstAt(es, i) && es[i].File? ==> FirstName(ds, es[i])
  }

  /** The value the first names of a file report. */
  ghost function Agreed(f: Measure, ds: seq<Dir>, facts: Facts): nat {
    if !MultiplyLinked(File(facts)) then f(0, facts)
    else if exists e :: FirstName(ds, e) && SameFile(e, File(facts)) then
      var e :| FirstName(ds, e) && SameFile(e, File(facts)); f(0, e.facts)
    else 0
  }

  lemma AgreedIsShared(f: Measure, ds: seq<Dir>, a: Entry, b: Entry)
    requires AgreeAcross(f, ds) && SameFile(a, b)
    ensures Agreed(f, ds, a.facts) == Agreed(f, ds, b.facts)
  {
    hide FirstName;
    assert a == File(a.facts) && b == File(b.facts);
    forall e ensures SameFile(e, a) <==> SameFile(e, b) {}
    forall x, y | FirstName(ds, x) && FirstName(ds, y) && SameFile(x, a) && SameFile(y, a) ensures f(0, x.facts) == f(0, y.facts) {
      assert NoHeavier(f, x, y) && NoHeavier(f, y, x);
    }
  }

  lemma AgreedOnFirst(f: Measure, ds: seq<Dir>, e: Entry)
    requires AgreeAcross(f, ds) && FirstName(ds, e) && e.File?
    ensures Agreed(f, ds, e.facts) == f(0, e.facts)
  {
    hide FirstName;
    assert e == File(e.facts);
    if MultiplyLinked(e) {
      assert SameFile(e, e);
      forall x | FirstName(ds, x) && SameFile(x, e) ensures f(0, x.facts) == f(0, e.facts) {
        assert NoHeavier(f, x, e) && NoHeavier(f, e, x);
      }
    }
  }

  /** Two orders of the same entries that keep directories have one tally. */
  lemma SameTally(f: Measure, ds: seq<Dir>, es: seq<Entry>, gs: seq<Entry>)
    requires AgreeAcross(f, ds) && Reorders(es, gs) && KeepsDirectories(ds, es) && KeepsDirectories(ds, gs)
    ensures Tallied(f, es, {}) == Tallied(f, gs, {})
  {
    hide Tallied, Agreed, AgreeAcross, FirstName;
    var g: (nat, Facts) -> nat := AgreedMeasure(f, ds);
    TalliedAsAgreed(f, ds, es);
    TalliedAsAgreed(f, ds, gs);
    forall a, b | a in es && b in es ensures NoHeavier(g, a, b) {
      if SameFile(a, b) {
        AgreedIsShared(f, ds, a, b);
      }
    }
    AgreementMakesOrdersLightest(g, es, es);
    AgreementMakesOrdersLightest(g, es, gs);
    LightestFirstIsLeast(g, es, gs, {});
    LightestFirstIsLeast(g, gs, es, {});
  }

  ghost function AgreedMeasure(f: Measure, ds: seq<Dir>): Measure {
    (p: nat, facts: Facts) => Agreed(f, ds, facts)
  }

  lemma TalliedAsAgreed(f: Measure, ds: seq<Dir>, es: seq<Entry>)
    requires AgreeAcross(f, ds) && KeepsDirectories(ds, es)
    ensures Tallied(f, es, {}) == Tallied(AgreedMeasure(f, ds), es, {})
  {
    hide Tallied, Agreed, AgreeAcross, FirstName;
    var g := AgreedMeasure(f, ds);
    forall i: nat | FirstAt(es, i) && Fresh(es[i], {}) ensures f(0, es[i].facts) == g(0, es[i].facts) {
      AgreedOnFirst(f, ds, es[i]);
    }
    FirstNamesDecide(f, g, es, {});
  }

  // ---------------------------------------------------------------- runs keep the order inside a directory

  /** The first n entries of the directory are carried by these events. */
  ghost predicate Carried(d: Dir, n: nat, es: seq<Event>) {
    n <= |d.entries| && forall k :: 0 <= k < n ==> d.entries[k] in EntriesOf(es)
  }

  /** A batch is a stretch of its directory, and what stands before it there came before it. */
  ghost predicate InPlace(ev: Event, before: seq<Event>) {
    ev.Batch? ==> exists a: nat :: Stretch(ev, a) && Carried(ev.dir, a, before)
  }

  predicate Stretch(ev: Event, a: nat)
    requires ev.Batch?
  {
    a + |ev.entries| <= |ev.dir.entries| && ev.entries == ev.dir.entries[a..a + |ev.entries|]
  }

  ghost predicate AllInPlace(es: seq<Event>) {
    forall m :: 0 <= m < |es| ==> InPlace(es[m], es[..m])
  }

  ghost predicate WorkerInPlace(w: Worker, es: seq<Event>) {
    match w
    case Reading(d, pos, b) => |b| <= pos <= |d.entries| && b == d.entries[pos - |b|..pos] && Carried(d, pos - |b|, es)
    case Flushing(d, pos, b) => |b| <= pos <= |d.entries| && b == d.entries[pos - |b|..pos] && Carried(d, pos - |b|, es)
    case Closing(d, b, _) => |b| <= |d.entries| && b == d.entries[|d.entries| - |b|..] && Carried(d, |d.entries| - |b|, es)
    case _ => true
  }

  ghost predicate Paced(s: State) {
    AllInPlace(Events(s.log + s.channel)) &&
    forall w :: 0 <= w < |s.workers| ==> WorkerInPlace(s.workers[w], Events(s.log + s.channel))
  }

  lemma {:induction false} EventsAppend(log: seq<Tagged>, t: Tagged)
    ensures Events(log + [t]) == Events(log) + [t.event]
  {
    if log == [] {
      assert [] + [t] == [t] && [t][1..] == [];
    } else {
      assert (log + [t])[1..] == log[1..] + [t];
      EventsAppend(log[1..], t);
    }
  }

  lemma MoreIsCarried(d: Dir, n: nat, es: seq<Event>, ev: Event)
    requires Carried(d, n, es)
    ensures Carried(d, n, es + [ev])
    ensures ev.Batch? && ev.dir == d && Stretch(ev, n) ==> Carried(d, n + |ev.entries|, es + [ev])
  {
    EntriesOfConcat(es, [ev]);
    assert [ev][1..] == [];
    assert EntriesOf([ev]) == (if ev.Batch? then ev.entries else []) + [];
    if ev.Batch? && ev.dir == d && Stretch(ev, n) {
      forall k | n <= k < n + |ev.entries| ensures d.entries[k] in ev.entries {
        assert ev.entries[k - n] == d.entries[k];
      }
    }
  }

  lemma OneMoreInPlace(es: seq<Event>, ev: Event)
    requires AllInPlace(es) && InPlace(ev, es)
    ensures AllInPlace(es + [ev])
  {
    hide InPlace;
    forall m | 0 <= m < |es + [ev]| ensures InPlace((es + [ev])[m], (es + [ev])[..m]) {
      assert m < |es| ==> (es + [ev])[..m] == es[..m];
      assert m == |es| ==> (es + [ev])[..m] == es;
    }
  }

  lemma OthersStayInPlace(w: Worker, es: seq<Event>, ev: Event)
    requires WorkerInPlace(w, es)
    ensures WorkerInPlace(w, es + [ev])
  {
    hide Carried;
    match w
    case Reading(d, pos, b) => MoreIsCarried(d, pos - |b|, es, ev);
    case Flushing(d, pos, b) => MoreIsCarried(d, pos - |b|, es, ev);
    case Closing(d, b, _) => MoreIsCarried(d, |d.entries| - |b|, es, ev);
    case _ =>
  }

  /** The sender: its event is in place, and so is what it does next. */
  lemma SenderInPlace(s: State, step: Step, es: seq<Event>)
    requires Enabled(s, step) && (step.SendStarted? || step.SendFull? || step.SendLast? || step.SendDone?)
    requires WorkerInPlace(s.workers[step.w], es)
    ensures var r := Apply(s, step); var ev := r.channel[|s.channel|].event;
            InPlace(ev, es) && WorkerInPlace(r.workers[step.w], es + [ev])
  {
    hide InPlace, WorkerInPlace;
    match s.workers[step.w]
    case Popped(d) => NothingCarried(d, es + [Started(d)]);
    case Flushing(d, pos, b) => FullBatchInPlace(d, pos, b, es);
    case Closing(d, b, failed) => LastBatchInPlace(d, b, failed, es);
    case _ =>
  }

  lemma FullBatchInPlace(d: Dir, pos: nat, b: seq<Entry>, es: seq<Event>)
    requires WorkerInPlace(Flushing(d, pos, b), es)
    ensures InPlace(Batch(d, b), es) && WorkerInPlace(Reading(d, pos, []), es + [Batch(d, b)])
  {
    hide Carried;
    assert Stretch(Batch(d, b), pos - |b|);
    MoreIsCarried(d, pos - |b|, es, Batch(d, b));
  }

  lemma LastBatchInPlace(d: Dir, b: seq<Entry>, failed: bool, es: seq<Event>)
    requires WorkerInPlace(Closing(d, b, failed), es)
    ensures InPlace(Batch(d, b), es) && WorkerInPlace(Closing(d, [], failed), es + [Batch(d, b)])
    ensures InPlace(Done(d, failed), es) && WorkerInPlace(Idle, es + [Done(d, failed)])
  {
    hide Carried;
    assert Stretch(Batch(d, b), |d.entries| - |b|);
    MoreIsCarried(d, |d.entries| - |b|, es, Batch(d, b));
  }

  lemma NothingCarried(d: Dir, es: seq<Event>)
    ensures Carried(d, 0, es) && WorkerInPlace(Reading(d, 0, []), es) && forall before :: InPlace(Started(d), before)
  {
  }

  lemma SendKeepsPaced(s: State, step: Step)
    requires Enabled(s, step) && Paced(s) && (step.SendStarted? || step.SendFull? || step.SendLast? || step.SendDone?)
    ensures Paced(Apply(s, step))
  {
    hide InPlace, AllInPlace, WorkerInPlace, Events;
    var r := Apply(s, step);
    var t, es := r.channel[|s.channel|], Events(s.log + s.channel);
    assert r.log + r.channel == (s.log + s.channel) + [t];
    EventsAppend(s.log + s.channel, t);
    SenderInPlace(s, step, es);
    OneMoreInPlace(es, t.event);
    forall w | 0 <= w < |r.workers| ensures WorkerInPlace(r.workers[w], es + [t.event]) {
      if w != step.w {
        OthersStayInPlace(s.workers[w], es, t.event);
      }
    }
  }

  lemma ReadKeepsInPlace(s: State, step: Step, es: seq<Event>)
    requires Enabled(s, step) && (step.Read? || step.EndOfDirectory?) && WorkerInPlace(s.workers[step.w], es)
    ensures WorkerInPlace(Apply(s, step).workers[step.w], es)
  {
    hide Carried;
    var r := s.workers[step.w];
    if step.Read? {
      assert r.batch + [r.dir.entries[r.pos]] == r.dir.entries[r.pos - |r.batch|..r.pos + 1];
    }
  }

  lemma StepKeepsPaced(descend: Entry -> bool, s: State, step: Step)
    requires Inv(s) && !s.cancel && Enabled(s, step) && Obeys(descend, s, step) && Paced(s)
    ensures Paced(Apply(s, step))
  {
    hide AllInPlace, WorkerInPlace, Events, Outstanding;
    match step {
      case SendStarted(_) => SendKeepsPaced(s, step);
      case SendFull(_) => SendKeepsPaced(s, step);
      case SendLast(_) => SendKeepsPaced(s, step);
      case SendDone(_) => SendKeepsPaced(s, step);
      case Read(_) => ReadKeepsInPlace(s, step, Events(s.log + s.channel));
      case EndOfDirectory(_) => ReadKeepsInPlace(s, step, Events(s.log + s.channel));
      case Receive(_) => assert (s.log + [s.channel[0]]) + s.channel[1..] == s.log + s.channel;
      case _ => OtherKeepsPaced(s, step);
    }
  }

  lemma OtherKeepsPaced(s: State, step: Step)
    requires Enabled(s, step) && Paced(s)
    requires step.SetCancel? || step.Look? || step.Spurious? || step.BreakOff? || step.Check? || step.Push? || step.RecvFails? || step.Finish?
    requires !s.cancel
    ensures Paced(Apply(s, step))
  {
    hide AllInPlace, Events, Carried;
  }

  lemma {:induction false} RunKeepsPaced(descend: Entry -> bool, start: State, steps: seq<Step>, s: State)
    requires Inv(start) && !start.cancel && Paced(start) && ObedientRun(descend, start, steps, s)
    ensures Paced(s)
    decreases steps
  {
    hide Inv, Paced, Apply, Enabled, Obeys;
    if steps != [] {
      StepKeepsInv(start, steps[0]);
      StepKeepsLedger((descend, Started(Dir("", [], false))), start, steps[0]);
      StepKeepsPaced(descend, start, steps[0]);
      RunKeepsPaced(descend, Apply(start, steps[0]), steps[1..], s);
    }
  }

  lemma StartIsPaced(root: Dir, workers: nat)
    ensures Paced(Init(root, workers))
  {
  }

  // ---------------------------------------------------------------- from events to entries

  /** Where an entry of the flattened list comes from. */
  lemma {:induction false} Locate(es: seq<Event>, i: nat) returns (m: nat, r: nat)
    requires i < |EntriesOf(es)|
    ensures m < |es| && es[m].Batch? && r < |es[m].entries| && es[m].entries[r] == EntriesOf(es)[i]
    ensures EntriesOf(es)[..i] == EntriesOf(es[..m]) + es[m].entries[..r]
    decreases |es|
  {
    var n := |es| - 1;
    var front, last := es[..n], es[n];
    assert es == front + [last];
    EntriesOfConcat(front, [last]);
    assert [last][1..] == [];
    assert EntriesOf([last]) == (if last.Batch? then last.entries else []) + [];
    if i < |EntriesOf(front)| {
      m, r := Locate(front, i);
      assert es[..m] == front[..m];
      assert EntriesOf(es)[..i] == EntriesOf(front)[..i];
    } else {
      m, r := n, i - |EntriesOf(front)|;
      assert EntriesOf(es)[..i] == EntriesOf(front) + last.entries[..r];
    }
  }

  lemma FirstHeardIsFirstThere(es: seq<Event>, i: nat, m: nat, r: nat)
    requires AllInPlace(es) && FirstAt(EntriesOf(es), i)
    requires m < |es| && es[m].Batch? && r < |es[m].entries| && es[m].entries[r] == EntriesOf(es)[i]
    requires EntriesOf(es)[..i] == EntriesOf(es[..m]) + es[m].entries[..r]
    ensures FirstIn(es[m].dir, EntriesOf(es)[i])
  {
    hide EntriesOf;
    var d, b, e := es[m].dir, es[m].entries, EntriesOf(es)[i];
    assert InPlace(es[m], es[..m]);
    var a: nat :| Stretch(es[m], a) && Carried(d, a, es[..m]);
    forall q | 0 <= q < a + r ensures !SameFile(d.entries[q], e) {
      if q < a {
        assert d.entries[q] in EntriesOf(es[..m]);
      } else {
        assert d.entries[q] == b[..r][q - a];
      }
      assert d.entries[q] in EntriesOf(es)[..i];
    }
    assert d.entries[a + r] == b[r];
    assert FirstAt(d.entries, a + r);
  }

  lemma {:induction false} InScripts(ds: seq<Dir>, ev: Event)
    requires ev in Scripts(ds)
    ensures ev.dir in ds
  {
    hide Script;
    if ev in Script(ds[0]) {
      InScript(ds[0], ev);
    } else {
      InScripts(ds[1..], ev);
    }
  }

  lemma InScript(d: Dir, ev: Event)
    requires ev in Script(d)
    ensures ev.dir == d
  {
    ChunksConcatenate(d, d.entries);
  }

  /** The visitor only hears of directories it reaches. */
  lemma HeardIsReached(descend: Entry -> bool, root: Dir, workers: nat, steps: seq<Step>, s: State, m: nat)
    requires workers > 0 && ObedientRun(descend, Init(root, workers), steps, s) && s.control.Finished? && m < |Events(s.log)|
    ensures Events(s.log)[m].dir in Reached(descend, root)
  {
    hide Events, Reached, ObedientRun, Script, Scripts, Visits;
    var ev := Events(s.log)[m];
    EveryVisitHappensExactlyOnce(descend, root, workers, steps, s, ev);
    LogOccIsOcc(ev, s.log);
    OccIsMultiplicity(ev, Events(s.log));
    assert ev in multiset(Events(s.log));
    VisitsAreScripts(descend, root, ev);
    OccIsMultiplicity(ev, Scripts(Reached(descend, root)));
    assert ev in multiset(Scripts(Reached(descend, root)));
    InScripts(Reached(descend, root), ev);
  }

  lemma RunsKeepDirectories(descend: Entry -> bool, root: Dir, workers: nat, steps: seq<Step>, s: State)
    requires workers > 0 && ObedientRun(descend, Init(root, workers), steps, s) && s.control.Finished?
    ensures KeepsDirectories(Reached(descend, root), EntriesOf(Events(s.log)))
  {
    hide Events, EntriesOf, Reached, ObedientRun, FirstIn, AllInPlace, WorkerInPlace, Outstanding, Visits;
    InitInv(root, workers);
    StartIsPaced(root, workers);
    RunKeepsPaced(descend, Init(root, workers), steps, s);
    RunKeepsLedger((descend, Started(root)), Init(root, workers), steps, s);
    NothingPendingMeansEmptyChannel(s);
    assert s.log + s.channel == s.log;
    var es := Events(s.log);
    forall i: nat | FirstAt(EntriesOf(es), i) && EntriesOf(es)[i].File? ensures FirstName(Reached(descend, root), EntriesOf(es)[i]) {
      var m, r := Locate(es, i);
      FirstHeardIsFirstThere(es, i, m, r);
      HeardIsReached(descend, root, workers, steps, s, m);
    }
  }

  /** Any two finished uncancelled runs, with any numbers of workers, report the same totals if the first
      names that the reached directories hold of each file agree. */
  lemma TotalsIgnoreSchedule(rootDevice: Option<nat>, root: Dir, workers: nat, steps: seq<Step>, s: State,
                             workers': nat, steps': seq<Step>, s': State)
    requires workers > 0 && ObedientRun(Descend(rootDevice), Init(root, workers), steps, s) && s.control.Finished?
    requires workers' > 0 && ObedientRun(Descend(rootDevice), Init(root, workers'), steps', s') && s'.control.Finished?
    requires AgreeAcross(SizeOf, Reached(Descend(rootDevice), root)) && AgreeAcross(OnDiskOf, Reached(Descend(rootDevice), root))
    ensures CountAll(EMPTY, rootDevice, EntriesOf(Events(s.log))).totals == CountAll(EMPTY, rootDevice, EntriesOf(Events(s'.log))).totals
  {
    hide CountAll, Events, EntriesOf, Reached, ObedientRun, Descend, AgreeAcross, KeepsDirectories, Tallied, Occ;
    var descend, ds := Descend(rootDevice), Reached(Descend(rootDevice), root);
    var es, gs := EntriesOf(Events(s.log)), EntriesOf(Events(s'.log));
    RunsKeepDirectories(descend, root, workers, steps, s);
    RunsKeepDirectories(descend, root, workers', steps', s');
    forall ev ensures multiset(Events(s.log))[ev] == multiset(Events(s'.log))[ev] {
      EveryVisitHappensExactlyOnce(descend, root, workers, steps, s, ev);
      EveryVisitHappensExactlyOnce(descend, root, workers', steps', s', ev);
      LogOccIsOcc(ev, s.log);
      LogOccIsOcc(ev, s'.log);
      OccIsMultiplicity(ev, Events(s.log));
      OccIsMultiplicity(ev, Events(s'.log));
    }
    EntriesIgnoreOrder(Events(s.log), Events(s'.log));
    SameTally(SizeOf, ds, es, gs);
    SameTally(OnDiskOf, ds, es, gs);
    ByteTotals(rootDevice, es);
    ByteTotals(rootDevice, gs);
    CountsIgnoreOrder(rootDevice, es, gs);
  }
}
