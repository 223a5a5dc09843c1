/** Two finished runs of one walk with two workers whose totals differ: two names of one file report
    different sizes, and each run hears another name first. */
module RecursiveSchedules {
  import opened DirectoryWalk
  import opened WalkDelivery
  import opened RecursiveTotals
  import opened Sums

  lemma {:induction false} ThenStep(descend: Entry -> bool, start: State, steps: seq<Step>, s: State, step: Step)
    requires ObedientRun(descend, start, steps, s) && Enabled(s, step) && Obeys(descend, s, step)
    ensures ObedientRun(descend, start, steps + [step], Apply(s, step))
    decreases steps
  {
    hide Enabled, Obeys, Apply;
    if steps == [] {
      assert [step][1..] == [];
    } else {
      assert (steps + [step])[1..] == steps[1..] + [step];
      ThenStep(descend, Apply(start, steps[0]), steps[1..], s, step);
    }
  }

  lemma {:induction false} ThenRun(descend: Entry -> bool, start: State, steps: seq<Step>, s: State, more: seq<Step>, t: State)
    requires ObedientRun(descend, start, steps, s) && ObedientRun(descend, s, more, t)
    ensures ObedientRun(descend, start, steps + more, t)
    decreases steps
  {
    hide Enabled, Obeys, Apply;
    if steps == [] {
      assert steps + more == more;
    } else {
      assert (steps + more)[1..] == steps[1..] + more;
      ThenRun(descend, Apply(start, steps[0]), steps[1..], s, more, t);
    }
  }

  /** Nothing is on its way, nobody sleeps, and the coordinator is at its loop head with work pending. */
  ghost predicate Quiet(s: State) {
    s.channel == [] && s.control.Top? && s.pending > 0 && !s.cancel && !s.cancelApplied && !s.stopped &&
    |s.served| == |s.workers| && forall w :: 0 <= w < |s.workers| ==> !s.workers[w].Asleep?
  }

  lemma WakeNobody(ws: seq<Worker>)
    requires forall w :: 0 <= w < |ws| ==> !ws[w].Asleep?
    ensures Wake(ws) == ws
  {
  }

  /** What an event makes the coordinator queue. */
  function KidsOf(descend: Entry -> bool, e: Event): seq<Dir> {
    if e.Batch? then Descents(descend, e.entries) else []
  }

  predicate Answers(descend: Entry -> bool, e: Event, choices: seq<bool>) {
    e.Batch? ==> |choices| == |e.entries| && Select(e.entries, choices) == Descents(descend, e.entries)
  }

  /** The coordinator hears the one event in the channel and queues what it leads to. */
  lemma Heard(descend: Entry -> bool, s: State, sent: State, t: Tagged, choices: seq<bool>) returns (steps: seq<Step>, r: State)
    requires Quiet(s) && sent == s.(workers := sent.workers, channel := [t]) && |sent.workers| == |s.workers|
    requires forall w :: 0 <= w < |sent.workers| ==> !sent.workers[w].Asleep?
    requires Answers(descend, t.event, choices)
    ensures ObedientRun(descend, sent, steps, r)
    ensures r == s.(workers := sent.workers, log := s.log + [t], queue := s.queue + KidsOf(descend, t.event),
                    pending := s.pending + |KidsOf(descend, t.event)| - if t.event.Done? then 1 else 0)
  {
    var checked := Apply(sent, Check(false));
    var heard := Apply(checked, Receive(choices));
    assert s.queue + [] == s.queue;
    assert ObedientRun(descend, heard, [], heard);
    if KidsOf(descend, t.event) == [] {
      r, steps := heard, [Receive(choices)];
    } else {
      r, steps := Apply(heard, Push), [Receive(choices), Push];
      WakeNobody(sent.workers);
      assert steps[1..] == [Push];
      assert ObedientRun(descend, r, [], r);
      assert ObedientRun(descend, heard, [Push], r);
    }
    assert ObedientRun(descend, checked, steps, r);
    assert ([Check(false)] + steps)[1..] == steps;
    steps := [Check(false)] + steps;
  }

  /** A send that is heard at once. */
  lemma SendHeard(descend: Entry -> bool, s: State, step: Step, choices: seq<bool>) returns (steps: seq<Step>, r: State)
    requires Quiet(s) && Enabled(s, step) && (step.SendStarted? || step.SendLast? || step.SendDone?)
    requires Answers(descend, Apply(s, step).channel[0].event, choices)
    ensures ObedientRun(descend, s, steps, r)
    ensures (var sent := Apply(s, step); var e := sent.channel[0].event;
             r == s.(workers := sent.workers, log := s.log + sent.channel, queue := s.queue + KidsOf(descend, e),
                     pending := s.pending + |KidsOf(descend, e)| - if e.Done? then 1 else 0))
  {
    var sent := Apply(s, step);
    assert sent.channel == [sent.channel[0]];
    steps, r := Heard(descend, s, sent, sent.channel[0], choices);
    assert ([step] + steps)[1..] == steps;
    steps := [step] + steps;
  }

  /** A worker reads the rest of a directory that fits one batch. */
  lemma {:induction false} ReadRest(descend: Entry -> bool, s: State, w: nat) returns (steps: seq<Step>)
    requires w < |s.workers| && s.workers[w].Reading? && s.workers[w].pos <= |s.workers[w].dir.entries| < RECURSIVE_BATCH_SIZE
    requires s.workers[w].batch == s.workers[w].dir.entries[..s.workers[w].pos]
    ensures ObedientRun(descend, s, steps, Move(s, w, Closing(s.workers[w].dir, s.workers[w].dir.entries, s.workers[w].dir.failed)))
    decreases |s.workers[w].dir.entries| - s.workers[w].pos
  {
    var d, pos := s.workers[w].dir, s.workers[w].pos;
    if pos == |d.entries| {
      assert d.entries[..pos] == d.entries;
      steps := [EndOfDirectory(w)];
      assert ObedientRun(descend, Apply(s, EndOfDirectory(w)), [], Apply(s, EndOfDirectory(w)));
    } else {
      var next := Apply(s, Read(w));
      assert d.entries[..pos] + [d.entries[pos]] == d.entries[..pos + 1];
      steps := ReadRest(descend, next, w);
      assert Move(next, w, Closing(d, d.entries, d.failed)) == Move(s, w, Closing(d, d.entries, d.failed));
      assert ([Read(w)] + steps)[1..] == steps;
      steps := [Read(w)] + steps;
    }
  }

  function Told(w: nat, d: Dir): seq<Tagged> {
    [Tagged(w, Started(d)), Tagged(w, Batch(d, d.entries)), Tagged(w, Done(d, d.failed))]
  }

  /** A worker serves the directory it popped while everyone else holds still. */
  lemma Serve(descend: Entry -> bool, s: State, w: nat, choices: seq<bool>) returns (steps: seq<Step>, r: State)
    requires Quiet(s) && w < |s.workers| && s.workers[w].Popped?
    requires var d := s.workers[w].dir; 0 < |d.entries| < RECURSIVE_BATCH_SIZE && Answers(descend, Batch(d, d.entries), choices)
    ensures ObedientRun(descend, s, steps, r)
    ensures (var d := s.workers[w].dir; var kids := Descents(descend, d.entries);
             r == s.(workers := s.workers[w := Idle], log := s.log + Told(w, d), queue := s.queue + kids,
                     pending := s.pending + |kids| - 1))
  {
    hide ObedientRun, Descents, Select;
    var d := s.workers[w].dir;
    var kids := Descents(descend, d.entries);
    var steps1, s1 := SendHeard(descend, s, SendStarted(w), []);
    assert s1.queue == s.queue;
    assert Quiet(s1);
    var steps2 := ReadRest(descend, s1, w);
    var s2 := Move(s1, w, Closing(d, d.entries, d.failed));
    ThenRun(descend, s, steps1, s1, steps2, s2);
    assert Quiet(s2);
    var steps3, s3 := SendHeard(descend, s2, SendLast(w), choices);
    ThenRun(descend, s, steps1 + steps2, s2, steps3, s3);
    assert s3.queue == s.queue + kids;
    assert Quiet(s3);
    var steps4, s4 := SendHeard(descend, s3, SendDone(w), []);
    ThenRun(descend, s, steps1 + steps2 + steps3, s3, steps4, s4);
    assert s4.queue == s.queue + kids;
    assert s4.workers == s.workers[w := Idle];
    assert s4.log == s.log + Told(w, d);
    steps, r := steps1 + steps2 + steps3 + steps4, s4;
  }

  // ---------------------------------------------------------------- two schedules of one walk

  /** Two subdirectories hold one name each of one file. */
  predicate NamesApart(rootDevice: Option<nat>, root: Dir, da: Dir, db: Dir, fa: Facts, fb: Facts) {
    |root.entries| == 2 && root.entries[0].Folder? && root.entries[1].Folder? &&
    root.entries[0].dir == da && root.entries[1].dir == db &&
    Descend(rootDevice)(root.entries[0]) && Descend(rootDevice)(root.entries[1]) &&
    da.entries == [File(fa)] && db.entries == [File(fb)] &&
    MultiplyLinked(File(fa)) && MultiplyLinked(File(fb)) && LinkKey(File(fa)) == LinkKey(File(fb))
  }

  lemma {:induction false} EventsConcat(a: seq<Tagged>, b: seq<Tagged>)
    ensures Events(a + b) == Events(a) + Events(b)
  {
    if a == [] {
      assert a + b == b;
    } else {
      assert (a + b)[1..] == a[1..] + b;
      EventsConcat(a[1..], b);
    }
  }

  lemma EntriesTold(w: nat, d: Dir)
    ensures EntriesOf(Events(Told(w, d))) == d.entries
  {
    var told := Told(w, d);
    assert told[1..][1..][1..] == [];
    assert Events(told[1..][1..]) == [Done(d, d.failed)] + [];
    assert Events(told[1..]) == [Batch(d, d.entries)] + [Done(d, d.failed)];
    var es := Events(told);
    assert es == [Started(d)] + ([Batch(d, d.entries)] + [Done(d, d.failed)]);
    assert es[1..][1..][1..] == [];
    assert EntriesOf(es[1..][1..]) == [];
    assert EntriesOf(es[1..]) == d.entries + [];
  }

  lemma HeardEntries(v: nat, root: Dir, w: nat, d: Dir, x: nat, e: Dir)
    ensures EntriesOf(Events(Told(v, root) + Told(w, d) + Told(x, e))) == root.entries + d.entries + e.entries
  {
    hide EntriesOf, Events, Told;
    EventsConcat(Told(v, root) + Told(w, d), Told(x, e));
    EventsConcat(Told(v, root), Told(w, d));
    EntriesOfConcat(Events(Told(v, root)) + Events(Told(w, d)), Events(Told(x, e)));
    EntriesOfConcat(Events(Told(v, root)), Events(Told(w, d)));
    EntriesTold(v, root);
    EntriesTold(w, d);
    EntriesTold(x, e);
  }

  /** Of two names the first one heard is counted. */
  lemma FirstNameCounts(rootDevice: Option<nat>, folders: seq<Entry>, first: Facts, second: Facts)
    requires |folders| == 2 && folders[0].Folder? && folders[1].Folder?
    requires MultiplyLinked(File(first)) && MultiplyLinked(File(second)) && LinkKey(File(first)) == LinkKey(File(second))
    ensures CountAll(EMPTY, rootDevice, folders + [File(first)] + [File(second)]).totals.apparent == Clamp(first.size)
    ensures CountAll(EMPTY, rootDevice, folders + [File(first)] + [File(second)]).totals.onDisk == Clamp(first.onDisk)
  {
    hide CountAll;
    var es := folders + [File(first)] + [File(second)];
    TotalsAreClampedSums(EMPTY, rootDevice, es);
    var files := es[1..][1..];
    assert files == [File(first), File(second)] && files[1..] == [File(second)] && files[1..][1..] == [];
    assert Counted(es, {}) == Counted(es[1..], {}) == Counted(files, {});
    assert {} + {LinkKey(File(first))} == {LinkKey(File(first))};
    assert Counted(files[1..], {LinkKey(File(first))}) == [];
    assert Counted(files, {}) == [first] + Counted(files[1..], {LinkKey(File(first))}) == [first];
    SumOne(SizeOf, 0, first);
    SumOne(OnDiskOf, 0, first);
  }

  /** Both workers hold a subdirectory, and the root has been heard. */
  lemma BothPopped(rootDevice: Option<nat>, root: Dir, da: Dir, db: Dir, fa: Facts, fb: Facts) returns (steps: seq<Step>, s: State)
    requires NamesApart(rootDevice, root, da, db, fa, fb)
    ensures ObedientRun(Descend(rootDevice), Init(root, 2), steps, s)
    ensures Quiet(s) && s.workers == [Popped(da), Popped(db)] && s.queue == [] && s.pending == 2 && s.log == Told(0, root)
  {
    var descend := Descend(rootDevice);
    var s0 := Init(root, 2);
    assert ObedientRun(descend, s0, [], s0);
    ThenStep(descend, s0, [], s0, Look(0));
    var s1 := Apply(s0, Look(0));
    FoldersChosen(descend, root.entries, da, db);
    hide ObedientRun;
    var steps2, s2 := Serve(descend, s1, 0, [true, true]);
    ThenRun(descend, s0, [] + [Look(0)], s1, steps2, s2);
    ThenStep(descend, s0, [] + [Look(0)] + steps2, s2, Look(0));
    var s3 := Apply(s2, Look(0));
    ThenStep(descend, s0, [] + [Look(0)] + steps2 + [Look(0)], s3, Look(1));
    s := Apply(s3, Look(1));
    steps := [] + [Look(0)] + steps2 + [Look(0)] + [Look(1)];
  }

  lemma FoldersChosen(descend: Entry -> bool, es: seq<Entry>, da: Dir, db: Dir)
    requires |es| == 2 && es[0].Folder? && es[1].Folder? && es[0].dir == da && es[1].dir == db && descend(es[0]) && descend(es[1])
    ensures Select(es, [true, true]) == Descents(descend, es) == [da, db]
  {
    assert es[1..][1..] == [] && [true, true][1..] == [true];
    assert Descents(descend, es[1..]) == [db] + [];
    assert Select(es[1..], [true]) == [db] + [];
  }

  lemma FileNotChosen(descend: Entry -> bool, f: Facts)
    ensures Select([File(f)], [true]) == Descents(descend, [File(f)]) == []
  {
    assert [File(f)][1..] == [] && [true][1..] == [];
  }

  /** The worker v finishes before the worker w starts. */
  lemma FirstThenSecond(descend: Entry -> bool, s: State, v: nat, w: nat, first: Facts, second: Facts) returns (steps: seq<Step>, r: State)
    requires Quiet(s) && |s.workers| == 2 && {v, w} == {0, 1} && s.workers[v].Popped? && s.workers[w].Popped? && s.pending == 2
    requires s.workers[v].dir.entries == [File(first)] && s.workers[w].dir.entries == [File(second)]
    ensures ObedientRun(descend, s, steps, r) && r.control.Finished?
    ensures r.log == s.log + Told(v, s.workers[v].dir) + Told(w, s.workers[w].dir)
  {
    hide ObedientRun, Descents, Select, Told;
    FileNotChosen(descend, first);
    FileNotChosen(descend, second);
    var steps1, s1 := Serve(descend, s, v, [true]);
    assert v != w;
    assert Quiet(s1);
    var steps2, s2 := Serve(descend, s1, w, [true]);
    ThenRun(descend, s, steps1, s1, steps2, s2);
    ThenStep(descend, s, steps1 + steps2, s2, Finish);
    steps, r := steps1 + steps2 + [Finish], Apply(s2, Finish);
  }

  /** Without agreement the totals do depend on the schedule: both runs are finished walks of one root with
      two workers, and each reports the sizes of the name it hears first. */
  lemma ScheduleDecidesWhichNameCounts(rootDevice: Option<nat>, root: Dir, da: Dir, db: Dir, fa: Facts, fb: Facts)
    returns (steps1: seq<Step>, s1: State, steps2: seq<Step>, s2: State)
    requires NamesApart(rootDevice, root, da, db, fa, fb)
    ensures ObedientRun(Descend(rootDevice), Init(root, 2), steps1, s1) && s1.control.Finished?
    ensures ObedientRun(Descend(rootDevice), Init(root, 2), steps2, s2) && s2.control.Finished?
    ensures (var t1, t2 := CountAll(EMPTY, rootDevice, EntriesOf(Events(s1.log))).totals, CountAll(EMPTY, rootDevice, EntriesOf(Events(s2.log))).totals;
             t1.apparent == Clamp(fa.size) && t1.onDisk == Clamp(fa.onDisk) && t2.apparent == Clamp(fb.size) && t2.onDisk == Clamp(fb.onDisk))
  {
    hide ObedientRun, CountAll, Told, EntriesOf, Events, Descend;
    var before, s := BothPopped(rootDevice, root, da, db, fa, fb);
    var after1, after2;
    after1, s1 := FirstThenSecond(Descend(rootDevice), s, 0, 1, fa, fb);
    after2, s2 := FirstThenSecond(Descend(rootDevice), s, 1, 0, fb, fa);
    ThenRun(Descend(rootDevice), Init(root, 2), before, s, after1, s1);
    ThenRun(Descend(rootDevice), Init(root, 2), before, s, after2, s2);
    steps1, steps2 := before + after1, before + after2;
    HeardEntries(0, root, 0, da, 1, db);
    HeardEntries(0, root, 1, db, 0, da);
    FirstNameCounts(rootDevice, root.entries, fa, fb);
    FirstNameCounts(rootDevice, root.entries, fb, fa);
  }

  /** Such a tree exists. */
  lemma NamesCanBeApart(device: nat, file: nat, sizeA: nat, sizeB: nat) returns (root: Dir, da: Dir, db: Dir, fa: Facts, fb: Facts)
    ensures NamesApart(Some(device), root, da, db, fa, fb) && fa.size == sizeA && fb.size == sizeB
  {
    var id := Some(Identity(device, file, 2));
    fa, fb := Facts(sizeA, 0, id, false), Facts(sizeB, 0, id, false);
    da, db := Dir("a", [File(fa)], false), Dir("b", [File(fb)], false);
    root := Dir("", [Folder(Facts(0, 0, None, false), da), Folder(Facts(0, 0, None, false), db)], false);
  }
}
