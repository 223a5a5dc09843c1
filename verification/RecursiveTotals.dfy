/** `recursive_totals`: a client of the walk. Its totals are the clamped sums over each file counted
    once, and they do not depend on the schedule. */
module RecursiveTotals {
  import opened Sums
  import opened DirectoryWalk
  import opened WalkDelivery

  const U64_MAX: nat := 0xFFFF_FFFF_FFFF_FFFF

  function Clamp(n: nat): nat { if n <= U64_MAX then n else U64_MAX }

  function SaturatingAdd(a: nat, b: nat): nat { Clamp(a + b) }

  datatype Totals = Totals(apparent: nat, onDisk: nat, files: nat, dirs: nat)

  /** The visitor's state: running totals and the hard-linked files already counted. */
  datatype Tally = Tally(totals: Totals, seen: set<(nat, nat)>)

  const EMPTY := Tally(Totals(0, 0, 0, 0), {})

  /** The directory entry lies on another device than the root, where both are known. */
  predicate Foreign(e: Entry, rootDevice: Option<nat>) {
    e.facts.identity.Some? && rootDevice.Some? && e.facts.identity.value.device != rootDevice.value
  }

  function Descend(rootDevice: Option<nat>): Entry -> bool {
    (e: Entry) => e.Folder? && !e.facts.mountPoint && !Foreign(e, rootDevice)
  }

  predicate MultiplyLinked(e: Entry) {
    e.facts.identity.Some? && e.facts.identity.value.links > 1
  }

  function LinkKey(e: Entry): (nat, nat)
    requires MultiplyLinked(e)
  {
    (e.facts.identity.value.device, e.facts.identity.value.file)
  }

  function AddFile(t: Totals, facts: Facts): Totals {
    t.(files := SaturatingAdd(t.files, 1),
       apparent := SaturatingAdd(t.apparent, facts.size),
       onDisk := SaturatingAdd(t.onDisk, facts.onDisk))
  }

  function Count(t: Tally, rootDevice: Option<nat>, e: Entry): Tally {
    match e
    case Symlink(_) => t
    case Folder(_, _) =>
      if Descend(rootDevice)(e) then t.(totals := t.totals.(dirs := SaturatingAdd(t.totals.dirs, 1))) else t
    case File(facts) =>
      if MultiplyLinked(e) then
        if LinkKey(e) in t.seen then t
        else Tally(AddFile(t.totals, facts), t.seen + {LinkKey(e)})
      else t.(totals := AddFile(t.totals, facts))
  }

  function CountAll(t: Tally, rootDevice: Option<nat>, es: seq<Entry>): Tally
    decreases es
  {
    if es == [] then t else CountAll(Count(t, rootDevice, es[0]), rootDevice, es[1..])
  }

  lemma {:induction false} CountAllConcat(t: Tally, rootDevice: Option<nat>, a: seq<Entry>, b: seq<Entry>)
    ensures CountAll(t, rootDevice, a + b) == CountAll(CountAll(t, rootDevice, a), rootDevice, b)
    decreases a
  {
    if a == [] {
      assert a + b == b;
    } else {
      assert (a + b)[1..] == a[1..] + b;
      CountAllConcat(Count(t, rootDevice, a[0]), rootDevice, a[1..], b);
    }
  }

  /** The closure handed to the walk, with the variables it captures. */
  class TotalsVisitor {
    const rootDevice: Option<nat>
    var totals: Totals
    var seen: set<(nat, nat)>

    constructor (rootDevice: Option<nat>)
      ensures this.rootDevice == rootDevice && Tally(totals, seen) == EMPTY
    {
      this.rootDevice := rootDevice;
      totals, seen := Totals(0, 0, 0, 0), {};
    }

    method Visit(event: Event) returns (children: seq<Dir>)
      modifies this
      ensures Tally(totals, seen) == CountAll(old(Tally(totals, seen)), rootDevice, EntriesOf([event]))
      ensures children == if event.Batch? then Descents(Descend(rootDevice), event.entries) else []
    {
      children := [];
      if !event.Batch? {
        return;
      }
      var es := event.entries;
      assert EntriesOf([event]) == es + [] == es;
      for i := 0 to |es|
        invariant Tally(totals, seen) == CountAll(old(Tally(totals, seen)), rootDevice, es[..i])
        invariant children == Descents(Descend(rootDevice), es[..i])
      {
        var e := es[i];
        assert es[..i + 1] == es[..i] + [e];
        CountAllConcat(old(Tally(totals, seen)), rootDevice, es[..i], [e]);
        DescentsConcat(Descend(rootDevice), es[..i], [e]);
        if e.Symlink? {
          continue;
        }
        if e.Folder? {
          if e.facts.mountPoint || Foreign(e, rootDevice) {
            continue;
          }
          totals := totals.(dirs := SaturatingAdd(totals.dirs, 1));
          children := children + [e.dir];
        } else {
          if MultiplyLinked(e) {
            if LinkKey(e) in seen {
              continue;
            }
            seen := seen + {LinkKey(e)};
          }
          totals := AddFile(totals, e.facts);
        }
      }
      assert es[..|es|] == es;
    }
  }

  // ---------------------------------------------------------------- what the totals are

  /** The files that count: every file with one link, and the first of each multiply-linked file. */
  function Counted(es: seq<Entry>, seen: set<(nat, nat)>): seq<Facts> {
    if es == [] then []
    else if !es[0].File? then Counted(es[1..], seen)
    else if !MultiplyLinked(es[0]) then [es[0].facts] + Counted(es[1..], seen)
    else if LinkKey(es[0]) in seen then Counted(es[1..], seen)
    else [es[0].facts] + Counted(es[1..], seen + {LinkKey(es[0])})
  }

  function SizeOf(p: nat, f: Facts): nat { f.size }
  function OnDiskOf(p: nat, f: Facts): nat { f.onDisk }

  lemma ClampTwice(x: nat, a: nat, b: nat)
    ensures Clamp(Clamp(x + a) + b) == Clamp(x + (a + b))
  {
  }

  lemma ClampSmall(t: Totals)
    requires t.apparent <= U64_MAX && t.onDisk <= U64_MAX && t.files <= U64_MAX && t.dirs <= U64_MAX
    ensures Clamp(t.apparent) == t.apparent && Clamp(t.onDisk) == t.onDisk && Clamp(t.files) == t.files && Clamp(t.dirs) == t.dirs
  {
  }

  lemma ClampIsSmall()
    ensures forall n :: Clamp(n) <= U64_MAX
  {
  }

  lemma NoSums(rootDevice: Option<nat>)
    ensures Sum(SizeOf, 0, []) == 0 == Sum(OnDiskOf, 0, []) && Descents(Descend(rootDevice), []) == []
  {
  }

  lemma SumFirst(f: (nat, Facts) -> nat, first: Facts, rest: seq<Facts>)
    ensures Sum(f, 0, [first] + rest) == f(0, first) + Sum(f, 0, rest)
  {
    assert ([first] + rest)[1..] == rest;
  }

  lemma OneDescent(descend: Entry -> bool, es: seq<Entry>)
    requires es != []
    ensures |Descents(descend, es)| == (if descend(es[0]) && es[0].Folder? then 1 else 0) + |Descents(descend, es[1..])|
  {
  }

  /** Byte totals and the file count are the u64-clamped sums over the counted files; the folders
      counted are those descended into. */
  lemma {:induction false} TotalsAreClampedSums(t: Tally, rootDevice: Option<nat>, es: seq<Entry>)
    requires t.totals.apparent <= U64_MAX && t.totals.onDisk <= U64_MAX && t.totals.files <= U64_MAX && t.totals.dirs <= U64_MAX
    ensures var r := CountAll(t, rootDevice, es).totals; var counted := Counted(es, t.seen);
            r.apparent == Clamp(t.totals.apparent + Sum(SizeOf, 0, counted)) &&
            r.onDisk == Clamp(t.totals.onDisk + Sum(OnDiskOf, 0, counted)) &&
            r.files == Clamp(t.totals.files + |counted|) &&
            r.dirs == Clamp(t.totals.dirs + |Descents(Descend(rootDevice), es)|)
    decreases es
  {
    hide Sum, Descend, Descents, MultiplyLinked, LinkKey, Clamp;
    if es == [] {
      NoSums(rootDevice);
      ClampSmall(t.totals);
    } else {
      var e, t' := es[0], Count(t, rootDevice, es[0]);
      ClampIsSmall();
      TotalsAreClampedSums(t', rootDevice, es[1..]);
      var rest := Counted(es[1..], t'.seen);
      SumFirst(SizeOf, e.facts, rest);
      SumFirst(OnDiskOf, e.facts, rest);
      OneDescent(Descend(rootDevice), es);
      ClampTwice(t.totals.apparent, e.facts.size, Sum(SizeOf, 0, rest));
      ClampTwice(t.totals.onDisk, e.facts.onDisk, Sum(OnDiskOf, 0, rest));
      ClampTwice(t.totals.files, 1, |rest|);
      ClampTwice(t.totals.dirs, 1, |Descents(Descend(rootDevice), es[1..])|);
    }
  }

  // ---------------------------------------------------------------- independence of the schedule

  /** Names of one multiply-linked file report one size. */
  predicate Agree(a: Entry, b: Entry) {
    a.File? && b.File? && MultiplyLinked(a) && MultiplyLinked(b) && LinkKey(a) == LinkKey(b) ==>
      a.facts.size == b.facts.size && a.facts.onDisk == b.facts.onDisk
  }

  ghost predicate Consistent(es: seq<Entry>) {
    forall a, b :: a in es && b in es ==> Agree(a, b)
  }

  lemma CountCommutes(t: Tally, rootDevice: Option<nat>, a: Entry, b: Entry)
    requires Agree(a, b)
    ensures Count(Count(t, rootDevice, a), rootDevice, b) == Count(Count(t, rootDevice, b), rootDevice, a)
  {
    if a.File? && b.File? && MultiplyLinked(a) && MultiplyLinked(b) {
      assert t.seen + {LinkKey(a)} + {LinkKey(b)} == t.seen + {LinkKey(b)} + {LinkKey(a)};
    }
  }

  lemma {:induction false} CountEarlier(t: Tally, rootDevice: Option<nat>, a: seq<Entry>, x: Entry)
    requires forall y :: y in a ==> Agree(x, y) && Agree(y, x)
    ensures CountAll(t, rootDevice, a + [x]) == CountAll(Count(t, rootDevice, x), rootDevice, a)
    decreases a
  {
    if a == [] {
      assert a + [x] == [x];
      assert [x][1..] == [];
    } else {
      assert (a + [x])[1..] == a[1..] + [x];
      CountEarlier(Count(t, rootDevice, a[0]), rootDevice, a[1..], x);
      CountCommutes(t, rootDevice, a[0], x);
    }
  }

  lemma {:induction false} CountIgnoresOrder(t: Tally, rootDevice: Option<nat>, es: seq<Entry>, fs: seq<Entry>)
    requires multiset(es) == multiset(fs) && Consistent(es)
    ensures CountAll(t, rootDevice, es) == CountAll(t, rootDevice, fs)
    decreases es
  {
    if es == [] {
      assert |multiset(fs)| == 0;
    } else {
      var x, rest := es[0], es[1..];
      var before, after := TakeOut(es, fs);
      forall y | y in before ensures y in es {
        assert y in fs && y in multiset(fs);
      }
      CountAllConcat(t, rootDevice, before + [x], after);
      CountEarlier(t, rootDevice, before, x);
      CountAllConcat(Count(t, rootDevice, x), rootDevice, before, after);
      CountIgnoresOrder(Count(t, rootDevice, x), rootDevice, rest, before + after);
    }
  }

  function Events(log: seq<Tagged>): seq<Event> {
    if log == [] then [] else [log[0].event] + Events(log[1..])
  }

  lemma {:induction false} LogOccIsOcc(ev: Event, log: seq<Tagged>)
    ensures Sum(LogOcc, ev, log) == Occ(ev, Events(log))
  {
    if log != [] {
      LogOccIsOcc(ev, log[1..]);
      assert Events(log)[1..] == Events(log[1..]);
    }
  }

  lemma {:induction false} OccIsMultiplicity(ev: Event, es: seq<Event>)
    ensures Occ(ev, es) == multiset(es)[ev]
  {
    if es != [] {
      assert es == [es[0]] + es[1..];
      OccIsMultiplicity(ev, es[1..]);
    }
  }

  lemma {:induction false} EntriesOfConcat(a: seq<Event>, b: seq<Event>)
    ensures EntriesOf(a + b) == EntriesOf(a) + EntriesOf(b)
  {
    if a == [] {
      assert a + b == b;
    } else {
      assert (a + b)[1..] == a[1..] + b;
      EntriesOfConcat(a[1..], b);
    }
  }

  lemma {:induction false} EntriesIgnoreOrder(a: seq<Event>, b: seq<Event>)
    requires multiset(a) == multiset(b)
    ensures multiset(EntriesOf(a)) == multiset(EntriesOf(b))
    decreases a
  {
    if a == [] {
      assert |multiset(b)| == 0;
    } else {
      var x, rest := a[0], a[1..];
      var before, after := TakeOut(a, b);
      EntriesIgnoreOrder(rest, before + after);
      EntriesOfConcat(before + [x], after);
      EntriesOfConcat(before, [x]);
      EntriesOfConcat(before, after);
      EntriesOfConcat([x], rest);
      assert a == [x] + rest;
    }
  }

  /** Any finished uncancelled parallel run, with any number of workers and any schedule, gives the
      visitor the same multiset of calls as a serial walk and the same totals, provided the names of
      each hard-linked file agree on its size. */
  lemma TotalsDoNotDependOnSchedule(rootDevice: Option<nat>, root: Dir, workers: nat, steps: seq<Step>, s: State,
                                    serial: seq<Event>)
    requires workers > 0 && ObedientRun(Descend(rootDevice), Init(root, workers), steps, s) && s.control.Finished?
    requires forall ev :: Occ(ev, serial) == Visits(Descend(rootDevice), root, ev)   // what SerialWalk ensures
    requires Consistent(EntriesOf(serial))
    ensures multiset(Events(s.log)) == multiset(serial)
    ensures CountAll(EMPTY, rootDevice, EntriesOf(Events(s.log))) == CountAll(EMPTY, rootDevice, EntriesOf(serial))
  {
    forall ev ensures multiset(Events(s.log))[ev] == multiset(serial)[ev] {
      EveryVisitHappensExactlyOnce(Descend(rootDevice), root, workers, steps, s, ev);
      LogOccIsOcc(ev, s.log);
      OccIsMultiplicity(ev, Events(s.log));
      OccIsMultiplicity(ev, serial);
    }
    EntriesIgnoreOrder(serial, Events(s.log));
    CountIgnoresOrder(EMPTY, rootDevice, EntriesOf(serial), EntriesOf(Events(s.log)));
  }
}
