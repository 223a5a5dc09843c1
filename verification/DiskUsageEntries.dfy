/** What a scan reports, entry by entry: of each entry the visitor hears of, in the order of hearing, what
    it adds is said here by looking at the entries before it. No set of things seen is kept. */
module DiskUsageEntries {
  import opened DiskUsageModel
  import opened DiskUsageTotals
  import opened DiskUsageScan
  import opened DiskUsageFacts

  /** An entry heard of, and the directory it is in. */
  datatype Heard = Heard(dir: Dir, entry: Entry)

  function InDir(d: Dir, es: seq<Entry>): (r: seq<Heard>)
    ensures |r| == |es| && forall i :: 0 <= i < |es| ==> r[i] == Heard(d, es[i])
  {
    seq(|es|, i requires 0 <= i < |es| => Heard(d, es[i]))
  }

  function HeardIn(event: Event): seq<Heard> {
    if event.Batch? then InDir(event.dir, event.entries) else []
  }

  /** All entries of the events, in order. */
  function AllHeard(events: seq<Event>): seq<Heard> {
    if events == [] then []
    else HeardIn(events[0]) + AllHeard(events[1..])
  }

  predicate SameFile(a: Entry, b: Entry) {
    a.identity.Some? && b.identity.Some? &&
    a.identity.value.device == b.identity.value.device && a.identity.value.file == b.identity.value.file
  }

  /** A directory that can be compared with those walked: on its parent's device, or a firmlink. */
  predicate Comparable(h: Heard) {
    h.entry.kind == Directory && h.entry.identity.Some? && h.dir.device.Some? &&
    (h.entry.identity.value.device == h.dir.device.value || h.entry.firmlink)
  }

  predicate LinkedTwice(e: Entry) {
    e.kind != Directory && e.identity.Some? && e.identity.value.links > 1
  }

  /** An earlier entry is the same directory. */
  predicate MetBefore(hs: seq<Heard>, i: nat)
    requires i < |hs|
  {
    exists j :: 0 <= j < i && Comparable(hs[j]) && SameFile(hs[j].entry, hs[i].entry)
  }

  /** An earlier entry is another name of the same file. */
  predicate NamedBefore(hs: seq<Heard>, i: nat)
    requires i < |hs|
  {
    exists j :: 0 <= j < i && LinkedTwice(hs[j].entry) && SameFile(hs[j].entry, hs[i].entry)
  }

  /** A mount point, a directory on another device, or one met before. */
  predicate StubAt(hs: seq<Heard>, i: nat)
    requires i < |hs|
  {
    var h := hs[i];
    h.entry.mountPoint ||
    (h.entry.kind == Directory && h.entry.identity.Some? && h.dir.device.Some? &&
     ((h.entry.identity.value.device != h.dir.device.value && !h.entry.firmlink) || MetBefore(hs, i)))
  }

  /** The scan enters the directory. */
  predicate EnteredAt(hs: seq<Heard>, i: nat, descendPackages: bool)
    requires i < |hs|
  {
    hs[i].entry.kind == Directory && !StubAt(hs, i) && (hs[i].entry.package ==> descendPackages)
  }

  /** Nothing is counted of a symbolic link, a stub, or a further name of a file. */
  predicate CountedAt(hs: seq<Heard>, i: nat)
    requires i < |hs|
  {
    hs[i].entry.kind != Symlink && !StubAt(hs, i) && !(LinkedTwice(hs[i].entry) && NamedBefore(hs, i))
  }

  /** The bytes an entry adds; those of a directory entered come with its own entries. */
  function BytesAt(hs: seq<Heard>, i: nat, descendPackages: bool): U64
    requires i < |hs|
  {
    if EnteredAt(hs, i, descendPackages) || !CountedAt(hs, i) then 0
    else if hs[i].entry.kind == Directory then hs[i].entry.packageSize
    else hs[i].entry.size
  }

  /** The blocks an entry adds; a directory entered adds its own. */
  function BlocksAt(hs: seq<Heard>, i: nat, descendPackages: bool): U64
    requires i < |hs|
  {
    if !EnteredAt(hs, i, descendPackages) && !CountedAt(hs, i) then 0
    else if hs[i].entry.kind == Directory && !EnteredAt(hs, i, descendPackages) then hs[i].entry.packageOnDisk
    else hs[i].entry.onDisk
  }

  function BytesUpTo(hs: seq<Heard>, n: nat, descendPackages: bool): nat
    requires n <= |hs|
  {
    if n == 0 then 0 else BytesUpTo(hs, n - 1, descendPackages) + BytesAt(hs, n - 1, descendPackages)
  }

  function BlocksUpTo(hs: seq<Heard>, n: nat, descendPackages: bool): nat
    requires n <= |hs|
  {
    if n == 0 then 0 else BlocksUpTo(hs, n - 1, descendPackages) + BlocksAt(hs, n - 1, descendPackages)
  }

  /** Entries that are not entered. */
  function LeavesUpTo(hs: seq<Heard>, n: nat, descendPackages: bool): nat
    requires n <= |hs|
  {
    if n == 0 then 0 else LeavesUpTo(hs, n - 1, descendPackages) + if EnteredAt(hs, n - 1, descendPackages) then 0 else 1
  }

  /** The directories entered, each with the id of its entry. */
  function EnteredUpTo(root: NodeId, hs: seq<Heard>, n: nat, descendPackages: bool): seq<Dir>
    requires n <= |hs|
  {
    if n == 0 then []
    else
      var e := hs[n - 1].entry;
      EnteredUpTo(root, hs, n - 1, descendPackages) +
      (if EnteredAt(hs, n - 1, descendPackages)
       then [Dir(root + n, if e.identity.Some? then Some(e.identity.value.device) else None)] else [])
  }

  // ---------------------------------------------------------------- the scan knows what came before

  function KeyOf(e: Entry): (nat, nat)
    requires e.identity.Some?
  {
    (e.identity.value.device, e.identity.value.file)
  }

  ghost predicate Remembers(sc: Scan, hs: seq<Heard>) {
    (forall k :: k in sc.seenDirs <==> exists j :: 0 <= j < |hs| && Comparable(hs[j]) && KeyOf(hs[j].entry) == k) &&
    (forall k :: k in sc.seenLinks <==> exists j :: 0 <= j < |hs| && LinkedTwice(hs[j].entry) && KeyOf(hs[j].entry) == k)
  }

  /** Adding entries changes nothing for those before. */
  lemma EarlierSame(hs: seq<Heard>, more: seq<Heard>, i: nat, descendPackages: bool)
    requires i < |hs|
    ensures EnteredAt(hs + more, i, descendPackages) == EnteredAt(hs, i, descendPackages)
    ensures CountedAt(hs + more, i) == CountedAt(hs, i)
    ensures BytesAt(hs + more, i, descendPackages) == BytesAt(hs, i, descendPackages)
    ensures BlocksAt(hs + more, i, descendPackages) == BlocksAt(hs, i, descendPackages)
  {
    assert forall j :: 0 <= j <= i ==> (hs + more)[j] == hs[j];
  }

  lemma {:induction false} SumsSame(root: NodeId, hs: seq<Heard>, more: seq<Heard>, n: nat, descendPackages: bool)
    requires n <= |hs|
    ensures BytesUpTo(hs + more, n, descendPackages) == BytesUpTo(hs, n, descendPackages)
    ensures BlocksUpTo(hs + more, n, descendPackages) == BlocksUpTo(hs, n, descendPackages)
    ensures LeavesUpTo(hs + more, n, descendPackages) == LeavesUpTo(hs, n, descendPackages)
    ensures EnteredUpTo(root, hs + more, n, descendPackages) == EnteredUpTo(root, hs, n, descendPackages)
  {
    hide EnteredAt, BytesAt, BlocksAt;
    if n > 0 {
      SumsSame(root, hs, more, n - 1, descendPackages);
      EarlierSame(hs, more, n - 1, descendPackages);
    }
  }

  lemma NextIsStub(sc: Scan, hs: seq<Heard>, d: Dir, e: Entry)
    requires Remembers(sc, hs)
    ensures StubAt(hs + [Heard(d, e)], |hs|) == Stub(sc, d, e)
    ensures (LinkedTwice(e) && NamedBefore(hs + [Heard(d, e)], |hs|)) == LinkCounted(sc, e)
  {
    var hs' := hs + [Heard(d, e)];
    assert forall j :: 0 <= j < |hs| ==> hs'[j] == hs[j];
    if e.identity.Some? {
      assert MetBefore(hs', |hs|) <==> KeyOf(e) in sc.seenDirs;
      assert NamedBefore(hs', |hs|) <==> KeyOf(e) in sc.seenLinks;
    }
  }

  lemma NextAdds(sc: Scan, hs: seq<Heard>, d: Dir, e: Entry, descendPackages: bool)
    requires Remembers(sc, hs)
    ensures var hs' := hs + [Heard(d, e)];
            EnteredAt(hs', |hs|, descendPackages) == !Leaf(sc, d, e, descendPackages) &&
            (BytesAt(hs', |hs|, descendPackages), BlocksAt(hs', |hs|, descendPackages)) == Sizes(sc, d, e, descendPackages)
  {
    hide StubAt, Stub, NamedBefore, LinkCounted;
    NextIsStub(sc, hs, d, e);
  }

  lemma RemembersNext(sc: Scan, hs: seq<Heard>, d: Dir, e: Entry, descendPackages: bool)
    requires Remembers(sc, hs)
    ensures Remembers(AfterEntry(sc, d, e, descendPackages), hs + [Heard(d, e)])
  {
    hide Leaf, Sizes;
    var hs', after := hs + [Heard(d, e)], AfterEntry(sc, d, e, descendPackages);
    assert forall j :: 0 <= j < |hs| ==> hs'[j] == hs[j];
    assert hs'[|hs|] == Heard(d, e);
    forall k ensures k in after.seenDirs <==> exists j :: 0 <= j < |hs'| && Comparable(hs'[j]) && KeyOf(hs'[j].entry) == k {
      if k in sc.seenDirs {
        var j :| 0 <= j < |hs| && Comparable(hs[j]) && KeyOf(hs[j].entry) == k;
        assert Comparable(hs'[j]) && KeyOf(hs'[j].entry) == k;
      }
    }
    forall k ensures k in after.seenLinks <==> exists j :: 0 <= j < |hs'| && LinkedTwice(hs'[j].entry) && KeyOf(hs'[j].entry) == k {
      if k in sc.seenLinks {
        var j :| 0 <= j < |hs| && LinkedTwice(hs[j].entry) && KeyOf(hs[j].entry) == k;
        assert LinkedTwice(hs'[j].entry) && KeyOf(hs'[j].entry) == k;
      }
    }
  }

  // ---------------------------------------------------------------- the facts of one entry

  lemma OneMoreFact(facts: seq<Fact>, f: Fact, n: NodeId)
    ensures var after := facts + [f];
            BytesFor(after, n) == BytesFor(facts, n) + (if f.NodeSizeAdded? && f.node == n then f.bytes else 0) &&
            BlocksFor(after, n) == BlocksFor(facts, n) + (if f.NodeAllocatedAdded? && f.node == n then f.bytes else 0) &&
            KindFor(after, n) == KindAfter(KindFor(facts, n), f, n) &&
            LinksFrom(after, n) == LinksFrom(facts, n) + (if f.NodeLinked? && f.container == n then [f.node] else []) &&
            AllBytes(after) == AllBytes(facts) + (if f.NodeSizeAdded? then f.bytes else 0) &&
            AllBlocks(after) == AllBlocks(facts) + (if f.NodeAllocatedAdded? then f.bytes else 0)
  {
    assert (facts + [f])[..|facts|] == facts;
  }

  function FactsOf(id: NodeId, c: NodeId, kind: Kind, size: U64, onDisk: U64): seq<Fact> {
    [NodeDiscovered(id, kind), NodeLinked(c, id)]
    + (if size > 0 then [NodeSizeAdded(id, size)] else [])
    + (if onDisk > 0 then [NodeAllocatedAdded(id, onDisk)] else [])
  }

  lemma EntryTold(facts: seq<Fact>, id: NodeId, c: NodeId, kind: Kind, size: U64, onDisk: U64, n: NodeId)
    requires id != c
    ensures var after := facts + FactsOf(id, c, kind, size, onDisk);
            BytesFor(after, n) == BytesFor(facts, n) + (if n == id then size else 0) &&
            BlocksFor(after, n) == BlocksFor(facts, n) + (if n == id then onDisk else 0) &&
            KindFor(after, n) == (if n == c then Container else if n == id then kind else KindFor(facts, n)) &&
            LinksFrom(after, n) == LinksFrom(facts, n) + (if n == c then [id] else []) &&
            AllBytes(after) == AllBytes(facts) + size && AllBlocks(after) == AllBlocks(facts) + onDisk
  {
    hide BytesFor, BlocksFor, KindFor, LinksFrom, AllBytes, AllBlocks;
    var f1 := facts + [NodeDiscovered(id, kind)];
    var f2 := f1 + [NodeLinked(c, id)];
    var f3 := f2 + if size > 0 then [NodeSizeAdded(id, size)] else [];
    var f4 := f3 + if onDisk > 0 then [NodeAllocatedAdded(id, onDisk)] else [];
    OneMoreFact(facts, NodeDiscovered(id, kind), n);
    OneMoreFact(f1, NodeLinked(c, id), n);
    OneMoreFact(f2, NodeSizeAdded(id, size), n);
    OneMoreFact(f3, NodeAllocatedAdded(id, onDisk), n);
    assert f2 + [] == f2 && f3 + [] == f3;
    assert facts + FactsOf(id, c, kind, size, onDisk) == f4;
  }

  // ---------------------------------------------------------------- all entries

  /** The ids of the entries of one directory, in order. */
  function IdsIn(root: NodeId, hs: seq<Heard>, n: nat, c: NodeId): seq<NodeId>
    requires n <= |hs|
  {
    if n == 0 then [] else IdsIn(root, hs, n - 1, c) + if hs[n - 1].dir.id == c then [root + n] else []
  }

  lemma {:induction false} IdsSame(root: NodeId, hs: seq<Heard>, more: seq<Heard>, n: nat, c: NodeId)
    requires n <= |hs|
    ensures IdsIn(root, hs + more, n, c) == IdsIn(root, hs, n, c)
  {
    if n > 0 {
      IdsSame(root, hs, more, n - 1, c);
    }
  }

  /** The directory is the root or one the scan has entered. */
  ghost predicate Home(root: NodeId, hs: seq<Heard>, c: NodeId, descendPackages: bool) {
    c == root || (root < c <= root + |hs| && EnteredAt(hs, c - root - 1, descendPackages))
  }

  /** The scan's counters and totals are those of the entries. */
  ghost predicate CountsTold(root: NodeId, hs: seq<Heard>, sc: Scan, facts: seq<Fact>, kids: seq<Dir>, descendPackages: bool) {
    sc.next == root + 1 + |hs| &&
    sc.stats.files == Clamp(LeavesUpTo(hs, |hs|, descendPackages)) &&
    sc.stats.bytes == Clamp(BytesUpTo(hs, |hs|, descendPackages)) &&
    AllBytes(facts) == BytesUpTo(hs, |hs|, descendPackages) &&
    AllBlocks(facts) == BlocksUpTo(hs, |hs|, descendPackages) &&
    kids == EnteredUpTo(root, hs, |hs|, descendPackages)
  }

  /** What the facts say of the entry with this id. */
  ghost predicate EntryReported(root: NodeId, hs: seq<Heard>, facts: seq<Fact>, i: nat, descendPackages: bool)
    requires i < |hs|
  {
    BytesFor(facts, root + 1 + i) == BytesAt(hs, i, descendPackages) &&
    BlocksFor(facts, root + 1 + i) == BlocksAt(hs, i, descendPackages) &&
    KindFor(facts, root + 1 + i) == if EnteredAt(hs, i, descendPackages) then Container else File
  }

  ghost predicate EntriesReported(root: NodeId, hs: seq<Heard>, facts: seq<Fact>, descendPackages: bool) {
    (forall i: nat :: i < |hs| ==> EntryReported(root, hs, facts, i, descendPackages)) &&
    (forall n: NodeId :: n <= root || root + |hs| < n ==> BytesFor(facts, n) == 0 == BlocksFor(facts, n)) &&
    (forall c: NodeId :: LinksFrom(facts, c) == IdsIn(root, hs, |hs|, c))
  }

  ghost predicate Tells(root: NodeId, hs: seq<Heard>, o: Outcome, descendPackages: bool) {
    Remembers(o.scan, hs) && CountsTold(root, hs, o.scan, o.facts, o.children, descendPackages) &&
    EntriesReported(root, hs, o.facts, descendPackages)
  }

  function WithEntry(o: Outcome, d: Dir, e: Entry, descendPackages: bool): Outcome {
    Outcome(AfterEntry(o.scan, d, e, descendPackages), o.facts + EntryFacts(o.scan, d, e, descendPackages),
            o.children + EntryChildren(o.scan, d, e, descendPackages))
  }

  lemma UpToNext(root: NodeId, hs: seq<Heard>, h: Heard, descendPackages: bool)
    ensures var hs', n := hs + [h], |hs|;
            BytesUpTo(hs', n + 1, descendPackages) == BytesUpTo(hs, n, descendPackages) + BytesAt(hs', n, descendPackages) &&
            BlocksUpTo(hs', n + 1, descendPackages) == BlocksUpTo(hs, n, descendPackages) + BlocksAt(hs', n, descendPackages) &&
            LeavesUpTo(hs', n + 1, descendPackages) ==
              LeavesUpTo(hs, n, descendPackages) + (if EnteredAt(hs', n, descendPackages) then 0 else 1) &&
            EnteredUpTo(root, hs', n + 1, descendPackages) ==
              EnteredUpTo(root, hs, n, descendPackages) +
              (if EnteredAt(hs', n, descendPackages)
               then [Dir(root + n + 1, if h.entry.identity.Some? then Some(h.entry.identity.value.device) else None)] else [])
  {
    hide EnteredAt, BytesAt, BlocksAt;
    SumsSame(root, hs, [h], |hs|, descendPackages);
    assert (hs + [h])[|hs|] == h;
  }

  lemma EntryCounted(root: NodeId, hs: seq<Heard>, o: Outcome, d: Dir, e: Entry, descendPackages: bool)
    requires Remembers(o.scan, hs) && CountsTold(root, hs, o.scan, o.facts, o.children, descendPackages) && d.id < o.scan.next
    ensures var p := WithEntry(o, d, e, descendPackages);
            CountsTold(root, hs + [Heard(d, e)], p.scan, p.facts, p.children, descendPackages)
  {
    hide Remembers, EnteredAt, BytesAt, BlocksAt, Leaf, Sizes, AllBytes, AllBlocks, BytesUpTo, BlocksUpTo, LeavesUpTo, EnteredUpTo;
    hide AfterEntry, EntryChildren, EntryFacts, FactsOf;
    var (size, onDisk) := Sizes(o.scan, d, e, descendPackages);
    NextAdds(o.scan, hs, d, e, descendPackages);
    UpToNext(root, hs, Heard(d, e), descendPackages);
    EntryCounts(o.scan, d, e, descendPackages);
    LeavesCounted(o.scan, d, e, descendPackages);
    FactsAre(o, d, e, descendPackages);
    EntryTold(o.facts, o.scan.next, d.id, if Leaf(o.scan, d, e, descendPackages) then File else Container, size, onDisk, 0);
  }

  lemma LeavesCounted(sc: Scan, d: Dir, e: Entry, descendPackages: bool)
    ensures var leaf := Leaf(sc, d, e, descendPackages);
            AfterEntry(sc, d, e, descendPackages).stats.files == Clamp(sc.stats.files + if leaf then 1 else 0) &&
            EntryChildren(sc, d, e, descendPackages) ==
              if leaf then [] else [Dir(sc.next, if e.identity.Some? then Some(e.identity.value.device) else None)]
  {
    hide Leaf, Sizes;
  }

  lemma EarlierStillReported(root: NodeId, hs: seq<Heard>, h: Heard, facts: seq<Fact>, kind: Kind, size: U64, onDisk: U64,
                             i: nat, descendPackages: bool)
    requires i < |hs| && EntryReported(root, hs, facts, i, descendPackages) && Home(root, hs, h.dir.id, descendPackages)
    ensures EntryReported(root, hs + [h], facts + FactsOf(root + 1 + |hs|, h.dir.id, kind, size, onDisk), i, descendPackages)
  {
    hide EnteredAt, BytesAt, BlocksAt, BytesFor, BlocksFor, KindFor, LinksFrom, FactsOf;
    EntryTold(facts, root + 1 + |hs|, h.dir.id, kind, size, onDisk, root + 1 + i);
    EarlierSame(hs, [h], i, descendPackages);
  }

  lemma EntryReportedNext(root: NodeId, hs: seq<Heard>, o: Outcome, d: Dir, e: Entry, descendPackages: bool)
    requires Remembers(o.scan, hs) && o.scan.next == root + 1 + |hs| && Home(root, hs, d.id, descendPackages)
    requires EntriesReported(root, hs, o.facts, descendPackages)
    ensures EntriesReported(root, hs + [Heard(d, e)], WithEntry(o, d, e, descendPackages).facts, descendPackages)
  {
    hide Remembers, EnteredAt, BytesAt, BlocksAt, Leaf, Sizes, BytesFor, BlocksFor, KindFor, LinksFrom, FactsOf;
    var h := Heard(d, e);
    var hs', id, kind := hs + [h], o.scan.next, if Leaf(o.scan, d, e, descendPackages) then File else Container;
    var (size, onDisk) := Sizes(o.scan, d, e, descendPackages);
    var facts := o.facts + FactsOf(id, d.id, kind, size, onDisk);
    FactsAre(o, d, e, descendPackages);
    NextAdds(o.scan, hs, d, e, descendPackages);
    forall i: nat | i < |hs| ensures EntryReported(root, hs', facts, i, descendPackages) {
      EarlierStillReported(root, hs, h, o.facts, kind, size, onDisk, i, descendPackages);
    }
    EntryTold(o.facts, id, d.id, kind, size, onDisk, id);
    assert EntryReported(root, hs', facts, |hs|, descendPackages);
    forall n: NodeId | n <= root || root + |hs'| < n ensures BytesFor(facts, n) == 0 == BlocksFor(facts, n) {
      EntryTold(o.facts, id, d.id, kind, size, onDisk, n);
    }
    forall c: NodeId ensures LinksFrom(facts, c) == IdsIn(root, hs', |hs'|, c) {
      EntryTold(o.facts, id, d.id, kind, size, onDisk, c);
      IdsSame(root, hs, [h], |hs|, c);
    }
  }

  lemma FactsAre(o: Outcome, d: Dir, e: Entry, descendPackages: bool)
    ensures WithEntry(o, d, e, descendPackages).facts ==
            o.facts + FactsOf(o.scan.next, d.id, if Leaf(o.scan, d, e, descendPackages) then File else Container,
                              Sizes(o.scan, d, e, descendPackages).0, Sizes(o.scan, d, e, descendPackages).1)
  {
    hide Leaf, Sizes;
  }

  lemma EntryTells(root: NodeId, hs: seq<Heard>, o: Outcome, d: Dir, e: Entry, descendPackages: bool)
    requires Tells(root, hs, o, descendPackages) && Home(root, hs, d.id, descendPackages)
    ensures Tells(root, hs + [Heard(d, e)], WithEntry(o, d, e, descendPackages), descendPackages)
  {
    hide Remembers, EntriesReported, EnteredAt, AfterEntry, EntryFacts;
    RemembersNext(o.scan, hs, d, e, descendPackages);
    EntryCounted(root, hs, o, d, e, descendPackages);
    EntryReportedNext(root, hs, o, d, e, descendPackages);
  }

  // ---------------------------------------------------------------- whole scans

  function Joined(o: Outcome, p: Outcome): Outcome {
    Outcome(p.scan, o.facts + p.facts, o.children + p.children)
  }

  lemma {:induction false} BatchTells(root: NodeId, hs: seq<Heard>, o: Outcome, d: Dir, es: seq<Entry>, descendPackages: bool)
    requires Tells(root, hs, o, descendPackages) && Home(root, hs, d.id, descendPackages)
    ensures Tells(root, hs + InDir(d, es), Joined(o, AfterEntries(o.scan, d, es, descendPackages)), descendPackages)
    decreases |es|
  {
    hide Tells, EnteredAt, AfterEntry, EntryFacts, EntryChildren;
    if es == [] {
      assert hs + InDir(d, es) == hs;
      assert Joined(o, Outcome(o.scan, [], [])) == o;
    } else {
      var front, e := es[..|es| - 1], es[|es| - 1];
      BatchTells(root, hs, o, d, front, descendPackages);
      var p := AfterEntries(o.scan, d, front, descendPackages);
      var mid := hs + InDir(d, front);
      StillHome(root, hs, InDir(d, front), d.id, descendPackages);
      EntryTells(root, mid, Joined(o, p), d, e, descendPackages);
      assert mid + [Heard(d, e)] == hs + InDir(d, es);
      var facts, kids := EntryFacts(p.scan, d, e, descendPackages), EntryChildren(p.scan, d, e, descendPackages);
      assert o.facts + (p.facts + facts) == (o.facts + p.facts) + facts;
      assert o.children + (p.children + kids) == (o.children + p.children) + kids;
    }
  }

  lemma StillHome(root: NodeId, hs: seq<Heard>, more: seq<Heard>, c: NodeId, descendPackages: bool)
    requires Home(root, hs, c, descendPackages)
    ensures Home(root, hs + more, c, descendPackages)
  {
    hide EnteredAt;
    if c != root {
      EarlierSame(hs, more, c - root - 1, descendPackages);
    }
  }

  lemma MarkTells(root: NodeId, hs: seq<Heard>, o: Outcome, f: Fact, scan: Scan, descendPackages: bool)
    requires Tells(root, hs, o, descendPackages) && (f.ContainerScanStarted? || f.ContainerScanCompleted?)
    requires scan == o.scan.(stats := scan.stats) && scan.stats == o.scan.stats.(dirs := scan.stats.dirs)
    ensures Tells(root, hs, Outcome(scan, o.facts + [f], o.children), descendPackages)
  {
    hide EnteredAt, BytesAt, BlocksAt, BytesFor, BlocksFor, KindFor, LinksFrom, AllBytes, AllBlocks;
    OneMoreFact(o.facts, f, 0);
    forall n ensures BytesFor(o.facts + [f], n) == BytesFor(o.facts, n) && BlocksFor(o.facts + [f], n) == BlocksFor(o.facts, n) &&
                     KindFor(o.facts + [f], n) == KindFor(o.facts, n) && LinksFrom(o.facts + [f], n) == LinksFrom(o.facts, n)
    {
      OneMoreFact(o.facts, f, n);
    }
    forall i: nat | i < |hs| ensures EntryReported(root, hs, o.facts + [f], i, descendPackages) {
      assert EntryReported(root, hs, o.facts, i, descendPackages);
    }
    assert Remembers(scan, hs);
  }

  lemma EventTells(root: NodeId, hs: seq<Heard>, o: Outcome, event: Event, descendPackages: bool)
    requires Tells(root, hs, o, descendPackages) && Home(root, hs, event.dir.id, descendPackages)
    ensures Tells(root, hs + HeardIn(event), Joined(o, AfterEvent(o.scan, event, descendPackages)), descendPackages)
  {
    hide Tells, Home, AfterEntries;
    var p := AfterEvent(o.scan, event, descendPackages);
    match event
    case Batch(d, es) => BatchTells(root, hs, o, d, es, descendPackages);
    case Started(d) =>
      assert hs + [] == hs && o.children + [] == o.children;
      MarkTells(root, hs, o, ContainerScanStarted(d.id), p.scan, descendPackages);
    case Done(d) =>
      assert hs + [] == hs && o.children + [] == o.children;
      MarkTells(root, hs, o, ContainerScanCompleted(d.id), p.scan, descendPackages);
  }

  /** The ids handed out are those of the directories entered. */
  lemma {:induction false} EnteredAreHome(root: NodeId, hs: seq<Heard>, n: nat, c: NodeId, descendPackages: bool)
    requires n <= |hs| && c in Ids(EnteredUpTo(root, hs, n, descendPackages))
    ensures Home(root, hs, c, descendPackages)
  {
    hide EnteredAt;
    if n > 0 {
      if c in Ids(EnteredUpTo(root, hs, n - 1, descendPackages)) {
        EnteredAreHome(root, hs, n - 1, c, descendPackages);
      }
    }
  }

  lemma {:induction false} EventsTell(root: NodeId, hs: seq<Heard>, o: Outcome, events: seq<Event>, descendPackages: bool)
    requires Tells(root, hs, o, descendPackages) && Deliverable(o.scan, {root} + Ids(o.children), events, descendPackages)
    ensures Tells(root, hs + AllHeard(events), Joined(o, AfterEvents(o.scan, events, descendPackages)), descendPackages)
    decreases |events|
  {
    hide Tells, AfterEvent, Ids, Home, HeardIn;
    if events == [] {
      assert hs + [] == hs && Joined(o, Outcome(o.scan, [], [])) == o;
    } else {
      var p := AfterEvent(o.scan, events[0], descendPackages);
      var rest := AfterEvents(p.scan, events[1..], descendPackages);
      KnownIsHome(root, hs, o, events[0].dir.id, descendPackages);
      EventTells(root, hs, o, events[0], descendPackages);
      IdsOfBoth(o.children, p.children);
      assert ({root} + Ids(o.children)) + Ids(p.children) == {root} + Ids(o.children + p.children);
      EventsTell(root, hs + HeardIn(events[0]), Joined(o, p), events[1..], descendPackages);
      assert (hs + HeardIn(events[0])) + AllHeard(events[1..]) == hs + AllHeard(events);
      assert (o.facts + p.facts) + rest.facts == o.facts + (p.facts + rest.facts);
      assert (o.children + p.children) + rest.children == o.children + (p.children + rest.children);
    }
  }

  lemma IdsOfBoth(a: seq<Dir>, b: seq<Dir>)
    ensures Ids(a + b) == Ids(a) + Ids(b)
  {
  }

  lemma KnownIsHome(root: NodeId, hs: seq<Heard>, o: Outcome, c: NodeId, descendPackages: bool)
    requires Tells(root, hs, o, descendPackages) && c in {root} + Ids(o.children)
    ensures Home(root, hs, c, descendPackages)
  {
    hide EnteredAt, Ids, EnteredUpTo;
    if c != root {
      EnteredAreHome(root, hs, |hs|, c, descendPackages);
    }
  }

  lemma TellsNothing(root: NodeId, descendPackages: bool)
    ensures Tells(root, [], Outcome(Scan(root + 1, {}, {}, Stats(0, 0, 0)), [], []), descendPackages)
  {
  }

  /** Whatever the order in which the walk delivers the directories, the scan reports of the i-th entry heard,
      under the id `root + 1 + i`: its kind; its bytes and blocks unless it is a symbolic link, a stub, or a
      further name of a file heard of before; and it is linked below the directory it was found in. The
      counters, the totals over all facts and the directories entered follow. */
  lemma ScanTellsEachEntry(root: NodeId, events: seq<Event>, descendPackages: bool)
    requires Deliverable(Scan(root + 1, {}, {}, Stats(0, 0, 0)), {root}, events, descendPackages)
    ensures var o := AfterEvents(Scan(root + 1, {}, {}, Stats(0, 0, 0)), events, descendPackages); var hs := AllHeard(events);
            (forall i: nat :: i < |hs| ==>
               BytesFor(o.facts, root + 1 + i) == BytesAt(hs, i, descendPackages) &&
               BlocksFor(o.facts, root + 1 + i) == BlocksAt(hs, i, descendPackages) &&
               KindFor(o.facts, root + 1 + i) == if EnteredAt(hs, i, descendPackages) then Container else File) &&
            (forall c: NodeId :: LinksFrom(o.facts, c) == IdsIn(root, hs, |hs|, c)) &&
            AllBytes(o.facts) == BytesUpTo(hs, |hs|, descendPackages) &&
            AllBlocks(o.facts) == BlocksUpTo(hs, |hs|, descendPackages) &&
            o.scan.stats.bytes == Clamp(BytesUpTo(hs, |hs|, descendPackages)) &&
            o.scan.stats.files == Clamp(LeavesUpTo(hs, |hs|, descendPackages)) &&
            o.children == EnteredUpTo(root, hs, |hs|, descendPackages)
  {
    hide Deliverable, AfterEvents, AllHeard, EnteredAt, BytesAt, BlocksAt, BytesFor, BlocksFor, KindFor, Remembers, IdsIn, LinksFrom;
    hide BytesUpTo, BlocksUpTo, LeavesUpTo, EnteredUpTo, AllBytes, AllBlocks;
    var o := Outcome(Scan(root + 1, {}, {}, Stats(0, 0, 0)), [], []);
    TellsNothing(root, descendPackages);
    assert {root} + Ids([]) == {root};
    EventsTell(root, [], o, events, descendPackages);
    var p := AfterEvents(o.scan, events, descendPackages);
    var hs := AllHeard(events);
    assert [] + hs == hs && [] + p.facts == p.facts && [] + p.children == p.children;
    assert Joined(o, p) == p;
    forall i: nat | i < |hs|
      ensures BytesFor(p.facts, root + 1 + i) == BytesAt(hs, i, descendPackages) &&
              BlocksFor(p.facts, root + 1 + i) == BlocksAt(hs, i, descendPackages) &&
              KindFor(p.facts, root + 1 + i) == if EnteredAt(hs, i, descendPackages) then Container else File
    {
      assert EntryReported(root, hs, p.facts, i, descendPackages);
    }
  }

  lemma {:induction false} AnnouncementReportsNothing(f: Fact, facts: seq<Fact>)
    requires f.NodeDiscovered?
    ensures AllBytes([f] + facts) == AllBytes(facts) && AllBlocks([f] + facts) == AllBlocks(facts)
    decreases |facts|
  {
    if facts == [] {
      assert [f][..0] == [] && [f] + [] == [f];
    } else {
      var front := facts[..|facts| - 1];
      assert ([f] + facts)[..|[f] + facts| - 1] == [f] + front;
      AnnouncementReportsNothing(f, front);
    }
  }

  /** The totals shown at the root of a finished scan, in any delivery order, are the sums over the entries:
      each file once however many names it has, each directory entered with its own blocks. */
  lemma RootTotalsAreTheEntries(root: NodeId, events: seq<Event>, descendPackages: bool)
    requires Deliverable(Scan(root + 1, {}, {}, Stats(0, 0, 0)), {root}, events, descendPackages)
    ensures var facts := [NodeDiscovered(root, Container)] + AfterEvents(Scan(root + 1, {}, {}, Stats(0, 0, 0)), events, descendPackages).facts;
            var hs := AllHeard(events);
            WellFormed(NewTree(root).nodes) && Stream(NewTree(root), facts) &&
            var t := AppliedAll(NewTree(root), facts);
            Fits(t.nodes) ==>
              root in t.nodes &&
              t.nodes[root].onDisk + t.nodes[root].descendantOnDisk == Clamp(BlocksUpTo(hs, |hs|, descendPackages)) &&
              t.nodes[root].size + t.nodes[root].descendantSize == Clamp(BytesUpTo(hs, |hs|, descendPackages))
  {
    hide *;
    ScanTellsEachEntry(root, events, descendPackages);
    ScannedBlocksAreTheRootTotal(root, events, descendPackages);
    AnnouncementReportsNothing(NodeDiscovered(root, Container), AfterEvents(Scan(root + 1, {}, {}, Stats(0, 0, 0)), events, descendPackages).facts);
  }

  function Starts(events: seq<Event>): nat {
    if events == [] then 0 else (if events[0].Started? then 1 else 0) + Starts(events[1..])
  }

  lemma {:induction false} EntriesKeepDirs(sc: Scan, d: Dir, es: seq<Entry>, descendPackages: bool)
    ensures AfterEntries(sc, d, es, descendPackages).scan.stats.dirs == sc.stats.dirs
  {
    hide EntryFacts, EntryChildren, Leaf, Sizes;
    if es != [] {
      EntriesKeepDirs(sc, d, es[..|es| - 1], descendPackages);
    }
  }

  /** The directories counted are those whose start was heard. */
  lemma {:induction false} DirsAreStarts(sc: Scan, events: seq<Event>, descendPackages: bool)
    ensures AfterEvents(sc, events, descendPackages).scan.stats.dirs == Clamp(sc.stats.dirs + Starts(events))
    decreases |events|
  {
    hide AfterEntries;
    if events != [] {
      if events[0].Batch? {
        EntriesKeepDirs(sc, events[0].dir, events[0].entries, descendPackages);
      }
      DirsAreStarts(AfterEvent(sc, events[0], descendPackages).scan, events[1..], descendPackages);
    }
  }
}
