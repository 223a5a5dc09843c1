/** The scanner's visitor: it turns walk events into a stream of facts, with scan-local ids handed out
    in sequence, and keeps the statistics. Applying its stream, in whatever order the walk delivers the
    directories, ends in a sound tree whose Apparent total is the number of bytes the statistics report. */
module DiskUsageScan {
  import opened DiskUsageModel
  import opened DiskUsageTotals
  import opened DiskUsageObject
  import opened DiskUsageRemoval

  datatype EntryKind = RegularFile | Directory | Symlink

  datatype Identity = Identity(device: nat, file: nat, links: nat)

  /** One directory entry with what the platform tables say about its path; for a package also what
      summing it recursively yields. */
  datatype Entry = Entry(
    kind: EntryKind, size: U64, onDisk: U64, identity: Option<Identity>, mountPoint: bool,
    firmlink: bool, package: bool, packageSize: U64, packageOnDisk: U64)

  datatype Dir = Dir(id: NodeId, device: Option<nat>)

  datatype Event = Started(dir: Dir) | Batch(dir: Dir, entries: seq<Entry>) | Done(dir: Dir)

  datatype Stats = Stats(files: U64, dirs: U64, bytes: U64)

  /** The variables the visitor closure captures. */
  datatype Scan = Scan(next: NodeId, seenDirs: set<(nat, nat)>, seenLinks: set<(nat, nat)>, stats: Stats)

  predicate IsDir(e: Entry) { e.kind == Directory }

  /** The directory crosses to another device without a firmlink, or was walked before. */
  predicate NotEntered(sc: Scan, d: Dir, e: Entry) {
    IsDir(e) && e.identity.Some? && d.device.Some? &&
    ((e.identity.value.device != d.device.value && !e.firmlink) ||
     (e.identity.value.device, e.identity.value.file) in sc.seenDirs)
  }

  predicate Stub(sc: Scan, d: Dir, e: Entry) { e.mountPoint || NotEntered(sc, d, e) }

  predicate Leaf(sc: Scan, d: Dir, e: Entry, descendPackages: bool) {
    !IsDir(e) || Stub(sc, d, e) || (e.package && !descendPackages)
  }

  predicate LinkCounted(sc: Scan, e: Entry) {
    !IsDir(e) && e.identity.Some? && e.identity.value.links > 1 &&
    (e.identity.value.device, e.identity.value.file) in sc.seenLinks
  }

  function Sizes(sc: Scan, d: Dir, e: Entry, descendPackages: bool): (U64, U64) {
    if !Leaf(sc, d, e, descendPackages) then (0, e.onDisk)
    else if e.kind == Symlink || Stub(sc, d, e) || LinkCounted(sc, e) then (0, 0)
    else if e.package && !descendPackages && IsDir(e) then (e.packageSize, e.packageOnDisk)
    else (e.size, e.onDisk)
  }

  function EntryFacts(sc: Scan, d: Dir, e: Entry, descendPackages: bool): seq<Fact> {
    var (size, onDisk) := Sizes(sc, d, e, descendPackages);
    [NodeDiscovered(sc.next, if Leaf(sc, d, e, descendPackages) then File else Container), NodeLinked(d.id, sc.next)]
    + (if size > 0 then [NodeSizeAdded(sc.next, size)] else [])
    + (if onDisk > 0 then [NodeAllocatedAdded(sc.next, onDisk)] else [])
  }

  function EntryChildren(sc: Scan, d: Dir, e: Entry, descendPackages: bool): seq<Dir> {
    if Leaf(sc, d, e, descendPackages) then []
    else [Dir(sc.next, if e.identity.Some? then Some(e.identity.value.device) else None)]
  }

  function AfterEntry(sc: Scan, d: Dir, e: Entry, descendPackages: bool): Scan {
    var key := if e.identity.Some? then (e.identity.value.device, e.identity.value.file) else (0, 0);
    var checksDir := IsDir(e) && e.identity.Some? && d.device.Some? &&
                     (e.identity.value.device == d.device.value || e.firmlink);
    var checksLink := !IsDir(e) && e.identity.Some? && e.identity.value.links > 1;
    sc.(next := sc.next + 1,
        seenDirs := if checksDir then sc.seenDirs + {key} else sc.seenDirs,
        seenLinks := if checksLink then sc.seenLinks + {key} else sc.seenLinks,
        stats := if Leaf(sc, d, e, descendPackages)
                 then sc.stats.(files := Clamp(sc.stats.files + 1), bytes := Clamp(sc.stats.bytes + Sizes(sc, d, e, descendPackages).0))
                 else sc.stats)
  }

  /** The scan state, facts and directories to descend into after a run of entries. */
  datatype Outcome = Outcome(scan: Scan, facts: seq<Fact>, children: seq<Dir>)

  function AfterEntries(sc: Scan, d: Dir, es: seq<Entry>, descendPackages: bool): Outcome {
    if es == [] then Outcome(sc, [], [])
    else
      var o := AfterEntries(sc, d, es[..|es| - 1], descendPackages);
      var e := es[|es| - 1];
      Outcome(AfterEntry(o.scan, d, e, descendPackages),
              o.facts + EntryFacts(o.scan, d, e, descendPackages),
              o.children + EntryChildren(o.scan, d, e, descendPackages))
  }

  function AfterEvent(sc: Scan, event: Event, descendPackages: bool): Outcome {
    match event
    case Started(d) => Outcome(sc.(stats := sc.stats.(dirs := Clamp(sc.stats.dirs + 1))), [ContainerScanStarted(d.id)], [])
    case Batch(d, es) => AfterEntries(sc, d, es, descendPackages)
    case Done(d) => Outcome(sc, [ContainerScanCompleted(d.id)], [])
  }

  function Flatten(batches: seq<seq<Fact>>): seq<Fact> {
    if batches == [] then [] else Flatten(batches[..|batches| - 1]) + batches[|batches| - 1]
  }

  /** The visitor closure. `sent` is the sequence of on_batch calls. */
  class ScanVisitor {
    const descendPackages: bool
    const batchSize: nat
    var scan: Scan
    var buffer: seq<Fact>
    var sent: seq<seq<Fact>>

    ghost function Emitted(): seq<Fact>
      reads this
    {
      Flatten(sent) + buffer
    }

    constructor (root: NodeId, batchSize: nat, descendPackages: bool)
      ensures this.batchSize == batchSize && this.descendPackages == descendPackages
      ensures scan == Scan(root + 1, {}, {}, Stats(0, 0, 0)) && Emitted() == [NodeDiscovered(root, Container)]
    {
      this.batchSize, this.descendPackages := batchSize, descendPackages;
      scan := Scan(root + 1, {}, {}, Stats(0, 0, 0));
      buffer, sent := [NodeDiscovered(root, Container)], [];
    }

    method Flush()
      modifies this`buffer, this`sent
      ensures Emitted() == old(Emitted()) && buffer == []
      ensures sent == old(sent) + [old(buffer)]
    {
      assert (sent + [buffer])[..|sent|] == sent;
      sent, buffer := sent + [buffer], [];
    }

    /** Remembers a directory; false if it was known. */
    method InsertDir(key: (nat, nat)) returns (isNew: bool)
      modifies this`scan
      ensures isNew <==> key !in old(scan).seenDirs
      ensures scan == old(scan).(seenDirs := old(scan).seenDirs + {key})
    {
      isNew := key !in scan.seenDirs;
      scan := scan.(seenDirs := scan.seenDirs + {key});
    }

    method InsertLink(key: (nat, nat)) returns (isNew: bool)
      modifies this`scan
      ensures isNew <==> key !in old(scan).seenLinks
      ensures scan == old(scan).(seenLinks := old(scan).seenLinks + {key})
    {
      isNew := key !in scan.seenLinks;
      scan := scan.(seenLinks := scan.seenLinks + {key});
    }

    /** Whether the entry stays a leaf, and the bytes and blocks it reports; the seen sets learn of it. */
    method Judge(d: Dir, e: Entry) returns (leaf: bool, size: U64, onDisk: U64)
      modifies this`scan
      ensures leaf == Leaf(old(scan), d, e, descendPackages) && (size, onDisk) == Sizes(old(scan), d, e, descendPackages)
      ensures scan == AfterEntry(old(scan), d, e, descendPackages).(next := old(scan).next, stats := old(scan).stats)
    {
      var isDir := e.kind == Directory;
      var stub := e.mountPoint;
      if isDir && e.identity.Some? && d.device.Some? {
        var id := e.identity.value;
        if id.device != d.device.value && !e.firmlink {
          stub := true;
        } else {
          var isNew := InsertDir((id.device, id.file));
          stub := stub || !isNew;
        }
      }
      leaf := !isDir || stub || (e.package && !descendPackages);
      var counted := false;
      if !isDir && e.identity.Some? && e.identity.value.links > 1 {
        var isNew := InsertLink((e.identity.value.device, e.identity.value.file));
        counted := !isNew;
      }
      if !leaf {
        size, onDisk := 0, e.onDisk;
      } else if e.kind == Symlink || stub || counted {
        size, onDisk := 0, 0;
      } else if e.package && !descendPackages && isDir {
        size, onDisk := e.packageSize, e.packageOnDisk;
      } else {
        size, onDisk := e.size, e.onDisk;
      }
    }

    method VisitEntry(d: Dir, e: Entry) returns (children: seq<Dir>)
      modifies this`scan, this`buffer
      ensures scan == AfterEntry(old(scan), d, e, descendPackages)
      ensures buffer == old(buffer) + EntryFacts(old(scan), d, e, descendPackages)
      ensures children == EntryChildren(old(scan), d, e, descendPackages)
    {
      var id := scan.next;
      var leaf, size, onDisk := Judge(d, e);
      scan := scan.(next := id + 1);
      buffer := buffer + [NodeDiscovered(id, if leaf then File else Container)];
      buffer := buffer + [NodeLinked(d.id, id)];
      if size > 0 {
        buffer := buffer + [NodeSizeAdded(id, size)];
      }
      if onDisk > 0 {
        buffer := buffer + [NodeAllocatedAdded(id, onDisk)];
      }
      children := [];
      if leaf {
        scan := scan.(stats := scan.stats.(files := Clamp(scan.stats.files + 1), bytes := Clamp(scan.stats.bytes + size)));
      } else {
        children := [Dir(id, if e.identity.Some? then Some(e.identity.value.device) else None)];
      }
    }

    method VisitBatch(d: Dir, es: seq<Entry>) returns (children: seq<Dir>)
      modifies this`scan, this`buffer
      ensures var o := AfterEntries(old(scan), d, es, descendPackages);
              scan == o.scan && buffer == old(buffer) + o.facts && children == o.children
    {
      hide EntryChildren, EntryFacts, AfterEntry;
      children := [];
      assert es[..0] == [];
      for i := 0 to |es|
        invariant var o := AfterEntries(old(scan), d, es[..i], descendPackages);
                  scan == o.scan && buffer == old(buffer) + o.facts && children == o.children
      {
        assert es[..i + 1][..i] == es[..i];
        var more := VisitEntry(d, es[i]);
        children := children + more;
      }
      assert es[..|es|] == es;
    }

    method Visit(event: Event) returns (children: seq<Dir>)
      modifies this`scan, this`buffer, this`sent
      ensures var o := AfterEvent(old(scan), event, descendPackages);
              scan == o.scan && Emitted() == old(Emitted()) + o.facts && children == o.children
      ensures |buffer| < batchSize || buffer == []
    {
      children := [];
      match event {
        case Started(d) =>
          buffer := buffer + [ContainerScanStarted(d.id)];
          scan := scan.(stats := scan.stats.(dirs := Clamp(scan.stats.dirs + 1)));
        case Batch(d, es) =>
          children := VisitBatch(d, es);
        case Done(d) =>
          buffer := buffer + [ContainerScanCompleted(d.id)];
      }
      assert Emitted() == old(Emitted()) + AfterEvent(old(scan), event, descendPackages).facts;
      if |buffer| >= batchSize {
        Flush();
      }
    }
  }

  // ---------------------------------------------------------------- what the stream builds

  /** Everything hangs below the root, ids are below `next`, the root itself has no bytes. */
  ghost predicate Grown(t: Tree, root: NodeId, next: NodeId) {
    WellFormed(t.nodes) && OneContainer(t) &&
    root in t.nodes && t.nodes[root].parent == None && t.nodes[root].size == 0 &&
    (forall n :: n in t.nodes ==> n < next && (n == root || root in Ancestors(t.nodes, n)))
  }

  ghost predicate Directories(t: Tree, known: set<NodeId>) {
    forall d :: d in known ==> d in t.nodes && t.nodes[d].kind == Container
  }

  lemma StrangersHaveNoMembers(nodes: Nodes, p: NodeId)
    requires Acyclic(nodes) && p !in nodes
    ensures !IsParent(nodes, p)
  {
    if IsParent(nodes, p) {
      var n :| n in nodes && nodes[n].parent == Some(p);
      ParentRanksLower(nodes, n);
    }
  }

  lemma DiscoverAndLink(t: Tree, root: NodeId, next: NodeId, c: NodeId, kind: Kind)
    requires Grown(t, root, next) && c in t.nodes && t.nodes[c].kind == Container
    ensures Announceable(t.nodes, NodeDiscovered(next, kind))
    ensures var t1 := Applied(t, NodeDiscovered(next, kind));
            WellFormed(t1.nodes) && Announceable(t1.nodes, NodeLinked(c, next)) &&
            var t2 := Applied(t1, NodeLinked(c, next));
            Grown(t2, root, next + 1) && t2.nodes.Keys == t.nodes.Keys + {next} &&
            t2.nodes[next].size == 0 && t2.nodes[next].onDisk == 0 && t2.nodes[next].kind == kind &&
            Grand(Apparent, t2.nodes) == Grand(Apparent, t.nodes) &&
            forall n :: n in t.nodes ==> t2.nodes[n].kind == t.nodes[n].kind
  {
    hide Grand, OneContainer, Ancestors, IsParent, SetSum, Exact;
    StrangersHaveNoMembers(t.nodes, next);
    FactKeepsTotals(t, NodeDiscovered(next, kind));
    var t1 := Applied(t, NodeDiscovered(next, kind));
    assert t1.nodes == t.nodes[next := FRESH.(kind := kind)];
    SameNumbersExact(t.nodes, t1.nodes);
    LinkFresh(t, t1, root, next, c);
  }

  /** The link of a freshly discovered node takes effect. */
  lemma FreshLinkAdopts(t: Tree, t1: Tree, next: NodeId, c: NodeId)
    requires Acyclic(t.nodes) && c in t.nodes && t.nodes[c].kind == Container && next !in t.nodes
    requires t1.nodes.Keys == t.nodes.Keys + {next} && t1.nodes[next].parent == None
    requires forall n :: n in t.nodes ==> t1.nodes[n] == t.nodes[n]
    requires WellFormed(t1.nodes)
    ensures !Refuses(t1.nodes, c, next) && Applied(t1, NodeLinked(c, next)).nodes == Adopt(t1.nodes, c, next)
    ensures Applied(t1, NodeLinked(c, next)).containers == t1.containers[c := MembersOf(t1.containers, c) + [next]]
  {
    hide Adopt, ParentsAreContainers;
    var n1 := t1.nodes;
    assert AsContainer(n1, c) == n1;
    AncestorsRankLower(n1, c);
    SameAncestors(t.nodes, n1, c);
    AncestorsRankLower(t.nodes, c);
  }

  /** A freshly discovered node is linked below a node of the tree. */
  lemma LinkFresh(t: Tree, t1: Tree, root: NodeId, next: NodeId, c: NodeId)
    requires Grown(t, root, next) && c in t.nodes && t.nodes[c].kind == Container
    requires next !in t.nodes && t1.nodes.Keys == t.nodes.Keys + {next} && t1.containers == t.containers
    requires t1.nodes[next].parent == None && t1.nodes[next].size == 0 && t1.nodes[next].onDisk == 0
    requires forall n :: n in t.nodes ==> t1.nodes[n] == t.nodes[n]
    requires WellFormed(t1.nodes) && Grand(Apparent, t1.nodes) == Grand(Apparent, t.nodes)
    ensures var t2 := Applied(t1, NodeLinked(c, next));
            Grown(t2, root, next + 1) && t2.nodes.Keys == t1.nodes.Keys &&
            t2.nodes[next].size == 0 && t2.nodes[next].onDisk == 0 && t2.nodes[next].kind == t1.nodes[next].kind &&
            Grand(Apparent, t2.nodes) == Grand(Apparent, t.nodes) &&
            forall n :: n in t.nodes ==> t2.nodes[n].kind == t.nodes[n].kind
  {
    hide Adopt, Refuses, SetSum, OneContainer, ParentsAreContainers, Applied, AsContainer, Exact, Fits;
    var n1 := t1.nodes;
    FreshLinkAdopts(t, t1, next, c);
    AdoptKeeps(n1, c, next);
    AdoptShape(n1, c, next);
    var t2 := Applied(t1, NodeLinked(c, next));
    AcceptedLinkIsForeign(n1, c, next);
    forall n | n in t2.nodes && n != root ensures root in Ancestors(t2.nodes, n) {
      LinkedBelowRoot(t.nodes, n1, t2.nodes, root, c, next, n);
    }
    LinkKeepsOneContainer(t, t2, c, next);
    SetSumSame(Apparent, n1, t2.nodes, n1.Keys);
  }

  lemma LinkedBelowRoot(before: Nodes, n1: Nodes, after: Nodes, root: NodeId, c: NodeId, next: NodeId, n: NodeId)
    requires Acyclic(before) && Acyclic(n1) && Acyclic(after) && SameParents(before, n1)
    requires Hung(n1, after, c, next) && c !in Subtree(n1, next) && c in before && next !in before
    requires forall m :: m in before ==> m == root || root in Ancestors(before, m)
    requires n == next || n in before
    ensures n == root || root in Ancestors(after, n)
  {
    HungAncestors(n1, after, c, next, n);
    SameAncestors(before, n1, n);
    SameAncestors(before, n1, c);
  }

  lemma LinkKeepsOneContainer(t: Tree, t2: Tree, c: NodeId, n: NodeId)
    requires OneContainer(t) && n !in t.nodes && t2.nodes.Keys == t.nodes.Keys + {n}
    requires t2.nodes[n].parent == Some(c) && forall m :: m in t.nodes ==> t2.nodes[m].parent == t.nodes[m].parent
    requires t2.containers == t.containers[c := MembersOf(t.containers, c) + [n]]
    ensures OneContainer(t2)
  {
    forall d: NodeId, m: NodeId | m in MembersOf(t2.containers, d) ensures m in t2.nodes && t2.nodes[m].parent == Some(d) {
      assert m in MembersOf(t.containers, d) || (d == c && m == n);
    }
    forall m | m in t2.nodes && t2.nodes[m].parent.Some? ensures m in MembersOf(t2.containers, t2.nodes[m].parent.value) {
      if m != n {
        assert m in MembersOf(t.containers, t.nodes[m].parent.value);
      }
    }
    forall d ensures Distinct(MembersOf(t2.containers, d)) {
      assert Distinct(MembersOf(t.containers, d));
      if d == c {
        assert n !in MembersOf(t.containers, c);
      }
    }
  }

  lemma SizeGrows(t: Tree, root: NodeId, next: NodeId, id: NodeId, bytes: U64)
    requires Grown(t, root, next) && id in t.nodes && id != root && t.nodes[id].size == 0
    ensures var t' := Applied(t, NodeSizeAdded(id, bytes));
            Grown(t', root, next) && t'.nodes.Keys == t.nodes.Keys &&
            t'.nodes[id].onDisk == t.nodes[id].onDisk &&
            Grand(Apparent, t'.nodes) == Grand(Apparent, t.nodes) + bytes &&
            forall n :: n in t.nodes ==> t'.nodes[n].kind == t.nodes[n].kind
  {
    var node := MoreBytes(t.nodes[id], bytes);
    var after := Resize(t.nodes, id, node);
    ResizeShape(t.nodes, id, node);
    SameParentsKeepGrown(t, after, root, next);
    SetSumChange(Apparent, t.nodes, after, t.nodes.Keys, id);
  }

  lemma OnDiskGrows(t: Tree, root: NodeId, next: NodeId, id: NodeId, bytes: U64)
    requires Grown(t, root, next) && id in t.nodes
    ensures var t' := Applied(t, NodeAllocatedAdded(id, bytes));
            Grown(t', root, next) && t'.nodes.Keys == t.nodes.Keys &&
            Grand(Apparent, t'.nodes) == Grand(Apparent, t.nodes) &&
            forall n :: n in t.nodes ==> t'.nodes[n].kind == t.nodes[n].kind
  {
    hide Resize, OneContainer, Ancestors, SetSum, SameParents;
    var node := MoreOnDisk(t.nodes[id], bytes);
    var after := Resize(t.nodes, id, node);
    ResizeShape(t.nodes, id, node);
    SameParentsKeepGrown(t, after, root, next);
    SetSumSame(Apparent, t.nodes, after, t.nodes.Keys);
  }

  lemma SameParentsKeepGrown(t: Tree, after: Nodes, root: NodeId, next: NodeId)
    requires Grown(t, root, next) && SameParents(t.nodes, after) && after.Keys == t.nodes.Keys
    requires forall n :: n in after ==> after[n].kind == t.nodes[n].kind
    requires after[root].size == 0
    ensures Grown(t.(nodes := after), root, next)
  {
    SameParentsAcyclic(t.nodes, after);
    SameParentsContainers(t.nodes, after);
    forall n ensures Ancestors(after, n) == Ancestors(t.nodes, n) {
      SameAncestors(t.nodes, after, n);
    }
  }

  lemma {:induction false} AppliedAllConcat(t: Tree, a: seq<Fact>, b: seq<Fact>)
    requires WellFormed(t.nodes) && Stream(t, a)
    requires (StreamKeepsTotals(t, a); Stream(AppliedAll(t, a), b))
    ensures Stream(t, a + b) && AppliedAll(t, a + b) == AppliedAll(AppliedAll(t, a), b)
    decreases a
  {
    if a == [] {
      assert a + b == b;
    } else {
      FactKeepsTotals(t, a[0]);
      assert (a + b)[1..] == a[1..] + b;
      AppliedAllConcat(Applied(t, a[0]), a[1..], b);
    }
  }

  /** The tree agrees with the scan: structure, directories handed out, and the byte count. */
  ghost predicate Agrees(t: Tree, root: NodeId, sc: Scan, known: set<NodeId>) {
    Grown(t, root, sc.next) && Directories(t, known) && sc.stats.bytes == Clamp(Grand(Apparent, t.nodes))
  }

  function Ids(ds: seq<Dir>): set<NodeId> { set d | d in ds :: d.id }

  /** The stream is admissible from `t` and ends in a tree that agrees with the scan. */
  ghost predicate Leads(t: Tree, facts: seq<Fact>, root: NodeId, sc: Scan, known: set<NodeId>)
    requires WellFormed(t.nodes)
  {
    Stream(t, facts) && Agrees(AppliedAll(t, facts), root, sc, known)
  }

  lemma LeadsThenLeads(t: Tree, a: seq<Fact>, b: seq<Fact>, root: NodeId, mid: Scan, known: set<NodeId>, end: Scan, more: set<NodeId>)
    requires WellFormed(t.nodes) && Leads(t, a, root, mid, known)
    requires Agrees(AppliedAll(t, a), root, mid, known) ==> Leads(AppliedAll(t, a), b, root, end, more)
    ensures Leads(t, a + b, root, end, more)
  {
    StreamKeepsTotals(t, a);
    AppliedAllConcat(t, a, b);
  }

  lemma OneFact(t: Tree, fact: Fact)
    requires WellFormed(t.nodes) && Announceable(t.nodes, fact)
    ensures Stream(t, [fact]) && AppliedAll(t, [fact]) == Applied(t, fact)
  {
    FactKeepsTotals(t, fact);
    assert [fact][1..] == [];
    assert AppliedAll(Applied(t, fact), []) == Applied(t, fact);
  }

  lemma OptionalFact(t: Tree, fact: Fact, present: bool)
    requires WellFormed(t.nodes) && Announceable(t.nodes, fact)
    ensures var facts := if present then [fact] else [];
            Stream(t, facts) && AppliedAll(t, facts) == if present then Applied(t, fact) else t
  {
    OneFact(t, fact);
  }

  /** A node is announced and linked; then its sizes, if any, arrive. */
  lemma NodeJoins(t: Tree, root: NodeId, id: NodeId, c: NodeId, kind: Kind, size: U64, onDisk: U64)
    requires Grown(t, root, id) && c in t.nodes && t.nodes[c].kind == Container
    ensures var facts := [NodeDiscovered(id, kind), NodeLinked(c, id)]
                         + (if size > 0 then [NodeSizeAdded(id, size)] else [])
                         + (if onDisk > 0 then [NodeAllocatedAdded(id, onDisk)] else []);
            Stream(t, facts) && var t' := AppliedAll(t, facts);
            Grown(t', root, id + 1) && Grand(Apparent, t'.nodes) == Grand(Apparent, t.nodes) + size &&
            id in t'.nodes && t'.nodes[id].kind == kind &&
            forall n :: n in t.nodes ==> n in t'.nodes && t'.nodes[n].kind == t.nodes[n].kind
  {
    hide Stream, AppliedAll, Applied, Grand, OneContainer, Ancestors, Acyclic, ParentsAreContainers;
    var head := AnnounceAndLink(t, root, id, c, kind);
    var t2 := AppliedAll(t, head);
    var sized := if size > 0 then [NodeSizeAdded(id, size)] else [];
    var stored := if onDisk > 0 then [NodeAllocatedAdded(id, onDisk)] else [];
    SizeGrows(t2, root, id + 1, id, size);
    OptionalFact(t2, NodeSizeAdded(id, size), size > 0);
    AppliedAllConcat(t, head, sized);
    var t3 := AppliedAll(t, head + sized);
    OnDiskGrows(t3, root, id + 1, id, onDisk);
    OptionalFact(t3, NodeAllocatedAdded(id, onDisk), onDisk > 0);
    AppliedAllConcat(t, head + sized, stored);
  }

  lemma AnnounceAndLink(t: Tree, root: NodeId, id: NodeId, c: NodeId, kind: Kind) returns (head: seq<Fact>)
    requires Grown(t, root, id) && c in t.nodes && t.nodes[c].kind == Container
    ensures head == [NodeDiscovered(id, kind), NodeLinked(c, id)] && Stream(t, head)
    ensures var t2 := AppliedAll(t, head);
            Grown(t2, root, id + 1) && t2.nodes.Keys == t.nodes.Keys + {id} &&
            t2.nodes[id].size == 0 && t2.nodes[id].onDisk == 0 && t2.nodes[id].kind == kind &&
            Grand(Apparent, t2.nodes) == Grand(Apparent, t.nodes) &&
            forall n :: n in t.nodes ==> t2.nodes[n].kind == t.nodes[n].kind
  {
    hide AppliedAll, Applied, OneContainer, Ancestors, Announceable, SetSum;
    var f1, f2 := NodeDiscovered(id, kind), NodeLinked(c, id);
    DiscoverAndLink(t, root, id, c, kind);
    OneFact(t, f1);
    OneFact(Applied(t, f1), f2);
    AppliedAllConcat(t, [f1], [f2]);
    head := [f1, f2];
    assert [f1] + [f2] == head;
  }

  /** The facts of one entry: its node joins the tree below its directory with its sizes. */
  lemma EntryLeads(t: Tree, root: NodeId, sc: Scan, known: set<NodeId>, d: Dir, e: Entry, descendPackages: bool)
    requires Agrees(t, root, sc, known) && d.id in known
    ensures Leads(t, EntryFacts(sc, d, e, descendPackages), root, AfterEntry(sc, d, e, descendPackages),
                  known + Ids(EntryChildren(sc, d, e, descendPackages)))
  {
    hide Stream, AppliedAll, Grand, OneContainer, Ancestors;
    var (size, onDisk) := Sizes(sc, d, e, descendPackages);
    var kind := if Leaf(sc, d, e, descendPackages) then File else Container;
    EntryCounts(sc, d, e, descendPackages);
    NodeJoins(t, root, sc.next, d.id, kind, size, onDisk);
    var facts := EntryFacts(sc, d, e, descendPackages);
    var t' := AppliedAll(t, facts);
    assert Directories(t', known + Ids(EntryChildren(sc, d, e, descendPackages)));
    assert Clamp(Clamp(Grand(Apparent, t.nodes)) + size) == Clamp(Grand(Apparent, t'.nodes));
  }

  lemma EntryCounts(sc: Scan, d: Dir, e: Entry, descendPackages: bool)
    ensures var after := AfterEntry(sc, d, e, descendPackages); var leaf := Leaf(sc, d, e, descendPackages);
            after.next == sc.next + 1 &&
            (sc.stats.bytes <= U64_MAX ==> after.stats.bytes == Clamp(sc.stats.bytes + Sizes(sc, d, e, descendPackages).0)) &&
            Ids(EntryChildren(sc, d, e, descendPackages)) == if leaf then {} else {sc.next}
  {
  }

  lemma {:induction false} EntriesLead(t: Tree, root: NodeId, sc: Scan, known: set<NodeId>, d: Dir, es: seq<Entry>, descendPackages: bool)
    requires Agrees(t, root, sc, known) && d.id in known
    ensures var o := AfterEntries(sc, d, es, descendPackages);
            Leads(t, o.facts, root, o.scan, known + Ids(o.children))
    decreases |es|
  {
    hide EntryChildren, EntryFacts, Grand, Applied, OneContainer, Ancestors;
    if es == [] {
      assert known + Ids([]) == known;
      assert AppliedAll(t, []) == t;
    } else {
      var front, e := es[..|es| - 1], es[|es| - 1];
      EntriesLead(t, root, sc, known, d, front, descendPackages);
      var o := AfterEntries(sc, d, front, descendPackages);
      StreamKeepsTotals(t, o.facts);
      EntryLeads(AppliedAll(t, o.facts), root, o.scan, known + Ids(o.children), d, e, descendPackages);
      var kids := EntryChildren(o.scan, d, e, descendPackages);
      assert Ids(o.children + kids) == Ids(o.children) + Ids(kids);
      assert known + Ids(o.children + kids) == known + Ids(o.children) + Ids(kids);
      LeadsThenLeads(t, o.facts, EntryFacts(o.scan, d, e, descendPackages), root, o.scan, known + Ids(o.children),
        AfterEntry(o.scan, d, e, descendPackages), known + Ids(o.children + kids));
    }
  }

  lemma MarkLeads(t: Tree, root: NodeId, sc: Scan, end: Scan, known: set<NodeId>, fact: Fact)
    requires Agrees(t, root, sc, known) && end.next == sc.next && end.stats.bytes == sc.stats.bytes
    requires (fact.ContainerScanStarted? || fact.ContainerScanCompleted?) && fact.container in t.nodes
    ensures Leads(t, [fact], root, end, known)
  {
    hide Clamp, AppliedAll, OneContainer;
    OneFact(t, fact);
    var after := Applied(t, fact).nodes;
    SameParentsKeepGrown(t, after, root, sc.next);
    SetSumSame(Apparent, t.nodes, after, t.nodes.Keys);
  }

  /** One event for a directory that was handed out earlier. */
  lemma EventLeads(t: Tree, root: NodeId, sc: Scan, known: set<NodeId>, event: Event, descendPackages: bool)
    requires Agrees(t, root, sc, known) && event.dir.id in known
    ensures var o := AfterEvent(sc, event, descendPackages);
            Leads(t, o.facts, root, o.scan, known + Ids(o.children))
  {
    var o := AfterEvent(sc, event, descendPackages);
    match event
    case Batch(d, es) => EntriesLead(t, root, sc, known, d, es, descendPackages);
    case Started(d) =>
      assert known + Ids([]) == known;
      MarkLeads(t, root, sc, o.scan, known, ContainerScanStarted(d.id));
    case Done(d) =>
      assert known + Ids([]) == known;
      MarkLeads(t, root, sc, o.scan, known, ContainerScanCompleted(d.id));
  }

  /** A delivery order the walk can produce: events only for the root and for directories handed out
      by earlier events. */
  predicate Deliverable(sc: Scan, known: set<NodeId>, events: seq<Event>, descendPackages: bool)
    decreases events
  {
    events != [] ==>
      events[0].dir.id in known &&
      var o := AfterEvent(sc, events[0], descendPackages);
      Deliverable(o.scan, known + Ids(o.children), events[1..], descendPackages)
  }

  function AfterEvents(sc: Scan, events: seq<Event>, descendPackages: bool): Outcome
    decreases events
  {
    if events == [] then Outcome(sc, [], [])
    else
      var o := AfterEvent(sc, events[0], descendPackages);
      var rest := AfterEvents(o.scan, events[1..], descendPackages);
      Outcome(rest.scan, o.facts + rest.facts, o.children + rest.children)
  }

  lemma {:induction false} EventsLead(t: Tree, root: NodeId, sc: Scan, known: set<NodeId>, events: seq<Event>, descendPackages: bool)
    requires Agrees(t, root, sc, known) && Deliverable(sc, known, events, descendPackages)
    ensures var o := AfterEvents(sc, events, descendPackages);
            Leads(t, o.facts, root, o.scan, known + Ids(o.children))
    decreases events
  {
    hide AfterEvent, Directories, Clamp, Grand, WellFormed, Applied, OneContainer, Ancestors;
    if events == [] {
      assert known + Ids([]) == known;
      assert AppliedAll(t, []) == t;
    } else {
      var o := AfterEvent(sc, events[0], descendPackages);
      var rest := AfterEvents(o.scan, events[1..], descendPackages);
      EventLeads(t, root, sc, known, events[0], descendPackages);
      StreamKeepsTotals(t, o.facts);
      EventsLead(AppliedAll(t, o.facts), root, o.scan, known + Ids(o.children), events[1..], descendPackages);
      assert Ids(o.children + rest.children) == Ids(o.children) + Ids(rest.children);
      assert known + Ids(o.children + rest.children) == known + Ids(o.children) + Ids(rest.children);
      LeadsThenLeads(t, o.facts, rest.facts, root, o.scan, known + Ids(o.children), rest.scan, known + Ids(o.children + rest.children));
    }
  }

  /** A finished scan, in any delivery order: the facts build a sound tree, and the root's Apparent
      total is the byte count the statistics report, as long as the sizes fit u64. */
  lemma ScannedBytesAreTheRootTotal(root: NodeId, events: seq<Event>, descendPackages: bool)
    requires Deliverable(Scan(root + 1, {}, {}, Stats(0, 0, 0)), {root}, events, descendPackages)
    ensures var o := AfterEvents(Scan(root + 1, {}, {}, Stats(0, 0, 0)), events, descendPackages);
            var facts := [NodeDiscovered(root, Container)] + o.facts;
            WellFormed(NewTree(root).nodes) && Stream(NewTree(root), facts) &&
            var t := AppliedAll(NewTree(root), facts);
            Fits(t.nodes) ==>
              Sound(t) && root in t.nodes && Subtree(t.nodes, root) == t.nodes.Keys &&
              Own(Apparent, t.nodes[root]) + Below(Apparent, t.nodes[root]) == o.scan.stats.bytes
  {
    hide Deliverable, AfterEvents, AfterEvent, Ranked;
    var sc := Scan(root + 1, {}, {}, Stats(0, 0, 0));
    var t0 := NewTree(root);
    NewTreeIsExact(root);
    var f := NodeDiscovered(root, Container);
    assert Applied(t0, f) == t0;
    OneFact(t0, f);
    assert Ancestors(t0.nodes, root) == {};
    SetSumOut(Apparent, t0.nodes, {root}, root);
    assert {root} - {root} == {} && t0.nodes.Keys == {root};
    assert Grown(t0, root, root + 1);
    var o := AfterEvents(sc, events, descendPackages);
    EventsLead(t0, root, sc, {root}, events, descendPackages);
    AppliedAllConcat(t0, [f], o.facts);
    StreamKeepsTotals(t0, [f] + o.facts);
    var t := AppliedAll(t0, [f] + o.facts);
    if Fits(t.nodes) {
      SubtreeSum(Apparent, t.nodes, root);
      assert Subtree(t.nodes, root) == t.nodes.Keys;
    }
  }
}
