/** The recursive totals entry by entry: what each adds is said by looking at the entries heard before it. */
module RecursiveCounts {
  import opened DirectoryWalk
  import opened RecursiveTotals

  /** Two entries name one file that has several names. */
  predicate OneFile(a: Entry, b: Entry) {
    a.File? && b.File? && a.facts.identity.Some? && b.facts.identity.Some? &&
    var x, y := a.facts.identity.value, b.facts.identity.value;
    x.links > 1 && y.links > 1 && x.device == y.device && x.file == y.file
  }

  /** Entry i is a file none of whose other names came before. */
  predicate CountsAt(es: seq<Entry>, i: nat)
    requires i < |es|
  {
    es[i].File? && forall j :: 0 <= j < i ==> !OneFile(es[j], es[i])
  }

  /** Entry i is a folder the walk enters: no mount point, and on the root's device where both are known. */
  predicate EntersAt(rootDevice: Option<nat>, es: seq<Entry>, i: nat)
    requires i < |es|
  {
    es[i].Folder? && !es[i].facts.mountPoint &&
    (es[i].facts.identity.Some? && rootDevice.Some? ==> es[i].facts.identity.value.device == rootDevice.value)
  }

  /** Sums over the entries before n. */
  function SizeUpTo(es: seq<Entry>, n: nat): nat
    requires n <= |es|
  {
    if n == 0 then 0 else SizeUpTo(es, n - 1) + if CountsAt(es, n - 1) then es[n - 1].facts.size else 0
  }

  function OnDiskUpTo(es: seq<Entry>, n: nat): nat
    requires n <= |es|
  {
    if n == 0 then 0 else OnDiskUpTo(es, n - 1) + if CountsAt(es, n - 1) then es[n - 1].facts.onDisk else 0
  }

  function FilesUpTo(es: seq<Entry>, n: nat): nat
    requires n <= |es|
  {
    if n == 0 then 0 else FilesUpTo(es, n - 1) + if CountsAt(es, n - 1) then 1 else 0
  }

  function DirsUpTo(rootDevice: Option<nat>, es: seq<Entry>, n: nat): nat
    requires n <= |es|
  {
    if n == 0 then 0 else DirsUpTo(rootDevice, es, n - 1) + if EntersAt(rootDevice, es, n - 1) then 1 else 0
  }

  ghost predicate SeenAre(seen: set<(nat, nat)>, es: seq<Entry>, n: nat)
    requires n <= |es|
  {
    forall k :: k in seen <==> exists j :: 0 <= j < n && es[j].File? && MultiplyLinked(es[j]) && LinkKey(es[j]) == k
  }

  lemma NextCounts(seen: set<(nat, nat)>, es: seq<Entry>, n: nat)
    requires n < |es| && SeenAre(seen, es, n)
    ensures CountsAt(es, n) <==> es[n].File? && !(MultiplyLinked(es[n]) && LinkKey(es[n]) in seen)
  {
    if es[n].File? && MultiplyLinked(es[n]) {
      if j :| 0 <= j < n && OneFile(es[j], es[n]) {
        assert LinkKey(es[j]) == LinkKey(es[n]);
      }
      assert LinkKey(es[n]) in seen <==> exists j :: 0 <= j < n && OneFile(es[j], es[n]);
    }
  }

  lemma NextSeen(t: Tally, rootDevice: Option<nat>, es: seq<Entry>, n: nat)
    requires n < |es| && SeenAre(t.seen, es, n)
    ensures SeenAre(Count(t, rootDevice, es[n]).seen, es, n + 1)
  {
    var after := Count(t, rootDevice, es[n]).seen;
    forall k ensures k in after <==> exists j :: 0 <= j < n + 1 && es[j].File? && MultiplyLinked(es[j]) && LinkKey(es[j]) == k {
      if k in t.seen {
        var j :| 0 <= j < n && es[j].File? && MultiplyLinked(es[j]) && LinkKey(es[j]) == k;
      }
    }
  }

  ghost predicate TotalsAre(t: Totals, rootDevice: Option<nat>, es: seq<Entry>, n: nat)
    requires n <= |es|
  {
    t == Totals(Clamp(SizeUpTo(es, n)), Clamp(OnDiskUpTo(es, n)), Clamp(FilesUpTo(es, n)), Clamp(DirsUpTo(rootDevice, es, n)))
  }

  lemma NextTotals(t: Tally, rootDevice: Option<nat>, es: seq<Entry>, n: nat)
    requires n < |es| && SeenAre(t.seen, es, n) && TotalsAre(t.totals, rootDevice, es, n)
    ensures TotalsAre(Count(t, rootDevice, es[n]).totals, rootDevice, es, n + 1)
  {
    hide SeenAre, CountsAt, MultiplyLinked;
    NextCounts(t.seen, es, n);
  }

  lemma {:induction false} CountedUpTo(rootDevice: Option<nat>, es: seq<Entry>, n: nat)
    requires n <= |es|
    ensures var t := CountAll(EMPTY, rootDevice, es[..n]); SeenAre(t.seen, es, n) && TotalsAre(t.totals, rootDevice, es, n)
  {
    hide SeenAre, TotalsAre, Count;
    if n == 0 {
      NothingCounted(rootDevice, es);
    } else {
      CountedUpTo(rootDevice, es, n - 1);
      var t := CountAll(EMPTY, rootDevice, es[..n - 1]);
      assert es[..n] == es[..n - 1] + [es[n - 1]];
      CountAllConcat(EMPTY, rootDevice, es[..n - 1], [es[n - 1]]);
      CountOne(t, rootDevice, es[n - 1]);
      NextSeen(t, rootDevice, es, n - 1);
      NextTotals(t, rootDevice, es, n - 1);
    }
  }

  lemma NothingCounted(rootDevice: Option<nat>, es: seq<Entry>)
    ensures es[..0] == [] && CountAll(EMPTY, rootDevice, []) == EMPTY && SeenAre({}, es, 0) && TotalsAre(EMPTY.totals, rootDevice, es, 0)
  {
  }

  lemma CountOne(t: Tally, rootDevice: Option<nat>, e: Entry)
    ensures CountAll(t, rootDevice, [e]) == Count(t, rootDevice, e)
  {
    hide Count;
    assert [e][1..] == [];
  }

  /** The totals of any sequence of entries: bytes, blocks and number of the files of which no other name came
      before, and the number of folders entered, each clamped to 64 bits. */
  lemma TotalsEntryByEntry(rootDevice: Option<nat>, es: seq<Entry>)
    ensures CountAll(EMPTY, rootDevice, es).totals ==
            Totals(Clamp(SizeUpTo(es, |es|)), Clamp(OnDiskUpTo(es, |es|)), Clamp(FilesUpTo(es, |es|)), Clamp(DirsUpTo(rootDevice, es, |es|)))
  {
    hide CountAll, SizeUpTo, OnDiskUpTo, FilesUpTo, DirsUpTo;
    CountedUpTo(rootDevice, es, |es|);
    assert es[..|es|] == es;
  }
}
