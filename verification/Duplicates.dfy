/** The exact-duplicate funnel: candidates are grouped by size, then by a hash of their first bytes, then
    by a hash of all bytes, then, if asked, by the bytes themselves. */
module Duplicates {
  import opened FileStreams

  const PARTIAL_HASH_BYTES: nat := 65536

  /** A file as the scan sees it. Each of the two hashing passes reads it or fails; `faulty` says whether
      later comparisons can fail. */
  datatype Candidate = Candidate(
    node: nat, content: seq<Byte>, fileId: Option<(nat, nat)>, partialReads: bool, fullReads: bool, faulty: bool)

  datatype Hashes = Hashes(partial: seq<Byte> -> nat, full: seq<Byte> -> nat)

  datatype Stage = BySize | ByPartial | ByFull | ByContent

  function Prefix(c: Candidate): seq<Byte> { c.content[..Min(|c.content|, PARTIAL_HASH_BYTES)] }

  /** The key a stage groups by; none when the file cannot be read. */
  function KeyOf(h: Hashes, stage: Stage, c: Candidate): Option<nat> {
    match stage
    case BySize => Some(|c.content|)
    case ByPartial => if c.partialReads then Some(h.partial(Prefix(c))) else None
    case ByFull => if c.fullReads then Some(h.full(c.content)) else None
    case ByContent => None
  }

  predicate SameKey(h: Hashes, stage: Stage, c: Candidate, d: Candidate) {
    KeyOf(h, stage, c).Some? && KeyOf(h, stage, c) == KeyOf(h, stage, d)
  }

  /** Two candidates a stage, and all stages before it, leave together. */
  predicate Same(h: Hashes, stage: Stage, c: Candidate, d: Candidate) {
    SameKey(h, BySize, c, d) &&
    (stage != BySize ==> SameKey(h, ByPartial, c, d)) &&
    (stage == ByFull || stage == ByContent ==> SameKey(h, ByFull, c, d)) &&
    (stage == ByContent ==> c.content == d.content)
  }

  /** The candidates of a list that go with c, in order. */
  function ClassIn(h: Hashes, stage: Stage, cs: seq<Candidate>, c: Candidate): (r: seq<Candidate>)
    ensures forall x :: x in r <==> x in cs && Same(h, stage, c, x)
  {
    if cs == [] then []
    else
      var init, last := cs[..|cs| - 1], cs[|cs| - 1];
      assert cs == init + [last];
      ClassIn(h, stage, init, c) + if Same(h, stage, c, last) then [last] else []
  }

  function With(h: Hashes, stage: Stage, cs: seq<Candidate>, key: nat): (r: seq<Candidate>)
    ensures forall x :: x in r <==> x in cs && KeyOf(h, stage, x) == Some(key)
  {
    if cs == [] then []
    else
      var init, last := cs[..|cs| - 1], cs[|cs| - 1];
      assert cs == init + [last];
      With(h, stage, init, key) + if KeyOf(h, stage, last) == Some(key) then [last] else []
  }

  predicate Alike(h: Hashes, stage: Stage, cs: seq<Candidate>) {
    forall c, d :: c in cs && d in cs ==> Same(h, stage, c, d)
  }

  // ---------------------------------------------------------------- equivalence

  lemma SameIsPartialEquivalence(h: Hashes, stage: Stage, a: Candidate, b: Candidate, c: Candidate)
    ensures Same(h, stage, a, b) ==> Same(h, stage, b, a) && Same(h, stage, a, a)
    ensures Same(h, stage, a, b) && Same(h, stage, b, c) ==> Same(h, stage, a, c)
  {
  }

  lemma {:induction false} AlikeShareAClass(h: Hashes, stage: Stage, cs: seq<Candidate>, c: Candidate, d: Candidate)
    requires Same(h, stage, c, d)
    ensures ClassIn(h, stage, cs, c) == ClassIn(h, stage, cs, d)
  {
    if cs != [] {
      var last := cs[|cs| - 1];
      AlikeShareAClass(h, stage, cs[..|cs| - 1], c, d);
      SameIsPartialEquivalence(h, stage, c, d, last);
      SameIsPartialEquivalence(h, stage, d, c, last);
    }
  }

  function Prior(stage: Stage): Stage
    requires stage != BySize
  {
    match stage
    case ByPartial => BySize
    case ByFull => ByPartial
    case ByContent => ByFull
  }

  predicate Refines(fine: Stage, coarse: Stage) {
    match coarse
    case BySize => true
    case ByPartial => fine != BySize
    case ByFull => fine == ByFull || fine == ByContent
    case ByContent => fine == ByContent
  }

  lemma FinerIsNarrower(h: Hashes, fine: Stage, coarse: Stage, c: Candidate, d: Candidate)
    requires Refines(fine, coarse) && Same(h, fine, c, d)
    ensures Same(h, coarse, c, d)
  {
  }

  /** Looking inside a coarse class loses none of a finer one. */
  lemma {:induction false} ClassOfClass(h: Hashes, fine: Stage, coarse: Stage, cs: seq<Candidate>, c: Candidate)
    requires Refines(fine, coarse)
    ensures ClassIn(h, fine, ClassIn(h, coarse, cs, c), c) == ClassIn(h, fine, cs, c)
  {
    if cs != [] {
      var init, last := cs[..|cs| - 1], cs[|cs| - 1];
      ClassOfClass(h, fine, coarse, init, c);
      var r := ClassIn(h, coarse, init, c);
      if Same(h, coarse, c, last) {
        assert (r + [last])[..|r|] == r;
      } else if Same(h, fine, c, last) {
        FinerIsNarrower(h, fine, coarse, c, last);
      } else {
        assert r + [] == r;
      }
    }
  }

  /** Among candidates a stage cannot tell apart, the next stage's key decides. */
  lemma {:induction false} KeyedIsClass(h: Hashes, stage: Stage, cs: seq<Candidate>, c: Candidate)
    requires stage != ByContent && KeyOf(h, stage, c).Some?
    requires stage != BySize ==> forall d :: d in cs ==> Same(h, Prior(stage), c, d)
    ensures With(h, stage, cs, KeyOf(h, stage, c).value) == ClassIn(h, stage, cs, c)
  {
    if cs != [] {
      var init, last := cs[..|cs| - 1], cs[|cs| - 1];
      assert last in cs && forall d :: d in init ==> d in cs;
      KeyedIsClass(h, stage, init, c);
    }
  }

  /** The first bytes of a file. */
  function Head(bytes: seq<Byte>, n: nat): seq<Byte> { if |bytes| <= n then bytes else bytes[..n] }

  /** The second stage reads the first 65536 bytes and no others: files that agree on them meet, and with a hash
      that tells them apart no others do. So files that differ early are never read to the end. */
  lemma PartialStageReadsTheHead(h: Hashes, c: Candidate, d: Candidate)
    requires c.partialReads && d.partialReads && |c.content| == |d.content|
    ensures Head(c.content, 65536) == Head(d.content, 65536) ==> Same(h, ByPartial, c, d)
    ensures (forall a, b :: h.partial(a) == h.partial(b) ==> a == b) ==>
              (Same(h, ByPartial, c, d) <==> Head(c.content, 65536) == Head(d.content, 65536))
  {
    assert c.content[..|c.content|] == c.content && d.content[..|d.content|] == d.content;
    assert Prefix(c) == Head(c.content, 65536) && Prefix(d) == Head(d.content, 65536);
  }

  /** The third stage reads everything: files alike in all bytes meet, and with a hash that tells files apart no
      others do. */
  lemma FullStageReadsAll(h: Hashes, c: Candidate, d: Candidate)
    requires c.partialReads && d.partialReads && c.fullReads && d.fullReads
    ensures c.content == d.content ==> Same(h, ByFull, c, d) && Same(h, ByContent, c, d)
    ensures (forall a, b :: h.full(a) == h.full(b) ==> a == b) ==> (Same(h, ByFull, c, d) <==> c.content == d.content)
    ensures Same(h, ByContent, c, d) ==> c.content == d.content
  {
  }

  // ---------------------------------------------------------------- what a split must be

  /** Every group is a whole class of at least two, and no class comes twice. */
  ghost predicate Exact(h: Hashes, stage: Stage, cs: seq<Candidate>, groups: seq<seq<Candidate>>) {
    (forall i :: 0 <= i < |groups| ==> |groups[i]| >= 2 && groups[i] == ClassIn(h, stage, cs, groups[i][0])) &&
    (forall i, j :: 0 <= i < j < |groups| ==> groups[i] != [] && groups[j] != [] && !Same(h, stage, groups[i][0], groups[j][0]))
  }

  ghost predicate Listed(h: Hashes, stage: Stage, groups: seq<seq<Candidate>>, c: Candidate) {
    exists i :: 0 <= i < |groups| && groups[i] != [] && Same(h, stage, c, groups[i][0])
  }

  /** Every class of at least two among the given candidates is there. */
  ghost predicate Complete(h: Hashes, stage: Stage, cs: seq<Candidate>, groups: seq<seq<Candidate>>, among: seq<Candidate>) {
    forall c :: c in among && |ClassIn(h, stage, cs, c)| >= 2 ==> Listed(h, stage, groups, c)
  }

  /** Whatever else happened, a group holds only candidates that belong together. */
  predicate Sound(h: Hashes, stage: Stage, cs: seq<Candidate>, groups: seq<seq<Candidate>>) {
    forall i :: 0 <= i < |groups| ==> |groups[i]| >= 2 && Alike(h, stage, groups[i]) && forall c :: c in groups[i] ==> c in cs
  }

  /** Groups found inside one coarse class are groups of the whole list. */
  lemma ExactInside(h: Hashes, fine: Stage, coarse: Stage, cs: seq<Candidate>, c: Candidate, groups: seq<seq<Candidate>>)
    requires Refines(fine, coarse) && Exact(h, fine, ClassIn(h, coarse, cs, c), groups)
    ensures Exact(h, fine, cs, groups)
  {
    forall i | 0 <= i < |groups| ensures groups[i] == ClassIn(h, fine, cs, groups[i][0]) {
      var x := groups[i][0];
      assert x in groups[i];
      AlikeShareAClass(h, coarse, cs, c, x);
      ClassOfClass(h, fine, coarse, cs, x);
    }
  }

  lemma CompleteInside(h: Hashes, fine: Stage, coarse: Stage, cs: seq<Candidate>, c: Candidate, groups: seq<seq<Candidate>>)
    requires Refines(fine, coarse) && Complete(h, fine, ClassIn(h, coarse, cs, c), groups, ClassIn(h, coarse, cs, c))
    ensures Complete(h, fine, cs, groups, ClassIn(h, coarse, cs, c))
  {
    forall x | x in ClassIn(h, coarse, cs, c) ensures ClassIn(h, fine, ClassIn(h, coarse, cs, c), x) == ClassIn(h, fine, cs, x) {
      AlikeShareAClass(h, coarse, cs, c, x);
      ClassOfClass(h, fine, coarse, cs, x);
    }
  }

  // ---------------------------------------------------------------- grouping by key

  lemma WithAppend(h: Hashes, stage: Stage, cs: seq<Candidate>, c: Candidate, key: nat)
    ensures With(h, stage, cs + [c], key) == if KeyOf(h, stage, c) == Some(key) then With(h, stage, cs, key) + [c] else With(h, stage, cs, key)
  {
    assert (cs + [c])[..|cs|] == cs;
  }

  lemma ClassAppend(h: Hashes, stage: Stage, cs: seq<Candidate>, c: Candidate, x: Candidate)
    ensures ClassIn(h, stage, cs + [c], x) == if Same(h, stage, x, c) then ClassIn(h, stage, cs, x) + [c] else ClassIn(h, stage, cs, x)
  {
    assert (cs + [c])[..|cs|] == cs;
  }

  /** The buckets hold, key by key, the candidates with that key. */
  ghost predicate Buckets(h: Hashes, stage: Stage, cs: seq<Candidate>, buckets: map<nat, seq<Candidate>>) {
    forall k: nat :: With(h, stage, cs, k) == if k in buckets then buckets[k] else []
  }

  lemma BucketPush(h: Hashes, stage: Stage, cs: seq<Candidate>, c: Candidate, buckets: map<nat, seq<Candidate>>, key: nat)
    requires Buckets(h, stage, cs, buckets) && KeyOf(h, stage, c) == Some(key)
    ensures Buckets(h, stage, cs + [c], buckets[key := (if key in buckets then buckets[key] else []) + [c]])
  {
    hide With, KeyOf;
    forall k: nat ensures With(h, stage, cs + [c], k) == if KeyOf(h, stage, c) == Some(k) then With(h, stage, cs, k) + [c] else With(h, stage, cs, k) {
      WithAppend(h, stage, cs, c, k);
    }
  }

  lemma BucketSkip(h: Hashes, stage: Stage, cs: seq<Candidate>, c: Candidate, buckets: map<nat, seq<Candidate>>)
    requires Buckets(h, stage, cs, buckets) && KeyOf(h, stage, c).None?
    ensures Buckets(h, stage, cs + [c], buckets)
  {
    hide With, KeyOf;
    forall k: nat ensures With(h, stage, cs + [c], k) == With(h, stage, cs, k) {
      WithAppend(h, stage, cs, c, k);
    }
  }

  /** Groups readable candidates by the stage's key, keeping their order. */
  method GroupBy(h: Hashes, stage: Stage, cs: seq<Candidate>) returns (buckets: map<nat, seq<Candidate>>)
    ensures Buckets(h, stage, cs, buckets)
  {
    hide Buckets, KeyOf;
    buckets := map[];
    NoBuckets(h, stage);
    var i := 0;
    assert cs[..0] == [];
    while i < |cs|
      invariant i <= |cs| && Buckets(h, stage, cs[..i], buckets)
    {
      assert cs[..i + 1] == cs[..i] + [cs[i]];
      var key := KeyOf(h, stage, cs[i]);
      if key.Some? {
        BucketPush(h, stage, cs[..i], cs[i], buckets, key.value);
        buckets := buckets[key.value := (if key.value in buckets then buckets[key.value] else []) + [cs[i]]];
      } else {
        BucketSkip(h, stage, cs[..i], cs[i], buckets);
      }
      i := i + 1;
    }
    assert cs[..i] == cs;
  }

  lemma NoBuckets(h: Hashes, stage: Stage)
    ensures Buckets(h, stage, [], map[])
  {
  }

  // ---------------------------------------------------------------- comparing bytes

  predicate Steady(cs: seq<Candidate>) {
    forall c :: c in cs ==> !c.faulty
  }

  ghost predicate Whole(h: Hashes, cs: seq<Candidate>, clusters: seq<seq<Candidate>>) {
    forall j :: 0 <= j < |clusters| ==> clusters[j] != [] && clusters[j] == ClassIn(h, ByContent, cs, clusters[j][0])
  }

  ghost predicate Different(h: Hashes, clusters: seq<seq<Candidate>>) {
    forall j, k :: 0 <= j < k < |clusters| ==> clusters[j] != [] && clusters[k] != [] && !Same(h, ByContent, clusters[j][0], clusters[k][0])
  }

  /** What byte comparison has established about a list: its content classes, each once. */
  ghost predicate Clustered(h: Hashes, cs: seq<Candidate>, clusters: seq<seq<Candidate>>) {
    Whole(h, cs, clusters) && Different(h, clusters) && forall c :: c in cs ==> Listed(h, ByContent, clusters, c)
  }

  predicate Homogeneous(h: Hashes, cs: seq<Candidate>, clusters: seq<seq<Candidate>>) {
    forall j :: 0 <= j < |clusters| ==> clusters[j] != [] && Alike(h, ByContent, clusters[j]) && forall c :: c in clusters[j] ==> c in cs
  }

  lemma AlikeGrows(h: Hashes, g: seq<Candidate>, c: Candidate)
    requires g != [] && Alike(h, ByContent, g) && Same(h, ByContent, g[0], c)
    ensures Alike(h, ByContent, g + [c])
  {
    forall x, y | x in g + [c] && y in g + [c] ensures Same(h, ByContent, x, y) {
      assert g[0] in g;
      SameIsPartialEquivalence(h, ByContent, x, g[0], y);
      SameIsPartialEquivalence(h, ByContent, g[0], c, g[0]);
      SameIsPartialEquivalence(h, ByContent, g[0], x, g[0]);
    }
  }

  lemma WholeJoin(h: Hashes, cs: seq<Candidate>, clusters: seq<seq<Candidate>>, j: nat, c: Candidate)
    requires Whole(h, cs, clusters) && Different(h, clusters) && j < |clusters| && Same(h, ByContent, clusters[j][0], c)
    ensures Whole(h, cs + [c], clusters[j := clusters[j] + [c]])
  {
    hide ClassIn, Same;
    var after := clusters[j := clusters[j] + [c]];
    forall k | 0 <= k < |after| ensures after[k] != [] && after[k] == ClassIn(h, ByContent, cs + [c], after[k][0]) {
      var rep := clusters[k][0];
      ClassAppend(h, ByContent, cs, c, rep);
      if k != j {
        SameIsPartialEquivalence(h, ByContent, clusters[j][0], c, rep);
        SameIsPartialEquivalence(h, ByContent, rep, c, clusters[j][0]);
        SameIsPartialEquivalence(h, ByContent, rep, clusters[j][0], rep);
      }
    }
  }

  /** c joins cluster j. */
  lemma ClusteredJoin(h: Hashes, cs: seq<Candidate>, clusters: seq<seq<Candidate>>, j: nat, c: Candidate)
    requires Clustered(h, cs, clusters) && j < |clusters| && Same(h, ByContent, clusters[j][0], c)
    ensures Clustered(h, cs + [c], clusters[j := clusters[j] + [c]])
  {
    hide ClassIn, Same;
    var after := clusters[j := clusters[j] + [c]];
    WholeJoin(h, cs, clusters, j, c);
    forall x | x in cs + [c] ensures Listed(h, ByContent, after, x) {
      if x in cs {
        var k :| 0 <= k < |clusters| && clusters[k] != [] && Same(h, ByContent, x, clusters[k][0]);
        assert after[k][0] == clusters[k][0];
      } else {
        SameIsPartialEquivalence(h, ByContent, clusters[j][0], c, c);
        assert after[j][0] == clusters[j][0];
      }
    }
  }

  lemma FirstIsIn(cs: seq<Candidate>)
    ensures cs == [] || cs[0] in cs
  {
  }

  /** A candidate unlike every representative is unlike every candidate so far. */
  lemma NobodyAlike(h: Hashes, cs: seq<Candidate>, clusters: seq<seq<Candidate>>, c: Candidate)
    requires Clustered(h, cs, clusters) && forall j :: 0 <= j < |clusters| ==> !Same(h, ByContent, clusters[j][0], c)
    ensures ClassIn(h, ByContent, cs, c) == []
  {
    hide Same, Whole, Different;
    forall x | x in cs ensures !Same(h, ByContent, c, x) {
      var k :| 0 <= k < |clusters| && clusters[k] != [] && Same(h, ByContent, x, clusters[k][0]);
      SameIsPartialEquivalence(h, ByContent, c, x, clusters[k][0]);
      SameIsPartialEquivalence(h, ByContent, c, clusters[k][0], c);
    }
    FirstIsIn(ClassIn(h, ByContent, cs, c));
  }

  /** c is unlike every representative and starts a cluster. */
  lemma ClusteredStart(h: Hashes, cs: seq<Candidate>, clusters: seq<seq<Candidate>>, c: Candidate)
    requires Clustered(h, cs, clusters) && Same(h, ByContent, c, c)
    requires forall j :: 0 <= j < |clusters| ==> !Same(h, ByContent, clusters[j][0], c)
    ensures Clustered(h, cs + [c], clusters + [[c]])
  {
    hide ClassIn, Same;
    var after := clusters + [[c]];
    NobodyAlike(h, cs, clusters, c);
    forall k | 0 <= k < |after| ensures after[k] != [] && after[k] == ClassIn(h, ByContent, cs + [c], after[k][0]) {
      ClassAppend(h, ByContent, cs, c, after[k][0]);
    }
    forall x | x in cs + [c] ensures Listed(h, ByContent, after, x) {
      if x in cs {
        var k :| 0 <= k < |clusters| && clusters[k] != [] && Same(h, ByContent, x, clusters[k][0]);
        assert after[k] == clusters[k];
      } else {
        assert after[|clusters|][0] == c;
      }
    }
  }

  /** The first cluster whose representative has c's bytes, as far as reads succeed. */
  method FindCluster(h: Hashes, members: seq<Candidate>, clusters: seq<seq<Candidate>>, c: Candidate) returns (index: Option<nat>)
    requires Alike(h, ByFull, members) && Homogeneous(h, members, clusters) && c in members
    ensures index.Some? ==> index.value < |clusters| && Same(h, ByContent, clusters[index.value][0], c)
    ensures index.None? && Steady(members) ==> forall k :: 0 <= k < |clusters| ==> !Same(h, ByContent, clusters[k][0], c)
  {
    var j := 0;
    while j < |clusters|
      invariant j <= |clusters| && (Steady(members) ==> forall k :: 0 <= k < j ==> !Same(h, ByContent, clusters[k][0], c))
    {
      var rep := clusters[j][0];
      assert rep in clusters[j];
      assert Same(h, ByFull, rep, c);
      var equal := FilesEqualStreaming(rep.content, rep.faulty, c.content, c.faulty);
      if equal == Some(true) {
        return Some(j);
      }
      j := j + 1;
    }
    return None;
  }

  /** Splits candidates with equal hashes by their bytes, each compared with one member of every cluster. */
  method ByteVerifySplit(h: Hashes, members: seq<Candidate>) returns (clusters: seq<seq<Candidate>>)
    requires Alike(h, ByFull, members)
    ensures Homogeneous(h, members, clusters)
    ensures Steady(members) ==> Clustered(h, members, clusters)
  {
    hide Clustered, Steady, Same;
    clusters := [];
    NoClusters(h);
    var i := 0;
    assert members[..0] == [];
    while i < |members|
      invariant i <= |members| && Homogeneous(h, members, clusters)
      invariant Steady(members) ==> Clustered(h, members[..i], clusters)
    {
      var c := members[i];
      assert members[..i + 1] == members[..i] + [c];
      SameBytes(h, members, c);
      var index := FindCluster(h, members, clusters, c);
      if index.Some? {
        var j := index.value;
        if Steady(members) {
          ClusteredJoin(h, members[..i], clusters, j, c);
        }
        AlikeGrows(h, clusters[j], c);
        HomogeneousPut(h, members, clusters, j, c);
        clusters := clusters[j := clusters[j] + [c]];
      } else {
        if Steady(members) {
          ClusteredStart(h, members[..i], clusters, c);
        }
        clusters := clusters + [[c]];
      }
      i := i + 1;
    }
    assert members[..i] == members;
  }

  lemma HomogeneousPut(h: Hashes, members: seq<Candidate>, clusters: seq<seq<Candidate>>, j: nat, c: Candidate)
    requires Homogeneous(h, members, clusters) && j < |clusters| && c in members && Alike(h, ByContent, clusters[j] + [c])
    ensures Homogeneous(h, members, clusters[j := clusters[j] + [c]])
  {
    hide Alike;
  }

  lemma NoClusters(h: Hashes)
    ensures Clustered(h, [], [])
  {
  }

  lemma SameBytes(h: Hashes, members: seq<Candidate>, c: Candidate)
    requires Alike(h, ByFull, members) && c in members
    ensures Same(h, ByContent, c, c)
  {
  }

  // ---------------------------------------------------------------- the funnel

  function Target(paranoid: bool): Stage { if paranoid then ByContent else ByFull }

  function Next(stage: Stage): Stage
    requires stage == BySize || stage == ByPartial
  {
    if stage == BySize then ByPartial else ByFull
  }

  /** What the search has established about a list: sound groups always, exactly the classes when
      comparisons cannot fail, all of them when it was not cancelled. */
  ghost predicate Result(h: Hashes, paranoid: bool, cs: seq<Candidate>, groups: seq<seq<Candidate>>, among: seq<Candidate>, cancelled: bool) {
    Sound(h, Target(paranoid), cs, groups) &&
    (!paranoid || Steady(cs) ==>
       Exact(h, Target(paranoid), cs, groups) && (!cancelled ==> Complete(h, Target(paranoid), cs, groups, among)))
  }

  /** The clusters with at least two members, or in normal mode the hash class itself. */
  method Confirm(h: Hashes, paranoid: bool, members: seq<Candidate>) returns (groups: seq<seq<Candidate>>)
    requires |members| >= 2 && Alike(h, ByFull, members)
    ensures Result(h, paranoid, members, groups, members, false)
  {
    if !paranoid {
      groups := [members];
      WholeClass(h, members);
      return;
    }
    var clusters := ByteVerifySplit(h, members);
    groups := [];
    var i := 0;
    while i < |clusters|
      invariant i <= |clusters|
      invariant Sound(h, ByContent, members, groups)
      invariant Steady(members) ==> Exact(h, ByContent, members, groups) && Picked(h, clusters[..i], groups)
    {
      assert clusters[..i + 1] == clusters[..i] + [clusters[i]];
      if |clusters[i]| >= 2 {
        if Steady(members) {
          PickKeeps(h, members, clusters, i, groups);
        }
        groups := groups + [clusters[i]];
      }
      i := i + 1;
    }
    if Steady(members) {
      assert clusters[..i] == clusters;
      PickedIsComplete(h, members, clusters, groups);
    }
  }

  lemma WholeClass(h: Hashes, members: seq<Candidate>)
    requires |members| >= 2 && Alike(h, ByFull, members)
    ensures Result(h, false, members, [members], members, false)
  {
    hide Same;
    assert members[0] in members;
    AllInClass(h, members, members[0]);
    forall c | c in members ensures Listed(h, ByFull, [members], c) {
      assert [members][0][0] == members[0];
    }
  }

  lemma {:induction false} AllInClass(h: Hashes, members: seq<Candidate>, c: Candidate)
    requires forall d :: d in members ==> Same(h, ByFull, c, d)
    ensures ClassIn(h, ByFull, members, c) == members
  {
    hide Same;
    if members != [] {
      var init := members[..|members| - 1];
      assert members[|members| - 1] in members && forall d :: d in init ==> d in members;
      AllInClass(h, init, c);
    }
  }

  /** The groups are the large clusters among those seen. */
  ghost predicate Picked(h: Hashes, clusters: seq<seq<Candidate>>, groups: seq<seq<Candidate>>) {
    (forall i :: 0 <= i < |groups| ==> groups[i] in clusters) &&
    (forall i :: 0 <= i < |clusters| && |clusters[i]| >= 2 ==> clusters[i] in groups)
  }

  lemma PickKeeps(h: Hashes, members: seq<Candidate>, clusters: seq<seq<Candidate>>, i: nat, groups: seq<seq<Candidate>>)
    requires Clustered(h, members, clusters) && i < |clusters| && |clusters[i]| >= 2
    requires Exact(h, ByContent, members, groups) && Picked(h, clusters[..i], groups)
    ensures Exact(h, ByContent, members, groups + [clusters[i]])
  {
    hide Same, ClassIn;
    forall k | 0 <= k < |groups| ensures !Same(h, ByContent, groups[k][0], clusters[i][0]) {
      assert groups[k] in clusters[..i];
      var j :| 0 <= j < i && clusters[j] == groups[k];
    }
  }

  lemma PickedIsComplete(h: Hashes, members: seq<Candidate>, clusters: seq<seq<Candidate>>, groups: seq<seq<Candidate>>)
    requires Clustered(h, members, clusters) && Picked(h, clusters, groups)
    ensures Complete(h, ByContent, members, groups, members)
  {
    hide Same, ClassIn;
    forall c | c in members && |ClassIn(h, ByContent, members, c)| >= 2 ensures Listed(h, ByContent, groups, c) {
      assert Listed(h, ByContent, clusters, c);
      var j :| 0 <= j < |clusters| && clusters[j] != [] && Same(h, ByContent, c, clusters[j][0]);
      AlikeShareAClass(h, ByContent, members, c, clusters[j][0]);
      assert clusters[j] in groups;
      var i :| 0 <= i < |groups| && groups[i] == clusters[j];
    }
  }

  /** A sublist of candidates the stage left together, with what the search found in it. */
  lemma InsideResult(h: Hashes, paranoid: bool, stage: Stage, cs: seq<Candidate>, c: Candidate, groups: seq<seq<Candidate>>, cancelled: bool)
    requires stage != ByContent
    requires var class_ := ClassIn(h, stage, cs, c); Result(h, paranoid, class_, groups, class_, cancelled)
    ensures Result(h, paranoid, cs, groups, ClassIn(h, stage, cs, c), cancelled)
  {
    hide Same, ClassIn, Exact, Complete, Alike;
    if !paranoid || Steady(cs) {
      ExactInside(h, Target(paranoid), stage, cs, c, groups);
      if !cancelled {
        CompleteInside(h, Target(paranoid), stage, cs, c, groups);
      }
    }
  }

  /** Groups of two key classes put together. */
  lemma JoinResults(h: Hashes, paranoid: bool, stage: Stage, cs: seq<Candidate>,
                    groups: seq<seq<Candidate>>, among: seq<Candidate>, more: seq<seq<Candidate>>, also: seq<Candidate>, cancelled: bool)
    requires stage != ByContent && Result(h, paranoid, cs, groups, among, false) && Result(h, paranoid, cs, more, also, cancelled)
    requires forall i, j :: 0 <= i < |groups| && 0 <= j < |more| && groups[i] != [] && more[j] != [] ==> !SameKey(h, stage, groups[i][0], more[j][0])
    ensures Result(h, paranoid, cs, groups + more, among + also, cancelled)
  {
    hide ClassIn, Alike, SameKey, Steady;
    var stage' := Target(paranoid);
    var all := groups + more;
    if !paranoid || Steady(cs) {
      if !cancelled {
        forall c | c in among + also && |ClassIn(h, stage', cs, c)| >= 2 ensures Listed(h, stage', all, c) {
          if c in among {
            assert Listed(h, stage', groups, c);
            var i :| 0 <= i < |groups| && groups[i] != [] && Same(h, stage', c, groups[i][0]);
            assert all[i] == groups[i];
          } else {
            assert Listed(h, stage', more, c);
            var i :| 0 <= i < |more| && more[i] != [] && Same(h, stage', c, more[i][0]);
            assert all[|groups| + i] == more[i];
          }
        }
      }
    }
  }

  /** The candidates of one bucket, found by its key, are a class. */
  lemma BucketIsClass(h: Hashes, stage: Stage, cs: seq<Candidate>, buckets: map<nat, seq<Candidate>>, key: nat)
    requires stage != ByContent && Buckets(h, stage, cs, buckets) && key in buckets && buckets[key] != []
    requires stage != BySize ==> Alike(h, Prior(stage), cs)
    ensures buckets[key][0] in cs && buckets[key] == ClassIn(h, stage, cs, buckets[key][0])
    ensures forall c :: c in buckets[key] ==> KeyOf(h, stage, c) == Some(key)
    ensures Alike(h, stage, buckets[key])
  {
    var c := buckets[key][0];
    assert With(h, stage, cs, key) == buckets[key] && c in buckets[key];
    KeyedIsClass(h, stage, cs, c);
    forall x, y | x in buckets[key] && y in buckets[key] ensures Same(h, stage, x, y) {
      SameIsPartialEquivalence(h, stage, c, x, c);
      SameIsPartialEquivalence(h, stage, x, c, y);
    }
  }

  lemma {:induction false} ClassIsNoLonger(h: Hashes, stage: Stage, cs: seq<Candidate>, c: Candidate)
    ensures |ClassIn(h, stage, cs, c)| <= |cs|
  {
    if cs != [] {
      ClassIsNoLonger(h, stage, cs[..|cs| - 1], c);
    }
  }

  lemma TooFew(h: Hashes, paranoid: bool, cs: seq<Candidate>)
    requires |cs| < 2
    ensures Result(h, paranoid, cs, [], cs, false)
  {
    forall c | c in cs ensures |ClassIn(h, Target(paranoid), cs, c)| < 2 {
      ClassIsNoLonger(h, Target(paranoid), cs, c);
    }
  }

  /** What the loop over buckets has done: the groups found cover the candidates `among`, which are those
      whose keys are no longer to do. */
  ghost predicate Covered(h: Hashes, paranoid: bool, stage: Stage, cs: seq<Candidate>, groups: seq<seq<Candidate>>,
                          among: seq<Candidate>, todo: set<nat>) {
    Result(h, paranoid, cs, groups, among, false) &&
    (forall i :: 0 <= i < |groups| ==> groups[i] != [] && KeyOf(h, stage, groups[i][0]).Some? && KeyOf(h, stage, groups[i][0]).value !in todo) &&
    (forall c :: c in cs && KeyOf(h, stage, c).Some? && KeyOf(h, stage, c).value !in todo ==> c in among)
  }

  lemma BucketDone(h: Hashes, paranoid: bool, stage: Stage, cs: seq<Candidate>, buckets: map<nat, seq<Candidate>>, key: nat,
                   groups: seq<seq<Candidate>>, among: seq<Candidate>, todo: set<nat>, more: seq<seq<Candidate>>, cancelled: bool)
    requires stage != ByContent && (stage != BySize ==> Alike(h, Prior(stage), cs))
    requires Buckets(h, stage, cs, buckets) && key in buckets && key in todo && Covered(h, paranoid, stage, cs, groups, among, todo)
    requires Result(h, paranoid, buckets[key], more, buckets[key], cancelled)
    ensures Result(h, paranoid, cs, groups + more, among + buckets[key], cancelled)
    ensures !cancelled ==> Covered(h, paranoid, stage, cs, groups + more, among + buckets[key], todo - {key})
  {
    hide ClassIn, Alike, KeyOf, Same, With, Exact, Complete, Steady;
    var bucket := buckets[key];
    if bucket == [] {
      NothingIn(h, stage, cs, buckets, key);
      NoGroups(h, paranoid, more, cancelled);
      assert groups + more == groups && among + bucket == among;
      Uncancelled(h, paranoid, cs, groups, among, cancelled);
    } else {
      BucketIsClass(h, stage, cs, buckets, key);
      InsideResult(h, paranoid, stage, cs, bucket[0], more, cancelled);
      forall j | 0 <= j < |more| ensures more[j] != [] && KeyOf(h, stage, more[j][0]) == Some(key) {
        assert more[j][0] in more[j];
      }
      JoinResults(h, paranoid, stage, cs, groups, among, more, bucket, cancelled);
      KeyIsInBucket(h, stage, cs, buckets, key);
    }
  }

  lemma KeyIsInBucket(h: Hashes, stage: Stage, cs: seq<Candidate>, buckets: map<nat, seq<Candidate>>, key: nat)
    requires Buckets(h, stage, cs, buckets) && key in buckets
    ensures forall c :: c in cs && KeyOf(h, stage, c) == Some(key) ==> c in buckets[key]
  {
    assert With(h, stage, cs, key) == buckets[key];
  }

  lemma NothingIn(h: Hashes, stage: Stage, cs: seq<Candidate>, buckets: map<nat, seq<Candidate>>, key: nat)
    requires Buckets(h, stage, cs, buckets) && key in buckets && buckets[key] == []
    ensures forall c :: c in cs ==> KeyOf(h, stage, c) != Some(key)
  {
    KeyIsInBucket(h, stage, cs, buckets, key);
  }

  lemma FirstMember(h: Hashes, stage: Stage, cs: seq<Candidate>, groups: seq<seq<Candidate>>)
    requires Sound(h, stage, cs, groups) && groups != []
    ensures groups[0] != [] && groups[0][0] in cs
  {
    FirstIsIn(groups[0]);
  }

  lemma NoGroups(h: Hashes, paranoid: bool, groups: seq<seq<Candidate>>, cancelled: bool)
    requires Result(h, paranoid, [], groups, [], cancelled)
    ensures groups == []
  {
    if groups != [] {
      FirstMember(h, Target(paranoid), [], groups);
    }
  }

  lemma Uncancelled(h: Hashes, paranoid: bool, cs: seq<Candidate>, groups: seq<seq<Candidate>>, among: seq<Candidate>, cancelled: bool)
    requires Result(h, paranoid, cs, groups, among, false)
    ensures Result(h, paranoid, cs, groups, among, cancelled)
  {
  }

  /** Unreadable candidates have no class, so covering the readable ones covers all. */
  lemma AllCovered(h: Hashes, paranoid: bool, stage: Stage, cs: seq<Candidate>, groups: seq<seq<Candidate>>, among: seq<Candidate>)
    requires stage != ByContent && Covered(h, paranoid, stage, cs, groups, among, {})
    ensures Result(h, paranoid, cs, groups, cs, false)
  {
    forall c | c in cs && |ClassIn(h, Target(paranoid), cs, c)| >= 2 ensures c in among {
      var x := ClassIn(h, Target(paranoid), cs, c)[0];
      assert x in ClassIn(h, Target(paranoid), cs, c);
      FinerIsNarrower(h, Target(paranoid), stage, c, x);
    }
  }

  /** One stage of the funnel: buckets in any order, those of at least two candidates on to the next stage.
      The loops over sizes, over partial hashes and over full hashes are this one at its three stages. */
  method Refine(h: Hashes, paranoid: bool, stage: Stage, cs: seq<Candidate>) returns (groups: seq<seq<Candidate>>, cancelled: bool)
    requires stage != ByContent && (stage != BySize ==> Alike(h, Prior(stage), cs))
    ensures Result(h, paranoid, cs, groups, cs, cancelled)
    decreases match stage case BySize => 2 case ByPartial => 1 case _ => 0
  {
    hide ClassIn, Alike, KeyOf, Same, With, Exact, Complete, Steady, Sound, Buckets;
    var buckets := GroupBy(h, stage, cs);
    groups, cancelled := [], false;
    var todo := buckets.Keys;
    ghost var among: seq<Candidate> := [];
    NothingYet(h, paranoid, stage, cs, buckets);
    while todo != {}
      invariant todo <= buckets.Keys && Covered(h, paranoid, stage, cs, groups, among, todo)
      decreases |todo|
    {
      var stop: bool := *;
      if stop {
        Cancelled(h, paranoid, cs, groups, among, false);
        return groups, true;
      }
      var key :| key in todo;
      var bucket, more := buckets[key], [];
      if |bucket| >= 2 {
        BucketIsClass(h, stage, cs, buckets, key);
        if stage == ByFull {
          more := Confirm(h, paranoid, bucket);
        } else {
          more, cancelled := Refine(h, paranoid, Next(stage), bucket);
        }
      } else {
        TooFew(h, paranoid, bucket);
      }
      BucketDone(h, paranoid, stage, cs, buckets, key, groups, among, todo, more, cancelled);
      groups := groups + more;
      among := among + bucket;
      todo := todo - {key};
      if cancelled {
        Cancelled(h, paranoid, cs, groups, among, true);
        return;
      }
    }
    AllCovered(h, paranoid, stage, cs, groups, among);
  }

  lemma NothingYet(h: Hashes, paranoid: bool, stage: Stage, cs: seq<Candidate>, buckets: map<nat, seq<Candidate>>)
    requires Buckets(h, stage, cs, buckets)
    ensures Covered(h, paranoid, stage, cs, [], [], buckets.Keys)
  {
    forall c | c in cs && KeyOf(h, stage, c).Some? ensures KeyOf(h, stage, c).value in buckets {
      assert c in With(h, stage, cs, KeyOf(h, stage, c).value);
    }
  }

  lemma Cancelled(h: Hashes, paranoid: bool, cs: seq<Candidate>, groups: seq<seq<Candidate>>, among: seq<Candidate>, early: bool)
    requires Result(h, paranoid, cs, groups, among, early)
    ensures Result(h, paranoid, cs, groups, cs, true)
  {
  }
}
