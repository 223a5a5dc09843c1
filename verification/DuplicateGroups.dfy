/** What the funnel means for the user: groups of files with equal contents, which of their members share
    storage, and the batches they arrive in. */
module DuplicateGroups {
  import opened FileStreams
  import opened Duplicates

  predicate Readable(c: Candidate) { c.partialReads && c.fullReads }

  /** The readable candidates with c's bytes, in order. */
  function Twins(cs: seq<Candidate>, c: Candidate): seq<Candidate> {
    if cs == [] then []
    else
      var last := cs[|cs| - 1];
      Twins(cs[..|cs| - 1], c) + if Readable(c) && Readable(last) && last.content == c.content then [last] else []
  }

  /** Equal full hashes only where the bytes are equal, as far as the earlier keys let files meet. */
  predicate NoCollision(h: Hashes, cs: seq<Candidate>) {
    forall c, d :: c in cs && d in cs && Same(h, ByFull, c, d) ==> c.content == d.content
  }

  /** The hashes are functions of the bytes, so equal bytes always meet. */
  lemma ContentIsTheLastStage(h: Hashes, c: Candidate, d: Candidate)
    ensures Same(h, ByContent, c, d) <==> Readable(c) && Readable(d) && c.content == d.content
  {
  }

  lemma FullIsContent(h: Hashes, cs: seq<Candidate>, c: Candidate, d: Candidate)
    requires NoCollision(h, cs) && c in cs && d in cs
    ensures Same(h, ByFull, c, d) <==> Readable(c) && Readable(d) && c.content == d.content
  {
  }

  lemma {:induction false} ClassIsTwins(h: Hashes, stage: Stage, all: seq<Candidate>, cs: seq<Candidate>, c: Candidate)
    requires stage == ByContent || (stage == ByFull && NoCollision(h, all))
    requires c in all && forall d :: d in cs ==> d in all
    ensures ClassIn(h, stage, cs, c) == Twins(cs, c)
  {
    hide Same, NoCollision;
    if cs != [] {
      var init, last := cs[..|cs| - 1], cs[|cs| - 1];
      assert last in cs && forall d :: d in init ==> d in cs;
      ClassIsTwins(h, stage, all, init, c);
      if stage == ByFull {
        FullIsContent(h, all, c, last);
      } else {
        ContentIsTheLastStage(h, c, last);
      }
    }
  }

  /** Exactly the sets of two or more readable files with equal bytes, each once, members in scan order. */
  ghost predicate ContentClasses(cs: seq<Candidate>, groups: seq<seq<Candidate>>) {
    (forall i :: 0 <= i < |groups| ==> |groups[i]| >= 2 && groups[i][0] in cs && groups[i] == Twins(cs, groups[i][0])) &&
    (forall i, j :: 0 <= i < j < |groups| ==> groups[i] != [] && groups[j] != [] && groups[i][0].content != groups[j][0].content) &&
    (forall c :: c in cs && |Twins(cs, c)| >= 2 ==> Twins(cs, c) in groups)
  }

  predicate SeparatesContent(h: Hashes, stage: Stage, cs: seq<Candidate>) {
    stage == ByContent || (stage == ByFull && NoCollision(h, cs))
  }

  lemma GroupIsTwins(h: Hashes, stage: Stage, cs: seq<Candidate>, g: seq<Candidate>)
    requires SeparatesContent(h, stage, cs) && |g| >= 2 && g == ClassIn(h, stage, cs, g[0])
    ensures g[0] in cs && g == Twins(cs, g[0]) && Readable(g[0])
  {
    hide Same, NoCollision;
    FirstIsIn(g);
    ClassIsTwins(h, stage, cs, cs, g[0]);
    MembersAreReadable(h, stage, cs, g);
  }

  lemma DifferentContents(h: Hashes, stage: Stage, cs: seq<Candidate>, c: Candidate, d: Candidate)
    requires SeparatesContent(h, stage, cs) && c in cs && d in cs && Readable(c) && Readable(d) && !Same(h, stage, c, d)
    ensures c.content != d.content
  {
    ContentIsTheLastStage(h, c, d);
    if stage == ByFull {
      FullIsContent(h, cs, c, d);
    }
  }

  /** Where a large class is listed. */
  lemma ListedGroup(h: Hashes, stage: Stage, cs: seq<Candidate>, groups: seq<seq<Candidate>>, c: Candidate) returns (i: nat)
    requires Exact(h, stage, cs, groups) && Complete(h, stage, cs, groups, cs) && c in cs && |ClassIn(h, stage, cs, c)| >= 2
    ensures i < |groups| && |groups[i]| >= 2 && groups[i] == ClassIn(h, stage, cs, c)
  {
    hide Same, ClassIn;
    assert Listed(h, stage, groups, c);
    i :| 0 <= i < |groups| && groups[i] != [] && Same(h, stage, c, groups[i][0]);
    AlikeShareAClass(h, stage, cs, c, groups[i][0]);
  }

  lemma TwinsAreListed(h: Hashes, stage: Stage, cs: seq<Candidate>, groups: seq<seq<Candidate>>, c: Candidate)
    requires SeparatesContent(h, stage, cs) && Exact(h, stage, cs, groups) && Complete(h, stage, cs, groups, cs)
    requires c in cs && |Twins(cs, c)| >= 2
    ensures Twins(cs, c) in groups
  {
    hide NoCollision, Twins, Exact, Complete;
    ClassIsTwins(h, stage, cs, cs, c);
    var i := ListedGroup(h, stage, cs, groups, c);
  }

  lemma ResultMeansContent(h: Hashes, paranoid: bool, cs: seq<Candidate>, groups: seq<seq<Candidate>>)
    requires Result(h, paranoid, cs, groups, cs, false)
    requires if paranoid then Steady(cs) else NoCollision(h, cs)
    ensures ContentClasses(cs, groups)
  {
    hide Same, NoCollision, Alike, Steady, ClassIn, Twins, Readable, Complete;
    var stage := Target(paranoid);
    forall i | 0 <= i < |groups| ensures groups[i][0] in cs && groups[i] == Twins(cs, groups[i][0]) && Readable(groups[i][0]) {
      GroupIsTwins(h, stage, cs, groups[i]);
    }
    forall i, j | 0 <= i < j < |groups| ensures groups[i] != [] && groups[j] != [] && groups[i][0].content != groups[j][0].content {
      DifferentContents(h, stage, cs, groups[i][0], groups[j][0]);
    }
    forall c | c in cs && |Twins(cs, c)| >= 2 ensures Twins(cs, c) in groups {
      TwinsAreListed(h, stage, cs, groups, c);
    }
  }

  lemma MembersAreReadable(h: Hashes, stage: Stage, cs: seq<Candidate>, g: seq<Candidate>)
    requires g != [] && (stage == ByFull || stage == ByContent) && g == ClassIn(h, stage, cs, g[0])
    ensures Readable(g[0])
  {
    assert g[0] in g;
  }

  /** Without paranoid mode the answer is right exactly when no two different files of equal size and
      prefix hash share a full hash. */
  lemma RightIffNoCollision(h: Hashes, cs: seq<Candidate>, groups: seq<seq<Candidate>>)
    requires Result(h, false, cs, groups, cs, false)
    ensures ContentClasses(cs, groups) <==> NoCollision(h, cs)
  {
    if ContentClasses(cs, groups) {
      forall c, d | c in cs && d in cs && Same(h, ByFull, c, d) ensures c.content == d.content {
        if c != d {
          MeetInAGroup(h, cs, groups, c, d);
        }
      }
    } else if NoCollision(h, cs) {
      ResultMeansContent(h, false, cs, groups);
    }
  }

  lemma TwinsAreAlike(cs: seq<Candidate>, c: Candidate)
    ensures forall x :: x in Twins(cs, c) ==> x.content == c.content
  {
  }

  lemma TwoMembers(r: seq<Candidate>, c: Candidate, d: Candidate)
    requires c != d && c in r && d in r
    ensures |r| >= 2
  {
    var i :| 0 <= i < |r| && r[i] == c;
    var j :| 0 <= j < |r| && r[j] == d;
    assert i != j;
  }

  lemma MeetInAGroup(h: Hashes, cs: seq<Candidate>, groups: seq<seq<Candidate>>, c: Candidate, d: Candidate)
    requires Exact(h, ByFull, cs, groups) && Complete(h, ByFull, cs, groups, cs) && ContentClasses(cs, groups)
    requires c != d && c in cs && d in cs && Same(h, ByFull, c, d)
    ensures c.content == d.content
  {
    hide Same, Twins, Exact, Complete;
    SameIsPartialEquivalence(h, ByFull, c, d, c);
    TwoMembers(ClassIn(h, ByFull, cs, c), c, d);
    var i := ListedGroup(h, ByFull, cs, groups, c);
    TwinsAreAlike(cs, groups[i][0]);
    assert c in groups[i] && d in groups[i];
  }

  // ---------------------------------------------------------------- members and occupants

  datatype Member = Member(node: nat, bytes: nat, fileId: Option<(nat, nat)>, isHardlink: bool)
  datatype Group = Group(bytesEach: nat, distinctOccupants: nat, members: seq<Member>)

  /** Some earlier candidate of the group is the same file under another name. */
  predicate SeenBefore(g: seq<Candidate>, i: nat)
    requires i < |g|
  {
    g[i].fileId.Some? && exists j :: 0 <= j < i && g[j].fileId == g[i].fileId
  }

  ghost predicate Describes(g: seq<Candidate>, members: seq<Member>) {
    |members| == |g| && forall i :: 0 <= i < |g| ==>
      members[i] == Member(g[i].node, |g[i].content|, g[i].fileId, SeenBefore(g, i))
  }

  method BuildMembers(g: seq<Candidate>) returns (members: seq<Member>)
    ensures Describes(g, members)
  {
    var seen: seq<(nat, nat)> := [];
    members := [];
    var i := 0;
    while i < |g|
      invariant i <= |g| == i + |g[i..]| && |members| == i
      invariant forall id :: id in seen <==> exists j :: 0 <= j < i && g[j].fileId == Some(id)
      invariant forall k :: 0 <= k < i ==> members[k] == Member(g[k].node, |g[k].content|, g[k].fileId, SeenBefore(g, k))
    {
      var c := g[i];
      var isHardlink := false;
      if c.fileId.Some? {
        isHardlink := c.fileId.value in seen;
        if !isHardlink {
          seen := seen + [c.fileId.value];
        }
      }
      assert isHardlink == SeenBefore(g, i);
      members := members + [Member(c.node, |c.content|, c.fileId, isHardlink)];
      i := i + 1;
    }
  }

  function Occupants(members: seq<Member>): nat {
    if members == [] then 0
    else Occupants(members[..|members| - 1]) + if members[|members| - 1].isHardlink then 0 else 1
  }

  function Ids(g: seq<Candidate>): set<(nat, nat)> {
    set c | c in g && c.fileId.Some? :: c.fileId.value
  }

  function Anonymous(g: seq<Candidate>): nat {
    if g == [] then 0 else Anonymous(g[..|g| - 1]) + if g[|g| - 1].fileId.None? then 1 else 0
  }

  lemma SameLength(g: seq<Candidate>, members: seq<Member>)
    requires Describes(g, members)
    ensures |members| == |g|
  {
  }

  lemma DescribesInit(g: seq<Candidate>, members: seq<Member>)
    requires Describes(g, members) && g != []
    ensures Describes(g[..|g| - 1], members[..|members| - 1])
    ensures members[|g| - 1].isHardlink == SeenBefore(g, |g| - 1)
  {
    var init := g[..|g| - 1];
    assert forall i :: 0 <= i < |init| ==> SeenBefore(init, i) == SeenBefore(g, i);
  }

  /** The members that are not hard links are one per distinct file, plus those without an identity. */
  lemma {:induction false} OccupantsAreDistinctFiles(g: seq<Candidate>, members: seq<Member>)
    requires Describes(g, members)
    ensures Occupants(members) == |Ids(g)| + Anonymous(g)
  {
    hide Describes;
    SameLength(g, members);
    if g != [] {
      var init, last := g[..|g| - 1], g[|g| - 1];
      DescribesInit(g, members);
      OccupantsAreDistinctFiles(init, members[..|members| - 1]);
      assert g == init + [last];
      if last.fileId.Some? {
        assert Ids(g) == Ids(init) + {last.fileId.value};
        assert SeenBefore(g, |init|) <==> last.fileId.value in Ids(init) by {
          assert forall j :: 0 <= j < |init| ==> g[j] in init;
        }
      } else {
        assert Ids(g) == Ids(init);
      }
    }
  }

  // ---------------------------------------------------------------- the search and its batches

  function Flatten<T>(batches: seq<seq<T>>): seq<T> {
    if batches == [] then [] else Flatten(batches[..|batches| - 1]) + batches[|batches| - 1]
  }

  /** The facts the host receives, and the groups of candidates behind them. */
  ghost predicate Reports(found: seq<seq<Candidate>>, facts: seq<Group>) {
    |facts| == |found| && forall i :: 0 <= i < |facts| ==>
      found[i] != [] && facts[i].bytesEach == |found[i][0].content| && Describes(found[i], facts[i].members) &&
      facts[i].distinctOccupants == Occupants(facts[i].members)
  }

  method CountOccupants(members: seq<Member>) returns (n: nat)
    ensures n == Occupants(members)
  {
    n := 0;
    var i := 0;
    while i < |members|
      invariant i <= |members| && n == Occupants(members[..i])
    {
      assert members[..i + 1][..i] == members[..i];
      if !members[i].isHardlink {
        n := n + 1;
      }
      i := i + 1;
    }
    assert members[..i] == members;
  }

  /** The whole search: which groups are found, and how they are delivered. */
  method FindDuplicates(h: Hashes, paranoid: bool, cs: seq<Candidate>, batchSize: nat)
    returns (batches: seq<seq<Group>>, ghost found: seq<seq<Candidate>>, cancelled: bool)
    ensures Result(h, paranoid, cs, found, cs, cancelled) && Reports(found, Flatten(batches))
    ensures !cancelled && (if paranoid then Steady(cs) else NoCollision(h, cs)) ==> ContentClasses(cs, found)
    ensures forall i :: 0 <= i < |batches| ==> 1 <= |batches[i]| <= if batchSize == 0 then 1 else batchSize
  {
    hide Result, Describes, NoCollision, Steady, ContentClasses, Reports, Flatten, Occupants;
    NothingReported();
    var groups;
    groups, cancelled := Refine(h, paranoid, BySize, cs);
    found := groups;
    GroupsAreNotEmpty(h, paranoid, cs, found, cancelled);
    batches := [];
    var buffer: seq<Group> := [];
    var i := 0;
    while i < |groups|
      invariant i <= |groups| && (|buffer| == 0 || |buffer| < batchSize)
      invariant Reports(found[..i], Flatten(batches) + buffer)
      invariant forall j :: 0 <= j < |batches| ==> 1 <= |batches[j]| <= if batchSize == 0 then 1 else batchSize
    {
      var members := BuildMembers(groups[i]);
      var occupants := CountOccupants(members);
      ghost var before := Flatten(batches) + buffer;
      var fact := Group(|groups[i][0].content|, occupants, members);
      buffer := buffer + [fact];
      assert Flatten(batches) + buffer == before + [fact];
      ReportsNext(found, i, before, fact);
      if |buffer| >= batchSize {
        FlattenPush(batches, buffer);
        batches := batches + [buffer];
        buffer := [];
        assert Flatten(batches) + buffer == before + [fact];
      }
      i := i + 1;
    }
    assert found[..i] == found;
    if buffer != [] {
      FlattenPush(batches, buffer);
      batches := batches + [buffer];
    } else {
      assert Flatten(batches) + buffer == Flatten(batches);
    }
    if !cancelled && (if paranoid then Steady(cs) else NoCollision(h, cs)) {
      ResultMeansContent(h, paranoid, cs, found);
    }
  }

  lemma NothingReported()
    ensures Reports([], []) && Flatten<Group>([]) + [] == []
  {
  }

  lemma ReportsNext(found: seq<seq<Candidate>>, i: nat, facts: seq<Group>, fact: Group)
    requires i < |found| && Reports(found[..i], facts) && found[i] != []
    requires fact.bytesEach == |found[i][0].content| && Describes(found[i], fact.members) && fact.distinctOccupants == Occupants(fact.members)
    ensures Reports(found[..i + 1], facts + [fact])
  {
    hide Describes, Occupants;
  }

  lemma FlattenPush<T>(batches: seq<seq<T>>, batch: seq<T>)
    ensures Flatten(batches + [batch]) == Flatten(batches) + batch
  {
    assert (batches + [batch])[..|batches|] == batches;
  }

  lemma GroupsAreNotEmpty(h: Hashes, paranoid: bool, cs: seq<Candidate>, groups: seq<seq<Candidate>>, cancelled: bool)
    requires Result(h, paranoid, cs, groups, cs, cancelled)
    ensures forall i :: 0 <= i < |groups| ==> groups[i] != []
  {
  }
}
