/** The archive tree in plain words: what paths become, which nodes and directories there are, and how
    rows are ordered, said without the functions that build them. */
module ArchiveLaws {
  import opened TextOrder
  import opened ArchivePaths
  import opened ArchiveTree

  // ---------------------------------------------------------------- normal paths

  function Slashes(k: nat): string { seq(k, _ => '/') }

  predicate Outer(s: string) { s != [] && (s[0] == '/' || s[|s| - 1] == '/') }

  /** Two slashes in a row. */
  predicate Double(s: string) { exists i :: 0 <= i < |s| - 1 && s[i] == '/' && s[i + 1] == '/' }

  ghost predicate TripleAt(s: string, i: int) { 0 <= i < |s| - 2 && s[i] == '/' && s[i + 1] == '/' && s[i + 2] == '/' }

  /** Three slashes in a row. */
  ghost predicate Triple(s: string) { exists i :: TripleAt(s, i) }

  lemma {:induction false} LeadingSlashesGo(j: nat, s: string)
    ensures TrimSlashes(Slashes(j) + s) == TrimSlashes(s)
  {
    if j == 0 {
      assert Slashes(0) + s == s;
    } else {
      assert (Slashes(j) + s)[1..] == Slashes(j - 1) + s;
      LeadingSlashesGo(j - 1, s);
    }
  }

  lemma {:induction false} TrailingSlashGoes(s: string)
    ensures TrimSlashes(s + "/") == TrimSlashes(s)
    decreases |s|
  {
    if s == [] {
      assert ("/")[1..] == [];
    } else if s[0] == '/' {
      assert (s + "/")[1..] == s[1..] + "/";
      TrailingSlashGoes(s[1..]);
    } else {
      assert (s + "/")[..|s|] == s;
    }
  }

  lemma {:induction false} TrailingSlashesGo(s: string, k: nat)
    ensures TrimSlashes(s + Slashes(k)) == TrimSlashes(s)
  {
    if k == 0 {
      assert s + Slashes(0) == s;
    } else {
      assert s + Slashes(k) == (s + Slashes(k - 1)) + "/";
      TrailingSlashGoes(s + Slashes(k - 1));
      TrailingSlashesGo(s, k - 1);
    }
  }

  /** How many characters one step of the halving takes. */
  function Bite(s: string): (n: nat)
    requires s != []
    ensures 0 < n <= |s|
  {
    if |s| >= 2 && s[0] == '/' && s[1] == '/' then 2 else 1
  }

  lemma HalveStep(s: string)
    requires s != []
    ensures HalveSlashes(s) == [s[0]] + HalveSlashes(s[Bite(s)..])
  {
  }

  lemma SameBite(a: string, b: string)
    requires a != [] && Joinable(a, b)
    ensures Bite(a + b) == Bite(a) && (a + b)[Bite(a)..] == a[Bite(a)..] + b
  {
  }

  predicate Joinable(a: string, b: string) {
    a == [] || b == [] || a[|a| - 1] != '/' || b[0] != '/'
  }

  lemma BiteJoins(a: string, b: string)
    requires a != [] && Joinable(a, b)
    ensures Joinable(a[Bite(a)..], b)
  {
  }

  lemma HalveNothing(b: string)
    ensures HalveSlashes([] + b) == HalveSlashes([]) + HalveSlashes(b)
  {
    assert [] + b == b;
  }

  lemma Associates(c: string, a: string, b: string)
    ensures c + (a + b) == (c + a) + b
  {
  }

  lemma {:induction false} HalveConcat(a: string, b: string)
    requires Joinable(a, b)
    ensures HalveSlashes(a + b) == HalveSlashes(a) + HalveSlashes(b)
    decreases |a|
  {
    hide HalveSlashes, Bite, Joinable;
    if a == [] {
      HalveNothing(b);
    } else {
      var rest := a[Bite(a)..];
      HalveStep(a);
      HalveStep(a + b);
      SameBite(a, b);
      BiteJoins(a, b);
      HalveConcat(rest, b);
      assert (a + b)[0] == a[0];
      Associates([a[0]], HalveSlashes(rest), HalveSlashes(b));
    }
  }

  lemma {:induction false} HalveRun(k: nat)
    ensures HalveSlashes(Slashes(k)) == Slashes((k + 1) / 2)
  {
    if k == 1 {
      assert Slashes(1)[1..] == [];
    } else if k >= 2 {
      assert Slashes(k)[2..] == Slashes(k - 2);
      HalveRun(k - 2);
      assert ['/'] + Slashes((k - 1) / 2) == Slashes((k + 1) / 2);
    }
  }

  lemma NothingToTrim(s: string)
    requires !Outer(s)
    ensures TrimSlashes(s) == s
  {
  }

  /** Normalising: slashes at the ends go, and a run of k slashes inside becomes half as long, rounded up. */
  lemma RunsAreHalved(before: nat, a: string, k: nat, b: string, after: nat)
    requires a != [] && b != [] && !Outer(a) && !Outer(b)
    ensures Normalize(Slashes(before) + a + Slashes(k) + b + Slashes(after)) == Normalize(a) + Slashes((k + 1) / 2) + Normalize(b)
  {
    hide TrimSlashes, HalveSlashes;
    var middle := a + Slashes(k) + b;
    assert Slashes(before) + a + Slashes(k) + b + Slashes(after) == Slashes(before) + (middle + Slashes(after));
    LeadingSlashesGo(before, middle + Slashes(after));
    TrailingSlashesGo(middle, after);
    NothingToTrim(middle);
    NothingToTrim(a);
    NothingToTrim(b);
    HalveConcat(a, Slashes(k));
    HalveConcat(a + Slashes(k), b);
    HalveRun(k);
  }

  /** A single name stays as it is. */
  lemma {:induction false} NamesAreNormal(s: string)
    requires NoSlash(s)
    ensures Normalize(s) == s && HalveSlashes(s) == s
  {
    if s != [] {
      NamesAreNormal(s[1..]);
      assert s == [s[0]] + s[1..];
    }
  }

  // ---------------------------------------------------------------- the names in a path

  function NonEmpty(parts: seq<string>): seq<string> {
    if parts == [] then [] else (if parts[0] == [] then [] else [parts[0]]) + NonEmpty(parts[1..])
  }

  /** The names between the slashes. */
  function Names(s: string): seq<string> { NonEmpty(Parts(s)) }

  lemma {:induction false} NonEmptyConcat(a: seq<string>, b: seq<string>)
    ensures NonEmpty(a + b) == NonEmpty(a) + NonEmpty(b)
  {
    if a == [] {
      assert a + b == b;
    } else {
      assert (a + b)[1..] == a[1..] + b;
      NonEmptyConcat(a[1..], b);
    }
  }

  lemma {:induction false} PartsOfTrailing(s: string)
    ensures Parts(s + "/") == Parts(s) + [[]]
  {
    if s == [] {
      assert ("/")[1..] == [];
    } else {
      assert (s + "/")[1..] == s[1..] + "/";
      PartsOfTrailing(s[1..]);
      var rest := Parts(s[1..]);
      assert (rest + [[]])[0] == rest[0] && (rest + [[]])[1..] == rest[1..] + [[]];
    }
  }

  lemma LeadingSlashHasNoName(s: string)
    ensures Parts("/" + s) == [[]] + Parts(s) && Names("/" + s) == Names(s)
  {
    assert ("/" + s)[1..] == s;
    NonEmptyConcat([[]], Parts(s));
  }

  lemma {:induction false} TrimKeepsNames(s: string)
    ensures Names(TrimSlashes(s)) == Names(s)
    decreases |s|
  {
    if s != [] && s[0] == '/' {
      TrimKeepsNames(s[1..]);
      assert s == "/" + s[1..];
      LeadingSlashHasNoName(s[1..]);
    } else if s != [] && s[|s| - 1] == '/' {
      var front := s[..|s| - 1];
      TrimKeepsNames(front);
      assert s == front + "/";
      PartsOfTrailing(front);
      NonEmptyConcat(Parts(front), [[]]);
    }
  }

  /** Halving keeps the first part, and the names after it. */
  lemma {:induction false} HalveKeepsNames(s: string)
    ensures Parts(HalveSlashes(s))[0] == Parts(s)[0]
    ensures NonEmpty(Parts(HalveSlashes(s))[1..]) == NonEmpty(Parts(s)[1..]) && Names(HalveSlashes(s)) == Names(s)
    decreases |s|
  {
    if s != [] {
      var two := |s| >= 2 && s[0] == '/' && s[1] == '/';
      var rest := if two then s[2..] else s[1..];
      HalveKeepsNames(rest);
      var half := HalveSlashes(rest);
      if s[0] == '/' {
        assert HalveSlashes(s) == "/" + half;
        LeadingSlashHasNoName(half);
        LeadingSlashHasNoName(rest);
        if two {
          assert s == "/" + ("/" + rest);
          LeadingSlashHasNoName("/" + rest);
        } else {
          assert s == "/" + rest;
        }
      } else {
        assert ([s[0]] + half)[1..] == half;
      }
    }
  }

  lemma {:induction false} DoubleIffTriple(t: string)
    ensures Double(HalveSlashes(t)) <==> Triple(t)
    ensures (HalveSlashes(t) != [] && HalveSlashes(t)[0] == '/') <==> (t != [] && t[0] == '/')
    decreases |t|
  {
    if t != [] {
      var two := |t| >= 2 && t[0] == '/' && t[1] == '/';
      var rest := if two then t[2..] else t[1..];
      DoubleIffTriple(rest);
      DoubleGrows(t[0], HalveSlashes(rest));
      TripleGrows(t, rest);
    }
  }

  lemma DoubleGrows(c: char, s: string)
    ensures Double([c] + s) <==> Double(s) || (c == '/' && s != [] && s[0] == '/')
  {
    var t := [c] + s;
    if i :| 0 <= i < |s| - 1 && s[i] == '/' && s[i + 1] == '/' {
      assert t[i + 1] == '/' && t[i + 1 + 1] == '/';
    }
    if c == '/' && s != [] && s[0] == '/' {
      assert t[0] == '/' && t[0 + 1] == '/';
    }
    if i :| 0 <= i < |t| - 1 && t[i] == '/' && t[i + 1] == '/' && i > 0 {
      assert s[i - 1] == '/' && s[i - 1 + 1] == '/';
    }
  }

  lemma TripleGrows(t: string, rest: string)
    requires t != [] && rest == if |t| >= 2 && t[0] == '/' && t[1] == '/' then t[2..] else t[1..]
    ensures Triple(t) <==> Triple(rest) || (|t| > 2 && t[0] == '/' && t[1] == '/' && t[2] == '/')
  {
    var n := |t| - |rest|;
    assert t[n..] == rest;
    if i :| TripleAt(rest, i) {
      assert TripleAt(t, i + n);
    }
    if |t| > 2 && t[0] == '/' && t[1] == '/' && t[2] == '/' {
      assert TripleAt(t, 0);
    }
    if i :| TripleAt(t, i) && i >= n {
      assert TripleAt(rest, i - n);
    }
  }

  /** No slash at either end, no two in a row. */
  predicate Normal(p: string) { !Outer(p) && !Double(p) }

  lemma {:induction false} NormalHasNoEmptyPart(p: string)
    requires p != [] && !Double(p) && p[|p| - 1] != '/'
    ensures NonEmpty(Parts(p)[1..]) == Parts(p)[1..] && (p[0] != '/' ==> Parts(p)[0] != [] && Names(p) == Parts(p))
    decreases |p|
  {
    if |p| == 1 {
      assert p[1..] == [] && Parts([]) == [[]];
    } else {
      var rest := p[1..];
      assert p == [p[0]] + rest;
      DoubleGrows(p[0], rest);
      NormalHasNoEmptyPart(rest);
      if p[0] == '/' {
        assert Parts(p)[1..] == Parts(rest);
      } else {
        assert ([[p[0]] + Parts(rest)[0]] + Parts(rest)[1..])[1..] == Parts(rest)[1..];
      }
    }
  }

  predicate Named(names: seq<string>) { forall i :: 0 <= i < |names| ==> names[i] != [] && NoSlash(names[i]) }

  lemma {:induction false} NamesAreNamed(parts: seq<string>)
    requires forall i :: 0 <= i < |parts| ==> NoSlash(parts[i])
    ensures Named(NonEmpty(parts))
  {
    if parts != [] {
      NamesAreNamed(parts[1..]);
    }
  }

  lemma {:induction false} NameBeforeNormal(name: string, rest: string)
    requires NoSlash(name) && Normal(rest) && rest != []
    ensures !Double(name + "/" + rest) && (name != [] ==> Normal(name + "/" + rest))
  {
    if name == [] {
      DoubleGrows('/', rest);
      assert name + "/" + rest == ['/'] + rest;
    } else {
      NameBeforeNormal(name[1..], rest);
      DoubleGrows(name[0], name[1..] + "/" + rest);
      assert name + "/" + rest == [name[0]] + (name[1..] + "/" + rest);
    }
  }

  lemma {:induction false} JoinedIsNormal(names: seq<string>)
    requires Named(names)
    ensures Normal(Join(names)) && (names != [] ==> Join(names) != [])
  {
    if |names| > 1 {
      JoinedIsNormal(names[1..]);
      assert NoSlash(names[0]);
      NameBeforeNormal(names[0], Join(names[1..]));
    } else if |names| == 1 {
      assert NoSlash(names[0]);
    }
  }

  lemma NormalIsJoined(p: string)
    requires Normal(p)
    ensures Join(Names(p)) == p
  {
    if p == [] {
      assert Names([]) == [];
    } else {
      NormalHasNoEmptyPart(p);
      JoinParts(p);
    }
  }

  /** The normal form keeps the names between the slashes and their order, whatever the path; and it is exactly
      those names joined by single slashes if and only if three slashes never stand in a row inside the path. */
  lemma NormalFormIff(s: string)
    ensures Names(Normalize(s)) == Names(s) && !Outer(Normalize(s))
    ensures Normalize(s) == Join(Names(s)) <==> !Triple(TrimSlashes(s))
  {
    var t := TrimSlashes(s);
    TrimKeepsNames(s);
    HalveKeepsNames(t);
    DoubleIffTriple(t);
    NamesAreNamed(Parts(s));
    JoinedIsNormal(Names(s));
    if !Triple(t) {
      NormalIsJoined(Normalize(s));
    }
  }

  lemma TripleIsDouble(p: string)
    ensures Triple(p) ==> Double(p)
  {
    if i :| TripleAt(p, i) {
      assert p[i] == '/' && p[i + 1] == '/';
    }
  }

  /** A path is its own normal form exactly when it has no slash at an end and no two in a row. */
  lemma NormalIff(p: string)
    ensures Normalize(p) == p <==> Normal(p)
  {
    if Normalize(p) == p && Double(p) {
      NothingToTrim(p);
      HalvingShortens(p);
    }
    if Normal(p) {
      NormalFormIff(p);
      NormalIsJoined(p);
      NothingToTrim(p);
      TripleIsDouble(p);
    }
  }

  lemma {:induction false} HalvingShortens(s: string)
    ensures |HalveSlashes(s)| <= |s| && (Double(s) ==> |HalveSlashes(s)| < |s|)
    decreases |s|
  {
    if s != [] {
      var two := |s| >= 2 && s[0] == '/' && s[1] == '/';
      var rest := if two then s[2..] else s[1..];
      HalvingShortens(rest);
      if !two && Double(s) {
        assert s == [s[0]] + rest;
        DoubleGrows(s[0], rest);
      }
    }
  }

  // ---------------------------------------------------------------- nodes and directories

  /** The prefixes of a path are the paths on the way up from it. */
  lemma {:induction false} PrefixesAreAbove(p: string, n: string)
    ensures n in Prefixes(p) <==> n != [] && Above(n, p)
    decreases |p|
  {
    if p != [] {
      var at := LastSlash(p);
      PrefixesAreAbove(Parent(p), n);
      if n in Prefixes(p) && n != p {
        var i :| 0 < i <= |p| && Cut(p, i) && n == p[..i];
        assert i <= at;
        assert Cut(Parent(p), i) && Parent(p)[..i] == n;
      }
      if n in Prefixes(Parent(p)) {
        var i :| 0 < i <= |Parent(p)| && Cut(Parent(p), i) && n == Parent(p)[..i];
        assert Cut(p, i) && p[..i] == n;
      }
      assert Cut(p, |p|) && p[..|p|] == p;
    }
  }

  /** The nodes are the entries' paths and everything on the way up from them. */
  lemma NodesAre(entries: seq<Entry>, n: string)
    ensures n in Nodes(entries) <==> n != [] && exists i :: 0 <= i < |entries| && Above(n, Normalize(entries[i].path))
  {
    hide Normalize, Prefixes;
    forall i | 0 <= i < |entries| ensures n in PathsOf(entries[i]) <==> n != [] && Above(n, Normalize(entries[i].path)) {
      PrefixesAreAbove(Normalize(entries[i].path), n);
    }
  }

  /** Below something on the way up there is a next path on the way. */
  lemma {:induction false} NextBelow(n: string, p: string) returns (m: string)
    requires Above(n, p) && n != p && n != []
    ensures m != [] && Above(m, p) && Parent(m) == n
    decreases |p|
  {
    if Parent(p) == n {
      m := p;
    } else {
      m := NextBelow(n, Parent(p));
    }
  }

  lemma {:induction false} DirsAreOf(entries: seq<Entry>, n: string)
    ensures n in Dirs(entries) <==> exists i :: 0 <= i < |entries| && n in DirsOf(entries[i])
  {
    if entries != [] {
      var front, last := entries[..|entries| - 1], entries[|entries| - 1];
      DirsAreOf(front, n);
      assert entries == front + [last];
    }
  }

  /** The directories are the nodes that hold a node and those an entry announces as a directory. */
  lemma DirectoriesAre(entries: seq<Entry>, n: string)
    ensures n in Dirs(entries) <==>
            n in Nodes(entries) &&
            ((exists m :: m in Nodes(entries) && Parent(m) == n) ||
             (exists i :: 0 <= i < |entries| && entries[i].isDir && Normalize(entries[i].path) == n))
  {
    hide Normalize, Prefixes, Parent, Nodes, Dirs;
    DirsAreOf(entries, n);
    NodesAreRooted(entries);
    if n in Dirs(entries) {
      var i :| 0 <= i < |entries| && n in DirsOf(entries[i]);
      var p := Normalize(entries[i].path);
      PrefixesAreAbove(p, n);
      if n != p {
        var m := NextBelow(n, p);
        PrefixesAreAbove(p, m);
        assert m in PathsOf(entries[i]);
        assert m in Nodes(entries) && Parent(m) == n;
      }
    }
    if i :| 0 <= i < |entries| && entries[i].isDir && Normalize(entries[i].path) == n && n in Nodes(entries) {
      NodesAre(entries, n);
      PrefixesAreAbove(n, n);
      assert n in DirsOf(entries[i]);
    }
    NodesAre(entries, n);
  }

  /** A node's path is found again after normalising, whatever the node, exactly when no entry's path has three
      slashes in a row inside it. */
  lemma NodesAreNormalIff(entries: seq<Entry>)
    ensures (forall n :: n in Nodes(entries) ==> Normalize(n) == n) <==>
            (forall i :: 0 <= i < |entries| ==> !Triple(TrimSlashes(entries[i].path)))
  {
    hide Normalize, Prefixes, Nodes, Triple, TrimSlashes;
    if forall i :: 0 <= i < |entries| ==> !Triple(TrimSlashes(entries[i].path)) {
      forall n | n in Nodes(entries) ensures Normalize(n) == n {
        NodesAre(entries, n);
        var i :| 0 <= i < |entries| && Above(n, Normalize(entries[i].path));
        NormalizedIsNormalIff(entries[i].path);
        AboveIsNormal(n, Normalize(entries[i].path));
        NormalIff(n);
      }
    }
    if forall n :: n in Nodes(entries) ==> Normalize(n) == n {
      forall i | 0 <= i < |entries| ensures !Triple(TrimSlashes(entries[i].path)) {
        var p := Normalize(entries[i].path);
        NodesAre(entries, p);
        assert Above(p, p);
        NormalIff(p);
        NormalizedIsNormalIff(entries[i].path);
      }
    }
  }

  lemma NormalizedIsNormalIff(s: string)
    ensures Normal(Normalize(s)) <==> !Triple(TrimSlashes(s))
    ensures Normalize([]) == []
  {
    DoubleIffTriple(TrimSlashes(s));
  }

  lemma {:induction false} AboveIsNormal(n: string, p: string)
    requires Normal(p) && Above(n, p)
    ensures Normal(n)
    decreases |p|
  {
    if n != p {
      ParentIsNormal(p);
      AboveIsNormal(n, Parent(p));
    }
  }

  lemma NoSlashBefore(p: string, i: nat)
    requires !Double(p) && i + 1 < |p| && p[i + 1] == '/'
    ensures p[i] != '/'
  {
  }

  lemma PrefixHasNoDouble(p: string, n: nat)
    requires !Double(p) && n <= |p|
    ensures !Double(p[..n])
  {
  }

  lemma ParentIsNormal(p: string)
    requires Normal(p)
    ensures Normal(Parent(p))
  {
    var q := Parent(p);
    if q != [] {
      NoSlashBefore(p, |q| - 1);
    }
    PrefixHasNoDouble(p, |q|);
    assert p[..|q|] == q;
  }

  // ---------------------------------------------------------------- order of names

  const UPPER := "ABCDEFGHIJKLMNOPQRSTUVWXYZ"
  const LOWER := "abcdefghijklmnopqrstuvwxyz"

  /** Letters lose their case, everything else stays. */
  lemma LowerIs(s: string, i: nat)
    requires i < |s|
    ensures |Lower(s)| == |s|
    ensures forall k :: 0 <= k < 26 && s[i] == UPPER[k] ==> Lower(s)[i] == LOWER[k]
    ensures s[i] !in UPPER ==> Lower(s)[i] == s[i]
  {
    if 'A' <= s[i] <= 'Z' {
      var k := s[i] as int - 'A' as int;
      assert UPPER[k] == s[i];
    }
  }

  /** Text order: the first difference decides, and a beginning comes before the whole. */
  lemma {:induction false} TextOrderIs(a: string, b: string)
    ensures TextAtMost(a, b) <==>
            exists i :: 0 <= i <= |a| && i <= |b| && a[..i] == b[..i] && (i == |a| || (i < |b| && a[i] < b[i]))
  {
    if a != [] && b != [] && a[0] == b[0] {
      TextOrderIs(a[1..], b[1..]);
      if i :| 0 <= i <= |a[1..]| && i <= |b[1..]| && a[1..][..i] == b[1..][..i] && (i == |a[1..]| || (i < |b[1..]| && a[1..][i] < b[1..][i])) {
        assert a[..i + 1] == [a[0]] + a[1..][..i] && b[..i + 1] == [b[0]] + b[1..][..i];
      }
      if i :| 0 < i <= |a| && i <= |b| && a[..i] == b[..i] && (i == |a| || (i < |b| && a[i] < b[i])) {
        assert a[1..][..i - 1] == a[..i][1..] && b[1..][..i - 1] == b[..i][1..];
      }
    } else {
      assert a[..0] == b[..0];
    }
  }

  // ---------------------------------------------------------------- order of rows

  /** Directories stand before files; of two of one kind, the name that comes first without regard to case. */
  predicate StandsBefore(a: Row, b: Row) {
    (b.isDir ==> a.isDir) && (a.isDir == b.isDir ==> TextAtMost(Lower(a.name), Lower(b.name)))
  }

  /** Rows of one directory are in that order. */
  predicate SiblingsOrdered(rows: seq<Row>) {
    forall i, j :: 0 <= i < j < |rows| && Parent(rows[i].path) == Parent(rows[j].path) ==> StandsBefore(rows[i], rows[j])
  }

  lemma SiblingsConcat(a: seq<Row>, b: seq<Row>)
    requires SiblingsOrdered(a) && SiblingsOrdered(b)
    requires forall i, j :: 0 <= i < |a| && 0 <= j < |b| && Parent(a[i].path) == Parent(b[j].path) ==> StandsBefore(a[i], b[j])
    ensures SiblingsOrdered(a + b)
  {
    hide Parent, StandsBefore;
  }

  /** What shows below a directory does not have the same parent as the directory. */
  lemma ShownHasAnotherParent(t: Index, nodes: set<string>, expanded: set<string>, k: string, n: string)
    requires Shows(t, nodes, expanded, k, n) && k != []
    ensures n != [] && Above(k, Parent(n)) && Parent(n) != Parent(k)
  {
    ShownIsBelow(t, nodes, expanded, k, n);
    AboveIsNoLonger(k, Parent(n));
  }

  lemma {:induction false} LevelIsOrdered(t: Index, nodes: set<string>, longest: nat, parent: string, depth: nat, expanded: set<string>)
    requires TreeOk(t, nodes, longest)
    ensures SiblingsOrdered(Level(t, nodes, longest, parent, depth, expanded))
    decreases Below(longest, parent), 1, 0
  {
    hide TreeOk, SiblingsOrdered, Indexes, Rooted;
    ListingIsOrdered(t, nodes, longest, parent, Ordered(t.dirs, Kids(t.children, parent)), depth, expanded);
  }

  lemma ChildIsOrdered(t: Index, nodes: set<string>, longest: nat, k: string, depth: nat, expanded: set<string>)
    requires TreeOk(t, nodes, longest) && k != [] && SiblingsOrdered(Level(t, nodes, longest, k, depth + 1, expanded))
    ensures SiblingsOrdered(ChildRows(t, nodes, longest, k, depth, expanded))
  {
    hide TreeOk, Level, Parent, StandsBefore, Leaf;
    var row := RowOf(t, k, depth, expanded);
    var inner := if Open(t, expanded, k) then Level(t, nodes, longest, k, depth + 1, expanded) else [];
    forall j | 0 <= j < |inner| ensures Parent(inner[j].path) != Parent(k) {
      assert Lists(inner, inner[j].path);
      LevelLists(t, nodes, longest, k, depth + 1, expanded, inner[j].path);
      ShownHasAnotherParent(t, nodes, expanded, k, inner[j].path);
    }
    SiblingsConcat([row], inner);
  }

  /** A row of what one child shows and a row of what a later one shows have a parent in common only if they are
      the children themselves. */
  lemma CommonParent(t: Index, nodes: set<string>, expanded: set<string>, k: string, l: string, m: string, n: string)
    requires k != [] && l != [] && k != l && Parent(k) == Parent(l)
    requires ShowsFrom(t, nodes, expanded, k, m) && ShowsFrom(t, nodes, expanded, l, n) && Parent(m) == Parent(n)
    ensures m == k && n == l
  {
    if m != k && n != l {
      ShownHasAnotherParent(t, nodes, expanded, k, m);
      ShownHasAnotherParent(t, nodes, expanded, l, n);
      BothAbove(k, l, Parent(m));
    } else if m != k {
      ShownHasAnotherParent(t, nodes, expanded, k, m);
    } else if n != l {
      ShownHasAnotherParent(t, nodes, expanded, l, n);
    }
  }

  /** Two siblings are never both on the way up from one path. */
  lemma BothAbove(k: string, l: string, n: string)
    requires k != [] && l != [] && Parent(k) == Parent(l) && Above(k, n) && Above(l, n)
    ensures k == l
  {
    AboveIsALine(k, l, n);
    if k != l {
      if Above(k, l) {
        AboveIsNoLonger(k, Parent(l));
      } else {
        AboveIsNoLonger(l, Parent(k));
      }
    }
  }

  /** The rows a listing shows belong to its children. */
  lemma ListedFrom(t: Index, nodes: set<string>, longest: nat, parent: string, kids: seq<string>, depth: nat, expanded: set<string>, j: nat)
    returns (l: string)
    requires TreeOk(t, nodes, longest) && forall k :: k in kids ==> k in Kids(t.children, parent)
    requires j < |Listing(t, nodes, longest, parent, kids, depth, expanded)|
    ensures var row := Listing(t, nodes, longest, parent, kids, depth, expanded)[j];
            l in kids && ShowsFrom(t, nodes, expanded, l, row.path)
  {
    hide TreeOk, Level, Listing, ShowsFrom;
    var rows := Listing(t, nodes, longest, parent, kids, depth, expanded);
    assert Lists(rows, rows[j].path);
    ListingLists(t, nodes, longest, parent, kids, depth, expanded, rows[j].path);
    l :| l in kids && ShowsFrom(t, nodes, expanded, l, rows[j].path);
  }

  /** Every row is what its path says. */
  predicate RowsAre(t: Index, rows: seq<Row>, expanded: set<string>) {
    forall i :: 0 <= i < |rows| ==> rows[i] == RowOf(t, rows[i].path, rows[i].depth, expanded)
  }

  lemma {:induction false} LevelRowsAre(t: Index, nodes: set<string>, longest: nat, parent: string, depth: nat, expanded: set<string>)
    requires TreeOk(t, nodes, longest)
    ensures RowsAre(t, Level(t, nodes, longest, parent, depth, expanded), expanded)
    decreases Below(longest, parent), 1, 0
  {
    hide TreeOk, RowsAre, Indexes, Rooted;
    ListingRowsAre(t, nodes, longest, parent, Ordered(t.dirs, Kids(t.children, parent)), depth, expanded);
  }

  lemma {:induction false} ListingRowsAre(t: Index, nodes: set<string>, longest: nat, parent: string, kids: seq<string>, depth: nat, expanded: set<string>)
    requires TreeOk(t, nodes, longest) && forall k :: k in kids ==> k in Kids(t.children, parent)
    ensures RowsAre(t, Listing(t, nodes, longest, parent, kids, depth, expanded), expanded)
    decreases Below(longest, parent), 0, |kids|
  {
    hide TreeOk, Level, Listing, Parent, Kids, RowOf;
    if kids == [] {
      ListingEnds(t, nodes, longest, parent, depth, expanded);
    } else {
      var k := kids[0];
      assert k in kids;
      ChildIsKid(t, nodes, longest, parent, k);
      ParentIsShorter(k);
      LevelRowsAre(t, nodes, longest, k, depth + 1, expanded);
      ListingRowsAre(t, nodes, longest, parent, kids[1..], depth, expanded);
      ListingStep(t, nodes, longest, parent, kids, depth, expanded);
      PathOfRow(t, k, depth, expanded);
    }
  }

  lemma PathOfRow(t: Index, k: string, depth: nat, expanded: set<string>)
    ensures var row := RowOf(t, k, depth, expanded); row.path == k && row.depth == depth
  {
  }

  lemma OrderedStands(t: Index, kids: set<string>, k: string, l: string, depth: nat, d: nat, expanded: set<string>)
    requires AtMost(t.dirs, k, l)
    ensures StandsBefore(RowOf(t, k, depth, expanded), RowOf(t, l, d, expanded))
  {
    hide Leaf, Lower, TextAtMost;
    TextIsOrdered(Lower(Leaf(k)), Lower(Leaf(l)), []);
  }

  lemma {:induction false} ListingIsOrdered(t: Index, nodes: set<string>, longest: nat, parent: string, kids: seq<string>, depth: nat, expanded: set<string>)
    requires TreeOk(t, nodes, longest) && forall k :: k in kids ==> k in Kids(t.children, parent)
    requires forall i, j :: 0 <= i < j < |kids| ==> kids[i] != kids[j] && AtMost(t.dirs, kids[i], kids[j])
    ensures SiblingsOrdered(Listing(t, nodes, longest, parent, kids, depth, expanded))
    decreases Below(longest, parent), 0, |kids|
  {
    hide TreeOk, Level, Listing, Parent, Kids, SiblingsOrdered, ChildRows, AtMost, StandsBefore;
    if kids == [] {
      ListingEnds(t, nodes, longest, parent, depth, expanded);
      NoneOrderedBadly();
    } else {
      var k, rest := kids[0], kids[1..];
      assert k in kids && kids == [k] + rest;
      ChildIsKid(t, nodes, longest, parent, k);
      ParentIsShorter(k);
      LevelIsOrdered(t, nodes, longest, k, depth + 1, expanded);
      ChildIsOrdered(t, nodes, longest, k, depth, expanded);
      ListingIsOrdered(t, nodes, longest, parent, rest, depth, expanded);
      FirstStandsBefore(t, nodes, longest, parent, kids, depth, expanded);
      ListingStep(t, nodes, longest, parent, kids, depth, expanded);
      SiblingsConcat(ChildRows(t, nodes, longest, k, depth, expanded), Listing(t, nodes, longest, parent, rest, depth, expanded));
    }
  }

  lemma NoneOrderedBadly()
    ensures SiblingsOrdered([])
  {
  }

  lemma FirstStandsBefore(t: Index, nodes: set<string>, longest: nat, parent: string, kids: seq<string>, depth: nat, expanded: set<string>)
    requires TreeOk(t, nodes, longest) && kids != [] && forall k :: k in kids ==> k in Kids(t.children, parent)
    requires forall i, j :: 0 <= i < j < |kids| ==> kids[i] != kids[j] && AtMost(t.dirs, kids[i], kids[j])
    ensures var a, b := ChildRows(t, nodes, longest, kids[0], depth, expanded), Listing(t, nodes, longest, parent, kids[1..], depth, expanded);
            forall i, j :: 0 <= i < |a| && 0 <= j < |b| && Parent(a[i].path) == Parent(b[j].path) ==> StandsBefore(a[i], b[j])
  {
    hide TreeOk, Level, Listing, Parent, Kids, AtMost, StandsBefore, RowOf, ShowsFrom;
    var k, rest := kids[0], kids[1..];
    assert k in kids;
    ChildIsKid(t, nodes, longest, parent, k);
    var a, b := ChildRows(t, nodes, longest, k, depth, expanded), Listing(t, nodes, longest, parent, rest, depth, expanded);
    ListingRowsAre(t, nodes, longest, parent, rest, depth, expanded);
    forall i, j | 0 <= i < |a| && 0 <= j < |b| && Parent(a[i].path) == Parent(b[j].path) ensures StandsBefore(a[i], b[j]) {
      var l := ListedFrom(t, nodes, longest, parent, rest, depth, expanded, j);
      SomewhereLater(kids, l);
      assert l in kids;
      ChildIsKid(t, nodes, longest, parent, l);
      ChildShows(t, nodes, longest, k, depth, expanded, i);
      CommonParent(t, nodes, expanded, k, l, a[i].path, b[j].path);
      OrderedStands(t, {}, k, l, depth, b[j].depth, expanded);
    }
  }

  lemma ChildShows(t: Index, nodes: set<string>, longest: nat, k: string, depth: nat, expanded: set<string>, i: nat)
    requires TreeOk(t, nodes, longest) && i < |ChildRows(t, nodes, longest, k, depth, expanded)|
    ensures var row := ChildRows(t, nodes, longest, k, depth, expanded)[i];
            ShowsFrom(t, nodes, expanded, k, row.path) && (row.path == k && k != [] ==> row == RowOf(t, k, depth, expanded))
  {
    hide TreeOk, Level, Shows, Parent, RowOf;
    PathOfRow(t, k, depth, expanded);
    if i > 0 {
      var inner := Level(t, nodes, longest, k, depth + 1, expanded);
      var row := inner[i - 1];
      assert Lists(inner, row.path);
      LevelLists(t, nodes, longest, k, depth + 1, expanded, row.path);
      ShownIsBelow(t, nodes, expanded, k, row.path);
    }
  }

  /** Rows of one directory come directories first, then by name without regard to case, wherever in the
      listing the directory is. */
  lemma SiblingsComeInOrder(t: Index, nodes: set<string>, longest: nat, parent: string, depth: nat, expanded: set<string>, i: nat, j: nat)
    requires TreeOk(t, nodes, longest) && i < j < |Level(t, nodes, longest, parent, depth, expanded)|
    ensures var rows := Level(t, nodes, longest, parent, depth, expanded); var a, b := rows[i], rows[j];
            Parent(a.path) == Parent(b.path) ==>
              (b.isDir ==> a.isDir) && (a.isDir == b.isDir ==> TextAtMost(Lower(a.name), Lower(b.name)))
  {
    hide TreeOk, Level, Lower, TextAtMost, Parent;
    LevelIsOrdered(t, nodes, longest, parent, depth, expanded);
  }

  /** The columns of a row: the name is what follows the path's last slash; the row can be expanded exactly if
      it is a directory that holds something; files alone have a size. */
  lemma RowsSay(t: Index, nodes: set<string>, longest: nat, parent: string, depth: nat, expanded: set<string>, i: nat)
    requires TreeOk(t, nodes, longest) && i < |Level(t, nodes, longest, parent, depth, expanded)|
    ensures var row := Level(t, nodes, longest, parent, depth, expanded)[i];
            EndsIn(row.path, row.name) && (row.isDir <==> row.path in t.dirs) &&
            (row.expanded <==> row.isDir && row.path in expanded) &&
            (row.expandable <==> row.isDir && exists m :: m in nodes && Parent(m) == row.path) &&
            row.size == if !row.isDir && row.path in t.sizes then t.sizes[row.path] else None
  {
    hide TreeOk, Level, Parent, EndsIn;
    LevelRowsAre(t, nodes, longest, parent, depth, expanded);
    var row := Level(t, nodes, longest, parent, depth, expanded)[i];
    HasChildIff(t, nodes, longest, row.path);
    LeafIs(row.path);
  }

  /** The name is the part of the path after the last slash, or all of it. */
  predicate EndsIn(p: string, name: string) {
    NoSlash(name) && (p == name || exists i :: 0 <= i < |p| && p[i] == '/' && p[i + 1..] == name)
  }

  lemma LeafIs(p: string)
    ensures EndsIn(p, Leaf(p))
  {
    var i := LastSlash(p);
    if i >= 0 {
      assert p[i] == '/' && p[i + 1..] == Leaf(p);
    }
  }

  lemma HasChildIff(t: Index, nodes: set<string>, longest: nat, p: string)
    requires TreeOk(t, nodes, longest)
    ensures p in t.children <==> exists m :: m in nodes && Parent(m) == p
  {
    hide Parent, Rooted;
    if p in t.children {
      var m :| m in t.children[p];
      assert m in Kids(t.children, p);
      assert m in nodes && Parent(m) == p;
    }
    forall m | m in nodes && Parent(m) == p ensures p in t.children {
      assert m in Kids(t.children, p);
    }
  }
}
