/** Paths inside an archive: their normal form, their parents, and the order siblings are shown in. */
module ArchivePaths {
  import opened TextOrder

  /** Removes slashes at both ends. */
  function TrimSlashes(s: string): (r: string)
    ensures |r| <= |s| && (r != [] ==> r[0] != '/' && r[|r| - 1] != '/')
  {
    if s == [] then []
    else if s[0] == '/' then TrimSlashes(s[1..])
    else if s[|s| - 1] == '/' then TrimSlashes(s[..|s| - 1])
    else s
  }

  /** One pass that turns every two slashes into one. */
  function HalveSlashes(s: string): (r: string)
    ensures s != [] && s[0] != '/' ==> r != [] && r[0] != '/'
    ensures s != [] && s[|s| - 1] != '/' ==> r != [] && r[|r| - 1] != '/'
  {
    if s == [] then []
    else if |s| >= 2 && s[0] == '/' && s[1] == '/' then ['/'] + HalveSlashes(s[2..])
    else [s[0]] + HalveSlashes(s[1..])
  }

  function Normalize(s: string): (r: string)
    ensures r != [] ==> r[0] != '/' && r[|r| - 1] != '/'
  {
    HalveSlashes(TrimSlashes(s))
  }

  /** The last slash of a path, if it has one. */
  function LastSlash(p: string): (r: int)
    ensures -1 <= r < |p| && (r >= 0 ==> p[r] == '/') && forall i :: r < i < |p| ==> p[i] != '/'
  {
    if p == [] then -1
    else if p[|p| - 1] == '/' then |p| - 1
    else LastSlash(p[..|p| - 1])
  }

  function Parent(p: string): (r: string)
    ensures p != [] ==> |r| < |p|
  {
    if LastSlash(p) < 0 then [] else p[..LastSlash(p)]
  }

  function Leaf(p: string): string { p[LastSlash(p) + 1..] }

  /** i ends a component of p. */
  predicate Cut(p: string, i: int) { 0 < i <= |p| && (i == |p| || p[i] == '/') }

  /** The path and every directory it implies. */
  function Prefixes(p: string): set<string> {
    set i | 0 < i <= |p| && Cut(p, i) :: p[..i]
  }

  /** The components between slashes. */
  function Parts(p: string): (r: seq<string>)
    ensures r != [] && forall i :: 0 <= i < |r| ==> NoSlash(r[i])
  {
    if p == [] then [[]]
    else
      var rest := Parts(p[1..]);
      if p[0] == '/' then [[]] + rest else [[p[0]] + rest[0]] + rest[1..]
  }

  predicate NoSlash(s: string) { forall i :: 0 <= i < |s| ==> s[i] != '/' }

  function Join(parts: seq<string>): string {
    if parts == [] then [] else if |parts| == 1 then parts[0] else parts[0] + "/" + Join(parts[1..])
  }

  lemma {:induction false} JoinParts(p: string)
    ensures Join(Parts(p)) == p
  {
    if p != [] {
      var rest := Parts(p[1..]);
      JoinParts(p[1..]);
      if p[0] == '/' {
        assert ([[]] + rest)[1..] == rest;
        assert p == "/" + p[1..];
      } else {
        assert ([[p[0]] + rest[0]] + rest[1..])[1..] == rest[1..];
        assert p == [p[0]] + p[1..];
      }
    }
  }

  /** A path ends with its leaf; the rest, without the slash between, is its parent. */
  lemma ParentOfChild(parent: string, part: string)
    requires NoSlash(part)
    ensures Parent(parent + "/" + part) == parent && Leaf(parent + "/" + part) == part
    ensures Parent(part) == [] && Leaf(part) == part
  {
    var p := parent + "/" + part;
    assert p[|parent|] == '/';
    assert forall i :: |parent| < i < |p| ==> p[i] == part[i - |parent| - 1];
    assert LastSlash(p) == |parent|;
    assert p[..|parent|] == parent && p[|parent| + 1..] == part;
    assert LastSlash(part) == -1;
  }

  /** The parent of a path is one of its prefixes, and prefixes of prefixes are prefixes. */
  lemma ParentIsPrefix(p: string)
    requires p != [] && Parent(p) != []
    ensures Parent(p) in Prefixes(p)
  {
    var i := LastSlash(p);
    assert Cut(p, i);
  }

  lemma PrefixesNest(p: string, q: string)
    requires q in Prefixes(p)
    ensures q != [] && Prefixes(q) <= Prefixes(p)
  {
    var i :| 0 < i <= |p| && Cut(p, i) && q == p[..i];
    forall r | r in Prefixes(q) ensures r in Prefixes(p) {
      var j :| 0 < j <= |q| && Cut(q, j) && r == q[..j];
      assert Cut(p, j) && p[..j] == q[..j];
    }
  }

  // ---------------------------------------------------------------- ordering

  /** Folders first, then by name without regard to case. */
  predicate RankAtMost(dirs: set<string>, a: string, b: string) {
    (a in dirs && b !in dirs) || ((a in dirs <==> b in dirs) && TextAtMost(Lower(Leaf(a)), Lower(Leaf(b))))
  }

  /** The display order of siblings: names that differ only in case keep the order of their paths. */
  predicate AtMost(dirs: set<string>, a: string, b: string) {
    RankAtMost(dirs, a, b) && (RankAtMost(dirs, b, a) ==> TextAtMost(a, b))
  }

  lemma DisplayOrder(dirs: set<string>, a: string, b: string, c: string)
    ensures AtMost(dirs, a, b) || AtMost(dirs, b, a)
    ensures AtMost(dirs, a, b) && AtMost(dirs, b, a) ==> a == b
    ensures AtMost(dirs, a, b) && AtMost(dirs, b, c) ==> AtMost(dirs, a, c)
  {
    hide TextAtMost, Lower, Leaf;
    TextIsOrdered(Lower(Leaf(a)), Lower(Leaf(b)), Lower(Leaf(c)));
    TextIsOrdered(Lower(Leaf(b)), Lower(Leaf(c)), Lower(Leaf(a)));
    TextIsOrdered(Lower(Leaf(c)), Lower(Leaf(a)), Lower(Leaf(b)));
    TextIsOrdered(a, b, c);
    TextIsOrdered(b, a, c);
  }

  predicate First(dirs: set<string>, kids: set<string>, x: string) {
    x in kids && forall y :: y in kids ==> AtMost(dirs, x, y)
  }

  lemma {:induction false} FirstExists(dirs: set<string>, kids: set<string>)
    requires kids != {}
    ensures exists x :: First(dirs, kids, x)
  {
    hide AtMost;
    var x :| x in kids;
    var rest := kids - {x};
    DisplayOrder(dirs, x, x, x);
    if rest == {} {
      assert kids == {x};
      assert First(dirs, kids, x);
    } else {
      FirstExists(dirs, rest);
      var y :| First(dirs, rest, y);
      DisplayOrder(dirs, x, y, y);
      var best := if AtMost(dirs, x, y) then x else y;
      forall z | z in kids ensures AtMost(dirs, best, z) {
        DisplayOrder(dirs, x, y, z);
      }
      assert First(dirs, kids, best);
    }
  }

  /** The siblings in display order. */
  ghost function Ordered(dirs: set<string>, kids: set<string>): (r: seq<string>)
    ensures forall x :: x in r <==> x in kids
    ensures forall i, j :: 0 <= i < j < |r| ==> r[i] != r[j] && AtMost(dirs, r[i], r[j])
  {
    if kids == {} then []
    else
      FirstExists(dirs, kids);
      var x :| First(dirs, kids, x);
      [x] + Ordered(dirs, kids - {x})
  }

  lemma FirstIsUnique(dirs: set<string>, kids: set<string>, x: string, y: string)
    requires First(dirs, kids, x) && First(dirs, kids, y)
    ensures x == y
  {
    DisplayOrder(dirs, x, y, y);
  }

  /** Sorts siblings into display order. */
  method SortSiblings(dirs: set<string>, kids: set<string>) returns (ordered: seq<string>)
    ensures ordered == Ordered(dirs, kids)
  {
    hide AtMost, Ordered;
    ordered := [];
    var rest := kids;
    assert [] + Ordered(dirs, kids) == Ordered(dirs, kids);
    while rest != {}
      invariant rest <= kids && ordered + Ordered(dirs, rest) == Ordered(dirs, kids)
      decreases |rest|
    {
      var x := TakeFirst(dirs, rest);
      OrderedStep(dirs, rest, x);
      assert ordered + ([x] + Ordered(dirs, rest - {x})) == (ordered + [x]) + Ordered(dirs, rest - {x});
      ordered := ordered + [x];
      rest := rest - {x};
    }
    NoneOrdered(dirs);
  }

  lemma NoneOrdered(dirs: set<string>)
    ensures Ordered(dirs, {}) == []
  {
  }

  lemma OrderedStep(dirs: set<string>, kids: set<string>, x: string)
    requires First(dirs, kids, x)
    ensures Ordered(dirs, kids) == [x] + Ordered(dirs, kids - {x})
  {
    hide AtMost;
    var y :| First(dirs, kids, y) && Ordered(dirs, kids) == [y] + Ordered(dirs, kids - {y});
    FirstIsUnique(dirs, kids, x, y);
  }

  method TakeFirst(dirs: set<string>, kids: set<string>) returns (x: string)
    requires kids != {}
    ensures First(dirs, kids, x)
  {
    hide AtMost;
    x :| x in kids;
    DisplayOrder(dirs, x, x, x);
    var seen, rest := {x}, kids - {x};
    while rest != {}
      invariant seen + rest == kids && seen !! rest && x in seen && forall y :: y in seen ==> AtMost(dirs, x, y)
      decreases |rest|
    {
      var y :| y in rest;
      DisplayOrder(dirs, x, y, y);
      if !AtMost(dirs, x, y) {
        forall z | z in seen ensures AtMost(dirs, y, z) {
          DisplayOrder(dirs, y, x, z);
        }
        x := y;
        DisplayOrder(dirs, y, y, y);
      }
      seen, rest := seen + {y}, rest - {y};
    }
    assert seen == kids;
  }
}
