/** Building the archive tree from a table of contents, and reading rows from it. */
module ArchiveIndex {
  import opened TextOrder
  import opened ArchivePaths
  import opened ArchiveTree
  import opened ArchiveLaws

  /** The prefixes of a path that are no longer than n. */
  function PrefixesUpTo(p: string, n: nat): set<string> {
    set i | 0 < i <= |p| && i <= n && Cut(p, i) :: p[..i]
  }

  lemma UpToTheEnd(p: string)
    ensures PrefixesUpTo(p, |p|) == Prefixes(p) && PrefixesUpTo(p, 0) == {}
  {
  }

  /** The state of the component loop: `parent` is what the first i components spell. */
  predicate Spelt(path: string, parts: seq<string>, i: nat, parent: string) {
    i <= |parts| &&
    (i == 0 ==> parent == [] && path == Join(parts)) &&
    (0 < i ==> parent != [] && Cut(path, |parent|) && path[..|parent|] == parent) &&
    (0 < i < |parts| ==> path == parent + "/" + Join(parts[i..])) &&
    (0 < i == |parts| ==> parent == path)
  }

  function Child(parent: string, part: string): string { if parent == [] then part else parent + "/" + part }

  lemma JoinFirst(parts: seq<string>, i: nat)
    requires i < |parts|
    ensures Join(parts[i..]) == if i + 1 == |parts| then parts[i] else parts[i] + "/" + Join(parts[i + 1..])
  {
    assert parts[i..][1..] == parts[i + 1..];
  }

  predicate Components(parts: seq<string>) { forall k :: 0 <= k < |parts| ==> NoSlash(parts[k]) }

  /** Where the next component lies in the path. */
  lemma ComponentPlace(path: string, parts: seq<string>, i: nat, parent: string)
    requires path != [] && path[0] != '/' && i < |parts| && Spelt(path, parts, i, parent) && Components(parts)
    ensures var start, part := if i == 0 then 0 else |parent| + 1, parts[i];
            start + |part| <= |path| && path[start..start + |part|] == part && NoSlash(part) && (i == 0 ==> part != [])
    ensures var end := (if i == 0 then 0 else |parent| + 1) + |parts[i]|;
            Child(parent, parts[i]) == path[..end] && (if i + 1 == |parts| then end == |path| else end < |path| && path[end..] == "/" + Join(parts[i + 1..]))
  {
    var part := parts[i];
    JoinFirst(parts, i);
    assert parts[0..] == parts;
    var head := if i == 0 then [] else parent + "/";
    assert path == head + Join(parts[i..]);
    assert NoSlash(part);
    if i + 1 == |parts| {
      assert path == head + part;
    } else {
      assert path == head + part + ("/" + Join(parts[i + 1..]));
    }
    assert Child(parent, part) == head + part;
  }

  /** The loop's state after one more component. */
  lemma SpeltNext(path: string, parts: seq<string>, i: nat, parent: string)
    requires path != [] && path[0] != '/' && i < |parts| && Spelt(path, parts, i, parent) && Components(parts)
    ensures Spelt(path, parts, i + 1, Child(parent, parts[i])) && |parent| < |Child(parent, parts[i])| <= |path|
    ensures Child(parent, parts[i]) == path <==> i + 1 == |parts|
  {
    hide Join, Components, NoSlash;
    ComponentPlace(path, parts, i, parent);
    var full := Child(parent, parts[i]);
    if i + 1 < |parts| {
      assert path[|full|..][0] == '/';
      assert path == full + path[|full|..];
    }
  }

  lemma NextComponent(path: string, parts: seq<string>, i: nat, parent: string)
    requires path != [] && path[0] != '/' && i < |parts| && Spelt(path, parts, i, parent) && Components(parts)
    ensures var full := Child(parent, parts[i]);
            full != [] && Parent(full) == parent && Spelt(path, parts, i + 1, full) && |full| > |parent|
    ensures PrefixesUpTo(path, |Child(parent, parts[i])|) == PrefixesUpTo(path, |parent|) + {Child(parent, parts[i])}
    ensures Child(parent, parts[i]) == path <==> i + 1 == |parts|
  {
    hide Parent, Join, PrefixesUpTo, Components, NoSlash, Spelt;
    SpeltNext(path, parts, i, parent);
    ComponentPlace(path, parts, i, parent);
    SpeltMeans(path, parts, i, parent);
    SpeltMeans(path, parts, i + 1, Child(parent, parts[i]));
    ParentOfChild(parent, parts[i]);
    OneMoreCut(path, parent, Child(parent, parts[i]), if i == 0 then 0 else |parent| + 1);
  }

  lemma SpeltMeans(path: string, parts: seq<string>, i: nat, parent: string)
    requires Spelt(path, parts, i, parent)
    ensures if i == 0 then parent == [] else parent != [] && Cut(path, |parent|) && path[..|parent|] == parent
  {
  }

  /** Between the end of one component and the end of the next there is no other. */
  lemma OneMoreCut(path: string, parent: string, full: string, start: nat)
    requires |parent| <= start <= |parent| + 1 && |parent| < |full| <= |path| && start <= |full|
    requires path[..|full|] == full && NoSlash(path[start..|full|]) && Cut(path, |full|)
    ensures PrefixesUpTo(path, |full|) == PrefixesUpTo(path, |parent|) + {full}
  {
    forall n | |parent| < n < |full| ensures !Cut(path, n) {
      assert path[start..|full|][n - start] == path[n];
    }
  }

  lemma AddKid(children: map<string, set<string>>, nodes: set<string>, n: string)
    requires Indexes(children, nodes)
    ensures Indexes(children[Parent(n) := Kids(children, Parent(n)) + {n}], nodes + {n})
  {
    hide Parent;
    var p := Parent(n);
    var after := children[p := Kids(children, p) + {n}];
    forall q, x ensures x in Kids(after, q) <==> x in nodes + {n} && Parent(x) == q {
      assert x in Kids(children, q) <==> x in nodes && Parent(x) == q;
      assert Kids(after, q) == if q == p then Kids(children, p) + {n} else Kids(children, q);
    }
  }

  lemma NodesHaveDirectories(children: map<string, set<string>>, nodes: set<string>)
    requires Indexes(children, nodes)
    ensures forall n :: n in nodes ==> Parent(n) in children
  {
    hide Parent;
    forall n | n in nodes ensures Parent(n) in children {
      assert n in Kids(children, Parent(n));
    }
  }

  function Sizes(entries: seq<Entry>): map<string, Option<nat>> {
    if entries == [] then map[]
    else
      var e := entries[|entries| - 1];
      var before := Sizes(entries[..|entries| - 1]);
      if e.isDir || Normalize(e.path) == [] then before else before[Normalize(e.path) := e.size]
  }

  /** Of several entries for one file the last one's size counts. */
  lemma {:induction false} LastSizeCounts(entries: seq<Entry>, i: nat)
    requires i < |entries| && !entries[i].isDir && Normalize(entries[i].path) != []
    requires forall j :: i < j < |entries| && !entries[j].isDir ==> Normalize(entries[j].path) != Normalize(entries[i].path)
    ensures var p := Normalize(entries[i].path); p in Sizes(entries) && Sizes(entries)[p] == entries[i].size
  {
    hide Normalize;
    if i < |entries| - 1 {
      LastSizeCounts(entries[..|entries| - 1], i);
    }
  }

  class ArchiveTreeIndex {
    var children: map<string, set<string>>
    var dirs: set<string>
    var sizes: map<string, Option<nat>>
    ghost var entries: seq<Entry>

    function State(): Index
      reads this
    {
      Index(children, dirs, sizes)
    }

    ghost predicate Valid()
      reads this
    {
      Indexes(children, Nodes(entries)) && dirs == Dirs(entries) && sizes == Sizes(entries)
    }

    /** An empty tree. */
    constructor ()
      ensures Valid() && entries == []
    {
      children, dirs, sizes, entries := map[], {}, map[], [];
    }

    /** Links every prefix of the entry's path under its parent. */
    method Insert(e: Entry)
      requires Valid()
      modifies this
      ensures Valid() && entries == old(entries) + [e]
    {
      hide Indexes, Prefixes, Cut, Nodes, Dirs, Sizes, Parent, Normalize, PrefixesUpTo;
      var path := Normalize(e.path);
      entries := entries + [e];
      NodesAppend(old(entries), e);
      if path == [] {
        NoPrefixes();
        assert Nodes(entries) == Nodes(old(entries)) && Dirs(entries) == Dirs(old(entries));
        return;
      }
      var parts := Parts(path);
      JoinParts(path);
      var parent := "";
      var i := 0;
      UpToTheEnd(path);
      assert Nodes(old(entries)) + PrefixesUpTo(path, 0) == Nodes(old(entries)) && old(dirs) + PrefixesUpTo(path, 0) == old(dirs);
      while i < |parts|
        invariant Spelt(path, parts, i, parent) && entries == old(entries) + [e]
        invariant Indexes(children, Nodes(old(entries)) + PrefixesUpTo(path, |parent|))
        invariant dirs == old(dirs) + if e.isDir || i < |parts| then PrefixesUpTo(path, |parent|) else Prefixes(path) - {path}
        invariant sizes == if e.isDir || i < |parts| then old(sizes) else old(sizes)[path := e.size]
      {
        var full := Child(parent, parts[i]);
        NextComponent(path, parts, i, parent);
        AddKid(children, Nodes(old(entries)) + PrefixesUpTo(path, |parent|), full);
        assert Nodes(old(entries)) + PrefixesUpTo(path, |parent|) + {full} == Nodes(old(entries)) + PrefixesUpTo(path, |full|);
        children := children[parent := Kids(children, parent) + {full}];
        if i + 1 != |parts| || e.isDir {
          dirs := dirs + {full};
          assert dirs == old(dirs) + PrefixesUpTo(path, |full|);
        } else {
          LastPrefix(path, parent);
          sizes := sizes[full := e.size];
        }
        parent := full;
        i := i + 1;
      }
    }

    /** Indexes a whole table of contents. */
    static method Build(toc: seq<Entry>) returns (tree: ArchiveTreeIndex)
      ensures fresh(tree) && tree.Valid() && tree.entries == toc
    {
      hide Nodes, Dirs, Sizes, Indexes, Rooted;
      tree := new ArchiveTreeIndex();
      var i := 0;
      while i < |toc|
        invariant i <= |toc| && fresh(tree) && tree.Valid() && tree.entries == toc[..i]
      {
        assert toc[..i + 1] == toc[..i] + [toc[i]];
        tree.Insert(toc[i]);
        i := i + 1;
      }
      assert toc[..i] == toc;
    }

    predicate IsDir(path: string)
      reads this
    {
      Normalize(path) in dirs
    }

    /** One child's row, and what it shows below it when it is open. */
    method PushChild(ghost nodes: set<string>, ghost longest: nat, k: string, depth: nat, expanded: set<string>, out: seq<Row>)
      returns (rows: seq<Row>)
      requires TreeOk(State(), nodes, longest) && k in nodes
      ensures rows == out + ChildRows(State(), nodes, longest, k, depth, expanded)
      decreases Below(longest, k), 2
    {
      hide TreeOk, Level;
      rows := out + [RowOf(State(), k, depth, expanded)];
      if k in dirs && k in expanded {
        rows := PushLevel(nodes, longest, k, depth + 1, expanded, rows);
      }
    }

    method PushLevel(ghost nodes: set<string>, ghost longest: nat, parent: string, depth: nat, expanded: set<string>, out: seq<Row>)
      returns (rows: seq<Row>)
      requires TreeOk(State(), nodes, longest)
      ensures rows == out + Level(State(), nodes, longest, parent, depth, expanded)
      decreases Below(longest, parent), 1
    {
      hide TreeOk, AtMost, RowOf, Listing, ChildRows, Kids, Parent, Level, Ordered, Below;
      rows := out;
      ghost var t := State();
      var kids := Kids(children, parent);
      var ordered := SortSiblings(dirs, kids);
      OrderedHasKids(dirs, kids);
      var i := 0;
      assert ordered[0..] == ordered;
      while i < |ordered|
        invariant i <= |ordered|
        invariant forall k :: k in ordered[i..] ==> k in kids
        invariant rows + Listing(t, nodes, longest, parent, ordered[i..], depth, expanded) ==
                  out + Listing(t, nodes, longest, parent, ordered, depth, expanded)
      {
        var k := ordered[i];
        assert k in ordered[i..];
        ChildIsKid(t, nodes, longest, parent, k);
        ListingStep(t, nodes, longest, parent, ordered[i..], depth, expanded);
        assert ordered[i..][1..] == ordered[i + 1..];
        ghost var before := rows;
        ghost var rest := Listing(t, nodes, longest, parent, ordered[i + 1..], depth, expanded);
        ChildIsLower(k, longest);
        rows := PushChild(nodes, longest, k, depth, expanded, rows);
        assert before + (ChildRows(t, nodes, longest, k, depth, expanded) + rest) == rows + rest;
        i := i + 1;
      }
      ListingEnds(t, nodes, longest, parent, depth, expanded);
      assert ordered[i..] == [];
      assert rows + [] == rows;
      LevelIsListing(t, nodes, longest, parent, depth, expanded);
    }

    /** The rows to draw: exactly the nodes whose directories are all open, each once, in preorder, siblings
        in display order. */
    method VisibleRows(expanded: set<string>) returns (rows: seq<Row>)
      requires Valid()
      ensures forall n :: Lists(rows, n) <==> Shows(State(), Nodes(entries), expanded, [], n)
      ensures DistinctRows(rows) && Nested(rows, [], 0)
      ensures exists longest: nat :: TreeOk(State(), Nodes(entries), longest) && rows == Level(State(), Nodes(entries), longest, [], 0, expanded)
    {
      hide Level, Lists, Shows, Nested, DistinctRows, Indexes, Rooted, Nodes, Dirs;
      ghost var longest := LongestPath(Nodes(entries));
      NodesAreRooted(entries);
      rows := PushLevel(Nodes(entries), longest, [], 0, expanded, []);
      assert [] + Level(State(), Nodes(entries), longest, [], 0, expanded) == Level(State(), Nodes(entries), longest, [], 0, expanded);
      forall n ensures Lists(rows, n) <==> Shows(State(), Nodes(entries), expanded, [], n) {
        LevelLists(State(), Nodes(entries), longest, [], 0, expanded, n);
      }
      LevelIsDistinct(State(), Nodes(entries), longest, [], 0, expanded);
      LevelNests(State(), Nodes(entries), longest, [], 0, expanded);
    }

    /** How many nodes there are, counted directory by directory. */
    method Len() returns (n: nat)
      requires Valid()
      ensures n == |Nodes(entries)|
    {
      hide Nodes, Dirs, Sizes, Parent, Rooted, Indexes;
      n := 0;
      var todo := children.Keys;
      ghost var seen: set<string> := {};
      ghost var nodes := Nodes(entries);
      NodesHaveDirectories(children, nodes);
      while todo != {}
        invariant todo <= children.Keys && n == |seen|
        invariant forall x :: x in seen <==> x in nodes && Parent(x) !in todo
        decreases |todo|
      {
        var p :| p in todo;
        KidsOf(children, nodes, p);
        UnionSize(seen, children[p]);
        n := n + |children[p]|;
        seen := seen + children[p];
        todo := todo - {p};
      }
      assert seen == nodes;
    }

    /** Every node whose name contains the text: directories first, then by name without case, and nodes of
        equal rank by directory and path. */
    method MatchingRows(needle: string) returns (rows: seq<Row>)
      requires Valid()
      ensures forall n :: Lists(rows, n) <==> n in Nodes(entries) && Contains(Lower(Leaf(n)), Lower(needle))
      ensures DistinctRows(rows)
      ensures forall i :: 0 <= i < |rows| ==> rows[i] == FlatRow(State(), rows[i].path) && FlatSays(entries, rows[i])
      ensures forall i, j :: 0 <= i < j < |rows| ==> MatchOrder(dirs, rows[i].path, rows[j].path) && StandsBefore(rows[i], rows[j])
    {
      hide Nodes, Dirs, Sizes, Parent, Lower, Leaf, Contains, RankAtMost, MatchOrder, TextAtMost, ListedBefore, PathsOf, StandsBefore;
      var text := Lower(needle);
      var found: seq<string> := [];
      var todo := children.Keys;
      ghost var nodes := Nodes(entries);
      NodesHaveDirectories(children, nodes);
      while todo != {}
        invariant todo <= children.Keys && Distinct(found) && InListedOrder(found)
        invariant forall x :: x in found <==> x in nodes && Parent(x) !in todo && Contains(Lower(Leaf(x)), text)
        invariant forall x, q :: x in found && q in todo ==> TextAtMost(Parent(x), q)
        decreases |todo|
      {
        ghost var first := LeastText(todo);
        assert first in todo;
        var p :| p in todo && forall q :: q in todo ==> TextAtMost(p, q);
        assert Kids(children, p) == children[p];
        var more := Matching(children[p], text);
        forall x, y | x in found && y in more ensures ListedBefore(x, y) && x != y {
          assert y in Kids(children, p);
          EarlierDirectory(x, y);
        }
        forall i, j | 0 <= i < j < |more| ensures ListedBefore(more[i], more[j]) {
          assert more[i] in Kids(children, p) && more[j] in Kids(children, p);
          SameDirectory(more[i], more[j]);
        }
        forall x ensures x in more <==> x in nodes && Parent(x) == p && Contains(Lower(Leaf(x)), text) {
          assert x in children[p] <==> x in Kids(children, p);
        }
        ListedOneAfterTheOther(found, more);
        found := found + more;
        todo := todo - {p};
      }
      var sorted := SortByRank(dirs, found);
      rows := seq(|sorted|, i requires 0 <= i < |sorted| reads this => FlatRow(State(), sorted[i]));
      forall i, j | 0 <= i < j < |rows| ensures StandsBefore(rows[i], rows[j]) {
        MatchesStandInOrder(State(), sorted[i], sorted[j]);
      }
      forall i | 0 <= i < |rows| ensures FlatSays(entries, rows[i]) {
        LeafIs(rows[i].path);
      }
      forall n ensures Lists(rows, n) <==> n in sorted {
        if n in sorted {
          var i :| 0 <= i < |sorted| && sorted[i] == n;
          assert rows[i].path == n;
        }
      }
    }
  }

  lemma ListedOneAfterTheOther(a: seq<string>, b: seq<string>)
    requires InListedOrder(a) && InListedOrder(b) && Distinct(a) && Distinct(b)
    requires forall x, y :: x in a && y in b ==> ListedBefore(x, y) && x != y
    ensures InListedOrder(a + b) && Distinct(a + b)
  {
    hide ListedBefore;
  }

  /** The names of one directory that contain the text, in order. */
  method Matching(names: set<string>, text: string) returns (found: seq<string>)
    ensures forall x :: x in found <==> x in names && Contains(Lower(Leaf(x)), text)
    ensures Distinct(found) && forall i, j :: 0 <= i < j < |found| ==> TextAtMost(found[i], found[j])
  {
    hide Contains, Lower, Leaf, TextAtMost;
    found := [];
    var left := names;
    while left != {}
      invariant left <= names && Distinct(found)
      invariant forall x :: x in found <==> x in names && x !in left && Contains(Lower(Leaf(x)), text)
      invariant forall x, y :: x in found && y in left ==> TextAtMost(x, y)
      invariant forall i, j :: 0 <= i < j < |found| ==> TextAtMost(found[i], found[j])
      decreases |left|
    {
      ghost var first := LeastText(left);
      assert first in left;
      var x :| x in left && forall y :: y in left ==> TextAtMost(x, y);
      if Contains(Lower(Leaf(x)), text) {
        assert x !in found;
        found := found + [x];
      }
      left := left - {x};
    }
  }

  /** The order in which the index holds its nodes: by directory, then by path. */
  predicate ListedBefore(a: string, b: string) {
    TextAtMost(Parent(a), Parent(b)) && (Parent(a) == Parent(b) ==> TextAtMost(a, b))
  }

  predicate InListedOrder(s: seq<string>) {
    forall i, j :: 0 <= i < j < |s| ==> ListedBefore(s[i], s[j])
  }

  /** Order of the matching rows: rank first, and the index's own order among equals. */
  predicate MatchOrder(dirs: set<string>, a: string, b: string) {
    RankAtMost(dirs, a, b) && (RankAtMost(dirs, b, a) ==> ListedBefore(a, b))
  }

  lemma EarlierDirectory(a: string, b: string)
    requires TextAtMost(Parent(a), Parent(b)) && Parent(a) != Parent(b)
    ensures ListedBefore(a, b)
  {
  }

  lemma SameDirectory(a: string, b: string)
    requires Parent(a) == Parent(b) && TextAtMost(a, b)
    ensures ListedBefore(a, b)
  {
    hide Parent, TextAtMost;
    TextIsOrdered(Parent(a), Parent(b), []);
  }

  ghost predicate Least(s: set<string>, m: string) {
    m in s && forall y :: y in s ==> TextAtMost(m, y)
  }

  lemma {:induction false} LeastText(s: set<string>) returns (m: string)
    requires s != {}
    ensures Least(s, m)
    decreases s
  {
    hide TextAtMost;
    var x :| x in s;
    m := x;
    TextIsOrdered(x, x, x);
    if s != {x} {
      m := LeastText(s - {x});
      StillLeast(s, x, m);
      if TextAtMost(x, m) {
        m := x;
      }
    }
  }

  lemma StillLeast(s: set<string>, x: string, m: string)
    requires x in s && Least(s - {x}, m)
    ensures if TextAtMost(x, m) then Least(s, x) else Least(s, m)
  {
    hide TextAtMost;
    TextIsOrdered(x, m, m);
    TextIsOrdered(x, x, x);
    forall y | y in s && y != x && TextAtMost(x, m) ensures TextAtMost(x, y) {
      assert y in s - {x};
      TextIsOrdered(x, m, y);
    }
  }

  predicate FoundAt(text: string, part: string, i: nat) {
    i + |part| <= |text| && text[i..i + |part|] == part
  }

  predicate Contains(text: string, part: string) {
    exists i :: 0 <= i <= |text| && FoundAt(text, part, i)
  }

  /** Filtering by the empty text keeps everything. */
  lemma EmptyTextIsEverywhere(text: string)
    ensures Contains(text, "")
  {
    assert FoundAt(text, "", 0);
  }

  function FlatRow(t: Index, path: string): Row {
    var isDir := path in t.dirs;
    Row(path, Leaf(path), 0, isDir, false, false, if isDir || path !in t.sizes then None else t.sizes[path])
  }

  /** What a flat row says of its node: its last name, at no depth, and of a file the size that counts. */
  predicate FlatSays(entries: seq<Entry>, row: Row) {
    EndsIn(row.path, row.name) && row.depth == 0 && !row.expandable && !row.expanded && (row.isDir <==> row.path in Dirs(entries)) &&
    row.size == if !row.isDir && row.path in Sizes(entries) then Sizes(entries)[row.path] else None
  }

  lemma MatchesStandInOrder(t: Index, a: string, b: string)
    requires MatchOrder(t.dirs, a, b)
    ensures StandsBefore(FlatRow(t, a), FlatRow(t, b))
  {
    hide Leaf, Lower, TextAtMost, ListedBefore;
  }

  /** An empty filter lists as many rows as the tree has nodes. */
  method AllRows(tree: ArchiveTreeIndex) returns (rows: seq<Row>, n: nat)
    requires tree.Valid()
    ensures n == |rows| == |Nodes(tree.entries)| && DistinctRows(rows) && forall x :: Lists(rows, x) <==> x in Nodes(tree.entries)
  {
    rows := tree.MatchingRows("");
    n := tree.Len();
    assert Lower("") == "";
    forall x ensures Lists(rows, x) <==> x in Nodes(tree.entries) {
      EmptyTextIsEverywhere(Lower(Leaf(x)));
    }
    CountRows(rows, Nodes(tree.entries));
  }

  lemma {:induction false} CountRows(rows: seq<Row>, nodes: set<string>)
    requires DistinctRows(rows) && forall x :: Lists(rows, x) <==> x in nodes
    ensures |rows| == |nodes|
  {
    if rows == [] {
      forall x ensures x !in nodes {
        NoRows(x);
      }
      assert nodes == {};
    } else {
      var init, last := rows[..|rows| - 1], rows[|rows| - 1];
      assert Lists(rows, last.path);
      forall x ensures Lists(init, x) <==> x in nodes - {last.path} {
        if Lists(init, x) {
          var i :| 0 <= i < |init| && init[i].path == x;
          assert rows[i].path == x;
          assert Lists(rows, x);
        }
        if x in nodes - {last.path} {
          assert Lists(rows, x);
          var i :| 0 <= i < |rows| && rows[i].path == x;
          assert init[i].path == x;
        }
      }
      CountRows(init, nodes - {last.path});
    }
  }

  predicate Distinct(s: seq<string>) {
    forall i, j :: 0 <= i < j < |s| ==> s[i] != s[j]
  }

  lemma RankOrder(dirs: set<string>, a: string, b: string, c: string)
    ensures RankAtMost(dirs, a, b) || RankAtMost(dirs, b, a)
    ensures RankAtMost(dirs, a, b) && RankAtMost(dirs, b, c) ==> RankAtMost(dirs, a, c)
  {
    hide TextAtMost, Lower, Leaf;
    TextIsOrdered(Lower(Leaf(a)), Lower(Leaf(b)), Lower(Leaf(c)));
  }

  predicate Ranked(dirs: set<string>, s: seq<string>) {
    forall i, j :: 0 <= i < j < |s| ==> MatchOrder(dirs, s[i], s[j])
  }

  /** Stable insertion. */
  method InsertByRank(dirs: set<string>, s: seq<string>, x: string) returns (r: seq<string>)
    requires Ranked(dirs, s) && Distinct(s) && x !in s && forall y :: y in s ==> ListedBefore(y, x)
    ensures Ranked(dirs, r) && Distinct(r) && forall y :: y in r <==> y in s || y == x
  {
    hide RankAtMost, ListedBefore;
    var i := |s|;
    while i > 0 && !RankAtMost(dirs, s[i - 1], x)
      invariant 0 <= i <= |s| && forall k :: i <= k < |s| ==> !RankAtMost(dirs, s[k], x)
    {
      i := i - 1;
    }
    r := s[..i] + [x] + s[i..];
    forall k | 0 <= k < i ensures MatchOrder(dirs, s[k], x) {
      RankOrder(dirs, s[i - 1], x, x);
      if k < i - 1 {
        assert MatchOrder(dirs, s[k], s[i - 1]);
        RankOrder(dirs, s[k], s[i - 1], x);
      }
    }
    forall k | i <= k < |s| ensures MatchOrder(dirs, x, s[k]) {
      RankOrder(dirs, x, s[k], x);
    }
    Inserted(dirs, s, i, x);
    assert s == s[..i] + s[i..];
  }

  lemma Inserted(dirs: set<string>, s: seq<string>, i: nat, x: string)
    requires i <= |s| && Ranked(dirs, s) && Distinct(s) && x !in s
    requires forall k :: 0 <= k < i ==> MatchOrder(dirs, s[k], x)
    requires forall k :: i <= k < |s| ==> MatchOrder(dirs, x, s[k])
    ensures Ranked(dirs, s[..i] + [x] + s[i..]) && Distinct(s[..i] + [x] + s[i..])
  {
    hide MatchOrder;
  }

  method SortByRank(dirs: set<string>, s: seq<string>) returns (r: seq<string>)
    requires Distinct(s) && InListedOrder(s)
    ensures Ranked(dirs, r) && Distinct(r) && forall y :: y in r <==> y in s
  {
    hide MatchOrder, ListedBefore;
    r := [];
    var i := 0;
    while i < |s|
      invariant i <= |s| && Ranked(dirs, r) && Distinct(r) && forall y :: y in r <==> y in s[..i]
    {
      assert s[i] !in s[..i];
      forall y | y in r ensures ListedBefore(y, s[i]) {
        assert y in s[..i];
      }
      r := InsertByRank(dirs, r, s[i]);
      assert s[..i + 1] == s[..i] + [s[i]];
      i := i + 1;
    }
    assert s[..i] == s;
  }

  // ---------------------------------------------------------------- facts the methods use

  lemma OrderedHasKids(dirs: set<string>, kids: set<string>)
    ensures forall k :: k in Ordered(dirs, kids) <==> k in kids
  {
  }

  lemma LevelIsListing(t: Index, nodes: set<string>, longest: nat, parent: string, depth: nat, expanded: set<string>)
    requires TreeOk(t, nodes, longest)
    ensures forall k :: k in Ordered(t.dirs, Kids(t.children, parent)) ==> k in Kids(t.children, parent)
    ensures Level(t, nodes, longest, parent, depth, expanded) ==
            Listing(t, nodes, longest, parent, Ordered(t.dirs, Kids(t.children, parent)), depth, expanded)
  {
    hide TreeOk, AtMost, Listing;
  }

  lemma ChildIsLower(k: string, longest: nat)
    requires k != [] && |k| <= longest
    ensures Below(longest, k) < Below(longest, Parent(k))
  {
  }

  lemma KidsOf(children: map<string, set<string>>, nodes: set<string>, p: string)
    requires Indexes(children, nodes) && p in children
    ensures forall n :: n in children[p] <==> n in nodes && Parent(n) == p
  {
    hide Parent;
    assert Kids(children, p) == children[p];
  }

  lemma UnionSize(a: set<string>, b: set<string>)
    requires a !! b
    ensures |a + b| == |a| + |b|
  {
  }

  lemma NodesAppend(entries: seq<Entry>, e: Entry)
    ensures Nodes(entries + [e]) == Nodes(entries) + PathsOf(e) && Dirs(entries + [e]) == Dirs(entries) + DirsOf(e)
    ensures Sizes(entries + [e]) == if e.isDir || Normalize(e.path) == [] then Sizes(entries) else Sizes(entries)[Normalize(e.path) := e.size]
  {
    assert (entries + [e])[..|entries|] == entries;
  }

  lemma NoPrefixes()
    ensures Prefixes([]) == {}
  {
  }

  lemma LastPrefix(path: string, parent: string)
    requires |parent| < |path| && PrefixesUpTo(path, |path|) == PrefixesUpTo(path, |parent|) + {path}
    ensures Prefixes(path) - {path} == PrefixesUpTo(path, |parent|)
  {
    forall x | x in PrefixesUpTo(path, |parent|) ensures x != path {
      var i :| 0 < i <= |path| && i <= |parent| && Cut(path, i) && x == path[..i];
      assert |x| == i;
    }
    UpToTheEnd(path);
  }

  ghost function LongestPath(nodes: set<string>): (longest: nat)
    ensures forall n :: n in nodes ==> |n| <= longest
  {
    if nodes == {} then 0
    else
      var n :| n in nodes;
      var rest := LongestPath(nodes - {n});
      assert forall m :: m in nodes ==> m == n || m in nodes - {n};
      if |n| >= rest then |n| else rest
  }
}
