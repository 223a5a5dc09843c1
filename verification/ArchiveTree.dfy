/** The archive tree: a table of contents indexed by parent, and its projections to rows. */
module ArchiveTree {
  import opened ArchivePaths

  datatype Option<T> = None | Some(value: T)

  datatype Entry = Entry(path: string, isDir: bool, size: Option<nat>)

  datatype Row = Row(path: string, name: string, depth: nat, isDir: bool, expandable: bool, expanded: bool, size: Option<nat>)

  // ---------------------------------------------------------------- what the tree must hold

  /** The paths an entry contributes: itself and the directories it implies. */
  function PathsOf(e: Entry): set<string> { Prefixes(Normalize(e.path)) }

  function DirsOf(e: Entry): set<string> {
    if e.isDir then PathsOf(e) else PathsOf(e) - {Normalize(e.path)}
  }

  function Nodes(entries: seq<Entry>): (r: set<string>)
    ensures forall n :: n in r <==> exists i :: 0 <= i < |entries| && n in PathsOf(entries[i])
  {
    if entries == [] then {} else
      assert entries == entries[..|entries| - 1] + [entries[|entries| - 1]];
      Nodes(entries[..|entries| - 1]) + PathsOf(entries[|entries| - 1])
  }

  function Dirs(entries: seq<Entry>): set<string> {
    if entries == [] then {} else Dirs(entries[..|entries| - 1]) + DirsOf(entries[|entries| - 1])
  }

  function Kids(children: map<string, set<string>>, parent: string): set<string> {
    if parent in children then children[parent] else {}
  }

  /** Every node is listed under its parent and nowhere else, and only nodes are listed. */
  ghost predicate Indexes(children: map<string, set<string>>, nodes: set<string>) {
    (forall p, n :: n in Kids(children, p) <==> n in nodes && Parent(n) == p) &&
    (forall p :: p in children ==> children[p] != {})
  }

  /** Every node's parent is the root or a directory node. */
  predicate Rooted(nodes: set<string>, dirs: set<string>) {
    dirs <= nodes && (forall n :: n in nodes ==> n != [] && (Parent(n) == [] || Parent(n) in dirs))
  }

  lemma ProperPrefixIsDir(e: Entry, n: string)
    requires n in PathsOf(e) && Parent(n) != []
    ensures Parent(n) in DirsOf(e)
  {
    var p := Normalize(e.path);
    PrefixesNest(p, n);
    ParentIsPrefix(n);
    var i :| 0 < i <= |p| && Cut(p, i) && n == p[..i];
    assert |Parent(n)| < |n| <= |p|;
  }

  lemma {:induction false} NodesAreRooted(entries: seq<Entry>)
    ensures Rooted(Nodes(entries), Dirs(entries))
  {
    if entries != [] {
      var e := entries[|entries| - 1];
      NodesAreRooted(entries[..|entries| - 1]);
      forall n | n in PathsOf(e) ensures n != [] && (Parent(n) == [] || Parent(n) in DirsOf(e)) {
        PrefixesNest(Normalize(e.path), n);
        if Parent(n) != [] {
          ProperPrefixIsDir(e, n);
        }
      }
    }
  }

  // ---------------------------------------------------------------- rows

  /** The tree as a value: what the projections read. */
  datatype Index = Index(children: map<string, set<string>>, dirs: set<string>, sizes: map<string, Option<nat>>)

  function RowOf(t: Index, path: string, depth: nat, expanded: set<string>): Row {
    var isDir := path in t.dirs;
    Row(path, Leaf(path), depth, isDir, isDir && path in t.children, isDir && path in expanded,
        if isDir || path !in t.sizes then None else t.sizes[path])
  }

  predicate Open(t: Index, expanded: set<string>, path: string) { path in t.dirs && path in expanded }

  ghost predicate TreeOk(t: Index, nodes: set<string>, longest: nat) {
    Indexes(t.children, nodes) && Rooted(nodes, t.dirs) && forall n :: n in nodes ==> |n| <= longest
  }

  /** Height left below a path; what the recursion descends on. */
  function Below(longest: nat, path: string): nat { if |path| <= longest then longest + 1 - |path| else 0 }

  ghost function Level(t: Index, nodes: set<string>, longest: nat, parent: string, depth: nat, expanded: set<string>): seq<Row>
    requires TreeOk(t, nodes, longest)
    decreases Below(longest, parent), 1, 0
  {
    var kids := Ordered(t.dirs, Kids(t.children, parent));
    Listing(t, nodes, longest, parent, kids, depth, expanded)
  }

  /** The rows of some children of a directory, each followed by what it shows below it. */
  ghost function Listing(t: Index, nodes: set<string>, longest: nat, parent: string, kids: seq<string>, depth: nat, expanded: set<string>): seq<Row>
    requires TreeOk(t, nodes, longest) && forall k :: k in kids ==> k in Kids(t.children, parent)
    decreases Below(longest, parent), 0, |kids|
  {
    if kids == [] then []
    else
      var k := kids[0];
      assert k in kids && k in Kids(t.children, parent);
      assert k in nodes && Parent(k) == parent;
      var inner := if Open(t, expanded, k) then Level(t, nodes, longest, k, depth + 1, expanded) else [];
      [RowOf(t, k, depth, expanded)] + inner + Listing(t, nodes, longest, parent, kids[1..], depth, expanded)
  }

  /** One child with what shows below it. */
  ghost function ChildRows(t: Index, nodes: set<string>, longest: nat, k: string, depth: nat, expanded: set<string>): seq<Row>
    requires TreeOk(t, nodes, longest)
  {
    [RowOf(t, k, depth, expanded)] + if Open(t, expanded, k) then Level(t, nodes, longest, k, depth + 1, expanded) else []
  }

  lemma ListingStep(t: Index, nodes: set<string>, longest: nat, parent: string, kids: seq<string>, depth: nat, expanded: set<string>)
    requires TreeOk(t, nodes, longest) && kids != [] && forall k :: k in kids ==> k in Kids(t.children, parent)
    ensures Listing(t, nodes, longest, parent, kids, depth, expanded) ==
            ChildRows(t, nodes, longest, kids[0], depth, expanded) + Listing(t, nodes, longest, parent, kids[1..], depth, expanded)
  {
    hide TreeOk, RowOf, Level;
  }

  lemma ListingEnds(t: Index, nodes: set<string>, longest: nat, parent: string, depth: nat, expanded: set<string>)
    requires TreeOk(t, nodes, longest)
    ensures Listing(t, nodes, longest, parent, [], depth, expanded) == []
  {
  }

  /** n shows below parent: every directory between them is open. */
  predicate Shows(t: Index, nodes: set<string>, expanded: set<string>, parent: string, n: string)
    decreases |n|
  {
    n in nodes && n != [] && (Parent(n) == parent || (Open(t, expanded, Parent(n)) && Shows(t, nodes, expanded, parent, Parent(n))))
  }

  predicate Lists(rows: seq<Row>, n: string) { exists i :: 0 <= i < |rows| && rows[i].path == n }

  lemma ListsOfConcat(a: seq<Row>, b: seq<Row>, n: string)
    ensures Lists(a + b, n) <==> Lists(a, n) || Lists(b, n)
  {
    if i :| 0 <= i < |a| && a[i].path == n {
      assert (a + b)[i].path == n;
    }
    if i :| 0 <= i < |b| && b[i].path == n {
      assert (a + b)[|a| + i].path == n;
    }
  }

  /** n is child k itself or shows below it while k is open. */
  predicate ShowsFrom(t: Index, nodes: set<string>, expanded: set<string>, k: string, n: string) {
    n == k || (Open(t, expanded, k) && Shows(t, nodes, expanded, k, n))
  }

  /** Showing below a directory goes through one of its children. */
  lemma {:induction false} ShowsThroughAChild(t: Index, nodes: set<string>, expanded: set<string>, parent: string, n: string)
    requires Shows(t, nodes, expanded, parent, n)
    ensures exists k :: k in nodes && Parent(k) == parent && k != [] && ShowsFrom(t, nodes, expanded, k, n)
    decreases |n|
  {
    if Parent(n) == parent {
      assert ShowsFrom(t, nodes, expanded, n, n);
    } else {
      ShowsThroughAChild(t, nodes, expanded, parent, Parent(n));
      var k :| k in nodes && Parent(k) == parent && k != [] && ShowsFrom(t, nodes, expanded, k, Parent(n));
      assert ShowsFrom(t, nodes, expanded, k, n);
    }
  }

  lemma {:induction false} ShowsAbove(t: Index, nodes: set<string>, expanded: set<string>, parent: string, k: string, n: string)
    requires k in nodes && k != [] && Parent(k) == parent && ShowsFrom(t, nodes, expanded, k, n)
    ensures Shows(t, nodes, expanded, parent, n)
    decreases |n|
  {
    if n != k && Parent(n) != k {
      ShowsAbove(t, nodes, expanded, parent, k, Parent(n));
    }
  }

  /** A level lists exactly the nodes that show below its directory. */
  lemma {:induction false} LevelLists(t: Index, nodes: set<string>, longest: nat, parent: string, depth: nat, expanded: set<string>, n: string)
    requires TreeOk(t, nodes, longest)
    ensures Lists(Level(t, nodes, longest, parent, depth, expanded), n) <==> Shows(t, nodes, expanded, parent, n)
    decreases Below(longest, parent), 1, 0
  {
    hide TreeOk, Indexes, Rooted;
    var kids := Ordered(t.dirs, Kids(t.children, parent));
    ListingLists(t, nodes, longest, parent, kids, depth, expanded, n);
    if Shows(t, nodes, expanded, parent, n) {
      ShowsThroughAChild(t, nodes, expanded, parent, n);
      var k :| k in nodes && Parent(k) == parent && k != [] && ShowsFrom(t, nodes, expanded, k, n);
      ChildIsKid(t, nodes, longest, parent, k);
      assert k in kids;
    }
    if k :| k in kids && ShowsFrom(t, nodes, expanded, k, n) {
      ChildIsKid(t, nodes, longest, parent, k);
      ShowsAbove(t, nodes, expanded, parent, k, n);
    }
  }

  lemma ChildIsKid(t: Index, nodes: set<string>, longest: nat, parent: string, k: string)
    requires TreeOk(t, nodes, longest)
    ensures k in Kids(t.children, parent) <==> k in nodes && Parent(k) == parent
    ensures k in nodes ==> k != [] && |k| <= longest
  {
  }

  lemma ChildLists(t: Index, nodes: set<string>, longest: nat, k: string, depth: nat, expanded: set<string>, n: string)
    requires TreeOk(t, nodes, longest)
    requires Lists(Level(t, nodes, longest, k, depth + 1, expanded), n) <==> Shows(t, nodes, expanded, k, n)
    ensures Lists(ChildRows(t, nodes, longest, k, depth, expanded), n) <==> ShowsFrom(t, nodes, expanded, k, n)
  {
    hide TreeOk, Lists, Level, Shows, Leaf;
    var row := RowOf(t, k, depth, expanded);
    OneRow(row, n);
    NoRows(n);
    ListsOfConcat([row], if Open(t, expanded, k) then Level(t, nodes, longest, k, depth + 1, expanded) else [], n);
  }

  lemma {:induction false} ListingLists(t: Index, nodes: set<string>, longest: nat, parent: string, kids: seq<string>, depth: nat, expanded: set<string>, n: string)
    requires TreeOk(t, nodes, longest) && forall k :: k in kids ==> k in Kids(t.children, parent)
    ensures Lists(Listing(t, nodes, longest, parent, kids, depth, expanded), n) <==> exists k :: k in kids && ShowsFrom(t, nodes, expanded, k, n)
    decreases Below(longest, parent), 0, |kids|
  {
    hide TreeOk, Lists, Shows, ShowsFrom, Level, Listing, ChildRows, Kids, Parent;
    if kids == [] {
      NoRows(n);
      ListingEnds(t, nodes, longest, parent, depth, expanded);
    } else {
      var k, rest := kids[0], kids[1..];
      assert k in kids && kids == [k] + rest;
      ChildIsKid(t, nodes, longest, parent, k);
      ParentIsShorter(k);
      ListingLists(t, nodes, longest, parent, rest, depth, expanded, n);
      LevelLists(t, nodes, longest, k, depth + 1, expanded, n);
      ChildLists(t, nodes, longest, k, depth, expanded, n);
      ListingStep(t, nodes, longest, parent, kids, depth, expanded);
      ListsOfConcat(ChildRows(t, nodes, longest, k, depth, expanded), Listing(t, nodes, longest, parent, rest, depth, expanded), n);
    }
  }

  lemma ParentIsShorter(k: string)
    requires k != []
    ensures |Parent(k)| < |k|
  {
  }

  lemma NoRows(n: string)
    ensures !Lists([], n)
  {
  }

  lemma OneRow(row: Row, n: string)
    ensures Lists([row], n) <==> row.path == n
  {
    assert [row][0] == row;
  }

  // ---------------------------------------------------------------- each row once

  predicate DistinctRows(rows: seq<Row>) {
    forall i, j :: 0 <= i < j < |rows| ==> rows[i].path != rows[j].path
  }

  lemma DistinctConcat(a: seq<Row>, b: seq<Row>)
    requires DistinctRows(a) && DistinctRows(b) && forall n :: !(Lists(a, n) && Lists(b, n))
    ensures DistinctRows(a + b)
  {
    forall i, j | 0 <= i < j < |a + b| ensures (a + b)[i].path != (a + b)[j].path {
      if i < |a| <= j {
        assert Lists(a, a[i].path);
        assert b[j - |a|] == (a + b)[j];
        assert Lists(b, b[j - |a|].path);
      }
    }
  }

  /** k is on the way from n up to the root. */
  predicate Above(k: string, n: string)
    decreases |n|
  {
    k == n || (n != [] && Above(k, Parent(n)))
  }

  lemma {:induction false} AboveIsNoLonger(k: string, n: string)
    requires Above(k, n)
    ensures |k| <= |n|
    decreases |n|
  {
    if k != n {
      AboveIsNoLonger(k, Parent(n));
    }
  }

  lemma {:induction false} AboveIsALine(k: string, l: string, n: string)
    requires Above(k, n) && Above(l, n)
    ensures Above(k, l) || Above(l, k)
    decreases |n|
  {
    if k != n && l != n {
      AboveIsALine(k, l, Parent(n));
    }
  }

  lemma {:induction false} ShownIsBelow(t: Index, nodes: set<string>, expanded: set<string>, k: string, n: string)
    requires Shows(t, nodes, expanded, k, n)
    ensures n != k && Above(k, n)
    decreases |n|
  {
    if Parent(n) != k {
      ShownIsBelow(t, nodes, expanded, k, Parent(n));
      AboveIsNoLonger(k, Parent(n));
    }
    assert Above(k, Parent(n));
  }

  /** What shows below one child shows below no other. */
  lemma ChildrenAreApart(t: Index, nodes: set<string>, expanded: set<string>, k: string, l: string, n: string)
    requires k != [] && l != [] && Parent(k) == Parent(l) && ShowsFrom(t, nodes, expanded, k, n) && ShowsFrom(t, nodes, expanded, l, n)
    ensures k == l
  {
    if n != k {
      ShownIsBelow(t, nodes, expanded, k, n);
    }
    if n != l {
      ShownIsBelow(t, nodes, expanded, l, n);
    }
    AboveIsALine(k, l, n);
    if k != l {
      if Above(k, l) {
        AboveIsNoLonger(k, Parent(l));
      } else {
        AboveIsNoLonger(l, Parent(k));
      }
    }
  }

  /** No node is listed twice. */
  lemma {:induction false} LevelIsDistinct(t: Index, nodes: set<string>, longest: nat, parent: string, depth: nat, expanded: set<string>)
    requires TreeOk(t, nodes, longest)
    ensures DistinctRows(Level(t, nodes, longest, parent, depth, expanded))
    decreases Below(longest, parent), 1, 0
  {
    hide TreeOk, Indexes, Rooted, DistinctRows;
    ListingIsDistinct(t, nodes, longest, parent, Ordered(t.dirs, Kids(t.children, parent)), depth, expanded);
  }

  lemma {:induction false} ListingIsDistinct(t: Index, nodes: set<string>, longest: nat, parent: string, kids: seq<string>, depth: nat, expanded: set<string>)
    requires TreeOk(t, nodes, longest) && forall k :: k in kids ==> k in Kids(t.children, parent)
    requires forall i, j :: 0 <= i < j < |kids| ==> kids[i] != kids[j]
    ensures DistinctRows(Listing(t, nodes, longest, parent, kids, depth, expanded))
    decreases Below(longest, parent), 0, |kids|
  {
    hide TreeOk, Lists, Shows, ShowsFrom, DistinctRows, Level, Listing, ChildRows, Parent, Kids;
    if kids == [] {
      FewRows([]);
      ListingEnds(t, nodes, longest, parent, depth, expanded);
    } else {
      var k, rest := kids[0], kids[1..];
      assert k in kids && kids == [k] + rest;
      var rows, others := ChildRows(t, nodes, longest, k, depth, expanded), Listing(t, nodes, longest, parent, rest, depth, expanded);
      ChildIsKid(t, nodes, longest, parent, k);
      ParentIsShorter(k);
      ListingIsDistinct(t, nodes, longest, parent, rest, depth, expanded);
      LevelIsDistinct(t, nodes, longest, k, depth + 1, expanded);
      KidIsDistinct(t, nodes, longest, k, depth, expanded);
      forall n ensures Lists(rows, n) ==> !Lists(others, n) {
        if Lists(rows, n) {
          LaterKidsListOthers(t, nodes, longest, parent, kids, depth, expanded, n);
        }
      }
      ListingStep(t, nodes, longest, parent, kids, depth, expanded);
      DistinctConcat(rows, others);
    }
  }

  lemma KidIsDistinct(t: Index, nodes: set<string>, longest: nat, k: string, depth: nat, expanded: set<string>)
    requires TreeOk(t, nodes, longest) && DistinctRows(Level(t, nodes, longest, k, depth + 1, expanded))
    ensures DistinctRows(ChildRows(t, nodes, longest, k, depth, expanded))
    ensures forall n :: Lists(ChildRows(t, nodes, longest, k, depth, expanded), n) ==> ShowsFrom(t, nodes, expanded, k, n)
  {
    hide TreeOk, Lists, Level, DistinctRows, Shows, Leaf;
    var row := RowOf(t, k, depth, expanded);
    var inner := if Open(t, expanded, k) then Level(t, nodes, longest, k, depth + 1, expanded) else [];
    FewRows([row]);
    FewRows([]);
    forall n ensures Lists(inner, n) ==> ShowsFrom(t, nodes, expanded, k, n) && n != k {
      InnerRow(t, nodes, longest, k, depth + 1, expanded, n);
    }
    forall n ensures Lists([row], n) ==> n == k {
      OneRow(row, n);
    }
    DistinctConcat([row], inner);
    forall n ensures Lists([row] + inner, n) ==> ShowsFrom(t, nodes, expanded, k, n) {
      ListsOfConcat([row], inner, n);
    }
  }

  lemma InnerRow(t: Index, nodes: set<string>, longest: nat, k: string, depth: nat, expanded: set<string>, n: string)
    requires TreeOk(t, nodes, longest)
    ensures var inner := if Open(t, expanded, k) then Level(t, nodes, longest, k, depth, expanded) else [];
            Lists(inner, n) ==> ShowsFrom(t, nodes, expanded, k, n) && n != k
  {
    hide TreeOk, Lists, Level;
    NoRows(n);
    LevelLists(t, nodes, longest, k, depth, expanded, n);
    if Shows(t, nodes, expanded, k, n) {
      ShownIsBelow(t, nodes, expanded, k, n);
    }
  }

  /** What the first child shows, the later ones do not. */
  lemma LaterKidsListOthers(t: Index, nodes: set<string>, longest: nat, parent: string, kids: seq<string>, depth: nat, expanded: set<string>, n: string)
    requires TreeOk(t, nodes, longest) && kids != [] && forall k :: k in kids ==> k in Kids(t.children, parent)
    requires forall i, j :: 0 <= i < j < |kids| ==> kids[i] != kids[j]
    requires ShowsFrom(t, nodes, expanded, kids[0], n)
    ensures !Lists(Listing(t, nodes, longest, parent, kids[1..], depth, expanded), n)
  {
    hide TreeOk, Lists, Level, Listing, Shows;
    ListingLists(t, nodes, longest, parent, kids[1..], depth, expanded, n);
    forall l | l in kids[1..] ensures !ShowsFrom(t, nodes, expanded, l, n) {
      SomewhereLater(kids, l);
      assert kids[0] in kids && l in kids;
      ChildIsKid(t, nodes, longest, parent, kids[0]);
      ChildIsKid(t, nodes, longest, parent, l);
      if ShowsFrom(t, nodes, expanded, l, n) {
        ChildrenAreApart(t, nodes, expanded, kids[0], l, n);
      }
    }
  }

  lemma SomewhereLater(kids: seq<string>, l: string)
    requires kids != [] && l in kids[1..]
    ensures exists j :: 0 < j < |kids| && kids[j] == l
  {
    var i :| 0 <= i < |kids[1..]| && kids[1..][i] == l;
    assert kids[i + 1] == l;
  }

  lemma FewRows(rows: seq<Row>)
    requires |rows| <= 1
    ensures DistinctRows(rows)
  {
  }

  // ---------------------------------------------------------------- preorder

  /** Row j is the open directory that row i belongs to: nothing shallower than i comes in between. */
  predicate ParentRow(rows: seq<Row>, i: nat, j: nat)
    requires i < |rows|
  {
    j < i && rows[j].path == Parent(rows[i].path) && rows[j].depth + 1 == rows[i].depth && rows[j].expanded &&
    forall k :: j < k < i ==> rows[k].depth >= rows[i].depth
  }

  /** Row i stands in preorder below `parent`: a child of it at the top level, after its own directory's
      row further down. */
  predicate RowNests(rows: seq<Row>, parent: string, depth: nat, i: nat)
    requires i < |rows|
  {
    rows[i].depth >= depth &&
    if rows[i].depth == depth then Parent(rows[i].path) == parent else exists j :: 0 <= j < i && ParentRow(rows, i, j)
  }

  predicate Nested(rows: seq<Row>, parent: string, depth: nat) {
    forall i :: 0 <= i < |rows| ==> RowNests(rows, parent, depth, i)
  }

  lemma NestedConcat(a: seq<Row>, b: seq<Row>, parent: string, depth: nat)
    requires Nested(a, parent, depth) && Nested(b, parent, depth)
    ensures Nested(a + b, parent, depth)
  {
    hide Parent, RowNests;
    forall i | 0 <= i < |a + b| ensures RowNests(a + b, parent, depth, i) {
      if i < |a| {
        RowMoves([], a, b, parent, depth, i);
        assert [] + a + b == a + b;
      } else {
        RowMoves(a, b, [], parent, depth, i - |a|);
        assert a + b + [] == a + b;
      }
    }
  }

  /** A row keeps its place when rows are put before and after. */
  lemma RowMoves(before: seq<Row>, rows: seq<Row>, after: seq<Row>, parent: string, depth: nat, i: nat)
    requires i < |rows| && RowNests(rows, parent, depth, i)
    ensures RowNests(before + rows + after, parent, depth, |before| + i)
  {
    var all := before + rows + after;
    assert forall k :: 0 <= k < |rows| ==> all[|before| + k] == rows[k];
    if rows[i].depth != depth {
      var j :| 0 <= j < i && ParentRow(rows, i, j);
      forall k | |before| + j < k < |before| + i ensures all[k].depth >= rows[i].depth {
        assert all[k] == rows[k - |before|];
      }
      assert ParentRow(all, |before| + i, |before| + j);
    }
  }

  lemma NestedUnder(row: Row, inner: seq<Row>, parent: string)
    requires Parent(row.path) == parent && (inner == [] || (row.expanded && Nested(inner, row.path, row.depth + 1)))
    ensures Nested([row] + inner, parent, row.depth)
  {
    hide Parent;
    var all := [row] + inner;
    forall i | 0 <= i < |all| ensures RowNests(all, parent, row.depth, i) {
      if i > 0 {
        assert RowNests(inner, row.path, row.depth + 1, i - 1);
        if all[i].depth == row.depth + 1 {
          forall k | 0 < k < i ensures all[k].depth >= all[i].depth {
            assert RowNests(inner, row.path, row.depth + 1, k - 1);
          }
          assert ParentRow(all, i, 0);
        } else {
          RowMoves([row], inner, [], row.path, row.depth + 1, i - 1);
          assert [row] + inner + [] == all;
        }
      }
    }
  }

  lemma NoneNest(parent: string, depth: nat)
    ensures Nested([], parent, depth)
  {
  }

  /** A level comes in preorder. */
  lemma {:induction false} LevelNests(t: Index, nodes: set<string>, longest: nat, parent: string, depth: nat, expanded: set<string>)
    requires TreeOk(t, nodes, longest)
    ensures Nested(Level(t, nodes, longest, parent, depth, expanded), parent, depth)
    decreases Below(longest, parent), 1, 0
  {
    hide TreeOk, Indexes, Rooted, Nested;
    ListingNests(t, nodes, longest, parent, Ordered(t.dirs, Kids(t.children, parent)), depth, expanded);
  }

  lemma {:induction false} ListingNests(t: Index, nodes: set<string>, longest: nat, parent: string, kids: seq<string>, depth: nat, expanded: set<string>)
    requires TreeOk(t, nodes, longest) && forall k :: k in kids ==> k in Kids(t.children, parent)
    ensures Nested(Listing(t, nodes, longest, parent, kids, depth, expanded), parent, depth)
    decreases Below(longest, parent), 0, |kids|
  {
    hide TreeOk, Nested, Level, Listing, ChildRows, Parent, Kids;
    if kids == [] {
      NoneNest(parent, depth);
      ListingEnds(t, nodes, longest, parent, depth, expanded);
    } else {
      var k, rest := kids[0], kids[1..];
      assert k in kids && kids == [k] + rest;
      ChildIsKid(t, nodes, longest, parent, k);
      ParentIsShorter(k);
      LevelNests(t, nodes, longest, k, depth + 1, expanded);
      ListingNests(t, nodes, longest, parent, rest, depth, expanded);
      ChildNests(t, nodes, longest, k, depth, expanded);
      ListingStep(t, nodes, longest, parent, kids, depth, expanded);
      NestedConcat(ChildRows(t, nodes, longest, k, depth, expanded), Listing(t, nodes, longest, parent, rest, depth, expanded), parent, depth);
    }
  }

  lemma ChildNests(t: Index, nodes: set<string>, longest: nat, k: string, depth: nat, expanded: set<string>)
    requires TreeOk(t, nodes, longest) && Nested(Level(t, nodes, longest, k, depth + 1, expanded), k, depth + 1)
    ensures Nested(ChildRows(t, nodes, longest, k, depth, expanded), Parent(k), depth)
  {
    hide TreeOk, Nested, Level, Parent, Leaf;
    var inner := if Open(t, expanded, k) then Level(t, nodes, longest, k, depth + 1, expanded) else [];
    NestedUnder(RowOf(t, k, depth, expanded), inner, Parent(k));
  }
}
