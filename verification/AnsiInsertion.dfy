/** When inserting a control string changes what is rendered: a text without escapes is returned verbatim,
    so it must already be what the grid would make of it. */
module AnsiInsertion {
  import opened AnsiScreen
  import opened AnsiLaws

  /** The lines of a text. */
  function Break(u: string): (lines: seq<string>)
    ensures lines != []
  {
    if u == [] then [[]]
    else
      var lines := Break(u[..|u| - 1]);
      var n := |lines| - 1;
      if u[|u| - 1] == '\n' then lines + [[]] else lines[..n] + [lines[n] + [u[|u| - 1]]]
  }

  function Join(lines: seq<string>): string {
    if lines == [] then []
    else Join(lines[..|lines| - 1]) + (if |lines| > 1 then ['\n'] else []) + lines[|lines| - 1]
  }

  predicate PlainLine(line: string) {
    (forall c :: c in line ==> !IsControl(c)) && (line != [] ==> line[|line| - 1] != ' ')
  }

  /** A text that is its own rendering: no control characters but line breaks, no line with trailing blanks,
      no blank end, and no more or longer lines than the terminal has. */
  predicate Settled(u: string, rows: nat, columns: nat) {
    var lines := Break(u);
    u == [] ||
    (|lines| <= rows && lines[|lines| - 1] != [] &&
     forall i :: 0 <= i < |lines| ==> |lines[i]| <= columns && PlainLine(lines[i]))
  }

  ghost function Drawn(u: string, rows: nat, columns: nat): Document
    requires rows > 0 && columns > 0
  {
    DocumentOf(Exec(Start(), u, rows, columns).grid, rows, columns)
  }

  // ---------------------------------------------------------------- texts and lines

  lemma {:induction false} JoinBreak(u: string)
    ensures Join(Break(u)) == u
  {
    if u != [] {
      var front := u[..|u| - 1];
      var lines := Break(front);
      var n := |lines| - 1;
      JoinBreak(front);
      if u[|u| - 1] == '\n' {
        assert (lines + [[]])[..|lines|] == lines;
      } else {
        assert (lines[..n] + [lines[n] + [u[|u| - 1]]])[..n] == lines[..n];
      }
      assert u == front + [u[|u| - 1]];
    }
  }

  lemma BreakCharacter(u: string, c: char)
    requires c != '\n'
    ensures var lines := Break(u); var n := |lines| - 1; Break(u + [c]) == lines[..n] + [lines[n] + [c]]
  {
    assert (u + [c])[..|u|] == u;
  }

  lemma {:induction false} BreakAppends(u: string, line: string)
    requires '\n' !in line
    ensures var lines := Break(u); var n := |lines| - 1; Break(u + line) == lines[..n] + [lines[n] + line]
    decreases |line|
  {
    hide Break;
    var lines := Break(u);
    var n := |lines| - 1;
    if line == [] {
      assert u + line == u && lines[n] + line == lines[n];
    } else {
      var front, c := line[..|line| - 1], line[|line| - 1];
      BreakAppends(u, front);
      BreakCharacter(u + front, c);
      assert u + line == (u + front) + [c];
      assert (lines[..n] + [lines[n] + front])[..n] == lines[..n];
      assert (lines[n] + front) + [c] == lines[n] + line;
    }
  }

  lemma BreakNewline(u: string)
    ensures Break(u + ['\n']) == Break(u) + [[]]
  {
    assert (u + ['\n'])[..|u|] == u;
  }

  lemma {:induction false} BreakJoin(lines: seq<string>)
    requires lines != [] && forall i :: 0 <= i < |lines| ==> '\n' !in lines[i]
    ensures Break(Join(lines)) == lines
  {
    hide Break;
    var n := |lines| - 1;
    var front, last := lines[..n], lines[n];
    if n == 0 {
      BreakAppends([], last);
      assert Join(lines) == [] + last;
      assert Break([]) == [[]] by { BreakNothing(); }
      assert [] + last == last && lines == [last];
    } else {
      BreakJoin(front);
      BreakNewline(Join(front));
      BreakAppends(Join(front) + ['\n'], last);
      assert (front + [[]])[..n] == front;
      assert [] + last == last && front + [last] == lines;
    }
  }

  lemma BreakNothing()
    ensures Break([]) == [[]]
  {
  }

  lemma {:induction false} TextConcat(a: seq<Cell>, b: seq<Cell>)
    ensures Text(a + b) == Text(a) + Text(b)
    decreases |b|
  {
    if b == [] {
      assert a + b == a;
    } else {
      assert (a + b)[..|a + b| - 1] == a + b[..|b| - 1];
      TextConcat(a, b[..|b| - 1]);
    }
  }

  function Texts(lines: seq<seq<Cell>>): (r: seq<string>)
    ensures |r| == |lines| && forall i :: 0 <= i < |r| ==> r[i] == Text(lines[i])
  {
    if lines == [] then [] else Texts(lines[..|lines| - 1]) + [Text(lines[|lines| - 1])]
  }

  /** The text of a document is its lines, joined. */
  lemma {:induction false} TextOfGlyphs(lines: seq<seq<Cell>>)
    ensures Text(Glyphs(lines)) == Join(Texts(lines))
  {
    if lines != [] {
      var n := |lines| - 1;
      var separator := if |lines| > 1 then [Cell('\n', PLAIN)] else [];
      TextOfGlyphs(lines[..n]);
      TextConcat(Glyphs(lines[..n]) + separator, lines[n]);
      TextConcat(Glyphs(lines[..n]), separator);
      assert Texts(lines)[..n] == Texts(lines[..n]);
    }
  }

  // ---------------------------------------------------------------- what the grid makes of a text

  ghost predicate PlainGrid(g: Grid) {
    Total(g) && forall r: nat, c: nat :: g[(r, c)].style == PLAIN
  }

  lemma {:induction false} ExecPlain(s: Screen, chars: string, rows: nat, columns: nat)
    requires rows > 0 && columns > 0 && PlainGrid(s.grid) && s.cursor.style == PLAIN && ESC !in chars
    ensures PlainGrid(Exec(s, chars, rows, columns).grid)
    decreases |chars|
  {
    if chars != [] && s.cursor.row < rows {
      var l := Lex(chars);
      assert chars[0] != ESC;
      ExecPlain(Screen(GridAfter(s.grid, s.cursor, l.token, columns), CursorAfter(s.cursor, l.token, rows, columns)),
        chars[l.length..], rows, columns);
    }
  }

  lemma RowIsPlain(g: Grid, row: nat, columns: nat)
    requires PlainGrid(g) && Printable(g)
    ensures var line := Text(RowCells(g, row, Width(g, row, columns))); |line| <= columns && PlainLine(line) && '\n' !in line
  {
    hide Text, RowCells, Width;
    var w := Width(g, row, columns);
    var cells := RowCells(g, row, w);
    var line := Text(cells);
    TextCharacters(cells);
    forall i | 0 <= i < w ensures !IsControl(line[i]) {
      assert line[i] == g[(row, i)].ch;
    }
    if w > 0 {
      assert g[(row, w - 1)] != BLANK && line[w - 1] == g[(row, w - 1)].ch;
    }
    assert IsControl('\n');
  }

  /** What the grid makes of a text without escapes is settled. */
  lemma DrawnIsSettled(u: string, rows: nat, columns: nat)
    requires rows > 0 && columns > 0 && ESC !in u
    ensures Settled(Drawn(u, rows, columns).text, rows, columns)
  {
    hide Exec, Glyphs, Text, Height, Width, Lines, RowCells, Join, Break, PlainLine;
    var g := Exec(Start(), u, rows, columns).grid;
    ExecPrintable(Start(), u, rows, columns);
    ExecPlain(Start(), u, rows, columns);
    var lines := Lines(g, Height(g, rows, columns), columns);
    TextOfGlyphs(lines);
    var texts := Texts(lines);
    forall i | 0 <= i < |texts| ensures |texts[i]| <= columns && PlainLine(texts[i]) && '\n' !in texts[i] {
      RowIsPlain(g, i, columns);
    }
    if lines == [] {
      NoLines();
    } else {
      TextCharacters(lines[|lines| - 1]);
      BreakJoin(texts);
    }
  }

  lemma NoLines()
    ensures Join([]) == ""
  {
  }

  /** The grid shows these lines and nothing else, and the cursor stands behind them. */
  ghost predicate Shows(s: Screen, lines: seq<string>) {
    Total(s.grid) && lines != [] && s.cursor == Cursor(|lines| - 1, |lines[|lines| - 1]|, PLAIN) &&
    forall r: nat, c: nat ::
      s.grid[(r, c)] == if r < |lines| && c < |lines[r]| then Cell(lines[r][c], PLAIN) else BLANK
  }

  lemma {:induction false} NoEscapeIsGround(p: string)
    requires ESC !in p
    ensures Ground(p)
    decreases |p|
  {
    if p != [] {
      assert p[0] != ESC;
      NoEscapeIsGround(p[Lex(p).length..]);
    }
  }

  predicate Room(u: string, rows: nat, columns: nat) {
    var lines := Break(u);
    |lines| <= rows && forall i :: 0 <= i < |lines| ==> |lines[i]| <= columns
  }

  lemma RoomBefore(u: string, rows: nat, columns: nat)
    requires u != [] && Room(u, rows, columns)
    ensures Room(u[..|u| - 1], rows, columns)
  {
    var before, after := Break(u[..|u| - 1]), Break(u);
    forall i | 0 <= i < |before| ensures |before[i]| <= |after[i]| {}
  }

  /** Typing a text that has room puts its lines on the grid. */
  lemma {:induction false} Typed(u: string, rows: nat, columns: nat)
    requires rows > 0 && columns > 0 && Room(u, rows, columns)
    requires forall c :: c in u ==> c == '\n' || !IsControl(c)
    ensures Shows(Exec(Start(), u, rows, columns), Break(u))
    decreases |u|
  {
    if u != [] {
      var front, c := u[..|u| - 1], u[|u| - 1];
      RoomBefore(u, rows, columns);
      Typed(front, rows, columns);
      NoEscapeIsGround(front);
      assert u == front + [c];
      ExecSplits(Start(), front, [c], rows, columns);
      TypedOne(Exec(Start(), front, rows, columns), front, c, rows, columns);
    }
  }

  lemma TypedOne(s: Screen, front: string, c: char, rows: nat, columns: nat)
    requires rows > 0 && columns > 0 && Shows(s, Break(front)) && Room(front + [c], rows, columns) && Room(front, rows, columns)
    requires c == '\n' || !IsControl(c)
    ensures Shows(Exec(s, [c], rows, columns), Break(front + [c]))
  {
    hide Exec, GridAfter, CursorAfter;
    assert (front + [c])[..|front|] == front;
    OneCharacter(s, c, rows, columns);
    if c == '\n' {
      ShowsBreak(s, Break(front), rows, columns);
    } else {
      var n := |Break(front)| - 1;
      assert Break(front + [c])[n] == Break(front)[n] + [c];
      ShowsPrinted(s, Break(front), c, rows, columns);
    }
  }

  lemma OneCharacter(s: Screen, c: char, rows: nat, columns: nat)
    requires rows > 0 && columns > 0 && Total(s.grid) && s.cursor.row < rows && (c == '\n' || !IsControl(c))
    ensures var token := if c == '\n' then Newline else Print(c);
            Exec(s, [c], rows, columns) ==
            Screen(GridAfter(s.grid, s.cursor, token, columns), CursorAfter(s.cursor, token, rows, columns))
  {
    hide Exec;
    OneToken(s, [c], rows, columns);
    assert [c][1..] == [];
    var token := Lex([c]).token;
    NothingToExecute(Screen(GridAfter(s.grid, s.cursor, token, columns), CursorAfter(s.cursor, token, rows, columns)), rows, columns);
  }

  lemma ShowsBreak(s: Screen, lines: seq<string>, rows: nat, columns: nat)
    requires rows > 0 && columns > 0 && Shows(s, lines)
    ensures Shows(Screen(GridAfter(s.grid, s.cursor, Newline, columns), CursorAfter(s.cursor, Newline, rows, columns)), lines + [[]])
  {
  }

  lemma ShowsPrinted(s: Screen, lines: seq<string>, c: char, rows: nat, columns: nat)
    requires rows > 0 && columns > 0 && Shows(s, lines) && |lines[|lines| - 1]| < columns
    ensures var n := |lines| - 1;
            Shows(Screen(GridAfter(s.grid, s.cursor, Print(c), columns), CursorAfter(s.cursor, Print(c), rows, columns)),
                  lines[..n] + [lines[n] + [c]])
  {
    var n := |lines| - 1;
    var line := lines[n] + [c];
    var g := GridAfter(s.grid, s.cursor, Print(c), columns);
    forall r: nat, j: nat
      ensures g[(r, j)] == if r < n && j < |lines[r]| then Cell(lines[r][j], PLAIN) else if r == n && j < |line| then Cell(line[j], PLAIN) else BLANK
    {
      assert s.grid[(r, j)] == if r < |lines| && j < |lines[r]| then Cell(lines[r][j], PLAIN) else BLANK;
    }
  }

  lemma NothingToExecute(s: Screen, rows: nat, columns: nat)
    requires rows > 0 && columns > 0 && Total(s.grid)
    ensures Exec(s, [], rows, columns) == s
  {
  }

  lemma {:induction false} NoSpans(glyphs: seq<Cell>)
    requires forall i :: 0 <= i < |glyphs| ==> glyphs[i].style == PLAIN
    ensures Spans(glyphs) == []
  {
    if glyphs != [] {
      NoSpans(glyphs[..|glyphs| - 1]);
    }
  }

  lemma {:induction false} GlyphsPlain(lines: seq<seq<Cell>>)
    requires forall i, j :: 0 <= i < |lines| && 0 <= j < |lines[i]| ==> lines[i][j].style == PLAIN
    ensures forall k :: 0 <= k < |Glyphs(lines)| ==> Glyphs(lines)[k].style == PLAIN
  {
    if lines != [] {
      GlyphsPlain(lines[..|lines| - 1]);
    }
  }

  lemma ShownWidth(s: Screen, lines: seq<string>, r: nat, columns: nat)
    requires Shows(s, lines) && r < |lines| && |lines[r]| <= columns && PlainLine(lines[r])
    ensures Width(s.grid, r, columns) == |lines[r]|
  {
    hide Width;
    assert lines[r] != [] ==> s.grid[(r, |lines[r]| - 1)] == Cell(lines[r][|lines[r]| - 1], PLAIN);
  }

  /** The document of a grid that shows settled lines has those lines. */
  lemma ShownLines(s: Screen, lines: seq<string>, rows: nat, columns: nat)
    requires Shows(s, lines) && |lines| <= rows && lines[|lines| - 1] != []
    requires forall i :: 0 <= i < |lines| ==> |lines[i]| <= columns && PlainLine(lines[i])
    ensures DocumentOf(s.grid, rows, columns) == Document(Join(lines), [])
  {
    hide Glyphs, Text, Spans, Join, Lines, RowCells, Width, Height, PlainLine;
    var g := s.grid;
    forall r: nat | r < |lines| ensures Width(g, r, columns) == |lines[r]| {
      ShownWidth(s, lines, r, columns);
    }
    assert Height(g, rows, columns) == |lines|;
    var cells := Lines(g, |lines|, columns);
    forall i | 0 <= i < |lines| ensures Text(cells[i]) == lines[i] {
      TextCharacters(cells[i]);
    }
    assert Texts(cells) == lines;
    TextOfGlyphs(cells);
    GlyphsPlain(cells);
    NoSpans(Glyphs(cells));
  }

  lemma NoControls(u: string)
    requires forall i :: 0 <= i < |Break(u)| ==> PlainLine(Break(u)[i])
    ensures forall c :: c in u ==> c == '\n' || !IsControl(c)
  {
    JoinBreak(u);
    JoinCharacters(Break(u));
  }

  lemma {:induction false} JoinCharacters(lines: seq<string>)
    requires forall i :: 0 <= i < |lines| ==> PlainLine(lines[i])
    ensures forall c :: c in Join(lines) ==> c == '\n' || !IsControl(c)
  {
    if lines != [] {
      JoinCharacters(lines[..|lines| - 1]);
      assert PlainLine(lines[|lines| - 1]);
    }
  }

  /** A text without escapes is what the grid makes of it exactly when it is settled. */
  lemma DrawnAsIsIff(u: string, rows: nat, columns: nat)
    requires rows > 0 && columns > 0 && ESC !in u
    ensures Drawn(u, rows, columns) == Document(u, []) <==> Settled(u, rows, columns)
  {
    hide Exec, DocumentOf, Break;
    DrawnIsSettled(u, rows, columns);
    if Settled(u, rows, columns) {
      if u == [] {
        NothingToExecute(Start(), rows, columns);
        BlankDocument(rows, columns);
      } else {
        NoControls(u);
        Typed(u, rows, columns);
        ShownLines(Exec(Start(), u, rows, columns), Break(u), rows, columns);
        JoinBreak(u);
      }
    }
  }

  /** Inserting a control string at a ground point leaves the rendering unchanged if and only if the text
      contains an escape anyway or is settled on a terminal of that size. */
  lemma InsertionIsInvisibleIff(p: string, x: string, t: string, maxColumns: nat, maxRows: nat)
    requires Ground(p) && ControlString(x)
    ensures Rendered(p + x + t, maxColumns, maxRows) == Rendered(p + t, maxColumns, maxRows) <==>
            ESC in p + t || Settled(p + t, Max(maxRows, 1), Max(maxColumns, 1))
  {
    hide Exec, DocumentOf, Settled, Ground;
    var rows, columns := Max(maxRows, 1), Max(maxColumns, 1);
    if ESC in p + t {
      InsertionChangesNoDocument(p, x, t, maxColumns, maxRows);
    } else {
      assert (p + x + t)[|p|] == ESC;
      InsertionDrawsTheSame(p, x, t, rows, columns);
      DrawnAsIsIff(p + t, rows, columns);
    }
  }

  /** A lone carriage return is shown as it is; with a title sequence behind it nothing is shown. */
  lemma ReturnDisappears(x: string)
    requires x == [ESC, ']', BEL]
    ensures Ground("\r") && ControlString(x) && Rendered("\r", 80, 20) == Document("\r", [])
    ensures Rendered("\r" + x, 80, 20) == Document("", [])
  {
    hide Exec, DocumentOf;
    NoEscapeIsGround("\r");
    assert TerminatorAt(x, 2, true);
    assert ("\r" + x)[1] == ESC;
    InsertionDrawsTheSame("\r", x, "", 20, 80);
    assert "\r" + x + "" == "\r" + x && "\r" + "" == "\r";
    OneToken(Start(), "\r", 20, 80);
    assert "\r"[1..] == "";
    NothingToExecute(Start(), 20, 80);
    BlankDocument(20, 80);
  }
}
