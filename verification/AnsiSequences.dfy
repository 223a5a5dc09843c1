/** Control sequences as a program writes them, numbers in decimal: what each does to the screen, and
    where and how the characters after them end up in the document. */
module AnsiSequences {
  import opened AnsiScreen
  import opened AnsiLaws
  import opened AnsiRenditions

  // ---------------------------------------------------------------- writing numbers

  const DIGITS := "0123456789"

  function Decimal(n: nat): string {
    if n < 10 then [DIGITS[n]] else Decimal(n / 10) + [DIGITS[n % 10]]
  }

  /** Numbers between semicolons. */
  function Written(ns: seq<nat>): string
    requires ns != []
  {
    if |ns| == 1 then Decimal(ns[0]) else Decimal(ns[0]) + [';'] + Written(ns[1..])
  }

  /** The control sequence with these parameters. */
  function Sequence(ns: seq<nat>, command: char): string
    requires ns != []
  {
    [ESC, '['] + Written(ns) + [command]
  }

  predicate AllDigits(s: string) {
    forall i :: 0 <= i < |s| ==> '0' <= s[i] <= '9'
  }

  lemma DigitValue(d: nat)
    requires d < 10
    ensures '0' <= DIGITS[d] <= '9' && DIGITS[d] as int - '0' as int == d
  {
  }

  lemma {:induction false} DecimalReadsBack(n: nat)
    ensures Decimal(n) != [] && AllDigits(Decimal(n)) && Digits(Decimal(n)) == Some(n)
    decreases n
  {
    if n < 10 {
      DigitValue(n);
      assert Decimal(n)[..0] == [];
    } else {
      DecimalReadsBack(n / 10);
      DigitValue(n % 10);
      assert Decimal(n)[..|Decimal(n)| - 1] == Decimal(n / 10);
    }
  }

  lemma NumberReadsBack(n: nat)
    requires n <= USIZE_MAX
    ensures Number(Decimal(n)) == n
  {
    DecimalReadsBack(n);
  }

  lemma {:induction false} SplitAt(a: string, b: string)
    requires forall i :: 0 <= i < |a| ==> a[i] != ';'
    ensures Split(a) == [a] && Split(a + [';'] + b) == [a] + Split(b)
  {
    if a == [] {
      assert (a + [';'] + b)[1..] == b;
    } else {
      assert (a + [';'] + b)[1..] == a[1..] + [';'] + b;
      SplitAt(a[1..], b);
      assert [a[0]] + a[1..] == a;
    }
  }

  lemma {:induction false} WrittenReadsBack(ns: seq<nat>)
    requires ns != [] && forall i :: 0 <= i < |ns| ==> ns[i] <= USIZE_MAX
    ensures NumbersOf(Split(Written(ns))) == ns
    ensures Written(ns) != [] && forall i :: 0 <= i < |Written(ns)| ==> '0' <= Written(ns)[i] <= ';'
  {
    hide Number, Digits, Decimal, Split;
    DecimalReadsBack(ns[0]);
    NumberReadsBack(ns[0]);
    if |ns| == 1 {
      SplitAt(Decimal(ns[0]), []);
      assert NumbersOf([Decimal(ns[0])]) == [Number(Decimal(ns[0]))] + NumbersOf([]);
    } else {
      WrittenReadsBack(ns[1..]);
      SplitAt(Decimal(ns[0]), Written(ns[1..]));
      var parts := [Decimal(ns[0])] + Split(Written(ns[1..]));
      assert parts[1..] == Split(Written(ns[1..]));
    }
  }

  /** The parameters a program writes are the ones that are read. */
  lemma ParametersReadBack(ns: seq<nat>)
    requires ns != [] && forall i :: 0 <= i < |ns| ==> ns[i] <= USIZE_MAX
    ensures Numbers(Written(ns)) == ns && Numbers(['?'] + Written(ns)) == ns
  {
    hide NumbersOf, Split, Written;
    WrittenReadsBack(ns);
    assert (['?'] + Written(ns))[1..] == Written(ns);
  }

  lemma {:induction false} NotDecimal(s: string, i: nat)
    requires i < |s| && !('0' <= s[i] <= '9')
    ensures Digits(s) == None
    decreases |s|
  {
    if i < |s| - 1 {
      NotDecimal(s[..|s| - 1], i);
    }
  }

  /** A part that is no number counts as zero: an empty one, one with another character than digits behind an
      optional plus sign, and one that exceeds 64 bits. */
  lemma OtherPartsCountAsZero(part: string, n: nat)
    ensures Number("") == 0 == Number("+")
    ensures (exists i :: 0 < i < |part| && !('0' <= part[i] <= '9')) ==> Number(part) == 0
    ensures part != [] && !('0' <= part[0] <= '9') && part[0] != '+' ==> Number(part) == 0
    ensures n > 0xFFFF_FFFF_FFFF_FFFF ==> Number(Decimal(n)) == 0
    ensures n <= 0xFFFF_FFFF_FFFF_FFFF ==> Number("+" + Decimal(n)) == n
  {
    hide Digits, Decimal;
    DecimalReadsBack(n);
    assert ("+" + Decimal(n))[1..] == Decimal(n);
    if i :| 0 < i < |part| && !('0' <= part[i] <= '9') {
      NotDecimal(part, i);
      NotDecimal(part[1..], i - 1);
    }
    if part != [] && !('0' <= part[0] <= '9') && part[0] != '+' {
      NotDecimal(part, 0);
    }
  }

  // ---------------------------------------------------------------- one sequence on the screen

  lemma {:induction false} FinalIs(chars: string, from: nat, at: nat)
    requires from <= at < |chars| && IsFinal(chars[at]) && forall i :: from <= i < at ==> !IsFinal(chars[i])
    ensures FinalAt(chars, from) == at
    decreases at - from
  {
    if from < at {
      FinalIs(chars, from + 1, at);
    }
  }

  lemma SequenceIsToken(ns: seq<nat>, command: char, rest: string)
    requires ns != [] && (forall i :: 0 <= i < |ns| ==> ns[i] <= USIZE_MAX) && '@' <= command <= '~'
    ensures var l := Lex(Sequence(ns, command) + rest);
            l.token == Csi(Written(ns), command) && l.length == |Sequence(ns, command)| && l.complete
  {
    hide Written, NumbersOf, Split;
    WrittenReadsBack(ns);
    var chars, at := Sequence(ns, command) + rest, 2 + |Written(ns)|;
    assert chars[2..at] == Written(ns);
    forall i | 2 <= i < at ensures !IsFinal(chars[i]) {
      assert chars[i] == Written(ns)[i - 2];
    }
    FinalIs(chars, 2, at);
  }

  lemma SequenceRuns(s: Screen, ns: seq<nat>, command: char, rest: string, rows: nat, columns: nat)
    requires rows > 0 && columns > 0 && Total(s.grid) && s.cursor.row < rows
    requires ns != [] && (forall i :: 0 <= i < |ns| ==> ns[i] <= USIZE_MAX) && '@' <= command <= '~'
    ensures var token := Csi(Written(ns), command);
            Exec(s, Sequence(ns, command) + rest, rows, columns) ==
            Exec(Screen(GridAfter(s.grid, s.cursor, token, columns), CursorAfter(s.cursor, token, rows, columns)), rest, rows, columns)
  {
    hide Lex, Sequence, Written, GridAfter, CursorAfter;
    SequenceIsToken(ns, command, rest);
    var chars := Sequence(ns, command) + rest;
    OneToken(s, chars, rows, columns);
    assert chars[|Sequence(ns, command)|..] == rest;
  }

  lemma NothingLeft(s: Screen, rows: nat, columns: nat)
    requires rows > 0 && columns > 0 && Total(s.grid)
    ensures Exec(s, [], rows, columns) == s
  {
  }

  lemma SequenceAlone(s: Screen, ns: seq<nat>, command: char, rows: nat, columns: nat)
    requires rows > 0 && columns > 0 && Total(s.grid) && s.cursor.row < rows
    requires ns != [] && (forall i :: 0 <= i < |ns| ==> ns[i] <= USIZE_MAX) && '@' <= command <= '~'
    ensures var token := Csi(Written(ns), command);
            Exec(s, Sequence(ns, command), rows, columns) ==
            Screen(GridAfter(s.grid, s.cursor, token, columns), CursorAfter(s.cursor, token, rows, columns))
  {
    hide Sequence, Written, GridAfter, CursorAfter;
    SequenceRuns(s, ns, command, [], rows, columns);
    assert Sequence(ns, command) + [] == Sequence(ns, command);
    var token := Csi(Written(ns), command);
    NothingLeft(Screen(GridAfter(s.grid, s.cursor, token, columns), CursorAfter(s.cursor, token, rows, columns)), rows, columns);
  }

  /** The cursor on a screen. */
  predicate OnScreen(k: Cursor, rows: nat, columns: nat) {
    k.row < rows && k.column < columns
  }

  /** The sequences that move the cursor by n: up, down, right, left, at least by one and never off the
      screen. They draw nothing and keep the style. */
  lemma ArrowsMoveTheCursor(s: Screen, n: nat, rows: nat, columns: nat)
    requires Total(s.grid) && OnScreen(s.cursor, rows, columns) && n <= USIZE_MAX
    ensures var step := if n == 0 then 1 else n; var k := s.cursor;
            Exec(s, Sequence([n], 'A'), rows, columns) == Screen(s.grid, k.(row := if k.row < step then 0 else k.row - step)) &&
            Exec(s, Sequence([n], 'B'), rows, columns) == Screen(s.grid, k.(row := if k.row + step < rows then k.row + step else rows - 1)) &&
            Exec(s, Sequence([n], 'C'), rows, columns) ==
              Screen(s.grid, k.(column := if k.column + step < columns then k.column + step else columns - 1)) &&
            Exec(s, Sequence([n], 'D'), rows, columns) == Screen(s.grid, k.(column := if k.column < step then 0 else k.column - step))
  {
    hide Exec, Written, Numbers, Sequence, Sgr;
    ParametersReadBack([n]);
    SequenceAlone(s, [n], 'A', rows, columns);
    SequenceAlone(s, [n], 'B', rows, columns);
    SequenceAlone(s, [n], 'C', rows, columns);
    SequenceAlone(s, [n], 'D', rows, columns);
  }

  /** The sequences that place it: rows and columns count from one, and stop at the edges. */
  lemma PositionsPlaceTheCursor(s: Screen, r: nat, c: nat, rows: nat, columns: nat)
    requires Total(s.grid) && OnScreen(s.cursor, rows, columns) && 1 <= r <= USIZE_MAX && 1 <= c <= USIZE_MAX
    ensures var row, column := if r <= rows then r - 1 else rows - 1, if c <= columns then c - 1 else columns - 1;
            Exec(s, Sequence([r, c], 'H'), rows, columns) == Screen(s.grid, s.cursor.(row := row, column := column)) &&
            Exec(s, Sequence([r, c], 'f'), rows, columns) == Screen(s.grid, s.cursor.(row := row, column := column)) &&
            Exec(s, Sequence([r], 'H'), rows, columns) == Screen(s.grid, s.cursor.(row := row, column := 0)) &&
            Exec(s, Sequence([c], 'G'), rows, columns) == Screen(s.grid, s.cursor.(column := column))
  {
    hide Exec, Written, Numbers, Sequence, Sgr;
    ParametersReadBack([r, c]);
    ParametersReadBack([r]);
    ParametersReadBack([c]);
    SequenceAlone(s, [r, c], 'H', rows, columns);
    SequenceAlone(s, [r, c], 'f', rows, columns);
    SequenceAlone(s, [r], 'H', rows, columns);
    SequenceAlone(s, [c], 'G', rows, columns);
  }

  /** Erasing in the line: to the right of the cursor and under it, to the left and under it, or all of it;
      every other cell stays, and so does the cursor. */
  lemma LineIsErased(s: Screen, mode: nat, rows: nat, columns: nat, r: nat, c: nat)
    requires Total(s.grid) && OnScreen(s.cursor, rows, columns) && mode <= USIZE_MAX
    ensures var after := Exec(s, Sequence([mode], 'K'), rows, columns); var k := s.cursor;
            after.cursor == k &&
            (r != k.row ==> after.grid[(r, c)] == s.grid[(r, c)]) &&
            (r == k.row && mode != 1 && mode != 2 ==> after.grid[(r, c)] == if c < k.column then s.grid[(r, c)] else BLANK) &&
            (r == k.row && mode == 1 ==> after.grid[(r, c)] == if c > k.column then s.grid[(r, c)] else BLANK) &&
            (r == k.row && mode == 2 ==> after.grid[(r, c)] == BLANK)
  {
    hide Exec, Written, Numbers, Sequence, Sgr;
    ParametersReadBack([mode]);
    SequenceAlone(s, [mode], 'K', rows, columns);
  }

  /** Clearing the screen blanks every cell and puts the cursor in the corner; the style stays. With any other
      parameter the sequence does nothing. */
  lemma ScreenIsCleared(s: Screen, mode: nat, rows: nat, columns: nat)
    requires Total(s.grid) && OnScreen(s.cursor, rows, columns) && mode <= USIZE_MAX
    ensures var after := Exec(s, Sequence([mode], 'J'), rows, columns);
            if mode == 2 || mode == 3 then
              after.cursor == Cursor(0, 0, s.cursor.style) && forall r: nat, c: nat :: after.grid[(r, c)] == BLANK
            else after == s
  {
    hide Exec, Written, Numbers, Sequence, Sgr;
    ParametersReadBack([mode]);
    SequenceAlone(s, [mode], 'J', rows, columns);
  }

  /** Graphic renditions change the style and nothing else: each part as the last code that sets it says. */
  lemma RenditionsSetTheStyle(s: Screen, ns: seq<nat>, rows: nat, columns: nat)
    requires Total(s.grid) && OnScreen(s.cursor, rows, columns) && ns != [] && forall i :: 0 <= i < |ns| ==> ns[i] <= USIZE_MAX
    ensures var after := Exec(s, Sequence(ns, 'm'), rows, columns);
            after.grid == s.grid && after.cursor == s.cursor.(style := after.cursor.style) &&
            Rendition(ns, 0, s.cursor.style, after.cursor.style)
  {
    hide Exec, Written, Numbers, Sequence, Sgr, Rendition;
    ParametersReadBack(ns);
    SequenceAlone(s, ns, 'm', rows, columns);
    SgrIsRendition(ns, 0, s.cursor.style);
    assert ns[0..] == ns;
  }

  /** Every other command is inert. */
  lemma OtherCommandsDoNothing(s: Screen, ns: seq<nat>, command: char, rows: nat, columns: nat)
    requires Total(s.grid) && OnScreen(s.cursor, rows, columns) && ns != [] && forall i :: 0 <= i < |ns| ==> ns[i] <= USIZE_MAX
    requires '@' <= command <= '~' && command !in "HfABCDGJKm"
    ensures Exec(s, Sequence(ns, command), rows, columns) == s
  {
    hide Exec, Written, Numbers, Sequence, Sgr;
    ParametersReadBack(ns);
    SequenceAlone(s, ns, command, rows, columns);
  }

  // ---------------------------------------------------------------- characters

  /** A printed character takes the cell under the cursor, in the cursor's style; past the last column it is
      dropped. */
  lemma CharactersAreDrawn(s: Screen, x: char, rows: nat, columns: nat)
    requires columns > 0 && Total(s.grid) && s.cursor.row < rows && ' ' <= x && x != '\U{7F}' && !('\U{80}' <= x <= '\U{9F}')
    ensures var k := s.cursor;
            Exec(s, [x], rows, columns) ==
            if k.column < columns then Screen(s.grid[(k.row, k.column) := Cell(x, k.style)], k.(column := k.column + 1)) else s
  {
    OneToken(s, [x], rows, columns);
    assert [x][1..] == [];
  }

  /** Return goes to the first column, newline to the first column of the next row, tab to the next multiple
      of eight. */
  lemma LineControlsMove(s: Screen, rows: nat, columns: nat)
    requires columns > 0 && Total(s.grid) && s.cursor.row < rows
    ensures Exec(s, "\r", rows, columns) == Screen(s.grid, s.cursor.(column := 0))
    ensures Exec(s, "\n", rows, columns) == Screen(s.grid, s.cursor.(row := s.cursor.row + 1, column := 0))
    ensures var after := Exec(s, "\t", rows, columns); var column := after.cursor.column;
            after == Screen(s.grid, s.cursor.(column := column)) && column % 8 == 0 && s.cursor.column < column <= s.cursor.column + 8
  {
    OneToken(s, "\r", rows, columns);
    OneToken(s, "\n", rows, columns);
    OneToken(s, "\t", rows, columns);
    assert "\r"[1..] == [] && "\n"[1..] == [] && "\t"[1..] == [];
  }

  /** Strings to the terminal itself, from ESC with one of P, X, ^ or _ to ESC with a backslash, and from ESC with
      a closing bracket to the bell as well, leave no trace, whatever follows. */
  lemma StringsLeaveNoTrace(s: Screen, family: char, body: string, t: string, rows: nat, columns: nat)
    requires rows > 0 && columns > 0 && Total(s.grid) && family in "PX^_]"
    requires forall i :: 0 <= i < |body| ==> body[i] != ESC && (family == ']' ==> body[i] != BEL)
    ensures Exec(s, [ESC, family] + body + [ESC, '\\'] + t, rows, columns) == Exec(s, t, rows, columns)
    ensures family == ']' ==> Exec(s, [ESC, family] + body + [BEL] + t, rows, columns) == Exec(s, t, rows, columns)
  {
    hide Exec;
    EndedString(family, body, [ESC, '\\']);
    ControlStringsAreInert(s, [ESC, family] + body + [ESC, '\\'], t, rows, columns);
    if family == ']' {
      EndedString(family, body, [BEL]);
      ControlStringsAreInert(s, [ESC, family] + body + [BEL], t, rows, columns);
    }
  }

  lemma EndedString(family: char, body: string, end: string)
    requires family in "PX^_]" && (end == [ESC, '\\'] || (family == ']' && end == [BEL]))
    requires forall i :: 0 <= i < |body| ==> body[i] != ESC && (family == ']' ==> body[i] != BEL)
    ensures ControlString([ESC, family] + body + end)
  {
    var x, at, osc := [ESC, family] + body + end, 2 + |body|, family == ']';
    assert TerminatorAt(x, at, osc);
    forall i | 2 <= i < at ensures !TerminatorAt(x, i, osc) {
      assert x[i] == body[i - 2];
    }
  }

  /** Every other escape is two characters long and does nothing. */
  lemma OtherEscapesAreTwoCharacters(s: Screen, family: char, t: string, rows: nat, columns: nat)
    requires rows > 0 && columns > 0 && Total(s.grid) && family !in "[PX^_]"
    ensures Exec(s, [ESC, family] + t, rows, columns) == Exec(s, t, rows, columns)
  {
    var chars := [ESC, family] + t;
    assert chars[1] == family && chars[2..] == t;
    if s.cursor.row < rows {
      OneToken(s, chars, rows, columns);
    }
  }

  // ---------------------------------------------------------------- where a character ends up

  function Repeated(c: char, n: nat): string { seq(n, _ => c) }

  /** One character on an empty screen. */
  ghost predicate Single(g: Grid, row: nat, column: nat, cell: Cell) {
    Total(g) && forall r: nat, c: nat :: g[(r, c)] == if r == row && c == column then cell else BLANK
  }

  lemma SingleWidth(g: Grid, row: nat, column: nat, cell: Cell, r: nat, columns: nat)
    requires Single(g, row, column, cell) && cell != BLANK && column < columns
    ensures Width(g, r, columns) == if r == row then column + 1 else 0
  {
    assert g[(row, column)] == cell;
  }

  lemma SingleHeight(g: Grid, row: nat, column: nat, cell: Cell, rows: nat, columns: nat)
    requires Single(g, row, column, cell) && cell != BLANK && column < columns && row < rows
    ensures Height(g, rows, columns) == row + 1
  {
    var h := Height(g, rows, columns);
    SingleWidth(g, row, column, cell, row, columns);
    if h > 0 {
      SingleWidth(g, row, column, cell, h - 1, columns);
    }
  }

  lemma {:induction false} EmptyLinesThenOne(lines: seq<seq<Cell>>)
    requires lines != [] && forall i :: 0 <= i < |lines| - 1 ==> lines[i] == []
    ensures Glyphs(lines) == seq(|lines| - 1, _ => Cell('\n', PLAIN)) + lines[|lines| - 1]
    decreases |lines|
  {
    var n := |lines| - 1;
    if n == 0 {
      assert lines[..0] == [];
    } else {
      EmptyLinesThenOne(lines[..n]);
      assert seq(n - 1, _ => Cell('\n', PLAIN)) + [] + [Cell('\n', PLAIN)] == seq(n, _ => Cell('\n', PLAIN));
    }
  }

  lemma {:induction false} PlainGlyphs(glyphs: seq<Cell>)
    requires forall i :: 0 <= i < |glyphs| ==> glyphs[i] == BLANK || glyphs[i] == Cell('\n', PLAIN)
    ensures Spans(glyphs) == [] && Bytes(glyphs) == |glyphs|
  {
    if glyphs != [] {
      PlainGlyphs(glyphs[..|glyphs| - 1]);
    }
  }

  lemma SingleDocument(g: Grid, row: nat, column: nat, cell: Cell, rows: nat, columns: nat)
    requires Single(g, row, column, cell) && cell != BLANK && column < columns && row < rows
    ensures DocumentOf(g, rows, columns) ==
            Document(Repeated('\n', row) + Repeated(' ', column) + [cell.ch],
                     if cell.style == PLAIN then [] else [Span(row + column, row + column + CharBytes(cell.ch), cell.style)])
  {
    hide Glyphs, Text, Spans, Bytes, Height, Width;
    SingleHeight(g, row, column, cell, rows, columns);
    var lines := Lines(g, row + 1, columns);
    forall r | 0 <= r <= row ensures lines[r] == if r < row then [] else seq(column, _ => BLANK) + [cell] {
      SingleWidth(g, row, column, cell, r, columns);
    }
    EmptyLinesThenOne(lines);
    var front := seq(row, _ => Cell('\n', PLAIN)) + seq(column, _ => BLANK);
    assert Glyphs(lines) == front + [cell];
    PlainGlyphs(front);
    TextCharacters(front + [cell]);
    OneMore(front, cell);
    assert Text(front + [cell]) == Repeated('\n', row) + Repeated(' ', column) + [cell.ch];
  }

  lemma OneMore(front: seq<Cell>, cell: Cell)
    ensures Bytes(front + [cell]) == Bytes(front) + CharBytes(cell.ch)
    ensures Spans(front + [cell]) == AddSpan(Spans(front), Bytes(front), Bytes(front + [cell]), cell.style)
  {
    assert (front + [cell])[..|front|] == front;
  }

  lemma DrawnAlone(r: nat, c: nat, ns: seq<nat>, x: char, rows: nat, columns: nat) returns (style: Style)
    requires 1 <= r <= rows && 1 <= c <= columns && r <= USIZE_MAX && c <= USIZE_MAX
    requires ns != [] && forall i :: 0 <= i < |ns| ==> ns[i] <= USIZE_MAX
    requires ' ' <= x && x != '\U{7F}' && !('\U{80}' <= x <= '\U{9F}')
    ensures Rendition(ns, 0, PLAIN, style)
    ensures Single(Exec(Start(), Sequence([r, c], 'H') + (Sequence(ns, 'm') + [x]), rows, columns).grid, r - 1, c - 1, Cell(x, style))
  {
    hide Exec, Sequence, Rendition, Blank;
    BlankIsTotal();
    var s1 := Exec(Start(), Sequence([r, c], 'H'), rows, columns);
    var s2 := Exec(s1, Sequence(ns, 'm'), rows, columns);
    PositionsPlaceTheCursor(Start(), r, c, rows, columns);
    SequenceThen(Start(), [r, c], 'H', Sequence(ns, 'm') + [x], rows, columns);
    RenditionsSetTheStyle(s1, ns, rows, columns);
    SequenceThen(s1, ns, 'm', [x], rows, columns);
    CharactersAreDrawn(s2, x, rows, columns);
    style := s2.cursor.style;
  }

  lemma BlankIsTotal()
    ensures Total(Blank()) && forall r: nat, c: nat :: Blank()[(r, c)] == BLANK
  {
  }

  lemma SequenceThen(s: Screen, ns: seq<nat>, command: char, rest: string, rows: nat, columns: nat)
    requires rows > 0 && columns > 0 && Total(s.grid) && s.cursor.row < rows
    requires ns != [] && (forall i :: 0 <= i < |ns| ==> ns[i] <= USIZE_MAX) && '@' <= command <= '~'
    ensures Exec(s, Sequence(ns, command) + rest, rows, columns) == Exec(Exec(s, Sequence(ns, command), rows, columns), rest, rows, columns)
  {
    hide Exec, Sequence, Written, GridAfter, CursorAfter;
    SequenceRuns(s, ns, command, rest, rows, columns);
    SequenceAlone(s, ns, command, rows, columns);
  }

  /** A character placed and styled by sequences is the document: that many lines down, that many columns
      across, and one span over exactly its bytes with the style its renditions make, if that is not plain. */
  lemma CharacterIsPlacedAndStyled(r: nat, c: nat, ns: seq<nat>, x: char, maxRows: nat, maxColumns: nat) returns (style: Style)
    requires 1 <= r <= maxRows <= USIZE_MAX && 1 <= c <= maxColumns <= USIZE_MAX
    requires ns != [] && forall i :: 0 <= i < |ns| ==> ns[i] <= USIZE_MAX
    requires ' ' < x && x != '\U{7F}' && !('\U{80}' <= x <= '\U{9F}')
    ensures Rendition(ns, 0, PLAIN, style)
    ensures Rendered(Sequence([r, c], 'H') + (Sequence(ns, 'm') + [x]), maxColumns, maxRows) ==
            Document(Repeated('\n', r - 1) + Repeated(' ', c - 1) + [x],
                     if style == PLAIN then [] else [Span(r + c - 2, r + c - 2 + CharBytes(x), style)])
  {
    hide Exec, Written, Sgr, Rendition, DocumentOf, Single, CharBytes;
    style := DrawnAlone(r, c, ns, x, maxRows, maxColumns);
    var text := Sequence([r, c], 'H') + (Sequence(ns, 'm') + [x]);
    assert text[0] == ESC;
    SingleDocument(Exec(Start(), text, maxRows, maxColumns).grid, r - 1, c - 1, Cell(x, style), maxRows, maxColumns);
  }

  /** Written out: a red X. */
  lemma RedForeground()
    ensures Sequence([31], 'm') == "\U{1B}[31m"
    ensures forall style :: Rendition([31], 0, PLAIN, style) <==> style == Style(Some(Standard(1)), None, false)
  {
    assert Begins([31], 0, 0);
    assert Last(SetsForeground, [31], 0, 0);
    assert Decimal(31) == Decimal(3) + [DIGITS[1]];
  }
}
