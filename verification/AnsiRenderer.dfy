/** The renderer as it runs: one pass over the characters, a ragged canvas that grows and is cut in
    place, and the document built from what is left. Proved equal to the grid interpreter. */
module AnsiRenderer {
  import opened AnsiScreen
  import opened AnsiRenditions

  type Canvas = seq<seq<Cell>>

  function CellAt(canvas: Canvas, r: nat, c: nat): Cell {
    if r < |canvas| && c < |canvas[r]| then canvas[r][c] else BLANK
  }

  /** Positions the canvas does not reach are blank. */
  ghost function GridOf(canvas: Canvas): (g: Grid)
    ensures Total(g)
  {
    imap r: nat, c: nat | true :: (r, c) := CellAt(canvas, r, c)
  }

  ghost predicate Fits(canvas: Canvas, rows: nat, columns: nat) {
    |canvas| <= rows && forall r :: 0 <= r < |canvas| ==> |canvas[r]| <= columns
  }

  lemma SameCells(a: Canvas, g: Grid)
    requires Total(g) && forall r: nat, c: nat :: CellAt(a, r, c) == g[(r, c)]
    ensures GridOf(a) == g
  {
    forall k: (nat, nat) ensures k in GridOf(a) && k in g && GridOf(a)[k] == g[k] {
      var r: nat, c: nat := k.0, k.1;
      assert k == (r, c) && (r, c) in GridOf(a) && (r, c) in g;
    }
  }

  // ---------------------------------------------------------------- canvas operations

  method EnsureRow(canvas: Canvas, row: nat, rows: nat, ghost columns: nat) returns (grown: Canvas)
    requires Fits(canvas, rows, columns)
    ensures GridOf(grown) == GridOf(canvas) && Fits(grown, rows, columns)
    ensures row < rows ==> row < |grown|
  {
    grown := canvas;
    if row < rows && |canvas| <= row {
      grown := canvas + seq(row + 1 - |canvas|, _ => []);
    }
    SameCells(grown, GridOf(canvas));
  }

  method WriteCell(canvas: Canvas, row: nat, column: nat, cell: Cell, rows: nat, columns: nat) returns (r: Canvas)
    requires Fits(canvas, rows, columns) && row < rows && column < columns
    ensures GridOf(r) == GridOf(canvas)[(row, column) := cell] && Fits(r, rows, columns)
  {
    r := EnsureRow(canvas, row, rows, columns);
    var line := r[row];
    if |line| <= column {
      line := line + seq(column + 1 - |line|, _ => BLANK);
    }
    ghost var before := r;
    r := r[row := line[column := cell]];
    forall i: nat, j: nat ensures CellAt(r, i, j) == GridOf(canvas)[(row, column) := cell][(i, j)] {
      assert CellAt(before, i, j) == GridOf(before)[(i, j)] == GridOf(canvas)[(i, j)];
    }
    SameCells(r, GridOf(canvas)[(row, column) := cell]);
  }

  /** Blanks from the line's start through the column. */
  method ClearThrough(line: seq<Cell>, column: nat) returns (r: seq<Cell>)
    ensures |r| == |line| && forall c :: 0 <= c < |r| ==> r[c] == if c <= column then BLANK else line[c]
  {
    r := line;
    for c := 0 to Min(column + 1, |line|)
      invariant |r| == |line| && forall i :: 0 <= i < |r| ==> r[i] == if i < c then BLANK else line[i]
    {
      r := r[c := BLANK];
    }
  }

  method EraseInLine(canvas: Canvas, row: nat, column: nat, mode: nat, rows: nat, columns: nat) returns (r: Canvas)
    requires Fits(canvas, rows, columns) && row < rows
    ensures GridOf(r) == ErasedLine(GridOf(canvas), row, column, mode) && Fits(r, rows, columns)
  {
    r := EnsureRow(canvas, row, rows, columns);
    ghost var before := r;
    var line := r[row];
    if mode == 1 {
      line := ClearThrough(line, column);
    } else if mode == 2 {
      line := [];
    } else if column < |line| {
      line := line[..column];
    }
    r := r[row := line];
    forall i: nat, j: nat ensures CellAt(r, i, j) == ErasedLine(GridOf(canvas), row, column, mode)[(i, j)] {
      assert CellAt(before, i, j) == GridOf(before)[(i, j)] == GridOf(canvas)[(i, j)];
    }
    SameCells(r, ErasedLine(GridOf(canvas), row, column, mode));
  }

  /** One graphic rendition, and how many parameters it uses. */
  method ApplyCode(numbers: seq<nat>, index: nat, style: Style) returns (r: Style, step: nat)
    requires index < |numbers|
    ensures r == Code(numbers[index..], style) && step == Taken(numbers[index..])
  {
    r, step := style, 1;
    var code := numbers[index];
    if code == 0 {
      r := PLAIN;
    } else if code == 1 {
      r := r.(bold := true);
    } else if code == 22 {
      r := r.(bold := false);
    } else if 30 <= code <= 37 {
      r := r.(foreground := Some(Standard(code - 30)));
    } else if code == 39 {
      r := r.(foreground := None);
    } else if 40 <= code <= 47 {
      r := r.(background := Some(Standard(code - 40)));
    } else if code == 49 {
      r := r.(background := None);
    } else if 90 <= code <= 97 {
      r := r.(foreground := Some(Bright(code - 90)));
    } else if 100 <= code <= 107 {
      r := r.(background := Some(Bright(code - 100)));
    } else if code == 38 || code == 48 {
      var color: Option<Color> := None;
      if index + 2 < |numbers| && numbers[index + 1] == 5 {
        color, step := Some(Indexed(Min(numbers[index + 2], 255))), 3;
      } else if index + 4 < |numbers| && numbers[index + 1] == 2 {
        color, step := Some(Rgb(Min(numbers[index + 2], 255), Min(numbers[index + 3], 255), Min(numbers[index + 4], 255))), 5;
      }
      if color.Some? {
        r := if code == 38 then r.(foreground := color) else r.(background := color);
      }
    }
  }

  /** Each part of the style ends as the last code that sets it says. */
  method ApplySgr(numbers: seq<nat>, style: Style) returns (r: Style)
    ensures r == Sgr(numbers, style)
    ensures Rendition(numbers, 0, style, r)
  {
    hide Code, Taken, Sgr, Rendition;
    r := style;
    var index := 0;
    assert numbers[0..] == numbers;
    while index < |numbers|
      invariant index <= |numbers| && Sgr(numbers[index..], r) == Sgr(numbers, style)
      decreases |numbers| - index
    {
      SgrStep(numbers[index..], r);
      var step;
      ghost var rest := numbers[index..];
      r, step := ApplyCode(numbers, index, r);
      assert rest[step..] == numbers[index + step..];
      index := index + step;
    }
    SgrEnds(numbers[index..], r);
    SgrIsRendition(numbers, 0, style);
  }

  lemma SgrStep(ns: seq<nat>, style: Style)
    requires ns != []
    ensures Sgr(ns, style) == Sgr(ns[Taken(ns)..], Code(ns, style))
  {
  }

  lemma SgrEnds(ns: seq<nat>, style: Style)
    requires ns == []
    ensures Sgr(ns, style) == style
  {
  }

  // ---------------------------------------------------------------- one control sequence

  lemma OneEmptyRow(rows: nat, columns: nat)
    requires rows > 0
    ensures GridOf([[]]) == Blank() && Fits([[]], rows, columns)
  {
    SameCells([[]], Blank());
  }

  /** saturating_add on usize; what it loses lies beyond every canvas. */
  function SaturatingAdd(a: nat, b: nat): nat { if a + b <= USIZE_MAX then a + b else USIZE_MAX }

  /** Where the cursor goes before it is kept on the screen. */
  method MoveCursor(k: Cursor, numbers: seq<nat>, command: char, rows: nat, columns: nat) returns (row: nat, column: nat)
    requires numbers != [] && 0 < rows <= USIZE_MAX && 0 < columns <= USIZE_MAX
    ensures Min(row, rows - 1) == Min(Moved(k, numbers, command).row, rows - 1)
    ensures Min(column, columns - 1) == Min(Moved(k, numbers, command).column, columns - 1)
  {
    hide Sgr;
    var first := numbers[0];
    row, column := k.row, k.column;
    if command == 'H' || command == 'f' {
      row := Max(first, 1) - 1;
      column := Max(if |numbers| > 1 then numbers[1] else 1, 1) - 1;
    } else if command == 'A' {
      row := SaturatingSub(row, Max(first, 1));
    } else if command == 'B' {
      row := SaturatingAdd(row, Max(first, 1));
    } else if command == 'C' {
      column := SaturatingAdd(column, Max(first, 1));
    } else if command == 'D' {
      column := SaturatingSub(column, Max(first, 1));
    } else if command == 'G' {
      column := Max(first, 1) - 1;
    } else if command == 'J' && (first == 2 || first == 3) {
      row, column := 0, 0;
    }
  }

  method ApplyCsi(canvas: Canvas, k: Cursor, params: string, command: char, rows: nat, columns: nat)
    returns (r: Canvas, after: Cursor)
    requires 0 < rows <= USIZE_MAX && 0 < columns <= USIZE_MAX && Fits(canvas, rows, columns) && k.row < rows
    ensures GridOf(r) == GridAfter(GridOf(canvas), k, Csi(params, command), columns) && Fits(r, rows, columns)
    ensures after == CursorAfter(k, Csi(params, command), rows, columns)
  {
    hide Sgr, GridOf, Numbers, ErasedLine, Rendition, Blank, Fits, Min, Max;
    var numbers := Numbers(params);
    var first := numbers[0];
    var style := k.style;
    var row, column := MoveCursor(k, numbers, command, rows, columns);
    r := canvas;
    if command == 'J' && (first == 2 || first == 3) {
      r := [[]];
      OneEmptyRow(rows, columns);
    } else if command == 'K' {
      r := EraseInLine(canvas, k.row, k.column, first, rows, columns);
    } else if command == 'm' {
      style := ApplySgr(numbers, style);
    }
    StyleAfter(k, numbers, command);
    after := Cursor(Min(row, rows - 1), Min(column, columns - 1), style);
  }

  lemma StyleAfter(k: Cursor, ns: seq<nat>, command: char)
    requires ns != []
    ensures Moved(k, ns, command).style == if command == 'm' then Sgr(ns, k.style) else k.style
  {
    hide Sgr, Min, Max, SaturatingSub;
  }

  // ---------------------------------------------------------------- scanning

  lemma {:induction false} FinalAtShifts(chars: string, i: nat, from: nat)
    requires i + from <= |chars|
    ensures FinalAt(chars[i..], from) + i == FinalAt(chars, i + from)
    decreases |chars| - from
  {
    if i + from < |chars| && !IsFinal(chars[i + from]) {
      FinalAtShifts(chars, i, from + 1);
    }
  }

  lemma {:induction false} StringEndShifts(chars: string, i: nat, from: nat, bel: bool)
    requires i + from <= |chars|
    ensures StringEnd(chars[i..], from, bel) + i == StringEnd(chars, i + from, bel)
    decreases |chars| - from
  {
    if i + from < |chars| {
      if i + from + 1 < |chars| {
        assert chars[i..][from + 1] == chars[i + from + 1];
      }
      if !TerminatorAt(chars, i + from, bel) {
        StringEndShifts(chars, i, from + 1, bel);
      }
    }
  }

  method FindFinal(chars: string, start: nat) returns (index: nat)
    requires start <= |chars|
    ensures index == FinalAt(chars, start)
  {
    index := start;
    while index < |chars| && !IsFinal(chars[index])
      invariant start <= index <= |chars| && FinalAt(chars, start) == FinalAt(chars, index)
    {
      index := index + 1;
    }
  }

  method SkipControlString(chars: string, start: nat, bel: bool) returns (index: nat)
    requires start <= |chars|
    ensures index == StringEnd(chars, start, bel)
  {
    index := start;
    while index < |chars|
      invariant start <= index <= |chars| && StringEnd(chars, start, bel) == StringEnd(chars, index, bel)
    {
      if bel && chars[index] == BEL {
        return index + 1;
      }
      if chars[index] == ESC && index + 1 < |chars| && chars[index + 1] == '\\' {
        return index + 2;
      }
      index := index + 1;
    }
  }

  // ---------------------------------------------------------------- the pass over the text

  /** What has been read so far explains the canvas; reading on from here gives the whole text's screen. */
  ghost predicate Explains(chars: string, index: nat, canvas: Canvas, k: Cursor, rows: nat, columns: nat) {
    index <= |chars| && rows > 0 && columns > 0 && Fits(canvas, rows, columns) &&
    Exec(Screen(GridOf(canvas), k), chars[index..], rows, columns) == Exec(Start(), chars, rows, columns)
  }

  lemma StepExplains(chars: string, index: nat, canvas: Canvas, k: Cursor, rows: nat, columns: nat,
                     next: nat, canvas': Canvas, k': Cursor)
    requires Explains(chars, index, canvas, k, rows, columns) && index < |chars| && k.row < rows
    requires var l := Lex(chars[index..]);
             !l.token.Stop? && next == index + l.length && Fits(canvas', rows, columns) &&
             GridOf(canvas') == GridAfter(GridOf(canvas), k, l.token, columns) && k' == CursorAfter(k, l.token, rows, columns)
    ensures Explains(chars, next, canvas', k', rows, columns)
  {
    assert chars[index..][Lex(chars[index..]).length..] == chars[next..];
  }

  lemma IgnoredExplains(chars: string, index: nat, canvas: Canvas, k: Cursor, rows: nat, columns: nat, next: nat)
    requires Explains(chars, index, canvas, k, rows, columns) && index < |chars| && k.row < rows
    requires Lex(chars[index..]).token.Ignore? && next == index + Lex(chars[index..]).length
    ensures Explains(chars, next, canvas, k, rows, columns)
  {
    StepExplains(chars, index, canvas, k, rows, columns, next, canvas, k);
  }

  lemma NothingToRead(chars: string, index: nat, canvas: Canvas, k: Cursor, rows: nat, columns: nat)
    requires Explains(chars, index, canvas, k, rows, columns)
    requires index == |chars| || k.row >= rows || Lex(chars[index..]).token.Stop?
    ensures DocumentOf(GridOf(canvas), rows, columns) == DocumentOf(Exec(Start(), chars, rows, columns).grid, rows, columns)
  {
  }

  lemma StartExplains(chars: string, rows: nat, columns: nat)
    requires rows > 0 && columns > 0
    ensures Explains(chars, 0, [[]], Cursor(0, 0, PLAIN), rows, columns)
  {
    SameCells([[]], Blank());
    assert chars[0..] == chars;
  }

  /** An escape family that is neither CSI nor a control string is two characters long and does nothing. */
  lemma LexFromEscape(chars: string, index: nat)
    requires index + 1 < |chars| && chars[index] == ESC
    ensures var l := Lex(chars[index..]); var family := chars[index + 1];
            if family == '[' then
              var at := FinalAt(chars, index + 2);
              if at == |chars| then l.token.Stop? else l.token == Csi(chars[index + 2..at], chars[at]) && index + l.length == at + 1
            else if StartsString(family) then
              l.token.Ignore? && index + l.length == StringEnd(chars, index + 2, family == ']')
            else l.token.Ignore? && l.length == 2
  {
    assert chars[index..][1] == chars[index + 1];
    if chars[index + 1] == '[' {
      FinalAtShifts(chars, index, 2);
      var at := FinalAt(chars, index + 2);
      if at < |chars| {
        assert chars[index..][2..at - index] == chars[index + 2..at];
      }
    } else if StartsString(chars[index + 1]) {
      StringEndShifts(chars, index, 2, chars[index + 1] == ']');
    }
  }

  lemma LoneEscape(rest: string)
    requires rest == [ESC]
    ensures Lex(rest).token.Stop?
  {
  }

  /** One escape sequence, or the news that the text ends inside it. */
  method ReadEscape(text: string, index: nat, canvas: Canvas, k: Cursor, rows: nat, columns: nat)
    returns (stop: bool, next: nat, drawn: Canvas, moved: Cursor)
    requires rows <= USIZE_MAX && columns <= USIZE_MAX && k.row < rows
    requires Explains(text, index, canvas, k, rows, columns) && index < |text| && text[index] == ESC
    ensures stop ==> Lex(text[index..]).token.Stop? && drawn == canvas && moved == k && next == index
    ensures !stop ==> index < next <= |text| && Explains(text, next, drawn, moved, rows, columns)
  {
    hide Exec, GridAfter, CursorAfter, Lex, FinalAt, StringEnd;
    stop, next, drawn, moved := false, index, canvas, k;
    if index + 1 == |text| {
      LoneEscape(text[index..]);
      stop := true;
      return;
    }
    LexFromEscape(text, index);
    var family := text[index + 1];
    if family == '[' {
      var at := FindFinal(text, index + 2);
      if at == |text| {
        stop := true;
        return;
      }
      drawn, moved := ApplyCsi(canvas, k, text[index + 2..at], text[at], rows, columns);
      next := at + 1;
      StepExplains(text, index, canvas, k, rows, columns, next, drawn, moved);
    } else if family == ']' || family == 'P' || family == 'X' || family == '^' || family == '_' {
      next := SkipControlString(text, index + 2, family == ']');
      IgnoredExplains(text, index, canvas, k, rows, columns, next);
    } else {
      next := index + 2;
      IgnoredExplains(text, index, canvas, k, rows, columns, next);
    }
  }

  method RenderAnsi(text: string, maxColumns: nat, maxRows: nat) returns (document: Document)
    requires maxColumns <= USIZE_MAX && maxRows <= USIZE_MAX
    ensures document == Rendered(text, maxColumns, maxRows)
  {
    if ESC !in text {
      return Document(text, []);
    }
    hide Exec, DocumentOf, GridAfter, CursorAfter, Lex, FinalAt, StringEnd;
    var columns, rows := Max(maxColumns, 1), Max(maxRows, 1);
    var canvas: Canvas := [[]];
    var k := Cursor(0, 0, PLAIN);
    var index := 0;
    StartExplains(text, rows, columns);
    while index < |text| && k.row < rows
      invariant Explains(text, index, canvas, k, rows, columns)
      decreases |text| - index
    {
      if text[index] == ESC {
        var stop, next, drawn, moved := ReadEscape(text, index, canvas, k, rows, columns);
        if stop {
          break;
        }
        canvas, k, index := drawn, moved, next;
      } else {
        var drawn, moved := ApplyPlain(canvas, k, text[index], rows, columns, text[index..]);
        StepExplains(text, index, canvas, k, rows, columns, index + 1, drawn, moved);
        canvas, k, index := drawn, moved, index + 1;
      }
    }
    NothingToRead(text, index, canvas, k, rows, columns);
    document := BuildDocument(canvas, rows, columns);
  }

  /** Line controls, ignored controls and printed characters. */
  method ApplyPlain(canvas: Canvas, k: Cursor, ch: char, rows: nat, columns: nat, ghost rest: string)
    returns (r: Canvas, after: Cursor)
    requires rows > 0 && columns > 0 && Fits(canvas, rows, columns) && k.row < rows && ch != ESC && rest != [] && rest[0] == ch
    ensures Lex(rest).length == 1 && !Lex(rest).token.Stop? && Fits(r, rows, columns)
    ensures GridOf(r) == GridAfter(GridOf(canvas), k, Lex(rest).token, columns)
    ensures after == CursorAfter(k, Lex(rest).token, rows, columns)
  {
    r, after := canvas, k;
    if ch == '\r' {
      after := k.(column := 0);
    } else if ch == '\n' {
      after := k.(row := k.row + 1, column := 0);
      r := EnsureRow(canvas, after.row, rows, columns);
    } else if ch == '\t' {
      after := k.(column := (k.column / 8 + 1) * 8);
    } else if !IsControl(ch) {
      if k.column < columns {
        r := WriteCell(canvas, k.row, k.column, Cell(ch, k.style), rows, columns);
        after := k.(column := k.column + 1);
      }
    }
  }

  // ---------------------------------------------------------------- the document

  predicate AllBlank(line: seq<Cell>) {
    forall i :: 0 <= i < |line| ==> line[i] == BLANK
  }

  lemma {:induction false} WidthIs(g: Grid, row: nat, n: nat, w: nat)
    requires Total(g) && w <= n && (w > 0 ==> g[(row, w - 1)] != BLANK) && forall c: nat :: w <= c < n ==> g[(row, c)] == BLANK
    ensures Width(g, row, n) == w
  {
    if n > w {
      WidthIs(g, row, n - 1, w);
    }
  }

  lemma {:induction false} HeightIs(g: Grid, n: nat, columns: nat, h: nat)
    requires Total(g) && h <= n && (h > 0 ==> Width(g, h - 1, columns) > 0) && forall r: nat :: h <= r < n ==> Width(g, r, columns) == 0
    ensures Height(g, n, columns) == h
  {
    if n > h {
      HeightIs(g, n - 1, columns, h);
    }
  }

  /** Blank lines at the end go. */
  method DropBlankLines(canvas: Canvas, rows: nat, columns: nat) returns (r: Canvas)
    requires Fits(canvas, rows, columns)
    ensures |r| == Height(GridOf(canvas), rows, columns) && GridOf(r) == GridOf(canvas) && Fits(r, rows, columns)
  {
    hide Height;
    ghost var g := GridOf(canvas);
    r := canvas;
    forall i: nat | |canvas| <= i ensures Width(g, i, columns) == 0 {
      WidthIs(g, i, columns, 0);
    }
    while r != [] && AllBlank(r[|r| - 1])
      invariant Fits(r, rows, columns) && GridOf(r) == g && r <= canvas
      invariant forall i: nat :: |r| <= i ==> Width(g, i, columns) == 0
    {
      var last := |r| - 1;
      forall c: nat ensures g[(last, c)] == BLANK {
        assert g[(last, c)] == CellAt(r, last, c);
      }
      WidthIs(g, last, columns, 0);
      ghost var before := r;
      r := r[..last];
      forall i: nat, c: nat ensures CellAt(r, i, c) == g[(i, c)] {
        assert CellAt(before, i, c) == GridOf(before)[(i, c)];
      }
      SameCells(r, g);
    }
    if r != [] {
      var last := |r| - 1;
      var c :| 0 <= c < |r[last]| && r[last][c] != BLANK;
      assert g[(last, c)] == CellAt(r, last, c);
    }
    HeightIs(g, rows, columns, |r|);
  }

  /** Blank cells at the end of a line go. */
  method TrimLine(canvas: Canvas, row: nat, rows: nat, columns: nat) returns (line: seq<Cell>)
    requires Fits(canvas, rows, columns) && row < |canvas|
    ensures line == RowCells(GridOf(canvas), row, Width(GridOf(canvas), row, columns))
  {
    ghost var g := GridOf(canvas);
    line := canvas[row];
    while line != [] && line[|line| - 1] == BLANK
      invariant line <= canvas[row] && forall c: nat :: |line| <= c < |canvas[row]| ==> canvas[row][c] == BLANK
    {
      line := line[..|line| - 1];
    }
    forall c: nat ensures g[(row, c)] == if c < |line| then line[c] else BLANK {
      assert g[(row, c)] == CellAt(canvas, row, c);
    }
    WidthIs(g, row, columns, |line|);
  }

  /** A document under construction with its length in bytes. */
  ghost predicate Builds(document: Document, bytes: nat, glyphs: seq<Cell>) {
    document == Document(Text(glyphs), Spans(glyphs)) && bytes == Bytes(glyphs)
  }

  lemma OneMoreGlyph(document: Document, bytes: nat, glyphs: seq<Cell>, cell: Cell)
    requires Builds(document, bytes, glyphs)
    ensures Builds(Document(document.text + [cell.ch], AddSpan(document.spans, bytes, bytes + CharBytes(cell.ch), cell.style)),
                   bytes + CharBytes(cell.ch), glyphs + [cell])
  {
    assert (glyphs + [cell])[..|glyphs|] == glyphs;
  }

  lemma GlyphsNext(lines: seq<seq<Cell>>, i: nat)
    requires i < |lines|
    ensures Glyphs(lines[..i + 1]) == Glyphs(lines[..i]) + (if i > 0 then [Cell('\n', PLAIN)] else []) + lines[i]
  {
    assert lines[..i + 1][..i] == lines[..i];
  }

  lemma NoGlyphs()
    ensures Glyphs([]) == [] && Builds(Document([], []), 0, [])
  {
  }

  lemma PlainAddsNoSpan(spans: seq<Span>, bytes: nat)
    ensures CharBytes('\n') == 1 && AddSpan(spans, bytes, bytes + 1, PLAIN) == spans
  {
  }

  method BuildDocument(canvas: Canvas, rows: nat, columns: nat) returns (document: Document)
    requires Fits(canvas, rows, columns)
    ensures document == DocumentOf(GridOf(canvas), rows, columns)
  {
    hide Glyphs, Text, Spans, Bytes, AddSpan, Width, Height, RowCells;
    var kept := DropBlankLines(canvas, rows, columns);
    ghost var lines := Lines(GridOf(kept), |kept|, columns);
    document := Document([], []);
    var bytes := 0;
    ghost var glyphs: seq<Cell> := [];
    NoGlyphs();
    assert lines[..0] == [];
    for i := 0 to |kept|
      invariant glyphs == Glyphs(lines[..i]) && Builds(document, bytes, glyphs)
    {
      var line := TrimLine(kept, i, rows, columns);
      GlyphsNext(lines, i);
      if i > 0 {
        OneMoreGlyph(document, bytes, glyphs, Cell('\n', PLAIN));
        PlainAddsNoSpan(document.spans, bytes);
        document := document.(text := document.text + ['\n']);
        bytes, glyphs := bytes + 1, glyphs + [Cell('\n', PLAIN)];
      }
      ghost var before := glyphs;
      document, bytes := AppendLine(document, bytes, line, glyphs);
      glyphs := before + line;
    }
    assert lines[..|kept|] == lines;
  }

  method AppendLine(start: Document, startBytes: nat, line: seq<Cell>, ghost glyphs: seq<Cell>)
    returns (document: Document, bytes: nat)
    requires Builds(start, startBytes, glyphs)
    ensures Builds(document, bytes, glyphs + line)
  {
    document, bytes := start, startBytes;
    assert glyphs + line[..0] == glyphs;
    for j := 0 to |line|
      invariant Builds(document, bytes, glyphs + line[..j])
    {
      var cell := line[j];
      OneMoreGlyph(document, bytes, glyphs + line[..j], cell);
      assert glyphs + line[..j] + [cell] == glyphs + line[..j + 1];
      var end := bytes + CharBytes(cell.ch);
      document := document.(text := document.text + [cell.ch]);
      if cell.style != PLAIN {
        var spans := document.spans;
        if spans != [] && spans[|spans| - 1].end == bytes && spans[|spans| - 1].style == cell.style {
          document := document.(spans := spans[|spans| - 1 := spans[|spans| - 1].(end := end)]);
        } else {
          document := document.(spans := spans + [Span(bytes, end, cell.style)]);
        }
      }
      bytes := end;
    }
    assert line[..|line|] == line;
  }
}
