/** Laws of the reference: bounds of the document, what its spans say, and that control strings do nothing. */
module AnsiLaws {
  import opened AnsiScreen

  // ---------------------------------------------------------------- bounds

  ghost predicate Printable(g: Grid) {
    Total(g) && forall r: nat, c: nat :: !IsControl(g[(r, c)].ch)
  }

  lemma {:induction false} ExecPrintable(s: Screen, chars: string, rows: nat, columns: nat)
    requires rows > 0 && columns > 0 && Printable(s.grid)
    ensures Printable(Exec(s, chars, rows, columns).grid)
    decreases |chars|
  {
    if chars != [] && s.cursor.row < rows && !Lex(chars).token.Stop? {
      var l := Lex(chars);
      ExecPrintable(Screen(GridAfter(s.grid, s.cursor, l.token, columns), CursorAfter(s.cursor, l.token, rows, columns)),
        chars[l.length..], rows, columns);
    }
  }

  /** The text is the lines joined by line breaks: at most `rows` of them, none longer than `columns`,
      none empty at the end, and no line holds a control character. */
  lemma DocumentIsBounded(text: string, maxColumns: nat, maxRows: nat)
    requires ESC in text
    ensures var rows, columns := Max(maxRows, 1), Max(maxColumns, 1);
            var g := Exec(Start(), text, rows, columns).grid;
            var lines := Lines(g, Height(g, rows, columns), columns);
            Rendered(text, maxColumns, maxRows) == Document(Text(Glyphs(lines)), Spans(Glyphs(lines))) &&
            |lines| <= rows &&
            (forall i :: 0 <= i < |lines| ==> |lines[i]| <= columns) &&
            (forall i, j :: 0 <= i < |lines| && 0 <= j < |lines[i]| ==> !IsControl(lines[i][j].ch)) &&
            (lines != [] ==> lines[|lines| - 1] != [] && lines[|lines| - 1][|lines[|lines| - 1]| - 1] != BLANK)
  {
    hide Exec, Glyphs, Text, Spans, Lex, Height, Lines, RowCells, Width, Printable, IsControl;
    var rows, columns := Max(maxRows, 1), Max(maxColumns, 1);
    BlankIsPrintable();
    ExecPrintable(Start(), text, rows, columns);
    LinesAreBounded(Exec(Start(), text, rows, columns).grid, rows, columns);
  }

  lemma BlankIsPrintable()
    ensures Printable(Start().grid)
  {
  }

  lemma LinesAreBounded(g: Grid, rows: nat, columns: nat)
    requires Printable(g)
    ensures var lines := Lines(g, Height(g, rows, columns), columns);
            |lines| <= rows &&
            (forall i :: 0 <= i < |lines| ==> |lines[i]| <= columns) &&
            (forall i, j :: 0 <= i < |lines| && 0 <= j < |lines[i]| ==> !IsControl(lines[i][j].ch)) &&
            (lines != [] ==> lines[|lines| - 1] != [] && lines[|lines| - 1][|lines[|lines| - 1]| - 1] != BLANK)
  {
    hide Height, Lines, RowCells, Width, IsControl;
  }

  // ---------------------------------------------------------------- spans

  lemma {:induction false} TextCharacters(cells: seq<Cell>)
    ensures |Text(cells)| == |cells| && forall i :: 0 <= i < |cells| ==> Text(cells)[i] == cells[i].ch
  {
    if cells != [] {
      TextCharacters(cells[..|cells| - 1]);
    }
  }

  lemma {:induction false} BytesGrow(glyphs: seq<Cell>, i: nat, j: nat)
    requires i <= j <= |glyphs|
    ensures Bytes(glyphs[..i]) <= Bytes(glyphs[..j])
    ensures i < j ==> Bytes(glyphs[..i]) < Bytes(glyphs[..j])
    decreases j
  {
    if i < j {
      assert glyphs[..j][..j - 1] == glyphs[..j - 1];
      BytesGrow(glyphs, i, j - 1);
    }
  }

  /** The style a list of spans gives the character that starts at byte `at`. */
  ghost predicate Styled(spans: seq<Span>, at: nat, style: Style) {
    if style == PLAIN then forall i :: 0 <= i < |spans| ==> !(spans[i].start <= at < spans[i].end)
    else exists i :: 0 <= i < |spans| && spans[i].start <= at < spans[i].end && spans[i].style == style
  }

  /** In order, without overlap; two that touch differ in style: nothing could be merged. */
  ghost predicate SortedAndMaximal(spans: seq<Span>) {
    (forall i :: 0 <= i < |spans| ==> spans[i].start < spans[i].end && spans[i].style != PLAIN) &&
    (forall i, j :: 0 <= i < j < |spans| ==> spans[i].end <= spans[j].start) &&
    (forall i :: 0 < i < |spans| && spans[i - 1].end == spans[i].start ==> spans[i - 1].style != spans[i].style)
  }

  ghost predicate OnBoundary(glyphs: seq<Cell>, at: nat) {
    exists k :: 0 <= k <= |glyphs| && Bytes(glyphs[..k]) == at
  }

  lemma AddSpanKeepsSorted(spans: seq<Span>, start: nat, end: nat, style: Style)
    requires SortedAndMaximal(spans) && start < end && forall i :: 0 <= i < |spans| ==> spans[i].end <= start
    ensures var r := AddSpan(spans, start, end, style);
            SortedAndMaximal(r) && forall i :: 0 <= i < |r| ==> r[i].end <= end
  {
    hide SortedAndMaximal;
    var n := |spans| - 1;
    if style != PLAIN && spans != [] && spans[n].end == start && spans[n].style == style {
      LastGrows(spans, end);
    } else if style != PLAIN {
      SpanFollows(spans, start, end, style);
    }
  }

  lemma LastGrows(spans: seq<Span>, end: nat)
    requires SortedAndMaximal(spans) && spans != [] && spans[|spans| - 1].end < end
    requires forall i :: 0 <= i < |spans| ==> spans[i].end < end
    ensures var n := |spans| - 1; SortedAndMaximal(spans[n := spans[n].(end := end)])
  {
  }

  lemma SpanFollows(spans: seq<Span>, start: nat, end: nat, style: Style)
    requires SortedAndMaximal(spans) && start < end && style != PLAIN && forall i :: 0 <= i < |spans| ==> spans[i].end <= start
    requires spans != [] && spans[|spans| - 1].end == start ==> spans[|spans| - 1].style != style
    ensures SortedAndMaximal(spans + [Span(start, end, style)])
  {
    var r := spans + [Span(start, end, style)];
    forall i, j | 0 <= i < j < |r| ensures r[i].end <= r[j].start {
      if j < |spans| {
        assert spans[i].end <= spans[j].start;
      }
    }
  }

  lemma {:induction false} SpansSorted(glyphs: seq<Cell>)
    ensures SortedAndMaximal(Spans(glyphs))
    ensures forall i :: 0 <= i < |Spans(glyphs)| ==> Spans(glyphs)[i].end <= Bytes(glyphs)
  {
    if glyphs != [] {
      var front := glyphs[..|glyphs| - 1];
      SpansSorted(front);
      AddSpanKeepsSorted(Spans(front), Bytes(front), Bytes(glyphs), glyphs[|glyphs| - 1].style);
    }
  }

  lemma {:induction false} SpansOnBoundaries(glyphs: seq<Cell>, i: nat)
    requires i < |Spans(glyphs)|
    ensures OnBoundary(glyphs, Spans(glyphs)[i].start) && OnBoundary(glyphs, Spans(glyphs)[i].end)
  {
    var n := |glyphs| - 1;
    var front := glyphs[..n];
    assert glyphs[..|glyphs|] == glyphs;
    assert OnBoundary(glyphs, Bytes(glyphs)) && OnBoundary(glyphs, Bytes(front));
    if i < |Spans(front)| {
      SpansOnBoundaries(front, i);
      BoundariesStay(glyphs, Spans(front)[i].start);
      BoundariesStay(glyphs, Spans(front)[i].end);
    }
  }

  lemma BoundariesStay(glyphs: seq<Cell>, at: nat)
    requires glyphs != [] && OnBoundary(glyphs[..|glyphs| - 1], at)
    ensures OnBoundary(glyphs, at)
  {
    var n := |glyphs| - 1;
    var k :| 0 <= k <= n && Bytes(glyphs[..n][..k]) == at;
    assert glyphs[..n][..k] == glyphs[..k];
  }

  lemma AddSpanStyles(spans: seq<Span>, start: nat, end: nat, style: Style)
    requires start < end && forall i :: 0 <= i < |spans| ==> spans[i].start < spans[i].end <= start
    ensures Styled(AddSpan(spans, start, end, style), start, style)
  {
    var r := AddSpan(spans, start, end, style);
    if style != PLAIN {
      assert r[|r| - 1].start <= start < r[|r| - 1].end && r[|r| - 1].style == style;
    }
  }

  lemma AddSpanLeavesEarlier(spans: seq<Span>, start: nat, end: nat, style: Style, at: nat, earlier: Style)
    requires at < start < end && Styled(spans, at, earlier)
    ensures Styled(AddSpan(spans, start, end, style), at, earlier)
  {
    var r := AddSpan(spans, start, end, style);
    if earlier != PLAIN {
      var i :| 0 <= i < |spans| && spans[i].start <= at < spans[i].end && spans[i].style == earlier;
      assert r[i].start <= at < r[i].end && r[i].style == earlier;
    }
  }

  /** Each character has its cell's style, by exactly the span it lies in; plain ones lie in none. */
  lemma {:induction false} SpansStyleEachCharacter(glyphs: seq<Cell>, k: nat)
    requires k < |glyphs|
    ensures Styled(Spans(glyphs), Bytes(glyphs[..k]), glyphs[k].style)
  {
    var n := |glyphs| - 1;
    var front := glyphs[..n];
    SpansSorted(front);
    if k < n {
      assert front[..k] == glyphs[..k];
      SpansStyleEachCharacter(front, k);
      BytesGrow(glyphs, k, n);
      AddSpanLeavesEarlier(Spans(front), Bytes(front), Bytes(glyphs), glyphs[n].style, Bytes(glyphs[..k]), glyphs[k].style);
    } else {
      AddSpanStyles(Spans(front), Bytes(front), Bytes(glyphs), glyphs[n].style);
    }
  }

  // ---------------------------------------------------------------- lexing and continuation

  lemma {:induction false} FinalAtStays(p: string, t: string, from: nat)
    requires from <= |p| && FinalAt(p, from) < |p|
    ensures FinalAt(p + t, from) == FinalAt(p, from)
    decreases |p| - from
  {
    if from < |p| && !IsFinal(p[from]) {
      FinalAtStays(p, t, from + 1);
    }
  }

  lemma {:induction false} StringEndStays(p: string, t: string, from: nat, bel: bool)
    requires from <= |p| && Terminated(p, from, bel)
    ensures StringEnd(p + t, from, bel) == StringEnd(p, from, bel) && Terminated(p + t, from, bel)
    decreases |p| - from
  {
    var i :| from <= i < |p| && TerminatorAt(p, i, bel);
    assert TerminatorAt(p + t, i, bel);
    if !TerminatorAt(p, from, bel) {
      assert from + 1 <= i;
      StringEndStays(p, t, from + 1, bel);
      if from + 1 < |p| {
        assert (p + t)[from + 1] == p[from + 1];
      }
      assert !TerminatorAt(p + t, from, bel);
    }
  }

  /** A complete token does not depend on what follows. */
  lemma LexStays(p: string, t: string)
    requires p != [] && Lex(p).complete
    ensures Lex(p + t) == Lex(p)
  {
    if p[0] == ESC && |p| > 1 {
      assert (p + t)[1] == p[1];
      if p[1] == '[' {
        FinalAtStays(p, t, 2);
        assert (p + t)[2..FinalAt(p, 2)] == p[2..FinalAt(p, 2)];
      } else if StartsString(p[1]) {
        StringEndStays(p, t, 2, p[1] == ']');
      }
    }
  }

  /** The text ends in the ground state: every token in it is complete. */
  predicate Ground(p: string)
    decreases |p|
  {
    p == [] || (Lex(p).complete && Ground(p[Lex(p).length..]))
  }

  /** Interpreting a text that ends in the ground state and then its continuation is interpreting both. */
  lemma {:induction false} ExecSplits(s: Screen, p: string, t: string, rows: nat, columns: nat)
    requires rows > 0 && columns > 0 && Total(s.grid) && Ground(p)
    ensures Exec(s, p + t, rows, columns) == Exec(Exec(s, p, rows, columns), t, rows, columns)
    decreases |p|
  {
    if p == [] {
      assert p + t == t;
    } else if s.cursor.row < rows {
      hide Lex, GridAfter, CursorAfter;
      LexStays(p, t);
      var l := Lex(p);
      assert (p + t)[l.length..] == p[l.length..] + t;
      var next := Screen(GridAfter(s.grid, s.cursor, l.token, columns), CursorAfter(s.cursor, l.token, rows, columns));
      ExecSplits(next, p[l.length..], t, rows, columns);
    } else if t != [] {
      assert Exec(s, p, rows, columns) == s;
    }
  }

  /** OSC with BEL or ST, and DCS, SOS, PM, APC with ST, around a body that does not end them early. */
  predicate ControlString(x: string) {
    |x| >= 3 && x[0] == ESC && StartsString(x[1]) &&
    var bel := x[1] == ']';
    exists end :: 2 <= end < |x| && TerminatorAt(x, end, bel) &&
      (forall i :: 2 <= i < end ==> !TerminatorAt(x, i, bel)) &&
      |x| == if bel && x[end] == BEL then end + 1 else end + 2
  }

  lemma {:induction false} StringEndsAt(x: string, from: nat, end: nat, bel: bool)
    requires from <= end < |x| && TerminatorAt(x, end, bel)
    requires forall i :: from <= i < end ==> !TerminatorAt(x, i, bel)
    ensures StringEnd(x, from, bel) == (if bel && x[end] == BEL then end + 1 else end + 2)
    decreases end - from
  {
    if from < end {
      assert !TerminatorAt(x, from, bel);
      StringEndsAt(x, from + 1, end, bel);
    }
  }

  lemma ControlStringIsOneToken(x: string)
    requires ControlString(x)
    ensures Lex(x) == Lexeme(Ignore, |x|, true) && Ground(x)
  {
    var bel := x[1] == ']';
    var end :| 2 <= end < |x| && TerminatorAt(x, end, bel) && (forall i :: 2 <= i < end ==> !TerminatorAt(x, i, bel)) &&
               |x| == if bel && x[end] == BEL then end + 1 else end + 2;
    StringEndsAt(x, 2, end, bel);
    assert Ground(x[|x|..]);
  }

  /** A control string at any point of the ground state, before any continuation, leaves grid, cursor and
      style as they are. */
  lemma ControlStringsAreInert(s: Screen, x: string, t: string, rows: nat, columns: nat)
    requires rows > 0 && columns > 0 && Total(s.grid) && ControlString(x)
    ensures Exec(s, x + t, rows, columns) == Exec(s, t, rows, columns)
  {
    ControlStringIsOneToken(x);
    LexStays(x, t);
    assert (x + t)[|x|..] == t;
  }

  lemma InsertionDrawsTheSame(p: string, x: string, t: string, rows: nat, columns: nat)
    requires rows > 0 && columns > 0 && Ground(p) && ControlString(x)
    ensures Exec(Start(), p + x + t, rows, columns) == Exec(Start(), p + t, rows, columns)
  {
    assert p + x + t == p + (x + t);
    ExecSplits(Start(), p, x + t, rows, columns);
    ExecSplits(Start(), p, t, rows, columns);
    ControlStringsAreInert(Exec(Start(), p, rows, columns), x, t, rows, columns);
  }

  /** So inserting one changes no rendering of a text that contains an escape anyway. */
  lemma InsertionChangesNoDocument(p: string, x: string, t: string, maxColumns: nat, maxRows: nat)
    requires Ground(p) && ControlString(x) && ESC in p + t
    ensures Rendered(p + x + t, maxColumns, maxRows) == Rendered(p + t, maxColumns, maxRows)
  {
    assert (p + x + t)[|p|] == ESC;
    InsertionDrawsTheSame(p, x, t, Max(maxRows, 1), Max(maxColumns, 1));
  }

  lemma OneToken(s: Screen, chars: string, rows: nat, columns: nat)
    requires rows > 0 && columns > 0 && Total(s.grid) && chars != [] && s.cursor.row < rows && !Lex(chars).token.Stop?
    ensures var l := Lex(chars);
            Exec(s, chars, rows, columns) ==
            Exec(Screen(GridAfter(s.grid, s.cursor, l.token, columns), CursorAfter(s.cursor, l.token, rows, columns)),
                 chars[l.length..], rows, columns)
  {
  }

  lemma BlankDocument(rows: nat, columns: nat)
    ensures DocumentOf(Blank(), rows, columns) == Document("", [])
  {
    forall r: nat ensures Width(Blank(), r, columns) == 0 {}
    assert Height(Blank(), rows, columns) == 0;
    assert Lines(Blank(), 0, columns) == [];
  }
}
