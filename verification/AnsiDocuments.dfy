/** A document read back: who knows the text, its UTF-8 encoding (section 3 of RFC 3629) and the styled byte
    ranges knows every cell of the screen. */
module AnsiDocuments {
  import opened AnsiScreen
  import opened AnsiLaws
  import opened AnsiInsertion

  // ---------------------------------------------------------------- UTF-8

  /** One code point as one to four bytes. */
  function Encoded(n: nat): seq<int> {
    if n < 0x80 then [n]
    else if n < 0x800 then [0xC0 + n / 64, 0x80 + n % 64]
    else if n < 0x1_0000 then [0xE0 + n / 64 / 64, 0x80 + n / 64 % 64, 0x80 + n % 64]
    else [0xF0 + n / 64 / 64 / 64, 0x80 + n / 64 / 64 % 64, 0x80 + n / 64 % 64, 0x80 + n % 64]
  }

  function Utf8(text: string): seq<int> {
    if text == [] then [] else Utf8(text[..|text| - 1]) + Encoded(text[|text| - 1] as int)
  }

  /** How long a character is, by its first byte. */
  function LengthOf(first: int): nat {
    if first < 0x80 then 1 else if first < 0xE0 then 2 else if first < 0xF0 then 3 else 4
  }

  /** The code points of an encoded text; the rest is dropped where a byte is missing. */
  function Decoded(bytes: seq<int>): seq<int> {
    if bytes == [] || |bytes| < LengthOf(bytes[0]) then []
    else
      var n := LengthOf(bytes[0]);
      [Decoding(bytes[..n])] + Decoded(bytes[n..])
  }

  function Decoding(b: seq<int>): int
    requires b != [] && |b| == LengthOf(b[0])
  {
    if |b| == 1 then b[0]
    else if |b| == 2 then (b[0] - 0xC0) * 64 + (b[1] - 0x80)
    else if |b| == 3 then ((b[0] - 0xE0) * 64 + (b[1] - 0x80)) * 64 + (b[2] - 0x80)
    else (((b[0] - 0xF0) * 64 + (b[1] - 0x80)) * 64 + (b[2] - 0x80)) * 64 + (b[3] - 0x80)
  }

  lemma CodePointReadsBack(c: char)
    ensures var b := Encoded(c as int);
            b != [] && |b| == LengthOf(b[0]) == CharBytes(c) && Decoding(b) == c as int && forall i :: 0 <= i < |b| ==> 0 <= b[i] < 256
  {
  }

  function Points(text: string): seq<int> {
    if text == [] then [] else [text[0] as int] + Points(text[1..])
  }

  lemma {:induction false} Utf8Concat(a: string, b: string)
    ensures Utf8(a + b) == Utf8(a) + Utf8(b)
    decreases |b|
  {
    if b == [] {
      assert a + b == a;
    } else {
      assert (a + b)[..|a + b| - 1] == a + b[..|b| - 1];
      Utf8Concat(a, b[..|b| - 1]);
    }
  }

  /** No two texts have the same encoding: it decodes to the characters of the text. */
  lemma {:induction false} Utf8ReadsBack(text: string)
    ensures Decoded(Utf8(text)) == Points(text)
    decreases |text|
  {
    if text != [] {
      var b, rest := Encoded(text[0] as int), Utf8(text[1..]);
      CodePointReadsBack(text[0]);
      Utf8Concat([text[0]], text[1..]);
      assert [text[0]] + text[1..] == text;
      assert Utf8([text[0]]) == b by { assert [text[0]][..0] == []; }
      assert (b + rest)[..|b|] == b && (b + rest)[|b|..] == rest;
      Utf8ReadsBack(text[1..]);
    }
  }

  lemma {:induction false} BytesAreUtf8(glyphs: seq<Cell>)
    ensures Bytes(glyphs) == |Utf8(Text(glyphs))|
  {
    if glyphs != [] {
      BytesAreUtf8(glyphs[..|glyphs| - 1]);
      CodePointReadsBack(glyphs[|glyphs| - 1].ch);
      assert Text(glyphs)[..|glyphs| - 1] == Text(glyphs[..|glyphs| - 1]) by { TextCharacters(glyphs); TextCharacters(glyphs[..|glyphs| - 1]); }
    }
  }

  // ---------------------------------------------------------------- places in the text

  /** The text before character c of line r. */
  function TextBefore(lines: seq<string>, r: nat, c: nat): string
    requires r < |lines| && c <= |lines[r]|
  {
    Join(lines[..r]) + (if r > 0 then "\n" else "") + lines[r][..c]
  }

  function Separator(r: nat): seq<Cell> { if r > 0 then [Cell('\n', PLAIN)] else [] }

  lemma GlyphsGrow(lines: seq<seq<Cell>>)
    requires lines != []
    ensures var n := |lines| - 1; Glyphs(lines) == Glyphs(lines[..n]) + Separator(n) + lines[n]
  {
  }

  lemma {:induction false} GlyphPlace(lines: seq<seq<Cell>>, r: nat, c: nat)
    requires r < |lines| && c < |lines[r]|
    ensures var before := Glyphs(lines[..r]) + Separator(r) + lines[r][..c];
            |before| < |Glyphs(lines)| && Glyphs(lines)[..|before|] == before && Glyphs(lines)[|before|] == lines[r][c]
    decreases |lines|
  {
    hide Glyphs;
    var n := |lines| - 1;
    var before := Glyphs(lines[..r]) + Separator(r) + lines[r][..c];
    GlyphsGrow(lines);
    if r < n {
      GlyphPlace(lines[..n], r, c);
      assert lines[..n][..r] == lines[..r];
      assert Glyphs(lines)[..|before|] == Glyphs(lines[..n])[..|before|];
    } else {
      assert lines[n][..c] + lines[n][c..] == lines[n];
      assert Glyphs(lines) == before + lines[n][c..];
    }
  }

  lemma TextOfPlace(lines: seq<seq<Cell>>, r: nat, c: nat)
    requires r < |lines| && c < |lines[r]|
    ensures |Texts(lines)[r]| == |lines[r]| && Texts(lines)[r][c] == lines[r][c].ch
    ensures Text(Glyphs(lines[..r]) + Separator(r) + lines[r][..c]) == TextBefore(Texts(lines), r, c)
  {
    hide Glyphs, Text, Join;
    TextCharacters(lines[r]);
    TextCharacters(lines[r][..c]);
    assert Text(lines[r][..c]) == Texts(lines)[r][..c];
    TextOfGlyphs(lines[..r]);
    assert Texts(lines[..r]) == Texts(lines)[..r];
    TextConcat(Glyphs(lines[..r]) + Separator(r), lines[r][..c]);
    TextConcat(Glyphs(lines[..r]), Separator(r));
    TextCharacters(Separator(r));
  }

  // ---------------------------------------------------------------- the grid from the document

  /** The lines a reader finds in the text are those of the grid. */
  lemma LinesAreRead(g: Grid, rows: nat, columns: nat)
    requires Printable(g)
    ensures var lines := Lines(g, Height(g, rows, columns), columns);
            DocumentOf(g, rows, columns).text == Text(Glyphs(lines)) &&
            Break(DocumentOf(g, rows, columns).text) == if lines == [] then [[]] else Texts(lines)
  {
    hide Glyphs, Text, Spans, Join, Break, Lines, RowCells, Height, Width;
    var lines := Lines(g, Height(g, rows, columns), columns);
    TextOfGlyphs(lines);
    if lines == [] {
      NoLines();
      BreakNothing();
      assert Texts(lines) == [];
    } else {
      forall i | 0 <= i < |lines| ensures '\n' !in Texts(lines)[i] {
        TextCharacters(lines[i]);
        assert IsControl('\n');
      }
      BreakJoin(Texts(lines));
    }
  }

  /** Every cell can be read off the document: the character at its line and column, with the style of the
      byte range that its first byte is in, and blank where the document has no such place. */
  lemma DocumentShowsTheGrid(g: Grid, rows: nat, columns: nat, r: nat, c: nat)
    requires Printable(g) && r < rows && c < columns
    ensures var d := DocumentOf(g, rows, columns); var lines := Break(d.text);
            if r < |lines| && c < |lines[r]|
            then g[(r, c)].ch == lines[r][c] && Styled(d.spans, |Utf8(TextBefore(lines, r, c))|, g[(r, c)].style)
            else g[(r, c)] == BLANK
  {
    hide Glyphs, Text, Spans, Join, Break, Styled, Utf8, Bytes, TextBefore, Lines, RowCells, Width, Height;
    var h := Height(g, rows, columns);
    var cells := Lines(g, h, columns);
    LinesAreRead(g, rows, columns);
    if r < h && c < |cells[r]| {
      var before := Glyphs(cells[..r]) + Separator(r) + cells[r][..c];
      GlyphPlace(cells, r, c);
      TextOfPlace(cells, r, c);
      SpansStyleEachCharacter(Glyphs(cells), |before|);
      BytesAreUtf8(before);
    } else if r < h {
      TextCharacters(cells[r]);
    }
  }

  /** So two screens with the same document are the same screen. */
  lemma DocumentDeterminesTheGrid(g: Grid, f: Grid, rows: nat, columns: nat, r: nat, c: nat)
    requires Printable(g) && Printable(f) && r < rows && c < columns
    requires DocumentOf(g, rows, columns) == DocumentOf(f, rows, columns)
    ensures g[(r, c)] == f[(r, c)]
  {
    hide DocumentOf, Break, Utf8, TextBefore;
    DocumentShowsTheGrid(g, rows, columns, r, c);
    DocumentShowsTheGrid(f, rows, columns, r, c);
    var d := DocumentOf(g, rows, columns);
    SpansOfDocument(g, rows, columns);
    var lines := Break(d.text);
    if r < |lines| && c < |lines[r]| {
      StyleIsUnique(d.spans, |Utf8(TextBefore(lines, r, c))|, g[(r, c)].style, f[(r, c)].style);
    }
  }

  lemma SpansOfDocument(g: Grid, rows: nat, columns: nat)
    requires Total(g)
    ensures SortedAndMaximal(DocumentOf(g, rows, columns).spans)
  {
    SpansSorted(Glyphs(Lines(g, Height(g, rows, columns), columns)));
  }

  lemma StyleIsUnique(spans: seq<Span>, at: nat, a: Style, b: Style)
    requires SortedAndMaximal(spans) && Styled(spans, at, a) && Styled(spans, at, b)
    ensures a == b
  {
    if a != PLAIN && b != PLAIN {
      var i :| 0 <= i < |spans| && spans[i].start <= at < spans[i].end && spans[i].style == a;
      var j :| 0 <= j < |spans| && spans[j].start <= at < spans[j].end && spans[j].style == b;
      assert i <= j <= i;
    }
  }

  /** What is rendered of a text with an escape shows the screen the text leaves, cell by cell. */
  lemma RenderedShowsTheScreen(text: string, maxColumns: nat, maxRows: nat, r: nat, c: nat)
    requires ESC in text && r < Max(maxRows, 1) && c < Max(maxColumns, 1)
    ensures var d := Rendered(text, maxColumns, maxRows); var lines := Break(d.text);
            var cell := Exec(Start(), text, Max(maxRows, 1), Max(maxColumns, 1)).grid[(r, c)];
            if r < |lines| && c < |lines[r]|
            then cell.ch == lines[r][c] && Styled(d.spans, |Utf8(TextBefore(lines, r, c))|, cell.style)
            else cell == BLANK
  {
    hide Exec, DocumentOf, Break, Utf8, TextBefore, Styled;
    var rows, columns := Max(maxRows, 1), Max(maxColumns, 1);
    BlankIsPrintable();
    ExecPrintable(Start(), text, rows, columns);
    DocumentShowsTheGrid(Exec(Start(), text, rows, columns).grid, rows, columns, r, c);
  }
}
