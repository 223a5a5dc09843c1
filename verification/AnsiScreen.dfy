/** ANSI terminal text as data: tokens, a reference interpreter over a total grid of cells, and the
    document a grid stands for. */
module AnsiScreen {
  datatype Option<T> = None | Some(value: T)

  datatype Color = Standard(n: nat) | Bright(n: nat) | Indexed(n: nat) | Rgb(r: nat, g: nat, b: nat)

  datatype Style = Style(foreground: Option<Color>, background: Option<Color>, bold: bool)

  const PLAIN := Style(None, None, false)

  datatype Cell = Cell(ch: char, style: Style)

  const BLANK := Cell(' ', PLAIN)

  const USIZE_MAX: nat := 0xFFFF_FFFF_FFFF_FFFF
  const ESC: char := '\U{1B}'
  const BEL: char := '\U{7}'

  function Min(a: nat, b: nat): nat { if a <= b then a else b }
  function Max(a: nat, b: nat): nat { if a >= b then a else b }
  function SaturatingSub(a: nat, b: nat): nat { if a >= b then a - b else 0 }

  // ---------------------------------------------------------------- tokens

  datatype Token =
    | Stop                                   // the text ends inside a sequence
    | Csi(params: string, command: char)
    | Ignore
    | Return
    | Newline
    | Tab
    | Print(ch: char)

  /** A token, the characters it takes, and whether it would be the same whatever followed. */
  datatype Lexeme = Lexeme(token: Token, length: nat, complete: bool)

  predicate IsControl(c: char) {
    c as int < 0x20 || 0x7f <= c as int <= 0x9f
  }

  predicate IsFinal(c: char) {
    0x40 <= c as int <= 0x7e
  }

  /** Position of the first final byte of a control sequence, |chars| if there is none. */
  function FinalAt(chars: string, from: nat): (at: nat)
    requires from <= |chars|
    ensures from <= at <= |chars|
    ensures at < |chars| ==> IsFinal(chars[at])
    ensures forall i :: from <= i < at ==> !IsFinal(chars[i])
    decreases |chars| - from
  {
    if from == |chars| || IsFinal(chars[from]) then from else FinalAt(chars, from + 1)
  }

  predicate TerminatorAt(chars: string, i: nat, bel: bool)
    requires i < |chars|
  {
    (bel && chars[i] == BEL) || (chars[i] == ESC && i + 1 < |chars| && chars[i + 1] == '\\')
  }

  /** End of a control string: just past its terminator, |chars| if it has none. */
  function StringEnd(chars: string, from: nat, bel: bool): (end: nat)
    requires from <= |chars|
    ensures from <= end <= |chars|
    decreases |chars| - from
  {
    if from == |chars| then from
    else if bel && chars[from] == BEL then from + 1
    else if TerminatorAt(chars, from, bel) then from + 2
    else StringEnd(chars, from + 1, bel)
  }

  predicate Terminated(chars: string, from: nat, bel: bool)
    requires from <= |chars|
  {
    exists i :: from <= i < |chars| && TerminatorAt(chars, i, bel)
  }

  predicate StartsString(family: char) {
    family in {']', 'P', 'X', '^', '_'}
  }

  function Lex(chars: string): (r: Lexeme)
    requires chars != []
    ensures 0 < r.length <= |chars|
  {
    var c := chars[0];
    if c == ESC then
      if |chars| == 1 then Lexeme(Stop, 1, false)
      else if chars[1] == '[' then
        var at := FinalAt(chars, 2);
        if at == |chars| then Lexeme(Stop, |chars|, false)
        else Lexeme(Csi(chars[2..at], chars[at]), at + 1, true)
      else if StartsString(chars[1]) then
        Lexeme(Ignore, StringEnd(chars, 2, chars[1] == ']'), Terminated(chars, 2, chars[1] == ']'))
      else Lexeme(Ignore, 2, true)
    else if c == '\r' then Lexeme(Return, 1, true)
    else if c == '\n' then Lexeme(Newline, 1, true)
    else if c == '\t' then Lexeme(Tab, 1, true)
    else if IsControl(c) then Lexeme(Ignore, 1, true)
    else Lexeme(Print(c), 1, true)
  }

  // ---------------------------------------------------------------- parameters and styles

  function TrimQuestion(s: string): string {
    if s != [] && s[0] == '?' then TrimQuestion(s[1..]) else s
  }

  /** Pieces between semicolons: never an empty list. */
  function Split(s: string): (parts: seq<string>)
    ensures parts != []
  {
    if s == [] then [[]]
    else
      var rest := Split(s[1..]);
      if s[0] == ';' then [[]] + rest else [[s[0]] + rest[0]] + rest[1..]
  }

  predicate IsDigit(c: char) { '0' <= c <= '9' }

  function Digits(s: string): Option<nat> {
    if s == [] then Some(0)
    else if !IsDigit(s[|s| - 1]) then None
    else
      var front := Digits(s[..|s| - 1]);
      if front.None? then None else Some(front.value * 10 + (s[|s| - 1] as int - '0' as int))
  }

  /** A usize in decimal with an optional plus sign; anything else, and overflow, counts as 0. */
  function Number(s: string): nat {
    var body := if s != [] && s[0] == '+' then s[1..] else s;
    var value := Digits(body);
    if body == [] || value.None? || value.value > USIZE_MAX then 0 else value.value
  }

  function NumbersOf(parts: seq<string>): seq<nat> {
    if parts == [] then [] else [Number(parts[0])] + NumbersOf(parts[1..])
  }

  function Numbers(params: string): (ns: seq<nat>)
    ensures ns != []
  {
    NumbersOf(Split(TrimQuestion(params)))
  }

  function Extended(ns: seq<nat>): Option<Color> {
    if |ns| >= 3 && ns[1] == 5 then Some(Indexed(Min(ns[2], 255)))
    else if |ns| >= 5 && ns[1] == 2 then Some(Rgb(Min(ns[2], 255), Min(ns[3], 255), Min(ns[4], 255)))
    else None
  }

  function Taken(ns: seq<nat>): (n: nat)
    requires ns != []
    ensures 0 < n <= |ns|
  {
    if (ns[0] == 38 || ns[0] == 48) && |ns| >= 3 && ns[1] == 5 then 3
    else if (ns[0] == 38 || ns[0] == 48) && |ns| >= 5 && ns[1] == 2 then 5
    else 1
  }

  function Code(ns: seq<nat>, style: Style): Style
    requires ns != []
  {
    var code := ns[0];
    if code == 0 then PLAIN
    else if code == 1 then style.(bold := true)
    else if code == 22 then style.(bold := false)
    else if 30 <= code <= 37 then style.(foreground := Some(Standard(code - 30)))
    else if code == 39 then style.(foreground := None)
    else if 40 <= code <= 47 then style.(background := Some(Standard(code - 40)))
    else if code == 49 then style.(background := None)
    else if 90 <= code <= 97 then style.(foreground := Some(Bright(code - 90)))
    else if 100 <= code <= 107 then style.(background := Some(Bright(code - 100)))
    else if code == 38 && Extended(ns).Some? then style.(foreground := Extended(ns))
    else if code == 48 && Extended(ns).Some? then style.(background := Extended(ns))
    else style
  }

  function Sgr(ns: seq<nat>, style: Style): Style {
    if ns == [] then style else Sgr(ns[Taken(ns)..], Code(ns, style))
  }

  // ---------------------------------------------------------------- the grid interpreter

  /** A cell for every position. */
  type Grid = imap<(nat, nat), Cell>

  ghost function Blank(): Grid {
    imap r: nat, c: nat | true :: (r, c) := BLANK
  }

  ghost predicate Total(g: Grid) {
    forall r: nat, c: nat :: (r, c) in g
  }

  ghost function ErasedLine(g: Grid, row: nat, column: nat, mode: nat): Grid
    requires Total(g)
  {
    imap r: nat, c: nat | true ::
      (r, c) := if r == row && (mode == 2 || (mode == 1 && c <= column) || (mode != 1 && mode != 2 && c >= column))
                then BLANK else g[(r, c)]
  }

  datatype Cursor = Cursor(row: nat, column: nat, style: Style)

  ghost predicate ClearsScreen(token: Token) {
    token.Csi? && token.command == 'J' && (Numbers(token.params)[0] == 2 || Numbers(token.params)[0] == 3)
  }

  function Moved(k: Cursor, ns: seq<nat>, command: char): Cursor
    requires ns != []
  {
    var n := Max(ns[0], 1);
    match command
    case 'H' => Cursor(n - 1, Max(if |ns| > 1 then ns[1] else 1, 1) - 1, k.style)
    case 'f' => Cursor(n - 1, Max(if |ns| > 1 then ns[1] else 1, 1) - 1, k.style)
    case 'A' => k.(row := SaturatingSub(k.row, n))
    case 'B' => k.(row := k.row + n)
    case 'C' => k.(column := k.column + n)
    case 'D' => k.(column := SaturatingSub(k.column, n))
    case 'G' => k.(column := n - 1)
    case 'J' => if ns[0] == 2 || ns[0] == 3 then k.(row := 0, column := 0) else k
    case 'm' => k.(style := Sgr(ns, k.style))
    case _ => k
  }

  /** Where the cursor is and how it writes after a token. */
  function CursorAfter(k: Cursor, token: Token, rows: nat, columns: nat): Cursor
    requires rows > 0 && columns > 0
  {
    match token
    case Csi(params, command) =>
      var m := Moved(k, Numbers(params), command);
      m.(row := Min(m.row, rows - 1), column := Min(m.column, columns - 1))
    case Return => k.(column := 0)
    case Newline => k.(row := k.row + 1, column := 0)
    case Tab => k.(column := (k.column / 8 + 1) * 8)
    case Print(_) => if k.column < columns then k.(column := k.column + 1) else k
    case _ => k
  }

  ghost function GridAfter(g: Grid, k: Cursor, token: Token, columns: nat): Grid
    requires Total(g)
  {
    match token
    case Csi(params, command) =>
      if ClearsScreen(token) then Blank()
      else if command == 'K' then ErasedLine(g, k.row, k.column, Numbers(params)[0])
      else g
    case Print(ch) => if k.column < columns then g[(k.row, k.column) := Cell(ch, k.style)] else g
    case _ => g
  }

  datatype Screen = Screen(grid: Grid, cursor: Cursor)

  ghost function Start(): Screen { Screen(Blank(), Cursor(0, 0, PLAIN)) }

  /** The whole text on a terminal of the given size: reading stops below the last row, and where the
      text ends inside a sequence. */
  ghost function Exec(s: Screen, chars: string, rows: nat, columns: nat): (r: Screen)
    requires rows > 0 && columns > 0 && Total(s.grid)
    ensures Total(r.grid)
    decreases |chars|
  {
    if chars == [] || s.cursor.row >= rows || Lex(chars).token.Stop? then s
    else
      var l := Lex(chars);
      Exec(Screen(GridAfter(s.grid, s.cursor, l.token, columns), CursorAfter(s.cursor, l.token, rows, columns)),
           chars[l.length..], rows, columns)
  }

  // ---------------------------------------------------------------- the document of a grid

  /** Columns of a row up to its last cell that is not blank. */
  ghost function Width(g: Grid, row: nat, n: nat): (w: nat)
    requires Total(g)
    ensures w <= n
    ensures w > 0 ==> g[(row, w - 1)] != BLANK
    ensures forall c: nat :: w <= c < n ==> g[(row, c)] == BLANK
  {
    if n == 0 then 0 else if g[(row, n - 1)] != BLANK then n else Width(g, row, n - 1)
  }

  /** Rows up to the last one that is not blank. */
  ghost function Height(g: Grid, n: nat, columns: nat): (h: nat)
    requires Total(g)
    ensures h <= n
    ensures h > 0 ==> Width(g, h - 1, columns) > 0
    ensures forall r: nat :: h <= r < n ==> Width(g, r, columns) == 0
  {
    if n == 0 then 0 else if Width(g, n - 1, columns) > 0 then n else Height(g, n - 1, columns)
  }

  ghost function RowCells(g: Grid, row: nat, w: nat): (cells: seq<Cell>)
    requires Total(g)
    ensures |cells| == w && forall c :: 0 <= c < w ==> cells[c] == g[(row, c)]
  {
    if w == 0 then [] else RowCells(g, row, w - 1) + [g[(row, w - 1)]]
  }

  ghost function Lines(g: Grid, h: nat, columns: nat): (lines: seq<seq<Cell>>)
    requires Total(g)
    ensures |lines| == h && forall r :: 0 <= r < h ==> lines[r] == RowCells(g, r, Width(g, r, columns))
  {
    if h == 0 then [] else Lines(g, h - 1, columns) + [RowCells(g, h - 1, Width(g, h - 1, columns))]
  }

  /** The characters of the document with their styles; the breaks between lines are plain. */
  function Glyphs(lines: seq<seq<Cell>>): seq<Cell> {
    if lines == [] then []
    else Glyphs(lines[..|lines| - 1]) + (if |lines| > 1 then [Cell('\n', PLAIN)] else []) + lines[|lines| - 1]
  }

  function Text(glyphs: seq<Cell>): string {
    if glyphs == [] then [] else Text(glyphs[..|glyphs| - 1]) + [glyphs[|glyphs| - 1].ch]
  }

  /** Bytes of a character in UTF-8. */
  function CharBytes(c: char): nat {
    if c as int < 0x80 then 1 else if c as int < 0x800 then 2 else if c as int < 0x1_0000 then 3 else 4
  }

  function Bytes(glyphs: seq<Cell>): nat {
    if glyphs == [] then 0 else Bytes(glyphs[..|glyphs| - 1]) + CharBytes(glyphs[|glyphs| - 1].ch)
  }

  /** A styled byte range of the text. */
  datatype Span = Span(start: nat, end: nat, style: Style)

  function AddSpan(spans: seq<Span>, start: nat, end: nat, style: Style): seq<Span> {
    if style == PLAIN then spans
    else if spans != [] && spans[|spans| - 1].end == start && spans[|spans| - 1].style == style then
      spans[|spans| - 1 := spans[|spans| - 1].(end := end)]
    else spans + [Span(start, end, style)]
  }

  function Spans(glyphs: seq<Cell>): seq<Span> {
    if glyphs == [] then []
    else
      var front := glyphs[..|glyphs| - 1];
      AddSpan(Spans(front), Bytes(front), Bytes(glyphs), glyphs[|glyphs| - 1].style)
  }

  datatype Document = Document(text: string, spans: seq<Span>)

  ghost function DocumentOf(g: Grid, rows: nat, columns: nat): Document
    requires Total(g)
  {
    var glyphs := Glyphs(Lines(g, Height(g, rows, columns), columns));
    Document(Text(glyphs), Spans(glyphs))
  }

  ghost function Rendered(text: string, maxColumns: nat, maxRows: nat): Document {
    if ESC !in text then Document(text, [])
    else
      var columns, rows := Max(maxColumns, 1), Max(maxRows, 1);
      DocumentOf(Exec(Start(), text, rows, columns).grid, rows, columns)
  }
}
