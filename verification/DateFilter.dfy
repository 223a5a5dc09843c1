/** Date terms of the filter language: how a term's text becomes inclusive bounds in Unix seconds, and which
    local days those bounds are. */
module DateFilter {
  import opened Calendar
  import opened TextOrder

  datatype Option<T> = None | Some(value: T)

  const DAY: int := 86400

  // ---------------------------------------------------------------- text

  predicate IsSpace(c: char) { c == ' ' || c == '\t' || c == '\n' || c == '\r' }

  function TrimStart(s: string): string {
    if s != [] && IsSpace(s[0]) then TrimStart(s[1..]) else s
  }

  function TrimEnd(s: string): string {
    if s != [] && IsSpace(s[|s| - 1]) then TrimEnd(s[..|s| - 1]) else s
  }

  function Trim(s: string): string { TrimEnd(TrimStart(s)) }

  predicate IsDigit(c: char) { '0' <= c <= '9' }

  /** Decimal digits and nothing else, at least one. */
  function Digits(s: string): Option<nat> {
    if s == [] || !IsDigit(s[|s| - 1]) then None
    else
      var last := s[|s| - 1] as int - '0' as int;
      if |s| == 1 then Some(last)
      else match Digits(s[..|s| - 1]) case None => None case Some(n) => Some(n * 10 + last)
  }

  function ParseI64(s: string): Option<int> {
    var negative := s != [] && s[0] == '-';
    match Digits(if s != [] && (s[0] == '-' || s[0] == '+') then s[1..] else s)
    case None => None
    case Some(n) =>
      var v := if negative then Negated(n) else n;
      if -0x8000_0000_0000_0000 <= v < 0x8000_0000_0000_0000 then Some(v) else None
  }

  function ParseU32(s: string): Option<nat> {
    match Digits(if s != [] && s[0] == '+' then s[1..] else s)
    case None => None
    case Some(n) => if n < 0x1_0000_0000 then Some(n) else None
  }

  /** The pieces between dashes. */
  function Pieces(s: string): (r: seq<string>)
    ensures r != []
  {
    if s == [] then [[]]
    else
      var rest := Pieces(s[1..]);
      if s[0] == '-' then [[]] + rest else [[s[0]] + rest[0]] + rest[1..]
  }

  /** The text before and after the first two dots. */
  function SplitDots(s: string): Option<(string, string)> {
    if |s| < 2 then None
    else if s[0] == '.' && s[1] == '.' then Some(([], s[2..]))
    else match SplitDots(s[1..]) case None => None case Some(p) => Some(([s[0]] + p.0, p.1))
  }

  // ---------------------------------------------------------------- dates

  /** The date a text spells; days up to 31 pass in every month. */
  function DateIn(s: string): (t: Option<Date>)
    ensures t.Some? ==> 1 <= t.value.month <= 12 && 1 <= t.value.day <= 31
  {
    var p := Pieces(Trim(s));
    if |p| != 3 then None
    else match (ParseI64(p[0]), ParseU32(p[1]), ParseU32(p[2]))
      case (Some(y), Some(m), Some(d)) => if 1 <= m <= 12 && 1 <= d <= 31 then Some(Date(y, m, d)) else None
      case _ => None
  }

  function CivilToUnix(s: string, tz: int): Option<int> {
    match DateIn(s)
    case None => None
    case Some(t) => Some(DayNumber(t) * DAY - tz)
  }

  /** The local day of a moment, with the offset the filter is given. */
  function DateAt(unix: int, tz: int): Date { DateOf((unix + tz) / DAY) }

  function LocalDayStart(now: int, tz: int): int { (now + tz) / DAY * DAY - tz }

  datatype Bounds = Bounds(min: Option<int>, max: Option<int>)

  predicate Within(b: Bounds, t: int) {
    (b.min.Some? ==> t >= b.min.value) && (b.max.Some? ==> t <= b.max.value)
  }

  function Plus(t: Option<int>, n: int): Option<int> {
    match t case None => None case Some(x) => Some(x + n)
  }

  /** From a lower bound on, or up to an upper bound. */
  function From(t: Option<int>): Option<Bounds> {
    if t.Some? then Some(Bounds(t, None)) else None
  }

  function UpTo(t: Option<int>): Option<Bounds> {
    if t.Some? then Some(Bounds(None, t)) else None
  }

  function ParseDateRange(value: string, now: int, tz: int): Option<Bounds> {
    var v := Lower(Trim(value));
    var today := LocalDayStart(now, tz);
    if v == "today" then Some(Bounds(Some(today), None))
    else if v == "yesterday" then Some(Bounds(Some(today - DAY), Some(today - 1)))
    else if v == "week" then Some(Bounds(Some(now - 7 * DAY), None))
    else if v == "month" then Some(Bounds(Some(now - 30 * DAY), None))
    else if v == "year" then Some(Bounds(Some(now - 365 * DAY), None))
    else if SplitDots(v).Some? then
      var lo, hi := CivilToUnix(SplitDots(v).value.0, tz), CivilToUnix(SplitDots(v).value.1, tz);
      if lo.Some? && hi.Some? then Some(Bounds(lo, Plus(hi, DAY - 1))) else None
    else if ">=" <= v then From(CivilToUnix(v[2..], tz))
    else if "<=" <= v then UpTo(Plus(CivilToUnix(v[2..], tz), DAY - 1))
    else if ">" <= v then From(Plus(CivilToUnix(v[1..], tz), DAY))
    else if "<" <= v then UpTo(Plus(CivilToUnix(v[1..], tz), -1))
    else
      var start := CivilToUnix(v, tz);
      if start.Some? then Some(Bounds(start, Plus(start, DAY - 1))) else None
  }

  predicate CreatedMatches(b: Bounds, created: Option<int>) { created.Some? && Within(b, created.value) }

  predicate ModifiedMatches(b: Bounds, modified: int) { modified != 0 && Within(b, modified) }

  // ---------------------------------------------------------------- what the bounds mean

  /** Seconds from the start of one local day to the end of another are exactly the moments of those days. */
  lemma DaySpan(first: int, last: int, tz: int, t: int)
    ensures first * DAY - tz <= t <==> first <= (t + tz) / DAY
    ensures t <= last * DAY - tz + DAY - 1 <==> (t + tz) / DAY <= last
  {
  }

  lemma DayOrder(t: Date, unix: int, tz: int)
    requires Valid(t)
    ensures Before(t, DateAt(unix, tz)) <==> DayNumber(t) < (unix + tz) / DAY
    ensures Before(DateAt(unix, tz), t) <==> (unix + tz) / DAY < DayNumber(t)
    ensures DateAt(unix, tz) == t <==> (unix + tz) / DAY == DayNumber(t)
  {
    hide DayNumber, DateOf;
    DayNumberOfDate((unix + tz) / DAY);
    OrderOfDates(t, DateAt(unix, tz));
    OrderOfDates(DateAt(unix, tz), t);
    DateOfDayNumber(t);
  }

  /** The text is none of the other forms. */
  predicate Bare(v: string) {
    v != "today" && v != "yesterday" && v != "week" && v != "month" && v != "year" && SplitDots(v).None? &&
    !(">" <= v) && !("<" <= v)
  }

  /** A bare date accepts exactly the moments whose local date it is; a day the month does not have stands
      for the day of the next month it overflows to. */
  lemma BareDateIsItsDay(value: string, now: int, tz: int, t: Date, unix: int)
    requires Bare(Lower(Trim(value))) && DateIn(Lower(Trim(value))) == Some(t)
    ensures ParseDateRange(value, now, tz).Some?
    ensures Within(ParseDateRange(value, now, tz).value, unix) <==> DateAt(unix, tz) == DateOf(DayNumber(t))
    ensures Valid(t) ==> (Within(ParseDateRange(value, now, tz).value, unix) <==> DateAt(unix, tz) == t)
    ensures !Valid(t) ==> DateAt(unix, tz) != t
  {
    hide DayNumber, DateOf, DateIn, SplitDots, Lower, Trim;
    DaySpan(DayNumber(t), DayNumber(t), tz, unix);
    DayNumberOfDate(DayNumber(t));
    DayOrder(DateOf(DayNumber(t)), unix, tz);
    DayNumberOfDate((unix + tz) / DAY);
    RoundTripIffDayExists(t);
  }

  /** A bare date finds the files last modified on it and those created on it; a file without a
      modification time is never found by one. */
  lemma BareDateFinds(value: string, now: int, tz: int, t: Date, modified: int, created: Option<int>)
    requires Bare(Lower(Trim(value))) && DateIn(Lower(Trim(value))) == Some(t) && Valid(t)
    ensures ParseDateRange(value, now, tz).Some?
    ensures ModifiedMatches(ParseDateRange(value, now, tz).value, modified) <==> modified != 0 && DateAt(modified, tz) == t
    ensures CreatedMatches(ParseDateRange(value, now, tz).value, created) <==> created.Some? && DateAt(created.value, tz) == t
  {
    hide ParseDateRange, DateIn, DateAt, Bare, Lower, Trim;
    BareDateIsItsDay(value, now, tz, t, modified);
    if created.Some? {
      BareDateIsItsDay(value, now, tz, t, created.value);
    }
  }

  lemma KeywordsStartWithLetters(v: string)
    requires v != [] && (v[0] == '>' || v[0] == '<')
    ensures v != "today" && v != "yesterday" && v != "week" && v != "month" && v != "year"
  {
  }

  /** Comparisons are comparisons of local dates. */
  lemma ComparisonsCompareDates(value: string, now: int, tz: int, t: Date, unix: int)
    requires Valid(t) && SplitDots(Lower(Trim(value))).None?
    ensures var v := Lower(Trim(value)); ">=" <= v && DateIn(v[2..]) == Some(t) ==>
              ParseDateRange(value, now, tz).Some? && (Within(ParseDateRange(value, now, tz).value, unix) <==> !Before(DateAt(unix, tz), t))
    ensures var v := Lower(Trim(value)); "<=" <= v && DateIn(v[2..]) == Some(t) ==>
              ParseDateRange(value, now, tz).Some? && (Within(ParseDateRange(value, now, tz).value, unix) <==> !Before(t, DateAt(unix, tz)))
    ensures var v := Lower(Trim(value)); ">" <= v && !(">=" <= v) && DateIn(v[1..]) == Some(t) ==>
              ParseDateRange(value, now, tz).Some? && (Within(ParseDateRange(value, now, tz).value, unix) <==> Before(t, DateAt(unix, tz)))
    ensures var v := Lower(Trim(value)); "<" <= v && !("<=" <= v) && DateIn(v[1..]) == Some(t) ==>
              ParseDateRange(value, now, tz).Some? && (Within(ParseDateRange(value, now, tz).value, unix) <==> Before(DateAt(unix, tz), t))
  {
    hide DayNumber, DateOf, DateIn, SplitDots, Lower, Trim, Before;
    var v := Lower(Trim(value));
    DaySpan(DayNumber(t), DayNumber(t), tz, unix);
    DaySpan(DayNumber(t) + 1, DayNumber(t) - 1, tz, unix);
    DayOrder(t, unix, tz);
    if v != [] && (v[0] == '>' || v[0] == '<') {
      KeywordsStartWithLetters(v);
    }
  }

  lemma {:induction false} SplitNeedsADot(v: string)
    requires SplitDots(v).Some?
    ensures '.' in v
  {
    if v[0] != '.' || v[1] != '.' {
      SplitNeedsADot(v[1..]);
      assert v == [v[0]] + v[1..];
    }
  }

  /** A range is all local dates from its first to its last. */
  lemma RangeIsItsDays(value: string, now: int, tz: int, lo: Date, hi: Date, unix: int)
    requires Valid(lo) && Valid(hi)
    requires var v := Lower(Trim(value)); SplitDots(v).Some? && DateIn(SplitDots(v).value.0) == Some(lo) && DateIn(SplitDots(v).value.1) == Some(hi)
    ensures ParseDateRange(value, now, tz).Some?
    ensures Within(ParseDateRange(value, now, tz).value, unix) <==> !Before(DateAt(unix, tz), lo) && !Before(hi, DateAt(unix, tz))
  {
    hide DayNumber, DateOf, DateIn, Lower, Trim, Before, SplitDots;
    DaySpan(DayNumber(lo), DayNumber(hi), tz, unix);
    DayOrder(lo, unix, tz);
    DayOrder(hi, unix, tz);
    SplitNeedsADot(Lower(Trim(value)));
  }

  /** "today" accepts the current local day and everything after it. */
  lemma TodayIsFromNowOn(value: string, now: int, tz: int, unix: int)
    requires Lower(Trim(value)) == "today"
    ensures ParseDateRange(value, now, tz).Some?
    ensures Within(ParseDateRange(value, now, tz).value, unix) <==> !Before(DateAt(unix, tz), DateAt(now, tz))
  {
    hide DayNumber, DateOf, Lower, Trim, Before, SplitDots, CivilToUnix;
    var day := (now + tz) / DAY;
    DayNumberOfDate(day);
    DayOrder(DateOf(day), unix, tz);
    DaySpan(day, day, tz, unix);
  }

  /** "yesterday" accepts exactly the moments whose next day is today. */
  lemma YesterdayIsTheDayBefore(value: string, now: int, tz: int, unix: int)
    requires Lower(Trim(value)) == "yesterday"
    ensures ParseDateRange(value, now, tz).Some? && Valid(DateAt(unix, tz))
    ensures Within(ParseDateRange(value, now, tz).value, unix) <==> NextDay(DateAt(unix, tz)) == DateAt(now, tz)
  {
    hide DayNumber, DateOf, Lower, Trim, Before, SplitDots, CivilToUnix, NextDay;
    var day, then_ := (now + tz) / DAY, (unix + tz) / DAY;
    DayNumberOfDate(then_);
    DayNumberOfDate(day);
    DayNumberCountsDays(DateOf(then_));
    DateOfDayNumber(NextDay(DateOf(then_)));
    DaySpan(day - 1, day - 1, tz, unix);
  }

  // ---------------------------------------------------------------- printed dates

  function DigitOf(n: nat): char
    requires n < 10
  {
    '0' + n as char
  }

  /** A number in decimal, with zeros in front up to the width. */
  function Padded(n: nat, width: nat): (s: string)
    ensures AllDigits(s) && |s| >= 1 && |s| >= width
    decreases n + width
  {
    if n < 10 && width <= 1 then [DigitOf(n)] else Padded(n / 10, if width > 0 then width - 1 else 0) + [DigitOf(n % 10)]
  }

  predicate AllDigits(s: string) { forall i :: 0 <= i < |s| ==> IsDigit(s[i]) }

  /** The range of the year a printed date has. */
  predicate InI32(y: int) { -0x8000_0000 <= y < 0x8000_0000 }

  /** A date as it is printed: the sign of a negative year takes one of its four places. */
  function FormatDate(t: Date): string
    requires Valid(t)
  {
    (if t.year >= 0 then Padded(t.year, 4) else "-" + Padded(Negated(t.year), 3)) + "-" + Padded(t.month, 2) + "-" + Padded(t.day, 2)
  }

  lemma {:induction false} PaddedReads(n: nat, width: nat)
    ensures Digits(Padded(n, width)) == Some(n)
    decreases n + width
  {
    var s := Padded(n, width);
    if n < 10 && width <= 1 {
      assert s == [DigitOf(n)];
    } else {
      PaddedReads(n / 10, if width > 0 then width - 1 else 0);
      assert s[..|s| - 1] == Padded(n / 10, if width > 0 then width - 1 else 0);
      assert s[|s| - 1] == DigitOf(n % 10);
    }
  }

  lemma {:induction false} PieceUpToDash(s: string, rest: string)
    requires AllDigits(s)
    ensures Pieces(s + "-" + rest) == [s] + Pieces(rest)
  {
    var all := s + "-" + rest;
    if s == [] {
      assert all[1..] == rest && all[0] == '-';
      assert Pieces(all) == [[]] + Pieces(rest);
    } else {
      PieceUpToDash(s[1..], rest);
      assert all[1..] == s[1..] + "-" + rest && all[0] == s[0] != '-' by {
        assert IsDigit(s[0]);
      }
      assert [s[0]] + s[1..] == s;
      assert Pieces(all) == [s] + Pieces(rest);
    }
  }

  lemma {:induction false} OnePiece(s: string)
    requires AllDigits(s)
    ensures Pieces(s) == [s]
  {
    if s != [] {
      OnePiece(s[1..]);
      assert IsDigit(s[0]);
      assert [s[0]] + s[1..] == s;
    }
  }

  /** A printed date falls into year, month and day at its dashes; a negative year adds an empty piece. */
  lemma PiecesOfPrinted(t: Date)
    requires Valid(t)
    ensures Pieces(FormatDate(t)) ==
            if t.year >= 0 then [Padded(t.year, 4), Padded(t.month, 2), Padded(t.day, 2)]
            else [[], Padded(Negated(t.year), 3), Padded(t.month, 2), Padded(t.day, 2)]
  {
    hide Padded, Pieces, DaysInMonth;
    var m, d := Padded(t.month, 2), Padded(t.day, 2);
    var y := if t.year >= 0 then Padded(t.year, 4) else Padded(Negated(t.year), 3);
    PieceUpToDash(y, m + "-" + d);
    PieceUpToDash(m, d);
    OnePiece(d);
    var positive := y + "-" + (m + "-" + d);
    if t.year >= 0 {
      assert FormatDate(t) == positive;
    } else {
      assert FormatDate(t) == [] + "-" + positive;
      PieceUpToDash([], positive);
    }
  }

  /** A printed date has digits and dashes only. */
  lemma PrintedCharacters(t: Date)
    requires Valid(t)
    ensures FormatDate(t) != [] && forall i :: 0 <= i < |FormatDate(t)| ==> IsDigit(FormatDate(t)[i]) || FormatDate(t)[i] == '-'
  {
    hide Padded, DaysInMonth;
  }

  /** What is printed reads back as the date it shows exactly when its year is not negative. */
  lemma PrintedDateReadsBackIff(t: Date)
    requires Valid(t) && InI32(t.year)
    ensures DateIn(FormatDate(t)) == Some(t) <==> t.year >= 0
  {
    hide Padded, Digits, Pieces, FormatDate;
    PiecesOfPrinted(t);
    PrintedCharacters(t);
    NoSpaces(FormatDate(t));
    if t.year >= 0 {
      PaddedReads(t.year, 4);
      PaddedReads(t.month, 2);
      PaddedReads(t.day, 2);
      DigitFirst(Padded(t.year, 4));
      DigitFirst(Padded(t.month, 2));
      DigitFirst(Padded(t.day, 2));
    }
  }

  /** The year before the year zero prints with a sign that the parser takes for a separator. */
  lemma NegativeYearIsLost()
    ensures FormatDate(Date(-1, 1, 1)) == "-001-01-01"
    ensures DateIn("-001-01-01") != Some(Date(-1, 1, 1))
  {
    hide DateIn;
    PrintedDateReadsBackIff(Date(-1, 1, 1));
  }

  lemma DigitFirst(s: string)
    requires AllDigits(s) && s != []
    ensures s[0] != '-' && s[0] != '+'
  {
    assert IsDigit(s[0]);
  }

  lemma NoSpaces(s: string)
    requires s != [] && !IsSpace(s[0]) && !IsSpace(s[|s| - 1])
    ensures Trim(s) == s
  {
  }

  lemma LowerOfPlain(s: string)
    requires forall i :: 0 <= i < |s| ==> !('A' <= s[i] <= 'Z')
    ensures Lower(s) == s
  {
  }

  /** A printed date is plain text to the parser. */
  lemma PrintedDateIsBare(t: Date)
    requires Valid(t)
    ensures Lower(Trim(FormatDate(t))) == FormatDate(t) && Bare(FormatDate(t))
  {
    hide Padded, DaysInMonth, SplitDots, Lower, Trim, FormatDate;
    var s := FormatDate(t);
    PrintedCharacters(t);
    NoSpaces(s);
    LowerOfPlain(s);
    if SplitDots(s).Some? {
      SplitNeedsADot(s);
    }
    assert IsDigit(s[0]) || s[0] == '-';
  }

  // ---------------------------------------------------------------- the date column

  const MINUTE: int := 60
  const YEAR: int := 365 * DAY

  /** A cell of the modified column: nothing for an unknown time, a duration, a day of the year, or a date. */
  datatype Cell = Empty | Ago | DayOfYear(month: int, day: int) | Printed(text: string)

  /** The date the column prints: no offset is added. */
  function ColumnDate(unix: int): Date { DateOf(unix / DAY) }

  function Column(modified: int, now: int): Cell {
    DayNumberOfDate(modified / DAY);
    var diff, t := now - modified, ColumnDate(modified);
    if modified <= 0 then Empty
    else if diff < 0 then (if diff > -MINUTE then Ago else Printed(FormatDate(t)))
    else if diff < 7 * DAY then Ago
    else if diff < YEAR then DayOfYear(t.month, t.day)
    else Printed(FormatDate(t))
  }

  lemma ColumnPrints(modified: int, now: int)
    requires Column(modified, now).Printed?
    ensures modified > 0 && Valid(ColumnDate(modified)) && Column(modified, now).text == FormatDate(ColumnDate(modified))
  {
    DayNumberOfDate(modified / DAY);
  }

  /** A positive moment is not before the epoch. */
  lemma AfterTheEpoch(unix: int)
    requires unix > 0
    ensures ColumnDate(unix).year >= 0
  {
    hide DayNumber, DateOf;
    EpochIsZero();
    DayNumberOfDate(unix / DAY);
    OrderOfDates(DateOf(unix / DAY), Date(1970, 1, 1));
  }

  /** The filter for a date t accepts a moment exactly when the moment is on t under the filter's offset. */
  lemma FilterForPrintedDate(t: Date, unix: int, now: int, tz: int)
    requires Valid(t) && InI32(t.year) && t.year >= 0
    ensures ParseDateRange(FormatDate(t), now, tz).Some?
    ensures Within(ParseDateRange(FormatDate(t), now, tz).value, unix) <==> DateAt(unix, tz) == t
  {
    hide DateIn, ParseDateRange, DateOf, DayNumber, FormatDate, DaysInMonth;
    PrintedDateReadsBackIff(t);
    PrintedDateIsBare(t);
    BareDateIsItsDay(FormatDate(t), now, tz, t, unix);
  }

  /** Two day numbers have one date only if they are equal. */
  lemma SameDateSameDay(a: int, b: int)
    ensures DateOf(a) == DateOf(b) <==> a == b
  {
    hide DayNumber, DateOf;
    DayNumberOfDate(a);
    DayNumberOfDate(b);
  }

  /** Typing the date the column shows accepts the file it is shown for exactly when the filter's offset
      does not move the moment to another day. */
  lemma ShownDateAcceptedIff(modified: int, shownAt: int, now: int, tz: int)
    requires Column(modified, shownAt).Printed? && InI32(ColumnDate(modified).year)
    ensures ParseDateRange(Column(modified, shownAt).text, now, tz).Some?
    ensures ModifiedMatches(ParseDateRange(Column(modified, shownAt).text, now, tz).value, modified) <==>
            (modified + tz) / DAY == modified / DAY
  {
    hide ParseDateRange, DateOf, FormatDate, Column;
    ColumnPrints(modified, shownAt);
    AfterTheEpoch(modified);
    FilterForPrintedDate(ColumnDate(modified), modified, now, tz);
    SameDateSameDay((modified + tz) / DAY, modified / DAY);
  }

  /** For every date: the filter accepts the moment if and only if the column shows that date. */
  ghost predicate FilterFollowsColumn(modified: int, shownAt: int, now: int, tz: int)
    requires Column(modified, shownAt).Printed?
  {
    forall t: Date {:trigger FormatDate(t)} :: Valid(t) && InI32(t.year) && t.year >= 0 ==>
      ParseDateRange(FormatDate(t), now, tz).Some? &&
      (ModifiedMatches(ParseDateRange(FormatDate(t), now, tz).value, modified) <==> Column(modified, shownAt).text == FormatDate(t))
  }

  /** Different dates print differently. */
  lemma PrintedOnce(a: Date, b: Date)
    requires Valid(a) && Valid(b) && InI32(a.year) && InI32(b.year) && a.year >= 0 && b.year >= 0 && FormatDate(a) == FormatDate(b)
    ensures a == b
  {
    hide FormatDate, DateIn;
    PrintedDateReadsBackIff(a);
    PrintedDateReadsBackIff(b);
  }

  /** Filter and column agree about a moment exactly when the offset leaves it on its day. */
  lemma FilterFollowsColumnIff(modified: int, shownAt: int, now: int, tz: int)
    requires Column(modified, shownAt).Printed? && InI32(ColumnDate(modified).year)
    ensures FilterFollowsColumn(modified, shownAt, now, tz) <==> (modified + tz) / DAY == modified / DAY
  {
    hide ParseDateRange, DateOf, FormatDate, Column;
    ColumnPrints(modified, shownAt);
    AfterTheEpoch(modified);
    ShownDateAcceptedIff(modified, shownAt, now, tz);
    if (modified + tz) / DAY == modified / DAY {
      forall t: Date | Valid(t) && InI32(t.year) && t.year >= 0
        ensures ParseDateRange(FormatDate(t), now, tz).Some?
        ensures ModifiedMatches(ParseDateRange(FormatDate(t), now, tz).value, modified) <==> Column(modified, shownAt).text == FormatDate(t)
      {
        FilterForPrintedDate(t, modified, now, tz);
        if Column(modified, shownAt).text == FormatDate(t) {
          PrintedOnce(t, ColumnDate(modified));
        }
      }
    }
  }

  /** They agree about every moment exactly when the filter's offset is zero. */
  lemma AgreementNeedsNoOffset(now: int, tz: int)
    ensures (forall modified, shownAt :: Column(modified, shownAt).Printed? && InI32(ColumnDate(modified).year) ==>
               FilterFollowsColumn(modified, shownAt, now, tz)) <==> tz == 0
  {
    hide FilterFollowsColumn, DateOf, FormatDate;
    forall modified, shownAt | Column(modified, shownAt).Printed? && InI32(ColumnDate(modified).year)
      ensures FilterFollowsColumn(modified, shownAt, now, tz) <==> (modified + tz) / DAY == modified / DAY
    {
      FilterFollowsColumnIff(modified, shownAt, now, tz);
    }
    if tz != 0 {
      var edge := if tz > 0 then 2 * DAY - 1 else DAY;
      SecondOfJanuary();
      assert Column(edge, edge + YEAR).Printed?;
      assert (edge + tz) / DAY != edge / DAY;
    }
  }

  lemma SecondOfJanuary()
    ensures DateOf(0) == Date(1970, 1, 1) && DateOf(1) == Date(1970, 1, 2)
  {
    hide DateOf, DayNumber;
    EpochIsZero();
    DateOfDayNumber(Date(1970, 1, 1));
    DayNumberCountsDays(Date(1970, 1, 1));
    DateOfDayNumber(Date(1970, 1, 2));
  }

  /** Half an hour before midnight, one hour east of the column's zone: the date shown finds nothing. */
  lemma ColumnAndFilterDisagree(now: int)
    ensures Column(84600, 84600 + YEAR) == Printed(FormatDate(Date(1970, 1, 1)))
    ensures ParseDateRange(FormatDate(Date(1970, 1, 1)), now, 3600).Some?
    ensures !ModifiedMatches(ParseDateRange(FormatDate(Date(1970, 1, 1)), now, 3600).value, 84600)
  {
    hide FormatDate, ParseDateRange;
    SecondOfJanuary();
    ShownDateAcceptedIff(84600, 84600 + YEAR, now, 3600);
  }
}
