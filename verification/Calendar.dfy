/** Two conversions between dates and day numbers that were written independently of each other, and the
    proleptic Gregorian calendar (section 3.2.1 of ISO 8601:2004) they must both agree with. */
module Calendar {
  datatype Date = Date(year: int, month: int, day: int)

  // ---------------------------------------------------------------- the calendar

  predicate IsLeap(y: int) { y % 4 == 0 && (y % 100 != 0 || y % 400 == 0) }

  function DaysInMonth(y: int, m: int): int
    requires 1 <= m <= 12
  {
    if m == 2 then (if IsLeap(y) then 29 else 28)
    else if m == 4 || m == 6 || m == 9 || m == 11 then 30
    else 31
  }

  predicate Valid(t: Date) { 1 <= t.month <= 12 && 1 <= t.day <= DaysInMonth(t.year, t.month) }

  function NextDay(t: Date): (r: Date)
    requires Valid(t)
    ensures Valid(r)
  {
    if t.day < DaysInMonth(t.year, t.month) then t.(day := t.day + 1)
    else if t.month < 12 then Date(t.year, t.month + 1, 1)
    else Date(t.year + 1, 1, 1)
  }

  predicate Before(a: Date, b: Date) {
    a.year < b.year || (a.year == b.year && (a.month < b.month || (a.month == b.month && a.day < b.day)))
  }

  // ---------------------------------------------------------------- the two conversions

  /** Division as the source language has it, towards zero. */
  function Truncated(x: int, n: int): int
    requires n > 0
  {
    if x >= 0 then x / n else Negated(Negated(x) / n)
  }

  function Negated(x: int): int { -x }

  /** Day number of a date that passed the parser's range checks: any month, any day up to 31. */
  function DayNumber(t: Date): int {
    var y := if t.month <= 2 then t.year - 1 else t.year;
    var era := Truncated(if y >= 0 then y else y - 399, 400);
    var yoe := y - era * 400;
    var mp := (t.month + 9) % 12;
    var doy := (153 * mp + 2) / 5 + t.day - 1;
    var doe := yoe * 365 + yoe / 4 - yoe / 100 + doy;
    era * 146097 + doe - 719468
  }

  /** The date of a day number. */
  function DateOf(days: int): Date {
    var z := days + 719468;
    var era := Truncated(if z >= 0 then z else z - 146096, 146097);
    DateInEra(era, z - era * 146097)
  }

  /** The date of day doe of an era. */
  function DateInEra(era: int, doe: int): Date {
    var yoe := (doe - doe / 1460 + doe / 36524 - doe / 146096) / 365;
    var y := yoe + era * 400;
    var doy := doe - (365 * yoe + yoe / 4 - yoe / 100);
    var mp := (5 * doy + 2) / 153;
    var d := doy - (153 * mp + 2) / 5 + 1;
    var m := if mp < 10 then mp + 3 else mp - 9;
    Date(if m <= 2 then y + 1 else y, m, d)
  }

  // ---------------------------------------------------------------- eras

  /** Rounding down by way of truncation, as both conversions do it. */
  lemma EraIsFloor(x: int, n: int)
    requires n > 0
    ensures Truncated(if x >= 0 then x else x - (n - 1), n) == x / n
  {
    if x < 0 {
      var q := x / n;
      var r := x % n;
      assert x == n * q + r;
      var a := Negated(x - (n - 1));
      assert a == n * Negated(q) + (n - 1 - r) by {
        assert n * Negated(q) == -(n * q);
      }
      Quotient(a, n, Negated(q));
    }
  }

  lemma Quotient(x: int, n: int, q: int)
    requires n > 0 && n * q <= x < n * q + n
    ensures x / n == q
  {
    var p := x / n;
    assert x == n * p + x % n;
    if p < q {
      Scale(n, p + 1, q);
    } else if p > q {
      Scale(n, q + 1, p);
    }
  }

  lemma Scale(n: int, a: int, b: int)
    requires n > 0 && a <= b
    ensures n * a <= n * b
  {
  }

  // ---------------------------------------------------------------- inside an era

  /** Days of the era before its year yoe, which starts in March. */
  function YearStart(yoe: int): int { yoe * 365 + yoe / 4 - yoe / 100 }

  /** The year yoe ends with a 29 February. */
  predicate LongYear(yoe: int) { yoe % 4 == 3 && (yoe % 100 != 99 || yoe == 399) }

  /** The year of the era a day falls in, by the second conversion's formula. */
  function YearOfEra(doe: int): int { (doe - doe / 1460 + doe / 36524 - doe / 146096) / 365 }

  lemma YearParts(c: int, q: int, r: int)
    requires 0 <= c <= 3 && 0 <= q <= 24 && 0 <= r <= 3
    ensures var yoe := 100 * c + 4 * q + r; 0 <= yoe <= 399 && YearStart(yoe) == 36524 * c + 1461 * q + 365 * r
    ensures LongYear(100 * c + 4 * q + r) <==> r == 3 && (q < 24 || c == 3)
  {
    var yoe := 100 * c + 4 * q + r;
    assert yoe / 4 == 25 * c + q;
    assert yoe / 100 == c;
    assert yoe % 4 == r;
    assert yoe % 100 == 4 * q + r;
  }

  /** The formula finds the year from any of its days. */
  lemma YearFound(c: int, q: int, r: int, doy: int)
    requires 0 <= c <= 3 && 0 <= q <= 24 && 0 <= r <= 3 && 0 <= doy
    requires doy <= if r == 3 && (q < 24 || c == 3) then 365 else 364
    ensures YearOfEra(36524 * c + 1461 * q + 365 * r + doy) == 100 * c + 4 * q + r
  {
    var doe := 36524 * c + 1461 * q + 365 * r + doy;
    var rest := 1461 * q + 365 * r + doy;
    var e := if 24 * c + q + 365 * r + doy >= 1460 then 1 else 0;
    assert doe == 1460 * (25 * c + q) + (24 * c + q + 365 * r + doy);
    assert doe / 1460 == 25 * c + q + e;
    if rest == 36524 {
      assert c == 3 && q == 24 && r == 3 && doy == 365;
      assert doe == 146096;
    } else {
      assert 0 <= rest < 36524;
      assert doe / 36524 == c;
      assert doe / 146096 == 0;
      assert doe - doe / 1460 + doe / 36524 - doe / 146096 == 365 * (100 * c + 4 * q + r) + (doy - e);
      assert 0 <= doy - e <= 364;
    }
  }

  /** Every day of an era lies in one of its years. */
  lemma DayInYear(doe: int) returns (c: int, q: int, r: int, doy: int)
    requires 0 <= doe <= 146096
    ensures 0 <= c <= 3 && 0 <= q <= 24 && 0 <= r <= 3 && 0 <= doy
    ensures doy <= if r == 3 && (q < 24 || c == 3) then 365 else 364
    ensures doe == 36524 * c + 1461 * q + 365 * r + doy
  {
    c := if doe / 36524 <= 3 then doe / 36524 else 3;
    var a := doe - 36524 * c;
    q := if a / 1461 <= 24 then a / 1461 else 24;
    var b := a - 1461 * q;
    r := if b / 365 <= 3 then b / 365 else 3;
    doy := b - 365 * r;
  }

  // ---------------------------------------------------------------- inside a year

  /** Days of a March-based year before its month mp. */
  function MonthStart(mp: int): int { (153 * mp + 2) / 5 }

  /** Length of month mp counted from March; the last one is February. */
  function MonthLength(mp: int): int {
    if mp == 11 then 29 else if mp == 1 || mp == 3 || mp == 6 || mp == 8 then 30 else 31
  }

  lemma MonthFound(mp: int, d: int)
    requires 0 <= mp <= 11 && 1 <= d <= MonthLength(mp)
    ensures (5 * (MonthStart(mp) + d - 1) + 2) / 153 == mp
    ensures 0 <= MonthStart(mp) + d - 1 <= 365
    ensures mp < 11 ==> MonthStart(mp + 1) == MonthStart(mp) + MonthLength(mp)
  {
    if mp <= 5 {
      assert mp == 0 || mp == 1 || mp == 2 || mp == 3 || mp == 4 || mp == 5;
    } else {
      assert mp == 6 || mp == 7 || mp == 8 || mp == 9 || mp == 10 || mp == 11;
    }
  }

  lemma DayInMonth(doy: int)
    requires 0 <= doy <= 365
    ensures var mp := (5 * doy + 2) / 153; 0 <= mp <= 11 && 1 <= doy - MonthStart(mp) + 1 <= MonthLength(mp)
    ensures doy <= 364 && (5 * doy + 2) / 153 == 11 ==> doy - MonthStart(11) + 1 <= 28
  {
    var mp := (5 * doy + 2) / 153;
    assert 0 <= mp <= 11;
    if mp <= 5 {
      assert mp == 0 || mp == 1 || mp == 2 || mp == 3 || mp == 4 || mp == 5;
    } else {
      assert mp == 6 || mp == 7 || mp == 8 || mp == 9 || mp == 10 || mp == 11;
    }
  }

  // ---------------------------------------------------------------- the conversions in parts

  function MarchYear(t: Date): int { if t.month <= 2 then t.year - 1 else t.year }

  function MarchMonth(t: Date): int { (t.month + 9) % 12 }

  /** Days before March-based year y. */
  function YearNumber(y: int): int { y / 400 * 146097 + YearStart(y % 400) }

  lemma NumberInParts(t: Date)
    ensures DayNumber(t) == YearNumber(MarchYear(t)) + MonthStart(MarchMonth(t)) + t.day - 1 - 719468
  {
    EraIsFloor(MarchYear(t), 400);
    assert MarchYear(t) == 400 * (MarchYear(t) / 400) + MarchYear(t) % 400;
  }

  lemma SplitYear(yoe: int) returns (c: int, q: int, r: int)
    requires 0 <= yoe <= 399
    ensures 0 <= c <= 3 && 0 <= q <= 24 && 0 <= r <= 3 && yoe == 100 * c + 4 * q + r
  {
    c, q, r := yoe / 100, yoe % 100 / 4, yoe % 4;
  }

  lemma LongIsLeap(y: int)
    ensures IsLeap(y + 1) <==> LongYear(y % 400)
  {
    var yoe := y % 400;
    assert y == 400 * (y / 400) + yoe;
    LongInEra(yoe);
    Remainder(y + 1, yoe + 1, y / 400, 4, 100);
    Remainder(y + 1, yoe + 1, y / 400, 100, 4);
    Remainder(y + 1, yoe + 1, y / 400, 400, 1);
  }

  lemma LongInEra(yoe: int)
    requires 0 <= yoe <= 399
    ensures LongYear(yoe) <==> (yoe + 1) % 4 == 0 && ((yoe + 1) % 100 != 0 || (yoe + 1) % 400 == 0)
  {
  }

  lemma Remainder(x: int, a: int, k: int, n: int, m: int)
    requires n > 0 && m > 0 && n * m == 400 && x == 400 * k + a
    ensures x % n == a % n
  {
    var q := a / n;
    assert a == n * q + a % n;
    assert x == n * (m * k) + n * q + a % n;
    assert n * (m * k) + n * q == n * (m * k + q);
    Quotient(x, n, m * k + q);
    assert x == n * (x / n) + x % n;
  }

  /** A March-based year has 365 days, or 366 when it ends in a leap year's February. */
  lemma YearStep(y: int)
    ensures YearNumber(y + 1) == YearNumber(y) + if IsLeap(y + 1) then 366 else 365
  {
    hide YearStart, LongYear;
    LongIsLeap(y);
    var yoe := y % 400;
    assert y == 400 * (y / 400) + yoe;
    if yoe == 399 {
      Quotient(y + 1, 400, y / 400 + 1);
    } else {
      Quotient(y + 1, 400, y / 400);
    }
    var c, q, r := SplitYear(yoe);
    YearParts(c, q, r);
    if r < 3 {
      YearParts(c, q, r + 1);
    } else if q < 24 {
      YearParts(c, q + 1, 0);
    } else {
      YearParts(if c < 3 then c + 1 else 0, 0, 0);
    }
  }

  /** In February the month length of the March-based year is the calendar's except for the leap day. */
  lemma LengthOfMonth(t: Date)
    requires 1 <= t.month <= 12
    ensures 0 <= MarchMonth(t) <= 11
    ensures t.month != 2 ==> MonthLength(MarchMonth(t)) == DaysInMonth(t.year, t.month) && MarchMonth(t) != 11
    ensures t.month == 2 ==> MarchMonth(t) == 11
  {
  }

  // ---------------------------------------------------------------- day numbers count days

  lemma EpochIsZero()
    ensures Valid(Date(1970, 1, 1)) && DayNumber(Date(1970, 1, 1)) == 0
  {
  }

  /** One day later is one more, over months, leap years, centuries and eras. */
  lemma DayNumberCountsDays(t: Date)
    requires Valid(t)
    ensures DayNumber(NextDay(t)) == DayNumber(t) + 1
  {
    hide DayNumber, DaysInMonth, NextDay;
    if t.day < DaysInMonth(t.year, t.month) {
      WithinMonth(t);
    } else if t.month == 2 {
      EndOfFebruary(t);
    } else {
      EndOfMonth(t);
    }
  }

  lemma WithinMonth(t: Date)
    requires Valid(t) && t.day < DaysInMonth(t.year, t.month)
    ensures DayNumber(NextDay(t)) == DayNumber(t) + 1
  {
    hide DayNumber, YearNumber, MonthStart;
    NumberInParts(t);
    NumberInParts(NextDay(t));
  }

  lemma EndOfFebruary(t: Date)
    requires Valid(t) && t.month == 2 && t.day == DaysInMonth(t.year, 2)
    ensures DayNumber(NextDay(t)) == DayNumber(t) + 1
  {
    hide DayNumber, YearNumber;
    NumberInParts(t);
    NumberInParts(NextDay(t));
    YearStep(t.year - 1);
  }

  lemma EndOfMonth(t: Date)
    requires Valid(t) && t.month != 2 && t.day == DaysInMonth(t.year, t.month)
    ensures DayNumber(NextDay(t)) == DayNumber(t) + 1
  {
    hide DayNumber, YearNumber, MonthStart, DaysInMonth;
    NumberInParts(t);
    NumberInParts(NextDay(t));
    LengthOfMonth(t);
    MonthFound(MarchMonth(t), 1);
  }

  /** Days in the year yoe of an era. */
  function LastDay(yoe: int): int { if LongYear(yoe) then 365 else 364 }

  lemma YearFromDay(yoe: int, doy: int)
    requires 0 <= yoe <= 399 && 0 <= doy <= LastDay(yoe)
    ensures YearOfEra(YearStart(yoe) + doy) == yoe && 0 <= YearStart(yoe) + doy <= 146096
  {
    hide YearStart, YearOfEra, LongYear;
    var c, q, r := SplitYear(yoe);
    YearParts(c, q, r);
    YearFound(c, q, r, doy);
  }

  lemma EraFromDay(days: int, era: int, doe: int)
    requires days + 719468 == era * 146097 + doe && 0 <= doe <= 146096
    ensures var z := days + 719468; Truncated(if z >= 0 then z else z - 146096, 146097) == era
  {
    hide Truncated;
    Quotient(days + 719468, 146097, era);
    EraIsFloor(days + 719468, 146097);
  }

  /** A valid date is a day of its March-based year and of that year's month. */
  lemma DayOfMarchYear(t: Date)
    requires Valid(t)
    ensures var doy := MonthStart(MarchMonth(t)) + t.day - 1; 0 <= doy <= LastDay(MarchYear(t) % 400)
    ensures var doy := MonthStart(MarchMonth(t)) + t.day - 1; (5 * doy + 2) / 153 == MarchMonth(t)
  {
    hide LongYear, IsLeap;
    LengthOfMonth(t);
    MonthFound(MarchMonth(t), t.day);
    LongIsLeap(MarchYear(t));
  }

  /** What the second conversion makes of an era, a year in it and a day of that year. */
  lemma DateFromParts(days: int, era: int, yoe: int, doy: int)
    requires days + 719468 == era * 146097 + YearStart(yoe) + doy && 0 <= yoe <= 399 && 0 <= doy <= LastDay(yoe)
    ensures var mp := (5 * doy + 2) / 153; var m := if mp < 10 then mp + 3 else mp - 9;
            DateOf(days) == Date(if m <= 2 then yoe + era * 400 + 1 else yoe + era * 400, m, doy - MonthStart(mp) + 1)
  {
    YearFromDay(yoe, doy);
    EraFromDay(days, era, YearStart(yoe) + doy);
    hide DateInEra, YearOfEra, YearStart, MonthStart, LongYear;
    DateInYear(era, YearStart(yoe) + doy, yoe, doy);
  }

  lemma DateInYear(era: int, doe: int, yoe: int, doy: int)
    requires YearOfEra(doe) == yoe && doe == YearStart(yoe) + doy
    ensures var mp := (5 * doy + 2) / 153; var m := if mp < 10 then mp + 3 else mp - 9;
            DateInEra(era, doe) == Date(if m <= 2 then yoe + era * 400 + 1 else yoe + era * 400, m, doy - MonthStart(mp) + 1)
  {
  }

  /** The second conversion undoes the first on every valid date. */
  lemma DateOfDayNumber(t: Date)
    requires Valid(t)
    ensures DateOf(DayNumber(t)) == t
  {
    hide YearStart, IsLeap, DayNumber, LongYear, MonthStart, LastDay, DateOf;
    var y := MarchYear(t);
    NumberInParts(t);
    DayOfMarchYear(t);
    assert y == 400 * (y / 400) + y % 400;
    DateFromParts(DayNumber(t), y / 400, y % 400, MonthStart(MarchMonth(t)) + t.day - 1);
  }

  /** The first conversion undoes the second on every day, and the second only gives valid dates. */
  lemma DayNumberOfDate(days: int)
    ensures Valid(DateOf(days)) && DayNumber(DateOf(days)) == days
  {
    hide YearStart, IsLeap, DayNumber, LongYear, DateOf;
    var z := days + 719468;
    var era, doe := z / 146097, z % 146097;
    assert z == 146097 * era + doe;
    var c, q, r, doy := DayInYear(doe);
    YearParts(c, q, r);
    var yoe := 100 * c + 4 * q + r;
    DateFromParts(days, era, yoe, doy);
    DateFromMarch(days, yoe + era * 400, yoe, era, doy);
  }

  lemma DateFromMarch(days: int, y: int, yoe: int, era: int, doy: int)
    requires y == yoe + era * 400 && 0 <= yoe <= 399 && 0 <= doy <= LastDay(yoe)
    requires days + 719468 == era * 146097 + YearStart(yoe) + doy
    requires var mp := (5 * doy + 2) / 153; var m := if mp < 10 then mp + 3 else mp - 9;
             DateOf(days) == Date(if m <= 2 then y + 1 else y, m, doy - MonthStart(mp) + 1)
    ensures Valid(DateOf(days)) && DayNumber(DateOf(days)) == days
  {
    hide YearStart, IsLeap, DayNumber, LongYear, DateOf, MonthStart;
    DayInMonth(doy);
    Quotient(y, 400, era);
    LongIsLeap(y);
    LengthOfMonth(DateOf(days));
    NumberInParts(DateOf(days));
  }

  /** The parser takes day 31 in any month; such a date names a day of the next month, and comes back as
      itself exactly when the month has that day. */
  lemma RoundTripIffDayExists(t: Date)
    requires 1 <= t.month <= 12 && 1 <= t.day <= 31
    ensures DateOf(DayNumber(t)) == t <==> t.day <= DaysInMonth(t.year, t.month)
  {
    DayNumberOfDate(DayNumber(t));
    if t.day <= DaysInMonth(t.year, t.month) {
      DateOfDayNumber(t);
    }
  }

  /** The thirtieth of February comes back as the second of March. */
  lemma ThirtiethOfFebruary()
    ensures DateOf(DayNumber(Date(2023, 2, 30))) == Date(2023, 3, 2)
  {
    hide DateOf, DayNumber;
    NumberInParts(Date(2023, 2, 30));
    NumberInParts(Date(2023, 3, 2));
    YearStep(2022);
    DateOfDayNumber(Date(2023, 3, 2));
  }

  // ---------------------------------------------------------------- order

  lemma {:induction false} LaterNumberIsLaterDate(a: Date, b: Date)
    requires Valid(a) && Valid(b) && DayNumber(a) < DayNumber(b)
    ensures Before(a, b)
    decreases DayNumber(b) - DayNumber(a)
  {
    hide DayNumber, DateOf;
    var eve := DateOf(DayNumber(b) - 1);
    DayNumberOfDate(DayNumber(b) - 1);
    DayNumberCountsDays(eve);
    DateOfDayNumber(NextDay(eve));
    DateOfDayNumber(b);
    if DayNumber(a) < DayNumber(eve) {
      LaterNumberIsLaterDate(a, eve);
    } else {
      DateOfDayNumber(a);
      DateOfDayNumber(eve);
    }
  }

  /** Valid dates are ordered as their day numbers are. */
  lemma OrderOfDates(a: Date, b: Date)
    requires Valid(a) && Valid(b)
    ensures Before(a, b) <==> DayNumber(a) < DayNumber(b)
  {
    hide DayNumber, DateOf;
    if DayNumber(a) < DayNumber(b) {
      LaterNumberIsLaterDate(a, b);
    } else if DayNumber(b) < DayNumber(a) {
      LaterNumberIsLaterDate(b, a);
    } else {
      DateOfDayNumber(a);
      DateOfDayNumber(b);
    }
  }
}
