/** Which texts are dates: exactly three numbers between dashes, in whatever width they are written, with
    blanks around them, month and day in range; and what the other pieces of a date term's syntax split. */
module DateTexts {
  import opened Calendar
  import opened TextOrder
  import opened DateFilter

  /** Blanks and tabs. */
  predicate Blanks(s: string) { forall i :: 0 <= i < |s| ==> s[i] == ' ' || s[i] == '\t' }

  lemma {:induction false} BlanksBeforeGo(b: string, s: string)
    requires Blanks(b)
    ensures TrimStart(b + s) == TrimStart(s)
  {
    if b == [] {
      assert b + s == s;
    } else {
      assert (b + s)[1..] == b[1..] + s;
      BlanksBeforeGo(b[1..], s);
    }
  }

  lemma {:induction false} BlanksAfterGo(s: string, b: string)
    requires Blanks(b)
    ensures TrimEnd(s + b) == TrimEnd(s)
  {
    if b == [] {
      assert s + b == s;
    } else {
      var n := |b| - 1;
      assert (s + b)[..|s + b| - 1] == s + b[..n];
      assert (s + b)[|s + b| - 1] == b[n];
      BlanksAfterGo(s, b[..n]);
    }
  }

  lemma TrimmedIs(before: string, s: string, after: string)
    requires Blanks(before) && Blanks(after) && s != [] && !IsSpace(s[0]) && !IsSpace(s[|s| - 1])
    ensures Trim(before + s + after) == s
  {
    assert before + s + after == before + (s + after);
    BlanksBeforeGo(before, s + after);
    assert (s + after)[0] == s[0];
    BlanksAfterGo(s, after);
  }

  /** Three numbers with dashes between, in decimal, each with any number of leading zeros. */
  function Dashed(y: nat, m: nat, d: nat, wy: nat, wm: nat, wd: nat): string {
    Padded(y, wy) + "-" + (Padded(m, wm) + "-" + Padded(d, wd))
  }

  lemma NumeralReads(n: nat, width: nat)
    ensures ParseI64(Padded(n, width)) == (if n < 0x8000_0000_0000_0000 then Some(n) else None)
    ensures ParseU32(Padded(n, width)) == (if n < 0x1_0000_0000 then Some(n) else None)
  {
    hide Padded, Digits;
    PaddedReads(n, width);
    DigitFirst(Padded(n, width));
  }

  lemma DashedPieces(y: nat, m: nat, d: nat, wy: nat, wm: nat, wd: nat)
    ensures Pieces(Dashed(y, m, d, wy, wm, wd)) == [Padded(y, wy), Padded(m, wm), Padded(d, wd)]
    ensures var s := Dashed(y, m, d, wy, wm, wd); s != [] && !IsSpace(s[0]) && !IsSpace(s[|s| - 1])
  {
    hide Padded, Pieces;
    PieceUpToDash(Padded(y, wy), Padded(m, wm) + "-" + Padded(d, wd));
    PieceUpToDash(Padded(m, wm), Padded(d, wd));
    OnePiece(Padded(d, wd));
    var s, last := Dashed(y, m, d, wy, wm, wd), Padded(d, wd);
    assert IsDigit(Padded(y, wy)[0]) && IsDigit(last[|last| - 1]);
    assert s[0] == Padded(y, wy)[0] && s[|s| - 1] == last[|last| - 1];
  }

  /** Three numbers between dashes are read as a date exactly when the month is one of twelve, the day is at most
      31 in whatever month, and the year fits 64 bits: with one digit or many, and with blanks around. */
  lemma DashedIsReadIff(y: nat, m: nat, d: nat, wy: nat, wm: nat, wd: nat, before: string, after: string)
    requires Blanks(before) && Blanks(after)
    ensures DateIn(before + Dashed(y, m, d, wy, wm, wd) + after) ==
            if 1 <= m <= 12 && 1 <= d <= 31 && y < 0x8000_0000_0000_0000 then Some(Date(y, m, d)) else None
  {
    hide Padded, Pieces, Digits, ParseI64, ParseU32, Trim, Dashed;
    DashedPieces(y, m, d, wy, wm, wd);
    TrimmedIs(before, Dashed(y, m, d, wy, wm, wd), after);
    NumeralReads(y, wy);
    NumeralReads(m, wm);
    NumeralReads(d, wd);
  }

  // ---------------------------------------------------------------- and no other text is

  lemma PiecesGrow(c: char, s: string)
    ensures Pieces([c] + s) == if c == '-' then [[]] + Pieces(s) else [[c] + Pieces(s)[0]] + Pieces(s)[1..]
  {
    assert ([c] + s)[1..] == s;
  }

  /** Pieces with dashes between. */
  function Dashing(p: seq<string>): string
    requires p != []
  {
    if |p| == 1 then p[0] else p[0] + "-" + Dashing(p[1..])
  }

  lemma DashingGrows(c: char, p: seq<string>)
    requires p != []
    ensures Dashing([[]] + p) == "-" + Dashing(p)
    ensures Dashing([[c] + p[0]] + p[1..]) == [c] + Dashing(p)
  {
    hide Dashing;
    DashingStarts([], p);
    var rest := p[1..];
    DashingOne(p[0]);
    DashingOne([c] + p[0]);
    assert [] + ("-" + Dashing(p)) == "-" + Dashing(p);
    if |p| == 1 {
      assert p == [p[0]];
      assert rest == [] && [[c] + p[0]] + rest == [[c] + p[0]];
    } else {
      DashingStarts([c] + p[0], rest);
      DashingStarts(p[0], rest);
      assert p == [p[0]] + rest;
      ConsText(c, p[0], "-" + Dashing(rest));
    }
  }

  lemma DashingOne(only: string)
    ensures Dashing([only]) == only
  {
  }

  lemma DashingStarts(first: string, rest: seq<string>)
    requires rest != []
    ensures Dashing([first] + rest) == first + ("-" + Dashing(rest))
  {
    var p := [first] + rest;
    assert |p| > 1 && p[0] == first && p[1..] == rest;
    assert first + "-" + Dashing(rest) == first + ("-" + Dashing(rest));
  }

  lemma ConsText(c: char, a: string, b: string)
    ensures ([c] + a) + b == [c] + (a + b)
  {
  }

  lemma {:induction false} PiecesJoin(s: string)
    ensures Dashing(Pieces(s)) == s
  {
    if s != [] {
      hide Pieces, Dashing;
      var c, t := s[0], s[1..];
      assert s == [c] + t;
      PiecesJoin(t);
      PiecesGrow(c, t);
      DashingGrows(c, Pieces(t));
    }
  }

  lemma ThreePieces(s: string)
    requires |Pieces(s)| == 3
    ensures var p := Pieces(s); s == p[0] + "-" + (p[1] + "-" + p[2])
  {
    var p := Pieces(s);
    PiecesJoin(s);
    assert Dashing(p[1..]) == p[1] + "-" + Dashing(p[1..][1..]) && Dashing(p[1..][1..]) == p[2];
    assert p[0] + "-" + Dashing(p[1..]) == p[0] + "-" + (p[1] + "-" + p[2]);
  }

  /** The number a text of digits spells. */
  ghost predicate Spells(s: string, n: int) { n >= 0 && exists width: nat :: s == Padded(n, width) }

  /** A plus sign may stand before it. */
  ghost predicate SpellsSigned(s: string, n: int) { Spells(s, n) || (s != [] && s[0] == '+' && Spells(s[1..], n)) }

  lemma DigitIs(c: char)
    requires IsDigit(c)
    ensures var n := c as int - '0' as int; 0 <= n < 10 && DigitOf(n) == c
  {
  }

  lemma {:induction false} DigitsSpell(s: string)
    requires Digits(s).Some?
    ensures s == Padded(Digits(s).value, |s|) && Digits(s).value >= 0
  {
    var n, last := |s| - 1, s[|s| - 1];
    DigitIs(last);
    if n > 0 {
      var front := Digits(s[..n]).value;
      DigitsSpell(s[..n]);
      var v := Digits(s).value;
      assert v == front * 10 + (last as int - '0' as int) && v / 10 == front && v % 10 == last as int - '0' as int;
      assert s == s[..n] + [last];
    }
  }

  /** Conversely, what is read as a date is three such numbers between two dashes, in range. */
  lemma OnlyDatesAreRead(s: string)
    requires DateIn(s).Some?
    ensures exists y, m, d :: Trim(s) == y + "-" + (m + "-" + d) &&
              SpellsSigned(y, DateIn(s).value.year) && SpellsSigned(m, DateIn(s).value.month) && SpellsSigned(d, DateIn(s).value.day)
    ensures DateIn(s).value.year >= 0 && 1 <= DateIn(s).value.month <= 12 && 1 <= DateIn(s).value.day <= 31
  {
    hide Trim, Padded, Digits;
    var t := Trim(s);
    ThreePieces(t);
    NoDashInPieces(t);
    var p := Pieces(t);
    SignedIs(p[0]);
    SignedIs(p[1]);
    SignedIs(p[2]);
  }

  lemma SignedIs(s: string)
    ensures ParseU32(s).Some? ==> SpellsSigned(s, ParseU32(s).value)
    ensures ParseI64(s).Some? && (s == [] || s[0] != '-') ==> SpellsSigned(s, ParseI64(s).value)
  {
    hide Padded, Digits;
    if Digits(s).Some? {
      DigitsSpell(s);
    }
    if s != [] && Digits(s[1..]).Some? {
      DigitsSpell(s[1..]);
    }
  }

  lemma {:induction false} NoDashInPieces(s: string)
    ensures forall i, j :: 0 <= i < |Pieces(s)| && 0 <= j < |Pieces(s)[i]| ==> Pieces(s)[i][j] != '-'
  {
    if s != [] {
      NoDashInPieces(s[1..]);
    }
  }

  // ---------------------------------------------------------------- ranges and keywords

  predicate HasDots(s: string) { exists i :: 0 <= i < |s| - 1 && s[i] == '.' && s[i + 1] == '.' }

  /** A range is split at its first two dots, and a text without two dots in a row is none. */
  lemma {:induction false} SplitAtFirstDots(s: string)
    ensures SplitDots(s).Some? <==> HasDots(s)
    ensures SplitDots(s).Some? ==> var (a, b) := SplitDots(s).value; s == a + ".." + b && !HasDots(a + ".")
  {
    if |s| >= 2 {
      var rest := s[1..];
      SplitAtFirstDots(rest);
      assert s == [s[0]] + rest;
      DotsGrow(s[0], rest);
      if !(s[0] == '.' && s[1] == '.') && SplitDots(rest).Some? {
        var (a, b) := SplitDots(rest).value;
        DotsGrow(s[0], a + ".");
        assert [s[0]] + (a + ".") == ([s[0]] + a) + ".";
        assert s == ([s[0]] + a) + ".." + b;
        assert (a + ".")[0] == if a == [] then '.' else rest[0];
      }
    }
  }

  lemma DotsGrow(c: char, s: string)
    ensures HasDots([c] + s) <==> HasDots(s) || (c == '.' && s != [] && s[0] == '.')
  {
    var t := [c] + s;
    if i :| 0 <= i < |s| - 1 && s[i] == '.' && s[i + 1] == '.' {
      assert t[i + 1] == '.' && t[i + 1 + 1] == '.';
    }
    if c == '.' && s != [] && s[0] == '.' {
      assert t[0] == '.' && t[0 + 1] == '.';
    }
    if i :| 0 <= i < |t| - 1 && t[i] == '.' && t[i + 1] == '.' && i > 0 {
      assert s[i - 1] == '.' && s[i - 1 + 1] == '.';
    }
  }

  /** The relative terms reach back 7, 30 and 365 days of 86400 seconds from now, to the second, and have no end. */
  lemma RelativeTermsReachBack(value: string, now: int, tz: int, unix: int)
    ensures Lower(Trim(value)) == "week" ==>
              ParseDateRange(value, now, tz).Some? && (Within(ParseDateRange(value, now, tz).value, unix) <==> now - 604800 <= unix)
    ensures Lower(Trim(value)) == "month" ==>
              ParseDateRange(value, now, tz).Some? && (Within(ParseDateRange(value, now, tz).value, unix) <==> now - 2592000 <= unix)
    ensures Lower(Trim(value)) == "year" ==>
              ParseDateRange(value, now, tz).Some? && (Within(ParseDateRange(value, now, tz).value, unix) <==> now - 31536000 <= unix)
  {
    hide Lower, Trim, SplitDots, CivilToUnix;
  }

  /** In seconds: the second day of 1970 under any offset. */
  lemma SecondDayInSeconds(now: int, tz: int, unix: int)
    ensures ParseDateRange("1970-1-2", now, tz).Some?
    ensures Within(ParseDateRange("1970-1-2", now, tz).value, unix) <==> 86400 <= unix + tz < 172800
  {
    hide DateOf, DateIn, Lower, Trim, SplitDots;
    var v := "1970-1-2";
    NoSpaces(v);
    LowerOfPlain(v);
    if SplitDots(v).Some? {
      SplitNeedsADot(v);
    }
    OneDigitMonth();
  }

  lemma OneDigitMonth()
    ensures DateIn("1970-1-2") == Some(Date(1970, 1, 2)) && DayNumber(Date(1970, 1, 2)) == 1
  {
    hide DateIn;
    DashedIsReadIff(1970, 1, 2, 0, 0, 0, "", "");
    OneDigitDashed();
  }

  lemma OneDigitDashed()
    ensures "" + Dashed(1970, 1, 2, 0, 0, 0) + "" == "1970-1-2"
  {
    assert Padded(1970, 0) == "1970" by {
      assert Padded(197, 0) == Padded(19, 0) + "7" && Padded(19, 0) == Padded(1, 0) + "9";
    }
    assert Padded(1, 0) == "1" && Padded(2, 0) == "2";
  }

  /** The column prints a whole date for moments a year or more back, and for those a minute or more ahead. */
  lemma ColumnPrintsIff(modified: int, now: int)
    ensures Column(modified, now).Printed? <==> modified > 0 && (now - modified >= 31536000 || modified - now >= 60)
    ensures Column(modified, now).DayOfYear? <==> modified > 0 && 604800 <= now - modified < 31536000
  {
    hide DateOf, FormatDate;
  }
}
