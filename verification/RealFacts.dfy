/** Small facts of real arithmetic, each stated once so that no larger proof multiplies unknowns. */
module RealFacts {

  lemma MulPos(x: real, y: real)
    requires x > 0.0 && y > 0.0
    ensures x * y > 0.0
  {
  }

  lemma MulLe(x: real, y: real, t: real)
    requires t >= 0.0 && x <= y
    ensures x * t <= y * t
  {
    if x < y && t > 0.0 {
      MulPos(y - x, t);
    }
  }

  lemma CancelLe(x: real, y: real, t: real)
    requires t > 0.0 && x * t <= y * t
    ensures x <= y
  {
    if x > y {
      MulPos(x - y, t);
    }
  }

  /** Multiplication as a function, so that equal factors give equal products. */
  function Times(a: real, b: real): real { a * b }

  lemma TimesPos(a: real, b: real)
    requires a > 0.0 && b > 0.0
    ensures Times(a, b) > 0.0
  {
  }

  lemma TimesLe(t: real, x: real, y: real)
    requires t >= 0.0 && x <= y
    ensures Times(t, x) <= Times(t, y)
  {
    MulLe(x, y, t);
  }

  /** Division made total; it is only ever used with a positive divisor. */
  function Quot(a: real, b: real): real {
    if b == 0.0 then 0.0 else a / b
  }

  lemma QuotMul(a: real, b: real)
    requires b > 0.0
    ensures Quot(a, b) * b == a
  {
  }

  lemma QuotPos(a: real, b: real)
    requires a > 0.0 && b > 0.0
    ensures Quot(a, b) > 0.0
  {
    QuotMul(a, b);
    if Quot(a, b) <= 0.0 {
      MulLe(Quot(a, b), 0.0, b);
    }
  }

  lemma QuotTimes(a: real, b: real)
    requires b > 0.0
    ensures Times(Quot(a, b), b) == a
  {
    QuotMul(a, b);
  }

  lemma TimesCommutes(a: real, b: real)
    ensures Times(a, b) == Times(b, a)
  {
  }

  lemma TimesMinus(a: real, b: real, c: real)
    ensures Times(a - b, c) == Times(a, c) - Times(b, c)
  {
  }

  lemma CancelTimes(x: real, y: real, t: real)
    requires t > 0.0 && Times(x, t) <= Times(y, t)
    ensures x <= y
  {
    CancelLe(x, y, t);
  }

  /** A quotient is determined by its product. */
  lemma QuotIs(a: real, b: real, q: real)
    requires b > 0.0 && q * b == a
    ensures Quot(a, b) == q
  {
    QuotMul(a, b);
    CancelLe(q, Quot(a, b), b);
    CancelLe(Quot(a, b), q, b);
  }

  lemma QuotLe(a: real, b: real, c: real)
    requires c > 0.0 && a <= b
    ensures Quot(a, c) <= Quot(b, c)
  {
    QuotMul(a, c);
    QuotMul(b, c);
    CancelLe(Quot(a, c), Quot(b, c), c);
  }

  lemma QuotLeDenominator(a: real, b: real, c: real)
    requires a > 0.0 && 0.0 < b <= c
    ensures Quot(a, c) <= Quot(a, b)
  {
    QuotMul(a, c);
    QuotMul(a, b);
    QuotPos(a, c);
    MulLe(b, c, Quot(a, c));
    CancelLe(Quot(a, c), Quot(a, b), b);
  }
}
