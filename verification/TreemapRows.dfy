/** Choosing how many items share a row: the running formula is the true worst aspect ratio. */
module TreemapRows {
  import opened RealFacts

  /** f32::MIN_POSITIVE and f32::MAX. */
  const MIN_POSITIVE: real := 1.0 / 85070591730234615865843651857942052864.0
  const MAX_FINITE: real := 340282346638528859811704183484516925440.0

  datatype Item = Item(index: nat, area: real)

  function SumArea(items: seq<Item>): real {
    if items == [] then 0.0 else SumArea(items[..|items| - 1]) + items[|items| - 1].area
  }

  ghost predicate Positive(items: seq<Item>) {
    forall i :: 0 <= i < |items| ==> MIN_POSITIVE <= items[i].area <= MAX_FINITE
  }

  function Max(a: real, b: real): real { if a >= b then a else b }
  function Min(a: real, b: real): real { if a <= b then a else b }

  function AspectRatio(a: real, b: real): real {
    if a >= b then Quot(a, b) else Quot(b, a)
  }

  /** An item of the given area in a row that holds `sum` of area along an edge: the row is sum/edge
      thick and the item takes area/thickness of the edge. */
  function RatioInRow(area: real, sum: real, edge: real): real {
    AspectRatio(Quot(sum, edge), Quot(area, Quot(sum, edge)))
  }

  /** `worst` is the largest aspect ratio the items get when they form one row. */
  ghost predicate IsWorst(row: seq<Item>, edge: real, worst: real)
    requires edge > 0.0 && Positive(row) && SumArea(row) > 0.0
  {
    (forall i :: 0 <= i < |row| ==> RatioInRow(row[i].area, SumArea(row), edge) <= worst) &&
    (exists i :: 0 <= i < |row| && RatioInRow(row[i].area, SumArea(row), edge) == worst)
  }

  lemma {:induction false} SumIsPositive(items: seq<Item>)
    requires Positive(items) && items != []
    ensures SumArea(items) > 0.0
  {
    if |items| > 1 {
      SumIsPositive(items[..|items| - 1]);
    }
  }

  lemma AspectIsMax(a: real, b: real)
    requires a > 0.0 && b > 0.0
    ensures AspectRatio(a, b) == Max(Quot(a, b), Quot(b, a))
  {
    QuotIs(a, a, 1.0);
    QuotIs(b, b, 1.0);
    if a >= b {
      QuotLe(b, a, a);
      QuotLe(b, a, b);
    } else {
      QuotLe(a, b, a);
      QuotLe(a, b, b);
    }
  }

  lemma SquareOfProduct(a: real, b: real, ab: real)
    requires ab == a * b
    ensures ab * ab == (a * a) * (b * b)
  {
    assert ab * ab == ab * (a * b) == (ab * a) * b;
    assert (ab * a) * b == ((a * b) * a) * b;
  }

  lemma LengthOverThickness(area: real, sum: real, edge: real, t: real, l: real, q: real, e2: real, s2: real)
    requires t * edge == sum && l * t == area && q * t == l && e2 == Times(edge, edge) && s2 == Times(sum, sum)
    ensures q * s2 == e2 * area
  {
    SquareOfProduct(t, edge, sum);
    assert q * s2 == q * ((t * t) * e2) == (q * t) * t * e2;
  }

  lemma ThicknessOverLength(area: real, sum: real, edge: real, t: real, l: real, r: real, e2: real, s2: real)
    requires t * edge == sum && l * t == area && r * l == t && e2 == Times(edge, edge) && s2 == Times(sum, sum)
    ensures r * (e2 * area) == s2
  {
    SquareOfProduct(t, edge, sum);
    assert r * (e2 * area) == e2 * (r * (l * t)) == e2 * ((r * l) * t);
  }

  /** Both quotients of an item's sides, without the intermediate thickness and length. */
  lemma RatioFormula(area: real, sum: real, edge: real, e2: real, s2: real)
    requires area > 0.0 && sum > 0.0 && edge > 0.0 && e2 == Times(edge, edge) && s2 == Times(sum, sum)
    ensures e2 > 0.0 && s2 > 0.0 && Times(e2, area) > 0.0
    ensures RatioInRow(area, sum, edge) == Max(Quot(Times(e2, area), s2), Quot(s2, Times(e2, area)))
  {
    TimesPos(edge, edge);
    TimesPos(sum, sum);
    TimesPos(e2, area);
    var t := Quot(sum, edge);
    QuotPos(sum, edge);
    QuotMul(sum, edge);
    var l := Quot(area, t);
    QuotPos(area, t);
    QuotMul(area, t);
    QuotMul(l, t);
    QuotMul(t, l);
    LengthOverThickness(area, sum, edge, t, l, Quot(l, t), e2, s2);
    ThicknessOverLength(area, sum, edge, t, l, Quot(t, l), e2, s2);
    QuotIs(Times(e2, area), s2, Quot(l, t));
    QuotIs(s2, Times(e2, area), Quot(t, l));
    AspectIsMax(t, l);
  }

  /** The formula of the loop: only the smallest and the largest item matter. */
  function RunningWorst(edgeSquared: real, sumSquared: real, minArea: real, maxArea: real): real {
    Max(Quot(Times(edgeSquared, maxArea), sumSquared), Quot(sumSquared, Times(edgeSquared, Max(minArea, MIN_POSITIVE))))
  }

  lemma RatioBetween(area: real, lo: real, hi: real, sum: real, edge: real, e2: real, s2: real)
    requires sum > 0.0 && edge > 0.0 && MIN_POSITIVE <= lo <= area <= hi && e2 == Times(edge, edge) && s2 == Times(sum, sum)
    ensures RatioInRow(area, sum, edge) <= RunningWorst(e2, s2, lo, hi)
  {
    RatioFormula(area, sum, edge, e2, s2);
    assert Max(lo, MIN_POSITIVE) == lo && lo > 0.0;
    TimesPos(e2, lo);
    TimesLe(e2, area, hi);
    TimesLe(e2, lo, area);
    QuotLe(Times(e2, area), Times(e2, hi), s2);
    QuotLeDenominator(s2, Times(e2, lo), Times(e2, area));
  }

  lemma RatioAttained(lo: real, hi: real, sum: real, edge: real, e2: real, s2: real)
    requires sum > 0.0 && edge > 0.0 && MIN_POSITIVE <= lo <= hi && e2 == Times(edge, edge) && s2 == Times(sum, sum)
    ensures RunningWorst(e2, s2, lo, hi) <= RatioInRow(lo, sum, edge) || RunningWorst(e2, s2, lo, hi) <= RatioInRow(hi, sum, edge)
  {
    RatioFormula(lo, sum, edge, e2, s2);
    RatioFormula(hi, sum, edge, e2, s2);
    assert Max(lo, MIN_POSITIVE) == lo;
  }

  lemma RunningFormulaIsWorst(row: seq<Item>, edge: real, lo: nat, hi: nat, e2: real, s2: real)
    requires edge > 0.0 && Positive(row) && row != [] && SumArea(row) > 0.0
    requires lo < |row| && hi < |row| && e2 == edge * edge && s2 == Times(SumArea(row), SumArea(row))
    requires forall i :: 0 <= i < |row| ==> row[lo].area <= row[i].area <= row[hi].area
    ensures IsWorst(row, edge, RunningWorst(e2, s2, row[lo].area, row[hi].area))
  {
    var sum := SumArea(row);
    var worst := RunningWorst(e2, s2, row[lo].area, row[hi].area);
    forall i | 0 <= i < |row| ensures RatioInRow(row[i].area, sum, edge) <= worst {
      RatioBetween(row[i].area, row[lo].area, row[hi].area, sum, edge, e2, s2);
    }
    RatioAttained(row[lo].area, row[hi].area, sum, edge, e2, s2);
  }

  lemma WorstIsUnique(row: seq<Item>, edge: real, a: real, b: real)
    requires edge > 0.0 && Positive(row) && SumArea(row) > 0.0 && IsWorst(row, edge, a) && IsWorst(row, edge, b)
    ensures a == b
  {
    var i :| 0 <= i < |row| && RatioInRow(row[i].area, SumArea(row), edge) == a;
    var j :| 0 <= j < |row| && RatioInRow(row[j].area, SumArea(row), edge) == b;
  }

  /** The worst ratio of the row made of the first k items. */
  ghost function Worst(items: seq<Item>, edge: real, k: nat): (worst: real)
    requires edge > 0.0 && Positive(items) && 0 < k <= |items|
    ensures SumArea(items[..k]) > 0.0 && IsWorst(items[..k], edge, worst)
  {
    SumIsPositive(items[..k]);
    var (lo, hi) := Extremes(items[..k]);
    RunningFormulaIsWorst(items[..k], edge, lo, hi, Times(edge, edge), Times(SumArea(items[..k]), SumArea(items[..k])));
    var worst :| IsWorst(items[..k], edge, worst);
    worst
  }

  ghost function Extremes(row: seq<Item>): (r: (nat, nat))
    requires row != []
    ensures r.0 < |row| && r.1 < |row| && forall i :: 0 <= i < |row| ==> row[r.0].area <= row[i].area <= row[r.1].area
  {
    if |row| == 1 then (0, 0)
    else
      var (lo, hi) := Extremes(row[..|row| - 1]);
      var last := |row| - 1;
      assert forall i :: 0 <= i < last ==> row[..last][i] == row[i];
      (if row[last].area < row[lo].area then last else lo, if row[last].area > row[hi].area then last else hi)
  }

  /** What the loop knows after the first `ix` items. */
  ghost predicate Measured(items: seq<Item>, edge: real, ix: nat, sum: real, minArea: real, maxArea: real, lo: nat, hi: nat)
    requires ix <= |items|
  {
    sum == SumArea(items[..ix]) &&
    (ix == 0 ==> minArea == MAX_FINITE && maxArea == 0.0) &&
    (ix > 0 ==> lo < ix && hi < ix && minArea == items[lo].area && maxArea == items[hi].area) &&
    (forall i :: 0 <= i < ix ==> minArea <= items[i].area <= maxArea)
  }

  lemma MeasuredIsWorst(items: seq<Item>, edge: real, ix: nat, sum: real, minArea: real, maxArea: real, lo: nat, hi: nat,
                        e2: real, s2: real)
    requires edge > 0.0 && Positive(items) && 0 < ix <= |items| && Measured(items, edge, ix, sum, minArea, maxArea, lo, hi)
    requires e2 == Times(edge, edge) && s2 == Times(sum, sum)
    ensures RunningWorst(e2, s2, minArea, maxArea) == Worst(items, edge, ix)
  {
    SumIsPositive(items[..ix]);
    RunningFormulaIsWorst(items[..ix], edge, lo, hi, e2, s2);
    WorstIsUnique(items[..ix], edge, RunningWorst(e2, s2, minArea, maxArea), Worst(items, edge, ix));
  }

  /** The row never gets worse while it grows to `len` items, and the next item would make it worse. */
  ghost predicate IsBestRow(items: seq<Item>, edge: real, len: nat)
    requires edge > 0.0 && Positive(items)
  {
    len <= |items| && (items != [] ==> len > 0) &&
    (forall k :: 1 <= k < len ==> Worst(items, edge, k + 1) <= Worst(items, edge, k)) &&
    (0 < len < |items| ==> Worst(items, edge, len + 1) > Worst(items, edge, len))
  }

  method BestRowLen(items: seq<Item>, edge: real) returns (len: nat)
    requires edge >= 1.0 && Positive(items)
    ensures len <= |items| && (items != [] ==> len > 0)
    ensures IsBestRow(items, edge, len)
  {
    if |items| <= 1 {
      return |items|;
    }
    var edgeSq := Times(Max(edge, MIN_POSITIVE), Max(edge, MIN_POSITIVE));
    var sum, minArea, maxArea, bestRatio := 0.0, MAX_FINITE, 0.0, MAX_FINITE;
    ghost var lo: nat, hi: nat := 0, 0;
    assert items[..0] == [];
    for ix := 0 to |items|
      invariant Measured(items, edge, ix, sum, minArea, maxArea, lo, hi)
      invariant ix > 0 ==> bestRatio == Worst(items, edge, ix)
      invariant forall k :: 1 <= k < ix ==> Worst(items, edge, k + 1) <= Worst(items, edge, k)
    {
      var area := items[ix].area;
      assert items[..ix + 1][..ix] == items[..ix];
      if area <= minArea { lo := ix; }
      if area >= maxArea { hi := ix; }
      sum := sum + area;
      minArea, maxArea := Min(minArea, area), Max(maxArea, area);
      var worst := RunningWorst(edgeSq, Times(sum, sum), minArea, maxArea);
      MeasuredIsWorst(items, edge, ix + 1, sum, minArea, maxArea, lo, hi, edgeSq, Times(sum, sum));
      if worst > bestRatio && ix > 0 {
        return ix;
      }
      bestRatio := worst;
    }
    return |items|;
  }
}
