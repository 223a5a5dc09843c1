/** Sums of a natural-valued weight over a sequence, and the algebra the state-machine proofs need. */
module Sums {

  function Sum<P, T>(f: (P, T) -> nat, p: P, xs: seq<T>): nat {
    if xs == [] then 0 else f(p, xs[0]) + Sum(f, p, xs[1..])
  }

  lemma {:induction false} SumConcat<P, T>(f: (P, T) -> nat, p: P, xs: seq<T>, ys: seq<T>)
    ensures Sum(f, p, xs + ys) == Sum(f, p, xs) + Sum(f, p, ys)
  {
    if xs == [] {
      assert xs + ys == ys;
    } else {
      assert (xs + ys)[1..] == xs[1..] + ys;
      SumConcat(f, p, xs[1..], ys);
    }
  }

  lemma SumFirst<P, T>(f: (P, T) -> nat, p: P, xs: seq<T>)
    requires xs != []
    ensures Sum(f, p, xs) == f(p, xs[0]) + Sum(f, p, xs[1..])
  {
  }

  lemma SumOne<P, T>(f: (P, T) -> nat, p: P, x: T)
    ensures Sum(f, p, [x]) == f(p, x)
  {
    assert [x][1..] == [];
  }

  lemma SumAppend<P, T>(f: (P, T) -> nat, p: P, xs: seq<T>, x: T)
    ensures Sum(f, p, xs + [x]) == Sum(f, p, xs) + f(p, x)
  {
    SumConcat(f, p, xs, [x]);
  }

  /** Replacing one element changes the sum by exactly the difference of the two weights. */
  lemma {:induction false} SumUpdate<P, T>(f: (P, T) -> nat, p: P, xs: seq<T>, i: nat, x: T)
    requires i < |xs|
    ensures Sum(f, p, xs[i := x]) + f(p, xs[i]) == Sum(f, p, xs) + f(p, x)
  {
    if i == 0 {
      assert xs[i := x][1..] == xs[1..];
    } else {
      assert xs[i := x][1..] == xs[1..][i - 1 := x];
      SumUpdate(f, p, xs[1..], i - 1, x);
    }
  }

  lemma {:induction false} SumAtLeast<P, T>(f: (P, T) -> nat, p: P, xs: seq<T>, i: nat)
    requires i < |xs|
    ensures f(p, xs[i]) <= Sum(f, p, xs)
  {
    if i > 0 {
      SumAtLeast(f, p, xs[1..], i - 1);
    }
  }

  /** A positive sum has a positive term. */
  lemma {:induction false} SumPositive<P, T>(f: (P, T) -> nat, p: P, xs: seq<T>) returns (i: nat)
    requires Sum(f, p, xs) > 0
    ensures i < |xs| && f(p, xs[i]) > 0
  {
    if f(p, xs[0]) > 0 {
      i := 0;
    } else {
      var j := SumPositive(f, p, xs[1..]);
      i := j + 1;
    }
  }

  lemma {:induction false} SumBounded<P, T>(f: (P, T) -> nat, p: P, xs: seq<T>, bound: nat)
    requires forall i :: 0 <= i < |xs| ==> f(p, xs[i]) <= bound
    ensures Sum(f, p, xs) <= bound * |xs|
  {
    if xs != [] {
      SumBounded(f, p, xs[1..], bound);
    }
  }

  /** Two sequences that weigh the same position by position have the same sum. */
  lemma {:induction false} SumSame<P, T>(f: (P, T) -> nat, p: P, xs: seq<T>, ys: seq<T>)
    requires |xs| == |ys|
    requires forall i :: 0 <= i < |xs| ==> f(p, xs[i]) == f(p, ys[i])
    ensures Sum(f, p, xs) == Sum(f, p, ys)
  {
    if xs != [] {
      SumSame(f, p, xs[1..], ys[1..]);
    }
  }

  /** Where the first element of one sequence sits in a permutation of it. */
  lemma TakeOut<T>(a: seq<T>, b: seq<T>) returns (before: seq<T>, after: seq<T>)
    requires a != [] && multiset(a) == multiset(b)
    ensures b == before + [a[0]] + after
    ensures multiset(a[1..]) == multiset(before + after)
  {
    assert a[0] in multiset(b);
    var k :| 0 <= k < |b| && b[k] == a[0];
    before, after := b[..k], b[k + 1..];
    assert b == before + [a[0]] + after;
    Elements([], a[0], a[1..]);
    assert a == [] + [a[0]] + a[1..] && [] + a[1..] == a[1..];
    Elements(before, a[0], after);
    CancelElement(multiset(a[1..]), multiset(before + after), a[0]);
  }

  lemma Elements<T>(before: seq<T>, x: T, after: seq<T>)
    ensures multiset(before + [x] + after) == multiset(before + after) + multiset{x}
  {
  }

  lemma CancelElement<T>(a: multiset<T>, b: multiset<T>, x: T)
    requires a + multiset{x} == b + multiset{x}
    ensures a == b
  {
    forall y ensures a[y] == b[y] {
      assert (a + multiset{x})[y] == (b + multiset{x})[y];
    }
  }
}
