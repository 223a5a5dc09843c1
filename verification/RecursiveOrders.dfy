/** When the totals of a recursive walk depend on the order in which its entries arrive, exactly, and two
    schedules of one walk that give different totals. */
module RecursiveOrders {
  import opened Sums
  import opened DirectoryWalk
  import opened WalkDelivery
  import opened RecursiveTotals

  type Measure = (nat, Facts) -> nat

  /** The unclamped sum of one measure over the files that count. */
  function Tallied(f: Measure, es: seq<Entry>, seen: set<(nat, nat)>): nat {
    Sum(f, 0, Counted(es, seen))
  }

  predicate SameFile(a: Entry, b: Entry) {
    a.File? && b.File? && MultiplyLinked(a) && MultiplyLinked(b) && LinkKey(a) == LinkKey(b)
  }

  /** If a and b are names of one file, a reports no more than b. */
  predicate NoHeavier(f: Measure, a: Entry, b: Entry) {
    SameFile(a, b) ==> f(0, a.facts) <= f(0, b.facts)
  }

  /** All names of one file report one value. */
  ghost predicate AgreeOn(f: Measure, es: seq<Entry>) {
    forall a, b :: a in es && b in es ==> NoHeavier(f, a, b)
  }

  /** The lightest name of each file comes first. */
  ghost predicate LightestFirst(f: Measure, es: seq<Entry>) {
    forall i, j :: 0 <= i < j < |es| ==> NoHeavier(f, es[i], es[j])
  }

  // ---------------------------------------------------------------- moving one entry

  function Gain(f: Measure, e: Entry, seen: set<(nat, nat)>): nat {
    if !e.File? || (MultiplyLinked(e) && LinkKey(e) in seen) then 0 else f(0, e.facts)
  }

  function SeenAfter(e: Entry, seen: set<(nat, nat)>): set<(nat, nat)> {
    if e.File? && MultiplyLinked(e) then seen + {LinkKey(e)} else seen
  }

  lemma TalliedStep(f: Measure, e: Entry, es: seq<Entry>, seen: set<(nat, nat)>)
    ensures Tallied(f, [e] + es, seen) == Gain(f, e, seen) + Tallied(f, es, SeenAfter(e, seen))
  {
    assert ([e] + es)[1..] == es;
    if e.File? && MultiplyLinked(e) && LinkKey(e) in seen {
      assert SeenAfter(e, seen) == seen;
    }
    if e.File? && !(MultiplyLinked(e) && LinkKey(e) in seen) {
      var rest := Counted(es, SeenAfter(e, seen));
      assert ([e.facts] + rest)[1..] == rest;
    }
  }

  /** Two neighbours change places: only the first name of a file counts. */
  lemma SwapNeighbours(f: Measure, a: Entry, b: Entry, es: seq<Entry>, seen: set<(nat, nat)>)
    ensures SameFile(a, b) && LinkKey(a) !in seen ==>
              Tallied(f, [a] + ([b] + es), seen) + f(0, b.facts) == Tallied(f, [b] + ([a] + es), seen) + f(0, a.facts)
    ensures !(SameFile(a, b) && LinkKey(a) !in seen) ==> Tallied(f, [a] + ([b] + es), seen) == Tallied(f, [b] + ([a] + es), seen)
  {
    hide Tallied;
    TalliedStep(f, a, [b] + es, seen);
    TalliedStep(f, b, es, SeenAfter(a, seen));
    TalliedStep(f, b, [a] + es, seen);
    TalliedStep(f, a, es, SeenAfter(b, seen));
    assert SeenAfter(b, SeenAfter(a, seen)) == SeenAfter(a, SeenAfter(b, seen));
  }

  /** Bringing an entry forward past names that report no less never raises the tally. */
  lemma {:induction false} BringForward(f: Measure, before: seq<Entry>, x: Entry, after: seq<Entry>, seen: set<(nat, nat)>)
    requires forall y :: y in before ==> NoHeavier(f, x, y)
    ensures Tallied(f, [x] + (before + after), seen) <= Tallied(f, before + ([x] + after), seen)
    decreases before
  {
    hide Tallied, Gain, SeenAfter;
    if before == [] {
      assert before + after == after;
      assert before + ([x] + after) == [x] + after;
    } else {
      var y, rest := before[0], before[1..];
      BringForward(f, rest, x, after, SeenAfter(y, seen));
      TalliedStep(f, y, rest + ([x] + after), seen);
      TalliedStep(f, y, [x] + (rest + after), seen);
      assert before + ([x] + after) == [y] + (rest + ([x] + after));
      assert [x] + (before + after) == [x] + ([y] + (rest + after));
      assert NoHeavier(f, x, y);
      SwapNeighbours(f, x, y, rest + after, seen);
    }
  }

  /** With the lightest names first the tally is the least over all orders. */
  lemma {:induction false} LightestFirstIsLeast(f: Measure, light: seq<Entry>, es: seq<Entry>, seen: set<(nat, nat)>)
    requires multiset(light) == multiset(es) && LightestFirst(f, light)
    ensures Tallied(f, light, seen) <= Tallied(f, es, seen)
    decreases light
  {
    hide Tallied, Gain, SeenAfter, NoHeavier;
    if light == [] {
      assert |multiset(es)| == 0;
    } else {
      var x, rest := light[0], light[1..];
      var before, after := TakeOut(light, es);
      forall y | y in before && y != x ensures NoHeavier(f, x, y) {
        assert y in multiset(es);
      }
      NoHeavierItself(f, x);
      BringForward(f, before, x, after, seen);
      assert es == before + ([x] + after);
      TalliedStep(f, x, before + after, seen);
      TalliedStep(f, x, rest, seen);
      assert light == [x] + rest;
      LightestFirstIsLeast(f, rest, before + after, SeenAfter(x, seen));
    }
  }

  lemma NoHeavierItself(f: Measure, x: Entry)
    ensures NoHeavier(f, x, x)
  {
  }

  // ---------------------------------------------------------------- the exact condition

  ghost predicate Reorders(es: seq<Entry>, fs: seq<Entry>) {
    multiset(es) == multiset(fs)
  }

  lemma AgreementMakesOrdersLightest(f: Measure, es: seq<Entry>, fs: seq<Entry>)
    requires AgreeOn(f, es) && Reorders(es, fs)
    ensures LightestFirst(f, fs)
  {
    forall i, j | 0 <= i < j < |fs| ensures NoHeavier(f, fs[i], fs[j]) {
      assert fs[i] in multiset(es) && fs[j] in multiset(es);
    }
  }

  lemma PullOne(es: seq<Entry>, a: Entry) returns (rest: seq<Entry>)
    requires a in es
    ensures multiset(es) == multiset{a} + multiset(rest)
  {
    var i :| 0 <= i < |es| && es[i] == a;
    assert es == es[..i] + ([a] + es[i + 1..]);
    rest := es[..i] + es[i + 1..];
  }

  lemma PullTwo(es: seq<Entry>, a: Entry, b: Entry) returns (rest: seq<Entry>)
    requires a in es && b in es && a != b
    ensures Reorders(es, [a] + ([b] + rest)) && Reorders(es, [b] + ([a] + rest))
  {
    var others := PullOne(es, a);
    assert b in multiset(es);
    rest := PullOne(others, b);
    TwoMore(a, b, rest);
    TwoMore(b, a, rest);
  }

  lemma TwoMore(a: Entry, b: Entry, rest: seq<Entry>)
    ensures multiset([a] + ([b] + rest)) == multiset{a} + (multiset{b} + multiset(rest))
  {
  }

  /** One measure is the same in every order exactly when the names of each file agree on it, or even the
      least sum is past what the counter holds. */
  lemma SameInEveryOrderIff(f: Measure, es: seq<Entry>, light: seq<Entry>)
    requires Reorders(es, light) && LightestFirst(f, light)
    ensures (forall fs :: Reorders(es, fs) ==> Clamp(Tallied(f, fs, {})) == Clamp(Tallied(f, es, {}))) <==>
            AgreeOn(f, es) || Tallied(f, light, {}) >= U64_MAX
  {
    hide Tallied, NoHeavier;
    if AgreeOn(f, es) || Tallied(f, light, {}) >= U64_MAX {
      forall fs | Reorders(es, fs) ensures Clamp(Tallied(f, fs, {})) == Clamp(Tallied(f, es, {})) {
        LightestFirstIsLeast(f, light, fs, {});
        LightestFirstIsLeast(f, light, es, {});
        if AgreeOn(f, es) {
          AgreementMakesOrdersLightest(f, es, fs);
          AgreementMakesOrdersLightest(f, es, es);
          LightestFirstIsLeast(f, es, fs, {});
          LightestFirstIsLeast(f, fs, es, {});
        }
      }
    } else {
      var a, b :| a in es && b in es && !NoHeavier(f, a, b);
      OrdersDiffer(f, es, light, a, b);
    }
  }

  lemma OrdersDiffer(f: Measure, es: seq<Entry>, light: seq<Entry>, a: Entry, b: Entry)
    requires a in es && b in es && !NoHeavier(f, a, b)
    requires Reorders(es, light) && Tallied(f, light, {}) < U64_MAX
    ensures exists fs :: Reorders(es, fs) && Clamp(Tallied(f, fs, {})) != Clamp(Tallied(f, es, {}))
  {
    hide Tallied;
    var rest := PullTwo(es, a, b);
    SwapNeighbours(f, a, b, rest, {});
    var heavy, less := [a] + ([b] + rest), [b] + ([a] + rest);
    if Clamp(Tallied(f, heavy, {})) == Clamp(Tallied(f, es, {})) && Clamp(Tallied(f, less, {})) == Clamp(Tallied(f, es, {})) {
      assert Clamp(Tallied(f, light, {})) != Clamp(Tallied(f, es, {}));
    }
  }

  // ---------------------------------------------------------------- all totals together

  ghost predicate TotalsIgnoreOrder(rootDevice: Option<nat>, es: seq<Entry>) {
    forall fs :: Reorders(es, fs) ==> CountAll(EMPTY, rootDevice, fs).totals == CountAll(EMPTY, rootDevice, es).totals
  }

  function One(p: nat, facts: Facts): nat { 1 }

  lemma {:induction false} SumOfOnes(fs: seq<Facts>)
    ensures Sum(One, 0, fs) == |fs|
  {
    if fs != [] {
      SumOfOnes(fs[1..]);
    }
  }

  lemma {:induction false} DescentsIgnoreOrder(descend: Entry -> bool, es: seq<Entry>, fs: seq<Entry>)
    requires Reorders(es, fs)
    ensures |Descents(descend, es)| == |Descents(descend, fs)|
    decreases es
  {
    if es == [] {
      assert |multiset(fs)| == 0;
    } else {
      var before, after := TakeOut(es, fs);
      DescentsIgnoreOrder(descend, es[1..], before + after);
      DescentsConcat(descend, before + [es[0]], after);
      DescentsConcat(descend, before, [es[0]]);
      DescentsConcat(descend, before, after);
      assert Descents(descend, [es[0]]) == if descend(es[0]) && es[0].Folder? then [es[0].dir] else [];
    }
  }

  /** File and folder counts never depend on the order. */
  lemma CountsIgnoreOrder(rootDevice: Option<nat>, es: seq<Entry>, fs: seq<Entry>)
    requires Reorders(es, fs)
    ensures var t, u := CountAll(EMPTY, rootDevice, es).totals, CountAll(EMPTY, rootDevice, fs).totals;
            (t.files == u.files && t.dirs == u.dirs)
  {
    hide Counted, CountAll, Descents, Sum;
    TotalsAreClampedSums(EMPTY, rootDevice, es);
    TotalsAreClampedSums(EMPTY, rootDevice, fs);
    DescentsIgnoreOrder(Descend(rootDevice), es, fs);
    assert AgreeOn(One, es);
    AgreementMakesOrdersLightest(One, es, es);
    AgreementMakesOrdersLightest(One, es, fs);
    LightestFirstIsLeast(One, es, fs, {});
    LightestFirstIsLeast(One, fs, es, {});
    SumOfOnes(Counted(es, {}));
    SumOfOnes(Counted(fs, {}));
  }

  lemma ByteTotals(rootDevice: Option<nat>, es: seq<Entry>)
    ensures var t := CountAll(EMPTY, rootDevice, es).totals;
            (t.apparent == Clamp(Tallied(SizeOf, es, {})) && t.onDisk == Clamp(Tallied(OnDiskOf, es, {})))
  {
    TotalsAreClampedSums(EMPTY, rootDevice, es);
  }

  /** The totals are the same in every order of the entries if and only if, for bytes and for blocks on
      disk, the names of each multiply-linked file agree or the least sum already saturates. */
  lemma TotalsIgnoreOrderIff(rootDevice: Option<nat>, es: seq<Entry>, light: seq<Entry>, lightOnDisk: seq<Entry>)
    requires Reorders(es, light) && LightestFirst(SizeOf, light)
    requires Reorders(es, lightOnDisk) && LightestFirst(OnDiskOf, lightOnDisk)
    ensures TotalsIgnoreOrder(rootDevice, es) <==>
            (AgreeOn(SizeOf, es) || Tallied(SizeOf, light, {}) >= U64_MAX) &&
            (AgreeOn(OnDiskOf, es) || Tallied(OnDiskOf, lightOnDisk, {}) >= U64_MAX)
  {
    hide CountAll, Tallied, AgreeOn, LightestFirst;
    SameInEveryOrderIff(SizeOf, es, light);
    SameInEveryOrderIff(OnDiskOf, es, lightOnDisk);
    forall fs | Reorders(es, fs)
      ensures CountAll(EMPTY, rootDevice, fs).totals == CountAll(EMPTY, rootDevice, es).totals <==>
              Clamp(Tallied(SizeOf, fs, {})) == Clamp(Tallied(SizeOf, es, {})) &&
              Clamp(Tallied(OnDiskOf, fs, {})) == Clamp(Tallied(OnDiskOf, es, {}))
    {
      CountsIgnoreOrder(rootDevice, es, fs);
      ByteTotals(rootDevice, es);
      ByteTotals(rootDevice, fs);
    }
  }

  /** While the counters have room, agreement of the names is the whole condition. */
  lemma ConsistencyIsNeeded(rootDevice: Option<nat>, es: seq<Entry>, light: seq<Entry>, lightOnDisk: seq<Entry>)
    requires Reorders(es, light) && LightestFirst(SizeOf, light) && Tallied(SizeOf, light, {}) < U64_MAX
    requires Reorders(es, lightOnDisk) && LightestFirst(OnDiskOf, lightOnDisk) && Tallied(OnDiskOf, lightOnDisk, {}) < U64_MAX
    ensures TotalsIgnoreOrder(rootDevice, es) <==> Consistent(es)
  {
    TotalsIgnoreOrderIff(rootDevice, es, light, lightOnDisk);
    if AgreeOn(SizeOf, es) && AgreeOn(OnDiskOf, es) {
      forall a, b | a in es && b in es ensures Agree(a, b) {
        assert NoHeavier(SizeOf, a, b) && NoHeavier(SizeOf, b, a) && NoHeavier(OnDiskOf, a, b) && NoHeavier(OnDiskOf, b, a);
      }
    }
    if Consistent(es) {
      forall a, b | a in es && b in es ensures NoHeavier(SizeOf, a, b) && NoHeavier(OnDiskOf, a, b) {
        assert Agree(a, b);
      }
    }
  }
}
