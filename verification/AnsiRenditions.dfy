/** What a list of graphic renditions does to each part of the style: the last code that sets the part
    decides, whatever the others do to the other parts. */
module AnsiRenditions {
  import opened AnsiScreen

  /** Parameters the code at i uses: an extended colour takes its own with it. */
  function Extent(ns: seq<nat>, i: nat): (n: nat)
    requires i < |ns|
    ensures 0 < n <= |ns| - i
  {
    if ns[i] != 38 && ns[i] != 48 then 1
    else if i + 2 < |ns| && ns[i + 1] == 5 then 3
    else if i + 4 < |ns| && ns[i + 1] == 2 then 5
    else 1
  }

  /** Reading codes one after the other from `from` on, i is the place of a code. */
  predicate Begins(ns: seq<nat>, from: nat, i: nat)
    decreases |ns| - from
  {
    from < |ns| && (i == from || (from < i && Begins(ns, from + Extent(ns, from), i)))
  }

  predicate SetsForeground(ns: seq<nat>, i: nat) {
    i < |ns| && (ns[i] == 0 || 30 <= ns[i] <= 37 || ns[i] == 39 || 90 <= ns[i] <= 97 || (ns[i] == 38 && Extent(ns, i) > 1))
  }

  predicate SetsBackground(ns: seq<nat>, i: nat) {
    i < |ns| && (ns[i] == 0 || 40 <= ns[i] <= 47 || ns[i] == 49 || 100 <= ns[i] <= 107 || (ns[i] == 48 && Extent(ns, i) > 1))
  }

  predicate SetsWeight(ns: seq<nat>, i: nat) {
    i < |ns| && ns[i] in {0, 1, 22}
  }

  /** The colour a code names: the last digit picks one of eight; an extended code spells it out. */
  function ColourAt(ns: seq<nat>, i: nat): Option<Color>
    requires i < |ns|
  {
    if ns[i] == 38 || ns[i] == 48 then
      if Extent(ns, i) == 3 then Some(Indexed(Min(ns[i + 2], 255)))
      else if Extent(ns, i) == 5 then Some(Rgb(Min(ns[i + 2], 255), Min(ns[i + 3], 255), Min(ns[i + 4], 255)))
      else None
    else if ns[i] == 0 || ns[i] % 10 == 9 then None
    else if ns[i] < 90 then Some(Standard(ns[i] % 10))
    else Some(Bright(ns[i] % 10))
  }

  /** i is the last code for which `sets` holds. */
  ghost predicate Last(sets: (seq<nat>, nat) -> bool, ns: seq<nat>, from: nat, i: nat) {
    from <= i < |ns| && Begins(ns, from, i) && sets(ns, i) && forall j :: i < j < |ns| && Begins(ns, from, j) ==> !sets(ns, j)
  }

  ghost predicate Never(sets: (seq<nat>, nat) -> bool, ns: seq<nat>, from: nat) {
    forall j :: from <= j < |ns| && Begins(ns, from, j) ==> !sets(ns, j)
  }

  /** `after` is `before` with each part as its last code from `from` on says. */
  ghost predicate Rendition(ns: seq<nat>, from: nat, before: Style, after: Style) {
    (forall i: nat :: Last(SetsForeground, ns, from, i) ==> after.foreground == ColourAt(ns, i)) &&
    (Never(SetsForeground, ns, from) ==> after.foreground == before.foreground) &&
    (forall i: nat :: Last(SetsBackground, ns, from, i) ==> after.background == ColourAt(ns, i)) &&
    (Never(SetsBackground, ns, from) ==> after.background == before.background) &&
    (forall i: nat :: Last(SetsWeight, ns, from, i) ==> (after.bold <==> ns[i] == 1)) &&
    (Never(SetsWeight, ns, from) ==> after.bold == before.bold)
  }

  /** One code. */
  lemma CodeSets(ns: seq<nat>, from: nat, style: Style)
    requires from < |ns|
    ensures Taken(ns[from..]) == Extent(ns, from)
    ensures var r := Code(ns[from..], style);
            r.foreground == (if SetsForeground(ns, from) then ColourAt(ns, from) else style.foreground) &&
            r.background == (if SetsBackground(ns, from) then ColourAt(ns, from) else style.background) &&
            r.bold == (if SetsWeight(ns, from) then ns[from] == 1 else style.bold)
  {
  }

  lemma LastMoves(sets: (seq<nat>, nat) -> bool, ns: seq<nat>, from: nat)
    requires from < |ns|
    ensures var next := from + Extent(ns, from);
            (forall i: nat :: Last(sets, ns, from, i) ==> if i == from then Never(sets, ns, next) else Last(sets, ns, next, i)) &&
            (Never(sets, ns, from) ==> !sets(ns, from) && Never(sets, ns, next))
  {
    hide Extent;
    var next := from + Extent(ns, from);
    forall j | next <= j < |ns| && Begins(ns, next, j) ensures Begins(ns, from, j) {
    }
    assert Begins(ns, from, from);
    forall i: nat | Last(sets, ns, from, i) ensures if i == from then Never(sets, ns, next) else Last(sets, ns, next, i) {
      if i != from {
        BeginsLater(ns, next, i);
      }
    }
  }

  lemma {:induction false} BeginsLater(ns: seq<nat>, from: nat, i: nat)
    requires Begins(ns, from, i)
    ensures from <= i < |ns|
    decreases |ns| - from
  {
    if i != from {
      BeginsLater(ns, from + Extent(ns, from), i);
    }
  }

  lemma {:induction false} SgrIsRendition(ns: seq<nat>, from: nat, style: Style)
    requires from <= |ns|
    ensures Rendition(ns, from, style, Sgr(ns[from..], style))
    decreases |ns| - from
  {
    hide Extent, Code, Taken, SetsForeground, SetsBackground, SetsWeight, ColourAt, Last, Never;
    if from == |ns| {
      NoneLast(ns);
    } else {
      var next := from + Extent(ns, from);
      CodeSets(ns, from, style);
      assert ns[from..][Taken(ns[from..])..] == ns[next..];
      SgrIsRendition(ns, next, Code(ns[from..], style));
      LastMoves(SetsForeground, ns, from);
      LastMoves(SetsBackground, ns, from);
      LastMoves(SetsWeight, ns, from);
      LastSets(ns, from);
    }
  }

  lemma LastSets(ns: seq<nat>, from: nat)
    ensures forall i: nat :: Last(SetsForeground, ns, from, i) ==> SetsForeground(ns, i)
    ensures forall i: nat :: Last(SetsBackground, ns, from, i) ==> SetsBackground(ns, i)
    ensures forall i: nat :: Last(SetsWeight, ns, from, i) ==> SetsWeight(ns, i)
  {
  }

  lemma NoneLast(ns: seq<nat>)
    ensures forall sets, i: nat :: !Last(sets, ns, |ns|, i)
    ensures forall style: Style :: Sgr(ns[|ns|..], style) == style
  {
  }
}
