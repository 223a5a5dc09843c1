/** Platform roots that are discovered in the background and started on demand: which results of late,
    repeated or reordered work may take effect. */
module RootsModel {
  import opened TextOrder

  datatype Option<T> = None | Some(value: T)

  type Id = string

  datatype ErrorKind = NotAvailable | NotFound | TimedOut | Cancelled | Failed
  datatype RootState = Stopped | Starting | Ready(path: string) | Unavailable(kind: ErrorKind)
  datatype Root = Root(id: Id, title: string, state: RootState, isDefault: bool)
  datatype Activation = Activation(root: Id, discovery: nat, serial: nat)
  datatype Answer = Path(path: string) | Error(kind: ErrorKind)

  datatype Store = Store(discovery: nat, serial: nat, activations: map<Id, nat>, roots: seq<Root>)

  // ---------------------------------------------------------------- display order

  predicate NameAtMost(a: Root, b: Root) {
    TextAtMost(Lower(a.title), Lower(b.title)) && (TextAtMost(Lower(b.title), Lower(a.title)) ==> TextAtMost(a.id, b.id))
  }

  /** The default root first, then by name without regard to case, then by identity. */
  predicate AtMost(a: Root, b: Root) {
    (a.isDefault && !b.isDefault) || (a.isDefault == b.isDefault && NameAtMost(a, b))
  }

  lemma RootOrder(a: Root, b: Root, c: Root)
    ensures AtMost(a, b) || AtMost(b, a)
    ensures AtMost(a, b) && AtMost(b, c) ==> AtMost(a, c)
  {
    hide TextAtMost, Lower;
    TextIsOrdered(Lower(a.title), Lower(b.title), Lower(c.title));
    TextIsOrdered(Lower(b.title), Lower(c.title), Lower(a.title));
    TextIsOrdered(Lower(c.title), Lower(a.title), Lower(b.title));
    TextIsOrdered(a.id, b.id, c.id);
  }

  predicate InOrder(roots: seq<Root>) {
    forall i, j :: 0 <= i < j < |roots| ==> AtMost(roots[i], roots[j])
  }

  // ---------------------------------------------------------------- what each operation does

  predicate IsAt(roots: seq<Root>, i: int, id: Id) { 0 <= i < |roots| && roots[i].id == id }

  /** The first root with an identity. */
  predicate FirstAt(roots: seq<Root>, i: int, id: Id) {
    IsAt(roots, i, id) && forall j :: 0 <= j < i ==> roots[j].id != id
  }

  ghost predicate Known(roots: seq<Root>, id: Id) {
    exists i :: IsAt(roots, i, id)
  }

  predicate BeginsDiscovery(s: Store, token: nat, after: Store) {
    token == s.discovery + 1 && after == s.(discovery := token)
  }

  /** Only the newest discovery replaces the roots; doing so ends every activation. */
  predicate AppliesDiscovery(s: Store, token: nat, roots: seq<Root>, applied: bool, after: Store) {
    applied == (token == s.discovery) &&
    if applied then
      after == s.(activations := map[], roots := after.roots) && multiset(after.roots) == multiset(roots) && InOrder(after.roots)
    else after == s
  }

  predicate Startable(state: RootState) { state.Stopped? || state.Unavailable? }

  ghost predicate BeginsActivation(s: Store, id: Id, token: Option<Activation>, after: Store) {
    if exists i: nat :: FirstAt(s.roots, i, id) && Startable(s.roots[i].state) then
      exists i: nat :: FirstAt(s.roots, i, id) && Startable(s.roots[i].state) &&
        token == Some(Activation(id, s.discovery, s.serial + 1)) &&
        after == Store(s.discovery, s.serial + 1, s.activations[id := s.serial + 1], s.roots[i := s.roots[i].(state := Starting)])
    else token.None? && after == s
  }

  function Outcome(answer: Answer): RootState {
    match answer
    case Path(path) => Ready(path)
    case Error(kind) => if kind == Cancelled then Stopped else Unavailable(kind)
  }

  /** The token is the one its root is being started with, and no discovery has begun since. */
  predicate Live(s: Store, t: Activation) {
    t.discovery == s.discovery && t.root in s.activations && s.activations[t.root] == t.serial
  }

  ghost predicate Finishes(s: Store, t: Activation, answer: Answer, ready: Option<string>, after: Store) {
    if Live(s, t) && exists i: nat :: FirstAt(s.roots, i, t.root) && s.roots[i].state.Starting? then
      ready == (if answer.Path? then Some(answer.path) else None) &&
      exists i: nat :: FirstAt(s.roots, i, t.root) && s.roots[i].state.Starting? &&
        after == s.(activations := s.activations - {t.root}, roots := s.roots[i := s.roots[i].(state := Outcome(answer))])
    else ready.None? && after == s
  }

  // ---------------------------------------------------------------- the invariant

  predicate DistinctIds(roots: seq<Root>) {
    forall i, j :: 0 <= i < j < |roots| ==> roots[i].id != roots[j].id
  }

  /** What a provider is trusted to report: no root twice, none as already starting. */
  predicate Reportable(roots: seq<Root>) {
    DistinctIds(roots) && forall i :: 0 <= i < |roots| ==> !roots[i].state.Starting?
  }

  /** A root is Starting exactly while one activation of it is recorded. */
  ghost predicate StoreOk(s: Store) {
    DistinctIds(s.roots) &&
    (forall id :: id in s.activations ==> Known(s.roots, id) && s.activations[id] <= s.serial) &&
    (forall i :: 0 <= i < |s.roots| ==> (s.roots[i].state.Starting? <==> s.roots[i].id in s.activations))
  }

  function New(): Store { Store(0, 0, map[], []) }

  lemma NewIsOk()
    ensures StoreOk(New())
  {
  }

  lemma {:induction false} SameRoots(a: seq<Root>, b: seq<Root>)
    requires multiset(a) == multiset(b) && DistinctIds(a)
    ensures DistinctIds(b) && forall r :: r in b <==> r in a
  {
    forall r ensures r in b <==> r in a {
      assert r in b <==> r in multiset(b);
      assert r in a <==> r in multiset(a);
    }
    forall i, j | 0 <= i < j < |b| ensures b[i].id != b[j].id {
      if b[i].id == b[j].id {
        OnceEach(a, b[i], b[j]);
        if b[i] == b[j] {
          TwiceInside(b, i, j);
          Singles(a, b[i]);
        }
      }
    }
  }

  lemma OnceEach(a: seq<Root>, x: Root, y: Root)
    requires DistinctIds(a) && x in a && y in a && x.id == y.id
    ensures x == y
  {
  }

  lemma TwiceInside(b: seq<Root>, i: nat, j: nat)
    requires i < j < |b| && b[i] == b[j]
    ensures multiset(b)[b[i]] >= 2
  {
    assert b == b[..j] + [b[j]] + b[j + 1..];
    assert b[i] in b[..j];
    assert multiset(b[..j])[b[i]] >= 1;
  }

  lemma LastIsNew(a: seq<Root>)
    requires DistinctIds(a) && a != []
    ensures a[|a| - 1] !in a[..|a| - 1]
  {
  }

  lemma {:induction false} Singles(a: seq<Root>, x: Root)
    requires DistinctIds(a)
    ensures multiset(a)[x] <= 1
  {
    if a != [] {
      var init, last := a[..|a| - 1], a[|a| - 1];
      assert a == init + [last];
      Singles(init, x);
      LastIsNew(a);
      assert x !in init ==> multiset(init)[x] == 0;
    }
  }

  /** Accepting a snapshot keeps the store in order exactly when the snapshot is reportable. */
  lemma DiscoveryKeepsIff(s: Store, token: nat, roots: seq<Root>, after: Store)
    requires StoreOk(s) && AppliesDiscovery(s, token, roots, true, after)
    ensures StoreOk(after) <==> Reportable(roots)
  {
    if Reportable(roots) {
      SameRoots(roots, after.roots);
      forall i | 0 <= i < |after.roots| ensures !after.roots[i].state.Starting? {
        assert after.roots[i] in roots;
      }
    }
    if StoreOk(after) {
      SameRoots(after.roots, roots);
      forall i | 0 <= i < |roots| ensures !roots[i].state.Starting? {
        assert roots[i] in after.roots;
      }
    }
  }

  /** Changing one root's state together with its record. */
  lemma StateChangeKeeps(s: Store, i: nat, state: RootState, activations: map<Id, nat>, serial: nat)
    requires StoreOk(s) && i < |s.roots| && s.serial <= serial
    requires forall id :: id in activations && id != s.roots[i].id <==> id in s.activations && id != s.roots[i].id
    requires forall id :: id in activations ==> activations[id] <= serial
    requires s.roots[i].id in activations <==> state.Starting?
    ensures StoreOk(s.(serial := serial, activations := activations, roots := s.roots[i := s.roots[i].(state := state)]))
  {
    var after := s.roots[i := s.roots[i].(state := state)];
    forall id | id in activations ensures Known(after, id) {
      if id == s.roots[i].id {
        assert IsAt(after, i, id);
      } else {
        var j :| IsAt(s.roots, j, id);
        assert IsAt(after, j, id);
      }
    }
  }

  lemma BeginKeeps(s: Store, id: Id, token: Option<Activation>, after: Store)
    requires StoreOk(s) && BeginsActivation(s, id, token, after)
    ensures StoreOk(after)
  {
    hide StoreOk;
    if token.Some? {
      var i: nat :| FirstAt(s.roots, i, id) && Startable(s.roots[i].state) &&
        after == Store(s.discovery, s.serial + 1, s.activations[id := s.serial + 1], s.roots[i := s.roots[i].(state := Starting)]);
      SerialsAreOld(s);
      StateChangeKeeps(s, i, Starting, s.activations[id := s.serial + 1], s.serial + 1);
    }
  }

  lemma SerialsAreOld(s: Store)
    requires StoreOk(s)
    ensures forall id :: id in s.activations ==> s.activations[id] <= s.serial
  {
  }

  lemma FinishKeeps(s: Store, t: Activation, answer: Answer, ready: Option<string>, after: Store)
    requires StoreOk(s) && Finishes(s, t, answer, ready, after)
    ensures StoreOk(after)
  {
    hide StoreOk;
    if after != s {
      var i: nat :| FirstAt(s.roots, i, t.root) && s.roots[i].state.Starting? &&
        after == s.(activations := s.activations - {t.root}, roots := s.roots[i := s.roots[i].(state := Outcome(answer))]);
      SerialsAreOld(s);
      StateChangeKeeps(s, i, Outcome(answer), s.activations - {t.root}, s.serial);
    }
  }

  /** A live token's root is there and Starting, so nothing but liveness decides whether it takes effect. */
  lemma LiveRootIsStarting(s: Store, t: Activation)
    requires StoreOk(s) && Live(s, t)
    ensures exists i: nat :: FirstAt(s.roots, i, t.root) && s.roots[i].state.Starting?
  {
    var i :| IsAt(s.roots, i, t.root);
    assert FirstAt(s.roots, i, t.root);
  }

  lemma FinishTakesEffectIffLive(s: Store, t: Activation, answer: Answer, ready: Option<string>, after: Store)
    requires StoreOk(s) && Finishes(s, t, answer, ready, after)
    ensures after != s <==> Live(s, t)
    ensures Live(s, t) ==> t.root !in after.activations && ready == if answer.Path? then Some(answer.path) else None
  {
    if Live(s, t) {
      LiveRootIsStarting(s, t);
    }
  }
}
