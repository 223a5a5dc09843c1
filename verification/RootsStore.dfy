/** The store of platform roots as the host calls it, and what holds over every run of calls. */
module RootsStore {
  import opened TextOrder
  import opened RootsModel

  // ---------------------------------------------------------------- runs

  datatype Event =
    | BeginDiscovery(discovery: nat)
    | ApplyDiscovery(snapshot: nat, roots: seq<Root>, applied: bool)
    | BeginActivation(id: Id, issued: Option<Activation>)
    | FinishActivation(token: Activation, answer: Answer, ready: Option<string>)

  ghost predicate Happens(s: Store, e: Event, after: Store) {
    match e
    case BeginDiscovery(token) => BeginsDiscovery(s, token, after)
    case ApplyDiscovery(token, roots, applied) => (applied ==> Reportable(roots)) && AppliesDiscovery(s, token, roots, applied, after)
    case BeginActivation(id, token) => BeginsActivation(s, id, token, after)
    case FinishActivation(token, answer, ready) => Finishes(s, token, answer, ready, after)
  }

  ghost predicate Run(stores: seq<Store>, events: seq<Event>) {
    |stores| == |events| + 1 && stores[0] == New() && forall i :: 0 <= i < |events| ==> Happens(stores[i], events[i], stores[i + 1])
  }

  lemma EventKeeps(s: Store, e: Event, after: Store)
    requires StoreOk(s) && Happens(s, e, after)
    ensures StoreOk(after)
  {
    match e {
      case BeginDiscovery(_) =>
      case ApplyDiscovery(token, roots, applied) =>
        if applied {
          DiscoveryKeepsIff(s, token, roots, after);
        }
      case BeginActivation(id, token) => BeginKeeps(s, id, token, after);
      case FinishActivation(token, answer, ready) => FinishKeeps(s, token, answer, ready, after);
    }
  }

  /** In every reachable store a root is Starting exactly while one activation of it is recorded. */
  lemma {:induction false} RunsKeep(stores: seq<Store>, events: seq<Event>, n: nat)
    requires Run(stores, events) && n < |stores|
    ensures StoreOk(stores[n])
  {
    hide StoreOk, Happens;
    if n == 0 {
      NewIsOk();
    } else {
      RunsKeep(stores, events, n - 1);
      EventKeeps(stores[n - 1], events[n - 1], stores[n]);
    }
  }

  /** The token belongs to the past: its serial has been handed out. */
  predicate Issued(s: Store, t: Activation) { t.serial <= s.serial && t.discovery <= s.discovery }

  /** The event ends the life of a token. */
  predicate Ends(s: Store, e: Event, t: Activation) {
    e.BeginDiscovery? || (e.ApplyDiscovery? && e.applied) || (e.FinishActivation? && e.token == t && Live(s, t))
  }

  /** A live token lives on through everything else; a token that is not live never comes back. */
  lemma LifeOfAToken(s: Store, e: Event, after: Store, t: Activation)
    requires StoreOk(s) && Happens(s, e, after) && Issued(s, t)
    ensures Issued(after, t)
    ensures Live(after, t) <==> Live(s, t) && !Ends(s, e, t)
  {
    match e {
      case BeginDiscovery(_) =>
      case ApplyDiscovery(_, _, _) =>
      case BeginActivation(id, issued) =>
        if issued.Some? {
          var i: nat :| FirstAt(s.roots, i, id) && Startable(s.roots[i].state) && issued == Some(Activation(id, s.discovery, s.serial + 1)) &&
            after == Store(s.discovery, s.serial + 1, s.activations[id := s.serial + 1], s.roots[i := s.roots[i].(state := Starting)]);
          assert s.roots[i].id !in s.activations;
        }
      case FinishActivation(token, answer, ready) =>
        FinishTakesEffectIffLive(s, token, answer, ready, after);
        if Live(s, token) {
          LiveRootIsStarting(s, token);
          if Live(s, t) && t.root == token.root {
            assert t == token;
          }
        }
    }
  }

  /** Nothing between events n and m ended the token's life. */
  predicate Undisturbed(stores: seq<Store>, events: seq<Event>, t: Activation, n: nat, m: nat)
    requires |stores| == |events| + 1 && m <= |events|
  {
    forall i :: n < i < m ==> !Ends(stores[i], events[i], t)
  }

  lemma {:induction false} LiveUntil(stores: seq<Store>, events: seq<Event>, t: Activation, n: nat, m: nat)
    requires Run(stores, events) && n < m <= |events| && events[n].BeginActivation? && events[n].issued == Some(t)
    ensures Issued(stores[m], t)
    ensures Live(stores[m], t) <==> Undisturbed(stores, events, t, n, m)
    decreases m
  {
    hide Ends, StoreOk, Live;
    RunsKeep(stores, events, m - 1);
    if m == n + 1 {
      IssuedTokenIsLive(stores[n], events[n].id, t, stores[m]);
    } else {
      LiveUntil(stores, events, t, n, m - 1);
      LifeOfAToken(stores[m - 1], events[m - 1], stores[m], t);
      assert Undisturbed(stores, events, t, n, m) <==> Undisturbed(stores, events, t, n, m - 1) && !Ends(stores[m - 1], events[m - 1], t);
    }
  }

  lemma IssuedTokenIsLive(s: Store, id: Id, t: Activation, after: Store)
    requires BeginsActivation(s, id, Some(t), after)
    ensures Live(after, t) && Issued(after, t)
  {
  }

  /** A result takes effect exactly when, since its activation began, no discovery has begun, none has been
      applied, and the same activation has not been finished before: at most once, and never late. */
  lemma ResultCountsIffUndisturbed(stores: seq<Store>, events: seq<Event>, n: nat, m: nat)
    requires Run(stores, events) && n < m < |events|
    requires events[n].BeginActivation? && events[n].issued.Some? && events[m].FinishActivation? && events[m].token == events[n].issued.value
    ensures stores[m + 1] != stores[m] <==> Undisturbed(stores, events, events[m].token, n, m)
    ensures events[m].ready.Some? <==> events[m].answer.Path? && Undisturbed(stores, events, events[m].token, n, m)
  {
    hide StoreOk, Undisturbed;
    var t := events[m].token;
    LiveUntil(stores, events, t, n, m);
    RunsKeep(stores, events, m);
    assert Happens(stores[m], events[m], stores[m + 1]);
    FinishTakesEffectIffLive(stores[m], t, events[m].answer, events[m].ready, stores[m + 1]);
  }

  // ---------------------------------------------------------------- discoveries over a run

  lemma DiscoveryStep(s: Store, e: Event, after: Store)
    requires Happens(s, e, after)
    ensures after.discovery == if e.BeginDiscovery? then s.discovery + 1 else s.discovery
    ensures after.serial == if e.BeginActivation? && e.issued.Some? then s.serial + 1 else s.serial
    ensures e.BeginActivation? && e.issued.Some? ==> e.issued.value == Activation(e.id, s.discovery, after.serial)
    ensures e.BeginDiscovery? ==> e.discovery == after.discovery
  {
  }

  /** The generation of discoveries stands still exactly while none begins; serials never fall. */
  lemma {:induction false} CountersGrow(stores: seq<Store>, events: seq<Event>, n: nat, m: nat)
    requires Run(stores, events) && n <= m < |stores|
    ensures stores[n].discovery <= stores[m].discovery && stores[n].serial <= stores[m].serial
    ensures stores[n].discovery == stores[m].discovery <==> forall i :: n <= i < m ==> !events[i].BeginDiscovery?
    decreases m
  {
    hide Happens;
    if n < m {
      CountersGrow(stores, events, n, m - 1);
      DiscoveryStep(stores[m - 1], events[m - 1], stores[m]);
    }
  }

  /** A snapshot is applied exactly when no later discovery has begun: late ones never, repeated ones again. */
  lemma SnapshotCountsIffNewest(stores: seq<Store>, events: seq<Event>, n: nat, m: nat)
    requires Run(stores, events) && n < m < |events| && events[n].BeginDiscovery? && events[m].ApplyDiscovery?
    requires events[m].snapshot == events[n].discovery
    ensures events[m].applied <==> forall i :: n < i < m ==> !events[i].BeginDiscovery?
  {
    DiscoveryStep(stores[n], events[n], stores[n + 1]);
    CountersGrow(stores, events, n + 1, m);
    assert Happens(stores[m], events[m], stores[m + 1]);
  }

  /** What is shown after a snapshot: all its roots and no others, a default one before one that is not, then by
      name without regard to case, then by identity. */
  lemma SnapshotIsShownInOrder(s: Store, token: nat, roots: seq<Root>, after: Store, i: nat, j: nat)
    requires AppliesDiscovery(s, token, roots, true, after) && i < j < |after.roots|
    ensures multiset(after.roots) == multiset(roots)
    ensures var a, b := after.roots[i], after.roots[j];
            (b.isDefault ==> a.isDefault) &&
            (a.isDefault == b.isDefault ==> TextAtMost(Lower(a.title), Lower(b.title))) &&
            (a.isDefault == b.isDefault && Lower(a.title) == Lower(b.title) ==> TextAtMost(a.id, b.id))
  {
    hide TextAtMost, Lower;
    assert AtMost(after.roots[i], after.roots[j]);
  }

  /** What a result makes of its root: ready at the path, stopped again if it was cancelled, unavailable for any
      other reason; every other root stays as it is. */
  lemma ResultSetsItsRoot(s: Store, t: Activation, answer: Answer, ready: Option<string>, after: Store, i: nat)
    requires StoreOk(s) && Finishes(s, t, answer, ready, after) && Live(s, t) && i < |s.roots|
    ensures |after.roots| == |s.roots| && after.roots[i].id == s.roots[i].id
    ensures s.roots[i].id != t.root ==> after.roots[i] == s.roots[i]
    ensures s.roots[i].id == t.root ==>
              (answer.Path? ==> after.roots[i].state == Ready(answer.path)) &&
              (answer == Error(Cancelled) ==> after.roots[i].state == Stopped) &&
              (answer.Error? && answer.kind != Cancelled ==> after.roots[i].state == Unavailable(answer.kind))
  {
    LiveRootIsStarting(s, t);
    var k: nat :| FirstAt(s.roots, k, t.root) && s.roots[k].state.Starting? &&
      after == s.(activations := s.activations - {t.root}, roots := s.roots[k := s.roots[k].(state := Outcome(answer))]);
  }

  // ---------------------------------------------------------------- starting roots over a run

  /** Event n handed out the token. */
  predicate IssuesAt(events: seq<Event>, n: nat, t: Activation) {
    n < |events| && events[n].BeginActivation? && events[n].issued == Some(t)
  }

  lemma SerialsDiffer(stores: seq<Store>, events: seq<Event>, n: nat, t: Activation, k: nat, u: Activation)
    requires Run(stores, events) && IssuesAt(events, n, t) && IssuesAt(events, k, u) && t.serial == u.serial
    ensures n == k && t == u
  {
    hide Happens;
    DiscoveryStep(stores[n], events[n], stores[n + 1]);
    DiscoveryStep(stores[k], events[k], stores[k + 1]);
    if n < k {
      CountersGrow(stores, events, n + 1, k);
    } else if k < n {
      CountersGrow(stores, events, k + 1, n);
    }
  }

  lemma RecordStays(s: Store, e: Event, after: Store, id: Id)
    requires StoreOk(s) && Happens(s, e, after) && id in after.activations && !(e.BeginActivation? && e.issued.Some? && e.id == id)
    ensures id in s.activations && after.activations[id] == s.activations[id]
  {
  }

  /** The event that issued what is recorded for a root. */
  lemma {:induction false} RecordedToken(stores: seq<Store>, events: seq<Event>, m: nat, id: Id) returns (n: nat, t: Activation)
    requires Run(stores, events) && m < |stores| && id in stores[m].activations
    ensures n < m && IssuesAt(events, n, t) && t.root == id && t.serial == stores[m].activations[id]
    decreases m
  {
    hide Happens, StoreOk;
    assert m > 0;
    RunsKeep(stores, events, m - 1);
    var e := events[m - 1];
    if e.BeginActivation? && e.issued.Some? && e.id == id {
      n, t := m - 1, e.issued.value;
      IssuedIsRecorded(stores[m - 1], e, stores[m]);
    } else {
      RecordStays(stores[m - 1], e, stores[m], id);
      n, t := RecordedToken(stores, events, m - 1, id);
    }
  }

  lemma IssuedIsRecorded(s: Store, e: Event, after: Store)
    requires Happens(s, e, after) && e.BeginActivation? && e.issued.Some?
    ensures e.issued.value.root == e.id && e.id in after.activations && after.activations[e.id] == e.issued.value.serial
  {
  }

  /** In every run a root is Starting exactly while an activation of it is recorded; that activation is the
      one token ever issued under its serial, and it is live exactly when no discovery has begun since. */
  lemma StartingHasOneActivation(stores: seq<Store>, events: seq<Event>, m: nat, i: nat) returns (n: nat, t: Activation)
    requires Run(stores, events) && m < |stores| && i < |stores[m].roots| && stores[m].roots[i].state.Starting?
    ensures n < m && IssuesAt(events, n, t) && t.root == stores[m].roots[i].id
    ensures t.root in stores[m].activations && stores[m].activations[t.root] == t.serial
    ensures forall k, u :: IssuesAt(events, k, u) && u.serial == t.serial ==> k == n && u == t
    ensures Live(stores[m], t) <==> forall k :: n < k < m ==> !events[k].BeginDiscovery?
  {
    hide Happens;
    RunsKeep(stores, events, m);
    var id := stores[m].roots[i].id;
    n, t := RecordedToken(stores, events, m, id);
    forall k, u | IssuesAt(events, k, u) && u.serial == t.serial ensures k == n && u == t {
      SerialsDiffer(stores, events, n, t, k, u);
    }
    DiscoveryStep(stores[n], events[n], stores[n + 1]);
    CountersGrow(stores, events, n + 1, m);
  }

  /** Results carry tokens that were handed out: nothing else can make one. */
  ghost predicate Handed(events: seq<Event>) {
    forall m :: 0 <= m < |events| && events[m].FinishActivation? ==> exists n :: 0 <= n < m && IssuesAt(events, n, events[m].token)
  }

  /** The recorded activation of a root that a discovery has overtaken cannot be finished any more. */
  lemma OvertakenIsDead(stores: seq<Store>, events: seq<Event>, n: nat, m: nat, id: Id, k: nat, t: Activation)
    requires Run(stores, events) && n < m < |stores| && events[n].BeginDiscovery?
    requires id in stores[n].activations && id in stores[m].activations && stores[m].activations[id] == stores[n].activations[id]
    requires IssuesAt(events, k, t) && t.root == id
    ensures !Live(stores[m], t)
  {
    hide Happens;
    if Live(stores[m], t) {
      var n', t' := RecordedToken(stores, events, n, id);
      SerialsDiffer(stores, events, k, t, n', t');
      DiscoveryStep(stores[k], events[k], stores[k + 1]);
      DiscoveryStep(stores[n], events[n], stores[n + 1]);
      CountersGrow(stores, events, k, n);
      CountersGrow(stores, events, n + 1, m);
    }
  }

  /** One event on a root whose recorded activation is dead. */
  lemma DeadRootStays(s: Store, e: Event, after: Store, i: nat)
    requires StoreOk(s) && Happens(s, e, after) && i < |s.roots| && s.roots[i].state.Starting? && !(e.ApplyDiscovery? && e.applied)
    requires e.FinishActivation? && e.token.root == s.roots[i].id ==> !Live(s, e.token)
    ensures i < |after.roots| && after.roots[i] == s.roots[i]
    ensures s.roots[i].id in s.activations && s.roots[i].id in after.activations
    ensures after.activations[s.roots[i].id] == s.activations[s.roots[i].id]
    ensures e.BeginActivation? && e.id == s.roots[i].id ==> e.issued.None?
  {
    if e.BeginActivation? && e.issued.Some? {
      var j: nat :| FirstAt(s.roots, j, e.id) && Startable(s.roots[j].state) &&
        after == Store(s.discovery, s.serial + 1, s.activations[e.id := s.serial + 1], s.roots[j := s.roots[j].(state := Starting)]);
    } else if e.FinishActivation? && Live(s, e.token) {
      LiveRootIsStarting(s, e.token);
      var j: nat :| FirstAt(s.roots, j, e.token.root) && s.roots[j].state.Starting? &&
        after == s.(activations := s.activations - {e.token.root}, roots := s.roots[j := s.roots[j].(state := Outcome(e.answer))]);
    }
  }

  /** A root that was being started when a discovery began stays exactly as it is, whatever happens to the
      other roots, until some snapshot is applied; starting it again is refused all that time. */
  lemma {:induction false} CaughtRootStays(stores: seq<Store>, events: seq<Event>, n: nat, m: nat, i: nat)
    requires Run(stores, events) && Handed(events) && n < m < |stores| && events[n].BeginDiscovery?
    requires i < |stores[n].roots| && stores[n].roots[i].state.Starting?
    requires forall k :: n < k < m ==> !(events[k].ApplyDiscovery? && events[k].applied)
    ensures i < |stores[m].roots| && stores[m].roots[i] == stores[n].roots[i]
    ensures var id := stores[n].roots[i].id;
            id in stores[n].activations && id in stores[m].activations && stores[m].activations[id] == stores[n].activations[id]
    ensures m < |events| && events[m].BeginActivation? && events[m].id == stores[n].roots[i].id ==> events[m].issued.None?
    decreases m
  {
    hide Happens, StoreOk, Live;
    RunsKeep(stores, events, m - 1);
    RunsKeep(stores, events, m);
    var id := stores[n].roots[i].id;
    if n + 1 < m {
      CaughtRootStays(stores, events, n, m - 1, i);
      if events[m - 1].FinishActivation? && events[m - 1].token.root == id {
        var k :| 0 <= k < m - 1 && IssuesAt(events, k, events[m - 1].token);
        OvertakenIsDead(stores, events, n, m - 1, id, k, events[m - 1].token);
      }
    }
    DeadRootStays(stores[m - 1], events[m - 1], stores[m], i);
    if m < |events| && events[m].BeginActivation? {
      DeadRootStays(stores[m], events[m], stores[m + 1], i);
    }
  }

  // ---------------------------------------------------------------- the store itself

  class PlatformRootsStore {
    var discovery: nat
    var activationSerial: nat
    var activations: map<Id, nat>
    var roots: seq<Root>

    function State(): Store
      reads this
    {
      Store(discovery, activationSerial, activations, roots)
    }

    constructor ()
      ensures State() == New() && StoreOk(State())
    {
      discovery, activationSerial, activations, roots := 0, 0, map[], [];
    }

    method StartDiscovery() returns (token: nat)
      modifies this`discovery
      ensures BeginsDiscovery(old(State()), token, State())
    {
      discovery := discovery + 1;
      return discovery;
    }

    method TakeSnapshot(token: nat, snapshot: seq<Root>) returns (applied: bool)
      modifies this`activations, this`roots
      ensures AppliesDiscovery(old(State()), token, snapshot, applied, State())
      ensures old(StoreOk(State())) ==> (StoreOk(State()) <==> !applied || Reportable(snapshot))
    {
      hide AtMost, StoreOk, Reportable;
      if token != discovery {
        return false;
      }
      var sorted := SortRoots(snapshot);
      activations := map[];
      roots := sorted;
      applied := true;
      if old(StoreOk(State())) {
        DiscoveryKeepsIff(old(State()), token, snapshot, State());
      }
    }

    method FindRoot(id: Id) returns (index: Option<nat>)
      ensures index.Some? ==> FirstAt(roots, index.value, id)
      ensures index.None? ==> !Known(roots, id)
    {
      var i := 0;
      while i < |roots|
        invariant i <= |roots| && forall j :: 0 <= j < i ==> roots[j].id != id
      {
        if roots[i].id == id {
          return Some(i);
        }
        i := i + 1;
      }
      return None;
    }

    method StartRoot(id: Id) returns (token: Option<Activation>)
      requires StoreOk(State())
      modifies this`activationSerial, this`activations, this`roots
      ensures BeginsActivation(old(State()), id, token, State()) && StoreOk(State())
    {
      hide StoreOk;
      var index := FindRoot(id);
      if index.None? {
        return None;
      }
      var i := index.value;
      if roots[i].state.Starting? || roots[i].state.Ready? {
        return None;
      }
      assert FirstAt(old(roots), i, id) && Startable(old(roots)[i].state);
      roots := roots[i := roots[i].(state := Starting)];
      activationSerial := activationSerial + 1;
      activations := activations[id := activationSerial];
      token := Some(Activation(id, discovery, activationSerial));
      BeginKeeps(old(State()), id, token, State());
    }

    method FinishRoot(token: Activation, answer: Answer) returns (ready: Option<string>)
      requires StoreOk(State())
      modifies this`activations, this`roots
      ensures Finishes(old(State()), token, answer, ready, State()) && StoreOk(State())
    {
      hide StoreOk;
      if token.discovery != discovery || token.root !in activations || activations[token.root] != token.serial {
        return None;
      }
      LiveRootIsStarting(State(), token);
      var index := FindRoot(token.root);
      if index.None? {
        return None;
      }
      var i := index.value;
      if !roots[i].state.Starting? {
        return None;
      }
      assert FirstAt(old(roots), i, token.root) && old(roots)[i].state.Starting?;
      match answer {
        case Path(path) =>
          roots := roots[i := roots[i].(state := Ready(path))];
          ready := Some(path);
        case Error(kind) =>
          roots := roots[i := roots[i].(state := if kind == Cancelled then Stopped else Unavailable(kind))];
          ready := None;
      }
      activations := activations - {token.root};
      FinishKeeps(old(State()), token, answer, ready, State());
    }
  }

  /** Stable insertion into display order. */
  method InsertRoot(s: seq<Root>, x: Root) returns (r: seq<Root>)
    requires InOrder(s)
    ensures InOrder(r) && multiset(r) == multiset(s) + multiset{x}
  {
    hide AtMost;
    var i := |s|;
    while i > 0 && !AtMost(s[i - 1], x)
      invariant 0 <= i <= |s| && forall k :: i <= k < |s| ==> !AtMost(s[k], x)
    {
      i := i - 1;
    }
    r := s[..i] + [x] + s[i..];
    forall k | 0 <= k < i ensures AtMost(s[k], x) {
      RootOrder(s[k], s[i - 1], x);
    }
    forall k | i <= k < |s| ensures AtMost(x, s[k]) {
      RootOrder(x, s[k], x);
    }
    assert s == s[..i] + s[i..];
  }

  method SortRoots(s: seq<Root>) returns (r: seq<Root>)
    ensures InOrder(r) && multiset(r) == multiset(s)
  {
    r := [];
    var i := 0;
    while i < |s|
      invariant i <= |s| && InOrder(r) && multiset(r) == multiset(s[..i])
    {
      r := InsertRoot(r, s[i]);
      assert s[..i + 1] == s[..i] + [s[i]];
      i := i + 1;
    }
    assert s[..i] == s;
  }
}
