/** The streamed rows of a platform surface: batches arrive late, twice or out of turn, and only those of
    the current request may show. */
module SurfaceStore {
  datatype Option<T> = None | Some(value: T)

  const LISTING_BATCH_MAX: nat := 512

  type Location = nat

  datatype ErrorKind = NotAvailable | Unsupported | NotFound | PermissionDenied | TimedOut | Cancelled | Failed
  datatype Item = Item(id: nat)
  datatype Crumb = Crumb(location: Location)
  datatype Token = Token(generation: nat, location: Location)
  datatype Batch = Batch(token: Token, breadcrumbs: Option<seq<Crumb>>, items: seq<Item>, isLast: bool)
  datatype Phase = Idle | Loading | Ready | Unavailable(kind: ErrorKind)
  datatype Verdict = Applied | Stale | RejectedOversized | RejectedAfterCompletion

  datatype Surface = Surface(generation: nat, location: Option<Location>, phase: Phase, breadcrumbs: seq<Crumb>, items: seq<Item>)

  function New(): Surface { Surface(0, None, Idle, [], []) }

  predicate Current(s: Surface, t: Token) { t.generation == s.generation && s.location == Some(t.location) }

  datatype Event =
    | Begin(location: Location, request: Token)
    | Apply(batch: Batch, verdict: Verdict)
    | Fail(token: Token, kind: ErrorKind, accepted: bool)

  /** What a call reports and leaves behind. */
  predicate Happens(s: Surface, e: Event, after: Surface) {
    match e
    case Begin(location, request) =>
      request == Token(s.generation + 1, location) && after == Surface(s.generation + 1, Some(location), Loading, [], [])
    case Apply(batch, verdict) =>
      if !Current(s, batch.token) then verdict.Stale? && after == s
      else if !s.phase.Loading? then verdict.RejectedAfterCompletion? && after == s
      else if |batch.items| > LISTING_BATCH_MAX then verdict.RejectedOversized? && after == s
      else
        verdict.Applied? &&
        after == s.(items := s.items + batch.items, breadcrumbs := if batch.breadcrumbs.Some? then batch.breadcrumbs.value else s.breadcrumbs,
                    phase := if batch.isLast then Ready else Loading)
    case Fail(token, kind, accepted) =>
      if Current(s, token) && s.phase.Loading? then accepted && after == s.(phase := Unavailable(kind), items := [], breadcrumbs := [])
      else !accepted && after == s
  }

  predicate Run(surfaces: seq<Surface>, events: seq<Event>) {
    |surfaces| == |events| + 1 && surfaces[0] == New() && forall i :: 0 <= i < |events| ==> Happens(surfaces[i], events[i], surfaces[i + 1])
  }

  // ---------------------------------------------------------------- what the rows are

  /** The rows of the batches accepted since the last request began, in the order they were accepted. */
  function Accepted(events: seq<Event>): seq<Item> {
    if events == [] then []
    else
      var last := events[|events| - 1];
      if last.Begin? then []
      else Accepted(events[..|events| - 1]) + if last.Apply? && last.verdict.Applied? then last.batch.items else []
  }

  /** The surface shows exactly the accepted rows while it loads and once it is ready, and none otherwise. */
  lemma {:induction false} RowsAreTheAcceptedOnes(surfaces: seq<Surface>, events: seq<Event>, n: nat)
    requires Run(surfaces, events) && n < |surfaces|
    ensures surfaces[n].items == if surfaces[n].phase.Loading? || surfaces[n].phase.Ready? then Accepted(events[..n]) else []
    ensures surfaces[n].phase.Idle? <==> surfaces[n].location.None?
  {
    if n > 0 {
      RowsAreTheAcceptedOnes(surfaces, events, n - 1);
      assert events[..n][..n - 1] == events[..n - 1];
      assert Happens(surfaces[n - 1], events[n - 1], surfaces[n]);
    }
  }

  lemma {:induction false} GenerationsGrow(surfaces: seq<Surface>, events: seq<Event>, n: nat, m: nat)
    requires Run(surfaces, events) && n <= m < |surfaces|
    ensures surfaces[n].generation <= surfaces[m].generation
    ensures surfaces[n].generation == surfaces[m].generation <==> forall i :: n <= i < m ==> !events[i].Begin?
    decreases m
  {
    if n < m {
      GenerationsGrow(surfaces, events, n, m - 1);
      assert Happens(surfaces[m - 1], events[m - 1], surfaces[m]);
    }
  }

  /** Event i ends the request that is loading. */
  predicate Completes(e: Event) {
    (e.Apply? && e.verdict.Applied? && e.batch.isLast) || (e.Fail? && e.accepted)
  }

  lemma {:induction false} LoadingUntil(surfaces: seq<Surface>, events: seq<Event>, n: nat, m: nat)
    requires Run(surfaces, events) && n < m < |surfaces| && events[n].Begin? && forall i :: n < i < m ==> !events[i].Begin?
    ensures Current(surfaces[m], events[n].request)
    ensures surfaces[m].phase.Loading? <==> forall i :: n < i < m ==> !Completes(events[i])
    decreases m
  {
    assert Happens(surfaces[m - 1], events[m - 1], surfaces[m]);
    if n + 1 < m {
      LoadingUntil(surfaces, events, n, m - 1);
    }
  }

  /** A batch is accepted exactly when no later request has begun, the request has not completed, and the
      batch is within its bound: late, foreign and repeated final batches change nothing. */
  lemma BatchCountsIff(surfaces: seq<Surface>, events: seq<Event>, n: nat, m: nat)
    requires Run(surfaces, events) && n < m < |events| && events[n].Begin? && events[m].Apply? && events[m].batch.token == events[n].request
    ensures events[m].verdict.Applied? <==>
            (forall i :: n < i < m ==> !events[i].Begin? && !Completes(events[i])) && |events[m].batch.items| <= LISTING_BATCH_MAX
    ensures !events[m].verdict.Applied? ==> surfaces[m + 1] == surfaces[m]
  {
    assert Happens(surfaces[m], events[m], surfaces[m + 1]) && Happens(surfaces[n], events[n], surfaces[n + 1]);
    GenerationsGrow(surfaces, events, n + 1, m);
    if forall i :: n < i < m ==> !events[i].Begin? {
      LoadingUntil(surfaces, events, n, m);
    }
  }

  /** Event n begins the newest request before event m. */
  predicate NewestAt(events: seq<Event>, n: int, m: nat) {
    0 <= n < m <= |events| && events[n].Begin? && forall i :: n < i < m ==> !events[i].Begin?
  }

  lemma {:induction false} CurrentIsNewest(surfaces: seq<Surface>, events: seq<Event>, m: nat, t: Token)
    requires Run(surfaces, events) && m < |surfaces|
    ensures Current(surfaces[m], t) <==> exists n :: NewestAt(events, n, m) && events[n].request == t
    decreases m
  {
    if m > 0 {
      CurrentIsNewest(surfaces, events, m - 1, t);
      assert Happens(surfaces[m - 1], events[m - 1], surfaces[m]);
      if events[m - 1].Begin? {
        assert NewestAt(events, m - 1, m);
      } else {
        forall n ensures NewestAt(events, n, m) <==> NewestAt(events, n, m - 1) {
        }
      }
    }
  }

  /** A batch is called stale exactly when its token, generation and location both, is not that of the newest
      request; of batches that are not, none of more than 512 rows is ever applied. */
  lemma StaleIffNotNewest(surfaces: seq<Surface>, events: seq<Event>, m: nat)
    requires Run(surfaces, events) && m < |events| && events[m].Apply?
    ensures events[m].verdict.Stale? <==> !exists n :: NewestAt(events, n, m) && events[n].request == events[m].batch.token
    ensures events[m].verdict.Applied? ==> |events[m].batch.items| <= 512
    ensures events[m].verdict.RejectedOversized? ==> |events[m].batch.items| > 512
  {
    CurrentIsNewest(surfaces, events, m, events[m].batch.token);
    assert Happens(surfaces[m], events[m], surfaces[m + 1]);
  }

  /** Once complete, a surface is frozen until the next request. */
  lemma {:induction false} FrozenOnceComplete(surfaces: seq<Surface>, events: seq<Event>, n: nat, m: nat)
    requires Run(surfaces, events) && n <= m < |surfaces| && !surfaces[n].phase.Loading?
    requires forall i :: n <= i < m ==> !events[i].Begin?
    ensures surfaces[m] == surfaces[n]
    decreases m
  {
    if n < m {
      FrozenOnceComplete(surfaces, events, n, m - 1);
      assert Happens(surfaces[m - 1], events[m - 1], surfaces[m]);
    }
  }

  // ---------------------------------------------------------------- the store itself

  class PlatformSurfaceStore {
    var generation: nat
    var location: Option<Location>
    var phase: Phase
    var breadcrumbs: seq<Crumb>
    var items: seq<Item>

    function State(): Surface
      reads this
    {
      Surface(generation, location, phase, breadcrumbs, items)
    }

    constructor ()
      ensures State() == New()
    {
      generation, location, phase, breadcrumbs, items := 0, None, Idle, [], [];
    }

    method BeginListing(target: Location) returns (request: Token, suggestedBatchSize: nat)
      modifies this
      ensures Happens(old(State()), Begin(target, request), State()) && suggestedBatchSize == LISTING_BATCH_MAX
    {
      generation := generation + 1;
      location := Some(target);
      phase := Loading;
      breadcrumbs := [];
      items := [];
      return Token(generation, target), LISTING_BATCH_MAX;
    }

    method ApplyBatch(batch: Batch) returns (verdict: Verdict)
      modifies this`phase, this`breadcrumbs, this`items
      ensures Happens(old(State()), Apply(batch, verdict), State())
    {
      if !Current(State(), batch.token) {
        return Stale;
      }
      if phase != Loading {
        return RejectedAfterCompletion;
      }
      if |batch.items| > LISTING_BATCH_MAX {
        return RejectedOversized;
      }
      if batch.breadcrumbs.Some? {
        breadcrumbs := batch.breadcrumbs.value;
      }
      items := items + batch.items;
      if batch.isLast {
        phase := Ready;
      }
      return Applied;
    }

    method FinishWithError(token: Token, kind: ErrorKind) returns (accepted: bool)
      modifies this`phase, this`breadcrumbs, this`items
      ensures Happens(old(State()), Fail(token, kind, accepted), State())
    {
      if !Current(State(), token) || phase != Loading {
        return false;
      }
      phase := Unavailable(kind);
      items := [];
      breadcrumbs := [];
      return true;
    }
  }
}
