/** Runs of operations on one lane: every reservation is accounted for, work starts in order of priority
    and recency, and a slot is only freed by the acknowledgement of the work that holds it. */
module AssetRuns {
  import opened AssetLane

  /** One operation with what it reported. */
  datatype Event =
    | Submit(request: Request, result: SubmitResult)
    | Start(started: Option<Request>)
    | Complete(finished: Request, done: bool)
    | Cancel(target: Request, outcome: CancelOutcome)
    | Retire(scope: nat, generation: nat, retired: seq<Request>)

  ghost predicate Happens(b: Budget, l: Lane, e: Event, after: Lane) {
    match e
    case Submit(r, result) => Submits(b, l, r, result, after)
    case Start(started) => Starts(b, l, started, after)
    case Complete(r, done) => Completes(l, r, done, after)
    case Cancel(r, outcome) => Cancels(l, r, outcome, after)
    case Retire(scope, generation, retired) => Retires(l, scope, generation, retired, after)
  }

  function New(): Lane { Lane([], map[], 0) }

  /** `lanes` are the states between the events. */
  ghost predicate Run(b: Budget, lanes: seq<Lane>, events: seq<Event>) {
    |lanes| == |events| + 1 && lanes[0] == New() && forall i :: 0 <= i < |events| ==> Happens(b, lanes[i], events[i], lanes[i + 1])
  }

  lemma EventKeeps(b: Budget, l: Lane, e: Event, after: Lane)
    requires LaneOk(b, l) && Happens(b, l, e, after)
    ensures LaneOk(b, after)
  {
    hide LaneOk, Submits, Starts, Completes, Cancels, Retires;
    match e
    case Submit(r, result) => SubmitKeeps(b, l, r, result, after);
    case Start(started) => StartKeeps(b, l, started, after);
    case Complete(r, done) => CompleteKeeps(b, l, r, done, after);
    case Cancel(r, outcome) => CancelKeeps(b, l, r, outcome, after);
    case Retire(scope, generation, retired) => RetireKeeps(b, l, scope, generation, retired, after);
  }

  /** Over every run each slot is reserved at most once and both budgets hold. */
  lemma {:induction false} RunsKeep(b: Budget, lanes: seq<Lane>, events: seq<Event>, n: nat)
    requires Run(b, lanes, events) && n < |lanes|
    ensures LaneOk(b, lanes[n])
  {
    hide LaneOk;
    if n == 0 {
      NewIsOk(b);
    } else {
      RunsKeep(b, lanes, events, n - 1);
      EventKeeps(b, lanes[n - 1], events[n - 1], lanes[n]);
    }
  }

  lemma NewIsOk(b: Budget)
    ensures LaneOk(b, New())
  {
  }

  /** The entry a start takes. */
  lemma StartedEntry(b: Budget, l: Lane, started: Option<Request>, after: Lane) returns (i: nat)
    requires Starts(b, l, started, after) && started.Some?
    ensures Highest(l.pending, i) && started == Some(l.pending[i].request) && after.pending == Without(l.pending, i)
    ensures after.active == l.active[SlotOf(l.pending[i].request) := Active(l.pending[i].request, false)]
  {
    hide Without, SlotOf, AtMost;
    i :| Highest(l.pending, i) && started == Some(l.pending[i].request) && after.pending == Without(l.pending, i) &&
      after.active == l.active[SlotOf(l.pending[i].request) := Active(l.pending[i].request, false)];
  }

  // ---------------------------------------------------------------- the ledger of reservations

  function Slots(pending: seq<Queued>): seq<Slot> {
    seq(|pending|, i requires 0 <= i < |pending| => SlotOf(pending[i].request))
  }

  function RequestSlots(rs: seq<Request>): seq<Slot> {
    seq(|rs|, i requires 0 <= i < |rs| => SlotOf(rs[i]))
  }

  /** The slot an event newly reserves. */
  function Accepted(e: Event): multiset<Slot> {
    if e.Submit? && (e.result.outcome == WasQueued || e.result.outcome == ReplacedLowerPriority) then multiset{SlotOf(e.request)} else multiset{}
  }

  /** Reservations that leave the queue to run. */
  function Started(e: Event): multiset<Slot> {
    if e.Start? && e.started.Some? then multiset{SlotOf(e.started.value)} else multiset{}
  }

  /** Reservations the event reports as given up while pending. */
  function Dropped(e: Event): multiset<Slot> {
    match e
    case Submit(_, result) => if result.evicted.Some? then multiset{SlotOf(result.evicted.value)} else multiset{}
    case Cancel(r, outcome) => if outcome == RemovedPending then multiset{SlotOf(r)} else multiset{}
    case Retire(_, _, retired) => multiset(RequestSlots(retired))
    case _ => multiset{}
  }

  function Finished(e: Event): multiset<Slot> {
    if e.Complete? && e.done then multiset{SlotOf(e.finished)} else multiset{}
  }

  function Total(f: Event -> multiset<Slot>, events: seq<Event>): multiset<Slot> {
    if events == [] then multiset{} else Total(f, events[..|events| - 1]) + f(events[|events| - 1])
  }

  lemma ReplacedSlot(pending: seq<Queued>, i: nat, e: Queued)
    requires i < |pending|
    ensures multiset(Slots(pending[i := e])) == multiset(Slots(pending)) - multiset{SlotOf(pending[i].request)} + multiset{SlotOf(e.request)}
  {
    assert Slots(pending[i := e]) == Slots(pending)[i := SlotOf(e.request)];
  }

  lemma RemovedSlot(pending: seq<Queued>, i: nat)
    requires i < |pending|
    ensures multiset(Slots(pending)) == multiset(Slots(Without(pending, i))) + multiset{SlotOf(pending[i].request)}
  {
    var s, x := Slots(pending), SlotOf(pending[i].request);
    assert Slots(Without(pending, i)) == s[..i] + s[i + 1..];
    assert s == s[..i] + [x] + s[i + 1..];
  }

  lemma AddedSlot(pending: seq<Queued>, e: Queued)
    ensures multiset(Slots(pending + [e])) == multiset(Slots(pending)) + multiset{SlotOf(e.request)}
  {
    assert Slots(pending + [e]) == Slots(pending) + [SlotOf(e.request)];
  }

  lemma AddedRequestSlot(rs: seq<Request>, r: Request)
    ensures multiset(RequestSlots(rs + [r])) == multiset(RequestSlots(rs)) + multiset{SlotOf(r)}
  {
    assert RequestSlots(rs + [r]) == RequestSlots(rs) + [SlotOf(r)];
  }

  lemma NoSlots()
    ensures Slots([]) == [] && RequestSlots([]) == []
  {
  }

  lemma {:induction false} SplitSlots(pending: seq<Queued>, scope: nat, generation: nat)
    ensures multiset(Slots(pending)) ==
            multiset(Slots(Staying(pending, scope, generation))) + multiset(RequestSlots(Leaving(pending, scope, generation)))
  {
    hide Slots, SlotOf, RequestSlots;
    NoSlots();
    if pending != [] {
      var init, last := pending[..|pending| - 1], pending[|pending| - 1];
      SplitSlots(init, scope, generation);
      assert pending == init + [last];
      AddedSlot(init, last);
      var stay, leave := Staying(init, scope, generation), Leaving(init, scope, generation);
      if Stale(last.request, scope, generation) {
        AddedRequestSlot(leave, last.request);
        assert stay + [] == stay;
      } else {
        AddedSlot(stay, last);
        assert leave + [] == leave;
      }
    }
  }

  /** The queue before, with what came in, is the queue after with what went out. */
  predicate Balanced(before: seq<Queued>, came: multiset<Slot>, after: seq<Queued>, went: multiset<Slot>) {
    multiset(Slots(before)) + came == multiset(Slots(after)) + went
  }

  lemma PutBalances(pending: seq<Queued>, i: nat, e: Queued)
    requires i < |pending|
    ensures Balanced(pending, multiset{SlotOf(e.request)}, pending[i := e], multiset{SlotOf(pending[i].request)})
    ensures SlotOf(e.request) == SlotOf(pending[i].request) ==> Balanced(pending, multiset{}, pending[i := e], multiset{})
  {
    hide Slots, Without, SlotOf;
    ReplacedSlot(pending, i, e);
    RemovedSlot(pending, i);
    var all, rest := multiset(Slots(pending)), multiset(Slots(Without(pending, i)));
    var old_, new_ := multiset{SlotOf(pending[i].request)}, multiset{SlotOf(e.request)};
    assert all == rest + old_;
    assert all - old_ == rest;
  }

  /** What an event adds to the queue and takes from it balances. */
  predicate EventBalanced(l: Lane, e: Event, after: Lane) {
    Balanced(l.pending, Accepted(e), after.pending, Started(e) + Dropped(e))
  }

  /** One entry takes the place of another: of its own slot, or of one that is reported as evicted. */
  lemma SlotTaken(l: Lane, i: nat, r: Request, result: SubmitResult, after: Lane)
    requires i < |l.pending| && after.pending == l.pending[i := Queued(l.sequence + 1, r)]
    requires (result == SubmitResult(Reprioritized, None) && SlotOf(l.pending[i].request) == SlotOf(r)) ||
             result == SubmitResult(ReplacedLowerPriority, Some(l.pending[i].request))
    ensures EventBalanced(l, Submit(r, result), after)
  {
    hide Slots, SlotOf;
    PutBalances(l.pending, i, Queued(l.sequence + 1, r));
    assert Started(Submit(r, result)) + Dropped(Submit(r, result)) == Dropped(Submit(r, result));
  }

  lemma SlotAdded(l: Lane, r: Request, result: SubmitResult, after: Lane)
    requires result == SubmitResult(WasQueued, None) && after.pending == l.pending + [Queued(l.sequence + 1, r)]
    ensures EventBalanced(l, Submit(r, result), after)
  {
    hide Slots, SlotOf;
    AddedSlot(l.pending, Queued(l.sequence + 1, r));
  }

  /** Entry i leaves the queue to run or by cancellation. */
  lemma SlotLeaves(l: Lane, e: Event, i: nat, after: Lane)
    requires i < |l.pending| && after.pending == Without(l.pending, i)
    requires (e.Start? && e.started == Some(l.pending[i].request)) ||
             (e.Cancel? && e.outcome == RemovedPending && SlotOf(l.pending[i].request) == SlotOf(e.target))
    ensures EventBalanced(l, e, after)
  {
    hide Slots, Without, SlotOf;
    RemovedSlot(l.pending, i);
  }

  lemma QueueStays(l: Lane, e: Event, after: Lane)
    requires after.pending == l.pending && (e.Submit? ==> e.result == SubmitResult(AlreadyScheduled, None) || e.result == SubmitResult(QueueFull, None))
    requires !e.Retire? && (e.Start? ==> e.started.None?) && (e.Cancel? ==> e.outcome != RemovedPending)
    ensures EventBalanced(l, e, after)
  {
  }

  lemma SubmitBalances(b: Budget, l: Lane, r: Request, result: SubmitResult, after: Lane)
    requires Submits(b, l, r, result, after)
    ensures EventBalanced(l, Submit(r, result), after)
  {
    hide EventBalanced, SlotOf, AtMost, Rank;
    var entry := Queued(l.sequence + 1, r);
    if result.outcome == WasQueued {
      SlotAdded(l, r, result, after);
    } else if result.outcome == Reprioritized {
      var i: nat :| QueuedAt(l, i, SlotOf(r)) && after.pending == l.pending[i := entry];
      SlotTaken(l, i, r, result, after);
    } else if result.outcome == ReplacedLowerPriority {
      var i: nat :| Lowest(l.pending, i) && result.evicted == Some(l.pending[i].request) && after.pending == l.pending[i := entry];
      SlotTaken(l, i, r, result, after);
    } else {
      QueueStays(l, Submit(r, result), after);
    }
  }

  lemma RetireBalancesSlots(l: Lane, scope: nat, generation: nat, after: Lane)
    requires after.pending == Staying(l.pending, scope, generation)
    ensures EventBalanced(l, Retire(scope, generation, Leaving(l.pending, scope, generation)), after)
  {
    hide Slots, RequestSlots, Staying, Leaving;
    SplitSlots(l.pending, scope, generation);
  }

  lemma EventBalances(b: Budget, l: Lane, e: Event, after: Lane)
    requires Happens(b, l, e, after)
    ensures EventBalanced(l, e, after)
  {
    hide EventBalanced, Without, Staying, Leaving, Signalled, SlotOf, AtMost, Submits, Starts, Running;
    match e {
      case Submit(r, result) => SubmitBalances(b, l, r, result, after);
      case Start(started) =>
        if started.Some? {
          var i := StartedEntry(b, l, started, after);
          SlotLeaves(l, e, i, after);
        } else {
          NothingStarts(b, l, after);
          QueueStays(l, e, after);
        }
      case Complete(_, _) => QueueStays(l, e, after);
      case Cancel(r, outcome) =>
        if outcome == RemovedPending {
          var i: nat :| CancellableAt(l, i, r) && after.pending == Without(l.pending, i);
          SlotLeaves(l, e, i, after);
        } else {
          QueueStays(l, e, after);
        }
      case Retire(scope, generation, _) => RetireBalancesSlots(l, scope, generation, after);
    }
  }

  lemma NothingStarts(b: Budget, l: Lane, after: Lane)
    requires Starts(b, l, None, after)
    ensures after == l
  {
  }

  /** The running slots change by what starts and what is acknowledged. */
  lemma ActiveBalances(b: Budget, l: Lane, e: Event, after: Lane)
    requires LaneOk(b, l) && Happens(b, l, e, after)
    ensures multiset(l.active.Keys) + Started(e) == multiset(after.active.Keys) + Finished(e)
  {
    hide DistinctSlots, DistinctSequences, Without, Staying, Leaving, SlotOf, AtMost, Submits, Starts, Cancels, Retires, LaneOk;
    if e.Start? && e.started.Some? {
      StartAddsKey(b, l, e.started, after);
    } else if e.Complete? && e.done {
      NewKey(after.active.Keys, SlotOf(e.finished));
      assert l.active.Keys == after.active.Keys + {SlotOf(e.finished)};
    } else {
      SameKeys(b, l, e, after);
    }
  }

  lemma StartAddsKey(b: Budget, l: Lane, started: Option<Request>, after: Lane)
    requires LaneOk(b, l) && Starts(b, l, started, after) && started.Some?
    ensures multiset(after.active.Keys) == multiset(l.active.Keys) + multiset{SlotOf(started.value)}
  {
    hide DistinctSlots, DistinctSequences, Without, SlotOf, AtMost, Starts;
    var i := StartedEntry(b, l, started, after);
    NewKey(l.active.Keys, SlotOf(l.pending[i].request));
    assert after.active.Keys == l.active.Keys + {SlotOf(l.pending[i].request)};
  }

  lemma NewKey(keys: set<Slot>, s: Slot)
    requires s !in keys
    ensures multiset(keys + {s}) == multiset(keys) + multiset{s}
  {
  }

  lemma SameKeys(b: Budget, l: Lane, e: Event, after: Lane)
    requires Happens(b, l, e, after) && !(e.Start? && e.started.Some?) && !(e.Complete? && e.done)
    ensures l.active.Keys == after.active.Keys
  {
    hide DistinctSlots, DistinctSequences, Without, Staying, Leaving, SlotOf, AtMost;
  }

  /** Conservation over every run: what was accepted is pending, has started, or was reported as evicted,
      cancelled or retired; what has started is running or was acknowledged. */
  lemma {:induction false} EveryReservationIsAccountedFor(b: Budget, lanes: seq<Lane>, events: seq<Event>, n: nat)
    requires Run(b, lanes, events) && n < |lanes|
    ensures Total(Accepted, events[..n]) ==
            multiset(Slots(lanes[n].pending)) + Total(Started, events[..n]) + Total(Dropped, events[..n])
    ensures Total(Started, events[..n]) == multiset(lanes[n].active.Keys) + Total(Finished, events[..n])
    decreases n
  {
    hide Slots, Happens, LaneOk, Accepted, Started, Dropped, Finished;
    if n == 0 {
      NewIsEmpty();
      assert events[..0] == [];
    } else {
      EveryReservationIsAccountedFor(b, lanes, events, n - 1);
      RunsKeep(b, lanes, events, n - 1);
      EventBalances(b, lanes[n - 1], events[n - 1], lanes[n]);
      ActiveBalances(b, lanes[n - 1], events[n - 1], lanes[n]);
      TotalStep(Accepted, events, n);
      TotalStep(Started, events, n);
      TotalStep(Dropped, events, n);
      TotalStep(Finished, events, n);
      var e := events[n - 1];
      var started, dropped, finished := Total(Started, events[..n - 1]), Total(Dropped, events[..n - 1]), Total(Finished, events[..n - 1]);
      var queue, queue' := multiset(Slots(lanes[n - 1].pending)), multiset(Slots(lanes[n].pending));
      assert queue + started + dropped == queue + (started + dropped);
      Carry(Total(Accepted, events[..n - 1]), Accepted(e), queue, queue', started + dropped, Started(e) + Dropped(e));
      assert started + dropped + (Started(e) + Dropped(e)) == (started + Started(e)) + (dropped + Dropped(e));
      Carry(started, Started(e), multiset(lanes[n - 1].active.Keys), multiset(lanes[n].active.Keys), finished, Finished(e));
    }
  }

  lemma NewIsEmpty()
    ensures multiset(Slots(New().pending)) == multiset{} && multiset(New().active.Keys) == multiset{}
  {
  }

  lemma Carry(came: multiset<Slot>, a: multiset<Slot>, kept: multiset<Slot>, kept': multiset<Slot>, went: multiset<Slot>, o: multiset<Slot>)
    requires came == kept + went && kept + a == kept' + o
    ensures came + a == kept' + (went + o)
  {
    forall x ensures (came + a)[x] == (kept' + (went + o))[x] {
      assert came[x] == (kept + went)[x];
      assert (kept + a)[x] == (kept' + o)[x];
    }
  }

  lemma TotalStep(f: Event -> multiset<Slot>, events: seq<Event>, n: nat)
    requires 0 < n <= |events|
    ensures Total(f, events[..n]) == Total(f, events[..n - 1]) + f(events[n - 1])
  {
    assert events[..n][..n - 1] == events[..n - 1];
  }

  // ---------------------------------------------------------------- order

  /** Every entry still pending was pending before. */
  predicate Drains(l: Lane, after: Lane) {
    forall i :: 0 <= i < |after.pending| ==> after.pending[i] in l.pending
  }

  lemma OnlySubmitsAdd(b: Budget, l: Lane, e: Event, after: Lane)
    requires Happens(b, l, e, after) && !e.Submit?
    ensures Drains(l, after)
  {
    match e
    case Retire(scope, generation, _) =>
      forall i | 0 <= i < |after.pending| ensures after.pending[i] in l.pending {
        assert after.pending[i] in Staying(l.pending, scope, generation);
      }
    case _ =>
  }

  lemma {:induction false} PendingOnlyShrinks(b: Budget, lanes: seq<Lane>, events: seq<Event>, n: nat, m: nat)
    requires Run(b, lanes, events) && n <= m < |lanes|
    requires forall i :: n <= i < m ==> !events[i].Submit?
    ensures Drains(lanes[n], lanes[m])
    decreases m
  {
    if n < m {
      PendingOnlyShrinks(b, lanes, events, n, m - 1);
      OnlySubmitsAdd(b, lanes[m - 1], events[m - 1], lanes[m]);
    }
  }

  lemma InRest(pending: seq<Queued>, i: nat, e: Queued, last: nat)
    requires DistinctSequences(pending, last) && i < |pending| && e in Without(pending, i)
    ensures e in pending && e.sequence != pending[i].sequence
  {
    var rest := Without(pending, i);
    var j :| 0 <= j < |rest| && rest[j] == e;
    assert e == pending[if j < i then j else j + 1];
  }

  /** Between submissions work starts in strictly falling order of priority, then recency. */
  lemma StartsAreOrdered(b: Budget, lanes: seq<Lane>, events: seq<Event>, n: nat, m: nat) returns (first: Queued, later: Queued)
    requires Run(b, lanes, events) && n < m < |events|
    requires events[n].Start? && events[n].started.Some? && events[m].Start? && events[m].started.Some?
    requires forall i :: n <= i < m ==> !events[i].Submit?
    ensures first in lanes[n].pending && Some(first.request) == events[n].started
    ensures later in lanes[m].pending && Some(later.request) == events[m].started
    ensures AtMost(later, first) && later.sequence != first.sequence
  {
    hide Without, Starts, DistinctSequences, DistinctSlots, AtMost;
    RunsKeep(b, lanes, events, n);
    assert Happens(b, lanes[n], events[n], lanes[n + 1]) && Happens(b, lanes[m], events[m], lanes[m + 1]);
    var i := StartedEntry(b, lanes[n], events[n].started, lanes[n + 1]);
    var k := StartedEntry(b, lanes[m], events[m].started, lanes[m + 1]);
    first, later := lanes[n].pending[i], lanes[m].pending[k];
    PendingOnlyShrinks(b, lanes, events, n + 1, m);
    InRest(lanes[n].pending, i, later, lanes[n].sequence);
  }

  // ---------------------------------------------------------------- refusals and stale acknowledgements

  /** A request is refused exactly when the queue is full of requests at least as urgent. */
  lemma RefusedIffNoRoom(b: Budget, l: Lane, r: Request, result: SubmitResult, after: Lane)
    requires LaneOk(b, l) && Submits(b, l, r, result, after)
    ensures result.outcome == QueueFull <==>
            SlotOf(r) !in l.active && (forall i :: 0 <= i < |l.pending| ==> SlotOf(l.pending[i].request) != SlotOf(r)) &&
            |l.pending| == b.pendingCapacity && (forall i :: 0 <= i < |l.pending| ==> Rank(l.pending[i].request.priority) >= Rank(r.priority))
    ensures result.evicted.Some? ==> Rank(result.evicted.value.priority) < Rank(r.priority)
  {
    hide DistinctSequences;
    if SlotOf(r) !in l.active && !Pending(l, SlotOf(r)) {
      SlotIsFree(l, SlotOf(r));
      if result.outcome == ReplacedLowerPriority {
        var i: nat :| Lowest(l.pending, i) && result.evicted == Some(l.pending[i].request);
      }
    }
  }

  /** Only the acknowledgement of the generation that holds it frees an active slot, and nothing else
      changes what runs there or takes back its cancellation. */
  lemma OnlyItsAcknowledgementFrees(b: Budget, l: Lane, e: Event, after: Lane, s: Slot)
    requires LaneOk(b, l) && Happens(b, l, e, after) && s in l.active
    ensures s !in after.active <==>
            e.Complete? && SlotOf(e.finished) == s && e.finished.generation == l.active[s].request.generation
    ensures s in after.active ==> after.active[s].request == l.active[s].request && (l.active[s].cancelled ==> after.active[s].cancelled)
  {
    hide DistinctSequences, DistinctSlots, Without, Staying, Leaving;
    match e {
      case Submit(_, _) =>
      case Start(started) =>
        if started.Some? {
          var i: nat :| Highest(l.pending, i) && started == Some(l.pending[i].request) &&
            after.active == l.active[SlotOf(l.pending[i].request) := Active(l.pending[i].request, false)];
          assert SlotOf(l.pending[i].request) != s;
        }
      case Complete(_, _) =>
      case Cancel(_, _) =>
      case Retire(_, _, _) =>
    }
  }

  /** Retiring a scope's old generations leaves nothing of them pending and everything of them signalled. */
  lemma RetirementIsThorough(l: Lane, scope: nat, generation: nat, retired: seq<Request>, after: Lane)
    requires Retires(l, scope, generation, retired, after)
    ensures forall e :: e in after.pending <==> e in l.pending && !Stale(e.request, scope, generation)
    ensures forall r :: r in retired ==> Stale(r, scope, generation)
    ensures forall s :: s in after.active && Stale(after.active[s].request, scope, generation) ==> after.active[s].cancelled
  {
    LeavingIsStale(l.pending, scope, generation);
  }

  lemma {:induction false} LeavingIsStale(pending: seq<Queued>, scope: nat, generation: nat)
    ensures forall r :: r in Leaving(pending, scope, generation) ==> Stale(r, scope, generation)
  {
    if pending != [] {
      LeavingIsStale(pending[..|pending| - 1], scope, generation);
    }
  }
}
