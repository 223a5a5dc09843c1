/** The asset lane as its callers see it: which requests contend, which wins, and what happens to the others,
    said by scope, key, generation and the names of the priorities. */
module AssetLaws {
  import opened AssetLane
  import opened AssetRuns

  /** Two requests for one thing: one scope and one key. */
  predicate SameWork(a: Request, b: Request) { a.scope == b.scope && a.key == b.key }

  /** Selected before visible before overscan. */
  predicate Outranks(a: Priority, b: Priority) { (a == Selected && b != Selected) || (a == Visible && b == Overscan) }

  lemma RankIs(a: Priority, b: Priority)
    ensures Rank(a) > Rank(b) <==> Outranks(a, b)
    ensures Rank(a) == Rank(b) <==> a == b
  {
  }

  lemma SlotIs(a: Request, b: Request)
    ensures SlotOf(a) == SlotOf(b) <==> SameWork(a, b)
  {
  }

  ghost predicate QueuedFor(l: Lane, r: Request) {
    exists i :: 0 <= i < |l.pending| && SameWork(l.pending[i].request, r)
  }

  ghost predicate RunningFor(l: Lane, r: Request) {
    exists s :: s in l.active && SameWork(l.active[s].request, r)
  }

  lemma ReservationsAre(b: Budget, l: Lane, r: Request)
    requires LaneOk(b, l)
    ensures SlotOf(r) in l.active <==> RunningFor(l, r)
    ensures SlotOf(r) in l.active ==> SameWork(l.active[SlotOf(r)].request, r)
    ensures Pending(l, SlotOf(r)) <==> QueuedFor(l, r)
  {
    hide DistinctSlots, DistinctSequences;
    if SlotOf(r) in l.active {
      SlotIs(l.active[SlotOf(r)].request, r);
    }
    if s :| s in l.active && SameWork(l.active[s].request, r) {
      SlotIs(l.active[s].request, r);
    }
    if i :| 0 <= i < |l.pending| && SameWork(l.pending[i].request, r) {
      assert QueuedAt(l, i, SlotOf(r));
    }
    if i: nat :| QueuedAt(l, i, SlotOf(r)) {
      SlotIs(l.pending[i].request, r);
    }
  }

  /** In every run there is at most one request for one thing, waiting or running, and both budgets hold. */
  lemma OneRequestForOneThing(b: Budget, lanes: seq<Lane>, events: seq<Event>, n: nat)
    requires Run(b, lanes, events) && n < |lanes|
    ensures |lanes[n].pending| <= b.pendingCapacity && |lanes[n].active| <= b.concurrency
    ensures forall i, j :: 0 <= i < j < |lanes[n].pending| ==> !SameWork(lanes[n].pending[i].request, lanes[n].pending[j].request)
    ensures forall i, s :: 0 <= i < |lanes[n].pending| && s in lanes[n].active ==> !SameWork(lanes[n].pending[i].request, lanes[n].active[s].request)
    ensures forall s, t :: s in lanes[n].active && t in lanes[n].active && s != t ==> !SameWork(lanes[n].active[s].request, lanes[n].active[t].request)
  {
    RunsKeep(b, lanes, events, n);
  }

  // ---------------------------------------------------------------- submitting

  /** What a request for something waiting or running does: nothing, if it runs or waits in the same
      generation at least as urgent; otherwise it takes the waiting one's place. */
  lemma RepeatedRequests(b: Budget, l: Lane, r: Request, result: SubmitResult, after: Lane)
    requires LaneOk(b, l) && Submits(b, l, r, result, after)
    ensures result.outcome == AlreadyScheduled <==>
            RunningFor(l, r) ||
            (exists i :: 0 <= i < |l.pending| && SameWork(l.pending[i].request, r) && l.pending[i].request.generation == r.generation &&
               !Outranks(r.priority, l.pending[i].request.priority))
    ensures result.outcome == Reprioritized <==>
            !RunningFor(l, r) &&
            (exists i :: 0 <= i < |l.pending| && SameWork(l.pending[i].request, r) &&
               (l.pending[i].request.generation != r.generation || Outranks(r.priority, l.pending[i].request.priority)))
    ensures result.outcome == AlreadyScheduled || result.outcome == QueueFull ==> after.pending == l.pending && after.active == l.active
  {
    hide DistinctSlots, DistinctSequences, SlotOf, SameWork, Outranks, Rank;
    ReservationsAre(b, l, r);
    forall i | 0 <= i < |l.pending|
      ensures SlotOf(l.pending[i].request) == SlotOf(r) <==> SameWork(l.pending[i].request, r)
      ensures Rank(l.pending[i].request.priority) >= Rank(r.priority) <==> !Outranks(r.priority, l.pending[i].request.priority)
    {
      SlotIs(l.pending[i].request, r);
      RankIs(r.priority, l.pending[i].request.priority);
    }
    if !RunningFor(l, r) && QueuedFor(l, r) {
      OnlyOneIsQueued(b, l, SlotOf(r));
      var i: nat :| QueuedAt(l, i, SlotOf(r));
    }
  }

  /** What a request for something new does: it waits if there is room, takes the place of the least urgent and
      of those the oldest if it is more urgent than that, and is refused otherwise. */
  lemma NewRequests(b: Budget, l: Lane, r: Request, result: SubmitResult, after: Lane)
    requires LaneOk(b, l) && Submits(b, l, r, result, after)
    ensures result.outcome == WasQueued <==> !RunningFor(l, r) && !QueuedFor(l, r) && |l.pending| < b.pendingCapacity
    ensures result.outcome == QueueFull <==>
            !RunningFor(l, r) && !QueuedFor(l, r) && |l.pending| == b.pendingCapacity &&
            forall i :: 0 <= i < |l.pending| ==> !Outranks(r.priority, l.pending[i].request.priority)
    ensures result.outcome == ReplacedLowerPriority <==> result.evicted.Some?
    ensures result.evicted.Some? ==>
              exists i :: 0 <= i < |l.pending| && result.evicted == Some(l.pending[i].request) &&
                Outranks(r.priority, l.pending[i].request.priority) && after.pending == l.pending[i := Queued(l.sequence + 1, r)] &&
                forall j :: 0 <= j < |l.pending| && j != i ==>
                  Outranks(l.pending[j].request.priority, l.pending[i].request.priority) ||
                  (l.pending[j].request.priority == l.pending[i].request.priority && l.pending[i].sequence <= l.pending[j].sequence)
  {
    hide LaneOk, Submits, Admitted, Repeated, DistinctSlots, DistinctSequences, SlotOf, SameWork, Outranks, Rank, Lowest;
    ReservationsAre(b, l, r);
    OutcomeOfAdmission(b, l, r, result, after);
    if result.evicted.Some? {
      var i := EvictedIsLeastUrgent(b, l, r, result, after);
    }
  }

  lemma OutcomeOfAdmission(b: Budget, l: Lane, r: Request, result: SubmitResult, after: Lane)
    requires LaneOk(b, l) && Submits(b, l, r, result, after)
    ensures var reserved := SlotOf(r) in l.active || Pending(l, SlotOf(r));
            (result.outcome == WasQueued <==> !reserved && |l.pending| < b.pendingCapacity) &&
            (result.outcome == QueueFull <==>
               !reserved && |l.pending| == b.pendingCapacity &&
               forall i :: 0 <= i < |l.pending| ==> !Outranks(r.priority, l.pending[i].request.priority)) &&
            (result.outcome == ReplacedLowerPriority <==> result.evicted.Some?) && (result.evicted.Some? ==> !reserved)
  {
    hide DistinctSlots, DistinctSequences, SlotOf, Outranks, Rank, Pending, Lowest;
    forall i | 0 <= i < |l.pending| ensures Rank(l.pending[i].request.priority) >= Rank(r.priority) <==> !Outranks(r.priority, l.pending[i].request.priority) {
      RankIs(r.priority, l.pending[i].request.priority);
    }
  }

  lemma EvictedIsLeastUrgent(b: Budget, l: Lane, r: Request, result: SubmitResult, after: Lane) returns (i: nat)
    requires LaneOk(b, l) && Submits(b, l, r, result, after) && result.evicted.Some?
    ensures i < |l.pending| && result.evicted == Some(l.pending[i].request) &&
            Outranks(r.priority, l.pending[i].request.priority) && after.pending == l.pending[i := Queued(l.sequence + 1, r)]
    ensures forall j :: 0 <= j < |l.pending| && j != i ==>
              Outranks(l.pending[j].request.priority, l.pending[i].request.priority) ||
              (l.pending[j].request.priority == l.pending[i].request.priority && l.pending[i].sequence <= l.pending[j].sequence)
  {
    hide LaneOk, SlotOf, Outranks, Rank, Pending;
    i :| Lowest(l.pending, i) && result == SubmitResult(ReplacedLowerPriority, Some(l.pending[i].request)) &&
      after.pending == l.pending[i := Queued(l.sequence + 1, r)];
    var k :| 0 <= k < |l.pending| && Rank(l.pending[k].request.priority) < Rank(r.priority);
    assert AtMost(l.pending[i], l.pending[k]);
    RankIs(r.priority, l.pending[i].request.priority);
    forall j | 0 <= j < |l.pending| && j != i
      ensures Outranks(l.pending[j].request.priority, l.pending[i].request.priority) ||
              (l.pending[j].request.priority == l.pending[i].request.priority && l.pending[i].sequence <= l.pending[j].sequence)
    {
      RankIs(l.pending[j].request.priority, l.pending[i].request.priority);
    }
  }

  /** A request that is taken is the newest: every other that waits has waited longer. */
  lemma TakenIsNewest(b: Budget, l: Lane, r: Request, result: SubmitResult, after: Lane)
    requires LaneOk(b, l) && Submits(b, l, r, result, after)
    requires result.outcome == WasQueued || result.outcome == Reprioritized || result.outcome == ReplacedLowerPriority
    ensures exists i :: 0 <= i < |after.pending| && after.pending[i].request == r &&
              forall j :: 0 <= j < |after.pending| && j != i ==> after.pending[j].sequence < after.pending[i].sequence
  {
    hide LaneOk, Submits, Admitted, Repeated, SlotOf, Rank, AtMost, Pending, Lowest;
    var i := PlaceTaken(b, l, r, result, after);
    assert after.pending[i].request == r;
    forall j | 0 <= j < |after.pending| && j != i ensures after.pending[j].sequence < after.pending[i].sequence {
      assert after.pending[j] == l.pending[j];
      SequencesAreOld(b, l, j);
    }
  }

  lemma SequencesAreOld(b: Budget, l: Lane, j: nat)
    requires LaneOk(b, l) && j < |l.pending|
    ensures l.pending[j].sequence <= l.sequence
  {
    hide DistinctSlots, SlotOf;
  }

  /** Where it waits: at the end, or in the place of another. */
  lemma PlaceTaken(b: Budget, l: Lane, r: Request, result: SubmitResult, after: Lane) returns (i: nat)
    requires Submits(b, l, r, result, after)
    requires result.outcome == WasQueued || result.outcome == Reprioritized || result.outcome == ReplacedLowerPriority
    ensures i <= |l.pending| && i < |after.pending|
    ensures after.pending == if i < |l.pending| then l.pending[i := Queued(l.sequence + 1, r)] else l.pending + [Queued(l.sequence + 1, r)]
  {
    hide SlotOf, Rank, AtMost, Pending;
    var entry := Queued(l.sequence + 1, r);
    if result.outcome == WasQueued {
      i := |l.pending|;
    } else if result.outcome == Reprioritized {
      i :| QueuedAt(l, i, SlotOf(r)) && after.pending == l.pending[i := entry];
    } else {
      i :| Lowest(l.pending, i) && after.pending == l.pending[i := entry];
    }
  }

  // ---------------------------------------------------------------- starting

  /** Work starts exactly when something waits and a worker is free: of what waits, the most urgent, and of
      those the newest. */
  lemma TheMostUrgentStarts(b: Budget, l: Lane, started: Option<Request>, after: Lane)
    requires LaneOk(b, l) && Starts(b, l, started, after)
    ensures started.Some? <==> |l.active| < b.concurrency && l.pending != []
    ensures started.Some? ==>
              exists i :: 0 <= i < |l.pending| && l.pending[i].request == started.value && after.pending == l.pending[..i] + l.pending[i + 1..] &&
                forall j :: 0 <= j < |l.pending| && j != i ==>
                  Outranks(l.pending[i].request.priority, l.pending[j].request.priority) ||
                  (l.pending[i].request.priority == l.pending[j].request.priority && l.pending[j].sequence < l.pending[i].sequence)
    ensures started.Some? ==> RunningFor(after, started.value) && !QueuedFor(after, started.value)
  {
    hide DistinctSlots, SlotOf, SameWork, Outranks, Rank;
    if started.Some? {
      var i := StartedEntry(b, l, started, after);
      forall j | 0 <= j < |l.pending| && j != i
        ensures Outranks(l.pending[i].request.priority, l.pending[j].request.priority) ||
                (l.pending[i].request.priority == l.pending[j].request.priority && l.pending[j].sequence < l.pending[i].sequence)
      {
        RankIs(l.pending[i].request.priority, l.pending[j].request.priority);
      }
      StartKeeps(b, l, started, after);
      ReservationsAre(b, after, started.value);
      RunsNoLongerWaits(b, after, started.value);
    }
  }

  lemma RunsNoLongerWaits(b: Budget, l: Lane, r: Request)
    requires LaneOk(b, l) && SlotOf(r) in l.active
    ensures !QueuedFor(l, r)
  {
    hide DistinctSlots, DistinctSequences;
    forall i | 0 <= i < |l.pending| ensures !SameWork(l.pending[i].request, r) {
      SlotIs(l.pending[i].request, r);
    }
  }

  // ---------------------------------------------------------------- ending

  /** An acknowledgement counts exactly when the thing it names runs in that generation; then it runs no more. */
  lemma AcknowledgementCountsIff(b: Budget, l: Lane, r: Request, done: bool, after: Lane)
    requires LaneOk(b, l) && Completes(l, r, done, after)
    ensures done <==> exists s :: s in l.active && SameWork(l.active[s].request, r) && l.active[s].request.generation == r.generation
    ensures done ==> !RunningFor(after, r) && after.pending == l.pending
    ensures !done ==> after == l
    ensures forall x: Request :: !SameWork(x, r) ==> (RunningFor(after, x) <==> RunningFor(l, x))
  {
    hide DistinctSlots, DistinctSequences, SlotOf;
    ReservationsAre(b, l, r);
    CompleteKeeps(b, l, r, done, after);
    ReservationsAre(b, after, r);
    forall s | s in l.active && SameWork(l.active[s].request, r) ensures s == SlotOf(r) {
      SlotIs(l.active[s].request, r);
    }
    forall x: Request | !SameWork(x, r) ensures RunningFor(after, x) <==> RunningFor(l, x) {
      ReservationsAre(b, l, x);
      ReservationsAre(b, after, x);
      SlotIs(x, r);
    }
  }

  /** Retiring a scope to a generation takes away what waits for that scope in another generation, keeps the rest
      in order, and flags exactly what runs for that scope in another generation. */
  lemma RetiringIsByScopeAndGeneration(l: Lane, scope: nat, generation: nat, retired: seq<Request>, after: Lane)
    requires Retires(l, scope, generation, retired, after)
    ensures forall e :: e in after.pending <==> e in l.pending && (e.request.scope != scope || e.request.generation == generation)
    ensures forall r :: r in retired <==> exists i :: 0 <= i < |l.pending| && l.pending[i].request == r && r.scope == scope && r.generation != generation
    ensures after.active.Keys == l.active.Keys
    ensures forall s :: s in l.active ==>
              after.active[s].request == l.active[s].request &&
              (after.active[s].cancelled <==>
                 l.active[s].cancelled || (l.active[s].request.scope == scope && l.active[s].request.generation != generation))
  {
    forall r ensures r in retired <==> exists i :: 0 <= i < |l.pending| && l.pending[i].request == r && r.scope == scope && r.generation != generation {
      LeavingAre(l.pending, scope, generation, r);
    }
  }

  lemma {:induction false} LeavingAre(pending: seq<Queued>, scope: nat, generation: nat, r: Request)
    ensures r in Leaving(pending, scope, generation) <==>
            exists i :: 0 <= i < |pending| && pending[i].request == r && r.scope == scope && r.generation != generation
  {
    if pending != [] {
      var n := |pending| - 1;
      LeavingAre(pending[..n], scope, generation, r);
      assert forall i :: 0 <= i < n ==> pending[..n][i] == pending[i];
    }
  }

  /** Cancelling takes away what waits for the thing in that generation; failing that it flags what runs for it
      in that generation; failing that it does nothing. */
  lemma CancellingIsByGeneration(b: Budget, l: Lane, r: Request, outcome: CancelOutcome, after: Lane)
    requires LaneOk(b, l) && Cancels(l, r, outcome, after)
    ensures outcome == RemovedPending <==>
            exists i :: 0 <= i < |l.pending| && SameWork(l.pending[i].request, r) && l.pending[i].request.generation == r.generation
    ensures outcome == RemovedPending ==> !QueuedFor(after, r) && after.active == l.active && |after.pending| == |l.pending| - 1
    ensures outcome == SignaledActive <==>
            exists s :: s in l.active && SameWork(l.active[s].request, r) && l.active[s].request.generation == r.generation
    ensures outcome == SignaledActive ==>
              after.pending == l.pending && exists s :: s in after.active && SameWork(after.active[s].request, r) && after.active[s].cancelled
  {
    hide DistinctSlots, DistinctSequences, SlotOf;
    ReservationsAre(b, l, r);
    if i: nat :| CancellableAt(l, i, r) {
      SlotIs(l.pending[i].request, r);
    }
    if i :| 0 <= i < |l.pending| && SameWork(l.pending[i].request, r) && l.pending[i].request.generation == r.generation {
      SlotIs(l.pending[i].request, r);
      assert CancellableAt(l, i, r);
      NotBoth(b, l, r, i);
    }
    forall s | s in l.active && SameWork(l.active[s].request, r) ensures s == SlotOf(r) {
      SlotIs(l.active[s].request, r);
    }
    if outcome == RemovedPending {
      var i: nat :| CancellableAt(l, i, r) && after == l.(pending := Without(l.pending, i));
      RemoveKeeps(b, l, i);
      forall j | 0 <= j < |after.pending| ensures !SameWork(after.pending[j].request, r) {
        SlotIs(after.pending[j].request, r);
      }
    } else if outcome == SignaledActive {
      assert after.active[SlotOf(r)].cancelled && SameWork(after.active[SlotOf(r)].request, r);
    }
  }

  lemma NotBoth(b: Budget, l: Lane, r: Request, i: nat)
    requires LaneOk(b, l) && i < |l.pending| && SlotOf(l.pending[i].request) == SlotOf(r)
    ensures SlotOf(r) !in l.active
  {
  }
}
