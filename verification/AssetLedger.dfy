/** Every request over every run: what entered the queue is still pending, has started, was reported, or was
    replaced in place by a request that overtook it. That last exit is reported to nobody. */
module AssetLedger {
  import opened AssetLane
  import opened AssetRuns

  function Requests(pending: seq<Queued>): seq<Request> {
    seq(|pending|, i requires 0 <= i < |pending| => pending[i].request)
  }

  /** The pending requests that hold a slot: one at most, in a lane in order. */
  function HeldIn(pending: seq<Queued>, slot: Slot): multiset<Request> {
    if pending == [] then multiset{}
    else
      var last := pending[|pending| - 1].request;
      HeldIn(pending[..|pending| - 1], slot) + if SlotOf(last) == slot then multiset{last} else multiset{}
  }

  /** Requests that enter the queue. */
  function Entered(l: Lane, e: Event): multiset<Request> {
    if e.Submit? && (e.result.outcome == WasQueued || e.result.outcome == ReplacedLowerPriority || e.result.outcome == Reprioritized)
    then multiset{e.request} else multiset{}
  }

  /** Requests that leave it to run. */
  function Begun(l: Lane, e: Event): multiset<Request> {
    if e.Start? && e.started.Some? then multiset{e.started.value} else multiset{}
  }

  /** Requests whose end is reported: evicted, cancelled or retired. A cancellation names slot and generation. */
  function Reported(l: Lane, e: Event): multiset<Request> {
    match e
    case Submit(_, result) => if result.evicted.Some? then multiset{result.evicted.value} else multiset{}
    case Cancel(r, outcome) => if outcome == RemovedPending then HeldIn(l.pending, SlotOf(r)) else multiset{}
    case Retire(_, _, retired) => multiset(retired)
    case _ => multiset{}
  }

  /** Requests that give way in place to a new request for their slot. */
  function Overtaken(l: Lane, e: Event): multiset<Request> {
    if e.Submit? && e.result.outcome == Reprioritized then HeldIn(l.pending, SlotOf(e.request)) else multiset{}
  }

  ghost function Sum(f: (Lane, Event) -> multiset<Request>, lanes: seq<Lane>, events: seq<Event>, n: nat): multiset<Request>
    requires n <= |events| && |lanes| == |events| + 1
  {
    if n == 0 then multiset{} else Sum(f, lanes, events, n - 1) + f(lanes[n - 1], events[n - 1])
  }

  // ---------------------------------------------------------------- the queue as requests

  lemma {:induction false} HeldNowhere(pending: seq<Queued>, slot: Slot)
    requires forall j :: 0 <= j < |pending| ==> SlotOf(pending[j].request) != slot
    ensures HeldIn(pending, slot) == multiset{}
  {
    if pending != [] {
      HeldNowhere(pending[..|pending| - 1], slot);
    }
  }

  lemma {:induction false} HeldOnce(pending: seq<Queued>, i: nat)
    requires DistinctSlots(pending) && i < |pending|
    ensures HeldIn(pending, SlotOf(pending[i].request)) == multiset{pending[i].request}
  {
    hide SlotOf;
    var n := |pending| - 1;
    if i == n {
      HeldNowhere(pending[..n], SlotOf(pending[i].request));
    } else {
      HeldOnce(pending[..n], i);
    }
  }

  lemma RemovedRequest(pending: seq<Queued>, i: nat)
    requires i < |pending|
    ensures multiset(Requests(pending)) == multiset(Requests(Without(pending, i))) + multiset{pending[i].request}
  {
    var s, x := Requests(pending), pending[i].request;
    assert Requests(Without(pending, i)) == s[..i] + s[i + 1..];
    assert s == s[..i] + [x] + s[i + 1..];
  }

  lemma AddedRequest(pending: seq<Queued>, e: Queued)
    ensures multiset(Requests(pending + [e])) == multiset(Requests(pending)) + multiset{e.request}
  {
    assert Requests(pending + [e]) == Requests(pending) + [e.request];
  }

  lemma ReplacedRequest(pending: seq<Queued>, i: nat, e: Queued)
    requires i < |pending|
    ensures multiset(Requests(pending[i := e])) + multiset{pending[i].request} == multiset(Requests(pending)) + multiset{e.request}
  {
    RemovedRequest(pending, i);
    RemovedRequest(pending[i := e], i);
    assert Without(pending[i := e], i) == Without(pending, i);
  }

  lemma {:induction false} SplitRequests(pending: seq<Queued>, scope: nat, generation: nat)
    ensures multiset(Requests(pending)) ==
            multiset(Requests(Staying(pending, scope, generation))) + multiset(Leaving(pending, scope, generation))
  {
    if pending != [] {
      var init, last := pending[..|pending| - 1], pending[|pending| - 1];
      SplitRequests(init, scope, generation);
      assert pending == init + [last];
      AddedRequest(init, last);
      var stay, leave := Staying(init, scope, generation), Leaving(init, scope, generation);
      if Stale(last.request, scope, generation) {
        assert stay + [] == stay;
      } else {
        AddedRequest(stay, last);
        assert leave + [] == leave;
      }
    }
  }

  // ---------------------------------------------------------------- one event

  ghost predicate Balances(l: Lane, e: Event, after: Lane) {
    multiset(Requests(l.pending)) + Entered(l, e) ==
    multiset(Requests(after.pending)) + Begun(l, e) + Reported(l, e) + Overtaken(l, e)
  }

  /** One entry takes the place of another, which either was overtaken or is reported as evicted. */
  lemma PlaceTaken(l: Lane, i: nat, r: Request, result: SubmitResult, after: Lane)
    requires i < |l.pending| && DistinctSlots(l.pending) && after.pending == l.pending[i := Queued(l.sequence + 1, r)]
    requires (result == SubmitResult(Reprioritized, None) && SlotOf(l.pending[i].request) == SlotOf(r)) ||
             result == SubmitResult(ReplacedLowerPriority, Some(l.pending[i].request))
    ensures Balances(l, Submit(r, result), after)
  {
    hide Requests, HeldIn, SlotOf, DistinctSlots;
    ReplacedRequest(l.pending, i, Queued(l.sequence + 1, r));
    HeldOnce(l.pending, i);
  }

  lemma QueueUnchanged(l: Lane, e: Event, after: Lane)
    requires after.pending == l.pending && (e.Submit? ==> e.result == SubmitResult(AlreadyScheduled, None) || e.result == SubmitResult(QueueFull, None))
    requires !e.Retire? && (e.Start? ==> e.started.None?) && (e.Cancel? ==> e.outcome != RemovedPending)
    ensures Balances(l, e, after)
  {
  }

  lemma SubmitBalancesRequests(b: Budget, l: Lane, r: Request, result: SubmitResult, after: Lane)
    requires LaneOk(b, l) && Submits(b, l, r, result, after)
    ensures Balances(l, Submit(r, result), after)
  {
    hide Balances, SlotOf, DistinctSlots, DistinctSequences, AtMost, Rank;
    var entry := Queued(l.sequence + 1, r);
    if result.outcome == WasQueued {
      EntryAdded(l, r, result, after);
    } else if result.outcome == Reprioritized {
      var i: nat :| QueuedAt(l, i, SlotOf(r)) && after.pending == l.pending[i := entry];
      PlaceTaken(l, i, r, result, after);
    } else if result.outcome == ReplacedLowerPriority {
      var i: nat :| Lowest(l.pending, i) && result.evicted == Some(l.pending[i].request) && after.pending == l.pending[i := entry];
      PlaceTaken(l, i, r, result, after);
    } else {
      QueueUnchanged(l, Submit(r, result), after);
    }
  }

  lemma EntryAdded(l: Lane, r: Request, result: SubmitResult, after: Lane)
    requires result == SubmitResult(WasQueued, None) && after.pending == l.pending + [Queued(l.sequence + 1, r)]
    ensures Balances(l, Submit(r, result), after)
  {
    hide Requests;
    AddedRequest(l.pending, Queued(l.sequence + 1, r));
  }

  /** Entry i leaves the queue to run or by cancellation. */
  lemma EntryTaken(l: Lane, e: Event, i: nat, after: Lane)
    requires i < |l.pending| && DistinctSlots(l.pending) && after.pending == Without(l.pending, i)
    requires (e.Start? && e.started == Some(l.pending[i].request)) ||
             (e.Cancel? && e.outcome == RemovedPending && SlotOf(l.pending[i].request) == SlotOf(e.target))
    ensures Balances(l, e, after)
  {
    hide Requests, HeldIn, Without, SlotOf, DistinctSlots;
    RemovedRequest(l.pending, i);
    HeldOnce(l.pending, i);
  }

  lemma RetireBalances(l: Lane, scope: nat, generation: nat, after: Lane)
    requires after.pending == Staying(l.pending, scope, generation)
    ensures Balances(l, Retire(scope, generation, Leaving(l.pending, scope, generation)), after)
  {
    hide Requests, Staying, Leaving;
    SplitRequests(l.pending, scope, generation);
  }

  lemma EventBalancesRequests(b: Budget, l: Lane, e: Event, after: Lane)
    requires LaneOk(b, l) && Happens(b, l, e, after)
    ensures Balances(l, e, after)
  {
    hide Balances, Without, Staying, Leaving, Signalled, SlotOf, AtMost, Submits, Starts, Running, DistinctSlots, DistinctSequences;
    match e {
      case Submit(r, result) => SubmitBalancesRequests(b, l, r, result, after);
      case Start(started) =>
        if started.Some? {
          var i := StartedEntry(b, l, started, after);
          EntryTaken(l, e, i, after);
        } else {
          NothingStarts(b, l, after);
          QueueUnchanged(l, e, after);
        }
      case Complete(_, _) => QueueUnchanged(l, e, after);
      case Cancel(r, outcome) =>
        if outcome == RemovedPending {
          var i: nat :| CancellableAt(l, i, r) && after.pending == Without(l.pending, i);
          EntryTaken(l, e, i, after);
        } else {
          QueueUnchanged(l, e, after);
        }
      case Retire(scope, generation, _) => RetireBalances(l, scope, generation, after);
    }
  }

  // ---------------------------------------------------------------- every run

  lemma Carried(came: multiset<Request>, x: multiset<Request>, queue: multiset<Request>, queue': multiset<Request>,
                a: multiset<Request>, b: multiset<Request>, c: multiset<Request>, da: multiset<Request>, db: multiset<Request>, dc: multiset<Request>)
    requires came == queue + a + b + c && queue + x == queue' + da + db + dc
    ensures came + x == queue' + (a + da) + (b + db) + (c + dc)
  {
    assert came + x == (queue + x) + a + b + c;
  }

  /** Conservation of requests over every run. */
  lemma {:induction false} EveryRequestIsAccountedFor(b: Budget, lanes: seq<Lane>, events: seq<Event>, n: nat)
    requires Run(b, lanes, events) && n < |lanes|
    ensures Sum(Entered, lanes, events, n) ==
            multiset(Requests(lanes[n].pending)) + Sum(Begun, lanes, events, n) + Sum(Reported, lanes, events, n) + Sum(Overtaken, lanes, events, n)
    decreases n
  {
    hide Requests, Happens, LaneOk, Entered, Begun, Reported, Overtaken;
    if n == 0 {
      assert Requests(New().pending) == [] by { NothingPending(); }
    } else {
      EveryRequestIsAccountedFor(b, lanes, events, n - 1);
      RunsKeep(b, lanes, events, n - 1);
      var l, e := lanes[n - 1], events[n - 1];
      EventBalancesRequests(b, l, e, lanes[n]);
      Carried(Sum(Entered, lanes, events, n - 1), Entered(l, e), multiset(Requests(l.pending)), multiset(Requests(lanes[n].pending)),
        Sum(Begun, lanes, events, n - 1), Sum(Reported, lanes, events, n - 1), Sum(Overtaken, lanes, events, n - 1),
        Begun(l, e), Reported(l, e), Overtaken(l, e));
    }
  }

  lemma NothingPending()
    ensures Requests(New().pending) == []
  {
  }

  /** A request leaves silently exactly when a submission for its slot is reprioritised over it; the one that
      overtakes it has another generation or a higher priority. */
  lemma OvertakenIff(b: Budget, l: Lane, e: Event, after: Lane, x: Request)
    requires LaneOk(b, l) && Happens(b, l, e, after)
    ensures x in Overtaken(l, e) <==>
            e.Submit? && SlotOf(e.request) !in l.active && (exists i: nat :: QueuedAt(l, i, SlotOf(e.request)) && l.pending[i].request == x) &&
            (x.generation != e.request.generation || Rank(x.priority) < Rank(e.request.priority))
    ensures x in Overtaken(l, e) ==> SlotOf(x) == SlotOf(e.request) && Overtaken(l, e) == multiset{x}
  {
    hide HeldIn, DistinctSlots, DistinctSequences, Cancels, Retires, Starts, Completes;
    if e.Submit? && SlotOf(e.request) !in l.active {
      if Pending(l, SlotOf(e.request)) {
        OnlyOneIsQueued(b, l, SlotOf(e.request));
        var i: nat :| QueuedAt(l, i, SlotOf(e.request));
        HeldOnce(l.pending, i);
      }
    }
  }
}
