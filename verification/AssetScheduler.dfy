/** The lane as the host calls it, and the process-wide set of lanes. */
module AssetScheduler {
  import opened AssetLane

  class BoundedAssetLane {
    const budget: Budget
    var pending: seq<Queued>
    var active: map<Slot, Active>
    var sequence: nat

    function State(): Lane
      reads this
    {
      Lane(pending, active, sequence)
    }

    predicate Valid()
      reads this
    {
      LaneOk(budget, State())
    }

    constructor (concurrency: nat, pendingCapacity: nat)
      ensures Valid() && State() == Lane([], map[], 0) && budget == Budget(concurrency, pendingCapacity)
    {
      budget := Budget(concurrency, pendingCapacity);
      pending, active, sequence := [], map[], 0;
    }

    /** The pending entry for a slot, if there is one. */
    method FindPending(slot: Slot) returns (index: Option<nat>)
      ensures index.Some? ==> QueuedAt(State(), index.value, slot)
      ensures index.None? ==> !Pending(State(), slot)
    {
      var i := 0;
      while i < |pending|
        invariant i <= |pending| && forall j: nat :: j < i ==> !QueuedAt(State(), j, slot)
      {
        if SlotOf(pending[i].request) == slot {
          return Some(i);
        }
        i := i + 1;
      }
      return None;
    }

    /** The first entry with the lowest priority and recency. */
    method FindLowest() returns (index: nat)
      requires pending != []
      ensures Lowest(pending, index)
    {
      index := 0;
      var i := 1;
      while i < |pending|
        invariant index < i <= |pending| && forall j :: 0 <= j < i ==> AtMost(pending[index], pending[j])
      {
        if !AtMost(pending[index], pending[i]) {
          index := i;
        }
        i := i + 1;
      }
    }

    /** The last entry with the highest priority and recency. */
    method FindHighest() returns (index: nat)
      requires pending != []
      ensures Highest(pending, index)
    {
      index := 0;
      var i := 1;
      while i < |pending|
        invariant index < i <= |pending| && forall j :: 0 <= j < i ==> AtMost(pending[j], pending[index])
      {
        if AtMost(pending[index], pending[i]) {
          index := i;
        }
        i := i + 1;
      }
    }

    method SubmitDetailed(request: Request) returns (result: SubmitResult)
      requires Valid()
      modifies this`pending, this`sequence
      ensures Valid() && Submits(budget, old(State()), request, result, State())
    {
      hide LaneOk, AtMost, SlotOf;
      ghost var before := State();
      var slot := SlotOf(request);
      if slot in active {
        return SubmitResult(AlreadyScheduled, None);
      }
      var index := FindPending(slot);
      if index.Some? {
        var i := index.value;
        assert QueuedAt(before, i, slot);
        var held := pending[i].request;
        if held.generation == request.generation && Rank(held.priority) >= Rank(request.priority) {
          result := SubmitResult(AlreadyScheduled, None);
        } else {
          sequence := sequence + 1;
          pending := pending[i := Queued(sequence, request)];
          result := SubmitResult(Reprioritized, None);
        }
      } else {
        result := Admit(request);
      }
      SubmitKeeps(budget, before, request, result, State());
    }

    /** The part of submitting that makes a new reservation. */
    method Admit(request: Request) returns (result: SubmitResult)
      modifies this`pending, this`sequence
      ensures Admitted(budget, old(State()), request, result, State())
    {
      sequence := sequence + 1;
      if |pending| < budget.pendingCapacity {
        pending := pending + [Queued(sequence, request)];
        return SubmitResult(WasQueued, None);
      }
      if pending == [] {
        return SubmitResult(QueueFull, None);
      }
      var worst := FindLowest();
      if Rank(pending[worst].request.priority) >= Rank(request.priority) {
        return SubmitResult(QueueFull, None);
      }
      var evicted := pending[worst].request;
      assert Lowest(old(pending), worst);
      pending := pending[worst := Queued(sequence, request)];
      return SubmitResult(ReplacedLowerPriority, Some(evicted));
    }

    method StartNext() returns (started: Option<Request>)
      requires Valid()
      modifies this`pending, this`active
      ensures Valid() && Starts(budget, old(State()), started, State())
    {
      hide LaneOk, AtMost, SlotOf;
      ghost var before := State();
      if |active| >= budget.concurrency || pending == [] {
        return None;
      }
      var next := FindHighest();
      assert Highest(before.pending, next);
      var request := pending[next].request;
      pending := Without(pending, next);
      active := active[SlotOf(request) := Active(request, false)];
      started := Some(request);
      StartKeeps(budget, before, started, State());
    }

    method CompleteRequest(request: Request) returns (done: bool)
      requires Valid()
      modifies this`active
      ensures Valid() && Completes(old(State()), request, done, State())
    {
      var slot := SlotOf(request);
      if slot in active && active[slot].request.generation == request.generation {
        active := active - {slot};
        done := true;
      } else {
        done := false;
      }
      CompleteKeeps(budget, old(State()), request, done, State());
    }

    method CancelRequest(request: Request) returns (outcome: CancelOutcome)
      requires Valid()
      modifies this`pending, this`active
      ensures Valid() && Cancels(old(State()), request, outcome, State())
    {
      hide LaneOk, SlotOf;
      ghost var before := State();
      var i := 0;
      while i < |pending| && !CancellableAt(State(), i, request)
        invariant i <= |pending| && State() == before && forall j: nat :: j < i ==> !CancellableAt(before, j, request)
      {
        i := i + 1;
      }
      if i < |pending| {
        assert CancellableAt(before, i, request);
        pending := Without(pending, i);
        outcome := RemovedPending;
      } else {
        outcome := Signal(request);
      }
      CancelKeeps(budget, before, request, outcome, State());
    }

    method Signal(request: Request) returns (outcome: CancelOutcome)
      modifies this`active
      ensures if old(Running(State(), request))
              then outcome == SignaledActive && active == old(active[SlotOf(request) := active[SlotOf(request)].(cancelled := true)])
              else outcome == NotFound && active == old(active)
    {
      var slot := SlotOf(request);
      if slot in active && active[slot].request.generation == request.generation {
        active := active[slot := active[slot].(cancelled := true)];
        return SignaledActive;
      }
      return NotFound;
    }

    method RetireScopeGeneration(scope: nat, generation: nat) returns (retired: seq<Request>)
      requires Valid()
      modifies this`pending, this`active
      ensures Valid() && Retires(old(State()), scope, generation, retired, State())
    {
      hide LaneOk, Stale, Signalled;
      ghost var before := State();
      var kept: seq<Queued> := [];
      retired := [];
      var i := 0;
      while i < |pending|
        invariant i <= |pending|
        invariant kept == Staying(pending[..i], scope, generation) && retired == Leaving(pending[..i], scope, generation)
      {
        assert pending[..i + 1][..i] == pending[..i];
        var e := pending[i];
        if Stale(e.request, scope, generation) {
          retired := retired + [e.request];
        } else {
          kept := kept + [e];
        }
        i := i + 1;
      }
      assert pending[..i] == pending;
      pending := kept;
      SignalStale(scope, generation);
      RetireKeeps(budget, before, scope, generation, retired, State());
    }

    method SignalStale(scope: nat, generation: nat)
      modifies this`active
      ensures active == Signalled(old(active), scope, generation)
    {
      var todo := active.Keys;
      while todo != {}
        invariant todo <= old(active).Keys && active.Keys == old(active).Keys
        invariant forall s :: s in active ==>
                    active[s] == if s in todo then old(active)[s] else Signalled(old(active), scope, generation)[s]
        decreases |todo|
      {
        var s :| s in todo;
        if Stale(active[s].request, scope, generation) {
          active := active[s := active[s].(cancelled := true)];
        }
        todo := todo - {s};
      }
    }

    method Counts() returns (running: nat, waiting: nat)
      requires Valid()
      ensures running == |active| <= budget.concurrency && waiting == |pending| <= budget.pendingCapacity
    {
      return |active|, |pending|;
    }
  }

  datatype LaneName = Provider | Decode | Upload | Apply

  /** Four lanes that share nothing: an operation on one leaves the others alone, and retiring a scope
      reaches all of them. */
  class AssetWorkCoordinator {
    const provider: BoundedAssetLane
    const decode: BoundedAssetLane
    const upload: BoundedAssetLane
    const apply: BoundedAssetLane

    constructor (providerBudget: Budget, decodeBudget: Budget, uploadBudget: Budget, applyBudget: Budget)
      ensures Valid() && fresh(Lanes()) && forall n :: LaneOf(n).State() == Lane([], map[], 0)
    {
      provider := new BoundedAssetLane(providerBudget.concurrency, providerBudget.pendingCapacity);
      decode := new BoundedAssetLane(decodeBudget.concurrency, decodeBudget.pendingCapacity);
      upload := new BoundedAssetLane(uploadBudget.concurrency, uploadBudget.pendingCapacity);
      apply := new BoundedAssetLane(applyBudget.concurrency, applyBudget.pendingCapacity);
    }

    function LaneOf(name: LaneName): BoundedAssetLane {
      match name
      case Provider => provider
      case Decode => decode
      case Upload => upload
      case Apply => apply
    }

    ghost function Lanes(): set<object> { {provider, decode, upload, apply} }

    ghost predicate Valid()
      reads Lanes()
    {
      provider != decode && provider != upload && provider != apply && decode != upload && decode != apply && upload != apply &&
      provider.Valid() && decode.Valid() && upload.Valid() && apply.Valid()
    }

    method SubmitTo(name: LaneName, request: Request) returns (result: SubmitResult)
      requires Valid()
      modifies LaneOf(name)
      ensures Valid() && Submits(LaneOf(name).budget, old(LaneOf(name).State()), request, result, LaneOf(name).State())
      ensures forall n :: n != name ==> LaneOf(n).State() == old(LaneOf(n).State())
    {
      hide Submits, LaneOk;
      result := LaneOf(name).SubmitDetailed(request);
    }

    method StartOn(name: LaneName) returns (started: Option<Request>)
      requires Valid()
      modifies LaneOf(name)
      ensures Valid() && Starts(LaneOf(name).budget, old(LaneOf(name).State()), started, LaneOf(name).State())
      ensures forall n :: n != name ==> LaneOf(n).State() == old(LaneOf(n).State())
    {
      hide Starts, SlotOf;
      started := LaneOf(name).StartNext();
    }

    method RetireEverywhere(scope: nat, generation: nat) returns (retired: seq<(LaneName, Request)>)
      requires Valid()
      modifies Lanes()
      ensures Valid()
      ensures forall n :: Retires(old(LaneOf(n).State()), scope, generation, Leaving(old(LaneOf(n).pending), scope, generation), LaneOf(n).State())
      ensures retired == Tagged(Provider, Leaving(old(provider.pending), scope, generation)) +
                         Tagged(Decode, Leaving(old(decode.pending), scope, generation)) +
                         Tagged(Upload, Leaving(old(upload.pending), scope, generation)) +
                         Tagged(Apply, Leaving(old(apply.pending), scope, generation))
    {
      hide LaneOk, Leaving, Staying, Signalled, Tagged;
      var a := provider.RetireScopeGeneration(scope, generation);
      var b := decode.RetireScopeGeneration(scope, generation);
      var c := upload.RetireScopeGeneration(scope, generation);
      var d := apply.RetireScopeGeneration(scope, generation);
      retired := Tagged(Provider, a) + Tagged(Decode, b) + Tagged(Upload, c) + Tagged(Apply, d);
    }
  }

  function Tagged(name: LaneName, rs: seq<Request>): seq<(LaneName, Request)> {
    seq(|rs|, i requires 0 <= i < |rs| => (name, rs[i]))
  }
}
