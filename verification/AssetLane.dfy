/** Scheduling state of one asset lane: what each operation may do, and what every run of operations
    keeps. Requests reserve a slot, the pair of scope and key, from the moment they are queued until their
    worker acknowledges. */
module AssetLane {
  datatype Option<T> = None | Some(value: T)

  datatype Priority = Overscan | Visible | Selected

  function Rank(p: Priority): nat {
    match p
    case Overscan => 0
    case Visible => 1
    case Selected => 2
  }

  datatype Key = Key(identity: nat, revision: nat, kind: nat)
  datatype Slot = Slot(scope: nat, key: Key)
  datatype Request = Request(key: Key, scope: nat, generation: nat, priority: Priority)

  function SlotOf(r: Request): Slot { Slot(r.scope, r.key) }

  /** A pending request with the moment it was queued or last reprioritised. */
  datatype Queued = Queued(sequence: nat, request: Request)
  datatype Active = Active(request: Request, cancelled: bool)
  datatype Budget = Budget(concurrency: nat, pendingCapacity: nat)
  datatype Lane = Lane(pending: seq<Queued>, active: map<Slot, Active>, sequence: nat)

  datatype SubmitOutcome = WasQueued | Reprioritized | AlreadyScheduled | ReplacedLowerPriority | QueueFull
  datatype CancelOutcome = NotFound | RemovedPending | SignaledActive
  datatype SubmitResult = SubmitResult(outcome: SubmitOutcome, evicted: Option<Request>)

  /** Lexicographic order on priority and recency. */
  predicate AtMost(a: Queued, b: Queued) {
    Rank(a.request.priority) < Rank(b.request.priority) ||
    (a.request.priority == b.request.priority && a.sequence <= b.sequence)
  }

  predicate Lowest(pending: seq<Queued>, i: nat) {
    i < |pending| && forall j :: 0 <= j < |pending| ==> AtMost(pending[i], pending[j])
  }

  predicate Highest(pending: seq<Queued>, i: nat) {
    i < |pending| && forall j :: 0 <= j < |pending| ==> AtMost(pending[j], pending[i])
  }

  function Without<T>(s: seq<T>, i: nat): (r: seq<T>)
    requires i < |s|
    ensures |r| == |s| - 1
  {
    s[..i] + s[i + 1..]
  }

  // ---------------------------------------------------------------- what each operation does

  predicate QueuedAt(l: Lane, i: nat, slot: Slot) {
    i < |l.pending| && SlotOf(l.pending[i].request) == slot
  }

  ghost predicate Pending(l: Lane, slot: Slot) {
    exists i: nat :: QueuedAt(l, i, slot)
  }

  /** A second request for a reserved slot changes nothing while the slot is active or queued at least as
      high for the same generation; otherwise it takes over the reservation. */
  ghost predicate Repeated(l: Lane, r: Request, result: SubmitResult, after: Lane) {
    result.evicted.None? &&
    if SlotOf(r) in l.active then result.outcome == AlreadyScheduled && after == l
    else exists i: nat ::
      QueuedAt(l, i, SlotOf(r)) &&
      var held := l.pending[i].request;
      if held.generation == r.generation && Rank(held.priority) >= Rank(r.priority)
      then result.outcome == AlreadyScheduled && after == l
      else result.outcome == Reprioritized && after == l.(pending := l.pending[i := Queued(l.sequence + 1, r)], sequence := l.sequence + 1)
  }

  /** A new reservation is queued while there is room, displaces the lowest pending request if that has a
      lower priority, and is refused otherwise. */
  ghost predicate Admitted(b: Budget, l: Lane, r: Request, result: SubmitResult, after: Lane) {
    var entry := Queued(l.sequence + 1, r);
    if |l.pending| < b.pendingCapacity then
      result == SubmitResult(WasQueued, None) && after == l.(pending := l.pending + [entry], sequence := l.sequence + 1)
    else if forall i :: 0 <= i < |l.pending| ==> Rank(l.pending[i].request.priority) >= Rank(r.priority) then
      result == SubmitResult(QueueFull, None) && after == l.(sequence := l.sequence + 1)
    else exists i: nat ::
      Lowest(l.pending, i) && result == SubmitResult(ReplacedLowerPriority, Some(l.pending[i].request)) &&
      after == l.(pending := l.pending[i := entry], sequence := l.sequence + 1)
  }

  ghost predicate Submits(b: Budget, l: Lane, r: Request, result: SubmitResult, after: Lane) {
    if SlotOf(r) in l.active || Pending(l, SlotOf(r)) then Repeated(l, r, result, after) else Admitted(b, l, r, result, after)
  }

  /** The highest pending request starts if a worker is free. */
  ghost predicate Starts(b: Budget, l: Lane, started: Option<Request>, after: Lane) {
    if |l.active| >= b.concurrency || l.pending == [] then started.None? && after == l
    else exists i: nat ::
      Highest(l.pending, i) && started == Some(l.pending[i].request) &&
      after == l.(pending := Without(l.pending, i), active := l.active[SlotOf(l.pending[i].request) := Active(l.pending[i].request, false)])
  }

  predicate Running(l: Lane, r: Request) {
    SlotOf(r) in l.active && l.active[SlotOf(r)].request.generation == r.generation
  }

  predicate Completes(l: Lane, r: Request, done: bool, after: Lane) {
    if Running(l, r) then done && after == l.(active := l.active - {SlotOf(r)}) else !done && after == l
  }

  predicate CancellableAt(l: Lane, i: nat, r: Request) {
    QueuedAt(l, i, SlotOf(r)) && l.pending[i].request.generation == r.generation
  }

  ghost predicate Cancels(l: Lane, r: Request, outcome: CancelOutcome, after: Lane) {
    if exists i: nat :: CancellableAt(l, i, r) then
      outcome == RemovedPending && exists i: nat :: CancellableAt(l, i, r) && after == l.(pending := Without(l.pending, i))
    else if Running(l, r) then
      outcome == SignaledActive && after == l.(active := l.active[SlotOf(r) := l.active[SlotOf(r)].(cancelled := true)])
    else outcome == NotFound && after == l
  }

  predicate Stale(r: Request, scope: nat, generation: nat) {
    r.scope == scope && r.generation != generation
  }

  function Staying(pending: seq<Queued>, scope: nat, generation: nat): (r: seq<Queued>)
    ensures forall e :: e in r <==> e in pending && !Stale(e.request, scope, generation)
  {
    if pending == [] then []
    else
      var init, last := pending[..|pending| - 1], pending[|pending| - 1];
      assert pending == init + [last];
      Staying(init, scope, generation) + if Stale(last.request, scope, generation) then [] else [last]
  }

  function Leaving(pending: seq<Queued>, scope: nat, generation: nat): seq<Request> {
    if pending == [] then []
    else
      var last := pending[|pending| - 1].request;
      Leaving(pending[..|pending| - 1], scope, generation) + if Stale(last, scope, generation) then [last] else []
  }

  function Signalled(active: map<Slot, Active>, scope: nat, generation: nat): map<Slot, Active> {
    map s | s in active :: if Stale(active[s].request, scope, generation) then active[s].(cancelled := true) else active[s]
  }

  predicate Retires(l: Lane, scope: nat, generation: nat, retired: seq<Request>, after: Lane) {
    retired == Leaving(l.pending, scope, generation) &&
    after == l.(pending := Staying(l.pending, scope, generation), active := Signalled(l.active, scope, generation))
  }

  // ---------------------------------------------------------------- the invariant

  predicate DistinctSlots(pending: seq<Queued>) {
    forall i, j :: 0 <= i < j < |pending| ==> SlotOf(pending[i].request) != SlotOf(pending[j].request)
  }

  predicate DistinctSequences(pending: seq<Queued>, last: nat) {
    (forall i :: 0 <= i < |pending| ==> pending[i].sequence <= last) &&
    (forall i, j :: 0 <= i < j < |pending| ==> pending[i].sequence != pending[j].sequence)
  }

  /** Each slot is reserved at most once, pending or active, and both budgets hold. */
  predicate LaneOk(b: Budget, l: Lane) {
    |l.pending| <= b.pendingCapacity && |l.active| <= b.concurrency &&
    DistinctSlots(l.pending) && DistinctSequences(l.pending, l.sequence) &&
    (forall i :: 0 <= i < |l.pending| ==> SlotOf(l.pending[i].request) !in l.active) &&
    (forall s :: s in l.active ==> SlotOf(l.active[s].request) == s)
  }

  /** Entry i may become a fresh request for a slot nothing else reserves. */
  lemma PutKeeps(b: Budget, l: Lane, i: nat, r: Request)
    requires LaneOk(b, l) && i < |l.pending| && SlotOf(r) !in l.active
    requires forall j :: 0 <= j < |l.pending| && j != i ==> SlotOf(l.pending[j].request) != SlotOf(r)
    ensures LaneOk(b, l.(pending := l.pending[i := Queued(l.sequence + 1, r)], sequence := l.sequence + 1))
  {
    var p := l.pending[i := Queued(l.sequence + 1, r)];
    assert DistinctSlots(p);
    assert DistinctSequences(p, l.sequence + 1);
  }

  lemma PushKeeps(b: Budget, l: Lane, r: Request)
    requires LaneOk(b, l) && |l.pending| < b.pendingCapacity && SlotOf(r) !in l.active && !Pending(l, SlotOf(r))
    ensures LaneOk(b, l.(pending := l.pending + [Queued(l.sequence + 1, r)], sequence := l.sequence + 1))
  {
    var p := l.pending + [Queued(l.sequence + 1, r)];
    SlotIsFree(l, SlotOf(r));
    assert DistinctSlots(p);
    assert DistinctSequences(p, l.sequence + 1);
  }

  lemma SlotIsFree(l: Lane, slot: Slot)
    requires !Pending(l, slot)
    ensures forall j :: 0 <= j < |l.pending| ==> SlotOf(l.pending[j].request) != slot
  {
    forall j | 0 <= j < |l.pending| ensures SlotOf(l.pending[j].request) != slot {
      assert !QueuedAt(l, j, slot);
    }
  }

  lemma SubmitKeeps(b: Budget, l: Lane, r: Request, result: SubmitResult, after: Lane)
    requires LaneOk(b, l) && Submits(b, l, r, result, after)
    ensures LaneOk(b, after)
  {
    hide DistinctSlots, DistinctSequences;
    if SlotOf(r) in l.active {
    } else if Pending(l, SlotOf(r)) {
      OnlyOneIsQueued(b, l, SlotOf(r));
      if result.outcome == Reprioritized {
        var i: nat :| QueuedAt(l, i, SlotOf(r)) && after == l.(pending := l.pending[i := Queued(l.sequence + 1, r)], sequence := l.sequence + 1);
        PutKeeps(b, l, i, r);
      }
    } else {
      SlotIsFree(l, SlotOf(r));
      if result.outcome == WasQueued {
        PushKeeps(b, l, r);
      } else if result.outcome == ReplacedLowerPriority {
        var i: nat :| Lowest(l.pending, i) && after == l.(pending := l.pending[i := Queued(l.sequence + 1, r)], sequence := l.sequence + 1);
        PutKeeps(b, l, i, r);
      } else {
        LaterKeeps(l.pending, l.sequence);
      }
    }
  }

  lemma LaterKeeps(p: seq<Queued>, last: nat)
    requires DistinctSequences(p, last)
    ensures DistinctSequences(p, last + 1)
  {
  }

  lemma OnlyOneIsQueued(b: Budget, l: Lane, slot: Slot)
    requires LaneOk(b, l)
    ensures forall i: nat, j: nat :: QueuedAt(l, i, slot) && QueuedAt(l, j, slot) ==> i == j
    ensures forall i: nat, j: nat :: QueuedAt(l, i, slot) && j < |l.pending| && j != i ==> SlotOf(l.pending[j].request) != slot
  {
  }

  /** Taking entry i out leaves the others in place and its slot unreserved among them. */
  lemma RemoveKeeps(b: Budget, l: Lane, i: nat)
    requires LaneOk(b, l) && i < |l.pending|
    ensures LaneOk(b, l.(pending := Without(l.pending, i)))
    ensures forall j :: 0 <= j < |l.pending| - 1 ==> SlotOf(Without(l.pending, i)[j].request) != SlotOf(l.pending[i].request)
  {
    var p := Without(l.pending, i);
    forall j | 0 <= j < |p| ensures p[j] == l.pending[if j < i then j else j + 1] {
    }
    assert DistinctSlots(p);
    assert DistinctSequences(p, l.sequence);
  }

  lemma ActiveGrows(b: Budget, l: Lane, pending: seq<Queued>, r: Request)
    requires LaneOk(b, l) && |l.active| < b.concurrency && SlotOf(r) !in l.active
    requires |pending| <= b.pendingCapacity && DistinctSlots(pending) && DistinctSequences(pending, l.sequence)
    requires forall j :: 0 <= j < |pending| ==> SlotOf(pending[j].request) !in l.active && SlotOf(pending[j].request) != SlotOf(r)
    ensures LaneOk(b, l.(pending := pending, active := l.active[SlotOf(r) := Active(r, false)]))
  {
    hide DistinctSlots, DistinctSequences, SlotOf;
    assert l.active[SlotOf(r) := Active(r, false)].Keys == l.active.Keys + {SlotOf(r)};
  }

  lemma StartKeeps(b: Budget, l: Lane, started: Option<Request>, after: Lane)
    requires LaneOk(b, l) && Starts(b, l, started, after)
    ensures LaneOk(b, after)
  {
    hide DistinctSlots, DistinctSequences, Without, AtMost, SlotOf;
    if started.Some? {
      var i: nat :| Highest(l.pending, i) && started == Some(l.pending[i].request) &&
        after == l.(pending := Without(l.pending, i), active := l.active[SlotOf(l.pending[i].request) := Active(l.pending[i].request, false)]);
      RemoveKeeps(b, l, i);
      ActiveGrows(b, l, Without(l.pending, i), l.pending[i].request);
    }
  }

  lemma CompleteKeeps(b: Budget, l: Lane, r: Request, done: bool, after: Lane)
    requires LaneOk(b, l) && Completes(l, r, done, after)
    ensures LaneOk(b, after)
  {
  }

  lemma CancelKeeps(b: Budget, l: Lane, r: Request, outcome: CancelOutcome, after: Lane)
    requires LaneOk(b, l) && Cancels(l, r, outcome, after)
    ensures LaneOk(b, after)
  {
    hide DistinctSlots, DistinctSequences, Without;
    if outcome == RemovedPending {
      var i: nat :| CancellableAt(l, i, r) && after == l.(pending := Without(l.pending, i));
      RemoveKeeps(b, l, i);
    } else {
      assert after.active.Keys == l.active.Keys;
    }
  }

  lemma {:induction false} StayingKeeps(pending: seq<Queued>, scope: nat, generation: nat, last: nat)
    requires DistinctSlots(pending) && DistinctSequences(pending, last)
    ensures var r := Staying(pending, scope, generation);
            |r| <= |pending| && DistinctSlots(r) && DistinctSequences(r, last)
  {
    if pending != [] {
      var init := pending[..|pending| - 1];
      StayingKeeps(init, scope, generation, last);
      var r := Staying(init, scope, generation);
      forall i | 0 <= i < |r| ensures SlotOf(r[i].request) != SlotOf(pending[|init|].request) && r[i].sequence != pending[|init|].sequence {
        assert r[i] in init;
      }
    }
  }

  lemma RetireKeeps(b: Budget, l: Lane, scope: nat, generation: nat, retired: seq<Request>, after: Lane)
    requires LaneOk(b, l) && Retires(l, scope, generation, retired, after)
    ensures LaneOk(b, after)
  {
    StayingKeeps(l.pending, scope, generation, l.sequence);
    assert after.active.Keys == l.active.Keys;
    forall i | 0 <= i < |after.pending| ensures SlotOf(after.pending[i].request) !in after.active {
      assert after.pending[i] in l.pending;
    }
  }
}
