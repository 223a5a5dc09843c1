/** Bounded filesystem probes: callers, pool threads, the set of keys in flight and the stack of idle
    threads, as a transition system. A probe may block for good or panic; the pool goes on. */
module ProbePool {
  type Key = nat

  datatype CallPc =
    | Starting             // about to enter its key
    | Refused              // reports nothing at once
    | Inserted             // its key is in flight; about to pop an idle thread
    | Popped(worker: nat)  // about to send the job to it
    | Spawning             // no thread was idle
    | Spawned(worker: nat) // about to send the job to the new thread
    | Failed               // no thread could be started; about to take the key back
    | Accepted(worker: nat)

  /** What the caller got: nothing yet, its answer, or the deadline. */
  datatype Outcome = Undecided | Got | GaveUp

  datatype Call = Call(key: Key, pc: CallPc, answered: bool, outcome: Outcome)

  datatype WorkerPc =
    | Waiting
    | Running(call: nat)    // inside the probe
    | Removing(call: nat)   // it returned; about to take the key back
    | Answering(call: nat)  // about to send the value
    | Returning             // about to push itself on the idle stack
    | Gone(call: nat)       // the probe panicked and the thread ended

  datatype Worker = Worker(pc: WorkerPc, queue: seq<nat>)

  datatype Pool = Pool(inFlight: set<Key>, idle: seq<nat>, workers: seq<Worker>, calls: seq<Call>)

  datatype Step =
    | Begin(key: Key)
    | Insert(call: nat)
    | PopIdle(call: nat)
    | Send(call: nat)
    | Spawn(call: nat, ok: bool)
    | TakeBack(call: nat)
    | Receive(worker: nat)
    | Return(worker: nat)
    | Panic(worker: nat)
    | Remove(worker: nat)
    | Answer(worker: nat)
    | PushIdle(worker: nat)
    | GetAnswer(call: nat)
    | GiveUp(call: nat)

  const FREE: Worker := Worker(Waiting, [])

  // ---------------------------------------------------------------- who holds what

  /** The job of call c is with worker w: queued, running, or running forever. */
  predicate WorksOn(w: Worker, c: nat) {
    c in w.queue || w.pc == Running(c) || w.pc == Removing(c) || w.pc == Gone(c)
  }

  /** Call c is accepted, or being accepted, and its probe has not returned. */
  predicate Unreturned(p: Pool, c: nat)
    requires c < |p.calls|
  {
    match p.calls[c].pc
    case Starting => false
    case Refused => false
    case Accepted(w) => w < |p.workers| && WorksOn(p.workers[w], c)
    case _ => true
  }

  predicate ClaimedBy(call: Call, w: nat) {
    call.pc == Popped(w) || call.pc == Spawned(w)
  }

  // ---------------------------------------------------------------- the invariant

  predicate IdleOk(p: Pool) {
    (forall i :: 0 <= i < |p.idle| ==> p.idle[i] < |p.workers| && p.workers[p.idle[i]] == FREE) &&
    (forall i, j :: 0 <= i < j < |p.idle| ==> p.idle[i] != p.idle[j])
  }

  predicate ClaimOk(p: Pool, c: nat)
    requires c < |p.calls|
  {
    var pc := p.calls[c].pc;
    pc.Popped? || pc.Spawned? ==>
      pc.worker < |p.workers| && p.workers[pc.worker] == FREE && pc.worker !in p.idle
  }

  ghost predicate ClaimsOk(p: Pool) {
    (forall c :: 0 <= c < |p.calls| ==> ClaimOk(p, c)) &&
    (forall c, d, w: nat :: 0 <= c < d < |p.calls| && ClaimedBy(p.calls[c], w) ==> !ClaimedBy(p.calls[d], w))
  }

  predicate CallOf(pc: WorkerPc, c: nat) {
    pc == Running(c) || pc == Removing(c) || pc == Gone(c) || pc == Answering(c)
  }

  /** A thread has at most one unfinished job, of a call that was sent to it. */
  ghost predicate WorkerOk(p: Pool, w: nat)
    requires w < |p.workers|
  {
    var worker := p.workers[w];
    |worker.queue| <= 1 && (worker.queue != [] ==> worker.pc.Waiting?) &&
    (forall c: nat :: c in worker.queue || CallOf(worker.pc, c) ==> c < |p.calls| && p.calls[c].pc == Accepted(w) && !p.calls[c].answered)
  }

  ghost predicate WorkersOk(p: Pool) {
    forall w :: 0 <= w < |p.workers| ==> WorkerOk(p, w)
  }

  ghost predicate KeyHeld(p: Pool, k: Key) {
    exists c :: 0 <= c < |p.calls| && Unreturned(p, c) && p.calls[c].key == k
  }

  /** The set in flight is exactly the keys of unreturned probes, no two of which share a key. */
  ghost predicate KeysOk(p: Pool) {
    (forall c :: 0 <= c < |p.calls| && Unreturned(p, c) ==> p.calls[c].key in p.inFlight) &&
    (forall k :: k in p.inFlight ==> KeyHeld(p, k)) &&
    (forall c, d :: 0 <= c < d < |p.calls| && Unreturned(p, c) && Unreturned(p, d) ==> p.calls[c].key != p.calls[d].key)
  }

  predicate CallOk(p: Pool, c: nat)
    requires c < |p.calls|
  {
    (p.calls[c].pc.Accepted? ==> p.calls[c].pc.worker < |p.workers|) &&
    (p.calls[c].answered ==> p.calls[c].pc.Accepted?) &&
    (p.calls[c].outcome == Got ==> p.calls[c].answered)
  }

  ghost predicate Claimed(p: Pool, w: nat) {
    exists c :: 0 <= c < |p.calls| && ClaimedBy(p.calls[c], w)
  }

  /** A free thread is idle or claimed by one call: none is forgotten. */
  ghost predicate NoneForgotten(p: Pool) {
    forall w :: 0 <= w < |p.workers| && p.workers[w] == FREE ==> w in p.idle || Claimed(p, w)
  }

  ghost predicate PoolOk(p: Pool) {
    IdleOk(p) && ClaimsOk(p) && WorkersOk(p) && KeysOk(p) && NoneForgotten(p) &&
    (forall c :: 0 <= c < |p.calls| ==> CallOk(p, c))
  }

  // ---------------------------------------------------------------- steps

  predicate At(p: Pool, c: nat) { c < |p.calls| }

  /** The thread a claim names is alive and its queue is open. */
  predicate Open(p: Pool, w: nat) { w < |p.workers| && !p.workers[w].pc.Gone? }

  predicate Enabled(p: Pool, step: Step) {
    match step
    case Begin(_) => true
    case Insert(c) => At(p, c) && p.calls[c].pc.Starting?
    case PopIdle(c) => At(p, c) && p.calls[c].pc.Inserted?
    case Send(c) => At(p, c) && (p.calls[c].pc.Popped? || p.calls[c].pc.Spawned?)
    case Spawn(c, _) => At(p, c) && p.calls[c].pc.Spawning?
    case TakeBack(c) => At(p, c) && p.calls[c].pc.Failed?
    case Receive(w) => w < |p.workers| && p.workers[w].pc.Waiting? && p.workers[w].queue != []
    case Return(w) => w < |p.workers| && p.workers[w].pc.Running?
    case Panic(w) => w < |p.workers| && p.workers[w].pc.Running?
    case Remove(w) => w < |p.workers| && p.workers[w].pc.Removing? && At(p, p.workers[w].pc.call)
    case Answer(w) => w < |p.workers| && p.workers[w].pc.Answering? && At(p, p.workers[w].pc.call)
    case PushIdle(w) => w < |p.workers| && p.workers[w].pc.Returning?
    case GetAnswer(c) => At(p, c) && p.calls[c].outcome == Undecided && p.calls[c].answered
    case GiveUp(c) => At(p, c) && p.calls[c].outcome == Undecided && p.calls[c].pc.Accepted?
  }

  function SetCall(p: Pool, c: nat, pc: CallPc): Pool
    requires At(p, c)
  {
    p.(calls := p.calls[c := p.calls[c].(pc := pc)])
  }

  function SetWorker(p: Pool, w: nat, worker: Worker): Pool
    requires w < |p.workers|
  {
    p.(workers := p.workers[w := worker])
  }

  /** The job goes to the claimed thread, or, when that has ended, to a thread still to be started. */
  function Sent(p: Pool, c: nat): Pool
    requires Enabled(p, Send(c))
  {
    var w := p.calls[c].pc.worker;
    if Open(p, w) then SetWorker(SetCall(p, c, Accepted(w)), w, p.workers[w].(queue := p.workers[w].queue + [c]))
    else if p.calls[c].pc.Popped? then SetCall(p, c, Spawning)
    else SetCall(p, c, Failed)
  }

  function Apply(p: Pool, step: Step): Pool
    requires Enabled(p, step)
  {
    match step
    case Begin(key) => p.(calls := p.calls + [Call(key, Starting, false, Undecided)])
    case Insert(c) =>
      if p.calls[c].key in p.inFlight then SetCall(p, c, Refused)
      else SetCall(p, c, Inserted).(inFlight := p.inFlight + {p.calls[c].key})
    case PopIdle(c) =>
      if p.idle == [] then SetCall(p, c, Spawning)
      else SetCall(p, c, Popped(p.idle[|p.idle| - 1])).(idle := p.idle[..|p.idle| - 1])
    case Send(c) => Sent(p, c)
    case Spawn(c, ok) =>
      if ok then SetCall(p, c, Spawned(|p.workers|)).(workers := p.workers + [FREE]) else SetCall(p, c, Failed)
    case TakeBack(c) => SetCall(p, c, Refused).(inFlight := p.inFlight - {p.calls[c].key})
    case Receive(w) => SetWorker(p, w, Worker(Running(p.workers[w].queue[0]), p.workers[w].queue[1..]))
    case Return(w) => SetWorker(p, w, p.workers[w].(pc := Removing(p.workers[w].pc.call)))
    case Panic(w) => SetWorker(p, w, p.workers[w].(pc := Gone(p.workers[w].pc.call)))
    case Remove(w) =>
      var c := p.workers[w].pc.call;
      SetWorker(p, w, p.workers[w].(pc := Answering(c))).(inFlight := p.inFlight - {p.calls[c].key})
    case Answer(w) =>
      var c := p.workers[w].pc.call;
      SetWorker(p, w, p.workers[w].(pc := Returning)).(calls := p.calls[c := p.calls[c].(answered := true)])
    case PushIdle(w) => SetWorker(p, w, p.workers[w].(pc := Waiting)).(idle := p.idle + [w])
    case GetAnswer(c) => p.(calls := p.calls[c := p.calls[c].(outcome := Got)])
    case GiveUp(c) => p.(calls := p.calls[c := p.calls[c].(outcome := GaveUp)])
  }

  function Empty(): (p: Pool)
    ensures PoolOk(p)
  {
    Pool({}, [], [], [])
  }

  // ---------------------------------------------------------------- preservation

  /** A claimed thread is free, so its queue is open: the send always succeeds. */
  lemma ClaimedIsFree(p: Pool, c: nat)
    requires PoolOk(p) && Enabled(p, Send(c))
    ensures var w := p.calls[c].pc.worker; w < |p.workers| && p.workers[w] == FREE && Open(p, w)
  {
    assert ClaimOk(p, c);
  }

  /** Steps of the pool's threads; the others are a caller's. */
  predicate ThreadStep(step: Step) {
    step.Receive? || step.Return? || step.Panic? || step.Remove? || step.Answer? || step.PushIdle?
  }

  /** Steps that end a probe's claim to its key. */
  predicate Ends(p: Pool, step: Step, c: nat) {
    step == TakeBack(c) || (step.Remove? && step.worker < |p.workers| && p.workers[step.worker].pc == Removing(c))
  }

  /** Whether call c holds its key after a step, in terms of before. */
  ghost predicate HolderMoves(p: Pool, step: Step, r: Pool, c: nat)
    requires c < |r.calls|
  {
    (c >= |p.calls| ==> !Unreturned(r, c)) &&
    (c < |p.calls| ==> r.calls[c].key == p.calls[c].key) &&
    (c < |p.calls| && step == Insert(c) ==> !Unreturned(p, c) && Unreturned(r, c) == (p.calls[c].key !in p.inFlight)) &&
    (c < |p.calls| && Ends(p, step, c) ==> Unreturned(p, c) && !Unreturned(r, c)) &&
    (c < |p.calls| && step != Insert(c) && !Ends(p, step, c) ==> Unreturned(r, c) == Unreturned(p, c))
  }

  lemma CallStepMoves(p: Pool, step: Step, c: nat)
    requires PoolOk(p) && Enabled(p, step) && c < |Apply(p, step).calls|
    requires !step.Send? && !ThreadStep(step)
    ensures HolderMoves(p, step, Apply(p, step), c)
  {
    hide KeysOk, NoneForgotten, IdleOk, ClaimsOk, WorkersOk, WorksOn;
    if c < |p.calls| {
      assert CallOk(p, c);
    }
  }

  lemma SendMoves(p: Pool, call: nat, c: nat)
    requires PoolOk(p) && Enabled(p, Send(call)) && c < |p.calls|
    ensures HolderMoves(p, Send(call), Apply(p, Send(call)), c)
  {
    hide KeysOk, NoneForgotten, IdleOk, ClaimsOk, WorkersOk;
    ClaimedIsFree(p, call);
    assert CallOk(p, c);
  }

  lemma ThreadStepMoves(p: Pool, step: Step, c: nat)
    requires PoolOk(p) && Enabled(p, step) && c < |p.calls|
    requires ThreadStep(step)
    ensures HolderMoves(p, step, Apply(p, step), c)
  {
    hide KeysOk, NoneForgotten, IdleOk, ClaimsOk;
    assert CallOk(p, c) && WorkerOk(p, step.worker);
    if p.calls[c].pc.Accepted? {
      assert WorkerOk(p, p.calls[c].pc.worker);
    }
  }

  /** Which calls hold their keys after a step. */
  ghost predicate HoldersMove(p: Pool, step: Step, r: Pool) {
    |p.calls| <= |r.calls| && forall c :: 0 <= c < |r.calls| ==> HolderMoves(p, step, r, c)
  }

  lemma HoldersAfter(p: Pool, step: Step)
    requires PoolOk(p) && Enabled(p, step)
    ensures HoldersMove(p, step, Apply(p, step))
  {
    hide PoolOk, HolderMoves;
    forall c | 0 <= c < |Apply(p, step).calls| ensures HolderMoves(p, step, Apply(p, step), c) {
      if step.Send? {
        SendMoves(p, step.call, c);
      } else if ThreadStep(step) {
        ThreadStepMoves(p, step, c);
      } else {
        CallStepMoves(p, step, c);
      }
    }
  }

  /** The set in flight changes with the key that is entered and the one that is taken back. */
  ghost predicate KeysMove(p: Pool, step: Step, r: Pool) {
    (forall k :: k in r.inFlight <==> (k in p.inFlight && !TakenBack(p, step, k)) || Entered(p, step, k))
  }

  predicate Entered(p: Pool, step: Step, k: Key) {
    step.Insert? && At(p, step.call) && p.calls[step.call].key == k && k !in p.inFlight
  }

  ghost predicate TakenBack(p: Pool, step: Step, k: Key) {
    exists c :: 0 <= c < |p.calls| && Ends(p, step, c) && p.calls[c].key == k
  }

  lemma KeysAfter(p: Pool, step: Step)
    requires Enabled(p, step)
    ensures KeysMove(p, step, Apply(p, step))
  {
    if step.TakeBack? {
      assert Ends(p, step, step.call);
    } else if step.Remove? {
      assert Ends(p, step, p.workers[step.worker].pc.call);
    } else if step.Send? {
      var w := p.calls[step.call].pc.worker;
      assert Apply(p, step).inFlight == p.inFlight;
    }
  }

  lemma HeldKeysMove(p: Pool, step: Step, r: Pool)
    requires KeysOk(p) && HoldersMove(p, step, r) && KeysMove(p, step, r)
    ensures forall k :: k in r.inFlight ==> KeyHeld(r, k)
  {
    hide Unreturned, Ends;
    forall k | k in r.inFlight ensures KeyHeld(r, k) {
      if Entered(p, step, k) {
        assert HolderMoves(p, step, r, step.call) && Unreturned(r, step.call);
      } else {
        var c :| 0 <= c < |p.calls| && Unreturned(p, c) && p.calls[c].key == k;
        assert HolderMoves(p, step, r, c) && Unreturned(r, c);
      }
    }
  }

  lemma HoldersKeysMove(p: Pool, step: Step, r: Pool)
    requires KeysOk(p) && HoldersMove(p, step, r) && KeysMove(p, step, r)
    ensures forall c :: 0 <= c < |r.calls| && Unreturned(r, c) ==> r.calls[c].key in r.inFlight
    ensures forall c, d :: 0 <= c < d < |r.calls| && Unreturned(r, c) && Unreturned(r, d) ==> r.calls[c].key != r.calls[d].key
  {
    hide Unreturned, Ends;
    forall c | 0 <= c < |r.calls| && Unreturned(r, c) ensures r.calls[c].key in r.inFlight {
      assert HolderMoves(p, step, r, c);
      forall d | 0 <= d < |p.calls| && Ends(p, step, d) ensures p.calls[d].key != r.calls[c].key {
        assert HolderMoves(p, step, r, d);
      }
    }
    forall c, d | 0 <= c < d < |r.calls| && Unreturned(r, c) && Unreturned(r, d) ensures r.calls[c].key != r.calls[d].key {
      assert HolderMoves(p, step, r, c) && HolderMoves(p, step, r, d);
    }
  }

  lemma KeysKeep(p: Pool, step: Step)
    requires PoolOk(p) && Enabled(p, step)
    ensures KeysOk(Apply(p, step))
  {
    hide PoolOk, HoldersMove, KeysMove, Apply, Enabled, Unreturned;
    HasKeys(p);
    HoldersAfter(p, step);
    KeysAfter(p, step);
    HeldKeysMove(p, step, Apply(p, step));
    HoldersKeysMove(p, step, Apply(p, step));
  }

  lemma HasKeys(p: Pool)
    requires PoolOk(p)
    ensures KeysOk(p)
  {
  }

  lemma IdleKeeps(p: Pool, step: Step)
    requires PoolOk(p) && Enabled(p, step)
    ensures IdleOk(Apply(p, step))
  {
    hide KeysOk, NoneForgotten, CallOk;
    if step.Send? {
      ClaimedIsFree(p, step.call);
      assert ClaimOk(p, step.call);
    }
    if step.PushIdle? {
      assert WorkerOk(p, step.worker);
    }
  }

  lemma ThreadStepKeepsClaim(p: Pool, step: Step, c: nat)
    requires PoolOk(p) && Enabled(p, step) && ThreadStep(step) && c < |p.calls|
    ensures ClaimOk(Apply(p, step), c)
    ensures Apply(p, step).calls[c].pc == p.calls[c].pc && |Apply(p, step).calls| == |p.calls|
  {
    hide KeysOk, NoneForgotten, CallOk, WorkersOk;
    assert ClaimOk(p, c);
  }

  lemma SendKeepsClaim(p: Pool, call: nat, c: nat)
    requires PoolOk(p) && Enabled(p, Send(call)) && c < |p.calls|
    ensures ClaimOk(Apply(p, Send(call)), c)
    ensures |Apply(p, Send(call)).calls| == |p.calls|
    ensures forall w :: ClaimedBy(Apply(p, Send(call)).calls[c], w) <==> ClaimedBy(p.calls[c], w) && c != call
  {
    hide KeysOk, NoneForgotten, CallOk, WorkersOk;
    ClaimedIsFree(p, call);
    assert ClaimOk(p, c) && ClaimedBy(p.calls[call], p.calls[call].pc.worker);
  }

  lemma CallStepKeepsClaim(p: Pool, step: Step, c: nat)
    requires PoolOk(p) && Enabled(p, step) && !ThreadStep(step) && !step.Send? && c < |Apply(p, step).calls|
    ensures ClaimOk(Apply(p, step), c)
  {
    hide KeysOk, NoneForgotten, CallOk, WorkersOk;
    if c < |p.calls| {
      assert ClaimOk(p, c);
    }
  }

  lemma ClaimsKeep(p: Pool, step: Step)
    requires PoolOk(p) && Enabled(p, step)
    ensures ClaimsOk(Apply(p, step))
  {
    hide PoolOk, ClaimOk, ThreadStep;
    var r := Apply(p, step);
    forall c | 0 <= c < |r.calls| ensures ClaimOk(r, c) {
      if ThreadStep(step) {
        ThreadStepKeepsCalls(p, step);
        ThreadStepKeepsClaim(p, step, c);
      } else if step.Send? {
        SendKeepsClaim(p, step.call, c);
      } else {
        CallStepKeepsClaim(p, step, c);
      }
    }
    ClaimsStayApart(p, step);
  }

  lemma ThreadStepKeepsCalls(p: Pool, step: Step)
    requires Enabled(p, step) && ThreadStep(step)
    ensures |Apply(p, step).calls| == |p.calls|
  {
  }

  lemma CallStepKeepsApart(p: Pool, step: Step, c: nat, d: nat, w: nat)
    requires PoolOk(p) && Enabled(p, step) && !ThreadStep(step) && !step.Send? && c < d < |Apply(p, step).calls|
    requires ClaimedBy(Apply(p, step).calls[c], w)
    ensures !ClaimedBy(Apply(p, step).calls[d], w)
  {
    hide KeysOk, NoneForgotten, CallOk, WorkersOk;
    if d < |p.calls| {
      assert ClaimOk(p, c) && ClaimOk(p, d);
    }
  }

  lemma ClaimsStayApart(p: Pool, step: Step)
    requires PoolOk(p) && Enabled(p, step)
    ensures forall c, d, w: nat :: 0 <= c < d < |Apply(p, step).calls| && ClaimedBy(Apply(p, step).calls[c], w) ==> !ClaimedBy(Apply(p, step).calls[d], w)
  {
    hide KeysOk, NoneForgotten, CallOk, WorkersOk, IdleOk, ClaimOk, Apply, Enabled, ThreadStep;
    var r := Apply(p, step);
    forall c, d, w: nat | 0 <= c < d < |r.calls| && ClaimedBy(r.calls[c], w) ensures !ClaimedBy(r.calls[d], w) {
      if ThreadStep(step) {
        ThreadStepKeepsCalls(p, step);
        ThreadStepKeepsClaim(p, step, c);
        ThreadStepKeepsClaim(p, step, d);
        assert ClaimedBy(p.calls[c], w) && !ClaimedBy(p.calls[d], w);
      } else if step.Send? {
        SendKeepsCalls(p, step.call);
        SendKeepsClaim(p, step.call, c);
        SendKeepsClaim(p, step.call, d);
        assert step == Send(step.call);
        assert ClaimedBy(p.calls[c], w) && !ClaimedBy(p.calls[d], w);
      } else {
        CallStepKeepsApart(p, step, c, d, w);
      }
    }
  }

  lemma SendKeepsCalls(p: Pool, call: nat)
    requires Enabled(p, Send(call))
    ensures |Apply(p, Send(call)).calls| == |p.calls|
  {
  }

  lemma WorkersKeep(p: Pool, step: Step)
    requires PoolOk(p) && Enabled(p, step)
    ensures WorkersOk(Apply(p, step))
  {
    hide KeysOk, NoneForgotten, IdleOk, ClaimsOk;
    if step.Send? {
      ClaimedIsFree(p, step.call);
      assert CallOk(p, step.call);
    }
    if step.Answer? {
      assert WorkerOk(p, step.worker);
    }
    var r := Apply(p, step);
    forall w | 0 <= w < |r.workers| ensures WorkerOk(r, w) {
      if w < |p.workers| {
        assert WorkerOk(p, w);
        forall c: nat | c in r.workers[w].queue || CallOf(r.workers[w].pc, c)
          ensures c < |r.calls| && r.calls[c].pc == Accepted(w) && !r.calls[c].answered
        {
          if step.Receive? && step.worker == w {
            assert c in p.workers[w].queue;
          } else if !(step.Send? && step.call == c) {
            assert c in p.workers[w].queue || CallOf(p.workers[w].pc, c);
          }
        }
      }
    }
  }

  lemma ThreadStepForgetsNone(p: Pool, step: Step, w: nat)
    requires PoolOk(p) && Enabled(p, step) && ThreadStep(step) && w < |p.workers| && Apply(p, step).workers[w] == FREE
    ensures w in Apply(p, step).idle || Claimed(Apply(p, step), w)
  {
    hide KeysOk, WorkersOk, IdleOk, CallOk, ClaimsOk;
    if p.workers[w] == FREE && w !in p.idle {
      var c :| 0 <= c < |p.calls| && ClaimedBy(p.calls[c], w);
      assert ClaimedBy(Apply(p, step).calls[c], w);
    }
  }

  lemma CallStepForgetsNone(p: Pool, step: Step, w: nat)
    requires PoolOk(p) && Enabled(p, step) && !ThreadStep(step) && w < |Apply(p, step).workers| && Apply(p, step).workers[w] == FREE
    ensures w in Apply(p, step).idle || Claimed(Apply(p, step), w)
  {
    hide KeysOk, WorkersOk, IdleOk, CallOk, ClaimsOk;
    if step.Send? {
      ClaimedIsFree(p, step.call);
    }
    var r := Apply(p, step);
    if w < |p.workers| && p.workers[w] == FREE && w !in p.idle {
      var c :| 0 <= c < |p.calls| && ClaimedBy(p.calls[c], w);
      assert ClaimedBy(r.calls[c], w);
    } else if w == |p.workers| {
      assert ClaimedBy(r.calls[step.call], w);
    } else if step.PopIdle? {
      assert p.idle != [] ==> p.idle == p.idle[..|p.idle| - 1] + [p.idle[|p.idle| - 1]];
      assert w !in r.idle ==> ClaimedBy(r.calls[step.call], w);
    }
  }

  lemma NoneForgottenKeeps(p: Pool, step: Step)
    requires PoolOk(p) && Enabled(p, step)
    ensures NoneForgotten(Apply(p, step))
  {
    hide PoolOk, Claimed, ThreadStep;
    var r := Apply(p, step);
    forall w | 0 <= w < |r.workers| && r.workers[w] == FREE ensures w in r.idle || Claimed(r, w) {
      if ThreadStep(step) {
        ThreadStepKeepsWorkers(p, step);
        ThreadStepForgetsNone(p, step, w);
      } else {
        CallStepForgetsNone(p, step, w);
      }
    }
  }

  lemma ThreadStepKeepsWorkers(p: Pool, step: Step)
    requires Enabled(p, step) && ThreadStep(step)
    ensures |Apply(p, step).workers| == |p.workers|
  {
  }

  lemma CallsKeep(p: Pool, step: Step)
    requires PoolOk(p) && Enabled(p, step)
    ensures var r := Apply(p, step); forall c :: 0 <= c < |r.calls| ==> CallOk(r, c)
  {
    hide KeysOk, NoneForgotten, IdleOk;
    if step.Send? {
      ClaimedIsFree(p, step.call);
    }
    if step.Answer? {
      assert WorkerOk(p, step.worker);
    }
    var r := Apply(p, step);
    forall c | 0 <= c < |r.calls| ensures CallOk(r, c) {
      if c < |p.calls| {
        assert CallOk(p, c);
      }
    }
  }

  /** Every step, in any interleaving of callers and threads, keeps the pool in order. */
  lemma StepKeeps(p: Pool, step: Step)
    requires PoolOk(p) && Enabled(p, step)
    ensures PoolOk(Apply(p, step))
  {
    hide KeysOk, NoneForgotten, IdleOk, ClaimsOk, WorkersOk, CallOk, Apply, Enabled;
    IdleKeeps(p, step);
    ClaimsKeep(p, step);
    WorkersKeep(p, step);
    KeysKeep(p, step);
    NoneForgottenKeeps(p, step);
    CallsKeep(p, step);
  }

  // ---------------------------------------------------------------- every run

  predicate Possible(p: Pool, steps: seq<Step>)
    decreases |steps|
  {
    steps == [] || (Enabled(p, steps[0]) && Possible(Apply(p, steps[0]), steps[1..]))
  }

  function After(p: Pool, steps: seq<Step>): Pool
    requires Possible(p, steps)
    decreases |steps|
  {
    if steps == [] then p else After(Apply(p, steps[0]), steps[1..])
  }

  lemma {:induction false} RunsKeep(p: Pool, steps: seq<Step>)
    requires PoolOk(p) && Possible(p, steps)
    ensures PoolOk(After(p, steps))
    decreases |steps|
  {
    hide PoolOk, Apply, Enabled;
    if steps != [] {
      StepKeeps(p, steps[0]);
      RunsKeep(Apply(p, steps[0]), steps[1..]);
    }
  }

  /** A thread is inside the probe of call c, or ended inside it. */
  predicate InProbe(p: Pool, w: nat, c: nat) {
    w < |p.workers| && (p.workers[w].pc == Running(c) || p.workers[w].pc == Gone(c))
  }

  /** At most one probe per key has not returned, the keys in flight are exactly theirs, and no thread is
      on the idle stack twice. */
  lemma OneProbePerKey(steps: seq<Step>, w: nat, v: nat, c: nat, d: nat)
    requires Possible(Empty(), steps)
    ensures var p := After(Empty(), steps);
            InProbe(p, w, c) && InProbe(p, v, d) ==> c < |p.calls| && d < |p.calls| && (p.calls[c].key == p.calls[d].key ==> c == d && w == v)
    ensures var p := After(Empty(), steps); forall k :: k in p.inFlight <==> KeyHeld(p, k)
    ensures var p := After(Empty(), steps); forall i, j :: 0 <= i < j < |p.idle| ==> p.idle[i] != p.idle[j]
  {
    RunsKeep(Empty(), steps);
    var p := After(Empty(), steps);
    OneProbePerKeyNow(p, w, v, c, d);
  }

  lemma OneProbePerKeyNow(p: Pool, w: nat, v: nat, c: nat, d: nat)
    requires PoolOk(p)
    ensures InProbe(p, w, c) && InProbe(p, v, d) ==> c < |p.calls| && d < |p.calls| && (p.calls[c].key == p.calls[d].key ==> c == d && w == v)
    ensures forall k :: k in p.inFlight <==> KeyHeld(p, k)
  {
    hide NoneForgotten, IdleOk, ClaimsOk;
    if InProbe(p, w, c) && InProbe(p, v, d) {
      assert WorkerOk(p, w) && WorkerOk(p, v);
      assert CallOf(p.workers[w].pc, c) && CallOf(p.workers[v].pc, d);
      assert Unreturned(p, c) && Unreturned(p, d);
    }
  }

  /** A repeat is refused exactly while the earlier probe of its key has not returned. */
  lemma RefusedIffInFlight(p: Pool, c: nat)
    requires PoolOk(p) && Enabled(p, Insert(c))
    ensures Apply(p, Insert(c)).calls[c].pc.Refused? <==> KeyHeld(p, p.calls[c].key)
  {
    hide NoneForgotten, IdleOk, ClaimsOk, WorkersOk, CallOk;
  }

  /** A failure to start a thread leaves the key free. */
  lemma FailureFreesTheKey(p: Pool, c: nat)
    requires PoolOk(p) && Enabled(p, TakeBack(c))
    ensures !KeyHeld(Apply(p, TakeBack(c)), p.calls[c].key)
  {
    hide NoneForgotten, IdleOk, ClaimsOk, WorkersOk, CallOk, KeysOk;
    KeysKeep(p, TakeBack(c));
    HasKeysAfter(Apply(p, TakeBack(c)), p.calls[c].key);
  }

  lemma HasKeysAfter(p: Pool, k: Key)
    requires KeysOk(p) && k !in p.inFlight
    ensures !KeyHeld(p, k)
  {
  }

  /** A job only goes to a thread with no unfinished job. */
  lemma JobsGoToFreeThreads(p: Pool, c: nat)
    requires PoolOk(p) && Enabled(p, Send(c))
    ensures var w := p.calls[c].pc.worker; w < |p.workers| && p.workers[w] == FREE
    ensures var w := p.calls[c].pc.worker; Apply(p, Send(c)).calls[c].pc == Accepted(w) && Apply(p, Send(c)).workers[w].queue == [c]
  {
    ClaimedIsFree(p, c);
  }

  /** A new thread is started only when no thread is free except those already claimed by other calls. */
  lemma ThreadsAreReused(p: Pool, c: nat, w: nat)
    requires PoolOk(p) && Enabled(p, PopIdle(c)) && Apply(p, PopIdle(c)).calls[c].pc.Spawning? && w < |p.workers|
    ensures p.workers[w] != FREE || Claimed(p, w)
  {
    hide IdleOk, ClaimsOk, WorkersOk, CallOk, KeysOk;
  }

  // ---------------------------------------------------------------- no probe waits for another

  /** The next step that brings call c forward; none while its own probe runs, has ended, or is over. */
  datatype MaybeStep = NoStep | Do(step: Step)

  function Progress(p: Pool, c: nat): MaybeStep
    requires At(p, c)
  {
    match p.calls[c].pc
    case Starting => Do(Insert(c))
    case Refused => NoStep
    case Inserted => Do(PopIdle(c))
    case Popped(_) => Do(Send(c))
    case Spawning => Do(Spawn(c, true))
    case Spawned(_) => Do(Send(c))
    case Failed => Do(TakeBack(c))
    case Accepted(w) =>
      if w >= |p.workers| then NoStep
      else if c in p.workers[w].queue then Do(Receive(w))
      else if p.workers[w].pc == Removing(c) then Do(Remove(w))
      else if p.workers[w].pc == Answering(c) then Do(Answer(w))
      else NoStep
  }

  /** Whatever other probes are stuck on, a call moves on unless it is over or its own probe runs. */
  lemma AStuckProbeDelaysNoOther(p: Pool, c: nat)
    requires PoolOk(p) && At(p, c)
    ensures match Progress(p, c)
            case Do(step) => Enabled(p, step)
            case NoStep => p.calls[c].pc.Refused? || (p.calls[c].pc.Accepted? && (InProbe(p, p.calls[c].pc.worker, c) || !Unreturned(p, c)))
  {
    hide IdleOk, ClaimsOk, KeysOk, NoneForgotten;
    assert CallOk(p, c);
    if p.calls[c].pc.Accepted? {
      assert WorkerOk(p, p.calls[c].pc.worker);
    }
  }

  /** How far call c is from its probe. */
  function Distance(p: Pool, c: nat): nat
    requires At(p, c)
  {
    match p.calls[c].pc
    case Starting => 7
    case Inserted => 6
    case Spawning => 5
    case Popped(_) => 4
    case Spawned(_) => 4
    case Failed => 1
    case Refused => 0
    case Accepted(w) => if w < |p.workers| && c in p.workers[w].queue then 3 else 0
  }

  ghost predicate Closer(p: Pool, step: Step, r: Pool, c: nat)
    requires At(p, c)
  {
    At(r, c) && Distance(r, c) <= Distance(p, c) && (Progress(p, c) == Do(step) && Distance(p, c) > 0 ==> Distance(r, c) < Distance(p, c))
  }

  lemma CallStepIsCloser(p: Pool, step: Step, c: nat)
    requires PoolOk(p) && Enabled(p, step) && At(p, c)
    requires !ThreadStep(step)
    ensures Closer(p, step, Apply(p, step), c)
  {
    hide IdleOk, KeysOk, NoneForgotten, ClaimsOk, WorkersOk;
    assert CallOk(p, c);
    if step.Send? {
      ClaimedIsFree(p, step.call);
    }
  }

  lemma ThreadStepIsCloser(p: Pool, step: Step, c: nat)
    requires PoolOk(p) && Enabled(p, step) && At(p, c)
    requires ThreadStep(step)
    ensures Closer(p, step, Apply(p, step), c)
  {
    hide IdleOk, KeysOk, NoneForgotten, ClaimsOk;
    assert CallOk(p, c);
    if p.calls[c].pc.Accepted? {
      assert WorkerOk(p, p.calls[c].pc.worker);
    }
  }

  /** Nobody else's step moves a call away from its probe, and its own steps move it closer. */
  lemma DistanceShrinks(p: Pool, step: Step, c: nat)
    requires PoolOk(p) && Enabled(p, step) && At(p, c)
    ensures At(Apply(p, step), c) && Distance(Apply(p, step), c) <= Distance(p, c)
    ensures Progress(p, c) == Do(step) && Distance(p, c) > 0 ==> Distance(Apply(p, step), c) < Distance(p, c)
  {
    hide PoolOk, Apply, Enabled, Distance, Progress;
    if ThreadStep(step) {
      ThreadStepIsCloser(p, step, c);
    } else {
      CallStepIsCloser(p, step, c);
    }
  }

  /** An answer is the call's own: it exists only once its probe has returned and the key is free again. */
  lemma AnswersComeAfterReturn(p: Pool, c: nat)
    requires PoolOk(p) && At(p, c) && p.calls[c].outcome == Got
    ensures !Unreturned(p, c) && p.calls[c].pc.Accepted?
  {
    hide IdleOk, ClaimsOk, KeysOk, NoneForgotten;
    assert CallOk(p, c);
    assert WorkerOk(p, p.calls[c].pc.worker);
  }
}
