/** The recursive directory walk: worker threads that enumerate directories, a shared queue with a
    condition variable, a bounded event channel, and one coordinator that counts pending directories.
    The parallel branch is a labelled transition system whose steps are the atomic actions of the
    threads: one critical section, one channel operation, one directory entry read.  */
module DirectoryWalk {
  datatype Option<T> = None | Some(value: T)

  /** Device, file number and hard-link count, when the platform reports them. */
  datatype Identity = Identity(device: nat, file: nat, links: nat)

  datatype Facts = Facts(size: nat, onDisk: nat, identity: Option<Identity>, mountPoint: bool)

  /** What enumerating a directory yields: a folder entry leads to the directory below it. */
  datatype Entry =
    | File(facts: Facts)
    | Symlink(facts: Facts)
    | Folder(facts: Facts, dir: Dir)

  /** A directory as its reader sees it: the entries delivered, then whether reading failed. */
  datatype Dir = Dir(path: string, entries: seq<Entry>, failed: bool)

  datatype Event =
    | Started(dir: Dir)
    | Batch(dir: Dir, entries: seq<Entry>)
    | Done(dir: Dir, failed: bool)

  const RECURSIVE_BATCH_SIZE: nat := 256

  /** Entries cut into full batches, with the remainder last. */
  function Chunks(d: Dir, es: seq<Entry>): seq<Event> {
    if es == [] then []
    else if |es| <= RECURSIVE_BATCH_SIZE then [Batch(d, es)]
    else [Batch(d, es[..RECURSIVE_BATCH_SIZE])] + Chunks(d, es[RECURSIVE_BATCH_SIZE..])
  }

  /** Everything one directory must tell the visitor, in order. */
  function Script(d: Dir): seq<Event> {
    [Started(d)] + Chunks(d, d.entries) + [Done(d, d.failed)]
  }

  /** The directories the visitor descends into out of one batch, given its answer entry by entry. */
  function Select(es: seq<Entry>, choices: seq<bool>): seq<Dir>
    requires |es| == |choices|
  {
    if es == [] then []
    else (if choices[0] && es[0].Folder? then [es[0].dir] else []) + Select(es[1..], choices[1..])
  }

  /** The same for a visitor whose answer depends on the entry alone. */
  function Descents(descend: Entry -> bool, es: seq<Entry>): seq<Dir> {
    if es == [] then []
    else (if descend(es[0]) && es[0].Folder? then [es[0].dir] else []) + Descents(descend, es[1..])
  }

  // ---------------------------------------------------------------- the parallel machine

  datatype Worker =
    | Idle                                               // about to lock the queue
    | Asleep                                             // waiting on the condition variable
    | Popped(dir: Dir)                                   // about to send Started
    | Reading(dir: Dir, pos: nat, batch: seq<Entry>)     // entries[..pos] read, batch not yet sent
    | Flushing(dir: Dir, pos: nat, batch: seq<Entry>)    // a full batch waits for room
    | Closing(dir: Dir, batch: seq<Entry>, failed: bool) // reader returned
    | Exited

  datatype Control =
    | Top                       // at the loop head
    | Waiting                   // in recv
    | Pushing(kids: seq<Dir>)   // pending already counts kids, the queue does not hold them yet
    | Finished

  datatype Tagged = Tagged(worker: nat, event: Event)

  /** `log` is the sequence of visitor calls and `served[w]` the directories worker w has popped;
      both are history, no step reads them. */
  datatype State = State(
    queue: seq<Dir>, stopped: bool, workers: seq<Worker>, channel: seq<Tagged>,
    pending: nat, cancel: bool, cancelApplied: bool, control: Control,
    log: seq<Tagged>, served: seq<seq<Dir>>)

  datatype Step =
    | SetCancel
    | Look(w: nat)              // one critical section: exit, sleep or pop
    | Spurious(w: nat)
    | SendStarted(w: nat)
    | Read(w: nat)
    | SendFull(w: nat)
    | EndOfDirectory(w: nat)
    | BreakOff(w: nat)          // the reader saw the cancel flag
    | SendLast(w: nat)
    | SendDone(w: nat)
    | Check(sawCancel: bool)    // loop head with pending > 0; a relaxed load may miss the flag
    | Receive(choices: seq<bool>)
    | Push
    | RecvFails                 // every sender is gone
    | Finish                    // loop head with pending == 0

  function Init(root: Dir, workers: nat): State {
    State([root], false, seq(workers, _ => Idle), [], 1, false, false, Top, [], seq(workers, _ => []))
  }

  function SaturatingSub(a: nat, b: nat): nat {
    if a > b then a - b else 0
  }

  function Wake(workers: seq<Worker>): (r: seq<Worker>)
    ensures |r| == |workers|
    ensures forall i :: 0 <= i < |r| ==> r[i] == if workers[i].Asleep? then Idle else workers[i]
  {
    seq(|workers|, i requires 0 <= i < |workers| => if workers[i].Asleep? then Idle else workers[i])
  }

  predicate Room(s: State) {
    |s.channel| < 2 * |s.workers|
  }

  predicate Enabled(s: State, step: Step) {
    match step
    case SetCancel => !s.cancel
    case Look(w) => w < |s.workers| && s.workers[w].Idle? && |s.served| == |s.workers|
    case Spurious(w) => w < |s.workers| && s.workers[w].Asleep?
    case SendStarted(w) => w < |s.workers| && s.workers[w].Popped? && Room(s)
    case Read(w) => w < |s.workers| && s.workers[w].Reading? && s.workers[w].pos < |s.workers[w].dir.entries|
    case SendFull(w) => w < |s.workers| && s.workers[w].Flushing? && Room(s)
    case EndOfDirectory(w) => w < |s.workers| && s.workers[w].Reading? && s.workers[w].pos == |s.workers[w].dir.entries|
    case BreakOff(w) => w < |s.workers| && s.workers[w].Reading? && s.cancel
    case SendLast(w) => w < |s.workers| && s.workers[w].Closing? && s.workers[w].batch != [] && Room(s)
    case SendDone(w) => w < |s.workers| && s.workers[w].Closing? && s.workers[w].batch == [] && Room(s)
    case Check(saw) => s.control.Top? && s.pending > 0 && (saw ==> s.cancel)
    case Receive(choices) =>
      s.control.Waiting? && s.channel != [] &&
      (s.channel[0].event.Batch? ==> |choices| == |s.channel[0].event.entries|)
    case Push => s.control.Pushing?
    case RecvFails => s.control.Waiting? && s.channel == [] && forall w :: 0 <= w < |s.workers| ==> s.workers[w].Exited?
    case Finish => s.control.Top? && s.pending == 0
  }

  function Move(s: State, w: nat, to: Worker): State
    requires w < |s.workers|
  {
    s.(workers := s.workers[w := to])
  }

  function Send(s: State, w: nat, event: Event, to: Worker): State
    requires w < |s.workers|
  {
    s.(workers := s.workers[w := to], channel := s.channel + [Tagged(w, event)])
  }

  function LookNow(s: State, w: nat): State
    requires Enabled(s, Look(w))
  {
    if s.stopped then Move(s, w, Exited)
    else if s.queue == [] then Move(s, w, Asleep)
    else Move(s, w, Popped(s.queue[0])).(queue := s.queue[1..], served := s.served[w := s.served[w] + [s.queue[0]]])
  }

  function ReadNow(s: State, w: nat): State
    requires Enabled(s, Read(w))
  {
    var r := s.workers[w];
    var batch := r.batch + [r.dir.entries[r.pos]];
    Move(s, w, if |batch| >= RECURSIVE_BATCH_SIZE then Flushing(r.dir, r.pos + 1, batch)
               else Reading(r.dir, r.pos + 1, batch))
  }

  function CheckNow(s: State, saw: bool): State {
    if saw && !s.cancelApplied then
      s.(queue := [], stopped := true, pending := SaturatingSub(s.pending, |s.queue|),
         cancelApplied := true, workers := Wake(s.workers), control := Waiting)
    else s.(control := Waiting)
  }

  function ReceiveNow(s: State, choices: seq<bool>): State
    requires Enabled(s, Receive(choices))
  {
    var t := s.channel[0];
    var s1 := s.(channel := s.channel[1..]);
    match t.event
    case Started(_) => s1.(log := s.log + [t], control := Top)
    case Batch(_, es) =>
      if s.cancelApplied then s1.(control := Top)
      else
        var kids := Select(es, choices);
        if kids == [] then s1.(log := s.log + [t], control := Top)
        else s1.(log := s.log + [t], pending := s.pending + |kids|, control := Pushing(kids))
    case Done(_, _) => s1.(log := s.log + [t], pending := SaturatingSub(s.pending, 1), control := Top)
  }

  function StopNow(s: State): State {
    s.(stopped := true, queue := [], workers := Wake(s.workers), control := Finished)
  }

  function Apply(s: State, step: Step): State
    requires Enabled(s, step)
  {
    match step
    case SetCancel => s.(cancel := true)
    case Look(w) => LookNow(s, w)
    case Spurious(w) => Move(s, w, Idle)
    case SendStarted(w) => Send(s, w, Started(s.workers[w].dir), Reading(s.workers[w].dir, 0, []))
    case Read(w) => ReadNow(s, w)
    case SendFull(w) =>
      Send(s, w, Batch(s.workers[w].dir, s.workers[w].batch), Reading(s.workers[w].dir, s.workers[w].pos, []))
    case EndOfDirectory(w) => Move(s, w, Closing(s.workers[w].dir, s.workers[w].batch, s.workers[w].dir.failed))
    case BreakOff(w) => Move(s, w, Closing(s.workers[w].dir, s.workers[w].batch, false))
    case SendLast(w) =>
      Send(s, w, Batch(s.workers[w].dir, s.workers[w].batch), Closing(s.workers[w].dir, [], s.workers[w].failed))
    case SendDone(w) => Send(s, w, Done(s.workers[w].dir, s.workers[w].failed), Idle)
    case Check(saw) => CheckNow(s, saw)
    case Receive(choices) => ReceiveNow(s, choices)
    case Push => s.(queue := s.queue + s.control.kids, workers := Wake(s.workers), control := Top)
    case RecvFails => StopNow(s)
    case Finish => StopNow(s)
  }

  /** `s` is reached from `start` by taking `steps` in order: one interleaving. */
  predicate Runs(start: State, steps: seq<Step>, s: State)
    decreases steps
  {
    if steps == [] then s == start
    else Enabled(start, steps[0]) && Runs(Apply(start, steps[0]), steps[1..], s)
  }
}
