/**
 The transfer queue as the protocol its callers and workers run under one lock.

 Every public request and every locked section of a worker is one step. A transfer's
 body runs between a claim and a settle and is represented by what it comes to.
 */
module TransferProtocol {
  import opened Wrappers
  import opened QueuePolicy

  /** One slot: the scheduling view, the two request flags, and whether a cached path is published. */
  datatype Slot = Slot(entry: Entry, cancelRequested: bool, pauseRequested: bool, hasPath: bool)

  datatype Worker = Worker(armed: bool, slot: Option<nat>)

  datatype Queue = Queue(slots: seq<Slot>, workers: seq<Worker>)

  /** What a transfer came to, before a promised cancel overrides it. */
  datatype Outcome = Settled(state: EntryState, cached: bool)

  predicate Terminal(o: Outcome) {
    (o.state == Complete || o.state == Failed || o.state == Cancelled || o.state == Paused)
    && (o.state == Complete ==> o.cached)
  }

  const UNKNOWN_TOTAL: int := -1

  function Entries(q: Queue): (es: seq<Entry>)
    ensures |es| == |q.slots|
    ensures forall i :: 0 <= i < |es| ==> es[i] == q.slots[i].entry
  {
    seq(|q.slots|, i requires 0 <= i < |q.slots| => q.slots[i].entry)
  }

  predicate Holds(q: Queue, w: nat, i: nat) { w < |q.workers| && q.workers[w].slot == Some(i) }

  predicate Held(q: Queue, i: nat) { exists w :: 0 <= w < |q.workers| && q.workers[w].slot == Some(i) }

  predicate AnyArmed(q: Queue) { exists w :: 0 <= w < |q.workers| && q.workers[w].armed }

  predicate IdleWorker(q: Queue) { exists w :: 0 <= w < |q.workers| && q.workers[w].slot.None? }

  function Claimed(workers: seq<Worker>): (active: seq<nat>)
    ensures forall i: nat :: i in active <==> exists w :: 0 <= w < |workers| && workers[w].slot == Some(i)
  {
    if workers == [] then []
    else
      var last := |workers| - 1;
      var rest := Claimed(workers[..last]);
      assert workers == workers[..last] + [workers[last]];
      if workers[last].slot.Some? then rest + [workers[last].slot.value] else rest
  }

  function FreeSlot(slots: seq<Slot>): (r: Option<nat>)
    ensures r.Some? ==> r.value < |slots| && !slots[r.value].entry.inUse
                        && forall j :: 0 <= j < r.value ==> slots[j].entry.inUse
    ensures r.None? ==> forall j :: 0 <= j < |slots| ==> slots[j].entry.inUse
  {
    if slots == [] then None
    else if !slots[0].entry.inUse then Some(0)
    else match FreeSlot(slots[1..])
         case None => assert forall j :: 1 <= j < |slots| ==> slots[j] == slots[1..][j - 1]; None
         case Some(i) => assert forall j :: 1 <= j <= i ==> slots[j] == slots[1..][j - 1]; Some(i + 1)
  }

  /** Arm every worker, if there is anything pending to run. */
  function Arm(q: Queue): Queue {
    if NextPending(Entries(q)).None? then q
    else q.(workers := seq(|q.workers|, w requires 0 <= w < |q.workers| => q.workers[w].(armed := true)))
  }

  // ----- callers -----

  function Filled(q: Queue, i: nat, priority: Priority, now: int): Queue
    requires i < |q.slots|
  {
    q.(slots := q.slots[i := Slot(Entry(true, priority, Pending, now, 0, UNKNOWN_TOTAL), false, false, false)])
  }

  /** Slot `v` told to pause for a user request. */
  function Yielding(q: Queue, v: nat): Queue
    requires v < |q.slots|
  {
    q.(slots := q.slots[v := q.slots[v].(entry := q.slots[v].entry.(state := Preempted), pauseRequested := true)])
  }

  function Enqueue(q: Queue, priority: Priority, now: int): (Queue, Option<nat>) {
    match FreeSlot(q.slots)
    case None => (q, None)
    case Some(i) =>
      var filled := Filled(q, i, priority, now);
      var victim := Preemption(Entries(filled), Claimed(filled.workers), priority, IdleWorker(filled));
      (Arm(if victim.None? then filled else Yielding(filled, victim.value)), Some(i))
  }

  function Cancel(q: Queue, i: nat): (Queue, bool)
    requires i < |q.slots|
  {
    var (entry, applied) := CancelEntry(q.slots[i].entry, Held(q, i));
    if !applied then (q, false)
    else (q.(slots := q.slots[i := q.slots[i].(entry := entry,
                                               cancelRequested := q.slots[i].cancelRequested || Held(q, i))]), true)
  }

  function Pause(q: Queue, i: nat): (Queue, bool)
    requires i < |q.slots|
  {
    if !PauseEntry(q.slots[i].entry, Held(q, i)) then (q, false)
    else (q.(slots := q.slots[i := q.slots[i].(pauseRequested := true)]), true)
  }

  function Resume(q: Queue, i: nat): (Queue, bool)
    requires i < |q.slots|
  {
    var (entry, applied) := ResumeEntry(q.slots[i].entry);
    if !applied then (q, false)
    else (Arm(q.(slots := q.slots[i := q.slots[i].(entry := entry)])), true)
  }

  function Remove(q: Queue, i: nat): (Queue, bool)
    requires i < |q.slots|
  {
    var (entry, applied) := RemoveEntry(q.slots[i].entry, Held(q, i));
    if !applied then (q, false)
    else (q.(slots := q.slots[i := q.slots[i].(entry := entry)]), true)
  }

  /** The queue with its first `k` entries asked to cancel, and how many took it. */
  function CancelledUpTo(q: Queue, k: nat): (r: (Queue, nat))
    requires k <= |q.slots|
    ensures |r.0.slots| == |q.slots| && r.0.workers == q.workers
  {
    if k == 0 then (q, 0)
    else
      var (before, count) := CancelledUpTo(q, k - 1);
      var (after, applied) := Cancel(before, k - 1);
      (after, if applied then count + 1 else count)
  }

  // ----- workers -----

  /** The resume sweep: every slot gets its entry of the rewritten snapshot back. */
  function Swept(q: Queue): (r: Queue)
    ensures |r.slots| == |q.slots|
  {
    var entries := AutoResumed(Entries(q));
    q.(slots := seq(|q.slots|, i requires 0 <= i < |q.slots| => q.slots[i].(entry := entries[i])))
  }

  function Taken(q: Queue, w: nat, i: nat): Queue
    requires w < |q.workers| && i < |q.slots|
  {
    q.(slots := q.slots[i := q.slots[i].(entry := q.slots[i].entry.(state := Downloading))],
       workers := q.workers[w := q.workers[w].(slot := Some(i))])
  }

  /** One lock hold of an idle armed worker: sweep, then claim the next entry or retire. */
  function Claim(q: Queue, w: nat): Queue
    requires w < |q.workers|
  {
    var s := Swept(q);
    match NextPending(Entries(s))
    case None => s.(workers := s.workers[w := s.workers[w].(armed := false)])
    case Some(i) => Arm(Taken(s, w, i))
  }

  /** The slot a claim would take. */
  function Pick(q: Queue): Option<nat> { NextPending(Entries(Swept(q))) }

  /** The settle: release the claim, publish the result, and let a promised cancel win. */
  function Finish(q: Queue, w: nat, o: Outcome): Queue
    requires w < |q.workers| && q.workers[w].slot.Some? && q.workers[w].slot.value < |q.slots|
  {
    var i := q.workers[w].slot.value;
    var slot := q.slots[i];
    var settled := if slot.cancelRequested then Cancelled else o.state;
    var entry := if slot.entry.state != Preempted || settled != Paused then slot.entry.(state := settled) else slot.entry;
    q.(workers := q.workers[w := q.workers[w].(slot := None)],
       slots := q.slots[i := slot.(pauseRequested := false, entry := entry,
                                   hasPath := slot.hasPath || (settled == Complete && o.cached))])
  }

  /** A worker thread gone outside a transfer: disarmed, its claim if any failed. */
  function Unwind(q: Queue, w: nat): Queue
    requires w < |q.workers|
    requires q.workers[w].slot.Some? ==> q.workers[w].slot.value < |q.slots|
  {
    var released := q.(workers := q.workers[w := Worker(false, None)]);
    match q.workers[w].slot
    case None => released
    case Some(i) => released.(slots := q.slots[i := q.slots[i].(entry := q.slots[i].entry.(state := Failed))])
  }

  function Progress(q: Queue, w: nat, downloaded: int, total: int): Queue
    requires w < |q.workers| && q.workers[w].slot.Some? && q.workers[w].slot.value < |q.slots|
  {
    var i := q.workers[w].slot.value;
    q.(slots := q.slots[i := q.slots[i].(entry := q.slots[i].entry.(bytesDownloaded := downloaded, bytesTotal := total))])
  }

  // ----- runs -----

  datatype Step =
    | EnqueueStep(priority: Priority, now: int)
    | CancelStep(slot: nat)
    | PauseStep(slot: nat)
    | ResumeStep(slot: nat)
    | RemoveStep(slot: nat)
    | ClaimStep(worker: nat)
    | FinishStep(worker: nat, outcome: Outcome)
    | ProgressStep(worker: nat, downloaded: int, total: int)
    | UnwindStep(worker: nat)

  predicate Enabled(q: Queue, s: Step) {
    match s
    case EnqueueStep(_, _) => true
    case CancelStep(i) => i < |q.slots|
    case PauseStep(i) => i < |q.slots|
    case ResumeStep(i) => i < |q.slots|
    case RemoveStep(i) => i < |q.slots|
    case ClaimStep(w) => w < |q.workers| && q.workers[w].armed && q.workers[w].slot.None?
    case FinishStep(w, o) => w < |q.workers| && q.workers[w].slot.Some? && q.workers[w].slot.value < |q.slots| && Terminal(o)
    case ProgressStep(w, _, _) => w < |q.workers| && q.workers[w].slot.Some? && q.workers[w].slot.value < |q.slots|
    case UnwindStep(w) => w < |q.workers| && q.workers[w].armed
                          && (q.workers[w].slot.Some? ==> q.workers[w].slot.value < |q.slots|)
  }

  function Next(q: Queue, s: Step): Queue
    requires Enabled(q, s)
  {
    match s
    case EnqueueStep(priority, now) => Enqueue(q, priority, now).0
    case CancelStep(i) => Cancel(q, i).0
    case PauseStep(i) => Pause(q, i).0
    case ResumeStep(i) => Resume(q, i).0
    case RemoveStep(i) => Remove(q, i).0
    case ClaimStep(w) => Claim(q, w)
    case FinishStep(w, o) => Finish(q, w, o)
    case ProgressStep(w, downloaded, total) => Progress(q, w, downloaded, total)
    case UnwindStep(w) => Unwind(q, w)
  }

  ghost predicate Reaches(q: Queue, steps: seq<Step>, q': Queue)
    decreases |steps|
  {
    if steps == [] then q' == q
    else Enabled(q, steps[0]) && Reaches(Next(q, steps[0]), steps[1..], q')
  }

  function Fresh(slots: nat, workers: nat): Queue {
    Queue(seq(slots, _ => Slot(Entry(false, Background, Pending, 0, 0, 0), false, false, false)),
          seq(workers, _ => Worker(false, None)))
  }
}
