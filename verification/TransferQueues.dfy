/** The queue object: every method is one hold of its lock. */
module TransferQueues {
  import opened Wrappers
  import opened QueuePolicy
  import opened TransferProtocol

  /** The most entries the queue holds at once. */
  const QUEUE_MAX: nat := 32

  class TransferQueue {
    var slots: seq<Slot>
    var workers: seq<Worker>

    /** A queue with no entry and every worker unarmed; the count is pinned to 1..=QUEUE_MAX. */
    constructor (count: nat)
      ensures Snapshot() == Fresh(QUEUE_MAX, if count < 1 then 1 else if count > QUEUE_MAX then QUEUE_MAX else count)
    {
      slots := seq(QUEUE_MAX, _ => Slot(Entry(false, Background, Pending, 0, 0, 0), false, false, false));
      workers := seq(if count < 1 then 1 else if count > QUEUE_MAX then QUEUE_MAX else count, _ => Worker(false, None));
    }

    function Snapshot(): Queue
      reads this
    {
      Queue(slots, workers)
    }

    method ArmWorkers()
      modifies `workers
      ensures Snapshot() == Arm(old(Snapshot()))
    {
      var next := FindNextPending(Entries(Snapshot()));
      if next.None? { return; }
      ghost var before := workers;
      for index := 0 to |workers|
        invariant |workers| == |before|
        invariant forall w :: 0 <= w < |before| ==>
                    workers[w] == if w < index then before[w].(armed := true) else before[w]
      {
        if workers[index].armed { continue; }
        workers := workers[index := workers[index].(armed := true)];
      }
      assert workers == Arm(old(Snapshot())).workers;
    }

    method IsActive(i: nat) returns (active: bool)
      ensures active == Held(Snapshot(), i)
    {
      active := false;
      for w := 0 to |workers|
        invariant active <==> exists v :: 0 <= v < w && workers[v].slot == Some(i)
      {
        if workers[w].slot == Some(i) { active := true; }
      }
    }

    /** Queues a transfer; a user one with every worker busy preempts one background transfer. */
    method Enqueue(priority: Priority, now: int) returns (id: Option<nat>)
      modifies this
      ensures (Snapshot(), id) == TransferProtocol.Enqueue(old(Snapshot()), priority, now)
    {
      hide FreeSlot, Preemption, Claimed, Arm;
      id := FreeSlot(slots);
      if id.None? { return; }
      var index := id.value;
      slots := slots[index := slots[index].(hasPath := false)];
      slots := slots[index := slots[index].(cancelRequested := false, pauseRequested := false)];
      slots := slots[index := slots[index].(entry := Entry(true, priority, Pending, now, 0, UNKNOWN_TOTAL))];
      ghost var filled := Filled(old(Snapshot()), index, priority, now);
      assert slots == filled.slots;
      var idle := exists w :: 0 <= w < |workers| && workers[w].slot.None?;
      var snapshot := new Entry[|slots|](i requires 0 <= i < |slots| reads this => slots[i].entry);
      assert snapshot[..] == Entries(Snapshot());
      assert Entries(Snapshot()) == Entries(filled);
      var target := PreemptForUser(snapshot, Claimed(workers), priority, idle);
      if target.Some? {
        assert snapshot[target.value] == snapshot[..][target.value];
        slots := slots[target.value := slots[target.value].(entry := snapshot[target.value])];
        slots := slots[target.value := slots[target.value].(pauseRequested := true)];
        assert slots == Yielding(filled, target.value).slots;
      }
      ArmWorkers();
    }

    method Cancel(i: nat) returns (applied: bool)
      requires i < |slots|
      modifies `slots
      ensures (Snapshot(), applied) == TransferProtocol.Cancel(old(Snapshot()), i)
    {
      var active := IsActive(i);
      var (entry, ok) := CancelEntry(slots[i].entry, active);
      if !ok { return false; }
      slots := slots[i := slots[i].(entry := entry)];
      if active {
        slots := slots[i := slots[i].(cancelRequested := true)];
      }
      assert slots == TransferProtocol.Cancel(old(Snapshot()), i).0.slots;
      applied := true;
    }

    /** Cancels every transfer the queue holds and counts how many took it. */
    method CancelAll() returns (count: nat)
      modifies `slots
      ensures Snapshot() == CancelledUpTo(old(Snapshot()), |old(slots)|).0
      ensures count == CancelledUpTo(old(Snapshot()), |old(slots)|).1
    {
      count := 0;
      ghost var before := Snapshot();
      for i := 0 to |slots|
        invariant |slots| == |before.slots|
        invariant (Snapshot(), count) == CancelledUpTo(before, i)
      {
        var applied := Cancel(i);
        if applied { count := count + 1; }
      }
    }

    method Pause(i: nat) returns (applied: bool)
      requires i < |slots|
      modifies `slots
      ensures (Snapshot(), applied) == TransferProtocol.Pause(old(Snapshot()), i)
    {
      var active := IsActive(i);
      if !PauseEntry(slots[i].entry, active) { return false; }
      slots := slots[i := slots[i].(pauseRequested := true)];
      applied := true;
    }

    method Resume(i: nat) returns (applied: bool)
      requires i < |slots|
      modifies this
      ensures (Snapshot(), applied) == TransferProtocol.Resume(old(Snapshot()), i)
    {
      var (entry, ok) := ResumeEntry(slots[i].entry);
      if !ok { return false; }
      slots := slots[i := slots[i].(entry := entry)];
      ArmWorkers();
      applied := true;
    }

    method Remove(i: nat) returns (freed: bool)
      requires i < |slots|
      modifies `slots
      ensures (Snapshot(), freed) == TransferProtocol.Remove(old(Snapshot()), i)
    {
      var active := IsActive(i);
      var (entry, ok) := RemoveEntry(slots[i].entry, active);
      if !ok { return false; }
      slots := slots[i := slots[i].(entry := entry)];
      freed := true;
    }

    method ResumePreempted()
      modifies `slots
      ensures Snapshot() == Swept(old(Snapshot()))
    {
      var snapshot := new Entry[|slots|](i requires 0 <= i < |slots| reads this => slots[i].entry);
      assert snapshot[..] == Entries(Snapshot());
      AutoResumePreempted(snapshot);
      ghost var before, entries := slots, snapshot[..];
      for i := 0 to |slots|
        invariant |slots| == |before| == snapshot.Length && snapshot[..] == entries
        invariant forall k :: 0 <= k < |before| ==> slots[k] == if k < i then before[k].(entry := entries[k]) else before[k]
      {
        slots := slots[i := slots[i].(entry := snapshot[i])];
      }
      assert slots == Swept(old(Snapshot())).slots;
    }

    /** One lock hold of an idle worker: resume, then claim the next entry or retire. */
    method ClaimNext(w: nat) returns (index: Option<nat>)
      requires w < |workers|
      modifies this
      ensures Snapshot() == Claim(old(Snapshot()), w)
      ensures index == Pick(old(Snapshot()))
    {
      ResumePreempted();
      index := FindNextPending(Entries(Snapshot()));
      if index.None? {
        workers := workers[w := workers[w].(armed := false)];
        return;
      }
      slots := slots[index.value := slots[index.value].(entry := slots[index.value].entry.(state := Downloading))];
      workers := workers[w := workers[w].(slot := index)];
      ArmWorkers();
    }

    /** Disarms a worker thread that is gone, failing the slot it still had. */
    method ReleaseWorker(w: nat)
      requires w < |workers| && (workers[w].slot.Some? ==> workers[w].slot.value < |slots|)
      modifies this
      ensures Snapshot() == Unwind(old(Snapshot()), w)
    {
      workers := workers[w := workers[w].(armed := false)];
      var claimed := workers[w].slot;
      workers := workers[w := workers[w].(slot := None)];
      if claimed.Some? {
        slots := slots[claimed.value := slots[claimed.value].(entry := slots[claimed.value].entry.(state := Failed))];
      }
    }

    /** Settles a transfer: the claim goes, and a promised cancel overrides what the transfer came to. */
    method Settle(w: nat, outcome: Outcome)
      requires w < |workers| && workers[w].slot.Some? && workers[w].slot.value < |slots|
      modifies this
      ensures Snapshot() == Finish(old(Snapshot()), w, outcome)
    {
      var i := workers[w].slot.value;
      workers := workers[w := workers[w].(slot := None)];
      slots := slots[i := slots[i].(pauseRequested := false)];
      var settled := if slots[i].cancelRequested then Cancelled else outcome.state;
      if settled == Complete && outcome.cached {
        slots := slots[i := slots[i].(hasPath := true)];
      }
      if slots[i].entry.state != Preempted || settled != Paused {
        slots := slots[i := slots[i].(entry := slots[i].entry.(state := settled))];
      }
    }
  }
}
