/**
 The transfer queue as one apply uses it: tickets that settle on their own after some ticks.

 What the workers, the network, the disk and the queue's other users do comes from oracles:
 the fate of each transfer and the slots others hold at each tick. An entry that reads settled is not
 held by a worker any more.
 */
module TransferSlots {
  import opened Wrappers
  import opened InstallDisk

  /** What a transfer comes to. A landed one may still have lost its cache file. */
  datatype Ending = Lands(cached: Option<Bytes>) | Fails | CalledOff

  /** How the disk takes a copy of the landed bytes: its directory, the copy and its final name may each be refused. */
  datatype Copying = Copied | NoDirectory | NoCopy | NoName

  /** Settles `delay` ticks after it is queued, or within `lag` ticks of being cancelled; then it is copied. */
  datatype Fate = Fate(delay: nat, lag: nat, ending: Ending, copying: Copying)

  datatype Ticket = Ticket(left: nat, fate: Fate)

  class TransferSlots {
    const capacity: nat
    const busy: nat -> nat
    const fate: nat -> Fate
    /** Ticks until the others leave a slot free. */
    ghost const relief: nat -> nat
    var now: nat
    var nextId: nat
    var held: map<nat, Ticket>

    constructor (capacity: nat, busy: nat -> nat, fate: nat -> Fate, ghost relief: nat -> nat)
      requires forall t :: relief(t) == 0 <==> busy(t) < capacity
      requires forall t: nat :: relief(t) > 0 ==> relief(t + 1) == relief(t) - 1
      ensures Valid() && held == map[]
      ensures this.capacity == capacity && this.busy == busy && this.fate == fate
    {
      this.capacity, this.busy, this.fate, this.relief := capacity, busy, fate, relief;
      now, nextId, held := 0, 0, map[];
    }

    /** Every ticket has its own id and fate, and the others never keep every slot for good. */
    ghost predicate Valid()
      reads this
    {
      && (forall id :: id in held ==> id < nextId && held[id].fate == fate(id) && held[id].left <= fate(id).delay)
      && (forall t :: relief(t) == 0 <==> busy(t) < capacity)
      && (forall t: nat :: relief(t) > 0 ==> relief(t + 1) == relief(t) - 1)
    }

    method Queue() returns (id: Option<nat>)
      requires Valid()
      modifies `held, `nextId
      ensures Valid()
      ensures id.None? <==> old(busy(now) + |held|) >= capacity
      ensures id.None? ==> held == old(held) && nextId == old(nextId) && (held == map[] ==> relief(now) > 0)
      ensures id.Some? ==> id.value == old(nextId) && nextId == old(nextId) + 1
                           && held.Keys == old(held.Keys) + {id.value}
    {
      if busy(now) + |held| >= capacity { return None; }
      id := Some(nextId);
      held := held[nextId := Ticket(fate(nextId).delay, fate(nextId))];
      nextId := nextId + 1;
    }

    method Cancel(id: nat)
      requires Valid()
      modifies `held
      ensures Valid() && held.Keys == old(held.Keys)
      ensures forall i :: i in held ==> held[i].fate == old(held[i].fate) && held[i].left <= old(held[i].left)
    {
      if id in held && held[id].fate.lag < held[id].left {
        held := held[id := held[id].(left := held[id].fate.lag)];
      }
    }

    /** Frees a slot; refused while the transfer has not settled. */
    method Remove(id: nat) returns (freed: bool)
      requires Valid() && id in held
      modifies `held
      ensures Valid()
      ensures freed <==> old(held[id].left) == 0
      ensures held == if freed then old(held) - {id} else old(held)
    {
      if held[id].left > 0 { return false; }
      held := held - {id};
      freed := true;
    }

    /** One poll interval: every transfer gets a tick closer to settling. */
    method Sleep()
      requires Valid()
      modifies `now, `held
      ensures Valid() && now == old(now) + 1 && nextId == old(nextId)
      ensures relief(old(now)) > 0 ==> relief(now) == relief(old(now)) - 1
      ensures held == map id | id in old(held) :: old(held)[id].(left := if old(held)[id].left > 0 then old(held)[id].left - 1 else 0)
    {
      held := map id | id in held :: held[id].(left := if held[id].left > 0 then held[id].left - 1 else 0);
      now := now + 1;
    }
  }

  /** The transfers one apply still holds, each beside the artifact it is for. */
  class Acquisition {
    const queue: TransferSlots
    var active: seq<(nat, nat)>
    /** The artifacts already in their places, in the order they got there. */
    ghost var landed: seq<nat>

    constructor (queue: TransferSlots)
      ensures this.queue == queue && active == [] && landed == []
    {
      this.queue := queue;
      active, landed := [], [];
    }

    ghost predicate HoldsExactly()
      reads this, queue
    {
      && (forall k, l :: 0 <= k < l < |active| ==> active[k].0 != active[l].0)
      && queue.held.Keys == IdsFrom(active, 0)
    }

    /** Waits a transfer out and frees its slot. */
    method Await(id: nat)
      requires queue.Valid() && id in queue.held
      modifies queue
      ensures queue.Valid() && queue.nextId == old(queue.nextId)
      ensures queue.held.Keys == old(queue.held.Keys) - {id}
    {
      var freed := queue.Remove(id);
      while !freed
        invariant queue.Valid() && queue.nextId == old(queue.nextId)
        invariant queue.held.Keys == if freed then old(queue.held.Keys) - {id} else old(queue.held.Keys)
        decreases if freed then 0 else queue.held[id].left + 1
      {
        queue.Sleep();
        freed := queue.Remove(id);
      }
    }

    /** Cancels what is in flight and waits each one out before freeing its slot. */
    method Drop()
      requires queue.Valid() && HoldsExactly()
      modifies queue
      ensures queue.Valid() && queue.held == map[]
      ensures queue.nextId == old(queue.nextId)
    {
      for k := 0 to |active|
        invariant queue.Valid() && queue.held.Keys == old(queue.held.Keys) && queue.nextId == old(queue.nextId)
      {
        queue.Cancel(active[k].0);
      }
      for k := 0 to |active|
        invariant queue.Valid() && queue.nextId == old(queue.nextId)
        invariant queue.held.Keys == IdsFrom(active, k)
      {
        assert IdsFrom(active, k) == {active[k].0} + IdsFrom(active, k + 1);
        Await(active[k].0);
      }
    }
  }

  function IdsFrom(active: seq<(nat, nat)>, k: nat): set<nat> {
    set l | k <= l < |active| :: active[l].0
  }
}
