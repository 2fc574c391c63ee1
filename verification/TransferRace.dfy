/** A run of the transfer queue that ends with two workers transferring one slot. */
module TransferRace {
  import opened Wrappers
  import opened QueuePolicy
  import opened TransferProtocol
  import opened TransferLaws

  function Stored(priority: Priority, state: EntryState, time: int): Slot {
    Slot(Entry(true, priority, state, time, 0, UNKNOWN_TOTAL), false, state == Preempted, state == Complete)
  }

  const EMPTY := Slot(Entry(false, Background, Pending, 0, 0, 0), false, false, false)

  function Three(a: Slot, b: Slot, c: Slot, w0: Option<nat>, w1: Option<nat>): Queue {
    Queue([a, b, c], [Worker(true, w0), Worker(true, w1)])
  }

  ghost predicate Leads(q: Queue, s: Step, q': Queue) { Enabled(q, s) && !s.UnwindStep? && Next(q, s) == q' }

  ghost predicate NoUnwind(steps: seq<Step>) { forall k :: 0 <= k < |steps| ==> !steps[k].UnwindStep? }

  /** Some run in which no worker dies leads from `q` to `q'`. */
  ghost predicate Connected(q: Queue, q': Queue) { exists steps :: Reaches(q, steps, q') && NoUnwind(steps) }

  lemma Start(q: Queue)
    ensures Connected(q, q)
  {
    assert Reaches(q, [], q) && NoUnwind([]);
  }

  lemma ThenStep(q: Queue, q1: Queue, s: Step, q2: Queue)
    requires Connected(q, q1) && Leads(q1, s, q2)
    ensures Connected(q, q2)
  {
    var steps :| Reaches(q, steps, q1) && NoUnwind(steps);
    Extend(q, steps, q1, s, q2);
    assert NoUnwind(steps + [s]);
  }

  lemma {:induction false} Extend(q: Queue, steps: seq<Step>, q1: Queue, s: Step, q2: Queue)
    requires Reaches(q, steps, q1) && Leads(q1, s, q2)
    ensures Reaches(q, steps + [s], q2)
    decreases |steps|
  {
    hide Next, Enabled;
    if steps == [] {
      assert steps + [s] == [s] && [s][1..] == [];
      assert Reaches(Next(q, s), [s][1..], q2);
    } else {
      assert (steps + [s])[1..] == steps[1..] + [s];
      Extend(Next(q, steps[0]), steps[1..], q1, s, q2);
    }
  }

  lemma ArmedAlready(q: Queue)
    requires forall w :: 0 <= w < |q.workers| ==> q.workers[w].armed
    ensures Arm(q) == q
  {
    assert Arm(q).workers == q.workers;
  }

  lemma Claims(q: Queue, w: nat, i: nat, s: Queue)
    requires |q.workers| == 2 && w < 2 && q.workers[0].armed && q.workers[1].armed && q.workers[w].slot.None?
    requires s == Swept(q) && i < |s.slots| && IsNext(Entries(s), Some(i))
    ensures Leads(q, ClaimStep(w), Taken(s, w, i))
  {
    NextIsUnique(Entries(s), Some(i));
    ArmedAlready(Taken(s, w, i));
  }

  lemma SweepKeeps(q: Queue)
    requires UserWorkLeft(Entries(q)) || forall i :: 0 <= i < |q.slots| ==> q.slots[i].entry.state != Preempted
    ensures Swept(q) == q
  {
    assert Swept(q).slots == q.slots;
  }

  const B0 := Stored(Background, Downloading, 0)
  const B1 := Stored(Background, Downloading, 1)
  const YIELDING := Stored(Background, Preempted, 1)
  const RESUMED := YIELDING.(entry := YIELDING.entry.(state := Pending))
  const FINISH := FinishStep(0, Settled(Complete, true))

  /** The states of the run, from the empty queue to the double claim. */
  const Q1 := Three(Stored(Background, Pending, 0), EMPTY, EMPTY, None, None)
  const Q2 := Three(Stored(Background, Pending, 0), Stored(Background, Pending, 1), EMPTY, None, None)
  const Q3 := Three(B0, Stored(Background, Pending, 1), EMPTY, Some(0), None)
  const Q4 := Three(B0, B1, EMPTY, Some(0), Some(1))
  const Q5 := Three(B0, YIELDING, Stored(User, Pending, 2), Some(0), Some(1))
  const Q6 := Three(Stored(Background, Complete, 0), YIELDING, Stored(User, Pending, 2), None, Some(1))
  const Q7 := Three(Stored(Background, Complete, 0), YIELDING, Stored(User, Downloading, 2), Some(2), Some(1))
  const Q8 := Three(Stored(Background, Complete, 0), YIELDING, Stored(User, Complete, 2), None, Some(1))
  const SWEPT := Three(Stored(Background, Complete, 0), RESUMED, Stored(User, Complete, 2), None, Some(1))
  const Q9 := Three(Stored(Background, Complete, 0), RESUMED.(entry := B1.entry), Stored(User, Complete, 2), Some(1), Some(1))

  lemma QueueFirst()
    ensures Leads(Fresh(3, 2), EnqueueStep(Background, 0), Q1)
  {
    var q0 := Fresh(3, 2);
    assert FreeSlot(q0.slots) == Some(0);
    assert Waiting(Entries(Filled(q0, 0, Background, 0))[0]);
    assert Next(q0, EnqueueStep(Background, 0)).slots == Q1.slots;
    assert Next(q0, EnqueueStep(Background, 0)).workers == Q1.workers;
  }

  lemma QueueSecond()
    ensures Leads(Q1, EnqueueStep(Background, 1), Q2)
  {
  }

  lemma OldestIsNext()
    ensures IsNext(Entries(Q2), Some(0))
  {
  }

  lemma ClaimFirst()
    ensures Leads(Q2, ClaimStep(0), Q3)
  {
    hide Leads, Swept, Entries, NextPending, IsNext, UserWorkLeft;
    SweepKeeps(Q2);
    OldestIsNext();
    Claims(Q2, 0, 0, Q2);
    assert Taken(Q2, 0, 0) == Q3;
  }

  lemma OnlyOneIsNext()
    ensures IsNext(Entries(Q3), Some(1))
  {
  }

  lemma ClaimSecond()
    ensures Leads(Q3, ClaimStep(1), Q4)
  {
    hide Leads, Swept, Entries, NextPending, IsNext, UserWorkLeft;
    SweepKeeps(Q3);
    OnlyOneIsNext();
    Claims(Q3, 1, 1, Q3);
    assert Taken(Q3, 1, 1) == Q4;
  }

  lemma LastQueuedYields()
    ensures FreeSlot(Q4.slots) == Some(2)
    ensures var q := Filled(Q4, 2, User, 2); Preemption(Entries(q), Claimed(q.workers), User, IdleWorker(q)) == Some(1)
  {
    assert FreeSlot([EMPTY]) == Some(0) && Q4.slots[1..][1..] == [EMPTY];
    var q := Filled(Q4, 2, User, 2);
    assert q.workers[0].slot == Some(0) && q.workers[1].slot == Some(1);
    assert Candidate(Entries(q), Claimed(q.workers), 1);
    hide Victim;
  }

  /** Both workers on background work when a user request arrives: the one queued last is told to pause. */
  lemma UserPreempts()
    ensures Leads(Q4, EnqueueStep(User, 2), Q5)
  {
    hide *;
    UserIsFilled();
    EnqueueLeads(Q4, User, 2, Q5);
  }

  lemma EnqueueLeads(q: Queue, priority: Priority, now: int, q': Queue)
    requires Enqueue(q, priority, now).0 == q'
    ensures Leads(q, EnqueueStep(priority, now), q')
  {
  }

  lemma BothArmed()
    ensures Arm(Q5) == Q5
  {
    hide Arm;
    ArmedAlready(Q5);
  }

  lemma UserIsFilled()
    ensures Enqueue(Q4, User, 2) == (Q5, Some(2))
  {
    LastQueuedYields();
    BothArmed();
    hide FreeSlot, Preemption, Claimed, Entries, Arm;
    assert Yielding(Filled(Q4, 2, User, 2), 1).slots == Q5.slots;
  }

  lemma Completes()
    ensures Leads(Q5, FINISH, Q6) && Leads(Q7, FINISH, Q8)
  {
    assert Next(Q5, FINISH).slots == Q6.slots && Next(Q7, FINISH).slots == Q8.slots;
  }

  lemma UserRuns()
    ensures Leads(Q6, ClaimStep(0), Q7)
  {
    assert UserWork(Entries(Q6)[2]);
    SweepKeeps(Q6);
    Claims(Q6, 0, 2, Q6);
    assert Taken(Q6, 0, 2) == Q7;
  }

  lemma SweepResumesHeld()
    ensures Leads(Q8, ClaimStep(0), Q9)
  {
    assert !UserWorkLeft(Entries(Q8));
    assert Swept(Q8).slots == SWEPT.slots;
    Claims(Q8, 0, 1, SWEPT);
    assert Taken(SWEPT, 0, 1).slots == Q9.slots;
  }

  lemma LastHolds()
    ensures Holds(Q9, 0, 1) && Holds(Q9, 1, 1)
  {
  }

  /**
   The user request runs on the other worker and completes before the pause settles; the next
   sweep resumes the entry under the worker that still has it, and a second worker claims it.
   */
  lemma TwoWorkersOneSlot()
    ensures exists q :: Connected(Fresh(3, 2), q) && Holds(q, 0, 1) && Holds(q, 1, 1)
  {
    hide *;
    var q0 := Fresh(3, 2);
    Start(q0);
    QueueFirst();
    ThenStep(q0, q0, EnqueueStep(Background, 0), Q1);
    QueueSecond();
    ThenStep(q0, Q1, EnqueueStep(Background, 1), Q2);
    ClaimFirst();
    ThenStep(q0, Q2, ClaimStep(0), Q3);
    ClaimSecond();
    ThenStep(q0, Q3, ClaimStep(1), Q4);
    UserPreempts();
    ThenStep(q0, Q4, EnqueueStep(User, 2), Q5);
    Completes();
    UserRuns();
    ThenStep(q0, Q5, FINISH, Q6);
    ThenStep(q0, Q6, ClaimStep(0), Q7);
    ThenStep(q0, Q7, FINISH, Q8);
    SweepResumesHeld();
    ThenStep(q0, Q8, ClaimStep(0), Q9);
    LastHolds();
  }
}
