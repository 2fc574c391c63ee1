/** What the transfer queue keeps over every run of callers and workers. */
module TransferLaws {
  import opened Wrappers
  import opened QueuePolicy
  import opened TransferProtocol

  // ----- no slot is freed or stranded -----

  predicate Due(s: Slot) { s.entry.inUse && (s.entry.state == Pending || s.entry.state == Preempted) }

  predicate AnyDue(q: Queue) { exists i :: 0 <= i < |q.slots| && Due(q.slots[i]) }

  ghost predicate HeldInUse(q: Queue) {
    forall w :: 0 <= w < |q.workers| && q.workers[w].slot.Some? ==>
      q.workers[w].armed && q.workers[w].slot.value < |q.slots| && q.slots[q.workers[w].slot.value].entry.inUse
  }

  ghost predicate DownloadingHeld(q: Queue) {
    forall i :: 0 <= i < |q.slots| && q.slots[i].entry.inUse && q.slots[i].entry.state == Downloading ==> Held(q, i)
  }

  ghost predicate PathBehindComplete(q: Queue) {
    forall i :: 0 <= i < |q.slots| && q.slots[i].entry.inUse && q.slots[i].entry.state == Complete ==> q.slots[i].hasPath
  }

  /** A worker's slot is in use, a transferring entry has a worker, and a complete one has its path. */
  ghost predicate Sound(q: Queue) {
    |q.workers| > 0 && HeldInUse(q) && DownloadingHeld(q) && PathBehindComplete(q)
  }

  /** Work that is due has a worker to run it. */
  ghost predicate Live(q: Queue) { AnyDue(q) ==> AnyArmed(q) }

  lemma HeldSurvives(q: Queue, q': Queue, i: nat)
    requires |q'.workers| == |q.workers|
    requires forall w :: 0 <= w < |q.workers| ==> q'.workers[w].slot == q.workers[w].slot
    ensures Held(q', i) <==> Held(q, i)
  {
  }

  lemma ArmedForPending(q: Queue)
    requires |q.workers| > 0
    ensures NextPending(Entries(q)).Some? ==> AnyArmed(Arm(q))
    ensures AnyArmed(q) ==> AnyArmed(Arm(q))
    ensures Arm(q).slots == q.slots && |Arm(q).workers| == |q.workers|
    ensures forall w :: 0 <= w < |q.workers| ==> Arm(q).workers[w].slot == q.workers[w].slot
    ensures forall w :: 0 <= w < |q.workers| ==> (q.workers[w].armed ==> Arm(q).workers[w].armed)
  {
    if NextPending(Entries(q)).Some? { assert Arm(q).workers[0].armed; }
    if AnyArmed(q) {
      var w :| 0 <= w < |q.workers| && q.workers[w].armed;
      assert Arm(q).workers[w].armed;
    }
  }

  /** Changing one slot keeps a queue sound if the slot does. */
  lemma OneSlotKeepsSound(q: Queue, q': Queue, i: nat)
    requires Sound(q) && i < |q.slots| && |q'.slots| == |q.slots| && |q'.workers| == |q.workers|
    requires q'.slots == q.slots[i := q'.slots[i]]
    requires forall w :: 0 <= w < |q.workers| ==>
               q'.workers[w].slot == q.workers[w].slot && (q.workers[w].armed ==> q'.workers[w].armed)
    requires Held(q, i) ==> q'.slots[i].entry.inUse
    requires q'.slots[i].entry.inUse && q'.slots[i].entry.state == Downloading ==> Held(q, i)
    requires q'.slots[i].entry.inUse && q'.slots[i].entry.state == Complete ==> q'.slots[i].hasPath
    ensures Sound(q')
  {
  }

  lemma DueElsewhere(q: Queue, q': Queue, i: nat)
    requires i < |q.slots| && |q'.slots| == |q.slots| && q'.slots == q.slots[i := q'.slots[i]]
    requires Due(q'.slots[i]) ==> Due(q.slots[i])
    ensures AnyDue(q') ==> AnyDue(q)
  {
  }

  lemma CallerKeeps(q: Queue, s: Step)
    requires Sound(q) && Enabled(q, s)
    requires s.CancelStep? || s.PauseStep? || s.RemoveStep? || s.ProgressStep?
    ensures Sound(Next(q, s)) && (Live(q) ==> Live(Next(q, s)))
  {
    var i := if s.ProgressStep? then q.workers[s.worker].slot.value else s.slot;
    DueElsewhere(q, Next(q, s), i);
    assert AnyArmed(Next(q, s)) <==> AnyArmed(q);
    OneSlotKeepsSound(q, Next(q, s), i);
  }

  lemma ResumeKeeps(q: Queue, i: nat)
    requires Sound(q) && i < |q.slots|
    ensures Sound(Resume(q, i).0) && (Live(q) ==> Live(Resume(q, i).0))
  {
    var (entry, applied) := ResumeEntry(q.slots[i].entry);
    if applied {
      var q1 := q.(slots := q.slots[i := q.slots[i].(entry := entry)]);
      ArmedForPending(q1);
      assert AnyArmed(q) ==> AnyArmed(q1);
      if entry.inUse {
        assert Waiting(Entries(q1)[i]);
      } else {
        DueElsewhere(q, Arm(q1), i);
      }
      OneSlotKeepsSound(q, Arm(q1), i);
    }
  }

  lemma EnqueueKeeps(q: Queue, priority: Priority, now: int)
    requires Sound(q)
    ensures Sound(Enqueue(q, priority, now).0) && (Live(q) ==> Live(Enqueue(q, priority, now).0))
  {
    var free := FreeSlot(q.slots);
    if free.Some? {
      var q1 := Filled(q, free.value, priority, now);
      assert Waiting(Entries(q1)[free.value]);
      ArmedForPending(q1);
      OneSlotKeepsSound(q, Arm(q1), free.value);
      var victim := Preemption(Entries(q1), Claimed(q1.workers), priority, IdleWorker(q1));
      if victim.Some? {
        var q2 := Yielding(q1, victim.value);
        assert Waiting(Entries(q2)[free.value]);
        ArmedForPending(q2);
        OneSlotKeepsSound(Arm(q1), Arm(q2), victim.value);
      }
    }
  }

  /** A queued request fills one free slot and at most marks one held transfer to pause. */
  lemma EnqueueFacts(q: Queue, priority: Priority, now: int)
    requires Sound(q) && FreeSlot(q.slots).Some?
    ensures var q', i := Enqueue(q, priority, now).0, FreeSlot(q.slots).value;
            && |q'.slots| == |q.slots| && |q'.workers| == |q.workers|
            && (forall w :: 0 <= w < |q.workers| ==> q'.workers[w].slot == q.workers[w].slot)
            && !Held(q, i) && q'.slots[i].entry.inUse && q'.slots[i].entry.state == Pending
            && (forall j :: 0 <= j < |q.slots| && j != i && q'.slots[j] != q.slots[j] ==>
                  && Held(q, j) && q.slots[j].entry.state == Downloading && q.slots[j].entry.priority == Background
                  && q'.slots[j] == q.slots[j].(entry := q.slots[j].entry.(state := Preempted), pauseRequested := true))
  {
    hide Arm, Victim, NextPending, Claimed, FreeSlot, DownloadingHeld, PathBehindComplete, AnyDue, AnyArmed;
    var i := FreeSlot(q.slots).value;
    var q1 := Filled(q, i, priority, now);
    ArmedForPending(q1);
    assert Held(q1, i) <==> Held(q, i);
    assert !Held(q, i);
    var victim := Preemption(Entries(q1), Claimed(q1.workers), priority, IdleWorker(q1));
    if victim.Some? {
      assert Candidate(Entries(q1), Claimed(q1.workers), victim.value);
      assert Held(q, victim.value);
      ArmedForPending(Yielding(q1, victim.value));
    }
  }

  lemma SweepFacts(q: Queue)
    ensures Swept(q).workers == q.workers
    ensures forall i :: 0 <= i < |q.slots| ==>
              Swept(q).slots[i] == q.slots[i].(entry := if UserWorkLeft(Entries(q)) then q.slots[i].entry
                                                        else Resumed(q.slots[i].entry))
    ensures AnyDue(Swept(q)) <==> AnyDue(q)
    ensures NextPending(Entries(Swept(q))).None? && AnyDue(q) ==>
              exists i :: 0 <= i < |q.slots| && q.slots[i].entry.inUse && q.slots[i].entry.state == Downloading
  {
  }

  lemma SweptKeeps(q: Queue)
    requires Sound(q)
    ensures Sound(Swept(q)) && (Live(q) ==> Live(Swept(q)))
  {
  }

  lemma ClaimKeeps(q: Queue, w: nat)
    requires Sound(q) && Enabled(q, ClaimStep(w))
    ensures Sound(Claim(q, w)) && (Live(q) ==> Live(Claim(q, w)))
  {
    SweptKeeps(q);
    SweepFacts(q);
    var s := Swept(q);
    match NextPending(Entries(s))
    case None =>
      var q' := Claim(q, w);
      forall i | 0 <= i < |q.slots| ensures Held(q', i) <==> Held(s, i) { HeldSurvives(s, q', i); }
      if AnyDue(q') {
        assert AnyDue(s) by { var i :| 0 <= i < |q'.slots| && Due(q'.slots[i]); assert Due(s.slots[i]); }
        var i :| 0 <= i < |q.slots| && q.slots[i].entry.inUse && q.slots[i].entry.state == Downloading;
        var h :| 0 <= h < |q.workers| && q.workers[h].slot == Some(i);
        assert q'.workers[h].armed;
      }
    case Some(i) =>
      ClaimedKeeps(s, w, i);
  }

  lemma ClaimedKeeps(s: Queue, w: nat, i: nat)
    requires Sound(s) && w < |s.workers| && s.workers[w].armed && s.workers[w].slot.None?
    requires NextPending(Entries(s)) == Some(i)
    ensures Sound(Arm(Taken(s, w, i))) && (Live(s) ==> Live(Arm(Taken(s, w, i))))
  {
    var q1 := Taken(s, w, i);
    var q' := Arm(q1);
    ArmedForPending(q1);
    assert Waiting(Entries(s)[i]);
    assert q'.workers[w].slot == Some(i) && q'.workers[w].armed;
    forall j | 0 <= j < |s.slots| && Held(s, j) ensures Held(q', j) {
      var h :| 0 <= h < |s.workers| && s.workers[h].slot == Some(j);
      assert q'.workers[h].slot == Some(j);
    }
  }

  lemma FinishKeeps(q: Queue, w: nat, o: Outcome)
    requires Sound(q) && Enabled(q, FinishStep(w, o))
    ensures Sound(Finish(q, w, o)) && (Live(q) ==> Live(Finish(q, w, o)))
  {
    var q' := Finish(q, w, o);
    var i := q.workers[w].slot.value;
    assert q'.workers[w].armed;
    forall j | 0 <= j < |q.slots| && j != i && Held(q, j) ensures Held(q', j) {
      var h :| 0 <= h < |q.workers| && q.workers[h].slot == Some(j);
      assert q'.workers[h].slot == Some(j);
    }
  }

  /** A worker that dies leaves the other slots as they were and its own, if it had one, failed. */
  lemma UnwindFacts(q: Queue, w: nat)
    requires Enabled(q, UnwindStep(w))
    ensures var q' := Unwind(q, w);
            && |q'.slots| == |q.slots| && |q'.workers| == |q.workers| && q'.workers[w] == Worker(false, None)
            && (forall v :: 0 <= v < |q.workers| && v != w ==> q'.workers[v] == q.workers[v])
            && (forall i :: 0 <= i < |q.slots| ==>
                  q'.slots[i] == if Holds(q, w, i) then q.slots[i].(entry := q.slots[i].entry.(state := Failed)) else q.slots[i])
  {
  }

  lemma UnwindKeepsSound(q: Queue, w: nat)
    requires Sound(q) && Enabled(q, UnwindStep(w))
    ensures Sound(Unwind(q, w))
  {
    UnwindFacts(q, w);
    hide Unwind;
    var q' := Unwind(q, w);
    forall i | 0 <= i < |q.slots| && q'.slots[i].entry.inUse && q'.slots[i].entry.state == Downloading
      ensures Held(q', i)
    {
      var h :| 0 <= h < |q.workers| && q.workers[h].slot == Some(i);
      assert q'.workers[h].slot == Some(i);
    }
  }

  /** Every step, a worker thread dying among them, keeps a queue sound. */
  lemma StepKeepsSound(q: Queue, s: Step)
    requires Sound(q) && Enabled(q, s)
    ensures Sound(Next(q, s))
    ensures Live(q) && !s.UnwindStep? ==> Live(Next(q, s))
  {
    match s
    case EnqueueStep(priority, now) => EnqueueKeeps(q, priority, now);
    case CancelStep(_) => CallerKeeps(q, s);
    case PauseStep(_) => CallerKeeps(q, s);
    case ResumeStep(i) => ResumeKeeps(q, i);
    case RemoveStep(_) => CallerKeeps(q, s);
    case ClaimStep(w) => ClaimKeeps(q, w);
    case FinishStep(w, o) => FinishKeeps(q, w, o);
    case ProgressStep(_, _, _) => CallerKeeps(q, s);
    case UnwindStep(w) => UnwindKeepsSound(q, w);
  }

  /** The last armed worker dies while a slot it does not hold is due. */
  predicate Strands(q: Queue, s: Step) {
    s.UnwindStep?
    && (forall v :: 0 <= v < |q.workers| && q.workers[v].armed ==> v == s.worker)
    && exists i :: 0 <= i < |q.slots| && Due(q.slots[i]) && !Holds(q, s.worker, i)
  }

  /** A step leaves due work with nobody armed to run it exactly when it is the last armed worker dying beside such work. */
  lemma StrandsExactly(q: Queue, s: Step)
    requires Sound(q) && Live(q) && Enabled(q, s)
    ensures Live(Next(q, s)) <==> !Strands(q, s)
  {
    if s.UnwindStep? {
      UnwindStrandsExactly(q, s.worker);
    } else {
      StepKeepsSound(q, s);
    }
  }

  lemma UnwindStrandsExactly(q: Queue, w: nat)
    requires Sound(q) && Enabled(q, UnwindStep(w))
    ensures (AnyDue(Unwind(q, w)) && !AnyArmed(Unwind(q, w))) <==> Strands(q, UnwindStep(w))
  {
    UnwindFacts(q, w);
    hide Unwind, Sound;
    var q' := Unwind(q, w);
    assert AnyArmed(q') <==> exists v :: 0 <= v < |q.workers| && q.workers[v].armed && v != w by {
      if v :| 0 <= v < |q.workers| && q.workers[v].armed && v != w { assert q'.workers[v].armed; }
    }
    assert AnyDue(q') <==> exists i :: 0 <= i < |q.slots| && Due(q.slots[i]) && !Holds(q, w, i) by {
      if i :| 0 <= i < |q.slots| && Due(q.slots[i]) && !Holds(q, w, i) { assert Due(q'.slots[i]); }
    }
  }

  ghost predicate NoneStrands(q: Queue, steps: seq<Step>)
    decreases |steps|
  {
    steps != [] && Enabled(q, steps[0]) ==> !Strands(q, steps[0]) && NoneStrands(Next(q, steps[0]), steps[1..])
  }

  lemma {:induction false} RunKeepsSound(q: Queue, steps: seq<Step>, q': Queue)
    requires Sound(q) && Reaches(q, steps, q')
    ensures Sound(q')
    ensures Live(q) && NoneStrands(q, steps) ==> Live(q')
    decreases |steps|
  {
    hide Sound, Live, Next, Strands;
    if steps != [] {
      StepKeepsSound(q, steps[0]);
      if Live(q) { StrandsExactly(q, steps[0]); }
      RunKeepsSound(Next(q, steps[0]), steps[1..], q');
    }
  }

  /**
   Over any run, workers dying in it or not, held slots stay in use, transferring entries held and complete
   ones with their path; and if no death is of the last armed worker beside due work, due work always has one.
   */
  lemma NothingIsStranded(slots: nat, workers: nat, steps: seq<Step>, q: Queue)
    requires workers > 0 && Reaches(Fresh(slots, workers), steps, q)
    ensures HeldInUse(q) && DownloadingHeld(q) && PathBehindComplete(q)
    ensures NoneStrands(Fresh(slots, workers), steps) ==> (AnyDue(q) ==> AnyArmed(q))
  {
    var f := Fresh(slots, workers);
    assert forall i :: 0 <= i < |f.slots| ==> !Due(f.slots[i]);
    RunKeepsSound(f, steps, q);
  }

  /** What was stranded is armed for again by the next request that is accepted. */
  lemma EnqueueRearms(q: Queue, priority: Priority, now: int)
    requires Sound(q) && FreeSlot(q.slots).Some?
    ensures AnyArmed(Enqueue(q, priority, now).0)
  {
    EnqueueFacts(q, priority, now);
    var q1 := Filled(q, FreeSlot(q.slots).value, priority, now);
    var victim := Preemption(Entries(q1), Claimed(q1.workers), priority, IdleWorker(q1));
    var q2 := if victim.None? then q1 else Yielding(q1, victim.value);
    ArmedForPending(q2);
    assert Enqueue(q, priority, now).0 == Arm(q2);
    assert Waiting(Entries(q2)[FreeSlot(q.slots).value]);
  }

  /** A worker thread that fails to start while work is armed for is one that started and died before its claim. */
  lemma FailedStartIsAnUnwind(q: Queue, w: nat)
    requires w < |q.workers| && q.workers[w] == Worker(false, None) && NextPending(Entries(q)).Some?
    ensures Enabled(Arm(q), UnwindStep(w))
    ensures Unwind(Arm(q), w) == Arm(q).(workers := Arm(q).workers[w := q.workers[w]])
  {
  }

  /** It happens: one worker, one request, and the worker's start hook panics. */
  lemma AnUnwindStrands(now: int)
    ensures var q := Next(Fresh(1, 1), EnqueueStep(Background, now));
            Enabled(q, UnwindStep(0)) && Strands(q, UnwindStep(0)) && !Live(Next(q, UnwindStep(0)))
  {
    var q := Next(Fresh(1, 1), EnqueueStep(Background, now));
    assert Due(q.slots[0]) && !Holds(q, 0, 0);
  }

  // ----- a cancel that applied is never lost -----

  /** The slots a dying worker is the last to have: it fails them, whatever was promised. */
  function Orphaned(q: Queue, w: nat): set<nat>
    requires w < |q.workers|
  {
    set i | 0 <= i < |q.slots| && Holds(q, w, i) && forall v :: 0 <= v < |q.workers| && Holds(q, v, i) ==> v == w
  }

  /** The slots a cancel has applied to since they were queued, less those a dying worker was the last to have. */
  function Promised(promised: set<nat>, q: Queue, s: Step): set<nat>
    requires Enabled(q, s)
  {
    match s
    case EnqueueStep(_, _) => if FreeSlot(q.slots).Some? then promised - {FreeSlot(q.slots).value} else promised
    case CancelStep(i) => if Cancel(q, i).1 then promised + {i} else promised
    case RemoveStep(i) => if Remove(q, i).1 then promised - {i} else promised
    case PauseStep(_) => promised
    case ResumeStep(_) => promised
    case ClaimStep(_) => promised
    case FinishStep(_, _) => promised
    case ProgressStep(_, _, _) => promised
    case UnwindStep(w) => promised - Orphaned(q, w)
  }

  /** A promised slot reads Cancelled, or the worker that still has it will settle it as Cancelled. */
  ghost predicate PromiseKept(q: Queue, i: nat)
    requires i < |q.slots|
  {
    && (Held(q, i) ==> q.slots[i].cancelRequested)
    && (!Held(q, i) ==> q.slots[i].entry.state == Cancelled)
  }

  ghost predicate Promises(q: Queue, promised: set<nat>) {
    forall i :: i in promised ==> i < |q.slots| && PromiseKept(q, i)
  }

  lemma CallerKeepsPromise(q: Queue, promised: set<nat>, s: Step, i: nat)
    requires Sound(q) && Enabled(q, s) && Promises(q, promised)
    requires s.CancelStep? || s.PauseStep? || s.RemoveStep? || s.ResumeStep? || s.ProgressStep?
    requires i in Promised(promised, q, s)
    ensures i < |q.slots| && PromiseKept(Next(q, s), i)
  {
    var q' := Next(q, s);
    if s.ResumeStep? { ArmedForPending(q.(slots := q'.slots)); }
    assert |q'.workers| == |q.workers|;
    HeldSurvives(q, q', i);
  }

  lemma EnqueueKeepsPromise(q: Queue, promised: set<nat>, priority: Priority, now: int, i: nat)
    requires Sound(q) && Promises(q, promised)
    requires i in Promised(promised, q, EnqueueStep(priority, now))
    ensures i < |q.slots| && PromiseKept(Enqueue(q, priority, now).0, i)
  {
    if FreeSlot(q.slots).Some? {
      EnqueueFacts(q, priority, now);
      hide Enqueue;
      HeldSurvives(q, Enqueue(q, priority, now).0, i);
    }
  }

  /** What one claim does: the sweep, and then the picked slot taken by the worker. */
  lemma ClaimFacts(q: Queue, w: nat)
    requires |q.workers| > 0 && Enabled(q, ClaimStep(w))
    ensures var q' := Claim(q, w);
            && |q'.slots| == |q.slots| && |q'.workers| == |q.workers|
            && (forall h :: 0 <= h < |q.workers| ==> q'.workers[h].slot == if h == w then Pick(q) else q.workers[h].slot)
            && (Pick(q).Some? ==> Pick(q).value < |q.slots| && Swept(q).slots[Pick(q).value].entry.state == Pending)
            && forall i :: 0 <= i < |q.slots| ==>
                 q'.slots[i] == if Pick(q) == Some(i)
                                then Swept(q).slots[i].(entry := Swept(q).slots[i].entry.(state := Downloading))
                                else Swept(q).slots[i]
  {
    SweepFacts(q);
    if Pick(q).Some? {
      assert Waiting(Entries(Swept(q))[Pick(q).value]);
      SweptClaim(Swept(q), w, Pick(q).value);
    }
  }

  lemma ClaimKeepsPromise(q: Queue, promised: set<nat>, w: nat, i: nat)
    requires Sound(q) && Enabled(q, ClaimStep(w)) && Promises(q, promised) && i in promised
    ensures PromiseKept(Claim(q, w), i)
  {
    SweepFacts(q);
    ClaimFacts(q, w);
    hide Claim, Swept, Pick, NextPending, Sound, Entries, UserWorkLeft;
    var q' := Claim(q, w);
    if h :| 0 <= h < |q.workers| && q.workers[h].slot == Some(i) { assert q'.workers[h].slot == Some(i); }
    if h :| 0 <= h < |q'.workers| && q'.workers[h].slot == Some(i) && h != w { assert q.workers[h].slot == Some(i); }
  }

  lemma FinishKeepsPromise(q: Queue, promised: set<nat>, w: nat, o: Outcome, i: nat)
    requires Sound(q) && Enabled(q, FinishStep(w, o)) && Promises(q, promised) && i in promised
    ensures PromiseKept(Finish(q, w, o), i)
  {
    var q' := Finish(q, w, o);
    if q.workers[w].slot.value != i {
      if Held(q, i) {
        var h :| 0 <= h < |q.workers| && q.workers[h].slot == Some(i);
        assert q'.workers[h].slot == Some(i);
      }
      if Held(q', i) {
        var h :| 0 <= h < |q'.workers| && q'.workers[h].slot == Some(i);
        assert q.workers[h].slot == Some(i);
      }
    }
  }

  lemma StepKeepsSize(q: Queue, s: Step)
    requires Enabled(q, s)
    ensures |Next(q, s).slots| == |q.slots| && |Next(q, s).workers| == |q.workers|
  {
  }

  /** A dying worker loses the promise of exactly the slots it was the last to have. */
  lemma UnwindLosesExactly(q: Queue, promised: set<nat>, w: nat, i: nat)
    requires Sound(q) && Enabled(q, UnwindStep(w)) && Promises(q, promised) && i in promised
    ensures PromiseKept(Unwind(q, w), i) <==> i !in Orphaned(q, w)
  {
    UnwindFacts(q, w);
    hide Unwind;
    var q' := Unwind(q, w);
    if v :| 0 <= v < |q.workers| && Holds(q, v, i) && v != w {
      assert q'.workers[v].slot == Some(i) && i !in Orphaned(q, w);
    }
    if v :| 0 <= v < |q.workers| && q'.workers[v].slot == Some(i) {
      assert v != w && Holds(q, v, i);
    }
    assert Held(q, i) <==> Held(q', i) || Holds(q, w, i);
  }

  /** It happens to any transfer one worker has: a cancel applies, the worker dies, and the entry reads Failed. */
  lemma AnUnwindLosesACancel(q: Queue, w: nat, i: nat)
    requires Sound(q) && Enabled(q, UnwindStep(w)) && i in Orphaned(q, w) && q.slots[i].entry.state == Downloading
    ensures Cancel(q, i).1 && Enabled(Cancel(q, i).0, UnwindStep(w))
    ensures Unwind(Cancel(q, i).0, w).slots[i].entry.state == Failed && !Held(Unwind(Cancel(q, i).0, w), i)
  {
    assert Holds(q, w, i) && Held(q, i);
    var q1 := Cancel(q, i).0;
    forall v | 0 <= v < |q1.workers| && q1.workers[v].slot == Some(i) ensures v == w { assert Holds(q, v, i); }
  }

  lemma StepKeepsPromises(q: Queue, promised: set<nat>, s: Step)
    requires Sound(q) && Enabled(q, s) && Promises(q, promised)
    ensures Promises(Next(q, s), Promised(promised, q, s))
  {
    forall i | i in Promised(promised, q, s) ensures i < |Next(q, s).slots| && PromiseKept(Next(q, s), i) {
      StepKeepsSize(q, s);
      hide PromiseKept, Sound, Orphaned;
      match s
      case EnqueueStep(priority, now) => EnqueueKeepsPromise(q, promised, priority, now, i);
      case CancelStep(_) => CallerKeepsPromise(q, promised, s, i);
      case PauseStep(_) => CallerKeepsPromise(q, promised, s, i);
      case ResumeStep(_) => CallerKeepsPromise(q, promised, s, i);
      case RemoveStep(_) => CallerKeepsPromise(q, promised, s, i);
      case ProgressStep(_, _, _) => CallerKeepsPromise(q, promised, s, i);
      case ClaimStep(w) => ClaimKeepsPromise(q, promised, w, i);
      case FinishStep(w, o) => FinishKeepsPromise(q, promised, w, o, i);
      case UnwindStep(w) => UnwindLosesExactly(q, promised, w, i);
    }
  }

  function PromisedAfter(promised: set<nat>, q: Queue, steps: seq<Step>): set<nat>
    decreases |steps|
  {
    if steps == [] || !Enabled(q, steps[0]) then promised
    else PromisedAfter(Promised(promised, q, steps[0]), Next(q, steps[0]), steps[1..])
  }

  /**
   Whatever a run does after a cancel applied, the entry is Cancelled as soon as no worker has it, until its
   slot is freed or the last worker to have it dies.
   */
  lemma {:induction false} CancelIsNeverLost(q: Queue, promised: set<nat>, steps: seq<Step>, q': Queue)
    requires Sound(q) && Promises(q, promised) && Reaches(q, steps, q')
    ensures forall i :: i in PromisedAfter(promised, q, steps) && i < |q'.slots| && !Held(q', i) ==>
              q'.slots[i].entry.state == Cancelled
    decreases |steps|
  {
    if steps != [] {
      StepKeepsSound(q, steps[0]);
      StepKeepsPromises(q, promised, steps[0]);
      CancelIsNeverLost(Next(q, steps[0]), Promised(promised, q, steps[0]), steps[1..], q');
    }
  }

  // ----- cancelling everything -----

  /** How many of the first `k` slots, in use or free as asked, a cancel applies to. */
  function Takers(q: Queue, inUse: bool, k: nat): nat
    requires k <= |q.slots|
  {
    if k == 0 then 0
    else Takers(q, inUse, k - 1) + if q.slots[k - 1].entry.inUse == inUse && Cancel(q, k - 1).1 then 1 else 0
  }

  lemma {:induction false} CancellingTakesEachOnce(q: Queue, k: nat)
    requires k <= |q.slots|
    ensures CancelledUpTo(q, k).1 == Takers(q, true, k) + Takers(q, false, k)
    ensures forall i :: k <= i < |q.slots| ==> CancelledUpTo(q, k).0.slots[i] == q.slots[i]
    decreases k
  {
    if k > 0 {
      CancellingTakesEachOnce(q, k - 1);
      HeldSurvives(q, CancelledUpTo(q, k - 1).0, k - 1);
    }
  }

  predicate ReadsCancellable(e: Entry) { e.state == Pending || e.state == Paused || e.state == Preempted }

  lemma {:induction false} FreeTakersExactly(q: Queue, k: nat)
    requires Sound(q) && k <= |q.slots|
    ensures Takers(q, false, k) == 0 <==> forall i :: 0 <= i < k && !q.slots[i].entry.inUse ==> !ReadsCancellable(q.slots[i].entry)
    decreases k
  {
    if k > 0 {
      FreeTakersExactly(q, k - 1);
      if !q.slots[k - 1].entry.inUse { assert !Held(q, k - 1); }
    }
  }

  /**
   Cancelling everything counts the held transfers that took it, and no more, exactly when no free slot
   still reads as one that waits: a slot's state outlives its use.
   */
  lemma CancelAllCountsExactly(q: Queue)
    requires Sound(q)
    ensures CancelledUpTo(q, |q.slots|).1 == Takers(q, true, |q.slots|)
            <==> forall i :: 0 <= i < |q.slots| && !q.slots[i].entry.inUse ==> !ReadsCancellable(q.slots[i].entry)
  {
    CancellingTakesEachOnce(q, |q.slots|);
    FreeTakersExactly(q, |q.slots|);
  }

  /** A new queue, holding nothing, counts every one of its slots. */
  lemma {:induction false} FreshCountsEverySlot(slots: nat, workers: nat, k: nat)
    requires k <= slots
    ensures Takers(Fresh(slots, workers), true, k) == 0 && Takers(Fresh(slots, workers), false, k) == k
    decreases k
  {
    if k > 0 {
      FreshCountsEverySlot(slots, workers, k - 1);
    }
  }

  // ----- one worker to a slot -----

  /** No two workers hold one slot, and a held entry is transferring or about to pause. */
  ghost predicate Exclusive(q: Queue) {
    && (forall v, w :: 0 <= v < w < |q.workers| && q.workers[v].slot.Some? ==> q.workers[v].slot != q.workers[w].slot)
    && (forall i :: 0 <= i < |q.slots| && Held(q, i) ==>
          q.slots[i].entry.state == Downloading || q.slots[i].entry.state == Preempted)
  }

  /** A sweep now would resume an entry whose worker has not settled its pause yet. */
  predicate SweepsHeld(q: Queue) {
    !UserWorkLeft(Entries(q)) && exists i :: 0 <= i < |q.slots| && Held(q, i) && q.slots[i].entry.state == Preempted
  }

  /** With no user work left a sweep makes a preempted entry wait again, so a claim finds one. */
  lemma SweepResumes(q: Queue, i: nat)
    requires !UserWorkLeft(Entries(q)) && i < |q.slots| && q.slots[i].entry.inUse && q.slots[i].entry.state == Preempted
    ensures Swept(q).slots[i].entry.state == Pending && NextPending(Entries(Swept(q))).Some?
  {
    SweepFacts(q);
    assert Waiting(Entries(Swept(q))[i]);
  }

  lemma SweptClaimTakes(q: Queue, w: nat, j: nat)
    requires |q.workers| > 0 && w < |q.workers| && Enabled(q, ClaimStep(w)) && NextPending(Entries(Swept(q))) == Some(j)
    ensures var q' := Claim(q, w);
            && q'.slots == Taken(Swept(q), w, j).slots && |q'.workers| == |q.workers|
            && forall h :: 0 <= h < |q.workers| ==> q'.workers[h].slot == if h == w then Some(j) else q.workers[h].slot
  {
    SweepFacts(q);
    SweptClaim(Swept(q), w, j);
  }

  lemma SweepOfHeldBreaks(q: Queue, w: nat)
    requires Sound(q) && Enabled(q, ClaimStep(w)) && SweepsHeld(q)
    ensures !Exclusive(Claim(q, w))
  {
    var i :| 0 <= i < |q.slots| && Held(q, i) && q.slots[i].entry.state == Preempted;
    var h :| 0 <= h < |q.workers| && q.workers[h].slot == Some(i);
    hide Swept, Claim, NextPending, UserWorkLeft, Exclusive, Held, Entries;
    SweepResumes(q, i);
    var j := NextPending(Entries(Swept(q))).value;
    SweptClaimTakes(q, w, j);
    if i == j { SharedSlot(Claim(q, w), h, w); } else { HeldButPending(Claim(q, w), h, i); }
  }

  lemma SharedSlot(q: Queue, v: nat, w: nat)
    requires v < |q.workers| && w < |q.workers| && v != w && q.workers[v].slot.Some?
    requires q.workers[v].slot == q.workers[w].slot
    ensures !Exclusive(q)
  {
  }

  lemma HeldButPending(q: Queue, w: nat, i: nat)
    requires w < |q.workers| && i < |q.slots| && q.workers[w].slot == Some(i) && q.slots[i].entry.state == Pending
    ensures !Exclusive(q)
  {
    assert Held(q, i);
  }

  lemma SweptKeepsExclusive(q: Queue)
    requires Exclusive(q) && !SweepsHeld(q)
    ensures Exclusive(Swept(q))
  {
  }

  lemma ClaimKeepsExclusive(q: Queue, w: nat)
    requires Exclusive(q) && Enabled(q, ClaimStep(w)) && !SweepsHeld(q)
    ensures Exclusive(Claim(q, w))
  {
    SweptKeepsExclusive(q);
    var s, q' := Swept(q), Claim(q, w);
    match NextPending(Entries(s))
    case None =>
      forall i | 0 <= i < |q.slots| ensures Held(q', i) <==> Held(s, i) { HeldSurvives(s, q', i); }
    case Some(j) =>
      SweptClaim(s, w, j);
      assert Waiting(Entries(s)[j]) && !Held(s, j);
      hide Swept, Claim, NextPending, SweepsHeld;
      forall i | 0 <= i < |q.slots| && Held(q', i) && i != j ensures Held(s, i) {
        var h :| 0 <= h < |q'.workers| && q'.workers[h].slot == Some(i);
        assert s.workers[h].slot == Some(i);
      }
  }

  lemma SweptClaim(s: Queue, w: nat, j: nat)
    requires |s.workers| > 0 && w < |s.workers| && NextPending(Entries(s)) == Some(j)
    ensures var q' := Arm(Taken(s, w, j));
            && q'.slots == Taken(s, w, j).slots && |q'.workers| == |s.workers|
            && forall h :: 0 <= h < |s.workers| ==> q'.workers[h].slot == if h == w then Some(j) else s.workers[h].slot
  {
    ArmedForPending(Taken(s, w, j));
  }

  predicate Transferring(q: Queue, i: nat) {
    i < |q.slots| && (q.slots[i].entry.state == Downloading || q.slots[i].entry.state == Preempted)
  }

  /** The same workers on the same slots, none of them moved on from its transfer. */
  lemma ExclusiveSurvives(q: Queue, q': Queue)
    requires Exclusive(q) && |q'.workers| == |q.workers| && |q'.slots| == |q.slots|
    requires forall w :: 0 <= w < |q.workers| ==> q'.workers[w].slot == q.workers[w].slot
    requires forall i: nat :: Held(q, i) && Transferring(q, i) ==> Transferring(q', i)
    ensures Exclusive(q')
  {
    forall i | 0 <= i < |q.slots| && Held(q', i) ensures Transferring(q', i) {
      HeldSurvives(q, q', i);
    }
  }

  lemma CallerLeavesWorkers(q: Queue, s: Step)
    requires Enabled(q, s) && !s.UnwindStep? && !s.ClaimStep? && !s.FinishStep? && !s.EnqueueStep? && |q.workers| > 0
    ensures var q' := Next(q, s);
            && |q'.workers| == |q.workers| && |q'.slots| == |q.slots|
            && (forall w :: 0 <= w < |q.workers| ==> q'.workers[w].slot == q.workers[w].slot)
            && (forall i: nat :: Held(q, i) && Transferring(q, i) ==> Transferring(q', i))
  {
  }

  lemma CallerKeepsExclusive(q: Queue, s: Step)
    requires Sound(q) && Exclusive(q) && Enabled(q, s) && !s.UnwindStep? && !s.ClaimStep? && !s.FinishStep? && !s.EnqueueStep?
    ensures Exclusive(Next(q, s))
  {
    hide Next, Exclusive, Held, Transferring;
    CallerLeavesWorkers(q, s);
    ExclusiveSurvives(q, Next(q, s));
  }

  lemma EnqueueKeepsExclusive(q: Queue, priority: Priority, now: int)
    requires Sound(q) && Exclusive(q)
    ensures Exclusive(Enqueue(q, priority, now).0)
  {
    if FreeSlot(q.slots).Some? {
      EnqueueFacts(q, priority, now);
      hide Enqueue, Exclusive, Held, FreeSlot, Sound;
      ExclusiveSurvives(q, Enqueue(q, priority, now).0);
    }
  }

  lemma FinishKeepsExclusive(q: Queue, w: nat, o: Outcome)
    requires Sound(q) && Exclusive(q) && Enabled(q, FinishStep(w, o))
    ensures Exclusive(Finish(q, w, o))
  {
  }

  lemma UnwindKeepsExclusive(q: Queue, w: nat)
    requires Exclusive(q) && Enabled(q, UnwindStep(w))
    ensures Exclusive(Unwind(q, w))
  {
    UnwindFacts(q, w);
    hide Unwind;
    var q' := Unwind(q, w);
    forall i | 0 <= i < |q.slots| && Held(q', i) ensures Transferring(q', i) {
      var h :| 0 <= h < |q'.workers| && q'.workers[h].slot == Some(i);
      assert q.workers[h].slot == Some(i) && h != w;
      assert Held(q, i) && !Holds(q, w, i);
    }
  }

  /**
   A step puts two workers on one slot, or resumes an entry under its worker, exactly when it
   is a claim whose sweep finds a preempted entry still held and no user work left.
   */
  lemma ExclusiveExactly(q: Queue, s: Step)
    requires Sound(q) && Exclusive(q) && Enabled(q, s)
    ensures Exclusive(Next(q, s)) <==> !(s.ClaimStep? && SweepsHeld(q))
  {
    match s
    case EnqueueStep(priority, now) => EnqueueKeepsExclusive(q, priority, now);
    case ClaimStep(w) => if SweepsHeld(q) { SweepOfHeldBreaks(q, w); } else { ClaimKeepsExclusive(q, w); }
    case FinishStep(w, o) => FinishKeepsExclusive(q, w, o);
    case UnwindStep(w) => UnwindKeepsExclusive(q, w);
    case CancelStep(_) => CallerKeepsExclusive(q, s);
    case PauseStep(_) => CallerKeepsExclusive(q, s);
    case ResumeStep(_) => CallerKeepsExclusive(q, s);
    case RemoveStep(_) => CallerKeepsExclusive(q, s);
    case ProgressStep(_, _, _) => CallerKeepsExclusive(q, s);
  }

  lemma LoneClaimSweepsNoneHeld(q: Queue, s: Step)
    requires |q.workers| == 1 && Enabled(q, s)
    ensures !(s.ClaimStep? && SweepsHeld(q))
  {
    assert s.ClaimStep? ==> forall i: nat :: !Held(q, i);
  }

  /** With one worker it never is: a worker that claims holds nothing. */
  lemma {:induction false} OneWorkerIsExclusive(q: Queue, steps: seq<Step>, q': Queue)
    requires Sound(q) && Exclusive(q) && |q.workers| == 1 && Reaches(q, steps, q')
    ensures Exclusive(q')
    decreases |steps|
  {
    hide Sound, Exclusive, Next, Held, SweepsHeld, Live;
    if steps != [] {
      LoneClaimSweepsNoneHeld(q, steps[0]);
      ExclusiveExactly(q, steps[0]);
      StepKeepsSound(q, steps[0]);
      StepKeepsSize(q, steps[0]);
      OneWorkerIsExclusive(Next(q, steps[0]), steps[1..], q');
    }
  }

  /** While no slot is shared, a terminal entry has no worker left, so freeing its slot is never refused. */
  lemma SettledCanBeRemoved(q: Queue, i: nat)
    requires Exclusive(q) && i < |q.slots|
    requires q.slots[i].entry.state != Downloading && q.slots[i].entry.state != Preempted
    ensures Remove(q, i).1 && !Remove(q, i).0.slots[i].entry.inUse
  {
    assert !Held(q, i);
  }
}
