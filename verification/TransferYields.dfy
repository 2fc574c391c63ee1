/** A transfer told to yield to a user request survives its pause, and runs again once no user work is left. */
module TransferYields {
  import opened Wrappers
  import opened QueuePolicy
  import opened TransferProtocol
  import opened TransferLaws

  /**
   Slot `i` holds a transfer that yields, waits or transfers again. A pause is asked of it only while its worker
   has yet to settle the yield: a transfer that runs again starts unpaused.
   */
  ghost predicate Resumable(q: Queue, i: nat) {
    && i < |q.slots| && q.slots[i].entry.inUse
    && (q.slots[i].entry.state == Preempted || q.slots[i].entry.state == Pending || q.slots[i].entry.state == Downloading)
    && (q.slots[i].pauseRequested ==> Held(q, i) && q.slots[i].entry.state == Preempted)
  }

  /** A transfer pauses only when asked to. */
  predicate Asked(q: Queue, s: Step)
    requires Enabled(q, s)
  {
    s.FinishStep? && s.outcome.state == Paused ==> q.slots[q.workers[s.worker].slot.value].pauseRequested
  }

  /**
   What takes slot `i` out of it: a cancel or a removal of an entry no worker has, a cancel of one that waits, a
   pause of one that transfers, its worker settling with anything but the pause asked for, or dying, and a sweep
   that resumes it while its worker has yet to settle the pause.
   */
  predicate Ends(q: Queue, s: Step, i: nat)
    requires Enabled(q, s) && i < |q.slots|
  {
    var state := q.slots[i].entry.state;
    match s
    case EnqueueStep(_, _) => false
    case CancelStep(j) => j == i && (state == Pending || (state == Preempted && !Held(q, i)))
    case PauseStep(j) => j == i && state == Downloading
    case ResumeStep(_) => false
    case RemoveStep(j) => j == i && !Held(q, i)
    case ClaimStep(_) => !UserWorkLeft(Entries(q)) && state == Preempted && q.slots[i].pauseRequested
    case FinishStep(w, o) => Holds(q, w, i) && (q.slots[i].cancelRequested || o.state != Paused)
    case ProgressStep(_, _, _) => false
    case UnwindStep(w) => Holds(q, w, i)
  }

  // ----- a yield begins -----

  /** The transfer a user request tells to yield, and the request itself, are both to run yet. */
  lemma EnqueueBegins(q: Queue, priority: Priority, now: int, i: nat)
    requires Sound(q) && i < |q.slots| && FreeSlot(q.slots).Some?
    requires Enqueue(q, priority, now).0.slots[i] != q.slots[i] || FreeSlot(q.slots) == Some(i)
    ensures Resumable(Enqueue(q, priority, now).0, i)
    ensures FreeSlot(q.slots) != Some(i) ==> Enqueue(q, priority, now).0.slots[i].entry.state == Preempted
  {
    EnqueueFacts(q, priority, now);
    FilledUnpaused(q, priority, now);
    hide Enqueue, FreeSlot, Sound;
    HeldSurvives(q, Enqueue(q, priority, now).0, i);
  }

  /** Whom a request tells to yield: of the held background transfers the one with the fewest bytes, then the last queued. */
  ghost predicate Yields(q: Queue, victim: Option<nat>) {
    match victim
    case None => forall j: nat :: !Yieldable(q, j)
    case Some(v) =>
      && Yieldable(q, v)
      && forall j: nat :: Yieldable(q, j) ==>
           var a, b := q.slots[v].entry, q.slots[j].entry;
           a.bytesDownloaded < b.bytesDownloaded
           || (a.bytesDownloaded == b.bytesDownloaded && a.queueTimeMs >= b.queueTimeMs)
  }

  predicate Busy(q: Queue) { forall w :: 0 <= w < |q.workers| ==> q.workers[w].slot.Some? }

  /**
   A user request that finds every worker busy tells one transfer to yield, if there is a background one to tell:
   the one with the fewest bytes, on a tie the last queued. No other request tells any, and nothing else changes.
   */
  lemma EnqueueYieldsExactly(q: Queue, priority: Priority, now: int) returns (victim: Option<nat>)
    requires Sound(q) && FreeSlot(q.slots).Some?
    ensures priority == User && Busy(q) ==> Yields(q, victim)
    ensures priority == Background || !Busy(q) ==> victim.None?
    ensures var q', free := Enqueue(q, priority, now).0, FreeSlot(q.slots).value;
            && q'.slots[free] == Slot(Entry(true, priority, Pending, now, 0, UNKNOWN_TOTAL), false, false, false)
            && (victim.Some? ==> victim.value < |q.slots| && victim.value != free
                                 && q'.slots[victim.value].entry == q.slots[victim.value].entry.(state := Preempted)
                                 && q'.slots[victim.value].pauseRequested)
            && forall j :: 0 <= j < |q.slots| && j != free && Some(j as nat) != victim ==> q'.slots[j] == q.slots[j]
  {
    hide Arm, Claimed, NextPending, Sound, Yieldable, FreeSlot, Victim;
    var q1 := Filled(q, FreeSlot(q.slots).value, priority, now);
    CandidatesExactly(q, priority, now);
    ArmedForPending(q1);
    victim := Preemption(Entries(q1), Claimed(q1.workers), priority, IdleWorker(q1));
    if victim.Some? {
      assert Candidate(Entries(q1), Claimed(q1.workers), victim.value);
      ArmedForPending(Yielding(q1, victim.value));
    }
  }

  lemma CandidatesExactly(q: Queue, priority: Priority, now: int)
    requires Sound(q) && FreeSlot(q.slots).Some?
    ensures var q1 := Filled(q, FreeSlot(q.slots).value, priority, now);
            forall j: nat :: Candidate(Entries(q1), Claimed(q1.workers), j) <==> Yieldable(q, j)
    ensures |q.workers| > 0 && !Yieldable(q, FreeSlot(q.slots).value)
    ensures forall j: nat :: Yieldable(q, j) ==> j < |q.slots|
  {
    FreeIsNotHeld(q);
    var q1 := Filled(q, FreeSlot(q.slots).value, priority, now);
    hide Filled, Claimed, FreeSlot, Sound, NextPending;
    forall j: nat ensures Candidate(Entries(q1), Claimed(q1.workers), j) <==> Yieldable(q, j) {
      assert Held(q, j) <==> j in Claimed(q1.workers);
    }
  }

  lemma FreeIsNotHeld(q: Queue)
    requires Sound(q) && FreeSlot(q.slots).Some?
    ensures !Held(q, FreeSlot(q.slots).value) && |q.workers| > 0
  {
  }

  /** A worker has it, it transfers, and it is background work. */
  predicate Yieldable(q: Queue, i: nat) {
    i < |q.slots| && Held(q, i) && q.slots[i].entry.inUse && q.slots[i].entry.state == Downloading
    && q.slots[i].entry.priority == Background
  }

  lemma FilledUnpaused(q: Queue, priority: Priority, now: int)
    requires Sound(q) && FreeSlot(q.slots).Some?
    ensures !Enqueue(q, priority, now).0.slots[FreeSlot(q.slots).value].pauseRequested
  {
    hide Arm, Claimed, NextPending;
    var i := FreeSlot(q.slots).value;
    var q1 := Filled(q, i, priority, now);
    ArmedForPending(q1);
    var victim := Preemption(Entries(q1), Claimed(q1.workers), priority, IdleWorker(q1));
    if victim.Some? {
      assert Candidate(Entries(q1), Claimed(q1.workers), victim.value);
      ArmedForPending(Yielding(q1, victim.value));
    }
  }

  // ----- and lasts -----

  lemma CallerEndsExactly(q: Queue, s: Step, i: nat)
    requires Sound(q) && Resumable(q, i) && Enabled(q, s)
    requires s.CancelStep? || s.PauseStep? || s.ResumeStep? || s.RemoveStep? || s.ProgressStep?
    ensures Resumable(Next(q, s), i) <==> !Ends(q, s, i)
  {
    CallerLeaves(q, s, i);
    HeldSurvives(q, Next(q, s), i);
    hide Next, Sound, Held;
  }

  /** What a caller's request, or a transfer's progress, makes of one slot; no worker gets or loses one. */
  ghost predicate Left(q: Queue, s: Step, q': Queue, i: nat)
    requires i < |q.slots|
  {
    var state := q.slots[i].entry.state;
    && |q'.workers| == |q.workers| && |q'.slots| == |q.slots|
    && (forall w :: 0 <= w < |q.workers| ==> q'.workers[w].slot == q.workers[w].slot)
    && q'.slots[i].entry.state
       == (if s == CancelStep(i) && (state == Pending || state == Paused || (state == Preempted && !Held(q, i))) then Cancelled
           else if s == ResumeStep(i) && state == Paused then Pending else state)
    && (q'.slots[i].entry.inUse <==>
          q.slots[i].entry.inUse && !(s == RemoveStep(i) && !Held(q, i) && state != Downloading))
    && (q'.slots[i].pauseRequested <==>
          q.slots[i].pauseRequested || (s == PauseStep(i) && state == Downloading && Held(q, i)))
    && (q'.slots[i].cancelRequested <==>
          || q.slots[i].cancelRequested
          || (s == CancelStep(i) && Held(q, i)
              && (state == Pending || state == Paused || state == Preempted || state == Downloading)))
  }

  lemma CallerLeaves(q: Queue, s: Step, i: nat)
    requires Sound(q) && Enabled(q, s) && i < |q.slots|
    requires s.CancelStep? || s.PauseStep? || s.ResumeStep? || s.RemoveStep? || s.ProgressStep?
    ensures Left(q, s, Next(q, s), i)
  {
    hide Left, Sound;
    match s
    case CancelStep(j) => CancelLeaves(q, j, i);
    case PauseStep(j) => PauseLeaves(q, j, i);
    case ResumeStep(j) => ResumeLeaves(q, j, i);
    case RemoveStep(j) => RemoveLeaves(q, j, i);
    case ProgressStep(w, downloaded, total) => ProgressLeaves(q, w, downloaded, total, i);
    case _ =>
  }

  lemma CancelLeaves(q: Queue, j: nat, i: nat)
    requires j < |q.slots| && i < |q.slots|
    ensures Left(q, CancelStep(j), Cancel(q, j).0, i)
  {
  }

  lemma PauseLeaves(q: Queue, j: nat, i: nat)
    requires j < |q.slots| && i < |q.slots|
    ensures Left(q, PauseStep(j), Pause(q, j).0, i)
  {
  }

  lemma ResumeLeaves(q: Queue, j: nat, i: nat)
    requires Sound(q) && j < |q.slots| && i < |q.slots|
    ensures Left(q, ResumeStep(j), Resume(q, j).0, i)
  {
    ArmedForPending(q.(slots := q.slots[j := q.slots[j].(entry := ResumeEntry(q.slots[j].entry).0)]));
    hide Arm;
  }

  lemma RemoveLeaves(q: Queue, j: nat, i: nat)
    requires j < |q.slots| && i < |q.slots|
    ensures Left(q, RemoveStep(j), Remove(q, j).0, i)
  {
  }

  lemma ProgressLeaves(q: Queue, w: nat, downloaded: int, total: int, i: nat)
    requires Enabled(q, ProgressStep(w, downloaded, total)) && i < |q.slots|
    ensures Left(q, ProgressStep(w, downloaded, total), Progress(q, w, downloaded, total), i)
  {
  }

  lemma EnqueueEndsNone(q: Queue, priority: Priority, now: int, i: nat)
    requires Sound(q) && Resumable(q, i)
    ensures Resumable(Enqueue(q, priority, now).0, i)
  {
    if FreeSlot(q.slots).Some? {
      EnqueueFacts(q, priority, now);
      hide Enqueue;
      HeldSurvives(q, Enqueue(q, priority, now).0, i);
    }
  }

  lemma ClaimEndsExactly(q: Queue, w: nat, i: nat)
    requires Sound(q) && Resumable(q, i) && Enabled(q, ClaimStep(w))
    ensures Resumable(Claim(q, w), i) <==> !Ends(q, ClaimStep(w), i)
  {
    SweepFacts(q);
    ClaimFacts(q, w);
    hide Claim, Swept, Pick, NextPending, Sound, Entries, UserWorkLeft;
    var q' := Claim(q, w);
    if h :| 0 <= h < |q.workers| && q.workers[h].slot == Some(i) { assert q'.workers[h].slot == Some(i); }
  }

  lemma FinishEndsExactly(q: Queue, w: nat, o: Outcome, i: nat)
    requires Sound(q) && Resumable(q, i) && Enabled(q, FinishStep(w, o)) && Asked(q, FinishStep(w, o))
    ensures Resumable(Finish(q, w, o), i) <==> !Ends(q, FinishStep(w, o), i)
  {
    var q' := Finish(q, w, o);
    if q.workers[w].slot.value != i && Held(q, i) {
      var h :| 0 <= h < |q.workers| && q.workers[h].slot == Some(i);
      assert q'.workers[h].slot == Some(i);
    }
  }

  lemma UnwindEndsExactly(q: Queue, w: nat, i: nat)
    requires Sound(q) && Resumable(q, i) && Enabled(q, UnwindStep(w))
    ensures Resumable(Unwind(q, w), i) <==> !Ends(q, UnwindStep(w), i)
  {
    UnwindFacts(q, w);
    hide Unwind;
    if Held(q, i) && !Holds(q, w, i) {
      var h :| 0 <= h < |q.workers| && q.workers[h].slot == Some(i);
      assert Unwind(q, w).workers[h].slot == Some(i);
    }
  }

  /** A step leaves a yielded transfer to run again exactly when it is none of those. */
  lemma ResumableExactly(q: Queue, s: Step, i: nat)
    requires Sound(q) && Resumable(q, i) && Enabled(q, s) && Asked(q, s)
    ensures Resumable(Next(q, s), i) <==> !Ends(q, s, i)
  {
    hide Resumable, Sound, Ends, Asked;
    match s
    case EnqueueStep(priority, now) => EnqueueNeverEnds(q, priority, now, i);
    case ClaimStep(w) => ClaimEndsExactly(q, w, i);
    case FinishStep(w, o) => FinishEndsExactly(q, w, o, i);
    case UnwindStep(w) => UnwindEndsExactly(q, w, i);
    case _ => CallerEndsExactly(q, s, i);
  }

  lemma EnqueueNeverEnds(q: Queue, priority: Priority, now: int, i: nat)
    requires Sound(q) && Resumable(q, i)
    ensures Resumable(Enqueue(q, priority, now).0, i) && i < |q.slots| && !Ends(q, EnqueueStep(priority, now), i)
  {
    EnqueueEndsNone(q, priority, now, i);
  }

  /** A run whose transfers pause only when asked to, and none of whose steps takes slot `i` out. */
  ghost predicate Spares(q: Queue, steps: seq<Step>, i: nat)
    decreases |steps|
  {
    steps != [] && Enabled(q, steps[0]) && i < |q.slots| ==>
      Asked(q, steps[0]) && !Ends(q, steps[0], i) && Spares(Next(q, steps[0]), steps[1..], i)
  }

  /** Over any such run, however often it yields, pauses and runs again, a yielded transfer stays to be run. */
  lemma {:induction false} YieldedIsNeverLost(q: Queue, steps: seq<Step>, q': Queue, i: nat)
    requires Sound(q) && Resumable(q, i) && Reaches(q, steps, q') && Spares(q, steps, i)
    ensures Resumable(q', i)
    decreases |steps|
  {
    hide Sound, Next, Ends, Asked, Enabled;
    if steps != [] {
      StepKeepsSound(q, steps[0]);
      ResumableExactly(q, steps[0], i);
      YieldedIsNeverLost(Next(q, steps[0]), steps[1..], q', i);
    }
  }

  // ----- and runs again -----

  /** With no user work left, a claim finds the yielded transfer pending: it takes that one or one that is before it. */
  lemma NextClaimResumes(q: Queue, w: nat, i: nat)
    requires Sound(q) && Resumable(q, i) && q.slots[i].entry.state == Preempted && !q.slots[i].pauseRequested
    requires Enabled(q, ClaimStep(w)) && !UserWorkLeft(Entries(q))
    ensures var q' := Claim(q, w);
            && q'.workers[w].slot.Some?
            && Resumable(q', i)
            && q'.slots[i].entry.state == (if Holds(q', w, i) then Downloading else Pending)
            && (!Holds(q', w, i) ==>
                  var j := q'.workers[w].slot.value;
                  && j < |q'.slots|
                  && (q'.slots[i].entry.priority == User ==> q'.slots[j].entry.priority == User)
                  && (q'.slots[i].entry.priority == q'.slots[j].entry.priority ==>
                        q'.slots[j].entry.queueTimeMs <= q'.slots[i].entry.queueTimeMs))
  {
    SweepFacts(q);
    ClaimFacts(q, w);
    SweepResumes(q, i);
    ClaimEndsExactly(q, w, i);
    var s := Swept(q);
    assert Waiting(Entries(s)[i]) && IsNext(Entries(s), Pick(q));
    hide Claim, Swept, NextPending, UserWorkLeft;
  }

  /**
   A settle gives up the claim and reads as the transfer came out, but for a promised cancel, which wins, and for the
   pause asked of a transfer that yields, which goes on yielding. No other slot and no other worker changes.
   */
  lemma SettleExactly(q: Queue, w: nat, o: Outcome, i: nat)
    requires Sound(q) && Holds(q, w, i) && Terminal(o)
    ensures Enabled(q, FinishStep(w, o))
    ensures var q', slot := Finish(q, w, o), q.slots[i];
            && |q'.slots| == |q.slots| && |q'.workers| == |q.workers|
            && q'.workers[w] == Worker(true, None) && !q'.slots[i].pauseRequested
            && (q'.slots[i].hasPath <==> slot.hasPath || (o == Settled(Complete, true) && !slot.cancelRequested))
            && (slot.cancelRequested ==> q'.slots[i].entry == slot.entry.(state := Cancelled))
            && (!slot.cancelRequested && o.state == Paused && slot.entry.state == Preempted ==> q'.slots[i].entry == slot.entry)
            && (!slot.cancelRequested && !(o.state == Paused && slot.entry.state == Preempted) ==>
                  q'.slots[i].entry == slot.entry.(state := o.state))
            && (forall j :: 0 <= j < |q.slots| && j != i ==> q'.slots[j] == q.slots[j])
            && (forall v :: 0 <= v < |q.workers| && v != w ==> q'.workers[v] == q.workers[v])
  {
  }

  /** What a transfer reports is its entry's progress, and nothing else of the queue changes. */
  lemma ProgressIsReported(q: Queue, w: nat, i: nat, downloaded: int, total: int)
    requires Sound(q) && Holds(q, w, i)
    ensures Enabled(q, ProgressStep(w, downloaded, total))
    ensures var q' := Next(q, ProgressStep(w, downloaded, total));
            && q'.workers == q.workers && |q'.slots| == |q.slots|
            && q'.slots[i] == q.slots[i].(entry := q'.slots[i].entry)
            && q'.slots[i].entry == q.slots[i].entry.(bytesDownloaded := downloaded, bytesTotal := total)
            && forall j :: 0 <= j < |q.slots| && j != i ==> q'.slots[j] == q.slots[j]
  {
  }

  /** What is pending after a request or a claim has every worker armed for it, not one alone. */
  lemma PendingArmsAll(q: Queue, s: Step)
    requires Sound(q) && Enabled(q, s)
    requires match s
             case EnqueueStep(_, _) => FreeSlot(q.slots).Some?
             case ResumeStep(i) => q.slots[i].entry.state == Paused
             case ClaimStep(_) => Pick(q).Some?
             case _ => false
    ensures (exists i :: 0 <= i < |q.slots| && Waiting(Next(q, s).slots[i].entry)) ==>
              forall w :: 0 <= w < |q.workers| ==> Next(q, s).workers[w].armed
  {
    match s {
      case EnqueueStep(priority, now) =>
        var q1 := Filled(q, FreeSlot(q.slots).value, priority, now);
        var victim := Preemption(Entries(q1), Claimed(q1.workers), priority, IdleWorker(q1));
        ArmsAll(if victim.None? then q1 else Yielding(q1, victim.value));
      case ResumeStep(i) => ArmsAll(q.(slots := q.slots[i := q.slots[i].(entry := ResumeEntry(q.slots[i].entry).0)]));
      case ClaimStep(w) =>
        SweepFacts(q);
        ArmsAll(Taken(Swept(q), w, Pick(q).value));
      case _ =>
    }
    hide Arm, Swept, Claimed, FreeSlot, NextPending, Sound;
  }

  lemma ArmsAll(q: Queue)
    ensures Arm(q).slots == q.slots && |Arm(q).workers| == |q.workers|
    ensures (exists i :: 0 <= i < |q.slots| && Waiting(q.slots[i].entry)) ==>
              forall w :: 0 <= w < |q.workers| ==> Arm(q).workers[w].armed
  {
    if i :| 0 <= i < |q.slots| && Waiting(q.slots[i].entry) { assert Waiting(Entries(q)[i]); }
  }

  /** A transfer a user pauses while it runs settles paused, whatever its worker still has to do, and waits when resumed. */
  lemma UserPausedIsPaused(q: Queue, w: nat, i: nat)
    requires Sound(q) && Holds(q, w, i) && q.slots[i].entry.state == Downloading && !q.slots[i].cancelRequested
    ensures Pause(q, i).1 && Sound(Pause(q, i).0) && Pause(q, i).0.slots[i].pauseRequested
    ensures Enabled(Pause(q, i).0, FinishStep(w, Settled(Paused, false)))
    ensures var q2 := Finish(Pause(q, i).0, w, Settled(Paused, false));
            && i < |q2.slots| && q2.slots[i].entry == q.slots[i].entry.(state := Paused)
            && Resume(q2, i).1 && Resume(q2, i).0.slots[i].entry == q.slots[i].entry.(state := Pending)
  {
    assert Held(q, i);
    CallerKeeps(q, PauseStep(i));
    var q1 := Pause(q, i).0;
    SettleExactly(q1, w, Settled(Paused, false), i);
    var q2 := Finish(q1, w, Settled(Paused, false));
    ArmedForPending(q2.(slots := q2.slots[i := q2.slots[i].(entry := q.slots[i].entry.(state := Pending))]));
  }

  /**
   And where the sweep resumes a transfer under its worker, the pause it was asked for stops it: it reads paused,
   and no sweep picks it up.
   */
  lemma ResumedUnderItsWorkerStops(q: Queue, w: nat, h: nat, i: nat)
    requires Sound(q) && Resumable(q, i) && q.slots[i].entry.state == Preempted && q.slots[i].pauseRequested
    requires Holds(q, h, i) && !q.slots[i].cancelRequested
    requires Enabled(q, ClaimStep(w)) && !UserWorkLeft(Entries(q))
    ensures var q1 := Claim(q, w);
            && Enabled(q1, FinishStep(h, Settled(Paused, false))) && Asked(q1, FinishStep(h, Settled(Paused, false)))
            && Finish(q1, h, Settled(Paused, false)).slots[i].entry.state == Paused
            && Swept(Finish(q1, h, Settled(Paused, false))).slots[i].entry.state == Paused
  {
    ClaimUnderItsWorker(q, w, h, i);
    var q1 := Claim(q, w);
    hide Claim, Swept, Sound, UserWorkLeft, Resumable, Entries;
    SettleExactly(q1, h, Settled(Paused, false), i);
    SweepFacts(Finish(q1, h, Settled(Paused, false)));
  }

  lemma ClaimUnderItsWorker(q: Queue, w: nat, h: nat, i: nat)
    requires Sound(q) && Resumable(q, i) && q.slots[i].entry.state == Preempted && Holds(q, h, i)
    requires Enabled(q, ClaimStep(w)) && !UserWorkLeft(Entries(q))
    ensures var q1 := Claim(q, w);
            && Sound(q1) && |q1.slots| == |q.slots| && Holds(q1, h, i)
            && q1.slots[i].entry.state != Preempted
            && q1.slots[i].cancelRequested == q.slots[i].cancelRequested
            && q1.slots[i].pauseRequested == q.slots[i].pauseRequested
  {
    ClaimKeeps(q, w);
    SweepFacts(q);
    ClaimFacts(q, w);
    hide Claim, Swept, NextPending, UserWorkLeft, Sound, Pick;
  }
}
