/** The transfer queue's scheduling policy over snapshots of its entries. */
module QueuePolicy {
  import opened Wrappers

  datatype Priority = Background | User

  datatype EntryState = Pending | Downloading | Paused | Preempted | Complete | Failed | Cancelled

  datatype Entry = Entry(inUse: bool, priority: Priority, state: EntryState, queueTimeMs: int,
                         bytesDownloaded: int, bytesTotal: int)

  // ----- picking what runs next -----

  predicate Waiting(e: Entry) { e.inUse && e.state == Pending }

  /** `a` runs before `b`: the higher priority, or the same one queued earlier. */
  predicate Outranks(a: Entry, b: Entry) {
    (a.priority == User && b.priority == Background)
    || (a.priority == b.priority && a.queueTimeMs < b.queueTimeMs)
  }

  /** Index `r` is the best waiting entry, the first of equals; none when nothing waits. */
  ghost predicate IsNext(entries: seq<Entry>, r: Option<nat>) {
    match r
    case None => forall i :: 0 <= i < |entries| ==> !Waiting(entries[i])
    case Some(b) =>
      && b < |entries| && Waiting(entries[b])
      && (forall i :: 0 <= i < |entries| && Waiting(entries[i]) ==> !Outranks(entries[i], entries[b]))
      && (forall i :: 0 <= i < b && Waiting(entries[i]) ==> Outranks(entries[b], entries[i]))
  }

  function NextPending(entries: seq<Entry>): (r: Option<nat>)
    ensures IsNext(entries, r)
  {
    if entries == [] then None
    else
      var last := |entries| - 1;
      var best := NextPending(entries[..last]);
      if Waiting(entries[last]) && (best.None? || Outranks(entries[last], entries[best.value])) then Some(last)
      else best
  }

  lemma NextIsUnique(entries: seq<Entry>, r: Option<nat>)
    requires IsNext(entries, r)
    ensures r == NextPending(entries)
  {
  }

  method FindNextPending(entries: seq<Entry>) returns (best: Option<nat>)
    ensures best == NextPending(entries)
  {
    best := None;
    for i := 0 to |entries|
      invariant best == NextPending(entries[..i])
    {
      var e := entries[i];
      assert entries[..i + 1][..i] == entries[..i];
      if !e.inUse || e.state != Pending {
        continue;
      }
      var take := best.None? || Outranks(e, entries[best.value]);
      if take {
        best := Some(i);
      }
    }
    assert entries[..|entries|] == entries;
  }

  // ----- preempting -----

  predicate Preemptable(e: Entry) { e.inUse && e.state == Downloading && e.priority == Background }

  /** `a` yields rather than `b`: the fewer bytes, or as many and queued later. */
  predicate YieldsTo(a: Entry, b: Entry) {
    a.bytesDownloaded < b.bytesDownloaded
    || (a.bytesDownloaded == b.bytesDownloaded && a.queueTimeMs > b.queueTimeMs)
  }

  predicate Candidate(entries: seq<Entry>, active: seq<nat>, i: nat) {
    i in active && i < |entries| && Preemptable(entries[i])
  }

  function Victim(entries: seq<Entry>, active: seq<nat>): (r: Option<nat>)
    ensures r.Some? ==> Candidate(entries, active, r.value)
    ensures r.Some? ==> forall i: nat :: Candidate(entries, active, i) ==> !YieldsTo(entries[i], entries[r.value])
    ensures r.None? ==> forall i: nat :: !Candidate(entries, active, i)
  {
    if active == [] then None
    else
      var last := |active| - 1;
      var best := Victim(entries, active[..last]);
      assert forall i: nat :: Candidate(entries, active, i) && i != active[last] ==> Candidate(entries, active[..last], i);
      if active[last] < |entries| && Preemptable(entries[active[last]])
         && (best.None? || YieldsTo(entries[active[last]], entries[best.value]))
      then Some(active[last])
      else best
  }

  function Preemption(entries: seq<Entry>, active: seq<nat>, queued: Priority, idleWorker: bool): Option<nat> {
    if queued != User || idleWorker then None else Victim(entries, active)
  }

  /** Marks at most one entry: the active background one with the fewest bytes, on a tie the one queued last. */
  method PreemptForUser(entries: array<Entry>, active: seq<nat>, queued: Priority, idleWorker: bool)
    returns (best: Option<nat>)
    modifies entries
    ensures best == Preemption(old(entries[..]), active, queued, idleWorker)
    ensures best.None? ==> entries[..] == old(entries[..])
    ensures best.Some? ==> best.value < entries.Length
                           && entries[..] == old(entries[..])[best.value := old(entries[best.value]).(state := Preempted)]
  {
    if queued != User || idleWorker { return None; }
    best := None;
    for k := 0 to |active|
      invariant best == Victim(entries[..], active[..k])
    {
      var i := active[k];
      assert active[..k + 1][..k] == active[..k];
      if i >= entries.Length { continue; }
      var candidate := entries[i];
      if !candidate.inUse || candidate.state != Downloading || candidate.priority != Background { continue; }
      var take := best.None? || YieldsTo(candidate, entries[best.value]);
      if take { best := Some(i); }
    }
    assert active[..|active|] == active;
    if best.Some? {
      entries[best.value] := entries[best.value].(state := Preempted);
    }
  }

  // ----- resuming -----

  predicate UserWork(e: Entry) { e.inUse && e.priority == User && (e.state == Pending || e.state == Downloading) }

  predicate UserWorkLeft(entries: seq<Entry>) { exists i :: 0 <= i < |entries| && UserWork(entries[i]) }

  function Resumed(e: Entry): Entry {
    if e.inUse && e.state == Preempted then e.(state := Pending) else e
  }

  function AutoResumed(entries: seq<Entry>): (r: seq<Entry>)
    ensures |r| == |entries|
    ensures forall i :: 0 <= i < |entries| ==>
              r[i] == if UserWorkLeft(entries) then entries[i] else Resumed(entries[i])
  {
    if UserWorkLeft(entries) then entries
    else seq(|entries|, i requires 0 <= i < |entries| => Resumed(entries[i]))
  }

  method AutoResumePreempted(entries: array<Entry>)
    modifies entries
    ensures entries[..] == AutoResumed(old(entries[..]))
  {
    var outstanding := false;
    for i := 0 to entries.Length
      invariant outstanding <==> exists k :: 0 <= k < i && UserWork(entries[k])
    {
      if UserWork(entries[i]) { outstanding := true; }
    }
    assert forall k :: 0 <= k < entries.Length ==> entries[..][k] == entries[k];
    assert outstanding <==> UserWorkLeft(entries[..]);
    if outstanding { return; }
    for i := 0 to entries.Length
      invariant forall k :: 0 <= k < i ==> entries[k] == Resumed(old(entries[k]))
      invariant forall k :: i <= k < entries.Length ==> entries[k] == old(entries[k])
    {
      if entries[i].inUse && entries[i].state == Preempted {
        entries[i] := entries[i].(state := Pending);
      }
    }
  }

  /** A preempted entry runs again only once no user entry waits or transfers; until then a waiting user entry does. */
  lemma PreemptedWaitsForUsers(entries: seq<Entry>, i: nat)
    requires NextPending(AutoResumed(entries)) == Some(i) && entries[i].state == Preempted
    ensures forall j :: 0 <= j < |entries| ==>
              !(entries[j].inUse && entries[j].priority == User
                && (entries[j].state == Pending || entries[j].state == Downloading))
  {
    assert !UserWorkLeft(entries);
    forall j | 0 <= j < |entries| ensures !UserWork(entries[j]) { }
  }

  lemma UsersRunFirst(entries: seq<Entry>, i: nat, j: nat)
    requires NextPending(AutoResumed(entries)) == Some(i)
    requires j < |entries| && Waiting(entries[j]) && entries[j].priority == User
    ensures i < |entries| && entries[i].priority == User && Waiting(entries[i])
  {
  }

  /** What is next has waited longest of its priority, and stands first of those queued at one time. */
  lemma OldestRunsFirst(entries: seq<Entry>, i: nat, j: nat)
    requires NextPending(entries) == Some(i) && j < |entries| && Waiting(entries[j])
    ensures i < |entries| && entries[i].inUse && entries[i].state == Pending
    ensures entries[j].priority == User ==> entries[i].priority == User
    ensures entries[j].priority == entries[i].priority ==>
              entries[i].queueTimeMs < entries[j].queueTimeMs || (entries[i].queueTimeMs == entries[j].queueTimeMs && i <= j)
  {
  }

  // ----- requests against one entry -----

  /** `isActive` is whether a worker still holds the entry. */
  function CancelEntry(e: Entry, isActive: bool): (Entry, bool) {
    if isActive && (e.state == Downloading || e.state == Preempted) then (e, true)
    else if e.state == Pending || e.state == Paused || e.state == Preempted then (e.(state := Cancelled), true)
    else (e, false)
  }

  predicate PauseEntry(e: Entry, isActive: bool) { e.state == Downloading && isActive }

  function ResumeEntry(e: Entry): (Entry, bool) {
    if e.state == Paused then (e.(state := Pending), true) else (e, false)
  }

  function RemoveEntry(e: Entry, isActive: bool): (Entry, bool) {
    if isActive || e.state == Downloading then (e, false) else (e.(inUse := false), true)
  }
}
