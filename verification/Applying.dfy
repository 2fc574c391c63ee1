/** Turning a plan into an installed generation: acquire every artifact, then record it. */
module Applying {
  import opened Wrappers
  import opened InstallDisk
  import opened InstallRoots
  import opened TransferSlots
  import opened Completed

  datatype Plan = Plan(generationId: string, artifacts: seq<Artifact>)

  datatype ApplyError =
    | NotAcquired(name: string)
    | Cancelled(name: string)
    | NotADigest(name: string)
    | Collision(first: string, second: string, path: string)
    | GenerationId(id: string)
    | UnsafePath(name: string, path: string)
    | InstallFailed(path: string)

  /** What the disk answers a publication asking for the generation's directory and for its record. */
  datatype Answers = Answers(directory: bool, record: bool)

  // ----- names that may reach the filesystem -----

  predicate IsHexSha256(s: string) {
    |s| == 64 && forall k :: 0 <= k < |s| ==> '0' <= s[k] <= '9' || 'a' <= s[k] <= 'f'
  }

  function Split(s: string): (parts: seq<string>)
    ensures parts != []
  {
    if s == "" then [""]
    else
      var rest := Split(s[1..]);
      if s[0] == '/' then [""] + rest else [[s[0]] + rest[0]] + rest[1..]
  }

  predicate IsCleanRelativePath(s: string) {
    && s != ""
    && (forall k :: 0 <= k < |s| ==> ' ' <= s[k] && s[k] != '\U{7f}' && s[k] !in ['\\', ':', '?', '#', '%'])
    && (forall k :: 0 <= k < |Split(s)| ==> Split(s)[k] != "" && Split(s)[k] != "." && Split(s)[k] != "..")
  }

  /** The directory depth a walk along `parts` ends at, or nothing once it climbs out of where it began. */
  function Depth(parts: seq<string>, depth: nat): Option<nat> {
    if parts == [] then Some(depth)
    else if parts[0] == "" || parts[0] == "." then Depth(parts[1..], depth)
    else if parts[0] == ".." then if depth == 0 then None else Depth(parts[1..], depth - 1)
    else Depth(parts[1..], depth + 1)
  }

  function OnePath(parts: seq<string>): string
    requires parts != []
  {
    if |parts| == 1 then parts[0] else parts[0] + "/" + OnePath(parts[1..])
  }

  /** The parts of a path are what its slashes separate. */
  lemma {:induction false} SplitAtSlashes(s: string)
    ensures OnePath(Split(s)) == s && forall part <- Split(s) :: '/' !in part
    decreases |s|
  {
    if s != "" {
      SplitAtSlashes(s[1..]);
      var rest := Split(s[1..]);
      if s[0] == '/' {
        assert ([""] + rest)[1..] == rest;
      } else {
        assert ([[s[0]] + rest[0]] + rest[1..])[1..] == rest[1..];
        assert s == [s[0]] + s[1..];
        if |rest| > 1 { assert [s[0]] + rest[0] + "/" + OnePath(rest[1..]) == [s[0]] + (rest[0] + "/" + OnePath(rest[1..])); }
      }
    }
  }

  predicate PlainChar(c: char) {
    !('\0' <= c <= '\U{1f}') && c != '\U{7f}' && c != '\\' && c != ':' && c != '?' && c != '#' && c != '%'
  }

  /**
   A path passes exactly when each of its parts goes one directory deeper, so that it names a file strictly inside the
   directory it is joined onto, and none of its characters is a control or would be read as something else.
   */
  lemma CleanPathStaysInside(s: string)
    ensures IsCleanRelativePath(s) <==> Depth(Split(s), 0) == Some(|Split(s)|) && forall k :: 0 <= k < |s| ==> PlainChar(s[k])
    ensures IsCleanRelativePath(s) ==> s[0] != '/'
  {
    PlainPartsDescend(Split(s), 0);
    if s == "" { assert Split(s)[0] == ""; }
  }

  lemma {:induction false} PlainPartsDescend(parts: seq<string>, depth: nat)
    ensures Depth(parts, depth).Some? ==> Depth(parts, depth).value <= depth + |parts|
    ensures Depth(parts, depth) == Some(depth + |parts|) <==>
              forall k :: 0 <= k < |parts| ==> parts[k] != "" && parts[k] != "." && parts[k] != ".."
    decreases |parts|
  {
    if parts != [] {
      PlainPartsDescend(parts[1..], depth + 1);
      PlainPartsDescend(parts[1..], depth);
      if depth > 0 { PlainPartsDescend(parts[1..], depth - 1); }
      assert forall k :: 1 <= k < |parts| ==> parts[k] == parts[1..][k - 1];
    }
  }

  /** A generation's id is 64 lower-case hexadecimal digits, and so one plain step of a path. */
  lemma GenerationIdIsOneStep(s: string)
    ensures IsHexSha256(s) <==> |s| == 64 && forall c <- s :: '0' <= c <= '9' || 'a' <= c <= 'f'
    ensures IsHexSha256(s) ==> IsCleanRelativePath(s) && Split(s) == [s]
  {
    assert forall k :: 0 <= k < |s| ==> s[k] in s;
    if IsHexSha256(s) {
      NoSlashOnePart(s);
      hide Split;
      assert forall k :: 0 <= k < |Split(s)| ==> Split(s)[k] == s;
    }
  }

  lemma {:induction false} NoSlashOnePart(s: string)
    requires '/' !in s
    ensures Split(s) == [s]
    decreases |s|
  {
    if s != "" {
      assert s[0] in s && forall c <- s[1..] :: c in s;
      NoSlashOnePart(s[1..]);
      assert s == [s[0]] + s[1..];
    }
  }

  /** The transfer an artifact's ticket stands for brings the bytes the artifact names, and the disk takes them. */
  predicate Good(a: Artifact, f: Fate) {
    a.sha256.Sha256? && f.ending == Lands(Some(a.sha256.of)) && f.copying == Copied
  }

  /** Every artifact of a batch whose first ticket is `first`. */
  ghost predicate AllGood(artifacts: seq<Artifact>, fate: nat -> Fate, first: nat) {
    forall j :: 0 <= j < |artifacts| ==> Good(artifacts[j], fate(first + j))
  }

  predicate Tracks(active: seq<(nat, nat)>, j: nat) { exists k :: 0 <= k < |active| && active[k].1 == j }

  /** Each queued index is tracked or placed, never both, and each ticket stands for its own index. */
  ghost predicate Tracked(active: seq<(nat, nat)>, placed: seq<Option<Installed>>, next: nat, first: nat) {
    && next <= |placed|
    && (forall k :: 0 <= k < |active| ==>
          active[k].1 < next && active[k].0 == first + active[k].1 && placed[active[k].1].None?)
    && (forall k, l :: 0 <= k < l < |active| ==> active[k].1 != active[l].1)
    && (forall j :: 0 <= j < next ==> (placed[j].Some? <==> !Tracks(active, j)))
    && (forall j :: next <= j < |placed| ==> placed[j].None?)
  }

  /** What has been placed is right: the entry is the artifact's, and its transfer was good. */
  ghost predicate PlacedRight(artifacts: seq<Artifact>, placed: seq<Option<Installed>>, fate: nat -> Fate, first: nat) {
    && |placed| == |artifacts|
    && forall j :: 0 <= j < |placed| && placed[j].Some? ==>
         placed[j].value == InstalledOf(artifacts[j]) && Good(artifacts[j], fate(first + j))
  }

  predicate LandedIn(files: map<Place, Bytes>, id: string, a: Artifact) {
    Place(id, a.path) in files && Sha256(files[Place(id, a.path)]) == a.sha256
  }

  /** Nothing was lost, and every new or changed file is one of the artifacts', verified. */
  ghost predicate OnlyVerified(before: map<Place, Bytes>, after: map<Place, Bytes>, id: string, artifacts: seq<Artifact>) {
    && before.Keys <= after.Keys
    && forall p :: p in after && !(p in before && before[p] == after[p]) ==>
         p.id == id && exists a :: a in artifacts && a.path == p.path && a.sha256 == Sha256(after[p])
  }

  /** Where an acquisition stands between two looks at the queue. */
  ghost predicate Underway(artifacts: seq<Artifact>, fate: nat -> Fate, first: nat, active: seq<(nat, nat)>,
                           placed: seq<Option<Installed>>, next: nat, keys: set<nat>)
  {
    Tracked(active, placed, next, first) && keys == IdsFrom(active, 0) && PlacedRight(artifacts, placed, fate, first)
  }

  /** What an acquisition has written: the artifacts in place, each once, and nothing else. */
  ghost predicate Written(id: string, artifacts: seq<Artifact>, placed: seq<Option<Installed>>, landed: seq<nat>,
                          start: Storage, now: Storage)
  {
    && |placed| == |artifacts| && Nameable(artifacts, landed)
    && (forall j :: 0 <= j < |placed| ==> (placed[j].Some? <==> j in landed))
    && now == After(start, Landings(id, artifacts, landed))
  }

  /** One artifact's bytes reach its place. */
  ghost predicate InPlace(before: Storage, id: string, a: Artifact, after: Storage) {
    a.sha256.Sha256?
    && after == Storage(Effect(before.disk, FileLanded(InstallDisk.Place(id, a.path), a.sha256.of)),
                        before.log + [FileLanded(InstallDisk.Place(id, a.path), a.sha256.of)])
  }

  function SwapRemoved<T>(s: seq<T>, k: nat): (r: seq<T>)
    requires k < |s|
    ensures |r| == |s| - 1
    ensures forall i :: 0 <= i < |r| ==> r[i] == if i == k then s[|s| - 1] else s[i]
  {
    s[k := s[|s| - 1]][..|s| - 1]
  }

  class Applier {
    const queue: TransferSlots
    const install: InstallRoot
    const completions: Completions
    /** Cache entries evicted because their bytes could not be trusted. */
    var quarantined: set<Sha>

    constructor (queue: TransferSlots, install: InstallRoot)
      ensures this.queue == queue && this.install == install && quarantined == {}
      ensures completions.Valid() && fresh(completions)
    {
      this.queue, this.install := queue, install;
      completions := new Completions();
      quarantined := {};
    }

    /** Copies one acquired artifact into the generation, verified before it gets its name. */
    method Place(id: string, artifact: Artifact, cached: Option<Bytes>, copying: Copying)
      returns (r: Result<Installed, ApplyError>)
      modifies install`files, install`trace, this`quarantined
      ensures r.Ok? <==> artifact.sha256.Sha256? && cached == Some(artifact.sha256.of) && copying == Copied
      ensures r.Ok? ==> r.value == InstalledOf(artifact) && InPlace(old(install.Storage()), id, artifact, install.Storage())
      ensures r.Err? ==> install.Storage() == old(install.Storage())
      ensures r == Err(NotAcquired(artifact.name)) <==>
                && artifact.sha256.Sha256? && copying != NoDirectory
                && (cached.None? || (copying != NoCopy && cached.value != artifact.sha256.of))
      ensures r.Err? ==> r.error in {NotADigest(artifact.name), InstallFailed(artifact.path), NotAcquired(artifact.name)}
                         && (r.error.NotADigest? <==> artifact.sha256.Malformed?)
      ensures quarantined == old(quarantined) + if r.Err? && r.error.NotAcquired? then {artifact.sha256} else {}
    {
      if artifact.sha256.Malformed? { return Err(NotADigest(artifact.name)); }
      if copying == NoDirectory { return Err(InstallFailed(artifact.path)); }
      if cached.None? {
        quarantined := quarantined + {artifact.sha256};
        return Err(NotAcquired(artifact.name));
      }
      if copying == NoCopy { return Err(InstallFailed(artifact.path)); }
      if Sha256(cached.value) != artifact.sha256 {
        quarantined := quarantined + {artifact.sha256};
        return Err(NotAcquired(artifact.name));
      }
      if copying == NoName { return Err(InstallFailed(artifact.path)); }
      install.Land(id, artifact.path, cached.value);
      r := Ok(InstalledOf(artifact));
    }

    /** Places the artifact if its transfer has landed, or says it has not settled. */
    method Settle(id: string, artifact: Artifact, ticket: nat) returns (r: Result<Option<Installed>, ApplyError>)
      requires queue.Valid() && ticket in queue.held
      modifies install`files, install`trace, this`quarantined
      ensures r == Ok(None) <==> queue.held[ticket].left > 0
      ensures r.Ok? && r.value.Some? ==>
                && Good(artifact, queue.fate(ticket)) && r.value.value == InstalledOf(artifact)
                && InPlace(old(install.Storage()), id, artifact, install.Storage())
      ensures r.Err? ==> !Good(artifact, queue.fate(ticket))
      ensures r.Err? || r == Ok(None) ==> install.Storage() == old(install.Storage())
    {
      if queue.held[ticket].left > 0 { return Ok(None); }
      match queue.held[ticket].fate.ending
      case Lands(cached) =>
        var placed := Place(id, artifact, cached, queue.held[ticket].fate.copying);
        if placed.Err? { return Err(placed.error); }
        r := Ok(Some(placed.value));
      case Fails => r := Err(NotAcquired(artifact.name));
      case CalledOff => r := Err(Cancelled(artifact.name));
    }

    /** Queues one artifact and tracks its ticket, if a slot is free. */
    method QueueNext(acquisition: Acquisition, next: nat) returns (queued: bool)
      requires acquisition.queue == queue && queue.Valid() && queue.held.Keys == IdsFrom(acquisition.active, 0)
      modifies queue`held, queue`nextId, acquisition`active
      ensures queue.Valid() && queue.held.Keys == IdsFrom(acquisition.active, 0)
      ensures !queued ==> queue.held == old(queue.held) && queue.nextId == old(queue.nextId)
                          && acquisition.active == old(acquisition.active)
                          && (queue.held == map[] ==> queue.relief(queue.now) > 0)
      ensures queued ==> queue.nextId == old(queue.nextId) + 1
                         && acquisition.active == old(acquisition.active) + [(old(queue.nextId), next)]
    {
      hide *;
      var id := queue.Queue();
      if id.None? { return false; }
      IdsJoined(acquisition.active, (id.value, next));
      acquisition.active := acquisition.active + [(id.value, next)];
      queued := true;
    }

    /** Queues as many artifacts as there is room for, stopping at one whose digest does not parse. */
    method Fill(artifacts: seq<Artifact>, acquisition: Acquisition, next: nat, ghost placed: seq<Option<Installed>>,
                ghost first: nat)
      returns (next': nat, bad: Option<ApplyError>)
      requires acquisition.queue == queue && queue.Valid() && queue.held.Keys == IdsFrom(acquisition.active, 0)
      requires |placed| == |artifacts| && Tracked(acquisition.active, placed, next, first)
      requires queue.nextId == first + next
      modifies queue`held, queue`nextId, acquisition`active
      ensures queue.Valid() && queue.held.Keys == IdsFrom(acquisition.active, 0)
      ensures next <= next' <= |artifacts| && Tracked(acquisition.active, placed, next', first)
      ensures queue.nextId == first + next' && |acquisition.active| - |old(acquisition.active)| == next' - next
      ensures next' == next ==> queue.held == old(queue.held) && acquisition.active == old(acquisition.active)
      ensures bad.Some? ==> next' < |artifacts| && !artifacts[next'].sha256.Sha256?
      ensures bad.None? && next' < |artifacts| && queue.held == map[] ==> queue.relief(queue.now) > 0
    {
      hide *;
      next', bad := next, None;
      TrackedWithin(acquisition.active, placed, next, first);
      while next' < |artifacts|
        invariant queue.Valid() && queue.held.Keys == IdsFrom(acquisition.active, 0)
        invariant next <= next' <= |artifacts| && Tracked(acquisition.active, placed, next', first)
        invariant queue.nextId == first + next' && |acquisition.active| - |old(acquisition.active)| == next' - next
        invariant next' == next ==> queue.held == old(queue.held) && acquisition.active == old(acquisition.active)
      {
        if artifacts[next'].sha256.Malformed? { return next', Some(NotADigest(artifacts[next'].name)); }
        ghost var before := acquisition.active;
        var queued := QueueNext(acquisition, next');
        if !queued { return; }
        Joined(before, placed, next', first);
        next' := next' + 1;
      }
    }

    /** An acquisition for one plan, between two looks at the queue: what it tracks and what it has written. */
    ghost predicate Going(id: string, artifacts: seq<Artifact>, acquisition: Acquisition, placed: seq<Option<Installed>>,
                          next: nat, first: nat, start: Storage)
      reads queue, install, acquisition
    {
      && acquisition.queue == queue
      && Underway(artifacts, queue.fate, first, acquisition.active, placed, next, queue.held.Keys)
      && Written(id, artifacts, placed, acquisition.landed, start, install.Storage())
    }

    lemma Begins(id: string, artifacts: seq<Artifact>, acquisition: Acquisition, placed: seq<Option<Installed>>)
      requires acquisition.queue == queue && acquisition.active == [] && acquisition.landed == [] && queue.held == map[]
      requires |placed| == |artifacts| && forall j :: 0 <= j < |placed| ==> placed[j].None?
      ensures Going(id, artifacts, acquisition, placed, 0, queue.nextId, install.Storage())
    {
      StartsEmpty(id, artifacts, queue.fate, queue.nextId, placed, install.Storage());
      hide Underway, Written;
    }

    /** What has been written when an acquisition ends, and that nothing is missing once nothing is tracked. */
    lemma Ends(id: string, artifacts: seq<Artifact>, acquisition: Acquisition, placed: seq<Option<Installed>>,
               next: nat, first: nat, start: Storage)
      requires Going(id, artifacts, acquisition, placed, next, first, start)
      ensures acquisition.HoldsExactly() && Nameable(artifacts, acquisition.landed)
      ensures install.Storage() == After(start, Landings(id, artifacts, acquisition.landed))
      ensures next == |artifacts| && acquisition.active == [] ==>
                && AllGood(artifacts, queue.fate, first) && Flattened(placed) == AllInstalled(artifacts)
                && forall j: nat :: j < |artifacts| ==> j in acquisition.landed
    {
      TrackedWithin(acquisition.active, placed, next, first);
      if next == |artifacts| && acquisition.active == [] {
        UnderwayDone(artifacts, queue.fate, first, placed, queue.held.Keys);
      }
    }

    /** Looks at one tracked transfer: placed and freed, left for later, or refused. */
    method SettleOne(id: string, artifacts: seq<Artifact>, acquisition: Acquisition, placed: seq<Option<Installed>>,
                     cursor: nat, ghost next: nat, ghost first: nat, ghost start: Storage)
      returns (placed': seq<Option<Installed>>, gone: bool, refused: Option<ApplyError>)
      requires queue.Valid() && cursor < |acquisition.active|
      requires Going(id, artifacts, acquisition, placed, next, first, start)
      modifies queue`held, acquisition`active, acquisition`landed, install`files, install`trace, this`quarantined
      ensures queue.Valid()
      ensures Going(id, artifacts, acquisition, placed', next, first, start)
      ensures refused.Some? ==> !AllGood(artifacts, queue.fate, first)
      ensures gone ==> acquisition.active == SwapRemoved(old(acquisition.active), cursor)
      ensures !gone ==> acquisition.active == old(acquisition.active) && queue.held == old(queue.held)
      ensures !gone && refused.None? ==> var ticket := acquisition.active[cursor].0;
                                         ticket in queue.held && queue.held[ticket].left > 0
    {
      hide Underway, Written, Tracked, IdsFrom, PlacedRight, AllGood, Nameable, After, Landings, Effect, Good;
      placed', gone, refused := placed, false, None;
      var (ticket, index) := acquisition.active[cursor];
      UnderwayEntry(artifacts, queue.fate, first, acquisition.active, placed, next, queue.held.Keys, cursor);
      ghost var before := install.Storage();
      var settled := Settle(id, artifacts[index], ticket);
      if settled.Err? {
        OneBad(artifacts, queue.fate, first, index);
        refused := Some(settled.error);
      } else if settled.value.Some? {
        UnderwaySettled(artifacts, queue.fate, first, acquisition.active, placed, next, queue.held.Keys, cursor);
        WrittenSettled(id, artifacts, placed, acquisition.landed, start, before, index, settled.value.value, install.Storage());
        placed' := placed[index := settled.value];
        var freed := queue.Remove(ticket);
        acquisition.active, acquisition.landed := SwapRemoved(acquisition.active, cursor), acquisition.landed + [index];
        gone := true;
      }
    }

    /** Places every landed artifact and frees its slot, stopping at the first refusal. */
    method Sweep(id: string, artifacts: seq<Artifact>, acquisition: Acquisition, placed: seq<Option<Installed>>,
                 ghost next: nat, ghost first: nat, ghost start: Storage)
      returns (placed': seq<Option<Installed>>, refused: Option<ApplyError>)
      requires queue.Valid() && Going(id, artifacts, acquisition, placed, next, first, start)
      modifies queue`held, acquisition`active, acquisition`landed, install`files, install`trace, this`quarantined
      ensures queue.Valid()
      ensures Going(id, artifacts, acquisition, placed', next, first, start)
      ensures |acquisition.active| <= |old(acquisition.active)|
      ensures refused.Some? ==> !AllGood(artifacts, queue.fate, first)
      ensures refused.None? && |acquisition.active| == |old(acquisition.active)| ==>
                && acquisition.active == old(acquisition.active) && queue.held == old(queue.held)
                && AllPending(queue.held, acquisition.active, |acquisition.active|)
    {
      assert AllPending(queue.held, acquisition.active, 0);
      hide *;
      placed', refused := placed, None;
      var cursor := 0;
      while cursor < |acquisition.active|
        invariant cursor <= |acquisition.active| <= |old(acquisition.active)| && queue.Valid() && refused.None?
        invariant Going(id, artifacts, acquisition, placed', next, first, start)
        invariant |acquisition.active| == |old(acquisition.active)| ==>
                    && acquisition.active == old(acquisition.active) && queue.held == old(queue.held)
                    && AllPending(queue.held, acquisition.active, cursor)
        decreases |acquisition.active| - cursor
      {
        var gone;
        placed', gone, refused := SettleOne(id, artifacts, acquisition, placed', cursor, next, first, start);
        if refused.Some? { return; }
        if !gone {
          OnePending(queue.held, acquisition.active, cursor);
          cursor := cursor + 1;
        }
      }
    }

    /** One turn of the loop: fill the free slots, sweep what settled, and sleep if nothing moved. */
    method Turn(id: string, artifacts: seq<Artifact>, acquisition: Acquisition, placed: seq<Option<Installed>>,
                next: nat, ghost first: nat, ghost start: Storage)
      returns (placed': seq<Option<Installed>>, next': nat, failure: Option<ApplyError>)
      requires queue.Valid() && queue.nextId == first + next && (next < |artifacts| || acquisition.active != [])
      requires Going(id, artifacts, acquisition, placed, next, first, start)
      modifies queue, acquisition`active, acquisition`landed, install`files, install`trace, this`quarantined
      ensures queue.Valid() && next <= next' <= |artifacts| && queue.nextId == first + next'
      ensures Going(id, artifacts, acquisition, placed', next', first, start)
      ensures failure.Some? ==> !AllGood(artifacts, queue.fate, first)
      ensures failure.None? ==>
                var work, work' := |old(acquisition.active)| - 2 * next, |acquisition.active| - 2 * next';
                work' < work || (work' == work && Patience(acquisition.active, queue.held, queue.relief(queue.now))
                                                  < Patience(old(acquisition.active), old(queue.held), queue.relief(old(queue.now))))
    {
      hide Underway, Written, Tracked, IdsFrom, AllGood, AllPending, After, Landings;
      ghost var active, keys := acquisition.active, queue.held.Keys;
      placed' := placed;
      UnderwayFacts(artifacts, queue.fate, first, active, placed, next, keys);
      next', failure := Fill(artifacts, acquisition, next, placed, first);
      UnderwayFilled(artifacts, queue.fate, first, active, placed, next, keys, acquisition.active, next', queue.held.Keys);
      if failure.Some? {
        OneBadDigest(artifacts, queue.fate, first, next');
        return;
      }
      var progressed, tracked := next' > next, |acquisition.active|;
      placed', failure := Sweep(id, artifacts, acquisition, placed, next', first, start);
      if failure.Some? { return; }
      if |acquisition.active| < tracked { progressed := true; }
      if !progressed {
        Rest(acquisition.active);
      }
    }

    /** With nothing moved, sleeping brings the first ticket, or the others' leaving, a tick nearer. */
    method Rest(active: seq<(nat, nat)>)
      requires queue.Valid() && AllPending(queue.held, active, |active|)
      requires active == [] ==> queue.relief(queue.now) > 0
      modifies queue
      ensures queue.Valid() && queue.nextId == old(queue.nextId) && queue.held.Keys == old(queue.held.Keys)
      ensures Patience(active, queue.held, queue.relief(queue.now))
              < Patience(active, old(queue.held), queue.relief(old(queue.now)))
    {
      queue.Sleep();
    }

    /**
     Fetches every artifact and places it, returning them in manifest order. However it ends,
     no slot is left held, and all it has written is artifacts in their places, in `order`.
     */
    method Acquire(id: string, artifacts: seq<Artifact>) returns (r: Result<seq<Installed>, ApplyError>, ghost order: seq<nat>)
      requires queue.Valid() && queue.held == map[]
      modifies queue, install`files, install`trace, this`quarantined
      ensures queue.Valid() && queue.held == map[]
      ensures r.Ok? <==> AllGood(artifacts, queue.fate, old(queue.nextId))
      ensures r.Ok? ==> r.value == AllInstalled(artifacts) && forall j: nat :: j < |artifacts| ==> j in order
      ensures Nameable(artifacts, order) && install.Storage() == After(old(install.Storage()), Landings(id, artifacts, order))
    {
      ghost var first, start := queue.nextId, install.Storage();
      var placed: seq<Option<Installed>> := seq(|artifacts|, _ => None);
      var acquisition := new Acquisition(queue);
      var next := 0;
      var failure: Option<ApplyError> := None;
      Begins(id, artifacts, acquisition, placed);
      hide *;
      while failure.None? && (next < |artifacts| || acquisition.active != [])
        invariant queue.Valid() && next <= |artifacts| && queue.nextId == first + next
        invariant Going(id, artifacts, acquisition, placed, next, first, start)
        invariant failure.Some? ==> !AllGood(artifacts, queue.fate, first)
        decreases failure.None?, 2 * (|artifacts| - next) + |acquisition.active|,
                  Patience(acquisition.active, queue.held, queue.relief(queue.now))
      {
        placed, next, failure := Turn(id, artifacts, acquisition, placed, next, first, start);
      }
      Ends(id, artifacts, acquisition, placed, next, first, start);
      order := acquisition.landed;
      if failure.Some? {
        acquisition.Drop();
        return Err(failure.value), order;
      }
      acquisition.Drop();
      r := Ok(Flattened(placed));
    }

    /** Refuses a plan two of whose artifacts want one place, naming the first pair that does. */
    method RefuseCollisions(artifacts: seq<Artifact>) returns (refused: Option<ApplyError>)
      ensures refused.None? <==> PathsDistinct(artifacts)
      ensures refused.Some? ==>
                exists i, j :: 0 <= i < j < |artifacts| && artifacts[i].path == artifacts[j].path
                               && refused == Some(Collision(artifacts[i].name, artifacts[j].name, artifacts[i].path))
    {
      var claimed: map<string, nat> := map[];
      for j := 0 to |artifacts|
        invariant forall i :: 0 <= i < j ==> artifacts[i].path in claimed
        invariant forall p :: p in claimed ==> claimed[p] < j && artifacts[claimed[p]].path == p
        invariant forall i, k :: 0 <= i < k < j ==> artifacts[i].path != artifacts[k].path
      {
        var path := artifacts[j].path;
        if path in claimed {
          return Some(Collision(artifacts[claimed[path]].name, artifacts[j].name, path));
        }
        claimed := claimed[path := j];
      }
      refused := None;
    }

    method RefuseUnsafeNames(plan: Plan) returns (refused: Option<ApplyError>)
      ensures refused.None? <==> SafeNames(plan)
    {
      if !IsHexSha256(plan.generationId) { return Some(GenerationId(plan.generationId)); }
      for k := 0 to |plan.artifacts|
        invariant forall i :: 0 <= i < k ==> IsCleanRelativePath(plan.artifacts[i].path)
      {
        var a := plan.artifacts[k];
        if !IsCleanRelativePath(a.path) { return Some(UnsafePath(a.name, a.path)); }
      }
      refused := None;
    }

    /**
     Acquires under a claim and records last; the claim goes however it ends. What reaches the disk is
     verified files, and the record after all of them or never.
     */
    method Publish(plan: Plan, disk: Answers) returns (r: Result<Generation, ApplyError>, ghost order: seq<nat>)
      requires queue.Valid() && queue.held == map[] && install.ClaimsPositive()
      modifies queue, install, this`quarantined
      ensures queue.Valid() && queue.held == map[] && install.publishing == old(install.publishing)
      ensures r.Ok? <==> PathsDistinct(plan.artifacts) && disk.directory && disk.record
                         && AllGood(plan.artifacts, queue.fate, old(queue.nextId))
      ensures r.Ok? ==> r.value == Generation(plan.generationId, AllInstalled(plan.artifacts))
      ensures Nameable(plan.artifacts, order) && (order != [] ==> PathsDistinct(plan.artifacts))
      ensures r.Ok? ==> forall j: nat :: j < |plan.artifacts| ==> j in order
      ensures install.Storage() == After(old(install.Storage()), Publication(plan.generationId, plan.artifacts, order, r.Ok?))
      ensures r.Ok? ==> forall j :: 0 <= j < |plan.artifacts| ==> LandedIn(install.files, plan.generationId, plan.artifacts[j])
      ensures OnlyVerified(old(install.files), install.files, plan.generationId, plan.artifacts)
    {
      hide Replay, Effect, Landings, Publication, OnlyVerified, LandedIn, AllGood, Sound, Resolve, PathsDistinct, AllInstalled;
      order := [];
      PublicationSteps(install.Storage(), plan.generationId, plan.artifacts, order);
      PublishedRight(install.Disk(), plan.generationId, plan.artifacts, order, false);
      ClaimThenRelease(install.publishing, plan.generationId);
      hide Nameable, Claimed, Released, install.ClaimsPositive;
      install.Claim(plan.generationId);
      var collision := RefuseCollisions(plan.artifacts);
      if collision.Some? {
        install.Release(plan.generationId);
        return Err(collision.value), order;
      }
      if !disk.directory {
        install.Release(plan.generationId);
        return Err(InstallFailed(plan.generationId)), order;
      }
      var acquired;
      acquired, order := Acquire(plan.generationId, plan.artifacts);
      PublicationSteps(old(install.Storage()), plan.generationId, plan.artifacts, order);
      PublishedRight(old(install.Disk()), plan.generationId, plan.artifacts, order, acquired.Ok? && disk.record);
      if acquired.Err? {
        install.Release(plan.generationId);
        return Err(acquired.error), order;
      }
      var g := install.WriteRecord(plan.generationId, acquired.value, disk.record);
      install.Release(plan.generationId);
      r := if g.Some? then Ok(g.value) else Err(InstallFailed(plan.generationId));
    }

    /**
     Installs a plan. One already installed is returned with nothing fetched; a failure leaves
     every record, and so every generation that resolved, as it was.
     */
    method Apply(plan: Plan, disk: Answers) returns (r: Result<Generation, ApplyError>)
      requires queue.Valid() && queue.held == map[] && install.ClaimsPositive() && completions.Valid()
      modifies queue, install, this`quarantined, completions
      ensures queue.Valid() && queue.held == map[] && install.publishing == old(install.publishing) && completions.Valid()
      ensures var installed := old(Resolve(install.Disk(), plan.generationId));
              r.Ok? <==> SafeNames(plan) && (installed.Some? || (PathsDistinct(plan.artifacts) && disk.directory && disk.record
                                             && AllGood(plan.artifacts, queue.fate, old(queue.nextId))))
      ensures r.Ok? && old(Resolve(install.Disk(), plan.generationId)).Some? ==>
                Some(r.value) == old(Resolve(install.Disk(), plan.generationId))
                && install.Disk() == old(install.Disk()) && queue.nextId == old(queue.nextId)
      ensures r.Ok? && old(Resolve(install.Disk(), plan.generationId)).None? ==>
                r.value == Generation(plan.generationId, AllInstalled(plan.artifacts))
                && Sound(install.Disk(), plan.generationId)
      ensures r.Ok? ==> Some(r.value) == Resolve(install.Disk(), plan.generationId)
      ensures r.Err? ==> install.records == old(install.records)
      ensures forall id :: id != plan.generationId ==>
                Resolve(install.Disk(), id) == old(Resolve(install.Disk(), id))
                && (old(Sound(install.Disk(), id)) ==> Sound(install.Disk(), id))
      ensures completions.Reported() ==
              if r.Ok? && r.value.id !in IdsOf(old(completions.Reported())) then old(completions.Reported()) + [r.value]
              else old(completions.Reported())
    {
      var unsafe := RefuseUnsafeNames(plan);
      if unsafe.Some? { return Err(unsafe.value); }
      var installed := Resolve(install.Disk(), plan.generationId);
      if installed.Some? {
        completions.Record(installed.value);
        return Ok(installed.value);
      }
      ghost var order;
      r, order := Publish(plan, disk);
      AppliedRight(old(install.Disk()), plan.generationId, plan.artifacts, order, r.Ok?);
      hide *;
      if r.Ok? { completions.Record(r.value); }
    }
  }

  predicate SafeNames(plan: Plan) {
    IsHexSha256(plan.generationId)
    && forall k :: 0 <= k < |plan.artifacts| ==> IsCleanRelativePath(plan.artifacts[k].path)
  }

  /**
   Whatever a publication writes leaves every other generation as whole as it was, and this one's record
   only goes up over verified files.
   */
  lemma PublishedRight(before: Disk, id: string, artifacts: seq<Artifact>, order: seq<nat>, recorded: bool)
    requires Nameable(artifacts, order)
    ensures var after := Replay(before, Publication(id, artifacts, order, recorded));
            && OnlyVerified(before.files, after.files, id, artifacts)
            && after.records == (if recorded then before.records[id := Record(RECORD_SCHEMA, id, AllInstalled(artifacts))]
                                 else before.records)
            && (PathsDistinct(artifacts) ==> forall j :: j in order ==> LandedIn(after.files, id, artifacts[j]))
            && (forall other :: other != id && Sound(before, other) ==> Sound(after, other))
  {
    FilesLand(before, id, artifacts, order);
    hide OnlyVerified, LandedIn, Sound, PathsDistinct;
    assert Landings(id, artifacts, order) + [] == Landings(id, artifacts, order);
    ReplayMore(before, Landings(id, artifacts, order), RecordWritten(id, AllInstalled(artifacts)));
    OthersSound(before, Replay(before, Publication(id, artifacts, order, recorded)), id, artifacts);
  }

  lemma AppliedRight(before: Disk, id: string, artifacts: seq<Artifact>, order: seq<nat>, recorded: bool)
    requires Nameable(artifacts, order)
    requires recorded ==> PathsDistinct(artifacts) && forall j: nat :: j < |artifacts| ==> j in order
    ensures var after := Replay(before, Publication(id, artifacts, order, recorded));
            && (recorded ==> Resolve(after, id) == Some(Generation(id, AllInstalled(artifacts))) && Sound(after, id))
            && (!recorded ==> after.records == before.records)
            && (forall other :: other != id ==> Resolve(after, other) == Resolve(before, other)
                                                && (Sound(before, other) ==> Sound(after, other)))
  {
    PublishedRight(before, id, artifacts, order, recorded);
    hide Replay, Publication, OnlyVerified;
  }

  lemma OneFileLands(before: Disk, now: Disk, id: string, artifacts: seq<Artifact>, order: seq<nat>, j: nat)
    requires j < |artifacts| && artifacts[j].sha256.Sha256? && forall k :: k in order ==> k < |artifacts|
    requires OnlyVerified(before.files, now.files, id, artifacts)
    requires PathsDistinct(artifacts) ==> forall k :: k in order ==> LandedIn(now.files, id, artifacts[k])
    ensures var after := Effect(now, FileLanded(Place(id, artifacts[j].path), artifacts[j].sha256.of));
            && OnlyVerified(before.files, after.files, id, artifacts) && after.records == now.records
            && (PathsDistinct(artifacts) ==> forall k :: k in order + [j] ==> LandedIn(after.files, id, artifacts[k]))
  {
    assert artifacts[j] in artifacts;
  }

  lemma {:induction false} FilesLand(before: Disk, id: string, artifacts: seq<Artifact>, order: seq<nat>)
    requires Nameable(artifacts, order)
    ensures var after := Replay(before, Landings(id, artifacts, order));
            && OnlyVerified(before.files, after.files, id, artifacts) && after.records == before.records
            && (PathsDistinct(artifacts) ==> forall j :: j in order ==> LandedIn(after.files, id, artifacts[j]))
  {
    if order != [] {
      var n := |order| - 1;
      assert order == order[..n] + [order[n]];
      FilesLand(before, id, artifacts, order[..n]);
      LandingsMore(Storage(before, []), id, artifacts, order[..n], order[n]);
      OneFileLands(before, Replay(before, Landings(id, artifacts, order[..n])), id, artifacts, order[..n], order[n]);
      hide Landings, OnlyVerified, LandedIn, Effect, PathsDistinct;
    }
  }

  /** Verified files of one generation leave every other one as whole as it was. */
  lemma OthersSound(before: Disk, after: Disk, id: string, artifacts: seq<Artifact>)
    requires OnlyVerified(before.files, after.files, id, artifacts)
    requires forall other :: other != id ==> Resolve(after, other) == Resolve(before, other)
    ensures forall other :: other != id && Sound(before, other) ==> Sound(after, other)
  {
  }

  /** Ticks until something must change: the first ticket settling, or the others leaving a slot. */
  function Patience(active: seq<(nat, nat)>, held: map<nat, Ticket>, relief: nat): nat {
    if active == [] then relief else if active[0].0 in held then held[active[0].0].left else 0
  }

  function Flattened<T>(s: seq<Option<T>>): seq<T> {
    if s == [] then []
    else (if s[0].Some? then [s[0].value] else []) + Flattened(s[1..])
  }

  lemma StartsEmpty(id: string, artifacts: seq<Artifact>, fate: nat -> Fate, first: nat, placed: seq<Option<Installed>>,
                    start: Storage)
    requires |placed| == |artifacts| && forall j :: 0 <= j < |placed| ==> placed[j].None?
    ensures Underway(artifacts, fate, first, [], placed, 0, {}) && Written(id, artifacts, placed, [], start, start)
  {
    AfterMore(start, [], RecordRemoved(id));
    assert Landings(id, artifacts, []) == [];
  }

  lemma UnderwayFacts(artifacts: seq<Artifact>, fate: nat -> Fate, first: nat, active: seq<(nat, nat)>,
                      placed: seq<Option<Installed>>, next: nat, keys: set<nat>)
    requires Underway(artifacts, fate, first, active, placed, next, keys)
    ensures |placed| == |artifacts| && Tracked(active, placed, next, first) && keys == IdsFrom(active, 0)
    ensures active == [] ==> keys == {}
  {
  }

  lemma UnderwayFilled(artifacts: seq<Artifact>, fate: nat -> Fate, first: nat, active: seq<(nat, nat)>,
                       placed: seq<Option<Installed>>, next: nat, keys: set<nat>,
                       active': seq<(nat, nat)>, next': nat, keys': set<nat>)
    requires Underway(artifacts, fate, first, active, placed, next, keys)
    requires Tracked(active', placed, next', first) && keys' == IdsFrom(active', 0)
    ensures Underway(artifacts, fate, first, active', placed, next', keys')
  {
  }

  /** With every index queued and none tracked, everything is placed, right and in order. */
  lemma UnderwayDone(artifacts: seq<Artifact>, fate: nat -> Fate, first: nat, placed: seq<Option<Installed>>, keys: set<nat>)
    requires Underway(artifacts, fate, first, [], placed, |artifacts|, keys)
    ensures AllGood(artifacts, fate, first) && Flattened(placed) == AllInstalled(artifacts) && keys == {}
    ensures |placed| == |artifacts| && forall j :: 0 <= j < |placed| ==> placed[j].Some?
  {
    forall j | 0 <= j < |placed| ensures placed[j] == Some(InstalledOf(artifacts[j])) { assert !Tracks([], j); }
    AllPlaced(placed, AllInstalled(artifacts));
  }

  /** One more artifact in its place. */
  lemma WrittenSettled(id: string, artifacts: seq<Artifact>, placed: seq<Option<Installed>>, landed: seq<nat>,
                       start: Storage, before: Storage, index: nat, i: Installed, after: Storage)
    requires Written(id, artifacts, placed, landed, start, before)
    requires index < |artifacts| && placed[index].None? && InPlace(before, id, artifacts[index], after)
    ensures Written(id, artifacts, placed[index := Some(i)], landed + [index], start, after)
  {
    LandingsMore(start, id, artifacts, landed, index);
    hide After, Landings, Effect;
    var placed' := placed[index := Some(i)];
    forall j | 0 <= j < |placed'| ensures placed'[j].Some? <==> j in landed + [index] {
      assert j != index ==> placed'[j] == placed[j];
    }
  }

  lemma {:induction false} AllPlaced<T>(placed: seq<Option<T>>, values: seq<T>)
    requires |placed| == |values| && forall j :: 0 <= j < |placed| ==> placed[j] == Some(values[j])
    ensures Flattened(placed) == values
  {
    if placed != [] {
      AllPlaced(placed[1..], values[1..]);
      assert values == [values[0]] + values[1..];
    }
  }

  lemma OneBadDigest(artifacts: seq<Artifact>, fate: nat -> Fate, first: nat, j: nat)
    requires j < |artifacts| && !artifacts[j].sha256.Sha256?
    ensures !AllGood(artifacts, fate, first)
  {
    OneBad(artifacts, fate, first, j);
  }

  ghost predicate AllPending(held: map<nat, Ticket>, active: seq<(nat, nat)>, n: nat) {
    n <= |active| && forall k :: 0 <= k < n ==> active[k].0 in held && held[active[k].0].left > 0
  }

  lemma OnePending(held: map<nat, Ticket>, active: seq<(nat, nat)>, n: nat)
    requires n < |active| && active[n].0 in held && held[active[n].0].left > 0
    ensures AllPending(held, active, n) ==> AllPending(held, active, n + 1)
  {
  }

  lemma OneBad(artifacts: seq<Artifact>, fate: nat -> Fate, first: nat, j: nat)
    requires j < |artifacts| && !Good(artifacts[j], fate(first + j))
    ensures !AllGood(artifacts, fate, first)
  {
  }

  lemma UnderwayEntry(artifacts: seq<Artifact>, fate: nat -> Fate, first: nat, active: seq<(nat, nat)>,
                      placed: seq<Option<Installed>>, next: nat, keys: set<nat>, k: nat)
    requires Underway(artifacts, fate, first, active, placed, next, keys) && k < |active|
    ensures active[k].1 < |artifacts| == |placed| && active[k].0 in keys && active[k].0 == first + active[k].1
    ensures placed[active[k].1].None?
  {
  }

  /** Placing a good artifact and freeing its slot keeps the acquisition in order. */
  lemma UnderwaySettled(artifacts: seq<Artifact>, fate: nat -> Fate, first: nat, active: seq<(nat, nat)>,
                        placed: seq<Option<Installed>>, next: nat, keys: set<nat>, k: nat)
    requires Underway(artifacts, fate, first, active, placed, next, keys)
    requires k < |active| && active[k].1 < |artifacts| && Good(artifacts[active[k].1], fate(active[k].0))
    ensures Underway(artifacts, fate, first, SwapRemoved(active, k),
                     placed[active[k].1 := Some(InstalledOf(artifacts[active[k].1]))], next, keys - {active[k].0})
  {
    Moved(active, placed, next, first, k, InstalledOf(artifacts[active[k].1]));
    TrackedWithin(active, placed, next, first);
    IdsSwapped(active, k);
    hide Tracked, IdsFrom, Tracks;
  }

  lemma TrackedWithin(active: seq<(nat, nat)>, placed: seq<Option<Installed>>, next: nat, first: nat)
    requires Tracked(active, placed, next, first)
    ensures next <= |placed|
    ensures forall k :: 0 <= k < |active| ==> active[k].1 < next && active[k].0 == first + active[k].1
    ensures forall k, l :: 0 <= k < l < |active| ==> active[k].0 != active[l].0
  {
  }

  lemma IdsJoined(active: seq<(nat, nat)>, entry: (nat, nat))
    ensures IdsFrom(active + [entry], 0) == IdsFrom(active, 0) + {entry.0}
  {
    var all := active + [entry];
    assert all[|active|] == entry;
    forall x | x in IdsFrom(active, 0) ensures x in IdsFrom(all, 0) {
      var l :| 0 <= l < |active| && active[l].0 == x;
      assert all[l].0 == x;
    }
  }

  /** Queueing the next index keeps every queued index tracked or placed once. */
  lemma Joined(active: seq<(nat, nat)>, placed: seq<Option<Installed>>, next: nat, first: nat)
    requires Tracked(active, placed, next, first) && next < |placed|
    ensures Tracked(active + [(first + next, next)], placed, next + 1, first)
  {
    var all := active + [(first + next, next)];
    assert all[|active|].1 == next;
    forall j | 0 <= j < next ensures Tracks(all, j) <==> Tracks(active, j) {
      if Tracks(active, j) {
        var k :| 0 <= k < |active| && active[k].1 == j;
        assert all[k].1 == j;
      }
    }
  }

  /** Settling one index moves it from tracked to placed. */
  lemma Moved(active: seq<(nat, nat)>, placed: seq<Option<Installed>>, next: nat, first: nat, k: nat, i: Installed)
    requires Tracked(active, placed, next, first) && k < |active|
    ensures Tracked(SwapRemoved(active, k), placed[active[k].1 := Some(i)], next, first)
  {
  }

  lemma IdsSwapped(active: seq<(nat, nat)>, k: nat)
    requires k < |active| && forall a, b :: 0 <= a < b < |active| ==> active[a].0 != active[b].0
    ensures IdsFrom(SwapRemoved(active, k), 0) == IdsFrom(active, 0) - {active[k].0}
  {
  }
}
