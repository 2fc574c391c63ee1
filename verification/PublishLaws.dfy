/** What a client of a channel sees while publishes and re-signs of it run, die and run again. */
module PublishLaws {
  import opened Wrappers
  import opened ChannelNames
  import opened PublishChain

  /** The files of a view, each where its pin looks for it, and the manifest if one is named. */
  ghost predicate Holds(dir: Directory, view: View)
    requires Linked(view)
  {
    && Versioned(Snapshot, view.snapshot.version) in dir
    && dir[Versioned(Snapshot, view.snapshot.version)] == view.snapshot
    && Versioned(Targets, view.targets.version) in dir
    && dir[Versioned(Targets, view.targets.version)] == view.targets
  }

  ghost predicate HasManifest(dir: Directory, view: View) {
    Generation(view).Some? ==> Download(Generation(view).value, dir) == Some(Generation(view).value.of)
  }

  /** A walk succeeds exactly on a linked chain whose files are all in place. */
  lemma WalkFindsExactly(timestamp: File, dir: Directory, view: View)
    ensures WalkFrom(timestamp, dir) == Some(view) <==> Linked(view) && view.timestamp == timestamp && Holds(dir, view)
  {
  }

  lemma ServesExactly(dir: Directory, view: View)
    ensures Serves(dir, view) <==>
              Plain(Timestamp) in dir && Linked(view) && dir[Plain(Timestamp)] == view.timestamp && Holds(dir, view)
              && HasManifest(dir, view)
  {
  }

  // ----- writes that leave a view alone -----

  /** Puts no other file under a name the view reads. */
  ghost predicate Spares(view: View, w: Write)
    requires Linked(view)
  {
    && (w.name == Versioned(Snapshot, view.snapshot.version) ==> w.file == view.snapshot)
    && (w.name == Versioned(Targets, view.targets.version) ==> w.file == view.targets)
    && (Generation(view).Some? && w.name == Target(Generation(view).value) ==> Digest(w.file) == Generation(view).value)
  }

  lemma {:induction false} SparedStays(dir: Directory, view: View, writes: seq<Write>)
    requires Linked(view) && Holds(dir, view)
    requires forall w <- writes :: Spares(view, w)
    ensures Holds(Applied(dir, writes), view)
    ensures HasManifest(dir, view) ==> HasManifest(Applied(dir, writes), view)
    decreases |writes|
  {
    if writes != [] {
      assert Spares(view, writes[|writes| - 1]);
      SparedStays(dir, view, writes[..|writes| - 1]);
    }
  }

  lemma {:induction false} NameStays(dir: Directory, name: Path, writes: seq<Write>)
    requires forall w <- writes :: w.name != name
    ensures name in Applied(dir, writes) <==> name in dir
    ensures name in dir ==> Applied(dir, writes)[name] == dir[name]
    decreases |writes|
  {
    if writes != [] {
      NameStays(dir, name, writes[..|writes| - 1]);
    }
  }

  // ----- one run -----

  /** The versions a view carries, in the order a client compares them. */
  function Versions(view: View): (nat, nat, nat) {
    (VersionOf(view.timestamp), VersionOf(view.snapshot), VersionOf(view.targets))
  }

  function VersionOf(f: File): nat {
    match f
    case TargetsFile(version, _, _, _) => version
    case SnapshotFile(version, _, _) => version
    case TimestampFile(version, _, _) => version
    case _ => 0
  }

  /** The timestamp and the snapshot it names by version are there and pin what they should, whatever their digests. */
  ghost predicate Followable(dir: Directory) {
    && Plain(Timestamp) in dir && dir[Plain(Timestamp)].TimestampFile? && Snapshot in dir[Plain(Timestamp)].meta
    && (var name := Versioned(Snapshot, dir[Plain(Timestamp)].meta[Snapshot].version);
        name in dir && dir[name].SnapshotFile? && Targets in dir[name].meta)
  }

  /**
   What is read before a write: versions alone are followed, each goes up by one, and an error names what was wrong:
   a file that is missing, of another kind, without its pin, or at the last version.
   */
  lemma NextIsReadExactly(dir: Directory)
    ensures match ReadNext(dir)
            case Ok(next) =>
              && Followable(dir)
              && (var timestamp := dir[Plain(Timestamp)];
                  var snapshot := dir[Versioned(Snapshot, timestamp.meta[Snapshot].version)];
                  && next.timestamp == timestamp.version + 1 <= U64_MAX
                  && next.snapshot == snapshot.version + 1 <= U64_MAX
                  && next.targets == snapshot.meta[Targets].version + 1 <= U64_MAX
                  && next.currentTargets == Versioned(Targets, snapshot.meta[Targets].version))
            case Err(VersionExhausted(name, version)) =>
              Followable(dir) && version >= U64_MAX && name in dir && (name == Plain(Timestamp) || dir[name].SnapshotFile?)
            case Err(Missing(name)) => !Followable(dir) && name !in dir
            case Err(Malformed(name)) =>
              && !Followable(dir) && name in dir
              && (if name == Plain(Timestamp) then !dir[name].TimestampFile? else !dir[name].SnapshotFile?)
            case Err(MissingPin(name, role)) =>
              && !Followable(dir) && name in dir
              && (if name == Plain(Timestamp) then role == Snapshot && dir[name].TimestampFile? && Snapshot !in dir[name].meta
                  else role == Targets && dir[name].SnapshotFile? && Targets !in dir[name].meta)
            case Err(_) => false
    ensures Followable(dir) ==> ReadNext(dir).Ok? || ReadNext(dir).error.VersionExhausted?
  {
  }

  /** Why a run cannot start: a manifest that does not parse, what cannot be read, or, for a re-sign, its targets. */
  lemma JobFailsExactly(dir: Directory, job: Job)
    ensures JobChain(dir, job).Err? <==>
              || (job.Publish? && !job.manifest.ManifestFile?)
              || ReadNext(dir).Err?
              || (job.Resign? && var name := ReadNext(dir).value.currentTargets; name !in dir || !dir[name].TargetsFile?)
    ensures JobChain(dir, job).Err? ==>
              var e := JobChain(dir, job).error;
              if job.Publish? && !job.manifest.ManifestFile? then e == BadManifest
              else if ReadNext(dir).Err? then e == ReadNext(dir).error
              else var name := ReadNext(dir).value.currentTargets; e == if name in dir then Malformed(name) else Missing(name)
  {
  }

  /** Over a walkable channel a run starts exactly when its manifest parses and no version is at its last. */
  lemma JobStartsExactly(dir: Directory, view: View, job: Job)
    requires Walk(dir) == Some(view)
    ensures JobChain(dir, job).Ok? <==>
              && (job.Publish? ==> job.manifest.ManifestFile?)
              && Versions(view).0 < U64_MAX && Versions(view).1 < U64_MAX && Versions(view).2 < U64_MAX
  {
  }

  /** A run advances each role by one. A publish names its manifest alone; a re-sign names what was named. */
  lemma JobAdvances(dir: Directory, current: View, job: Job, successor: View)
    requires Walk(dir) == Some(current) && JobChain(dir, job) == Ok(successor)
    ensures Versions(successor) == (Versions(current).0 + 1, Versions(current).1 + 1, Versions(current).2 + 1)
    ensures job.Publish? ==> successor.targets.targets == map[TARGET_PATH := Digest(job.manifest)]
    ensures job.Publish? ==> successor.targets.extra == ""
    ensures job.Resign? ==> Generation(successor) == Generation(current)
    ensures job.Resign? ==> successor.targets.targets == current.targets.targets && successor.targets.extra == current.targets.extra
    ensures successor.targets.expires == job.expiries.targets && successor.snapshot.expires == job.expiries.snapshot
    ensures successor.timestamp.expires == job.expiries.timestamp
  {
  }

  lemma JobSpares(dir: Directory, current: View, job: Job, view: View)
    requires Walk(dir) == Some(current) && JobChain(dir, job).Ok? && Linked(view)
    requires Versions(view).1 <= Versions(current).1 && Versions(view).2 <= Versions(current).2
    ensures forall w <- JobWrites(dir, job) :: Spares(view, w)
  {
    JobAdvances(dir, current, job, JobChain(dir, job).value);
  }

  lemma JobEndsWithTimestamp(dir: Directory, job: Job)
    requires JobChain(dir, job).Ok?
    ensures var writes := JobWrites(dir, job);
            && |writes| > 0
            && writes[|writes| - 1] == Write(Plain(Timestamp), JobChain(dir, job).value.timestamp)
            && forall w <- writes[..|writes| - 1] :: w.name != Plain(Timestamp)
  {
  }

  /** A run cut anywhere before its last write leaves what was served; its last write serves the new chain. */
  lemma CutShowsOldOrNew(dir: Directory, current: View, job: Job, landed: nat)
    requires Serves(dir, current)
    ensures var chain := JobChain(dir, job);
            Serves(CutOff(dir, job, landed), if chain.Ok? && landed >= |JobWrites(dir, job)| then chain.value else current)
  {
    if JobChain(dir, job).Ok? {
      var successor := JobChain(dir, job).value;
      var writes := JobWrites(dir, job);
      JobEndsWithTimestamp(dir, job);
      if landed < |writes| {
        JobSpares(dir, current, job, current);
        SparedStays(dir, current, writes[..landed]);
        NameStays(dir, Plain(Timestamp), writes[..landed]);
      } else {
        NewIsServed(dir, current, job);
      }
    }
  }

  lemma NewIsServed(dir: Directory, current: View, job: Job)
    requires Serves(dir, current) && JobChain(dir, job).Ok?
    ensures Serves(Applied(dir, JobWrites(dir, job)), JobChain(dir, job).value)
  {
    var successor := JobChain(dir, job).value;
    var writes := JobWrites(dir, job);
    var n := |writes|;
    JobAdvances(dir, current, job, successor);
    var base := Applied(dir, writes[..n - 3]);
    assert writes[n - 3..] == ChainWrites(successor);
    assert writes == writes[..n - 3] + ChainWrites(successor);
    AppliedAppend(dir, writes[..n - 3], ChainWrites(successor));
    ChainLands(base, successor);
    if job.Publish? {
      assert writes[..1] == [Write(Target(Digest(job.manifest)), job.manifest)];
      assert [Write(Target(Digest(job.manifest)), job.manifest)][..0] == [];
      assert base[Target(Digest(job.manifest))] == job.manifest;
    } else {
      assert writes[..0] == [];
    }
  }

  lemma ChainLands(dir: Directory, view: View)
    requires Linked(view)
    ensures var after := Applied(dir, ChainWrites(view));
            && Walk(after) == Some(view)
            && forall name: Path :: name.Target? ==> (name in after <==> name in dir) && (name in dir ==> after[name] == dir[name])
  {
    var w := ChainWrites(view);
    assert w[..3] == w && w[..2][..1] == w[..1] && w[..1][..0] == [] && w[..3][..2] == w[..2];
    assert Applied(dir, w[..1]) == dir[w[0].name := w[0].file];
    assert Applied(dir, w[..2]) == Applied(dir, w[..1])[w[1].name := w[1].file];
    assert Applied(dir, w) == Applied(dir, w[..2])[w[2].name := w[2].file];
  }

  // ----- any sequence of runs -----

  datatype Attempt = Attempt(job: Job, landed: nat)

  /** A channel and every view its timestamp has named, oldest first. */
  datatype History = History(files: Directory, committed: seq<View>)

  function Begin(dir: Directory, first: View): History { History(dir, [first]) }

  function Attempted(h: History, a: Attempt): History {
    var chain := JobChain(h.files, a.job);
    History(CutOff(h.files, a.job, a.landed),
            if chain.Ok? && a.landed >= |JobWrites(h.files, a.job)| then h.committed + [chain.value] else h.committed)
  }

  function After(h: History, attempts: seq<Attempt>): History {
    if attempts == [] then h else Attempted(After(h, attempts[..|attempts| - 1]), attempts[|attempts| - 1])
  }

  /** A view a client could still be walking: its files are where its pins look for them. */
  ghost predicate Walkable(dir: Directory, view: View) {
    Linked(view) && Holds(dir, view) && HasManifest(dir, view)
  }

  ghost predicate Coherent(h: History) {
    && |h.committed| > 0
    && Serves(h.files, h.committed[|h.committed| - 1])
    && (forall view <- h.committed :: Walkable(h.files, view))
    && (forall i, j :: 0 <= i < j < |h.committed| ==> Older(h.committed[i], h.committed[j]))
  }

  /** Older by as much in every role. */
  ghost predicate Older(a: View, b: View) {
    && Versions(a).0 < Versions(b).0
    && Versions(a).1 < Versions(b).1
    && Versions(a).2 < Versions(b).2
  }

  /** A channel a client can follow, whatever else its directory holds, is where a history may begin. */
  lemma BeginsCoherent(dir: Directory, first: View)
    ensures Coherent(Begin(dir, first)) <==> Serves(dir, first)
  {
    ServesExactly(dir, first);
  }

  lemma AttemptKeepsCoherent(h: History, a: Attempt)
    requires Coherent(h)
    ensures Coherent(Attempted(h, a)) && h.committed <= Attempted(h, a).committed
  {
    var last := h.committed[|h.committed| - 1];
    var dir := h.files;
    CutShowsOldOrNew(dir, last, a.job, a.landed);
    var after := Attempted(h, a);
    if JobChain(dir, a.job).Ok? {
      var writes := JobWrites(dir, a.job);
      var n := if a.landed < |writes| then a.landed else |writes|;
      assert writes[..|writes|] == writes;
      forall view <- h.committed ensures Walkable(after.files, view) {
        JobSpares(dir, last, a.job, view);
        SparedStays(dir, view, writes[..n]);
      }
      JobAdvances(dir, last, a.job, JobChain(dir, a.job).value);
      ServesExactly(after.files, after.committed[|after.committed| - 1]);
    }
  }

  /** After any runs cut anywhere: the newest commit is served whole, every older one can still be walked, versions rise. */
  lemma {:induction false} RunsKeepCoherent(h: History, attempts: seq<Attempt>)
    requires Coherent(h)
    ensures Coherent(After(h, attempts)) && h.committed <= After(h, attempts).committed
    decreases |attempts|
  {
    if attempts != [] {
      RunsKeepCoherent(h, attempts[..|attempts| - 1]);
      AttemptKeepsCoherent(After(h, attempts[..|attempts| - 1]), attempts[|attempts| - 1]);
    }
  }

  /** What a channel offers for download: the targets its newest view lists. */
  function Listed(h: History): map<string, Digest> {
    if h.committed == [] then map[]
    else
      var targets := h.committed[|h.committed| - 1].targets;
      if targets.TargetsFile? then targets.targets else map[]
  }

  lemma ResignKeepsListed(h: History, a: Attempt)
    requires Coherent(h) && a.job.Resign?
    ensures Listed(Attempted(h, a)) == Listed(h)
  {
  }

  /** Re-signs alone never change anything a channel lists, and so never the generation it names. */
  lemma {:induction false} ResignsKeepListed(h: History, attempts: seq<Attempt>)
    requires Coherent(h) && forall a <- attempts :: a.job.Resign?
    ensures Listed(After(h, attempts)) == Listed(h)
    decreases |attempts|
  {
    hide Coherent, Attempted, Listed;
    if attempts != [] {
      var before := attempts[..|attempts| - 1];
      ResignsKeepListed(h, before);
      RunsKeepCoherent(h, before);
      ResignKeepsListed(After(h, before), attempts[|attempts| - 1]);
    }
  }

  // ----- a client between writes -----

  /** A moment of a run of attempts: `write` writes into attempt `attempt`. */
  datatype Moment = Moment(attempt: nat, write: nat)

  ghost predicate InRun(attempts: seq<Attempt>, m: Moment) {
    m.attempt < |attempts| && m.write <= attempts[m.attempt].landed
  }

  ghost predicate NotAfter(m: Moment, n: Moment) {
    m.attempt < n.attempt || (m.attempt == n.attempt && m.write <= n.write)
  }

  function At(h: History, attempts: seq<Attempt>, m: Moment): History
    requires m.attempt < |attempts|
  {
    Attempted(After(h, attempts[..m.attempt]), Attempt(attempts[m.attempt].job, m.write))
  }

  lemma LandingMoreOnlyAdds(h: History, job: Job, few: nat, more: nat)
    requires few <= more
    ensures Attempted(h, Attempt(job, few)).committed <= Attempted(h, Attempt(job, more)).committed
  {
  }

  lemma MomentsOnlyAdd(h: History, attempts: seq<Attempt>, m: Moment, n: Moment)
    requires Coherent(h) && InRun(attempts, m) && InRun(attempts, n) && NotAfter(m, n)
    ensures Coherent(At(h, attempts, m)) && Coherent(At(h, attempts, n))
    ensures At(h, attempts, m).committed <= At(h, attempts, n).committed
  {
    hide Coherent, Attempted, After;
    var before := After(h, attempts[..m.attempt]);
    RunsKeepCoherent(h, attempts[..m.attempt]);
    RunsKeepCoherent(h, attempts[..n.attempt]);
    AttemptKeepsCoherent(before, Attempt(attempts[m.attempt].job, m.write));
    AttemptKeepsCoherent(After(h, attempts[..n.attempt]), Attempt(attempts[n.attempt].job, n.write));
    if m.attempt < n.attempt {
      var upTo := attempts[..m.attempt + 1];
      LandingMoreOnlyAdds(before, attempts[m.attempt].job, m.write, attempts[m.attempt].landed);
      AfterOneMore(h, attempts, m.attempt);
      RunsExtend(h, attempts[..n.attempt], m.attempt + 1);
      assert attempts[..n.attempt][..m.attempt + 1] == upTo;
    } else {
      LandingMoreOnlyAdds(before, attempts[m.attempt].job, m.write, n.write);
    }
  }

  lemma AfterOneMore(h: History, attempts: seq<Attempt>, k: nat)
    requires k < |attempts|
    ensures After(h, attempts[..k + 1]) == Attempted(After(h, attempts[..k]), attempts[k])
  {
    assert attempts[..k + 1][..k] == attempts[..k];
  }

  lemma {:induction false} RunsExtend(h: History, attempts: seq<Attempt>, k: nat)
    requires Coherent(h) && k <= |attempts|
    ensures After(h, attempts[..k]).committed <= After(h, attempts).committed
    decreases |attempts|
  {
    if k == |attempts| {
      assert attempts[..k] == attempts;
    } else {
      var shorter := attempts[..|attempts| - 1];
      RunsExtend(h, shorter, k);
      assert shorter[..k] == attempts[..k];
      RunsKeepCoherent(h, shorter);
      AttemptKeepsCoherent(After(h, shorter), attempts[|attempts| - 1]);
    }
  }

  /**
   A client fetches its four files at four moments, writes landing and runs dying in between. It ends
   with exactly the channel as served when it fetched the timestamp.
   */
  lemma SlowClientSeesOneView(h: History, attempts: seq<Attempt>, t: Moment, s: Moment, g: Moment, m: Moment)
    requires Coherent(h) && InRun(attempts, t) && InRun(attempts, s) && InRun(attempts, g) && InRun(attempts, m)
    requires NotAfter(t, s) && NotAfter(s, g) && NotAfter(g, m)
    ensures Walk(At(h, attempts, t).files).Some?
    ensures var view := Walk(At(h, attempts, t).files).value;
            && Linked(view)
            && Pinned(At(h, attempts, s).files, Snapshot, view.timestamp.meta[Snapshot]) == Some(view.snapshot)
            && Pinned(At(h, attempts, g).files, Targets, view.snapshot.meta[Targets]) == Some(view.targets)
            && HasManifest(At(h, attempts, m).files, view)
  {
    hide At, Coherent, Walk, WalkFrom;
    MomentsOnlyAdd(h, attempts, t, s);
    MomentsOnlyAdd(h, attempts, t, g);
    MomentsOnlyAdd(h, attempts, t, m);
    var seen := At(h, attempts, t).committed;
    NewestIsServed(At(h, attempts, t));
    var view := seen[|seen| - 1];
    StillWalkable(At(h, attempts, s), seen, view);
    StillWalkable(At(h, attempts, g), seen, view);
    StillWalkable(At(h, attempts, m), seen, view);
  }

  lemma NewestIsServed(h: History)
    requires Coherent(h)
    ensures h.committed != [] && Walk(h.files) == Some(h.committed[|h.committed| - 1])
  {
  }

  lemma StillWalkable(h: History, seen: seq<View>, view: View)
    requires Coherent(h) && seen <= h.committed && view in seen
    ensures Walkable(h.files, view)
    ensures Pinned(h.files, Snapshot, view.timestamp.meta[Snapshot]) == Some(view.snapshot)
    ensures Pinned(h.files, Targets, view.snapshot.meta[Targets]) == Some(view.targets)
  {
    assert view in h.committed;
  }

  // ----- pulling a served chain into a workspace -----

  /**
   A pull writes the three files a client verified in the chain's own order. Cut anywhere it leaves the
   workspace's own chain walkable exactly when the two agree wherever their versions are the same.
   */
  lemma PullKeepsChainExactly(dir: Directory, local: View, served: View)
    requires Walk(dir) == Some(local) && Linked(served)
    ensures (forall k: nat :: k < 3 ==> Walk(Applied(dir, ChainWrites(served)[..k])) == Some(local))
            <==> && (Versions(served).1 == Versions(local).1 ==> served.snapshot == local.snapshot)
                 && (Versions(served).2 == Versions(local).2 ==> served.targets == local.targets)
    ensures Walk(Applied(dir, ChainWrites(served))) == Some(served)
  {
    ChainLands(dir, served);
    var w := ChainWrites(served);
    var d1 := dir[w[0].name := w[0].file];
    var d2 := d1[w[1].name := w[1].file];
    assert w[..0] == [] && w[..1][..0] == [] && w[..2][..1] == w[..1];
    assert Applied(dir, w[..0]) == dir && Applied(dir, w[..1]) == d1 && Applied(dir, w[..2]) == d2;
    assert Walk(Applied(dir, w[..0])) == Some(local);
    WalkFindsExactly(local.timestamp, d1, local);
    WalkFindsExactly(local.timestamp, d2, local);
    assert Walk(d1) == Some(local) && Walk(d2) == Some(local)
           <==> && (Versions(served).1 == Versions(local).1 ==> served.snapshot == local.snapshot)
                && (Versions(served).2 == Versions(local).2 ==> served.targets == local.targets);
  }
}
