/**
 A channel's online metadata chain: what a client reads off it, what a write supersedes, and how a
 write is committed.

 A digest wraps the file it was taken of, so two digests are equal exactly when their files are.
 Signatures are not part of this model: every file here verifies. A workspace's two directories are
 one namespace, because no metadata name is ever a target's name.
 */
module PublishChain {
  import opened Wrappers
  import opened ChannelNames

  datatype File =
    | ManifestFile(source: string, release: nat)
    | TargetsFile(version: nat, expires: int, targets: map<string, Digest>, extra: string)
    | SnapshotFile(version: nat, expires: int, meta: map<Role, MetaPin>)
    | TimestampFile(version: nat, expires: int, meta: map<Role, MetaPin>)
    | OtherFile(text: string)

  datatype Digest = Digest(of: File)

  datatype MetaPin = MetaPin(version: nat, digest: Digest)

  type Path = Name<Digest>

  type Directory = map<Path, File>

  datatype Write = Write(name: Path, file: File)

  const U64_MAX: nat := 0xFFFF_FFFF_FFFF_FFFF

  const TARGET_PATH := "manifest.json"

  // ----- what a client reads -----

  /** A chain of three files, each naming the next by version and digest. */
  datatype View = View(timestamp: File, snapshot: File, targets: File)

  ghost predicate Linked(view: View) {
    && view.timestamp.TimestampFile?
    && view.snapshot.SnapshotFile?
    && view.targets.TargetsFile?
    && Snapshot in view.timestamp.meta
    && view.timestamp.meta[Snapshot] == MetaPin(view.snapshot.version, Digest(view.snapshot))
    && Targets in view.snapshot.meta
    && view.snapshot.meta[Targets] == MetaPin(view.targets.version, Digest(view.targets))
  }

  /** What the directory serves under a pinned versioned name, if it is what the pin says. */
  function Pinned(dir: Directory, role: Role, pin: MetaPin): Option<File> {
    var name := Versioned(role, pin.version);
    if name !in dir || Digest(dir[name]) != pin.digest then None
    else match dir[name]
         case SnapshotFile(version, _, _) =>
           if role == Snapshot && version == pin.version then Some(dir[name]) else None
         case TargetsFile(version, _, _, _) =>
           if role == Targets && version == pin.version then Some(dir[name]) else None
         case _ => None
  }

  /** The client's walk from a timestamp it fetched: sections 5.5 and 5.6 of the TUF specification. */
  function WalkFrom(timestamp: File, dir: Directory): Option<View> {
    if !timestamp.TimestampFile? || Snapshot !in timestamp.meta then None
    else match Pinned(dir, Snapshot, timestamp.meta[Snapshot])
         case None => None
         case Some(snapshot) =>
           if !snapshot.SnapshotFile? || Targets !in snapshot.meta then None
           else match Pinned(dir, Targets, snapshot.meta[Targets])
                case None => None
                case Some(targets) => Some(View(timestamp, snapshot, targets))
  }

  function Walk(dir: Directory): Option<View> {
    if Plain(Timestamp) in dir then WalkFrom(dir[Plain(Timestamp)], dir) else None
  }

  /** The digest a view lists for the manifest: the generation it names. */
  function Generation(view: View): Option<Digest> {
    if view.targets.TargetsFile? && TARGET_PATH in view.targets.targets then Some(view.targets.targets[TARGET_PATH])
    else None
  }

  function Download(digest: Digest, dir: Directory): Option<File> {
    if Target(digest) in dir && Digest(dir[Target(digest)]) == digest then Some(dir[Target(digest)]) else None
  }

  /** A channel a client can follow to the end: the chain, and the manifest if it names one. */
  ghost predicate Serves(dir: Directory, view: View) {
    && Walk(dir) == Some(view)
    && (Generation(view).Some? ==> Download(Generation(view).value, dir).Some?)
  }

  // ----- reading what a write supersedes -----

  datatype Error =
    | Missing(name: Path)
    | Malformed(name: Path)
    | MissingPin(name: Path, role: Role)
    | VersionExhausted(name: Path, version: nat)
    | BadManifest
    | WriteFailed(name: Path)

  datatype Next = Next(targets: nat, snapshot: nat, timestamp: nat, currentTargets: Path)

  function NextVersion(version: nat, name: Path): Result<nat, Error> {
    if version < U64_MAX then Ok(version + 1) else Err(VersionExhausted(name, version))
  }

  /** Follows versions only: neither a digest nor a pinned file's own version is compared. */
  function ReadNext(dir: Directory): Result<Next, Error> {
    var timestampName := Plain(Timestamp);
    if timestampName !in dir then Err(Missing(timestampName))
    else if !dir[timestampName].TimestampFile? then Err(Malformed(timestampName))
    else if Snapshot !in dir[timestampName].meta then Err(MissingPin(timestampName, Snapshot))
    else
      var timestamp := dir[timestampName];
      var snapshotName := Versioned(Snapshot, timestamp.meta[Snapshot].version);
      if snapshotName !in dir then Err(Missing(snapshotName))
      else if !dir[snapshotName].SnapshotFile? then Err(Malformed(snapshotName))
      else if Targets !in dir[snapshotName].meta then Err(MissingPin(snapshotName, Targets))
      else
        var snapshot := dir[snapshotName];
        var pin := snapshot.meta[Targets].version;
        match NextVersion(pin, snapshotName)
        case Err(e) => Err(e)
        case Ok(targets) =>
          match NextVersion(snapshot.version, snapshotName)
          case Err(e) => Err(e)
          case Ok(nextSnapshot) =>
            match NextVersion(timestamp.version, timestampName)
            case Err(e) => Err(e)
            case Ok(nextTimestamp) => Ok(Next(targets, nextSnapshot, nextTimestamp, Versioned(Targets, pin)))
  }

  function ReadTargets(dir: Directory, name: Path): Result<File, Error> {
    if name !in dir then Err(Missing(name))
    else if !dir[name].TargetsFile? then Err(Malformed(name))
    else Ok(dir[name])
  }

  // ----- what a write lands -----

  datatype Expiries = Expiries(targets: int, snapshot: int, timestamp: int)

  /** The chain that pins `targets`. */
  function Chained(targets: File, next: Next, expiries: Expiries): (view: View)
    requires targets.TargetsFile?
    ensures Linked(view)
  {
    var snapshot := SnapshotFile(next.snapshot, expiries.snapshot,
                                 map[Targets := MetaPin(targets.version, Digest(targets))]);
    var timestamp := TimestampFile(next.timestamp, expiries.timestamp,
                                   map[Snapshot := MetaPin(next.snapshot, Digest(snapshot))]);
    View(timestamp, snapshot, targets)
  }

  /** The three files of a linked chain under their published names, the commit point last. */
  function ChainWrites(view: View): seq<Write>
    requires view.targets.TargetsFile? && view.snapshot.SnapshotFile? && view.timestamp.TimestampFile?
  {
    [Write(Versioned(Targets, view.targets.version), view.targets),
     Write(Versioned(Snapshot, view.snapshot.version), view.snapshot),
     Write(Plain(Timestamp), view.timestamp)]
  }

  function Applied(dir: Directory, writes: seq<Write>): Directory {
    if writes == [] then dir
    else
      var last := writes[|writes| - 1];
      Applied(dir, writes[..|writes| - 1])[last.name := last.file]
  }

  function PublishedTargets(manifest: File, next: Next, expires: int): File {
    TargetsFile(next.targets, expires, map[TARGET_PATH := Digest(manifest)], "")
  }

  /** A publish's chain: the manifest becomes the sole target. */
  function PublishChainOf(dir: Directory, manifest: File, expiries: Expiries): Result<View, Error> {
    if !manifest.ManifestFile? then Err(BadManifest)
    else match ReadNext(dir)
         case Err(e) => Err(e)
         case Ok(next) => Ok(Chained(PublishedTargets(manifest, next, expiries.targets), next, expiries))
  }

  /** A re-sign's chain: the targets in force with a new version and expiry, and nothing else changed. */
  function ResignChainOf(dir: Directory, expiries: Expiries): Result<View, Error> {
    match ReadNext(dir)
    case Err(e) => Err(e)
    case Ok(next) =>
      match ReadTargets(dir, next.currentTargets)
      case Err(e) => Err(e)
      case Ok(targets) =>
        if !targets.TargetsFile? then Err(Malformed(next.currentTargets))
        else Ok(Chained(TargetsFile(next.targets, expiries.targets, targets.targets, targets.extra), next, expiries))
  }

  datatype Job = Publish(manifest: File, expiries: Expiries) | Resign(expiries: Expiries)

  function JobChain(dir: Directory, job: Job): (r: Result<View, Error>)
    ensures r.Ok? ==> Linked(r.value)
  {
    match job
    case Publish(manifest, expiries) => PublishChainOf(dir, manifest, expiries)
    case Resign(expiries) => ResignChainOf(dir, expiries)
  }

  /** Everything a run of `job` writes if nothing stops it; nothing at all if it cannot start. */
  function JobWrites(dir: Directory, job: Job): seq<Write> {
    match JobChain(dir, job)
    case Err(_) => []
    case Ok(view) =>
      (if job.Publish? then [Write(Target(Digest(job.manifest)), job.manifest)] else []) + ChainWrites(view)
  }

  function Names(writes: seq<Write>): seq<Path> {
    seq(|writes|, i requires 0 <= i < |writes| => writes[i].name)
  }

  /** The state a run leaves when the disk takes only the first `landed` of its writes. */
  function CutOff(dir: Directory, job: Job, landed: nat): Directory {
    var writes := JobWrites(dir, job);
    Applied(dir, if landed < |writes| then writes[..landed] else writes)
  }

  // ----- the workspace -----

  /** Exactly the first writes the disk had room for have landed, and `written` names them. */
  ghost predicate Landed(before: Directory, room: nat, writes: seq<Write>,
                         after: Directory, left: nat, written: seq<Path>, ok: bool)
  {
    var n := if |writes| <= room then |writes| else room;
    ok == (|writes| <= room) && after == Applied(before, writes[..n]) && left == room - n && written == Names(writes[..n])
  }

  lemma {:induction false} AppliedAppend(dir: Directory, first: seq<Write>, second: seq<Write>)
    ensures Applied(dir, first + second) == Applied(Applied(dir, first), second)
    decreases |second|
  {
    if second == [] {
      assert first + second == first;
    } else {
      var n := |second| - 1;
      assert (first + second)[..|first + second| - 1] == first + second[..n];
      AppliedAppend(dir, first, second[..n]);
    }
  }

  lemma LandedThen(d0: Directory, r0: nat, first: seq<Write>, d1: Directory, r1: nat, n1: seq<Path>,
                   second: seq<Write>, d2: Directory, r2: nat, n2: seq<Path>, ok: bool)
    requires Landed(d0, r0, first, d1, r1, n1, true) && Landed(d1, r1, second, d2, r2, n2, ok)
    ensures Landed(d0, r0, first + second, d2, r2, n1 + n2, ok)
  {
    var n := if |second| <= r1 then |second| else r1;
    assert first[..|first|] == first;
    assert (first + second)[..|first| + n] == first + second[..n];
    AppliedAppend(d0, first, second[..n]);
  }

  lemma LandedShort(d0: Directory, r0: nat, first: seq<Write>, d1: Directory, r1: nat, n1: seq<Path>, second: seq<Write>)
    requires Landed(d0, r0, first, d1, r1, n1, false)
    ensures Landed(d0, r0, first + second, d1, r1, n1, false)
  {
    assert (first + second)[..r0] == first[..r0];
  }

  datatype Signed = Signed(role: Role, version: nat, file: File)

  function NamedWrites(names: seq<Path>, file: File): seq<Write> {
    seq(|names|, i requires 0 <= i < |names| => Write(names[i], file))
  }

  /** Each file under every name its role is served by, in order. */
  function RoleWrites(signed: seq<Signed>): seq<Write> {
    if signed == [] then []
    else
      var last := signed[|signed| - 1];
      RoleWrites(signed[..|signed| - 1]) + NamedWrites(PublishedNames(last.role, last.version), last.file)
  }

  datatype Report = Report(written: seq<Path>, generation: Option<Digest>)

  class Workspace {
    var files: Directory
    /** How many more writes land before the run dies. */
    var landing: nat

    constructor (files: Directory, landing: nat)
      ensures this.files == files && this.landing == landing
    {
      this.files := files;
      this.landing := landing;
    }

    /** One atomic write: all of it, or none. */
    method Put(name: Path, file: File) returns (ok: bool)
      modifies this
      ensures Landed(old(files), old(landing), [Write(name, file)], files, landing, if ok then [name] else [], ok)
    {
      if landing == 0 {
        assert [Write(name, file)][..0] == [];
        return false;
      }
      assert Applied(files, [Write(name, file)]) == files[name := file] by {
        assert [Write(name, file)][..0] == [];
      }
      assert [Write(name, file)][..1] == [Write(name, file)];
      files := files[name := file];
      landing := landing - 1;
      ok := true;
    }

    method PutUnder(names: seq<Path>, file: File) returns (written: seq<Path>, error: Option<Error>)
      modifies this
      ensures Landed(old(files), old(landing), NamedWrites(names, file), files, landing, written, error.None?)
    {
      written := [];
      ghost var writes := NamedWrites(names, file);
      for i := 0 to |names|
        invariant Landed(old(files), old(landing), writes[..i], files, landing, written, true)
      {
        label Before:
        var ok := Put(names[i], file);
        assert writes[..i + 1] == writes[..i] + [Write(names[i], file)];
        LandedThen(old(files), old(landing), writes[..i], old@Before(files), old@Before(landing), written,
                   [Write(names[i], file)], files, landing, if ok then [names[i]] else [], ok);
        if !ok {
          assert writes == writes[..i + 1] + writes[i + 1..];
          assert written + [] == written;
          LandedShort(old(files), old(landing), writes[..i + 1], files, landing, written, writes[i + 1..]);
          return written, Some(WriteFailed(names[i]));
        }
        written := written + [names[i]];
      }
      assert writes[..|writes|] == writes;
      error := None;
    }

    /** Writes the three signed files of `view`, oldest dependency first. */
    method Commit(view: View) returns (written: seq<Path>, error: Option<Error>)
      requires Linked(view)
      modifies this
      ensures Landed(old(files), old(landing), ChainWrites(view), files, landing, written, error.None?)
    {
      var signed := [Signed(Targets, view.targets.version, view.targets),
                     Signed(Snapshot, view.snapshot.version, view.snapshot),
                     Signed(Timestamp, view.timestamp.version, view.timestamp)];
      written := [];
      RoleWritesOfAChain(view);
      for i := 0 to |signed|
        invariant Landed(old(files), old(landing), RoleWrites(signed[..i]), files, landing, written, true)
      {
        label Before:
        var names: seq<Path> := PublishedNames(signed[i].role, signed[i].version);
        var more, failed := PutUnder(names, signed[i].file);
        assert signed[..i + 1][..i] == signed[..i];
        LandedThen(old(files), old(landing), RoleWrites(signed[..i]), old@Before(files), old@Before(landing), written,
                   NamedWrites(names, signed[i].file), files, landing, more, failed.None?);
        written := written + more;
        if failed.Some? {
          RoleWritesPrefix(signed, i + 1);
          LandedShort(old(files), old(landing), RoleWrites(signed[..i + 1]), files, landing, written,
                      RoleWrites(signed)[|RoleWrites(signed[..i + 1])|..]);
          return written, failed;
        }
      }
      assert signed[..|signed|] == signed;
      error := None;
    }

    /** Publishes a manifest as the channel's next generation. */
    method Publish(manifest: File, expiries: Expiries) returns (r: Result<Report, Error>)
      modifies this
      ensures files == CutOff(old(files), Job.Publish(manifest, expiries), old(landing))
      ensures var chain := PublishChainOf(old(files), manifest, expiries);
              var writes := JobWrites(old(files), Job.Publish(manifest, expiries));
              if chain.Err? then r == Err(chain.error) && landing == old(landing)
              else (r.Ok? <==> |writes| <= old(landing))
                   && (r.Ok? ==> r.value == Report(Names(writes), Some(Digest(manifest))))
    {
      ghost var job := Job.Publish(manifest, expiries);
      ghost var writes := JobWrites(files, job);
      if !manifest.ManifestFile? {
        return Err(BadManifest);
      }
      var next := ReadNext(files);
      if next.Err? {
        return Err(next.error);
      }
      var view := Chained(PublishedTargets(manifest, next.value, expiries.targets), next.value, expiries);
      var name := Target(Digest(manifest));
      assert writes == [Write(name, manifest)] + ChainWrites(view);
      var ok := Put(name, manifest);
      if !ok {
        LandedShort(old(files), old(landing), [Write(name, manifest)], files, landing, [], ChainWrites(view));
        return Err(WriteFailed(name));
      }
      label Before:
      var written, failed := Commit(view);
      LandedThen(old(files), old(landing), [Write(name, manifest)], old@Before(files), old@Before(landing), [name],
                 ChainWrites(view), files, landing, written, failed.None?);
      assert writes[..|writes|] == writes;
      r := if failed.Some? then Err(failed.value) else Ok(Report([name] + written, Some(Digest(manifest))));
    }

    /** Refreshes every online role's version and expiry; the targets listed stay as they were. */
    method Resign(expiries: Expiries) returns (r: Result<Report, Error>)
      modifies this
      ensures files == CutOff(old(files), Job.Resign(expiries), old(landing))
      ensures var chain := ResignChainOf(old(files), expiries);
              var writes := JobWrites(old(files), Job.Resign(expiries));
              if chain.Err? then r == Err(chain.error) && landing == old(landing)
              else (r.Ok? <==> |writes| <= old(landing))
                   && (r.Ok? ==> r.value == Report(Names(writes), Generation(chain.value)))
    {
      ghost var writes := JobWrites(files, Job.Resign(expiries));
      var next := ReadNext(files);
      if next.Err? {
        return Err(next.error);
      }
      var current := ReadTargets(files, next.value.currentTargets);
      if current.Err? {
        return Err(current.error);
      }
      var targets := TargetsFile(next.value.targets, expiries.targets, current.value.targets, current.value.extra);
      var view := Chained(targets, next.value, expiries);
      assert writes == ChainWrites(view);
      var written, failed := Commit(view);
      assert writes[..|writes|] == writes;
      r := if failed.Some? then Err(failed.value) else Ok(Report(written, Generation(view)));
    }
  }

  lemma RoleWritesOfAChain(view: View)
    requires Linked(view)
    ensures RoleWrites([Signed(Targets, view.targets.version, view.targets),
                        Signed(Snapshot, view.snapshot.version, view.snapshot),
                        Signed(Timestamp, view.timestamp.version, view.timestamp)]) == ChainWrites(view)
  {
    var a := Signed(Targets, view.targets.version, view.targets);
    var b := Signed(Snapshot, view.snapshot.version, view.snapshot);
    var c := Signed(Timestamp, view.timestamp.version, view.timestamp);
    assert [a, b, c][..2] == [a, b] && [a, b][..1] == [a] && [a][..0] == [];
    assert RoleWrites([a]) == [Write(Versioned(Targets, a.version), a.file)];
    assert RoleWrites([a, b]) == RoleWrites([a]) + [Write(Versioned(Snapshot, b.version), b.file)];
    assert RoleWrites([a, b, c]) == RoleWrites([a, b]) + [Write(Plain(Timestamp), c.file)];
  }

  lemma {:induction false} RoleWritesPrefix(signed: seq<Signed>, i: nat)
    requires i <= |signed|
    ensures var part := RoleWrites(signed[..i]);
            |part| <= |RoleWrites(signed)| && RoleWrites(signed) == part + RoleWrites(signed)[|part|..]
    decreases |signed|
  {
    if i == |signed| {
      assert signed[..i] == signed;
    } else {
      var shorter := signed[..|signed| - 1];
      RoleWritesPrefix(shorter, i);
      assert shorter[..i] == signed[..i];
    }
  }
}
