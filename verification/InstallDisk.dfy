/** The install root on disk: generation directories beside the records that make them resolve. */
module InstallDisk {
  import opened Wrappers

  type Bytes = string

  /** A SHA-256 as a manifest spells it. The hash is symbolic: equal digests are equal bytes. */
  datatype Sha = Sha256(of: Bytes) | Malformed(text: string)

  datatype Artifact = Artifact(name: string, target: Option<string>, path: string, sha256: Sha,
                               size: nat, revision: string, version: Option<string>)

  /** One artifact as it sits in a published generation. */
  datatype Installed = Installed(name: string, target: Option<string>, version: Option<string>, revision: string,
                                 sha256: Sha, size: nat, path: string)

  datatype Record = Record(schema: nat, generation: string, artifacts: seq<Installed>)

  datatype Place = Place(id: string, path: string)

  datatype Disk = Disk(files: map<Place, Bytes>, records: map<string, Record>)

  datatype Generation = Generation(id: string, artifacts: seq<Installed>)

  const RECORD_SCHEMA: nat := 1

  function InstalledOf(a: Artifact): Installed {
    Installed(a.name, a.target, a.version, a.revision, a.sha256, a.size, a.path)
  }

  function AllInstalled(artifacts: seq<Artifact>): (r: seq<Installed>)
    ensures |r| == |artifacts|
    ensures forall i :: 0 <= i < |r| ==> r[i] == InstalledOf(artifacts[i])
    ensures forall i :: 0 <= i < |r| ==>
              && r[i].name == artifacts[i].name && r[i].target == artifacts[i].target
              && r[i].version == artifacts[i].version && r[i].revision == artifacts[i].revision
              && r[i].sha256 == artifacts[i].sha256 && r[i].size == artifacts[i].size && r[i].path == artifacts[i].path
  {
    seq(|artifacts|, i requires 0 <= i < |artifacts| => InstalledOf(artifacts[i]))
  }

  /** The generation `id`, if its record is there, readable by this build, and its own. */
  function Resolve(d: Disk, id: string): Option<Generation> {
    if id in d.records && d.records[id].schema == RECORD_SCHEMA && d.records[id].generation == id
    then Some(Generation(id, d.records[id].artifacts)) else None
  }

  /** A generation resolves exactly if a record of its own, in the one layout there is, lists its artifacts. */
  lemma ResolvesExactly(d: Disk, id: string, g: Generation)
    ensures Resolve(d, id) == Some(g) <==>
              && id in d.records && g.id == id
              && d.records[id].schema == 1 && d.records[id].generation == id && d.records[id].artifacts == g.artifacts
  {
  }

  /** The file an artifact names is in the generation's directory with the bytes of its digest. */
  predicate Landed(d: Disk, id: string, path: string, sha256: Sha) {
    Place(id, path) in d.files && Sha256(d.files[Place(id, path)]) == sha256
  }

  /** Every artifact a resolved generation lists is really there. */
  ghost predicate Sound(d: Disk, id: string) {
    Resolve(d, id).Some? ==>
      forall a :: a in Resolve(d, id).value.artifacts ==> Landed(d, id, a.path, a.sha256)
  }

  predicate PathsDistinct(artifacts: seq<Artifact>) {
    forall i, j :: 0 <= i < j < |artifacts| ==> artifacts[i].path != artifacts[j].path
  }

  function Write(d: Disk, id: string, path: string, bytes: Bytes): Disk {
    d.(files := d.files[Place(id, path) := bytes])
  }

  function WriteRecord(d: Disk, id: string, artifacts: seq<Installed>): Disk {
    d.(records := d.records[id := Record(RECORD_SCHEMA, id, artifacts)])
  }

  // ----- what reaches the disk, in order -----

  datatype DiskWrite =
    | FileLanded(place: Place, bytes: Bytes)
    | RecordWritten(id: string, artifacts: seq<Installed>)
    | RecordRemoved(id: string)
    | FilesRemoved(id: string, left: set<Place>)

  function Effect(d: Disk, w: DiskWrite): Disk {
    match w
    case FileLanded(place, bytes) => d.(files := d.files[place := bytes])
    case RecordWritten(id, artifacts) => WriteRecord(d, id, artifacts)
    case RecordRemoved(id) => d.(records := d.records - {id})
    case FilesRemoved(id, left) =>
      d.(files := map place | place in d.files && (place.id != id || place in left) :: d.files[place])
  }

  function Replay(d: Disk, writes: seq<DiskWrite>): Disk {
    if writes == [] then d else Effect(Replay(d, writes[..|writes| - 1]), writes[|writes| - 1])
  }

  lemma {:induction false} ReplayAppend(d: Disk, first: seq<DiskWrite>, second: seq<DiskWrite>)
    ensures Replay(d, first + second) == Replay(Replay(d, first), second)
    decreases |second|
  {
    if second == [] {
      assert first + second == first;
    } else {
      var n := |second| - 1;
      assert (first + second)[..|first + second| - 1] == first + second[..n];
      ReplayAppend(d, first, second[..n]);
    }
  }

  lemma ReplayMore(d: Disk, writes: seq<DiskWrite>, w: DiskWrite)
    ensures Replay(d, writes + [w]) == Effect(Replay(d, writes), w)
  {
    assert (writes + [w])[..|writes|] == writes;
  }

  /** What a disk holds, and every write that has reached it. */
  datatype Storage = Storage(disk: Disk, log: seq<DiskWrite>)

  function After(s: Storage, writes: seq<DiskWrite>): Storage {
    Storage(Replay(s.disk, writes), s.log + writes)
  }

  lemma AfterMore(s: Storage, writes: seq<DiskWrite>, w: DiskWrite)
    ensures After(s, writes + [w]) == Storage(Effect(After(s, writes).disk, w), After(s, writes).log + [w])
    ensures After(s, []) == s
  {
    ReplayMore(s.disk, writes, w);
    assert s.log + (writes + [w]) == s.log + writes + [w];
  }

  /** Verified files landing in one generation, each of the plan's artifacts in `order`. */
  function Landings(id: string, artifacts: seq<Artifact>, order: seq<nat>): seq<DiskWrite>
    requires Nameable(artifacts, order)
  {
    seq(|order|, k requires 0 <= k < |order| =>
      FileLanded(Place(id, artifacts[order[k]].path), artifacts[order[k]].sha256.of))
  }

  /** Different artifacts, each with a digest that parses. */
  predicate Nameable(artifacts: seq<Artifact>, order: seq<nat>) {
    && (forall k :: 0 <= k < |order| ==> order[k] < |artifacts| && artifacts[order[k]].sha256.Sha256?)
    && (forall k, l :: 0 <= k < l < |order| ==> order[k] != order[l])
  }

  /** A publication, as far as it gets: files first, and the record last if at all. */
  function Publication(id: string, artifacts: seq<Artifact>, order: seq<nat>, recorded: bool): seq<DiskWrite>
    requires Nameable(artifacts, order)
  {
    Landings(id, artifacts, order) + if recorded then [RecordWritten(id, AllInstalled(artifacts))] else []
  }

  /** Generations collected one after another: each directory goes right after its record. */
  function Collections(ids: seq<string>, stuck: set<Place>): seq<DiskWrite> {
    if ids == [] then []
    else Collections(ids[..|ids| - 1], stuck)
         + [RecordRemoved(ids[|ids| - 1]), FilesRemoved(ids[|ids| - 1], stuck)]
  }

  lemma CollectionsMore(s: Storage, ids: seq<string>, id: string, stuck: set<Place>)
    ensures var now := After(s, Collections(ids, stuck));
            After(s, Collections(ids + [id], stuck))
            == Storage(Effect(Effect(now.disk, RecordRemoved(id)), FilesRemoved(id, stuck)),
                       now.log + [RecordRemoved(id), FilesRemoved(id, stuck)])
  {
    var sofar := Collections(ids, stuck);
    assert (ids + [id])[..|ids|] == ids;
    assert sofar + [RecordRemoved(id)] + [FilesRemoved(id, stuck)] == sofar + [RecordRemoved(id), FilesRemoved(id, stuck)];
    AfterMore(s, sofar, RecordRemoved(id));
    AfterMore(s, sofar + [RecordRemoved(id)], FilesRemoved(id, stuck));
  }

  lemma LandingsMore(s: Storage, id: string, artifacts: seq<Artifact>, order: seq<nat>, j: nat)
    requires Nameable(artifacts, order) && j < |artifacts| && artifacts[j].sha256.Sha256? && j !in order
    ensures Nameable(artifacts, order + [j])
    ensures var now := After(s, Landings(id, artifacts, order));
            var write := FileLanded(Place(id, artifacts[j].path), artifacts[j].sha256.of);
            After(s, Landings(id, artifacts, order + [j])) == Storage(Effect(now.disk, write), now.log + [write])
  {
    var write := FileLanded(Place(id, artifacts[j].path), artifacts[j].sha256.of);
    assert Landings(id, artifacts, order + [j]) == Landings(id, artifacts, order) + [write];
    AfterMore(s, Landings(id, artifacts, order), write);
  }

  lemma PublicationSteps(s: Storage, id: string, artifacts: seq<Artifact>, order: seq<nat>)
    requires Nameable(artifacts, order)
    ensures var now := After(s, Landings(id, artifacts, order));
            var record := RecordWritten(id, AllInstalled(artifacts));
            && After(s, Publication(id, artifacts, order, false)) == now
            && After(s, Publication(id, artifacts, order, true)) == Storage(Effect(now.disk, record), now.log + [record])
    ensures order == [] ==> After(s, Publication(id, artifacts, order, false)) == s
  {
    assert Landings(id, artifacts, order) + [] == Landings(id, artifacts, order);
    AfterMore(s, Landings(id, artifacts, order), RecordWritten(id, AllInstalled(artifacts)));
  }

  // ----- publish claims -----

  type Claims = map<string, nat>

  function Claimed(claims: Claims, id: string): Claims {
    claims[id := if id in claims then claims[id] + 1 else 1]
  }

  function Released(claims: Claims, id: string): Claims {
    if id !in claims then claims
    else if claims[id] <= 1 then claims - {id}
    else claims[id := claims[id] - 1]
  }

  /** Dropping a claim just taken leaves the claims as they were. */
  lemma ClaimThenRelease(claims: Claims, id: string)
    requires forall i :: i in claims ==> claims[i] > 0
    ensures Released(Claimed(claims, id), id) == claims
  {
  }
}
