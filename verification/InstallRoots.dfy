/** The install root object: claims, records and retention. */
module InstallRoots {
  import opened Wrappers
  import opened InstallDisk

  /** What the disk refuses a retention: to list the root, to remove a record, to remove a file. */
  datatype Stuck = Stuck(listing: bool, records: set<string>, files: set<Place>)

  class InstallRoot {
    var files: map<Place, Bytes>
    var records: map<string, Record>
    var publishing: Claims
    /** Every write that has reached the disk, in order. */
    ghost var trace: seq<DiskWrite>

    constructor ()
      ensures Disk() == InstallDisk.Disk(map[], map[]) && publishing == map[] && trace == []
    {
      files, records, publishing, trace := map[], map[], map[], [];
    }

    function Disk(): Disk
      reads this
    {
      InstallDisk.Disk(files, records)
    }

    ghost function Storage(): Storage
      reads this
    {
      InstallDisk.Storage(Disk(), trace)
    }

    ghost predicate ClaimsPositive()
      reads this
    {
      forall id :: id in publishing ==> publishing[id] > 0
    }

    method Claim(id: string)
      modifies `publishing
      ensures publishing == Claimed(old(publishing), id) && (old(ClaimsPositive()) ==> ClaimsPositive())
    {
      if id !in publishing { publishing := publishing[id := 0]; }
      publishing := publishing[id := publishing[id] + 1];
    }

    /** Gives one claim back; the last one takes the entry with it. */
    method Release(id: string)
      requires ClaimsPositive()
      modifies `publishing
      ensures publishing == Released(old(publishing), id)
    {
      if id in publishing {
        publishing := publishing[id := publishing[id] - 1];
        if publishing[id] == 0 {
          publishing := publishing - {id};
        }
      }
    }

    /** A verified file gets its name in the generation's directory. */
    method Land(id: string, path: string, bytes: Bytes)
      modifies `files, `trace
      ensures Storage() == InstallDisk.Storage(Effect(old(Disk()), FileLanded(Place(id, path), bytes)),
                                               old(trace) + [FileLanded(Place(id, path), bytes)])
    {
      files := files[Place(id, path) := bytes];
      trace := trace + [FileLanded(Place(id, path), bytes)];
    }

    /** What makes a generation resolve. Called once every file has landed, and last; the disk may refuse it. */
    method WriteRecord(id: string, artifacts: seq<Installed>, taken: bool) returns (g: Option<Generation>)
      modifies `records, `trace
      ensures taken ==> Storage() == InstallDisk.Storage(Effect(old(Disk()), RecordWritten(id, artifacts)),
                                                         old(trace) + [RecordWritten(id, artifacts)])
                        && g == Some(Generation(id, artifacts)) == Resolve(Disk(), id)
      ensures !taken ==> g.None? && Storage() == old(Storage())
    {
      if !taken {
        return None;
      }
      records := records[id := Record(RECORD_SCHEMA, id, artifacts)];
      trace := trace + [RecordWritten(id, artifacts)];
      g := Some(Generation(id, artifacts));
    }

    /** Every generation id the root holds, published or not. */
    function Ids(): set<string>
      reads this
    {
      records.Keys + set place | place in files :: place.id
    }

    /** What a retention has to remove: every generation neither live nor being published. */
    function Doomed(live: seq<string>): set<string>
      reads this
    {
      set id | id in Ids() && id !in live && id !in publishing
    }

    lemma DoomedAmong(live: seq<string>)
      ensures forall id :: id in Doomed(live) <==> id in Ids() && id !in live && id !in publishing
    {
    }

    /** Exactly the ids with a record or a file that are neither asked for nor being published. */
    lemma DoomedExactly(live: seq<string>, id: string)
      ensures id in Doomed(live) <==>
                && (id in records || exists place <- files :: place.id == id)
                && id !in live && id !in publishing
    {
    }

    /** Removes one generation, its record before its directory, as far as the disk lets it. */
    method Collect(id: string, stuck: Stuck) returns (ok: bool)
      modifies `files, `records, `trace
      ensures (ok <==> !Blocked(old(files), id, stuck)) && (id in stuck.records ==> !ok)
      ensures id in stuck.records ==> Disk() == old(Disk()) && trace == old(trace)
      ensures id !in stuck.records ==>
                && Disk() == Effect(Effect(old(Disk()), RecordRemoved(id)), FilesRemoved(id, stuck.files))
                && trace == old(trace) + [RecordRemoved(id), FilesRemoved(id, stuck.files)]
    {
      if id in stuck.records {
        return false;
      }
      records := records - {id};
      trace := trace + [RecordRemoved(id)];
      ok := forall place <- files :: place.id == id ==> place !in stuck.files;
      files := map place | place in files && (place.id != id || place in stuck.files) :: files[place];
      trace := trace + [FilesRemoved(id, stuck.files)];
    }

    /**
     Removes every generation that is neither live nor being published, stopping at the first the disk will not
     let go. `gone` are those whose record went, in order.
     */
    method Retain(live: seq<string>, stuck: Stuck) returns (removed: Option<set<string>>, ghost gone: seq<string>)
      modifies `files, `records, `trace
      ensures removed.Some? <==> !stuck.listing && forall id <- old(Doomed(live)) :: !Blocked(old(files), id, stuck)
      ensures Elements(gone) <= old(Doomed(live))
      ensures removed.Some? ==> removed.value == Elements(gone) == old(Doomed(live))
      ensures Storage() == After(old(Storage()), Collections(gone, stuck.files))
    {
      hide Effect, Replay, After, Blocked, Collections, Ids, Doomed, Elements, Resolve, InstallDisk.WriteRecord;
      removed, gone := None, [];
      NothingCollected(Storage(), stuck.files);
      ghost var doomed := Doomed(live);
      DoomedAmong(live);
      if stuck.listing {
        return;
      }
      var todo, found := Ids(), {};
      while todo != {}
        invariant Elements(gone) == found == doomed - todo
        invariant todo <= old(Ids()) && publishing == old(publishing)
        invariant forall id <- found :: !Blocked(old(files), id, stuck)
        invariant Storage() == After(old(Storage()), Collections(gone, stuck.files))
        decreases |todo|
      {
        var id :| id in todo;
        todo := todo - {id};
        if id in live || id in publishing { continue; }
        StillBlocked(old(Storage()), gone, stuck, id);
        CollectionsMore(old(Storage()), gone, id, stuck.files);
        ElementsMore(gone, id);
        var ok := Collect(id, stuck);
        if id !in stuck.records {
          gone := gone + [id];
        }
        if !ok {
          return;
        }
        found := found + {id};
      }
      removed := Some(found);
    }
  }

  function Elements<T>(s: seq<T>): set<T> { set x | x in s }

  /** The disk will not let all of generation `id` go. */
  predicate Blocked(files: map<Place, Bytes>, id: string, stuck: Stuck) {
    id in stuck.records || exists place <- files :: place.id == id && place in stuck.files
  }

  function KeptRecords(records: map<string, Record>, gone: set<string>): map<string, Record> {
    map id | id in records && id !in gone :: records[id]
  }

  /** The files of every other generation, and those of these that would not go. */
  function KeptFiles(files: map<Place, Bytes>, gone: set<string>, stuck: set<Place>): map<Place, Bytes> {
    map place | place in files && (place.id !in gone || place in stuck) :: files[place]
  }

  lemma ElementsMore(gone: seq<string>, id: string)
    ensures Elements(gone + [id]) == Elements(gone) + {id}
  {
  }

  lemma NothingCollected(s: Storage, stuck: set<Place>)
    ensures After(s, Collections([], stuck)) == s && Elements<string>([]) == {}
  {
  }

  /** A collection takes every record it means to, and every file the disk lets go. */
  lemma {:induction false} CollectedExactly(before: Disk, gone: seq<string>, stuck: set<Place>)
    ensures Replay(before, Collections(gone, stuck))
            == Disk(KeptFiles(before.files, Elements(gone), stuck), KeptRecords(before.records, Elements(gone)))
  {
    if gone == [] {
      NothingCollected(Storage(before, []), stuck);
      assert KeptRecords(before.records, {}) == before.records && KeptFiles(before.files, {}, stuck) == before.files;
    } else {
      var n := |gone| - 1;
      assert gone == gone[..n] + [gone[n]];
      CollectedExactly(before, gone[..n], stuck);
      CollectionsMore(Storage(before, []), gone[..n], gone[n], stuck);
      OneMoreGone(before, Elements(gone[..n]), gone[n], stuck);
      assert Elements(gone) == (Elements(gone[..n])) + {gone[n]};
    }
  }

  lemma OneMoreGone(d: Disk, gone: set<string>, id: string, stuck: set<Place>)
    ensures var d' := Disk(KeptFiles(d.files, gone, stuck), KeptRecords(d.records, gone));
            Effect(Effect(d', RecordRemoved(id)), FilesRemoved(id, stuck))
            == Disk(KeptFiles(d.files, gone + {id}, stuck), KeptRecords(d.records, gone + {id}))
  {
  }

  lemma StillBlocked(before: Storage, gone: seq<string>, stuck: Stuck, id: string)
    ensures Blocked(After(before, Collections(gone, stuck.files)).disk.files, id, stuck) <==> Blocked(before.disk.files, id, stuck)
  {
    hide Replay, Collections;
    CollectedExactly(before.disk, gone, stuck.files);
  }

  /** Retention keeps every generation it does not collect as it was, and those it does stop resolving, cut short or not. */
  lemma RetainKeepsLive(before: Disk, gone: seq<string>, stuck: set<Place>, id: string)
    requires Sound(before, id)
    ensures var after := Replay(before, Collections(gone, stuck));
            && Sound(after, id)
            && (id !in gone ==> Resolve(after, id) == Resolve(before, id)
                                && forall path :: Place(id, path) in before.files ==> Place(id, path) in after.files)
            && (id in gone ==> Resolve(after, id).None?
                               && forall path :: Place(id, path) in after.files ==> Place(id, path) in stuck)
  {
    hide Replay, Collections;
    CollectedExactly(before, gone, stuck);
  }
}
