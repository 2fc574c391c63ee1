/** What the install root's objects write is what runs of the protocol write, step by step. */
module InstallRuns {
  import opened InstallDisk
  import opened InstallProtocol

  /** An apply's steps from its claim on: its files in `order`, the record once all are there, and out. */
  function Steps(a: nat, artifacts: seq<Artifact>, order: seq<nat>, recorded: bool): seq<Step>
    requires Nameable(artifacts, order)
  {
    if order == [] then (if recorded then [Publish(a)] else []) + [Leave(a)]
    else [Land(a, order[0], artifacts[order[0]].sha256.of)] + Steps(a, artifacts, order[1..], recorded)
  }

  /**
   A publication is an orderly run of the protocol, however far it gets: it reaches the disk that its
   writes leave, with every claim as it was.
   */
  lemma PublicationIsARun(plans: Plans, r: Root, a: nat, id: string, order: seq<nat>, recorded: bool)
    requires a !in r.applies && !Collected(r, id) && forall i <- r.claims :: r.claims[i] > 0
    requires Nameable(plans(id), order) && (order != [] || recorded ==> PathsDistinct(plans(id)))
    requires recorded ==> forall i: nat :: i < |plans(id)| ==> i in order
    ensures ReachesOrderly(plans, r, [Claim(a, id)] + Steps(a, plans(id), order, recorded),
                           r.(disk := Replay(r.disk, Publication(id, plans(id), order, recorded))))
  {
    var r1 := Next(plans, r, Claim(a, id));
    StepsAreARun(plans, r1, a, order, recorded);
    ClaimThenRelease(r.claims, id);
    assert r1.applies - {a} == r.applies;
  }

  lemma {:induction false} StepsAreARun(plans: Plans, r: Root, a: nat, order: seq<nat>, recorded: bool)
    requires a in r.applies && var artifacts := plans(r.applies[a].id);
             && Nameable(artifacts, order) && (order != [] || recorded ==> PathsDistinct(artifacts))
             && (forall i :: i in order ==> i !in r.applies[a].placed)
             && (recorded ==> forall i: nat :: i < |artifacts| ==> i in order || i in r.applies[a].placed)
    ensures var id := r.applies[a].id;
            ReachesOrderly(plans, r, Steps(a, plans(id), order, recorded),
                           r.(disk := Replay(r.disk, Publication(id, plans(id), order, recorded)),
                              claims := Released(r.claims, id), applies := r.applies - {a}))
    decreases |order|
  {
    var id := r.applies[a].id;
    var artifacts := plans(id);
    hide Replay, Publication, Landings, Effect, Released, Claimed, Write, WriteRecord;
    if order == [] {
      LastSteps(plans, r, a, recorded);
    } else {
      var s := Land(a, order[0], artifacts[order[0]].sha256.of);
      FirstStep(plans, r, a, order, s);
      FirstLanding(r.disk, id, artifacts, order, recorded);
      StepsAreARun(plans, Next(plans, r, s), a, order[1..], recorded);
      hide Enabled, Orderly, Next, Nameable, PathsDistinct, ReachesOrderly;
      OrderlyStep(plans, r, s, Steps(a, artifacts, order[1..], recorded),
                  r.(disk := Replay(r.disk, Publication(id, artifacts, order, recorded)),
                     claims := Released(r.claims, id), applies := r.applies - {a}));
    }
  }

  lemma FirstStep(plans: Plans, r: Root, a: nat, order: seq<nat>, s: Step)
    requires a in r.applies && var artifacts := plans(r.applies[a].id);
             && Nameable(artifacts, order) && order != [] && PathsDistinct(artifacts)
             && order[0] !in r.applies[a].placed && s == Land(a, order[0], artifacts[order[0]].sha256.of)
    ensures Enabled(plans, r, s) && Orderly(r, s) && Nameable(plans(r.applies[a].id), order[1..])
    ensures var apply := r.applies[a];
            var r1 := Next(plans, r, s);
            && r1.disk == Write(r.disk, apply.id, plans(apply.id)[order[0]].path, plans(apply.id)[order[0]].sha256.of)
            && r1.applies - {a} == r.applies - {a} && r1.claims == r.claims && r1.janitors == r.janitors
            && a in r1.applies && r1.applies[a] == Apply(apply.id, apply.placed + {order[0]})
  {
  }

  lemma OrderlyStep(plans: Plans, r: Root, s: Step, steps: seq<Step>, r': Root)
    requires Enabled(plans, r, s) && Orderly(r, s) && ReachesOrderly(plans, Next(plans, r, s), steps, r')
    ensures ReachesOrderly(plans, r, [s] + steps, r')
  {
    assert ([s] + steps)[1..] == steps;
  }

  lemma LastSteps(plans: Plans, r: Root, a: nat, recorded: bool)
    requires a in r.applies && var artifacts := plans(r.applies[a].id);
             recorded ==> PathsDistinct(artifacts) && forall i: nat :: i < |artifacts| ==> i in r.applies[a].placed
    ensures var id := r.applies[a].id;
            ReachesOrderly(plans, r, Steps(a, plans(id), [], recorded),
                           r.(disk := Replay(r.disk, Publication(id, plans(id), [], recorded)),
                              claims := Released(r.claims, id), applies := r.applies - {a}))
  {
    var id := r.applies[a].id;
    PublicationSteps(Storage(r.disk, []), id, plans(id), []);
    hide Replay, Publication, Landings, Released, Claimed, Write, PathsDistinct;
    if recorded {
      OneOrderly(plans, Next(plans, r, Publish(a)), Leave(a));
    } else {
      OneOrderly(plans, r, Leave(a));
    }
  }

  lemma OneOrderly(plans: Plans, r: Root, s: Step)
    requires Enabled(plans, r, s) && Orderly(r, s)
    ensures ReachesOrderly(plans, r, [s], Next(plans, r, s))
  {
  }

  lemma FirstLanding(d: Disk, id: string, artifacts: seq<Artifact>, order: seq<nat>, recorded: bool)
    requires Nameable(artifacts, order) && order != []
    ensures var a := artifacts[order[0]];
            Replay(d, Publication(id, artifacts, order, recorded))
            == Replay(Write(d, id, a.path, a.sha256.of), Publication(id, artifacts, order[1..], recorded))
  {
    var a := artifacts[order[0]];
    var write := FileLanded(Place(id, a.path), a.sha256.of);
    assert Publication(id, artifacts, order, recorded) == [write] + Publication(id, artifacts, order[1..], recorded);
    ReplayAppend(d, [write], Publication(id, artifacts, order[1..], recorded));
    ReplayMore(d, [], write);
    assert [] + [write] == [write];
  }

  /** A retention is an orderly run of one janitor, generation after generation, as far as it gets. */
  lemma {:induction false} RetentionIsARun(plans: Plans, r: Root, j: nat, gone: seq<string>, stuck: set<Place>)
    returns (steps: seq<Step>)
    requires j !in r.janitors && forall id :: id in gone ==> id !in r.claims
    ensures ReachesOrderly(plans, r, steps, r.(disk := Replay(r.disk, Collections(gone, stuck))))
  {
    if gone == [] {
      steps := [];
    } else {
      var n := |gone| - 1;
      var before := r.(disk := Replay(r.disk, Collections(gone[..n], stuck)));
      steps := RetentionIsARun(plans, r, j, gone[..n], stuck);
      var more := CollectionIsARun(plans, before, j, gone[n], stuck);
      assert gone == gone[..n] + [gone[n]];
      CollectionsMore(Storage(r.disk, []), gone[..n], gone[n], stuck);
      OrderlyAppend(plans, r, steps, before, more, r.(disk := Replay(r.disk, Collections(gone, stuck))));
      steps := steps + more;
    }
  }

  lemma CollectionIsARun(plans: Plans, r: Root, j: nat, id: string, stuck: set<Place>) returns (steps: seq<Step>)
    requires j !in r.janitors && id !in r.claims
    ensures ReachesOrderly(plans, r, steps,
                           r.(disk := Effect(Effect(r.disk, RecordRemoved(id)), FilesRemoved(id, stuck))))
  {
    var r1 := Next(plans, r, Check(j, id));
    var r2 := Next(plans, r1, RemoveRecord(j));
    var going := set place | place in r.disk.files && place.id == id && place !in stuck;
    var more := FilesGo(plans, r2, j, going);
    steps := [Check(j, id)] + ([RemoveRecord(j)] + more);
    var after := r.(disk := Effect(Effect(r.disk, RecordRemoved(id)), FilesRemoved(id, stuck)));
    assert r2.disk.files - going == Effect(Effect(r.disk, RecordRemoved(id)), FilesRemoved(id, stuck)).files;
    assert r2.janitors - {j} == r.janitors;
    hide ReachesOrderly;
    OrderlyStep(plans, r1, RemoveRecord(j), more, after);
    OrderlyStep(plans, r, Check(j, id), [RemoveRecord(j)] + more, after);
  }

  /** A janitor past the record can take the files one at a time, and finish. */
  lemma {:induction false} FilesGo(plans: Plans, r: Root, j: nat, going: set<Place>) returns (steps: seq<Step>)
    requires j in r.janitors && r.janitors[j].stage == RecordGone && forall place <- going :: place.id == r.janitors[j].id
    ensures ReachesOrderly(plans, r, steps, r.(disk := r.disk.(files := r.disk.files - going), janitors := r.janitors - {j}))
    decreases |going|
  {
    if going == {} {
      assert r.disk.files - going == r.disk.files;
      steps := [Done(j)];
    } else {
      var place :| place in going;
      var r1 := Next(plans, r, RemoveFile(j, place.path));
      assert place == Place(r.janitors[j].id, place.path);
      assert r1.disk.files - (going - {place}) == r.disk.files - going;
      var more := FilesGo(plans, r1, j, going - {place});
      steps := [RemoveFile(j, place.path)] + more;
    }
  }

  lemma {:induction false} OrderlyAppend(plans: Plans, r: Root, steps: seq<Step>, r1: Root, more: seq<Step>, r2: Root)
    requires ReachesOrderly(plans, r, steps, r1) && ReachesOrderly(plans, r1, more, r2)
    ensures ReachesOrderly(plans, r, steps + more, r2)
    decreases |steps|
  {
    if steps == [] {
      assert steps + more == more;
    } else {
      assert (steps + more)[1..] == steps[1..] + more;
      OrderlyAppend(plans, Next(plans, r, steps[0]), steps[1..], r1, more, r2);
    }
  }
}
