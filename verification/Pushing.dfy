/** How a local publish reaches its host: the manifest on its own release, then the channel in the order it was written. */
module Pushing {
  import opened Wrappers
  import opened ChannelNames
  import opened PublishChain
  import opened ReleaseHosts

  function Puts(tag: Tag, writes: seq<Write>): seq<Step> {
    seq(|writes|, i requires 0 <= i < |writes| => Step.Put(tag, writes[i]))
  }

  /** The named files as they are on disk. */
  function Sources(source: Directory, names: seq<Path>): seq<Write>
    requires forall name <- names :: name in source
  {
    seq(|names|, i requires 0 <= i < |names| => Write(names[i], source[names[i]]))
  }

  /** How many leading names can be read and are let through. */
  function Reach(source: Directory, names: seq<Path>, allowed: Option<nat>): (n: nat)
    ensures n <= |names| && (allowed.Some? ==> n <= allowed.value)
    ensures forall i :: 0 <= i < n ==> names[i] in source
    ensures n < |names| ==> names[n] !in source || allowed == Some(n)
  {
    if names == [] || names[0] !in source || allowed == Some(0) then 0
    else 1 + Reach(source, names[1..], if allowed.Some? then Some(allowed.value - 1) else None)
  }

  function Tagged(tag: Tag, names: seq<Path>): seq<(Tag, Path)> {
    seq(|names|, i requires 0 <= i < |names| => (tag, names[i]))
  }

  /** Everything a push of a generation does, up to the asset it is stopped before. */
  function GenerationSteps(version: nat, manifest: File, source: Directory, names: seq<Path>, stopAfter: Option<nat>): seq<Step> {
    var tag := GenerationTag(version);
    if stopAfter == Some(0) then [Step.Ensure(tag)]
    else
      var n := Reach(source, names, if stopAfter.Some? then Some(stopAfter.value - 1) else None);
      [Step.Ensure(tag), Step.Put(tag, Write(Manifest, manifest)), Step.Ensure(MetadataTag)]
      + Puts(MetadataTag, Sources(source, names[..n]))
  }

  /** The log of the assets among some steps. */
  function Logged(steps: seq<Step>): seq<(Tag, Path)> {
    if steps == [] then []
    else
      var last := steps[|steps| - 1];
      Logged(steps[..|steps| - 1]) + match last case Put(tag, w) => [(tag, w.name)] case Ensure(_) => []
  }

  /** How many steps a host that answers `room` calls carries out to their end. */
  function Done(releases: Releases, steps: seq<Step>, room: nat): (n: nat)
    ensures n <= |steps|
    decreases |steps|
  {
    if steps == [] || |StepCalls(releases, steps[0])| > room then 0
    else 1 + Done(StepEnd(releases, steps[0]), steps[1..], room - |StepCalls(releases, steps[0])|)
  }

  lemma {:induction false} DoneSplits(releases: Releases, first: seq<Step>, rest: seq<Step>, room: nat)
    requires |Calls(releases, first)| <= room
    ensures Done(releases, first + rest, room)
            == |first| + Done(End(releases, first), rest, room - |Calls(releases, first)|)
    decreases |first|
  {
    hide StepCalls, StepEnd;
    if first == [] {
      assert first + rest == rest;
    } else {
      assert (first + rest)[1..] == first[1..] + rest;
      DoneSplits(StepEnd(releases, first[0]), first[1..], rest, room - |StepCalls(releases, first[0])|);
    }
  }

  /** Steps whose calls were all answered are all done. */
  lemma AllDone(b: Releases, room: nat, steps: seq<Step>, e: Releases, left: nat)
    requires Ran(b, room, Calls(b, steps), e, left, true)
    ensures Done(b, steps, room) == |steps|
  {
    hide Calls, StepCalls, PerformAll;
    assert steps + [] == steps;
    DoneSplits(b, steps, [], room);
  }

  /** A step that was cut is where it ended. */
  lemma DoneUpTo(b: Releases, room: nat, done: seq<Step>, m: Releases, left: nat, step: Step, rest: seq<Step>,
                 e: Releases, left': nat)
    requires Ran(b, room, Calls(b, done), m, left, true) && Ran(m, left, StepCalls(m, step), e, left', false)
    ensures Done(b, done + [step] + rest, room) == |done|
  {
    hide Calls, StepCalls, PerformAll;
    RanWhole(b, room, Calls(b, done), m, left);
    EndPerforms(b, done);
    assert done + [step] + rest == done + ([step] + rest);
    DoneSplits(b, done, [step] + rest, room);
  }

  lemma {:induction false} LoggedAppend(first: seq<Step>, second: seq<Step>)
    ensures Logged(first + second) == Logged(first) + Logged(second)
    decreases |second|
  {
    if second == [] {
      assert first + second == first;
    } else {
      var n := |second| - 1;
      assert (first + second)[..|first + second| - 1] == first + second[..n];
      LoggedAppend(first, second[..n]);
    }
  }

  lemma NothingLogged()
    ensures Logged([]) == []
  {
  }

  lemma LoggedOne(step: Step)
    ensures Logged([step]) == match step case Put(tag, w) => [(tag, w.name)] case Ensure(_) => []
  {
    assert [step][..0] == [];
  }

  lemma {:induction false} LoggedPuts(tag: Tag, writes: seq<Write>)
    ensures Logged(Puts(tag, writes)) == Tagged(tag, Names(writes))
    decreases |writes|
  {
    if writes != [] {
      var n := |writes| - 1;
      LoggedPuts(tag, writes[..n]);
      assert Puts(tag, writes)[..n] == Puts(tag, writes[..n]);
      assert Tagged(tag, Names(writes)) == Tagged(tag, Names(writes[..n])) + [(tag, writes[n].name)];
    }
  }

  /** No call takes a release away. */
  lemma {:induction false} ReleasesStay(releases: Releases, calls: seq<Call>)
    ensures releases.Keys <= PerformAll(releases, calls).Keys
    decreases |calls|
  {
    if calls != [] {
      ReleasesStay(releases, calls[..|calls| - 1]);
    }
  }

  class Push {
    const host: Host
    const stopAfter: Option<nat>
    /** Every asset that has reached the host. */
    var pushed: seq<(Tag, Path)>
    /** How many entries the log held before this run. */
    const start: nat

    ghost predicate Valid()
      reads this
    {
      start <= |pushed| && (stopAfter.Some? ==> |pushed| - start <= stopAfter.value)
    }

    constructor (host: Host, stopAfter: Option<nat>, pushed: seq<(Tag, Path)>)
      ensures Valid() && this.host == host && this.stopAfter == stopAfter
      ensures this.pushed == pushed && this.start == |pushed|
    {
      this.host := host;
      this.stopAfter := stopAfter;
      this.pushed := pushed;
      this.start := |pushed|;
    }

    function Allowed(): Option<nat>
      requires Valid()
      reads this
    {
      if stopAfter.Some? then Some(stopAfter.value - (|pushed| - start)) else None
    }

    method PutOne(tag: Tag, w: Write) returns (r: Result<(), Fault>)
      requires Valid() && tag in host.releases
      modifies this, host
      ensures Valid() && tag in host.releases
      ensures old(Allowed()) == Some(0) ==>
                r == Err(PublishStopped(old(|pushed|) - start)) && pushed == old(pushed)
                && host.releases == old(host.releases) && host.answers == old(host.answers)
      ensures old(Allowed()) != Some(0) ==>
                && Ran(old(host.releases), old(host.answers), StepCalls(old(host.releases), Step.Put(tag, w)),
                       host.releases, host.answers, r.Ok?)
                && (r.Ok? || r == Err(HostFault))
                && pushed == old(pushed) + (if r.Ok? then [(tag, w.name)] else [])
    {
      if stopAfter == Some(|pushed| - start) {
        return Err(PublishStopped(|pushed| - start));
      }
      ghost var before := host.releases;
      ghost var room := host.answers;
      r := host.PutAsset(tag, w);
      ghost var calls := PutCalls(before, tag, w);
      ReleasesStay(before, calls[..if |calls| <= room then |calls| else room]);
      if r.Ok? {
        pushed := pushed + [(tag, w.name)];
      }
    }

    /** Puts the named files in order, each read as its turn comes. */
    method Files(tag: Tag, source: Directory, names: seq<Path>) returns (r: Result<(), Fault>)
      requires Valid() && tag in host.releases
      modifies this, host
      ensures Valid() && tag in host.releases
      ensures var n := Reach(source, names, old(Allowed()));
              && Ran(old(host.releases), old(host.answers),
                     Calls(old(host.releases), Puts(tag, Sources(source, names[..n]))),
                     host.releases, host.answers, r != Err(HostFault))
              && (r.Ok? ==> n == |names|)
              && (r.Err? && r.error != HostFault ==>
                    n < |names| && r.error == if names[n] !in source then Unreadable(names[n])
                                              else PublishStopped(old(|pushed|) - start + n))
              && var steps := Puts(tag, Sources(source, names[..n]));
                 pushed == old(pushed) + Logged(steps[..Done(old(host.releases), steps, old(host.answers))])
    {
      hide Ran, Calls, StepCalls, Reach, PerformAll, Logged, Done;
      RanNothing(host.releases, host.answers);
      ghost var allowed := Allowed();
      ghost var n := Reach(source, names, allowed);
      ghost var steps := Puts(tag, Sources(source, names[..n]));
      var i := 0;
      NothingLogged();
      while i < |names|
        invariant 0 <= i <= n
        invariant Valid() && tag in host.releases
        invariant |pushed| == old(|pushed|) + i && pushed == old(pushed) + Logged(steps[..i])
        invariant Ran(old(host.releases), old(host.answers), Calls(old(host.releases), steps[..i]),
                      host.releases, host.answers, true)
      {
        assert steps[..n] == steps;
        if names[i] !in source {
          AllDone(old(host.releases), old(host.answers), steps[..i], host.releases, host.answers);
          return Err(Unreadable(names[i]));
        }
        ReachBy(source, names, allowed, i);
        label Before:
        var w := Write(names[i], source[names[i]]);
        r := PutOne(tag, w);
        if r.Err? && r.error != HostFault {
          AllDone(old(host.releases), old(host.answers), steps[..i], host.releases, host.answers);
          return;
        }
        assert steps[..i + 1] == steps[..i] + [Step.Put(tag, w)];
        RanStep(old(host.releases), old(host.answers), steps[..i], old@Before(host.releases), old@Before(host.answers),
                Step.Put(tag, w), host.releases, host.answers, r.Ok?);
        if r.Err? {
          assert steps == steps[..i + 1] + steps[i + 1..];
          DoneUpTo(old(host.releases), old(host.answers), steps[..i], old@Before(host.releases), old@Before(host.answers),
                   Step.Put(tag, w), steps[i + 1..], host.releases, host.answers);
          CallsAppend(old(host.releases), steps[..i + 1], steps[i + 1..]);
          RanShort(old(host.releases), old(host.answers), Calls(old(host.releases), steps[..i + 1]),
                   host.releases, host.answers, Calls(End(old(host.releases), steps[..i + 1]), steps[i + 1..]));
          return;
        }
        LoggedAppend(steps[..i], [Step.Put(tag, w)]);
        LoggedOne(Step.Put(tag, w));
        i := i + 1;
      }
      assert steps[..n] == steps;
      AllDone(old(host.releases), old(host.answers), steps, host.releases, host.answers);
      r := Ok(());
    }
  }

  lemma {:induction false} ReachBy(source: Directory, names: seq<Path>, allowed: Option<nat>, i: nat)
    requires i < |names| && i <= Reach(source, names, allowed) && names[i] in source
    ensures i < Reach(source, names, allowed) <==> allowed != Some(i)
    decreases |names|
  {
  }

  /** Steps that went through, and then more of them. */
  lemma TailRan(b: Releases, room: nat, done: seq<Step>, m: Releases, left: nat, tail: seq<Step>, e: Releases, left': nat, ok: bool)
    requires Ran(b, room, Calls(b, done), m, left, true) && Ran(m, left, Calls(m, tail), e, left', ok)
    ensures Ran(b, room, Calls(b, done + tail), e, left', ok)
    ensures Logged((done + tail)[..Done(b, done + tail, room)]) == Logged(done) + Logged(tail[..Done(m, tail, left)])
  {
    hide Calls, StepCalls, PerformAll, Logged, Done;
    RanWhole(b, room, Calls(b, done), m, left);
    EndPerforms(b, done);
    CallsAppend(b, done, tail);
    RanThen(b, room, Calls(b, done), m, left, Calls(m, tail), e, left', ok);
    DoneSplits(b, done, tail, room);
    var k := Done(m, tail, left);
    assert (done + tail)[..|done| + k] == done + tail[..k];
    LoggedAppend(done, tail[..k]);
  }

  /** Steps that went through, and then one that was cut: what was to follow is not reached. */
  lemma CutRan(b: Releases, room: nat, done: seq<Step>, m: Releases, left: nat, step: Step, rest: seq<Step>,
               e: Releases, left': nat)
    requires Ran(b, room, Calls(b, done), m, left, true) && Ran(m, left, StepCalls(m, step), e, left', false)
    ensures Ran(b, room, Calls(b, done + [step] + rest), e, left', false)
    ensures Logged((done + [step] + rest)[..Done(b, done + [step] + rest, room)]) == Logged(done)
  {
    hide Ran, Calls, StepCalls, PerformAll, Logged, Done;
    RanStep(b, room, done, m, left, step, e, left', false);
    Undone(b, room, done + [step], e, left', done + [step] + rest);
    DoneUpTo(b, room, done, m, left, step, rest, e, left');
    assert (done + [step] + rest)[..|done|] == done;
  }

  lemma LoggedMore(done: seq<Step>, step: Step)
    ensures Logged(done + [step]) == Logged(done) + match step case Put(tag, w) => [(tag, w.name)] case Ensure(_) => []
  {
    LoggedAppend(done, [step]);
    LoggedOne(step);
  }

  function MetadataSteps(source: Directory, names: seq<Path>): seq<Step> {
    [Step.Ensure(MetadataTag)] + Puts(MetadataTag, Sources(source, names[..Reach(source, names, None)]))
  }

  /** Pushes a channel's metadata alone: what bringing a channel live and re-signing one both are. */
  method PushMetadata(host: Host, source: Directory, names: seq<Path>, log: seq<(Tag, Path)>)
    returns (r: Result<(), Fault>, pushed: seq<(Tag, Path)>)
    modifies host
    ensures var steps := MetadataSteps(source, names);
            && Ran(old(host.releases), old(host.answers), Calls(old(host.releases), steps),
                   host.releases, host.answers, r != Err(HostFault))
            && pushed == log + Logged(steps[..Done(old(host.releases), steps, old(host.answers))])
    ensures r.Ok? ==> Reach(source, names, None) == |names|
  {
    hide Ran, Calls, EnsureCalls, PutCalls, PerformAll, Reach, End, Puts, Sources, Tagged, Logged, Done;
    RanNothing(host.releases, host.answers);
    NothingLogged();
    ghost var b, room := host.releases, host.answers;
    var push := new Push(host, None, log);
    ghost var files := MetadataSteps(source, names)[1..];
    assert [] + [Step.Ensure(MetadataTag)] == [Step.Ensure(MetadataTag)];
    assert MetadataSteps(source, names) == [Step.Ensure(MetadataTag)] + files;
    pushed := log;
    var ensured := host.EnsureRelease(MetadataTag);
    if ensured.Err? {
      CutRan(b, room, [], b, room, Step.Ensure(MetadataTag), files, host.releases, host.answers);
      return ensured, pushed;
    }
    label Ensured:
    RanStep(b, room, [], b, room, Step.Ensure(MetadataTag), host.releases, host.answers, true);
    LoggedMore([], Step.Ensure(MetadataTag));
    r := push.Files(MetadataTag, source, names);
    TailRan(b, room, [Step.Ensure(MetadataTag)], old@Ensured(host.releases), old@Ensured(host.answers), files,
            host.releases, host.answers, r != Err(HostFault));
    pushed := push.pushed;
  }

  /** Pushes a generation: the manifest onto its own release, then the metadata that names it. */
  method PushGeneration(host: Host, version: nat, manifest: File, source: Directory, names: seq<Path>,
                        stopAfter: Option<nat>, log: seq<(Tag, Path)>)
    returns (r: Result<(), Fault>, pushed: seq<(Tag, Path)>)
    modifies host
    ensures var steps := GenerationSteps(version, manifest, source, names, stopAfter);
            && Ran(old(host.releases), old(host.answers), Calls(old(host.releases), steps),
                   host.releases, host.answers, r != Err(HostFault))
            && pushed == log + Logged(steps[..Done(old(host.releases), steps, old(host.answers))])
    ensures r.Ok? ==> (stopAfter.None? || stopAfter.value > |names|) && Reach(source, names, None) == |names|
  {
    hide Ran, Calls, EnsureCalls, PutCalls, PerformAll, Reach, End, Puts, Sources, Tagged, Logged, Done;
    RanNothing(host.releases, host.answers);
    NothingLogged();
    var tag := GenerationTag(version);
    ghost var all := GenerationSteps(version, manifest, source, names, stopAfter);
    ghost var b, room := host.releases, host.answers;
    var push := new Push(host, stopAfter, log);
    pushed := log;

    assert [] + [Step.Ensure(tag)] + all[1..] == all && [] + [Step.Ensure(tag)] == [Step.Ensure(tag)];
    var ensured := host.EnsureRelease(tag);
    if ensured.Err? {
      CutRan(b, room, [], b, room, Step.Ensure(tag), all[1..], host.releases, host.answers);
      return ensured, pushed;
    }
    RanStep(b, room, [], b, room, Step.Ensure(tag), host.releases, host.answers, true);
    LoggedMore([], Step.Ensure(tag));
    ghost var done := [Step.Ensure(tag)];

    label First:
    ghost var first := Step.Put(tag, Write(Manifest, manifest));
    var put := push.PutOne(tag, Write(Manifest, manifest));
    if put.Err? && put.error != HostFault {
      AllDone(b, room, done, host.releases, host.answers);
      assert all[..1] == done;
      return put, pushed;
    }
    assert all == done + [first] + all[2..];
    if put.Err? {
      CutRan(b, room, done, old@First(host.releases), old@First(host.answers), first, all[2..], host.releases, host.answers);
      return put, pushed;
    }
    r, pushed := PushFiles(push, all, first, source, names, b, room, old@First(host.releases), old@First(host.answers), log);
  }

  /** The rest of a generation's push, its manifest being on its own release. */
  method PushFiles(push: Push, ghost all: seq<Step>, ghost first: Step, source: Directory, names: seq<Path>,
                   ghost b: Releases, ghost room: nat, ghost m: Releases, ghost left: nat, ghost log: seq<(Tag, Path)>)
    returns (r: Result<(), Fault>, pushed: seq<(Tag, Path)>)
    requires push.Valid() && |all| >= 3 && first.Put? && first == all[1] && all[2] == Step.Ensure(MetadataTag)
    requires var n := Reach(source, names, push.Allowed());
             all[3..] == Puts(MetadataTag, Sources(source, names[..n]))
    requires Ran(b, room, Calls(b, all[..1]), m, left, true)
    requires Ran(m, left, StepCalls(m, first), push.host.releases, push.host.answers, true)
    requires push.pushed == log + Logged(all[..1]) + [(first.tag, first.write.name)]
    modifies push, push.host
    ensures Ran(b, room, Calls(b, all), push.host.releases, push.host.answers, r != Err(HostFault))
    ensures pushed == log + Logged(all[..Done(b, all, room)])
    ensures r.Ok? ==> old(Reach(source, names, push.Allowed())) == |names|
  {
    hide Ran, Calls, StepCalls, EnsureCalls, PutCalls, PerformAll, Reach, End, Puts, Sources, Tagged, Logged, Done;
    ghost var done := all[..2];
    assert done == all[..1] + [first];
    RanStep(b, room, all[..1], m, left, first, push.host.releases, push.host.answers, true);
    LoggedMore(all[..1], first);
    pushed := push.pushed;

    label Second:
    ghost var second := Step.Ensure(MetadataTag);
    var ensured := push.host.EnsureRelease(MetadataTag);
    EnsureIsAStep(old@Second(push.host.releases), MetadataTag);
    assert all == done + [second] + all[3..];
    if ensured.Err? {
      CutRan(b, room, done, old@Second(push.host.releases), old@Second(push.host.answers), second, all[3..],
             push.host.releases, push.host.answers);
      return ensured, pushed;
    }
    RanStep(b, room, done, old@Second(push.host.releases), old@Second(push.host.answers), second,
            push.host.releases, push.host.answers, true);
    LoggedMore(done, second);

    label Third:
    r := push.Files(MetadataTag, source, names);
    TailRan(b, room, done + [second], old@Third(push.host.releases), old@Third(push.host.answers), all[3..],
            push.host.releases, push.host.answers, r != Err(HostFault));
    pushed := push.pushed;
  }

  lemma EnsureIsAStep(releases: Releases, tag: Tag)
    ensures StepCalls(releases, Step.Ensure(tag)) == EnsureCalls(releases, tag)
  {
  }

  /**
   What a push that went through has logged: the manifest and then the files of the channel in order, up to the first
   that cannot be read, or as many assets as it was to stop after.
   */
  lemma PushLogsExactly(version: nat, manifest: File, source: Directory, names: seq<Path>, stopAfter: Option<nat>)
    ensures Logged(MetadataSteps(source, names)) == Tagged(MetadataTag, names[..Reach(source, names, None)])
    ensures var whole := [(GenerationTag(version), Manifest)] + Tagged(MetadataTag, names);
            var readable := 1 + Reach(source, names, None);
            Logged(GenerationSteps(version, manifest, source, names, stopAfter))
            == whole[..if stopAfter.Some? && stopAfter.value < readable then stopAfter.value else readable]
  {
    hide Logged, Reach, Puts, Tagged, Sources;
    MetadataLogs(source, names, Reach(source, names, None));
    LoggedOne(Step.Ensure(MetadataTag));
    LoggedAppend([Step.Ensure(MetadataTag)], Puts(MetadataTag, Sources(source, names[..Reach(source, names, None)])));
    if stopAfter == Some(0) {
      LoggedOne(Step.Ensure(GenerationTag(version)));
    } else {
      if stopAfter.Some? { ReachAllowed(source, names, stopAfter.value - 1); }
      GenerationLogs(version, manifest, source, names, Reach(source, names, if stopAfter.Some? then Some(stopAfter.value - 1) else None));
    }
  }

  lemma GenerationLogs(version: nat, manifest: File, source: Directory, names: seq<Path>, n: nat)
    requires n <= |names| && forall i :: 0 <= i < n ==> names[i] in source
    ensures |Tagged(MetadataTag, names)| == |names|
    ensures Logged([Step.Ensure(GenerationTag(version)), Step.Put(GenerationTag(version), Write(Manifest, manifest)),
                    Step.Ensure(MetadataTag)] + Puts(MetadataTag, Sources(source, names[..n])))
            == ([(GenerationTag(version), Manifest)] + Tagged(MetadataTag, names))[..1 + n]
  {
    hide Logged, Puts, Tagged, Sources;
    MetadataLogs(source, names, n);
    LoggedStart(version, manifest);
    LoggedAppend([Step.Ensure(GenerationTag(version)), Step.Put(GenerationTag(version), Write(Manifest, manifest)),
                  Step.Ensure(MetadataTag)], Puts(MetadataTag, Sources(source, names[..n])));
    assert ([(GenerationTag(version), Manifest)] + Tagged(MetadataTag, names))[..1 + n]
           == [(GenerationTag(version), Manifest)] + Tagged(MetadataTag, names)[..n];
  }

  lemma MetadataLogs(source: Directory, names: seq<Path>, n: nat)
    requires n <= |names| && forall i :: 0 <= i < n ==> names[i] in source
    ensures Logged(Puts(MetadataTag, Sources(source, names[..n]))) == Tagged(MetadataTag, names[..n])
    ensures Tagged(MetadataTag, names[..n]) == Tagged(MetadataTag, names)[..n] && |Tagged(MetadataTag, names)| == |names|
  {
    hide Logged;
    var writes := Sources(source, names[..n]);
    assert Names(writes) == names[..n];
    LoggedPuts(MetadataTag, writes);
  }

  lemma LoggedStart(version: nat, manifest: File)
    ensures var tag := GenerationTag(version);
            Logged([Step.Ensure(tag), Step.Put(tag, Write(Manifest, manifest)), Step.Ensure(MetadataTag)]) == [(tag, Manifest)]
  {
    hide Logged;
    var tag := GenerationTag(version);
    var put, ensure := Step.Put(tag, Write(Manifest, manifest)), Step.Ensure(MetadataTag);
    LoggedOne(Step.Ensure(tag));
    LoggedMore([Step.Ensure(tag)], put);
    LoggedMore([Step.Ensure(tag), put], ensure);
    assert [Step.Ensure(tag)] + [put] == [Step.Ensure(tag), put];
    assert [Step.Ensure(tag), put] + [ensure] == [Step.Ensure(tag), put, ensure];
  }

  lemma {:induction false} ReachAllowed(source: Directory, names: seq<Path>, allowed: nat)
    ensures Reach(source, names, Some(allowed)) == if allowed < Reach(source, names, None) then allowed else Reach(source, names, None)
    decreases |names|
  {
    if names != [] && names[0] in source && allowed > 0 {
      ReachAllowed(source, names[1..], allowed - 1);
    }
  }

  lemma Undone(b: Releases, room: nat, done: seq<Step>, m: Releases, left: nat, all: seq<Step>)
    requires done <= all && Ran(b, room, Calls(b, done), m, left, false)
    ensures Ran(b, room, Calls(b, all), m, left, false)
  {
    hide Ran, Calls;
    assert all == done + all[|done|..];
    CallsAppend(b, done, all[|done|..]);
    RanShort(b, room, Calls(b, done), m, left, Calls(End(b, done), all[|done|..]));
  }
}
