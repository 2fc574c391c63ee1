/** What a client of the host sees at every call of a push, wherever the push stops. */
module PushLaws {
  import opened Wrappers
  import opened ChannelNames
  import opened PublishChain
  import opened PublishLaws
  import opened ReleaseHosts
  import opened Pushing

  /** What the channel's base address serves. */
  function Served(releases: Releases): Directory {
    if MetadataTag in releases then releases[MetadataTag] else map[]
  }

  // ----- one asset -----

  lemma OneMoreCall(releases: Releases, calls: seq<Call>, tag: Tag, k: nat, dir: Directory, now: Directory)
    requires tag in releases && 0 < k <= |calls| && calls[k - 1].tag == tag && !calls[k - 1].Create?
    requires PerformAll(releases, calls[..k - 1]) == releases[tag := dir]
    requires now == if calls[k - 1].Look? then dir else OnRelease(dir, calls[k - 1])
    ensures PerformAll(releases, calls[..k]) == releases[tag := now]
  {
    assert calls[..k][..k - 1] == calls[..k - 1];
    assert releases[tag := dir][tag := now] == releases[tag := now];
  }

  /** A release with `left` calls of a replacement still to come. */
  function Swapping(dir: Directory, w: Write, left: nat): Directory {
    var staging := Staging(w.name);
    if left == 0 then (dir - {staging})[w.name := w.file]
    else if left == 1 then (dir - {staging} - {w.name})[staging := w.file]
    else if left == 2 then (dir - {staging})[staging := w.file]
    else if left == 3 then dir - {staging}
    else dir
  }

  lemma {:induction false} SwapStates(releases: Releases, tag: Tag, w: Write, k: nat)
    requires tag in releases && w.name in releases[tag] && !w.name.Staging?
    requires k <= |PutCalls(releases, tag, w)|
    ensures PerformAll(releases, PutCalls(releases, tag, w)[..k])
            == releases[tag := Swapping(releases[tag], w, |PutCalls(releases, tag, w)| - k)]
    decreases k
  {
    hide PerformAll;
    var calls := PutCalls(releases, tag, w);
    var dir := releases[tag];
    if k > 0 {
      SwapStates(releases, tag, w, k - 1);
      assert Swapping(dir, w, |calls| - k) == if calls[k - 1].Look? then dir
                                               else OnRelease(Swapping(dir, w, |calls| - k + 1), calls[k - 1]);
      OneMoreCall(releases, calls, tag, k, Swapping(dir, w, |calls| - k + 1), Swapping(dir, w, |calls| - k));
    } else {
      NoCalls(releases, calls);
      assert releases == releases[tag := dir];
    }
  }

  lemma NoCalls(releases: Releases, calls: seq<Call>)
    ensures PerformAll(releases, calls[..0]) == releases
  {
    assert calls[..0] == [];
  }

  /** A release with `left` calls of an upload under a free name still to come. */
  function Uploading(dir: Directory, w: Write, left: nat): Directory {
    if left == 0 then (dir - {Staging(w.name)})[w.name := w.file]
    else if left == 1 then dir - {Staging(w.name)}
    else dir
  }

  lemma {:induction false} UploadStates(releases: Releases, tag: Tag, w: Write, k: nat)
    requires tag in releases && w.name !in releases[tag]
    requires k <= |PutCalls(releases, tag, w)|
    ensures PerformAll(releases, PutCalls(releases, tag, w)[..k])
            == releases[tag := Uploading(releases[tag], w, |PutCalls(releases, tag, w)| - k)]
    decreases k
  {
    hide PerformAll;
    var calls := PutCalls(releases, tag, w);
    var dir := releases[tag];
    if k > 0 {
      UploadStates(releases, tag, w, k - 1);
      OneMoreCall(releases, calls, tag, k, Uploading(dir, w, |calls| - k + 1), Uploading(dir, w, |calls| - k));
    } else {
      NoCalls(releases, calls);
      assert releases == releases[tag := dir];
    }
  }

  /** At every call of a replacement the asset's bytes, old or new, are on the release under its name or the staging name. */
  lemma ReplacementKeepsBytes(releases: Releases, tag: Tag, w: Write, k: nat)
    requires tag in releases && w.name in releases[tag] && !w.name.Staging?
    requires k <= |PutCalls(releases, tag, w)|
    ensures var now := PerformAll(releases, PutCalls(releases, tag, w)[..k]);
            tag in now
            && (|| (w.name in now[tag] && now[tag][w.name] == releases[tag][w.name])
                || (w.name in now[tag] && now[tag][w.name] == w.file)
                || (Staging(w.name) in now[tag] && now[tag][Staging(w.name)] == w.file))
  {
    SwapStates(releases, tag, w, k);
  }

  function PutEnd(dir: Directory, w: Write): Directory { (dir - {Staging(w.name)})[w.name := w.file] }

  /** A put that runs to its end leaves the new bytes under the name, no staged copy, and every other asset alone. */
  lemma PutCompletes(releases: Releases, tag: Tag, w: Write)
    requires tag in releases && !w.name.Staging?
    ensures StepEnd(releases, Step.Put(tag, w)) == releases[tag := PutEnd(releases[tag], w)]
  {
    var calls := PutCalls(releases, tag, w);
    assert calls[..|calls|] == calls;
    if w.name in releases[tag] { SwapStates(releases, tag, w, |calls|); } else { UploadStates(releases, tag, w, |calls|); }
  }

  lemma CutOnlyTouchesItsNames(releases: Releases, tag: Tag, w: Write, k: nat)
    requires tag in releases && !w.name.Staging? && k <= |PutCalls(releases, tag, w)|
    ensures var cut := PerformAll(releases, PutCalls(releases, tag, w)[..k]);
            && tag in cut && cut == releases[tag := cut[tag]]
            && PutEnd(cut[tag], w) == PutEnd(releases[tag], w)
  {
    if w.name in releases[tag] { SwapStates(releases, tag, w, k); } else { UploadStates(releases, tag, w, k); }
  }

  /** Retrying a put cut at any call ends exactly where a put that was never cut ends. */
  lemma RetryForgetsTheCut(releases: Releases, tag: Tag, w: Write, k: nat)
    requires tag in releases && !w.name.Staging? && k <= |PutCalls(releases, tag, w)|
    ensures var cut := PerformAll(releases, PutCalls(releases, tag, w)[..k]);
            tag in cut && StepEnd(cut, Step.Put(tag, w)) == StepEnd(releases, Step.Put(tag, w))
  {
    hide PerformAll, PutCalls, PutEnd, StepEnd;
    var cut := PerformAll(releases, PutCalls(releases, tag, w)[..k]);
    CutOnlyTouchesItsNames(releases, tag, w, k);
    PutCompletes(releases, tag, w);
    PutCompletes(cut, tag, w);
  }

  // ----- calls that leave a served chain alone -----

  /** The names a client of `view` reads besides the timestamp. */
  function Reads(view: View): set<Path>
    requires Linked(view)
  {
    {Versioned(Snapshot, view.snapshot.version), Versioned(Targets, view.targets.version)}
    + if Generation(view).Some? then {Target(Generation(view).value)} else {}
  }

  /** Changes nothing a client of `view` reads. */
  ghost predicate Harmless(view: View, call: Call)
    requires Linked(view)
  {
    var fixed := Reads(view) + {Plain(Timestamp)};
    match call
    case Upload(_, name, _) => name !in fixed
    case Delete(_, name) => name !in fixed
    case Rename(_, name, to) => name !in fixed && to !in fixed
    case _ => true
  }

  lemma HarmlessKeeps(releases: Releases, view: View, call: Call)
    requires Linked(view) && Serves(Served(releases), view) && (call.tag == MetadataTag ==> Harmless(view, call))
    ensures Serves(Served(Perform(releases, call)), view)
  {
  }

  lemma {:induction false} HarmlessCallsKeep(releases: Releases, view: View, calls: seq<Call>)
    requires Linked(view) && Serves(Served(releases), view)
    requires forall call <- calls :: call.tag == MetadataTag ==> Harmless(view, call)
    ensures Serves(Served(PerformAll(releases, calls)), view)
    decreases |calls|
  {
    hide Serves, Harmless, Perform;
    if calls != [] {
      HarmlessCallsKeep(releases, view, calls[..|calls| - 1]);
      HarmlessKeeps(PerformAll(releases, calls[..|calls| - 1]), view, calls[|calls| - 1]);
    }
  }

  /** Calls that put no timestamp where there is none. */
  lemma {:induction false} NoTimestampStays(releases: Releases, calls: seq<Call>)
    requires Plain(Timestamp) !in Served(releases)
    requires forall call <- calls :: call.tag == MetadataTag ==> (call.Upload? ==> call.name != Plain(Timestamp))
                                                                 && (call.Rename? ==> call.to != Plain(Timestamp))
    ensures Plain(Timestamp) !in Served(PerformAll(releases, calls))
    decreases |calls|
  {
    if calls != [] {
      NoTimestampStays(releases, calls[..|calls| - 1]);
    }
  }

  /** What a front of a push writes to the channel: neither the timestamp nor a staged name. */
  ghost predicate Front(writes: seq<Write>) {
    forall w <- writes :: w.name != Plain(Timestamp) && !w.name.Staging?
  }

  /** A step that touches the channel only under fresh names. */
  ghost predicate Fresh(view: View, step: Step)
    requires Linked(view)
  {
    step.Put? && step.tag == MetadataTag ==>
      step.write.name !in Reads(view) + {Plain(Timestamp)} && !step.write.name.Staging?
  }

  lemma {:induction false} FreshCallsAreHarmless(releases: Releases, view: View, steps: seq<Step>)
    requires Linked(view) && forall step <- steps :: Fresh(view, step)
    ensures forall call <- Calls(releases, steps) :: call.tag == MetadataTag ==> Harmless(view, call)
    decreases |steps|
  {
    hide StepEnd;
    if steps != [] {
      assert Fresh(view, steps[0]);
      assert forall call <- StepCalls(releases, steps[0]) :: call.tag == MetadataTag ==> Harmless(view, call);
      FreshCallsAreHarmless(StepEnd(releases, steps[0]), view, steps[1..]);
    }
  }

  lemma {:induction false} FrontCallsAddNoTimestamp(releases: Releases, steps: seq<Step>)
    requires forall step <- steps :: step.Put? && step.tag == MetadataTag ==> step.write.name != Plain(Timestamp)
    ensures forall call <- Calls(releases, steps) :: call.tag == MetadataTag ==>
              (call.Upload? ==> call.name != Plain(Timestamp)) && (call.Rename? ==> call.to != Plain(Timestamp))
    decreases |steps|
  {
    hide StepEnd;
    if steps != [] {
      assert forall call <- StepCalls(releases, steps[0]) :: call.tag == MetadataTag ==>
        (call.Upload? ==> call.name != Plain(Timestamp)) && (call.Rename? ==> call.to != Plain(Timestamp));
      FrontCallsAddNoTimestamp(StepEnd(releases, steps[0]), steps[1..]);
    }
  }

  // ----- a whole push -----

  /** `start` brings the releases up; then the front of the channel's files lands, and the timestamp last. */
  function ChannelSteps(start: seq<Step>, front: seq<Write>, timestamp: File): seq<Step> {
    start + Puts(MetadataTag, front) + [Step.Put(MetadataTag, Write(Plain(Timestamp), timestamp))]
  }

  /** Everything before the channel's own files: no put on the channel's release. */
  ghost predicate Start(start: seq<Step>) {
    forall step <- start :: step.Put? ==> step.tag != MetadataTag
  }

  /** What a client finds at a call before the last: the chain it found before the push, or no entry point. */
  ghost predicate OldOrNone(dir: Directory, view: View) {
    Serves(dir, view) || Plain(Timestamp) !in dir
  }

  lemma {:induction false} CallsOfAPush(releases: Releases, start: seq<Step>, front: seq<Write>, timestamp: File)
    ensures var before := start + Puts(MetadataTag, front);
            Calls(releases, ChannelSteps(start, front, timestamp))
            == Calls(releases, before)
               + PutCalls(End(releases, before), MetadataTag, Write(Plain(Timestamp), timestamp))
    ensures End(releases, ChannelSteps(start, front, timestamp))
            == StepEnd(End(releases, start + Puts(MetadataTag, front)), Step.Put(MetadataTag, Write(Plain(Timestamp), timestamp)))
  {
    hide PutCalls, PerformAll;
    var before := start + Puts(MetadataTag, front);
    var last := Step.Put(MetadataTag, Write(Plain(Timestamp), timestamp));
    CallsAppend(releases, before, [last]);
    CallsOfOne(End(releases, before), last);
    assert [last][1..] == [];
  }

  lemma TimestampSwap(releases: Releases, view: View, timestamp: File, k: nat)
    requires Linked(view) && Serves(Served(releases), view)
    requires k < |PutCalls(releases, MetadataTag, Write(Plain(Timestamp), timestamp))|
    ensures OldOrNone(Served(PerformAll(releases, PutCalls(releases, MetadataTag, Write(Plain(Timestamp), timestamp))[..k])), view)
  {
    var w := Write(Plain(Timestamp), timestamp);
    SwapStates(releases, MetadataTag, w, k);
    var dir := Served(releases);
    var now := Served(PerformAll(releases, PutCalls(releases, MetadataTag, w)[..k]));
    ServesExactly(dir, view);
    ServesExactly(now, view);
  }

  lemma FreshPushStatesAreSafe(releases: Releases, view: View, start: seq<Step>, front: seq<Write>, timestamp: File, k: nat)
    requires Linked(view) && Serves(Served(releases), view) && Start(start) && Front(front)
    requires forall w <- front :: w.name !in Reads(view)
    requires k < |Calls(releases, ChannelSteps(start, front, timestamp))|
    ensures OldOrNone(Served(PerformAll(releases, Calls(releases, ChannelSteps(start, front, timestamp))[..k])), view)
  {
    hide Serves, Calls, PutCalls, PerformAll, Harmless, Reads;
    var before := start + Puts(MetadataTag, front);
    var calls := Calls(releases, before);
    var last := PutCalls(End(releases, before), MetadataTag, Write(Plain(Timestamp), timestamp));
    CallsOfAPush(releases, start, front, timestamp);
    FreshCallsAreHarmless(releases, view, before);
    if k <= |calls| {
      assert (calls + last)[..k] == calls[..k];
      HarmlessCallsKeep(releases, view, calls[..k]);
    } else {
      HarmlessCallsKeep(releases, view, calls);
      EndPerforms(releases, before);
      assert (calls + last)[..k] == calls + last[..k - |calls|];
      PerformAppend(releases, calls, last[..k - |calls|]);
      TimestampSwap(End(releases, before), view, timestamp, k - |calls|);
    }
  }

  /** The first file of a front that the served chain reads is taken down while the chain still names it. */
  lemma PinnedNameIsTakenDown(releases: Releases, view: View, start: seq<Step>, front: seq<Write>, timestamp: File, j: nat)
    returns (k: nat)
    requires Linked(view) && Serves(Served(releases), view) && Start(start) && Front(front)
    requires j < |front| && front[j].name in Reads(view) && forall i :: 0 <= i < j ==> front[i].name !in Reads(view)
    ensures k < |Calls(releases, ChannelSteps(start, front, timestamp))|
    ensures !OldOrNone(Served(PerformAll(releases, Calls(releases, ChannelSteps(start, front, timestamp))[..k])), view)
  {
    hide Calls, PerformAll, Harmless, PutCalls, Serves;
    var before := start + Puts(MetadataTag, front[..j]);
    var step := Step.Put(MetadataTag, front[j]);
    var rest := Puts(MetadataTag, front[j + 1..]) + [Step.Put(MetadataTag, Write(Plain(Timestamp), timestamp))];
    assert ChannelSteps(start, front, timestamp) == before + ([step] + rest);
    CallsAppend(releases, before, [step] + rest);
    FreshCallsAreHarmless(releases, view, before);
    HarmlessCallsKeep(releases, view, Calls(releases, before));
    EndPerforms(releases, before);
    var mid := End(releases, before);
    CallsAppend(mid, [step], rest);
    CallsOfOne(mid, step);
    var calls := PutCalls(mid, MetadataTag, front[j]);
    var i := TakenDown(mid, view, front[j]);
    k := |Calls(releases, before)| + i;
    assert Calls(releases, ChannelSteps(start, front, timestamp))[..k] == Calls(releases, before) + calls[..i];
    PerformAppend(releases, Calls(releases, before), calls[..i]);
  }

  lemma TakenDown(releases: Releases, view: View, w: Write) returns (i: nat)
    requires Linked(view) && Serves(Served(releases), view) && w.name in Reads(view)
    ensures i < |PutCalls(releases, MetadataTag, w)|
    ensures !OldOrNone(Served(PerformAll(releases, PutCalls(releases, MetadataTag, w)[..i])), view)
  {
    ServesExactly(Served(releases), view);
    var calls := PutCalls(releases, MetadataTag, w);
    i := |calls| - 1;
    SwapStates(releases, MetadataTag, w, i);
    var now := Served(PerformAll(releases, calls[..i]));
    assert w.name !in now && Plain(Timestamp) in now;
    ServesExactly(now, view);
  }

  /**
   At every call of a push before its last a client finds the chain served before it, or no entry point,
   exactly when the push rewrites none of the files that chain reads.
   */
  lemma CutPushIsSafeExactly(releases: Releases, view: View, start: seq<Step>, front: seq<Write>, timestamp: File)
    requires Linked(view) && Serves(Served(releases), view) && Start(start) && Front(front)
    ensures (forall k: nat :: k < |Calls(releases, ChannelSteps(start, front, timestamp))| ==>
               OldOrNone(Served(PerformAll(releases, Calls(releases, ChannelSteps(start, front, timestamp))[..k])), view))
            <==> forall w <- front :: w.name !in Reads(view)
  {
    hide Serves, Calls, PerformAll, Reads, OldOrNone;
    if forall w <- front :: w.name !in Reads(view) {
      forall k: nat | k < |Calls(releases, ChannelSteps(start, front, timestamp))|
        ensures OldOrNone(Served(PerformAll(releases, Calls(releases, ChannelSteps(start, front, timestamp))[..k])), view)
      {
        FreshPushStatesAreSafe(releases, view, start, front, timestamp, k);
      }
    } else {
      var j := FirstPinned(view, front);
      var k := PinnedNameIsTakenDown(releases, view, start, front, timestamp, j);
    }
  }

  lemma {:induction false} FirstPinned(view: View, front: seq<Write>) returns (j: nat)
    requires Linked(view) && exists w <- front :: w.name in Reads(view)
    ensures j < |front| && front[j].name in Reads(view) && forall i :: 0 <= i < j ==> front[i].name !in Reads(view)
    decreases |front|
  {
    if front[0].name in Reads(view) {
      j := 0;
    } else {
      assert exists w <- front[1..] :: w.name in Reads(view);
      j := FirstPinned(view, front[1..]);
      j := j + 1;
    }
  }

  // ----- where a push that completes ends -----

  function Landing(dir: Directory, writes: seq<Write>): Directory {
    if writes == [] then dir else PutEnd(Landing(dir, writes[..|writes| - 1]), writes[|writes| - 1])
  }

  lemma {:induction false} PutsLand(releases: Releases, writes: seq<Write>)
    requires MetadataTag in releases && forall w <- writes :: !w.name.Staging?
    ensures MetadataTag in End(releases, Puts(MetadataTag, writes))
    ensures Served(End(releases, Puts(MetadataTag, writes))) == Landing(releases[MetadataTag], writes)
    decreases |writes|
  {
    hide StepEnd, PutEnd;
    if writes != [] {
      var before, last := writes[..|writes| - 1], writes[|writes| - 1];
      PutsLand(releases, before);
      assert Puts(MetadataTag, writes) == Puts(MetadataTag, before) + [Step.Put(MetadataTag, last)];
      CallsAppend(releases, Puts(MetadataTag, before), [Step.Put(MetadataTag, last)]);
      var mid := End(releases, Puts(MetadataTag, before));
      assert [Step.Put(MetadataTag, last)][1..] == [];
      PutCompletes(mid, MetadataTag, last);
    }
  }

  lemma StepOffTheChannel(releases: Releases, step: Step)
    requires step.Put? ==> step.tag != MetadataTag
    ensures Served(StepEnd(releases, step)) == Served(releases)
    ensures releases.Keys <= StepEnd(releases, step).Keys
    ensures step.Ensure? ==> step.tag in StepEnd(releases, step)
  {
    var calls := StepCalls(releases, step);
    ReleasesStay(releases, calls);
    OffTheChannel(releases, calls);
    if step.Ensure? {
      assert calls[..|calls| - 1] == if step.tag in releases then [] else [Look(step.tag)];
      assert [Look(step.tag)][..0] == [];
    }
  }

  lemma {:induction false} OffTheChannel(releases: Releases, calls: seq<Call>)
    requires forall call <- calls :: call.tag == MetadataTag ==> call.Look? || call.Create?
    ensures Served(PerformAll(releases, calls)) == Served(releases)
    decreases |calls|
  {
    if calls != [] {
      OffTheChannel(releases, calls[..|calls| - 1]);
    }
  }

  /** The steps before the channel's files leave what it serves, and its release is there after them. */
  lemma {:induction false} StartLeavesTheChannel(releases: Releases, start: seq<Step>)
    requires Start(start)
    ensures Served(End(releases, start)) == Served(releases)
    ensures releases.Keys <= End(releases, start).Keys
    ensures Ensure(MetadataTag) in start ==> MetadataTag in End(releases, start)
    decreases |start|
  {
    hide StepEnd, Served;
    if start != [] {
      StepOffTheChannel(releases, start[0]);
      StartLeavesTheChannel(StepEnd(releases, start[0]), start[1..]);
    }
  }

  lemma {:induction false} LandingKeeps(dir: Directory, writes: seq<Write>, name: Path)
    requires !name.Staging? && forall w <- writes :: w.name != name
    ensures name in Landing(dir, writes) <==> name in dir
    ensures name in dir ==> Landing(dir, writes)[name] == dir[name]
    decreases |writes|
  {
    if writes != [] {
      LandingKeeps(dir, writes[..|writes| - 1], name);
    }
  }

  lemma {:induction false} LandingAppend(dir: Directory, first: seq<Write>, second: seq<Write>)
    ensures Landing(dir, first + second) == Landing(Landing(dir, first), second)
    decreases |second|
  {
    hide PutEnd;
    if second == [] {
      assert first + second == first;
    } else {
      var n := |second| - 1;
      assert (first + second)[..|first + second| - 1] == first + second[..n];
      LandingAppend(dir, first, second[..n]);
    }
  }

  lemma ChainLandsOnTheHost(dir: Directory, view: View)
    requires Linked(view)
    ensures var after := Landing(dir, ChainWrites(view));
            && Walk(after) == Some(view)
            && (HasManifest(after, view) <==> HasManifest(dir, view))
  {
    var w := ChainWrites(view);
    assert w[..2][..1] == w[..1] && w[..1][..0] == [];
    assert Landing(dir, w[..1]) == PutEnd(dir, w[0]);
    assert Landing(dir, w[..2]) == PutEnd(Landing(dir, w[..1]), w[1]);
    assert Landing(dir, w) == PutEnd(Landing(dir, w[..2]), w[2]);
    if Generation(view).Some? { LandingKeeps(dir, w, Target(Generation(view).value)); }
  }

  /**
   A push that completes, over whatever an earlier one left, always ends with the chain it pushed being
   walked, and serves it whole exactly when the manifest it names is on the release or was pushed first.
   */
  lemma CompletePushServesExactly(releases: Releases, start: seq<Step>, targets: seq<Write>, view: View)
    requires Linked(view) && Start(start) && Ensure(MetadataTag) in start
    requires forall w <- targets :: w.name.Target?
    ensures var end := Served(End(releases, start + Puts(MetadataTag, targets + ChainWrites(view))));
            && Walk(end) == Some(view)
            && (Serves(end, view) <==> HasManifest(Landing(Served(releases), targets), view))
  {
    hide StepEnd, Walk, Landing, HasManifest;
    var writes := targets + ChainWrites(view);
    CallsAppend(releases, start, Puts(MetadataTag, writes));
    StartLeavesTheChannel(releases, start);
    PutsLand(End(releases, start), writes);
    LandingAppend(Served(releases), targets, ChainWrites(view));
    ChainLandsOnTheHost(Landing(Served(releases), targets), view);
    ServedIsWalkedAndHeld(Served(End(releases, start + Puts(MetadataTag, writes))), view);
  }

  lemma ServedIsWalkedAndHeld(dir: Directory, view: View)
    ensures Serves(dir, view) <==> Walk(dir) == Some(view) && HasManifest(dir, view)
  {
  }

  // ----- pushing what a workspace published -----

  /** The steps of a generation's push that nothing stops. */
  function PublishSteps(version: nat, manifest: File, writes: seq<Write>): seq<Step> {
    [Ensure(GenerationTag(version)), Step.Put(GenerationTag(version), Write(Manifest, manifest)), Ensure(MetadataTag)]
    + Puts(MetadataTag, writes)
  }

  /** What a publish reported is what its push sends: the files are on disk as they were written. */
  lemma PublishedFilesArePushed(dir: Directory, job: Job, version: nat)
    requires job.Publish? && JobChain(dir, job).Ok?
    ensures var writes := JobWrites(dir, job);
            GenerationSteps(version, job.manifest, Applied(dir, writes), Names(writes), None)
            == PublishSteps(version, job.manifest, writes)
  {
    var writes := JobWrites(dir, job);
    var after := Applied(dir, writes);
    assert |writes| == 4;
    forall i | 0 <= i < 4 ensures writes[i].name in after && after[writes[i].name] == writes[i].file {
      assert writes == writes[..i + 1] + writes[i + 1..];
      AppliedAppend(dir, writes[..i + 1], writes[i + 1..]);
      assert writes[..i + 1][..i] == writes[..i];
      NameStays(Applied(dir, writes[..i + 1]), writes[i].name, writes[i + 1..]);
    }
    assert forall i :: 0 <= i < 4 ==> Names(writes)[i] in after;
    var n := Reach(after, Names(writes), None);
    assert n == 4;
    assert Names(writes)[..4] == Names(writes);
    assert Sources(after, Names(writes)) == writes;
  }

  /** Stopping a push early leaves a cut of the whole push, and nothing else. */
  lemma StoppedPushIsACut(releases: Releases, version: nat, manifest: File, source: Directory, names: seq<Path>, stop: nat)
    ensures Calls(releases, GenerationSteps(version, manifest, source, names, Some(stop)))
            <= Calls(releases, GenerationSteps(version, manifest, source, names, None))
  {
    hide StepCalls, Calls;
    var short := GenerationSteps(version, manifest, source, names, Some(stop));
    var long := GenerationSteps(version, manifest, source, names, None);
    if stop > 0 { ReachAllowed(source, names, stop - 1); }
    assert short <= long;
    assert long == short + long[|short|..];
    CallsAppend(releases, short, long[|short|..]);
  }

  /**
   A push of a freshly published generation over a host that serves another chain. Cut at any call before
   its last it shows that chain or no entry point exactly when the two carry different snapshot and
   targets versions and name different manifests; run to its end it always serves the new generation.
   */
  lemma PublishPushExactly(dir: Directory, current: View, job: Job, releases: Releases, live: View, version: nat)
    requires Walk(dir) == Some(current) && job.Publish? && JobChain(dir, job).Ok? && Serves(Served(releases), live)
    ensures Linked(live)
    ensures var steps := PublishSteps(version, job.manifest, JobWrites(dir, job));
            && ((forall k: nat :: k < |Calls(releases, steps)| ==>
                   OldOrNone(Served(PerformAll(releases, Calls(releases, steps)[..k])), live))
                <==> && Versions(live).1 != Versions(current).1 + 1
                     && Versions(live).2 != Versions(current).2 + 1
                     && Generation(live) != Some(Digest(job.manifest)))
            && Serves(Served(End(releases, steps)), JobChain(dir, job).value)
  {
    hide Calls, End, PerformAll, Serves, OldOrNone;
    var successor := JobChain(dir, job).value;
    var writes := JobWrites(dir, job);
    var manifest := Write(Target(Digest(job.manifest)), job.manifest);
    var start := [Ensure(GenerationTag(version)), Step.Put(GenerationTag(version), Write(Manifest, job.manifest)),
                  Ensure(MetadataTag)];
    var front := [manifest] + ChainWrites(successor)[..2];
    ServesExactly(Served(releases), live);
    JobAdvances(dir, current, job, successor);
    assert writes == front + [Write(Plain(Timestamp), successor.timestamp)];
    assert PublishSteps(version, job.manifest, writes) == ChannelSteps(start, front, successor.timestamp);
    CutPushIsSafeExactly(releases, live, start, front, successor.timestamp);
    FrontMeetsReads(live, front, job.manifest, successor);
    assert writes == [manifest] + ChainWrites(successor);
    CompletePushServesExactly(releases, start, [manifest], successor);
    assert [manifest][..0] == [];
    assert Landing(Served(releases), [manifest]) == PutEnd(Served(releases), manifest);
  }

  lemma FrontMeetsReads(live: View, front: seq<Write>, manifest: File, successor: View)
    requires Linked(live) && Linked(successor)
    requires front == [Write(Target(Digest(manifest)), manifest)] + ChainWrites(successor)[..2]
    ensures (forall w <- front :: w.name !in Reads(live))
            <==> && Versions(live).1 != Versions(successor).1
                 && Versions(live).2 != Versions(successor).2
                 && Generation(live) != Some(Digest(manifest))
  {
    assert front[0] in front && front[1] in front && front[2] in front;
  }

  /**
   A push of a re-signed channel: safe to cut exactly when the versions differ, and at its end whole
   exactly when the host already has the manifest the workspace's chain names.
   */
  lemma ResignPushExactly(dir: Directory, current: View, job: Job, releases: Releases, live: View)
    requires Walk(dir) == Some(current) && job.Resign? && JobChain(dir, job).Ok?
    requires Linked(live) && Serves(Served(releases), live)
    ensures var steps := [Ensure(MetadataTag)] + Puts(MetadataTag, JobWrites(dir, job));
            && ((forall k: nat :: k < |Calls(releases, steps)| ==>
                   OldOrNone(Served(PerformAll(releases, Calls(releases, steps)[..k])), live))
                <==> Versions(live).1 != Versions(current).1 + 1 && Versions(live).2 != Versions(current).2 + 1)
            && Walk(Served(End(releases, steps))) == Some(JobChain(dir, job).value)
            && (Serves(Served(End(releases, steps)), JobChain(dir, job).value) <==> HasManifest(Served(releases), current))
  {
    hide Calls, End, PerformAll, Serves, OldOrNone, Walk, WalkFrom, Served, JobWrites, JobChain, Versions, Reads, Generation;
    var successor := JobChain(dir, job).value;
    var front := ResignFront(dir, current, job, live);
    assert [Ensure(MetadataTag)] + Puts(MetadataTag, JobWrites(dir, job))
           == ChannelSteps([Ensure(MetadataTag)], front, successor.timestamp);
    CutPushIsSafeExactly(releases, live, [Ensure(MetadataTag)], front, successor.timestamp);
    assert [] + ChainWrites(successor) == ChainWrites(successor);
    CompletePushServesExactly(releases, [Ensure(MetadataTag)], [], successor);
  }

  lemma ResignFront(dir: Directory, current: View, job: Job, live: View) returns (front: seq<Write>)
    requires Walk(dir) == Some(current) && job.Resign? && JobChain(dir, job).Ok? && Linked(live)
    ensures Front(front) && JobWrites(dir, job) == front + [Write(Plain(Timestamp), JobChain(dir, job).value.timestamp)]
    ensures JobWrites(dir, job) == ChainWrites(JobChain(dir, job).value)
    ensures (forall w <- front :: w.name !in Reads(live))
            <==> Versions(live).1 != Versions(current).1 + 1 && Versions(live).2 != Versions(current).2 + 1
    ensures Generation(JobChain(dir, job).value) == Generation(current)
  {
    var successor := JobChain(dir, job).value;
    JobAdvances(dir, current, job, successor);
    front := ChainWrites(successor)[..2];
    assert front[0] in front && front[1] in front;
  }

  /** In particular a host no further on than the workspace, serving another manifest, is never seen torn. */
  lemma PublishPushFromASyncedWorkspace(dir: Directory, current: View, job: Job, releases: Releases, live: View, version: nat, k: nat)
    requires Walk(dir) == Some(current) && job.Publish? && JobChain(dir, job).Ok? && Serves(Served(releases), live)
    requires Versions(live).1 <= Versions(current).1 && Versions(live).2 <= Versions(current).2
    requires Generation(live) != Some(Digest(job.manifest))
    requires k < |Calls(releases, PublishSteps(version, job.manifest, JobWrites(dir, job)))|
    ensures OldOrNone(Served(PerformAll(releases, Calls(releases, PublishSteps(version, job.manifest, JobWrites(dir, job)))[..k])), live)
  {
    hide Calls, End, PerformAll, Serves, OldOrNone, PublishSteps;
    PublishPushExactly(dir, current, job, releases, live, version);
  }

  /** A first push, to a host with no entry point, shows none until its last call. */
  lemma FirstPushShowsNothingEarly(releases: Releases, start: seq<Step>, front: seq<Write>, timestamp: File, k: nat)
    requires Plain(Timestamp) !in Served(releases) && Start(start) && Front(front)
    requires k < |Calls(releases, ChannelSteps(start, front, timestamp))|
    ensures Plain(Timestamp) !in Served(PerformAll(releases, Calls(releases, ChannelSteps(start, front, timestamp))[..k]))
  {
    hide Calls, PerformAll, PutCalls;
    var before := start + Puts(MetadataTag, front);
    var calls := Calls(releases, before);
    var w := Write(Plain(Timestamp), timestamp);
    var last := PutCalls(End(releases, before), MetadataTag, w);
    CallsOfAPush(releases, start, front, timestamp);
    FrontCallsAddNoTimestamp(releases, before);
    if k <= |calls| {
      assert (calls + last)[..k] == calls[..k];
      NoTimestampStays(releases, calls[..k]);
    } else {
      NoTimestampStays(releases, calls);
      EndPerforms(releases, before);
      assert (calls + last)[..k] == calls + last[..k - |calls|];
      PerformAppend(releases, calls, last[..k - |calls|]);
      EarlyCallsOfAnUpload(End(releases, before), w, k - |calls|);
    }
  }

  lemma EarlyCallsOfAnUpload(releases: Releases, w: Write, k: nat)
    requires w.name !in Served(releases) && k < |PutCalls(releases, MetadataTag, w)|
    ensures w.name !in Served(PerformAll(releases, PutCalls(releases, MetadataTag, w)[..k]))
  {
    if MetadataTag in releases {
      UploadStates(releases, MetadataTag, w, k);
    } else {
      assert PutCalls(releases, MetadataTag, w)[..0] == [];
    }
  }
}
