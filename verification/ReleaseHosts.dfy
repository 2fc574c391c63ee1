/**
 Carrying a channel to a host that serves it as named assets on named releases, one call at a time.

 An asset's identifier is its name: a release never holds two assets of one name, and only one
 publisher is at work. The host may stop answering before any call.
 */
module ReleaseHosts {
  import opened Wrappers
  import opened ChannelNames
  import opened PublishChain

  /** The release each channel's metadata is replaced on, and one release a generation. */
  datatype Tag = MetadataTag | GenerationTag(version: nat)

  type Releases = map<Tag, Directory>

  datatype Call =
    | Look(tag: Tag)
    | Create(tag: Tag)
    | Upload(tag: Tag, name: Path, file: File)
    | Delete(tag: Tag, name: Path)
    | Rename(tag: Tag, name: Path, to: Path)

  /** What a call does: an upload or a rename onto a name in use is refused, a delete of nothing succeeds. */
  function Perform(releases: Releases, call: Call): Releases {
    if call.Look? then releases
    else if call.Create? then (if call.tag in releases then releases else releases[call.tag := map[]])
    else if call.tag !in releases then releases
    else releases[call.tag := OnRelease(releases[call.tag], call)]
  }

  function OnRelease(dir: Directory, call: Call): Directory {
    match call
    case Upload(_, name, file) => if name in dir then dir else dir[name := file]
    case Delete(_, name) => dir - {name}
    case Rename(_, name, to) => if name !in dir || to in dir then dir else (dir - {name})[to := dir[name]]
    case _ => dir
  }

  function PerformAll(releases: Releases, calls: seq<Call>): Releases {
    if calls == [] then releases
    else Perform(PerformAll(releases, calls[..|calls| - 1]), calls[|calls| - 1])
  }

  function EnsureCalls(releases: Releases, tag: Tag): seq<Call> {
    [Look(tag)] + if tag in releases then [] else [Create(tag)]
  }

  /** Clears what an interrupted swap left, then uploads a free name or swaps one in use. */
  function PutCalls(releases: Releases, tag: Tag, w: Write): seq<Call> {
    if tag !in releases then [Look(tag)]
    else
      var staging := Staging(w.name);
      [Look(tag)]
      + (if staging in releases[tag] then [Delete(tag, staging)] else [])
      + (if w.name !in releases[tag] then [Upload(tag, w.name, w.file)]
         else [Upload(tag, staging, w.file), Delete(tag, w.name), Rename(tag, staging, w.name)])
  }

  datatype Step = Ensure(tag: Tag) | Put(tag: Tag, write: Write)

  function StepCalls(releases: Releases, step: Step): seq<Call> {
    match step
    case Ensure(tag) => EnsureCalls(releases, tag)
    case Put(tag, w) => PutCalls(releases, tag, w)
  }

  function StepEnd(releases: Releases, step: Step): Releases {
    PerformAll(releases, StepCalls(releases, step))
  }

  function Calls(releases: Releases, steps: seq<Step>): seq<Call>
    decreases |steps|
  {
    if steps == [] then [] else StepCalls(releases, steps[0]) + Calls(StepEnd(releases, steps[0]), steps[1..])
  }

  function End(releases: Releases, steps: seq<Step>): Releases
    decreases |steps|
  {
    if steps == [] then releases else End(StepEnd(releases, steps[0]), steps[1..])
  }

  // ----- exactly the first calls the host answered -----

  ghost predicate Ran(before: Releases, room: nat, calls: seq<Call>, after: Releases, left: nat, ok: bool) {
    var n := if |calls| <= room then |calls| else room;
    ok == (|calls| <= room) && after == PerformAll(before, calls[..n]) && left == room - n
  }

  lemma {:induction false} PerformAppend(releases: Releases, first: seq<Call>, second: seq<Call>)
    ensures PerformAll(releases, first + second) == PerformAll(PerformAll(releases, first), second)
    decreases |second|
  {
    if second == [] {
      assert first + second == first;
    } else {
      var n := |second| - 1;
      assert (first + second)[..|first + second| - 1] == first + second[..n];
      PerformAppend(releases, first, second[..n]);
    }
  }

  lemma RanNothing(b: Releases, r: nat)
    ensures Ran(b, r, Calls(b, []), b, r, true)
  {
  }

  lemma RanThen(b: Releases, r: nat, first: seq<Call>, m: Releases, r1: nat, second: seq<Call>, e: Releases, r2: nat, ok: bool)
    requires Ran(b, r, first, m, r1, true) && Ran(m, r1, second, e, r2, ok)
    ensures Ran(b, r, first + second, e, r2, ok)
  {
    var n := if |second| <= r1 then |second| else r1;
    assert first[..|first|] == first;
    assert (first + second)[..|first| + n] == first + second[..n];
    PerformAppend(b, first, second[..n]);
  }

  lemma RanShort(b: Releases, r: nat, first: seq<Call>, m: Releases, r1: nat, second: seq<Call>)
    requires Ran(b, r, first, m, r1, false)
    ensures Ran(b, r, first + second, m, r1, false)
  {
    assert (first + second)[..r] == first[..r];
  }

  lemma RanWhole(b: Releases, r: nat, calls: seq<Call>, e: Releases, left: nat)
    requires Ran(b, r, calls, e, left, true)
    ensures e == PerformAll(b, calls)
  {
    assert calls[..|calls|] == calls;
  }

  lemma {:induction false} CallsAppend(releases: Releases, first: seq<Step>, second: seq<Step>)
    ensures Calls(releases, first + second) == Calls(releases, first) + Calls(End(releases, first), second)
    ensures End(releases, first + second) == End(End(releases, first), second)
    decreases |first|
  {
    hide StepCalls, StepEnd;
    if first == [] {
      assert first + second == second;
    } else {
      var all := first + second;
      var mid := StepEnd(releases, first[0]);
      assert all[0] == first[0] && all[1..] == first[1..] + second;
      CallsAppend(mid, first[1..], second);
      assert Calls(releases, all) == StepCalls(releases, first[0]) + (Calls(mid, first[1..]) + Calls(End(mid, first[1..]), second));
    }
  }

  lemma {:induction false} EndPerforms(releases: Releases, steps: seq<Step>)
    ensures End(releases, steps) == PerformAll(releases, Calls(releases, steps))
    decreases |steps|
  {
    hide StepCalls;
    if steps != [] {
      PerformAppend(releases, StepCalls(releases, steps[0]), Calls(StepEnd(releases, steps[0]), steps[1..]));
      EndPerforms(StepEnd(releases, steps[0]), steps[1..]);
    }
  }

  lemma CallsOfOne(releases: Releases, step: Step)
    ensures Calls(releases, [step]) == StepCalls(releases, step)
  {
  }

  /** A step after steps that all went through. */
  lemma RanStep(b: Releases, r: nat, done: seq<Step>, m: Releases, r1: nat, step: Step, e: Releases, r2: nat, ok: bool)
    requires Ran(b, r, Calls(b, done), m, r1, true) && Ran(m, r1, StepCalls(m, step), e, r2, ok)
    ensures m == End(b, done) && Ran(b, r, Calls(b, done + [step]), e, r2, ok)
  {
    hide Ran, Calls, StepCalls, PerformAll;
    RanWhole(b, r, Calls(b, done), m, r1);
    EndPerforms(b, done);
    CallsAppend(b, done, [step]);
    CallsOfOne(m, step);
    RanThen(b, r, Calls(b, done), m, r1, StepCalls(m, step), e, r2, ok);
  }

  datatype Fault =
    | HostFault
    | MissingRelease(tag: Tag)
    | Unreadable(name: Path)
    | PublishStopped(after: nat)

  class Host {
    var releases: Releases
    /** How many more calls the host answers. */
    var answers: nat

    constructor (releases: Releases, answers: nat)
      ensures this.releases == releases && this.answers == answers
    {
      this.releases := releases;
      this.answers := answers;
    }

    method Send(call: Call) returns (ok: bool)
      modifies this
      ensures Ran(old(releases), old(answers), [call], releases, answers, ok)
    {
      assert [call][..0] == [] && [call][..1] == [call];
      if answers == 0 {
        return false;
      }
      assert PerformAll(releases, [call]) == Perform(releases, call);
      releases := Perform(releases, call);
      answers := answers - 1;
      ok := true;
    }

    /** Creates the release unless it is already there. */
    method EnsureRelease(tag: Tag) returns (r: Result<(), Fault>)
      modifies this
      ensures Ran(old(releases), old(answers), EnsureCalls(old(releases), tag), releases, answers, r.Ok?)
      ensures r.Ok? ==> tag in releases
      ensures r.Err? ==> r.error == HostFault
    {
      var ok := Send(Look(tag));
      assert [Look(tag)][..0] == [] && [Look(tag)] + [] == [Look(tag)];
      if !ok {
        RanShort(old(releases), old(answers), [Look(tag)], releases, answers, if tag in releases then [] else [Create(tag)]);
        return Err(HostFault);
      }
      RanWhole(old(releases), old(answers), [Look(tag)], releases, answers);
      assert releases == old(releases);
      if tag in releases {
        return Ok(());
      }
      label Looked:
      ok := Send(Create(tag));
      RanThen(old(releases), old(answers), [Look(tag)], old@Looked(releases), old@Looked(answers),
              [Create(tag)], releases, answers, ok);
      if !ok {
        return Err(HostFault);
      }
      RanWhole(old@Looked(releases), old@Looked(answers), [Create(tag)], releases, answers);
      assert [Create(tag)][..0] == [];
      assert releases == Perform(old@Looked(releases), Create(tag));
      r := Ok(());
    }

    method SendAll(calls: seq<Call>) returns (ok: bool)
      modifies this
      ensures Ran(old(releases), old(answers), calls, releases, answers, ok)
    {
      for i := 0 to |calls|
        invariant Ran(old(releases), old(answers), calls[..i], releases, answers, true)
      {
        label Before:
        ok := Send(calls[i]);
        assert calls[..i + 1] == calls[..i] + [calls[i]];
        RanThen(old(releases), old(answers), calls[..i], old@Before(releases), old@Before(answers),
                [calls[i]], releases, answers, ok);
        if !ok {
          assert calls == calls[..i + 1] + calls[i + 1..];
          RanShort(old(releases), old(answers), calls[..i + 1], releases, answers, calls[i + 1..]);
          return false;
        }
      }
      assert calls[..|calls|] == calls;
      ok := true;
    }

    /** Publishes a file under its name, replacing whatever that name held. */
    method PutAsset(tag: Tag, w: Write) returns (r: Result<(), Fault>)
      modifies this
      ensures Ran(old(releases), old(answers), PutCalls(old(releases), tag, w), releases, answers,
                  r.Ok? || r == Err(MissingRelease(tag)))
      ensures r == Err(MissingRelease(tag)) ==> tag !in old(releases)
      ensures r.Ok? ==> tag in old(releases)
      ensures r.Err? ==> r.error == HostFault || r.error == MissingRelease(tag)
    {
      ghost var calls := PutCalls(releases, tag, w);
      var looked := Send(Look(tag));
      ghost var rest := calls[1..];
      assert calls == [Look(tag)] + rest;
      if !looked {
        RanShort(old(releases), old(answers), [Look(tag)], releases, answers, rest);
        return Err(HostFault);
      }
      RanWhole(old(releases), old(answers), [Look(tag)], releases, answers);
      assert [Look(tag)][..0] == [];
      assert releases == old(releases);
      if tag !in releases {
        return Err(MissingRelease(tag));
      }
      label Looked:
      var release := releases[tag];
      var staging := Staging(w.name);
      var clear := if staging in release then [Delete(tag, staging)] else [];
      var place := if w.name !in release then [Upload(tag, w.name, w.file)]
                   else [Upload(tag, staging, w.file), Delete(tag, w.name), Rename(tag, staging, w.name)];
      assert rest == clear + place;
      var ok := SendAll(clear);
      if !ok {
        RanShort(old@Looked(releases), old@Looked(answers), clear, releases, answers, place);
        RanThen(old(releases), old(answers), [Look(tag)], old@Looked(releases), old@Looked(answers),
                rest, releases, answers, false);
        return Err(HostFault);
      }
      label Cleared:
      ok := SendAll(place);
      RanThen(old@Looked(releases), old@Looked(answers), clear, old@Cleared(releases), old@Cleared(answers),
              place, releases, answers, ok);
      RanThen(old(releases), old(answers), [Look(tag)], old@Looked(releases), old@Looked(answers),
              rest, releases, answers, ok);
      r := if ok then Ok(()) else Err(HostFault);
    }
  }
}
