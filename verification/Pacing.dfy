/** Metering decoding to wall-clock time, and the ring of samples in front of the device. */
module Pacing {
  import opened Arithmetic

  const SAMPLE_RATE: nat := 48_000
  const CHANNELS: nat := 2
  const MAX_FRAMES: nat := 4_096
  const BUFFERED_SAMPLES: nat := SAMPLE_RATE / 5 * CHANNELS
  const LOW_WATER_SAMPLES: nat := BUFFERED_SAMPLES / 4

  function MinReal(a: real, b: real): real { if a < b then a else b }

  /** What `elapsed` seconds earn on top of what is owed, capped at one render. */
  function Earned(owed: real, elapsed: real): real { MinReal(owed + elapsed * SAMPLE_RATE as real, MAX_FRAMES as real) }

  /** The frames one call asks the decoder for: all that is missing when the ring runs low, else what the clock allows. */
  function Asked(buffered: nat, allowed: nat): nat {
    if buffered >= BUFFERED_SAMPLES then 0
    else
      var missing := Min((BUFFERED_SAMPLES - buffered) / CHANNELS, MAX_FRAMES);
      if buffered < LOW_WATER_SAMPLES then missing else Min(missing, allowed)
  }

  /** The frames one call takes off what is owed; a full ring's are written off. */
  function Spent(buffered: nat, allowed: nat): nat {
    if buffered >= BUFFERED_SAMPLES then allowed else Min(Asked(buffered, allowed), allowed)
  }

  function Scaled(samples: seq<real>, volume: real): (scaled: seq<real>)
    ensures |scaled| == |samples| && forall i :: 0 <= i < |scaled| ==> scaled[i] == samples[i] * volume
  {
    seq(|samples|, i requires 0 <= i < |samples| => samples[i] * volume)
  }

  // ----- any run of top-ups, drains and clears -----

  datatype Step =
    | TopUp(elapsed: real, rendered: nat, drained: nat)   // how much of what was asked the decoder rendered
    | Drain(n: nat)
    | Clear

  /** The ring by its length, what is owed, and what paced calls have rendered and time has earned so far. */
  datatype State = State(buffered: nat, owed: real, paced: nat, time: real)

  ghost predicate Bounded(s: State) {
    s.buffered <= BUFFERED_SAMPLES && 0.0 <= s.owed <= MAX_FRAMES as real
  }

  function Next(s: State, step: Step): State {
    match step
    case Drain(n) => s.(buffered := s.buffered - Min(n, s.buffered))
    case Clear => s.(buffered := 0)
    case TopUp(elapsed, rendered, drained) =>
      var earned := Earned(s.owed, if elapsed < 0.0 then 0.0 else elapsed);
      var allowed := if earned < 0.0 then 0 else earned.Floor;
      var asked := Asked(s.buffered, allowed);
      State(s.buffered - Min(drained, s.buffered) + Min(rendered, asked) * CHANNELS,
            earned - Spent(s.buffered, allowed) as real,
            s.paced + (if s.buffered >= LOW_WATER_SAMPLES then asked else 0),
            s.time + if elapsed < 0.0 then 0.0 else elapsed)
  }

  function Run(s: State, steps: seq<Step>): State {
    if steps == [] then s else Next(Run(s, steps[..|steps| - 1]), steps[|steps| - 1])
  }

  class Pacer {
    /** Frames earned by elapsed time and not yet rendered. */
    var owed: real

    constructor ()
      ensures owed == 0.0
    {
      owed := 0.0;
    }

    /** The whole frames the clock allows now; the fraction carries. */
    method Earn(elapsed: real) returns (frames: nat)
      requires owed >= 0.0 && elapsed >= 0.0
      modifies this
      ensures owed == Earned(old(owed), elapsed)
      ensures frames == owed.Floor
    {
      owed := owed + elapsed * SAMPLE_RATE as real;
      owed := MinReal(owed, MAX_FRAMES as real);
      frames := owed.Floor;
    }

    method Spend(frames: nat)
      modifies this
      ensures owed == old(owed) - frames as real
    {
      owed := owed - frames as real;
    }
  }

  /** What the decoder answers a render: fewer samples than asked, none, or a failure. */
  datatype Rendered = Samples(samples: seq<real>) | Failed

  /** The whole frames an answer holds. */
  function Delivered(r: Rendered): nat { if r.Samples? then |r.samples| / CHANNELS else 0 }

  /** A decoder renders whole frames, and never more than it was asked for. */
  ghost predicate Honest(render: nat -> Rendered) {
    forall n: nat :: render(n).Samples? ==> |render(n).samples| % CHANNELS == 0 && |render(n).samples| <= n * CHANNELS
  }

  class Output {
    var ring: seq<real>
    const pacer: Pacer

    ghost predicate Valid()
      reads this, pacer
    {
      |ring| <= BUFFERED_SAMPLES && 0.0 <= pacer.owed <= MAX_FRAMES as real
    }

    constructor ()
      ensures Valid() && ring == [] && pacer.owed == 0.0 && fresh(pacer)
    {
      ring := [];
      pacer := new Pacer();
    }

    /** The device takes samples off the front; an empty ring plays silence. */
    method Drain(n: nat)
      requires Valid()
      modifies `ring
      ensures Valid() && ring == old(ring)[Min(n, |old(ring)|)..]
    {
      ring := ring[Min(n, |ring|)..];
    }

    method Clear()
      requires Valid()
      modifies `ring
      ensures Valid() && ring == []
    {
      ring := [];
    }

    /**
     One top-up, `elapsed` seconds after the last: the decoder is asked once at most, and what it renders
     goes on the ring, which the device may have drained meanwhile.
     */
    method TopUp(elapsed: real, render: nat -> Rendered, drained: nat, volume: real) returns (asked: nat, ok: bool)
      requires Valid() && elapsed >= 0.0
      requires Honest(render)
      modifies this, pacer
      ensures Valid()
      ensures asked == Asked(|old(ring)|, Earned(old(pacer.owed), elapsed).Floor)
      ensures var t := Next(State(|old(ring)|, old(pacer.owed), 0, 0.0), Step.TopUp(elapsed, Delivered(render(asked)), drained));
              |ring| == t.buffered && pacer.owed == t.owed
      ensures var left := old(ring)[Min(drained, |old(ring)|)..];
              ring == if asked > 0 && render(asked).Samples? then left + Scaled(render(asked).samples, volume) else left
      ensures ok <==> asked == 0 || render(asked).Samples?
    {
      var buffered := |ring|;
      var allowed := pacer.Earn(elapsed);
      if buffered >= BUFFERED_SAMPLES {
        pacer.Spend(allowed);
        Drain(drained);
        assert Min(Delivered(render(0)), 0) == 0;
        return 0, true;
      }
      var missing := Min((BUFFERED_SAMPLES - buffered) / CHANNELS, MAX_FRAMES);
      asked := if buffered < LOW_WATER_SAMPLES then missing else Min(missing, allowed);
      ok := true;
      if asked == 0 {
        Drain(drained);
        return;
      }
      pacer.Spend(Min(asked, allowed));
      var rendered := render(asked);
      assert Delivered(rendered) <= asked;
      Drain(drained);
      match rendered {
        case Failed => ok := false;
        case Samples(samples) =>
          if samples != [] {
            ring := ring + Scaled(samples, volume);
          }
          assert ring == old(ring)[Min(drained, |old(ring)|)..] + Scaled(samples, volume);
      }
    }
  }

  /** One step keeps the ring and the debt in bounds, and paced frames are paid for by time or by debt. */
  lemma StepPays(s: State, step: Step)
    requires Bounded(s)
    ensures var t := Next(s, step);
            && Bounded(t)
            && s.time <= t.time
            && (t.paced - s.paced) as real <= s.owed - t.owed + (t.time - s.time) * SAMPLE_RATE as real
  {
  }

  /** In any run the ring never overfills, the debt stays in one render, and time pays for every paced frame. */
  lemma {:induction false} RunPays(s: State, steps: seq<Step>)
    requires Bounded(s)
    ensures var t := Run(s, steps);
            && Bounded(t)
            && s.time <= t.time
            && (t.paced - s.paced) as real <= s.owed + (t.time - s.time) * SAMPLE_RATE as real
            && (t.paced - s.paced) as real <= s.owed - t.owed + (t.time - s.time) * SAMPLE_RATE as real
    decreases |steps|
  {
    hide Next;
    if steps != [] {
      var before := Run(s, steps[..|steps| - 1]);
      RunPays(s, steps[..|steps| - 1]);
      StepPays(before, steps[|steps| - 1]);
    }
  }

  /**
   Between the marks, a decoder that delivers renders every whole frame earned, the fraction carrying over, or fills
   the ring to the last frame that fits.
   */
  lemma EarnedIsRendered(s: State, elapsed: real, rendered: nat)
    requires Bounded(s) && LOW_WATER_SAMPLES <= s.buffered < BUFFERED_SAMPLES && elapsed >= 0.0 && rendered >= MAX_FRAMES
    ensures var t, earned := Next(s, Step.TopUp(elapsed, rendered, 0)), s.owed + elapsed * SAMPLE_RATE as real;
            && t.buffered == s.buffered + (t.paced - s.paced) * CHANNELS
            && (earned <= MAX_FRAMES as real ==> t.owed == earned - (t.paced - s.paced) as real)
            && (t.owed < 1.0 || BUFFERED_SAMPLES - t.buffered < CHANNELS)
  {
  }

  /** Top-ups between the marks, each with room for what it earned and a decoder that delivers. */
  ghost predicate Steady(s: State, steps: seq<Step>)
    decreases |steps|
  {
    steps != [] ==>
      && Steady(s, steps[..|steps| - 1])
      && var before, step := Run(s, steps[..|steps| - 1]), steps[|steps| - 1];
      && step.TopUp? && step.elapsed >= 0.0 && step.rendered >= MAX_FRAMES
      && LOW_WATER_SAMPLES <= before.buffered < BUFFERED_SAMPLES
      && before.owed + step.elapsed * SAMPLE_RATE as real <= MAX_FRAMES as real
      && before.owed + step.elapsed * SAMPLE_RATE as real <= ((BUFFERED_SAMPLES - before.buffered) / CHANNELS) as real
  }

  /** However a steady run is cut into calls, it has rendered what its time earned, to within one frame. */
  lemma {:induction false} SteadyRunsKeepPace(s: State, steps: seq<Step>)
    requires Bounded(s) && Steady(s, steps) && steps != []
    ensures var t := Run(s, steps);
            && 0.0 <= t.owed < 1.0
            && (t.paced - s.paced) as real == s.owed - t.owed + (t.time - s.time) * SAMPLE_RATE as real
    decreases |steps|
  {
    hide Next;
    var n := |steps| - 1;
    var before := Run(s, steps[..n]);
    RunPays(s, steps[..n]);
    SteadyStep(before, steps[n]);
    if n > 0 {
      SteadyRunsKeepPace(s, steps[..n]);
    }
  }

  lemma SteadyStep(s: State, step: Step)
    requires Bounded(s) && step.TopUp? && step.elapsed >= 0.0 && step.rendered >= MAX_FRAMES
    requires LOW_WATER_SAMPLES <= s.buffered < BUFFERED_SAMPLES
    requires s.owed + step.elapsed * SAMPLE_RATE as real <= MAX_FRAMES as real
    requires s.owed + step.elapsed * SAMPLE_RATE as real <= ((BUFFERED_SAMPLES - s.buffered) / CHANNELS) as real
    ensures var t := Next(s, step);
            && 0.0 <= t.owed < 1.0 && t.time == s.time + step.elapsed
            && (t.paced - s.paced) as real == s.owed - t.owed + step.elapsed * SAMPLE_RATE as real
  {
  }

  /** A decoder that delivers lifts a ring that ran low back over the mark in one call, and never over the brim. */
  lemma LowRingRefillsAtOnce(s: State, elapsed: real, rendered: nat)
    requires Bounded(s) && s.buffered < LOW_WATER_SAMPLES && rendered >= MAX_FRAMES
    ensures LOW_WATER_SAMPLES <= Next(s, Step.TopUp(elapsed, rendered, 0)).buffered <= BUFFERED_SAMPLES
  {
  }

  /** With a ring found full nothing is rendered and less than a frame is carried over, however long it was full. */
  lemma FullRingOwesNothing(s: State, elapsed: real, rendered: nat)
    requires Bounded(s) && s.buffered == BUFFERED_SAMPLES
    ensures var t := Next(s, Step.TopUp(elapsed, rendered, 0));
            t.buffered == s.buffered && t.paced == s.paced && 0.0 <= t.owed < 1.0
  {
  }
}
