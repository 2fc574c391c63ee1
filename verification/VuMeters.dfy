/** Meter levels that rise at once and fall at a fixed rate. */
module VuMeters {
  import opened Arithmetic
  import opened ScopeTraces

  function ClampReading(r: real): real { if r < 0.0 then 0.0 else if r > 1.0 then 1.0 else r }

  function MaxOf(a: real, b: real): real { if a < b then b else a }

  /** A level after one more reading. */
  function After(level: real, reading: real, fall: real): real {
    var r := ClampReading(reading);
    if r >= level then r else MaxOf(level - fall, r)
  }

  /** A channel's level after each of `readings`, from silence. */
  function LevelOf(readings: seq<real>, fall: real): real {
    if readings == [] then 0.0
    else After(LevelOf(readings[..|readings| - 1], fall), readings[|readings| - 1], fall)
  }

  /** What the reading of tick `s` still counts for after the last of `n` ticks. */
  function Decayed(readings: seq<real>, s: nat, fall: real): real
    requires s < |readings|
  {
    var r := readings[s];
    (if r < 0.0 then 0.0 else if r > 1.0 then 1.0 else r) - fall * (|readings| - 1 - s) as real
  }

  /** A channel heard in every tick shows the loudest of its readings, each less its fall since. */
  lemma {:induction false} LevelIsTheLoudestDecayed(readings: seq<real>, fall: real)
    requires readings != [] && fall >= 0.0
    ensures forall s: nat :: s < |readings| ==> Decayed(readings, s, fall) <= LevelOf(readings, fall)
    ensures exists s: nat :: s < |readings| && Decayed(readings, s, fall) == LevelOf(readings, fall)
    ensures 0.0 <= LevelOf(readings, fall) <= 1.0
    decreases |readings|
  {
    hide Decayed;
    var n := |readings| - 1;
    var before := readings[..n];
    DecaysOneMore(readings, fall);
    if n > 0 {
      LevelIsTheLoudestDecayed(before, fall);
      if LevelOf(readings, fall) != ClampReading(readings[n]) {
        var s: nat :| s < n && Decayed(before, s, fall) == LevelOf(before, fall);
        assert Decayed(readings, s, fall) == LevelOf(readings, fall);
      }
    }
  }

  lemma DecaysOneMore(readings: seq<real>, fall: real)
    requires readings != []
    ensures var n := |readings| - 1;
            && Decayed(readings, n, fall) == ClampReading(readings[n])
            && forall s: nat :: s < n ==> Decayed(readings, s, fall) == Decayed(readings[..n], s, fall) - fall
  {
    var n := |readings| - 1;
    forall s: nat | s < n ensures Decayed(readings, s, fall) == Decayed(readings[..n], s, fall) - fall {
      Distributes(fall, (n - 1 - s) as real);
    }
  }

  lemma Distributes(fall: real, ticks: real)
    ensures fall * (ticks + 1.0) == fall * ticks + fall
  {
  }

  class VuMeter {
    const levels: array<real>
    const fall: real
    var len: nat

    ghost predicate Valid()
      reads this
    {
      levels.Length >= 1 && len <= levels.Length && fall >= 0.0
    }

    constructor (capacity: nat, fall: real)
      ensures Valid() && fresh(levels) && levels.Length == (if capacity < 1 then 1 else capacity) && len == 0
      ensures this.fall == (if fall < 0.0 then 0.0 else fall)
      ensures forall c :: 0 <= c < levels.Length ==> levels[c] == 0.0
    {
      levels := new real[if capacity < 1 then 1 else capacity](_ => 0.0);
      this.fall := if fall < 0.0 then 0.0 else fall;
      len := 0;
    }

    /** Feeds one capture's readings; those past the capacity are dropped, and channels not read keep their level. */
    method Tick(readings: seq<real>)
      requires Valid()
      modifies `len, levels
      ensures Valid() && len == Min(|readings|, levels.Length)
      ensures forall c :: 0 <= c < levels.Length ==>
                levels[c] == if c < len then After(old(levels[c]), readings[c], fall) else old(levels[c])
    {
      var n := Min(|readings|, levels.Length);
      for c := 0 to n
        invariant forall d :: 0 <= d < levels.Length ==>
                    levels[d] == if d < c then After(old(levels[d]), readings[d], fall) else old(levels[d])
      {
        var reading := ClampReading(readings[c]);
        if reading >= levels[c] {
          levels[c] := reading;
        } else {
          levels[c] := MaxOf(levels[c] - fall, reading);
        }
      }
      len := n;
    }

    /** Drops every level to silence. */
    method Clear()
      requires Valid()
      modifies `len, levels
      ensures Valid() && len == 0 && forall c :: 0 <= c < levels.Length ==> levels[c] == 0.0
    {
      forall c | 0 <= c < levels.Length {
        levels[c] := 0.0;
      }
      len := 0;
    }

    /** Feeds one capture of scopes to a song that reports no levels: each channel's peak is its reading. */
    method TickScopes(scopes: seq<seq<real>>)
      requires Valid()
      modifies `len, levels
      ensures Valid() && len == Min(|scopes|, levels.Length)
      ensures forall c :: 0 <= c < levels.Length ==>
                levels[c] == if c < len then After(old(levels[c]), Peak(scopes[c]), fall) else old(levels[c])
    {
      var n := Min(|scopes|, levels.Length);
      for c := 0 to n
        invariant forall d :: 0 <= d < levels.Length ==>
                    levels[d] == if d < c then After(old(levels[d]), Peak(scopes[d]), fall) else old(levels[d])
      {
        var best := LargestOf(scopes[c], 0, |scopes[c]|);
        assert scopes[c][0..|scopes[c]|] == scopes[c];
        var reading := ClampReading(Abs(best));
        if reading >= levels[c] {
          levels[c] := reading;
        } else {
          levels[c] := MaxOf(levels[c] - fall, reading);
        }
      }
      len := n;
    }
  }
}
