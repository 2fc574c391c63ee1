/** A scope channel as a polyline of fixed capacity: every sample counts towards exactly one vertex. */
module ScopeTraces {
  import opened Arithmetic

  datatype Point = Point(x: real, y: real)

  function Abs(s: real): real { if s < 0.0 then -s else s }

  function Clamp(s: real): real { if s < -1.0 then -1.0 else if s > 1.0 then 1.0 else s }

  /** The first sample of bucket `i` when `length` samples share `n` buckets. */
  function Lo(i: nat, length: nat, n: nat): nat
    requires 0 < n
  {
    i * length / n
  }

  /** One past its last: never an empty bucket. */
  function Hi(i: nat, length: nat, n: nat): nat
    requires 0 < n
  {
    var hi := (i + 1) * length / n;
    if hi < Lo(i, length, n) + 1 then Lo(i, length, n) + 1 else hi
  }

  /** The sample of largest magnitude, the first of equals; zero beats nothing but silence. */
  function Loudest(samples: seq<real>): real {
    if samples == [] then 0.0
    else
      var best := Loudest(samples[..|samples| - 1]);
      if Abs(samples[|samples| - 1]) > Abs(best) then samples[|samples| - 1] else best
  }

  function LastVertex(n: nat): real { if n < 2 then 1.0 else (n - 1) as real }

  function Vertex(samples: seq<real>, i: nat, n: nat): Point
    requires 0 < n && Lo(i, |samples|, n) <= Hi(i, |samples|, n) <= |samples|
  {
    Point(i as real * (1.0 / LastVertex(n)), Clamp(Loudest(samples[Lo(i, |samples|, n)..Hi(i, |samples|, n)])))
  }

  // ----- the buckets -----

  lemma DivBounds(a: nat, n: nat)
    requires 0 < n
    ensures n * (a / n) <= a < n * (a / n + 1)
  {
  }

  lemma DivStep(a: nat, length: nat, n: nat)
    requires 0 < n <= length
    ensures (a + length) / n >= a / n + 1
  {
    DivBounds(a, n);
    DivBounds(a + length, n);
    assert n * (a / n + 1) == n * (a / n) + n;
    Cancel(n, a / n + 1, (a + length) / n + 1);
  }

  lemma DivOfProduct(i: nat, length: nat, n: nat)
    requires 0 < n && i <= n
    ensures i * length / n <= length
    ensures i == n ==> i * length / n == length
  {
    DivBounds(i * length, n);
    assert i * length <= n * length < n * (length + 1);
    Cancel(n, i * length / n, length + 1);
    if i == n { Cancel(n, length, n * length / n + 1); }
  }

  /** Each bucket ends where the next begins; the first begins at the first sample and the last ends at the last. */
  lemma BucketsAreConsecutive(i: nat, length: nat, n: nat)
    requires 0 < n <= length && i < n
    ensures Lo(i, length, n) < Hi(i, length, n) <= length
    ensures Hi(i, length, n) == Lo(i + 1, length, n)
    ensures Lo(0, length, n) == 0 && Lo(n, length, n) == length
  {
    assert (i + 1) * length == i * length + length;
    DivStep(i * length, length, n);
    DivOfProduct(i + 1, length, n);
    DivOfProduct(n, length, n);
  }

  lemma {:induction false} BucketsRise(i: nat, j: nat, length: nat, n: nat)
    requires 0 < n <= length && i <= j <= n
    ensures Lo(i, length, n) <= Lo(j, length, n)
    decreases j
  {
    hide Lo, Hi;
    if i < j {
      BucketsRise(i, j - 1, length, n);
      BucketsAreConsecutive(j - 1, length, n);
    }
  }

  /** Every sample is in exactly one bucket. */
  lemma EverySampleHasItsBucket(k: nat, length: nat, n: nat) returns (i: nat)
    requires 0 < n <= length && k < length
    ensures i < n && Lo(i, length, n) <= k < Hi(i, length, n)
    ensures forall j: nat :: j < n && Lo(j, length, n) <= k < Hi(j, length, n) ==> j == i
  {
    hide Lo, Hi;
    BucketsAreConsecutive(0, length, n);
    i := BucketBelow(k, length, n, n);
    forall j: nat | j < n && Lo(j, length, n) <= k < Hi(j, length, n) ensures j == i {
      BucketsAreConsecutive(i, length, n);
      BucketsAreConsecutive(j, length, n);
      if j < i { BucketsRise(j + 1, i, length, n); }
      if i < j { BucketsRise(i + 1, j, length, n); }
    }
  }

  lemma {:induction false} BucketBelow(k: nat, length: nat, n: nat, top: nat) returns (i: nat)
    requires 0 < n <= length && 0 < top <= n && k < Lo(top, length, n)
    ensures i < top && Lo(i, length, n) <= k < Hi(i, length, n)
    decreases top
  {
    hide Lo, Hi;
    BucketsAreConsecutive(top - 1, length, n);
    if Lo(top - 1, length, n) <= k {
      i := top - 1;
    } else {
      i := BucketBelow(k, length, n, top - 1);
    }
  }

  // ----- the peak -----

  lemma {:induction false} LoudestIs(samples: seq<real>)
    ensures forall s <- samples :: Abs(s) <= Abs(Loudest(samples))
    ensures samples != [] ==> Loudest(samples) in samples || (Loudest(samples) == 0.0 && forall s <- samples :: s == 0.0)
    decreases |samples|
  {
    if samples != [] {
      LoudestIs(samples[..|samples| - 1]);
      assert samples == samples[..|samples| - 1] + [samples[|samples| - 1]];
    }
  }

  function Peak(samples: seq<real>): real { Abs(Loudest(samples)) }

  function Ys(points: seq<Point>): seq<real> {
    seq(|points|, i requires 0 <= i < |points| => points[i].y)
  }

  /** A filled trace of `n` vertices over the samples. */
  ghost predicate Traces(points: seq<Point>, samples: seq<real>) {
    && 0 < |points| <= |samples|
    && forall i :: 0 <= i < |points| ==>
         Lo(i, |samples|, |points|) <= Hi(i, |samples|, |points|) <= |samples| && points[i] == Vertex(samples, i, |points|)
  }

  lemma VertexIsHeard(points: seq<Point>, samples: seq<real>, i: nat)
    requires Traces(points, samples) && i < |points|
    ensures Abs(points[i].y) == Abs(Clamp(points[i].y)) <= Abs(Clamp(Loudest(samples)))
  {
    hide Lo, Hi;
    LoudestIs(samples);
    var bucket := samples[Lo(i, |samples|, |points|)..Hi(i, |samples|, |points|)];
    LoudestIs(bucket);
    BucketsAreConsecutive(i, |samples|, |points|);
    assert forall s <- bucket :: s in samples;
  }

  /**
   Each vertex is a sample of its own bucket, held to full scale: the loudest there, with its sign, and the first of
   those as loud.
   */
  lemma VertexIsItsSample(points: seq<Point>, samples: seq<real>, i: nat) returns (k: nat)
    requires Traces(points, samples) && i < |points|
    ensures Lo(i, |samples|, |points|) <= k < Hi(i, |samples|, |points|) <= |samples|
    ensures points[i].y == if samples[k] < -1.0 then -1.0 else if samples[k] > 1.0 then 1.0 else samples[k]
    ensures forall j :: Lo(i, |samples|, |points|) <= j < Hi(i, |samples|, |points|) ==>
              Abs(samples[j]) <= Abs(samples[k]) && (j < k ==> Abs(samples[j]) < Abs(samples[k]))
  {
    hide Lo, Hi;
    BucketsAreConsecutive(i, |samples|, |points|);
    var lo, hi := Lo(i, |samples|, |points|), Hi(i, |samples|, |points|);
    var bucket := samples[lo..hi];
    k := LoudestStands(bucket);
    k := lo + k;
    forall j | lo <= j < hi ensures Abs(samples[j]) <= Abs(samples[k]) && (j < k ==> Abs(samples[j]) < Abs(samples[k])) {
      assert bucket[j - lo] == samples[j];
    }
  }

  lemma {:induction false} LoudestStands(samples: seq<real>) returns (k: nat)
    requires samples != []
    ensures k < |samples| && Loudest(samples) == samples[k]
    ensures forall j :: 0 <= j < |samples| ==>
              Abs(samples[j]) <= Abs(samples[k]) && (j < k ==> Abs(samples[j]) < Abs(samples[k]))
    decreases |samples|
  {
    var n := |samples| - 1;
    if n == 0 {
      k := 0;
    } else {
      k := LoudestStands(samples[..n]);
      assert forall j :: 0 <= j < n ==> samples[..n][j] == samples[j];
      if Abs(samples[n]) > Abs(samples[k]) { k := n; }
    }
  }

  lemma LoudestIsDrawn(points: seq<Point>, samples: seq<real>) returns (i: nat)
    requires Traces(points, samples)
    ensures i < |points| && Abs(points[i].y) == Abs(Clamp(Loudest(samples)))
  {
    hide Lo, Hi;
    LoudestIs(samples);
    var k :| 0 <= k < |samples| && Abs(samples[k]) == Abs(Loudest(samples));
    i := EverySampleHasItsBucket(k, |samples|, |points|);
    var lo, hi := Lo(i, |samples|, |points|), Hi(i, |samples|, |points|);
    var bucket := samples[lo..hi];
    assert bucket[k - lo] == samples[k];
    LoudestIs(bucket);
    assert forall s <- bucket :: s in samples;
    assert Abs(Loudest(bucket)) == Abs(samples[k]);
  }

  /** A trace is as loud as its input, up to full scale, whatever the two lengths. */
  lemma PeakSurvives(points: seq<Point>, samples: seq<real>)
    requires Traces(points, samples)
    ensures Peak(Ys(points)) == Abs(Clamp(Loudest(samples)))
    ensures Peak(Ys(points)) == if Peak(samples) > 1.0 then 1.0 else Peak(samples)
  {
    hide Lo, Hi;
    var i := LoudestIsDrawn(points, samples);
    var ys := Ys(points);
    LoudestIs(ys);
    assert ys[i] in ys;
    forall j | 0 <= j < |ys| ensures Abs(ys[j]) <= Abs(Clamp(Loudest(samples))) {
      VertexIsHeard(points, samples, j);
    }
  }

  /** The polyline spans the width: it starts at 0, ends at 1 unless it is one point, and never turns back. */
  lemma SpansTheWidth(points: seq<Point>, samples: seq<real>)
    requires Traces(points, samples)
    ensures points[0].x == 0.0
    ensures |points| > 1 ==> points[|points| - 1].x == 1.0
    ensures forall i, j :: 0 <= i < j < |points| ==> points[i].x < points[j].x
    ensures |points| > 1 ==> forall i :: 0 <= i < |points| ==> points[i].x * (|points| - 1) as real == i as real
  {
    hide Lo, Hi, Loudest, Clamp;
    var n := |points|;
    forall i | 0 <= i < n ensures points[i].x == Across(i, n) {
      assert points[i] == Vertex(samples, i, n);
    }
    AcrossRises(n);
  }

  function Across(i: nat, n: nat): real { i as real * (1.0 / LastVertex(n)) }

  lemma AcrossRises(n: nat)
    ensures Across(0, n) == 0.0
    ensures n > 1 ==> Across(n - 1, n) == 1.0
    ensures forall i: nat, j: nat :: i < j < n ==> Across(i, n) < Across(j, n)
    ensures n > 1 ==> forall i: nat :: i < n ==> Across(i, n) * (n - 1) as real == i as real
  {
    var step := 1.0 / LastVertex(n);
    if n > 1 {
      forall i: nat | i < n ensures Across(i, n) * (n - 1) as real == i as real {
        Regrouped(i as real, step, (n - 1) as real);
      }
    }
    forall i: nat, j: nat | i < j < n ensures Across(i, n) < Across(j, n) {
      ScaledStrictly(i as real, j as real, step);
    }
  }

  lemma Regrouped(a: real, step: real, n: real)
    requires step * n == 1.0
    ensures a * step * n == a
  {
    assert a * step * n == a * (step * n);
  }

  lemma ScaledStrictly(a: real, b: real, step: real)
    requires a < b && step > 0.0
    ensures a * step < b * step
  {
    assert (b - a) * step > 0.0;
  }

  // ----- the trace -----

  class ScopeTrace {
    const points: array<Point>
    var len: nat

    ghost predicate Valid()
      reads this
    {
      points.Length >= 2 && len <= points.Length
    }

    constructor (capacity: nat)
      ensures Valid() && fresh(points) && points.Length == (if capacity < 2 then 2 else capacity) && len == 0
    {
      points := new Point[if capacity < 2 then 2 else capacity](_ => Point(0.0, 0.0));
      len := 0;
    }

    function Points(): seq<Point>
      requires Valid()
      reads this, points
    {
      points[..len]
    }

    /** Refills from raw samples; none at all are a flat line of two points. */
    method Fill(samples: seq<real>)
      requires Valid()
      modifies `len, points
      ensures Valid()
      ensures samples == [] ==> Points() == [Point(0.0, 0.0), Point(1.0, 0.0)]
      ensures samples != [] ==> |Points()| == Min(|samples|, points.Length) && Traces(Points(), samples)
    {
      hide Lo, Hi, Loudest, Clamp;
      if samples == [] {
        points[0], points[1] := Point(0.0, 0.0), Point(1.0, 0.0);
        len := 2;
        return;
      }
      var n := Min(|samples|, points.Length);
      var step := 1.0 / LastVertex(n);
      for i := 0 to n
        invariant forall j :: 0 <= j < i ==>
                    Lo(j, |samples|, n) <= Hi(j, |samples|, n) <= |samples| && points[j] == Vertex(samples, j, n)
      {
        BucketsAreConsecutive(i, |samples|, n);
        var lo, hi := Lo(i, |samples|, n), Hi(i, |samples|, n);
        var best := LargestOf(samples, lo, hi);
        points[i] := Point(i as real * step, Clamp(best));
      }
      len := n;
    }

    /** Takes another trace's points, as many as fit. */
    method CopyFrom(other: ScopeTrace)
      requires Valid() && other.Valid() && points != other.points
      modifies `len, points
      ensures Valid()
      ensures Points() == other.Points()[..Min(other.len, points.Length)]
    {
      var n := Min(other.len, points.Length);
      forall i | 0 <= i < n {
        points[i] := other.points[i];
      }
      len := n;
    }
  }

  method LargestOf(samples: seq<real>, lo: nat, hi: nat) returns (best: real)
    requires lo <= hi <= |samples|
    ensures best == Loudest(samples[lo..hi])
  {
    best := 0.0;
    for k := lo to hi
      invariant best == Loudest(samples[lo..k])
    {
      assert samples[lo..k + 1][..k - lo] == samples[lo..k];
      if Abs(samples[k]) > Abs(best) {
        best := samples[k];
      }
    }
  }
}
