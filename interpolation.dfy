/**
 * Re-gridding of a sparse series onto the span of the S-parameter frequency
 * axis (numpy.linspace), and its evaluation by piecewise-linear
 * interpolation with linear extrapolation (scipy interp1d with kind='linear'
 * and fill_value='extrapolate'). Arithmetic is exact over the reals.
 */
module Interpolation {
  import opened Outcomes

  ghost predicate StrictlyIncreasing(xs: seq<real>) {
    forall i, j :: 0 <= i < j < |xs| ==> xs[i] < xs[j]
  }

  /** numpy.linspace(start, stop, n) with its default endpoint=True. */
  function Linspace(start: real, stop: real, n: nat): (xs: seq<real>)
    ensures |xs| == n
    ensures n >= 1 ==> xs[0] == start
    ensures n >= 2 ==> xs[n - 1] == stop
  {
    if n < 2 then seq(n, _ => start)
    else
      StepTimesIntervals(start, stop, n);
      seq(n, i => start + i as real * ((stop - start) / (n - 1) as real))
  }

  lemma StepTimesIntervals(start: real, stop: real, n: nat)
    requires n >= 2
    ensures (n - 1) as real * ((stop - start) / (n - 1) as real) == stop - start
  {
  }

  /** The grid starts at start, ends at stop, and has the constant step
      (stop - start) / (n - 1) between neighbours. */
  lemma LinspaceGrid(start: real, stop: real, n: nat)
    requires n >= 2
    ensures Linspace(start, stop, n)[0] == start
    ensures Linspace(start, stop, n)[n - 1] == stop
    ensures forall i :: 0 <= i < n - 1 ==>
      Linspace(start, stop, n)[i + 1] - Linspace(start, stop, n)[i] == (stop - start) / (n - 1) as real
  {
    StepTimesIntervals(start, stop, n);
  }

  lemma LinspaceIncreasing(start: real, stop: real, n: nat)
    requires start < stop
    ensures StrictlyIncreasing(Linspace(start, stop, n))
  {
    var xs := Linspace(start, stop, n);
    if n >= 2 {
      var d := (stop - start) / (n - 1) as real;
      assert d > 0.0;
      forall i, j | 0 <= i < j < n ensures xs[i] < xs[j] {
        assert xs[j] - xs[i] == (j - i) as real * d;
      }
    }
  }

  /** Read backwards, the grid from stop to start is the grid from start to stop. */
  lemma LinspaceReversed(start: real, stop: real, n: nat, k: nat)
    requires n >= 2 && k < n
    ensures Linspace(stop, start, n)[k] == Linspace(start, stop, n)[n - 1 - k]
  {
    var m := (n - 1) as real;
    var d := (stop - start) / m;
    assert (start - stop) / m == -d;
    StepTimesIntervals(start, stop, n);
    assert stop == start + m * d;
    calc {
      Linspace(stop, start, n)[k];
      stop + k as real * -d;
      start + m * d - k as real * d;
      start + (m - k as real) * d;
      start + (n - 1 - k) as real * d;
      Linspace(start, stop, n)[n - 1 - k];
    }
  }

  /** Number of leading samples strictly below v: numpy.searchsorted(xs, v)
      with side='left' on a sorted axis. */
  function CountBelow(xs: seq<real>, v: real): (k: nat)
    ensures k <= |xs|
    ensures forall i :: 0 <= i < k ==> xs[i] < v
    ensures k < |xs| ==> v <= xs[k]
  {
    if |xs| == 0 || v <= xs[0] then 0 else 1 + CountBelow(xs[1..], v)
  }

  /** Upper end of the segment used for v: the search position clipped to
      [1, |xs| - 1], so queries outside the axis use a boundary segment. */
  function Segment(xs: seq<real>, v: real): (hi: nat)
    requires |xs| >= 2
    ensures 1 <= hi < |xs|
  {
    var k := CountBelow(xs, v);
    if k < 1 then 1 else if k > |xs| - 1 then |xs| - 1 else k
  }

  /** Linear interpolation through the points (xs[i], ys[i]), extended
      linearly beyond both ends (scipy's _call_linear). When the two samples
      of the chosen segment are equal, that value is returned, in or beyond
      the span. */
  function Interp(xs: seq<real>, ys: seq<real>, v: real): (y: real)
    requires |xs| == |ys| >= 2
    requires StrictlyIncreasing(xs)
    ensures ys[Segment(xs, v) - 1] == ys[Segment(xs, v)] ==> y == ys[Segment(xs, v)]
  {
    var hi := Segment(xs, v);
    var lo := hi - 1;
    assert xs[lo] < xs[hi];
    (ys[hi] - ys[lo]) / (xs[hi] - xs[lo]) * (v - xs[lo]) + ys[lo]
  }

  /** Inside the axis, the segment brackets the query; outside, the nearest
      boundary segment is used rather than a clamped value. */
  lemma SegmentBrackets(xs: seq<real>, v: real)
    requires |xs| >= 2
    requires StrictlyIncreasing(xs)
    ensures xs[0] <= v <= xs[|xs| - 1] ==> xs[Segment(xs, v) - 1] <= v <= xs[Segment(xs, v)]
    ensures v <= xs[0] ==> Segment(xs, v) == 1
    ensures v > xs[|xs| - 1] ==> Segment(xs, v) == |xs| - 1
  {
    var k := CountBelow(xs, v);
    if xs[0] <= v <= xs[|xs| - 1] && k == 0 {
      assert v == xs[0];
    }
    if v > xs[|xs| - 1] {
      assert k == |xs|;
    }
  }

  /** The interpolant passes through every sample. */
  lemma InterpAtSample(xs: seq<real>, ys: seq<real>, i: nat)
    requires |xs| == |ys| >= 2
    requires StrictlyIncreasing(xs)
    requires i < |xs|
    ensures Interp(xs, ys, xs[i]) == ys[i]
  {
    var k := CountBelow(xs, xs[i]);
    assert k == i;
    if i >= 1 {
      var dx := xs[i] - xs[i - 1];
      assert dx > 0.0;
      assert (ys[i] - ys[i - 1]) / dx * dx == ys[i] - ys[i - 1];
    }
  }

  /** Whatever the segment, a line through two of its points is reproduced
      at every query, including outside the sampled span. */
  lemma SecantOfLine(x0: real, x1: real, a: real, b: real, v: real)
    requires x0 < x1
    ensures ((a * x1 + b) - (a * x0 + b)) / (x1 - x0) * (v - x0) + (a * x0 + b) == a * v + b
  {
    assert (a * x1 + b) - (a * x0 + b) == a * (x1 - x0);
    assert a * (x1 - x0) / (x1 - x0) == a;
  }

  /** ys[i] lies on the line a * x + b at abscissa xs[i], for every i. */
  ghost predicate OnLine(xs: seq<real>, ys: seq<real>, a: real, b: real) {
    |xs| == |ys| && forall i :: 0 <= i < |xs| ==> ys[i] == a * xs[i] + b
  }

  /** Samples of a straight line are interpolated, and extrapolated, exactly. */
  lemma InterpReproducesLine(xs: seq<real>, ys: seq<real>, a: real, b: real, v: real)
    requires |xs| == |ys| >= 2
    requires StrictlyIncreasing(xs)
    requires OnLine(xs, ys, a, b)
    ensures Interp(xs, ys, v) == a * v + b
  {
    var hi := Segment(xs, v);
    var x0, x1, y0, y1 := xs[hi - 1], xs[hi], ys[hi - 1], ys[hi];
    assert y0 == a * x0 + b && y1 == a * x1 + b;
    SecantOfLine(x0, x1, a, b, v);
    assert Interp(xs, ys, v) == (y1 - y0) / (x1 - x0) * (v - x0) + y0;
  }

  lemma ProductNonnegative(x: real, y: real)
    requires x >= 0.0 && y >= 0.0
    ensures x * y >= 0.0
  {
  }

  lemma UnitFraction(p: real, q: real)
    requires p >= 0.0 && q >= 0.0 && p + q > 0.0
    ensures 0.0 <= p / (p + q) <= 1.0
  {
    assert p / (p + q) + q / (p + q) == (p + q) / (p + q);
  }

  /** Inside a segment the interpolant stays between that segment's end samples. */
  lemma InterpWithinSegment(xs: seq<real>, ys: seq<real>, v: real)
    requires |xs| == |ys| >= 2
    requires StrictlyIncreasing(xs)
    requires xs[0] <= v <= xs[|xs| - 1]
    ensures var hi := Segment(xs, v);
      (ys[hi - 1] <= Interp(xs, ys, v) <= ys[hi]) || (ys[hi] <= Interp(xs, ys, v) <= ys[hi - 1])
  {
    SegmentBrackets(xs, v);
    var hi := Segment(xs, v);
    var lo := hi - 1;
    var w := xs[hi] - xs[lo];
    var t := (v - xs[lo]) / w;
    UnitFraction(v - xs[lo], xs[hi] - v);
    assert 0.0 <= t <= 1.0;
    assert Interp(xs, ys, v) == ys[lo] + (ys[hi] - ys[lo]) * t;
    var d := ys[hi] - ys[lo];
    assert d * t - d == d * (t - 1.0);
    if d >= 0.0 {
      ProductNonnegative(d, 1.0 - t);
      assert 0.0 <= d * t <= d;
    } else {
      ProductNonnegative(-d, 1.0 - t);
      ProductNonnegative(-d, t);
      assert d <= d * t <= 0.0;
    }
  }

  function Reversed(s: seq<real>): (r: seq<real>)
    ensures |r| == |s|
    ensures forall i :: 0 <= i < |s| ==> r[i] == s[|s| - 1 - i]
  {
    seq(|s|, i requires 0 <= i < |s| => s[|s| - 1 - i])
  }

  /** interp1d(linspace(first, last, |ys|), ys, kind='linear',
      fill_value='extrapolate') evaluated at v. interp1d sorts its abscissae,
      so a falling axis is read as the rising one with ys reversed. */
  function RegriddedAt(first: real, last: real, ys: seq<real>, v: real): (r: Result<real>)
    ensures |ys| < 2 ==> r == Err(TooFewSamples)
    ensures |ys| >= 2 && first == last ==> r == Err(DegenerateAxis)
    ensures r.Ok? <==> |ys| >= 2 && first != last
  {
    if |ys| < 2 then Err(TooFewSamples)
    else if first == last then Err(DegenerateAxis)
    else if first < last then
      LinspaceIncreasing(first, last, |ys|);
      Ok(Interp(Linspace(first, last, |ys|), ys, v))
    else
      LinspaceIncreasing(last, first, |ys|);
      Ok(Interp(Linspace(last, first, |ys|), Reversed(ys), v))
  }

  lemma RegriddedRising(first: real, last: real, ys: seq<real>, v: real)
    requires |ys| >= 2 && first < last
    ensures StrictlyIncreasing(Linspace(first, last, |ys|))
    ensures RegriddedAt(first, last, ys, v) == Ok(Interp(Linspace(first, last, |ys|), ys, v))
  {
    LinspaceIncreasing(first, last, |ys|);
  }

  lemma RegriddedFalling(first: real, last: real, ys: seq<real>, v: real)
    requires |ys| >= 2 && last < first
    ensures StrictlyIncreasing(Linspace(last, first, |ys|))
    ensures RegriddedAt(first, last, ys, v) == Ok(Interp(Linspace(last, first, |ys|), Reversed(ys), v))
  {
    LinspaceIncreasing(last, first, |ys|);
  }

  /** At the i-th re-gridded frequency the re-gridded series returns its i-th sample. */
  lemma RegriddedAtGridPoint(first: real, last: real, ys: seq<real>, i: nat)
    requires |ys| >= 2 && first != last && i < |ys|
    ensures RegriddedAt(first, last, ys, Linspace(first, last, |ys|)[i]) == Ok(ys[i])
  {
    var n := |ys|;
    var v := Linspace(first, last, n)[i];
    if first < last {
      RegriddedRising(first, last, ys, v);
      InterpAtSample(Linspace(first, last, n), ys, i);
    } else {
      RegriddedFalling(first, last, ys, v);
      LinspaceReversed(last, first, n, i);
      InterpAtSample(Linspace(last, first, n), Reversed(ys), n - 1 - i);
    }
  }

  /** Line samples on a falling grid, reversed, are line samples on the rising grid. */
  lemma ReversedLineSamples(first: real, last: real, ys: seq<real>, a: real, b: real)
    requires |ys| >= 2
    requires OnLine(Linspace(first, last, |ys|), ys, a, b)
    ensures OnLine(Linspace(last, first, |ys|), Reversed(ys), a, b)
  {
    var n := |ys|;
    forall k | 0 <= k < n ensures Reversed(ys)[k] == a * Linspace(last, first, n)[k] + b {
      LinspaceReversed(first, last, n, k);
      assert Reversed(ys)[k] == ys[n - 1 - k];
    }
  }

  lemma FallingReproducesLine(first: real, last: real, ys: seq<real>, a: real, b: real, v: real)
    requires |ys| >= 2 && last < first
    requires OnLine(Linspace(first, last, |ys|), ys, a, b)
    ensures RegriddedAt(first, last, ys, v) == Ok(a * v + b)
  {
    RegriddedFalling(first, last, ys, v);
    ReversedLineSamples(first, last, ys, a, b);
    InterpReproducesLine(Linspace(last, first, |ys|), Reversed(ys), a, b, v);
  }

  /** A series sampled from a straight line over the re-gridded axis is
      reproduced exactly at every frequency, with no clamping outside the span. */
  lemma RegriddedReproducesLine(first: real, last: real, ys: seq<real>, a: real, b: real, v: real)
    requires |ys| >= 2 && first != last
    requires OnLine(Linspace(first, last, |ys|), ys, a, b)
    ensures RegriddedAt(first, last, ys, v) == Ok(a * v + b)
  {
    if first < last {
      RegriddedRising(first, last, ys, v);
      InterpReproducesLine(Linspace(first, last, |ys|), ys, a, b, v);
    } else {
      FallingReproducesLine(first, last, ys, a, b, v);
    }
  }
}
