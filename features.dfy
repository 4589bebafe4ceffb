/**
 * The ten crisp inputs of one sweep iteration: for each of the two bands,
 * its frequency, the sign-flipped S11 and S21 in dB (so that a larger input
 * is a better design), and efficiency and gain re-gridded onto the span of
 * the S-parameter axis and interpolated at the band's frequency.
 */
module Features {
  import opened Outcomes
  import opened BandSelection
  import opened Interpolation

  /** The five crisp inputs of one band, as handed to the fuzzy rule. */
  datatype CrispInputs = CrispInputs(frequency: real, s11: real, s21: real, efficiency: real, gain: real)

  /** Inputs of one band; efficiency and gain are read off their re-gridded series. */
  function Observe(b: Band, first: real, last: real, efficiency: seq<real>, gain: seq<real>): (c: CrispInputs)
    requires |efficiency| >= 2 && |gain| >= 2 && first != last
    ensures c.frequency == b.freq && c.s11 == -b.s11 && c.s21 == -b.s21
    ensures RegriddedAt(first, last, efficiency, b.freq) == Ok(c.efficiency)
    ensures RegriddedAt(first, last, gain, b.freq) == Ok(c.gain)
  {
    CrispInputs(b.freq, -b.s11, -b.s21,
      RegriddedAt(first, last, efficiency, b.freq).value,
      RegriddedAt(first, last, gain, b.freq).value)
  }

  /** Feature extraction of one iteration (mimo_fuzzy.py:127-175) from the
      S-parameter axis f, the S11 and S21 curves in dB and the sparse
      efficiency and gain series. */
  function ExtractInputs(f: seq<real>, s11: seq<real>, s21: seq<real>, efficiency: seq<real>, gain: seq<real>)
    : (r: Result<(CrispInputs, CrispInputs)>)
    requires |f| == |s11| == |s21|
    ensures |f| == 0 ==> r == Err(EmptyCurve)
    ensures |f| > 0 && (|efficiency| < 2 || |gain| < 2) ==> r == Err(TooFewSamples)
    ensures |f| > 0 && |efficiency| >= 2 && |gain| >= 2 && f[0] == f[|f| - 1] ==> r == Err(DegenerateAxis)
    ensures |f| > 0 && |efficiency| >= 2 && |gain| >= 2 && f[0] != f[|f| - 1] ==>
      (r == Err(NoSecondaryBand) <==> !HasEligible(f, f[PrimaryIndex(s11)]))
    ensures r.Ok? <==>
      |f| > 0 && |efficiency| >= 2 && |gain| >= 2 && f[0] != f[|f| - 1] && HasEligible(f, f[PrimaryIndex(s11)])
    ensures r.Ok? ==>
      var (b1, b2) := SelectBands(f, s11, s21).value;
      var (c1, c2) := r.value;
      && c1.frequency == b1.freq && c1.s11 == -b1.s11 && c1.s21 == -b1.s21
      && c2.frequency == b2.freq && c2.s11 == -b2.s11 && c2.s21 == -b2.s21
      && RegriddedAt(f[0], f[|f| - 1], efficiency, b1.freq) == Ok(c1.efficiency)
      && RegriddedAt(f[0], f[|f| - 1], gain, b1.freq) == Ok(c1.gain)
      && RegriddedAt(f[0], f[|f| - 1], efficiency, b2.freq) == Ok(c2.efficiency)
      && RegriddedAt(f[0], f[|f| - 1], gain, b2.freq) == Ok(c2.gain)
      && c1.s11 >= c2.s11
      && (c2.frequency < c1.frequency - ExclusionRadius || c2.frequency > c1.frequency + ExclusionRadius)
  {
    if |f| == 0 then Err(EmptyCurve)
    else
      var first, last := f[0], f[|f| - 1];
      if |efficiency| < 2 || |gain| < 2 then Err(TooFewSamples)
      else if first == last then Err(DegenerateAxis)
      else
        match SelectBands(f, s11, s21)
        case Err(e) => Err(e)
        case Ok(bands) =>
          Ok((Observe(bands.0, first, last, efficiency, gain), Observe(bands.1, first, last, efficiency, gain)))
  }
}
