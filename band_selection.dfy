/**
 * Dual-band selection over a reflection curve s11[0..N) aligned with a
 * frequency axis f[0..N): the primary band is the first global minimum of
 * s11; the secondary band is the first minimum of s11 once every sample
 * within the exclusion radius of the primary frequency has been set to +inf.
 * The transmission curve s21 is only read at the two chosen indices.
 */
module BandSelection {
  import opened Outcomes

  /** Exclusion radius around the primary frequency, in the curve's units (GHz). */
  const ExclusionRadius: real := 2.0

  /** A masked reflection sample: a finite dB value, or the +inf written by the mask. */
  datatype ExtReal = Fin(value: real) | PosInf

  /** The order numpy uses on a masked array: every finite value is below +inf. */
  predicate AtMost(a: ExtReal, b: ExtReal) {
    b.PosInf? || (a.Fin? && a.value <= b.value)
  }

  predicate Below(a: ExtReal, b: ExtReal) {
    !AtMost(b, a)
  }

  /** Index of the first occurrence of the minimum, as numpy's argmin returns it. */
  function ArgMin(s: seq<ExtReal>): (i: nat)
    requires |s| > 0
    ensures i < |s|
    ensures forall j :: 0 <= j < |s| ==> AtMost(s[i], s[j])
    ensures forall j :: 0 <= j < i ==> Below(s[i], s[j])
  {
    if |s| == 1 then 0
    else
      var k := ArgMin(s[..|s| - 1]);
      assert forall j :: 0 <= j < |s| - 1 ==> s[..|s| - 1][j] == s[j];
      if Below(s[|s| - 1], s[k]) then |s| - 1 else k
  }

  function Lift(s: seq<real>): (m: seq<ExtReal>)
    ensures |m| == |s|
    ensures forall j :: 0 <= j < |s| ==> m[j] == Fin(s[j])
  {
    seq(|s|, j requires 0 <= j < |s| => Fin(s[j]))
  }

  /** The mask of mimo_fuzzy.py: a sample is eligible for the secondary band iff
      its frequency fails the closed window [center - 2, center + 2]. */
  predicate OutsideWindow(x: real, center: real) {
    x < center - ExclusionRadius || x > center + ExclusionRadius
  }

  /** s11 with every ineligible sample replaced by +inf (np.where(mask, s11, inf)). */
  function Masked(f: seq<real>, s11: seq<real>, center: real): (m: seq<ExtReal>)
    requires |f| == |s11|
    ensures |m| == |s11|
    ensures forall j :: 0 <= j < |m| ==> (m[j].Fin? <==> OutsideWindow(f[j], center))
    ensures forall j :: 0 <= j < |m| && m[j].Fin? ==> m[j].value == s11[j]
  {
    seq(|s11|, j requires 0 <= j < |s11| => if OutsideWindow(f[j], center) then Fin(s11[j]) else PosInf)
  }

  /** Reference definition: i is the first index holding the minimum of s. */
  ghost predicate IsFirstMinimum(s: seq<real>, i: nat) {
    && i < |s|
    && (forall j :: 0 <= j < |s| ==> s[i] <= s[j])
    && (forall j :: 0 <= j < i ==> s[j] > s[i])
  }

  ghost predicate HasEligible(f: seq<real>, center: real) {
    exists j :: 0 <= j < |f| && OutsideWindow(f[j], center)
  }

  /** Reference definition: i is the first eligible index holding the minimum
      of s11 over the eligible indices. */
  ghost predicate IsFirstEligibleMinimum(f: seq<real>, s11: seq<real>, center: real, i: nat)
    requires |f| == |s11|
  {
    && i < |s11|
    && OutsideWindow(f[i], center)
    && (forall j :: 0 <= j < |s11| && OutsideWindow(f[j], center) ==> s11[i] <= s11[j])
    && (forall j :: 0 <= j < i && OutsideWindow(f[j], center) ==> s11[j] > s11[i])
  }

  /** np.argmin(s11_val): the primary band index. */
  function PrimaryIndex(s11: seq<real>): (i: nat)
    requires |s11| > 0
    ensures IsFirstMinimum(s11, i)
  {
    var m := Lift(s11);
    var i := ArgMin(m);
    assert forall j :: 0 <= j < |s11| ==> AtMost(m[i], m[j]) && m[j] == Fin(s11[j]);
    i
  }

  /** The secondary index exactly as mimo_fuzzy.py computes it: np.argmin of the
      masked array, with no guard for an all-+inf array. */
  function SecondaryIndexAsWritten(f: seq<real>, s11: seq<real>, center: real): (i: nat)
    requires |f| == |s11| > 0
    ensures i < |s11|
  {
    ArgMin(Masked(f, s11, center))
  }

  /** One selected band: where it is and the two S-parameters read there. */
  datatype Band = Band(index: nat, freq: real, s11: real, s21: real)

  /** The secondary band index with the degenerate case reported as an error. */
  function SecondaryIndex(f: seq<real>, s11: seq<real>, center: real): (r: Result<nat>)
    requires |f| == |s11| > 0
    ensures r.Ok? <==> HasEligible(f, center)
    ensures r.Err? ==> r.error == NoSecondaryBand
    ensures r.Ok? ==> IsFirstEligibleMinimum(f, s11, center, r.value)
  {
    var m := Masked(f, s11, center);
    var i := ArgMin(m);
    if m[i].PosInf? then
      assert forall j :: 0 <= j < |f| ==> !OutsideWindow(f[j], center) by {
        forall j | 0 <= j < |f| ensures !OutsideWindow(f[j], center) {
          assert AtMost(m[i], m[j]);
        }
      }
      Err(NoSecondaryBand)
    else
      assert forall j :: 0 <= j < |s11| && OutsideWindow(f[j], center) ==> m[j] == Fin(s11[j]);
      Ok(i)
  }

  /** Both bands (mimo_fuzzy.py:139-167), with +inf masking replaced by an
      explicit error when no sample lies outside the exclusion window. */
  function SelectBands(f: seq<real>, s11: seq<real>, s21: seq<real>): (r: Result<(Band, Band)>)
    requires |f| == |s11| == |s21|
    ensures |s11| == 0 <==> r == Err(EmptyCurve)
    ensures |s11| > 0 ==> (r.Ok? <==> HasEligible(f, f[PrimaryIndex(s11)]))
    ensures r.Err? ==> r.error == EmptyCurve || r.error == NoSecondaryBand
    ensures r.Ok? ==>
      var (b1, b2) := r.value;
      && IsFirstMinimum(s11, b1.index)
      && b1 == Band(b1.index, f[b1.index], s11[b1.index], s21[b1.index])
      && IsFirstEligibleMinimum(f, s11, b1.freq, b2.index)
      && b2 == Band(b2.index, f[b2.index], s11[b2.index], s21[b2.index])
      && (b2.freq < b1.freq - ExclusionRadius || b2.freq > b1.freq + ExclusionRadius)
      && b1.index != b2.index
      && b1.s11 <= b2.s11
  {
    if |s11| == 0 then Err(EmptyCurve)
    else
      var i1 := PrimaryIndex(s11);
      match SecondaryIndex(f, s11, f[i1])
      case Err(e) => Err(e)
      case Ok(i2) =>
        Ok((Band(i1, f[i1], s11[i1], s21[i1]), Band(i2, f[i2], s11[i2], s21[i2])))
  }

  /** Whenever some sample is eligible, the unguarded argmin of the script
      picks the same secondary index as the guarded selection. */
  lemma AsWrittenAgreesWhenEligible(f: seq<real>, s11: seq<real>, center: real)
    requires |f| == |s11| > 0
    requires HasEligible(f, center)
    ensures SecondaryIndex(f, s11, center) == Ok(SecondaryIndexAsWritten(f, s11, center))
  {
  }

  /** When nothing is eligible, the script's argmin over an all-+inf array
      returns index 0 and the secondary S11 value it reads is +inf. */
  lemma AsWrittenDegenerateIsIndexZero(f: seq<real>, s11: seq<real>, center: real)
    requires |f| == |s11| > 0
    requires !HasEligible(f, center)
    ensures SecondaryIndexAsWritten(f, s11, center) == 0
    ensures Masked(f, s11, center)[0] == PosInf
  {
    var m := Masked(f, s11, center);
    assert forall j :: 0 <= j < |m| ==> m[j] == PosInf;
    var i := ArgMin(m);
    assert i > 0 ==> Below(m[i], m[0]);
  }

  /** A concrete two-sample curve on which the script, as written, reports a
      secondary band 1 GHz from the primary, inside the exclusion window,
      with S11 = +inf; the guarded selection reports NoSecondaryBand. */
  lemma DegenerateCurveExample()
    ensures PrimaryIndex([-10.0, -20.0]) == 1
    ensures SecondaryIndexAsWritten([20.0, 21.0], [-10.0, -20.0], 21.0) == 0
    ensures Masked([20.0, 21.0], [-10.0, -20.0], 21.0)[0] == PosInf
    ensures !OutsideWindow(20.0, 21.0)
    ensures SelectBands([20.0, 21.0], [-10.0, -20.0], [-30.0, -25.0]) == Err(NoSecondaryBand)
  {
    var f, s11 := [20.0, 21.0], [-10.0, -20.0];
    var i1 := PrimaryIndex(s11);
    assert IsFirstMinimum(s11, i1);
    assert !HasEligible(f, 21.0) by {
      forall j | 0 <= j < |f| ensures !OutsideWindow(f[j], 21.0) {
        assert f[j] == 20.0 || f[j] == 21.0;
      }
    }
    AsWrittenDegenerateIsIndexZero(f, s11, 21.0);
  }

  /** Two resonances 6 GHz apart: the deeper one is primary, the sample 2 GHz
      from it is masked, and the best remaining sample is secondary. */
  lemma TwoBandExample()
    ensures SelectBands([20.0, 22.0, 24.0, 26.0], [-30.0, -10.0, -12.0, -25.0], [-40.0, -35.0, -30.0, -20.0])
      == Ok((Band(0, 20.0, -30.0, -40.0), Band(3, 26.0, -25.0, -20.0)))
  {
    var f, s11 := [20.0, 22.0, 24.0, 26.0], [-30.0, -10.0, -12.0, -25.0];
    assert IsFirstMinimum(s11, PrimaryIndex(s11));
    assert s11[0] <= s11[PrimaryIndex(s11)];
    assert !OutsideWindow(f[1], 20.0) && OutsideWindow(f[2], 20.0) && OutsideWindow(f[3], 20.0);
    var r := SecondaryIndex(f, s11, 20.0);
    assert r.Ok?;
    assert IsFirstEligibleMinimum(f, s11, 20.0, r.value);
    assert s11[r.value] <= s11[3];
  }
}
