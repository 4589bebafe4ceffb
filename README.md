# Dual-band fuzzy scoring and patch-length sweep — a Dafny model

`mimo_fuzzy.py` tunes one geometric parameter of a 2x2 MIMO antenna,
`patch_length`, by a greedy sweep. Each pass stores the parameter in the
simulation session, solves, and turns the result curves into one fitness
score. Two resonant bands are taken from the reflection curve S11. The
first is the global minimum. The second is the best sample more than
2 GHz away from the first. S21, total efficiency and maximum gain are
read at the two band frequencies. These ten crisp values feed a single
fuzzy rule whose antecedents are joined by minimum. The best-scoring
parameter value is kept; on ties the earlier value wins. That value is
stored back at the end.

This project models the logic of that script over exact reals:

- `outcomes.dfy` (module `Outcomes`): the error cases of one pass and a `Result` type.
- `band_selection.dfy` (module `BandSelection`): numpy's first-occurrence `argmin`, the
  `np.where` mask with `+inf` (an `ExtReal` value), and the two-band selection.
- `interpolation.dfy` (module `Interpolation`): `numpy.linspace` re-gridding of the sparse
  efficiency and gain series onto `[f[0], f[-1]]`, and scipy `interp1d` linear
  interpolation with linear extrapolation, following scipy's search-and-clip segment choice.
- `features.dfy` (module `Features`): the ten crisp inputs of one pass, with S11 and S21
  sign-flipped so that a larger input is a better design.
- `fuzzy_rule.dfy` (module `FuzzyRule`): the firing strength of the rule, the left-folded
  minimum of its ten antecedent degrees.
- `sweep.dfy` (module `Sweep`): the sweep loop as a method over a `DesignSession` object
  that records every `StoreParameter` call. The reference function `Scan` specifies the
  loop, and lemmas characterise what `Scan` computes.

Modelling choices:

- The fitness of a pass is an oracle `score: real -> real` of the parameter value. It
  stands for store, solve, extract and defuzzify.
- The script reads the frequency axis twice, from S1,1 and then from S2,1, and keeps the
  second. The model passes one shared axis `f` aligned with both curves.
- `interp1d` sorts its abscissae, so a falling axis (`f[0] > f[-1]`) is modelled as the
  rising grid with the series reversed.
- When `f[0] == f[-1]`, every re-gridded abscissa is the same. scipy then divides by zero
  and continues with a non-finite value: NaN, or ±inf when the queried band frequency
  differs from f[0] and the samples differ. The model returns `DegenerateAxis` instead.
- An empty efficiency or gain series makes `interp1d` raise, and a one-sample series has no
  segment to interpolate on; the model returns `TooFewSamples` for both. An empty
  S-parameter curve makes `f[0]` raise; the model returns `EmptyCurve`.
- When no sample lies outside the exclusion window, the script does not stop. It picks
  index 0 with S11 = +inf (see Findings). The model returns `NoSecondaryBand` there.

## Model

| member | source | states |
|---|---|---|
| `BandSelection.ArgMin` | mimo_fuzzy.py:139 | the index holds a value no larger than any other, and every earlier index holds a strictly larger value (numpy's first occurrence), with +inf above every finite value |
| `BandSelection.PrimaryIndex` | mimo_fuzzy.py:139-142 | the primary index is the first index of the global minimum of s11 |
| `BandSelection.Masked` | mimo_fuzzy.py:157-158 | same length as s11; a sample stays finite iff its frequency is below f1 - 2 or above f1 + 2, it then keeps its s11 value, and every other sample becomes +inf |
| `BandSelection.SecondaryIndex` | mimo_fuzzy.py:157-160 | succeeds iff some sample is eligible, and then returns the first eligible index holding the minimum of s11 over eligible samples; otherwise NoSecondaryBand |
| `BandSelection.SelectBands` | mimo_fuzzy.py:139-167 | EmptyCurve iff the curve is empty; success iff some sample lies outside the window of the primary frequency; band 1 is the first global minimum and band 2 the first eligible minimum; frequency, S11 and S21 are all read at each band's own index; S21 is read unmasked; the bands are more than 2 apart in frequency, at different indices, and s11_1 <= s11_2 |
| `BandSelection.SecondaryIndexAsWritten` | mimo_fuzzy.py:160 | the unguarded argmin of the masked array always returns an index inside the curve |
| `BandSelection.AsWrittenAgreesWhenEligible` | mimo_fuzzy.py:157-160 | when some sample is eligible, the unguarded argmin picks the same index as the guarded selection |
| `BandSelection.AsWrittenDegenerateIsIndexZero` | mimo_fuzzy.py:158-166 | when no sample is eligible, the unguarded argmin returns index 0 and the S11 read there is +inf |
| `BandSelection.DegenerateCurveExample` | mimo_fuzzy.py:139-166 | on f = [20, 21], s11 = [-10, -20], the primary is index 1, the script's secondary is index 0 inside the window with S11 = +inf, and the guarded selection reports NoSecondaryBand |
| `BandSelection.TwoBandExample` | mimo_fuzzy.py:139-167 | on a four-point curve the deepest sample is band 1, the sample exactly 2 GHz away is masked, and the best remaining sample is band 2 |
| `Interpolation.Linspace` | mimo_fuzzy.py:132-133 | `numpy.linspace` with its default endpoint: n points, the first at f[0] and, for n >= 2, the last at f[-1]; the constant step is stated by `LinspaceGrid` |
| `Interpolation.LinspaceGrid` | mimo_fuzzy.py:132-133 | for n >= 2 the grid starts at f[0], ends at f[-1], and has the constant step (f[-1] - f[0]) / (n - 1) |
| `Interpolation.LinspaceIncreasing` | mimo_fuzzy.py:132-133 | a grid over a rising span is strictly increasing |
| `Interpolation.CountBelow` | mimo_fuzzy.py:134-135 | the search position used by interp1d: every sample before it is below the query and the sample at it is not |
| `Interpolation.Segment` | mimo_fuzzy.py:134-135 | the segment chosen for a query is always a real segment, 1 <= hi < n |
| `Interpolation.Interp` | mimo_fuzzy.py:134-135 | the `interp1d` evaluation (called at 143-144 and 168-169) on the segment `Segment` picks; a segment whose two samples are equal yields that sample at any query; `InterpAtSample`, `InterpReproducesLine` and `InterpWithinSegment` state its values |
| `Interpolation.SegmentBrackets` | mimo_fuzzy.py:134-135 | inside the span the chosen segment brackets the query; below the span the first segment is used and above it the last, so the value is extrapolated, never clamped |
| `Interpolation.InterpAtSample` | mimo_fuzzy.py:134-135 | the interpolant returns each sample's value exactly at that sample's abscissa |
| `Interpolation.InterpReproducesLine` | mimo_fuzzy.py:134-135 | samples of a line a*x + b are interpolated and extrapolated to exactly a*v + b for every v |
| `Interpolation.InterpWithinSegment` | mimo_fuzzy.py:134-135 | inside the span the interpolant lies between the two samples of the segment used |
| `Interpolation.RegriddedAt` | mimo_fuzzy.py:132-135 | TooFewSamples for fewer than two samples, DegenerateAxis when f[0] == f[-1], a value otherwise |
| `Interpolation.RegriddedAtGridPoint` | mimo_fuzzy.py:132-135 | at the i-th re-gridded frequency the re-gridded series returns its i-th sample, for a rising or a falling axis |
| `Interpolation.RegriddedReproducesLine` | mimo_fuzzy.py:132-135 | a series sampled from a line over the re-gridded axis is reproduced exactly at every frequency, in and beyond the span |
| `Features.Observe` | mimo_fuzzy.py:143-175 | the five inputs of one band (lines 143-144 and 149-153 for band 1, 168-175 for band 2): its frequency unchanged, S11 and S21 negated, and efficiency and gain as the re-gridded series give them at the band frequency |
| `Features.ExtractInputs` | mimo_fuzzy.py:127-175 | the error cases in the script's order; success iff the curve is non-empty, both series have two or more samples, the axis is not degenerate and a second band exists; then each band gives its frequency unchanged, the negated S11 and S21 read at the band's index, and efficiency and gain from the re-gridded series at the band frequency; band 1's negated S11 is at least band 2's, and the two frequencies are more than 2 apart |
| `FuzzyRule.Conjunction` | mimo_fuzzy.py:76 | the left fold of `&` is at most every degree and equal to one of them, so it is their minimum |
| `FuzzyRule.ConjunctionMonotone` | mimo_fuzzy.py:76 | raising any antecedent degree never lowers the conjunction |
| `FuzzyRule.FiringStrength` | mimo_fuzzy.py:76 | the firing strength of the ten-antecedent rule is their minimum; for degrees in [0,1] it is in [0,1], it is 0 iff some antecedent is 0, and it is 1 iff all are 1 |
| `Sweep.Scan` | mimo_fuzzy.py:115-193 | the best-so-far state after k passes: the score is never negative, a zero score keeps v0, and a positive score is the score of the pass whose parameter is kept; `ScanIsFirstMaximum` states that it is the first maximum |
| `Sweep.ScanIsFirstMaximum` | mimo_fuzzy.py:115-193 | after k passes best_score is at least 0 and at least every score seen; while it is 0 best_params is v0; when it is positive, best_params is the parameter of the first pass scoring it, and every earlier pass scored strictly less |
| `Sweep.ScanMonotone` | mimo_fuzzy.py:189-191 | best_score never decreases from one pass to a later one |
| `Sweep.NothingBeatsZero` | mimo_fuzzy.py:116-117 | when no pass scores above 0 the sweep ends with best_params = v0 and best_score = 0 |
| `Sweep.IncreasingScoresPickLast` | mimo_fuzzy.py:189-193 | strictly rising scores that start above 0 make the last pass's parameter the best |
| `Sweep.FirstBestPicksStart` | mimo_fuzzy.py:189-193 | a positive first score that no later pass beats keeps v0, since ties do not replace it |
| `Sweep.PatchLengthsTried` | mimo_fuzzy.py:14 | in exact arithmetic the configured sweep tries 10.7, 10.8, 10.9, 11.0 and 11.1 |
| `Sweep.DesignSession.StoreParameter` | mimo_fuzzy.py:120 | the session's parameter becomes the stored value, and the value is appended to the record of stored values |
| `Sweep.Optimize` | mimo_fuzzy.py:115-196 | the result is `Scan` of the k passes; pass i stores v0 + i*step; the values stored are exactly the k pass parameters in order, followed by best_params; the session ends at best_params |
| `Sweep.OptimizePatchLength` | mimo_fuzzy.py:14-196 | with the script's constants, the stored values are 10.7, 10.8, 10.9, 11.0, 11.1 and then the committed best_params |

## Left out

- The simulation session beyond the stored parameter: opening the project, `Rebuild`, `Save`, `run_solver` and the `ResultTree` fetches (mimo_fuzzy.py:7-10, 84, 97, 107, 121-123, 197-198). These are calls into an external tool.
- Magnitude and dB conversion with `sqrt` and `log10` in `get_s_parameter` and `get_efficiency` (mimo_fuzzy.py:83-111). This is floating-point transcendental arithmetic; the curves are inputs in dB.
- The Gaussian and sigmoid membership shapes, the `np.fmax` of the two frequency bumps, and the universes they are sampled on (mimo_fuzzy.py:18-72). They need `exp` and float `arange`; membership degrees are inputs in [0,1].
- Membership lookup at the crisp inputs, consequent clipping and centroid defuzzification inside `opt_simulation.compute()` (mimo_fuzzy.py:78-79, 179-180). That code belongs to scikit-fuzzy and is not part of this model. The score of a pass is therefore an oracle.
- `masked_s21` (mimo_fuzzy.py:159) is computed and never read; the model reads S21 unmasked, as the script does.
- Floating-point accumulation of `current_par + 0.1` (mimo_fuzzy.py:193). With exact reals, pass i uses exactly v0 + i*0.1.
- NaN or infinite values in the solver's curves. Curves are finite reals.
- A one-sample efficiency or gain series: the script's behaviour there depends on scipy's own length check, which is not part of this model; the model reports `TooFewSamples`.
- Sweep.Optimize: the score oracle is total, so every modelled sweep reaches the final commit; in the script a pass that raises (an empty curve at mimo_fuzzy.py:132, an empty series at 134-135) ends the run before the commit at mimo_fuzzy.py:196, leaving the last pass's value stored.
- Features.ExtractInputs: where `f[0] == f[-1]` the script continues with non-finite efficiency and gain (NaN, or ±inf when the band frequency differs from f[0]); the model returns DegenerateAxis there.
- BandSelection.SelectBands: where no sample is eligible the script continues with index 0 and S11 = +inf; the model returns NoSecondaryBand there (see Findings).
- All `print` output (mimo_fuzzy.py:9, 182-187, 195, 199).

## Findings

| source | as written | input that shows it | evidently intended | confidence | as-written member | corrected member |
|---|---|---|---|---|---|---|
| mimo_fuzzy.py:157-166 | the second band is `np.argmin` of the masked array, with no check that any sample survived the mask | f = [20.0, 21.0], s11 = [-10.0, -20.0] (`BandSelection.DegenerateCurveExample`): the primary band is at 21 GHz and both samples are masked; band 2 becomes index 0 at 20 GHz, 1 GHz from band 1 and inside the window, with S11 = +inf fed to the rule as -inf | report that the curve has no second band instead of scoring a meaningless one | not executed | `BandSelection.SecondaryIndexAsWritten` | `BandSelection.SecondaryIndex` |
