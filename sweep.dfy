/**
 * The greedy sweep over the single design parameter (patch_length): pass i
 * stores v0 + i * step in the design, scores it, and keeps the best score
 * seen so far, replacing it only on strict improvement; the best parameter
 * is stored once more at the end. The solve-and-score pipeline of a pass is
 * an oracle from parameter value to score.
 */
module Sweep {

  /** Starting patch length, step and number of passes in mimo_fuzzy.py. */
  const PatchLengthStart: real := 10.7
  const PatchLengthStep: real := 0.1
  const Passes: nat := 5

  datatype SweepResult = SweepResult(bestParams: real, bestScore: real)

  /** The parameter value tried in pass i. */
  function Param(v0: real, step: real, i: nat): real {
    v0 + i as real * step
  }

  /** The parameter values of the first k passes, in order. */
  function Params(v0: real, step: real, k: nat): (ps: seq<real>)
    ensures |ps| == k
    ensures forall i :: 0 <= i < k ==> ps[i] == Param(v0, step, i)
  {
    seq(k, (i: nat) requires i < k => Param(v0, step, i))
  }

  /** Best-so-far state after the first k passes: the score is never
      negative, a zero score leaves v0 in place, and a positive score is the
      score of the pass whose parameter is kept. */
  function Scan(v0: real, step: real, score: real -> real, k: nat): (r: SweepResult)
    ensures r.bestScore >= 0.0
    ensures r.bestScore == 0.0 ==> r.bestParams == v0
    ensures r.bestScore > 0.0 ==>
      exists i :: 0 <= i < k && r == SweepResult(Param(v0, step, i), score(Param(v0, step, i)))
  {
    if k == 0 then SweepResult(v0, 0.0)
    else
      var prev := Scan(v0, step, score, k - 1);
      var s := score(Param(v0, step, k - 1));
      if s > prev.bestScore then SweepResult(Param(v0, step, k - 1), s) else prev
  }

  /** Pass i is the first pass whose score reaches best. */
  ghost predicate FirstToReach(v0: real, step: real, score: real -> real, i: nat, best: real) {
    && score(Param(v0, step, i)) == best
    && forall j :: 0 <= j < i ==> score(Param(v0, step, j)) < best
  }

  /** What the scan computes: best_score is the maximum of 0 and every score
      seen; while it is 0 the parameter is still v0; otherwise the parameter
      is that of the first pass reaching the maximum. */
  lemma {:induction false} ScanIsFirstMaximum(v0: real, step: real, score: real -> real, k: nat)
    ensures Scan(v0, step, score, k).bestScore >= 0.0
    ensures forall i :: 0 <= i < k ==> score(Param(v0, step, i)) <= Scan(v0, step, score, k).bestScore
    ensures Scan(v0, step, score, k).bestScore == 0.0 ==> Scan(v0, step, score, k).bestParams == v0
    ensures Scan(v0, step, score, k).bestScore > 0.0 ==>
      exists i :: 0 <= i < k && FirstToReach(v0, step, score, i, Scan(v0, step, score, k).bestScore)
        && Scan(v0, step, score, k).bestParams == Param(v0, step, i)
  {
    if k > 0 {
      ScanIsFirstMaximum(v0, step, score, k - 1);
      var prev := Scan(v0, step, score, k - 1);
      var s := score(Param(v0, step, k - 1));
      if s > prev.bestScore {
        assert FirstToReach(v0, step, score, k - 1, s);
      } else if prev.bestScore > 0.0 {
        var i :| 0 <= i < k - 1 && FirstToReach(v0, step, score, i, prev.bestScore)
          && prev.bestParams == Param(v0, step, i);
        assert FirstToReach(v0, step, score, i, prev.bestScore);
      }
    }
  }

  /** best_score never decreases from one pass to a later one. */
  lemma {:induction false} ScanMonotone(v0: real, step: real, score: real -> real, k1: nat, k2: nat)
    requires k1 <= k2
    ensures Scan(v0, step, score, k1).bestScore <= Scan(v0, step, score, k2).bestScore
  {
    if k1 < k2 {
      ScanMonotone(v0, step, score, k1, k2 - 1);
    }
  }

  /** When no pass scores above 0 the initial value is committed with score 0. */
  lemma NothingBeatsZero(v0: real, step: real, score: real -> real, k: nat)
    requires forall i :: 0 <= i < k ==> score(Param(v0, step, i)) <= 0.0
    ensures Scan(v0, step, score, k) == SweepResult(v0, 0.0)
  {
    ScanIsFirstMaximum(v0, step, score, k);
  }

  /** Strictly rising positive scores: the last pass's parameter wins. */
  lemma IncreasingScoresPickLast(v0: real, step: real, score: real -> real, k: nat)
    requires k > 0 && score(Param(v0, step, 0)) > 0.0
    requires forall i, j :: 0 <= i < j < k ==> score(Param(v0, step, i)) < score(Param(v0, step, j))
    ensures Scan(v0, step, score, k) == SweepResult(Param(v0, step, k - 1), score(Param(v0, step, k - 1)))
  {
    ScanIsFirstMaximum(v0, step, score, k);
    var last := score(Param(v0, step, k - 1));
    assert last > 0.0 by {
      if k > 1 { assert score(Param(v0, step, 0)) < last; }
    }
    assert forall i :: 0 <= i < k - 1 ==> score(Param(v0, step, i)) < last;
  }

  /** A positive first score that no later pass beats: the first parameter wins. */
  lemma FirstBestPicksStart(v0: real, step: real, score: real -> real, k: nat)
    requires k > 0 && score(Param(v0, step, 0)) > 0.0
    requires forall i :: 0 <= i < k ==> score(Param(v0, step, i)) <= score(Param(v0, step, 0))
    ensures Scan(v0, step, score, k) == SweepResult(v0, score(Param(v0, step, 0)))
  {
    ScanIsFirstMaximum(v0, step, score, k);
  }

  /** The script's passes try 10.7, 10.8, 10.9, 11.0 and 11.1, in exact arithmetic. */
  lemma PatchLengthsTried()
    ensures Params(PatchLengthStart, PatchLengthStep, Passes) == [10.7, 10.8, 10.9, 11.0, 11.1]
  {
  }

  /** The simulation session's design, reduced to the swept parameter and the
      sequence of values stored into it. */
  class DesignSession {
    var parameter: real
    var stored: seq<real>

    constructor (initial: real)
      ensures parameter == initial && stored == []
    {
      parameter := initial;
      stored := [];
    }

    /** model.StoreParameter(name, value). */
    method StoreParameter(value: real)
      modifies this
      ensures parameter == value
      ensures stored == old(stored) + [value]
    {
      parameter := value;
      stored := stored + [value];
    }
  }

  /** The sweep loop and final commit (mimo_fuzzy.py:115-196) over k passes. */
  method Optimize(session: DesignSession, v0: real, step: real, k: nat, score: real -> real)
    returns (result: SweepResult)
    modifies session
    ensures result == Scan(v0, step, score, k)
    ensures session.parameter == result.bestParams
    ensures session.stored == old(session.stored) + Params(v0, step, k) + [result.bestParams]
  {
    var currentPar := v0;
    var bestScore := 0.0;
    var bestParams := v0;
    for i := 0 to k
      invariant currentPar == Param(v0, step, i)
      invariant SweepResult(bestParams, bestScore) == Scan(v0, step, score, i)
      invariant session.stored == old(session.stored) + Params(v0, step, i)
    {
      session.StoreParameter(currentPar);
      var s := score(currentPar);
      if s > bestScore {
        bestScore := s;
        bestParams := currentPar;
      }
      assert Params(v0, step, i + 1) == Params(v0, step, i) + [Param(v0, step, i)];
      currentPar := currentPar + step;
    }
    session.StoreParameter(bestParams);
    result := SweepResult(bestParams, bestScore);
  }

  /** The sweep exactly as configured in mimo_fuzzy.py: five passes from 10.7 in steps of 0.1. */
  method OptimizePatchLength(session: DesignSession, score: real -> real) returns (result: SweepResult)
    modifies session
    ensures result == Scan(PatchLengthStart, PatchLengthStep, score, Passes)
    ensures session.parameter == result.bestParams
    ensures session.stored == old(session.stored) + [10.7, 10.8, 10.9, 11.0, 11.1, result.bestParams]
  {
    result := Optimize(session, PatchLengthStart, PatchLengthStep, Passes, score);
    PatchLengthsTried();
  }
}
