/**
 * The firing strength of the design's single Mamdani rule: the conjunction
 * (minimum, scikit-fuzzy's default for `&`) of the membership degrees of its
 * ten antecedent terms. The membership shapes themselves are given degrees.
 */
module FuzzyRule {

  /** Degrees of the antecedent terms at the ten crisp inputs. */
  datatype Antecedents = Antecedents(
    frequencyTargeted1: real, frequencyTargeted2: real,
    s11Good1: real, s11Good2: real,
    highIsolation1: real, highIsolation2: real,
    efficiencyHigh1: real, efficiencyHigh2: real,
    gainHigh1: real, gainHigh2: real)

  /** The antecedents in the order the rule conjoins them. */
  function RuleOrder(a: Antecedents): seq<real> {
    [a.frequencyTargeted1, a.frequencyTargeted2, a.s11Good1, a.s11Good2,
     a.highIsolation1, a.highIsolation2, a.efficiencyHigh1, a.efficiencyHigh2,
     a.gainHigh1, a.gainHigh2]
  }

  predicate IsDegree(d: real) { 0.0 <= d <= 1.0 }

  function Min(x: real, y: real): real { if x <= y then x else y }

  /** ((d0 & d1) & d2) & ...: the left fold of the pairwise minimum. Its
      result is the minimum of the degrees: a lower bound that is attained. */
  function Conjunction(ds: seq<real>): (alpha: real)
    requires |ds| > 0
    ensures forall i :: 0 <= i < |ds| ==> alpha <= ds[i]
    ensures exists i :: 0 <= i < |ds| && alpha == ds[i]
  {
    if |ds| == 1 then ds[0]
    else
      var prefix := ds[..|ds| - 1];
      assert forall i :: 0 <= i < |ds| - 1 ==> prefix[i] == ds[i];
      Min(Conjunction(prefix), ds[|ds| - 1])
  }

  /** Raising any degree never lowers the conjunction. */
  lemma ConjunctionMonotone(ds: seq<real>, es: seq<real>)
    requires |ds| == |es| > 0
    requires forall i :: 0 <= i < |ds| ==> ds[i] <= es[i]
    ensures Conjunction(ds) <= Conjunction(es)
  {
    var k :| 0 <= k < |es| && Conjunction(es) == es[k];
    assert Conjunction(ds) <= ds[k];
  }

  /** The rule's firing strength (mimo_fuzzy.py:76): a degree, at most every
      antecedent's degree, zero as soon as one antecedent is zero, and one
      only when every antecedent is fully met. */
  function FiringStrength(a: Antecedents): (alpha: real)
    ensures forall i :: 0 <= i < 10 ==> alpha <= RuleOrder(a)[i]
    ensures exists i :: 0 <= i < 10 && alpha == RuleOrder(a)[i]
    ensures (forall i :: 0 <= i < 10 ==> IsDegree(RuleOrder(a)[i])) ==> IsDegree(alpha)
    ensures (forall i :: 0 <= i < 10 ==> IsDegree(RuleOrder(a)[i])) ==>
      (alpha == 0.0 <==> exists i :: 0 <= i < 10 && RuleOrder(a)[i] == 0.0)
    ensures (forall i :: 0 <= i < 10 ==> IsDegree(RuleOrder(a)[i])) ==>
      (alpha == 1.0 <==> forall i :: 0 <= i < 10 ==> RuleOrder(a)[i] == 1.0)
  {
    Conjunction(RuleOrder(a))
  }
}
