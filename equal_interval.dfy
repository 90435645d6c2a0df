/**
 * Equal-interval discretisation into five classes, shared by the styling and
 * vectorisation scripts: with `step = (vmax - vmin) / 5`, class `i` (0-based)
 * spans from `vmin + step * i` to `vmin + step * (i + 1)`. Exact `real`
 * arithmetic stands for the scripts' floating point.
 */
module EqualInterval {

  const ClassCount: nat := 5

  function Step(vmin: real, vmax: real): real {
    (vmax - vmin) / (ClassCount as real)
  }

  /** Lower limit of class `i` (0-based). */
  function LowerLimit(vmin: real, vmax: real, i: nat): real {
    vmin + Step(vmin, vmax) * (i as real)
  }

  /** Upper limit of class `i` (0-based). */
  function UpperLimit(vmin: real, vmax: real, i: nat): real {
    vmin + Step(vmin, vmax) * ((i + 1) as real)
  }

  /** The list of upper limits, one per class. */
  function UpperLimits(vmin: real, vmax: real): seq<real> {
    seq(ClassCount, i requires 0 <= i < ClassCount => UpperLimit(vmin, vmax, i))
  }

  predicate StrictlyIncreasing(s: seq<real>) {
    forall i, j :: 0 <= i < j < |s| ==> s[i] < s[j]
  }

  /** On a non-empty range, a later class has strictly larger limits. */
  lemma {:induction false} LimitsIncrease(vmin: real, vmax: real, i: nat, j: nat)
    requires vmin < vmax && i < j
    ensures UpperLimit(vmin, vmax, i) < UpperLimit(vmin, vmax, j)
    ensures LowerLimit(vmin, vmax, i) < LowerLimit(vmin, vmax, j)
  {
    var step := Step(vmin, vmax);
    assert step > 0.0;
    assert step * ((j + 1) as real) - step * ((i + 1) as real) == step * ((j - i) as real);
    assert step * (j as real) - step * (i as real) == step * ((j - i) as real);
    assert step * ((j - i) as real) > 0.0;
  }

  /** On a non-empty range the upper limits strictly increase. */
  lemma UpperLimitsIncreasing(vmin: real, vmax: real)
    requires vmin < vmax
    ensures StrictlyIncreasing(UpperLimits(vmin, vmax))
  {
    var u := UpperLimits(vmin, vmax);
    forall i, j | 0 <= i < j < |u| ensures u[i] < u[j] {
      LimitsIncrease(vmin, vmax, i, j);
    }
  }

  /** The classes start at `vmin` and, in exact arithmetic, the last one ends at `vmax`. */
  lemma RangeEndpoints(vmin: real, vmax: real)
    ensures LowerLimit(vmin, vmax, 0) == vmin
    ensures UpperLimit(vmin, vmax, ClassCount - 1) == vmax
    ensures UpperLimits(vmin, vmax)[ClassCount - 1] == vmax
  {
  }

  /** Each class ends where the next one begins. */
  lemma LimitsContiguous(vmin: real, vmax: real, i: nat)
    ensures UpperLimit(vmin, vmax, i) == LowerLimit(vmin, vmax, i + 1)
  {
  }

  /** On a non-empty range every class lies inside `[vmin, vmax]` and has positive width. */
  lemma {:induction false} LimitsWithinRange(vmin: real, vmax: real, i: nat)
    requires vmin < vmax && i < ClassCount
    ensures vmin <= LowerLimit(vmin, vmax, i) < UpperLimit(vmin, vmax, i) <= vmax
  {
    LimitsIncrease(vmin, vmax, i, i + 1);
    LimitsContiguous(vmin, vmax, i);
    if i > 0 {
      LimitsIncrease(vmin, vmax, 0, i);
    }
    if i < ClassCount - 1 {
      LimitsIncrease(vmin, vmax, i, ClassCount - 1);
    }
    RangeEndpoints(vmin, vmax);
  }
}
