/** The scaffolding shared by the fit-score and profile-strength rubrics and
    by the checklist progress bars: a component earns some points out of the
    weight it adds to `maxScore`, and the total is turned into a percentage
    with `Math.round`. */
module Rubric {

  /** One rubric component: the points it earned and the weight it added to
      `maxScore`. A component whose data is missing adds nothing to either. */
  datatype Part = Part(earned: nat, weight: nat)

  const Skipped := Part(0, 0)

  /** A component never earns more than its weight. */
  predicate Sound(p: Part) {
    p.earned <= p.weight
  }

  /** `maxScore > 0 ? Math.round((score / maxScore) * 100) : 0` on exact
      rationals. `Math.round` rounds half up, so the result `r` is the one
      integer with `r - 1/2 <= 100 * score / maxScore < r + 1/2`. */
  function Percent(score: nat, maxScore: nat): (r: nat)
    ensures maxScore == 0 ==> r == 0
    ensures maxScore > 0 ==> 2 * maxScore * r <= 200 * score + maxScore < 2 * maxScore * (r + 1)
    ensures score <= maxScore ==> r <= 100
  {
    if maxScore == 0 then 0
    else
      var r := (200 * score + maxScore) / (2 * maxScore);
      DivBounds(200 * score + maxScore, 2 * maxScore, r);
      if score <= maxScore then
        assert 2 * maxScore * r <= 200 * maxScore + maxScore < 2 * maxScore * 101;
        r
      else r
  }

  lemma DivBounds(a: nat, b: nat, q: nat)
    requires b > 0 && q == a / b
    ensures b * q <= a < b * (q + 1)
  {
  }

  /** Multiplying by a natural keeps the order. */
  lemma MulMonotone(m: nat, x: nat, y: nat)
    ensures x <= y ==> m * x <= m * y
  {
    if x <= y {
      assert m * y == m * x + m * (y - x);
    }
  }

  /** From `m * x < m * y` follows `x < y`. */
  lemma CancelLess(m: nat, x: nat, y: nat)
    requires m * x < m * y
    ensures x < y
  {
    MulMonotone(m, y, x);
  }

  /** The percentage never goes down when the score goes up and the weights
      stay the same. */
  lemma PercentMonotone(a: nat, b: nat, maxScore: nat)
    requires a <= b
    ensures Percent(a, maxScore) <= Percent(b, maxScore)
  {
    if maxScore > 0 {
      var ra, rb := Percent(a, maxScore), Percent(b, maxScore);
      assert 2 * maxScore * ra < 2 * maxScore * (rb + 1);
      CancelLess(2 * maxScore, ra, rb + 1);
    }
  }

  /** Full marks on every active component give exactly 100, nothing earned
      gives exactly 0. */
  lemma PercentEnds(maxScore: nat)
    requires maxScore > 0
    ensures Percent(maxScore, maxScore) == 100
    ensures Percent(0, maxScore) == 0
  {
    var full := Percent(maxScore, maxScore);
    assert 2 * maxScore * full <= 2 * maxScore * 100 + maxScore < 2 * maxScore * (full + 1);
    CancelLess(2 * maxScore, full, 101);
    CancelLess(2 * maxScore, 99, full);
    var none := Percent(0, maxScore);
    CancelLess(2 * maxScore, none, 1);
  }
}
