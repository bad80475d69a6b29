/** The nonlinear program of the lateral optimizer as pure functions: the layout of
    the 3N variables and 3N constraints, their bounds, the starting point, the
    objective with its gradient and Hessian, and the constraint residuals with their
    partial derivatives. N is the number of sample points (corridor bounds). */
module LateralProblem {
  import opened ConstantJerk

  /** The admissible (lower, upper) interval of the lateral offset at one sample. */
  type Bound = (real, real)

  /** Lateral offset d, its rate d' and its curvature-rate proxy d'' at a sample. */
  datatype LateralState = LateralState(d: real, dPrime: real, dPPrime: real)

  /** Weights of the offset, rate, curvature-rate and corridor-centring terms. */
  datatype ObjectiveWeights = ObjectiveWeights(d: real, dPrime: real, dPPrime: real, obs: real)

  /** The weights the optimizer is constructed with. */
  const UnitWeights: ObjectiveWeights := ObjectiveWeights(1.0, 1.0, 1.0, 1.0)

  /** The symmetric bound put on every rate and curvature-rate variable. */
  const LargeValue: real := 10.0

  // ---------------------------------------------------------------------------
  // Layout. Variables: x[i] = d_i, x[N + i] = d'_i, x[2N + i] = d''_i for i < N.
  // Constraints: N - 1 curvature-rate rows, N - 1 rate rows, N - 1 position rows,
  // then 3 initial-state rows.
  // ---------------------------------------------------------------------------

  function RateBlockStart(n: nat): nat requires n >= 1 { n - 1 }
  function PositionBlockStart(n: nat): nat requires n >= 1 { 2 * (n - 1) }
  function InitialBlockStart(n: nat): nat requires n >= 1 { 3 * (n - 1) }

  /** The sample point that variable k belongs to. */
  function PointOf(n: nat, k: nat): (i: nat)
    requires k < 3 * n
    ensures i < n && (k == i || k == n + i || k == 2 * n + i)
  {
    if k < n then k else if k < 2 * n then k - n else k - 2 * n
  }

  // ---------------------------------------------------------------------------
  // Bounds and starting point
  // ---------------------------------------------------------------------------

  /** Lower bound of variable k: the corridor for offsets, -LargeValue otherwise. */
  function VariableLower(bounds: seq<Bound>, k: nat): real
    requires k < 3 * |bounds|
  {
    if k < |bounds| then bounds[k].0 else -LargeValue
  }

  /** Upper bound of variable k: the corridor for offsets, LargeValue otherwise. */
  function VariableUpper(bounds: seq<Bound>, k: nat): real
    requires k < 3 * |bounds|
  {
    if k < |bounds| then bounds[k].1 else LargeValue
  }

  /** Lower bound of constraint r: -dMax * ds on the curvature-rate block, 0 elsewhere. */
  function ConstraintLower(n: nat, dMax: real, ds: real, r: nat): real
    requires n >= 1 && r < 3 * n
  {
    if r < n - 1 then -dMax * ds else 0.0
  }

  /** Upper bound of constraint r: dMax * ds on the curvature-rate block, 0 elsewhere. */
  function ConstraintUpper(n: nat, dMax: real, ds: real, r: nat): real
    requires n >= 1 && r < 3 * n
  {
    if r < n - 1 then dMax * ds else 0.0
  }

  /** Every bound interval is non-empty when every corridor interval is and the
      curvature-rate limit is non-negative; the constraints past the curvature-rate
      block are equalities. */
  lemma BoundsOrdered(bounds: seq<Bound>, dMax: real, ds: real)
    requires |bounds| >= 1
    requires forall i :: 0 <= i < |bounds| ==> bounds[i].0 <= bounds[i].1
    requires dMax >= 0.0 && ds > 0.0
    ensures forall k :: 0 <= k < 3 * |bounds| ==> VariableLower(bounds, k) <= VariableUpper(bounds, k)
    ensures forall r :: 0 <= r < 3 * |bounds| ==>
      ConstraintLower(|bounds|, dMax, ds, r) <= ConstraintUpper(|bounds|, dMax, ds, r)
    ensures forall r :: |bounds| - 1 <= r < 3 * |bounds| ==>
      ConstraintLower(|bounds|, dMax, ds, r) == ConstraintUpper(|bounds|, dMax, ds, r) == 0.0
  {
    assert dMax * ds >= 0.0;
  }

  /** The primal starting point: the initial state at sample 0, zero everywhere else. */
  function StartingPoint(n: nat, init: LateralState): (x: seq<real>)
    ensures |x| == 3 * n
  {
    seq(3 * n, k =>
      if k == 0 then init.d
      else if k == n then init.dPrime
      else if k == 2 * n then init.dPPrime
      else 0.0)
  }

  // ---------------------------------------------------------------------------
  // Objective, gradient, Hessian
  // ---------------------------------------------------------------------------

  /** Centre of a corridor interval. */
  function Midpoint(b: Bound): real
  {
    (b.0 + b.1) * 0.5
  }

  /** The cost contributed by sample point i. */
  function PointCost(x: seq<real>, bounds: seq<Bound>, w: ObjectiveWeights, i: nat): real
    requires |x| == 3 * |bounds| && i < |bounds|
  {
    var n := |bounds|;
    var dist := x[i] - Midpoint(bounds[i]);
    x[i] * x[i] * w.d + x[n + i] * x[n + i] * w.dPrime
      + x[2 * n + i] * x[2 * n + i] * w.dPPrime + dist * dist * w.obs
  }

  /** The cost of the first m sample points. */
  function PartialObjective(x: seq<real>, bounds: seq<Bound>, w: ObjectiveWeights, m: nat): real
    requires |x| == 3 * |bounds| && m <= |bounds|
  {
    if m == 0 then 0.0
    else PartialObjective(x, bounds, w, m - 1) + PointCost(x, bounds, w, m - 1)
  }

  /** f(x) = sum over i of w_d d_i^2 + w_d' d'_i^2 + w_d'' d''_i^2 + w_obs (d_i - c_i)^2. */
  function Objective(x: seq<real>, bounds: seq<Bound>, w: ObjectiveWeights): real
    requires |x| == 3 * |bounds|
  {
    PartialObjective(x, bounds, w, |bounds|)
  }

  /** The closed-form partial derivative of f with respect to x[k]. */
  function Gradient(x: seq<real>, bounds: seq<Bound>, w: ObjectiveWeights, k: nat): real
    requires |x| == 3 * |bounds| && k < 3 * |bounds|
  {
    var n := |bounds|;
    if k < n then 2.0 * x[k] * w.d + 2.0 * (x[k] - Midpoint(bounds[k])) * w.obs
    else if k < 2 * n then 2.0 * x[k] * w.dPrime
    else 2.0 * x[k] * w.dPPrime
  }

  /** The closed-form second partial derivative of f with respect to x[k]. */
  function HessianDiagonal(n: nat, w: ObjectiveWeights, k: nat): real
    requires k < 3 * n
  {
    if k < n then 2.0 * w.d + 2.0 * w.obs
    else if k < 2 * n then 2.0 * w.dPrime
    else 2.0 * w.dPPrime
  }

  /** Changing x[k] by h changes only the cost of the point that k belongs to. */
  lemma PointCostUpdate(x: seq<real>, bounds: seq<Bound>, w: ObjectiveWeights, k: nat, h: real, i: nat)
    requires |x| == 3 * |bounds| && k < 3 * |bounds| && i < |bounds|
    ensures PointCost(x[k := x[k] + h], bounds, w, i)
         == PointCost(x, bounds, w, i)
            + if i == PointOf(|bounds|, k)
              then h * Gradient(x, bounds, w, k) + h * h * HessianDiagonal(|bounds|, w, k) / 2.0
              else 0.0
  {
    var n := |bounds|;
    var y := x[k := x[k] + h];
    var c := Midpoint(bounds[i]);
    if i == PointOf(n, k) {
      if k < n {
        assert y[i] == x[i] + h && y[n + i] == x[n + i] && y[2 * n + i] == x[2 * n + i];
        assert (x[i] + h) * (x[i] + h) * w.d == x[i] * x[i] * w.d + h * (2.0 * x[i] * w.d) + h * h * w.d;
        assert (x[i] + h - c) * (x[i] + h - c) * w.obs
            == (x[i] - c) * (x[i] - c) * w.obs + h * (2.0 * (x[i] - c) * w.obs) + h * h * w.obs;
      } else if k < 2 * n {
        assert y[i] == x[i] && y[n + i] == x[n + i] + h && y[2 * n + i] == x[2 * n + i];
        assert (x[k] + h) * (x[k] + h) * w.dPrime
            == x[k] * x[k] * w.dPrime + h * (2.0 * x[k] * w.dPrime) + h * h * w.dPrime;
      } else {
        assert y[i] == x[i] && y[n + i] == x[n + i] && y[2 * n + i] == x[2 * n + i] + h;
        assert (x[k] + h) * (x[k] + h) * w.dPPrime
            == x[k] * x[k] * w.dPPrime + h * (2.0 * x[k] * w.dPPrime) + h * h * w.dPPrime;
      }
    } else {
      assert y[i] == x[i] && y[n + i] == x[n + i] && y[2 * n + i] == x[2 * n + i];
    }
  }

  lemma {:induction false} PartialObjectiveUpdate(x: seq<real>, bounds: seq<Bound>, w: ObjectiveWeights,
                                                  k: nat, h: real, m: nat)
    requires |x| == 3 * |bounds| && k < 3 * |bounds| && m <= |bounds|
    ensures PartialObjective(x[k := x[k] + h], bounds, w, m)
         == PartialObjective(x, bounds, w, m)
            + if PointOf(|bounds|, k) < m
              then h * Gradient(x, bounds, w, k) + h * h * HessianDiagonal(|bounds|, w, k) / 2.0
              else 0.0
  {
    if m > 0 {
      PartialObjectiveUpdate(x, bounds, w, k, h, m - 1);
      PointCostUpdate(x, bounds, w, k, h, m - 1);
    }
  }

  /** The objective is quadratic in each variable: moving x[k] by h changes f by
      exactly h * Gradient(k) + h^2 * HessianDiagonal(k) / 2. So Gradient is the
      partial derivative of f and HessianDiagonal its second partial derivative. */
  lemma ObjectiveTaylor(x: seq<real>, bounds: seq<Bound>, w: ObjectiveWeights, k: nat, h: real)
    requires |x| == 3 * |bounds| && k < 3 * |bounds|
    ensures Objective(x[k := x[k] + h], bounds, w)
         == Objective(x, bounds, w) + h * Gradient(x, bounds, w, k)
            + h * h * HessianDiagonal(|bounds|, w, k) / 2.0
  {
    PartialObjectiveUpdate(x, bounds, w, k, h, |bounds|);
  }

  /** The Hessian of f is the derivative of Gradient: moving x[k] by h moves
      Gradient(l) by h * HessianDiagonal(l) when k == l and leaves it unchanged
      otherwise, so every off-diagonal second derivative is zero. */
  lemma GradientTaylor(x: seq<real>, bounds: seq<Bound>, w: ObjectiveWeights, k: nat, l: nat, h: real)
    requires |x| == 3 * |bounds| && k < 3 * |bounds| && l < 3 * |bounds|
    ensures Gradient(x[k := x[k] + h], bounds, w, l)
         == Gradient(x, bounds, w, l) + if k == l then h * HessianDiagonal(|bounds|, w, l) else 0.0
  {
    var n := |bounds|;
    if k == l {
      if l < n {
        var c := Midpoint(bounds[l]);
        assert 2.0 * (x[l] + h) * w.d + 2.0 * (x[l] + h - c) * w.obs
            == 2.0 * x[l] * w.d + 2.0 * (x[l] - c) * w.obs + h * (2.0 * w.d + 2.0 * w.obs);
      }
    }
  }

  /** A worked instance: two points, a zero corridor, unit weights. */
  lemma ObjectiveExample()
    ensures Objective([0.0, 0.0, 0.0, 0.0, 0.0, 0.0], [(0.0, 0.0), (0.0, 0.0)], UnitWeights) == 0.0
    ensures Objective([1.0, 0.0, 0.0, 0.0, 0.0, 0.0], [(0.0, 0.0), (0.0, 0.0)], UnitWeights) == 2.0
  {
  }

  // ---------------------------------------------------------------------------
  // Constraints
  // ---------------------------------------------------------------------------

  /** Curvature-rate row i: d''_{i+1} - d''_i. */
  function CurvatureRateResidual(x: seq<real>, n: nat, i: nat): real
    requires |x| == 3 * n && i + 1 < n
  {
    x[2 * n + i + 1] - x[2 * n + i]
  }

  /** Rate row i: the end velocity of the constant-jerk segment from sample i,
      minus d'_{i+1}. */
  function RateResidual(x: seq<real>, n: nat, ds: real, i: nat): real
    requires |x| == 3 * n && ds > 0.0 && i + 1 < n
  {
    var j := JerkBetween(x[2 * n + i], x[2 * n + i + 1], ds);
    EndVelocity(x[n + i], x[2 * n + i], j, ds) - x[n + i + 1]
  }

  /** Position row i: the end position of the constant-jerk segment from sample i,
      minus d_{i+1}. */
  function PositionResidual(x: seq<real>, n: nat, ds: real, i: nat): real
    requires |x| == 3 * n && ds > 0.0 && i + 1 < n
  {
    var j := JerkBetween(x[2 * n + i], x[2 * n + i + 1], ds);
    EndPosition(x[i], x[n + i], x[2 * n + i], j, ds) - x[i + 1]
  }

  /** Initial-state row t (t = 0, 1, 2): the variable of sample 0 in block t minus
      the matching component of the initial state. */
  function InitialResidual(x: seq<real>, n: nat, init: LateralState, t: nat): real
    requires |x| == 3 * n && n >= 1 && t < 3
  {
    if t == 0 then x[0] - init.d
    else if t == 1 then x[n] - init.dPrime
    else x[2 * n] - init.dPPrime
  }

  /** Residual r of the constraint vector at x, in the block order of the layout. */
  function ConstraintAt(x: seq<real>, n: nat, ds: real, init: LateralState, r: nat): real
    requires n >= 1 && |x| == 3 * n && ds > 0.0 && r < 3 * n
  {
    if r < n - 1 then CurvatureRateResidual(x, n, r)
    else if r < 2 * (n - 1) then RateResidual(x, n, ds, r - (n - 1))
    else if r < 3 * (n - 1) then PositionResidual(x, n, ds, r - 2 * (n - 1))
    else InitialResidual(x, n, init, r - 3 * (n - 1))
  }

  /** The whole constraint vector g(x). */
  function Constraints(x: seq<real>, n: nat, ds: real, init: LateralState): (g: seq<real>)
    requires n >= 1 && |x| == 3 * n && ds > 0.0
    ensures |g| == 3 * n
  {
    seq(3 * n, r requires 0 <= r < 3 * n => ConstraintAt(x, n, ds, init, r))
  }

  /** The coefficient of x[c] in constraint r, read off the affine closed forms of
      the constant-jerk end state. Zero where constraint r does not involve x[c]. */
  function Partial(n: nat, ds: real, r: nat, c: nat): real
    requires n >= 1 && r < 3 * n
  {
    if r < n - 1 then CurvatureRatePartial(n, r, c)
    else if r < 2 * (n - 1) then RatePartial(n, ds, r - (n - 1), c)
    else if r < 3 * (n - 1) then PositionPartial(n, ds, r - 2 * (n - 1), c)
    else InitialPartial(n, r - 3 * (n - 1), c)
  }

  function CurvatureRatePartial(n: nat, i: nat, c: nat): real
  {
    if c == 2 * n + i + 1 then 1.0 else if c == 2 * n + i then -1.0 else 0.0
  }

  function RatePartial(n: nat, ds: real, i: nat, c: nat): real
  {
    if c == n + i then 1.0
    else if c == n + i + 1 then -1.0
    else if c == 2 * n + i || c == 2 * n + i + 1 then 0.5 * ds
    else 0.0
  }

  function PositionPartial(n: nat, ds: real, i: nat, c: nat): real
  {
    if c == i then 1.0
    else if c == i + 1 then -1.0
    else if c == n + i then ds
    else if c == 2 * n + i then ds * ds / 3.0
    else if c == 2 * n + i + 1 then ds * ds / 6.0
    else 0.0
  }

  function InitialPartial(n: nat, t: nat, c: nat): real
  {
    if (t == 0 && c == 0) || (t == 1 && c == n) || (t == 2 && c == 2 * n) then 1.0 else 0.0
  }

  /** Every constraint is affine: moving x[c] by h moves residual r by exactly
      h * Partial(r, c), so Partial is its (constant) partial derivative. */
  lemma ConstraintIsAffine(x: seq<real>, n: nat, ds: real, init: LateralState, r: nat, c: nat, h: real)
    requires n >= 1 && |x| == 3 * n && ds > 0.0 && r < 3 * n && c < 3 * n
    ensures ConstraintAt(x[c := x[c] + h], n, ds, init, r)
         == ConstraintAt(x, n, ds, init, r) + h * Partial(n, ds, r, c)
  {
    if r < n - 1 {
      CurvatureRateRowIsAffine(x, n, ds, init, r, c, h);
    } else if r < 2 * (n - 1) {
      RateRowIsAffine(x, n, ds, init, r, c, h);
    } else if r < 3 * (n - 1) {
      PositionRowIsAffine(x, n, ds, init, r, c, h);
    } else {
      InitialRowIsAffine(x, n, ds, init, r, c, h);
    }
  }

  lemma CurvatureRateRowIsAffine(x: seq<real>, n: nat, ds: real, init: LateralState, r: nat, c: nat, h: real)
    requires n >= 1 && |x| == 3 * n && ds > 0.0 && r < n - 1 && c < 3 * n
    ensures ConstraintAt(x[c := x[c] + h], n, ds, init, r)
         == ConstraintAt(x, n, ds, init, r) + h * Partial(n, ds, r, c)
  {
  }

  lemma InitialRowIsAffine(x: seq<real>, n: nat, ds: real, init: LateralState, r: nat, c: nat, h: real)
    requires n >= 1 && |x| == 3 * n && ds > 0.0 && 3 * (n - 1) <= r < 3 * n && c < 3 * n
    ensures ConstraintAt(x[c := x[c] + h], n, ds, init, r)
         == ConstraintAt(x, n, ds, init, r) + h * Partial(n, ds, r, c)
  {
  }

  lemma RateRowIsAffine(x: seq<real>, n: nat, ds: real, init: LateralState, r: nat, c: nat, h: real)
    requires n >= 1 && |x| == 3 * n && ds > 0.0 && n - 1 <= r < 2 * (n - 1) && c < 3 * n
    ensures ConstraintAt(x[c := x[c] + h], n, ds, init, r)
         == ConstraintAt(x, n, ds, init, r) + h * Partial(n, ds, r, c)
  {
    var y, i := x[c := x[c] + h], r - (n - 1);
    RateRowClosedForm(x, n, ds, i);
    RateRowClosedForm(y, n, ds, i);
    if c == 2 * n + i || c == 2 * n + i + 1 {
      assert 0.5 * ds * (x[c] + h) == 0.5 * ds * x[c] + h * (0.5 * ds);
    }
  }

  lemma PositionRowIsAffine(x: seq<real>, n: nat, ds: real, init: LateralState, r: nat, c: nat, h: real)
    requires n >= 1 && |x| == 3 * n && ds > 0.0 && 2 * (n - 1) <= r < 3 * (n - 1) && c < 3 * n
    ensures ConstraintAt(x[c := x[c] + h], n, ds, init, r)
         == ConstraintAt(x, n, ds, init, r) + h * Partial(n, ds, r, c)
  {
    var y, i := x[c := x[c] + h], r - 2 * (n - 1);
    assert ConstraintAt(y, n, ds, init, r) == PositionResidual(y, n, ds, i);
    assert ConstraintAt(x, n, ds, init, r) == PositionResidual(x, n, ds, i);
    assert Partial(n, ds, r, c) == PositionPartial(n, ds, i, c);
    PositionRowClosedForm(x, n, ds, i);
    PositionRowClosedForm(y, n, ds, i);
    if c == i || c == i + 1 {
    } else if c == n + i {
      assert (x[c] + h) * ds == x[c] * ds + h * ds;
    } else if c == 2 * n + i {
      assert ds * ds / 3.0 * (x[c] + h) == ds * ds / 3.0 * x[c] + h * (ds * ds / 3.0);
    } else if c == 2 * n + i + 1 {
      assert ds * ds / 6.0 * (x[c] + h) == ds * ds / 6.0 * x[c] + h * (ds * ds / 6.0);
    } else {
      assert y[i] == x[i] && y[i + 1] == x[i + 1] && y[n + i] == x[n + i];
      assert y[2 * n + i] == x[2 * n + i] && y[2 * n + i + 1] == x[2 * n + i + 1];
    }
  }

  /** Rate row i in closed form: d'_i + ds (d''_i + d''_{i+1}) / 2 - d'_{i+1}. */
  lemma RateRowClosedForm(x: seq<real>, n: nat, ds: real, i: nat)
    requires |x| == 3 * n && ds > 0.0 && i + 1 < n
    ensures RateResidual(x, n, ds, i)
         == x[n + i] + 0.5 * ds * (x[2 * n + i] + x[2 * n + i + 1]) - x[n + i + 1]
  {
    EndStateFromEndAccelerations(x[i], x[n + i], x[2 * n + i], x[2 * n + i + 1], ds);
  }

  /** Position row i in closed form:
      d_i + ds d'_i + ds^2 d''_i / 3 + ds^2 d''_{i+1} / 6 - d_{i+1}. */
  lemma PositionRowClosedForm(x: seq<real>, n: nat, ds: real, i: nat)
    requires |x| == 3 * n && ds > 0.0 && i + 1 < n
    ensures PositionResidual(x, n, ds, i)
         == x[i] + x[n + i] * ds + ds * ds / 3.0 * x[2 * n + i] + ds * ds / 6.0 * x[2 * n + i + 1] - x[i + 1]
  {
    EndStateFromEndAccelerations(x[i], x[n + i], x[2 * n + i], x[2 * n + i + 1], ds);
  }

  /** With the segment taken from the constraint itself, a state sequence that
      integrates exactly satisfies every rate and position row. */
  lemma ContinuityOfExactIntegration(x: seq<real>, n: nat, ds: real, init: LateralState, i: nat)
    requires n >= 1 && |x| == 3 * n && ds > 0.0 && i + 1 < n
    requires x[n + i + 1] == x[n + i] + 0.5 * ds * (x[2 * n + i] + x[2 * n + i + 1])
    requires x[i + 1] == x[i] + x[n + i] * ds + ds * ds / 3.0 * x[2 * n + i] + ds * ds / 6.0 * x[2 * n + i + 1]
    ensures ConstraintAt(x, n, ds, init, RateBlockStart(n) + i) == 0.0
    ensures ConstraintAt(x, n, ds, init, PositionBlockStart(n) + i) == 0.0
  {
    RateRowClosedForm(x, n, ds, i);
    PositionRowClosedForm(x, n, ds, i);
  }
}
