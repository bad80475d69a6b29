/** The segments the optimizer appends to its piecewise trajectory once the
    solver has finished, as written and as the constraints intend them. */
module LateralSolution {
  import opened ConstantJerk
  import opened PiecewiseJerk
  import opened LateralProblem

  /** What finalisation appends: N - 1 segments of length ds, every one with
      the jerk (x[2N] - x[2N - 1]) / ds, because the index it reads never moves. */
  function FinalSegments(x: seq<real>, n: nat, ds: real): (segs: seq<Segment>)
    requires n >= 1 && |x| == 3 * n && ds > 0.0
    ensures |segs| == n - 1
    ensures forall i :: 0 <= i < |segs| ==> segs[i] == Segment((x[2 * n] - x[2 * n - 1]) / ds, ds)
  {
    seq(n - 1, _ => Segment((x[2 * n] - x[2 * n - 1]) / ds, ds))
  }

  /** The segments the constraints describe: segment i carries the jerk that
      takes d''_i to d''_{i+1} over ds. */
  function CorrectedFinalSegments(x: seq<real>, n: nat, ds: real): (segs: seq<Segment>)
    requires n >= 1 && |x| == 3 * n && ds > 0.0
    ensures |segs| == n - 1
  {
    seq(n - 1, i requires 0 <= i < n - 1 => Segment(JerkBetween(x[2 * n + i], x[2 * n + i + 1], ds), ds))
  }

  /** x meets every equality constraint: rate, position and initial state. */
  predicate EqualitiesHold(x: seq<real>, n: nat, ds: real, init: LateralState)
    requires n >= 1 && |x| == 3 * n && ds > 0.0
  {
    forall r :: n - 1 <= r < 3 * n ==> ConstraintAt(x, n, ds, init, r) == 0.0
  }

  /** The state of sample i read from the variable vector. */
  function SampleState(x: seq<real>, n: nat, i: nat): State
    requires |x| == 3 * n && i < n
  {
    State(x[i], x[n + i], x[2 * n + i])
  }

  /** When x meets the equality constraints, the corrected trajectory, started at
      the initial state, passes through the state of every sample point. */
  lemma {:induction false} CorrectedTrajectoryInterpolates(x: seq<real>, n: nat, ds: real, init: LateralState, i: nat)
    requires n >= 1 && |x| == 3 * n && ds > 0.0 && i < n
    requires EqualitiesHold(x, n, ds, init)
    ensures PiecewiseJerkTrajectory(State(init.d, init.dPrime, init.dPPrime), CorrectedFinalSegments(x, n, ds))
              .StateAfter(i) == SampleState(x, n, i)
  {
    var t := PiecewiseJerkTrajectory(State(init.d, init.dPrime, init.dPPrime), CorrectedFinalSegments(x, n, ds));
    if i == 0 {
      assert ConstraintAt(x, n, ds, init, 3 * (n - 1)) == 0.0;
      assert ConstraintAt(x, n, ds, init, 3 * (n - 1) + 1) == 0.0;
      assert ConstraintAt(x, n, ds, init, 3 * (n - 1) + 2) == 0.0;
    } else {
      var k := i - 1;
      CorrectedTrajectoryInterpolates(x, n, ds, init, k);
      assert ConstraintAt(x, n, ds, init, RateBlockStart(n) + k) == 0.0;
      assert ConstraintAt(x, n, ds, init, PositionBlockStart(n) + k) == 0.0;
      EndStateFromEndAccelerations(x[k], x[n + k], x[2 * n + k], x[2 * n + k + 1], ds);
      assert t.segments[k] == Segment(JerkBetween(x[2 * n + k], x[2 * n + k + 1], ds), ds);
    }
  }

  /** A feasible point on which the segments as written miss the second sample:
      two points, ds = 1, initial state 0, curvature-rates 0 and 1. */
  lemma FinalSegmentsMissInstance()
    ensures var x := [0.0, 1.0 / 6.0, 0.0, 0.5, 0.0, 1.0];
      var init := LateralState(0.0, 0.0, 0.0);
      EqualitiesHold(x, 2, 1.0, init) &&
      FinalSegments(x, 2, 1.0) == [Segment(-0.5, 1.0)] &&
      CorrectedFinalSegments(x, 2, 1.0) == [Segment(1.0, 1.0)] &&
      PiecewiseJerkTrajectory(State(0.0, 0.0, 0.0), FinalSegments(x, 2, 1.0)).StateAfter(1)
        != SampleState(x, 2, 1)
  {
    var x := [0.0, 1.0 / 6.0, 0.0, 0.5, 0.0, 1.0];
    var init := LateralState(0.0, 0.0, 0.0);
    forall r | 1 <= r < 6 ensures ConstraintAt(x, 2, 1.0, init, r) == 0.0 {
      if r == 1 { RateRowClosedForm(x, 2, 1.0, 0); }
      if r == 2 { PositionRowClosedForm(x, 2, 1.0, 0); }
    }
    assert FinalSegments(x, 2, 1.0)[0] == Segment(-0.5, 1.0);
    assert x[4] == 0.0 && x[5] == 1.0 && JerkBetween(0.0, 1.0, 1.0) == 1.0;
    assert CorrectedFinalSegments(x, 2, 1.0)[0] == Segment(1.0, 1.0);
  }
}
