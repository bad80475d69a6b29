/** Closed-form end state of a constant-jerk motion segment (the one-dimensional
    cubic polynomial p(s) = p0 + v0 s + a0 s^2 / 2 + j s^3 / 6). */
module ConstantJerk {

  /** Acceleration (second derivative) at the end of a segment of length ds. */
  function EndAcceleration(a0: real, j: real, ds: real): real
  {
    a0 + j * ds
  }

  /** Velocity (first derivative) at the end of a segment of length ds. */
  function EndVelocity(v0: real, a0: real, j: real, ds: real): real
  {
    v0 + a0 * ds + 0.5 * j * ds * ds
  }

  /** Position at the end of a segment of length ds. */
  function EndPosition(p0: real, v0: real, a0: real, j: real, ds: real): real
  {
    p0 + v0 * ds + 0.5 * a0 * ds * ds + j * ds * ds * ds / 6.0
  }

  /** The jerk that takes acceleration a0 to a1 over a length ds. */
  function JerkBetween(a0: real, a1: real, ds: real): real
    requires ds != 0.0
  {
    (a1 - a0) / ds
  }

  /** With the jerk chosen from the two end accelerations, the segment ends at
      acceleration a1, and its end velocity and end position are the affine forms
      v0 + ds (a0 + a1) / 2 and p0 + v0 ds + ds^2 a0 / 3 + ds^2 a1 / 6. */
  lemma EndStateFromEndAccelerations(p0: real, v0: real, a0: real, a1: real, ds: real)
    requires ds != 0.0
    ensures EndAcceleration(a0, JerkBetween(a0, a1, ds), ds) == a1
    ensures EndVelocity(v0, a0, JerkBetween(a0, a1, ds), ds) == v0 + 0.5 * ds * (a0 + a1)
    ensures EndPosition(p0, v0, a0, JerkBetween(a0, a1, ds), ds)
         == p0 + v0 * ds + ds * ds / 3.0 * a0 + ds * ds / 6.0 * a1
  {
    var j := JerkBetween(a0, a1, ds);
    assert j * ds == a1 - a0;
    assert 0.5 * j * ds * ds == 0.5 * (a1 - a0) * ds;
    assert j * ds * ds * ds / 6.0 == (a1 - a0) * ds * ds / 6.0;
  }
}
