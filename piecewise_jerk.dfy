/** The piecewise constant-jerk trajectory that the optimizer fills in: an initial
    state and an append-only sequence of (jerk, length) segments. */
module PiecewiseJerk {
  import opened ConstantJerk

  /** Position, velocity and acceleration of a one-dimensional motion. */
  datatype State = State(p: real, v: real, a: real)

  /** One piece of the trajectory: a constant jerk applied over a length. */
  datatype Segment = Segment(jerk: real, length: real)

  datatype PiecewiseJerkTrajectory = PiecewiseJerkTrajectory(start: State, segments: seq<Segment>)
  {
    /** Appending adds one segment at the end and keeps everything else. */
    function AppendSegment(jerk: real, length: real): (t: PiecewiseJerkTrajectory)
      ensures t.start == start
      ensures |t.segments| == |segments| + 1
      ensures t.segments[..|segments|] == segments
      ensures t.segments[|segments|] == Segment(jerk, length)
    {
      PiecewiseJerkTrajectory(start, segments + [Segment(jerk, length)])
    }

    /** The state reached after the first k segments. */
    function StateAfter(k: nat): State
      requires k <= |segments|
    {
      if k == 0 then start
      else Step(StateAfter(k - 1), segments[k - 1])
    }
  }

  /** The state at the end of one segment that starts in s. */
  function Step(s: State, seg: Segment): State
  {
    State(EndPosition(s.p, s.v, s.a, seg.jerk, seg.length),
          EndVelocity(s.v, s.a, seg.jerk, seg.length),
          EndAcceleration(s.a, seg.jerk, seg.length))
  }

  /** Appending a sequence of segments one at a time. */
  function AppendAll(t: PiecewiseJerkTrajectory, segs: seq<Segment>): (r: PiecewiseJerkTrajectory)
    ensures r.start == t.start && r.segments == t.segments + segs
    decreases |segs|
  {
    if segs == [] then t
    else AppendAll(t, segs[..|segs| - 1]).AppendSegment(segs[|segs| - 1].jerk, segs[|segs| - 1].length)
  }

  /** Appending does not change the states reached by the segments already there. */
  lemma {:induction false} StateAfterAppend(t: PiecewiseJerkTrajectory, segs: seq<Segment>, k: nat)
    requires k <= |t.segments|
    ensures k <= |AppendAll(t, segs).segments|
    ensures AppendAll(t, segs).StateAfter(k) == t.StateAfter(k)
  {
    var u := AppendAll(t, segs);
    if k > 0 {
      StateAfterAppend(t, segs, k - 1);
      assert u.segments[k - 1] == t.segments[k - 1];
    }
  }
}
