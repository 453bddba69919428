/** The kinematics of a projectile under constant gravity, with y as the
    vertical axis: the position at an instant, evaluated in closed form, and
    the trajectory sampled at evenly spaced instants from 0 to a final time.
    Real numbers stand in for the floating-point values of the program. */
module Projectile {
  import opened Sampling

  /** A triple of coordinates (metres) or of velocity components (metres per second). */
  datatype Vec3 = Vec3(x: real, y: real, z: real)

  /** Earth's gravitational acceleration, in metres per second squared. */
  const G: real := 9.8

  /** The number of samples a trajectory has unless told otherwise. */
  const DefaultSamples: nat := 200

  /** The position at instant `t` of a particle that starts at (x0, y0, z0)
      with velocity (vx0, vy0, vz0): uniform motion along x and z, and a
      parabola along y under the acceleration -G.  Nothing is clamped, so a
      negative height or a negative `t` is an ordinary input and result. */
  function PositionAt(x0: real, y0: real, z0: real, vx0: real, vy0: real, vz0: real, t: real): (r: Vec3)
    ensures t == 0.0 ==> r == Vec3(x0, y0, z0)
    ensures r.y <= y0 + vy0 * t
  {
    Vec3(x0 + vx0 * t, y0 + vy0 * t - 0.5 * G * (t * t), z0 + vz0 * t)
  }

  /** The three coordinate sequences of a sampled path. */
  datatype Coordinates = Coordinates(xs: seq<real>, ys: seq<real>, zs: seq<real>)

  /** A sampled path: the coordinate sequences and the sample times they belong to. */
  datatype Path = Path(xs: seq<real>, ys: seq<real>, zs: seq<real>, ts: seq<real>)

  /** The position evaluated element-wise at each of the instants `ts`, as
      happens when the evaluator is given an array of times. */
  function PositionsAt(x0: real, y0: real, z0: real, vx0: real, vy0: real, vz0: real, ts: seq<real>): (c: Coordinates)
    ensures |c.xs| == |ts| && |c.ys| == |ts| && |c.zs| == |ts|
    ensures forall i :: 0 <= i < |ts| ==> Vec3(c.xs[i], c.ys[i], c.zs[i]) == PositionAt(x0, y0, z0, vx0, vy0, vz0, ts[i])
  {
    Coordinates(
      seq(|ts|, i requires 0 <= i < |ts| => PositionAt(x0, y0, z0, vx0, vy0, vz0, ts[i]).x),
      seq(|ts|, i requires 0 <= i < |ts| => PositionAt(x0, y0, z0, vx0, vy0, vz0, ts[i]).y),
      seq(|ts|, i requires 0 <= i < |ts| => PositionAt(x0, y0, z0, vx0, vy0, vz0, ts[i]).z))
  }

  /** The path sampled at `n` evenly spaced instants from 0 to `tFinal`, both
      ends included; every point is the closed-form position at its instant. */
  function Trajectory(x0: real, y0: real, z0: real, vx0: real, vy0: real, vz0: real, tFinal: real, n: nat): (p: Path)
    ensures |p.xs| == n && |p.ys| == n && |p.zs| == n && |p.ts| == n
    ensures n >= 1 ==> p.ts[0] == 0.0
    ensures n >= 2 ==> p.ts[n - 1] == tFinal
    ensures forall i :: 0 <= i < n - 1 ==> p.ts[i + 1] - p.ts[i] == tFinal / ((n - 1) as real)
    ensures forall i :: 0 <= i < n ==> Vec3(p.xs[i], p.ys[i], p.zs[i]) == PositionAt(x0, y0, z0, vx0, vy0, vz0, p.ts[i])
  {
    var ts := Linspace(0.0, tFinal, n);
    var c := PositionsAt(x0, y0, z0, vx0, vy0, vz0, ts);
    Path(c.xs, c.ys, c.zs, ts)
  }

  /** Sample i of a path of at least two samples is taken at i times the spacing. */
  lemma SampleTimes(x0: real, y0: real, z0: real, vx0: real, vy0: real, vz0: real, tFinal: real, n: nat, i: nat)
    requires 2 <= n && i < n
    ensures Trajectory(x0, y0, z0, vx0, vy0, vz0, tFinal, n).ts[i] == (i as real) * (tFinal / ((n - 1) as real))
  {
    SampleInstant(tFinal, n, i);
  }

  /** The path with the default number of samples. */
  function DefaultTrajectory(x0: real, y0: real, z0: real, vx0: real, vy0: real, vz0: real, tFinal: real): (p: Path)
    ensures |p.xs| == DefaultSamples && |p.ys| == DefaultSamples && |p.zs| == DefaultSamples && |p.ts| == DefaultSamples
    ensures p.ts[0] == 0.0 && p.ts[DefaultSamples - 1] == tFinal
  {
    Trajectory(x0, y0, z0, vx0, vy0, vz0, tFinal, DefaultSamples)
  }

  /** The example of use: from (1, 2, 3) at (4, 5, 6) m/s, after 7 s the
      particle is at (29, -203.1, 45). */
  lemma WorkedExample()
    ensures PositionAt(1.0, 2.0, 3.0, 4.0, 5.0, 6.0, 7.0) == Vec3(29.0, -203.1, 45.0)
  {
  }

  /** A height below the launch level is an ordinary result: thrown down at
      5 m/s from the origin, after 2 s the particle is 29.6 m below it. */
  lemma NegativeHeightExample()
    ensures PositionAt(0.0, 0.0, 0.0, 0.0, -5.0, 0.0, 2.0) == Vec3(0.0, -29.6, 0.0)
  {
  }

  /** The sampled path starts at the initial position and ends at the
      position evaluated at `tFinal`, the one the program reports. */
  lemma TrajectoryEnds(x0: real, y0: real, z0: real, vx0: real, vy0: real, vz0: real, tFinal: real, n: nat)
    requires n >= 2
    ensures var p := Trajectory(x0, y0, z0, vx0, vy0, vz0, tFinal, n);
      && Vec3(p.xs[0], p.ys[0], p.zs[0]) == Vec3(x0, y0, z0)
      && Vec3(p.xs[n - 1], p.ys[n - 1], p.zs[n - 1]) == PositionAt(x0, y0, z0, vx0, vy0, vz0, tFinal)
  {
  }

  /** With `tFinal == 0` every sample is taken at instant 0, so every point is the initial position. */
  lemma StationaryTrajectory(x0: real, y0: real, z0: real, vx0: real, vy0: real, vz0: real, n: nat)
    ensures var p := Trajectory(x0, y0, z0, vx0, vy0, vz0, 0.0, n);
      forall i :: 0 <= i < n ==> Vec3(p.xs[i], p.ys[i], p.zs[i]) == Vec3(x0, y0, z0)
  {
    var p := Trajectory(x0, y0, z0, vx0, vy0, vz0, 0.0, n);
    forall i | 0 <= i < n
      ensures p.ts[i] == 0.0
    {
      assert p.ts == Linspace(0.0, 0.0, n);
      assert p.ts[i] == Sample(0.0, 0.0, n, i);
    }
  }

  /** Along x and z the particle covers the same distance between any two
      consecutive samples: vx0 and vz0 times the sample spacing. */
  lemma TrajectoryUniformHorizontal(x0: real, y0: real, z0: real, vx0: real, vy0: real, vz0: real, tFinal: real, n: nat)
    requires n >= 2
    ensures var p := Trajectory(x0, y0, z0, vx0, vy0, vz0, tFinal, n);
      var h := tFinal / ((n - 1) as real);
      forall i :: 0 <= i < n - 1 ==> p.xs[i + 1] - p.xs[i] == vx0 * h && p.zs[i + 1] - p.zs[i] == vz0 * h
  {
    forall i | 0 <= i < n - 1 {
      HorizontalStepAt(x0, y0, z0, vx0, vy0, vz0, tFinal, n, i);
    }
  }

  /** The step from sample `i` to sample `i + 1` along x and z. */
  lemma HorizontalStepAt(x0: real, y0: real, z0: real, vx0: real, vy0: real, vz0: real, tFinal: real, n: nat, i: nat)
    requires i + 1 < n
    ensures var p := Trajectory(x0, y0, z0, vx0, vy0, vz0, tFinal, n);
      var h := tFinal / ((n - 1) as real);
      p.xs[i + 1] - p.xs[i] == vx0 * h && p.zs[i + 1] - p.zs[i] == vz0 * h
  {
    var p := Trajectory(x0, y0, z0, vx0, vy0, vz0, tFinal, n);
    ConsecutivePoints(x0, y0, z0, vx0, vy0, vz0, tFinal, n, i);
    HorizontalGap(x0, y0, z0, vx0, vy0, vz0, p.ts[i], tFinal / ((n - 1) as real));
  }

  /** Two consecutive points of the path are the positions one sample spacing apart. */
  lemma ConsecutivePoints(x0: real, y0: real, z0: real, vx0: real, vy0: real, vz0: real, tFinal: real, n: nat, i: nat)
    requires i + 1 < n
    ensures var p := Trajectory(x0, y0, z0, vx0, vy0, vz0, tFinal, n);
      var t, h := p.ts[i], tFinal / ((n - 1) as real);
      && Vec3(p.xs[i], p.ys[i], p.zs[i]) == PositionAt(x0, y0, z0, vx0, vy0, vz0, t)
      && Vec3(p.xs[i + 1], p.ys[i + 1], p.zs[i + 1]) == PositionAt(x0, y0, z0, vx0, vy0, vz0, t + h)
  {
    var p := Trajectory(x0, y0, z0, vx0, vy0, vz0, tFinal, n);
    assert p.ts[i + 1] == p.ts[i] + tFinal / ((n - 1) as real);
  }

  /** Along x and z the distance covered in a time `h` does not depend on when it starts. */
  lemma HorizontalGap(x0: real, y0: real, z0: real, vx0: real, vy0: real, vz0: real, t: real, h: real)
    ensures PositionAt(x0, y0, z0, vx0, vy0, vz0, t + h).x - PositionAt(x0, y0, z0, vx0, vy0, vz0, t).x == vx0 * h
    ensures PositionAt(x0, y0, z0, vx0, vy0, vz0, t + h).z - PositionAt(x0, y0, z0, vx0, vy0, vz0, t).z == vz0 * h
  {
  }
}
