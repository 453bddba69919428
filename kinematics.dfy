/** The physics the closed-form evaluator stands for, stated independently of
    it: the vector law of motion under a constant acceleration, the
    acceleration (0, -G, 0), and the motion obtained by advancing position and
    velocity one time step after another.  The lemmas show that the evaluator
    and the sampled trajectory agree with each of these. */
module Kinematics {
  import opened Projectile

  function Add(a: Vec3, b: Vec3): Vec3
  {
    Vec3(a.x + b.x, a.y + b.y, a.z + b.z)
  }

  function Scale(k: real, a: Vec3): Vec3
  {
    Vec3(k * a.x, k * a.y, k * a.z)
  }

  /** The only force is the weight, so the acceleration is -G along the vertical y axis. */
  const Gravity: Vec3 := Vec3(0.0, -G, 0.0)

  /** r(t) = r0 + v0 t + 1/2 a t^2 for a constant acceleration a. */
  function ConstantAccelerationLaw(r0: Vec3, v0: Vec3, a: Vec3, t: real): Vec3
  {
    Add(Add(r0, Scale(t, v0)), Scale(0.5 * (t * t), a))
  }

  /** The evaluator is the vector law with the acceleration of gravity. */
  lemma PositionIsVectorLaw(x0: real, y0: real, z0: real, vx0: real, vy0: real, vz0: real, t: real)
    ensures PositionAt(x0, y0, z0, vx0, vy0, vz0, t)
         == ConstantAccelerationLaw(Vec3(x0, y0, z0), Vec3(vx0, vy0, vz0), Gravity, t)
  {
    var law := ConstantAccelerationLaw(Vec3(x0, y0, z0), Vec3(vx0, vy0, vz0), Gravity, t);
    var r := PositionAt(x0, y0, z0, vx0, vy0, vz0, t);
    VectorLawX(x0, y0, z0, vx0, vy0, vz0, t);
    VectorLawY(x0, y0, z0, vx0, vy0, vz0, t);
    VectorLawZ(x0, y0, z0, vx0, vy0, vz0, t);
    assert law == Vec3(law.x, law.y, law.z) && r == Vec3(r.x, r.y, r.z);
  }

  lemma VectorLawX(x0: real, y0: real, z0: real, vx0: real, vy0: real, vz0: real, t: real)
    ensures PositionAt(x0, y0, z0, vx0, vy0, vz0, t).x
         == ConstantAccelerationLaw(Vec3(x0, y0, z0), Vec3(vx0, vy0, vz0), Gravity, t).x
  {
    UniformLaw(x0, vx0, t);
  }

  lemma VectorLawY(x0: real, y0: real, z0: real, vx0: real, vy0: real, vz0: real, t: real)
    ensures PositionAt(x0, y0, z0, vx0, vy0, vz0, t).y
         == ConstantAccelerationLaw(Vec3(x0, y0, z0), Vec3(vx0, vy0, vz0), Gravity, t).y
  {
    FallLaw(y0, vy0, t);
  }

  lemma VectorLawZ(x0: real, y0: real, z0: real, vx0: real, vy0: real, vz0: real, t: real)
    ensures PositionAt(x0, y0, z0, vx0, vy0, vz0, t).z
         == ConstantAccelerationLaw(Vec3(x0, y0, z0), Vec3(vx0, vy0, vz0), Gravity, t).z
  {
    UniformLaw(z0, vz0, t);
  }

  /** Along a horizontal axis the vector law reduces to uniform motion. */
  lemma UniformLaw(c0: real, v: real, t: real)
    ensures (c0 + t * v) + 0.5 * (t * t) * 0.0 == c0 + v * t
  {
  }

  /** Along the vertical axis the vector law is the height formula. */
  lemma FallLaw(y0: real, vy0: real, t: real)
    ensures (y0 + t * vy0) + 0.5 * (t * t) * -G == y0 + vy0 * t - 0.5 * G * (t * t)
  {
  }

  /** However high the launch and however fast upwards, the height eventually
      drops below any given level: no ground stops the particle. */
  lemma HeightFallsBelow(x0: real, y0: real, z0: real, vx0: real, vy0: real, vz0: real, level: real)
    ensures exists t :: t >= 0.0 && PositionAt(x0, y0, z0, vx0, vy0, vz0, t).y < level
  {
    var speed := if vy0 < 0.0 then -vy0 else vy0;
    var gap := if y0 < level then 0.0 else y0 - level;
    var t := 1.0 + speed + gap;
    assert t >= 1.0;
    assert vy0 * t <= speed * t <= t * t;
    assert gap <= t <= t * t;
    assert y0 - level <= gap;
    assert 0.5 * G * (t * t) == 4.9 * (t * t);
    assert t * t >= 1.0;
    assert y0 + vy0 * t - 4.9 * (t * t) <= level - 2.9 * (t * t);
    assert PositionAt(x0, y0, z0, vx0, vy0, vz0, t).y < level;
  }

  /** The height as a polynomial c0 + c1 t + c2 t^2. */
  datatype Quadratic = Quadratic(c0: real, c1: real, c2: real)

  function Eval(q: Quadratic, t: real): real
  {
    q.c0 + q.c1 * t + q.c2 * (t * t)
  }

  /** The height is the one quadratic whose value at 0 is y0, whose slope at
      0 is vy0 and whose curvature is -G: that quadratic gives the height at
      every instant, and no other quadratic does. */
  lemma HeightIsUniqueQuadratic(x0: real, y0: real, z0: real, vx0: real, vy0: real, vz0: real, q: Quadratic)
    ensures (forall t :: Eval(q, t) == PositionAt(x0, y0, z0, vx0, vy0, vz0, t).y) <==> q == Quadratic(y0, vy0, -0.5 * G)
  {
    if forall t :: Eval(q, t) == PositionAt(x0, y0, z0, vx0, vy0, vz0, t).y {
      QuadraticMatchingHeight(x0, y0, z0, vx0, vy0, vz0, q);
    }
    if q == Quadratic(y0, vy0, -0.5 * G) {
      HeightIsQuadratic(x0, y0, z0, vx0, vy0, vz0);
    }
  }

  /** Existence: the height is that quadratic evaluated at the instant. */
  lemma HeightIsQuadratic(x0: real, y0: real, z0: real, vx0: real, vy0: real, vz0: real)
    ensures forall t :: Eval(Quadratic(y0, vy0, -0.5 * G), t) == PositionAt(x0, y0, z0, vx0, vy0, vz0, t).y
  {
  }

  /** Uniqueness: the values at -1, 0 and 1 already fix the three coefficients. */
  lemma QuadraticMatchingHeight(x0: real, y0: real, z0: real, vx0: real, vy0: real, vz0: real, q: Quadratic)
    requires forall t :: Eval(q, t) == PositionAt(x0, y0, z0, vx0, vy0, vz0, t).y
    ensures q == Quadratic(y0, vy0, -0.5 * G)
  {
    assert Eval(q, 0.0) == PositionAt(x0, y0, z0, vx0, vy0, vz0, 0.0).y;
    assert Eval(q, 1.0) == PositionAt(x0, y0, z0, vx0, vy0, vz0, 1.0).y;
    assert Eval(q, -1.0) == PositionAt(x0, y0, z0, vx0, vy0, vz0, -1.0).y;
  }

  /** The second difference of the position over a step h -- the discrete
      acceleration -- is exactly gravity times h^2, at every instant: nothing
      accelerates the particle along x or z, and along y it is -G. */
  lemma AccelerationIsGravity(x0: real, y0: real, z0: real, vx0: real, vy0: real, vz0: real, t: real, h: real)
    ensures var before, now, after :=
        PositionAt(x0, y0, z0, vx0, vy0, vz0, t - h),
        PositionAt(x0, y0, z0, vx0, vy0, vz0, t),
        PositionAt(x0, y0, z0, vx0, vy0, vz0, t + h);
      Add(Add(after, Scale(-2.0, now)), before) == Scale(h * h, Gravity)
  {
    assert (t + h) * (t + h) - 2.0 * (t * t) + (t - h) * (t - h) == 2.0 * (h * h);
  }

  /** Position and velocity of the particle at one instant. */
  datatype Motion = Motion(pos: Vec3, vel: Vec3)

  /** One time step of length h under gravity, exact for a constant acceleration. */
  function Advance(m: Motion, h: real): Motion
  {
    Motion(Add(Add(m.pos, Scale(h, m.vel)), Scale(0.5 * (h * h), Gravity)), Add(m.vel, Scale(h, Gravity)))
  }

  /** The motion after k steps of length h. */
  function Evolve(m: Motion, h: real, k: nat): Motion
  {
    if k == 0 then m else Advance(Evolve(m, h, k - 1), h)
  }

  /** Stepping from the initial state arrives, after k steps of length h, at
      the closed-form position at instant k h, with the vertical velocity
      reduced by G k h: the closed form accumulates no drift. */
  lemma {:induction false} EvolveIsClosedForm(x0: real, y0: real, z0: real, vx0: real, vy0: real, vz0: real, h: real, k: nat, t: real)
    requires t == (k as real) * h
    ensures Evolve(Motion(Vec3(x0, y0, z0), Vec3(vx0, vy0, vz0)), h, k)
         == Motion(PositionAt(x0, y0, z0, vx0, vy0, vz0, t), Vec3(vx0, vy0 - G * t, vz0))
  {
    if k > 0 {
      var m0 := Motion(Vec3(x0, y0, z0), Vec3(vx0, vy0, vz0));
      NextInstant(k, h);
      EvolveIsClosedForm(x0, y0, z0, vx0, vy0, vz0, h, k - 1, t - h);
      StepUnderGravity(x0, y0, z0, vx0, vy0, vz0, t - h, h);
      assert (t - h) + h == t;
      assert Evolve(m0, h, k) == Advance(Evolve(m0, h, k - 1), h);
    }
  }

  /** The instant of step k is one step after the instant of step k - 1. */
  lemma NextInstant(k: nat, h: real)
    requires k > 0
    ensures ((k - 1) as real) * h + h == (k as real) * h
  {
  }

  /** Advancing the closed-form state at instant s by a step h gives the
      closed-form state at instant s + h. */
  lemma StepUnderGravity(x0: real, y0: real, z0: real, vx0: real, vy0: real, vz0: real, s: real, h: real)
    ensures Advance(Motion(PositionAt(x0, y0, z0, vx0, vy0, vz0, s), Vec3(vx0, vy0 - G * s, vz0)), h)
         == Motion(PositionAt(x0, y0, z0, vx0, vy0, vz0, s + h), Vec3(vx0, vy0 - G * (s + h), vz0))
  {
    StepPosition(x0, y0, z0, vx0, vy0, vz0, s, h);
    FallStep(y0, vy0, s, h);
  }

  lemma StepPosition(x0: real, y0: real, z0: real, vx0: real, vy0: real, vz0: real, s: real, h: real)
    ensures Advance(Motion(PositionAt(x0, y0, z0, vx0, vy0, vz0, s), Vec3(vx0, vy0 - G * s, vz0)), h).pos
         == PositionAt(x0, y0, z0, vx0, vy0, vz0, s + h)
  {
    var m := Motion(PositionAt(x0, y0, z0, vx0, vy0, vz0, s), Vec3(vx0, vy0 - G * s, vz0));
    StepAlong(x0, y0, z0, vx0, vy0, vz0, s, h);
    var a, b := Advance(m, h).pos, PositionAt(x0, y0, z0, vx0, vy0, vz0, s + h);
    assert a == Vec3(a.x, a.y, a.z) && b == Vec3(b.x, b.y, b.z);
  }

  lemma StepAlong(x0: real, y0: real, z0: real, vx0: real, vy0: real, vz0: real, s: real, h: real)
    ensures var m := Motion(PositionAt(x0, y0, z0, vx0, vy0, vz0, s), Vec3(vx0, vy0 - G * s, vz0));
      && Advance(m, h).pos.x == PositionAt(x0, y0, z0, vx0, vy0, vz0, s + h).x
      && Advance(m, h).pos.y == PositionAt(x0, y0, z0, vx0, vy0, vz0, s + h).y
      && Advance(m, h).pos.z == PositionAt(x0, y0, z0, vx0, vy0, vz0, s + h).z
  {
    StepX(x0, y0, z0, vx0, vy0, vz0, s, h);
    StepY(x0, y0, z0, vx0, vy0, vz0, s, h);
    StepZ(x0, y0, z0, vx0, vy0, vz0, s, h);
  }

  lemma StepX(x0: real, y0: real, z0: real, vx0: real, vy0: real, vz0: real, s: real, h: real)
    ensures Advance(Motion(PositionAt(x0, y0, z0, vx0, vy0, vz0, s), Vec3(vx0, vy0 - G * s, vz0)), h).pos.x
         == PositionAt(x0, y0, z0, vx0, vy0, vz0, s + h).x
  {
    UniformStep(x0, vx0, s, h);
  }

  lemma StepY(x0: real, y0: real, z0: real, vx0: real, vy0: real, vz0: real, s: real, h: real)
    ensures Advance(Motion(PositionAt(x0, y0, z0, vx0, vy0, vz0, s), Vec3(vx0, vy0 - G * s, vz0)), h).pos.y
         == PositionAt(x0, y0, z0, vx0, vy0, vz0, s + h).y
  {
    FallStep(y0, vy0, s, h);
  }

  lemma StepZ(x0: real, y0: real, z0: real, vx0: real, vy0: real, vz0: real, s: real, h: real)
    ensures Advance(Motion(PositionAt(x0, y0, z0, vx0, vy0, vz0, s), Vec3(vx0, vy0 - G * s, vz0)), h).pos.z
         == PositionAt(x0, y0, z0, vx0, vy0, vz0, s + h).z
  {
    UniformStep(z0, vz0, s, h);
  }

  /** One step of uniform motion along a horizontal axis. */
  lemma UniformStep(c0: real, v: real, s: real, h: real)
    ensures (c0 + v * s + h * v) + 0.5 * (h * h) * 0.0 == c0 + v * (s + h)
  {
  }

  /** One step of the vertical motion: position and velocity under gravity. */
  lemma FallStep(y0: real, vy0: real, s: real, h: real)
    ensures (y0 + vy0 * s - 0.5 * G * (s * s)) + h * (vy0 - G * s) + 0.5 * (h * h) * -G
         == y0 + vy0 * (s + h) - 0.5 * G * ((s + h) * (s + h))
    ensures (vy0 - G * s) + h * -G == vy0 - G * (s + h)
  {
    assert (s + h) * (s + h) == s * s + 2.0 * (s * h) + h * h;
  }

  /** Every point of the sampled trajectory is where stepping from the initial
      state, one sample spacing at a time, puts the particle. */
  lemma TrajectoryFollowsSteps(x0: real, y0: real, z0: real, vx0: real, vy0: real, vz0: real, tFinal: real, n: nat, i: nat)
    requires 2 <= n && i < n
    ensures var p := Trajectory(x0, y0, z0, vx0, vy0, vz0, tFinal, n);
      Vec3(p.xs[i], p.ys[i], p.zs[i])
        == Evolve(Motion(Vec3(x0, y0, z0), Vec3(vx0, vy0, vz0)), tFinal / ((n - 1) as real), i).pos
  {
    SampleTimes(x0, y0, z0, vx0, vy0, vz0, tFinal, n, i);
    EvolveIsClosedForm(x0, y0, z0, vx0, vy0, vz0, tFinal / ((n - 1) as real), i,
                       Trajectory(x0, y0, z0, vx0, vy0, vz0, tFinal, n).ts[i]);
  }
}
