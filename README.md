# Projectile motion in 3D (TiroParabolico)

This project models the computational core of `TiroParabolico.py`, a teaching program that computes the trajectory of a projectile under constant gravity. The vertical axis is y and g = 9.8 m/s². The core has two parts:

- **`posicion_t`** (position evaluator). Given the initial position (x0, y0, z0), the initial velocity (vx0, vy0, vz0) and an instant t, it returns r(t) = r0 + v0·t + ½·a·t² with a = (0, −g, 0). So x and z move uniformly and y follows a downward parabola. Nothing is clamped: negative heights and negative instants are ordinary values.
- **`trayectoria`** (trajectory sampler). It takes `n` evenly spaced instants from 0 to `t_final`, both ends included, using numpy's `linspace` (default `n = 200`). It evaluates the position element-wise at those instants and returns `(xs, ys, zs, ts)`.

Every function is pure, and `real` stands in for Python floats. The project has three modules:

- `sampling.dfy` (`Sampling`) models `np.linspace(start, stop, num)` with its default `endpoint=True`. It covers every `num >= 0`: `num = 1` gives `[start]` and `num = 0` gives `[]`, as numpy does.
- `projectile.dfy` (`Projectile`) holds the constant `G`, the evaluator `PositionAt`, its element-wise form `PositionsAt`, the sampler `Trajectory`, and lemmas about the sampled path.
- `kinematics.dfy` (`Kinematics`) gives physical reference definitions that do not depend on the evaluator:
  - the vector law r0 + v0·t + ½·a·t²;
  - the acceleration (0, −G, 0);
  - the height as a quadratic polynomial;
  - an exact time-stepping of position and velocity under gravity.

  Its lemmas prove that the evaluator and the sampled trajectory agree with each of these.

`main` does not reject a negative final time: `TiroParabolico.py:110` only parses it. So `Trajectory` accepts any `tFinal`; with a negative one the samples simply decrease from 0.

## Model

| member | source | states |
|---|---|---|
| `Projectile.PositionAt` | TiroParabolico.py:54-65 | At t = 0 the position is exactly (x0, y0, z0). The height never exceeds the straight-line value y0 + vy0·t, because gravity only lowers the particle. |
| `Kinematics.PositionIsVectorLaw` | TiroParabolico.py:58 | The evaluator equals the vector law r0 + v0·t + ½·a·t² with a = (0, −G, 0), for every input. |
| `Kinematics.AccelerationIsGravity` | TiroParabolico.py:18-20 | For every instant t and every step h, the second difference r(t+h) − 2·r(t) + r(t−h) is exactly h²·(0, −G, 0). So there is no acceleration along x or z, and −G along y. |
| `Kinematics.HeightIsUniqueQuadratic` | TiroParabolico.py:62 | Both directions: a quadratic gives the height at every instant if and only if it is the one with value y0 at 0, slope vy0 and coefficient −G/2. |
| `Kinematics.HeightFallsBelow` | TiroParabolico.py:62 | For any launch and any level, some instant t ≥ 0 has the height below that level. Heights are never clamped. |
| `Projectile.HorizontalGap` | TiroParabolico.py:61 | x and z are affine in t. In any interval of length h they change by vx0·h and vz0·h, whenever the interval starts. |
| `Projectile.WorkedExample` | TiroParabolico.py:44-52 | `posicion_t(1, 2, 3, 4, 5, 6, 7)` is (29, −203.1, 45), exactly. |
| `Projectile.NegativeHeightExample` | TiroParabolico.py:62 | A launch from the origin at (0, −5, 0) m/s reaches height −29.6 at t = 2. The negative result is returned as is. |
| `Sampling.Linspace` | TiroParabolico.py:75 | There are `n` samples. The first is `start` (n ≥ 1). The last is `stop` (n ≥ 2). Consecutive samples differ by exactly (stop − start)/(n − 1). |
| `Sampling.LinspaceOrdered` | TiroParabolico.py:75 | When start ≤ stop, the samples are non-decreasing and all lie in [start, stop]. |
| `Projectile.PositionsAt` | TiroParabolico.py:76 | Evaluating at an array of instants gives three arrays as long as the input. Entry i of each is the scalar evaluation at instant i. |
| `Projectile.Trajectory` | TiroParabolico.py:67-78 | All four sequences have length n. ts runs from 0 to tFinal with uniform spacing tFinal/(n − 1). For every i, (xs[i], ys[i], zs[i]) is the evaluator at ts[i]. |
| `Projectile.DefaultTrajectory` | TiroParabolico.py:67 | With the default count, all sequences have length 200, ts[0] = 0 and ts[199] = tFinal. |
| `Projectile.TrajectoryEnds` | TiroParabolico.py:75-76 | The path starts at the initial position. It ends at the position the evaluator gives for tFinal, which is the point the program reports. |
| `Projectile.StationaryTrajectory` | TiroParabolico.py:75-76 | With tFinal = 0, every sampled point equals (x0, y0, z0), for any n. |
| `Projectile.TrajectoryUniformHorizontal` | TiroParabolico.py:19-20 | Between any two consecutive samples, x changes by vx0·tFinal/(n − 1) and z by vz0·tFinal/(n − 1). This is uniform motion. |
| `Projectile.HorizontalStepAt` | TiroParabolico.py:76 | The same uniform step, for one pair of consecutive samples. |
| `Kinematics.StepUnderGravity` | TiroParabolico.py:18-20 | Take the closed-form position and velocity at instant s and advance them one exact constant-acceleration step h. The result is the closed-form state at s + h. |
| `Kinematics.EvolveIsClosedForm` | TiroParabolico.py:15 | Start from the initial state and take k steps of length h under gravity. This reaches exactly the closed-form position at k·h, with vertical velocity vy0 − G·k·h. The closed form accumulates no drift. |
| `Kinematics.TrajectoryFollowsSteps` | TiroParabolico.py:75-76 | Every sampled point i is where i steps under gravity, each one sample spacing long, put the particle. |

## Left out

- `grafica_trayectoria` (`TiroParabolico.py:80-101`) is not modelled. It is 3D plotting through matplotlib, plus the fallback from an interactive display to saving `trayectoria.png`. That is display and file I/O through a library outside this model.
- `main` (`TiroParabolico.py:103-140`) is not modelled. It reads the seven values from the console with `float(input(...))` and prints the results. Parsing failures, prompts and printed text are I/O. The point `main` evaluates at `tiempoT` is `PositionAt` at `tFinal`; `Projectile.TrajectoryEnds` relates it to the path.
- Floating-point rounding is not modelled. All arithmetic is over exact reals, so `ts[n-1] == t_final` and the −203.1 example hold exactly, not within a tolerance. numpy forces the last sample to equal `stop` exactly; over the reals it already does.
- Floating-point overflow and non-finite values are not modelled. Over exact reals there is neither overflow nor `inf`/`nan`. So the model does not capture the `OverflowError` that `t**2` (`TiroParabolico.py:62`) raises for a scalar `t` of magnitude above about 1.34e154, which would end `main` at line 125. It does not capture the `inf` that the same overflow gives, with a warning, on the array path at line 76. Nor does it capture the `inf` and `nan` inputs that `float(input(...))` at line 110 accepts, or the `inf`/`nan` results they produce.
- numpy's own source is not part of this model. `Linspace` follows numpy's documented behaviour: `start + i·step`, `[start]` for one sample and `[]` for none. A negative `num` makes numpy raise an error; here `n` is a `nat`, so that case cannot arise.
- Python's dynamic typing is not modelled: `posicion_t` also accepts numpy arrays for the other arguments. Here only `t` is vectorised (`PositionsAt`), as the program uses it.
