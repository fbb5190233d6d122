# Speed-matching solver of the Argus eye trainer, in Dafny

Argus animates a dot along a parametric curve at a constant on-screen speed. The curve is an
opaque function from a parameter to a point. It has no arc length or derivative. So on every
timer tick the program searches numerically for the parameter shift that moves the dot by
`speed * dt` pixels. That search is `predict_move`. The tick that uses it is
`MainWindow.move`. This project models both and proves what they promise.

- `geometry.dfy`, module `Geometry`: `Point`, and `IsDistance`, the metric facts that
  `point_diff` (a `hypot` of the difference) has: nonnegative, symmetric, zero between a point
  and itself. The lemmas use only the last of these.
- `move_solver.dfy`, module `MoveSolver`: the constants `StartingParamShift = 0.001` and
  `RelativeTolerance = 0.01`, the `MovePrediction` record, and the solver in two forms.
  - The search as reference functions: `BracketFrom` for the doubling phase, `Step` for one
    bisection iteration, `Bisect` for the bisection phase and `Predict` for the whole call.
    The lemmas are stated about these functions.
  - The search as the source writes it: the loops over `dp_l` and `dp_r` in the methods
    `ExpandBracket` and `BisectBracket`, called by `PredictMove`. `PredictMove` is proved
    equal to `Predict`.
- Module `MoveSolverExample`, in the same file: a straight-line curve on which the whole
  search is worked through.
- `main_window.dfy`, module `Animation`: class `MainWindow` with the fields the animation
  updates. The parameter is `p` and the dot's box is `left, top, right, bottom`. The screen
  size, curve, speed and tick length do not change. The constructor models `create_dot`
  and `Move` models `move`.

Modelling decisions:

- Numbers are `real`, not floats.
- The curve `func: real -> Point` and the distance `dist: (Point, Point) -> real` are
  parameters. `hypot` needs a square root, which the model cannot write exactly.
- Both source loops are `while True` without a cap. Here each phase may evaluate the curve
  at most a given number of times. Past that limit it reports `BracketDiverged` or
  `BisectionDiverged`. The driver allows 64 evaluations per phase.
- A zero `dt` makes the source raise `ZeroDivisionError` at the first speed estimate. The
  model reports `DivisionByZero`.
- The source does not check that `speed` is positive, and neither does the model. With a
  negative speed the tolerance test can never pass, so every call fails. With a speed of
  zero, only a midpoint whose estimated speed is exactly zero is accepted (`NonPositiveSpeed`,
  `ZeroSpeedStall`). Lemmas that need a positive speed say so.
- After the tolerance test fails, the source runs a "too slow" test which, if it also fails,
  is followed by a "too fast" test. If neither holds, the loop goes round again with nothing
  changed. Over the reals that fall-through cannot happen: whenever the first two tests fail,
  the "too fast" test holds. So the model uses `else` there, with an assertion of that test.
- The source's `move` moves the dot and advances `p` before it checks the bounds. So
  `OutOfBounds` is returned with the state already updated, just as the source's
  `AssertionError` leaves it.

## Model

| member | source | states |
|---|---|---|
| Geometry.IsDistance | src/main_window.py:17-19 | Stands in for `point_diff`: the distance is a parameter, assumed nonnegative, symmetric and zero between a point and itself, as `hypot` of a difference is. The lemmas that assume it use only the last fact. |
| MoveSolver.Close | src/main_window.py:70 | The tolerance test: the estimated speed differs from the target by at most `speed * 0.01`. |
| MoveSolver.TooSlow | src/main_window.py:77 | The "too slow" test: the estimate minus the target is below `-speed * 0.01`. |
| MoveSolver.TooFast | src/main_window.py:82 | The "too fast" test: the estimate minus the target is above `speed * 0.01`. |
| MoveSolver.ExactlyOneBranch | src/main_window.py:70-85 | When the tolerance test fails, the "too slow" or the "too fast" test holds, for any speed. For a nonnegative speed exactly one holds, and neither holds when the tolerance test passes. |
| MoveSolver.BracketFrom | src/main_window.py:53-63 | The doubling phase as a function: it probes `0.001 * 2^k`, `0.001 * 2^(k+1)`, ... with the speed estimate of line 57, yields the number of doublings of the first probe whose estimate is strictly above the target, and yields nothing once its budget of curve evaluations is spent. |
| MoveSolver.BracketFromFound | src/main_window.py:53-63 | A bracket end found by doubling is the first probed shift `0.001 * 2^k` whose estimated speed strictly exceeds the target. Every earlier probe was no faster than the target, and `k` is within the step limit. |
| MoveSolver.BracketFromNone | src/main_window.py:55-63 | The bracket phase fails exactly when every shift it may probe is no faster than the target (both directions). |
| MoveSolver.ExpandBracket | src/main_window.py:53-63 | The doubling loop returns `Shift(k) = 0.001 * 2^k` for the `k` the reference bracket phase finds, and reports failure exactly when that phase does. The loop invariant keeps `dp_r = 0.001 * 2^k`. |
| MoveSolver.Step | src/main_window.py:67-85 | One bisection iteration as a function: evaluate the curve at the midpoint; return the pixel displacement and the midpoint when the tolerance test passes, else narrow to `[mid, hi]` when too slow and to `[lo, mid]` otherwise. |
| MoveSolver.StepSpec | src/main_window.py:67-85 | One bisection iteration accepts the midpoint exactly when it passes the tolerance test, returning the curve's pixel displacement with `dp` equal to the midpoint. Otherwise "too slow" replaces the left end and "too fast" (which then always holds) replaces the right end. On an ordered bracket, exactly one end changes, the order is kept, the left end does not decrease, the right end does not increase, and the width halves. |
| MoveSolver.Bisect | src/main_window.py:66-85 | The only error the bisection phase reports is running out of steps. |
| MoveSolver.BisectSound | src/main_window.py:66-85 | A move returned by bisecting `[lo, hi]` with `0 <= lo < hi` has `lo < dp < hi`. It is accepted: `dp > 0`, `dx` and `dy` are the exact curve displacement, and the estimated speed is within 1% of the target. |
| MoveSolver.BisectBracket | src/main_window.py:66-85 | The bisection loop returns exactly what the reference bisection of `[0, dp_r]` returns. The loop invariants keep `0 <= dp_l < dp_r <= dp_r0`, with the width equal to `dp_r0` halved once per iteration. |
| MoveSolver.BracketFromBrackets | src/main_window.py:53-60 | If the speed is positive and `dist` is a distance, the bracket phase yields a true bracket: the estimated speed is zero at shift 0 and above the target at `dp_r`. |
| MoveSolver.StepKeepsBracket | src/main_window.py:77-85 | Each bisection iteration that does not return keeps the estimated speed below the target at the left end and above it at the right end, and halves the width. |
| MoveSolver.Predict | src/main_window.py:42-85 | `predict_move` as a function: `DivisionByZero` for a zero `dt`, `BracketDiverged` when the doubling phase finds no bracket, otherwise the bisection of `[0, dp_r]`. |
| MoveSolver.PredictSound | src/main_window.py:42-85 | A returned move comes from the first doubled shift `dp_r` that is fast enough within the limit. It satisfies `0 < dp < dp_r`, so the parameter never moves backward. Its `dx, dy` equal the curve's displacement exactly, and its estimated speed is within `speed * 0.01` of the target. |
| MoveSolver.PredictErrors | src/main_window.py:55-85 | The solver reports `DivisionByZero` exactly when `dt == 0`. It reports `BracketDiverged` exactly when `dt != 0` and no shift within the limit is fast enough. It reports `BisectionDiverged` exactly when a bracket is found and its bisection fails within the limit. |
| MoveSolver.ConstantCurveDiverges | src/main_window.py:55-63 | On a curve that stays at one point at every shift the doubling phase may probe, with a nonnegative target speed, the solver reports `BracketDiverged` (where the source's bracket loop never ends). |
| MoveSolver.NonPositiveSpeed | src/main_window.py:66-75 | With a negative target speed every call fails, since the tolerance test can never pass. With a zero target, a returned move has an estimated speed of exactly zero. |
| MoveSolver.PredictMove | src/main_window.py:42-85 | The two-loop solver returns exactly `Predict` of its arguments. Every success is an accepted move: forward, its pixel delta belonging to its `dp`, and within tolerance of the target speed. |
| MoveSolverExample.StraightLine | src/main_window.py:42-85 | On the line `x = 1000 t` from parameter 0, with the source's speed 18000 and a 5 ms step, the solver returns `dx = 90, dy = 0, dp = 0.09`. |
| MoveSolverExample.ZeroSpeedStall | src/main_window.py:42-85 | With a target speed of zero, on a curve that stays at the origin up to parameter 0.0005, the solver returns the midpoint `dp = 0.00025` with `dx = dy = 0`: the zero-speed case is not a divergence. |
| Animation.MainWindow.OnScreen | src/main_window.py:232-235 | The bounds test of a tick: `left > 0`, `right <= s_width`, `top > 0` and `bottom <= s_height`, the negation of both raising conditions. |
| Animation.MainWindow.constructor | src/main_window.py:206-218 | The dot starts as the box of half-side 10 around the curve point at parameter 0. Also `p = 0`, `speed = 18000` and `dt_ms = 5`. |
| Animation.MainWindow.Move | src/main_window.py:222-236 | One tick calls the solver with `dt_ms / 1000`. On success it shifts all four box coordinates by `(dx, dy)` and `p` by `dp`. It returns `OutOfBounds` exactly when `right > s_width`, `left <= 0`, `bottom > s_height` or `top <= 0`, and `Reschedule` otherwise. A solver failure changes nothing. The box stays centred on the curve point at `p`, and a rescheduled tick has advanced `p` strictly. |

## Left out

- The tkinter/ttkbootstrap window: `__init__`, the window settings and centring, key
  bindings and handlers, returning to the main screen, full-screen toggling, `start`, canvas
  creation and `create_background`. These are GUI calls on a library that is not part of
  this model.
- `self.after` rescheduling at the end of `move`. It is returned as the `Reschedule`
  outcome; no timer is modelled.
- The concrete curves `cardioid` and `infty`, and `math.hypot`. They are built from
  floating-point `cos`, `sin` and square roots. The curve and the distance are parameters
  instead.
- Floating-point behaviour: `dp_r` overflowing under repeated doubling, rounding in the
  midpoint, drift of the canvas coordinates, and NaN estimates. Under NaN the source's
  bisection loop can go round without narrowing.
- `main.py` (start-up and main loop) and `src/config.py` (constants only); neither has logic.
- PredictMove: the source loops forever when no probe is ever fast enough or no midpoint is
  ever close enough. The model stops after a given number of curve evaluations per phase and
  reports a failure.
- PredictMove: the source's single function is split into two loop methods. `p0` is
  computed once and passed to both. `dp_l` is set to 0 when the bisection loop starts rather
  than before the doubling loop; the doubling loop never touches it.
- The model does not prove that the search converges within its limits on curves whose speed
  grows steadily with the shift. That needs continuity of the curve, which an opaque
  function value does not provide.
- The first tick that `create_dot` runs itself (`self.move()` at the end): the constructor
  stops before it, and the caller calls `Move`.
- An idle/running state with start and stop operations: `move` reschedules itself unless it
  raises, and no such state exists in the source.
- A configuration error for a non-positive speed: the source does not check the speed.
