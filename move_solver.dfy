/**
 * The speed-matching solver `predict_move`: given a curve, the current parameter, a target
 * speed and a time step, find the parameter shift that moves the point along the curve at
 * that speed over one step. The search first doubles a right bracket end until the estimated
 * speed exceeds the target, then bisects the bracket until the estimated speed at the
 * midpoint is within 1% of the target.
 *
 * The curve and the distance are opaque function values. Both search loops of the source
 * run without a cap; here each phase is given a limit on the number of curve evaluations
 * and reports a failure when the limit is reached.
 */
module MoveSolver {
  import opened Geometry

  /** The shift the bracket phase starts from. */
  const StartingParamShift: real := 0.001
  /** The fractional deviation from the target speed the bisection accepts. */
  const RelativeTolerance: real := 0.01

  /** The pixel displacement (dx, dy) and the parameter displacement dp of one step. */
  datatype MovePrediction = MovePrediction(dx: real, dy: real, dp: real)

  datatype SolveError =
    | DivisionByZero     // dt == 0: the speed estimate divides by zero
    | BracketDiverged    // no probed shift was fast enough within the limit
    | BisectionDiverged  // no midpoint was within tolerance within the limit

  datatype Result<T, E> = Success(value: T) | Failure(error: E)

  datatype Option<T> = None | Some(value: T)

  /** One call of the solver: the curve, the distance, and the arguments of `predict_move`. */
  datatype Query = Query(func: real -> Point, dist: (Point, Point) -> real,
                         param: real, speed: real, dt: real)
  {
    /** The estimated speed when the parameter is shifted by `dp`. */
    function Est(dp: real): real
      requires dt != 0.0
    {
      dist(func(param + dp), func(param)) / dt
    }
  }

  function Abs(v: real): real {
    if v < 0.0 then -v else v
  }

  /** The tolerance test: the estimate is within 1% of the target. */
  predicate Close(est: real, speed: real) {
    Abs(est - speed) <= speed * RelativeTolerance
  }

  /** The "too slow" test: the shift must grow. */
  predicate TooSlow(est: real, speed: real) {
    est - speed < -speed * RelativeTolerance
  }

  /** The "too fast" test: the shift must shrink. */
  predicate TooFast(est: real, speed: real) {
    est - speed > speed * RelativeTolerance
  }

  /**
   * When the tolerance test fails, at least one of the two other tests holds, whatever the
   * speed (so the loop never goes round without narrowing the bracket); for a nonnegative
   * speed exactly one of them holds.
   */
  lemma ExactlyOneBranch(est: real, speed: real)
    ensures !Close(est, speed) ==> TooSlow(est, speed) || TooFast(est, speed)
    ensures speed >= 0.0 && !Close(est, speed) ==> TooSlow(est, speed) != TooFast(est, speed)
    ensures speed >= 0.0 && Close(est, speed) ==> !TooSlow(est, speed) && !TooFast(est, speed)
  {
  }

  // ---------------------------------------------------------------------------
  // What a returned move promises
  // ---------------------------------------------------------------------------

  /** The pixel delta is exactly the curve's displacement over the parameter delta. */
  predicate Displaces(q: Query, mp: MovePrediction) {
    mp.dx == q.func(q.param + mp.dp).x - q.func(q.param).x &&
    mp.dy == q.func(q.param + mp.dp).y - q.func(q.param).y
  }

  /** A move the solver may return: forward, its pixel delta matching, at the target speed. */
  predicate Accepted(q: Query, mp: MovePrediction)
    requires q.dt != 0.0
  {
    0.0 < mp.dp && Displaces(q, mp) && Close(q.Est(mp.dp), q.speed)
  }

  // ---------------------------------------------------------------------------
  // Bracket phase
  // ---------------------------------------------------------------------------

  function Pow2(n: nat): (r: real)
    ensures r >= 1.0
  {
    if n == 0 then 1.0 else 2.0 * Pow2(n - 1)
  }

  /** The right bracket end after `k` doublings. */
  function Shift(k: nat): real {
    StartingParamShift * Pow2(k)
  }

  /** `w` halved `n` times. */
  function Halved(w: real, n: nat): (r: real)
    ensures w > 0.0 ==> r > 0.0
  {
    if n == 0 then w else Halved(w, n - 1) / 2.0
  }

  /**
   * The bracket phase as a function: probe `Shift(k)`, `Shift(k + 1)`, ... with at most
   * `fuel` curve evaluations and yield the number of doublings of the first probe whose
   * estimated speed exceeds the target.
   */
  function BracketFrom(q: Query, k: nat, fuel: nat): Option<nat>
    requires q.dt != 0.0
    decreases fuel
  {
    if fuel == 0 then None
    else if q.Est(Shift(k)) > q.speed then Some(k)
    else BracketFrom(q, k + 1, fuel - 1)
  }

  /** A found bracket end is the first probe that is fast enough. */
  lemma {:induction false} BracketFromFound(q: Query, k0: nat, fuel: nat)
    requires q.dt != 0.0 && BracketFrom(q, k0, fuel).Some?
    ensures var k := BracketFrom(q, k0, fuel).value;
      k0 <= k < k0 + fuel &&
      q.Est(Shift(k)) > q.speed &&
      forall j :: k0 <= j < k ==> q.Est(Shift(j)) <= q.speed
    decreases fuel
  {
    if q.Est(Shift(k0)) <= q.speed {
      BracketFromFound(q, k0 + 1, fuel - 1);
    }
  }

  /** The bracket phase fails exactly when every probe it may make is too slow. */
  lemma {:induction false} BracketFromNone(q: Query, k0: nat, fuel: nat)
    requires q.dt != 0.0
    ensures BracketFrom(q, k0, fuel).None? <==>
      forall j :: k0 <= j < k0 + fuel ==> q.Est(Shift(j)) <= q.speed
    decreases fuel
  {
    if fuel > 0 {
      BracketFromNone(q, k0 + 1, fuel - 1);
    }
  }

  // ---------------------------------------------------------------------------
  // Bisection phase
  // ---------------------------------------------------------------------------

  /** The outcome of one bisection iteration. */
  datatype Probe = Converged(mp: MovePrediction) | Narrowed(lo: real, hi: real)

  /**
   * One bisection iteration on the bracket [lo, hi]: evaluate the curve at the midpoint and
   * either accept it or replace one bracket end with it.
   */
  function Step(q: Query, lo: real, hi: real): Probe
    requires q.dt != 0.0
  {
    var mid := (lo + hi) / 2.0;
    var p0 := q.func(q.param);
    var p1 := q.func(q.param + mid);
    var est := q.dist(p1, p0) / q.dt;
    if Close(est, q.speed) then Converged(MovePrediction(p1.x - p0.x, p1.y - p0.y, mid))
    else if TooSlow(est, q.speed) then Narrowed(mid, hi)
    else Narrowed(lo, mid)
  }

  /**
   * What one iteration does: it accepts the midpoint exactly when the estimate there passes
   * the tolerance test; otherwise it replaces the left end with the midpoint when the point
   * moves too slowly and the right end when it moves too fast, so that the bracket keeps
   * its order, shrinks to half its width, and exactly one of its ends changes.
   */
  lemma StepSpec(q: Query, lo: real, hi: real)
    requires q.dt != 0.0
    ensures var s, mid := Step(q, lo, hi), (lo + hi) / 2.0;
      (s.Converged? <==> Close(q.Est(mid), q.speed)) &&
      (s.Converged? ==> s.mp.dp == mid && Displaces(q, s.mp)) &&
      (s.Narrowed? && TooSlow(q.Est(mid), q.speed) ==> s.lo == mid && s.hi == hi) &&
      (s.Narrowed? && !TooSlow(q.Est(mid), q.speed) ==>
         TooFast(q.Est(mid), q.speed) && s.lo == lo && s.hi == mid)
    ensures var s := Step(q, lo, hi);
      lo < hi && s.Narrowed? ==>
        lo <= s.lo < s.hi <= hi && s.hi - s.lo == (hi - lo) / 2.0 &&
        ((s.lo == lo) != (s.hi == hi))
  {
  }

  /** The bisection phase as a function, with at most `fuel` curve evaluations. */
  function Bisect(q: Query, lo: real, hi: real, fuel: nat): (r: Result<MovePrediction, SolveError>)
    requires q.dt != 0.0
    ensures r.Failure? ==> r.error == BisectionDiverged
    decreases fuel
  {
    if fuel == 0 then Failure(BisectionDiverged)
    else match Step(q, lo, hi)
      case Converged(mp) => Success(mp)
      case Narrowed(lo', hi') => Bisect(q, lo', hi', fuel - 1)
  }

  /** A move the bisection returns lies strictly inside its bracket and is accepted. */
  lemma {:induction false} BisectSound(q: Query, lo: real, hi: real, fuel: nat)
    requires q.dt != 0.0 && 0.0 <= lo < hi && Bisect(q, lo, hi, fuel).Success?
    ensures var mp := Bisect(q, lo, hi, fuel).value;
      lo < mp.dp < hi && Accepted(q, mp)
    decreases fuel
  {
    StepSpec(q, lo, hi);
    match Step(q, lo, hi)
    case Converged(_) =>
    case Narrowed(lo', hi') => BisectSound(q, lo', hi', fuel - 1);
  }

  /**
   * The root-finding invariant: the estimated speed is below the target at the left end of
   * the bracket and above it at the right end.
   */
  ghost predicate Brackets(q: Query, lo: real, hi: real)
    requires q.dt != 0.0
  {
    0.0 <= lo < hi && q.Est(lo) < q.speed < q.Est(hi)
  }

  /** The bracket phase yields a bracket when the speed is positive and `dist` a distance. */
  lemma BracketFromBrackets(q: Query, fuel: nat)
    requires q.dt != 0.0 && q.speed > 0.0 && IsDistance(q.dist)
    requires BracketFrom(q, 0, fuel).Some?
    ensures Brackets(q, 0.0, Shift(BracketFrom(q, 0, fuel).value))
  {
    BracketFromFound(q, 0, fuel);
    assert q.param + 0.0 == q.param;
    assert q.Est(0.0) == 0.0;
  }

  /** Every bisection step that does not return keeps the bracket and halves it. */
  lemma StepKeepsBracket(q: Query, lo: real, hi: real)
    requires q.dt != 0.0 && q.speed > 0.0 && Brackets(q, lo, hi)
    requires Step(q, lo, hi).Narrowed?
    ensures var s := Step(q, lo, hi);
      Brackets(q, s.lo, s.hi) && s.hi - s.lo == (hi - lo) / 2.0
  {
  }

  // ---------------------------------------------------------------------------
  // The whole solver
  // ---------------------------------------------------------------------------

  /**
   * `predict_move` as a function: the bracket phase with at most `bracketSteps` curve
   * evaluations, then the bisection with at most `bisectSteps`.
   */
  function Predict(q: Query, bracketSteps: nat, bisectSteps: nat): Result<MovePrediction, SolveError> {
    if q.dt == 0.0 then Failure(DivisionByZero)
    else match BracketFrom(q, 0, bracketSteps)
      case None => Failure(BracketDiverged)
      case Some(k) => Bisect(q, 0.0, Shift(k), bisectSteps)
  }

  /**
   * A returned move comes from the first doubled shift that is fast enough, lies strictly
   * between zero and that shift, and is accepted.
   */
  lemma PredictSound(q: Query, bracketSteps: nat, bisectSteps: nat)
    requires Predict(q, bracketSteps, bisectSteps).Success?
    ensures q.dt != 0.0 && BracketFrom(q, 0, bracketSteps).Some?
    ensures var k := BracketFrom(q, 0, bracketSteps).value;
      var mp := Predict(q, bracketSteps, bisectSteps).value;
      k < bracketSteps &&
      q.Est(Shift(k)) > q.speed &&
      (forall j :: 0 <= j < k ==> q.Est(Shift(j)) <= q.speed) &&
      0.0 < mp.dp < Shift(k) &&
      Accepted(q, mp)
  {
    var k := BracketFrom(q, 0, bracketSteps).value;
    BracketFromFound(q, 0, bracketSteps);
    BisectSound(q, 0.0, Shift(k), bisectSteps);
  }

  /** Which error the solver reports, and when. */
  lemma PredictErrors(q: Query, bracketSteps: nat, bisectSteps: nat)
    ensures Predict(q, bracketSteps, bisectSteps) == Failure(DivisionByZero) <==> q.dt == 0.0
    ensures Predict(q, bracketSteps, bisectSteps) == Failure(BracketDiverged) <==>
      q.dt != 0.0 && forall j :: 0 <= j < bracketSteps ==> q.Est(Shift(j)) <= q.speed
    ensures Predict(q, bracketSteps, bisectSteps) == Failure(BisectionDiverged) <==>
      q.dt != 0.0 && BracketFrom(q, 0, bracketSteps).Some? &&
      Bisect(q, 0.0, Shift(BracketFrom(q, 0, bracketSteps).value), bisectSteps).Failure?
  {
    if q.dt != 0.0 {
      BracketFromNone(q, 0, bracketSteps);
    }
  }

  /**
   * On a curve that stays at one point at every shift the bracket phase may probe, the
   * estimated speed there is zero, so for a nonnegative target the bracket phase never
   * succeeds: the source loops forever, the model reports BracketDiverged.
   */
  lemma ConstantCurveDiverges(q: Query, bracketSteps: nat, bisectSteps: nat)
    requires q.dt != 0.0 && q.speed >= 0.0 && IsDistance(q.dist)
    requires forall j: nat :: j < bracketSteps ==> q.func(q.param + Shift(j)) == q.func(q.param)
    ensures Predict(q, bracketSteps, bisectSteps) == Failure(BracketDiverged)
  {
    forall j: nat | j < bracketSteps
      ensures q.Est(Shift(j)) <= q.speed
    {
      assert q.func(q.param + Shift(j)) == q.func(q.param);
    }
    PredictErrors(q, bracketSteps, bisectSteps);
  }

  /**
   * The source does not check the target speed. A negative target can never pass the
   * tolerance test, so every call fails; for a zero target the only move the solver can
   * return is one whose estimated speed is exactly zero.
   */
  lemma NonPositiveSpeed(q: Query, bracketSteps: nat, bisectSteps: nat)
    ensures q.speed < 0.0 ==> Predict(q, bracketSteps, bisectSteps).Failure?
    ensures q.speed == 0.0 && Predict(q, bracketSteps, bisectSteps).Success? ==>
      q.dt != 0.0 && q.Est(Predict(q, bracketSteps, bisectSteps).value.dp) == 0.0
  {
    if Predict(q, bracketSteps, bisectSteps).Success? {
      PredictSound(q, bracketSteps, bisectSteps);
    }
  }

  // ---------------------------------------------------------------------------
  // The solver as the source writes it: two loops over local variables
  // ---------------------------------------------------------------------------

  /**
   * The bracket loop: starting from `StartingParamShift`, double the right end until the
   * estimated speed there exceeds the target, making at most `bracketSteps` curve
   * evaluations. `p0` is the point at `param`, computed once by the caller.
   */
  method ExpandBracket(func: real -> Point, dist: (Point, Point) -> real,
                       param: real, speed: real, dt: real, p0: Point, bracketSteps: nat)
    returns (r: Option<real>)
    requires dt != 0.0 && p0 == func(param)
    ensures var q := Query(func, dist, param, speed, dt);
      match BracketFrom(q, 0, bracketSteps)
      case None => r == None
      case Some(k) => r == Some(Shift(k))
  {
    ghost var q := Query(func, dist, param, speed, dt);
    var dpR := StartingParamShift;
    var k: nat := 0;
    while true
      invariant k <= bracketSteps
      invariant dpR == Shift(k)
      invariant BracketFrom(q, k, bracketSteps - k) == BracketFrom(q, 0, bracketSteps)
      decreases bracketSteps - k
    {
      if k == bracketSteps {
        return None;
      }
      var p1 := func(param + dpR);
      var est := dist(p1, p0) / dt;
      if est > speed {
        // a shift that is far enough
        return Some(dpR);
      }
      dpR := dpR * 2.0;
      k := k + 1;
    }
  }

  /**
   * The bisection loop on [0, dpR]: evaluate the curve at the midpoint; return it when the
   * estimated speed is within tolerance, otherwise replace the left end (too slow) or the
   * right end (too fast) with it. At most `bisectSteps` curve evaluations.
   */
  method BisectBracket(func: real -> Point, dist: (Point, Point) -> real,
                       param: real, speed: real, dt: real, p0: Point,
                       dpR0: real, bisectSteps: nat)
    returns (r: Result<MovePrediction, SolveError>)
    requires dt != 0.0 && p0 == func(param) && 0.0 < dpR0
    ensures r == Bisect(Query(func, dist, param, speed, dt), 0.0, dpR0, bisectSteps)
  {
    ghost var q := Query(func, dist, param, speed, dt);
    ghost var outcome := Bisect(q, 0.0, dpR0, bisectSteps);
    var dpL: real := 0.0;
    var dpR := dpR0;
    var n: nat := 0;
    while true
      invariant n <= bisectSteps
      invariant 0.0 <= dpL < dpR <= dpR0
      invariant dpR - dpL == Halved(dpR0, n)
      invariant Bisect(q, dpL, dpR, bisectSteps - n) == outcome
      decreases bisectSteps - n
    {
      if n == bisectSteps {
        return Failure(BisectionDiverged);
      }
      var dpGuess := (dpL + dpR) / 2.0;
      var p1 := func(param + dpGuess);
      var est := dist(p1, p0) / dt;
      ghost var s := Step(q, dpL, dpR);
      if Close(est, speed) {
        // good approximation
        assert s == Converged(MovePrediction(p1.x - p0.x, p1.y - p0.y, dpGuess));
        return Success(MovePrediction(p1.x - p0.x, p1.y - p0.y, dpGuess));
      }
      if TooSlow(est, speed) {
        // moving too slowly: increase the shift
        assert s == Narrowed(dpGuess, dpR);
        dpL, dpR := (dpL + dpR) / 2.0, dpR;
      } else {
        // moving too fast: the third test of the source is the only one left
        assert TooFast(est, speed);
        assert s == Narrowed(dpL, dpGuess);
        dpL, dpR := dpL, (dpL + dpR) / 2.0;
      }
      assert Halved(dpR0, n + 1) == Halved(dpR0, n) / 2.0;
      n := n + 1;
    }
  }

  /** `predict_move`: the bracket loop, then the bisection loop. */
  method PredictMove(func: real -> Point, dist: (Point, Point) -> real,
                     param: real, speed: real, dt: real,
                     bracketSteps: nat, bisectSteps: nat)
    returns (r: Result<MovePrediction, SolveError>)
    ensures r == Predict(Query(func, dist, param, speed, dt), bracketSteps, bisectSteps)
    ensures r.Success? ==> dt != 0.0 && Accepted(Query(func, dist, param, speed, dt), r.value)
  {
    if dt == 0.0 {
      return Failure(DivisionByZero);
    }
    var p0 := func(param);
    var dpR := ExpandBracket(func, dist, param, speed, dt, p0, bracketSteps);
    match dpR
    case None =>
      r := Failure(BracketDiverged);
    case Some(right) =>
      r := BisectBracket(func, dist, param, speed, dt, p0, right, bisectSteps);
      if r.Success? {
        PredictSound(Query(func, dist, param, speed, dt), bracketSteps, bisectSteps);
      }
  }
}

/** A worked instance of the solver on a straight line. */
module MoveSolverExample {
  import opened Geometry
  import opened MoveSolver

  /** The horizontal line x = 1000 t. */
  function Line(t: real): Point {
    Point(1000.0 * t, 0.0)
  }

  /** The horizontal gap between two points, a distance on that line. */
  function Gap(a: Point, b: Point): real {
    Abs(a.x - b.x)
  }

  /** The gap is a distance in the sense the solver's lemmas assume. */
  lemma GapIsDistance()
    ensures IsDistance(Gap)
  {
  }

  /** The estimated speed at shift `dp` on the line is 200000 dp. */
  lemma LineSpeed(dp: real)
    requires dp >= 0.0
    ensures Query(Line, Gap, 0.0, 18000.0, 0.005).Est(dp) == 200000.0 * dp
  {
    assert Line(0.0 + dp).x - Line(0.0).x == 1000.0 * dp;
  }

  /**
   * The line at the source's speed of 18000 pixels per second and a 5 ms step: the bracket
   * phase stops at 0.128 (seven doublings), and six bisection steps later the midpoint 0.09
   * moves the point by exactly 90 pixels.
   */
  lemma StraightLine()
    ensures Predict(Query(Line, Gap, 0.0, 18000.0, 0.005), 64, 64) ==
      Success(MovePrediction(90.0, 0.0, 0.09))
  {
    var q := Query(Line, Gap, 0.0, 18000.0, 0.005);
    // bracket phase: the estimated speed at Shift(k) is 200 * 2^k
    assert Shift(7) == 0.128;
    forall k: nat | k <= 7
      ensures q.Est(Shift(k)) == 200000.0 * Shift(k)
    {
      LineSpeed(Shift(k));
    }
    assert BracketFrom(q, 7, 57) == Some(7);
    assert BracketFrom(q, 6, 58) == Some(7);
    assert BracketFrom(q, 5, 59) == Some(7);
    assert BracketFrom(q, 4, 60) == Some(7);
    assert BracketFrom(q, 3, 61) == Some(7);
    assert BracketFrom(q, 2, 62) == Some(7);
    assert BracketFrom(q, 1, 63) == Some(7);
    assert BracketFrom(q, 0, 64) == Some(7);
    // bisection: too slow, too fast, too slow, too slow, too fast, close
    LineSpeed(0.064);
    LineSpeed(0.096);
    LineSpeed(0.08);
    LineSpeed(0.088);
    LineSpeed(0.092);
    LineSpeed(0.09);
    assert Bisect(q, 0.088, 0.092, 59) == Success(MovePrediction(90.0, 0.0, 0.09));
    assert Bisect(q, 0.088, 0.096, 60) == Success(MovePrediction(90.0, 0.0, 0.09));
    assert Bisect(q, 0.08, 0.096, 61) == Success(MovePrediction(90.0, 0.0, 0.09));
    assert Bisect(q, 0.064, 0.096, 62) == Success(MovePrediction(90.0, 0.0, 0.09));
    assert Bisect(q, 0.064, 0.128, 63) == Success(MovePrediction(90.0, 0.0, 0.09));
    assert Bisect(q, 0.0, 0.128, 64) == Success(MovePrediction(90.0, 0.0, 0.09));
  }

  /** A curve that stays at the origin up to parameter 0.0005 and then follows x = t. */
  function Kink(t: real): Point {
    if t < 0.0005 then Point(0.0, 0.0) else Point(t, 0.0)
  }

  /**
   * With a target speed of zero the solver accepts a midpoint at which the curve has not
   * moved: the first probe 0.001 is too fast, the midpoint 0.0005 still is, and at 0.00025
   * the estimated speed is exactly zero.
   */
  lemma ZeroSpeedStall()
    ensures Predict(Query(Kink, Gap, 0.0, 0.0, 0.005), 64, 64) ==
      Success(MovePrediction(0.0, 0.0, 0.00025))
  {
    var q := Query(Kink, Gap, 0.0, 0.0, 0.005);
    assert Shift(0) == 0.001;
    assert q.Est(0.001) == 0.2;
    assert BracketFrom(q, 0, 64) == Some(0);
    assert q.Est(0.0005) == 0.1;
    assert q.Est(0.00025) == 0.0;
    assert Bisect(q, 0.0, 0.0005, 63) == Success(MovePrediction(0.0, 0.0, 0.00025));
  }
}
