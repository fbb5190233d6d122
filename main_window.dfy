/**
 * The animation driver of the main window: it owns the curve parameter and the bounding
 * box of the dot on the canvas, and once per timer tick advances both by the move the
 * solver predicts, then checks that the dot is still on the screen.
 */
module Animation {
  import opened Geometry
  import opened MoveSolver

  /** Half the side of the dot's bounding box, in pixels. */
  const DotRadius: real := 10.0
  /** The target speed of the dot, in pixels per second. */
  const DotSpeed: real := 18000.0
  /** The tick interval, in milliseconds. */
  const TickMs: int := 5
  /** The most curve evaluations each solver phase may make per tick. */
  const MaxBracketSteps: nat := 64
  const MaxBisectSteps: nat := 64

  /** What one tick ends with, in place of the source's rescheduling or assertion failure. */
  datatype MoveOutcome =
    | Reschedule
    | OutOfBounds(left: real, top: real, right: real, bottom: real)
    | SolverFailed(error: SolveError)

  class MainWindow {
    /** The screen size. */
    const sWidth: int
    const sHeight: int
    /** The curve the dot follows and the distance the solver measures speed with. */
    const func: real -> Point
    const dist: (Point, Point) -> real
    const speed: real
    const dtMs: int

    /** The current curve parameter. */
    var p: real
    /** The dot's bounding box on the canvas. */
    var left: real
    var top: real
    var right: real
    var bottom: real

    /** The dot is a box of side 2 * DotRadius centred on the curve point at `p`. */
    ghost predicate Valid()
      reads this
    {
      var c := func(p);
      left == c.x - DotRadius && right == c.x + DotRadius &&
      top == c.y - DotRadius && bottom == c.y + DotRadius
    }

    /** The bounds test of `move`: the dot lies inside the screen. */
    predicate OnScreen()
      reads this
    {
      0.0 < left && right <= sWidth as real && 0.0 < top && bottom <= sHeight as real
    }

    /** The tick interval in seconds, as the solver is given it. */
    function Dt(): real {
      dtMs as real / 1000.0
    }

    /** The solver call of one tick from the current parameter. */
    ghost function Prediction(): Result<MovePrediction, SolveError>
      reads this
    {
      Predict(Query(func, dist, p, speed, Dt()), MaxBracketSteps, MaxBisectSteps)
    }

    /** Creating the dot: a box around the curve point at parameter 0, and the settings. */
    constructor (func: real -> Point, dist: (Point, Point) -> real, sWidth: int, sHeight: int)
      ensures Valid()
      ensures this.func == func && this.dist == dist
      ensures this.sWidth == sWidth && this.sHeight == sHeight
      ensures p == 0.0 && speed == DotSpeed && dtMs == TickMs
    {
      var c := func(0.0);
      this.func := func;
      this.dist := dist;
      this.sWidth := sWidth;
      this.sHeight := sHeight;
      left := c.x - DotRadius;
      top := c.y - DotRadius;
      right := c.x + DotRadius;
      bottom := c.y + DotRadius;
      p := 0.0;
      speed := DotSpeed;
      dtMs := TickMs;
    }

    /**
     * One tick: predict the move, shift the dot by its pixel delta and the parameter by its
     * parameter delta, then report the dot off the screen or ask to be run again.
     */
    method Move() returns (o: MoveOutcome)
      modifies this
      ensures old(Valid()) ==> Valid()
      ensures var r := old(Prediction());
        match r
        case Failure(e) =>
          o == SolverFailed(e) &&
          p == old(p) && left == old(left) && top == old(top) &&
          right == old(right) && bottom == old(bottom)
        case Success(mp) =>
          p == old(p) + mp.dp &&
          left == old(left) + mp.dx && right == old(right) + mp.dx &&
          top == old(top) + mp.dy && bottom == old(bottom) + mp.dy &&
          o == (if OnScreen() then Reschedule else OutOfBounds(left, top, right, bottom))
      ensures o.Reschedule? ==> p > old(p) && OnScreen()
    {
      var r := PredictMove(func, dist, p, speed, Dt(), MaxBracketSteps, MaxBisectSteps);
      match r
      case Failure(e) =>
        o := SolverFailed(e);
      case Success(mp) =>
        left, top, right, bottom := left + mp.dx, top + mp.dy, right + mp.dx, bottom + mp.dy;
        p := p + mp.dp;
        if right > sWidth as real || left <= 0.0 {
          o := OutOfBounds(left, top, right, bottom);
        } else if bottom > sHeight as real || top <= 0.0 {
          o := OutOfBounds(left, top, right, bottom);
        } else {
          o := Reschedule;
        }
    }
  }
}
