/**
 Properties relating the mover's operations to one another: the projection
 invariant across any run of calls, the in-world invariant across any run
 of move, bounce and stop calls in a world at least 2 x 2, the
 per-axis rule of `move` against the unbounded step, what repeated bounces
 and stops do, the normalisation of angles and the distance test.
 */
module MoverProperties {
  import opened JavaNum
  import opened Vectors
  import opened SmoothMover

  // ---------------------------------------------------------------------
  // Stepping

  /** `move` never lets the exact position leave the world, and then the
      host cell is a cell of the world. */
  lemma MoveKeepsInside(m: Mover, w: World, steps: Int32)
    requires InsideWorld(m, w)
    ensures InsideWorld(Move(m, w, steps), w)
    ensures OnGrid(Move(m, w, steps), w)
  {
    var r := Move(m, w, steps);
    CastInside(r.exactX, w.width);
    CastInside(r.exactY, w.height);
  }

  /** The X outcome of `move` depends on the exact X, the horizontal speed
      and the width only: the vertical state and the height play no part
      (and symmetrically for Y). */
  lemma MoveAxesIndependent(m1: Mover, m2: Mover, w1: World, w2: World, steps: Int32)
    ensures m1.exactX == m2.exactX && m1.movement.x == m2.movement.x && w1.width == w2.width ==>
      Move(m1, w1, steps).exactX == Move(m2, w2, steps).exactX
    ensures m1.exactY == m2.exactY && m1.movement.y == m2.movement.y && w1.height == w2.height ==>
      Move(m1, w1, steps).exactY == Move(m2, w2, steps).exactY
  {
  }

  /** On each axis, the bounded step lands where the unbounded step does
      exactly when the candidate stays inside the world or the axis does
      not move at all. */
  lemma MoveAgreesWithUnboundedIff(m: Mover, w: World, steps: Int32)
    ensures Move(m, w, steps).exactX == MoveInUnboundedWorld(m, steps).exactX <==>
      (0.0 <= Candidate(m.exactX, m.movement.x, steps) < w.width as real
       || m.movement.x * steps as real == 0.0)
    ensures Move(m, w, steps).exactY == MoveInUnboundedWorld(m, steps).exactY <==>
      (0.0 <= Candidate(m.exactY, m.movement.y, steps) < w.height as real
       || m.movement.y * steps as real == 0.0)
  {
  }

  /** When the unbounded step stays inside the world, the two steps are the
      same operation. */
  lemma MoveInsideIsUnbounded(m: Mover, w: World, steps: Int32)
    requires InsideWorld(MoveInUnboundedWorld(m, steps), w)
    ensures Move(m, w, steps) == MoveInUnboundedWorld(m, steps)
  {
  }

  /** World 100 x 100, exact (99.5, 50.0), movement (1, 0): the candidate
      X 100.5 is rejected and the position is unchanged. */
  lemma MoveRejectsAtRightBorder()
    ensures var m := Mover(99.5, 50.0, 99, 50, Vector(1.0, 0.0));
      var r := Move(m, World(100, 100), 1);
      r.exactX == 99.5 && r.exactY == 50.0 && r.intX == 99 && r.intY == 50
  {
    var r := Move(Mover(99.5, 50.0, 99, 50, Vector(1.0, 0.0)), World(100, 100), 1);
    TruncUnique(99.5, 99);
    TruncUnique(50.0, 50);
  }

  /** Stepping forward and then the same number of steps backward in an
      unbounded world returns to the exact position. */
  lemma UnboundedRoundTrip(m: Mover, steps: Int32)
    requires steps > MinInt
    ensures var r := MoveInUnboundedWorld(MoveInUnboundedWorld(m, steps), -steps as Int32);
      r.exactX == m.exactX && r.exactY == m.exactY && r.movement == m.movement
    ensures Projected(m) ==>
      MoveInUnboundedWorld(MoveInUnboundedWorld(m, steps), -steps as Int32) == m
  {
  }

  /** Speed times steps distributes over a sum of steps. */
  lemma StepsDistribute(v: real, a: int, b: int)
    ensures v * a as real + v * b as real == v * (a + b) as real
  {
    assert (a + b) as real == a as real + b as real;
  }

  /** Candidates compose: `b` steps from the candidate of `a` steps is
      the candidate of `a + b` steps. */
  lemma CandidateStepsAdd(pos: real, speed: real, a: Int32, b: Int32)
    requires MinInt <= a + b <= MaxInt
    ensures Candidate(Candidate(pos, speed, a), speed, b) == Candidate(pos, speed, (a + b) as Int32)
  {
    StepsDistribute(speed, a, b);
  }

  /** Unbounded steps compose: `a` steps then `b` steps is `a + b` steps. */
  lemma UnboundedStepsAdd(m: Mover, a: Int32, b: Int32)
    requires MinInt <= a + b <= MaxInt
    ensures MoveInUnboundedWorld(MoveInUnboundedWorld(m, a), b)
         == MoveInUnboundedWorld(m, (a + b) as Int32)
  {
    CandidateStepsAdd(m.exactX, m.movement.x, a, b);
    CandidateStepsAdd(m.exactY, m.movement.y, a, b);
  }

  // ---------------------------------------------------------------------
  // Edge policies

  /** `bounceAtEdge` is `bounceHorizontal` on an X edge (corners
      included), otherwise `bounceVertical` on a Y edge. */
  lemma BounceAtEdgeDelegates(m: Mover, w: World)
    ensures AtXEdge(m, w) ==> BounceAtEdge(m, w) == BounceHorizontal(m)
    ensures !AtXEdge(m, w) && AtYEdge(m, w) ==> BounceAtEdge(m, w) == BounceVertical(m)
    ensures AtWorldEdge(m, w) <==> AtXEdge(m, w) || AtYEdge(m, w)
  {
  }

  /** A bounce changes at most one component of the movement. */
  lemma BounceChangesOneAxis(m: Mover, w: World)
    ensures BounceAtEdge(m, w).movement.x == m.movement.x
         || BounceAtEdge(m, w).movement.y == m.movement.y
  {
  }

  /** Bouncing twice at the same edge restores the movement and leaves the
      mover snapped to its cell: the host cell is not changed by the snap,
      so the second call takes the same branch as the first. */
  lemma BounceAtEdgeTwice(m: Mover, w: World)
    ensures var once := BounceAtEdge(m, w);
      var twice := BounceAtEdge(once, w);
      twice.movement == m.movement &&
      twice.exactX == once.exactX && twice.exactY == once.exactY &&
      twice.intX == m.intX && twice.intY == m.intY
  {
  }

  /** Reversing the same axis twice restores the movement. */
  lemma BounceHorizontalTwice(m: Mover)
    ensures BounceHorizontal(BounceHorizontal(m)) == BounceHorizontal(m).(movement := m.movement)
  {
  }

  lemma BounceVerticalTwice(m: Mover)
    ensures BounceVertical(BounceVertical(m)) == BounceVertical(m).(movement := m.movement)
  {
  }

  /** `stopAtWorldEdge` never writes the axis it does not correct: the
      host cell moves on one axis at most. */
  lemma StopAtWorldEdgeMovesOneAxis(m: Mover, w: World)
    requires Projected(m)
    ensures var r := StopAtWorldEdge(m, w);
      (r.exactX == m.exactX && r.intX == m.intX) || (r.exactY == m.exactY && r.intY == m.intY)
  {
  }

  /** In a world at least 3 x 3, two calls of `stopAtWorldEdge` bring a
      projected mover off every edge: the first corrects the higher-priority
      axis, the second the other one. */
  lemma StopTwiceLeavesEdge(m: Mover, w: World)
    requires w.width >= 3 && w.height >= 3
    requires Projected(m)
    ensures !AtWorldEdge(StopAtWorldEdge(StopAtWorldEdge(m, w), w), w)
  {
    var once := StopAtWorldEdge(m, w);
    IntRoundTrip(1);
    IntRoundTrip(w.width - 2);
    IntRoundTrip(w.height - 2);
    assert Projected(once);
    var twice := StopAtWorldEdge(once, w);
    assert 1 <= once.intX <= w.width - 2 || 1 <= once.intY <= w.height - 2;
  }

  /** World 50 x 50, host X at 0, moving left: exact X becomes 1.0, the
      speed becomes zero and the exact Y is kept. */
  lemma StopAtLeftBorderExample(y: real)
    requires 0.0 <= y < 50.0
    ensures var m := Mover(0.25, y, 0, DoubleToInt(y), Vector(-1.0, 0.0));
      var r := StopAtWorldEdge(m, World(50, 50));
      r.exactX == 1.0 && r.exactY == y && r.movement == Neutral && r.intX == 1
  {
    IntRoundTrip(1);
  }

  // ---------------------------------------------------------------------
  // A run of calls

  /** The calls a host may make on a mover within its world. */
  datatype Call =
    | MoveCall(steps: Int32)
    | MoveInUnboundedWorldCall(steps: Int32)
    | SetLocationCall(x: real, y: real)
    | SetLocationIntCall(ix: Int32, iy: Int32)
    | BounceAtEdgeCall
    | BounceHorizontalCall
    | BounceVerticalCall
    | StopAtWorldEdgeCall
    | StopCall

  function Apply(m: Mover, w: World, c: Call): Mover {
    match c
    case MoveCall(s) => Move(m, w, s)
    case MoveInUnboundedWorldCall(s) => MoveInUnboundedWorld(m, s)
    case SetLocationCall(x, y) => SetLocation(m, x, y)
    case SetLocationIntCall(x, y) => SetLocationInt(m, x, y)
    case BounceAtEdgeCall => BounceAtEdge(m, w)
    case BounceHorizontalCall => BounceHorizontal(m)
    case BounceVerticalCall => BounceVertical(m)
    case StopAtWorldEdgeCall => StopAtWorldEdge(m, w)
    case StopCall => Stop(m)
  }

  function Run(m: Mover, w: World, calls: seq<Call>): Mover
    decreases |calls|
  {
    if |calls| == 0 then m else Run(Apply(m, w, calls[0]), w, calls[1..])
  }

  /** Calls that never place the mover outside the world on their own. */
  predicate Bounded(c: Call) {
    !c.MoveInUnboundedWorldCall? && !c.SetLocationCall? && !c.SetLocationIntCall?
  }

  /** Every call keeps the host cell equal to the cast of the exact
      position. */
  lemma ApplyKeepsProjected(m: Mover, w: World, c: Call)
    requires Projected(m)
    ensures Projected(Apply(m, w, c))
  {
    match c
    case SetLocationIntCall(x, y) =>
      IntRoundTrip(x);
      IntRoundTrip(y);
    case BounceAtEdgeCall =>
      IntRoundTrip(m.intX);
      IntRoundTrip(m.intY);
    case BounceHorizontalCall =>
      IntRoundTrip(m.intX);
      IntRoundTrip(m.intY);
    case BounceVerticalCall =>
      IntRoundTrip(m.intX);
      IntRoundTrip(m.intY);
    case _ =>
  }

  /** After any run of calls the host cell is the cast of the exact
      position. */
  lemma {:induction false} RunKeepsProjected(m: Mover, w: World, calls: seq<Call>)
    requires Projected(m)
    ensures Projected(Run(m, w, calls))
    decreases |calls|
  {
    if |calls| > 0 {
      ApplyKeepsProjected(m, w, calls[0]);
      RunKeepsProjected(Apply(m, w, calls[0]), w, calls[1..]);
    }
  }

  /** A bounded call keeps a projected mover inside a world at least
      2 x 2. */
  lemma ApplyKeepsInside(m: Mover, w: World, c: Call)
    requires w.width >= 2 && w.height >= 2
    requires Projected(m) && InsideWorld(m, w)
    requires Bounded(c)
    ensures InsideWorld(Apply(m, w, c), w)
  {
    CastInside(m.exactX, w.width);
    CastInside(m.exactY, w.height);
  }

  /** Started inside a world at least 2 x 2 and driven only by bounded
      calls, a projected mover stays inside, and its host cell stays a cell
      of the world. */
  lemma {:induction false} BoundedRunStaysInside(m: Mover, w: World, calls: seq<Call>)
    requires w.width >= 2 && w.height >= 2
    requires Projected(m) && InsideWorld(m, w)
    requires forall i :: 0 <= i < |calls| ==> Bounded(calls[i])
    ensures InsideWorld(Run(m, w, calls), w)
    ensures OnGrid(Run(m, w, calls), w)
    decreases |calls|
  {
    if |calls| == 0 {
      CastInside(m.exactX, w.width);
      CastInside(m.exactY, w.height);
    } else {
      ApplyKeepsInside(m, w, calls[0]);
      ApplyKeepsProjected(m, w, calls[0]);
      BoundedRunStaysInside(Apply(m, w, calls[0]), w, calls[1..]);
    }
  }

  // ---------------------------------------------------------------------
  // Small pure helpers

  /** The one-step normalisation agrees with the true one exactly on the
      inputs within one period of `[0, 359]`. */
  lemma SetDirectionAngleCorrectIff(angle: Int32)
    ensures SetDirectionAngle(angle) == NormalizedAngle(angle) <==> -360 <= angle <= 719
  {
    if angle > 719 {
      assert SetDirectionAngle(angle) >= 360;
    } else if angle < -360 {
      assert SetDirectionAngle(angle) < 0;
    }
  }

  /** `setDirection(720)` forwards 360 and `setDirection(-361)` forwards
      -1, both outside the documented `[0, 359]`. */
  lemma SetDirectionAngleMissesTwoPeriods()
    ensures SetDirectionAngle(720) == 360 && NormalizedAngle(720) == 0
    ensures SetDirectionAngle(-361) == -1 && NormalizedAngle(-361) == 359
  {
  }

  /** The displacement is signed: swapping the ends negates it. */
  lemma CalcDistanceAntisymmetric(a: real, b: real)
    ensures CalcDistance(a, b) == -CalcDistance(b, a)
    ensures CalcDistance(5.0, 3.0) == -2.0
  {
  }

  /** The `int` displacement is `b - a` whenever that fits, and wraps
      otherwise. */
  lemma CalcDistanceIntWraps(a: Int32, b: Int32)
    ensures MinInt <= b - a <= MaxInt ==> CalcDistanceInt(a, b) == b - a
    ensures b - a > MaxInt ==> CalcDistanceInt(a, b) == b - a - Modulus
    ensures b - a < MinInt ==> CalcDistanceInt(a, b) == b - a + Modulus
  {
  }

  /** A product of two positive reals is positive. */
  lemma ProductPositive(a: real, b: real)
    requires 0.0 < a && 0.0 < b
    ensures a * b > 0.0
  {
  }

  /** Squares of non-negative reals are ordered as the reals are. */
  lemma SquareMonotone(d: real, t: real)
    requires 0.0 <= d && 0.0 <= t
    ensures d <= t <==> d * d <= t * t
  {
    assert (t - d) * (t + d) == t * t - d * d;
    if d < t {
      ProductPositive(t - d, t + d);
    } else if t < d {
      ProductPositive(d - t, d + t);
      assert (d - t) * (d + t) == d * d - t * t;
    }
  }

  /** For the true Euclidean distance `d` (the non-negative root of the
      squared distance), the destination is reached exactly when `d` is at
      most the tolerance. */
  lemma ReachedIffWithinTolerance(m: Mover, targetX: Int32, targetY: Int32, tolerance: real, d: real)
    requires 0.0 <= d
    requires d * d == (targetX as real - m.exactX) * (targetX as real - m.exactX)
                    + (targetY as real - m.exactY) * (targetY as real - m.exactY)
    ensures HasReachedDestination(m, targetX, targetY, tolerance) <==> d <= tolerance
  {
    if tolerance >= 0.0 {
      SquareMonotone(d, tolerance);
    }
  }

  /** A destination reached within some tolerance is reached within any
      larger one. */
  lemma ReachedMonotoneInTolerance(m: Mover, targetX: Int32, targetY: Int32, small: real, large: real)
    requires small <= large
    requires HasReachedDestination(m, targetX, targetY, small)
    ensures HasReachedDestination(m, targetX, targetY, large)
  {
    SquareMonotone(small, large);
  }

  /** From (10, 10) to (13, 14) the distance is 5: reached with tolerance
      5.0 (the bound is inclusive), not with 4.9. */
  lemma ReachedExample()
    ensures var m := Mover(10.0, 10.0, 10, 10, Neutral);
      HasReachedDestination(m, 13, 14, 5.0) && !HasReachedDestination(m, 13, 14, 4.9)
  {
  }
}
