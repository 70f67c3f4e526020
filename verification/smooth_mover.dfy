/**
 A mover keeps an exact (real-valued) position beside the integer position
 its host actor is drawn at, so that slow and fractional speeds accumulate
 without loss. Once the mover is in a world, every position write goes
 through `SetLocation`, which projects the exact position onto the host's integers by Java's `(int)`
 cast. The world is passed in by its size; the host actor is reduced to the
 `intX`/`intY` fields of the record.
 */
module SmoothMover {
  import opened JavaNum
  import opened Vectors

  /** A world side length: a positive Java `int`. */
  type Dim = d: int | 1 <= d <= MaxInt witness 1

  datatype World = World(width: Dim, height: Dim)

  /** The mover's state: exact position, the host's integer position and
      the movement vector. */
  datatype Mover = Mover(exactX: real, exactY: real, intX: Int32, intY: Int32, movement: Vector)

  /** The host position is the cast of the exact position. */
  predicate Projected(m: Mover) {
    m.intX == DoubleToInt(m.exactX) && m.intY == DoubleToInt(m.exactY)
  }

  /** The exact position lies in `[0, width) x [0, height)`. */
  predicate InsideWorld(m: Mover, w: World) {
    0.0 <= m.exactX < w.width as real && 0.0 <= m.exactY < w.height as real
  }

  /** The host position is a cell of the world. */
  predicate OnGrid(m: Mover, w: World) {
    0 <= m.intX <= w.width - 1 && 0 <= m.intY <= w.height - 1
  }

  // ---------------------------------------------------------------------
  // Position state

  /** The constructor: exact position (0, 0), the given movement, and the
      host's initial cell (0, 0). */
  function New(speed: Vector): (m: Mover)
    ensures m.exactX == 0.0 && m.exactY == 0.0
    ensures m.intX == 0 && m.intY == 0
    ensures m.movement == speed
    ensures Projected(m)
  {
    IntRoundTrip(0);
    Mover(0.0, 0.0, 0, 0, speed)
  }

  /** `addedToWorld`: the exact position is seeded from the cell the host
      placed the actor at. */
  function AddedToWorld(m: Mover, hostX: Int32, hostY: Int32): (r: Mover)
    ensures r.exactX == hostX as real && r.exactY == hostY as real
    ensures r.intX == hostX && r.intY == hostY
    ensures r.movement == m.movement
    ensures Projected(r)
  {
    IntRoundTrip(hostX);
    IntRoundTrip(hostY);
    m.(exactX := hostX as real, exactY := hostY as real, intX := hostX, intY := hostY)
  }

  /** `setLocation(double, double)`: the single choke point of every
      position write after entering the world. */
  function SetLocation(m: Mover, x: real, y: real): (r: Mover)
    ensures r.exactX == x && r.exactY == y
    ensures r.movement == m.movement
    ensures MinInt as real - 1.0 < x < MaxInt as real + 1.0 ==> r.intX == Trunc(x)
    ensures MinInt as real - 1.0 < y < MaxInt as real + 1.0 ==> r.intY == Trunc(y)
    ensures Projected(r)
  {
    Mover(x, y, DoubleToInt(x), DoubleToInt(y), m.movement)
  }

  /** `setLocation(int, int)`: widens and forwards; the host lands exactly
      on the requested cell. */
  function SetLocationInt(m: Mover, x: Int32, y: Int32): (r: Mover)
    ensures r == SetLocation(m, x as real, y as real)
    ensures r.intX == x && r.intY == y
    ensures r.exactX == x as real && r.exactY == y as real
  {
    IntRoundTrip(x);
    IntRoundTrip(y);
    SetLocation(m, x as real, y as real)
  }

  /** Re-commit the host cell as the exact position (used by the bounces). */
  function Snap(m: Mover): (r: Mover)
    ensures r.exactX == m.intX as real && r.exactY == m.intY as real
    ensures r.intX == m.intX && r.intY == m.intY
    ensures r.movement == m.movement
  {
    SetLocationInt(m, m.intX, m.intY)
  }

  // ---------------------------------------------------------------------
  // Stepping

  /** The exact coordinate one call of `move` aims at. */
  function Candidate(pos: real, speed: real, steps: Int32): real {
    pos + speed * steps as real
  }

  /** `move(steps)`: each axis keeps its candidate only when it stays in
      `[0, size)`; the rejected axis keeps its exact value, and the movement
      vector is never touched. */
  function Move(m: Mover, w: World, steps: Int32): (r: Mover)
    ensures r.movement == m.movement
    ensures var cx := Candidate(m.exactX, m.movement.x, steps);
      r.exactX == if 0.0 <= cx < w.width as real then cx else m.exactX
    ensures var cy := Candidate(m.exactY, m.movement.y, steps);
      r.exactY == if 0.0 <= cy < w.height as real then cy else m.exactY
    ensures Projected(r)
  {
    var nextX := Candidate(m.exactX, m.movement.x, steps);
    var nextY := Candidate(m.exactY, m.movement.y, steps);
    var keptX := if nextX >= w.width as real || nextX < 0.0 then m.exactX else nextX;
    var keptY := if nextY >= w.height as real || nextY < 0.0 then m.exactY else nextY;
    SetLocation(m, keptX, keptY)
  }

  /** `move()`: one step, each axis kept only inside the world. */
  function MoveOnce(m: Mover, w: World): (r: Mover)
    ensures r.exactX == if 0.0 <= m.exactX + m.movement.x < w.width as real
      then m.exactX + m.movement.x else m.exactX
    ensures r.exactY == if 0.0 <= m.exactY + m.movement.y < w.height as real
      then m.exactY + m.movement.y else m.exactY
    ensures r.movement == m.movement
    ensures Projected(r)
  {
    Move(m, w, 1)
  }

  /** `moveInUnBoundedWorld(steps)`: the candidate is always committed. */
  function MoveInUnboundedWorld(m: Mover, steps: Int32): (r: Mover)
    ensures r.exactX - m.exactX == m.movement.x * steps as real
    ensures r.exactY - m.exactY == m.movement.y * steps as real
    ensures r.movement == m.movement
    ensures Projected(r)
  {
    var nextX := Candidate(m.exactX, m.movement.x, steps);
    var nextY := Candidate(m.exactY, m.movement.y, steps);
    SetLocation(m, nextX, nextY)
  }

  // ---------------------------------------------------------------------
  // Edge policies (all read the host cell, X before Y)

  /** The host cell touches the left or right border. */
  predicate AtXEdge(m: Mover, w: World) {
    m.intX <= 0 || m.intX >= w.width - 1
  }

  /** The host cell touches the top or bottom border. */
  predicate AtYEdge(m: Mover, w: World) {
    m.intY <= 0 || m.intY >= w.height - 1
  }

  /** `atWorldEdge`: at an edge exactly when the cell is not strictly
      inside the border ring. */
  function AtWorldEdge(m: Mover, w: World): (atEdge: bool)
    ensures !atEdge <==> 1 <= m.intX <= w.width - 2 && 1 <= m.intY <= w.height - 2
  {
    if AtXEdge(m, w) then true
    else if AtYEdge(m, w) then true
    else false
  }

  /** `bounceHorizontal`: snap to the cell and reverse the horizontal
      component, unconditionally. */
  function BounceHorizontal(m: Mover): (r: Mover)
    ensures r.movement.x == -m.movement.x && r.movement.y == m.movement.y
    ensures r.exactX == m.intX as real && r.exactY == m.intY as real
    ensures r.intX == m.intX && r.intY == m.intY
  {
    Snap(m).(movement := m.movement.RevertHorizontal())
  }

  /** `bounceVertical`: snap to the cell and reverse the vertical
      component, unconditionally. */
  function BounceVertical(m: Mover): (r: Mover)
    ensures r.movement.y == -m.movement.y && r.movement.x == m.movement.x
    ensures r.exactX == m.intX as real && r.exactY == m.intY as real
    ensures r.intX == m.intX && r.intY == m.intY
  {
    Snap(m).(movement := m.movement.RevertVertical())
  }

  /** `bounceAtEdge`: an X edge (corners included) reverses only the
      horizontal component, otherwise a Y edge reverses only the vertical
      one; either way the exact position snaps to the cell. Away from the
      edges nothing changes. */
  function BounceAtEdge(m: Mover, w: World): (r: Mover)
    ensures !AtWorldEdge(m, w) ==> r == m
    ensures AtXEdge(m, w) ==>
      r.movement == Vector(-m.movement.x, m.movement.y) &&
      r.exactX == m.intX as real && r.exactY == m.intY as real
    ensures !AtXEdge(m, w) && AtYEdge(m, w) ==>
      r.movement == Vector(m.movement.x, -m.movement.y) &&
      r.exactX == m.intX as real && r.exactY == m.intY as real
    ensures r.intX == m.intX && r.intY == m.intY
  {
    if AtXEdge(m, w) then
      BounceHorizontal(m)
    else if AtYEdge(m, w) then
      BounceVertical(m)
    else
      m
  }

  /** `stop`: the movement becomes neutral, the position stays. */
  function Stop(m: Mover): (r: Mover)
    ensures r.movement == Neutral
    ensures r.exactX == m.exactX && r.exactY == m.exactY
    ensures r.intX == m.intX && r.intY == m.intY
  {
    m.(movement := Neutral)
  }

  /** `stopAtWorldEdge`: at an edge the speed drops to zero and exactly one
      exact coordinate is pulled one cell inside the breached border, in the
      order left, right, top, bottom; the other exact coordinate is kept.
      Away from the edges nothing changes. */
  function StopAtWorldEdge(m: Mover, w: World): (r: Mover)
    ensures !AtWorldEdge(m, w) ==> r == m
    ensures AtWorldEdge(m, w) ==> r.movement == Neutral && Projected(r)
    ensures m.intX <= 0 ==> r.exactX == 1.0 && r.exactY == m.exactY
    ensures 0 < m.intX && m.intX >= w.width - 1 ==>
      r.exactX == (w.width - 2) as real && r.exactY == m.exactY
    ensures !AtXEdge(m, w) && m.intY <= 0 ==>
      r.exactX == m.exactX && r.exactY == 1.0
    ensures !AtXEdge(m, w) && 0 < m.intY && m.intY >= w.height - 1 ==>
      r.exactX == m.exactX && r.exactY == (w.height - 2) as real
  {
    if AtWorldEdge(m, w) then
      var halted := Stop(m);
      if m.intX <= 0 then
        SetLocation(halted, 1.0, m.exactY)
      else if m.intX >= w.width - 1 then
        SetLocation(halted, (w.width - 2) as real, m.exactY)
      else if m.intY <= 0 then
        SetLocation(halted, m.exactX, 1.0)
      else if m.intY >= w.height - 1 then
        SetLocation(halted, m.exactX, (w.height - 2) as real)
      else
        halted
    else
      m
  }

  // ---------------------------------------------------------------------
  // Small pure helpers

  /** The angle `setDirection(angle)` forwards to the vector, as written:
      a single step of 360 down above 359 or up below 0. Inputs within one period of `[0, 359]`
      land in `[0, 359]`; in-range inputs are forwarded unchanged; the
      result is always congruent to the input. */
  function SetDirectionAngle(angle: Int32): (a: Int32)
    ensures -360 <= angle <= 719 ==> 0 <= a <= 359
    ensures 0 <= angle <= 359 ==> a == angle
    ensures (a - angle) % 360 == 0
    ensures angle > 359 ==> a == angle - 360
    ensures angle < 0 ==> a == angle + 360
  {
    if angle > 359 then angle - 360
    else if angle < 0 then angle + 360
    else angle
  }

  /** The normalisation `setDirection` promises in its documentation: every
      `int` angle brought into `[0, 359]`, congruent modulo 360. */
  function NormalizedAngle(angle: Int32): (a: Int32)
    ensures 0 <= a <= 359
    ensures (a - angle) % 360 == 0
  {
    angle % 360
  }

  /** `calcDistance(double, double)`: the signed displacement from `a` to
      `b`, not its absolute value. */
  function CalcDistance(a: real, b: real): (d: real)
    ensures a + d == b
  {
    b - a
  }

  /** `calcDistance(int, int)`: the signed displacement in `int`
      arithmetic, which wraps at 32 bits. */
  function CalcDistanceInt(a: Int32, b: Int32): (d: Int32)
    ensures Wrap32(a + d) == b
  {
    Wrap32(b - a)
  }

  /** The squared Euclidean distance from the exact position to a cell. */
  function SquaredDistanceTo(m: Mover, targetX: Int32, targetY: Int32): (s: real)
    ensures s >= 0.0
  {
    var dx := CalcDistance(m.exactX, targetX as real);
    var dy := CalcDistance(m.exactY, targetY as real);
    dx * dx + dy * dy
  }

  /** `hasReachedDestination`: the distance `hypot(dx, dy)` is at most the
      tolerance. Since the distance is never negative, this is compared on
      squares, and a negative tolerance is never met. */
  function HasReachedDestination(m: Mover, targetX: Int32, targetY: Int32, tolerance: real): (reached: bool)
    ensures reached ==> tolerance >= 0.0
    ensures targetX as real == m.exactX && targetY as real == m.exactY ==>
      (reached <==> tolerance >= 0.0)
  {
    tolerance >= 0.0 && SquaredDistanceTo(m, targetX, targetY) <= tolerance * tolerance
  }
}
