# Smooth mover: sub-pixel movement of a Greenfoot actor

`SmoothMover` is an actor that keeps an exact, fractional position (`exactX`,
`exactY`) beside the integer cell its host actor is drawn at. Slow and
fractional speeds then build up without loss. Once the actor is in a world,
every position write goes through `setLocation(double, double)`; entering the
world (`addedToWorld`) seeds the exact position from the host cell directly. That method stores the exact position
and hands the host Java's `(int)` cast of each coordinate, which truncates
toward zero. `move(steps)` adds `steps` times the movement vector to the
exact position. It drops each axis separately when its candidate would leave
`[0, width)` or `[0, height)`. `moveInUnBoundedWorld(steps)` always commits
the candidate. The edge policies read the host cell, always checking X before
Y:

- `atWorldEdge` tests whether the cell is at an edge.
- `bounceAtEdge` reverses one component of the movement.
- `bounceHorizontal` and `bounceVertical` reverse one component
  unconditionally.
- `stopAtWorldEdge` zeroes the speed and pulls one coordinate one cell inside
  the border.

Three small helpers are modelled too: the angle normalisation of
`setDirection`, the signed `calcDistance`, and the tolerance test
`hasReachedDestination`.

The model is functional. A `Mover` record holds the exact position, the host
cell and the movement vector. Each operation is a pure function from a mover,
and where needed a `World(width, height)`, to the next mover.

- `java_num.dfy` (module `JavaNum`) covers Java's `int`. It defines
  truncation toward zero and the saturating `(int)` cast of a double (section
  5.1.3 of the Java Language Specification). It also defines the 32-bit
  wrap-around of `int` subtraction.
- `vectors.dfy` (module `Vectors`) reduces the movement vector to its
  components `(x, y)`. It keeps the axis reversals and the neutral vector.
- `smooth_mover.dfy` (module `SmoothMover`) holds the state record and every
  modelled operation of the class.
- `mover_properties.dfy` (module `MoverProperties`) holds lemmas that relate
  the operations:
  - the projection invariant over any run of calls, and the
    stay-inside-the-world invariant over any run of move, bounce and stop
    calls in a world at least 2 x 2;
  - bounded against unbounded stepping;
  - round trips and composition of unbounded steps;
  - repeated bounces and stops;
  - angle normalisation against the true modulo;
  - the tolerance test against the true Euclidean distance.

Three behaviours of the code that are easy to misread:

- `atWorldEdge` (and the bounces and stops) test `<= 0` and `>= width - 1`,
  so any cell at or beyond a border counts as an edge, not only the border
  cells themselves.
- `setDirection` adjusts the angle by a single step of 360, so angles more
  than one period out of range are not brought into `[0, 359]`. The gap is
  recorded under Findings.
- The `(int)` cast of the projection saturates at the `int` bounds; it is
  truncation toward zero only for coordinates that fit in an `int`.

## Model

| member | source | states |
|---|---|---|
| `JavaNum.Trunc` | semi-endless-world-test/SmoothMover.java:78 | the cast's rounding is toward zero: for `x >= 0` the result is the largest integer not above `x`, for `x < 0` the smallest not below it |
| `JavaNum.DoubleToInt` | semi-endless-world-test/SmoothMover.java:78 | `(int) x` is the truncation of `x` whenever that fits in `int`, and saturates at `MaxInt`/`MinInt` beyond |
| `JavaNum.IntRoundTrip` | semi-endless-world-test/SmoothMover.java:81-83 | widening an `int` to a double and casting back gives the same `int` |
| `JavaNum.CastInside` | semi-endless-world-test/SmoothMover.java:78 | an exact coordinate in `[0, limit)` casts to a cell in `[0, limit - 1]` lying at most one below it |
| `JavaNum.Wrap32` | semi-endless-world-test/SmoothMover.java:209-211 | `int` arithmetic results are congruent modulo 2^32 to the exact result and equal to it when it fits |
| `SmoothMover.New` | semi-endless-world-test/SmoothMover.java:19-29 | a new mover starts at exact position (0.0, 0.0) on host cell (0, 0), carries the given movement, and its cell is the cast of its exact position |
| `SmoothMover.AddedToWorld` | semi-endless-world-test/SmoothMover.java:38-42 | entering a world seeds the exact position from the host cell; movement is untouched and the projection holds afterwards |
| `SmoothMover.SetLocation` | semi-endless-world-test/SmoothMover.java:75-79 | the exact position becomes exactly `(x, y)`, the cell becomes `(trunc x, trunc y)` for in-range coordinates and the saturating `(int)` cast of `(x, y)` always, the movement is unchanged |
| `SmoothMover.Snap` | semi-endless-world-test/SmoothMover.java:145 | the re-commit `setLocation((double) getX(), (double) getY())`: the exact position becomes the host cell, the cell and the movement are unchanged |
| `SmoothMover.SetLocationInt` | semi-endless-world-test/SmoothMover.java:81-83 | the integer overload is the real one on widened arguments, and the host lands exactly on the requested cell |
| `SmoothMover.Move` | semi-endless-world-test/SmoothMover.java:47-58 | each exact coordinate becomes its candidate `pos + speed * steps` when that lies in `[0, size)` and otherwise stays; the movement is never modified; the cell is the projection |
| `SmoothMover.MoveOnce` | semi-endless-world-test/SmoothMover.java:34-36 | each exact coordinate becomes `pos + speed` when that lies in `[0, size)` and otherwise stays; the movement is unchanged; the cell is the projection |
| `SmoothMover.MoveInUnboundedWorld` | semi-endless-world-test/SmoothMover.java:69-73 | the exact position always advances by `movement * steps` on both axes, whatever the world; the movement is unchanged |
| `SmoothMover.AtWorldEdge` | semi-endless-world-test/SmoothMover.java:130-138 | not at an edge exactly when the cell lies in `[1, width - 2] x [1, height - 2]` |
| `SmoothMover.BounceHorizontal` | semi-endless-world-test/SmoothMover.java:224-227 | unconditionally negates only the horizontal component and snaps the exact position to the cell |
| `SmoothMover.BounceVertical` | semi-endless-world-test/SmoothMover.java:216-219 | unconditionally negates only the vertical component and snaps the exact position to the cell |
| `SmoothMover.BounceAtEdge` | semi-endless-world-test/SmoothMover.java:143-151 | an X edge, corners included, negates only `vx`; otherwise a Y edge negates only `vy`; both snap the exact position to the cell; away from the edges the mover is unchanged |
| `SmoothMover.Stop` | semi-endless-world-test/SmoothMover.java:176-178 | the movement becomes neutral and neither position changes |
| `SmoothMover.StopAtWorldEdge` | semi-endless-world-test/SmoothMover.java:156-169 | at an edge the movement becomes zero and exactly one exact coordinate is set, with priority left `x := 1`, right `x := width - 2`, top `y := 1`, bottom `y := height - 2`; the other coordinate is kept and the cell is the projection; away from the edges the mover is unchanged |
| `SmoothMover.SetDirectionAngle` | semi-endless-world-test/SmoothMover.java:187-194 | a single step of 360: an input above 359 is forwarded minus 360, an input below 0 plus 360, an input in `[0, 359]` unchanged; hence the result lies in `[0, 359]` for inputs in `[-360, 719]` and is always congruent to the input modulo 360 |
| `SmoothMover.NormalizedAngle` | semi-endless-world-test/SmoothMover.java:180-186 | the documented normalisation: every `int` angle maps into `[0, 359]`, congruent modulo 360 |
| `SmoothMover.CalcDistance` | semi-endless-world-test/SmoothMover.java:200-202 | the result is the signed displacement: `a + d == b` |
| `SmoothMover.CalcDistanceInt` | semi-endless-world-test/SmoothMover.java:209-211 | the `int` displacement satisfies `a + d == b` in 32-bit wrap-around arithmetic |
| `SmoothMover.SquaredDistanceTo` | semi-endless-world-test/SmoothMover.java:244-246 | the squared distance from the exact position to the target cell is never negative |
| `SmoothMover.HasReachedDestination` | semi-endless-world-test/SmoothMover.java:243-251 | a negative tolerance is never reached; standing on the target, any non-negative tolerance is |
| `MoverProperties.MoveKeepsInside` | semi-endless-world-test/SmoothMover.java:49-57 | a mover inside `[0, width) x [0, height)` stays inside after `move`, and its cell stays in `[0, width - 1] x [0, height - 1]` |
| `MoverProperties.MoveAxesIndependent` | semi-endless-world-test/SmoothMover.java:49-56 | the X outcome of `move` depends only on the exact X, the horizontal speed and the width, and likewise for Y |
| `MoverProperties.MoveAgreesWithUnboundedIff` | semi-endless-world-test/SmoothMover.java:49-58 | per axis, `move` lands where the unbounded step does if and only if the candidate is inside the world or the axis does not move |
| `MoverProperties.MoveInsideIsUnbounded` | semi-endless-world-test/SmoothMover.java:47-73 | when the unbounded step stays inside the world, `move` and `moveInUnBoundedWorld` give the same mover |
| `MoverProperties.MoveRejectsAtRightBorder` | semi-endless-world-test/SmoothMover.java:51-53 | in a 100 x 100 world, (99.5, 50.0) moving (1, 0) stays at (99.5, 50.0), cell (99, 50) |
| `MoverProperties.UnboundedRoundTrip` | semi-endless-world-test/SmoothMover.java:69-73 | `steps` forward then `steps` back in an unbounded world returns to the exact position, and to the same mover when it was projected |
| `MoverProperties.CandidateStepsAdd` | semi-endless-world-test/SmoothMover.java:49-50 | the candidate of `b` steps from the candidate of `a` steps is the candidate of `a + b` steps |
| `MoverProperties.UnboundedStepsAdd` | semi-endless-world-test/SmoothMover.java:69-73 | `a` unbounded steps then `b` is the same mover as `a + b` steps |
| `MoverProperties.BounceAtEdgeDelegates` | semi-endless-world-test/SmoothMover.java:143-151 | `bounceAtEdge` is `bounceHorizontal` on an X edge and `bounceVertical` on a Y-only edge; at an edge means an X or a Y edge |
| `MoverProperties.BounceChangesOneAxis` | semi-endless-world-test/SmoothMover.java:143-151 | a bounce leaves at least one component of the movement unchanged |
| `MoverProperties.BounceAtEdgeTwice` | semi-endless-world-test/SmoothMover.java:143-151 | bouncing twice restores the movement, keeps the cell, and leaves the exact position at the snapped cell |
| `MoverProperties.BounceHorizontalTwice` | semi-endless-world-test/SmoothMover.java:224-227 | two horizontal bounces restore the movement |
| `MoverProperties.BounceVerticalTwice` | semi-endless-world-test/SmoothMover.java:216-219 | two vertical bounces restore the movement |
| `MoverProperties.StopAtWorldEdgeMovesOneAxis` | semi-endless-world-test/SmoothMover.java:156-169 | on a projected mover, one axis keeps both its exact value and its cell |
| `MoverProperties.StopTwiceLeavesEdge` | semi-endless-world-test/SmoothMover.java:156-169 | in a world at least 3 x 3, two calls bring a projected mover off every edge |
| `MoverProperties.StopAtLeftBorderExample` | semi-endless-world-test/SmoothMover.java:159-160 | in a 50 x 50 world, a mover on cell X 0 moving left gets exact X 1.0, cell X 1, zero movement and its exact Y kept |
| `MoverProperties.ApplyKeepsProjected` | semi-endless-world-test/SmoothMover.java:75-79 | every call keeps the host cell equal to the cast of the exact position |
| `MoverProperties.RunKeepsProjected` | semi-endless-world-test/SmoothMover.java:75-79 | after any sequence of calls the host cell is the cast of the exact position |
| `MoverProperties.ApplyKeepsInside` | semi-endless-world-test/SmoothMover.java:143-169 | `move`, the bounces and the stops keep a projected mover inside a world at least 2 x 2 |
| `MoverProperties.BoundedRunStaysInside` | semi-endless-world-test/SmoothMover.java:47-58 | started projected and inside a world at least 2 x 2, any sequence of move, bounce and stop calls keeps the mover inside the world and its cell on the grid |
| `MoverProperties.SetDirectionAngleCorrectIff` | semi-endless-world-test/SmoothMover.java:187-194 | the one-step normalisation equals the true one if and only if the input is in `[-360, 719]` |
| `MoverProperties.SetDirectionAngleMissesTwoPeriods` | semi-endless-world-test/SmoothMover.java:188-191 | `setDirection(720)` forwards 360 and `setDirection(-361)` forwards -1, where the documented range needs 0 and 359 |
| `MoverProperties.CalcDistanceAntisymmetric` | semi-endless-world-test/SmoothMover.java:200-202 | swapping the arguments negates the displacement; `calcDistance(5.0, 3.0) == -2.0` |
| `MoverProperties.CalcDistanceIntWraps` | semi-endless-world-test/SmoothMover.java:209-211 | the `int` displacement is `b - a` when it fits and is off by 2^32 when it overflows |
| `MoverProperties.SquareMonotone` | semi-endless-world-test/SmoothMover.java:246-247 | for non-negative values, comparing the values is the same as comparing their squares |
| `MoverProperties.ReachedIffWithinTolerance` | semi-endless-world-test/SmoothMover.java:243-251 | for the true Euclidean distance `d` (`d >= 0` and `d * d == (targetX - exactX)^2 + (targetY - exactY)^2`), the destination is reached if and only if `d <= tolerance` |
| `MoverProperties.ReachedMonotoneInTolerance` | semi-endless-world-test/SmoothMover.java:246-248 | a destination reached within a tolerance is reached within any larger tolerance |
| `MoverProperties.ReachedExample` | semi-endless-world-test/SmoothMover.java:243-251 | from (10, 10) to (13, 14) the destination is reached with tolerance 5.0 (inclusive) and not with 4.9 |

## Left out

- The Greenfoot host (`Actor`, `World`, `getWorld()`, `getX`/`getY`, `super.setLocation`) is not part of this model. The host cell is the `intX`/`intY` fields, and the world is its width and height, both positive `int`s. The host library's own clamping of a placement in a bounded world is not shown, so it is not modelled: the host cell is taken to be what `setLocation` passes.
- Calling a world-relative operation before the actor is in a world fails in the source. The model always has a world parameter, so that error is not represented.
- The `Vector` class is not part of this model beyond its components, the axis reversals and the neutral value. Its internal representation, `getLength`, `setLength`, `scale`, `add` and its trigonometric `setDirection` are left out.
- Because the vector's length is left out, `accelerate` (scale, then the 0.15 dead zone on the length), `getSpeed`, `setSpeed` and `addForce` are not modelled. `setSpeed(0.0)` inside `stopAtWorldEdge` is modelled as the neutral vector.
- `setDirection` is modelled only as the angle it forwards (`SmoothMover.SetDirectionAngle`), because the vector's direction is not modelled.
- `getMovement` returns a shared mutable reference. That aliasing is not modelled: the record owns its movement by value. `getExactX`/`getExactY` are the record's fields.
- Doubles are modelled as exact reals, with no IEEE-754 rounding of `pos + speed * steps`, no NaN and no infinities.
- `Math.hypot` is not modelled directly. `SmoothMover.HasReachedDestination` compares squared distances with a non-negativity guard on the tolerance. `MoverProperties.ReachedIffWithinTolerance` proves this equals comparing the true distance with the tolerance.

## Findings

| source | as written | input that shows it | evidently intended | confidence | as-written member | corrected member |
|---|---|---|---|---|---|---|
| semi-endless-world-test/SmoothMover.java:187-194 | one step of plus or minus 360 | `setDirection(720)` forwards 360; `setDirection(-361)` forwards -1 | the documentation promises every angle is brought into `[0, 359]` | medium, not executed | `SmoothMover.SetDirectionAngle` (`MoverProperties.SetDirectionAngleMissesTwoPeriods`) | `SmoothMover.NormalizedAngle` (`MoverProperties.SetDirectionAngleCorrectIff`) |

The vector's direction is outside the model, so no other part of the model
consumes the forwarded angle. `SmoothMover.NormalizedAngle` is proved to
stay in `[0, 359]` for every `int` input. `MoverProperties.SetDirectionAngleCorrectIff`
proves it agrees with the code exactly on `[-360, 719]`.
