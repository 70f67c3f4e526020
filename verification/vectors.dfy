/**
 The movement vector a mover owns, reduced to its two components. Only the
 operations the mover's own code relies on are kept: reversing one axis and
 resetting to the neutral (zero) vector.
 */
module Vectors {

  datatype Vector = Vector(x: real, y: real) {

    /** `revertHorizontal`: negate the horizontal component only. */
    function RevertHorizontal(): Vector {
      Vector(-x, y)
    }

    /** `revertVertical`: negate the vertical component only. */
    function RevertVertical(): Vector {
      Vector(x, -y)
    }
  }

  /** `setNeutral` (and a length of zero): no motion. */
  const Neutral: Vector := Vector(0.0, 0.0)
}
