/**
 * Board coordinates. The source keeps locations in pygame `Vector2`
 * (floats); here they are integer pairs, in the same scaled units
 * (a cell is CELL_SIZE_X by CELL_SIZE_Y).
 */
module Geometry {

  datatype Vec = Vec(x: int, y: int) {
    /** Component-wise sum, the `location + direction` of the source. */
    function Plus(d: Vec): Vec {
      Vec(x + d.x, y + d.y)
    }
  }

  /** The "no input" direction, `Vector2(0, 0)`. */
  const Zero: Vec := Vec(0, 0)

  /** `k` steps of `d`. */
  function Scale(d: Vec, k: int): Vec {
    Vec(d.x * k, d.y * k)
  }

  lemma ScaleStep(p: Vec, d: Vec, k: int)
    ensures p.Plus(Scale(d, k)).Plus(d) == p.Plus(Scale(d, k + 1))
  {
  }

  /** Walking a non-zero direction never comes back to a cell already visited. */
  lemma ScaleInjective(d: Vec, i: int, j: int)
    requires d != Zero && i != j
    ensures Scale(d, i) != Scale(d, j)
  {
  }
}
