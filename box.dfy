/**
  The immutable box value that the algorithms consume and produce: four
  `int` bounds with `minX <= maxX` and `minY <= maxY`, and the two pair
  types that the split algorithms return.
 */
module BoxValues {
  import opened JavaInt

  datatype Box = Box(minX: Int32, maxX: Int32, minY: Int32, maxY: Int32) {

    /** The invariant `Box.of` enforces. */
    predicate Valid() {
      minX <= maxX && minY <= maxY
    }

    /** `maximumX() - minimumX()`; zero-width boxes are legal. */
    function Width(): int {
      maxX - minX
    }

    function Height(): int {
      maxY - minY
    }
  }

  /** The boxes that `Box.of` can produce. */
  type ValidBox = b: Box | b.Valid() witness Box(0, 0, 0, 0)

  /** The result of `splitAlongHorizontal`: the top part and the bottom part. */
  datatype HorizontalSplit = HorizontalSplit(upper: ValidBox, lower: ValidBox)

  /** The result of `splitAlongVertical`: the left part and the right part. */
  datatype VerticalSplit = VerticalSplit(left: ValidBox, right: ValidBox)

  /**
    `Box.of(minX, maxX, minY, maxY)`: the box with exactly these bounds, or a
    require violation when either axis is inverted.
   */
  function Of(minX: Int32, maxX: Int32, minY: Int32, maxY: Int32): (r: Result<ValidBox>)
    ensures r.Ok? <==> minX <= maxX && minY <= maxY
    ensures r.Ok? ==> (r.value.minX == minX && r.value.maxX == maxX &&
                       r.value.minY == minY && r.value.maxY == maxY)
    ensures r.Err? ==> r.error == RequireViolation
  {
    if minX <= maxX && minY <= maxY then Ok(Box(minX, maxX, minY, maxY)) else Err(RequireViolation)
  }

  /** Rebuilding a box from its own bounds gives the same box. */
  lemma OfRoundTrip(b: ValidBox)
    ensures Of(b.minX, b.maxX, b.minY, b.maxY) == Ok(b)
  {
  }
}
