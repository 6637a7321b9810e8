/**
  The box algorithms of `Boxes`: construction, moves, alignment, insetting,
  resizing, scaling, splitting, the containment and overlap predicates, and
  the debug rendering. Every function returns a fresh box; an exception of
  the original is the `Err` case of the result.
 */
module Boxes {
  import opened JavaInt
  import opened BoxValues
  import Decimal

  /** `r` has the width and the height of `b`. */
  predicate SameSize(r: Box, b: Box) {
    r.Width() == b.Width() && r.Height() == b.Height()
  }

  /** `r` spans the same X range as `b`. */
  predicate SameX(r: Box, b: Box) {
    r.minX == b.minX && r.maxX == b.maxX
  }

  /** `r` spans the same Y range as `b`. */
  predicate SameY(r: Box, b: Box) {
    r.minY == b.minY && r.maxY == b.maxY
  }

  /**
    Where centring places the low edge of a box of size `innerSize` inside the
    interval starting at `outerMin` of size `outerSize`: the outer midpoint,
    rounded down, less half the inner size, rounded down.
   */
  function CenterStart(outerMin: int, outerSize: int, innerSize: int): int {
    outerMin + outerSize / 2 - innerSize / 2
  }

  /** `x` limited to the closed interval `[minimum, maximum]`. */
  function Clamp(x: Int32, minimum: Int32, maximum: Int32): (r: Int32)
    requires minimum <= maximum
    ensures minimum <= r <= maximum
    ensures minimum <= x <= maximum ==> r == x
    ensures x < minimum ==> r == minimum
    ensures x > maximum ==> r == maximum
  {
    Max(Min(x, maximum), minimum)
  }

  // ---------------------------------------------------------------------------
  // Construction and moves

  /** The box with top-left corner `(x, y)` and the given size. */
  function Create(x: Int32, y: Int32, width: int, height: int): (r: Result<ValidBox>)
    ensures r.Ok? <==> InRange(x + width) && InRange(y + height) && width >= 0 && height >= 0
    ensures r.Ok? ==> (r.value.minX == x && r.value.minY == y &&
                       r.value.Width() == width && r.value.Height() == height)
    ensures r.Err? ==> (r.error == ArithmeticOverflow <==> !InRange(x + width) || !InRange(y + height))
  {
    var xMax :- AddExact(x, width);
    var yMax :- AddExact(y, height);
    Of(x, xMax, y, yMax)
  }

  /** `box` translated by `(x, y)`. */
  function MoveRelative(box: ValidBox, x: Int32, y: Int32): (r: Result<ValidBox>)
    ensures r.Ok? <==> (InRange(box.minX + x) && InRange(box.maxX + x) &&
                        InRange(box.minY + y) && InRange(box.maxY + y))
    ensures r.Ok? ==> (r.value.minX == box.minX + x && r.value.maxX == box.maxX + x &&
                       r.value.minY == box.minY + y && r.value.maxY == box.maxY + y)
    ensures r.Ok? ==> SameSize(r.value, box)
    ensures r.Err? ==> r.error == ArithmeticOverflow
  {
    var xMin :- AddExact(box.minX, x);
    var xMax :- AddExact(box.maxX, x);
    var yMin :- AddExact(box.minY, y);
    var yMax :- AddExact(box.maxY, y);
    Of(xMin, xMax, yMin, yMax)
  }

  /** `box` moved so that its top-left corner is `(x, y)`. */
  function MoveAbsolute(box: ValidBox, x: Int32, y: Int32): (r: Result<ValidBox>)
    ensures r.Ok? <==> InRange(x + box.Width()) && InRange(y + box.Height())
    ensures r.Ok? ==> r.value.minX == x && r.value.minY == y && SameSize(r.value, box)
    ensures r.Err? ==> r.error == ArithmeticOverflow
  {
    Create(x, y, box.Width(), box.Height())
  }

  /** `box` moved so that its top-left corner is the origin. */
  function MoveToOrigin(box: ValidBox): (r: Result<ValidBox>)
    ensures r.Ok? <==> box.Width() <= IntMax && box.Height() <= IntMax
    ensures r.Ok? ==> r.value.minX == 0 && r.value.minY == 0 && SameSize(r.value, box)
    ensures r.Err? ==> r.error == ArithmeticOverflow
  {
    Create(0, 0, box.Width(), box.Height())
  }

  // ---------------------------------------------------------------------------
  // Alignment on one axis

  /** `inner` centred horizontally in `outer`, keeping its own Y range. */
  function AlignHorizontallyCenter(outer: ValidBox, inner: ValidBox): (r: Result<ValidBox>)
    ensures r.Ok? <==> (InRange(CenterStart(outer.minX, outer.Width(), inner.Width())) &&
                        InRange(CenterStart(outer.minX, outer.Width(), inner.Width()) + inner.Width()))
    ensures r.Ok? ==> SameSize(r.value, inner) && SameY(r.value, inner)
    ensures r.Ok? ==> ((outer.maxX - r.value.maxX) - (r.value.minX - outer.minX) ==
                       outer.Width() % 2 - inner.Width() % 2)
    ensures r.Ok? ==> Abs(Abs(outer.minX - r.value.minX) - Abs(outer.maxX - r.value.maxX)) <= 1
    ensures r.Err? ==> r.error == ArithmeticOverflow
  {
    var outerWidth := outer.Width();
    var innerWidth := inner.Width();
    // the midpoint lies within `outer`, so this addition cannot overflow
    var xm0 := AddExact(outer.minX, outerWidth / 2).Extract();
    var xm1 :- SubtractExact(xm0, innerWidth / 2);
    Create(xm1, inner.minY, innerWidth, inner.Height())
  }

  /** `inner` against the inside left edge of `outer`. */
  function AlignHorizontallyLeft(outer: ValidBox, inner: ValidBox): (r: Result<ValidBox>)
    ensures r.Ok? <==> InRange(outer.minX + inner.Width())
    ensures r.Ok? ==> r.value.minX == outer.minX && SameSize(r.value, inner) && SameY(r.value, inner)
    ensures r.Err? ==> r.error == ArithmeticOverflow
  {
    AlignHorizontallyLeftOffset(outer, inner, 0)
  }

  /** `inner` placed `offset` units right of the inside left edge of `outer`. */
  function AlignHorizontallyLeftOffset(outer: ValidBox, inner: ValidBox, offset: Int32): (r: Result<ValidBox>)
    ensures r.Ok? <==> InRange(outer.minX + offset) && InRange(outer.minX + offset + inner.Width())
    ensures r.Ok? ==> (r.value.minX == outer.minX + offset &&
                       SameSize(r.value, inner) && SameY(r.value, inner))
    ensures r.Err? ==> r.error == ArithmeticOverflow
  {
    var xMin :- AddExact(outer.minX, offset);
    var xMax :- AddExact(xMin, inner.Width());
    Of(xMin, xMax, inner.minY, inner.maxY)
  }

  /** `inner` against the inside right edge of `outer`. */
  function AlignHorizontallyRight(outer: ValidBox, inner: ValidBox): (r: Result<ValidBox>)
    ensures r.Ok? <==> InRange(outer.maxX - inner.Width())
    ensures r.Ok? ==> r.value.maxX == outer.maxX && SameSize(r.value, inner) && SameY(r.value, inner)
    ensures r.Err? ==> r.error == ArithmeticOverflow
  {
    AlignHorizontallyRightOffset(outer, inner, 0)
  }

  /** `inner` placed `offset` units left of the inside right edge of `outer`. */
  function AlignHorizontallyRightOffset(outer: ValidBox, inner: ValidBox, offset: Int32): (r: Result<ValidBox>)
    ensures r.Ok? <==> InRange(outer.maxX - offset) && InRange(outer.maxX - offset - inner.Width())
    ensures r.Ok? ==> (r.value.maxX == outer.maxX - offset &&
                       SameSize(r.value, inner) && SameY(r.value, inner))
    ensures r.Err? ==> r.error == ArithmeticOverflow
  {
    var xMax :- SubtractExact(outer.maxX, offset);
    var xMin :- SubtractExact(xMax, inner.Width());
    Of(xMin, xMax, inner.minY, inner.maxY)
  }

  /** `inner` against the inside top edge of `outer`. */
  function AlignVerticallyTop(outer: ValidBox, inner: ValidBox): (r: Result<ValidBox>)
    ensures r.Ok? <==> InRange(outer.minY + inner.Height())
    ensures r.Ok? ==> r.value.minY == outer.minY && SameSize(r.value, inner) && SameX(r.value, inner)
    ensures r.Err? ==> r.error == ArithmeticOverflow
  {
    AlignVerticallyTopOffset(outer, inner, 0)
  }

  /** `inner` placed `offset` units below the inside top edge of `outer`. */
  function AlignVerticallyTopOffset(outer: ValidBox, inner: ValidBox, offset: Int32): (r: Result<ValidBox>)
    ensures r.Ok? <==> InRange(outer.minY + offset) && InRange(outer.minY + offset + inner.Height())
    ensures r.Ok? ==> (r.value.minY == outer.minY + offset &&
                       SameSize(r.value, inner) && SameX(r.value, inner))
    ensures r.Err? ==> r.error == ArithmeticOverflow
  {
    var yMin :- AddExact(outer.minY, offset);
    var yMax :- AddExact(yMin, inner.Height());
    Of(inner.minX, inner.maxX, yMin, yMax)
  }

  /** `inner` against the inside bottom edge of `outer`. */
  function AlignVerticallyBottom(outer: ValidBox, inner: ValidBox): (r: Result<ValidBox>)
    ensures r.Ok? <==> InRange(outer.maxY - inner.Height())
    ensures r.Ok? ==> r.value.maxY == outer.maxY && SameSize(r.value, inner) && SameX(r.value, inner)
    ensures r.Err? ==> r.error == ArithmeticOverflow
  {
    AlignVerticallyBottomOffset(outer, inner, 0)
  }

  /** `inner` placed `offset` units above the inside bottom edge of `outer`. */
  function AlignVerticallyBottomOffset(outer: ValidBox, inner: ValidBox, offset: Int32): (r: Result<ValidBox>)
    ensures r.Ok? <==> InRange(outer.maxY - offset) && InRange(outer.maxY - offset - inner.Height())
    ensures r.Ok? ==> (r.value.maxY == outer.maxY - offset &&
                       SameSize(r.value, inner) && SameX(r.value, inner))
    ensures r.Err? ==> r.error == ArithmeticOverflow
  {
    var yMax :- SubtractExact(outer.maxY, offset);
    var yMin :- SubtractExact(yMax, inner.Height());
    Of(inner.minX, inner.maxX, yMin, yMax)
  }

  /** `inner` centred vertically in `outer`, keeping its own X range. */
  function AlignVerticallyCenter(outer: ValidBox, inner: ValidBox): (r: Result<ValidBox>)
    ensures r.Ok? <==> (InRange(CenterStart(outer.minY, outer.Height(), inner.Height())) &&
                        InRange(CenterStart(outer.minY, outer.Height(), inner.Height()) + inner.Height()))
    ensures r.Ok? ==> SameSize(r.value, inner) && SameX(r.value, inner)
    ensures r.Ok? ==> ((outer.maxY - r.value.maxY) - (r.value.minY - outer.minY) ==
                       outer.Height() % 2 - inner.Height() % 2)
    ensures r.Ok? ==> Abs(Abs(outer.minY - r.value.minY) - Abs(outer.maxY - r.value.maxY)) <= 1
    ensures r.Err? ==> r.error == ArithmeticOverflow
  {
    var outerHeight := outer.Height();
    var innerHeight := inner.Height();
    // the midpoint lies within `outer`, so this addition cannot overflow
    var ym0 := AddExact(outer.minY, outerHeight / 2).Extract();
    var ym1 :- SubtractExact(ym0, innerHeight / 2);
    Create(inner.minX, ym1, inner.Width(), innerHeight)
  }

  // ---------------------------------------------------------------------------
  // Alignment on both axes

  /** `inner` in the inside top-left corner of `outer`. */
  function AlignTopLeft(outer: ValidBox, inner: ValidBox): (r: Result<ValidBox>)
    ensures r.Ok? <==> InRange(outer.minX + inner.Width()) && InRange(outer.minY + inner.Height())
    ensures r.Ok? ==> r.value.minX == outer.minX && r.value.minY == outer.minY && SameSize(r.value, inner)
    ensures r.Err? ==> r.error == ArithmeticOverflow
  {
    AlignTopLeftOffset(outer, inner, 0, 0)
  }

  /** `inner` placed `offsetLeft` right of the left edge and `offsetTop` below the top edge of `outer`. */
  function AlignTopLeftOffset(outer: ValidBox, inner: ValidBox, offsetLeft: Int32, offsetTop: Int32): (r: Result<ValidBox>)
    ensures r.Ok? <==> (InRange(outer.minX + offsetLeft) && InRange(outer.minY + offsetTop) &&
                        InRange(outer.minY + offsetTop + inner.Height()) &&
                        InRange(outer.minX + offsetLeft + inner.Width()))
    ensures r.Ok? ==> (r.value.minX == outer.minX + offsetLeft && r.value.minY == outer.minY + offsetTop &&
                       SameSize(r.value, inner))
    ensures r.Err? ==> r.error == ArithmeticOverflow
  {
    var xMin :- AddExact(outer.minX, offsetLeft);
    var yMin :- AddExact(outer.minY, offsetTop);
    var yMax :- AddExact(yMin, inner.Height());
    var xMax :- AddExact(xMin, inner.Width());
    Of(xMin, xMax, yMin, yMax)
  }

  /** `inner` in the inside top-right corner of `outer`. */
  function AlignTopRight(outer: ValidBox, inner: ValidBox): (r: Result<ValidBox>)
    ensures r.Ok? <==> InRange(outer.maxX - inner.Width()) && InRange(outer.minY + inner.Height())
    ensures r.Ok? ==> r.value.maxX == outer.maxX && r.value.minY == outer.minY && SameSize(r.value, inner)
    ensures r.Err? ==> r.error == ArithmeticOverflow
  {
    AlignTopRightOffset(outer, inner, 0, 0)
  }

  /** `inner` placed `offsetRight` left of the right edge and `offsetTop` below the top edge of `outer`. */
  function AlignTopRightOffset(outer: ValidBox, inner: ValidBox, offsetRight: Int32, offsetTop: Int32): (r: Result<ValidBox>)
    ensures r.Ok? <==> (InRange(outer.maxX - offsetRight) && InRange(outer.minY + offsetTop) &&
                        InRange(outer.minY + offsetTop + inner.Height()) &&
                        InRange(outer.maxX - offsetRight - inner.Width()))
    ensures r.Ok? ==> (r.value.maxX == outer.maxX - offsetRight && r.value.minY == outer.minY + offsetTop &&
                       SameSize(r.value, inner))
    ensures r.Err? ==> r.error == ArithmeticOverflow
  {
    var xMax :- SubtractExact(outer.maxX, offsetRight);
    var yMin :- AddExact(outer.minY, offsetTop);
    var yMax :- AddExact(yMin, inner.Height());
    var xMin :- SubtractExact(xMax, inner.Width());
    Of(xMin, xMax, yMin, yMax)
  }

  /** `inner` in the inside bottom-left corner of `outer`. */
  function AlignBottomLeft(outer: ValidBox, inner: ValidBox): (r: Result<ValidBox>)
    ensures r.Ok? <==> InRange(outer.maxY - inner.Height()) && InRange(outer.minX + inner.Width())
    ensures r.Ok? ==> r.value.minX == outer.minX && r.value.maxY == outer.maxY && SameSize(r.value, inner)
    ensures r.Err? ==> r.error == ArithmeticOverflow
  {
    AlignBottomLeftOffset(outer, inner, 0, 0)
  }

  /** `inner` placed `offsetLeft` right of the left edge and `offsetBottom` above the bottom edge of `outer`. */
  function AlignBottomLeftOffset(outer: ValidBox, inner: ValidBox, offsetLeft: Int32, offsetBottom: Int32): (r: Result<ValidBox>)
    ensures r.Ok? <==> (InRange(outer.minX + offsetLeft) && InRange(outer.maxY - offsetBottom) &&
                        InRange(outer.maxY - offsetBottom - inner.Height()) &&
                        InRange(outer.minX + offsetLeft + inner.Width()))
    ensures r.Ok? ==> (r.value.minX == outer.minX + offsetLeft && r.value.maxY == outer.maxY - offsetBottom &&
                       SameSize(r.value, inner))
    ensures r.Err? ==> r.error == ArithmeticOverflow
  {
    var xMin :- AddExact(outer.minX, offsetLeft);
    var yMax :- SubtractExact(outer.maxY, offsetBottom);
    var yMin :- SubtractExact(yMax, inner.Height());
    var xMax :- AddExact(xMin, inner.Width());
    Of(xMin, xMax, yMin, yMax)
  }

  /** `inner` in the inside bottom-right corner of `outer`. */
  function AlignBottomRight(outer: ValidBox, inner: ValidBox): (r: Result<ValidBox>)
    ensures r.Ok? <==> InRange(outer.maxY - inner.Height()) && InRange(outer.maxX - inner.Width())
    ensures r.Ok? ==> r.value.maxX == outer.maxX && r.value.maxY == outer.maxY && SameSize(r.value, inner)
    ensures r.Err? ==> r.error == ArithmeticOverflow
  {
    AlignBottomRightOffset(outer, inner, 0, 0)
  }

  /** `inner` placed `offsetRight` left of the right edge and `offsetBottom` above the bottom edge of `outer`. */
  function AlignBottomRightOffset(outer: ValidBox, inner: ValidBox, offsetRight: Int32, offsetBottom: Int32): (r: Result<ValidBox>)
    ensures r.Ok? <==> (InRange(outer.maxX - offsetRight) && InRange(outer.maxY - offsetBottom) &&
                        InRange(outer.maxY - offsetBottom - inner.Height()) &&
                        InRange(outer.maxX - offsetRight - inner.Width()))
    ensures r.Ok? ==> (r.value.maxX == outer.maxX - offsetRight && r.value.maxY == outer.maxY - offsetBottom &&
                       SameSize(r.value, inner))
    ensures r.Err? ==> r.error == ArithmeticOverflow
  {
    var xMax :- SubtractExact(outer.maxX, offsetRight);
    var yMax :- SubtractExact(outer.maxY, offsetBottom);
    var yMin :- SubtractExact(yMax, inner.Height());
    var xMin :- SubtractExact(xMax, inner.Width());
    Of(xMin, xMax, yMin, yMax)
  }

  /** `inner` centred in `outer` on both axes: horizontally first, then vertically. */
  function AlignCenter(outer: ValidBox, inner: ValidBox): (r: Result<ValidBox>)
    ensures r.Ok? <==> (InRange(CenterStart(outer.minX, outer.Width(), inner.Width())) &&
                        InRange(CenterStart(outer.minX, outer.Width(), inner.Width()) + inner.Width()) &&
                        InRange(CenterStart(outer.minY, outer.Height(), inner.Height())) &&
                        InRange(CenterStart(outer.minY, outer.Height(), inner.Height()) + inner.Height()))
    ensures r.Ok? ==> SameSize(r.value, inner)
    ensures r.Ok? ==> ((outer.maxX - r.value.maxX) - (r.value.minX - outer.minX) ==
                       outer.Width() % 2 - inner.Width() % 2)
    ensures r.Ok? ==> ((outer.maxY - r.value.maxY) - (r.value.minY - outer.minY) ==
                       outer.Height() % 2 - inner.Height() % 2)
    ensures r.Err? ==> r.error == ArithmeticOverflow
  {
    var centered :- AlignHorizontallyCenter(outer, inner);
    AlignVerticallyCenter(outer, centered)
  }

  // ---------------------------------------------------------------------------
  // Insetting

  /**
    The box inside `outer` whose edges are the given non-negative distances
    from the corresponding edges of `outer`. Each inset edge is clamped to
    `outer`; when two opposite insets cross, the box collapses to zero size at
    the clamped low edge.
   */
  function HollowOut(outer: ValidBox, left: Int32, right: Int32, top: Int32, bottom: Int32): (r: Result<ValidBox>)
    ensures r.Ok? <==> (left >= 0 && right >= 0 && top >= 0 && bottom >= 0 &&
                        outer.minX + left <= IntMax && outer.maxX - right >= IntMin &&
                        outer.minY + top <= IntMax && outer.maxY - bottom >= IntMin)
    ensures r.Err? ==> (r.error == RequireViolation <==> left < 0 || right < 0 || top < 0 || bottom < 0)
    ensures r.Ok? ==> Contains(outer, r.value)
    ensures r.Ok? && left + right <= outer.Width() ==>
              r.value.minX == outer.minX + left && r.value.maxX == outer.maxX - right
    ensures r.Ok? && left + right >= outer.Width() ==>
              r.value.minX == Min(outer.minX + left, outer.maxX) && r.value.Width() == 0
    ensures r.Ok? && top + bottom <= outer.Height() ==>
              r.value.minY == outer.minY + top && r.value.maxY == outer.maxY - bottom
    ensures r.Ok? && top + bottom >= outer.Height() ==>
              r.value.minY == Min(outer.minY + top, outer.maxY) && r.value.Height() == 0
  {
    if left < 0 || right < 0 || top < 0 || bottom < 0 then
      Err(RequireViolation)
    else
      var xMinInset :- AddExact(outer.minX, left);
      var xMin := Clamp(xMinInset, outer.minX, outer.maxX);
      var xMaxInset :- SubtractExact(outer.maxX, right);
      var xMax := Clamp(xMaxInset, outer.minX, outer.maxX);
      var yMinInset :- AddExact(outer.minY, top);
      var yMin := Clamp(yMinInset, outer.minY, outer.maxY);
      var yMaxInset :- SubtractExact(outer.maxY, bottom);
      var yMax := Clamp(yMaxInset, outer.minY, outer.maxY);
      Of(xMin, Max(xMin, xMax), yMin, Max(yMin, yMax))
  }

  /** `HollowOut` with the same offset from all four edges. */
  function HollowOutEvenly(outer: ValidBox, offset: Int32): (r: Result<ValidBox>)
    ensures r.Ok? <==> (offset >= 0 &&
                        outer.minX + offset <= IntMax && outer.maxX - offset >= IntMin &&
                        outer.minY + offset <= IntMax && outer.maxY - offset >= IntMin)
    ensures r.Err? ==> (r.error == RequireViolation <==> offset < 0)
    ensures r.Ok? ==> Contains(outer, r.value)
    ensures r.Ok? && 2 * offset <= outer.Width() ==>
              r.value.minX == outer.minX + offset && r.value.maxX == outer.maxX - offset
    ensures r.Ok? && 2 * offset >= outer.Width() ==>
              r.value.minX == Min(outer.minX + offset, outer.maxX) && r.value.Width() == 0
    ensures r.Ok? && 2 * offset <= outer.Height() ==>
              r.value.minY == outer.minY + offset && r.value.maxY == outer.maxY - offset
    ensures r.Ok? && 2 * offset >= outer.Height() ==>
              r.value.minY == Min(outer.minY + offset, outer.maxY) && r.value.Height() == 0
  {
    HollowOut(outer, offset, offset, offset, offset)
  }

  // ---------------------------------------------------------------------------
  // Resizing: a box of the new size at `box`'s top-left corner, aligned
  // against `box` at the corner opposite to the one named (or the centre).

  /** `box` resized to `width` by `height` about its own centre. */
  function SetSizeFromCenter(box: ValidBox, width: Int32, height: Int32): (r: Result<ValidBox>)
    ensures r.Ok? <==> (width >= 0 && height >= 0 &&
                        InRange(box.minX + width) && InRange(box.minY + height) &&
                        InRange(CenterStart(box.minX, box.Width(), width)) &&
                        InRange(CenterStart(box.minX, box.Width(), width) + width) &&
                        InRange(CenterStart(box.minY, box.Height(), height)) &&
                        InRange(CenterStart(box.minY, box.Height(), height) + height))
    ensures r.Err? ==> (r.error == RequireViolation <==> width < 0 || height < 0)
    ensures r.Ok? ==> r.value.Width() == width && r.value.Height() == height
    ensures r.Ok? ==> ((box.maxX - r.value.maxX) - (r.value.minX - box.minX) ==
                       box.Width() % 2 - width % 2)
    ensures r.Ok? ==> ((box.maxY - r.value.maxY) - (r.value.minY - box.minY) ==
                       box.Height() % 2 - height % 2)
  {
    if width < 0 || height < 0 then
      Err(RequireViolation)
    else
      var xMax :- AddExact(box.minX, width);
      var yMax :- AddExact(box.minY, height);
      var sized := Of(box.minX, xMax, box.minY, yMax).Extract();
      AlignCenter(box, sized)
  }

  /** `box` resized to `width` by `height` by moving its top-left corner. */
  function SetSizeFromTopLeft(box: ValidBox, width: Int32, height: Int32): (r: Result<ValidBox>)
    ensures r.Ok? <==> (width >= 0 && height >= 0 &&
                        InRange(box.minX + width) && InRange(box.minY + height) &&
                        InRange(box.maxX - width) && InRange(box.maxY - height))
    ensures r.Err? ==> (r.error == RequireViolation <==> width < 0 || height < 0)
    ensures r.Ok? ==> r.value.Width() == width && r.value.Height() == height
    ensures r.Ok? ==> r.value.maxX == box.maxX && r.value.maxY == box.maxY
  {
    if width < 0 || height < 0 then
      Err(RequireViolation)
    else
      var xMax :- AddExact(box.minX, width);
      var yMax :- AddExact(box.minY, height);
      var sized := Of(box.minX, xMax, box.minY, yMax).Extract();
      AlignBottomRight(box, sized)
  }

  /** `box` resized to `width` by `height` by moving its top-right corner. */
  function SetSizeFromTopRight(box: ValidBox, width: Int32, height: Int32): (r: Result<ValidBox>)
    ensures r.Ok? <==> (width >= 0 && height >= 0 &&
                        InRange(box.minX + width) && InRange(box.minY + height) &&
                        InRange(box.maxY - height))
    ensures r.Err? ==> (r.error == RequireViolation <==> width < 0 || height < 0)
    ensures r.Ok? ==> r.value.Width() == width && r.value.Height() == height
    ensures r.Ok? ==> r.value.minX == box.minX && r.value.maxY == box.maxY
  {
    if width < 0 || height < 0 then
      Err(RequireViolation)
    else
      var xMax :- AddExact(box.minX, width);
      var yMax :- AddExact(box.minY, height);
      var sized := Of(box.minX, xMax, box.minY, yMax).Extract();
      AlignBottomLeft(box, sized)
  }

  /** `box` resized to `width` by `height` by moving its bottom-right corner. */
  function SetSizeFromBottomRight(box: ValidBox, width: Int32, height: Int32): (r: Result<ValidBox>)
    ensures r.Ok? <==> (width >= 0 && height >= 0 &&
                        InRange(box.minX + width) && InRange(box.minY + height))
    ensures r.Err? ==> (r.error == RequireViolation <==> width < 0 || height < 0)
    ensures r.Ok? ==> r.value.Width() == width && r.value.Height() == height
    ensures r.Ok? ==> r.value.minX == box.minX && r.value.minY == box.minY
  {
    if width < 0 || height < 0 then
      Err(RequireViolation)
    else
      var xMax :- AddExact(box.minX, width);
      var yMax :- AddExact(box.minY, height);
      var sized := Of(box.minX, xMax, box.minY, yMax).Extract();
      AlignTopLeft(box, sized)
  }

  /** `box` resized to `width` by `height` by moving its bottom-left corner. */
  function SetSizeFromBottomLeft(box: ValidBox, width: Int32, height: Int32): (r: Result<ValidBox>)
    ensures r.Ok? <==> (width >= 0 && height >= 0 &&
                        InRange(box.minX + width) && InRange(box.minY + height) &&
                        InRange(box.maxX - width))
    ensures r.Err? ==> (r.error == RequireViolation <==> width < 0 || height < 0)
    ensures r.Ok? ==> r.value.Width() == width && r.value.Height() == height
    ensures r.Ok? ==> r.value.maxX == box.maxX && r.value.minY == box.minY
  {
    if width < 0 || height < 0 then
      Err(RequireViolation)
    else
      var xMax :- AddExact(box.minX, width);
      var yMax :- AddExact(box.minY, height);
      var sized := Of(box.minX, xMax, box.minY, yMax).Extract();
      AlignTopRight(box, sized)
  }

  // ---------------------------------------------------------------------------
  // Scaling: add a signed amount to each size, clamp at zero, then resize.

  /** `box` grown by `(xDiff, yDiff)` (never below zero size) by moving its top-left corner. */
  function ScaleFromTopLeft(box: ValidBox, xDiff: Int32, yDiff: Int32): (r: Result<ValidBox>)
    ensures r.Ok? <==> (InRange(box.Width() + xDiff) && InRange(box.Height() + yDiff) &&
                        InRange(box.minX + Max(0, box.Width() + xDiff)) &&
                        InRange(box.minY + Max(0, box.Height() + yDiff)) &&
                        InRange(box.maxX - Max(0, box.Width() + xDiff)) &&
                        InRange(box.maxY - Max(0, box.Height() + yDiff)))
    ensures r.Ok? ==> (r.value.Width() == Max(0, box.Width() + xDiff) &&
                       r.value.Height() == Max(0, box.Height() + yDiff))
    ensures r.Ok? ==> r.value.maxX == box.maxX && r.value.maxY == box.maxY
    ensures r.Err? ==> r.error == ArithmeticOverflow
  {
    var width :- AddExact(box.Width(), xDiff);
    var height :- AddExact(box.Height(), yDiff);
    SetSizeFromTopLeft(box, Max(0, width), Max(0, height))
  }

  /** `box` grown by `(xDiff, yDiff)` (never below zero size) by moving its top-right corner. */
  function ScaleFromTopRight(box: ValidBox, xDiff: Int32, yDiff: Int32): (r: Result<ValidBox>)
    ensures r.Ok? <==> (InRange(box.Width() + xDiff) && InRange(box.Height() + yDiff) &&
                        InRange(box.minX + Max(0, box.Width() + xDiff)) &&
                        InRange(box.minY + Max(0, box.Height() + yDiff)) &&
                        InRange(box.maxY - Max(0, box.Height() + yDiff)))
    ensures r.Ok? ==> (r.value.Width() == Max(0, box.Width() + xDiff) &&
                       r.value.Height() == Max(0, box.Height() + yDiff))
    ensures r.Ok? ==> r.value.minX == box.minX && r.value.maxY == box.maxY
    ensures r.Err? ==> r.error == ArithmeticOverflow
  {
    var width :- AddExact(box.Width(), xDiff);
    var height :- AddExact(box.Height(), yDiff);
    SetSizeFromTopRight(box, Max(0, width), Max(0, height))
  }

  /** `box` grown by `(xDiff, yDiff)` (never below zero size) by moving its bottom-left corner. */
  function ScaleFromBottomLeft(box: ValidBox, xDiff: Int32, yDiff: Int32): (r: Result<ValidBox>)
    ensures r.Ok? <==> (InRange(box.Width() + xDiff) && InRange(box.Height() + yDiff) &&
                        InRange(box.minX + Max(0, box.Width() + xDiff)) &&
                        InRange(box.minY + Max(0, box.Height() + yDiff)) &&
                        InRange(box.maxX - Max(0, box.Width() + xDiff)))
    ensures r.Ok? ==> (r.value.Width() == Max(0, box.Width() + xDiff) &&
                       r.value.Height() == Max(0, box.Height() + yDiff))
    ensures r.Ok? ==> r.value.maxX == box.maxX && r.value.minY == box.minY
    ensures r.Err? ==> r.error == ArithmeticOverflow
  {
    var width :- AddExact(box.Width(), xDiff);
    var height :- AddExact(box.Height(), yDiff);
    SetSizeFromBottomLeft(box, Max(0, width), Max(0, height))
  }

  /** `box` grown by `(xDiff, yDiff)` (never below zero size) by moving its bottom-right corner. */
  function ScaleFromBottomRight(box: ValidBox, xDiff: Int32, yDiff: Int32): (r: Result<ValidBox>)
    ensures r.Ok? <==> (InRange(box.Width() + xDiff) && InRange(box.Height() + yDiff) &&
                        InRange(box.minX + Max(0, box.Width() + xDiff)) &&
                        InRange(box.minY + Max(0, box.Height() + yDiff)))
    ensures r.Ok? ==> (r.value.Width() == Max(0, box.Width() + xDiff) &&
                       r.value.Height() == Max(0, box.Height() + yDiff))
    ensures r.Ok? ==> r.value.minX == box.minX && r.value.minY == box.minY
    ensures r.Err? ==> r.error == ArithmeticOverflow
  {
    var width :- AddExact(box.Width(), xDiff);
    var height :- AddExact(box.Height(), yDiff);
    SetSizeFromBottomRight(box, Max(0, width), Max(0, height))
  }

  /** `box` grown by `(xDiff, yDiff)` (never below zero size) about its centre. */
  function ScaleFromCenter(box: ValidBox, xDiff: Int32, yDiff: Int32): (r: Result<ValidBox>)
    ensures r.Ok? ==> (r.value.Width() == Max(0, box.Width() + xDiff) &&
                       r.value.Height() == Max(0, box.Height() + yDiff))
    ensures r.Ok? ==> ((box.maxX - r.value.maxX) - (r.value.minX - box.minX) ==
                       box.Width() % 2 - r.value.Width() % 2)
    ensures r.Ok? ==> ((box.maxY - r.value.maxY) - (r.value.minY - box.minY) ==
                       box.Height() % 2 - r.value.Height() % 2)
    ensures !InRange(box.Width() + xDiff) || !InRange(box.Height() + yDiff) ==> r.Err?
    ensures r.Err? ==> r.error == ArithmeticOverflow
  {
    var width :- AddExact(box.Width(), xDiff);
    var height :- AddExact(box.Height(), yDiff);
    SetSizeFromCenter(box, Max(0, width), Max(0, height))
  }

  // ---------------------------------------------------------------------------
  // Predicates

  /**
    `overlaps(a, b)` as the code has it: `a` is rejected when its low edge is
    at or past `b`'s high edge, but only when its high edge is strictly before
    `b`'s low edge, so boxes that merely touch overlap in one order only.
   */
  predicate Overlaps(a: ValidBox, b: ValidBox) {
    if a.minX >= b.maxX || a.maxX < b.minX then false
    else if a.minY >= b.maxY || a.maxY < b.minY then false
    else true
  }

  /**
    Overlap of the half-open areas `[minX, maxX) x [minY, maxY)`, the
    symmetric relation the documentation of `overlaps` describes.
   */
  predicate OverlapsHalfOpen(a: ValidBox, b: ValidBox) {
    if a.minX >= b.maxX || a.maxX <= b.minX then false
    else if a.minY >= b.maxY || a.maxY <= b.minY then false
    else true
  }

  /** `a` is no wider and no taller than `b`, wherever the two are. */
  predicate CouldFitInside(a: ValidBox, b: ValidBox) {
    a.Width() <= b.Width() && a.Height() <= b.Height()
  }

  /** The closed bounds of `b` lie within the closed bounds of `a`. */
  predicate Contains(a: Box, b: Box) {
    (b.minX >= a.minX && b.maxX <= a.maxX) && (b.minY >= a.minY && b.maxY <= a.maxY)
  }

  /** The point `(x, y)` lies in the half-open area `[minX, maxX) x [minY, maxY)` of `a`. */
  predicate ContainsPoint(a: ValidBox, x: int, y: int) {
    (x >= a.minX && x < a.maxX) && (y >= a.minY && y < a.maxY)
  }

  // ---------------------------------------------------------------------------
  // Combining boxes

  /** The smallest box that contains both `a` and `b`. */
  function Containing(a: ValidBox, b: ValidBox): (r: ValidBox)
    ensures Contains(r, a) && Contains(r, b)
    ensures forall c: Box :: Contains(c, a) && Contains(c, b) ==> Contains(c, r)
  {
    Box(Min(a.minX, b.minX), Max(a.maxX, b.maxX), Min(a.minY, b.minY), Max(a.maxY, b.maxY))
  }

  /**
    `fit`'s Y range with an X range between the facing edges of `a` and `b`:
    the gap between them when they are apart, their common part when they meet.
   */
  function FitBetweenHorizontal(fit: ValidBox, a: ValidBox, b: ValidBox): (r: ValidBox)
    ensures SameY(r, fit)
    ensures Min(a.minX, b.minX) <= r.minX && r.maxX <= Max(a.maxX, b.maxX)
    ensures a.maxX <= b.minX ==> r.minX == a.maxX && r.maxX == b.minX
    ensures b.maxX <= a.minX ==> r.minX == b.maxX && r.maxX == a.minX
    ensures Max(a.minX, b.minX) <= Min(a.maxX, b.maxX) ==>
              r.minX == Max(a.minX, b.minX) && r.maxX == Min(a.maxX, b.maxX)
  {
    var xMin := Min(a.maxX, b.maxX);
    var xMax := Max(a.minX, b.minX);
    Box(Min(xMin, xMax), Max(xMin, xMax), fit.minY, fit.maxY)
  }

  /**
    `fit`'s X range with a Y range between the facing edges of `a` and `b`:
    the gap between them when they are apart, their common part when they meet.
   */
  function FitBetweenVertical(fit: ValidBox, a: ValidBox, b: ValidBox): (r: ValidBox)
    ensures SameX(r, fit)
    ensures Min(a.minY, b.minY) <= r.minY && r.maxY <= Max(a.maxY, b.maxY)
    ensures a.maxY <= b.minY ==> r.minY == a.maxY && r.maxY == b.minY
    ensures b.maxY <= a.minY ==> r.minY == b.maxY && r.maxY == a.minY
    ensures Max(a.minY, b.minY) <= Min(a.maxY, b.maxY) ==>
              r.minY == Max(a.minY, b.minY) && r.maxY == Min(a.maxY, b.maxY)
  {
    var yMin := Min(a.maxY, b.maxY);
    var yMax := Max(a.minY, b.minY);
    Box(fit.minX, fit.maxX, Min(yMin, yMax), Max(yMin, yMax))
  }

  // ---------------------------------------------------------------------------
  // Splitting

  /**
    `box` cut by a horizontal line `height` units below its top edge (at its
    bottom edge when `height` exceeds the box): the part above is `upper`,
    the part below is `lower`. A negative `height` fails.
   */
  function SplitAlongHorizontal(box: ValidBox, height: Int32): (r: Result<HorizontalSplit>)
    ensures r.Ok? <==> height >= 0
    ensures r.Err? ==> r.error == (if InRange(box.minY + height) then RequireViolation else ArithmeticOverflow)
    ensures r.Ok? ==> r.value.upper.Height() == Min(box.Height(), height)
    ensures r.Ok? ==> r.value.upper.Height() + r.value.lower.Height() == box.Height()
    ensures r.Ok? ==> SameX(r.value.upper, box) && SameX(r.value.lower, box)
    ensures r.Ok? ==> (r.value.upper.minY == box.minY && r.value.upper.maxY == r.value.lower.minY &&
                       r.value.lower.maxY == box.maxY)
  {
    var clampedHeight := Min(box.Height(), height);
    var upperYMax :- AddExact(box.minY, clampedHeight);
    var lower := Of(box.minX, box.maxX, upperYMax, box.maxY).Extract();
    var upper :- Of(box.minX, box.maxX, box.minY, upperYMax);
    Ok(HorizontalSplit(upper, lower))
  }

  /**
    `box` cut by a vertical line `width` units right of its left edge (at its
    right edge when `width` exceeds the box): the part to the left is `left`,
    the part to the right is `right`. A negative `width` fails.
   */
  function SplitAlongVertical(box: ValidBox, width: Int32): (r: Result<VerticalSplit>)
    ensures r.Ok? <==> width >= 0
    ensures r.Err? ==> r.error == (if InRange(box.minX + width) then RequireViolation else ArithmeticOverflow)
    ensures r.Ok? ==> r.value.left.Width() == Min(box.Width(), width)
    ensures r.Ok? ==> r.value.left.Width() + r.value.right.Width() == box.Width()
    ensures r.Ok? ==> SameY(r.value.left, box) && SameY(r.value.right, box)
    ensures r.Ok? ==> (r.value.left.minX == box.minX && r.value.left.maxX == r.value.right.minX &&
                       r.value.right.maxX == box.maxX)
  {
    var clampedWidth := Min(box.Width(), width);
    var leftXMax :- AddExact(box.minX, clampedWidth);
    var left :- Of(box.minX, leftXMax, box.minY, box.maxY);
    var right := Of(leftXMax, box.maxX, box.minY, box.maxY).Extract();
    Ok(VerticalSplit(left, right))
  }

  // ---------------------------------------------------------------------------
  // Rendering

  /**
    `showToBuilder`: appends `"{width}x{height} {minX}+{minY}"` to what the
    builder `sb` already holds and returns the builder's whole text.
   */
  function ShowToBuilder(box: ValidBox, sb: string): (r: string)
    ensures |r| > |sb| && r[..|sb|] == sb
  {
    sb + Decimal.IntToString(box.Width()) + "x" + Decimal.IntToString(box.Height()) +
    " " + Decimal.IntToString(box.minX) + "+" + Decimal.IntToString(box.minY)
  }

  /** `show`: the rendering of `box` on its own, as appended to any builder. */
  function Show(box: ValidBox): (s: string)
    ensures forall sb :: ShowToBuilder(box, sb) == sb + s
  {
    ShowToBuilder(box, "")
  }
}
