/**
  Laws relating the box algorithms to each other: inverses, identities,
  idempotence, containment of results, the split partition, the overlap
  relation and the injectivity of the rendering, together with the concrete
  scenarios the original's tests check.
 */
module BoxesLaws {
  import opened JavaInt
  import opened BoxValues
  import opened Boxes
  import Decimal

  // ---------------------------------------------------------------------------
  // Construction and moves

  /** A box is rebuilt exactly from its top-left corner and its size. */
  lemma CreateRoundTrip(b: ValidBox)
    ensures Create(b.minX, b.minY, b.Width(), b.Height()) == Ok(b)
  {
  }

  /** Moving by `(x, y)` and then by `(-x, -y)` gives back the original box. */
  lemma MoveRelativeInverse(b: ValidBox, x: Int32, y: Int32)
    requires x != IntMin && y != IntMin
    requires MoveRelative(b, x, y).Ok?
    ensures MoveRelative(MoveRelative(b, x, y).value, -x, -y) == Ok(b)
  {
  }

  /** Moving a box away and then back to its own corner gives back the box. */
  lemma MoveAbsoluteInverse(b: ValidBox, x: Int32, y: Int32)
    requires MoveAbsolute(b, x, y).Ok?
    ensures MoveAbsolute(MoveAbsolute(b, x, y).value, b.minX, b.minY) == Ok(b)
  {
  }

  /** Moving to the origin is moving to `(0, 0)`, and it keeps the size. */
  lemma MoveToOriginIsMoveAbsolute(b: ValidBox)
    ensures MoveToOrigin(b) == MoveAbsolute(b, 0, 0)
  {
  }

  // ---------------------------------------------------------------------------
  // Alignment

  /** Each no-offset alignment is its offset variant with zero offsets. */
  lemma NoOffsetAlignmentsAreZeroOffset(outer: ValidBox, inner: ValidBox)
    ensures AlignHorizontallyLeft(outer, inner) == AlignHorizontallyLeftOffset(outer, inner, 0)
    ensures AlignHorizontallyRight(outer, inner) == AlignHorizontallyRightOffset(outer, inner, 0)
    ensures AlignVerticallyTop(outer, inner) == AlignVerticallyTopOffset(outer, inner, 0)
    ensures AlignVerticallyBottom(outer, inner) == AlignVerticallyBottomOffset(outer, inner, 0)
    ensures AlignTopLeft(outer, inner) == AlignTopLeftOffset(outer, inner, 0, 0)
    ensures AlignTopRight(outer, inner) == AlignTopRightOffset(outer, inner, 0, 0)
    ensures AlignBottomLeft(outer, inner) == AlignBottomLeftOffset(outer, inner, 0, 0)
    ensures AlignBottomRight(outer, inner) == AlignBottomRightOffset(outer, inner, 0, 0)
  {
  }

  /**
    A corner alignment acts on each axis as the matching edge alignment: the
    top-left corner is the left edge's X range with the top edge's Y range,
    and likewise for the other three corners.
   */
  lemma CornerIsEdgeOnEachAxis(outer: ValidBox, inner: ValidBox, offsetX: Int32, offsetY: Int32)
    ensures AlignTopLeftOffset(outer, inner, offsetX, offsetY).Ok? ==>
              AlignHorizontallyLeftOffset(outer, inner, offsetX).Ok? &&
              AlignVerticallyTopOffset(outer, inner, offsetY).Ok? &&
              SameX(AlignTopLeftOffset(outer, inner, offsetX, offsetY).value,
                    AlignHorizontallyLeftOffset(outer, inner, offsetX).value) &&
              SameY(AlignTopLeftOffset(outer, inner, offsetX, offsetY).value,
                    AlignVerticallyTopOffset(outer, inner, offsetY).value)
    ensures AlignTopRightOffset(outer, inner, offsetX, offsetY).Ok? ==>
              AlignHorizontallyRightOffset(outer, inner, offsetX).Ok? &&
              AlignVerticallyTopOffset(outer, inner, offsetY).Ok? &&
              SameX(AlignTopRightOffset(outer, inner, offsetX, offsetY).value,
                    AlignHorizontallyRightOffset(outer, inner, offsetX).value) &&
              SameY(AlignTopRightOffset(outer, inner, offsetX, offsetY).value,
                    AlignVerticallyTopOffset(outer, inner, offsetY).value)
    ensures AlignBottomLeftOffset(outer, inner, offsetX, offsetY).Ok? ==>
              AlignHorizontallyLeftOffset(outer, inner, offsetX).Ok? &&
              AlignVerticallyBottomOffset(outer, inner, offsetY).Ok? &&
              SameX(AlignBottomLeftOffset(outer, inner, offsetX, offsetY).value,
                    AlignHorizontallyLeftOffset(outer, inner, offsetX).value) &&
              SameY(AlignBottomLeftOffset(outer, inner, offsetX, offsetY).value,
                    AlignVerticallyBottomOffset(outer, inner, offsetY).value)
    ensures AlignBottomRightOffset(outer, inner, offsetX, offsetY).Ok? ==>
              AlignHorizontallyRightOffset(outer, inner, offsetX).Ok? &&
              AlignVerticallyBottomOffset(outer, inner, offsetY).Ok? &&
              SameX(AlignBottomRightOffset(outer, inner, offsetX, offsetY).value,
                    AlignHorizontallyRightOffset(outer, inner, offsetX).value) &&
              SameY(AlignBottomRightOffset(outer, inner, offsetX, offsetY).value,
                    AlignVerticallyBottomOffset(outer, inner, offsetY).value)
  {
  }

  /** Centring an already centred box leaves it where it is. */
  lemma AlignCenterIdempotent(outer: ValidBox, inner: ValidBox)
    requires AlignCenter(outer, inner).Ok?
    ensures AlignCenter(outer, AlignCenter(outer, inner).value) == AlignCenter(outer, inner)
  {
  }

  /** Centring always succeeds, inside `outer`, when `inner` could fit inside it. */
  lemma AlignCenterInsideWhenItFits(outer: ValidBox, inner: ValidBox)
    requires CouldFitInside(inner, outer)
    ensures AlignCenter(outer, inner).Ok?
    ensures Contains(outer, AlignCenter(outer, inner).value)
  {
  }

  /** After full centring, the gaps to opposite edges of `outer` differ by at most one. */
  lemma AlignCenterGapsWithinOne(outer: ValidBox, inner: ValidBox)
    requires AlignCenter(outer, inner).Ok?
    ensures var r := AlignCenter(outer, inner).value;
            Abs(Abs(outer.minX - r.minX) - Abs(outer.maxX - r.maxX)) <= 1 &&
            Abs(Abs(outer.minY - r.minY) - Abs(outer.maxY - r.maxY)) <= 1
  {
  }

  /** A 10-wide box centred in a 100-wide box starts at 45. */
  lemma AlignHorizontallyCenterExample()
    ensures AlignHorizontallyCenter(Box(0, 100, 0, 100), Box(0, 10, 0, 10)) == Ok(Box(45, 55, 0, 10))
  {
    var outer: ValidBox, inner: ValidBox := Box(0, 100, 0, 100), Box(0, 10, 0, 10);
    assert CenterStart(0, 100, 10) == 45;
    var r := AlignHorizontallyCenter(outer, inner);
    assert r.Ok? && r.value.minX == 45;
  }

  /** Vertical centring moves only the Y range; the X range of `inner` is kept. */
  lemma AlignVerticallyCenterExample()
    ensures AlignVerticallyCenter(Box(6, 634, 0, 16), Box(3, 13, 6, 16)) == Ok(Box(3, 13, 3, 13))
  {
    var outer: ValidBox, inner: ValidBox := Box(6, 634, 0, 16), Box(3, 13, 6, 16);
    assert CenterStart(0, 16, 10) == 3;
    var r := AlignVerticallyCenter(outer, inner);
    assert r.Ok? && r.value.minY == 3;
  }

  // ---------------------------------------------------------------------------
  // Insetting

  /** Zero offsets give back the outer box. */
  lemma HollowOutZero(outer: ValidBox)
    ensures HollowOut(outer, 0, 0, 0, 0) == Ok(outer)
  {
  }

  lemma HollowOutEvenlyIsHollowOut(outer: ValidBox, offset: Int32)
    ensures HollowOutEvenly(outer, offset) == HollowOut(outer, offset, offset, offset, offset)
  {
  }

  /**
    The inset box contains `outer` back only when it IS `outer`: when each
    axis either has zero extent or both of its offsets are zero.
   */
  lemma HollowOutEqualsOuterIff(outer: ValidBox, left: Int32, right: Int32, top: Int32, bottom: Int32)
    requires HollowOut(outer, left, right, top, bottom).Ok?
    ensures var inner := HollowOut(outer, left, right, top, bottom).value;
            (Contains(inner, outer) <==> inner == outer) &&
            (inner == outer <==> (outer.Width() == 0 || (left == 0 && right == 0)) &&
                                 (outer.Height() == 0 || (top == 0 && bottom == 0)))
  {
    var inner := HollowOut(outer, left, right, top, bottom).value;
    if left + right <= outer.Width() {
      assert inner.minX == outer.minX + left && inner.maxX == outer.maxX - right;
    } else {
      assert inner.Width() == 0;
    }
    if top + bottom <= outer.Height() {
      assert inner.minY == outer.minY + top && inner.maxY == outer.maxY - bottom;
    } else {
      assert inner.Height() == 0;
    }
  }

  /** An evenly inset box could always fit inside the box it came from. */
  lemma HollowOutEvenlyCouldFitInside(outer: ValidBox, offset: Int32)
    requires HollowOutEvenly(outer, offset).Ok?
    ensures CouldFitInside(HollowOutEvenly(outer, offset).value, outer)
  {
    ContainsImpliesCouldFitInside(outer, HollowOutEvenly(outer, offset).value);
  }

  /**
    The insets are added before they are clamped, so an offset too large for
    an `int` fails even where the clamped result would be an ordinary box.
   */
  lemma HollowOutOverflowsBeforeClamping()
    ensures HollowOut(Box(1, 10, 0, 10), 9, 0, 0, 0) == Ok(Box(10, 10, 0, 10))
    ensures HollowOut(Box(1, 10, 0, 10), IntMax, 0, 0, 0) == Err(ArithmeticOverflow)
  {
  }

  lemma HollowOutExamples()
    ensures HollowOut(Box(0, 99, 0, 99), 10, 20, 30, 40) == Ok(Box(10, 79, 30, 59))
    ensures HollowOut(Box(0, 100, 0, 100), 120, 20, 30, 40) == Ok(Box(100, 100, 30, 60))
    ensures HollowOut(Box(0, 100, 0, 100), 10, 120, 30, 40) == Ok(Box(10, 10, 30, 60))
    ensures HollowOut(Box(0, 100, 0, 100), 10, 20, 120, 40) == Ok(Box(10, 80, 100, 100))
    ensures HollowOut(Box(0, 100, 0, 100), 10, 20, 30, 120) == Ok(Box(10, 80, 30, 30))
  {
    var b99: ValidBox, b100: ValidBox := Box(0, 99, 0, 99), Box(0, 100, 0, 100);
    assert HollowOut(b99, 10, 20, 30, 40).Ok?;
    assert HollowOut(b100, 120, 20, 30, 40).Ok?;
    assert HollowOut(b100, 10, 120, 30, 40).Ok?;
    assert HollowOut(b100, 10, 20, 120, 40).Ok?;
    assert HollowOut(b100, 10, 20, 30, 120).Ok?;
  }

  // ---------------------------------------------------------------------------
  // Resizing and scaling

  /** Resizing a box to its own size, from any anchor, gives back the box. */
  lemma SetSizeToOwnSizeIsIdentity(b: ValidBox)
    requires b.Width() <= IntMax && b.Height() <= IntMax
    ensures SetSizeFromTopLeft(b, b.Width(), b.Height()) == Ok(b)
    ensures SetSizeFromTopRight(b, b.Width(), b.Height()) == Ok(b)
    ensures SetSizeFromBottomLeft(b, b.Width(), b.Height()) == Ok(b)
    ensures SetSizeFromBottomRight(b, b.Width(), b.Height()) == Ok(b)
    ensures SetSizeFromCenter(b, b.Width(), b.Height()) == Ok(b)
  {
    var w: Int32, h: Int32 := b.Width(), b.Height();
    assert CenterStart(b.minX, w, w) == b.minX;
    assert CenterStart(b.minY, h, h) == b.minY;
  }

  /** Scaling by zero, from any anchor, gives back the box. */
  lemma ScaleByZeroIsIdentity(b: ValidBox)
    requires b.Width() <= IntMax && b.Height() <= IntMax
    ensures ScaleFromTopLeft(b, 0, 0) == Ok(b)
    ensures ScaleFromTopRight(b, 0, 0) == Ok(b)
    ensures ScaleFromBottomLeft(b, 0, 0) == Ok(b)
    ensures ScaleFromBottomRight(b, 0, 0) == Ok(b)
    ensures ScaleFromCenter(b, 0, 0) == Ok(b)
  {
    SetSizeToOwnSizeIsIdentity(b);
  }

  /**
    Resizing from the centre keeps the two gaps on each axis within one unit
    of each other, as the tests measure them.
   */
  lemma SetSizeFromCenterGapsWithinOne(b: ValidBox, width: Int32, height: Int32)
    requires SetSizeFromCenter(b, width, height).Ok?
    ensures var r := SetSizeFromCenter(b, width, height).value;
            Abs(Abs(b.minX - r.minX) - Abs(b.maxX - r.maxX)) <= 1 &&
            Abs(Abs(b.minY - r.minY) - Abs(b.maxY - r.maxY)) <= 1
  {
  }

  // ---------------------------------------------------------------------------
  // Predicates

  /** A box overlaps itself exactly when it has an area. */
  lemma OverlapsSelf(b: ValidBox)
    ensures Overlaps(b, b) <==> b.Width() > 0 && b.Height() > 0
    ensures OverlapsHalfOpen(b, b) <==> b.Width() > 0 && b.Height() > 0
  {
  }

  lemma OverlapsExamples()
    ensures !Overlaps(Box(0, 10, 0, 10), Box(-10, -1, 0, 10)) && !Overlaps(Box(-10, -1, 0, 10), Box(0, 10, 0, 10))
    ensures !Overlaps(Box(0, 10, 0, 10), Box(11, 20, 0, 10)) && !Overlaps(Box(11, 20, 0, 10), Box(0, 10, 0, 10))
    ensures Overlaps(Box(0, 10, 0, 10), Box(-10, 1, 0, 10)) && Overlaps(Box(-10, 1, 0, 10), Box(0, 10, 0, 10))
    ensures !Overlaps(Box(0, 10, 0, 10), Box(0, 10, -10, -1)) && !Overlaps(Box(0, 10, -10, -1), Box(0, 10, 0, 10))
    ensures !Overlaps(Box(0, 10, 0, 10), Box(0, 10, 11, 20)) && !Overlaps(Box(0, 10, 11, 20), Box(0, 10, 0, 10))
    ensures Overlaps(Box(0, 10, 0, 10), Box(9, 20, 0, 10)) && Overlaps(Box(9, 20, 0, 10), Box(0, 10, 0, 10))
    ensures Overlaps(Box(0, 10, 0, 10), Box(0, 10, -10, 1)) && Overlaps(Box(0, 10, -10, 1), Box(0, 10, 0, 10))
    ensures Overlaps(Box(0, 10, 0, 10), Box(0, 10, 9, 20)) && Overlaps(Box(0, 10, 9, 20), Box(0, 10, 0, 10))
  {
  }

  /**
    `overlaps` as written is not symmetric: two boxes that only touch along
    an edge overlap in one argument order and not in the other.
   */
  lemma OverlapsNotSymmetric()
    ensures Overlaps(Box(0, 10, 0, 10), Box(10, 20, 0, 10))
    ensures !Overlaps(Box(10, 20, 0, 10), Box(0, 10, 0, 10))
    ensures !OverlapsHalfOpen(Box(0, 10, 0, 10), Box(10, 20, 0, 10))
  {
  }

  /** The half-open overlap is symmetric. */
  lemma OverlapsHalfOpenSymmetric(a: ValidBox, b: ValidBox)
    ensures OverlapsHalfOpen(a, b) <==> OverlapsHalfOpen(b, a)
  {
  }

  /**
    The two relations differ only for touching boxes: the half-open overlap
    implies `overlaps`, and `overlaps` without it means the high edge of `a`
    lies on the low edge of `b`.
   */
  lemma OverlapsDiffersOnlyWhenTouching(a: ValidBox, b: ValidBox)
    ensures OverlapsHalfOpen(a, b) ==> Overlaps(a, b)
    ensures Overlaps(a, b) && !OverlapsHalfOpen(a, b) ==> a.maxX == b.minX || a.maxY == b.minY
  {
  }

  /**
    For boxes with an area, the half-open overlap holds exactly when some
    point lies in both boxes.
   */
  lemma OverlapsHalfOpenIffCommonPoint(a: ValidBox, b: ValidBox)
    requires a.Width() > 0 && a.Height() > 0 && b.Width() > 0 && b.Height() > 0
    ensures OverlapsHalfOpen(a, b) <==> exists x, y :: ContainsPoint(a, x, y) && ContainsPoint(b, x, y)
  {
    if OverlapsHalfOpen(a, b) {
      var x, y := Max(a.minX, b.minX), Max(a.minY, b.minY);
      assert ContainsPoint(a, x, y) && ContainsPoint(b, x, y);
    }
  }

  /** `contains` is reflexive. */
  lemma ContainsReflexive(a: ValidBox)
    ensures Contains(a, a)
  {
  }

  /** `contains` is transitive. */
  lemma ContainsTransitive(a: ValidBox, b: ValidBox, c: ValidBox)
    requires Contains(a, b) && Contains(b, c)
    ensures Contains(a, c)
  {
  }

  /** `couldFitInside` is reflexive. */
  lemma CouldFitInsideReflexive(a: ValidBox)
    ensures CouldFitInside(a, a)
  {
  }

  /** `couldFitInside` is transitive. */
  lemma CouldFitInsideTransitive(a: ValidBox, b: ValidBox, c: ValidBox)
    requires CouldFitInside(a, b) && CouldFitInside(b, c)
    ensures CouldFitInside(a, c)
  {
  }

  /** A box that contains another is at least as wide and as tall. */
  lemma ContainsImpliesCouldFitInside(a: ValidBox, b: ValidBox)
    requires Contains(a, b)
    ensures CouldFitInside(b, a)
  {
  }

  /**
    Point containment is half-open on both axes: every point at an offset
    below the width and the height from the top-left corner is inside, and
    a box without area contains no point at all.
   */
  lemma ContainsPointHalfOpen(b: ValidBox, i: int, j: int)
    ensures ContainsPoint(b, b.minX + i, b.minY + j) <==> 0 <= i < b.Width() && 0 <= j < b.Height()
    ensures b.Width() == 0 || b.Height() == 0 ==> forall x, y :: !ContainsPoint(b, x, y)
  {
  }

  // ---------------------------------------------------------------------------
  // Combining boxes

  lemma ContainingCommutative(a: ValidBox, b: ValidBox)
    ensures Containing(a, b) == Containing(b, a)
  {
  }

  /** Fitting between `a` and `b` does not depend on their order. */
  lemma FitBetweenSymmetric(fit: ValidBox, a: ValidBox, b: ValidBox)
    ensures FitBetweenHorizontal(fit, a, b) == FitBetweenHorizontal(fit, b, a)
    ensures FitBetweenVertical(fit, a, b) == FitBetweenVertical(fit, b, a)
  {
  }

  // ---------------------------------------------------------------------------
  // Splitting

  /**
    The two parts of a horizontal split partition the box: both lie in it,
    every point of the box is in exactly one part, non-empty parts overlap
    the box, and parts with an area do not overlap each other in the order
    `lower, upper` (the order the tests check). A split at or beyond the
    height leaves the whole box above and an empty strip at the bottom edge.
   */
  lemma SplitAlongHorizontalPartition(box: ValidBox, height: Int32)
    requires height >= 0
    ensures SplitAlongHorizontal(box, height).Ok?
    ensures var s := SplitAlongHorizontal(box, height).value;
            Contains(box, s.upper) && Contains(box, s.lower)
    ensures var s := SplitAlongHorizontal(box, height).value;
            forall x, y :: ContainsPoint(box, x, y) <==>
                           (ContainsPoint(s.upper, x, y) || ContainsPoint(s.lower, x, y))
    ensures var s := SplitAlongHorizontal(box, height).value;
            forall x, y :: !(ContainsPoint(s.upper, x, y) && ContainsPoint(s.lower, x, y))
    ensures var s := SplitAlongHorizontal(box, height).value;
            (s.upper.Width() > 0 && s.upper.Height() > 0 ==> Overlaps(box, s.upper)) &&
            (s.lower.Width() > 0 && s.lower.Height() > 0 ==> Overlaps(box, s.lower))
    ensures var s := SplitAlongHorizontal(box, height).value;
            s.upper.Height() > 0 && s.lower.Height() > 0 ==>
              !Overlaps(s.lower, s.upper) &&
              !OverlapsHalfOpen(s.lower, s.upper) && !OverlapsHalfOpen(s.upper, s.lower)
    ensures height >= box.Height() ==>
              var s := SplitAlongHorizontal(box, height).value;
              s.upper == box && s.lower.Height() == 0 && s.lower.minY == box.maxY
  {
  }

  /**
    The two parts of a vertical split partition the box, as for the
    horizontal split, with `left` and `right` in place of `upper` and `lower`.
   */
  lemma SplitAlongVerticalPartition(box: ValidBox, width: Int32)
    requires width >= 0
    ensures SplitAlongVertical(box, width).Ok?
    ensures var s := SplitAlongVertical(box, width).value;
            Contains(box, s.left) && Contains(box, s.right)
    ensures var s := SplitAlongVertical(box, width).value;
            forall x, y :: ContainsPoint(box, x, y) <==>
                           (ContainsPoint(s.left, x, y) || ContainsPoint(s.right, x, y))
    ensures var s := SplitAlongVertical(box, width).value;
            forall x, y :: !(ContainsPoint(s.left, x, y) && ContainsPoint(s.right, x, y))
    ensures var s := SplitAlongVertical(box, width).value;
            (s.left.Width() > 0 && s.left.Height() > 0 ==> Overlaps(box, s.left)) &&
            (s.right.Width() > 0 && s.right.Height() > 0 ==> Overlaps(box, s.right))
    ensures var s := SplitAlongVertical(box, width).value;
            s.left.Width() > 0 && s.right.Width() > 0 ==>
              !Overlaps(s.right, s.left) &&
              !OverlapsHalfOpen(s.right, s.left) && !OverlapsHalfOpen(s.left, s.right)
    ensures width >= box.Width() ==>
              var s := SplitAlongVertical(box, width).value;
              s.left == box && s.right.Width() == 0 && s.right.minX == box.maxX
  {
  }

  /**
    Splitting a 10-high box at 5. With `overlaps` as written, the two halves
    DO overlap when asked in the order `upper, lower`: they share the edge
    `y = 5`, which the upper half's open bottom edge should exclude.
   */
  lemma SplitAlongHorizontalExample()
    ensures SplitAlongHorizontal(Box(0, 10, 0, 10), 5) == Ok(HorizontalSplit(Box(0, 10, 0, 5), Box(0, 10, 5, 10)))
    ensures Overlaps(Box(0, 10, 0, 5), Box(0, 10, 5, 10)) && !Overlaps(Box(0, 10, 5, 10), Box(0, 10, 0, 5))
  {
    var b: ValidBox := Box(0, 10, 0, 10);
    var r := SplitAlongHorizontal(b, 5);
    assert r.Ok? && r.value.upper.maxY == 5;
  }

  lemma SplitAlongVerticalExample()
    ensures SplitAlongVertical(Box(0, 10, 0, 10), 5) == Ok(VerticalSplit(Box(0, 5, 0, 10), Box(5, 10, 0, 10)))
  {
    var b: ValidBox := Box(0, 10, 0, 10);
    var r := SplitAlongVertical(b, 5);
    assert r.Ok? && r.value.left.maxX == 5;
  }

  // ---------------------------------------------------------------------------
  // Rendering

  /** A separator absent from `s` first occurs in `s + [c] + t` right after `s`. */
  lemma SeparatorIndex(s: string, t: string, c: char, i: nat)
    requires c !in s
    requires i <= |s| && (s + [c] + t)[i] == c
    ensures i == |s|
  {
  }

  /** A separator that occurs in neither prefix splits both strings at the same place. */
  lemma SplitAtSeparator(s1: string, t1: string, s2: string, t2: string, c: char)
    requires c !in s1 && c !in s2
    requires s1 + [c] + t1 == s2 + [c] + t2
    ensures s1 == s2 && t1 == t2
  {
    var u := s1 + [c] + t1;
    if |s1| <= |s2| {
      SeparatorIndex(s2, t2, c, |s1|);
    } else {
      SeparatorIndex(s1, t1, c, |s2|);
    }
    assert s1 == u[..|s1|] == s2;
    assert t1 == u[|s1| + 1..] == t2;
  }

  lemma NoSeparatorInNumber(n: int)
    ensures 'x' !in Decimal.IntToString(n)
    ensures ' ' !in Decimal.IntToString(n)
    ensures '+' !in Decimal.IntToString(n)
  {
    var s := Decimal.IntToString(n);
    forall i | 0 <= i < |s| ensures s[i] != 'x' && s[i] != ' ' && s[i] != '+' {
    }
  }

  /**
    Proof step for `ShowInjective`: the rendering regrouped so that each
    separator sits between a number and the rest of the text.
   */
  lemma ShowGroupedAtSeparators(b: ValidBox)
    ensures Show(b) == Decimal.IntToString(b.Width()) + ['x'] +
                       (Decimal.IntToString(b.Height()) + [' '] +
                        (Decimal.IntToString(b.minX) + ['+'] + Decimal.IntToString(b.minY)))
  {
  }

  /** Different boxes are rendered differently: `show` loses no information. */
  lemma ShowInjective(a: ValidBox, b: ValidBox)
    requires Show(a) == Show(b)
    ensures a == b
  {
    ShowGroupedAtSeparators(a);
    ShowGroupedAtSeparators(b);
    NoSeparatorInNumber(a.Width());
    NoSeparatorInNumber(b.Width());
    NoSeparatorInNumber(a.Height());
    NoSeparatorInNumber(b.Height());
    NoSeparatorInNumber(a.minX);
    NoSeparatorInNumber(b.minX);
    SplitAtSeparator(Decimal.IntToString(a.Width()),
                     Decimal.IntToString(a.Height()) + [' '] +
                     (Decimal.IntToString(a.minX) + ['+'] + Decimal.IntToString(a.minY)),
                     Decimal.IntToString(b.Width()),
                     Decimal.IntToString(b.Height()) + [' '] +
                     (Decimal.IntToString(b.minX) + ['+'] + Decimal.IntToString(b.minY)),
                     'x');
    SplitAtSeparator(Decimal.IntToString(a.Height()),
                     Decimal.IntToString(a.minX) + ['+'] + Decimal.IntToString(a.minY),
                     Decimal.IntToString(b.Height()),
                     Decimal.IntToString(b.minX) + ['+'] + Decimal.IntToString(b.minY),
                     ' ');
    SplitAtSeparator(Decimal.IntToString(a.minX), Decimal.IntToString(a.minY),
                     Decimal.IntToString(b.minX), Decimal.IntToString(b.minY), '+');
    Decimal.IntToStringInjective(a.Width(), b.Width());
    Decimal.IntToStringInjective(a.Height(), b.Height());
    Decimal.IntToStringInjective(a.minX, b.minX);
    Decimal.IntToStringInjective(a.minY, b.minY);
  }
}
