# jboxes box algebra in Dafny

A model of `Boxes`, the stateless algebra of axis-aligned integer boxes in
io7m jboxes. A box is four Java `int` bounds `minX <= maxX`, `minY <= maxY`.
Every algorithm builds a fresh box from a few exact additions and
subtractions, `min`/`max` and a clamp, and the model follows that code
operation by operation:

- construction (`create`) and relative and absolute moves;
- edge, corner and centre alignment, with and without offsets;
- insets (`hollowOut`, `hollowOutEvenly`);
- resizing and scaling about a fixed corner or the centre (`setSizeFrom*`, `scaleFrom*`);
- the predicates `overlaps`, `contains`, `couldFitInside` and `containsPoint`;
- the bounding box (`containing`) and `fitBetween*`;
- horizontal and vertical splits;
- the debug rendering (`show`, `showToBuilder`).

Java's exceptions are values. `Math.addExact` and `Math.subtractExact`
overflow becomes `Err(ArithmeticOverflow)`. A failed `Assertive.require`
or a `Box.of` call with an inverted axis becomes `Err(RequireViolation)`.
Every fallible operation returns a `Result`. Its contract says which error
it raises, and, for every operation except `scaleFromCenter`, exactly when
it succeeds (see Left out).

Files:

- `java_int.dfy`: Java `int` range, exact arithmetic, the two errors.
- `box.dfy`: the box value and `Box.of`.
- `decimal.dfy`: decimal rendering of `int` and its inverse.
- `boxes.dfy`: the algorithms.
- `boxes_laws.dfy`: the laws relating them and the concrete scenarios the
  test suite checks.

The doc comment of `overlaps` says the relation is reflexive and symmetric.
Neither holds for the code: a box without area does not overlap itself, and
the test suite agrees (`OverlapsSelf`). Symmetry fails for touching boxes
(see Findings).

The test `testContainsTrueAll` asserts that an inset box never contains its
outer box. With offsets drawn from 0 to 100 that is false whenever all four
offsets are zero or the outer box has no extent on the inset axes.
`BoxesLaws.HollowOutEqualsOuterIff` states the exact condition.

## Model

| member | source | states |
|---|---|---|
| BoxValues.Of | io7m-jboxes-core/src/test/java/com/io7m/jboxes/tests/core/BoxTest.java:31-43 | `Box.of` succeeds iff neither axis is inverted, and then has exactly the given bounds. Otherwise it raises a require violation. |
| BoxValues.OfRoundTrip | io7m-jboxes-core/src/test/java/com/io7m/jboxes/tests/core/BoxTest.java:31-43 | Rebuilding a valid box from its own bounds gives the same box. |
| JavaInt.AddExact | io7m-jboxes-core/src/main/java/com/io7m/jboxes/core/Boxes.java:79-82 | `Math.addExact` succeeds iff the sum is a Java `int`, else it raises an overflow. |
| JavaInt.SubtractExact | io7m-jboxes-core/src/main/java/com/io7m/jboxes/core/Boxes.java:141-143 | `Math.subtractExact` succeeds iff the difference is a Java `int`, else it raises an overflow. |
| Boxes.Clamp | io7m-jboxes-core/src/main/java/com/io7m/jboxes/core/Boxes.java:34-41 | The clamped value lies in `[minimum, maximum]`. It equals `x` inside the range and the nearer bound outside it. |
| Boxes.Create | io7m-jboxes-core/src/main/java/com/io7m/jboxes/core/Boxes.java:133-144 | Succeeds iff the size is non-negative and both far edges are `int`s. The box then has the given corner, width and height. Overflow is reported iff a far edge leaves the `int` range. |
| BoxesLaws.CreateRoundTrip | io7m-jboxes-core/src/main/java/com/io7m/jboxes/core/Boxes.java:133-144 | Creating from a box's own corner and size gives back the box. |
| Boxes.MoveRelative | io7m-jboxes-core/src/main/java/com/io7m/jboxes/core/Boxes.java:74-84 | Succeeds iff all four shifted bounds are `int`s. Every bound then moves by `(x, y)`, so the size is unchanged. |
| BoxesLaws.MoveRelativeInverse | io7m-jboxes-core/src/main/java/com/io7m/jboxes/core/Boxes.java:74-84 | Moving by `(x, y)` and then by `(-x, -y)` gives back the box. |
| Boxes.MoveAbsolute | io7m-jboxes-core/src/main/java/com/io7m/jboxes/core/Boxes.java:97-103 | Succeeds iff the far edges at the new corner are `int`s. The box keeps its size and has its top-left corner at `(x, y)`. |
| BoxesLaws.MoveAbsoluteInverse | io7m-jboxes-core/src/main/java/com/io7m/jboxes/core/Boxes.java:97-103 | Moving away and back to the original corner gives back the box. |
| Boxes.MoveToOrigin | io7m-jboxes-core/src/main/java/com/io7m/jboxes/core/Boxes.java:114-118 | Succeeds iff the width and height are `int`s. It gives a box of the same size with its top-left corner at `(0, 0)`. |
| BoxesLaws.MoveToOriginIsMoveAbsolute | io7m-jboxes-core/src/main/java/com/io7m/jboxes/core/Boxes.java:114-118 | Moving to the origin is the absolute move to `(0, 0)`. |
| Boxes.AlignHorizontallyCenter | io7m-jboxes-core/src/main/java/com/io7m/jboxes/core/Boxes.java:156-168 | Success iff the centred edges are `int`s. Inner's size and Y range are kept. Right gap minus left gap is `outer.width % 2 - inner.width % 2`, so the two gaps differ by at most 1. |
| Boxes.AlignHorizontallyLeft | io7m-jboxes-core/src/main/java/com/io7m/jboxes/core/Boxes.java:181-186 | `minX = outer.minX`. Inner's size and Y range are kept. Success iff the far edge is an `int`. |
| Boxes.AlignHorizontallyLeftOffset | io7m-jboxes-core/src/main/java/com/io7m/jboxes/core/Boxes.java:201-212 | `minX = outer.minX + offset` for any sign of offset. Inner's size and Y range are kept. Overflow is the only error. |
| Boxes.AlignHorizontallyRight | io7m-jboxes-core/src/main/java/com/io7m/jboxes/core/Boxes.java:225-230 | `maxX = outer.maxX`. Inner's size and Y range are kept. |
| Boxes.AlignHorizontallyRightOffset | io7m-jboxes-core/src/main/java/com/io7m/jboxes/core/Boxes.java:245-256 | `maxX = outer.maxX - offset`. Inner's size and Y range are kept. Overflow is the only error. |
| Boxes.AlignVerticallyTop | io7m-jboxes-core/src/main/java/com/io7m/jboxes/core/Boxes.java:269-274 | `minY = outer.minY`. Inner's size and X range are kept. |
| Boxes.AlignVerticallyTopOffset | io7m-jboxes-core/src/main/java/com/io7m/jboxes/core/Boxes.java:289-300 | `minY = outer.minY + offset`. Inner's size and X range are kept. Overflow is the only error. |
| Boxes.AlignVerticallyBottom | io7m-jboxes-core/src/main/java/com/io7m/jboxes/core/Boxes.java:313-318 | `maxY = outer.maxY`. Inner's size and X range are kept. |
| Boxes.AlignVerticallyBottomOffset | io7m-jboxes-core/src/main/java/com/io7m/jboxes/core/Boxes.java:333-344 | `maxY = outer.maxY - offset`. Inner's size and X range are kept. Overflow is the only error. |
| Boxes.AlignVerticallyCenter | io7m-jboxes-core/src/main/java/com/io7m/jboxes/core/Boxes.java:356-369 | The vertical counterpart of horizontal centring: exact gap difference, at most 1, X range of inner kept. |
| Boxes.AlignTopLeft | io7m-jboxes-core/src/main/java/com/io7m/jboxes/core/Boxes.java:382-387 | Places `minX` and `minY` on outer's and keeps inner's size. |
| Boxes.AlignTopLeftOffset | io7m-jboxes-core/src/main/java/com/io7m/jboxes/core/Boxes.java:403-417 | `minX = outer.minX + offsetX` and `minY = outer.minY + offsetY`, inner's size kept. Success iff the computed edges are `int`s. |
| Boxes.AlignTopRight | io7m-jboxes-core/src/main/java/com/io7m/jboxes/core/Boxes.java:430-435 | Places `maxX` and `minY` on outer's and keeps inner's size. |
| Boxes.AlignTopRightOffset | io7m-jboxes-core/src/main/java/com/io7m/jboxes/core/Boxes.java:451-465 | `maxX = outer.maxX - offsetX` and `minY = outer.minY + offsetY`, inner's size kept. |
| Boxes.AlignBottomLeft | io7m-jboxes-core/src/main/java/com/io7m/jboxes/core/Boxes.java:478-483 | Places `minX` and `maxY` on outer's and keeps inner's size. |
| Boxes.AlignBottomLeftOffset | io7m-jboxes-core/src/main/java/com/io7m/jboxes/core/Boxes.java:500-514 | `minX = outer.minX + offsetX` and `maxY = outer.maxY - offsetY`, inner's size kept. |
| Boxes.AlignBottomRight | io7m-jboxes-core/src/main/java/com/io7m/jboxes/core/Boxes.java:527-532 | Places `maxX` and `maxY` on outer's and keeps inner's size. |
| Boxes.AlignBottomRightOffset | io7m-jboxes-core/src/main/java/com/io7m/jboxes/core/Boxes.java:549-563 | `maxX = outer.maxX - offsetX` and `maxY = outer.maxY - offsetY`, inner's size kept. |
| BoxesLaws.NoOffsetAlignmentsAreZeroOffset | io7m-jboxes-core/src/main/java/com/io7m/jboxes/core/Boxes.java:181-563 | Every no-offset edge and corner alignment equals its offset variant with zero offsets. |
| BoxesLaws.CornerIsEdgeOnEachAxis | io7m-jboxes-core/src/main/java/com/io7m/jboxes/core/Boxes.java:382-563 | For each of the four corners, a successful corner alignment implies that the two matching edge alignments succeed, and it takes its X range from the one and its Y range from the other. |
| Boxes.AlignCenter | io7m-jboxes-core/src/main/java/com/io7m/jboxes/core/Boxes.java:576-585 | Centres on both axes with the exact gap differences. Inner's size is kept. Success iff all four centred edges are `int`s. |
| BoxesLaws.AlignCenterIdempotent | io7m-jboxes-core/src/main/java/com/io7m/jboxes/core/Boxes.java:576-585 | Centring an already centred box changes nothing. |
| BoxesLaws.AlignCenterGapsWithinOne | io7m-jboxes-core/src/test/java/com/io7m/jboxes/tests/core/BoxesTest.java:769-816 | After centring on both axes, the gaps to opposite outer edges differ by at most 1 on each axis. |
| BoxesLaws.AlignCenterInsideWhenItFits | io7m-jboxes-core/src/main/java/com/io7m/jboxes/core/Boxes.java:576-585 | When inner could fit inside outer, centring always succeeds and outer contains the result. |
| BoxesLaws.AlignHorizontallyCenterExample | io7m-jboxes-core/src/test/java/com/io7m/jboxes/tests/core/BoxesTest.java:297-318 | A 10-wide box centred in a 100-wide box spans 45 to 55. |
| BoxesLaws.AlignVerticallyCenterExample | io7m-jboxes-core/src/test/java/com/io7m/jboxes/tests/core/BoxesTest.java:545-566 | The box `(3,13,6,16)` centred vertically in `(6,634,0,16)` becomes `(3,13,3,13)`. |
| Boxes.HollowOut | io7m-jboxes-core/src/main/java/com/io7m/jboxes/core/Boxes.java:602-640 | A negative offset raises a require violation. Overflow is raised iff an inset edge leaves the `int` range before clamping. The result is contained in outer. Each axis is inset exactly when its two offsets fit, and otherwise collapses to zero size at the clamped low edge. |
| Boxes.HollowOutEvenly | io7m-jboxes-core/src/main/java/com/io7m/jboxes/core/Boxes.java:653-658 | One offset on all four sides. A negative offset raises a require violation; overflow as for `hollowOut`. The result is contained in outer. Each axis is inset by the offset from both edges when twice the offset fits, and otherwise collapses to zero size at the clamped low edge. |
| BoxesLaws.HollowOutZero | io7m-jboxes-core/src/test/java/com/io7m/jboxes/tests/core/BoxesTest.java:182-197 | Zero offsets give back outer. |
| BoxesLaws.HollowOutEvenlyIsHollowOut | io7m-jboxes-core/src/test/java/com/io7m/jboxes/tests/core/BoxesTest.java:199-222 | Even insetting is insetting by the same offset on all four sides. |
| BoxesLaws.HollowOutEqualsOuterIff | io7m-jboxes-core/src/test/java/com/io7m/jboxes/tests/core/BoxesTest.java:1416-1442 | The inset box contains outer iff it equals outer. That happens iff each axis has zero extent or zero offsets on both of its sides. |
| BoxesLaws.HollowOutEvenlyCouldFitInside | io7m-jboxes-core/src/test/java/com/io7m/jboxes/tests/core/BoxesTest.java:1463-1482 | An evenly inset box could fit inside its outer box. |
| BoxesLaws.HollowOutOverflowsBeforeClamping | io7m-jboxes-core/src/main/java/com/io7m/jboxes/core/Boxes.java:615-624 | An offset of `Integer.MAX_VALUE` overflows even where a clamped inset would be an ordinary box. |
| BoxesLaws.HollowOutExamples | io7m-jboxes-core/src/test/java/com/io7m/jboxes/tests/core/BoxesTest.java:164-294 | The test suite's concrete insets, including each oversized offset pinning one axis to zero size. |
| Boxes.SetSizeFromCenter | io7m-jboxes-core/src/main/java/com/io7m/jboxes/core/Boxes.java:674-688 | A negative size raises a require violation. On success the box has exactly the requested size, with the exact gap differences about the old box on both axes. |
| Boxes.SetSizeFromTopLeft | io7m-jboxes-core/src/main/java/com/io7m/jboxes/core/Boxes.java:704-718 | Exactly the requested size with `maxX` and `maxY` kept. Success iff the size is non-negative and every intermediate edge is an `int`. |
| Boxes.SetSizeFromTopRight | io7m-jboxes-core/src/main/java/com/io7m/jboxes/core/Boxes.java:734-748 | Exactly the requested size with `minX` and `maxY` kept. |
| Boxes.SetSizeFromBottomRight | io7m-jboxes-core/src/main/java/com/io7m/jboxes/core/Boxes.java:764-778 | Exactly the requested size with `minX` and `minY` kept. |
| Boxes.SetSizeFromBottomLeft | io7m-jboxes-core/src/main/java/com/io7m/jboxes/core/Boxes.java:794-808 | Exactly the requested size with `maxX` and `minY` kept. |
| BoxesLaws.SetSizeToOwnSizeIsIdentity | io7m-jboxes-core/src/main/java/com/io7m/jboxes/core/Boxes.java:674-808 | Resizing a box to its own size from any anchor gives back the box. |
| BoxesLaws.SetSizeFromCenterGapsWithinOne | io7m-jboxes-core/src/test/java/com/io7m/jboxes/tests/core/BoxesTest.java:1263-1308 | After resizing from the centre, the gaps to opposite old edges differ by at most 1. |
| Boxes.ScaleFromTopLeft | io7m-jboxes-core/src/main/java/com/io7m/jboxes/core/Boxes.java:825-835 | Width `max(0, width + dx)` and height `max(0, height + dy)`, with `maxX` and `maxY` kept. Overflow is the only error. |
| Boxes.ScaleFromTopRight | io7m-jboxes-core/src/main/java/com/io7m/jboxes/core/Boxes.java:852-862 | The scaled size with `minX` and `maxY` kept. |
| Boxes.ScaleFromBottomLeft | io7m-jboxes-core/src/main/java/com/io7m/jboxes/core/Boxes.java:879-889 | The scaled size with `maxX` and `minY` kept. |
| Boxes.ScaleFromBottomRight | io7m-jboxes-core/src/main/java/com/io7m/jboxes/core/Boxes.java:906-916 | The scaled size with `minX` and `minY` kept. |
| Boxes.ScaleFromCenter | io7m-jboxes-core/src/main/java/com/io7m/jboxes/core/Boxes.java:933-943 | The scaled size with the exact gap differences about the old box. It fails when the new size is not an `int`. |
| BoxesLaws.ScaleByZeroIsIdentity | io7m-jboxes-core/src/main/java/com/io7m/jboxes/core/Boxes.java:825-943 | Scaling by zero from any anchor gives back the box. |
| Boxes.Overlaps | io7m-jboxes-core/src/main/java/com/io7m/jboxes/core/Boxes.java:961-975 | As written: `a` is rejected when `a.minX >= b.maxX` or `a.maxX < b.minX`, and likewise on Y; otherwise the boxes overlap. Its laws are the rows below. |
| Boxes.OverlapsHalfOpen | io7m-jboxes-core/src/main/java/com/io7m/jboxes/core/Boxes.java:944-960 | The corrected relation the documentation describes: rejected when `a.minX >= b.maxX` or `a.maxX <= b.minX`, and likewise on Y. |
| Boxes.CouldFitInside | io7m-jboxes-core/src/main/java/com/io7m/jboxes/core/Boxes.java:994-1003 | `a` is no wider and no taller than `b`, wherever the two are. |
| Boxes.Contains | io7m-jboxes-core/src/main/java/com/io7m/jboxes/core/Boxes.java:1022-1032 | The closed bounds of `b` lie within the closed bounds of `a`. |
| Boxes.ContainsPoint | io7m-jboxes-core/src/main/java/com/io7m/jboxes/core/Boxes.java:1071-1081 | `(x, y)` lies in `[minX, maxX) x [minY, maxY)`. |
| BoxesLaws.OverlapsSelf | io7m-jboxes-core/src/test/java/com/io7m/jboxes/tests/core/BoxesTest.java:1354-1374 | A box overlaps itself iff it has positive width and height. This holds for the code and for the corrected relation. |
| BoxesLaws.OverlapsExamples | io7m-jboxes-core/src/test/java/com/io7m/jboxes/tests/core/BoxesTest.java:1311-1352 | The test suite's concrete overlapping and disjoint pairs, in both orders. |
| BoxesLaws.OverlapsNotSymmetric | io7m-jboxes-core/src/main/java/com/io7m/jboxes/core/Boxes.java:961-975 | Two boxes touching at `x = 10` overlap in one argument order and not in the other. |
| BoxesLaws.OverlapsHalfOpenSymmetric | io7m-jboxes-core/src/main/java/com/io7m/jboxes/core/Boxes.java:944-960 | The corrected relation is symmetric, as the documentation promises. |
| BoxesLaws.OverlapsDiffersOnlyWhenTouching | io7m-jboxes-core/src/main/java/com/io7m/jboxes/core/Boxes.java:961-975 | The corrected relation implies the coded one. The two differ only where `a`'s high edge lies on `b`'s low edge. |
| BoxesLaws.OverlapsHalfOpenIffCommonPoint | io7m-jboxes-core/src/main/java/com/io7m/jboxes/core/Boxes.java:944-975 | For boxes with area, the corrected relation holds iff some point lies in both. |
| BoxesLaws.ContainsReflexive | io7m-jboxes-core/src/test/java/com/io7m/jboxes/tests/core/BoxesTest.java:1376-1392 | Every box contains itself. |
| BoxesLaws.ContainsTransitive | io7m-jboxes-core/src/main/java/com/io7m/jboxes/core/Boxes.java:1022-1032 | Containment is transitive. |
| BoxesLaws.CouldFitInsideReflexive | io7m-jboxes-core/src/test/java/com/io7m/jboxes/tests/core/BoxesTest.java:1445-1460 | Every box could fit inside itself. |
| BoxesLaws.CouldFitInsideTransitive | io7m-jboxes-core/src/main/java/com/io7m/jboxes/core/Boxes.java:994-1003 | `couldFitInside` is transitive. |
| BoxesLaws.ContainsImpliesCouldFitInside | io7m-jboxes-core/src/main/java/com/io7m/jboxes/core/Boxes.java:994-1032 | A contained box could fit inside its container. |
| BoxesLaws.ContainsPointHalfOpen | io7m-jboxes-core/src/test/java/com/io7m/jboxes/tests/core/BoxesTest.java:1484-1591 | `(minX + i, minY + j)` is inside iff `0 <= i < width` and `0 <= j < height`. A box without area contains no point. |
| Boxes.Containing | io7m-jboxes-core/src/main/java/com/io7m/jboxes/core/Boxes.java:1046-1058 | The result contains both boxes. It is the least such box: every box containing both contains it. |
| BoxesLaws.ContainingCommutative | io7m-jboxes-core/src/main/java/com/io7m/jboxes/core/Boxes.java:1046-1058 | The bounding box does not depend on argument order. |
| Boxes.FitBetweenHorizontal | io7m-jboxes-core/src/main/java/com/io7m/jboxes/core/Boxes.java:1094-1108 | `fit`'s Y range, within the combined X extent of `a` and `b`. The X range is exactly the gap between them when apart, and exactly their common part when they meet. |
| Boxes.FitBetweenVertical | io7m-jboxes-core/src/main/java/com/io7m/jboxes/core/Boxes.java:1121-1135 | The same with the axes exchanged. |
| BoxesLaws.FitBetweenSymmetric | io7m-jboxes-core/src/main/java/com/io7m/jboxes/core/Boxes.java:1094-1135 | Both fits are independent of the order of `a` and `b`. |
| Boxes.SplitAlongHorizontal | io7m-jboxes-core/src/main/java/com/io7m/jboxes/core/Boxes.java:1148-1166 | Succeeds iff the amount is non-negative. Otherwise overflow or a require violation, according to which call fails. The upper height is `min(height, amount)`, the heights sum to the box's, both keep the X range, and the parts meet. |
| Boxes.SplitAlongVertical | io7m-jboxes-core/src/main/java/com/io7m/jboxes/core/Boxes.java:1179-1197 | The same with the axes exchanged. |
| BoxesLaws.SplitAlongHorizontalPartition | io7m-jboxes-core/src/test/java/com/io7m/jboxes/tests/core/BoxesTest.java:1669-1822 | Both parts lie in the box, and every point of the box is in exactly one part. Non-empty parts overlap the box, and parts with height are disjoint. An amount beyond the height leaves an empty lower part at the bottom edge. |
| BoxesLaws.SplitAlongVerticalPartition | io7m-jboxes-core/src/test/java/com/io7m/jboxes/tests/core/BoxesTest.java:1943-1990 | The same for the left and right parts. |
| BoxesLaws.SplitAlongHorizontalExample | io7m-jboxes-core/src/test/java/com/io7m/jboxes/tests/core/BoxesTest.java:1725-1822 | A 10-high box split at 5 gives y ranges 0..5 and 5..10. The coded `overlaps` calls the halves overlapping in the order upper, lower. |
| BoxesLaws.SplitAlongVerticalExample | io7m-jboxes-core/src/test/java/com/io7m/jboxes/tests/core/BoxesTest.java:1943-1990 | A 10-wide box split at 5 gives x ranges 0..5 and 5..10. |
| Decimal.IntToString | io7m-jboxes-core/src/main/java/com/io7m/jboxes/core/Boxes.java:1230-1236 | The decimal text `append(int)` writes: digits, optionally after one minus sign, and nothing else. |
| Decimal.IntToStringRoundTrip | io7m-jboxes-core/src/main/java/com/io7m/jboxes/core/Boxes.java:1230-1236 | Parsing the decimal text appended for an `int` gives the value back. |
| Boxes.ShowToBuilder | io7m-jboxes-core/src/main/java/com/io7m/jboxes/core/Boxes.java:1223-1238 | The result starts with the builder's previous text and is strictly longer. |
| Boxes.Show | io7m-jboxes-core/src/main/java/com/io7m/jboxes/core/Boxes.java:1206-1213 | `show` is exactly what `showToBuilder` appends to any builder. |
| BoxesLaws.ShowInjective | io7m-jboxes-core/src/test/java/com/io7m/jboxes/tests/core/BoxesTest.java:130-153 | Boxes with the same rendering are equal. |

## Left out

- `cast` (Boxes.java:55-61) is an unchecked reinterpretation of a phantom coordinate-space type. Boxes here carry no such type, so it would be the identity.
- `NullCheck.notNull` calls are not modelled, because a datatype value cannot be null.
- `Box`, `BoxMutable`, `Box.Builder` and the split-pair classes are not part of this model beyond `Box.of` and the accessors `Boxes` uses; their sources are not available.
- `BoxValues.Box.Width`: `width()` and `height()` are taken as the exact difference `maxX - minX`, with no 32-bit wrap-around, because the source of `Box` is not available.
- `Boxes.ShowToBuilder`: the `StringBuilder` is a string passed in and returned, so mutating the caller's builder in place is not modelled.
- `Boxes.ScaleFromCenter`: its contract gives the cases that fail but no exact success condition, because its exact form is the conjunction of the overflow conditions of `SetSizeFromCenter` at the clamped size, which `Boxes.SetSizeFromCenter` states.
- `Boxes.Clamp`: the source checks `maximum >= minimum` at run time; the model makes it a precondition, because every caller passes a box's own bounds.
- The test harness (QuickCheck generators, the rendering helper, random numbers, printing) is not modelled; the tests serve only as the source of the laws.

## Findings

| source | as written | input that shows it | evidently intended | confidence | as-written member | corrected member |
|---|---|---|---|---|---|---|
| io7m-jboxes-core/src/main/java/com/io7m/jboxes/core/Boxes.java:961-975 | `overlaps` rejects `a` when `a.minX >= b.maxX` but only when `a.maxX < b.minX` strictly, and likewise on Y. Touching boxes therefore overlap in one argument order only, contrary to the documented symmetry at line 950. | `a = (0,10,0,10)`, `b = (10,20,0,10)`: `overlaps(a, b)` is true and `overlaps(b, a)` is false. | Half-open areas: reject also when `a.maxX <= b.minX` (and on Y). That relation is symmetric and, for boxes with area, holds exactly when they share a point. | not executed | Boxes.Overlaps, BoxesLaws.OverlapsNotSymmetric | Boxes.OverlapsHalfOpen, BoxesLaws.OverlapsHalfOpenSymmetric |
