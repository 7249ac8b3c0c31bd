# Point and Vector of the coolvas canvas library, in Dafny

This project models the two-dimensional `Point` of the coolvas canvas library
(`canvas/es/point.ts`) and the `Vector` arithmetic it inherits
(`canvas/es/vector.ts`), and proves properties of the model.

A `Point` keeps Cartesian coordinates `x`, `y` together with cached polar
attributes:
- `length`, the distance from the origin;
- `angle` in degrees;
- `angleInRadians`, the absolute arctangent of the slope;
- `quadrant`, from 1 to 4.

The constructor derives the polar attributes from the coordinates, with the
library's own formula for the angle (see "## Findings").
- `rotate` turns the stored angle by a number of degrees and places the point
  at `length` from a center.
- `set`, and the `x`, `y` and `angle` setters, either place the point from a
  new angle (the length is kept) or take new coordinates (the length is
  recomputed, the angle cache is not).

The queries are distance, equality, dot and cross products, collinearity,
orthogonality, projection, rectangle containment and the quadrant test. The
five vector operations take a number, applied to both components, or a
position, applied per component; division and remainder by 0 give 0.

The project has six modules:
- `Numeric`: the numeric environment. `Math.sqrt`, `atan`, `cos`, `sin` and
  `PI` are an abstract `MathLib`, constrained only by facts of real analysis.
- `Vector`: the five operations, with `%` as the remainder of the truncated
  quotient.
- `Angles`: angle derivation from coordinates, `checkAngle`,
  `getAnglePropByAngle` and the quadrant test.
- `Geometry`: distance, products, slopes, projection, rounding, `isInside`,
  and `min`/`max` as folds.
- `PointStates`: a point's state as a value, with the construction, `rotate`
  and `set` transitions and the invariant `WellFormed` they keep.
- `Points`: the class `Point`. Its mutating methods are proved to produce
  the states given by `PointStates`, and its queries to agree with
  `Geometry` and `Angles`.

## Model

| member | source | states |
|---|---|---|
| Numeric.RadToDegBounds | canvas/es/point.ts:362 | a reference angle in [0, pi/2] radians converts to [0, 90] degrees, 0 and 90 exactly at the ends |
| Numeric.DegRadRoundTrip | canvas/es/point.ts:389 | converting radians to degrees and back with the library's two formulas gives the radians unchanged |
| Vector.Add | canvas/es/vector.ts:25-36 | each component is the position's plus the operand's, a scalar counting for both components |
| Vector.Subtract | canvas/es/vector.ts:41-52 | each component is the position's minus the operand's |
| Vector.Multiply | canvas/es/vector.ts:57-68 | each component is the position's times the operand's |
| Vector.Divide | canvas/es/vector.ts:72-88 | per component: 0 for a zero divisor, otherwise the quotient (times the divisor it gives the dividend) |
| Vector.Modulo | canvas/es/vector.ts:93-109 | per component: 0 for a zero divisor, otherwise the truncated remainder: a whole multiple of the divisor away from the dividend, smaller than the divisor, with the dividend's sign |
| Vector.TruncRem | canvas/es/vector.ts:101 | the host's `%` yields the truncated remainder as characterised by `IsTruncatedRemainder` |
| Vector.TruncatedRemainderUnique | canvas/es/vector.ts:101 | at most one value has the properties of a truncated remainder, so the characterisation of `Modulo` fixes its result |
| Vector.AddSubtractInverse | canvas/es/vector.ts:25-52 | subtracting an operand undoes adding it, and the other way round |
| Vector.DivideUndoesMultiply | canvas/es/vector.ts:57-88 | dividing undoes multiplying in every component with a non-zero divisor; a zero divisor gives 0 |
| Vector.ScalarIsBroadcast | canvas/es/vector.ts:25-109 | for all five operations a scalar `s` acts exactly as the position `(s, s)`, 0 included |
| Vector.ZeroScalarGivesOrigin | canvas/es/vector.ts:76-99 | dividing or taking the remainder by the scalar 0 gives the origin |
| Vector.ZeroDivisorIsPerComponent | canvas/es/vector.ts:84-106 | a zero divisor component zeroes only its own component |
| Angles.Quadrant | canvas/es/point.ts:346-353 | quadrant 1 for x >= 0 and y >= 0, 2 for x < 0 and y >= 0, 3 for x <= 0 and y < 0, otherwise 4, each as an if-and-only-if |
| Angles.QuadrantScaleInvariant | canvas/es/point.ts:346-353 | scaling a position by a positive factor keeps its quadrant |
| Angles.AbsAtanOfSlope | canvas/es/point.ts:343-345 | the absolute arctangent of `y / x` is in [0, pi/2], is pi/2 exactly on the y axis and 0 exactly on the x axis |
| Angles.GetAngleProp | canvas/es/point.ts:327-371 | the origin gives angle 0, radians 0, quadrant 1; otherwise the quadrant of the signs, the reference angle in [0, pi/2], and angle 0 or 180 on the x axis |
| Angles.AnglePropRoundTrip | canvas/es/point.ts:327-371 | the derived angle is in [0, 360), lies in the derived quadrant, and decomposes back into that quadrant and the point's own `angleInRadians` |
| Angles.OriginAngleProp | canvas/es/point.ts:336-341 | the origin's attributes are fixed, and its scale factors are those of 0 degrees in quadrant 1 |
| Angles.GetAnglePropAsWritten | canvas/es/point.ts:362 | the written derivation: same quadrant, radians and axis cases as `GetAngleProp` |
| Angles.AsWrittenMisplacesReference | canvas/es/point.ts:362 | in quadrants 2 and 4 the written angle decomposes into `90 - reference`, which differs from the point's own reference angle unless that is 45 degrees |
| Angles.AsWrittenAngleInRange | canvas/es/point.ts:346-363 | the written angle of any position other than the origin is in [0, 360) and lies in the sector of the derived quadrant |
| Angles.AsWrittenAgreesElsewhere | canvas/es/point.ts:362 | in quadrants 1 and 3 and on the axes the written and corrected derivations agree |
| Angles.Normalize | canvas/es/point.ts:373-384 | a positive angle goes into (0, 360] and any other into [0, 360), changed by whole turns only |
| Angles.NormalizeUnique | canvas/es/point.ts:373-384 | any value in that range that differs from the input by whole turns is the normalised one |
| Angles.NormalizeFixesRange | canvas/es/point.ts:373-384 | an angle already in [0, 360] is left as it is |
| Angles.NormalizeWholeTurns | canvas/es/point.ts:373-384 | a positive whole number of turns normalises to 360, any other to 0 |
| Angles.QuadrantOfAngle | canvas/es/point.ts:392-412 | quadrant 4 above 270, 3 in (180, 270], 2 in (90, 180], otherwise 1 |
| Angles.ReferenceAngle | canvas/es/point.ts:394-409 | the reference angle of an angle in [0, 360] is in [0, 90] and rebuilds that angle within its quadrant |
| Angles.AnglePropsFor | canvas/es/point.ts:386-420 | the normalised angle and its quadrant, the radians of the current angle, and the cosine and sine of the reference angle with their signs negated in quadrants 2 and 3 and in 3 and 4 respectively |
| PointStates.AnglePropsOfSameNormalized | canvas/es/point.ts:386-388 | the attributes for a requested angle depend on it only through its normalised value |
| Angles.InQuadrant | canvas/es/point.ts:197-211 | a quadrant other than the stored one passes only for an angle on an axis, and then only quadrants 1 to 4 |
| Angles.InQuadrantIsClosedSector | canvas/es/point.ts:197-211 | for an angle in [0, 360] with its own quadrant stored, the test holds exactly on the closed 90-degree sector, so an axis belongs to both of its quadrants |
| Geometry.Length | canvas/es/point.ts:323-325 | the distance is never negative and is 0 between equal positions |
| Geometry.LengthSymmetric | canvas/es/point.ts:323-325 | the distance does not depend on the order of the positions |
| Geometry.Equals | canvas/es/point.ts:319-321 | true exactly for equal coordinates |
| Geometry.Dot | canvas/es/point.ts:213-215 | the dot product of a position with itself is not negative |
| Geometry.Cross | canvas/es/point.ts:217-219 | the cross product is 0 for a position with itself and with the origin |
| Geometry.ProductSymmetries | canvas/es/point.ts:213-219 | the dot product is symmetric, the cross product antisymmetric and 0 for a position with itself |
| Geometry.SlopeOf | canvas/es/point.ts:186 | `y / x` is finite exactly off the y axis and NaN exactly at the origin |
| Geometry.IsCollinear | canvas/es/point.ts:185-187 | collinear positions are both off the origin, and both on or both off the y axis |
| Geometry.CollinearIsZeroCross | canvas/es/point.ts:185-187 | off the y axis, equal slopes are exactly a zero cross product |
| Geometry.CollinearOnYAxis | canvas/es/point.ts:185-187 | with a position on the y axis the test holds exactly when both are on it on the same side of the origin |
| Geometry.IsOrthogonal | canvas/es/point.ts:189-191 | orthogonal positions are off both axes |
| Geometry.OrthogonalIsZeroDot | canvas/es/point.ts:189-191 | the test holds exactly for two positions off the y axis with a zero dot product |
| Geometry.Projection | canvas/es/point.ts:221-232 | no projection exactly when `p` is on the y axis, where the host's slope is infinite or NaN |
| Geometry.ProjectionIsPerpendicularFoot | canvas/es/point.ts:221-232 | the projection lies on the line through the origin and `p`, and the rest of the point is perpendicular to `p` |
| Geometry.Round | canvas/es/point.ts:234-236 | `Math.round` is the whole number within a half, halves going up |
| Geometry.Ceil | canvas/es/point.ts:238-240 | `Math.ceil` is the least whole number not below the value |
| Geometry.Floor | canvas/es/point.ts:242-244 | `Math.floor` is the greatest whole number not above the value |
| Geometry.RoundingOrder | canvas/es/point.ts:234-244 | floor, round and ceil are ordered, and round is one of the other two |
| Geometry.RoundingFixesWhole | canvas/es/point.ts:234-244 | each rounding leaves a whole number unchanged |
| Geometry.IsInside | canvas/es/point.ts:164-174 | inside exactly when x is in [rect.x, rect.x + width] and y in [rect.y, rect.y + height] |
| Geometry.IsInsideTranslationInvariant | canvas/es/point.ts:164-174 | moving the point and the rectangle together does not change the answer |
| Geometry.IsInsideAsWritten | canvas/es/point.ts:164-174 | true exactly when x is in [rect.x, rect.x + width] and y in [rect.y, rect.height] |
| Geometry.IsInsideAsWrittenAtZeroY | canvas/es/point.ts:166 | for a rectangle at y = 0 the written test is the intended one |
| Geometry.IsInsideAsWrittenMissesPoint | canvas/es/point.ts:166 | the written test rejects (1, 12) in the rectangle at (0, 10) of size 5 by 5, but accepts the same configuration at y = 0 |
| Geometry.MinFold | canvas/es/point.ts:299-302 | the running `Math.min` is at most the last value taken |
| Geometry.MaxFold | canvas/es/point.ts:309-312 | the running `Math.max` is at least the last value taken |
| Geometry.MinFoldIsLeast | canvas/es/point.ts:296-304 | the running minimum is below the seed and every value, and is the seed or one of the values |
| Geometry.MaxFoldIsGreatest | canvas/es/point.ts:306-314 | the running maximum is above the seed and every value, and is the seed or one of the values |
| Geometry.MinOfFiniteIsAttained | canvas/es/point.ts:296-304 | seeded with `Number.MAX_VALUE`, the minimum of finite values is one of them |
| Geometry.MaxOfFiniteIsAttained | canvas/es/point.ts:306-314 | seeded with `-Number.MAX_VALUE`, the maximum of finite values is one of them |
| Geometry.MaxSeededWithMinValueMasksNegatives | canvas/es/point.ts:307-308 | seeded with `Number.MIN_VALUE`, the maximum of values all below it is the seed, none of the values |
| Geometry.MinPosition | canvas/es/point.ts:296-304 | the result is at or below every position in both components |
| Geometry.MaxPositionAsWritten | canvas/es/point.ts:306-314 | the written result is at or above every position and never below `Number.MIN_VALUE` |
| Geometry.MaxPosition | canvas/es/point.ts:306-314 | the result is at or above every position in both components |
| Geometry.MaxAsWrittenOfNegativePoint | canvas/es/point.ts:307-308 | the written maximum of the single point (-1, -1) is (MIN_VALUE, MIN_VALUE); the corrected one is (-1, -1) |
| PointStates.InitialShapesAgree | canvas/es/point.ts:98-116 | an array or a record holding x and y builds the same point as the two numbers; extra array entries are ignored, missing ones are 0 |
| PointStates.InitialCoords | canvas/es/point.ts:98-116 | an array gives its first entry as x and its second as y, a missing entry counting as 0 |
| PointStates.NewState | canvas/es/point.ts:117-124 | a new point has the given coordinates, the length and the angle attributes that `getAngleProp` as written derives from them (`Synchronized`), its quadrant from the signs, and is well formed |
| PointStates.DerivedAngleInRange | canvas/es/point.ts:120-124 | the angle that `getAngleProp` as written derives for any position, the origin included, is in [0, 360) and in the derived quadrant |
| PointStates.NewStateMisplacesReference | canvas/es/point.ts:120-124 | a new point in quadrant 2 or 4 stores an angle whose reference angle is 90 degrees less its own `angleInRadians` in degrees |
| PointStates.Rotated | canvas/es/point.ts:146-158 | the length is kept, the angle is the normalised old angle less the normalised turn, the quadrant is the new angle's, the radians are those of the old angle, and the state stays well formed |
| PointStates.PlacedAbout | canvas/es/point.ts:153-157 | the placed point is offset from the center by the scale factors times the length, and carries the angle attributes it was placed by |
| PointStates.RotateKeepsDistanceToCenter | canvas/es/point.ts:153-154 | the rotated point is at distance `length` from the center |
| PointStates.RotateTurnsBy | canvas/es/point.ts:147-151 | the new angle is the old one less the turn, up to whole turns |
| PointStates.RotationsCompose | canvas/es/point.ts:146-158 | two rotations turn the angle by their sum, up to whole turns, whatever the centers |
| PointStates.RotatedBySameNormalized | canvas/es/point.ts:147-151 | two turns that reach the same normalised angle give the same rotated state |
| PointStates.RotateFullTurn | canvas/es/point.ts:146-158 | a full turn is the same as no turn, unless the stored angle is exactly 360 |
| PointStates.RotateFullTurnAt360 | canvas/es/point.ts:146-158 | at a stored angle of 360, a full turn gives angle 0 in quadrant 1 but no turn keeps 360 in quadrant 4 |
| PointStates.WithAngle | canvas/es/point.ts:251-258 | the angle branch keeps the length, takes the normalised angle with its quadrant and the old angle's radians, and stays well formed |
| PointStates.WithCoords | canvas/es/point.ts:259-266 | a coordinate branch takes the new coordinates, recomputes the length and keeps the angle cache |
| PointStates.Updated | canvas/es/point.ts:250-267 | given coordinates are taken, with the length recomputed from them; a given angle is normalised; without an angle the angle cache is kept; well-formedness is kept |
| PointStates.UpdateNothing | canvas/es/point.ts:250-267 | a `set` with no field changes nothing |
| PointStates.SetBothCoordinates | canvas/es/point.ts:259-266 | setting x and y gives a new point's state at them, except for the kept angle cache |
| PointStates.SetXLeavesAngleStale | canvas/es/point.ts:259-262 | the point (1, 0) moved to x = -1 keeps angle 0 and quadrant 1 where a new point there has 180 and 2 |
| PointStates.SetAngleKeepsRadius | canvas/es/point.ts:251-258 | after setting the angle the point is at distance `length` from the origin and the length is unchanged |
| PointStates.SetAngleRadiansLag | canvas/es/point.ts:252-254 | setting 180 degrees on the point (0, 1) leaves `angleInRadians` at pi/2, not the new angle's radians |
| PointStates.StepsKeepWellFormed | canvas/es/point.ts:146-267 | any sequence of rotations and sets keeps a point well formed |
| Points.Point.constructor | canvas/es/point.ts:93-125 | the new point's state is `NewState` of the coordinates taken from its argument: the attributes `getAngleProp` derives as written, and well formed |
| Points.Point.CheckAngle | canvas/es/point.ts:373-384 | the two loops yield the normalised angle |
| Points.Point.AnglePropByAngle | canvas/es/point.ts:386-420 | the branches yield the attributes `AnglePropsFor` specifies for the current angle |
| Points.Point.Rotate | canvas/es/point.ts:146-158 | the new state is the rotated old state, and well-formedness is kept |
| Points.Point.PlaceAbout | canvas/es/point.ts:153-157 | the placement step of `rotate` yields the state at `length` from the center in the direction given |
| Points.Point.Set | canvas/es/point.ts:250-267 | the new state is the updated old state, and well-formedness is kept |
| Points.Point.PlaceAtAngle | canvas/es/point.ts:251-258 | the angle branch yields the state `WithAngle` specifies |
| Points.Point.SetX | canvas/es/point.ts:433-435 | the `x` setter is `set` with `x` alone |
| Points.Point.SetY | canvas/es/point.ts:439-441 | the `y` setter is `set` with `y` alone |
| Points.Point.SetAngle | canvas/es/point.ts:426-428 | the `angle` setter is `set` with the angle alone |
| Points.Point.Equals | canvas/es/point.ts:127-129 | true exactly for the point's own coordinates |
| Points.Point.IsZero | canvas/es/point.ts:193-195 | true exactly at the origin |
| Points.Point.GetDistance | canvas/es/point.ts:142-144 | the same measure as `getLength`: never negative, 0 to the point itself |
| Points.Point.IsInside | canvas/es/point.ts:164-174 | as written: true exactly when x is in [rect.x, rect.x + width] and y in [rect.y, rect.height] |
| Points.Point.IsClose | canvas/es/point.ts:176-183 | close exactly when the distance is within the tolerance; a point is close to itself |
| Points.Point.IsCollinear | canvas/es/point.ts:185-187 | off the y axis, collinear exactly for a zero cross product |
| Points.Point.IsOrthogonal | canvas/es/point.ts:189-191 | orthogonal exactly for a zero dot product off the y axis |
| Points.Point.IsInQuadrant | canvas/es/point.ts:197-211 | on a well-formed point, whether the angle lies in the closed sector of the quadrant |
| Points.Point.Dot | canvas/es/point.ts:213-215 | symmetric, and not negative for the point with itself |
| Points.Point.Cross | canvas/es/point.ts:217-219 | antisymmetric, and 0 for the point with itself |
| Points.Point.Clone | canvas/es/point.ts:131-133 | a fresh point whose attributes are derived afresh from the same coordinates |
| Points.Point.Project | canvas/es/point.ts:221-232 | a fresh point at the projection, none exactly when `p` is on the y axis |
| Points.Point.Round | canvas/es/point.ts:234-236 | a fresh point at the rounded coordinates |
| Points.Point.Ceil | canvas/es/point.ts:238-240 | a fresh point at the coordinates rounded up |
| Points.Point.Floor | canvas/es/point.ts:242-244 | a fresh point at the coordinates rounded down |
| Points.Point.Abs | canvas/es/point.ts:246-248 | a fresh point at the absolute coordinates |
| Points.Point.Add | canvas/es/point.ts:269-273 | a fresh point at `Vector.Add` of the point and the operand |
| Points.Point.Subtract | canvas/es/point.ts:274-278 | a fresh point at `Vector.Subtract` of the point and the operand |
| Points.Point.Multiply | canvas/es/point.ts:279-283 | a fresh point at `Vector.Multiply` of the point and the operand |
| Points.Point.Divide | canvas/es/point.ts:284-288 | a fresh point at `Vector.Divide` of the point and the operand |
| Points.Point.Modulo | canvas/es/point.ts:289-293 | a fresh point at `Vector.Modulo` of the point and the operand |
| Points.Point.MinCoordinates | canvas/es/point.ts:297-302 | the loop yields the component-wise minimum `MinPosition` |
| Points.Point.MaxCoordinates | canvas/es/point.ts:307-312 | the loop, seeded with `Number.MIN_VALUE` as written, yields `MaxPositionAsWritten`: at or above every position and never below `Number.MIN_VALUE` |
| Points.Point.Min | canvas/es/point.ts:296-304 | a fresh point at the component-wise minimum |
| Points.Point.Max | canvas/es/point.ts:306-314 | a fresh point at the written maximum `MaxPositionAsWritten`, so (MIN_VALUE, MIN_VALUE) for [(-1, -1)] |

## Left out

- Numbers are mathematical reals. Floating-point rounding, overflow to infinity, signed zero and NaN are not modelled, except where a division by zero decides a branch. There, the infinite or NaN slope is modelled explicitly (`Geometry.SlopeOf`, `Geometry.IsOrthogonal`, `Geometry.Projection`). The range results hold over the reals only. For example, in doubles `Math.atan(-1e20)` rounds to exactly `-Math.PI / 2`, so the point (1e-20, -1) gets the angle 360, outside the [0, 360) that `Angles.AsWrittenAngleInRange` and `PointStates.DerivedAngleInRange` state.
- `Math.sqrt`, `Math.atan`, `Math.cos`, `Math.sin` and `Math.PI` have no values. They are constrained by:
  - pi > 0;
  - square roots are not negative, and the square root of 0 is 0;
  - arctangent: 0 at 0, and strictly between 0 and ±pi/2 on the side of its argument;
  - cos² + sin² = 1.
  Properties that need more, such as the rotated point having the new angle as its derived angle, are not stated.
- `PointStates.RotateKeepsDistanceToCenter`, `PointStates.SetAngleKeepsRadius`: these hold in exact arithmetic. The host's cosine, sine and products agree with them only up to rounding.
- `Angles.AbsAtanOfSlope`: on the y axis the host computes `atan(±Infinity)`; the model takes this to be pi/2 directly.
- `Point.random` is not modelled, because it depends on `Math.random`.
- `toString` is not modelled, because it is JSON text for diagnostics.
- `transform` is not modelled, because it only logs to the console. The log line in `project` is left out as well.
- The overload signatures, the `PointInterface` and `VectorInterface` types and the `selected` getter are reduced to the class's fields. `selected` is a constant `false`.
- `Geometry.Round`: the host's `Math.round` of a negative half (e.g. -2.5 gives -2) matches `floor(v + 0.5)`. The sign of a zero result is not modelled.
- `Points.Point.CheckAngle`: the model proves that both loops terminate, which holds over the reals only. In doubles, subtracting or adding 360 leaves a value above about 2^62 in magnitude (such as 1e19), or an infinity, unchanged, so the source's loops at lines 375-381 of `canvas/es/point.ts` never end for such input.
- `Points.Point.Min`, `Points.Point.Max`: the source passes `points.map` a callback for its side effect. The model uses a loop over a sequence.

## Findings

| source | as written | input that shows it | evidently intended | confidence | as-written member | corrected member |
|---|---|---|---|---|---|---|
| canvas/es/point.ts:362 | `angle = 180·angleInRadians/PI + (quadrant − 1)·90` | the position (-1, 2): reference angle ≈ 63.43°; written angle ≈ 153.43° instead of ≈ 116.57° | 180 − reference in quadrant 2, 180 + reference in 3, 360 − reference in 4 | high, not executed | Angles.GetAnglePropAsWritten, Angles.AsWrittenMisplacesReference | Angles.GetAngleProp, Angles.AnglePropRoundTrip |
| canvas/es/point.ts:166 | `this.#y <= rect.height` | the point (1, 12) and the rectangle at (0, 10) of size 5 by 5 | `this.#y <= rect.y + rect.height`, like the x bound | high, not executed | Geometry.IsInsideAsWritten, Geometry.IsInsideAsWrittenMissesPoint | Geometry.IsInside, Geometry.IsInsideTranslationInvariant |
| canvas/es/point.ts:307-308 | `Point.max` starts from `Number.MIN_VALUE`, the smallest positive double | the single point (-1, -1) gives (5e-324, 5e-324) | start from `-Number.MAX_VALUE`, mirroring `Point.min` | high, not executed | Geometry.MaxPositionAsWritten, Geometry.MaxAsWrittenOfNegativePoint | Geometry.MaxPosition, Geometry.MaxOfFiniteIsAttained |

The class `Points.Point` and the transitions of `PointStates` follow the code
as written in all three places: new points take the angle of
`Angles.GetAnglePropAsWritten`, `Points.Point.IsInside` is
`Geometry.IsInsideAsWritten`, and `Points.Point.Max` is seeded with
`Number.MIN_VALUE`. The corrected definitions stand beside them, each with
its intended property proved.

The model also keeps two behaviours of the cache as the code writes them.
The source documents neither as intended: lines 15-18 of
`canvas/es/point.ts` describe `angle` and `angleInRadians` as measured from
the positive x axis, which both behaviours contradict.
- The `x` and `y` setters recompute the length but not the angle, radians or
  quadrant (`PointStates.SetXLeavesAngleStale`).
- `rotate` and the angle branch of `set` store the radians of the angle held
  before the change (`PointStates.SetAngleRadiansLag`). Line 389 reads the
  stored angle where the requested one is in scope.
