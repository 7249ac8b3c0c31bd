/**
 * The polar bookkeeping of a point: the quadrant of a position, the angle
 * derived from its coordinates (`getAngleProp`), angle normalisation
 * (`checkAngle`), the quadrant and unit-circle scale factors for a target
 * angle (`getAnglePropByAngle`) and the quadrant test (`isInQuadrant`).
 *
 * Angles are in degrees. `angleInRadians` as derived from coordinates is the
 * absolute arctangent of the slope, a first-quadrant measure, not the radian
 * equivalent of `angle`.
 */
module Angles {
  import opened Numeric

  /** The polar attributes derived from a position. */
  datatype AngleProp = AngleProp(angle: real, angleInRadians: real, quadrant: int)

  /** The attributes chosen for a target angle, with the factors that place a length on the axes. */
  datatype AngleScale = AngleScale(angle: real, angleInRadians: real, quadrant: int, xScale: real, yScale: real)

  // ---------------------------------------------------------------------------
  // Quadrant of a position
  // ---------------------------------------------------------------------------

  /**
   * The quadrant of `(x, y)`, decided by the signs alone. The axes are shared
   * out: the non-negative x axis and the origin belong to 1, the negative
   * x axis to 2, the negative y axis to 3, and 4 is the open fourth quadrant.
   */
  function Quadrant(x: real, y: real): (q: int)
    ensures 1 <= q <= 4
    ensures q == 1 <==> x >= 0.0 && y >= 0.0
    ensures q == 2 <==> x < 0.0 && y >= 0.0
    ensures q == 3 <==> x <= 0.0 && y < 0.0
    ensures q == 4 <==> x > 0.0 && y < 0.0
  {
    if x >= 0.0 && y >= 0.0 then 1
    else if x < 0.0 && y >= 0.0 then 2
    else if x <= 0.0 && y < 0.0 then 3
    else 4
  }

  /** Scaling a position by a positive factor does not change its quadrant. */
  lemma QuadrantScaleInvariant(x: real, y: real, k: real)
    requires k > 0.0
    ensures Quadrant(k * x, k * y) == Quadrant(x, y)
  {
    QuotientSign(k * x, k);
    QuotientSign(k * y, k);
    DivisionCancels(x, k);
    DivisionCancels(y, k);
    assert k * x / k == x && k * y / k == y;
  }

  // ---------------------------------------------------------------------------
  // Angle derived from a position (getAngleProp)
  // ---------------------------------------------------------------------------

  /**
   * `|atan(y / x)|` for a position other than the origin. When `x` is 0 the
   * host's slope is an infinity, whose arctangent is plus or minus pi/2, so the
   * absolute value is pi/2.
   */
  function AbsAtanOfSlope(m: MathLib, x: real, y: real): (r: real)
    requires x != 0.0 || y != 0.0
    ensures 0.0 <= r <= m.pi / 2.0
    ensures r == m.pi / 2.0 <==> x == 0.0
    ensures r == 0.0 <==> y == 0.0
  {
    if x == 0.0 then m.pi / 2.0
    else
      QuotientSign(y, x);
      Abs(m.atan(y / x))
  }

  /** The angle measured counter-clockwise from the positive x axis, given the quadrant and the reference angle to the x axis. */
  function AngleFromReference(q: int, reference: real): real {
    if q == 1 then reference
    else if q == 2 then 180.0 - reference
    else if q == 3 then 180.0 + reference
    else 360.0 - reference
  }

  /**
   * The polar attributes of `(x, y)`: the origin has angle 0 and quadrant 1;
   * otherwise the reference angle is `|atan(y / x)|` and the angle is placed in
   * the quadrant given by the signs. A zero reference angle gives 0 or 180 by
   * the sign of `x`.
   */
  function GetAngleProp(m: MathLib, x: real, y: real): (r: AngleProp)
    ensures x == 0.0 && y == 0.0 ==> r == AngleProp(0.0, 0.0, 1)
    ensures r.quadrant == Quadrant(x, y)
    ensures 0.0 <= r.angleInRadians <= m.pi / 2.0
    ensures (x != 0.0 || y != 0.0) && r.angleInRadians == 0.0 ==>
              r.angle == if x >= 0.0 then 0.0 else 180.0
  {
    if x == 0.0 && y == 0.0 then
      AngleProp(0.0, 0.0, 1)
    else
      var air := AbsAtanOfSlope(m, x, y);
      var q := Quadrant(x, y);
      var angle := if air == 0.0 then (if x >= 0.0 then 0.0 else 180.0)
                   else AngleFromReference(q, RadToDeg(m, air));
      AngleProp(angle, air, q)
  }

  /**
   * The angle derivation as the library writes it: the reference angle plus
   * 90 degrees per quadrant. In quadrants 2 and 4 this measures the reference
   * angle from the wrong axis (see `AsWrittenMisplacesReference`).
   */
  function GetAnglePropAsWritten(m: MathLib, x: real, y: real): (r: AngleProp)
    ensures x == 0.0 && y == 0.0 ==> r == AngleProp(0.0, 0.0, 1)
    ensures r.quadrant == Quadrant(x, y)
    ensures 0.0 <= r.angleInRadians <= m.pi / 2.0
    ensures (x != 0.0 || y != 0.0) && r.angleInRadians == 0.0 ==>
              r.angle == if x >= 0.0 then 0.0 else 180.0
  {
    if x == 0.0 && y == 0.0 then
      AngleProp(0.0, 0.0, 1)
    else
      var air := AbsAtanOfSlope(m, x, y);
      var q := Quadrant(x, y);
      var angle := if air == 0.0 then (if x >= 0.0 then 0.0 else 180.0)
                   else RadToDeg(m, air) + (q - 1) as real * 90.0;
      AngleProp(angle, air, q)
  }

  // ---------------------------------------------------------------------------
  // Normalisation (checkAngle)
  // ---------------------------------------------------------------------------

  /**
   * What `checkAngle` computes: a positive angle brought into (0, 360] by whole
   * turns, any other angle into [0, 360).
   */
  function Normalize(val: real): (r: real)
    ensures 0.0 <= r <= 360.0
    ensures val > 0.0 ==> r > 0.0
    ensures val <= 0.0 ==> r < 360.0
    ensures IsWhole((val - r) / 360.0)
  {
    var turns := (val / 360.0).Floor;
    var rest := val - 360.0 * (turns as real);
    assert (val - rest) / 360.0 == turns as real;
    if val > 0.0 && rest == 0.0 then
      assert (val - 360.0) / 360.0 == (turns - 1) as real;
      360.0
    else
      rest
  }

  /**
   * The range conditions and a whole number of turns determine the normalised
   * angle: any such `r` is `Normalize(val)`.
   */
  lemma NormalizeUnique(val: real, r: real, turns: int)
    requires 0.0 <= r <= 360.0
    requires r == val - 360.0 * (turns as real)
    requires val > 0.0 ==> r > 0.0
    requires val <= 0.0 ==> r < 360.0
    ensures r == Normalize(val)
  {
    var n := Normalize(val);
    var j := ((val - n) / 360.0).Floor;
    assert val - n == 360.0 * (j as real);
    assert n - r == 360.0 * ((turns - j) as real);
  }

  /** An angle already in [0, 360] is left unchanged. */
  lemma NormalizeFixesRange(val: real)
    requires 0.0 <= val <= 360.0
    ensures Normalize(val) == val
  {
    NormalizeUnique(val, val, 0);
  }

  /** Whole turns: a positive multiple of 360 becomes 360, and any other multiple becomes 0. */
  lemma NormalizeWholeTurns(k: int)
    ensures k >= 1 ==> Normalize(360.0 * (k as real)) == 360.0
    ensures k <= 0 ==> Normalize(360.0 * (k as real)) == 0.0
  {
    if k >= 1 {
      NormalizeUnique(360.0 * (k as real), 360.0, k - 1);
    } else {
      NormalizeUnique(360.0 * (k as real), 0.0, k);
    }
  }

  // ---------------------------------------------------------------------------
  // Quadrant and scale factors for a target angle (getAnglePropByAngle)
  // ---------------------------------------------------------------------------

  /** The quadrant chosen for a normalised angle: thresholds at 90, 180 and 270, upper ends included. */
  function QuadrantOfAngle(a: real): (q: int)
    ensures 1 <= q <= 4
    ensures q == 4 <==> a > 270.0
    ensures q == 3 <==> 180.0 < a <= 270.0
    ensures q == 2 <==> 90.0 < a <= 180.0
    ensures q == 1 <==> a <= 90.0
  {
    if a > 270.0 then 4 else if a > 180.0 then 3 else if a > 90.0 then 2 else 1
  }

  /**
   * The reference angle, in degrees, that the scale factors are taken of. For
   * an angle in [0, 360] it lies in [0, 90], and placing it back in the chosen
   * quadrant gives the angle again.
   */
  function ReferenceAngle(a: real): (r: real)
    ensures 0.0 <= a <= 360.0 ==> 0.0 <= r <= 90.0
    ensures AngleFromReference(QuadrantOfAngle(a), r) == a
  {
    if a > 270.0 then 360.0 - a
    else if a > 180.0 then a - 180.0
    else if a > 90.0 then 180.0 - a
    else a
  }

  /**
   * The quadrant and scale factors for the target angle `val`, for a point
   * whose current angle is `current`. The angle is normalised first; the
   * reported radian measure is that of `current`, not of the new angle.
   */
  function AnglePropsFor(m: MathLib, current: real, val: real): (r: AngleScale)
    ensures r.angle == Normalize(val)
    ensures r.angleInRadians == DegToRad(m, current)
    ensures r.quadrant == QuadrantOfAngle(r.angle)
    ensures 0.0 <= ReferenceAngle(r.angle) <= 90.0
    ensures var c := m.cos(DegToRad(m, ReferenceAngle(r.angle)));
            r.xScale == if r.quadrant == 2 || r.quadrant == 3 then -c else c
    ensures var s := m.sin(DegToRad(m, ReferenceAngle(r.angle)));
            r.yScale == if r.quadrant == 3 || r.quadrant == 4 then -s else s
  {
    var a := Normalize(val);
    var radians := current * m.pi / 180.0;
    if a > 270.0 then
      var ar := (360.0 - a) * m.pi / 180.0;
      assert ar == DegToRad(m, ReferenceAngle(a));
      AngleScale(a, radians, 4, m.cos(ar), -m.sin(ar))
    else if a > 180.0 then
      var ar := (a - 180.0) * m.pi / 180.0;
      assert ar == DegToRad(m, ReferenceAngle(a));
      AngleScale(a, radians, 3, -m.cos(ar), -m.sin(ar))
    else if a > 90.0 then
      var ar := (180.0 - a) * m.pi / 180.0;
      assert ar == DegToRad(m, ReferenceAngle(a));
      AngleScale(a, radians, 2, -m.cos(ar), m.sin(ar))
    else
      var ar := a * m.pi / 180.0;
      assert ar == DegToRad(m, ReferenceAngle(a));
      AngleScale(a, radians, 1, m.cos(ar), m.sin(ar))
  }

  /**
   * A quadrant and a reference angle admissible for it (the axis between two
   * quadrants belongs to exactly one of them) are recovered from the angle
   * they make.
   */
  predicate Admissible(q: int, reference: real) {
    || (q == 1 && 0.0 <= reference <= 90.0)
    || (q == 2 && 0.0 <= reference < 90.0)
    || (q == 3 && 0.0 < reference <= 90.0)
    || (q == 4 && 0.0 <= reference < 90.0)
  }

  lemma DecomposeRecompose(q: int, reference: real)
    requires Admissible(q, reference)
    ensures var a := AngleFromReference(q, reference);
            0.0 <= a <= 360.0 && QuadrantOfAngle(a) == q && ReferenceAngle(a) == reference
  {
  }

  // ---------------------------------------------------------------------------
  // The derived angle against the scale factors
  // ---------------------------------------------------------------------------

  /** The quadrant and the degree form of the reference angle of a position other than the origin are admissible. */
  lemma PositionReferenceAdmissible(m: MathLib, x: real, y: real)
    requires x != 0.0 || y != 0.0
    ensures Admissible(Quadrant(x, y), RadToDeg(m, AbsAtanOfSlope(m, x, y)))
  {
    var air := AbsAtanOfSlope(m, x, y);
    RadToDegBounds(m, air);
  }

  /**
   * The derived angle is in [0, 360), lies in the derived quadrant's sector,
   * and decomposes into that quadrant and the point's own reference angle: the
   * scale factors chosen for it are the cosine and sine of the point's own
   * `angleInRadians`, with the signs of its quadrant.
   */
  lemma AnglePropRoundTrip(m: MathLib, x: real, y: real)
    requires x != 0.0 || y != 0.0
    ensures var r := GetAngleProp(m, x, y);
      && 0.0 <= r.angle < 360.0
      && QuadrantOfAngle(r.angle) == r.quadrant
      && DegToRad(m, ReferenceAngle(r.angle)) == r.angleInRadians
  {
    var r := GetAngleProp(m, x, y);
    var air := AbsAtanOfSlope(m, x, y);
    var deg := RadToDeg(m, air);
    PositionReferenceAdmissible(m, x, y);
    RadToDegBounds(m, air);
    DegRadRoundTrip(m, air);
    if air == 0.0 {
      assert deg == 0.0;
      assert r.angle == AngleFromReference(r.quadrant, deg);
    }
    DecomposeRecompose(r.quadrant, deg);
    assert r.angle != 360.0;
  }

  /** Where the origin is concerned the attributes are fixed; the scale factors for its angle are those of quadrant 1 at 0 degrees. */
  lemma OriginAngleProp(m: MathLib, current: real)
    ensures GetAngleProp(m, 0.0, 0.0) == AngleProp(0.0, 0.0, 1)
    ensures var s := AnglePropsFor(m, current, 0.0);
      s.quadrant == 1 && s.angle == 0.0 && s.xScale == m.cos(0.0) && s.yScale == m.sin(0.0)
  {
    NormalizeFixesRange(0.0);
  }

  /**
   * As written, the derived angle of a position in quadrant 2 or 4 measures the
   * reference angle from the y axis: decomposing it gives `90 - reference`, so
   * it differs from the position's own reference angle unless that is 45
   * degrees.
   */
  lemma AsWrittenMisplacesReference(m: MathLib, x: real, y: real)
    requires (x < 0.0 && y > 0.0) || (x > 0.0 && y < 0.0)
    ensures var r := GetAnglePropAsWritten(m, x, y);
            var deg := RadToDeg(m, r.angleInRadians);
      && QuadrantOfAngle(r.angle) == r.quadrant
      && ReferenceAngle(r.angle) == 90.0 - deg
      && (deg != 45.0 ==> ReferenceAngle(r.angle) != deg)
      && (deg != 45.0 ==> r.angle != GetAngleProp(m, x, y).angle)
  {
    var air := AbsAtanOfSlope(m, x, y);
    RadToDegBounds(m, air);
  }

  /**
   * The written derivation still keeps the angle in [0, 360) and in the sector
   * of the derived quadrant: the reference angle is at most 90 degrees, and it
   * is below 90 off the y axis and above 0 off the x axis.
   */
  lemma AsWrittenAngleInRange(m: MathLib, x: real, y: real)
    requires x != 0.0 || y != 0.0
    ensures var r := GetAnglePropAsWritten(m, x, y);
      && 0.0 <= r.angle < 360.0
      && QuadrantOfAngle(r.angle) == r.quadrant
  {
    RadToDegBounds(m, AbsAtanOfSlope(m, x, y));
  }

  /** In quadrants 1 and 3, and on the axes, the written derivation agrees with the corrected one. */
  lemma AsWrittenAgreesElsewhere(m: MathLib, x: real, y: real)
    requires !((x < 0.0 && y > 0.0) || (x > 0.0 && y < 0.0))
    ensures GetAnglePropAsWritten(m, x, y) == GetAngleProp(m, x, y)
  {
  }

  // ---------------------------------------------------------------------------
  // Quadrant membership (isInQuadrant)
  // ---------------------------------------------------------------------------

  /**
   * The quadrant test: an angle exactly on an axis belongs to both adjacent
   * quadrants; otherwise the stored quadrant decides.
   */
  function InQuadrant(angle: real, stored: int, q: int): (r: bool)
    ensures r && q != stored ==> angle == 0.0 || angle == 90.0 || angle == 180.0 || angle == 270.0 || angle == 360.0
    ensures r ==> 1 <= q <= 4 || q == stored
  {
    if angle == 360.0 || angle == 0.0 then q == 1 || q == 4
    else if angle == 90.0 then q == 1 || q == 2
    else if angle == 180.0 then q == 3 || q == 2
    else if angle == 270.0 then q == 3 || q == 4
    else stored == q
  }

  /** The closed 90-degree sector of quadrant `q`, 0 and 360 being the same direction. */
  predicate InClosedSector(angle: real, q: int) {
    || (q == 1 && (0.0 <= angle <= 90.0 || angle == 360.0))
    || (q == 2 && 90.0 <= angle <= 180.0)
    || (q == 3 && 180.0 <= angle <= 270.0)
    || (q == 4 && (270.0 <= angle <= 360.0 || angle == 0.0))
  }

  /** With the quadrant that the angle selects stored, the test holds exactly on the closed sector. */
  lemma InQuadrantIsClosedSector(angle: real, q: int)
    requires 0.0 <= angle <= 360.0
    ensures InQuadrant(angle, QuadrantOfAngle(angle), q) <==> InClosedSector(angle, q)
  {
  }
}
