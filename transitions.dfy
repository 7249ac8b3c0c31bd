/**
 * The state of a point as values, and its state transitions: construction,
 * `rotate` and `set` (through which the `x`, `y` and `angle` setters go).
 * A point keeps its Cartesian coordinates together with cached polar
 * attributes (length, angle, angleInRadians, quadrant); each transition says
 * which of the two it takes as authoritative. The class `Points.Point` is
 * proved to follow these functions.
 */
module PointStates {
  import opened Numeric
  import opened Vector
  import opened Angles
  import Geometry

  datatype PointState = PointState(
    x: real,
    y: real,
    length: real,
    angle: real,
    angleInRadians: real,
    quadrant: int)

  /** The shapes a point is built from: two numbers, an array of numbers, or a record with `x` and `y`. */
  datatype PointInit = Coords(x: real, y: real) | FromArray(values: seq<real>) | FromRecord(p: Position)

  /** The coordinates the constructor takes from its argument; a missing array entry counts as 0. */
  function InitialCoords(init: PointInit): (r: Position)
    ensures init.FromArray? && |init.values| > 0 ==> r.x == init.values[0]
    ensures init.FromArray? && |init.values| > 1 ==> r.y == init.values[1]
    ensures init.FromArray? && |init.values| < 2 ==> r.y == 0.0 && (|init.values| == 0 ==> r.x == 0.0)
  {
    match init
    case Coords(x, y) => Position(x, y)
    case FromArray(values) =>
      if |values| > 1 then Position(values[0], values[1])
      else if |values| > 0 then Position(values[0], 0.0)
      else Position(0.0, 0.0)
    case FromRecord(p) => p
  }

  /**
   * The three shapes agree: an array or a record holding `x` and `y` builds the
   * point `(x, y)`, entries of an array past the second are ignored, and a
   * short array is padded with zeros.
   */
  lemma InitialShapesAgree(x: real, y: real, rest: seq<real>)
    ensures InitialCoords(FromArray([x, y] + rest)) == InitialCoords(Coords(x, y))
    ensures InitialCoords(FromRecord(Position(x, y))) == InitialCoords(Coords(x, y))
    ensures InitialCoords(FromArray([x])) == InitialCoords(Coords(x, 0.0))
    ensures InitialCoords(FromArray([])) == Origin
  {
    assert ([x, y] + rest)[0] == x && ([x, y] + rest)[1] == y;
  }

  /**
   * The invariant every transition keeps: the angle is in [0, 360], the
   * quadrant is the one the angle lies in, and the length is not negative.
   */
  predicate WellFormed(s: PointState) {
    && 0.0 <= s.angle <= 360.0
    && s.quadrant == QuadrantOfAngle(s.angle)
    && s.length >= 0.0
  }

  /** The cached attributes are those the library derives from the coordinates (`GetAnglePropAsWritten`). */
  predicate Synchronized(m: MathLib, s: PointState) {
    var props := GetAnglePropAsWritten(m, s.x, s.y);
    && s.length == Geometry.Length(m, Position(s.x, s.y), Origin)
    && s.angle == props.angle
    && s.angleInRadians == props.angleInRadians
    && s.quadrant == props.quadrant
  }

  /**
   * The state of a newly built point: the polar attributes are derived from
   * the coordinates as the library writes it, so a point in quadrant 2 or 4
   * gets the angle of `AsWrittenMisplacesReference`.
   */
  function NewState(m: MathLib, p: Position): (s: PointState)
    ensures s.x == p.x && s.y == p.y
    ensures Synchronized(m, s)
    ensures WellFormed(s)
    ensures s.quadrant == Quadrant(p.x, p.y)
  {
    var props := GetAnglePropAsWritten(m, p.x, p.y);
    DerivedAngleInRange(m, p);
    PointState(p.x, p.y, Geometry.Length(m, p, Origin), props.angle, props.angleInRadians, props.quadrant)
  }

  /**
   * A new point in the open quadrant 2 or 4 gets, as the library writes it, an
   * angle whose reference angle is the complement of its own `angleInRadians`
   * in degrees: the point (-1, 2) is stored at about 153.43 degrees, not
   * 116.57.
   */
  lemma NewStateMisplacesReference(m: MathLib, p: Position)
    requires (p.x < 0.0 && p.y > 0.0) || (p.x > 0.0 && p.y < 0.0)
    ensures var s := NewState(m, p);
      ReferenceAngle(s.angle) == 90.0 - RadToDeg(m, s.angleInRadians)
  {
    AsWrittenMisplacesReference(m, p.x, p.y);
  }

  /** The derived angle of any position, the origin included, is in [0, 360) and lies in the derived quadrant. */
  lemma DerivedAngleInRange(m: MathLib, p: Position)
    ensures 0.0 <= GetAnglePropAsWritten(m, p.x, p.y).angle < 360.0
    ensures QuadrantOfAngle(GetAnglePropAsWritten(m, p.x, p.y).angle) == GetAnglePropAsWritten(m, p.x, p.y).quadrant
  {
    if p != Origin {
      AsWrittenAngleInRange(m, p.x, p.y);
    }
  }

  /**
   * `rotate(angle, center)`: the stored angle is turned clockwise by `angle`
   * (both brought into range by `checkAngle`), and the point is placed at
   * `length` from `center` in the direction of the new angle. The length is
   * kept, and `angleInRadians` becomes the radian measure of the angle before
   * the turn.
   */
  function Rotated(m: MathLib, s: PointState, angle: real, center: Position): (r: PointState)
    ensures r.length == s.length
    ensures r.angle == Normalize(s.angle - Normalize(angle))
    ensures r.angleInRadians == DegToRad(m, s.angle)
    ensures r.quadrant == QuadrantOfAngle(r.angle)
    ensures s.length >= 0.0 ==> WellFormed(r)
  {
    PlacedAbout(AnglePropsFor(m, s.angle, s.angle - Normalize(angle)), s.length, center)
  }

  /** The state at `length` from `center` in the direction that `obj` describes, with the angle attributes of `obj`. */
  function PlacedAbout(obj: AngleScale, length: real, center: Position): (r: PointState)
    ensures r.x - center.x == obj.xScale * length && r.y - center.y == obj.yScale * length
    ensures r.length == length
    ensures (r.angle, r.angleInRadians, r.quadrant) == (obj.angle, obj.angleInRadians, obj.quadrant)
  {
    PointState(
      center.x + obj.xScale * length,
      center.y + obj.yScale * length,
      length,
      obj.angle,
      obj.angleInRadians,
      obj.quadrant)
  }

  /** The fields `set` is given; an absent one is left alone. */
  datatype Update = Update(x: Option<real>, y: Option<real>, angle: Option<real>)

  /** The angle branch of `set`: the point is placed at `length` from the origin in the direction of the new angle. */
  function WithAngle(m: MathLib, s: PointState, angle: real): (r: PointState)
    ensures r.length == s.length
    ensures r.angle == Normalize(angle)
    ensures r.angleInRadians == DegToRad(m, s.angle)
    ensures r.quadrant == QuadrantOfAngle(r.angle)
    ensures s.length >= 0.0 ==> WellFormed(r)
  {
    var obj := AnglePropsFor(m, s.angle, angle);
    PointState(s.length * obj.xScale, s.length * obj.yScale, s.length, obj.angle, obj.angleInRadians, obj.quadrant)
  }

  /** A coordinate branch of `set`: the new coordinates with the length recomputed and the angle cache kept. */
  function WithCoords(m: MathLib, s: PointState, p: Position): (r: PointState)
    ensures r.x == p.x && r.y == p.y
    ensures r.length == Geometry.Length(m, p, Origin)
    ensures (r.angle, r.angleInRadians, r.quadrant) == (s.angle, s.angleInRadians, s.quadrant)
  {
    s.(x := p.x, y := p.y, length := Geometry.Length(m, p, Origin))
  }

  /** `set(obj)`: the angle branch first, then `x`, then `y`, each applied to what the previous one left. */
  function Updated(m: MathLib, s: PointState, u: Update): (r: PointState)
    ensures WellFormed(s) ==> WellFormed(r)
    ensures u.x.Some? ==> r.x == u.x.value
    ensures u.y.Some? ==> r.y == u.y.value
    ensures u.x.Some? || u.y.Some? ==> r.length == Geometry.Length(m, Position(r.x, r.y), Origin)
    ensures u.angle.Some? ==> r.angle == Normalize(u.angle.value)
    ensures u.angle.None? ==> (r.angle, r.angleInRadians, r.quadrant) == (s.angle, s.angleInRadians, s.quadrant)
  {
    YStep(m, XStep(m, AngleStep(m, s, u.angle), u.x), u.y)
  }

  function AngleStep(m: MathLib, s: PointState, angle: Option<real>): PointState {
    if angle.Some? then WithAngle(m, s, angle.value) else s
  }

  function XStep(m: MathLib, s: PointState, x: Option<real>): PointState {
    if x.Some? then WithCoords(m, s, Position(x.value, s.y)) else s
  }

  function YStep(m: MathLib, s: PointState, y: Option<real>): PointState {
    if y.Some? then WithCoords(m, s, Position(s.x, y.value)) else s
  }

  // ---------------------------------------------------------------------------
  // Properties of the transitions
  // ---------------------------------------------------------------------------

  /** A `set` with no field changes nothing. */
  lemma UpdateNothing(m: MathLib, s: PointState)
    ensures Updated(m, s, Update(None, None, None)) == s
  {
  }

  /** Setting both coordinates makes the state that of a new point at them, apart from the angle cache. */
  lemma SetBothCoordinates(m: MathLib, s: PointState, x: real, y: real)
    ensures var r := Updated(m, s, Update(Some(x), Some(y), None));
      && r == NewState(m, Position(x, y)).(angle := s.angle, angleInRadians := s.angleInRadians, quadrant := s.quadrant)
  {
  }

  /**
   * Setting `x` alone leaves the cached angle and quadrant as they were: the
   * point (1, 0) moved to (-1, 0) still reports angle 0 and quadrant 1, where a
   * new point at (-1, 0) has angle 180 and quadrant 2.
   */
  lemma SetXLeavesAngleStale(m: MathLib)
    ensures var r := Updated(m, NewState(m, Position(1.0, 0.0)), Update(Some(-1.0), None, None));
            var n := NewState(m, Position(-1.0, 0.0));
      && r.x == -1.0 && r.y == 0.0
      && r.angle == 0.0 && r.quadrant == 1
      && n.angle == 180.0 && n.quadrant == 2
      && !Synchronized(m, r)
  {
    var s := NewState(m, Position(1.0, 0.0));
    assert AbsAtanOfSlope(m, 1.0, 0.0) == 0.0;
    assert AbsAtanOfSlope(m, -1.0, 0.0) == 0.0;
  }

  /** A point of length `length` in the direction of an angle lies on the circle of that radius. */
  lemma ScaledOnCircle(m: MathLib, obj: AngleScale, length: real)
    requires var c := m.cos(DegToRad(m, ReferenceAngle(obj.angle)));
             var s := m.sin(DegToRad(m, ReferenceAngle(obj.angle)));
      && (obj.xScale == c || obj.xScale == -c)
      && (obj.yScale == s || obj.yScale == -s)
    ensures Square(obj.xScale * length) + Square(obj.yScale * length) == Square(length)
  {
    var t := DegToRad(m, ReferenceAngle(obj.angle));
    var c, s := m.cos(t), m.sin(t);
    assert c * c + s * s == 1.0;
    assert obj.xScale * obj.xScale == c * c;
    assert obj.yScale * obj.yScale == s * s;
    calc {
      Square(obj.xScale * length) + Square(obj.yScale * length);
      (obj.xScale * obj.xScale + obj.yScale * obj.yScale) * (length * length);
      (c * c + s * s) * (length * length);
      Square(length);
    }
  }

  /** The placed point is at distance `length` from the center. */
  lemma PlacedOnCircle(m: MathLib, obj: AngleScale, length: real, center: Position)
    requires var c := m.cos(DegToRad(m, ReferenceAngle(obj.angle)));
             var s := m.sin(DegToRad(m, ReferenceAngle(obj.angle)));
      && (obj.xScale == c || obj.xScale == -c)
      && (obj.yScale == s || obj.yScale == -s)
    ensures var p := PlacedAbout(obj, length, center);
      Square(p.x - center.x) + Square(p.y - center.y) == Square(length)
  {
    ScaledOnCircle(m, obj, length);
    var p := PlacedAbout(obj, length, center);
    assert p.x - center.x == obj.xScale * length;
    assert p.y - center.y == obj.yScale * length;
  }

  /** Rotation keeps the point at distance `length` from the center. */
  lemma RotateKeepsDistanceToCenter(m: MathLib, s: PointState, angle: real, center: Position)
    ensures var r := Rotated(m, s, angle, center);
      Square(r.x - center.x) + Square(r.y - center.y) == Square(s.length)
  {
    var obj := AnglePropsFor(m, s.angle, s.angle - Normalize(angle));
    PlacedOnCircle(m, obj, s.length, center);
  }

  /** Setting the angle keeps the point at distance `length` from the origin. */
  lemma SetAngleKeepsRadius(m: MathLib, s: PointState, angle: real)
    ensures var r := Updated(m, s, Update(None, None, Some(angle)));
      Square(r.x) + Square(r.y) == Square(r.length) && r.length == s.length
  {
    var obj := AnglePropsFor(m, s.angle, angle);
    ScaledOnCircle(m, obj, s.length);
    assert s.length * obj.xScale == obj.xScale * s.length;
    assert s.length * obj.yScale == obj.yScale * s.length;
  }

  /**
   * After setting the angle, `angleInRadians` is the radian measure of the
   * angle held before, not of the new one: from the point (0, 1), at 90
   * degrees, setting the angle to 180 leaves `angleInRadians` at pi/2.
   */
  lemma SetAngleRadiansLag(m: MathLib)
    ensures var r := Updated(m, NewState(m, Position(0.0, 1.0)), Update(None, None, Some(180.0)));
      && r.angle == 180.0
      && r.angleInRadians == m.pi / 2.0
      && r.angleInRadians != DegToRad(m, r.angle)
  {
    var s := NewState(m, Position(0.0, 1.0));
    var air := AbsAtanOfSlope(m, 0.0, 1.0);
    RadToDegBounds(m, air);
    assert s.angle == 90.0;
    NormalizeFixesRange(180.0);
  }

  /** `u` and `v` are the same direction: they differ by whole turns. */
  predicate SameDirection(u: real, v: real) {
    IsWhole((u - v) / 360.0)
  }

  lemma WholeNegated(w: real)
    requires IsWhole(w)
    ensures IsWhole(-w)
  {
    var k := w.Floor;
    assert -w == (-k) as real;
  }

  lemma WholeSum(v: real, w: real)
    requires IsWhole(v) && IsWhole(w)
    ensures IsWhole(v + w)
  {
    var k1, k2 := v.Floor, w.Floor;
    assert v + w == (k1 + k2) as real;
  }

  lemma SameDirectionSymmetric(u: real, v: real)
    requires SameDirection(u, v)
    ensures SameDirection(v, u)
  {
    assert (v - u) / 360.0 == -((u - v) / 360.0);
    WholeNegated((u - v) / 360.0);
  }

  lemma SameDirectionTransitive(u: real, v: real, w: real)
    requires SameDirection(u, v) && SameDirection(v, w)
    ensures SameDirection(u, w)
  {
    assert (u - w) / 360.0 == (u - v) / 360.0 + (v - w) / 360.0;
    WholeSum((u - v) / 360.0, (v - w) / 360.0);
  }

  /** Subtracting the same amount from two directions that agree gives two that agree. */
  lemma SameDirectionShift(u: real, v: real, d: real)
    requires SameDirection(u, v)
    ensures SameDirection(u - d, v - d)
  {
    assert (u - d) - (v - d) == u - v;
  }

  /** Subtracting two directions that agree from the same amount gives two that agree. */
  lemma SameDirectionSubtracted(d: real, u: real, v: real)
    requires SameDirection(u, v)
    ensures SameDirection(d - v, d - u)
  {
    assert (d - v) - (d - u) == u - v;
  }

  /** The angle after a rotation by `angle` is the angle before it turned back by `angle`, up to whole turns. */
  lemma RotateTurnsBy(m: MathLib, s: PointState, angle: real, center: Position)
    ensures SameDirection(Rotated(m, s, angle, center).angle, s.angle - angle)
  {
    var n := Normalize(angle);
    var r := Rotated(m, s, angle, center);
    assert SameDirection(angle, n);
    SameDirectionSubtracted(s.angle, angle, n);
    assert SameDirection(s.angle - n, r.angle);
    SameDirectionSymmetric(s.angle - n, r.angle);
    SameDirectionTransitive(r.angle, s.angle - n, s.angle - angle);
  }

  /** Two rotations turn the angle by their sum, up to whole turns, whatever their centers. */
  lemma RotationsCompose(m: MathLib, s: PointState, a: real, b: real, c1: Position, c2: Position)
    ensures SameDirection(Rotated(m, Rotated(m, s, a, c1), b, c2).angle, s.angle - a - b)
  {
    var r1 := Rotated(m, s, a, c1);
    var r2 := Rotated(m, r1, b, c2);
    RotateTurnsBy(m, s, a, c1);
    RotateTurnsBy(m, r1, b, c2);
    SameDirectionShift(r1.angle, s.angle - a, b);
    SameDirectionTransitive(r2.angle, r1.angle - b, s.angle - a - b);
  }

  /** The scale factors depend on the requested angle only through its normalised value. */
  lemma AnglePropsOfSameNormalized(m: MathLib, current: real, v1: real, v2: real)
    requires Normalize(v1) == Normalize(v2)
    ensures AnglePropsFor(m, current, v1) == AnglePropsFor(m, current, v2)
  {
  }

  /** Rotations that reach the same normalised angle give the same state. */
  lemma RotatedBySameNormalized(m: MathLib, s: PointState, a1: real, a2: real, center: Position)
    requires Normalize(s.angle - Normalize(a1)) == Normalize(s.angle - Normalize(a2))
    ensures Rotated(m, s, a1, center) == Rotated(m, s, a2, center)
  {
    AnglePropsOfSameNormalized(m, s.angle, s.angle - Normalize(a1), s.angle - Normalize(a2));
  }

  /** A rotation by a full turn is a rotation by nothing, unless the stored angle is exactly 360. */
  lemma RotateFullTurn(m: MathLib, s: PointState, center: Position)
    requires WellFormed(s) && s.angle != 360.0
    ensures Rotated(m, s, 360.0, center) == Rotated(m, s, 0.0, center)
  {
    NormalizeFixesRange(360.0);
    NormalizeFixesRange(0.0);
    NormalizeFixesRange(s.angle);
    NormalizeUnique(s.angle - 360.0, s.angle, -1);
    assert s.angle - Normalize(0.0) == s.angle;
    RotatedBySameNormalized(m, s, 360.0, 0.0, center);
  }

  /** At a stored angle of exactly 360 the full turn gives angle 0 and quadrant 1, the empty turn angle 360 and quadrant 4. */
  lemma RotateFullTurnAt360(m: MathLib, s: PointState, center: Position)
    requires s.angle == 360.0
    ensures Rotated(m, s, 360.0, center).angle == 0.0 && Rotated(m, s, 360.0, center).quadrant == 1
    ensures Rotated(m, s, 0.0, center).angle == 360.0 && Rotated(m, s, 0.0, center).quadrant == 4
  {
    NormalizeFixesRange(360.0);
    NormalizeFixesRange(0.0);
  }

  /** A state reached from a new point by any sequence of rotations and sets stays well formed. */
  lemma {:induction false} StepsKeepWellFormed(m: MathLib, s: PointState, steps: seq<Step>)
    requires WellFormed(s)
    ensures WellFormed(Run(m, s, steps))
    decreases |steps|
  {
    if |steps| > 0 {
      var s1 := Apply(m, s, steps[0]);
      assert WellFormed(s1);
      StepsKeepWellFormed(m, s1, steps[1..]);
    }
  }

  /** A mutation of a point. */
  datatype Step = Rotate(angle: real, center: Position) | Set(u: Update)

  function Apply(m: MathLib, s: PointState, step: Step): PointState {
    match step
    case Rotate(angle, center) => Rotated(m, s, angle, center)
    case Set(u) => Updated(m, s, u)
  }

  function Run(m: MathLib, s: PointState, steps: seq<Step>): PointState
    decreases |steps|
  {
    if |steps| == 0 then s else Run(m, Apply(m, s, steps[0]), steps[1..])
  }
}
