/**
 * The `Point` class: Cartesian coordinates with cached polar attributes,
 * updated in place by `rotate` and `set`. Every mutating method is proved to
 * produce the state given by the transition functions of `PointStates`, and
 * every query to agree with the functions of `Geometry` and `Angles`.
 */
module Points {
  import opened Numeric
  import opened Vector
  import opened Angles
  import opened PointStates
  import Geometry

  class Point {
    /** The host's `Math`, fixed for the lifetime of the point. */
    const math: MathLib
    var x: real
    var y: real
    var length: real
    var angle: real
    var angleInRadians: real
    var quadrant: int
    /** Never changed by any operation. */
    const selected := false

    function State(): PointState
      reads this
    {
      PointState(x, y, length, angle, angleInRadians, quadrant)
    }

    function Pos(): Position
      reads this
    {
      Position(x, y)
    }

    ghost predicate Valid()
      reads this
    {
      WellFormed(State())
    }

    /** Builds the point from two numbers, an array or a record, and derives its polar attributes. */
    constructor(math: MathLib, init: PointInit)
      ensures this.math == math
      ensures State() == NewState(math, InitialCoords(init))
      ensures Valid()
    {
      var px, py;
      match init {
        case Coords(cx, cy) =>
          px, py := cx, cy;
        case FromArray(values) =>
          if |values| > 1 {
            px, py := values[0], values[1];
          } else if |values| > 0 {
            px, py := values[0], 0.0;
          } else {
            px, py := 0.0, 0.0;
          }
        case FromRecord(p) =>
          px, py := p.x, p.y;
      }
      this.math := math;
      x, y := px, py;
      length := Geometry.Length(math, Position(px, py), Origin);
      var props := GetAnglePropAsWritten(math, px, py);
      angle := props.angle;
      angleInRadians := props.angleInRadians;
      quadrant := props.quadrant;
    }

    // -------------------------------------------------------------------------
    // Angle handling
    // -------------------------------------------------------------------------

    /** `checkAngle`: whole turns are taken off a positive angle while it exceeds 360, and added to a negative one. */
    static method CheckAngle(val: real) returns (r: real)
      ensures r == Normalize(val)
    {
      r := val;
      ghost var turns := 0;
      if val > 0.0 {
        while r > 360.0
          invariant r > 0.0
          invariant r == val - 360.0 * (turns as real)
          decreases r.Floor
        {
          r := r - 360.0;
          turns := turns + 1;
        }
      } else {
        while r < 0.0
          invariant r < 360.0
          invariant r == val - 360.0 * (turns as real)
          decreases -r.Floor
        {
          r := r + 360.0;
          turns := turns - 1;
        }
      }
      NormalizeUnique(val, r, turns);
    }

    /** `getAnglePropByAngle`: the normalised angle, its quadrant and the signed cosine and sine of its reference angle. */
    method AnglePropByAngle(val: real) returns (r: AngleScale)
      ensures r == AnglePropsFor(math, angle, val)
    {
      var a := CheckAngle(val);
      var radians := angle * math.pi / 180.0;
      if a > 270.0 {
        var ar := (360.0 - a) * math.pi / 180.0;
        r := AngleScale(a, radians, 4, math.cos(ar), -math.sin(ar));
        assert ar == DegToRad(math, ReferenceAngle(a));
      } else if a > 180.0 {
        var ar := (a - 180.0) * math.pi / 180.0;
        r := AngleScale(a, radians, 3, -math.cos(ar), -math.sin(ar));
        assert ar == DegToRad(math, ReferenceAngle(a));
      } else if a > 90.0 {
        var ar := (180.0 - a) * math.pi / 180.0;
        r := AngleScale(a, radians, 2, -math.cos(ar), math.sin(ar));
        assert ar == DegToRad(math, ReferenceAngle(a));
      } else {
        var ar := a * math.pi / 180.0;
        r := AngleScale(a, radians, 1, math.cos(ar), math.sin(ar));
        assert ar == DegToRad(math, ReferenceAngle(a));
      }
    }

    // -------------------------------------------------------------------------
    // Mutation
    // -------------------------------------------------------------------------

    /** `rotate(angle, center)`: turns the point clockwise by `degrees` about `center`, keeping its length. */
    method Rotate(degrees: real, center: Position)
      modifies this
      ensures State() == Rotated(math, old(State()), degrees, center)
      ensures old(Valid()) ==> Valid()
    {
      ghost var s := State();
      var turn := CheckAngle(degrees);
      var target := angle - turn;
      var obj := AnglePropByAngle(target);
      assert obj == AnglePropsFor(math, s.angle, s.angle - Normalize(degrees));
      PlaceAbout(obj, center);
    }

    /** The placement step of `rotate`: `length` from `center` in the direction of `obj`, with its angle attributes. */
    method PlaceAbout(obj: AngleScale, center: Position)
      modifies this
      ensures State() == PlacedAbout(obj, old(length), center)
    {
      x := center.x + obj.xScale * length;
      y := center.y + obj.yScale * length;
      angle := obj.angle;
      angleInRadians := obj.angleInRadians;
      quadrant := obj.quadrant;
    }

    /** `set(obj)`: the angle first, then `x`, then `y`. */
    method Set(u: Update)
      modifies this
      ensures State() == Updated(math, old(State()), u)
      ensures old(Valid()) ==> Valid()
    {
      ghost var s := State();
      if u.angle.Some? {
        PlaceAtAngle(u.angle.value);
      }
      assert State() == AngleStep(math, s, u.angle);
      ghost var s1 := State();
      if u.x.Some? {
        x := u.x.value;
        length := Geometry.Length(math, Position(x, y), Origin);
      }
      assert State() == XStep(math, s1, u.x);
      ghost var s2 := State();
      if u.y.Some? {
        y := u.y.value;
        length := Geometry.Length(math, Position(x, y), Origin);
      }
      assert State() == YStep(math, s2, u.y);
    }

    /** The angle branch of `set`: the new angle's attributes, and the point placed at `length` from the origin. */
    method PlaceAtAngle(a: real)
      modifies this
      ensures State() == WithAngle(math, old(State()), a)
    {
      var obj := AnglePropByAngle(a);
      angle := obj.angle;
      angleInRadians := obj.angleInRadians;
      quadrant := obj.quadrant;
      x := length * obj.xScale;
      y := length * obj.yScale;
    }

    /** The `x` setter. */
    method SetX(v: real)
      modifies this
      ensures State() == Updated(math, old(State()), Update(Some(v), None, None))
      ensures old(Valid()) ==> Valid()
    {
      Set(Update(Some(v), None, None));
    }

    /** The `y` setter. */
    method SetY(v: real)
      modifies this
      ensures State() == Updated(math, old(State()), Update(None, Some(v), None))
      ensures old(Valid()) ==> Valid()
    {
      Set(Update(None, Some(v), None));
    }

    /** The `angle` setter. */
    method SetAngle(v: real)
      modifies this
      ensures State() == Updated(math, old(State()), Update(None, None, Some(v)))
      ensures old(Valid()) ==> Valid()
    {
      Set(Update(None, None, Some(v)));
    }

    // -------------------------------------------------------------------------
    // Queries
    // -------------------------------------------------------------------------

    function Equals(a: Position): (r: bool)
      reads this
      ensures r <==> Pos() == a
    {
      Geometry.Equals(Pos(), a)
    }

    function IsZero(): (r: bool)
      reads this
      ensures r <==> Pos() == Origin
    {
      x == 0.0 && y == 0.0
    }

    /** `getDistance`, the same measure as `getLength` of this point and `p`. */
    function GetDistance(p: Position): (r: real)
      reads this
      ensures r == Geometry.Length(math, Pos(), p)
      ensures r >= 0.0 && (p == Pos() ==> r == 0.0)
    {
      math.sqrt(Square(x - p.x) + Square(y - p.y))
    }

    /** `isInside`, with the upper y bound `rect.height` as the library writes it (see `Geometry.IsInsideAsWrittenMissesPoint`). */
    function IsInside(rect: Geometry.Rect): (r: bool)
      reads this
      ensures r <==> rect.x <= x <= rect.x + rect.width && rect.y <= y <= rect.height
    {
      Geometry.IsInsideAsWritten(Pos(), rect)
    }

    /** `isClose`: within `tolerance` of `p`; a point is close to itself for any tolerance that is not negative. */
    function IsClose(p: Position, tolerance: real): (r: bool)
      reads this
      ensures r <==> Geometry.Length(math, Pos(), p) <= tolerance
      ensures p == Pos() && tolerance >= 0.0 ==> r
    {
      Geometry.Length(math, Pos(), p) <= tolerance
    }

    function IsCollinear(p: Position): (r: bool)
      reads this
      ensures x != 0.0 && p.x != 0.0 ==> (r <==> Geometry.Cross(Pos(), p) == 0.0)
    {
      if x != 0.0 && p.x != 0.0 then Geometry.CollinearIsZeroCross(Pos(), p); Geometry.IsCollinear(Pos(), p)
      else Geometry.IsCollinear(Pos(), p)
    }

    function IsOrthogonal(p: Position): (r: bool)
      reads this
      ensures r <==> x != 0.0 && p.x != 0.0 && Geometry.Dot(Pos(), p) == 0.0
    {
      Geometry.OrthogonalIsZeroDot(Pos(), p);
      Geometry.IsOrthogonal(Pos(), p)
    }

    /** `isInQuadrant`: on a well-formed point, whether the angle lies in the closed sector of quadrant `q`. */
    function IsInQuadrant(q: int): (r: bool)
      reads this
      ensures Valid() ==> (r <==> InClosedSector(angle, q))
    {
      if 0.0 <= angle <= 360.0 then
        InQuadrantIsClosedSector(angle, q);
        InQuadrant(angle, quadrant, q)
      else
        InQuadrant(angle, quadrant, q)
    }

    function Dot(p: Position): (r: real)
      reads this
      ensures r == Geometry.Dot(p, Pos())
      ensures p == Pos() ==> r >= 0.0
    {
      x * p.x + y * p.y
    }

    function Cross(p: Position): (r: real)
      reads this
      ensures r == -Geometry.Cross(p, Pos())
      ensures p == Pos() ==> r == 0.0
    {
      x * p.y - y * p.x
    }

    // -------------------------------------------------------------------------
    // Operations yielding a new point
    // -------------------------------------------------------------------------

    /** `clone`: a new point at the same coordinates, its polar attributes derived afresh. */
    method Clone() returns (c: Point)
      ensures fresh(c) && c.math == math
      ensures c.State() == NewState(math, Pos())
    {
      c := new Point(math, Coords(x, y));
    }

    /** `project`: a new point at the projection, or none where the host yields NaN coordinates. */
    method Project(p: Position) returns (r: Option<Point>)
      ensures r.None? <==> p.x == 0.0
      ensures r.Some? ==> fresh(r.value) && r.value.math == math
      ensures r.Some? ==> r.value.State() == NewState(math, Geometry.Projection(Pos(), p).value)
    {
      var proj := Geometry.Projection(Pos(), p);
      if proj.None? {
        r := None;
      } else {
        var q := new Point(math, FromRecord(proj.value));
        r := Some(q);
      }
    }

    method Round() returns (r: Point)
      ensures fresh(r) && r.math == math
      ensures r.State() == NewState(math, Position(Geometry.Round(x) as real, Geometry.Round(y) as real))
    {
      r := new Point(math, Coords(Geometry.Round(x) as real, Geometry.Round(y) as real));
    }

    method Ceil() returns (r: Point)
      ensures fresh(r) && r.math == math
      ensures r.State() == NewState(math, Position(Geometry.Ceil(x) as real, Geometry.Ceil(y) as real))
    {
      r := new Point(math, Coords(Geometry.Ceil(x) as real, Geometry.Ceil(y) as real));
    }

    method Floor() returns (r: Point)
      ensures fresh(r) && r.math == math
      ensures r.State() == NewState(math, Position(Geometry.Floor(x) as real, Geometry.Floor(y) as real))
    {
      r := new Point(math, Coords(Geometry.Floor(x) as real, Geometry.Floor(y) as real));
    }

    method Abs() returns (r: Point)
      ensures fresh(r) && r.math == math
      ensures r.State() == NewState(math, Position(Numeric.Abs(x), Numeric.Abs(y)))
    {
      r := new Point(math, Coords(Numeric.Abs(x), Numeric.Abs(y)));
    }

    method Add(prop: Operand) returns (r: Point)
      ensures fresh(r) && r.math == math
      ensures r.State() == NewState(math, Vector.Add(Pos(), prop))
    {
      r := new Point(math, FromRecord(Vector.Add(Pos(), prop)));
    }

    method Subtract(prop: Operand) returns (r: Point)
      ensures fresh(r) && r.math == math
      ensures r.State() == NewState(math, Vector.Subtract(Pos(), prop))
    {
      r := new Point(math, FromRecord(Vector.Subtract(Pos(), prop)));
    }

    method Multiply(prop: Operand) returns (r: Point)
      ensures fresh(r) && r.math == math
      ensures r.State() == NewState(math, Vector.Multiply(Pos(), prop))
    {
      r := new Point(math, FromRecord(Vector.Multiply(Pos(), prop)));
    }

    method Divide(prop: Operand) returns (r: Point)
      ensures fresh(r) && r.math == math
      ensures r.State() == NewState(math, Vector.Divide(Pos(), prop))
    {
      r := new Point(math, FromRecord(Vector.Divide(Pos(), prop)));
    }

    method Modulo(prop: Operand) returns (r: Point)
      ensures fresh(r) && r.math == math
      ensures r.State() == NewState(math, Vector.Modulo(Pos(), prop))
    {
      r := new Point(math, FromRecord(Vector.Modulo(Pos(), prop)));
    }

    // -------------------------------------------------------------------------
    // Minimum and maximum of a list of positions
    // -------------------------------------------------------------------------

    /** The loop of `Point.min`: running `Math.min` over the coordinates, from `Number.MAX_VALUE`. */
    static method MinCoordinates(points: seq<Position>) returns (minX: real, minY: real)
      ensures Position(minX, minY) == Geometry.MinPosition(points)
    {
      minX, minY := MaxValue, MaxValue;
      var i := 0;
      while i < |points|
        invariant 0 <= i <= |points|
        invariant minX == Geometry.MinFold(MaxValue, Geometry.Xs(points)[..i])
        invariant minY == Geometry.MinFold(MaxValue, Geometry.Ys(points)[..i])
      {
        assert Geometry.Xs(points)[..i + 1][..i] == Geometry.Xs(points)[..i];
        assert Geometry.Ys(points)[..i + 1][..i] == Geometry.Ys(points)[..i];
        minX := Geometry.Min(minX, points[i].x);
        minY := Geometry.Min(minY, points[i].y);
        i := i + 1;
      }
      assert Geometry.Xs(points)[..i] == Geometry.Xs(points);
      assert Geometry.Ys(points)[..i] == Geometry.Ys(points);
    }

    /** The loop of `Point.max`: running `Math.max` over the coordinates, from `Number.MIN_VALUE` as the library writes it. */
    static method MaxCoordinates(points: seq<Position>) returns (maxX: real, maxY: real)
      ensures Position(maxX, maxY) == Geometry.MaxPositionAsWritten(points)
    {
      maxX, maxY := MinValue, MinValue;
      var i := 0;
      while i < |points|
        invariant 0 <= i <= |points|
        invariant maxX == Geometry.MaxFold(MinValue, Geometry.Xs(points)[..i])
        invariant maxY == Geometry.MaxFold(MinValue, Geometry.Ys(points)[..i])
      {
        assert Geometry.Xs(points)[..i + 1][..i] == Geometry.Xs(points)[..i];
        assert Geometry.Ys(points)[..i + 1][..i] == Geometry.Ys(points)[..i];
        maxX := Geometry.Max(maxX, points[i].x);
        maxY := Geometry.Max(maxY, points[i].y);
        i := i + 1;
      }
      assert Geometry.Xs(points)[..i] == Geometry.Xs(points);
      assert Geometry.Ys(points)[..i] == Geometry.Ys(points);
    }

    /** `Point.min`: a new point at the component-wise minimum. */
    static method Min(math: MathLib, points: seq<Position>) returns (r: Point)
      ensures fresh(r) && r.math == math
      ensures r.State() == NewState(math, Geometry.MinPosition(points))
    {
      var minX, minY := MinCoordinates(points);
      r := new Point(math, Coords(minX, minY));
    }

    /** `Point.max`: a new point at the component-wise maximum, never below `Number.MIN_VALUE`. */
    static method Max(math: MathLib, points: seq<Position>) returns (r: Point)
      ensures fresh(r) && r.math == math
      ensures r.State() == NewState(math, Geometry.MaxPositionAsWritten(points))
    {
      var maxX, maxY := MaxCoordinates(points);
      r := new Point(math, Coords(maxX, maxY));
    }
  }
}
