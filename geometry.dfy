/**
 * The coordinate queries of a point: distance (`getLength`), exact equality,
 * dot and cross products, collinearity and orthogonality tests, projection,
 * containment in a rectangle (`isInside`), and the component-wise minimum and
 * maximum of a list of positions (`Point.min`, `Point.max`).
 */
module Geometry {
  import opened Numeric
  import opened Vector

  // ---------------------------------------------------------------------------
  // Distance and products
  // ---------------------------------------------------------------------------

  /** `getLength(p1, p2)`: the square root of the summed squared differences (p2 is the origin by default). */
  function Length(m: MathLib, p1: Position, p2: Position): (r: real)
    ensures r >= 0.0
    ensures p1 == p2 ==> r == 0.0
  {
    m.sqrt(Square(p1.x - p2.x) + Square(p1.y - p2.y))
  }

  /** The distance does not depend on the order of the two positions. */
  lemma LengthSymmetric(m: MathLib, p1: Position, p2: Position)
    ensures Length(m, p1, p2) == Length(m, p2, p1)
  {
    assert Square(p1.x - p2.x) == Square(p2.x - p1.x);
    assert Square(p1.y - p2.y) == Square(p2.y - p1.y);
  }

  /** Exact equality of coordinates, with no tolerance. */
  function Equals(a: Position, b: Position): (r: bool)
    ensures r <==> a == b
  {
    a.x == b.x && a.y == b.y
  }

  /** `dot`: not negative for a position with itself. */
  function Dot(a: Position, b: Position): (r: real)
    ensures a == b ==> r >= 0.0
  {
    a.x * b.x + a.y * b.y
  }

  /** `cross`: 0 for a position with itself and for any position with the origin. */
  function Cross(a: Position, b: Position): (r: real)
    ensures a == b || a == Origin || b == Origin ==> r == 0.0
  {
    a.x * b.y - a.y * b.x
  }

  /** The dot product is symmetric and the cross product antisymmetric; a position is never crossed with itself. */
  lemma ProductSymmetries(a: Position, b: Position)
    ensures Dot(a, b) == Dot(b, a)
    ensures Cross(a, b) == -Cross(b, a)
    ensures Cross(a, a) == 0.0
  {
  }

  /**
   * The slope `y / x` as the host's floating-point division yields it: finite
   * for a non-zero `x`, an infinity of the sign of `y` for `x` zero, and NaN
   * for the origin.
   */
  datatype Slope = Ratio(v: real) | PlusInfinity | MinusInfinity | NotANumber

  function SlopeOf(p: Position): (s: Slope)
    ensures s.Ratio? <==> p.x != 0.0
    ensures s.NotANumber? <==> p == Origin
  {
    if p.x != 0.0 then Ratio(p.y / p.x)
    else if p.y > 0.0 then PlusInfinity
    else if p.y < 0.0 then MinusInfinity
    else NotANumber
  }

  /** `isCollinear`: strict equality of the two slopes, which never holds for NaN. */
  function IsCollinear(a: Position, b: Position): (r: bool)
    ensures r ==> a != Origin && b != Origin
    ensures r ==> (a.x == 0.0 <==> b.x == 0.0)
  {
    var s, t := SlopeOf(a), SlopeOf(b);
    !s.NotANumber? && s == t
  }

  /**
   * `isOrthogonal`: `((a.y / a.x) * b.y) / b.x` is -1. A zero `x` on either side
   * makes that expression infinite or NaN, so only non-zero ones can pass.
   */
  function IsOrthogonal(a: Position, b: Position): (r: bool)
    ensures r ==> a.x != 0.0 && b.x != 0.0 && a.y != 0.0 && b.y != 0.0
  {
    if a.x == 0.0 || b.x == 0.0 then false
    else a.y / a.x * b.y / b.x == -1.0
  }

  lemma SameRatio(a: real, b: real, c: real, d: real)
    requires b != 0.0 && d != 0.0
    ensures a / b == c / d <==> a * d == c * b
  {
  }

  /** Between two positions off the y axis, equal slopes are exactly a zero cross product. */
  lemma CollinearIsZeroCross(a: Position, b: Position)
    requires a.x != 0.0 && b.x != 0.0
    ensures IsCollinear(a, b) <==> Cross(a, b) == 0.0
  {
    SameRatio(a.y, a.x, b.y, b.x);
  }

  /**
   * With a position on the y axis, the test holds exactly when both are on it
   * and on the same side of the origin: opposite vertical directions, though
   * their cross product is 0, are not collinear to it.
   */
  lemma CollinearOnYAxis(a: Position, b: Position)
    requires a.x == 0.0 || b.x == 0.0
    ensures IsCollinear(a, b) <==>
      a.x == 0.0 && b.x == 0.0 && ((a.y > 0.0 && b.y > 0.0) || (a.y < 0.0 && b.y < 0.0))
    ensures a.x == 0.0 && b.x == 0.0 ==> Cross(a, b) == 0.0
  {
  }

  /** The test holds exactly for a zero dot product of two positions off the y axis. */
  lemma OrthogonalIsZeroDot(a: Position, b: Position)
    ensures IsOrthogonal(a, b) <==> a.x != 0.0 && b.x != 0.0 && Dot(a, b) == 0.0
  {
    if a.x != 0.0 && b.x != 0.0 {
      OrthogonalRatio(a.y, a.x, b.y, b.x);
    }
  }

  /** Line 190's expression with non-zero divisors is -1 exactly when the dot product is 0. */
  lemma OrthogonalRatio(ya: real, xa: real, yb: real, xb: real)
    requires xa != 0.0 && xb != 0.0
    ensures ya / xa * yb / xb == -1.0 <==> xa * xb + ya * yb == 0.0
  {
    var n := ya / xa * yb;
    assert n == ya * yb / xa by { DivisionCancels(ya, xa); }
    QuotientIs(n, xb, -1.0);
    QuotientIs(ya * yb, xa, -xb);
  }

  /** A quotient is `v` exactly when the dividend is `v` times the divisor. */
  lemma QuotientIs(n: real, d: real, v: real)
    requires d != 0.0
    ensures n / d == v <==> n == v * d
  {
    DivisionCancels(n, d);
    DivisionCancels(v, d);
  }

  /**
   * `project`: the foot of the perpendicular from `a` to the line through the
   * origin and `b`, found by intersecting that line, `y = A x + B`, with its
   * perpendicular through `a`. For `b` on the y axis the slope `A` is infinite
   * or NaN and so are both coordinates of the host's result: `None` here.
   */
  function Projection(a: Position, b: Position): (r: Option<Position>)
    ensures r.None? <==> b.x == 0.0
  {
    if b.x == 0.0 then None
    else
      var slope := b.y / b.x;
      var intercept := b.y - slope * b.x;
      var m := a.x + slope * a.y;
      var x := (m - slope * intercept) / (slope * slope + 1.0);
      Some(Position(x, slope * x + intercept))
  }

  /** The projection lies on the line through the origin and `b`, and what it leaves of `a` is perpendicular to `b`. */
  lemma ProjectionIsPerpendicularFoot(a: Position, b: Position)
    requires b.x != 0.0
    ensures Cross(Projection(a, b).value, b) == 0.0
    ensures Dot(Subtract(a, Pair(Projection(a, b).value)), b) == 0.0
  {
    var slope := b.y / b.x;
    assert b.y == slope * b.x by { DivisionCancels(b.y, b.x); }
    var k := slope * slope + 1.0;
    var x := (a.x + slope * a.y) / k;
    assert x * k == a.x + slope * a.y by { DivisionCancels(a.x + slope * a.y, k); }
    assert Projection(a, b).value == Position(x, slope * x);
    FootOnLine(x, slope, b);
    FootResidual(a, b, slope, x);
  }

  /** A point `(x, slope * x)` lies on the line through the origin and `b` when `b` has that slope. */
  lemma FootOnLine(x: real, slope: real, b: Position)
    requires b.y == slope * b.x
    ensures Cross(Position(x, slope * x), b) == 0.0
  {
    assert Cross(Position(x, slope * x), b) == x * (b.y - slope * b.x);
  }

  /** What `(x, slope * x)` leaves of `a` is perpendicular to `b`, when `x` solves the normal equation. */
  lemma FootResidual(a: Position, b: Position, slope: real, x: real)
    requires b.y == slope * b.x
    requires x * (slope * slope + 1.0) == a.x + slope * a.y
    ensures Dot(Subtract(a, Pair(Position(x, slope * x))), b) == 0.0
  {
    calc {
      Dot(Subtract(a, Pair(Position(x, slope * x))), b);
      (a.x - x) * b.x + (a.y - slope * x) * (slope * b.x);
      b.x * ((a.x + slope * a.y) - x * (slope * slope + 1.0));
      0.0;
    }
  }

  // ---------------------------------------------------------------------------
  // Rounding (round, ceil, floor, abs)
  // ---------------------------------------------------------------------------

  /** `Math.round`: the nearest whole number, halves going up. */
  function Round(v: real): (r: int)
    ensures v - 0.5 < r as real <= v + 0.5
  {
    (v + 0.5).Floor
  }

  /** `Math.ceil`: the least whole number not below `v`. */
  function Ceil(v: real): (r: int)
    ensures v <= r as real < v + 1.0
  {
    -((-v).Floor)
  }

  /** `Math.floor`: the greatest whole number not above `v`. */
  function Floor(v: real): (r: int)
    ensures r as real <= v < r as real + 1.0
  {
    v.Floor
  }

  /** Each rounding yields a whole number and leaves a whole number as it is. */
  lemma RoundingFixesWhole(k: int)
    ensures Round(k as real) == k && Ceil(k as real) == k && Floor(k as real) == k
  {
  }

  /** The three roundings are ordered, and `Math.round` is one of the other two. */
  lemma RoundingOrder(v: real)
    ensures Floor(v) <= Round(v) <= Ceil(v)
    ensures Round(v) == Floor(v) || Round(v) == Ceil(v)
  {
  }

  // ---------------------------------------------------------------------------
  // Containment in a rectangle (isInside)
  // ---------------------------------------------------------------------------

  datatype Rect = Rect(x: real, y: real, width: real, height: real)

  /** The rectangle moved by `d`. */
  function Moved(rect: Rect, d: Position): Rect {
    Rect(rect.x + d.x, rect.y + d.y, rect.width, rect.height)
  }

  /** `isInside` as the library writes it: the upper y bound is `rect.height` itself. */
  function IsInsideAsWritten(p: Position, rect: Rect): (r: bool)
    ensures r <==> rect.x <= p.x <= rect.x + rect.width && rect.y <= p.y <= rect.height
  {
    if p.x >= rect.x && p.x <= rect.x + rect.width then
      if p.y >= rect.y && p.y <= rect.height then true else false
    else
      false
  }

  /** `isInside` with the y bound taken like the x bound, `rect.y + rect.height`. */
  function IsInside(p: Position, rect: Rect): (r: bool)
    ensures r <==> rect.x <= p.x <= rect.x + rect.width && rect.y <= p.y <= rect.y + rect.height
  {
    if p.x >= rect.x && p.x <= rect.x + rect.width then
      if p.y >= rect.y && p.y <= rect.y + rect.height then true else false
    else
      false
  }

  /** Moving the point and the rectangle together does not change containment. */
  lemma IsInsideTranslationInvariant(p: Position, rect: Rect, d: Position)
    ensures IsInside(Add(p, Pair(d)), Moved(rect, d)) == IsInside(p, rect)
  {
  }

  /** For a rectangle whose top edge is at y = 0 the written test is the intended one. */
  lemma IsInsideAsWrittenAtZeroY(p: Position, rect: Rect)
    requires rect.y == 0.0
    ensures IsInsideAsWritten(p, rect) == IsInside(p, rect)
  {
  }

  /**
   * The written test rejects the point (1, 12) of the rectangle at (0, 10) of
   * width 5 and height 5, and so depends on where the rectangle is: the same
   * configuration at y = 0 is accepted.
   */
  lemma IsInsideAsWrittenMissesPoint()
    ensures IsInside(Position(1.0, 12.0), Rect(0.0, 10.0, 5.0, 5.0))
    ensures !IsInsideAsWritten(Position(1.0, 12.0), Rect(0.0, 10.0, 5.0, 5.0))
    ensures IsInsideAsWritten(Position(1.0, 2.0), Rect(0.0, 0.0, 5.0, 5.0))
  {
  }

  // ---------------------------------------------------------------------------
  // Component-wise minimum and maximum (Point.min, Point.max)
  // ---------------------------------------------------------------------------

  function Xs(points: seq<Position>): (xs: seq<real>)
    ensures |xs| == |points| && forall i :: 0 <= i < |points| ==> xs[i] == points[i].x
  {
    seq(|points|, i requires 0 <= i < |points| => points[i].x)
  }

  function Ys(points: seq<Position>): (ys: seq<real>)
    ensures |ys| == |points| && forall i :: 0 <= i < |points| ==> ys[i] == points[i].y
  {
    seq(|points|, i requires 0 <= i < |points| => points[i].y)
  }

  function Min(a: real, b: real): real {
    if a <= b then a else b
  }

  function Max(a: real, b: real): real {
    if a >= b then a else b
  }

  /** The running `Math.min` over `xs` from the left, starting at `seed`. */
  function MinFold(seed: real, xs: seq<real>): (r: real)
    ensures |xs| > 0 ==> r <= xs[|xs| - 1]
  {
    if |xs| == 0 then seed else Min(MinFold(seed, xs[..|xs| - 1]), xs[|xs| - 1])
  }

  /** The running `Math.max` over `xs` from the left, starting at `seed`. */
  function MaxFold(seed: real, xs: seq<real>): (r: real)
    ensures |xs| > 0 ==> r >= xs[|xs| - 1]
  {
    if |xs| == 0 then seed else Max(MaxFold(seed, xs[..|xs| - 1]), xs[|xs| - 1])
  }

  /** Every value is that of a finite double. */
  predicate Finite(xs: seq<real>) {
    forall i :: 0 <= i < |xs| ==> -MaxValue <= xs[i] <= MaxValue
  }

  /** The minimum fold is below the seed and every value, and is the seed or one of the values. */
  lemma {:induction false} MinFoldIsLeast(seed: real, xs: seq<real>)
    ensures MinFold(seed, xs) <= seed
    ensures forall i :: 0 <= i < |xs| ==> MinFold(seed, xs) <= xs[i]
    ensures MinFold(seed, xs) == seed || exists i :: 0 <= i < |xs| && MinFold(seed, xs) == xs[i]
  {
    if |xs| > 0 {
      var init := xs[..|xs| - 1];
      MinFoldIsLeast(seed, init);
      assert forall i :: 0 <= i < |init| ==> init[i] == xs[i];
      if MinFold(seed, xs) != seed && MinFold(seed, xs) != xs[|xs| - 1] {
        var j :| 0 <= j < |init| && MinFold(seed, init) == init[j];
        assert MinFold(seed, xs) == xs[j];
      }
    }
  }

  /** The maximum fold is above the seed and every value, and is the seed or one of the values. */
  lemma {:induction false} MaxFoldIsGreatest(seed: real, xs: seq<real>)
    ensures MaxFold(seed, xs) >= seed
    ensures forall i :: 0 <= i < |xs| ==> MaxFold(seed, xs) >= xs[i]
    ensures MaxFold(seed, xs) == seed || exists i :: 0 <= i < |xs| && MaxFold(seed, xs) == xs[i]
  {
    if |xs| > 0 {
      var init := xs[..|xs| - 1];
      MaxFoldIsGreatest(seed, init);
      assert forall i :: 0 <= i < |init| ==> init[i] == xs[i];
      if MaxFold(seed, xs) != seed && MaxFold(seed, xs) != xs[|xs| - 1] {
        var j :| 0 <= j < |init| && MaxFold(seed, init) == init[j];
        assert MaxFold(seed, xs) == xs[j];
      }
    }
  }

  /** Seeded with `Number.MAX_VALUE`, the minimum of a non-empty list of finite values is one of them. */
  lemma MinOfFiniteIsAttained(xs: seq<real>)
    requires |xs| > 0 && Finite(xs)
    ensures exists i :: 0 <= i < |xs| && MinFold(MaxValue, xs) == xs[i]
  {
    MinFoldIsLeast(MaxValue, xs);
    if MinFold(MaxValue, xs) == MaxValue {
      assert xs[0] <= MaxValue;
      assert MinFold(MaxValue, xs) == xs[0];
    }
  }

  /** Seeded with `-Number.MAX_VALUE`, the maximum of a non-empty list of finite values is one of them. */
  lemma MaxOfFiniteIsAttained(xs: seq<real>)
    requires |xs| > 0 && Finite(xs)
    ensures exists i :: 0 <= i < |xs| && MaxFold(-MaxValue, xs) == xs[i]
  {
    MaxFoldIsGreatest(-MaxValue, xs);
    if MaxFold(-MaxValue, xs) == -MaxValue {
      assert xs[0] >= -MaxValue;
      assert MaxFold(-MaxValue, xs) == xs[0];
    }
  }

  /**
   * Seeded with `Number.MIN_VALUE`, the smallest positive double, as the library
   * does, the maximum of values that are all below it is the seed itself.
   */
  lemma MaxSeededWithMinValueMasksNegatives(xs: seq<real>)
    requires forall i :: 0 <= i < |xs| ==> xs[i] < MinValue
    ensures MaxFold(MinValue, xs) == MinValue
    ensures |xs| > 0 ==> forall i :: 0 <= i < |xs| ==> MaxFold(MinValue, xs) != xs[i]
  {
    MaxFoldIsGreatest(MinValue, xs);
  }

  /** The component-wise minimum of `Point.min`. */
  function MinPosition(points: seq<Position>): (r: Position)
    ensures forall i :: 0 <= i < |points| ==> r.x <= points[i].x && r.y <= points[i].y
    ensures r.x <= MaxValue && r.y <= MaxValue
  {
    MinFoldIsLeast(MaxValue, Xs(points));
    MinFoldIsLeast(MaxValue, Ys(points));
    Position(MinFold(MaxValue, Xs(points)), MinFold(MaxValue, Ys(points)))
  }

  /** The component-wise maximum of `Point.max` as the library writes it, seeded with `Number.MIN_VALUE`. */
  function MaxPositionAsWritten(points: seq<Position>): (r: Position)
    ensures forall i :: 0 <= i < |points| ==> r.x >= points[i].x && r.y >= points[i].y
    ensures r.x >= MinValue && r.y >= MinValue
  {
    MaxFoldIsGreatest(MinValue, Xs(points));
    MaxFoldIsGreatest(MinValue, Ys(points));
    Position(MaxFold(MinValue, Xs(points)), MaxFold(MinValue, Ys(points)))
  }

  /** The component-wise maximum seeded with `-Number.MAX_VALUE`, mirroring the minimum. */
  function MaxPosition(points: seq<Position>): (r: Position)
    ensures forall i :: 0 <= i < |points| ==> r.x >= points[i].x && r.y >= points[i].y
    ensures r.x >= -MaxValue && r.y >= -MaxValue
  {
    MaxFoldIsGreatest(-MaxValue, Xs(points));
    MaxFoldIsGreatest(-MaxValue, Ys(points));
    Position(MaxFold(-MaxValue, Xs(points)), MaxFold(-MaxValue, Ys(points)))
  }

  /** The written maximum of the single point (-1, -1) is (MIN_VALUE, MIN_VALUE), not (-1, -1); the corrected one is (-1, -1). */
  lemma MaxAsWrittenOfNegativePoint()
    ensures MaxPositionAsWritten([Position(-1.0, -1.0)]) == Position(MinValue, MinValue)
    ensures MaxPosition([Position(-1.0, -1.0)]) == Position(-1.0, -1.0)
  {
    var ps := [Position(-1.0, -1.0)];
    assert Xs(ps) == [-1.0] && Ys(ps) == [-1.0];
    assert [-1.0][..0] == [];
    assert MaxFold(-MaxValue, [-1.0]) == Max(MaxFold(-MaxValue, []), -1.0);
    assert MaxFold(-MaxValue, []) == -MaxValue;
  }
}
