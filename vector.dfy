/**
 * The `Vector` arithmetic of the canvas library: five binary operations on a
 * position and an operand that is either a scalar, applied to both components,
 * or a second position, applied component by component. Each operation only
 * reads its arguments and yields the coordinates of a new point; the point
 * itself is built from them by `Points.Point` (see `Points.Point.Add`).
 */
module Vector {
  import opened Numeric

  /** Any value with an `x` and a `y`. */
  datatype Position = Position(x: real, y: real)

  /** The right-hand operand of an operation: a number or a position. */
  datatype Operand = Scalar(s: real) | Pair(p: Position)

  const Origin := Position(0.0, 0.0)

  /** What the operand contributes to each component: a scalar counts for both. */
  function Components(prop: Operand): (c: Position)
    ensures prop.Scalar? ==> c.x == prop.s && c.y == prop.s
    ensures prop.Pair? ==> c == prop.p
  {
    match prop
    case Scalar(s) => Position(s, s)
    case Pair(q) => q
  }

  function Add(p: Position, prop: Operand): (r: Position)
    ensures r.x == p.x + Components(prop).x && r.y == p.y + Components(prop).y
  {
    match prop
    case Scalar(s) => Position(p.x + s, p.y + s)
    case Pair(q) => Position(p.x + q.x, p.y + q.y)
  }

  function Subtract(p: Position, prop: Operand): (r: Position)
    ensures r.x == p.x - Components(prop).x && r.y == p.y - Components(prop).y
  {
    match prop
    case Scalar(s) => Position(p.x - s, p.y - s)
    case Pair(q) => Position(p.x - q.x, p.y - q.y)
  }

  function Multiply(p: Position, prop: Operand): (r: Position)
    ensures r.x == p.x * Components(prop).x && r.y == p.y * Components(prop).y
  {
    match prop
    case Scalar(s) => Position(p.x * s, p.y * s)
    case Pair(q) => Position(p.x * q.x, p.y * q.y)
  }

  /** `q` is what dividing `a` by `d` yields under the zero policy: 0 for a zero divisor, else the quotient. */
  predicate QuotientOrZero(a: real, d: real, q: real) {
    if d == 0.0 then q == 0.0 else q * d == a
  }

  function Divide(p: Position, prop: Operand): (r: Position)
    ensures QuotientOrZero(p.x, Components(prop).x, r.x)
    ensures QuotientOrZero(p.y, Components(prop).y, r.y)
  {
    match prop
    case Scalar(s) =>
      if s == 0.0 then Position(0.0, 0.0) else Position(p.x / s, p.y / s)
    case Pair(q) =>
      Position(if q.x == 0.0 then 0.0 else p.x / q.x,
               if q.y == 0.0 then 0.0 else p.y / q.y)
  }

  /** Rounding toward zero, as the host's `%` does with the quotient. */
  function Trunc(v: real): (t: int)
    ensures Abs(v - t as real) < 1.0
    ensures v >= 0.0 ==> 0.0 <= t as real <= v
    ensures v <= 0.0 ==> v <= t as real <= 0.0
  {
    if v >= 0.0 then v.Floor else -((-v).Floor)
  }

  /** The host's `a % d` on numbers: the remainder of the quotient truncated toward zero. */
  function TruncRem(a: real, d: real): (r: real)
    requires d != 0.0
    ensures IsTruncatedRemainder(a, d, r)
  {
    var k := Trunc(a / d);
    TruncatedDivision(a, d, k);
    a - d * (k as real)
  }

  /**
   * `r` is the remainder of `a` by a non-zero `d` with the quotient truncated:
   * `a - r` is a whole multiple of `d`, `r` is smaller than `d` in magnitude,
   * and `r` is never of the opposite sign to `a`.
   */
  predicate IsTruncatedRemainder(a: real, d: real, r: real)
    requires d != 0.0
  {
    && IsWhole((a - r) / d)
    && Abs(r) < Abs(d)
    && (a >= 0.0 ==> r >= 0.0)
    && (a <= 0.0 ==> r <= 0.0)
  }

  /** `r` is what `a % d` yields under the zero policy: 0 for a zero divisor, else the truncated remainder. */
  predicate RemainderOrZero(a: real, d: real, r: real) {
    if d == 0.0 then r == 0.0 else IsTruncatedRemainder(a, d, r)
  }

  function Modulo(p: Position, prop: Operand): (r: Position)
    ensures RemainderOrZero(p.x, Components(prop).x, r.x)
    ensures RemainderOrZero(p.y, Components(prop).y, r.y)
  {
    match prop
    case Scalar(s) =>
      if s == 0.0 then Position(0.0, 0.0) else Position(TruncRem(p.x, s), TruncRem(p.y, s))
    case Pair(q) =>
      Position(if q.x == 0.0 then 0.0 else TruncRem(p.x, q.x),
               if q.y == 0.0 then 0.0 else TruncRem(p.y, q.y))
  }

  /** Scaling `d` by a fraction of magnitude below 1 stays below `d` in magnitude. */
  lemma ScaledBelow(d: real, e: real)
    requires d != 0.0 && -1.0 < e < 1.0
    ensures -Abs(d) < d * e < Abs(d)
  {
  }

  /** A fraction of the sign of `a / d`, scaled by `d`, has the sign of `a`. */
  lemma ScaledFractionSign(a: real, d: real, e: real)
    requires d != 0.0
    requires a / d >= 0.0 ==> e >= 0.0
    requires a / d <= 0.0 ==> e <= 0.0
    ensures a >= 0.0 ==> d * e >= 0.0
    ensures a <= 0.0 ==> d * e <= 0.0
  {
  }

  /** Removing the multiple `d * t` of `d` from `a` leaves `d` times what `t` misses of `a / d`. */
  lemma RemainderIsScaledFraction(a: real, d: real, t: real)
    requires d != 0.0
    ensures a - d * t == d * (a / d - t)
    ensures (a - (a - d * t)) / d == t
  {
    DivisionCancels(a, d);
    DivisionCancels(d * t, d);
  }

  /** A whole multiple of `d` shorter than `d` is the zero multiple. */
  lemma ShortMultipleIsZero(d: real, k: int)
    requires d != 0.0 && Abs(d * (k as real)) < Abs(d)
    ensures k == 0
  {
  }

  /** What lies a whole number `k` of divisors below `a` leaves a whole quotient. */
  lemma WholeMultipleRemoved(a: real, d: real, r: real, k: int)
    requires d != 0.0 && a - r == d * (k as real)
    ensures IsWhole((a - r) / d)
  {
    DivisionCancels(k as real, d);
    assert (a - r) / d == k as real;
  }

  /** Taking away the truncated quotient's multiple of `d` leaves a truncated remainder. */
  lemma TruncatedDivision(a: real, d: real, k: int)
    requires d != 0.0 && k == Trunc(a / d)
    ensures IsTruncatedRemainder(a, d, a - d * (k as real))
  {
    var t := k as real;
    var e := a / d - t;
    var r := a - d * t;
    RemainderIsScaledFraction(a, d, t);
    assert r == d * e;
    WholeMultipleRemoved(a, d, r, k);
    // e is the fraction cut off by truncation: below 1 in magnitude and of the sign of a / d.
    assert -1.0 < e < 1.0 && (a / d >= 0.0 ==> e >= 0.0) && (a / d <= 0.0 ==> e <= 0.0);
    ScaledBelow(d, e);
    ScaledFractionSign(a, d, e);
    assert Abs(r) < Abs(d);
  }

  /** When `(a - r) / d` is whole, `a - r` is that whole number of divisors. */
  lemma WholeQuotientMultiple(a: real, d: real, r: real)
    requires d != 0.0 && IsWhole((a - r) / d)
    ensures a - r == d * ((a - r) / d).Floor as real
  {
    DivisionCancels(a - r, d);
  }

  /** Two values on the same side of zero, each shorter than `bound`, differ by less than `bound`. */
  lemma SameSideCloserThan(a: real, r1: real, r2: real, bound: real)
    requires a >= 0.0 ==> r1 >= 0.0 && r2 >= 0.0
    requires a <= 0.0 ==> r1 <= 0.0 && r2 <= 0.0
    requires Abs(r1) < bound && Abs(r2) < bound
    ensures Abs(r2 - r1) < bound
  {
  }

  /** The difference of two multiples of `d` is a multiple of `d`. */
  lemma DifferenceOfMultiples(d: real, k1: int, k2: int)
    ensures d * (k1 as real) - d * (k2 as real) == d * ((k1 - k2) as real)
  {
  }

  /** A truncated remainder is unique: the properties of `IsTruncatedRemainder` determine it. */
  lemma TruncatedRemainderUnique(a: real, d: real, r1: real, r2: real)
    requires d != 0.0
    requires IsTruncatedRemainder(a, d, r1) && IsTruncatedRemainder(a, d, r2)
    ensures r1 == r2
  {
    var k1 := ((a - r1) / d).Floor;
    var k2 := ((a - r2) / d).Floor;
    WholeQuotientMultiple(a, d, r1);
    WholeQuotientMultiple(a, d, r2);
    // r1 and r2 lie on the same side of zero and are both shorter than d, so they differ by less than |d|.
    SameSideCloserThan(a, r1, r2, Abs(d));
    DifferenceOfMultiples(d, k1, k2);
    assert r2 - r1 == d * ((k1 - k2) as real);
    ShortMultipleIsZero(d, k1 - k2);
  }

  /** Subtracting an operand undoes adding it, and the other way round. */
  lemma AddSubtractInverse(p: Position, prop: Operand)
    ensures Subtract(Add(p, prop), prop) == p
    ensures Add(Subtract(p, prop), prop) == p
  {
  }

  /**
   * Dividing by an operand undoes multiplying by it in every component whose
   * divisor is non-zero; a component with a zero divisor comes out 0.
   */
  lemma DivideUndoesMultiply(p: Position, prop: Operand)
    ensures var d, r := Components(prop), Divide(Multiply(p, prop), prop);
      && r.x == (if d.x == 0.0 then 0.0 else p.x)
      && r.y == (if d.y == 0.0 then 0.0 else p.y)
  {
    var d, m := Components(prop), Multiply(p, prop);
    var r := Divide(m, prop);
    if d.x != 0.0 {
      assert r.x * d.x == p.x * d.x;
      assert (r.x - p.x) * d.x == 0.0;
    }
    if d.y != 0.0 {
      assert r.y * d.y == p.y * d.y;
      assert (r.y - p.y) * d.y == 0.0;
    }
  }

  /**
   * A scalar operand gives exactly the result of the operand `(s, s)`, for all
   * five operations and also when `s` is 0.
   */
  lemma ScalarIsBroadcast(p: Position, s: real)
    ensures Add(p, Scalar(s)) == Add(p, Pair(Position(s, s)))
    ensures Subtract(p, Scalar(s)) == Subtract(p, Pair(Position(s, s)))
    ensures Multiply(p, Scalar(s)) == Multiply(p, Pair(Position(s, s)))
    ensures Divide(p, Scalar(s)) == Divide(p, Pair(Position(s, s)))
    ensures Modulo(p, Scalar(s)) == Modulo(p, Pair(Position(s, s)))
  {
  }

  /** Division and remainder by the scalar 0 both give the origin. */
  lemma ZeroScalarGivesOrigin(p: Position)
    ensures Divide(p, Scalar(0.0)) == Origin
    ensures Modulo(p, Scalar(0.0)) == Origin
  {
  }

  /**
   * The zero policy is per component: a zero divisor in one component makes
   * that component 0 and leaves the other an ordinary quotient or remainder.
   */
  lemma ZeroDivisorIsPerComponent(p: Position, dy: real)
    requires dy != 0.0
    ensures Divide(p, Pair(Position(0.0, dy))) == Position(0.0, p.y / dy)
    ensures Modulo(p, Pair(Position(0.0, dy))) == Position(0.0, TruncRem(p.y, dy))
  {
  }
}
