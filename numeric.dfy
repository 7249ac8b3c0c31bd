/**
 * The numeric environment the point library runs in.
 *
 * Coordinates are mathematical reals. The host's `Math.sqrt`, `Math.atan`,
 * `Math.cos`, `Math.sin` and `Math.PI` are not given values here: a `MathLib`
 * carries them as uninterpreted functions and a constant, constrained only by
 * the handful of facts about square root, arctangent, cosine and sine that
 * the library's branching and its rotations rely on.
 */
module Numeric {

  datatype Option<T> = None | Some(value: T)

  /** The host's mathematical primitives, kept abstract. */
  datatype MathOps = MathOps(
    sqrt: real -> real,
    atan: real -> real,
    cos: real -> real,
    sin: real -> real,
    pi: real)

  /**
   * Facts of real analysis about the primitives: pi is positive, a square root
   * is never negative and that of 0 is 0, and arctangent is 0 at 0 and lies
   * strictly between 0 and pi/2 on the same side as its (non-zero) argument,
   * and the squares of cosine and sine sum to 1.
   */
  ghost predicate Plausible(m: MathOps) {
    && m.pi > 0.0
    && m.sqrt(0.0) == 0.0
    && (forall v :: m.sqrt(v) >= 0.0)
    && m.atan(0.0) == 0.0
    && (forall s :: s > 0.0 ==> 0.0 < m.atan(s) < m.pi / 2.0)
    && (forall s :: s < 0.0 ==> -m.pi / 2.0 < m.atan(s) < 0.0)
    && (forall t :: m.cos(t) * m.cos(t) + m.sin(t) * m.sin(t) == 1.0)
  }

  type MathLib = m: MathOps | Plausible(m)
    witness MathOps(
      v => if v > 0.0 then v else 0.0,
      s => if s > 0.0 then 1.0 else if s < 0.0 then -1.0 else 0.0,
      t => 1.0,
      t => 0.0,
      4.0)

  function Abs(v: real): (r: real)
    ensures r >= 0.0 && (r == v || r == -v)
  {
    if v < 0.0 then -v else v
  }

  function Square(v: real): real {
    v * v
  }

  /** `Number.MAX_VALUE`, the largest finite double, as an exact real. */
  const MaxValue: real := 179769313486231570814527423731704356798070567525844996598917476803157260780028538760589558632766878171540458953514382464234321326889464182768467546703537516986049910576551282076245490090389328944075868508455133942304583236903222948165808559332123348274797826204144723168738177180919299881250404026184124858368.0

  /** `Number.MIN_VALUE`, the smallest POSITIVE double (2 to the power -1074), as an exact real. */
  const MinValue: real := 1.0 / 202402253307310618352495346718917307049556649764142118356901358027430339567995346891960383701437124495187077864316811911389808737385793476867013399940738509921517424276566361364466907742093216341239767678472745068562007483424692698618103355649159556340810056512358769552333414615230502532186327508646006263307707741093494784.0

  /** True when `v` is a whole number. */
  predicate IsWhole(v: real) {
    v.Floor as real == v
  }

  /** The conversion `angle * Math.PI / 180` used throughout the point code. */
  function DegToRad(m: MathLib, degrees: real): real {
    degrees * m.pi / 180.0
  }

  /** The conversion `180 * radians / Math.PI` used by the angle derivation. */
  function RadToDeg(m: MathLib, radians: real): real {
    180.0 * radians / m.pi
  }

  /** Converting radians to degrees and back gives the radians unchanged. */
  lemma DegRadRoundTrip(m: MathLib, radians: real)
    ensures DegToRad(m, RadToDeg(m, radians)) == radians
  {
    calc {
      DegToRad(m, RadToDeg(m, radians));
      (180.0 * radians / m.pi) * m.pi / 180.0;
      { assert (180.0 * radians / m.pi) * m.pi == 180.0 * radians; }
      radians;
    }
  }

  /** Multiplying by a non-zero number and dividing by it cancel, in either order. */
  lemma DivisionCancels(a: real, d: real)
    requires d != 0.0
    ensures a * d / d == a
    ensures a / d * d == a
  {
  }

  /** The sign of a quotient is fixed by the signs of dividend and divisor. */
  lemma QuotientSign(a: real, d: real)
    requires d != 0.0
    ensures a / d > 0.0 <==> (a > 0.0 && d > 0.0) || (a < 0.0 && d < 0.0)
    ensures a / d < 0.0 <==> (a < 0.0 && d > 0.0) || (a > 0.0 && d < 0.0)
    ensures a / d == 0.0 <==> a == 0.0
  {
  }

  /** Division by a positive number keeps order, strict order included. */
  lemma DivideMonotone(a: real, b: real, p: real)
    requires p > 0.0 && a <= b
    ensures a / p <= b / p
    ensures a < b ==> a / p < b / p
  {
    assert (b / p - a / p) * p == b - a;
  }

  /** A radian measure in [0, pi/2] is between 0 and 90 degrees, strictly so when it is strictly inside. */
  lemma RadToDegBounds(m: MathLib, radians: real)
    requires 0.0 <= radians <= m.pi / 2.0
    ensures 0.0 <= RadToDeg(m, radians) <= 90.0
    ensures radians < m.pi / 2.0 ==> RadToDeg(m, radians) < 90.0
    ensures radians > 0.0 ==> RadToDeg(m, radians) > 0.0
    ensures radians == m.pi / 2.0 ==> RadToDeg(m, radians) == 90.0
  {
    DivideMonotone(180.0 * radians, 90.0 * m.pi, m.pi);
    DivideMonotone(0.0, 180.0 * radians, m.pi);
    DivisionCancels(90.0, m.pi);
  }
}
