/** The parts of JavaScript's number semantics and `Math` object that the
    trochoid generator uses, stated over exact reals. */
module JsMath {

  /** `Math.PI`, as the decimal JavaScript prints for it. */
  const Pi: real := 3.141592653589793

  /** One full turn in radians. */
  const TwoPi: real := 2.0 * Pi

  /** x is an integer. */
  predicate IsWhole(x: real) {
    x == x.Floor as real
  }

  /** Two angles denote the same direction: they differ by whole turns. */
  predicate SameAngle(x: real, y: real) {
    IsWhole((x - y) / TwoPi)
  }

  /** Truncation toward zero, the quotient rounding behind JavaScript's `%`. */
  function Trunc(x: real): (n: int)
    ensures 0.0 <= x ==> 0 <= n && n as real <= x < n as real + 1.0
    ensures x < 0.0 ==> n <= 0 && n as real - 1.0 < x <= n as real
  {
    if x >= 0.0 then x.Floor else -((-x).Floor)
  }

  /** JavaScript's `x % m` for a finite x and m > 0: the remainder of the
      truncating division, which carries the sign of x and differs from x by a
      whole multiple of m. */
  function Rem(x: real, m: real): (r: real)
    requires m > 0.0
    ensures 0.0 <= x ==> 0.0 <= r < m
    ensures x < 0.0 ==> -m < r <= 0.0
    ensures IsWhole((x - r) / m)
  {
    var q := x / m;
    var k := Trunc(q);
    var r := x - m * (k as real);
    RemainderBounds(x, m, q, k, r);
    r
  }

  lemma RemainderBounds(x: real, m: real, q: real, k: int, r: real)
    requires m > 0.0 && q == x / m && k == Trunc(q) && r == x - m * (k as real)
    ensures 0.0 <= x ==> 0.0 <= r < m
    ensures x < 0.0 ==> -m < r <= 0.0
    ensures IsWhole((x - r) / m)
  {
    var kr := k as real;
    QuotientSign(x, m, q);
    RemainderFactor(x, m, q, kr, r);
    if 0.0 <= x {
      ScaleUnit(m, q - kr, r);
    } else {
      ScaleUnit(m, kr - q, -r);
    }
    WholeOfInt(k);
  }

  lemma QuotientSign(x: real, m: real, q: real)
    requires m > 0.0 && q == x / m
    ensures 0.0 <= x <==> 0.0 <= q
  {
  }

  lemma RemainderFactor(x: real, m: real, q: real, kr: real, r: real)
    requires m > 0.0 && q == x / m && r == x - m * kr
    ensures r == m * (q - kr) && (x - r) / m == kr
  {
    assert x == m * q;
  }

  /** Scaling by m > 0 maps [0, 1) into [0, m). */
  lemma ScaleUnit(m: real, t: real, p: real)
    requires m > 0.0 && 0.0 <= t < 1.0 && p == m * t
    ensures 0.0 <= p < m
  {
    assert m * t < m * 1.0;
  }

  lemma {:induction false} WholeSum(x: real, y: real)
    requires IsWhole(x) && IsWhole(y)
    ensures IsWhole(x + y) && IsWhole(x - y)
  {
    var i, j := x.Floor, y.Floor;
    WholeOfInt(i + j);
    WholeOfInt(i - j);
  }

  lemma {:induction false} WholeOfInt(i: int)
    ensures IsWhole(i as real)
  {
  }

  lemma {:induction false} WholeNeg(x: real)
    requires IsWhole(x)
    ensures IsWhole(-x)
  {
    WholeOfInt(-(x.Floor));
  }

  /** Adding the same amount to two angles keeps them the same angle. */
  lemma {:induction false} SameAngleShift(x: real, y: real, c: real)
    requires SameAngle(x, y)
    ensures SameAngle(x + c, y + c)
  {
    assert (x + c - (y + c)) / TwoPi == (x - y) / TwoPi;
  }

  /** SameAngle is an equivalence: the steps below chain congruences. */
  lemma {:induction false} SameAngleTrans(x: real, y: real, z: real)
    requires SameAngle(x, y) && SameAngle(y, z)
    ensures SameAngle(x, z)
  {
    assert (x - z) / TwoPi == (x - y) / TwoPi + (y - z) / TwoPi;
    WholeSum((x - y) / TwoPi, (y - z) / TwoPi);
  }

  /** `x ** 2`. */
  function Sq(x: real): real {
    x * x
  }

  /** p lies on the unit circle. */
  predicate OnUnitCircle(p: (real, real)) {
    Sq(p.0) + Sq(p.1) == 1.0
  }

  /** p lies in the closed unit disk. */
  predicate InUnitDisk(p: (real, real)) {
    Sq(p.0) + Sq(p.1) <= 1.0
  }

  /** The host's `Math.cos` and `Math.sin`. Their values are not computed
      here: every statement about them is made under the hypotheses below. */
  datatype Trig = Trig(cos: real -> real, sin: real -> real) {

    /** Both functions stay within [-1, 1]. */
    ghost predicate Bounded() {
      forall x :: -1.0 <= cos(x) <= 1.0 && -1.0 <= sin(x) <= 1.0
    }

    /** cos^2 + sin^2 = 1 everywhere. */
    ghost predicate Pythagorean() {
      forall x :: OnUnitCircle((cos(x), sin(x)))
    }
  }
}
