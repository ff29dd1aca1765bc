/** What the two `Troch` classes share: the orbit frequencies derived from
    the ratio a/b and the bend, and the blend of two orbit points by the
    breathing weight. */
module Trochoid {
  import opened JsMath
  import opened Fraction

  /** Orbit A's frequency: the denominator of a/b in lowest terms. */
  function FreqA(a: int, b: int): (fa: real)
    requires b != 0
    ensures fa >= 1.0 && IsWhole(fa)
  {
    WholeOfInt(Reduce(a, b).d);
    Reduce(a, b).d as real
  }

  /** Orbit B's frequency: d - s*n + bend/d for a/b == s*n/d in lowest terms. */
  function FreqB(a: int, b: int, bend: real): (fb: real)
    requires b != 0
    ensures IsWhole(fb - bend / FreqA(a, b))
  {
    var k := Reduce(a, b);
    var fb := k.d as real - (k.s * k.n) as real + bend / k.d as real;
    WholeOffset(k.d - k.s * k.n, bend / k.d as real, fb);
    fb
  }

  lemma WholeOffset(m: int, e: real, x: real)
    requires x == m as real + e
    ensures IsWhole(x - e)
  {
    WholeOfInt(m);
  }

  /** The two frequencies encode the ratio: fa - fb + bend/fa is the reduced
      numerator N, a whole number, with N / fa == a / b and N coprime to fa. */
  lemma {:induction false} DerivedFrequencies(a: int, b: int, bend: real)
    requires b != 0
    ensures var fa, fb := FreqA(a, b), FreqB(a, b, bend);
      IsWhole(fa - fb + bend / fa) &&
      (fa - fb + bend / fa) / fa == (a as real) / (b as real) &&
      Gcd(Abs((fa - fb + bend / fa).Floor), fa.Floor) == 1
  {
    var k := Reduce(a, b);
    var N, d := k.Num(), k.d;
    assert FreqA(a, b) - FreqB(a, b, bend) + bend / FreqA(a, b) == N as real;
    WholeOfInt(N);
    RatioOfCross(N, d, a, b);
    assert Abs(N) == k.n;
  }

  /** Cross-multiplication N*b == a*d is equality of the ratios N/d and a/b. */
  lemma RatioOfCross(N: int, d: int, a: int, b: int)
    requires d != 0 && b != 0 && N * b == a * d
    ensures (N as real) / (d as real) == (a as real) / (b as real)
  {
    assert (N as real) * (b as real) == (a as real) * (d as real) by {
      assert ((N * b) as real) == ((a * d) as real);
    }
  }

  /** The derived frequencies depend only on the value of a/b. */
  lemma {:induction false} FrequenciesDependOnRatio(a: int, b: int, a': int, b': int, bend: real)
    requires b != 0 && b' != 0 && a * b' == a' * b
    ensures FreqA(a, b) == FreqA(a', b')
    ensures FreqB(a, b, bend) == FreqB(a', b', bend)
  {
    ReduceCanonical(a, b, a', b');
  }

  /** The defaults a = -3, b = 1, bend = 0.01 give fa = 1 and fb = 4.01, and
      a = 4, b = 2, bend = 0 give fa = 1 and fb = -1. */
  lemma {:induction false} ExampleFrequencies()
    ensures FreqA(-3, 1) == 1.0 && FreqB(-3, 1, 0.01) == 4.01
    ensures FreqA(4, 2) == 1.0 && FreqB(4, 2, 0.0) == -1.0
  {
    ReducedUnique(Reduce(-3, 1), Frac(-1, 3, 1));
    ReducedUnique(Reduce(4, 2), Frac(1, 2, 1));
  }

  /** The blend weight 1 - c^2 for the breathing cosine c: in [0, 1] when c
      is, exactly 1 where c vanishes and exactly 0 where c is +-1. */
  function Weight(c: real): (r: real)
    ensures -1.0 <= c <= 1.0 ==> 0.0 <= r <= 1.0
    ensures r == 1.0 <==> c == 0.0
    ensures r == 0.0 <==> (c == 1.0 || c == -1.0)
  {
    SquareFacts(c);
    1.0 - Sq(c)
  }

  lemma SquareFacts(c: real)
    ensures c != 0.0 ==> Sq(c) > 0.0
    ensures c == 0.0 ==> Sq(c) == 0.0
    ensures c == 1.0 || c == -1.0 ==> Sq(c) == 1.0
    ensures -1.0 <= c <= 1.0 ==> 0.0 <= Sq(c) <= 1.0
    ensures Sq(c) == 1.0 ==> c == 1.0 || c == -1.0
  {
    if c != 0.0 { SqPositive(c); }
    if -1.0 <= c <= 1.0 { SqBelowOne(c); }
    if Sq(c) == 1.0 { SqOne(c); }
  }

  lemma SqNeg(c: real)
    ensures Sq(-c) == Sq(c)
  {
  }

  lemma SqPositive(c: real)
    requires c != 0.0
    ensures Sq(c) > 0.0
  {
    if c > 0.0 {
      Positive(c, c, Sq(c));
    } else {
      Positive(-c, -c, Sq(-c));
      SqNeg(c);
    }
  }

  lemma SqBelowOne(c: real)
    requires -1.0 <= c <= 1.0
    ensures 0.0 <= Sq(c) <= 1.0
  {
    if 0.0 <= c {
      ScaleDown(c, c, Sq(c));
    } else {
      ScaleDown(-c, -c, Sq(-c));
      SqNeg(c);
    }
  }

  lemma SqOne(c: real)
    requires Sq(c) == 1.0
    ensures c == 1.0 || c == -1.0
  {
    var e, f := c - 1.0, c + 1.0;
    assert e * f == Sq(c) - 1.0;
    if e != 0.0 && f != 0.0 {
      NonzeroProduct(e, f, e * f);
    }
  }

  // Products are passed in as p so that the caller's facts mention p rather
  // than a product term.
  lemma NonzeroProduct(x: real, y: real, p: real)
    requires x != 0.0 && y != 0.0 && p == x * y
    ensures p != 0.0
  {
  }

  lemma NonnegProduct(x: real, y: real, p: real)
    requires x >= 0.0 && y >= 0.0 && p == x * y
    ensures p >= 0.0
  {
  }

  lemma Positive(x: real, y: real, p: real)
    requires x > 0.0 && y > 0.0 && p == x * y
    ensures p > 0.0
  {
  }

  /** Scaling by a weight in [0, 1] does not enlarge a non-negative amount. */
  lemma ScaleDown(r: real, t: real, p: real)
    requires 0.0 <= r <= 1.0 && t >= 0.0 && p == r * t
    ensures 0.0 <= p <= t
  {
    assert r * t <= 1.0 * t;
  }

  /** x lies between u and v. */
  predicate Between(x: real, u: real, v: real) {
    (u <= x <= v) || (v <= x <= u)
  }

  /** The point weighted r toward pa and 1 - r toward pb. */
  function Mix(r: real, pa: (real, real), pb: (real, real)): (p: (real, real))
    ensures 0.0 <= r <= 1.0 ==> Between(p.0, pa.0, pb.0) && Between(p.1, pa.1, pb.1)
    ensures r == 1.0 ==> p == pa
    ensures r == 0.0 ==> p == pb
  {
    (Blend(r, pa.0, pb.0), Blend(r, pa.1, pb.1))
  }

  /** One coordinate of the blend: r * u + (1 - r) * v. */
  function Blend(r: real, u: real, v: real): (x: real)
    ensures 0.0 <= r <= 1.0 ==> Between(x, u, v)
    ensures r == 1.0 ==> x == u
    ensures r == 0.0 ==> x == v
  {
    var x := r * u + (1.0 - r) * v;
    BlendBetween(r, u, v, x);
    x
  }

  lemma BlendBetween(r: real, u: real, v: real, x: real)
    requires x == r * u + (1.0 - r) * v
    ensures 0.0 <= r <= 1.0 ==> Between(x, u, v)
    ensures r == 1.0 ==> x == u
    ensures r == 0.0 ==> x == v
  {
    var t := x - v;
    assert t == r * (u - v);
    if 0.0 <= r <= 1.0 {
      if u >= v {
        ScaleDown(r, u - v, t);
      } else {
        ScaleDown(r, v - u, -t);
      }
      BetweenOfOffset(x, u, v, t);
    }
    if r == 1.0 {
      assert x == u;
    } else if r == 0.0 {
      assert x == v;
    }
  }

  lemma BetweenOfOffset(x: real, u: real, v: real, t: real)
    requires x == v + t
    requires u >= v ==> 0.0 <= t <= u - v
    requires u < v ==> u - v <= t <= 0.0
    ensures Between(x, u, v)
  {
  }

  /** A curve point: the orbit points pa and pb blended by the weight drawn
      from the breathing cosine c. For c in [-1, 1] it lies between the two
      orbit points coordinate by coordinate, and in the closed unit disk when
      they lie on the unit circle. */
  function CurvePoint(pa: (real, real), pb: (real, real), c: real): (p: (real, real))
    ensures -1.0 <= c <= 1.0 ==> Between(p.0, pa.0, pb.0) && Between(p.1, pa.1, pb.1)
    ensures -1.0 <= c <= 1.0 && OnUnitCircle(pa) && OnUnitCircle(pb) ==> InUnitDisk(p)
    ensures c == 0.0 ==> p == pa
    ensures c == 1.0 || c == -1.0 ==> p == pb
  {
    var r := Weight(c);
    if -1.0 <= c <= 1.0 then
      MixInDisk(r, pa, pb);
      Mix(r, pa, pb)
    else
      Mix(r, pa, pb)
  }

  /** A convex combination of two unit vectors has length at most 1. */
  lemma {:induction false} MixInDisk(r: real, pa: (real, real), pb: (real, real))
    requires 0.0 <= r <= 1.0
    ensures OnUnitCircle(pa) && OnUnitCircle(pb) ==> InUnitDisk(Mix(r, pa, pb))
  {
    if OnUnitCircle(pa) && OnUnitCircle(pb) {
      var p := Mix(r, pa, pb);
      var s := 1.0 - r;
      assert p.0 == r * pa.0 + s * pb.0 && p.1 == r * pa.1 + s * pb.1;
      BlendInDisk(r, s, pa.0, pa.1, pb.0, pb.1, p.0, p.1);
    }
  }

  lemma BlendInDisk(r: real, s: real, x1: real, y1: real, x2: real, y2: real, px: real, py: real)
    requires 0.0 <= r <= 1.0 && s == 1.0 - r
    requires Sq(x1) + Sq(y1) == 1.0 && Sq(x2) + Sq(y2) == 1.0
    requires px == r * x1 + s * x2 && py == r * y1 + s * y2
    ensures Sq(px) + Sq(py) <= 1.0
  {
    DotAtMostOne(x1, y1, x2, y2);
    BlendNorm(r, s, x1, y1, x2, y2, px, py);
    ConvexBound(r, s, x1 * x2 + y1 * y2, Sq(px) + Sq(py));
  }

  /** The dot product of two unit vectors is at most 1, because the square
      of their difference is non-negative. */
  lemma DotAtMostOne(x1: real, y1: real, x2: real, y2: real)
    requires Sq(x1) + Sq(y1) == 1.0 && Sq(x2) + Sq(y2) == 1.0
    ensures x1 * x2 + y1 * y2 <= 1.0
  {
    SquareNonneg(x1 - x2);
    SquareNonneg(y1 - y2);
    ExpandDifference(x1, x2);
    ExpandDifference(y1, y2);
  }

  lemma ExpandDifference(a: real, b: real)
    ensures Sq(a - b) == Sq(a) - 2.0 * (a * b) + Sq(b)
  {
  }

  lemma SquareNonneg(x: real)
    ensures Sq(x) >= 0.0
  {
    if x != 0.0 {
      SqPositive(x);
    }
  }

  /** The squared length of r * (x1, y1) + s * (x2, y2). */
  lemma BlendNorm(r: real, s: real, x1: real, y1: real, x2: real, y2: real, px: real, py: real)
    requires px == r * x1 + s * x2 && py == r * y1 + s * y2
    requires Sq(x1) + Sq(y1) == 1.0 && Sq(x2) + Sq(y2) == 1.0
    ensures Sq(px) + Sq(py) == Sq(r) + Sq(s) + 2.0 * (r * s) * (x1 * x2 + y1 * y2)
  {
    var rs := r * s;
    assert Sq(px) == Sq(r) * Sq(x1) + 2.0 * rs * (x1 * x2) + Sq(s) * Sq(x2);
    assert Sq(py) == Sq(r) * Sq(y1) + 2.0 * rs * (y1 * y2) + Sq(s) * Sq(y2);
    assert Sq(r) * Sq(x1) + Sq(r) * Sq(y1) == Sq(r) * (Sq(x1) + Sq(y1));
    assert Sq(s) * Sq(x2) + Sq(s) * Sq(y2) == Sq(s) * (Sq(x2) + Sq(y2));
  }

  lemma ConvexBound(r: real, s: real, dot: real, q: real)
    requires 0.0 <= r && 0.0 <= s && r + s == 1.0 && dot <= 1.0
    requires q == Sq(r) + Sq(s) + 2.0 * (r * s) * dot
    ensures q <= 1.0
  {
    var rs := r * s;
    NonnegProduct(r, s, rs);
    assert 2.0 * rs * dot <= 2.0 * rs;
    assert Sq(r) + Sq(s) + 2.0 * rs == Sq(r + s);
  }

  /** Each coordinate of a point in the unit disk lies in [-1, 1]. */
  lemma {:induction false} DiskCoordinates(p: (real, real))
    requires InUnitDisk(p)
    ensures -1.0 <= p.0 <= 1.0 && -1.0 <= p.1 <= 1.0
  {
    SquareFacts(p.0);
    SquareFacts(p.1);
    SqAtMostOne(p.0);
    SqAtMostOne(p.1);
  }

  lemma SqAtMostOne(x: real)
    requires Sq(x) <= 1.0
    ensures -1.0 <= x <= 1.0
  {
    if x > 1.0 {
      Positive(x - 1.0, x + 1.0, Sq(x) - 1.0);
    } else if x < -1.0 {
      Positive(-x - 1.0, -x + 1.0, Sq(-x) - 1.0);
      SqNeg(x);
    }
  }
}
