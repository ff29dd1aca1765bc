/** Reduction of an integer ratio a/b to lowest terms, in the shape the
    generator reads from its fraction library: a sign s, a numerator
    magnitude n and a denominator d >= 1, with s * n / d == a / b. */
module Fraction {

  /** Greatest common divisor by Euclid's algorithm. */
  function Gcd(x: nat, y: nat): nat
    decreases y
  {
    if y == 0 then x else Gcd(y, x % y)
  }

  function Abs(x: int): nat {
    if x < 0 then -x else x
  }

  /** A ratio in lowest terms: sign, numerator magnitude, denominator. */
  datatype Frac = Frac(s: int, n: nat, d: nat) {

    /** The signed reduced numerator s * n. */
    function Num(): int {
      s * n
    }

    ghost predicate Reduced() {
      (s == 1 || s == -1) && (n == 0 ==> s == 1) && d >= 1 && Gcd(n, d) == 1
    }
  }

  /** The fraction a/b in lowest terms; zero is 0/1 with sign 1. */
  function Reduce(a: int, b: int): (k: Frac)
    requires b != 0
    ensures k.Reduced()
    ensures k.Num() * b == a * k.d
    ensures k.s == -1 <==> (a < 0 < b || b < 0 < a)
  {
    var p, q := Abs(a), Abs(b);
    var g := Gcd(p, q);
    GcdDivides(p, q);
    var k := Frac(if (a < 0 < b || b < 0 < a) then -1 else 1, p / g, q / g);
    ReduceCorrect(a, b, p, q, g, k);
    k
  }

  lemma ReduceCorrect(a: int, b: int, p: nat, q: nat, g: nat, k: Frac)
    requires b != 0 && p == Abs(a) && q == Abs(b)
    requires g > 0 && p % g == 0 && q % g == 0 && g == Gcd(p, q)
    requires k.s == (if (a < 0 < b || b < 0 < a) then -1 else 1)
    requires k.n == p / g && k.d == q / g
    ensures k.Reduced() && k.Num() * b == a * k.d
  {
    DivExact(p, g);
    DivExact(q, g);
    CoprimeQuotients(p, q, g, k.n, k.d);
    FactorSign(q, g, k.d);
    FactorSign(p, g, k.n);
    ReducedCross(a, b, k, g);
  }

  /** Dividing both arguments by their gcd leaves coprime quotients. */
  lemma CoprimeQuotients(p: nat, q: nat, g: nat, n: nat, d: nat)
    requires g > 0 && g == Gcd(p, q) && p == g * n && q == g * d
    ensures Gcd(n, d) == 1
  {
    var h := Gcd(n, d);
    GcdScale(g, n, d);
    assert g * h == g;
    MulCancel(h, 1, g);
  }

  lemma FactorSign(x: nat, g: nat, c: nat)
    requires g > 0 && x == g * c
    ensures x == 0 <==> c == 0
  {
  }

  lemma DivExact(x: nat, g: nat)
    requires g > 0 && x % g == 0
    ensures x == g * (x / g)
  {
  }

  /** Every common ratio has a single representation in lowest terms. */
  lemma {:induction false} ReducedUnique(k1: Frac, k2: Frac)
    requires k1.Reduced() && k2.Reduced()
    requires k1.Num() * k2.d == k2.Num() * k1.d
    ensures k1 == k2
  {
    assert k1.n * k2.d == k2.n * k1.d by {
      AbsMul(k1.Num(), k2.d);
      AbsMul(k2.Num(), k1.d);
      assert Abs(k1.Num()) == k1.n && Abs(k2.Num()) == k2.n;
    }
    GcdScale(k2.d, k1.n, k1.d);
    GcdScale(k1.d, k2.n, k2.d);
    assert k2.d * k1.n == k1.d * k2.n;
    assert k2.d * k1.d == k1.d * k2.d;
    assert k1.d == k2.d;
    MulCancel(k1.n, k2.n, k1.d);
    if k1.n != 0 {
      MulCancelInt(k1.Num(), k2.Num(), k1.d);
      SignCancel(k1.s, k2.s, k1.n);
    } else {
      SignOfZero(k1, k2);
    }
  }

  /** The reduction depends only on the value of the ratio: a/b == a'/b'
      gives the same sign, numerator and denominator. */
  lemma {:induction false} ReduceCanonical(a: int, b: int, a': int, b': int)
    requires b != 0 && b' != 0
    requires a * b' == a' * b
    ensures Reduce(a, b) == Reduce(a', b')
  {
    var k, k' := Reduce(a, b), Reduce(a', b');
    CrossTransfer(a, b, a', b', k.Num(), k.d, k'.Num(), k'.d);
    ReducedUnique(k, k');
  }

  // ----- arithmetic helpers -----

  /** From N*b == a*d, N'*b' == a'*d' and a*b' == a'*b: N*d' == N'*d. */
  lemma CrossTransfer(a: int, b: int, a': int, b': int, N: int, d: int, N': int, d': int)
    requires b != 0 && b' != 0
    requires N * b == a * d && N' * b' == a' * d' && a * b' == a' * b
    ensures N * d' == N' * d
  {
    calc {
      (N * d') * (b * b');
      (N * b) * (d' * b');
      (a * d) * (d' * b');
      (a * b') * (d * d');
      (a' * b) * (d * d');
      (a' * d') * (b * d);
      (N' * b') * (b * d);
      (N' * d) * (b * b');
    }
    MulCancelInt(N * d', N' * d, b * b');
  }

  lemma MulCancelInt(x: int, y: int, c: int)
    requires c != 0 && x * c == y * c
    ensures x == y
  {
    assert (x - y) * c == 0;
  }

  lemma MulCancel(x: nat, y: nat, c: nat)
    requires c != 0 && x * c == y * c
    ensures x == y
  {
    MulCancelInt(x, y, c);
  }

  lemma AbsMul(x: int, y: nat)
    ensures Abs(x * y) == Abs(x) * y
  {
  }

  lemma SignCancel(s1: int, s2: int, n: nat)
    requires n != 0 && s1 * n == s2 * n
    ensures s1 == s2
  {
    MulCancelInt(s1, s2, n);
  }

  lemma SignOfZero(k1: Frac, k2: Frac)
    requires k1.Reduced() && k2.Reduced() && k1.n == 0 && k2.n == 0 && k1.d == k2.d
    ensures k1 == k2
  {
    assert k1.s == 1 == k2.s;
  }

  lemma ReducedCross(a: int, b: int, k: Frac, g: nat)
    requires b != 0 && g > 0
    requires Abs(a) == g * k.n && Abs(b) == g * k.d
    requires k.s == if (a < 0 < b || b < 0 < a) then -1 else 1
    ensures k.Num() * b == a * k.d
  {
    assert k.s * Abs(a) * b == a * Abs(b) by {
      if a < 0 && b < 0 {
        assert Abs(a) * b == (-a) * b == a * (-b);
      } else if a < 0 {
        assert -(Abs(a) * b) == a * b;
      } else if b < 0 {
        assert Abs(a) * b == a * b == -(a * Abs(b));
      }
    }
    calc {
      (k.Num() * b) * g;
      k.s * (g * k.n) * b;
      k.s * Abs(a) * b;
      a * Abs(b);
      a * (g * k.d);
      (a * k.d) * g;
    }
    MulCancelInt(k.Num() * b, a * k.d, g);
  }

  // ----- facts about Gcd -----

  /** Gcd(x, y) is positive and divides both arguments when one is nonzero. */
  lemma {:induction false} GcdDivides(x: nat, y: nat)
    requires x > 0 || y > 0
    ensures Gcd(x, y) > 0 && x % Gcd(x, y) == 0 && y % Gcd(x, y) == 0
    decreases y
  {
    if y != 0 {
      var q, r := x / y, x % y;
      GcdDivides(y, r);
      var g := Gcd(y, r);
      DivExact(y, g);
      DivExact(r, g);
      CombineMultiple(x, y, r, q, g, y / g, r / g);
      MultipleMod(x, g, (y / g) * q + r / g);
    }
  }

  lemma CombineMultiple(x: int, y: int, r: int, q: int, g: int, i: int, j: int)
    requires x == q * y + r && y == g * i && r == g * j
    ensures x == g * (i * q + j)
  {
  }

  lemma MultipleMod(x: nat, g: nat, c: int)
    requires g > 0 && x == g * c
    ensures x % g == 0
  {
    DivModUnique(x, g, c, 0);
  }

  /** Euclidean division has a unique quotient and remainder. */
  lemma DivModUnique(x: int, m: int, q: int, r: int)
    requires m > 0 && x == q * m + r && 0 <= r < m
    ensures x / m == q && x % m == r
  {
    var q0, r0 := x / m, x % m;
    assert x == q0 * m + r0;
    assert (q - q0) * m == r0 - r;
    if q > q0 {
      AtLeastOnce(q - q0, m);
    } else if q < q0 {
      AtLeastOnce(q0 - q, m);
    }
  }

  lemma AtLeastOnce(t: int, m: int)
    requires t >= 1 && m > 0
    ensures t * m >= m
  {
  }

  /** Scaling both arguments scales the gcd. */
  lemma {:induction false} GcdScale(c: nat, x: nat, y: nat)
    requires c > 0
    ensures Gcd(c * x, c * y) == c * Gcd(x, y)
    decreases y
  {
    if y == 0 {
    } else {
      ScaledMod(c, x, y);
      GcdScale(c, y, x % y);
    }
  }

  lemma ScaledMod(c: nat, x: nat, y: nat)
    requires c > 0 && y > 0
    ensures (c * x) % (c * y) == c * (x % y)
  {
    var q, r := x / y, x % y;
    assert c * x == q * (c * y) + c * r;
    assert c * r < c * y;
    DivModUnique(c * x, c * y, q, c * r);
  }
}
