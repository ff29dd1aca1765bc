/** The oscillator `Osc` of the trochoid generator: a unit rotator with a
    frequency in turns per unit parameter and an accumulated phase in radians.
    The class is the same in the vertex-shader and the line-geometry variants. */
module Oscillator {
  import opened JsMath

  /** The fractional part of f: what remains after whole turns are removed. */
  function FracPart(f: real): (r: real)
    ensures 0.0 <= r < 1.0
    ensures IsWhole(f - r)
  {
    f - f.Floor as real
  }

  /** The fractional part is the only value in [0, 1) that differs from f by
      a whole number. */
  lemma {:induction false} FracPartUnique(f: real, r: real)
    requires 0.0 <= r < 1.0 && IsWhole(f - r)
    ensures r == FracPart(f)
  {
    var k := (f - r).Floor;
    assert f == k as real + r;
    assert f.Floor == k;
  }

  /** JavaScript's `f % 1.0`, moved into [0, 1) when negative, is the
      fractional part of f, whatever the sign of f. */
  lemma {:induction false} ShiftedRemainder(f: real)
    ensures Rem(f, 1.0) < 0.0 ==> Rem(f, 1.0) + 1.0 == FracPart(f)
    ensures 0.0 <= Rem(f, 1.0) ==> Rem(f, 1.0) == FracPart(f)
  {
    var r := Rem(f, 1.0);
    if r < 0.0 {
      WholeOfInt(1);
      WholeSum(f - r, 1.0);
      assert f - (r + 1.0) == (f - r) - 1.0;
      FracPartUnique(f, r + 1.0);
    } else {
      assert (f - r) / 1.0 == f - r;
      FracPartUnique(f, r);
    }
  }

  /** Shifting the frequency by whole turns does not change its fractional part. */
  lemma {:induction false} FracPartShift(f: real, k: int)
    ensures FracPart(f + k as real) == FracPart(f)
  {
    var r := FracPart(f);
    WholeOfInt(k);
    WholeSum(f - r, k as real);
    assert f + k as real - r == (f - r) + k as real;
    FracPartUnique(f + k as real, r);
  }

  /** The phase one tick after phase ph for frequency f: advanced by the
      fractional part of f turns and reduced by JavaScript's `%` by 2*pi.
      It denotes the same angle as advancing by the full f turns, and a
      non-negative phase lands in [0, 2*pi). */
  function Advance(f: real, ph: real): (ph': real)
    ensures 0.0 <= ph ==> 0.0 <= ph' < TwoPi
    ensures -TwoPi < ph' < TwoPi
    ensures SameAngle(ph', ph + TwoPi * f)
  {
    var x := ph + TwoPi * FracPart(f);
    var r := Rem(x, TwoPi);
    AdvanceSameAngle(f, ph, x, r);
    r
  }

  lemma AdvanceSameAngle(f: real, ph: real, x: real, r: real)
    requires x == ph + TwoPi * FracPart(f) && r == Rem(x, TwoPi)
    ensures SameAngle(r, ph + TwoPi * f)
  {
    var fr := FracPart(f);
    var w := (x - r) / TwoPi;
    WholeNeg(w);
    WholeSum(-w, f - fr);
    TurnsAlgebra(f, fr, ph, x, r, w);
  }

  lemma TurnsAlgebra(f: real, fr: real, ph: real, x: real, r: real, w: real)
    requires x == ph + TwoPi * fr && w == (x - r) / TwoPi
    ensures (r - (ph + TwoPi * f)) / TwoPi == -w - (f - fr)
  {
  }

  /** The integer part of the frequency is ignored: f and f + k advance the
      phase identically. */
  lemma {:induction false} AdvanceIgnoresWholeTurns(f: real, k: int, ph: real)
    ensures Advance(f + k as real, ph) == Advance(f, ph)
  {
    FracPartShift(f, k);
  }

  /** A whole-number frequency leaves an in-range phase where it is. */
  lemma {:induction false} AdvanceWholeFrequency(f: real, ph: real)
    requires IsWhole(f) && 0.0 <= ph < TwoPi
    ensures Advance(f, ph) == ph
  {
    WholeOfInt(0);
    assert IsWhole(f - 0.0);
    FracPartUnique(f, 0.0);
  }

  /** The phase after n ticks. */
  function AdvanceN(f: real, ph: real, n: nat): (ph': real)
    ensures n > 0 ==> -TwoPi < ph' < TwoPi
  {
    if n == 0 then ph else Advance(f, AdvanceN(f, ph, n - 1))
  }

  /** The turns made in n ticks at frequency f, accumulated one tick at a
      time. */
  function Turns(f: real, n: nat): real {
    if n == 0 then 0.0 else Turns(f, n - 1) + f
  }

  /** n ticks at frequency f make n * f turns. */
  lemma {:induction false} TurnsProduct(f: real, n: nat)
    ensures Turns(f, n) == (n as real) * f
  {
    if n > 0 {
      TurnsProduct(f, n - 1);
      assert (n as real) * f == ((n - 1) as real) * f + f;
    }
  }

  /** Over any number of ticks a phase that starts in [0, 2*pi) stays there. */
  lemma {:induction false} AdvanceNInRange(f: real, ph: real, n: nat)
    requires 0.0 <= ph < TwoPi
    ensures 0.0 <= AdvanceN(f, ph, n) < TwoPi
    decreases n
  {
    if n > 0 {
      AdvanceNInRange(f, ph, n - 1);
    }
  }

  /** Over any number of ticks the phase does not drift: it points where n
      full advances by f turns point. */
  lemma {:induction false} AdvanceNNoDrift(f: real, ph: real, n: nat)
    ensures SameAngle(AdvanceN(f, ph, n), ph + TwoPi * Turns(f, n))
    decreases n
  {
    if n == 0 {
      NoDriftAtStart(ph);
    } else {
      AdvanceNNoDrift(f, ph, n - 1);
      NextTickNoDrift(f, ph, n);
    }
  }

  /** The same without the running sum: n updates point where the
      unreduced phase ph + 2*pi*turns points, for turns = n * f. */
  lemma {:induction false} AdvanceNMatchesFullTurns(f: real, ph: real, n: nat, turns: real)
    requires turns == (n as real) * f
    ensures SameAngle(AdvanceN(f, ph, n), ph + TwoPi * turns)
  {
    AdvanceNNoDrift(f, ph, n);
    TurnsProduct(f, n);
  }

  lemma NextTickNoDrift(f: real, ph: real, n: nat)
    requires n > 0
    requires SameAngle(AdvanceN(f, ph, n - 1), ph + TwoPi * Turns(f, n - 1))
    ensures SameAngle(AdvanceN(f, ph, n), ph + TwoPi * Turns(f, n))
  {
    DriftStep(f, AdvanceN(f, ph, n - 1), ph, Turns(f, n - 1));
  }

  lemma NoDriftAtStart(ph: real)
    ensures SameAngle(ph, ph + TwoPi * 0.0)
  {
    WholeOfInt(0);
    assert (ph - (ph + TwoPi * 0.0)) / TwoPi == 0.0;
  }

  /** One more tick keeps a phase that matches t turns from ph matching
      t + f turns. */
  lemma DriftStep(f: real, prev: real, ph: real, t: real)
    requires SameAngle(prev, ph + TwoPi * t)
    ensures SameAngle(Advance(f, prev), ph + TwoPi * (t + f))
  {
    var c := TwoPi * f;
    assert TwoPi * (t + f) == TwoPi * t + c;
    SameAngleShift(prev, ph + TwoPi * t, c);
    SameAngleTrans(Advance(f, prev), prev + c, ph + TwoPi * (t + f));
  }

  /** An oscillator: frequency `f` (turns per unit parameter) and phase `ph`
      (radians). */
  class Osc {
    var f: real
    var ph: real

    constructor (f0: real := 1.0, ph0: real := 0.0)
      ensures f == f0 && ph == ph0
    {
      f := f0;
      ph := ph0;
    }

    /** One tick: the phase advances by the fractional part of f turns and
        is reduced modulo 2*pi; the frequency is left alone. */
    method Update()
      modifies this
      ensures f == old(f)
      ensures ph == Advance(old(f), old(ph))
    {
      var ffrac := Rem(f, 1.0);
      if ffrac < 0.0 {
        ffrac := ffrac + 1.0;
      }
      ShiftedRemainder(f);
      ph := ph + 2.0 * Pi * ffrac;
      ph := Rem(ph, 2.0 * Pi);
    }

    /** The cosine at parameter val. */
    function X(trig: Trig, val: real): (c: real)
      reads this
      ensures trig.Bounded() ==> -1.0 <= c <= 1.0
    {
      trig.cos(2.0 * Pi * f * val + ph)
    }

    /** The sine at parameter val. */
    function Y(trig: Trig, val: real): (s: real)
      reads this
      ensures trig.Bounded() ==> -1.0 <= s <= 1.0
    {
      trig.sin(2.0 * Pi * f * val + ph)
    }

    /** The point at parameter val, from one angle: it agrees with X and Y
        and lies on the unit circle. */
    function V(trig: Trig, val: real): (p: (real, real))
      reads this
      ensures p == (X(trig, val), Y(trig, val))
      ensures trig.Pythagorean() ==> OnUnitCircle(p)
    {
      var th := 2.0 * Pi * f * val + ph;
      (trig.cos(th), trig.sin(th))
    }
  }
}
