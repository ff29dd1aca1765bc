/** The line-geometry variant of the generator: every frame samples the
    curve at a fixed number of evenly spaced parameters into a vertex
    buffer, then advances all three oscillators. */
module TrochWebgl {
  import opened JsMath
  import opened Fraction
  import opened Oscillator
  import opened Trochoid

  /** The number of curve samples per frame. */
  const Nsamp: nat := 1001

  /** The parameter of sample i: i / (Nsamp - 1), from 0 to 1. */
  function SampleParam(i: nat): (t: real)
    ensures i < Nsamp ==> 0.0 <= t <= 1.0
    ensures i == 0 ==> t == 0.0
    ensures i == Nsamp - 1 ==> t == 1.0
  {
    i as real / (Nsamp - 1) as real
  }

  /** The generator's state: the curve parameters a, b and bend, and the
      two orbit oscillators and the breathing oscillator. */
  class Troch {
    var a: int
    var b: int
    var bend: real
    const oscA: Osc
    const oscB: Osc
    const oscR: Osc

    /** The three oscillators are separate objects. */
    predicate Distinct()
      reads this
    {
      oscA != oscB && oscA != oscR && oscB != oscR
    }

    /** The orbit frequencies are the ones derived from a, b and bend. */
    ghost predicate Valid()
      reads this, oscA, oscB
    {
      Distinct() && b != 0 &&
      oscA.f == FreqA(a, b) && oscB.f == FreqB(a, b, bend)
    }

    /** Every phase lies in [0, 2*pi). */
    predicate PhasesInRange()
      reads this, oscA, oscB, oscR
    {
      0.0 <= oscA.ph < TwoPi && 0.0 <= oscB.ph < TwoPi && 0.0 <= oscR.ph < TwoPi
    }

    constructor (a0: int := -3, b0: int := 1, bend0: real := 0.01, fr: real := 0.001)
      requires b0 != 0
      ensures Valid() && PhasesInRange()
      ensures a == a0 && b == b0 && bend == bend0
      ensures oscR.f == fr
      ensures oscA.ph == 0.0 && oscB.ph == 0.0 && oscR.ph == 0.0
      ensures fresh(oscA) && fresh(oscB) && fresh(oscR)
    {
      a := a0;
      b := b0;
      bend := bend0;
      oscA := new Osc();
      oscB := new Osc();
      oscR := new Osc(fr);
      new;
      SetF();
    }

    /** Re-derives both orbit frequencies from a, b and bend; nothing else
        changes. */
    method SetF()
      requires Distinct() && b != 0
      modifies oscA, oscB
      ensures Valid()
      ensures oscA.ph == old(oscA.ph) && oscB.ph == old(oscB.ph)
    {
      var k := Reduce(a, b);
      oscA.f := k.d as real;
      oscB.f := k.d as real - (k.s * k.n) as real + bend / k.d as real;
    }

    method SetA(val: int)
      requires Valid()
      modifies this, oscA, oscB
      ensures Valid()
      ensures a == val && b == old(b) && bend == old(bend)
      ensures oscA.ph == old(oscA.ph) && oscB.ph == old(oscB.ph) && unchanged(oscR)
    {
      a := val;
      SetF();
    }

    method SetB(val: int)
      requires Valid() && val != 0
      modifies this, oscA, oscB
      ensures Valid()
      ensures b == val && a == old(a) && bend == old(bend)
      ensures oscA.ph == old(oscA.ph) && oscB.ph == old(oscB.ph) && unchanged(oscR)
    {
      b := val;
      SetF();
    }

    method SetBend(val: real)
      requires Valid()
      modifies this, oscA, oscB
      ensures Valid()
      ensures bend == val && a == old(a) && b == old(b)
      ensures oscA.ph == old(oscA.ph) && oscB.ph == old(oscB.ph) && unchanged(oscR)
    {
      bend := val;
      SetF();
    }

    /** Orbit A's frequency, the reduced denominator of a/b. */
    function Fa(): (fa: real)
      requires Valid()
      reads this, oscA, oscB
      ensures fa == FreqA(a, b) && fa >= 1.0
    {
      oscA.f
    }

    /** Orbit B's frequency. */
    function Fb(): (fb: real)
      requires Valid()
      reads this, oscA, oscB
      ensures fb == FreqB(a, b, bend)
    {
      oscB.f
    }

    /** One frame: each of the three oscillators advances once; no
        frequency changes. */
    method Update()
      requires Distinct()
      modifies oscA, oscB, oscR
      ensures oscA.f == old(oscA.f) && oscA.ph == Advance(old(oscA.f), old(oscA.ph))
      ensures oscB.f == old(oscB.f) && oscB.ph == Advance(old(oscB.f), old(oscB.ph))
      ensures oscR.f == old(oscR.f) && oscR.ph == Advance(old(oscR.f), old(oscR.ph))
      ensures old(Valid()) ==> Valid()
      ensures old(PhasesInRange()) ==> PhasesInRange()
    {
      oscA.Update();
      oscB.Update();
      oscR.Update();
    }

    /** The curve point at parameter val: between the two orbit points
        coordinate by coordinate, inside the unit disk, on orbit A where the
        breathing cosine vanishes and on orbit B where it is +-1. */
    function V(trig: Trig, val: real): (p: (real, real))
      reads this, oscA, oscB, oscR
      ensures trig.Bounded() ==>
        Between(p.0, oscA.V(trig, val).0, oscB.V(trig, val).0) &&
        Between(p.1, oscA.V(trig, val).1, oscB.V(trig, val).1)
      ensures trig.Bounded() && trig.Pythagorean() ==> InUnitDisk(p)
      ensures oscR.X(trig, val) == 0.0 ==> p == oscA.V(trig, val)
      ensures oscR.X(trig, val) == 1.0 || oscR.X(trig, val) == -1.0 ==> p == oscB.V(trig, val)
    {
      CurvePoint(oscA.V(trig, val), oscB.V(trig, val), oscR.X(trig, val))
    }
  }

  /** Vertex i of verts is (p.0, p.1, 0). */
  ghost predicate HoldsVertex(verts: array<real>, i: nat, p: (real, real))
    reads verts
  {
    3 * i + 2 < verts.Length &&
    verts[3 * i] == p.0 && verts[3 * i + 1] == p.1 && verts[3 * i + 2] == 0.0
  }

  /** Writes sample i of the curve as the vertex (x, y, 0) at 3*i, 3*i+1 and
      3*i+2 of verts, for the generator's state on entry, which it only
      reads. */
  method SampleCurve(troch: Troch, trig: Trig, verts: array<real>)
    requires verts.Length == 3 * Nsamp
    modifies verts
    ensures forall i :: 0 <= i < Nsamp ==> HoldsVertex(verts, i, old(troch.V(trig, SampleParam(i))))
  {
    var i := 0;
    while i < Nsamp
      invariant 0 <= i <= Nsamp
      invariant forall i' :: 0 <= i' < i ==> HoldsVertex(verts, i', old(troch.V(trig, SampleParam(i'))))
    {
      var t := i as real / (Nsamp - 1) as real;
      var p := troch.V(trig, t);
      WriteVertex(verts, i, p);
      i := i + 1;
    }
  }

  /** Stores (p.0, p.1, 0) as vertex i; every other entry keeps its value. */
  method WriteVertex(verts: array<real>, i: nat, p: (real, real))
    requires 3 * i + 2 < verts.Length
    modifies verts
    ensures HoldsVertex(verts, i, p)
    ensures forall k :: 0 <= k < verts.Length && !(3 * i <= k < 3 * i + 3) ==> verts[k] == old(verts[k])
  {
    verts[3 * i] := p.0;
    verts[3 * i + 1] := p.1;
    verts[3 * i + 2] := 0.0;
  }

  /** The curve work of one frame: the buffer receives the curve of the
      state before the frame, then every oscillator advances once. */
  method Animate(troch: Troch, trig: Trig, verts: array<real>)
    requires verts.Length == 3 * Nsamp && troch.Distinct()
    modifies verts, troch.oscA, troch.oscB, troch.oscR
    ensures forall i :: 0 <= i < Nsamp ==> HoldsVertex(verts, i, old(troch.V(trig, SampleParam(i))))
    ensures troch.oscA.f == old(troch.oscA.f) && troch.oscA.ph == Advance(old(troch.oscA.f), old(troch.oscA.ph))
    ensures troch.oscB.f == old(troch.oscB.f) && troch.oscB.ph == Advance(old(troch.oscB.f), old(troch.oscB.ph))
    ensures troch.oscR.f == old(troch.oscR.f) && troch.oscR.ph == Advance(old(troch.oscR.f), old(troch.oscR.ph))
    ensures old(troch.PhasesInRange()) ==> troch.PhasesInRange()
    ensures old(troch.Valid()) ==> troch.Valid()
  {
    SampleCurve(troch, trig, verts);
    troch.Update();
  }
}
