/** The vertex-shader variant of the generator: the curve is drawn as
    `nsamp` instanced segments whose angles come from a sample grid, the
    camera keeps the view's aspect ratio, and `Troch` owns the three
    oscillators whose state the shader reads. */
module TrochVs {
  import opened JsMath
  import opened Fraction
  import opened Oscillator
  import opened Trochoid

  /** The largest sample count, and the count the curve starts with. */
  const MaxSamp: nat := 10000

  /** Half-extents of the orthographic camera for a width x height view: the
      shorter side spans [-1.1, 1.1] and the longer one is stretched so that
      the extents keep the view's aspect ratio. */
  function CameraAspect(width: real, height: real): (halves: (real, real))
    requires width > 0.0 && height > 0.0
    ensures halves.0 >= 1.1 && halves.1 >= 1.1
    ensures width >= height ==> halves.1 == 1.1
    ensures width <= height ==> halves.0 == 1.1
    ensures halves.0 * height == halves.1 * width
  {
    var aspect := width / height;
    AspectFacts(width, height, aspect);
    if aspect >= 1.0 then
      var hw := 1.1 * aspect;
      StretchWidth(width, height, aspect, hw);
      (hw, 1.1)
    else
      var hh := 1.1 / aspect;
      StretchHeight(width, height, aspect, hh);
      (1.1, hh)
  }

  lemma AspectFacts(width: real, height: real, aspect: real)
    requires width > 0.0 && height > 0.0 && aspect == width / height
    ensures aspect > 0.0 && aspect * height == width
    ensures aspect >= 1.0 <==> width >= height
    ensures aspect <= 1.0 <==> width <= height
  {
  }

  lemma StretchWidth(width: real, height: real, aspect: real, hw: real)
    requires height > 0.0 && aspect >= 1.0 && aspect * height == width && hw == 1.1 * aspect
    ensures hw >= 1.1 && hw * height == 1.1 * width
  {
  }

  lemma StretchHeight(width: real, height: real, aspect: real, hh: real)
    requires 0.0 < aspect < 1.0 && aspect * height == width && hh == 1.1 / aspect
    ensures hh > 1.1 && 1.1 * height == hh * width
  {
    assert hh * aspect == 1.1;
  }

  /** Every point of the closed unit disk, where the curve stays, lies
      strictly inside the camera's view whatever the view's shape. */
  lemma {:induction false} DiskInView(p: (real, real), width: real, height: real)
    requires width > 0.0 && height > 0.0 && InUnitDisk(p)
    ensures var halves := CameraAspect(width, height);
      -halves.0 < p.0 < halves.0 && -halves.1 < p.1 < halves.1
  {
    DiskCoordinates(p);
  }

  /** The angle that instance i of nsamp passes for its vertex j: 2*pi times
      (i + j) / (nsamp - 1). */
  function SegAngle(nsamp: nat, i: nat, j: nat): (angle: real)
    requires nsamp >= 2
    ensures 0.0 <= angle
    ensures i + j <= nsamp - 1 ==> angle <= TwoPi
  {
    2.0 * Pi * ((i + j) as real / (nsamp - 1) as real)
  }

  /** The grid runs from 0 at the first instance to a full turn at the last. */
  lemma {:induction false} SegEndpoints(nsamp: nat)
    requires nsamp >= 2
    ensures SegAngle(nsamp, 0, 0) == 0.0
    ensures SegAngle(nsamp, nsamp - 1, 0) == TwoPi
  {
    var m := (nsamp - 1) as real;
    assert ((nsamp - 1 + 0) as real) / m == 1.0;
  }

  /** Consecutive instances share vertices, so the segments join up:
      vertex j + 1 of instance i is vertex j of instance i + 1. */
  lemma {:induction false} SegShared(nsamp: nat, i: nat, j: nat)
    requires nsamp >= 2
    ensures SegAngle(nsamp, i, j + 1) == SegAngle(nsamp, i + 1, j)
  {
  }

  /** The angles rise in equal steps of 2*pi / (nsamp - 1). */
  lemma {:induction false} SegStep(nsamp: nat, i: nat, j: nat)
    requires nsamp >= 2
    ensures SegAngle(nsamp, i, j + 1) - SegAngle(nsamp, i, j) == TwoPi / (nsamp - 1) as real
  {
    var m := (nsamp - 1) as real;
    assert (i + j + 1) as real / m - (i + j) as real / m == 1.0 / m;
  }

  /** The geometry the segments are drawn from: the per-instance angle
      buffer, sized for the largest sample count, and the number of
      instances drawn. A new geometry draws no instances until `SetSegs`
      first fills its grid. */
  class Geometry {
    const seg: array<real>
    var instanceCount: nat

    constructor ()
      ensures seg.Length == 3 * MaxSamp && instanceCount == 0
    {
      seg := new real[3 * MaxSamp];
      instanceCount := 0;
    }
  }

  /** The geometry draws n instances and its angle buffer starts with the
      grid for n samples. */
  ghost predicate DrawsGrid(geometry: Geometry, n: nat)
    reads geometry, geometry.seg
  {
    geometry.instanceCount == n && 3 * n <= geometry.seg.Length &&
    forall i, j :: 0 <= i < n && 0 <= j < 3 ==>
      n >= 2 && geometry.seg[3 * i + j] == SegAngle(n, i, j)
  }

  /** Fills a fresh buffer of 3 * nsamp angles, copies it to the front of
      the geometry's angle buffer and draws nsamp instances. The rest of the
      angle buffer keeps its old contents. */
  method SetSegs(geometry: Geometry, nsamp: nat)
    requires nsamp != 1 && 3 * nsamp <= geometry.seg.Length
    modifies geometry, geometry.seg
    ensures geometry.instanceCount == nsamp
    ensures forall i, j :: 0 <= i < nsamp && 0 <= j < 3 ==>
      geometry.seg[3 * i + j] == SegAngle(nsamp, i, j)
    ensures forall k :: 3 * nsamp <= k < geometry.seg.Length ==>
      geometry.seg[k] == old(geometry.seg[k])
    ensures DrawsGrid(geometry, nsamp)
  {
    var verts := new real[nsamp * 3];
    var i := 0;
    while i < nsamp
      modifies verts
      invariant 0 <= i <= nsamp
      invariant forall i', j :: 0 <= i' < i && 0 <= j < 3 ==> verts[3 * i' + j] == SegAngle(nsamp, i', j)
    {
      var t0 := i as real / (nsamp - 1) as real;
      var t1 := (i + 1) as real / (nsamp - 1) as real;
      var t2 := (i + 2) as real / (nsamp - 1) as real;
      verts[3 * i] := 2.0 * Pi * t0;
      verts[3 * i + 1] := 2.0 * Pi * t1;
      verts[3 * i + 2] := 2.0 * Pi * t2;
      i := i + 1;
    }
    forall k | 0 <= k < verts.Length {
      geometry.seg[k] := verts[k];
    }
    geometry.instanceCount := nsamp;
  }

  /** The generator's state: the curve parameters a, b and bend, the sample
      count, and the two orbit oscillators and the breathing oscillator. */
  class Troch {
    var a: int
    var b: int
    var bend: real
    var nsamp: nat
    const oscA: Osc
    const oscB: Osc
    const oscR: Osc

    /** The three oscillators are separate objects. */
    predicate Distinct()
      reads this
    {
      oscA != oscB && oscA != oscR && oscB != oscR
    }

    /** The orbit frequencies are the ones derived from a, b and bend. */
    ghost predicate Valid()
      reads this, oscA, oscB
    {
      Distinct() && b != 0 &&
      oscA.f == FreqA(a, b) && oscB.f == FreqB(a, b, bend)
    }

    /** Every phase lies in [0, 2*pi). */
    predicate PhasesInRange()
      reads this, oscA, oscB, oscR
    {
      0.0 <= oscA.ph < TwoPi && 0.0 <= oscB.ph < TwoPi && 0.0 <= oscR.ph < TwoPi
    }

    constructor (a0: int := -3, b0: int := 1, bend0: real := 0.01, fr: real := 0.001)
      requires b0 != 0
      ensures Valid() && PhasesInRange()
      ensures a == a0 && b == b0 && bend == bend0 && nsamp == MaxSamp
      ensures oscR.f == fr
      ensures oscA.ph == 0.0 && oscB.ph == 0.0 && oscR.ph == 0.0
      ensures fresh(oscA) && fresh(oscB) && fresh(oscR)
    {
      a := a0;
      b := b0;
      bend := bend0;
      nsamp := MaxSamp;
      oscA := new Osc();
      oscB := new Osc();
      oscR := new Osc(fr);
      new;
      SetF();
    }

    /** Re-derives both orbit frequencies from a, b and bend; nothing else
        changes. */
    method SetF()
      requires Distinct() && b != 0
      modifies oscA, oscB
      ensures Valid()
      ensures oscA.ph == old(oscA.ph) && oscB.ph == old(oscB.ph)
    {
      var k := Reduce(a, b);
      oscA.f := k.d as real;
      oscB.f := k.d as real - (k.s * k.n) as real + bend / k.d as real;
    }

    method SetA(val: int)
      requires Valid()
      modifies this, oscA, oscB
      ensures Valid()
      ensures a == val && b == old(b) && bend == old(bend) && nsamp == old(nsamp)
      ensures oscA.ph == old(oscA.ph) && oscB.ph == old(oscB.ph) && unchanged(oscR)
    {
      a := val;
      SetF();
    }

    method SetB(val: int)
      requires Valid() && val != 0
      modifies this, oscA, oscB
      ensures Valid()
      ensures b == val && a == old(a) && bend == old(bend) && nsamp == old(nsamp)
      ensures oscA.ph == old(oscA.ph) && oscB.ph == old(oscB.ph) && unchanged(oscR)
    {
      b := val;
      SetF();
    }

    method SetBend(val: real)
      requires Valid()
      modifies this, oscA, oscB
      ensures Valid()
      ensures bend == val && a == old(a) && b == old(b) && nsamp == old(nsamp)
      ensures oscA.ph == old(oscA.ph) && oscB.ph == old(oscB.ph) && unchanged(oscR)
    {
      bend := val;
      SetF();
    }

    /** Orbit A's frequency, the reduced denominator of a/b. */
    function Fa(): (fa: real)
      requires Valid()
      reads this, oscA, oscB
      ensures fa == FreqA(a, b) && fa >= 1.0
    {
      oscA.f
    }

    /** Orbit B's frequency. */
    function Fb(): (fb: real)
      requires Valid()
      reads this, oscA, oscB
      ensures fb == FreqB(a, b, bend)
    {
      oscB.f
    }

    /** Writing the derived frequencies is ignored. */
    method SetFa(val: real)
      ensures unchanged(this, oscA, oscB, oscR)
    {
    }

    method SetFb(val: real)
      ensures unchanged(this, oscA, oscB, oscR)
    {
    }

    /** A new sample count rebuilds the angle grid; the same count does
        nothing. */
    method SetNsamp(val: nat, geometry: Geometry)
      requires nsamp != val ==> val != 1 && 3 * val <= geometry.seg.Length
      modifies this, geometry, geometry.seg
      ensures nsamp == val
      ensures a == old(a) && b == old(b) && bend == old(bend)
      ensures old(nsamp) == val ==> unchanged(geometry, geometry.seg)
      ensures old(nsamp) != val ==> geometry.instanceCount == val
      ensures old(nsamp) != val ==>
        forall i, j :: 0 <= i < val && 0 <= j < 3 ==> geometry.seg[3 * i + j] == SegAngle(val, i, j)
      ensures old(nsamp) != val ==>
        forall k :: 3 * val <= k < geometry.seg.Length ==> geometry.seg[k] == old(geometry.seg[k])
      ensures old(nsamp) != val ==> DrawsGrid(geometry, nsamp)
      ensures old(DrawsGrid(geometry, nsamp)) ==> DrawsGrid(geometry, nsamp)
    {
      if nsamp == val {
        return;
      }
      nsamp := val;
      SetSegs(geometry, val);
    }

    /** One frame: the breathing and the spinning oscillator advance once
        each; orbit A and every frequency are left alone. */
    method Update()
      requires Distinct()
      modifies oscR, oscB
      ensures oscR.f == old(oscR.f) && oscR.ph == Advance(old(oscR.f), old(oscR.ph))
      ensures oscB.f == old(oscB.f) && oscB.ph == Advance(old(oscB.f), old(oscB.ph))
      ensures unchanged(oscA)
      ensures old(Valid()) ==> Valid()
      ensures old(PhasesInRange()) ==> PhasesInRange()
    {
      oscR.Update();
      oscB.Update();
    }

    /** Orbit A's frequency is a whole number of turns, so advancing it
        would leave an in-range phase where it is: skipping it in Update
        changes nothing. */
    lemma OrbitAStill()
      requires Valid() && 0.0 <= oscA.ph < TwoPi
      ensures Advance(oscA.f, oscA.ph) == oscA.ph
    {
      AdvanceWholeFrequency(oscA.f, oscA.ph);
    }

    /** The curve point at parameter val: between the two orbit points
        coordinate by coordinate, inside the unit disk, on orbit A where the
        breathing cosine vanishes and on orbit B where it is +-1. */
    function V(trig: Trig, val: real): (p: (real, real))
      reads this, oscA, oscB, oscR
      ensures trig.Bounded() ==>
        Between(p.0, oscA.V(trig, val).0, oscB.V(trig, val).0) &&
        Between(p.1, oscA.V(trig, val).1, oscB.V(trig, val).1)
      ensures trig.Bounded() && trig.Pythagorean() ==> InUnitDisk(p)
      ensures oscR.X(trig, val) == 0.0 ==> p == oscA.V(trig, val)
      ensures oscR.X(trig, val) == 1.0 || oscR.X(trig, val) == -1.0 ==> p == oscB.V(trig, val)
    {
      CurvePoint(oscA.V(trig, val), oscB.V(trig, val), oscR.X(trig, val))
    }
  }
}
