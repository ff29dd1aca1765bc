# Trochoid generator

A model of the trochoid curve generator behind the two animated demos
`assets/troch-vs.js` and `assets/troch-webgl.js`.

- The curve is drawn from two "orbit" oscillators, A and B. Each oscillator
  turns a point around the unit circle.
- A third, "breathing" oscillator R blends the two orbit points. The weight
  toward orbit A is `r = 1 - cos^2`.
- The orbit frequencies come from the ratio `a/b` in lowest terms, `s*n/d`:
  - orbit A turns `d` times per unit parameter;
  - orbit B turns `d - s*n + bend/d` times.
- Every animation frame advances the phases.
  - Each oscillator advances by the fractional part of its frequency, in turns.
  - The phase is then reduced with JavaScript's `%` by `2*pi`.

The two files share the oscillator class `Osc` and differ around it:

- **Vertex-shader variant.** It draws the curve as `nsamp` instanced segments, and `set_segs` fills their angle buffer. Its `Troch.update` advances only orbit B and the breathing oscillator.
- **Line-geometry variant.** Each frame it samples the curve at 1001 evenly spaced parameters into a vertex buffer, then advances all three oscillators.

## How the model is laid out

| module | file | what it holds |
|---|---|---|
| `JsMath` | jsmath.dfy | `Math.PI`, JavaScript's truncating `%` on reals, whole-turn congruence of angles, `x ** 2`, and `Math.cos`/`Math.sin` as a parameter |
| `Fraction` | fraction.dfy | the reduction of `a/b` to lowest terms that `math.fraction` performs: sign `s`, numerator `n` and denominator `d` |
| `Oscillator` | oscillator.dfy | the class `Osc`, its phase step `Advance` and the properties of repeated steps |
| `Trochoid` | trochoid.dfy | the frequency derivation and the curve point shared by both `Troch` classes |
| `TrochVs` | troch_vs.dfy | `camera_aspect`, `set_segs` with its geometry, and the vertex-shader `Troch` |
| `TrochWebgl` | troch_webgl.dfy | the line-geometry `Troch` and the per-frame sampling loop of `animate` |

### Modelling choices

- **Numbers** are exact reals.
- **`Math.PI`** is the decimal JavaScript prints for it, 3.141592653589793.
- **`Math.cos` and `Math.sin`** are the two fields of a `Trig` value, passed to every function that evaluates them. Nothing is assumed about them: a property that needs their range or `cos^2 + sin^2 = 1` takes it as a hypothesis (`Trig.Bounded()`, `Trig.Pythagorean()`).
- **`x % m`** with `m > 0` is `JsMath.Rem`: the remainder of the division truncated toward zero, which keeps the sign of `x`. This is not Dafny's Euclidean `%`.
- **`math.fraction(a, b)`** belongs to a library that is not part of this model. `Fraction.Reduce` stands in for it and follows that library's convention:
  - the result is `s*n/d` with `s` in {-1, 1}, `n >= 0` and `d >= 1`;
  - `gcd(n, d) = 1`;
  - zero is `0/1` with sign 1.
- **Division by zero.** `math.fraction` throws when `b = 0`, and `set_segs` divides by zero when `nsamp = 1`. The model makes both cases preconditions: `b != 0` for `setf` and the `b` setter, and `nsamp != 1` for `set_segs`.
- **Buffers.**
  - The angle buffer of the instanced geometry is an `array<real>` of `3 * maxsamp` entries, and `set_segs` copies its fresh buffer into the front of it.
  - The line-geometry vertex buffer is an `array<real>` of `3 * 1001` entries, filled in place.

## Model

| member | source | states |
|---|---|---|
| JsMath.Rem | assets/troch-vs.js:243 | JavaScript's `x % m` for `m > 0`: `[0, m)` for `x >= 0`, `(-m, 0]` for `x < 0`, and `x - r` a whole multiple of `m` |
| JsMath.Trunc | assets/troch-vs.js:248 | the truncating quotient behind `%`: `n <= x < n + 1` for `x >= 0`, `n - 1 < x <= n` for `x < 0` |
| Oscillator.FracPart | assets/troch-vs.js:243-246 | the fractional part of `f` lies in `[0, 1)` and differs from `f` by a whole number |
| Oscillator.FracPartUnique | assets/troch-vs.js:243-246 | the fractional part is the only value in `[0, 1)` that differs from `f` by a whole number |
| Oscillator.ShiftedRemainder | assets/troch-vs.js:243-246 | `f % 1.0`, plus one when it is negative, equals the fractional part of `f`, whatever the sign of `f` |
| Oscillator.Advance | assets/troch-vs.js:247-248 | the new phase is in `[0, 2*pi)` when the old one is non-negative, always in `(-2*pi, 2*pi)`, and the same angle as `ph + 2*pi*f` |
| Oscillator.AdvanceIgnoresWholeTurns | assets/troch-vs.js:241-248 | frequencies `f` and `f + k`, for a whole `k`, give the same new phase |
| Oscillator.AdvanceWholeFrequency | assets/troch-vs.js:241-248 | a whole-number frequency leaves a phase in `[0, 2*pi)` where it is |
| Oscillator.TurnsProduct | assets/troch-vs.js:247 | `n` steps of `f` turns add up to `n * f` turns |
| Oscillator.AdvanceN | assets/troch-vs.js:240-249 | the phase after `n` updates; after at least one update it lies within one turn of 0, in `(-2*pi, 2*pi)` |
| Oscillator.AdvanceNInRange | assets/troch-vs.js:240-249 | after any number of updates, a phase that starts in `[0, 2*pi)` is still in `[0, 2*pi)` |
| Oscillator.AdvanceNNoDrift | assets/troch-vs.js:240-249 | after `n` updates the phase points where `ph + 2*pi*f*n` points: using the fractional part and reducing loses no angle |
| Oscillator.AdvanceNMatchesFullTurns | assets/troch-vs.js:240-249 | after `n` updates the phase is the same angle as `ph + 2*pi*turns` for `turns = n*f`, the phase without fractional parts or reduction |
| Oscillator.Osc.constructor | assets/troch-vs.js:236-239 | frequency and phase take the given values (defaults 1 and 0) |
| Oscillator.Osc.Update | assets/troch-vs.js:240-249 | `f` unchanged and the new phase is `Advance(f, ph)`; identical at assets/troch-webgl.js:127-136 |
| Oscillator.Osc.X | assets/troch-vs.js:250-252 | the cosine of `2*pi*f*val + ph`, in `[-1, 1]` under bounded trigonometry |
| Oscillator.Osc.Y | assets/troch-vs.js:253-255 | the sine of the same angle, in `[-1, 1]` under bounded trigonometry |
| Oscillator.Osc.V | assets/troch-vs.js:256-259 | the pair `(X, Y)` computed from one angle, on the unit circle when `cos^2 + sin^2 = 1` |
| Fraction.Reduce | assets/troch-vs.js:276 | `a/b` in lowest terms: `gcd(n, d) = 1`, `d >= 1`, `s*n*b == a*d`, `s = -1` exactly when `a` and `b` have opposite signs, and zero has sign 1 |
| Fraction.ReducedUnique | assets/troch-vs.js:276 | two reduced fractions with the same value are equal |
| Fraction.ReduceCanonical | assets/troch-vs.js:276 | `a/b == a'/b'` implies `Reduce(a, b) == Reduce(a', b')` |
| Fraction.GcdDivides | assets/troch-vs.js:276 | Euclid's gcd is positive and divides both arguments |
| Fraction.GcdScale | assets/troch-vs.js:276 | `gcd(c*x, c*y) == c * gcd(x, y)` |
| Fraction.CoprimeQuotients | assets/troch-vs.js:276 | dividing both arguments by their gcd leaves coprime quotients |
| Trochoid.FreqA | assets/troch-vs.js:277 | orbit A's frequency is a whole number of at least 1 |
| Trochoid.FreqB | assets/troch-vs.js:279 | orbit B's frequency `d - s*n + bend/d` is a whole number plus `bend/fa`: only the bend term makes it fractional |
| Trochoid.DerivedFrequencies | assets/troch-vs.js:274-280 | the frequencies encode the ratio: `N = fa - fb + bend/fa` is a whole number coprime to `fa`, and `N/fa == a/b` |
| Trochoid.FrequenciesDependOnRatio | assets/troch-vs.js:274-280 | equal ratios `a/b == a'/b'` give equal frequencies for both orbits, e.g. (4, 2) and (2, 1) |
| Trochoid.ExampleFrequencies | assets/troch-vs.js:263 | the defaults `a = -3, b = 1, bend = 0.01` give `fa = 1` and `fb = 4.01` |
| Trochoid.Weight | assets/troch-vs.js:284 | `r = 1 - c^2` is in `[0, 1]` for `c` in `[-1, 1]`; `r = 1` iff `c = 0`, and `r = 0` iff `c = +-1` |
| Trochoid.Blend | assets/troch-vs.js:285 | `r*u + (1-r)*v` lies between `u` and `v` for `r` in `[0, 1]`; `u` at `r = 1`, `v` at `r = 0` |
| Trochoid.Mix | assets/troch-vs.js:285 | the two-coordinate blend lies between the orbit points coordinate by coordinate; `pa` at `r = 1`, `pb` at `r = 0` |
| Trochoid.CurvePoint | assets/troch-vs.js:281-286 | the blended point lies between the two orbit points, in the unit disk when both are on the unit circle, equals orbit A's point where the breathing cosine is 0, and orbit B's where it is `+-1` |
| Trochoid.MixInDisk | assets/troch-webgl.js:167-172 | a convex combination of two points on the unit circle lies in the closed unit disk |
| Trochoid.DiskCoordinates | assets/troch-webgl.js:167-172 | each coordinate of a point in the unit disk is in `[-1, 1]` |
| TrochVs.CameraAspect | assets/troch-vs.js:105-114 | both half-extents at least 1.1, the shorter side exactly 1.1, and `halfwidth/halfheight == width/height` |
| TrochVs.DiskInView | assets/troch-vs.js:105-114 | every point of the unit disk, and so every curve point, lies strictly inside the camera's extents |
| TrochVs.SegAngle | assets/troch-vs.js:142-147 | the angle `2*pi*(i + j)/(nsamp - 1)` of vertex `j` of instance `i`: non-negative, and at most `2*pi` while `i + j <= nsamp - 1` |
| TrochVs.SegEndpoints | assets/troch-vs.js:142-145 | the angle grid starts at 0 and instance `nsamp - 1` starts at `2*pi` |
| TrochVs.SegShared | assets/troch-vs.js:142-147 | vertex `j + 1` of instance `i` has the angle of vertex `j` of instance `i + 1`, so segments join |
| TrochVs.SegStep | assets/troch-vs.js:142-147 | consecutive angles differ by `2*pi/(nsamp - 1)` |
| TrochVs.SetSegs | assets/troch-vs.js:139-152 | `seg[3i + j] == 2*pi*(i + j)/(nsamp - 1)` for `i < nsamp`, `j < 3`; the rest of `seg` unchanged; `instanceCount == nsamp`, so the geometry draws the grid for `nsamp` (`DrawsGrid`) |
| TrochVs.Geometry.constructor | assets/troch-vs.js:176-178 | an angle buffer for `maxsamp` instances; its instance count 0 is a placeholder until `SetSegs` first fills the grid |
| TrochVs.Troch.constructor | assets/troch-vs.js:263-273 | stores `a`, `b`, `bend`; `nsamp = maxsamp`; fresh oscillators with phases 0 and `osc_r.f = fr`; frequencies derived |
| TrochVs.Troch.SetF | assets/troch-vs.js:274-280 | the orbit frequencies are `FreqA(a, b)` and `FreqB(a, b, bend)`; phases unchanged |
| TrochVs.Troch.SetA | assets/troch-vs.js:297-301 | stores `a` and re-derives both frequencies; `b`, `bend`, `nsamp`, phases and `osc_r` unchanged |
| TrochVs.Troch.SetB | assets/troch-vs.js:302-306 | stores `b` and re-derives both frequencies; everything else unchanged |
| TrochVs.Troch.SetBend | assets/troch-vs.js:307-311 | stores `bend` and re-derives both frequencies; everything else unchanged |
| TrochVs.Troch.Fa | assets/troch-vs.js:312 | reads orbit A's frequency, `FreqA(a, b) >= 1` |
| TrochVs.Troch.Fb | assets/troch-vs.js:314 | reads orbit B's frequency, `FreqB(a, b, bend)` |
| TrochVs.Troch.SetFa | assets/troch-vs.js:313 | changes nothing |
| TrochVs.Troch.SetFb | assets/troch-vs.js:315 | changes nothing |
| TrochVs.Troch.SetNsamp | assets/troch-vs.js:323-328 | the same count changes nothing; a new count is stored, `set_segs` rebuilds the angle grid for it and the rest of `seg` keeps its values; either way a geometry that drew the grid for the old count draws the grid for the stored count |
| TrochVs.Troch.Update | assets/troch-vs.js:287-296 | `osc_r` and `osc_b` advance once each; `osc_a` and every frequency unchanged; derived frequencies and in-range phases kept |
| TrochVs.Troch.OrbitAStill | assets/troch-vs.js:287-296 | advancing orbit A would not move an in-range phase, since its frequency is whole, so skipping it matches the all-three update |
| TrochVs.Troch.V | assets/troch-vs.js:281-286 | the curve point lies between the orbit points, in the unit disk, on orbit A where the breathing cosine is 0 and on orbit B where it is `+-1` |
| TrochWebgl.SampleParam | assets/troch-webgl.js:226 | sample `i` has parameter `i/(nsamp - 1)` in `[0, 1]`: 0 for the first sample and 1 for the last |
| TrochWebgl.Troch.constructor | assets/troch-webgl.js:150-159 | stores `a`, `b`, `bend`; fresh oscillators with phases 0 and `osc_r.f = fr`; frequencies derived |
| TrochWebgl.Troch.SetF | assets/troch-webgl.js:160-166 | the orbit frequencies are `FreqA(a, b)` and `FreqB(a, b, bend)`; phases unchanged |
| TrochWebgl.Troch.SetA | assets/troch-webgl.js:179-182 | stores `a` and re-derives both frequencies; everything else unchanged |
| TrochWebgl.Troch.SetB | assets/troch-webgl.js:184-187 | stores `b` and re-derives both frequencies; everything else unchanged |
| TrochWebgl.Troch.SetBend | assets/troch-webgl.js:189-192 | stores `bend` and re-derives both frequencies; everything else unchanged |
| TrochWebgl.Troch.Fa | assets/troch-webgl.js:193 | reads orbit A's frequency, `FreqA(a, b) >= 1` |
| TrochWebgl.Troch.Fb | assets/troch-webgl.js:194 | reads orbit B's frequency, `FreqB(a, b, bend)` |
| TrochWebgl.Troch.Update | assets/troch-webgl.js:173-177 | all three oscillators advance once; no frequency changes; derived frequencies and in-range phases kept |
| TrochWebgl.Troch.V | assets/troch-webgl.js:167-172 | the curve point lies between the orbit points, in the unit disk, on orbit A where the breathing cosine is 0 and on orbit B where it is `+-1` |
| TrochWebgl.WriteVertex | assets/troch-webgl.js:228-230 | stores `(x, y, 0)` as vertex `i`; every other entry of the buffer unchanged |
| TrochWebgl.SampleCurve | assets/troch-webgl.js:225-231 | vertex `i` is `(x, y, 0)` for `(x, y)` the curve point at `i/(nsamp - 1)` of the state before the loop, for every `i < nsamp` |
| TrochWebgl.Animate | assets/troch-webgl.js:223-232 | the buffer holds the curve of the state before the frame; each of the three oscillators then holds its old frequency and the phase `Advance(f, ph)` of one update; derived frequencies and in-range phases are kept |

## Left out

- Rendering and I/O: the three.js scene, camera object, renderer, composer passes, `Stats`, the GUI, the DOM code and `requestAnimationFrame`. They belong to a foreign library. This covers `init_render`, `init_geometry`, `init_gui`, `resizeToDisplaySize`, `toggleFillWindow`, `params.devicePixels` and the webgl `animate`'s `setPositions`/`render` calls.
- The GLSL shader strings (assets/troch-vs.js:34-103) are GPU code, including `curvepoint` and the bevel encoding. They run in a foreign pipeline.
- The camera extents are written out inline in troch-webgl.js (lines 35-44 and 92-100). They are the same computation as `camera_aspect` and are modelled once, as `TrochVs.CameraAspect`.
- TrochVs.Troch.Update: the `material.uniforms` writes are left out because they only hand state to the shader.
- The `wireframe` getter and setter only toggle render objects.
- `geometry.attributes.seg.needsUpdate` is a render flag.
- IEEE-754 rounding, including Float32 storage in the buffers, is out of scope. All numbers are exact reals, so the model says nothing about the precision reason for using the fractional part. It only shows that this choice loses no angle.
- The values of `Math.cos` and `Math.sin` are not modelled; only `Trig.Bounded()` and `Trig.Pythagorean()` are taken as hypotheses.
- The internals of `math.fraction` are not part of this model; `Fraction.Reduce` states its result.
- TrochVs.Troch.SetB, TrochWebgl.Troch.SetB: require a nonzero `b`, because `math.fraction` throws on a zero denominator.
- TrochVs.SetSegs: requires `nsamp != 1`, because the source divides by zero there.
- TrochVs.SetSegs, TrochVs.Troch.SetNsamp: require `3 * nsamp` to fit the angle buffer, i.e. `nsamp <= maxsamp`. Beyond that, `seg.set(verts)` throws after the setter has already stored the count. The model does not cover that failure; every call in the program stays within `maxsamp`.
- The getters of `a`, `b`, `bend` and `nsamp` are plain field reads.
- Calling `setf` twice is idempotent. This follows from the `SetF` contract: the frequencies are a function of `a`, `b` and `bend`, which `SetF` does not change, and the phases stay as they are.
- The GUI's slider ranges (`a` in [-13, 13], `b` in [1, 11], `nsamp` from 30 to 10000) are not modelled. The model allows every value the methods accept.
- The GUI can write a phase directly, e.g. the `ph` sliders. This is a plain field write. `Advance` covers the negative phases this could produce, and in-range phases are kept only when they start in range.
