/** The helical backbone: evenly spaced phases along a helix of given radius
    and axial step, chosen so that consecutive backbone particles are a
    fixed arc length apart. The transcendental functions and the constant
    pi are not computed here; they are supplied as a `Numerics` record. */
module Helix {
  import opened Vectors

  /** The floating-point primitives the construction relies on. */
  datatype Numerics = Numerics(pi: real, sin: real -> real, cos: real -> real, sqrt: real -> real)

  /** Arc length of one full revolution of the helix. */
  function TurnLength(radius: real, step: real, num: Numerics): real
  {
    var c := 2.0 * num.pi * radius;
    num.sqrt(c * c + step * step)
  }

  /** Total phase swept by a backbone of `bbLen` particles at `density`
      particles per unit of arc length. */
  function Winding(bbLen: nat, density: real, turnLen: real, pi: real): real
    requires density != 0.0 && turnLen != 0.0
  {
    2.0 * pi * ((bbLen - 1) as real) / density / turnLen
  }

  /** `n` values evenly spaced from 0 to `stop` inclusive, as numpy's
      `linspace(0, stop, n)`: value `k` is `k` times the spacing
      `stop / (n - 1)`; a single value is the start, 0. */
  function Linspace(stop: real, n: nat): (r: seq<real>)
    ensures |r| == n
    ensures n > 0 ==> r[0] == 0.0
    ensures n > 1 ==> r[n - 1] == stop
    ensures n > 1 ==> forall k :: 0 <= k < n - 1 ==> r[k + 1] - r[k] == stop / ((n - 1) as real)
  {
    if n == 1 then [0.0]
    else
      var q := if n == 0 then 0.0 else stop / ((n - 1) as real);
      var r := seq(n, k => (k as real) * q);
      assert n > 1 ==> r[n - 1] == stop by {
        if n > 1 {
          CancelDivision((n - 1) as real, stop);
        }
      }
      r
  }

  lemma CancelDivision(d: real, s: real)
    requires d != 0.0
    ensures d * (s / d) == s
  {
  }

  /** Dividing the winding of a backbone by its `d` gaps, then converting
      phase to arc length, leaves the inverse density. */
  lemma GapArcLength(a: real, d: real, density: real, turnLen: real)
    requires d != 0.0 && density != 0.0 && turnLen != 0.0 && a != 0.0
    ensures (a * d / density / turnLen) / d / a * turnLen == 1.0 / density
  {
    var x := a * d / density / turnLen;
    assert x * turnLen * density == a * d;
    var q := x / d;
    assert q * d == x;
    assert q * turnLen * density * d == a * d;
    assert q * turnLen * density == a;
  }

  /** The point of the helix at phase `phi`: radius `radius` around the
      z axis, rising `step` per full turn. */
  function HelixPoint(phi: real, radius: real, step: real, num: Numerics): Vec3
    requires num.pi != 0.0
  {
    Vec3(radius * num.sin(phi), radius * num.cos(phi), phi / 2.0 / num.pi * step)
  }

  /** Well-formed helix parameters: the divisions of the construction are
      defined. */
  predicate HelixDefined(radius: real, step: real, density: real, num: Numerics)
  {
    num.pi > 0.0 && density != 0.0 && TurnLength(radius, step, num) != 0.0
  }

  /** The phases of a backbone of `bbLen` particles. */
  function BackbonePhases(bbLen: nat, radius: real, step: real, density: real, num: Numerics): seq<real>
    requires HelixDefined(radius, step, density, num)
  {
    Linspace(Winding(bbLen, density, TurnLength(radius, step, num), num.pi), bbLen)
  }

  /** The helix points of a backbone of `bbLen` particles, in backbone order. */
  function BackbonePoints(bbLen: nat, radius: real, step: real, density: real, num: Numerics): (pts: seq<Vec3>)
    requires HelixDefined(radius, step, density, num)
    ensures |pts| == bbLen
  {
    var ph := BackbonePhases(bbLen, radius, step, density, num);
    seq(bbLen, k requires 0 <= k < bbLen => HelixPoint(ph[k], radius, step, num))
  }

  /** The phases start at 0, end at the total winding, and consecutive
      phases are separated by the phase that covers an arc length of
      exactly 1 / density (the helix covers `TurnLength` of arc per 2 pi
      of phase). */
  lemma PhaseSpacing(bbLen: nat, radius: real, step: real, density: real, num: Numerics)
    requires HelixDefined(radius, step, density, num) && bbLen > 1
    ensures var ph := BackbonePhases(bbLen, radius, step, density, num);
      var turnLen := TurnLength(radius, step, num);
      && ph[0] == 0.0
      && ph[bbLen - 1] == Winding(bbLen, density, turnLen, num.pi)
      && forall k :: 0 <= k < bbLen - 1 ==>
           (ph[k + 1] - ph[k]) / (2.0 * num.pi) * turnLen == 1.0 / density
  {
    var ph := BackbonePhases(bbLen, radius, step, density, num);
    var turnLen := TurnLength(radius, step, num);
    var d := (bbLen - 1) as real;
    var pi := num.pi;
    var w := Winding(bbLen, density, turnLen, pi);
    WindingPerGap(bbLen, density, turnLen, pi);
    GapsToArc(ph, w / d, 2.0 * pi, turnLen, density);
  }

  lemma GapsToArc(ph: seq<real>, g: real, a: real, turnLen: real, density: real)
    requires a != 0.0 && density != 0.0
    requires forall k :: 0 <= k < |ph| - 1 ==> ph[k + 1] - ph[k] == g
    requires g / a * turnLen == 1.0 / density
    ensures forall k :: 0 <= k < |ph| - 1 ==> (ph[k + 1] - ph[k]) / a * turnLen == 1.0 / density
  {
    forall k | 0 <= k < |ph| - 1
      ensures (ph[k + 1] - ph[k]) / a * turnLen == 1.0 / density
    {
      var x := ph[k + 1] - ph[k];
      assert x == g;
    }
  }

  /** One gap's share of the winding covers an arc length of 1 / density. */
  lemma WindingPerGap(bbLen: nat, density: real, turnLen: real, pi: real)
    requires density != 0.0 && turnLen != 0.0 && pi > 0.0 && bbLen > 1
    ensures Winding(bbLen, density, turnLen, pi) / ((bbLen - 1) as real) / (2.0 * pi) * turnLen
      == 1.0 / density
  {
    GapArcLength(2.0 * pi, (bbLen - 1) as real, density, turnLen);
  }

  /** Two phases an arc length `1 / density` apart differ in height by
      `step / density / turnLen`. */
  lemma RiseOfPhaseGap(p1: real, p0: real, pi: real, step: real, density: real, turnLen: real)
    requires pi != 0.0 && density != 0.0 && turnLen != 0.0
    requires (p1 - p0) / (2.0 * pi) * turnLen == 1.0 / density
    ensures p1 / 2.0 / pi * step - p0 / 2.0 / pi * step == step / density / turnLen
  {
    var g := (p1 - p0) / (2.0 * pi);
    assert g * turnLen * density == 1.0;
    assert p1 / 2.0 / pi * step - p0 / 2.0 / pi * step == g * step;
    assert g == 1.0 / (density * turnLen);
  }

  lemma RiseOfGaps(pts: seq<Vec3>, ph: seq<real>, pi: real, step: real, density: real, turnLen: real)
    requires pi != 0.0 && density != 0.0 && turnLen != 0.0 && |pts| == |ph|
    requires forall k :: 0 <= k < |pts| ==> pts[k].z == ph[k] / 2.0 / pi * step
    requires forall k :: 0 <= k < |ph| - 1 ==> (ph[k + 1] - ph[k]) / (2.0 * pi) * turnLen == 1.0 / density
    ensures forall k :: 0 <= k < |pts| - 1 ==> pts[k + 1].z - pts[k].z == step / density / turnLen
  {
    forall k | 0 <= k < |pts| - 1
      ensures pts[k + 1].z - pts[k].z == step / density / turnLen
    {
      RiseOfPhaseGap(ph[k + 1], ph[k], pi, step, density, turnLen);
    }
  }

  /** A helix point lies on the cylinder of radius `radius` about the z axis
      (given sin^2 + cos^2 = 1 at its phase) and at height `step` per full
      turn of phase. */
  lemma HelixPointOnCylinder(phi: real, radius: real, step: real, num: Numerics)
    requires num.pi != 0.0
    requires num.sin(phi) * num.sin(phi) + num.cos(phi) * num.cos(phi) == 1.0
    ensures var p := HelixPoint(phi, radius, step, num);
      && p.x * p.x + p.y * p.y == radius * radius
      && p.z * (2.0 * num.pi) == phi * step
  {
    var s, c := num.sin(phi), num.cos(phi);
    calc {
      (radius * s) * (radius * s) + (radius * c) * (radius * c);
      radius * radius * (s * s + c * c);
      radius * radius;
    }
  }

  lemma BackboneHeights(bbLen: nat, radius: real, step: real, density: real, num: Numerics)
    requires HelixDefined(radius, step, density, num)
    ensures var pts := BackbonePoints(bbLen, radius, step, density, num);
      var ph := BackbonePhases(bbLen, radius, step, density, num);
      forall k :: 0 <= k < bbLen ==> pts[k].z == ph[k] / 2.0 / num.pi * step
  {
  }

  /** Consecutive backbone particles rise along the axis by the same amount:
      `step / density / TurnLength`. */
  lemma BackboneRise(bbLen: nat, radius: real, step: real, density: real, num: Numerics)
    requires HelixDefined(radius, step, density, num)
    ensures var pts := BackbonePoints(bbLen, radius, step, density, num);
      forall k :: 0 <= k < bbLen - 1 ==>
        pts[k + 1].z - pts[k].z == step / density / TurnLength(radius, step, num)
  {
    if bbLen > 1 {
      PhaseSpacing(bbLen, radius, step, density, num);
      BackboneHeights(bbLen, radius, step, density, num);
      RiseOfGaps(BackbonePoints(bbLen, radius, step, density, num), BackbonePhases(bbLen, radius, step, density, num),
        num.pi, step, density, TurnLength(radius, step, num));
    }
  }
}
