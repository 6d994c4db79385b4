/** The `parametric_surface` functions the four generators sample. The
    generator from 3D takes a surface directly; the other three build one
    from a 2D profile curve, revolved about the vertical (y) axis by
    glm::rotateY through the angle r * 2 * pi. Sine and cosine are not
    modelled: they are parameters, measured in turns. */
module Surfaces {
  import opened Vectors

  /** A parametric profile curve t -> (x, y). */
  type Curve = real -> Vec2

  /** A parametric surface (t, r) -> point. */
  type Surface = (real, real) -> Vec3

  /** `cos(u)` and `sin(u)` stand for cos(2 * pi * u) and sin(2 * pi * u), so
      an angle `r * two_pi<double>() * k` is written `k * r` turns. */
  datatype Trig = Trig(cos: real -> real, sin: real -> real)

  ghost predicate OnUnitCircle(trig: Trig, u: real)
  {
    trig.cos(u) * trig.cos(u) + trig.sin(u) * trig.sin(u) == 1.0
  }

  ghost predicate ShiftInvariant(trig: Trig, u: real)
  {
    trig.cos(u + 1.0) == trig.cos(u) && trig.sin(u + 1.0) == trig.sin(u)
  }

  /** Sine and cosine repeat after one full turn. */
  ghost predicate Periodic(trig: Trig)
  {
    forall u :: ShiftInvariant(trig, u)
  }

  /** glm::rotateY(p, 2 * pi * turns): x' = x cos + z sin, z' = -x sin + z cos.
      It keeps the height and, for a genuine angle, the distance from the
      y axis. */
  function RotateY(p: Vec3, trig: Trig, turns: real): (q: Vec3)
    ensures q.y == p.y
    ensures OnUnitCircle(trig, turns) ==> q.x * q.x + q.z * q.z == p.x * p.x + p.z * p.z
  {
    var c, s := trig.cos(turns), trig.sin(turns);
    Vec3(p.x * c + p.z * s, p.y, -p.x * s + p.z * c)
  }

  /** `glm::dvec3(parametric_line(t), 0)`: a profile point in the z = 0 plane. */
  function Lift(p: Vec2): Vec3
  {
    Vec3(p.x, p.y, 0.0)
  }

  /** The surface of GenerateParametricShapeFrom2D: the profile revolved
      about the y axis, r turns. */
  function Revolve(line: Curve, trig: Trig): Surface
  {
    (t: real, r: real) => RotateY(Lift(line(t)), trig, r)
  }

  /** The surfaces of GenerateParametricShape (a = b = 6) and
      GenerateParametricShape_2 (a = 4, b = 30): the profile point is scaled
      by half of `sin(a r turns) / 2 + 1`, its height further by
      `sin(b r turns) / 2 + 1`, and the result revolved r turns. */
  function Wavy(line: Curve, trig: Trig, a: nat, b: nat): Surface
  {
    (t: real, r: real) => WavyPoint(line, trig, a, b, t, r)
  }

  function WavyPoint(line: Curve, trig: Trig, a: nat, b: nat, t: real, r: real): Vec3
  {
    RotateY(Waved(Lift(line(t)), trig.sin(r * a as real), trig.sin(r * b as real)), trig, r)
  }

  /** The profile point p after both waves, given the sines of the radial
      wave (sa) and of the height wave (sb), before it is revolved. */
  function Waved(p: Vec3, sa: real, sb: real): Vec3
  {
    var scaled := Scale(p, (sa / 2.0 + 1.0) * 0.5);
    scaled.(y := scaled.y * (sb / 2.0 + 1.0))
  }

  /** The revolved surface keeps the profile's height and lies at the
      profile's x distance from the axis. */
  lemma RevolveFollowsProfile(line: Curve, trig: Trig, t: real, r: real)
    requires OnUnitCircle(trig, r)
    ensures var p := Revolve(line, trig)(t, r);
      p.y == line(t).y && p.x * p.x + p.z * p.z == line(t).x * line(t).x
  {
  }

  /** The radial wave keeps every point of the wavy surfaces between a
      quarter and three quarters of the profile's distance from the axis. */
  lemma WavyRadiusBounds(line: Curve, trig: Trig, a: nat, b: nat, t: real, r: real)
    requires OnUnitCircle(trig, r)
    requires -1.0 <= trig.sin(r * a as real) <= 1.0
    ensures var p, x := Wavy(line, trig, a, b)(t, r), line(t).x;
      x * x / 16.0 <= p.x * p.x + p.z * p.z <= 9.0 * x * x / 16.0
  {
    var x := line(t).x;
    var k := (trig.sin(r * a as real) / 2.0 + 1.0) * 0.5;
    var w := Waved(Lift(line(t)), trig.sin(r * a as real), trig.sin(r * b as real));
    assert w.x == x * k && w.z == 0.0;
    var p := Wavy(line, trig, a, b)(t, r);
    assert p == RotateY(w, trig, r);
    assert p.x * p.x + p.z * p.z == w.x * w.x + w.z * w.z;
    assert w.x * w.x + w.z * w.z == (x * k) * (x * k);
    ScaledSquareBounds(x, k, p.x * p.x + p.z * p.z);
  }

  /** Scaling by a factor in [1/4, 3/4] scales the square by [1/16, 9/16]. */
  lemma ScaledSquareBounds(x: real, k: real, square: real)
    requires 0.25 <= k <= 0.75
    requires square == (x * k) * (x * k)
    ensures x * x / 16.0 <= square <= 9.0 * x * x / 16.0
  {
    assert square == x * x * (k * k);
    assert 0.0625 <= k * k <= 0.5625 by {
      assert k * k >= 0.25 * k >= 0.0625;
      assert k * k <= 0.75 * k <= 0.5625;
    }
    assert x * x >= 0.0;
    assert x * x * (k * k) >= x * x * 0.0625;
    assert x * x * (k * k) <= x * x * 0.5625;
  }

  /** Shifting by a whole number of turns leaves sine and cosine unchanged. */
  lemma {:induction false} WholeTurns(trig: Trig, u: real, k: nat)
    requires Periodic(trig)
    ensures trig.sin(u + k as real) == trig.sin(u)
    ensures trig.cos(u + k as real) == trig.cos(u)
  {
    if k > 0 {
      WholeTurns(trig, u, k - 1);
      assert ShiftInvariant(trig, u + (k - 1) as real);
      assert u + (k - 1) as real + 1.0 == u + k as real;
    }
  }

  ghost predicate SameAfterTurn(S: Surface, t: real, u: real)
  {
    S(t, u + 1.0) == S(t, u)
  }

  /** A surface closes up around the axis when rotation parameter u + 1
      gives the same point as u. */
  ghost predicate ClosesUp(S: Surface)
  {
    forall t, u :: SameAfterTurn(S, t, u)
  }

  lemma RevolveClosesUp(line: Curve, trig: Trig)
    requires Periodic(trig)
    ensures ClosesUp(Revolve(line, trig))
  {
    forall t, u ensures SameAfterTurn(Revolve(line, trig), t, u) {
      assert ShiftInvariant(trig, u);
      assert Revolve(line, trig)(t, u + 1.0) == RotateY(Lift(line(t)), trig, u + 1.0);
      assert Revolve(line, trig)(t, u) == RotateY(Lift(line(t)), trig, u);
    }
  }

  /** Whole wave frequencies a and b keep the wavy surfaces closed. */
  lemma WavyClosesUp(line: Curve, trig: Trig, a: nat, b: nat)
    requires Periodic(trig)
    ensures ClosesUp(Wavy(line, trig, a, b))
  {
    var S := Wavy(line, trig, a, b);
    forall t, u ensures SameAfterTurn(S, t, u) {
      WavyPointAfterTurn(line, trig, a, b, t, u);
      assert S(t, u) == WavyPoint(line, trig, a, b, t, u);
      assert S(t, u + 1.0) == WavyPoint(line, trig, a, b, t, u + 1.0);
    }
  }

  lemma WavyPointAfterTurn(line: Curve, trig: Trig, a: nat, b: nat, t: real, u: real)
    requires Periodic(trig)
    ensures WavyPoint(line, trig, a, b, t, u + 1.0) == WavyPoint(line, trig, a, b, t, u)
  {
    WaveAfterTurn(trig, u, a);
    WaveAfterTurn(trig, u, b);
    RotateAfterTurn(Waved(Lift(line(t)), trig.sin(u * a as real), trig.sin(u * b as real)), trig, u);
  }

  lemma RotateAfterTurn(p: Vec3, trig: Trig, u: real)
    requires Periodic(trig)
    ensures RotateY(p, trig, u + 1.0) == RotateY(p, trig, u)
  {
    assert ShiftInvariant(trig, u);
  }

  /** A wave of whole frequency a is back in phase after one turn. */
  lemma WaveAfterTurn(trig: Trig, u: real, a: nat)
    requires Periodic(trig)
    ensures trig.sin((u + 1.0) * a as real) == trig.sin(u * a as real)
  {
    assert (u + 1.0) * a as real == u * a as real + a as real;
    WholeTurns(trig, u * a as real, a);
  }
}
