/**
 * The glyphs' positions on the unit sphere: the golden-angle spiral that places
 * them, the per-frame rotation and the projection onto the canvas
 * (js/scriptanimationlogo.js:116-186). `Math.cos`, `Math.sin` and `Math.sqrt`
 * are not computed: their results are parameters constrained by the identities
 * cos² + sin² = 1 and radius² = 1 - y².
 */
module Sphere {
  import opened Wrappers
  import opened Camera

  /** The glyph scale factor of `draw`, relative to a 1920-unit-wide canvas. */
  const SCALE: real := 1.1
  const REFERENCE_WIDTH: real := 1920.0

  datatype Point = Point(x: real, y: real, z: real)

  function Inner(p: Point, q: Point): real {
    p.x * q.x + p.y * q.y + p.z * q.z
  }

  /** The squared distance from the centre, x² + y² + z². */
  function NormSq(p: Point): real {
    Inner(p, p)
  }

  /** The cosine and sine of one angle, as `Math.cos` and `Math.sin` return them. */
  datatype Angle = Angle(cos: real, sin: real) {
    predicate Unit() {
      cos * cos + sin * sin == 1.0
    }
  }

  /** The angle 0, whose rotation is the identity. */
  const STILL: Angle := Angle(1.0, 0.0)

  /** The height of glyph i of n: linear from 1 at the first glyph to -1 at the last. */
  function InitialY(i: nat, n: nat): (y: real)
    requires 2 <= n && i < n
    ensures -1.0 <= y <= 1.0
    ensures i == 0 <==> y == 1.0
    ensures i == n - 1 <==> y == -1.0
  {
    UnitFraction(i, n - 1);
    1.0 - (i as real / (n - 1) as real) * 2.0
  }

  /** i/m for 0 <= i <= m lies in [0, 1], touching 0 only at i = 0 and 1 only at i = m. */
  lemma UnitFraction(i: nat, m: nat)
    requires 0 < m && i <= m
    ensures 0.0 <= i as real / m as real <= 1.0
    ensures i as real / m as real == 0.0 <==> i == 0
    ensures i as real / m as real == 1.0 <==> i == m
  {
    var f, r := i as real / m as real, m as real;
    assert f * r == i as real;
    NonnegativeFactor(f, r);
    NonnegativeFactor(1.0 - f, r);
  }

  /** A factor of a non-negative product with a positive factor is non-negative. */
  lemma NonnegativeFactor(x: real, r: real)
    requires r > 0.0 && x * r >= 0.0
    ensures x >= 0.0
  {
    assert x == (x * r) / r;
  }

  /** Heights strictly decrease along the spiral: no two glyphs share a latitude. */
  lemma InitialYDecreasing(i: nat, j: nat, n: nat)
    requires 2 <= n && i < j < n
    ensures InitialY(j, n) < InitialY(i, n)
  {
    var m := (n - 1) as real;
    var fi, fj := i as real / m, j as real / m;
    assert fj - fi == (j - i) as real / m;
    assert (j - i) as real / m > 0.0;
  }

  /** The spiral point: at height y, on the circle of the given radius, at angle theta. */
  function SpiralPoint(y: real, radius: real, theta: Angle): Point {
    Point(theta.cos * radius, y, theta.sin * radius)
  }

  /** With exact trigonometry and square root every spiral point is on the unit sphere. */
  lemma SpiralPointOnSphere(y: real, radius: real, theta: Angle)
    requires theta.Unit() && radius * radius == 1.0 - y * y
    ensures NormSq(SpiralPoint(y, radius, theta)) == 1.0
  {
    var c, s := theta.cos, theta.sin;
    calc {
      NormSq(SpiralPoint(y, radius, theta));
    ==
      (c * radius) * (c * radius) + y * y + (s * radius) * (s * radius);
    ==
      (c * c + s * s) * (radius * radius) + y * y;
    ==
      radius * radius + y * y;
    }
  }

  /** One planar rotation of the coordinate pair (a, b) by an angle. */
  function Turn(a: real, b: real, t: Angle): (real, real) {
    (a * t.cos - b * t.sin, a * t.sin + b * t.cos)
  }

  /** `rotate`: the outward-axis turn by VX on (x, y), then the vertical-axis turn
      by VY on (x1, z), then the horizontal-axis turn by VZ on (y1, z2); each step
      uses the coordinates the step before produced. */
  function Rotated(p: Point, vx: Angle, vy: Angle, vz: Angle): Point {
    var (x1, y1) := Turn(p.x, p.y, vx);
    var (x2, z2) := Turn(x1, p.z, vy);
    var (y3, z3) := Turn(y1, z2, vz);
    Point(x2, y3, z3)
  }

  /** A planar rotation keeps the inner product of two pairs. */
  lemma TurnKeepsInner(a: real, b: real, a': real, b': real, t: Angle)
    requires t.Unit()
    ensures var (u, v) := Turn(a, b, t); var (u', v') := Turn(a', b', t);
      u * u' + v * v' == a * a' + b * b'
  {
    var c, s := t.cos, t.sin;
    calc {
      (a * c - b * s) * (a' * c - b' * s) + (a * s + b * c) * (a' * s + b' * c);
    ==
      a * a' * (c * c + s * s) + b * b' * (c * c + s * s);
    ==
      a * a' + b * b';
    }
  }

  /** With exact sine and cosine, `rotate` is a true rotation: it keeps every
      inner product, hence lengths and angles between glyphs. */
  lemma RotatedKeepsInner(p: Point, q: Point, vx: Angle, vy: Angle, vz: Angle)
    requires vx.Unit() && vy.Unit() && vz.Unit()
    ensures Inner(Rotated(p, vx, vy, vz), Rotated(q, vx, vy, vz)) == Inner(p, q)
  {
    var (x1, y1) := Turn(p.x, p.y, vx);
    var (x1', y1') := Turn(q.x, q.y, vx);
    TurnKeepsInner(p.x, p.y, q.x, q.y, vx);
    var (x2, z2) := Turn(x1, p.z, vy);
    var (x2', z2') := Turn(x1', q.z, vy);
    TurnKeepsInner(x1, p.z, x1', q.z, vy);
    TurnKeepsInner(y1, z2, y1', z2', vz);
  }

  /** `rotate` keeps the glyph on the unit sphere. */
  lemma RotatedStaysOnSphere(p: Point, vx: Angle, vy: Angle, vz: Angle)
    requires vx.Unit() && vy.Unit() && vz.Unit() && NormSq(p) == 1.0
    ensures NormSq(Rotated(p, vx, vy, vz)) == 1.0
  {
    RotatedKeepsInner(p, p, vx, vy, vz);
  }

  /** The order of the steps matters: a quarter turn by VX and by VY, applied
      VY first, moves (1, 0, 0) elsewhere than `rotate` does. */
  lemma StepOrderMatters()
    ensures var quarter := Angle(0.0, 1.0);
      var (x', z') := Turn(1.0, 0.0, quarter);
      var (x'', y'') := Turn(x', 0.0, quarter);
      Rotated(Point(1.0, 0.0, 0.0), quarter, quarter, STILL) == Point(0.0, 1.0, 0.0) &&
      Point(x'', y'', z') == Point(0.0, 0.0, 1.0)
  {
  }

  /** A point of the unit sphere has its depth in [-1, 1]. */
  lemma UnitDepthBounded(p: Point)
    requires NormSq(p) == 1.0
    ensures -1.0 <= p.z <= 1.0
  {
    assert (1.0 - p.z) * (1.0 + p.z) == 1.0 - p.z * p.z >= 0.0;
  }

  /** What `draw` hands the canvas for one glyph: where it translates to, the
      scale it applies, the `globalAlpha` it sets and the `fillStyle` of each path. */
  datatype DrawCall = DrawCall(x: real, y: real, scale: real, alpha: real, fills: seq<Option<string>>)

  /** One glyph of the sphere (class `Dot`). */
  class Dot {
    const colors: seq<Option<string>>
    const pathCount: nat
    var x: real
    var y: real
    var z: real
    var xProjected: real
    var yProjected: real
    var scaleProjected: real

    function Pos(): Point
      reads this
    {
      Point(x, y, z)
    }

    /** The glyph is on the unit sphere. */
    ghost predicate Valid()
      reads this
    {
      NormSq(Pos()) == 1.0
    }

    /** The projected scale matches the current depth, as `project` leaves it. */
    ghost predicate Synced()
      reads this
    {
      z > -3.2 && scaleProjected == DepthScale(z)
    }

    /** The projected place is the glyph's current position scaled about the
        stage centre, shifted so the glyph's nominal radius is centred on it,
        as `project` leaves it. */
    ghost predicate Placed(stage: Stage)
      reads this, stage
    {
      xProjected == x * stage.globeRadius * scaleProjected + stage.centerX - DOT_RADIUS * scaleProjected &&
      yProjected == y * stage.globeRadius * scaleProjected + stage.centerY - DOT_RADIUS * scaleProjected
    }

    /** The fill of each path, in path order; a path beyond the colour row gets
        `undefined`. */
    function Fills(): seq<Option<string>>
      reads this
    {
      seq(pathCount, i requires 0 <= i < pathCount => if i < |colors| then colors[i] else None)
    }

    /** What drawing the glyph in its current state hands the canvas. */
    function CallFor(stage: Stage): DrawCall
      reads this, stage
      requires stage.width != 0.0
    {
      DrawCall(xProjected, yProjected, scaleProjected * SCALE * stage.width / REFERENCE_WIDTH,
        Alpha(z, stage.globeRadius, stage.width), Fills())
    }

    /** Glyph i of `samples`: at the spiral height, on the circle of radius
        `radius` at angle `theta` (i times the golden angle), not yet projected. */
    constructor (i: nat, samples: nat, colors: seq<Option<string>>, pathCount: nat, theta: Angle, radius: real)
      requires 2 <= samples && i < samples && theta.Unit()
      requires radius >= 0.0 && radius * radius == 1.0 - InitialY(i, samples) * InitialY(i, samples)
      ensures Valid()
      ensures Pos() == SpiralPoint(InitialY(i, samples), radius, theta)
      ensures xProjected == 0.0 && yProjected == 0.0 && scaleProjected == 0.0
      ensures this.colors == colors && this.pathCount == pathCount
    {
      this.colors := colors;
      this.pathCount := pathCount;
      y := InitialY(i, samples);
      x := theta.cos * radius;
      z := theta.sin * radius;
      xProjected, yProjected, scaleProjected := 0.0, 0.0, 0.0;
      new;
      SpiralPointOnSphere(y, radius, theta);
    }

    /** `rotate`: moves the glyph by this frame's rotation, keeping it on the sphere. */
    method Rotate(vx: Angle, vy: Angle, vz: Angle)
      requires Valid() && vx.Unit() && vy.Unit() && vz.Unit()
      modifies this
      ensures Valid()
      ensures Pos() == Rotated(old(Pos()), vx, vy, vz)
      ensures xProjected == old(xProjected) && yProjected == old(yProjected)
      ensures scaleProjected == old(scaleProjected)
    {
      var x1 := x * vx.cos - y * vx.sin;
      var y1 := x * vx.sin + y * vx.cos;
      var x2 := x1 * vy.cos - z * vy.sin;
      var z2 := x1 * vy.sin + z * vy.cos;
      var y3 := y1 * vz.cos - z2 * vz.sin;
      var z3 := y1 * vz.sin + z2 * vz.cos;
      ghost var p := Pos();
      assert Point(x2, y3, z3) == Rotated(p, vx, vy, vz);
      RotatedStaysOnSphere(p, vx, vy, vz);
      x := x2;
      y := y3;
      z := z3;
    }

    /** `project`: rotates, then takes the perspective divide at the new depth
        and places the glyph so that its nominal radius is centred on the point. */
    method Project(stage: Stage, vx: Angle, vy: Angle, vz: Angle)
      requires Valid() && stage.Valid() && vx.Unit() && vy.Unit() && vz.Unit()
      modifies this
      ensures Valid() && Synced()
      ensures Pos() == Rotated(old(Pos()), vx, vy, vz)
      ensures stage.perspective + z * stage.globeRadius > 0.0
      ensures scaleProjected == ScaleOf(stage.perspective, stage.globeRadius, z)
      ensures 16.0 / 21.0 <= scaleProjected <= 16.0 / 11.0
      ensures xProjected == x * stage.globeRadius * scaleProjected + stage.centerX - DOT_RADIUS * scaleProjected
      ensures yProjected == y * stage.globeRadius * scaleProjected + stage.centerY - DOT_RADIUS * scaleProjected
    {
      Rotate(vx, vy, vz);
      UnitDepthBounded(Pos());
      Place(stage);
    }

    /** The part of `project` after the rotation, for a glyph at depth z in [-1, 1]. */
    method Place(stage: Stage)
      requires stage.Valid() && -1.0 <= z <= 1.0
      modifies this`xProjected, this`yProjected, this`scaleProjected
      ensures Synced()
      ensures stage.perspective + z * stage.globeRadius > 0.0
      ensures scaleProjected == ScaleOf(stage.perspective, stage.globeRadius, z)
      ensures 16.0 / 21.0 <= scaleProjected <= 16.0 / 11.0
      ensures xProjected == x * stage.globeRadius * scaleProjected + stage.centerX - DOT_RADIUS * scaleProjected
      ensures yProjected == y * stage.globeRadius * scaleProjected + stage.centerY - DOT_RADIUS * scaleProjected
    {
      ScaleIndependentOfWidth(stage.perspective, stage.globeRadius, z);
      DepthScaleBounds(z);
      scaleProjected := stage.perspective / (stage.perspective + z * stage.globeRadius);
      xProjected := x * stage.globeRadius * scaleProjected + stage.centerX - DOT_RADIUS * scaleProjected;
      yProjected := y * stage.globeRadius * scaleProjected + stage.centerY - DOT_RADIUS * scaleProjected;
    }

    /** `draw`: projects the glyph, then paints each path with its colour at the
        projected place, scale and opacity (the opacity uses the current width). */
    method Draw(stage: Stage, vx: Angle, vy: Angle, vz: Angle) returns (call: DrawCall)
      requires Valid() && stage.Valid() && vx.Unit() && vy.Unit() && vz.Unit()
      modifies this
      ensures Valid() && Synced()
      ensures Pos() == Rotated(old(Pos()), vx, vy, vz)
      ensures 16.0 / 21.0 <= scaleProjected <= 16.0 / 11.0
      ensures Placed(stage)
      ensures call == CallFor(stage)
    {
      Project(stage, vx, vy, vz);
      var alpha := Alpha(z, stage.globeRadius, stage.width);
      var s := scaleProjected * SCALE * stage.width / REFERENCE_WIDTH;
      var fills: seq<Option<string>> := [];
      var i := 0;
      while i < pathCount
        invariant 0 <= i <= pathCount && |fills| == i
        invariant forall k :: 0 <= k < i ==> fills[k] == if k < |colors| then colors[k] else None
      {
        fills := fills + [if i < |colors| then colors[i] else None];
        i := i + 1;
      }
      call := DrawCall(xProjected, yProjected, s, alpha, fills);
    }
  }
}
