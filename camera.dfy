/**
 * The canvas-derived scene constants and the perspective divide
 * (js/scriptanimationlogo.js:36-55 and 149). `onResize` derives the
 * constants from `width` and `height` BEFORE refreshing those two from the
 * canvas, so the constants always lag one resize behind.
 */
module Camera {

  /** The glyph's nominal radius, in canvas units. */
  const DOT_RADIUS: real := 64.0

  /** The field of view derived from a canvas width. */
  function Perspective(width: real): real {
    width * 0.8
  }

  /** The globe's radius derived from a canvas width. */
  function GlobeRadius(width: real): real {
    width / 4.0
  }

  /** Whatever width they come from, the perspective is 3.2 globe radii. */
  lemma PerspectiveIsFixedMultiple(width: real)
    requires width > 0.0
    ensures GlobeRadius(width) > 0.0
    ensures Perspective(width) == 3.2 * GlobeRadius(width)
  {
  }

  /** The perspective divide of `project`: the scale of a point at depth z. */
  function ScaleOf(perspective: real, globeRadius: real, z: real): real
    requires perspective + z * globeRadius != 0.0
  {
    perspective / (perspective + z * globeRadius)
  }

  /** The scale as a function of depth alone, once perspective is 3.2 radii. */
  function DepthScale(z: real): real
    requires z > -3.2
  {
    16.0 / (16.0 + 5.0 * z)
  }

  /** With the constants `onResize` derives and a point of the unit sphere, the
      divide never reaches zero and the scale no longer depends on the width. */
  lemma ScaleIndependentOfWidth(perspective: real, globeRadius: real, z: real)
    requires globeRadius > 0.0 && perspective == 3.2 * globeRadius
    requires -1.0 <= z <= 1.0
    ensures perspective + z * globeRadius > 0.0
    ensures ScaleOf(perspective, globeRadius, z) == DepthScale(z)
  {
    var d := perspective + z * globeRadius;
    assert d == globeRadius * (3.2 + z);
    assert d > 0.0 by {
      assert globeRadius * (3.2 + z) >= globeRadius * 2.2;
    }
    calc {
      ScaleOf(perspective, globeRadius, z);
    ==
      (3.2 * globeRadius) / (globeRadius * (3.2 + z));
    ==  { DivideOutFactor(3.2, 3.2 + z, globeRadius); }
      3.2 / (3.2 + z);
    ==  { DivideOutFactor(3.2, 3.2 + z, 5.0); }
      16.0 / (16.0 + 5.0 * z);
    }
  }

  /** A common positive factor cancels from a quotient. */
  lemma DivideOutFactor(a: real, b: real, k: real)
    requires b > 0.0 && k > 0.0
    ensures (a * k) / (k * b) == a / b
    ensures (k * a) / (k * b) == a / b
  {
    assert (a * k) / (k * b) * (k * b) == a * k;
    assert (a / b) * (k * b) == a * k;
  }

  /** On the unit sphere the scale lies between 16/21 (farthest) and 16/11 (nearest). */
  lemma DepthScaleBounds(z: real)
    requires -1.0 <= z <= 1.0
    ensures 16.0 / 21.0 <= DepthScale(z) <= 16.0 / 11.0
  {
    var d := 16.0 + 5.0 * z;
    var s := DepthScale(z);
    assert 11.0 <= d <= 21.0;
    assert s * d == 16.0;
    assert s > 0.0;
    assert s * 11.0 <= s * d <= s * 21.0;
  }

  /** Farther means smaller: the scale is strictly decreasing in depth, so
      ordering by scale is ordering by depth, reversed. */
  lemma DepthScaleDecreasing(z1: real, z2: real)
    requires z1 > -3.2 && z2 > -3.2
    ensures z1 < z2 <==> DepthScale(z2) < DepthScale(z1)
  {
    var d1, d2 := 16.0 + 5.0 * z1, 16.0 + 5.0 * z2;
    assert DepthScale(z1) * d1 == 16.0 && DepthScale(z2) * d2 == 16.0;
    assert DepthScale(z1) > 0.0 && DepthScale(z2) > 0.0;
    if z1 < z2 {
      assert d1 < d2;
      assert DepthScale(z2) * d1 < DepthScale(z2) * d2;
    } else if z1 == z2 {
    } else {
      assert d2 < d1;
      assert DepthScale(z1) * d2 < DepthScale(z1) * d1;
    }
  }

  /** The opacity `draw` assigns: |1 - z·3·R/width|, with the current width. */
  function Alpha(z: real, globeRadius: real, width: real): real
    requires width != 0.0
  {
    var a := 1.0 - z * 3.0 * globeRadius / width;
    if a < 0.0 then -a else a
  }

  /** While no resize has changed the width, the opacity is |1 - 0.75z|: from
      0.25 at the back to 1.75 at the front, above 1 for every point in front. */
  lemma AlphaUnresized(z: real, width: real)
    requires width > 0.0 && -1.0 <= z <= 1.0
    ensures Alpha(z, GlobeRadius(width), width) == 1.0 - 0.75 * z
    ensures 0.25 <= Alpha(z, GlobeRadius(width), width) <= 1.75
    ensures z < 0.0 ==> Alpha(z, GlobeRadius(width), width) > 1.0
  {
    assert z * 3.0 * GlobeRadius(width) / width == 0.75 * z by {
      assert z * 3.0 * GlobeRadius(width) == (0.75 * z) * width;
    }
  }

  /** The script-wide canvas state: the size last read from the canvas and the
      constants `onResize` derived. */
  class Stage {
    var width: real
    var height: real
    var perspective: real
    var centerX: real
    var centerY: real
    var globeRadius: real

    /** The constants come from some earlier positive size of the canvas. */
    ghost predicate Valid()
      reads this
    {
      width > 0.0 && height > 0.0 &&
      globeRadius > 0.0 && perspective == 3.2 * globeRadius &&
      centerX == 2.0 * globeRadius && centerY > 0.0
    }

    /** Script start: the size is read once, then `onResize` runs with that size. */
    constructor (w: real, h: real)
      requires w > 0.0 && h > 0.0
      ensures Valid()
      ensures width == w && height == h
      ensures perspective == Perspective(w) && globeRadius == GlobeRadius(w)
      ensures centerX == w / 2.0 && centerY == h / 2.0
    {
      width, height := w, h;
      new;
      OnResize(w, h);
    }

    /** `onResize`: the constants are taken from the size held so far, then the
        size is refreshed from the canvas (`newWidth`, `newHeight`). */
    method OnResize(newWidth: real, newHeight: real)
      requires width > 0.0 && height > 0.0
      requires newWidth > 0.0 && newHeight > 0.0
      modifies this
      ensures Valid()
      ensures perspective == Perspective(old(width))
      ensures globeRadius == GlobeRadius(old(width))
      ensures centerX == old(width) / 2.0 && centerY == old(height) / 2.0
      ensures width == newWidth && height == newHeight
    {
      perspective := Perspective(width);
      centerX := width / 2.0;
      centerY := height / 2.0;
      globeRadius := GlobeRadius(width);
      width := newWidth;
      height := newHeight;
    }
  }
}
