/** Axis-aligned boxes and the overlap test every other component uses
    (check_collision in enemy.c), plus the float maths library the game
    calls, taken as caller-supplied functions. */
module Geometry {

  /** A box given by its top-left corner and its size, as the four floats
      check_collision receives for each side. Coordinates are reals; float
      rounding is not modelled. */
  datatype Rect = Rect(x: real, y: real, w: real, h: real)

  /** The C maths functions the core calls (sqrtf, atan2f, cosf, sinf).
      They are supplied by the caller; nothing is assumed about their
      values unless a lemma says so in its requires. */
  datatype FloatMath = FloatMath(
    sqrt: real -> real,
    atan2: (real, real) -> real,
    cos: real -> real,
    sin: real -> real)

  /** Strict overlap of two boxes: boxes that only share an edge do not collide. */
  predicate Collides(a: Rect, b: Rect)
  {
    a.x < b.x + b.w && a.x + a.w > b.x && a.y < b.y + b.h && a.y + a.h > b.y
  }

  /** The point (px, py) lies strictly inside box r. */
  predicate Inside(r: Rect, px: real, py: real)
  {
    r.x < px < r.x + r.w && r.y < py < r.y + r.h
  }

  predicate HasArea(r: Rect)
  {
    r.w > 0.0 && r.h > 0.0
  }

  function Max(a: real, b: real): real { if a < b then b else a }
  function Min(a: real, b: real): real { if a < b then a else b }

  /** Independent characterisation: two boxes with area collide exactly
      when some point lies strictly inside both. */
  lemma CollidesIffSharedInterior(a: Rect, b: Rect)
    requires HasArea(a) && HasArea(b)
    ensures Collides(a, b) <==> exists px, py :: Inside(a, px, py) && Inside(b, px, py)
  {
    if Collides(a, b) {
      var px := (Max(a.x, b.x) + Min(a.x + a.w, b.x + b.w)) / 2.0;
      var py := (Max(a.y, b.y) + Min(a.y + a.h, b.y + b.h)) / 2.0;
      assert Inside(a, px, py) && Inside(b, px, py);
    }
    if exists px, py :: Inside(a, px, py) && Inside(b, px, py) {
      var px, py :| Inside(a, px, py) && Inside(b, px, py);
      assert Collides(a, b);
    }
  }

  /** The test does not depend on the order of its two boxes. */
  lemma CollidesSymmetric(a: Rect, b: Rect)
    ensures Collides(a, b) == Collides(b, a)
  {
  }

  /** Boxes that only touch along an edge (on either axis) do not collide. */
  lemma TouchingBoxesDoNotCollide(a: Rect, b: Rect)
    requires a.x + a.w == b.x || b.x + b.w == a.x || a.y + a.h == b.y || b.y + b.h == a.y
    ensures !Collides(a, b)
  {
  }

  /** (0,0,40,40) and (39,0,40,40) overlap by one unit in x, so they collide;
      shifted one more unit they only touch and do not. */
  lemma OneUnitOverlapCollides()
    ensures Collides(Rect(0.0, 0.0, 40.0, 40.0), Rect(39.0, 0.0, 40.0, 40.0))
    ensures !Collides(Rect(0.0, 0.0, 40.0, 40.0), Rect(40.0, 0.0, 40.0, 40.0))
  {
  }
}
