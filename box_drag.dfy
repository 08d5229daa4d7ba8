/** Rectangle intersection of two signature boxes in the editor
    (`boxesOverlap` of assets/signable-editor/box-drag.ts). */
module BoxDrag {

  /** A box in form units: the page it sits on, a corner and its size. */
  datatype BoxBounds = BoxBounds(page: int, x: real, y: real, w: real, h: real)

  /** `boxesOverlap`: same page and strict overlap on both axes. */
  predicate BoxesOverlap(a: BoxBounds, b: BoxBounds) {
    a.page == b.page
    && a.x < b.x + b.w && b.x < a.x + a.w
    && a.y < b.y + b.h && b.y < a.y + a.h
  }

  /** A point strictly inside the box. */
  predicate Inside(b: BoxBounds, px: real, py: real) {
    b.x < px < b.x + b.w && b.y < py < b.y + b.h
  }

  lemma BoxesOverlapSymmetric(a: BoxBounds, b: BoxBounds)
    ensures BoxesOverlap(a, b) == BoxesOverlap(b, a)
  {
  }

  lemma BoxesOnDifferentPages(a: BoxBounds, b: BoxBounds)
    requires a.page != b.page
    ensures !BoxesOverlap(a, b)
  {
  }

  /** Boxes side by side or one above the other, sharing only an edge, do not overlap. */
  lemma AdjacentBoxesDoNotOverlap(a: BoxBounds, b: BoxBounds)
    requires b.x == a.x + a.w || b.y == a.y + a.h
    ensures !BoxesOverlap(a, b)
  {
  }

  /** A box of positive size that lies within another on the same page overlaps it. */
  lemma ContainedBoxOverlaps(a: BoxBounds, b: BoxBounds)
    requires a.page == b.page && b.w > 0.0 && b.h > 0.0
    requires a.x <= b.x && b.x + b.w <= a.x + a.w
    requires a.y <= b.y && b.y + b.h <= a.y + a.h
    ensures BoxesOverlap(a, b)
  {
  }

  /** For boxes of positive size, overlapping means sharing an interior point. */
  lemma BoxesOverlapIffCommonPoint(a: BoxBounds, b: BoxBounds)
    requires a.w > 0.0 && a.h > 0.0 && b.w > 0.0 && b.h > 0.0
    ensures BoxesOverlap(a, b) <==>
      a.page == b.page && exists px: real, py: real :: Inside(a, px, py) && Inside(b, px, py)
  {
    if BoxesOverlap(a, b) {
      var lx := if a.x < b.x then b.x else a.x;
      var hx := if a.x + a.w < b.x + b.w then a.x + a.w else b.x + b.w;
      var ly := if a.y < b.y then b.y else a.y;
      var hy := if a.y + a.h < b.y + b.h then a.y + a.h else b.y + b.h;
      var px, py := (lx + hx) / 2.0, (ly + hy) / 2.0;
      assert Inside(a, px, py) && Inside(b, px, py);
    }
  }
}
