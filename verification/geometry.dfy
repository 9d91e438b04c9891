/** Axis-aligned rectangles in screen coordinates, and Android's rectangle
    intersection, which the scene uses for every collision test.
    The y axis grows downward: `top` is the smaller y, `bottom` the larger. */
module Geometry {

  datatype Option<T> = None | Some(value: T)

  datatype Rect = Rect(left: real, top: real, right: real, bottom: real)
  {
    function Width(): real { right - left }

    function Height(): real { bottom - top }

    /** `r` lies inside this rectangle (edges may touch). */
    predicate Contains(r: Rect) {
      left <= r.left && r.right <= right && top <= r.top && r.bottom <= bottom
    }

    /** The rectangle has positive area. */
    predicate NonEmpty() {
      left < right && top < bottom
    }
  }

  function Max(a: real, b: real): real { if a < b then b else a }

  function Min(a: real, b: real): real { if a < b then a else b }

  /** `RectF.intersect` from the Android framework: when the two rectangles
      overlap strictly on both axes it reports true and the overlapping
      rectangle, otherwise false (here: None). Rectangles that only share an
      edge do not intersect. */
  function Intersect(a: Rect, b: Rect): (r: Option<Rect>)
    ensures r.Some? ==> a.Contains(r.value) && b.Contains(r.value)
  {
    if a.left < b.right && b.left < a.right && a.top < b.bottom && b.top < a.bottom then
      Some(Rect(Max(a.left, b.left), Max(a.top, b.top), Min(a.right, b.right), Min(a.bottom, b.bottom)))
    else
      None
  }

  /** What the intersection means, independently of how it is computed: for
      rectangles of positive area an intersection exists exactly when some
      rectangle of positive area lies in both, and then it has positive area
      itself; the result is always the largest rectangle lying in both. (A
      rectangle of zero width or height can still be reported as
      intersecting.) */
  lemma IntersectIsLargestCommonRect(a: Rect, b: Rect)
    ensures a.NonEmpty() && b.NonEmpty() ==>
              (Intersect(a, b).Some? <==> exists q: Rect :: q.NonEmpty() && a.Contains(q) && b.Contains(q))
    ensures a.NonEmpty() && b.NonEmpty() && Intersect(a, b).Some? ==> Intersect(a, b).value.NonEmpty()
    ensures Intersect(a, b).Some? ==> forall q: Rect :: a.Contains(q) && b.Contains(q) ==> Intersect(a, b).value.Contains(q)
  {
    if a.NonEmpty() && b.NonEmpty() && Intersect(a, b).Some? {
      assert Intersect(a, b).value.NonEmpty();
    }
  }

  /** A rectangle set down so that its bottom edge lies on another rectangle's
      top edge no longer intersects it: edge contact is not an overlap. */
  lemma RestingOnTopDoesNotIntersect(a: Rect, b: Rect)
    requires a.bottom == b.top
    ensures Intersect(a, b).None?
  {
  }
}
