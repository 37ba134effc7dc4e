/** Points and rectangles in image pixel coordinates (top-left origin),
    and the normalisation applied to a drag gesture. */
module Geometry {

  /** A pointer position (QPoint). */
  datatype Point = Point(x: int, y: int)

  /** The null point QPoint(): the value the drag points hold when no drag is active. */
  const NullPoint: Point := Point(0, 0)

  /** A rectangle as origin plus extent (QRect). Width and height are plain
      integers: a rectangle decoded from a results file may carry anything. */
  datatype Rect = Rect(x: int, y: int, width: int, height: int)

  function Min(a: int, b: int): int { if a <= b then a else b }
  function Max(a: int, b: int): int { if a <= b then b else a }

  /** The rectangle spanned by two drag corners, normalised so that its extent
      is non-negative whichever way the pointer moved (QRect(begin, end).normalized()). */
  function Normalized(a: Point, b: Point): (r: Rect)
    ensures r.width >= 0 && r.height >= 0
    ensures {r.x, r.x + r.width} == {a.x, b.x}
    ensures {r.y, r.y + r.height} == {a.y, b.y}
  {
    Rect(Min(a.x, b.x), Min(a.y, b.y), Max(a.x, b.x) - Min(a.x, b.x), Max(a.y, b.y) - Min(a.y, b.y))
  }

  /** The drag direction does not matter. */
  lemma NormalizedSymmetric(a: Point, b: Point)
    ensures Normalized(a, b) == Normalized(b, a)
  {
  }

  /** A press and release at the same point gives a zero-extent rectangle at that
      point; it is still a rectangle, and it is still recorded. */
  lemma NormalizedClick(p: Point)
    ensures Normalized(p, p) == Rect(p.x, p.y, 0, 0)
  {
  }

  /** Dragging from (50,50) to (10,80) gives x=10, y=50, width=40, height=30. */
  lemma NormalizedExample()
    ensures Normalized(Point(50, 50), Point(10, 80)) == Rect(10, 50, 40, 30)
  {
  }
}
