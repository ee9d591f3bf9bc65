/** Qt's integer point and rectangle types (QPoint, QRect), as far as the
    window controller uses them. */
module QtRect {

  /** A QPoint: integer pixel coordinates. */
  datatype Point = Point(x: int, y: int)

  /** QPoint + QPoint */
  function Add(p: Point, q: Point): Point {
    Point(p.x + q.x, p.y + q.y)
  }

  /** QPoint - QPoint: the displacement that takes q to p. */
  function Sub(p: Point, q: Point): (d: Point)
    ensures Add(q, d) == p
  {
    Point(p.x - q.x, p.y - q.y)
  }

  /** A QRect stores its four edge coordinates. The right and bottom edges are
      inclusive, so the width is right - left + 1. Moving one edge (setLeft,
      setRight, setTop, setBottom) leaves the opposite edge where it is; in this
      model that is a datatype update such as r.(left := v). */
  datatype Rect = Rect(left: int, top: int, right: int, bottom: int)

  function Width(r: Rect): int {
    r.right - r.left + 1
  }

  function Height(r: Rect): int {
    r.bottom - r.top + 1
  }

  /** QRect::topLeft(), which is also the position of a frameless top-level window. */
  function Pos(r: Rect): Point {
    Point(r.left, r.top)
  }

  /** QRect(pos, size) */
  function FromPosSize(pos: Point, w: int, h: int): (r: Rect)
    ensures Pos(r) == pos && Width(r) == w && Height(r) == h
  {
    Rect(pos.x, pos.y, pos.x + w - 1, pos.y + h - 1)
  }

  /** The rectangle after QWidget::move(pos): new top-left corner, same size. */
  function MovedTo(r: Rect, pos: Point): (s: Rect)
    ensures Pos(s) == pos && Width(s) == Width(r) && Height(s) == Height(r)
    ensures s.right - r.right == pos.x - r.left && s.bottom - r.bottom == pos.y - r.top
  {
    FromPosSize(pos, Width(r), Height(r))
  }

  /** QRect::isNull(): width and height both zero. */
  predicate IsNull(r: Rect) {
    r.right == r.left - 1 && r.bottom == r.top - 1
  }

  /** The smaller and larger x and y coordinates: for a rectangle with negative
      width or height, the two edges on that axis are swapped. */
  function MinX(r: Rect): int { if Width(r) < 0 then r.right else r.left }
  function MaxX(r: Rect): int { if Width(r) < 0 then r.left else r.right }
  function MinY(r: Rect): int { if Height(r) < 0 then r.bottom else r.top }
  function MaxY(r: Rect): int { if Height(r) < 0 then r.top else r.bottom }

  /** QRect::contains(const QRect &inner, bool proper = false): false when either
      rectangle is null, otherwise every edge of the inner rectangle, with its
      edges swapped where its size is negative, lies on or inside the matching
      edge of the outer one, swapped the same way. */
  predicate Contains(outer: Rect, inner: Rect)
    ensures Contains(outer, inner) ==>
              MaxX(inner) - MinX(inner) <= MaxX(outer) - MinX(outer) &&
              MaxY(inner) - MinY(inner) <= MaxY(outer) - MinY(outer)
  {
    !IsNull(outer) && !IsNull(inner) &&
    MinX(outer) <= MinX(inner) && MaxX(inner) <= MaxX(outer) &&
    MinY(outer) <= MinY(inner) && MaxY(inner) <= MaxY(outer)
  }

  /** A point inside a rectangle with non-negative size, edges included. */
  predicate HasPoint(r: Rect, p: Point) {
    r.left <= p.x <= r.right && r.top <= p.y <= r.bottom
  }

  /** For a proper outer rectangle and a non-empty inner one, containment is the
      plain inclusive comparison of the four edges. */
  lemma ContainsInclusive(outer: Rect, inner: Rect)
    requires Width(outer) >= 0 && Height(outer) >= 0
    requires Width(inner) >= 1 && Height(inner) >= 1
    ensures Contains(outer, inner) <==>
              outer.left <= inner.left && inner.right <= outer.right &&
              outer.top <= inner.top && inner.bottom <= outer.bottom
  {
  }
}
