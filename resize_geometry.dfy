/** The pure rules of the frameless window's interactive resize: which border
    region the pointer is over, which cursor that shows, the candidate rectangle
    a pointer displacement asks for (with and without the 16:9 constraint),
    whether a candidate may be applied, and where the drag strip sits. */
module ResizeGeometry {
  import opened QtRect

  datatype Option<T> = None | Some(value: T)

  /** Thickness of the resize border, in pixels. */
  const BorderWidth: int := 8
  /** Smallest and largest size a resize may produce. */
  const MinWidth: int := 300
  const MinHeight: int := 200
  const MaxWidth: int := 1920
  const MaxHeight: int := 1080
  /** Fixed height of the drag strip. */
  const HandleHeight: int := 20
  /** The aspect ratio kept while Shift is held, width : height. */
  const RatioWidth: int := 16
  const RatioHeight: int := 9

  /** The eight border regions a resize can start from. */
  datatype Edge = TopLeft | TopRight | BottomLeft | BottomRight | Left | Right | Top | Bottom
  {
    predicate IsCorner() {
      TopLeft? || TopRight? || BottomLeft? || BottomRight?
    }
    /** The edges that drag the left side, the right side, the top and the bottom. */
    predicate MovesLeft() { Left? || TopLeft? || BottomLeft? }
    predicate MovesRight() { Right? || TopRight? || BottomRight? }
    predicate MovesTop() { Top? || TopLeft? || TopRight? }
    predicate MovesBottom() { Bottom? || BottomLeft? || BottomRight? }
  }

  /** The cursor glyphs the window shows. */
  datatype Cursor = ArrowCursor | SizeFDiagCursor | SizeBDiagCursor | SizeHorCursor | SizeVerCursor

  /** One side of a rectangle. */
  datatype Side = LeftSide | TopSide | RightSide | BottomSide

  function Abs(n: int): nat {
    if n < 0 then -n else n
  }

  /** Euclidean division of a non-negative number, bounded by multiples of d. */
  lemma DivBounds(n: int, d: int)
    requires n >= 0 && d > 0
    ensures 0 <= (n / d) * d <= n < (n / d) * d + d
  {
  }

  /** Python's int() applied to the quotient n / d: truncation toward zero. */
  function TruncDiv(n: int, d: int): (q: int)
    requires d > 0
    ensures n >= 0 ==> 0 <= q * d <= n < q * d + d
    ensures n < 0 ==> q * d - d < n <= q * d <= 0
  {
    if n >= 0 then
      DivBounds(n, d);
      n / d
    else
      var m := (-n) / d;
      DivBounds(-n, d);
      assert (-m) * d == -(m * d);
      -m
  }

  /** Border classification of a pointer position local to a window of the given
      size. Each region is stated in closed form: near the left border means
      x < BorderWidth, near the right border x > width - BorderWidth, and the
      same for y. When both a horizontal and a vertical border are near, a corner
      wins; top-left is tried first, then top-right, bottom-left, bottom-right. */
  function ResizeEdgeAt(pos: Point, width: int, height: int): (e: Option<Edge>)
    ensures e.None? <==>
              (BorderWidth <= pos.x <= width - BorderWidth && BorderWidth <= pos.y <= height - BorderWidth)
    ensures e == Some(TopLeft) <==> pos.x < BorderWidth && pos.y < BorderWidth
    ensures e == Some(TopRight) <==>
              BorderWidth <= pos.x && width - BorderWidth < pos.x && pos.y < BorderWidth
    ensures e == Some(BottomLeft) <==>
              pos.x < BorderWidth && BorderWidth <= pos.y && height - BorderWidth < pos.y
    ensures e == Some(BottomRight) <==>
              BorderWidth <= pos.x && width - BorderWidth < pos.x &&
              BorderWidth <= pos.y && height - BorderWidth < pos.y
    ensures e == Some(Left) <==>
              pos.x < BorderWidth && BorderWidth <= pos.y <= height - BorderWidth
    ensures e == Some(Right) <==>
              BorderWidth <= pos.x && width - BorderWidth < pos.x &&
              BorderWidth <= pos.y <= height - BorderWidth
    ensures e == Some(Top) <==>
              pos.y < BorderWidth && BorderWidth <= pos.x <= width - BorderWidth
    ensures e == Some(Bottom) <==>
              BorderWidth <= pos.y && height - BorderWidth < pos.y &&
              BorderWidth <= pos.x <= width - BorderWidth
    // a corner exactly when one horizontal and one vertical border are near
    ensures (e.Some? && e.value.IsCorner()) <==>
              (pos.x < BorderWidth || width - BorderWidth < pos.x) &&
              (pos.y < BorderWidth || height - BorderWidth < pos.y)
  {
    var left := pos.x < BorderWidth;
    var right := pos.x > width - BorderWidth;
    var top := pos.y < BorderWidth;
    var bottom := pos.y > height - BorderWidth;
    if left && top then Some(TopLeft)
    else if right && top then Some(TopRight)
    else if left && bottom then Some(BottomLeft)
    else if right && bottom then Some(BottomRight)
    else if left then Some(Left)
    else if right then Some(Right)
    else if top then Some(Top)
    else if bottom then Some(Bottom)
    else None
  }

  /** The cursor that hints the resize direction of a border region: the
      arrow away from every border, a horizontal or vertical double arrow on a
      side, and on a corner the diagonal that runs through it. */
  function CursorForEdge(edge: Option<Edge>): (c: Cursor)
    ensures c == ArrowCursor <==> edge.None?
    ensures c == SizeHorCursor <==>
              edge.Some? && !edge.value.IsCorner() && (edge.value.MovesLeft() || edge.value.MovesRight())
    ensures c == SizeVerCursor <==>
              edge.Some? && !edge.value.IsCorner() && (edge.value.MovesTop() || edge.value.MovesBottom())
    // top-left and bottom-right lie on the falling diagonal
    ensures c == SizeFDiagCursor <==>
              edge.Some? && edge.value.IsCorner() && (edge.value.MovesLeft() == edge.value.MovesTop())
    ensures c == SizeBDiagCursor <==>
              edge.Some? && edge.value.IsCorner() && (edge.value.MovesLeft() != edge.value.MovesTop())
  {
    match edge
    case None => ArrowCursor
    case Some(TopLeft) => SizeFDiagCursor
    case Some(TopRight) => SizeBDiagCursor
    case Some(BottomLeft) => SizeBDiagCursor
    case Some(BottomRight) => SizeFDiagCursor
    case Some(Left) => SizeHorCursor
    case Some(Right) => SizeHorCursor
    case Some(Top) => SizeVerCursor
    case Some(Bottom) => SizeVerCursor
  }

  /** `after` is `before` with exactly one side moved by `amount` pixels; the other
      three sides are where they were. */
  predicate OnlySideMoved(before: Rect, after: Rect, side: Side, amount: int) {
    after.left == before.left + (if side == LeftSide then amount else 0) &&
    after.top == before.top + (if side == TopSide then amount else 0) &&
    after.right == before.right + (if side == RightSide then amount else 0) &&
    after.bottom == before.bottom + (if side == BottomSide then amount else 0)
  }

  /** The horizontal and the vertical side a corner drags. */
  function HorizontalSide(edge: Edge): Side {
    if edge.MovesLeft() then LeftSide else RightSide
  }

  function VerticalSide(edge: Edge): Side {
    if edge.MovesTop() then TopSide else BottomSide
  }

  /** The one side a non-corner edge drags. */
  function SingleSide(edge: Edge): Side {
    if edge.MovesLeft() then LeftSide
    else if edge.MovesRight() then RightSide
    else if edge.MovesTop() then TopSide
    else BottomSide
  }

  /** The displacement component that applies to a side. */
  function Along(side: Side, delta: Point): int {
    if side == LeftSide || side == RightSide then delta.x else delta.y
  }

  /** The candidate rectangle before any aspect-ratio correction. It is always
      computed from the gesture's start rectangle and the total displacement
      since the press. A side edge moves only its own side. A corner moves only
      one side per event: its horizontal side, by dx, when |dx| > |dy|, and
      otherwise (ties included) its vertical side, by dy. */
  function MoveSides(start: Rect, edge: Edge, delta: Point): (r: Rect)
    ensures !edge.IsCorner() ==> OnlySideMoved(start, r, SingleSide(edge), Along(SingleSide(edge), delta))
    ensures edge.IsCorner() && Abs(delta.x) > Abs(delta.y) ==>
              OnlySideMoved(start, r, HorizontalSide(edge), delta.x)
    ensures edge.IsCorner() && Abs(delta.x) <= Abs(delta.y) ==>
              OnlySideMoved(start, r, VerticalSide(edge), delta.y)
  {
    var dx := delta.x;
    var dy := delta.y;
    if edge.IsCorner() then
      if Abs(dx) > Abs(dy) then
        if edge == TopLeft then start.(left := start.left + dx)
        else if edge == TopRight then start.(right := start.right + dx)
        else if edge == BottomLeft then start.(left := start.left + dx)
        else if edge == BottomRight then start.(right := start.right + dx)
        else start
      else
        if edge == TopLeft then start.(top := start.top + dy)
        else if edge == TopRight then start.(top := start.top + dy)
        else if edge == BottomLeft then start.(bottom := start.bottom + dy)
        else if edge == BottomRight then start.(bottom := start.bottom + dy)
        else start
    else
      var g1 := if edge.MovesLeft() then start.(left := start.left + dx) else start;
      var g2 := if edge.MovesRight() then g1.(right := start.right + dx) else g1;
      var g3 := if edge.MovesTop() then g2.(top := start.top + dy) else g2;
      if edge.MovesBottom() then g3.(bottom := start.bottom + dy) else g3
  }

  /** Whether the aspect correction takes the width as its base: the width has
      changed more than the height since the gesture started. */
  predicate WidthIsBase(start: Rect, g: Rect) {
    Abs(Width(g) - Width(start)) > Abs(Height(g) - Height(start))
  }

  /** The 16:9 correction. The base dimension is kept; the other one becomes
      trunc(base * 9 / 16) + 1 or trunc(base * 16 / 9) + 1 (the + 1 because
      QRect's far edge is inclusive). The side moved is the one on the handle's
      side, so the side away from the handle stays put. */
  function MaintainAspectRatio(start: Rect, edge: Edge, g: Rect): (r: Rect)
    ensures WidthIsBase(start, g) ==>
              r.left == g.left && r.right == g.right &&
              Height(r) == TruncDiv(Width(g) * RatioHeight, RatioWidth) + 1 &&
              (if edge.MovesTop() then r.bottom == g.bottom else r.top == g.top)
    ensures !WidthIsBase(start, g) ==>
              r.top == g.top && r.bottom == g.bottom &&
              Width(r) == TruncDiv(Height(g) * RatioWidth, RatioHeight) + 1 &&
              (if edge.MovesLeft() then r.right == g.right else r.left == g.left)
  {
    var width := Width(g);
    var height := Height(g);
    if Abs(width - Width(start)) > Abs(height - Height(start)) then
      var targetHeight := TruncDiv(width * RatioHeight, RatioWidth);
      if edge.MovesTop() then g.(top := g.bottom - targetHeight)
      else g.(bottom := g.top + targetHeight)
    else
      var targetWidth := TruncDiv(height * RatioWidth, RatioHeight);
      if edge.MovesLeft() then g.(left := g.right - targetWidth)
      else g.(right := g.left + targetWidth)
  }

  /** The corner (or side) away from the active handle is where it was at the
      start of the gesture. */
  predicate OppositeCornerFixed(start: Rect, edge: Edge, r: Rect) {
    (if edge.MovesLeft() then r.right == start.right else r.left == start.left) &&
    (if edge.MovesTop() then r.bottom == start.bottom else r.top == start.top)
  }

  /** The candidate rectangle for a resizing move: the sides moved from the
      start rectangle and, while Shift is held, the 16:9 correction. Whatever
      the edge and the mode, the corner opposite the handle never moves. With
      the correction, width : height is never exactly 16 : 9, and for a
      rectangle of non-negative size the recomputed dimension is within one
      pixel of the exact ratio (|16 h - 9 w| <= 16). */
  function CalculateNewGeometry(start: Rect, edge: Edge, delta: Point, keepAspect: bool): (r: Rect)
    ensures OppositeCornerFixed(start, edge, r)
    ensures keepAspect ==> RatioHeight * Width(r) != RatioWidth * Height(r)
    ensures keepAspect && Width(r) >= 0 && Height(r) >= 0 ==>
              -RatioWidth <= RatioWidth * Height(r) - RatioHeight * Width(r) <= RatioWidth
  {
    var g := MoveSides(start, edge, delta);
    if keepAspect then MaintainAspectRatio(start, edge, g) else g
  }

  /** Whether a candidate may be applied: within the size limits and inside the
      screen rectangle. The checks run in the order isValidGeometry makes them. */
  predicate IsValidGeometry(g: Rect, screen: Rect)
    ensures IsValidGeometry(g, screen) ==>
              MinWidth <= Width(g) <= MaxWidth && MinHeight <= Height(g) <= MaxHeight &&
              MinX(screen) <= g.left && g.right <= MaxX(screen) &&
              MinY(screen) <= g.top && g.bottom <= MaxY(screen)
  {
    if Width(g) < MinWidth || Height(g) < MinHeight then false
    else if Width(g) > MaxWidth || Height(g) > MaxHeight then false
    else if !Contains(screen, g) then false
    else true
  }

  /** For a screen of non-negative size, validity is the conjunction of the two
      size bounds and inclusive containment on all four edges. */
  lemma ValidGeometryBounds(g: Rect, screen: Rect)
    requires Width(screen) >= 0 && Height(screen) >= 0
    ensures IsValidGeometry(g, screen) <==>
              MinWidth <= Width(g) <= MaxWidth && MinHeight <= Height(g) <= MaxHeight &&
              screen.left <= g.left && g.right <= screen.right &&
              screen.top <= g.top && g.bottom <= screen.bottom
  {
  }

  /** Where the drag strip goes in a window of the given width: inset by the
      border on the left, top and right, with its fixed height. */
  function HandleLayout(windowWidth: int): (r: Rect)
    ensures r.left == BorderWidth && r.top == BorderWidth
    ensures r.right == windowWidth - BorderWidth - 1
    ensures Height(r) == HandleHeight
  {
    FromPosSize(Point(BorderWidth, BorderWidth), windowWidth - 2 * BorderWidth, HandleHeight)
  }

  /** In a window tall enough (every valid size is), no point of the drag strip
      lies in a resize border region; a window 16 pixels wide or less has a
      strip with no points at all. */
  lemma HandleClearOfBorders(width: int, height: int)
    requires height >= 2 * BorderWidth + HandleHeight - 1
    ensures forall p :: HasPoint(HandleLayout(width), p) ==> ResizeEdgeAt(p, width, height).None?
  {
  }
}
