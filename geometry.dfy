/**
 * The widget panel's geometry check (`setWidgetPanelGeometry`): a page's
 * remembered panel rectangle is put back on screen, each out-of-range size or
 * position replaced by a default.
 *
 * Rectangles follow QRect: they store their four edges, with
 * `width == right - left + 1`. `setWidth`/`setHeight` move the right/bottom
 * edge; `setX`/`setY` move only the left/top edge, so they change the size.
 */
module Geometry {

  datatype Rect = Rect(left: int, top: int, right: int, bottom: int)

  const MaxExtent: int := 4096
  const DefaultWidth: int := 400
  const DefaultHeight: int := 300
  const DefaultX: int := 20
  const DefaultY: int := 0
  /** `QRect()`: the null rectangle, of width and height 0. */
  const NullRect := Rect(0, 0, -1, -1)

  function Width(r: Rect): int { r.right - r.left + 1 }
  function Height(r: Rect): int { r.bottom - r.top + 1 }

  /** A width or height the panel accepts. */
  predicate SizeOk(v: int) { 0 < v <= MaxExtent }
  /** An x or y position the panel accepts. */
  predicate PlaceOk(v: int) { 0 <= v <= MaxExtent }

  /** QRect::setWidth: the left edge stays. */
  function SetWidth(r: Rect, w: int): (q: Rect)
    ensures Width(q) == w && q.left == r.left && q.top == r.top && Height(q) == Height(r)
  {
    r.(right := r.left + w - 1)
  }

  /** QRect::setHeight: the top edge stays. */
  function SetHeight(r: Rect, h: int): (q: Rect)
    ensures Height(q) == h && q.top == r.top && q.left == r.left && Width(q) == Width(r)
  {
    r.(bottom := r.top + h - 1)
  }

  /** QRect::setX: the right edge stays, so the width changes with the left edge. */
  function SetX(r: Rect, x: int): (q: Rect)
    ensures q.left == x && q.right == r.right && Width(q) == Width(r) + r.left - x
    ensures q.top == r.top && Height(q) == Height(r)
  {
    r.(left := x)
  }

  /** QRect::setY: the bottom edge stays, so the height changes with the top edge. */
  function SetY(r: Rect, y: int): (q: Rect)
    ensures q.top == y && q.bottom == r.bottom && Height(q) == Height(r) + r.top - y
    ensures q.left == r.left && Width(q) == Width(r)
  {
    r.(top := y)
  }

  /** QRect::moveLeft: the whole rectangle moves, keeping its size. */
  function MoveLeft(r: Rect, x: int): (q: Rect)
    ensures q.left == x && Width(q) == Width(r) && q.top == r.top && Height(q) == Height(r)
  {
    Rect(x, r.top, x + Width(r) - 1, r.bottom)
  }

  /** QRect::moveTop: the whole rectangle moves, keeping its size. */
  function MoveTop(r: Rect, y: int): (q: Rect)
    ensures q.top == y && Height(q) == Height(r) && q.left == r.left && Width(q) == Width(r)
  {
    Rect(r.left, y, r.right, y + Height(r) - 1)
  }

  /**
   * The check as the source writes it: size first, then position, the
   * position fixed with setX/setY. The position always ends in range; the
   * size is kept in range only when the position needed no fixing.
   */
  function PanelGeometryAsWritten(g: Rect): (q: Rect)
    ensures PlaceOk(q.left) && PlaceOk(q.top)
    ensures PlaceOk(g.left) ==> q.left == g.left && Width(q) == (if SizeOk(Width(g)) then Width(g) else DefaultWidth)
    ensures PlaceOk(g.top) ==> q.top == g.top && Height(q) == (if SizeOk(Height(g)) then Height(g) else DefaultHeight)
  {
    var g1 := if !SizeOk(Width(g)) then SetWidth(g, DefaultWidth) else g;
    var g2 := if !SizeOk(Height(g1)) then SetHeight(g1, DefaultHeight) else g1;
    var g3 := if !PlaceOk(g2.left) then SetX(g2, DefaultX) else g2;
    if !PlaceOk(g3.top) then SetY(g3, DefaultY) else g3
  }

  /** A panel remembered 5000 pixels off the left of the screen, 400 wide,
      comes back with a negative width. */
  lemma AsWrittenWidthLeavesRange()
    ensures var g := Rect(-5000, 0, -4601, 299);
            Width(g) == 400 && Width(PanelGeometryAsWritten(g)) == -4620
  {
  }

  /**
   * A docked panel is remembered with its left and top edges set to -1
   * (`setX(-1)`, `setY(-1)` on leaving a page), so the check as written fixes
   * the position of every docked panel and takes 21 pixels off its width and
   * one off its height each time the page becomes current.
   */
  lemma AsWrittenDockedShrinks(g: Rect)
    requires g.left == -1 && g.top == -1 && SizeOk(Width(g)) && SizeOk(Height(g))
    ensures var q := PanelGeometryAsWritten(g);
            q.left == DefaultX && q.top == DefaultY && Width(q) == Width(g) - 21 && Height(q) == Height(g) - 1
  {
  }

  /**
   * The check as intended: an invalid size gets its default, an invalid
   * position is moved to its default without changing the size, and every
   * valid value is kept.
   */
  function PanelGeometry(g: Rect): (q: Rect)
    ensures SizeOk(Width(q)) && SizeOk(Height(q)) && PlaceOk(q.left) && PlaceOk(q.top)
    ensures Width(q) == (if SizeOk(Width(g)) then Width(g) else DefaultWidth)
    ensures Height(q) == (if SizeOk(Height(g)) then Height(g) else DefaultHeight)
    ensures q.left == (if PlaceOk(g.left) then g.left else DefaultX)
    ensures q.top == (if PlaceOk(g.top) then g.top else DefaultY)
  {
    var g1 := if !SizeOk(Width(g)) then SetWidth(g, DefaultWidth) else g;
    var g2 := if !SizeOk(Height(g1)) then SetHeight(g1, DefaultHeight) else g1;
    var g3 := if !PlaceOk(g2.left) then MoveLeft(g2, DefaultX) else g2;
    if !PlaceOk(g3.top) then MoveTop(g3, DefaultY) else g3
  }

  /** The two agree whenever the remembered position is on screen. */
  lemma AsWrittenAgreesOnScreen(g: Rect)
    requires PlaceOk(g.left) && PlaceOk(g.top)
    ensures PanelGeometryAsWritten(g) == PanelGeometry(g)
  {
  }

  /** A rectangle already in range is left exactly as it is. */
  lemma ValidGeometryKept(g: Rect)
    requires SizeOk(Width(g)) && SizeOk(Height(g)) && PlaceOk(g.left) && PlaceOk(g.top)
    ensures PanelGeometry(g) == g
  {
  }
}
