/** Canvas geometry: every shape of the game is described by its axis-aligned
    bounding box, in the order the canvas reports coordinates
    (left, top, right, bottom). The y axis grows downwards. */
module Geometry {

  datatype Rect = Rect(left: real, top: real, right: real, bottom: real)

  /** The box of a shape created around the centre (x, y) with the given
      half-width and half-height. */
  function Around(x: real, y: real, halfWidth: real, halfHeight: real): Rect
  {
    Rect(x - halfWidth, y - halfHeight, x + halfWidth, y + halfHeight)
  }

  /** Moving a shape by (dx, dy). */
  function Translate(r: Rect, dx: real, dy: real): Rect
  {
    Rect(r.left + dx, r.top + dy, r.right + dx, r.bottom + dy)
  }

  function CenterX(r: Rect): real
  {
    (r.left + r.right) * 0.5
  }

  function CenterY(r: Rect): real
  {
    (r.top + r.bottom) * 0.5
  }

  function Width(r: Rect): real
  {
    r.right - r.left
  }

  /** Two boxes overlap when they share at least one point (edges included). */
  predicate Overlaps(a: Rect, b: Rect)
  {
    a.left <= b.right && b.left <= a.right && a.top <= b.bottom && b.top <= a.bottom
  }

  /** The box lies horizontally inside a field of the given width. */
  predicate InsideX(r: Rect, width: real)
  {
    0.0 <= r.left && r.right <= width
  }
}
