/** Host value types the surface engine works with: C#'s nullable values,
    points, sizes, rectangles and colours, all over exact reals. */
module Graphics {

  /** A C# nullable value (`T?`). */
  datatype Option<+T> = None | Some(value: T)

  /** A point in view coordinates (MAUI's PointF). */
  datatype Point = Point(x: real, y: real)

  /** A width/height pair, used as a translation (MAUI's SizeF). */
  datatype Size = Size(width: real, height: real)

  const ZeroSize: Size := Size(0.0, 0.0)

  /** An axis-aligned rectangle given by origin and extent (MAUI's Rect). */
  datatype Rect = Rect(x: real, y: real, width: real, height: real) {
    function Left(): real { x }
    function Top(): real { y }
    function Right(): real { x + width }
    function Bottom(): real { y + height }
  }

  /** Rect.FromLTRB: the rectangle with the given edges. */
  function FromLTRB(left: real, top: real, right: real, bottom: real): Rect
  {
    Rect(left, top, right - left, bottom - top)
  }

  /** Rect.Offset: the same rectangle moved by `d`. */
  function Offset(r: Rect, d: Size): Rect
  {
    Rect(r.x + d.width, r.y + d.height, r.width, r.height)
  }

  /** RectF.Inflate: every side pushed outwards by `dx` horizontally and `dy` vertically
      (a negative amount shrinks the rectangle). */
  function Inflate(r: Rect, dx: real, dy: real): Rect
  {
    Rect(r.x - dx, r.y - dy, r.width + 2.0 * dx, r.height + 2.0 * dy)
  }

  /** A colour with four channels in [0, 1]. */
  datatype Color = Color(red: real, green: real, blue: real, alpha: real) {
    /** Color.WithAlpha: the same colour channels with another alpha. */
    function WithAlpha(a: real): Color { this.(alpha := a) }
  }
}
