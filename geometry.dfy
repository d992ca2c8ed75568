/**
 * Integer pixel geometry: points and axis-aligned rectangles of the pixel plane,
 * with the semantics of java.awt.Point and java.awt.Rectangle that the pixel
 * classes of the system inherit.
 */
module Geometry {

  datatype Point = Point(x: int, y: int)

  /** A rectangle given by its top-left corner and its extent. */
  datatype Rectangle = Rectangle(x: int, y: int, width: int, height: int) {

    /** A rectangle with a negative dimension does not exist: Rectangle.add replaces it outright. */
    predicate NonExistent() {
      width < 0 || height < 0
    }
  }

  /** Closed containment: `p` lies inside `r` or on one of its edges. */
  predicate Covers(r: Rectangle, p: Point) {
    r.x <= p.x <= r.x + r.width && r.y <= p.y <= r.y + r.height
  }

  /** `outer` spans at least the bounds of `inner`. */
  predicate Encloses(outer: Rectangle, inner: Rectangle) {
    && outer.x <= inner.x && inner.x + inner.width <= outer.x + outer.width
    && outer.y <= inner.y && inner.y + inner.height <= outer.y + outer.height
  }

  function Min(a: int, b: int): int { if a <= b then a else b }

  function Max(a: int, b: int): int { if a <= b then b else a }

  /** The rectangle built from a single point: located there, of zero width and height. */
  function At(p: Point): (r: Rectangle)
    ensures !r.NonExistent()
    ensures forall q :: Covers(r, q) <==> q == p
  {
    Rectangle(p.x, p.y, 0, 0)
  }

  /**
   * Rectangle.add(Point): a rectangle that does not exist becomes the point itself;
   * otherwise it grows just enough to take the point in.
   */
  function Add(r: Rectangle, p: Point): (s: Rectangle)
    ensures r.NonExistent() ==> s == At(p)
    ensures !r.NonExistent() ==> !s.NonExistent() && Covers(s, p) && Encloses(s, r)
    ensures !r.NonExistent() ==> forall q :: Covers(r, q) ==> Covers(s, q)
  {
    if r.NonExistent() then
      At(p)
    else
      var x1, y1 := Min(r.x, p.x), Min(r.y, p.y);
      var x2, y2 := Max(r.x + r.width, p.x), Max(r.y + r.height, p.y);
      Rectangle(x1, y1, x2 - x1, y2 - y1)
  }

  /** The grown rectangle is the smallest one that spans `r` and covers `p`. */
  lemma AddIsSmallest(r: Rectangle, p: Point, t: Rectangle)
    requires !r.NonExistent()
    requires Encloses(t, r) && Covers(t, p)
    ensures Encloses(t, Add(r, p))
  {
  }
}
