/** Points and the per-axis affine map that brings user coordinates to document units. */
module Geometry {

  datatype Point = Point(x: real, y: real)

  /** The affine map `(x, y) |-> (scaleX * (x + offsetX), scaleY * (y + offsetY))`. */
  datatype Transform = Transform(scaleX: real, scaleY: real, offsetX: real, offsetY: real)

  /** The transform used when the document has no viewBox: scale 1, offset 0. */
  const Identity := Transform(1.0, 1.0, 0.0, 0.0)

  /** Maps one point; each axis uses only its own scale and offset. */
  function Apply(t: Transform, p: Point): Point {
    Point(t.scaleX * (p.x + t.offsetX), t.scaleY * (p.y + t.offsetY))
  }

  /** The inverse of `Apply` for a transform whose scales are nonzero. */
  function Unapply(t: Transform, p: Point): Point
    requires t.scaleX != 0.0 && t.scaleY != 0.0
  {
    Point(p.x / t.scaleX - t.offsetX, p.y / t.scaleY - t.offsetY)
  }

  /** Maps every point of a polyline, keeping their order. */
  function ScaleAll(t: Transform, pts: seq<Point>): seq<Point> {
    seq(|pts|, k requires 0 <= k < |pts| => Apply(t, pts[k]))
  }

  lemma ApplyIdentity(p: Point)
    ensures Apply(Identity, p) == p
  {
  }

  /** `Apply` loses nothing when both scales are nonzero: it is a bijection of the plane. */
  lemma ApplyRoundTrip(t: Transform, p: Point)
    requires t.scaleX != 0.0 && t.scaleY != 0.0
    ensures Unapply(t, Apply(t, p)) == p
    ensures Apply(t, Unapply(t, p)) == p
  {
  }

  /** Scaling a polyline keeps its length and maps the k-th point to the k-th point. */
  lemma ScaleAllAt(t: Transform, pts: seq<Point>, k: int)
    requires 0 <= k < |pts|
    ensures |ScaleAll(t, pts)| == |pts|
    ensures ScaleAll(t, pts)[k] == Apply(t, pts[k])
  {
  }

  /** Under the identity transform every polyline comes out exactly as it went in. */
  lemma ScaleAllIdentity(pts: seq<Point>)
    ensures ScaleAll(Identity, pts) == pts
  {
  }
}
