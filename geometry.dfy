/**
 * The draw2d values the renderer works with, and the collaborators it calls
 * whose code is not part of this model.
 */
module Geometry {

  /** A draw2d `Point`: integer pixel coordinates. */
  datatype Point = Point(x: int, y: int)

  /** A `PolarPoint`: a radius and an angle in radians, about an implicit origin. */
  datatype PolarPoint = PolarPoint(r: real, theta: real)

  /**
   * The conversions and trigonometry the renderer calls but whose code is
   * not part of this model, kept uninterpreted so that every property
   * proved here holds whatever they compute:
   * - `toPolar(origin, p)` is `PolarPoint.point2PolarPoint(origin, p)`,
   *   the position of `p` seen from `origin`;
   * - `toPoint(pp)` is `pp.toPoint()`, the Cartesian offset of a polar
   *   point, rounded to the pixel grid in some unknown way;
   * - `sin` and `cos` are `Math.sin` and `Math.cos`.
   */
  datatype Plane = Plane(
    toPolar: (Point, Point) -> PolarPoint,
    toPoint: PolarPoint -> Point,
    sin: real -> real,
    cos: real -> real)

  /** draw2d `Point.translate(Point)`: shifts a point by another one's coordinates. */
  function Translate(p: Point, offset: Point): Point {
    Point(p.x + offset.x, p.y + offset.y)
  }

  /**
   * The two `Graphics` calls the renderer makes: `drawLine(from, to)` and
   * `drawArc(x, y, width, height, startAngle, arcAngle)`, angles in degrees.
   */
  datatype DrawOp =
    | Line(from: Point, to: Point)
    | Arc(x: int, y: int, width: int, height: int, startAngle: int, arcAngle: int)
}
