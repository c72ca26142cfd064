/**
 * The geometry of one rounded bend: given the running start point `src`,
 * the bend point `bp` and the next point `tgt`, the tangent points on the
 * two legs, the centre of the rounding circle and the arc to draw.
 */
module RoundedCorner {
  import opened Numerics
  import opened Geometry

  /** Everything `outlineShape` computes for one bend point. */
  datatype Corner = Corner(
    srcP: PolarPoint,     // `src` seen from the bend point
    tgtP: PolarPoint,     // `tgt` seen from the bend point
    turn: real,           // the angle from `srcP` to `tgtP` after the `%` normalisation
    src2tgt: bool,        // whether the minor angle runs from the source leg to the target leg
    arc: real,            // the minor angle between the two legs
    dist: real,           // the clamped reach of the rounding along each leg
    centerP: PolarPoint,  // the centre of the rounding circle, seen from the bend point
    bpsrcP: PolarPoint,   // the tangent point on the incoming leg, seen from the bend point
    bptgtP: PolarPoint,   // the tangent point on the outgoing leg, seen from the bend point
    center: Point,
    bpsrc: Point,
    bptgt: Point,
    arcRadius: real)      // the radius of the rounding circle

  /** `to_deg`: radians to degrees. */
  function ToDeg(rad: real): (deg: real)
    ensures deg / 180.0 == rad / PI
    ensures 0.0 <= rad <= PI ==> 0.0 <= deg <= 180.0
  {
    rad * 180.0 / PI
  }

  function Min(a: real, b: real): real {
    if a < b then a else b
  }

  /**
   * In `outlineShape`, the reach of the rounding along each leg, the configured
   * radius clamped to half of each leg's length. It is the smallest of the
   * three.
   */
  function Reach(radius: real, srcLength: real, tgtLength: real): (dist: real)
    ensures dist <= radius && dist <= srcLength / 2.0 && dist <= tgtLength / 2.0
    ensures dist == radius || dist == srcLength / 2.0 || dist == tgtLength / 2.0
  {
    Min(Min(radius, srcLength / 2.0), tgtLength / 2.0)
  }

  /**
   * In `outlineShape`, the angle from the source leg to the target leg, shifted
   * by two full turns and reduced by Java's `%`. It always differs from
   * the plain difference by whole turns, and it lies in `[0, 2pi)` as soon
   * as that difference is at least `-4pi`, so that the shifted dividend is
   * not negative.
   */
  function Turn(srcTheta: real, tgtTheta: real): (turn: real)
    ensures Coterminal(turn, tgtTheta - srcTheta)
    ensures -2.0 * TwoPi <= tgtTheta - srcTheta ==> 0.0 <= turn < TwoPi
  {
    var n := tgtTheta - srcTheta + 2.0 * TwoPi;
    var turn := RemTwoPi(n);
    var k := (n - turn) / TwoPi;
    assert (turn - (tgtTheta - srcTheta)) / TwoPi == 2.0 - k;
    WholeShift(k, 2);
    turn
  }

  /**
   * In `outlineShape`, the minor angle between the legs. For a turn in
   * `[0, 2pi)` it lies in `[0, pi]`, and it is the turn itself or the turn
   * taken the other way round.
   */
  function MinorArc(turn: real): (arc: real)
    ensures 0.0 <= turn < TwoPi ==> 0.0 <= arc <= PI
    ensures Coterminal(arc, turn) || Coterminal(arc, -turn)
  {
    if turn < PI then turn else TwoPi - turn
  }

  /** The reference leg: the one from which the minor angle is measured. */
  function ReferenceLeg(c: Corner): PolarPoint {
    if c.src2tgt then c.srcP else c.tgtP
  }

  /** The other leg: the one at which the minor angle ends. */
  function OtherLeg(c: Corner): PolarPoint {
    if c.src2tgt then c.tgtP else c.srcP
  }

  /**
   * The body of the loop in `outlineShape` for one bend point, up to the
   * draw calls. The reach `dist` is the smallest of the radius and half of
   * each leg. The angle between the legs is normalised by the remainder
   * into `[0, 2pi)` whenever the legs' angles differ by no less than
   * `-4pi`, and the minor angle `arc` then lies in `[0, pi]`. Both tangent
   * points lie on their legs at the same distance from the bend point.
   */
  function RoundCorner(plane: Plane, radius: real, src: Point, bp: Point, tgt: Point): (c: Corner)
    ensures c.dist <= radius && c.dist <= c.srcP.r / 2.0 && c.dist <= c.tgtP.r / 2.0
    ensures Coterminal(c.turn, c.tgtP.theta - c.srcP.theta)
    ensures -2.0 * TwoPi <= c.tgtP.theta - c.srcP.theta ==> 0.0 <= c.arc <= PI
    ensures c.bpsrcP.theta == c.srcP.theta && c.bptgtP.theta == c.tgtP.theta
    ensures c.bpsrcP.r == c.bptgtP.r
    ensures c.centerP.r == c.dist
  {
    var srcP := plane.toPolar(bp, src);
    var tgtP := plane.toPolar(bp, tgt);
    var turn := Turn(srcP.theta, tgtP.theta);
    var src2tgt := turn < PI;
    var arc := MinorArc(turn);
    var dist := Reach(radius, srcP.r, tgtP.r);
    var sP := if src2tgt then srcP else tgtP;
    var centerP := PolarPoint(dist, sP.theta + arc / 2.0);
    var bpsrcP := TangentOnLeg(plane, dist, arc, srcP);
    var bptgtP := TangentOnLeg(plane, dist, arc, tgtP);
    Corner(srcP, tgtP, turn, src2tgt, arc, dist, centerP, bpsrcP, bptgtP,
           Place(plane, centerP, bp), Place(plane, bpsrcP, bp), Place(plane, bptgtP, bp),
           CircleRadius(plane, dist, arc))
  }

  /**
   * The measures of a corner: the minor angle is measured from the source
   * leg exactly when the normalised turn is below pi, both tangent points
   * lie at `dist * cos(arc / 2)` from the bend point, and the rounding
   * circle has radius `dist * sin(arc / 2)`.
   */
  lemma CornerMeasures(plane: Plane, radius: real, src: Point, bp: Point, tgt: Point)
    ensures var c := RoundCorner(plane, radius, src, bp, tgt);
      (c.src2tgt <==> c.turn < PI) &&
      c.bpsrcP.r == c.dist * plane.cos(c.arc / 2.0) &&
      c.bptgtP.r == c.dist * plane.cos(c.arc / 2.0) &&
      c.arcRadius == c.dist * plane.sin(c.arc / 2.0)
  {
  }

  /** In `outlineShape`, the tangent point on a leg, at `dist * cos(arc / 2)` from the bend point. */
  function TangentOnLeg(plane: Plane, dist: real, arc: real, leg: PolarPoint): PolarPoint {
    PolarPoint(dist * plane.cos(arc / 2.0), leg.theta)
  }

  /** In `outlineShape`, the radius of the rounding circle. */
  function CircleRadius(plane: Plane, dist: real, arc: real): real {
    dist * plane.sin(arc / 2.0)
  }

  /** In `outlineShape`, back to pixel coordinates, about the bend point. */
  function Place(plane: Plane, p: PolarPoint, bp: Point): Point {
    Translate(plane.toPoint(p), bp)
  }

  /**
   * The centre of the rounding circle lies on the bisector of the minor
   * angle: half-way along the turn `arc` that takes the reference leg onto
   * the other leg.
   */
  lemma {:induction false} CentreOnBisector(plane: Plane, radius: real, src: Point, bp: Point, tgt: Point)
    ensures var c := RoundCorner(plane, radius, src, bp, tgt);
      c.centerP.theta == ReferenceLeg(c).theta + c.arc / 2.0 &&
      Coterminal(ReferenceLeg(c).theta + c.arc, OtherLeg(c).theta)
  {
    var c := RoundCorner(plane, radius, src, bp, tgt);
    var diff := c.tgtP.theta - c.srcP.theta;
    var k := (c.turn - diff) / TwoPi;
    assert IsWhole(k);
    if c.src2tgt {
      assert (ReferenceLeg(c).theta + c.arc - OtherLeg(c).theta) / TwoPi == k;
    } else {
      assert (ReferenceLeg(c).theta + c.arc - OtherLeg(c).theta) / TwoPi == 1.0 - k;
      assert (1.0 - k).Floor == 1 - k.Floor;
    }
  }

  /**
   * `drawArc` for a corner: the bounding box of the rounding circle, to the
   * nearest pixel, and the sweep of `pi - arc` in degrees. The box is square
   * and, when the minor angle lies in `[0, pi]`, the sweep lies in
   * `[0, 180]` degrees.
   */
  function ArcOf(c: Corner): (op: DrawOp)
    ensures op.Arc? && op.width == op.height
    ensures (op.x as real) - 0.5 <= (c.center.x as real) - c.arcRadius < (op.x as real) + 0.5
    ensures (op.y as real) - 0.5 <= (c.center.y as real) - c.arcRadius < (op.y as real) + 0.5
    ensures (op.width as real) - 0.5 <= 2.0 * c.arcRadius < (op.width as real) + 0.5
    ensures var start := ToDeg((PI + c.arc) / 2.0 + c.centerP.theta);
      (op.startAngle as real) - 0.5 <= start < (op.startAngle as real) + 0.5
    ensures (op.arcAngle as real) - 0.5 <= ToDeg(PI - c.arc) < (op.arcAngle as real) + 0.5
    ensures 0.0 <= c.arc <= PI ==> 0 <= op.arcAngle <= 180
  {
    Arc(Round((c.center.x as real) - c.arcRadius),
        Round((c.center.y as real) - c.arcRadius),
        Round(c.arcRadius * 2.0),
        Round(c.arcRadius * 2.0),
        Round(ToDeg((PI + c.arc) / 2.0 + c.centerP.theta)),
        Round(ToDeg(PI - c.arc)))
  }

  /**
   * Measured from the other leg, a turn that is not zero becomes its
   * complement to a full turn.
   */
  lemma {:induction false} TurnReversed(srcTheta: real, tgtTheta: real)
    requires -2.0 * TwoPi <= tgtTheta - srcTheta <= 2.0 * TwoPi
    requires Turn(srcTheta, tgtTheta) != 0.0
    ensures Turn(tgtTheta, srcTheta) == TwoPi - Turn(srcTheta, tgtTheta)
  {
    var turn := Turn(srcTheta, tgtTheta);
    var n' := srcTheta - tgtTheta + 2.0 * TwoPi;
    var k := (turn - (tgtTheta - srcTheta)) / TwoPi;
    assert IsWhole(k);
    assert (n' - (TwoPi - turn)) / TwoPi == k + 1.0;
    WholeShift(k, 1);
    RemTwoPiUnique(n', TwoPi - turn);
  }

  /**
   * Rounding a bend is independent of the direction of travel: walking the
   * corner from `tgt` to `src` gives the same minor angle, reach, centre
   * and arc, with the two tangent points exchanged. This holds whenever
   * the legs' angles differ by at most `4pi` either way (as they do for
   * angles in `[-pi, pi]`) and the corner is neither a straight run
   * (`turn == pi`) nor a fold-back onto the incoming leg (`turn == 0`).
   */
  lemma {:induction false} ReversedCorner(plane: Plane, radius: real, src: Point, bp: Point, tgt: Point)
    requires var d := plane.toPolar(bp, tgt).theta - plane.toPolar(bp, src).theta;
      -2.0 * TwoPi <= d <= 2.0 * TwoPi
    requires RoundCorner(plane, radius, src, bp, tgt).turn != 0.0
    requires RoundCorner(plane, radius, src, bp, tgt).turn != PI
    ensures var c := RoundCorner(plane, radius, src, bp, tgt);
      var r := RoundCorner(plane, radius, tgt, bp, src);
      r.arc == c.arc && r.dist == c.dist && r.centerP == c.centerP && r.center == c.center &&
      r.bpsrc == c.bptgt && r.bptgt == c.bpsrc && ArcOf(r) == ArcOf(c)
  {
    var c := RoundCorner(plane, radius, src, bp, tgt);
    var r := RoundCorner(plane, radius, tgt, bp, src);
    TurnReversed(c.srcP.theta, c.tgtP.theta);
    assert r.turn == TwoPi - c.turn;
    assert r.arc == c.arc && r.dist == c.dist;
    assert r.centerP == c.centerP && r.arcRadius == c.arcRadius;
  }

  /**
   * A bend the path runs straight through (a turn of exactly pi) is not
   * dropped: its minor angle is pi, measured from the target leg, both
   * tangent points sit at `dist * cos(pi / 2)` from the bend point, and the
   * arc drawn sweeps 0 degrees on a circle of radius `dist * sin(pi / 2)`.
   */
  lemma StraightThrough(plane: Plane, radius: real, src: Point, bp: Point, tgt: Point)
    requires RoundCorner(plane, radius, src, bp, tgt).turn == PI
    ensures var c := RoundCorner(plane, radius, src, bp, tgt);
      c.arc == PI && !c.src2tgt &&
      c.bpsrcP.r == c.dist * plane.cos(PI / 2.0) &&
      c.arcRadius == c.dist * plane.sin(PI / 2.0) &&
      ArcOf(c).arcAngle == 0
  {
    var c := RoundCorner(plane, radius, src, bp, tgt);
    assert ToDeg(PI - c.arc) == 0.0;
  }
}
