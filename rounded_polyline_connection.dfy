/**
 * `RoundedPolylineConnection.outlineShape`: draws a connection's polyline
 * with every bend replaced by a circular arc. The graphics context is
 * replaced by the sequence of draw calls the method makes; the preference
 * that switches rounding on and the `radius` field are parameters.
 */
module RoundedPolylineConnection {
  import opened Numerics
  import opened Geometry
  import opened RoundedCorner

  /** What `outlineShape` does with the graphics context. */
  datatype Outcome =
    | Delegated                // rounding is off: `PolylineConnection` draws the plain polyline
    | Drawn(ops: seq<DrawOp>)  // the `drawLine` and `drawArc` calls made, in order

  /** The per-bend step of the loop: the corner computed from the running start point, the bend point and the next point. */
  type CornerStep = (Point, Point, Point) -> Corner

  /** The step `outlineShape` takes, for the given geometry and configured radius. */
  function Rounding(plane: Plane, radius: real): CornerStep {
    (src, bp, tgt) => RoundCorner(plane, radius, src, bp, tgt)
  }

  /**
   * The draw calls of the corner loop from index `i` on, with `src` the
   * running start point and `corner` the computation at each bend. Each
   * interior point contributes a line to its incoming tangent point and
   * the corner's arc; the last point is joined by a plain line. There are
   * two calls per remaining bend and one more for the last point, the
   * first of them a line from `src`.
   */
  function RoundedRun(corner: CornerStep, ps: seq<Point>, src: Point, i: nat): (ops: seq<DrawOp>)
    requires 1 <= i <= |ps|
    ensures i == |ps| ==> ops == []
    ensures i < |ps| ==> |ops| == 2 * (|ps| - i) - 1
    ensures i < |ps| ==> ops[0].Line? && ops[0].from == src
    decreases |ps| - i
  {
    if i == |ps| then
      []
    else if i == |ps| - 1 then
      [Line(src, ps[i])]
    else
      var c := corner(src, ps[i], ps[i + 1]);
      [Line(src, c.bpsrc), ArcOf(c)] + RoundedRun(corner, ps, c.bptgt, i + 1)
  }

  /**
   * What `outlineShape` draws. With rounding off it only delegates; with
   * rounding on an empty or one-point list draws nothing, and a list of
   * `n >= 2` points draws `2n - 3` calls, from the first point to the last.
   */
  function Outline(enabled: bool, plane: Plane, radius: real, ps: seq<Point>): (o: Outcome)
    ensures !enabled <==> o.Delegated?
    ensures enabled && |ps| <= 1 ==> o == Drawn([])
    ensures enabled && |ps| >= 2 ==>
      o.Drawn? && |o.ops| == 2 * |ps| - 3 &&
      o.ops[0].Line? && o.ops[0].from == ps[0] &&
      o.ops[|o.ops| - 1].Line? && o.ops[|o.ops| - 1].to == ps[|ps| - 1]
  {
    if !enabled then Delegated
    else if |ps| == 0 then Drawn([])
    else
      RunEnd(Rounding(plane, radius), ps, ps[0], 1);
      Drawn(RoundedRun(Rounding(plane, radius), ps, ps[0], 1))
  }

  /** A run that draws anything ends with a line to the last point. */
  lemma {:induction false} RunEnd(corner: CornerStep, ps: seq<Point>, src: Point, i: nat)
    requires 1 <= i <= |ps|
    ensures var ops := RoundedRun(corner, ps, src, i);
      i < |ps| ==> ops[|ops| - 1].Line? && ops[|ops| - 1].to == ps[|ps| - 1]
    decreases |ps| - i
  {
    if i < |ps| - 1 {
      var c := corner(src, ps[i], ps[i + 1]);
      RunEnd(corner, ps, c.bptgt, i + 1);
    }
  }

  /** `outlineShape`: delegates when rounding is off, otherwise walks the points. */
  method OutlineShape(enabled: bool, plane: Plane, radius: real, ps: seq<Point>) returns (o: Outcome)
    ensures o == Outline(enabled, plane, radius, ps)
  {
    if !enabled {
      return Delegated;
    }
    if |ps| == 0 {
      return Drawn([]);
    }
    var ops := DrawRun(Rounding(plane, radius), ps);
    return Drawn(ops);
  }

  /** The loop of `outlineShape` over the points, with its running start point. */
  method DrawRun(corner: CornerStep, ps: seq<Point>) returns (ops: seq<DrawOp>)
    requires |ps| >= 1
    ensures ops == RoundedRun(corner, ps, ps[0], 1)
  {
    ops := [];
    var src := ps[0];
    for i := 1 to |ps|
      invariant ops + RoundedRun(corner, ps, src, i) == RoundedRun(corner, ps, ps[0], 1)
    {
      var bp := ps[i];
      if i == |ps| - 1 {
        LastStep(corner, ps, ops, src, i);
        ops := ops + [Line(src, bp)];
        continue;
      }
      var tgt := ps[i + 1];
      var c := corner(src, bp, tgt);
      BendStep(corner, ps, ops, src, i, c);
      ops := ops + [Line(src, c.bpsrc)];
      ops := ops + [ArcOf(c)];
      src := c.bptgt;
    }
    assert ops + RoundedRun(corner, ps, src, |ps|) == ops;
  }

  /** The last point of the loop: a plain line to it, and nothing after. */
  lemma LastStep(corner: CornerStep, ps: seq<Point>, ops: seq<DrawOp>, src: Point, i: nat)
    requires 1 <= i == |ps| - 1
    ensures ops + [Line(src, ps[i])] + RoundedRun(corner, ps, src, i + 1) == ops + RoundedRun(corner, ps, src, i)
  {
  }

  /** An interior point of the loop: a line to the incoming tangent point and the arc, then the run from the outgoing one. */
  lemma BendStep(corner: CornerStep, ps: seq<Point>, ops: seq<DrawOp>, src: Point, i: nat, c: Corner)
    requires 1 <= i < |ps| - 1
    requires c == corner(src, ps[i], ps[i + 1])
    ensures ops + [Line(src, c.bpsrc)] + [ArcOf(c)] + RoundedRun(corner, ps, c.bptgt, i + 1)
      == ops + RoundedRun(corner, ps, src, i)
  {
    assert RoundedRun(corner, ps, src, i) == [Line(src, c.bpsrc), ArcOf(c)] + RoundedRun(corner, ps, c.bptgt, i + 1);
  }

  // ---- the running start point, point by point ----

  /** The running start point `src` when the loop reaches index `i`. */
  function Src(corner: CornerStep, ps: seq<Point>, i: nat): Point
    requires 1 <= i < |ps|
    decreases i, 0
  {
    if i == 1 then ps[0] else CornerAt(corner, ps, i - 1).bptgt
  }

  /** The corner the loop computes at the interior index `i`. */
  function CornerAt(corner: CornerStep, ps: seq<Point>, i: nat): Corner
    requires 1 <= i < |ps| - 1
    decreases i, 1
  {
    corner(Src(corner, ps, i), ps[i], ps[i + 1])
  }

  /** From index `i` on, the calls drawn are those of the run started at the running point. */
  lemma {:induction false} RunSuffix(corner: CornerStep, ps: seq<Point>, i: nat)
    requires 1 <= i < |ps|
    ensures 2 * (i - 1) <= |RoundedRun(corner, ps, ps[0], 1)|
    ensures RoundedRun(corner, ps, ps[0], 1)[2 * (i - 1)..] == RoundedRun(corner, ps, Src(corner, ps, i), i)
  {
    if i > 1 {
      RunSuffix(corner, ps, i - 1);
      var all := RoundedRun(corner, ps, ps[0], 1);
      var c := CornerAt(corner, ps, i - 1);
      assert all[2 * (i - 2)..] == [Line(Src(corner, ps, i - 1), c.bpsrc), ArcOf(c)]
                                   + RoundedRun(corner, ps, c.bptgt, i);
      assert all[2 * (i - 1)..] == all[2 * (i - 2)..][2..];
    }
  }

  /**
   * Chaining: at every interior point `i` the loop draws a line from the
   * running start point to the incoming tangent point, then the corner's
   * arc, and the next line starts at the outgoing tangent point. At the
   * last point it draws a line from the running start point to that point.
   */
  lemma OutlineAt(plane: Plane, radius: real, ps: seq<Point>, i: nat)
    requires 1 <= i < |ps|
    ensures var ops := Outline(true, plane, radius, ps).ops;
      ghost var corner := Rounding(plane, radius);
      2 * i - 1 <= |ops| &&
      if i < |ps| - 1 then
        var c := CornerAt(corner, ps, i);
        ops[2 * i - 2] == Line(Src(corner, ps, i), c.bpsrc) &&
        ops[2 * i - 1] == ArcOf(c) &&
        ops[2 * i].Line? && ops[2 * i].from == c.bptgt
      else
        ops[2 * i - 2] == Line(Src(corner, ps, i), ps[i])
  {
    ghost var corner := Rounding(plane, radius);
    RunSuffix(corner, ps, i);
    if i < |ps| - 1 {
      RunSuffix(corner, ps, i + 1);
    }
  }

  // ---- the order of the calls ----

  /** True when a trace alternates line, arc, line, ...: lines exactly at the even positions. */
  predicate Alternates(ops: seq<DrawOp>) {
    forall k :: 0 <= k < |ops| ==> (ops[k].Line? <==> k % 2 == 0)
  }

  /** From index `i` on, the loop alternates lines and arcs. */
  lemma {:induction false} RunAlternates(corner: CornerStep, ps: seq<Point>, src: Point, i: nat)
    requires 1 <= i <= |ps|
    ensures Alternates(RoundedRun(corner, ps, src, i))
    decreases |ps| - i
  {
    if i < |ps| - 1 {
      var c := corner(src, ps[i], ps[i + 1]);
      var ops := RoundedRun(corner, ps, src, i);
      var rest := RoundedRun(corner, ps, c.bptgt, i + 1);
      RunAlternates(corner, ps, c.bptgt, i + 1);
      assert ops == [Line(src, c.bpsrc), ArcOf(c)] + rest;
      forall k | 0 <= k < |ops|
        ensures ops[k].Line? <==> k % 2 == 0
      {
        if k >= 2 {
          assert ops[k] == rest[k - 2];
        }
      }
    }
  }

  /**
   * With rounding on, the outline alternates line, arc, line, ..., line:
   * each interior point contributes a line and then an arc.
   */
  lemma OutlineAlternates(plane: Plane, radius: real, ps: seq<Point>)
    ensures Alternates(Outline(true, plane, radius, ps).ops)
  {
    if |ps| > 0 {
      RunAlternates(Rounding(plane, radius), ps, ps[0], 1);
    }
  }

  // ---- counting the calls ----

  /** The number of `drawLine` calls in a trace. */
  function Lines(ops: seq<DrawOp>): nat {
    if ops == [] then 0 else (if ops[0].Line? then 1 else 0) + Lines(ops[1..])
  }

  /** The number of `drawArc` calls in a trace. */
  function Arcs(ops: seq<DrawOp>): nat {
    if ops == [] then 0 else (if ops[0].Arc? then 1 else 0) + Arcs(ops[1..])
  }

  lemma {:induction false} CountsAppend(a: seq<DrawOp>, b: seq<DrawOp>)
    ensures Lines(a + b) == Lines(a) + Lines(b) && Arcs(a + b) == Arcs(a) + Arcs(b)
  {
    if a == [] {
      assert a + b == b;
    } else {
      assert (a + b)[0] == a[0];
      assert (a + b)[1..] == a[1..] + b;
      CountsAppend(a[1..], b);
    }
  }

  /**
   * A trace of odd length that alternates line, arc, line, ..., line holds
   * one more line than arcs.
   */
  lemma {:induction false} AlternatingCounts(ops: seq<DrawOp>)
    requires |ops| % 2 == 1 && Alternates(ops)
    ensures Lines(ops) == (|ops| + 1) / 2 && Arcs(ops) == (|ops| - 1) / 2
  {
    if |ops| > 1 {
      var rest := ops[2..];
      assert forall k :: 0 <= k < |rest| ==> rest[k] == ops[k + 2];
      AlternatingCounts(rest);
      CountsAppend(ops[..2], rest);
      assert ops == ops[..2] + rest;
      assert ops[..2][1..][1..] == [];
    } else {
      assert ops[1..] == [];
    }
  }

  /** A polyline of `n >= 2` points is drawn with `n - 1` lines and `n - 2` arcs. */
  lemma OutlineCounts(plane: Plane, radius: real, ps: seq<Point>)
    requires |ps| >= 2
    ensures Lines(Outline(true, plane, radius, ps).ops) == |ps| - 1
    ensures Arcs(Outline(true, plane, radius, ps).ops) == |ps| - 2
  {
    RunCounts(Rounding(plane, radius), ps);
  }

  /** For any step at the bends, `n >= 2` points give `n - 1` lines and `n - 2` arcs. */
  lemma RunCounts(corner: CornerStep, ps: seq<Point>)
    requires |ps| >= 2
    ensures Lines(RoundedRun(corner, ps, ps[0], 1)) == |ps| - 1
    ensures Arcs(RoundedRun(corner, ps, ps[0], 1)) == |ps| - 2
  {
    RunAlternates(corner, ps, ps[0], 1);
    AlternatingCounts(RoundedRun(corner, ps, ps[0], 1));
  }

  // ---- the arcs drawn ----

  /** The polar angles `point2PolarPoint` returns lie in `[-pi, pi]`, as `Math.atan2`'s do. */
  ghost predicate AnglesInRange(plane: Plane) {
    forall origin: Point, p: Point :: -PI <= plane.toPolar(origin, p).theta <= PI
  }

  /** True when every corner the step computes has its minor angle in `[0, pi]`. */
  ghost predicate MinorAngles(corner: CornerStep) {
    forall src: Point, bp: Point, tgt: Point :: 0.0 <= corner(src, bp, tgt).arc <= PI
  }

  /** When the polar angles lie in `[-pi, pi]`, every corner's minor angle lies in `[0, pi]`. */
  lemma RoundingMinorAngles(plane: Plane, radius: real)
    requires AnglesInRange(plane)
    ensures MinorAngles(Rounding(plane, radius))
  {
    forall src: Point, bp: Point, tgt: Point
      ensures 0.0 <= Rounding(plane, radius)(src, bp, tgt).arc <= PI
    {
      var c := RoundCorner(plane, radius, src, bp, tgt);
      assert -PI <= c.srcP.theta <= PI && -PI <= c.tgtP.theta <= PI;
    }
  }

  /** True when every arc of a trace sweeps between 0 and 180 degrees. */
  predicate HalfTurnSweeps(ops: seq<DrawOp>) {
    forall k :: 0 <= k < |ops| && ops[k].Arc? ==> 0 <= ops[k].arcAngle <= 180
  }

  /** When every minor angle lies in `[0, pi]`, every arc the loop draws sweeps between 0 and 180 degrees. */
  lemma {:induction false} RunSweeps(corner: CornerStep, ps: seq<Point>, src: Point, i: nat)
    requires MinorAngles(corner)
    requires 1 <= i <= |ps|
    ensures HalfTurnSweeps(RoundedRun(corner, ps, src, i))
    decreases |ps| - i
  {
    if i < |ps| - 1 {
      var c := corner(src, ps[i], ps[i + 1]);
      var ops := RoundedRun(corner, ps, src, i);
      var rest := RoundedRun(corner, ps, c.bptgt, i + 1);
      RunSweeps(corner, ps, c.bptgt, i + 1);
      assert 0.0 <= c.arc <= PI;
      assert ops == [Line(src, c.bpsrc), ArcOf(c)] + rest;
      forall k | 0 <= k < |ops| && ops[k].Arc?
        ensures 0 <= ops[k].arcAngle <= 180
      {
        if k == 1 {
          assert ops[k] == ArcOf(c);
        } else if k >= 2 {
          assert ops[k] == rest[k - 2];
        }
      }
    }
  }

  /** With rounding on and angles in `[-pi, pi]`, no arc of the outline sweeps more than a half turn. */
  lemma OutlineSweeps(plane: Plane, radius: real, ps: seq<Point>)
    requires AnglesInRange(plane)
    ensures HalfTurnSweeps(Outline(true, plane, radius, ps).ops)
  {
    if |ps| > 0 {
      RoundingMinorAngles(plane, radius);
      RunSweeps(Rounding(plane, radius), ps, ps[0], 1);
    }
  }
}
