# Rounded polyline connections

Archi draws the connections of an ArchiMate diagram as polylines. When the
"use rounded connections" preference is on, `RoundedPolylineConnection`
replaces its `PolylineConnection` superclass's `outlineShape` with a renderer
that rounds every bend point:

- It walks the points with a running start point `src`.
- At each interior point `bp` it looks at the two legs, `src` and the next
  point `tgt`, in polar coordinates about `bp`.
- It normalises the angle between the legs with `%` and takes the minor
  angle `arc`.
- It clamps the reach `dist` to the configured radius and to half of each
  leg.
- It draws a line from `src` to the tangent point on the incoming leg, then
  an arc of the circle centred on the bisector.
- It continues from the tangent point on the outgoing leg.
- The last point is joined by a plain line.

The project models that renderer:

- `Numerics` holds Java's `Math.PI`, the truncating `%` by `2 * Math.PI` and
  `Math.round`, over exact reals.
- `Geometry` holds draw2d `Point`, `PolarPoint` and the two `Graphics`
  calls as values. `Plane` holds the collaborators whose code is not part of
  this model: the polar conversions, `Math.sin` and `Math.cos`. They are
  kept uninterpreted, so every property proved holds for any implementation
  of them.
- `RoundedCorner` holds the computation for one bend point and `to_deg`.
- `RoundedPolylineConnection` holds:
  - the draw calls of a whole polyline as a specification function;
  - the loop of `outlineShape` as a method proved equal to it;
  - the properties of the trace: chaining, alternation, counts and sweep
    bounds.

The `Graphics` argument is replaced by the sequence of draw calls made.
The preference flag and the `radius` field (initially 20) are parameters.

Where the behaviour of the code is narrower than one might expect, the
model follows the code:

- Every interior point draws a line and an arc, even when the bend is
  degenerate. A straight run through a point still draws a zero-degree arc
  on a circle of radius `dist * sin(pi/2)` (`RoundedCorner.StraightThrough`).
  No corner is ever dropped (`RoundedPolylineConnection.OutlineCounts`).
- With rounding off, the method draws nothing itself: it hands over to
  `PolylineConnection.outlineShape` (`Delegated`).

## Model

| member | source | states |
|---|---|---|
| Numerics.RemTwoPi | uk.ac.bolton.archimate.editor/src/uk/ac/bolton/archimate/editor/diagram/figures/connections/roundedbendpoint/RoundedPolylineConnection.java:81 | `x % (2.0*Math.PI)` differs from `x` by whole turns and takes the dividend's sign: in `[0, 2pi)` for `x >= 0`, in `(-2pi, 0]` for `x <= 0` |
| Numerics.RemTwoPiUnique | uk.ac.bolton.archimate.editor/src/uk/ac/bolton/archimate/editor/diagram/figures/connections/roundedbendpoint/RoundedPolylineConnection.java:81 | for a non-negative dividend the remainder is the unique value in `[0, 2pi)` coterminal with it |
| Numerics.Round | uk.ac.bolton.archimate.editor/src/uk/ac/bolton/archimate/editor/diagram/figures/connections/roundedbendpoint/RoundedPolylineConnection.java:117-122 | `Math.round(v)` is the integer `n` with `n - 1/2 <= v < n + 1/2` |
| RoundedCorner.ToDeg | uk.ac.bolton.archimate.editor/src/uk/ac/bolton/archimate/editor/diagram/figures/connections/roundedbendpoint/RoundedPolylineConnection.java:129-131 | `to_deg` keeps the ratio to a half turn (`deg/180 == rad/pi`) and maps `[0, pi]` into `[0, 180]` |
| RoundedCorner.Turn | uk.ac.bolton.archimate.editor/src/uk/ac/bolton/archimate/editor/diagram/figures/connections/roundedbendpoint/RoundedPolylineConnection.java:80-81 | the normalised angle between the legs is coterminal with `tgt_p.theta - src_p.theta`, and lies in `[0, 2pi)` whenever that difference is at least `-4pi` |
| RoundedCorner.MinorArc | uk.ac.bolton.archimate.editor/src/uk/ac/bolton/archimate/editor/diagram/figures/connections/roundedbendpoint/RoundedPolylineConnection.java:83-84 | the minor angle is the turn or its opposite up to whole turns, and lies in `[0, pi]` for a turn in `[0, 2pi)` |
| RoundedCorner.Reach | uk.ac.bolton.archimate.editor/src/uk/ac/bolton/archimate/editor/diagram/figures/connections/roundedbendpoint/RoundedPolylineConnection.java:87-90 | `dist` is at most the radius and half of each leg, and equals one of the three |
| RoundedCorner.RoundCorner | uk.ac.bolton.archimate.editor/src/uk/ac/bolton/archimate/editor/diagram/figures/connections/roundedbendpoint/RoundedPolylineConnection.java:72-110 | for one bend: the reach is clamped by the radius and both half-legs; the turn is coterminal with the legs' difference; the minor angle lies in `[0, pi]` when the difference is at least `-4pi`; the tangent points lie on their legs at equal distances; the centre is `dist` from the bend point |
| RoundedCorner.CornerMeasures | uk.ac.bolton.archimate.editor/src/uk/ac/bolton/archimate/editor/diagram/figures/connections/roundedbendpoint/RoundedPolylineConnection.java:83-116 | `src2tgt` holds exactly when the normalised turn is below `pi`; both tangent points lie at `dist * cos(arc/2)` from the bend point; the circle's radius is `dist * sin(arc/2)` |
| RoundedCorner.CentreOnBisector | uk.ac.bolton.archimate.editor/src/uk/ac/bolton/archimate/editor/diagram/figures/connections/roundedbendpoint/RoundedPolylineConnection.java:80-101 | the centre's angle is the reference leg's angle plus half the minor angle, and turning the reference leg by the minor angle reaches the other leg (up to whole turns): the centre lies on the bisector |
| RoundedCorner.ArcOf | uk.ac.bolton.archimate.editor/src/uk/ac/bolton/archimate/editor/diagram/figures/connections/roundedbendpoint/RoundedPolylineConnection.java:116-122 | `drawArc` gets, each to the nearest integer: the box's corner at the circle's centre minus its radius, a square box of side `2 * arc_radius`, the start angle `to_deg((pi + arc)/2 + center_p.theta)` and the sweep `to_deg(pi - arc)`; the sweep lies in `[0, 180]` degrees when the minor angle lies in `[0, pi]` |
| RoundedCorner.TurnReversed | uk.ac.bolton.archimate.editor/src/uk/ac/bolton/archimate/editor/diagram/figures/connections/roundedbendpoint/RoundedPolylineConnection.java:80-81 | for a difference within `4pi` either way, swapping the legs turns a non-zero turn into its complement to a full turn |
| RoundedCorner.ReversedCorner | uk.ac.bolton.archimate.editor/src/uk/ac/bolton/archimate/editor/diagram/figures/connections/roundedbendpoint/RoundedPolylineConnection.java:72-122 | walking a bend the other way gives the same minor angle, reach, centre and `drawArc` call, with the tangent points exchanged (turn neither `0` nor `pi`) |
| RoundedCorner.StraightThrough | uk.ac.bolton.archimate.editor/src/uk/ac/bolton/archimate/editor/diagram/figures/connections/roundedbendpoint/RoundedPolylineConnection.java:83-122 | a turn of exactly `pi` gives a minor angle of `pi` measured from the target leg, tangent points at `dist * cos(pi/2)`, a circle of radius `dist * sin(pi/2)` and a 0-degree sweep |
| RoundedPolylineConnection.RoundedRun | uk.ac.bolton.archimate.editor/src/uk/ac/bolton/archimate/editor/diagram/figures/connections/roundedbendpoint/RoundedPolylineConnection.java:61-125 | from index `i` the loop makes `2(n - i) - 1` calls, none when `i == n`, the first a line from the running start point |
| RoundedPolylineConnection.RunEnd | uk.ac.bolton.archimate.editor/src/uk/ac/bolton/archimate/editor/diagram/figures/connections/roundedbendpoint/RoundedPolylineConnection.java:65-69 | a run that draws anything ends with a line to the last point |
| RoundedPolylineConnection.Outline | uk.ac.bolton.archimate.editor/src/uk/ac/bolton/archimate/editor/diagram/figures/connections/roundedbendpoint/RoundedPolylineConnection.java:44-126 | it delegates exactly when rounding is off; zero or one point draws nothing; `n >= 2` points draw `2n - 3` calls, from a line leaving the first point to a line reaching the last |
| RoundedPolylineConnection.OutlineShape | uk.ac.bolton.archimate.editor/src/uk/ac/bolton/archimate/editor/diagram/figures/connections/roundedbendpoint/RoundedPolylineConnection.java:44-56 | the method's outcome is `Outline` of its inputs |
| RoundedPolylineConnection.DrawRun | uk.ac.bolton.archimate.editor/src/uk/ac/bolton/archimate/editor/diagram/figures/connections/roundedbendpoint/RoundedPolylineConnection.java:58-126 | the loop, with its running start point, makes exactly the calls of `RoundedRun` from the first point |
| RoundedPolylineConnection.RunSuffix | uk.ac.bolton.archimate.editor/src/uk/ac/bolton/archimate/editor/diagram/figures/connections/roundedbendpoint/RoundedPolylineConnection.java:59-125 | the calls from position `2(i - 1)` on are the run from index `i` started at the running point `src` the loop holds there |
| RoundedPolylineConnection.OutlineAt | uk.ac.bolton.archimate.editor/src/uk/ac/bolton/archimate/editor/diagram/figures/connections/roundedbendpoint/RoundedPolylineConnection.java:61-125 | at interior point `i` the calls `2i - 2`, `2i - 1` are the line from `src` to the incoming tangent point and the corner's arc, and the next line starts at the outgoing tangent point; at the last point the call is the line from `src` to it |
| RoundedPolylineConnection.RunAlternates | uk.ac.bolton.archimate.editor/src/uk/ac/bolton/archimate/editor/diagram/figures/connections/roundedbendpoint/RoundedPolylineConnection.java:61-125 | from any index, lines sit exactly at the even positions and arcs at the odd ones |
| RoundedPolylineConnection.OutlineAlternates | uk.ac.bolton.archimate.editor/src/uk/ac/bolton/archimate/editor/diagram/figures/connections/roundedbendpoint/RoundedPolylineConnection.java:61-125 | the outline alternates line, arc, line, ... |
| RoundedPolylineConnection.AlternatingCounts | uk.ac.bolton.archimate.editor/src/uk/ac/bolton/archimate/editor/diagram/figures/connections/roundedbendpoint/RoundedPolylineConnection.java:61-125 | an alternating trace of odd length `m` holds `(m + 1)/2` lines and `(m - 1)/2` arcs |
| RoundedPolylineConnection.RunCounts | uk.ac.bolton.archimate.editor/src/uk/ac/bolton/archimate/editor/diagram/figures/connections/roundedbendpoint/RoundedPolylineConnection.java:61-125 | for any computation at the bends, `n >= 2` points give `n - 1` lines and `n - 2` arcs |
| RoundedPolylineConnection.OutlineCounts | uk.ac.bolton.archimate.editor/src/uk/ac/bolton/archimate/editor/diagram/figures/connections/roundedbendpoint/RoundedPolylineConnection.java:61-125 | `n >= 2` points are drawn with `n - 1` lines and `n - 2` arcs: no corner is dropped |
| RoundedPolylineConnection.RoundingMinorAngles | uk.ac.bolton.archimate.editor/src/uk/ac/bolton/archimate/editor/diagram/figures/connections/roundedbendpoint/RoundedPolylineConnection.java:75-84 | when the polar angles lie in `[-pi, pi]`, every bend's minor angle lies in `[0, pi]` |
| RoundedPolylineConnection.RunSweeps | uk.ac.bolton.archimate.editor/src/uk/ac/bolton/archimate/editor/diagram/figures/connections/roundedbendpoint/RoundedPolylineConnection.java:117-122 | when every minor angle lies in `[0, pi]`, every arc of the run sweeps between 0 and 180 degrees |
| RoundedPolylineConnection.OutlineSweeps | uk.ac.bolton.archimate.editor/src/uk/ac/bolton/archimate/editor/diagram/figures/connections/roundedbendpoint/RoundedPolylineConnection.java:117-122 | with polar angles in `[-pi, pi]`, no arc of the outline sweeps more than a half turn |

## Left out

- `PolylineConnection.outlineShape` (the superclass) is not part of this model. With rounding off the model records only that the call was handed over (`Delegated`).
- The preference store is not modelled. The flag is a parameter. The `radius` field is a parameter; its initial value is 20 and nothing in the class changes it.
- `PolarPoint` is not part of this model. `point2PolarPoint`, `toPoint`, `Math.sin` and `Math.cos` are uninterpreted fields of `Plane`. The `PolarPoint` constructor is taken to store its radius and angle unchanged.
- Geometric claims that depend on the trigonometry are not proved: the tangent points being where the circle touches the legs, and the arc's ends meeting the lines.
- `RoundingMinorAngles`: the range `[-pi, pi]` of the polar angles, which `Math.atan2` would give, is a hypothesis, since `point2PolarPoint` is not part of this model.
- Floating point is not modelled. Angles, lengths and `%` are exact reals, and `Math.PI` is its decimal value. NaN, infinities and rounding error are out of scope.
- `Numerics.Round`: the narrowing of `Math.round`'s `long` result to `int` is not modelled, and neither is `Math.round`'s saturation at the `long` range. Pixel coordinates are unbounded integers, so `Point.translate` cannot overflow.
- `Graphics` state (colour, line width, clipping) is not modelled. Only the order and arguments of `drawLine` and `drawArc` are.
- `OutlineShape` hands the loop to `DrawRun` with the rounding step `Rounding(plane, radius)` as an argument. The loop body is otherwise the source's, line for line.
- `BusinessFunctionEditPart` has no logic tied to the renderer and is not part of this model.
