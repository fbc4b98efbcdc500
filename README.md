# Geometry pipeline of a 2D/3D tkinter editor, in Dafny

This project models the geometry core of a small Python graphics editor and
proves properties of it. The editor keeps a *display file*, an ordered list
of named graphic objects (points, lines, polygons and Bézier curves). It
keeps a world-coordinate *window*, which the user moves, drags, zooms and
rotates, and a fixed *viewport* on the canvas. On each redraw every object
is clipped against the window and mapped into the viewport. Objects are
clipped as follows:

- a point is clipped by a point test;
- a line by Cohen-Sutherland or Liang-Barsky, as the user chooses;
- a polygon by Sutherland-Hodgman;
- a Bézier curve by depth-bounded adaptive de Casteljau subdivision.

Objects are changed by queues of translation, scaling and rotation steps,
all composed into one 3×3 matrix (row vectors, `p · M`). The object module
also defines:

- uniform cubic B-splines drawn by forward differences;
- 3D points and wire-frame objects;
- bicubic Bézier patches meshed on a grid and clipped by an inline
  Cohen-Sutherland.

An older editor keeps the same kind of window, without rotation, and maps
it with an aspect-ratio test.

All coordinates are `real`.

Modules:

- `Geometry`: points, rectangles, Option/Result, and the flattened device
  coordinate list used to draw.
- `Naming`: the global name counter and decimal names.
- `Clipping`: outcodes and Cohen-Sutherland.
- `LiangBarsky`.
- `PolygonClipping`: Sutherland-Hodgman.
- `Bezier`: `Curve2D`.
- `BSplines`.
- `Solids`: `Ponto3D`, `Objeto3D` and `BezierPatch`.
- `Transforms`: matrices, `generate_matrix`, the composed queue and the
  centroid.
- `Viewing`: the window operations both editors share, each as a function
  from the old window to the new one.
- `Scene`: display-file search, deletion, per-object transformation, and the
  name and shape invariants.
- `Editor`: the `GraphicsSystem` class of `graphics_system.py`.
- `LegacyEditor`: the `GraphicsSystem` class of `grapgics_system.py`.

The editors are classes whose methods update the window, the display file
and the other settings in place. The algorithms that loop in the source
(the clipping loops, subdivision, forward differencing, deduplication and
accumulation) are methods with loop invariants. Each is proved equal to a
specification function, and the lemmas are stated about that function.

Where the code and its documentation differ, the model follows the code.

- The first Liang-Barsky endpoint is overwritten before the second endpoint
  is computed, and the editor runs that clipper. A line clipped in
  Liang-Barsky mode therefore has its first endpoint in the window, but its
  second endpoint can lie outside it (see Findings). The corrected clipper
  is modelled and proved beside it.
- A `BSpline` takes a name from the counter before validating its input, so
  a rejected spline still uses up a number.
- A clipped `Line` loses its colour, because the clipper builds it with the
  default colour. A clipped `Polygon` keeps its colour and fill flag.

## Model

| member | source | states |
|---|---|---|
| Geometry.Flattened | objects.py:47-67 | the device list has two numbers per point in order; with three or more points the first point is repeated at the end to close the outline |
| Geometry.GetCoordinates | graphics_system.py:40-49 | the loop that extends the list point by point builds exactly `Flattened` |
| Naming.Decimal | graphics_system.py:18-20 | the counter value in a name is a non-empty run of decimal digits |
| Naming.DecimalInjective | graphics_system.py:18-20 | different counter values give different digit strings |
| Naming.NamesDistinct | graphics_system.py:18-20 | two names with one-letter prefixes and different counter values differ, whatever the prefixes |
| Naming.NameCounter.Fresh | graphics_system.py:18-20 | the shared counter goes up by one and the name is the prefix followed by the new value |
| Naming.NameCounter.Reset | graphics_system.py:51-53 | the counter returns to 0 |
| Clipping.OutCode | graphics_system.py:1193-1204 | the code is INSIDE exactly when the point is in the window, bounds included; LEFT and RIGHT are never both set, nor BOTTOM and TOP |
| Clipping.OutCodeBits | graphics_system.py:1193-1204 | each bit is set under exactly its `if`/`elif` condition |
| Clipping.PartialDistinct | graphics_system.py:1222-1235 | when the partial case picks a horizontal edge the y values differ, otherwise the x values differ, so the guarded divisions are never the fallback |
| Clipping.CsIntersectionFacts | graphics_system.py:1222-1235 | the computed point lies on the chosen edge and between the two endpoints, or the next step is a trivial reject |
| Clipping.CsStepDecreases | graphics_system.py:1212-1242 | each pass of the `while True` loop strictly lowers the number of set outcode bits, so the loop ends |
| Clipping.CohenSutherlandSound | graphics_system.py:1206-1242 | an accepted line has both endpoints in the window and inside the bounding box of the input line |
| Clipping.CohenSutherland | graphics_system.py:1206-1242 | the loop returns the input unchanged when both codes are 0, None when the codes share a bit, and otherwise a line with both endpoints inside |
| LiangBarsky.LbRangeOf | graphics_system.py:1255-1267 | when the scan accepts, `0 <= u1 <= u2 <= 1` |
| LiangBarsky.LbScanBounds | graphics_system.py:1255-1267 | `u1` never drops below 0 and `u2` never rises above 1 |
| LiangBarsky.LbRejectSticky | graphics_system.py:1257-1267 | once a boundary rejects, the later ones cannot undo it |
| LiangBarsky.LbScanSound | graphics_system.py:1256-1265 | every parameter between `u1` and `u2` meets every boundary inequality scanned |
| LiangBarsky.LbScanComplete | graphics_system.py:1256-1267 | every parameter in [0, 1] meeting all boundary inequalities lies between `u1` and `u2` |
| LiangBarsky.PointAtInside | graphics_system.py:1247-1253 | a point of the line is in the window exactly when its parameter meets the four `u·p_i <= q_i` inequalities |
| LiangBarsky.LiangBarskyExact | graphics_system.py:1244-1267 | for `u` in [0, 1], the point at `u` is in the window exactly when the scan accepts and `u1 <= u <= u2` |
| LiangBarsky.LiangBarskyInside | graphics_system.py:1244-1273 | the corrected clipper returns a line with both endpoints inside the window |
| LiangBarsky.LiangBarskyKeepsInside | graphics_system.py:1244-1273 | a line fully inside comes back unchanged (`u1 = 0`, `u2 = 1`) |
| LiangBarsky.LiangBarskyAsWrittenOvershoots | graphics_system.py:1269-1272 | for a concrete line the code as written returns a second endpoint outside the window, while the corrected clipper returns the visible piece |
| LiangBarsky.ScanBoundaries | graphics_system.py:1255-1267 | the loop over the four `(p_i, q_i)` returns None exactly on the scan's rejection (a `p_i = 0` with `q_i < 0`, or `u1 > u2`), and otherwise the scan's range |
| LiangBarsky.LiangBarskyClip | graphics_system.py:1244-1273 | the corrected clipper (both endpoints from the original start) returns the intended result, and any line it returns lies inside the window |
| LiangBarsky.LiangBarskyAsWrittenAccepts | graphics_system.py:1244-1268 | as written and corrected, the clipper accepts exactly the lines whose scan leaves a range |
| LiangBarsky.LiangBarskyAsWrittenVsSpec | graphics_system.py:1244-1273 | for a surviving range `[u1, u2]` both clippers start at the line's point at `u1`; as written the second endpoint is the point at `u1 + u2` instead of `u2`, and the two agree exactly when `u1 = 0` or the line has no length |
| LiangBarsky.LiangBarskyAsWrittenFirstInside | graphics_system.py:1269-1270 | the first endpoint the code returns is in the window |
| LiangBarsky.LiangBarskyAsWrittenKeepsInside | graphics_system.py:1244-1273 | as written too, a line fully inside comes back unchanged |
| LiangBarsky.LiangBarskyClipAsWritten | graphics_system.py:1244-1273 | the scan, then the overwrite of `x1`, `y1` before `x2`, `y2` are computed, returns exactly the clipper as written: it accepts the lines the corrected clipper accepts, its first endpoint is inside, and its second is the point at `u1 + u2` |
| PolygonClipping.InsideAllEdges | graphics_system.py:1138-1141 | a point is in the window exactly when all four edge tests hold |
| PolygonClipping.VerticalIntersection | graphics_system.py:1163-1176 | an intersection with a vertical boundary has `x` on the boundary and `y` between the endpoints' |
| PolygonClipping.HorizontalIntersection | graphics_system.py:1163-1183 | an intersection with a horizontal boundary has `y` on the boundary and `x` between the endpoints'; a vertical edge keeps `x = x1` |
| PolygonClipping.Intersection | graphics_system.py:1163-1183 | `compute_intersection` of an edge that crosses a boundary lies on that boundary line and within the edge's bounding box |
| PolygonClipping.ClipEdgeInside | graphics_system.py:1144-1160 | every vertex a stage emits passes that stage's edge test |
| PolygonClipping.ClipEdgeKeeps | graphics_system.py:1144-1160 | a stage keeps the earlier stages' edge tests true |
| PolygonClipping.ClipEdgeIdentity | graphics_system.py:1144-1160 | when every vertex passes the test, the stage returns the vertices unchanged |
| PolygonClipping.ClipEdgeOutside | graphics_system.py:1144-1160 | when no vertex passes the test, the stage returns `[]` |
| PolygonClipping.ClipEdgeLength | graphics_system.py:1147-1159 | a stage emits at most two vertices per input vertex |
| PolygonClipping.ClipEdge | graphics_system.py:1144-1160 | the loop with `prev = vertices[i - 1]` (wrapping to the last vertex) builds the stage's output; every vertex in it is inside the edge |
| PolygonClipping.ClipPolygonInside | graphics_system.py:1186-1191 | every vertex of a clipped polygon is in the window |
| PolygonClipping.ClipPolygonKeepsInside | graphics_system.py:1186-1191 | a non-empty polygon fully inside comes back with the same vertex sequence |
| PolygonClipping.ClipPolygonDropsOutside | graphics_system.py:1186-1191 | a polygon wholly beyond one edge is rejected |
| PolygonClipping.ClipStagesSticky | graphics_system.py:1187-1190 | once a stage leaves no vertices the result is None |
| PolygonClipping.ClipPolygon | graphics_system.py:1186-1191 | the four-stage loop returns the specification's result; an accepted polygon is non-empty and inside the window |
| Bezier.Linspace | graphics_system.py:135 | the sample parameters lie in [0, 1], starting at 0 and ending at 1 |
| Bezier.BezierEnds | graphics_system.py:136-143 | the cubic passes through the first and fourth control points |
| Bezier.BernsteinInRange | graphics_system.py:136-143 | a coordinate of the curve lies between the bounds of its four control coordinates |
| Bezier.BezierInHull | graphics_system.py:167-173 | a segment whose control points are all in the window draws only points in the window |
| Bezier.ComputeBezierPoints | graphics_system.py:133-145 | `steps` points, point `k` on the cubic at parameter `k / (steps - 1)`; the ends are the first and last control points |
| Bezier.Segments | graphics_system.py:122-131 | the windows `coordinates[3j .. 3j + 4]`, one for each `i = 3j` with `i + 3 < n`; what the editor relies on about them is proved in `SegmentsOfValidCurve` and `SegmentsShort` |
| Bezier.SegmentsOfValidCurve | graphics_system.py:122-131 | for `n >= 4` with `(n - 4) % 3 == 0` there are `(n - 1) / 3` segments, each ending where the next starts, from the first control point to the last |
| Bezier.SegmentsShort | graphics_system.py:125-126 | fewer than four points give no segments |
| Bezier.GetBezierSegments | graphics_system.py:122-131 | the `while i + 3 < n` loop builds exactly those segments |
| Bezier.Split | graphics_system.py:192-208 | both halves have the input's length; the left starts at P0, the right ends at the last point, and the two halves meet |
| Bezier.SplitFour | graphics_system.py:192-208 | for four points, the halves are the midpoint levels of de Casteljau, point by point |
| Bezier.SplitTracesCurve | graphics_system.py:192-208 | the left half traces the curve on [0, 1/2] and the right half on [1/2, 1] |
| Bezier.MidpointLevel | graphics_system.py:195-202 | one level of midpoints |
| Bezier.DeCasteljauSplit | graphics_system.py:192-208 | the `while` loop growing the levels list returns `Split` |
| Bezier.ClipSegmentCount | graphics_system.py:153-165 | a segment clipped with depth `d` appends at most `2^d` pieces |
| Bezier.ClipSegmentPieces | graphics_system.py:153-165 | each appended piece has four points, and every control point of it is in the window or one of its ten samples is |
| Bezier.ClipSegmentSplits | graphics_system.py:153-165 | the unfolding step of `ClipSegmentSpec` that `Curve2D.ClipSegment` relies on: above depth 0 a segment that is not fully inside is never appended as it is: what is appended is the pieces of its left half, then those of its right half, one depth lower |
| Bezier.ClipSegmentOnCurve | graphics_system.py:153-165 | every point of every appended piece is a point of the input segment |
| Bezier.ClipSegmentKeepsInside | graphics_system.py:153-161 | above depth 0 a fully inside segment is appended whole; at depth 0 a segment is appended exactly when visible |
| Bezier.ClipSegmentInsideAnyDepth | graphics_system.py:153-161 | a fully inside segment is appended whole at every depth |
| Bezier.IsFullyInside | graphics_system.py:167-173 | the loop answers whether every control point is in the window |
| Bezier.IsVisible | graphics_system.py:175-190 | the loop answers whether one of the ten sampled curve points is in the window |
| Bezier.Curve2D.constructor | graphics_system.py:100-105 | the curve takes the next "C" name and starts with an empty clipped buffer |
| Bezier.Curve2D.ClipSegment | graphics_system.py:153-165 | the recursive method appends exactly the specification's pieces to `clipped_segments` and changes nothing else |
| Bezier.Curve2D.Clip | graphics_system.py:147-151 | `clip` empties the buffer and then holds the pieces of every segment in order |
| BSplines.AxisCoefficients | objects.py:332-348 | the cubic from the four coefficients starts at `(p0 + 4p1 + p2) / 6` and ends at `(p1 + 4p2 + p3) / 6` |
| BSplines.CoefficientsAreBasis | objects.py:332-348 | the coefficients give the uniform cubic B-spline blend of the four control values at every `t` |
| BSplines.SegmentsJoin | objects.py:268-277 | consecutive segments meet: one ends where the next begins |
| BSplines.ThirdDifference | objects.py:303 | the third forward difference of the cubic with step `h` is the constant `6a·h³` |
| BSplines.InitialDifferences | objects.py:293-316 | the starting value and first and second differences are those of the cubic at `0, h, 2h` |
| BSplines.MarchStep | objects.py:319-327 | one pass of the update keeps the marching state on the cubic, one step further |
| BSplines.SegmentSpec | objects.py:279-282 | `[]` unless there are exactly four control points, otherwise `steps` points |
| BSplines.ComputeSegment | objects.py:279-329 | forward differencing yields exactly point `k` = the cubic at `t = k / steps`, for every `k` |
| BSplines.DedupSubsequence | objects.py:350-358 | duplicate removal returns a subsequence of its input |
| BSplines.DedupKeepsFirst | objects.py:350-358 | the first point is always kept |
| BSplines.DedupSeparated | objects.py:350-358 | each kept point differs from the previous kept one by more than 1e-6 in x or in y |
| BSplines.DedupKeepsSeparated | objects.py:350-358 | an input whose neighbours are already separated comes back unchanged |
| BSplines.RemoveDuplicatePoints | objects.py:350-358 | the loop with `prev` computes exactly that deduplication |
| BSplines.ValidationError | objects.py:262-266 | an error is raised exactly when there are fewer than 4 points or fewer than `degree + 1` |
| BSplines.RawCurveShape | objects.py:268-277 | a cubic spline on `n` points gives `n - 3` segments of 100 points, segment `i` from control points `i .. i + 3`; any other degree gives no points |
| BSplines.MinX | objects.py:389-394 | the minimum is attained and bounds every x |
| BSplines.BoxVisibleIff | objects.py:387-397 | the spline is invisible exactly when all control points lie strictly beyond one window side |
| BSplines.InsidePoints | objects.py:364-372 | `draw` keeps exactly the curve points inside the clip window |
| BSplines.InsidePointsAppend | objects.py:368-371 | the kept points of a concatenation are those of the first part followed by those of the second, so the curve's order is kept |
| BSplines.InsidePointsSingle | objects.py:368-371 | a single point is kept exactly when it is inside |
| BSplines.InsidePointsSubsequence | objects.py:368-371 | the kept points are a subsequence of the curve points |
| BSplines.BSpline.constructor | objects.py:255-260 | a valid spline holds the deduplicated points of all segments |
| BSplines.BSpline.ComputeEntireCurve | objects.py:268-277 | `curve_points` becomes the concatenated segments after duplicate removal |
| BSplines.BSpline.Clip | objects.py:387-398 | `visible` becomes the bounding-box test and the window is kept; control points, curve points and colour are unchanged |
| BSplines.NewBSpline | objects.py:255-266 | the counter always moves; construction succeeds exactly on valid input, keeping the points, colour and degree given, and otherwise fails with the source's message |
| Solids.NewPoint3D | objects.py:402-408 | a 3D point is built exactly from three components, in the colour given, taking a "P3D" name; otherwise it fails with no name used |
| Solids.Endpoints | objects.py:425-427 | the endpoint list is `p1, p2` of every segment in order |
| Solids.FirstOccurrencesFacts | objects.py:429-434 | the deduplicated list holds exactly the input's points, without repeats, in first-occurrence order |
| Solids.FirstOccurrencesOfDistinct | objects.py:429-434 | a list without repeats is kept as it is |
| Solids.UniqueEndpoints | objects.py:425-434 | the loop with the `seen` set builds the first occurrences of the endpoints |
| Solids.EndpointsCovered | objects.py:422-435 | every endpoint of every segment is among the coordinates |
| Solids.Object3D.constructor | objects.py:422-435 | the object takes an "O3D" name and its coordinates are the distinct endpoints in order |
| Solids.BasisList | objects.py:485-492 | the four cubic Bernstein weights sum to 1 |
| Solids.BasisEnds | objects.py:485-492 | at 0 and 1 the weights select the first and last control point |
| Solids.PatchCorners | objects.py:483-502 | evaluating at (0,0), (0,1), (1,0) and (1,1) gives control points 0, 3, 12 and 15 |
| Solids.EvaluateBezier | objects.py:483-502 | the double loop over `i*4 + j` accumulates the bicubic patch point |
| Solids.MeshIndex | objects.py:570-586 | `i*res + j`, `idx + 1` and `(i+1)*res + j` are all below `res²` inside the loops' ranges |
| Solids.SurfacePointsLength | objects.py:475-481 | there are `res²` surface points |
| Solids.SurfacePointAt | objects.py:475-481 | point `i*res + j` is the patch evaluated at the `i`-th and `j`-th sample parameters |
| Solids.ComputeSurfacePoints | objects.py:475-481 | the nested loops build exactly those points |
| Solids.PatchClipLine | objects.py:515-567 | the unguarded inline Cohen-Sutherland never divides by zero and returns the editor's Cohen-Sutherland result, inside the window |
| Solids.MeshLineCount | objects.py:569-590 | each direction draws `res·(res - 1)` candidate lines |
| Solids.ClipAllInside | objects.py:575-590 | at most one drawn line per candidate, each inside the clip rectangle |
| Solids.PatchMesh | objects.py:504-590 | the drawn lines are the clipped u lines followed by the clipped v lines |
| Solids.NewBezierPatch | objects.py:455-469 | a patch is built exactly from 16 points, taking a "BP" name and keeping those points, the colour and the resolution, with `res²` surface points; otherwise it fails with no name used |
| Transforms.ApplyMul | graphics_system.py:745-753 | applying a product of affine matrices is applying them one after the other |
| Transforms.ApplyTranslation | graphics_system.py:783-790 | the translation matrix adds `(dx, dy)` |
| Transforms.ScalingAbout | graphics_system.py:791-810 | scaling about the centre scales offsets from it and fixes the centre |
| Transforms.RotationAbout | graphics_system.py:811-836 | rotation about a pivot fixes the pivot and, for a true rotation, keeps distances to it |
| Transforms.GenerateMatrix | graphics_system.py:782-838 | the matrix is affine; it fails exactly when the step needs the selected object's centre and there is none |
| Transforms.CombinedFails | graphics_system.py:741-745 | the queue fails exactly when there is no centre and some step needs it |
| Transforms.CombinedIsStepwise | graphics_system.py:741-755 | applying the combined matrix is applying each step's matrix in queue order |
| Transforms.CombinedEmpty | graphics_system.py:742 | an empty queue combines to the identity, which leaves a point unchanged |
| Transforms.TranslationsAdd | graphics_system.py:741-790 | a queue of translations combines to one translation by the summed offsets |
| Transforms.TranslationsShiftEveryPoint | graphics_system.py:741-758 | with only translations, every coordinate moves by the summed `(dx, dy)` |
| Transforms.CombineSteps | graphics_system.py:742-745 | the loop multiplying the matrices builds the combined result |
| Transforms.TransformAllAt | graphics_system.py:750-755 | coordinate `k` of the object becomes point `k` times the matrix |
| Transforms.TransformAllIdentity | graphics_system.py:750-755 | the identity matrix leaves the coordinates as they are |
| Transforms.TransformCoordinates | graphics_system.py:750-755 | the loop building `new_coords` computes exactly those points |
| Transforms.Centroid | graphics_system.py:983-988 | the centre exists exactly for a non-empty list and is the mean of the x and of the y values |
| Transforms.CentroidOfTransformed | graphics_system.py:983-988 | the centre of the transformed points is the transformed centre |
| Transforms.ScalingKeepsCentroid | graphics_system.py:791-810 | scaling about the object's centre leaves its centre fixed |
| Viewing.MoveAxisShifts | grapgics_system.py:295-312 | a move shifts both bounds of one axis by `move_step` times that axis's extent, and leaves the other axis and both extents alone |
| Viewing.MoveAxisUndo | grapgics_system.py:295-312 | the opposite arrow undoes a move |
| Viewing.MoveRotatedFacts | graphics_system.py:604-625 | without rotation the move is the axis move; any move keeps the extents and is undone by the opposite arrow; with a true rotation it travels the axis move's distance |
| Viewing.PanFacts | grapgics_system.py:389-402 | a drag translates the window (x against the mouse, y with it) without changing its size, and dragging back restores it |
| Viewing.ScaleAboutFacts | grapgics_system.py:409-412 | scaling about a point multiplies both extents by the factor, and the inverse factor restores the window |
| Viewing.ZoomKeepsMouse | grapgics_system.py:404-414 | the world point under the mouse stays fixed and both extents scale by 0.9 for a positive delta, else 1.1 |
| Viewing.ZoomCenteredFacts | grapgics_system.py:416-425 | a manual zoom keeps the centre, multiplies both extents by the factor, and is undone by the inverse factor |
| Scene.Prefix | graphics_system.py:55-101 | each kind's prefix is one plain letter, "P", "L", "W" or "C" |
| Scene.IndexOfName | graphics_system.py:681-683 | the first position holding the name, with no earlier match, or None when no object has the name |
| Scene.FindFirst | graphics_system.py:681-686 | the enumerate loop with `break` finds that position |
| Scene.DeleteFirstFacts | grapgics_system.py:328-341 | only the first match is removed; the others keep their order; nothing changes when no name matches |
| Scene.DeleteFirstKeepsLaterDuplicates | grapgics_system.py:336-341 | a later object with the same name survives |
| Scene.CenterOf | graphics_system.py:794-797 | a centre exists exactly when an object has the name and has coordinates |
| Scene.TransformFirstFacts | graphics_system.py:748-757 | only the first match changes, and only its coordinates, each becoming the old point times the matrix |
| Scene.EmptyQueueChangesNothing | graphics_system.py:741-758 | an empty queue combines to the identity and leaves the display file unchanged |
| Scene.UniqueNamesAppend | grapgics_system.py:12-14 | an object named by the next counter value keeps all names distinct |
| Scene.UniqueNamesDelete | grapgics_system.py:328-341 | deletion keeps all names distinct |
| Scene.UniqueNamesTransform | graphics_system.py:748-757 | transformation keeps all names distinct |
| Scene.UniqueNamesOnlyMatch | graphics_system.py:681-683 | with distinct names the first match is the only match |
| Scene.WellShapedDelete | graphics_system.py:673-686 | deletion keeps every object's coordinate count valid for its kind |
| Scene.WellShapedTransform | graphics_system.py:748-757 | transformation keeps every object's coordinate count |
| Editor.ClipLineSpec | graphics_system.py:1130-1134 | the accepted line's first endpoint is inside the window, its second too under Cohen-Sutherland; Liang-Barsky, the clipper as written, accepts exactly the lines the corrected one does |
| Editor.UnrotateFacts | graphics_system.py:990-998 | the inverse window rotation is the identity at angle 0, fixes the window centre, and keeps distances to it |
| Editor.ViewportTransform | graphics_system.py:990-1013 | the mapping is undefined exactly when the window has zero width or height |
| Editor.ViewportUnrotated | graphics_system.py:1000-1013 | without rotation, `(xmin, ymin)` maps to `(vp.xmin, vp.ymax)` and differences scale uniformly by the smaller ratio, with y flipped |
| Editor.ViewportInside | graphics_system.py:1000-1013 | without rotation, a point inside the window maps inside the viewport |
| Editor.ViewportCenterFixed | graphics_system.py:990-1013 | the window centre maps to the same device point at every rotation |
| Editor.GraphicsSystem.constructor | graphics_system.py:346-372 | the initial window and viewport, rotation 0, an empty display file and queue, Cohen-Sutherland and the default colour |
| Editor.GraphicsSystem.ApplyWindowRotation | graphics_system.py:417-423 | only the rotation changes |
| Editor.GraphicsSystem.MoveWindow | graphics_system.py:604-625 | the window moves by the rotated axis step, keeping its extents; nothing else changes |
| Editor.GraphicsSystem.ResetView | graphics_system.py:662-664 | the window and its rotation return to the original |
| Editor.GraphicsSystem.PanStart | graphics_system.py:1069-1071 | the drag start is recorded |
| Editor.GraphicsSystem.PanDrag | graphics_system.py:1072-1082 | the window is panned from the recorded point to the event and the event becomes the recorded point |
| Editor.GraphicsSystem.Zoom | graphics_system.py:1084-1094 | the window becomes the wheel zoom about the mouse point |
| Editor.GraphicsSystem.ZoomManual | graphics_system.py:1096-1105 | the window becomes the zoom about its centre |
| Editor.GraphicsSystem.ChooseColor | graphics_system.py:585-588 | a picked colour becomes the selected colour; a cancelled dialog changes nothing |
| Editor.GraphicsSystem.SelectLineClip | graphics_system.py:555-556 | the line clipper becomes the chosen one |
| Editor.GraphicsSystem.AddPoint | graphics_system.py:1015-1024 | appends a "P" object in the selected colour exactly when given one coordinate; otherwise nothing changes |
| Editor.GraphicsSystem.AddLine | graphics_system.py:1026-1035 | appends an "L" object exactly when given two coordinates; otherwise nothing changes |
| Editor.GraphicsSystem.AddPolygon | graphics_system.py:1037-1047 | appends a "W" object with the fill flag exactly when given at least three coordinates; otherwise nothing changes |
| Editor.GraphicsSystem.AddBezierCurve | graphics_system.py:627-636 | appends a "C" object exactly when `n >= 4` and `(n - 4) % 3 == 0`; otherwise nothing changes |
| Editor.GraphicsSystem.ClearCanvas | graphics_system.py:666-671 | empties the display file and resets the counter to 0 |
| Editor.GraphicsSystem.DeleteSelected | graphics_system.py:673-686 | removes the first object with the selected name, keeping names unique |
| Editor.GraphicsSystem.BeginTransformations | graphics_system.py:696 | the queue is emptied |
| Editor.GraphicsSystem.AddTransformation | graphics_system.py:734-739 | a step with parameters is appended; without parameters nothing changes |
| Editor.GraphicsSystem.RemoveTransformation | graphics_system.py:852-857 | the selected step is removed, the others keep their order |
| Editor.GraphicsSystem.ApplyAllTransformations | graphics_system.py:741-758 | the queue's combined matrix is applied to the first object with the name; on failure nothing changes |
| Editor.ClipObjectSpec | graphics_system.py:1049-1067 | a kept object meets the clipping guarantee and keeps its kind; a point is kept exactly when it is in the window, and a point or a curve is returned as it is |
| Editor.GraphicsSystem.ClipObject | graphics_system.py:1049-1067 | the result is `ClipObjectSpec` for the counter as it stood (a clipped line or polygon is a new object with the next name, a line in the default colour, a polygon keeping colour and fill), so a kept object meets the clipping guarantee; the counter rises by one exactly for a clipped line or polygon |
| Editor.GraphicsSystem.Redraw | graphics_system.py:1107-1113 | the objects shown are exactly `RedrawSpec` of the display file: the clip of every object, in display-file order, the dropped ones left out, each clip seeing the counter the earlier ones left; all of them meet the clipping guarantee and the counter rises by the number of clipped lines and polygons |
| Editor.RedrawSpecSingle | graphics_system.py:1107-1113 | redrawing one object shows its clip, or nothing when it is dropped |
| Editor.RedrawSpecAppend | graphics_system.py:1107-1113 | redrawing `a + b` shows what `a` shows followed by what `b` shows from the counter `a` left: the display-file order is kept |
| Editor.RedrawSpecInside | graphics_system.py:1107-1113 | a redraw shows no more objects than the display file holds, and each of them meets the clipping guarantee |
| LegacyEditor.AspectScale | grapgics_system.py:344-349 | the scale is undefined exactly when a division by zero would occur |
| LegacyEditor.AspectScaleIsMin | grapgics_system.py:344-349 | for proper rectangles the aspect branch picks the smaller of the two ratios |
| LegacyEditor.ViewportTransform | grapgics_system.py:344-354 | the mapping is defined exactly when the scale is |
| LegacyEditor.ViewportCorner | grapgics_system.py:344-354 | window `(xmin, ymax)` maps to viewport `(xmin, ymin)` |
| LegacyEditor.ViewportInside | grapgics_system.py:344-354 | a point inside the window maps inside the viewport |
| LegacyEditor.GraphicsSystem.constructor | grapgics_system.py:102-111 | the initial window and viewport and an empty display file |
| LegacyEditor.GraphicsSystem.MoveWindow | grapgics_system.py:295-312 | the window makes the axis move; nothing else changes |
| LegacyEditor.GraphicsSystem.ResetView | grapgics_system.py:315-317 | the window returns to the original |
| LegacyEditor.GraphicsSystem.PanStart | grapgics_system.py:389-391 | the drag start is recorded |
| LegacyEditor.GraphicsSystem.PanDrag | grapgics_system.py:392-402 | the window is panned from the recorded point and the event becomes the recorded point |
| LegacyEditor.GraphicsSystem.Zoom | grapgics_system.py:404-414 | the window becomes the wheel zoom about the mouse point |
| LegacyEditor.GraphicsSystem.ZoomManual | grapgics_system.py:416-425 | the window becomes the zoom about its centre |
| LegacyEditor.GraphicsSystem.AddPoint | grapgics_system.py:356-365 | appends a "P" object exactly when given one coordinate; otherwise nothing changes |
| LegacyEditor.GraphicsSystem.AddLine | grapgics_system.py:367-376 | appends an "L" object exactly when given two coordinates; otherwise nothing changes |
| LegacyEditor.GraphicsSystem.AddPolygon | grapgics_system.py:378-387 | appends a "W" object exactly when given at least three coordinates; otherwise nothing changes |
| LegacyEditor.GraphicsSystem.ClearCanvas | grapgics_system.py:320-325 | empties the display file and resets the counter to 0 |
| LegacyEditor.GraphicsSystem.DeleteSelected | grapgics_system.py:328-341 | removes only the first object with the selected name, keeping names unique |

## Left out

- The tkinter user interface is not modelled: widgets, styles, event
  binding, Treeview selection, dialogs, message boxes and every
  `canvas.create_*` call. Each operation is modelled from the point where
  its inputs are known; the name chosen in the object list becomes a
  parameter.
    - When nothing is selected the source does nothing, so that case is
      omitted.
    - None of the state-changing methods calls `Redraw`. `Redraw` is its own
      method; it returns, in order, the clipped objects that the source
      draws, instead of calling their `draw`.
- `parse_input` is not modelled because it evaluates the typed text with
  Python `eval`. Coordinates arrive already parsed.
- `get_params_from_tab` is not modelled because it reads widgets. A step
  with its parameters arrives already parsed, as an `Option<Step>`.
- OBJ reading and writing are not modelled because they are file I/O with
  float text formatting: `DescritorOBJ`, `save_obj`, `load_obj`,
  `descritor_obj.py` and `aqux.py`.
- Trigonometry is not modelled. The window rotation and the rotation steps
  take the cosine and sine as real parameters, and degrees-to-radians
  conversion is not modelled.
- `apply_translation`, `apply_scaling` and `apply_rotation_around_point` are
  not modelled separately. These single-shot versions apply the same
  matrices as the transformation queue, which is modelled.
- Floating point is not modelled: coordinates are exact reals, the 1e-6
  tolerance is a real constant, and `np.linspace(0, 1, n)` is `k / (n - 1)`.
- `BezierSurface` is not modelled because it only holds patches and
  delegates drawing.
- Aliasing and in-place mutation of display-file objects are not
  modelled: objects are values, and changing one replaces its entry.
- Projection is not modelled: `get_coordinates_3d` and `Solids.PatchMesh`
  take the projection or the projected points as given.
- Editor.GraphicsSystem.PanDrag, Editor.GraphicsSystem.Zoom,
  LegacyEditor.GraphicsSystem.PanDrag and LegacyEditor.GraphicsSystem.Zoom
  require the initial viewport. The source divides by the viewport's far
  corner, which is non-zero there, and the viewport never changes.
- Editor.ClipLineSpec, Editor.GraphicsSystem.ClipObject and
  Editor.GraphicsSystem.Redraw promise, in Liang-Barsky mode, only that a
  line's first endpoint is in the window, because the editor runs the
  clipper as written, whose second endpoint can leave it (see Findings).
- Editor.GraphicsSystem.ClipObject: for a curve the source calls `Bezier.Curve2D.Clip`
  on the curve object itself. Because display-file entries are values, this
  method does not model that buffer update; it leaves the display-file
  value as it was.

## Findings

| source | as written | input that shows it | evidently intended | confidence | as-written member | corrected member |
|---|---|---|---|---|---|---|
| graphics_system.py:1269-1272 | `x1` and `y1` are overwritten with the clipped start before `x2 = x1 + u2*dx` and `y2 = y1 + u2*dy` are computed, so the second endpoint is measured from the clipped start | window (0,0)-(10,10), line (-10,5)-(5,5): `u1 = 2/3`, `u2 = 1`; the code returns (0,5)-(15,5), and (15,5) is outside the window | both endpoints measured from the original start: `x2 = x1_orig + u2*dx`, giving (0,5)-(5,5) | high, not executed | LiangBarsky.LiangBarskyAsWrittenOvershoots | LiangBarsky.LiangBarskyClip |

`LiangBarsky.LiangBarskyAsWrittenVsSpec` states the difference for every
line: the second endpoint is wrong exactly when `u1 > 0` and the line has
length. The editor's Liang-Barsky mode runs the clipper as written,
`LiangBarsky.LiangBarskyClipAsWritten`.
