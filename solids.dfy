/** The 3D primitives of objects.py: `Ponto3D`, `Objeto3D` (a wireframe
    given as segments), and `BezierPatch` (a bicubic patch of 16 control
    points, sampled on a grid and drawn as a clipped mesh). */
module Solids {
  import opened Geometry
  import opened Naming
  import opened Clipping
  import Bezier

  // ---------------------------------------------------------------------
  // Ponto3D

  const Point3DError: string := "Ponto3D requer coordenadas (x, y, z)"

  class Point3D {
    var coordinates: seq<Point3>
    var color: string
    const name: string

    constructor (p: Point3, col: string, nm: string)
      ensures coordinates == [p] && color == col && name == nm
    {
      coordinates := [p];
      color := col;
      name := nm;
    }
  }

  /** `Ponto3D(coordinates)`: the tuple must have three components; the
      check comes before the base constructor, so a rejected point takes no
      name from the counter. */
  method NewPoint3D(components: seq<real>, color: string, names: NameCounter) returns (r: Result<Point3D>)
    modifies names
    ensures r.Success? <==> |components| == 3
    ensures r.Success? ==> (fresh(r.value) && names.count == old(names.count) + 1
      && r.value.coordinates == [Point3(components[0], components[1], components[2])]
      && r.value.color == color && r.value.name == NameOf("P3D", names.count))
    ensures r.Failure? ==> names.count == old(names.count) && r.error == Point3DError
  {
    if |components| != 3 {
      return Failure(Point3DError);
    }
    var name := names.Fresh("P3D");
    var p := new Point3D(Point3(components[0], components[1], components[2]), color, name);
    return Success(p);
  }

  // ---------------------------------------------------------------------
  // Objeto3D

  datatype Edge3 = Edge3(p1: Point3, p2: Point3)

  /** `all_points`: both endpoints of every segment, in order. */
  function Endpoints(segments: seq<Edge3>): (r: seq<Point3>)
    ensures |r| == 2 * |segments|
    ensures forall i :: 0 <= i < |segments| ==> r[2 * i] == segments[i].p1 && r[2 * i + 1] == segments[i].p2
  {
    if segments == [] then []
    else Endpoints(segments[..|segments| - 1]) + [segments[|segments| - 1].p1, segments[|segments| - 1].p2]
  }

  /** The points of `ps` at their first occurrence, in order. */
  function FirstOccurrences(ps: seq<Point3>): seq<Point3> {
    if ps == [] then []
    else
      var init := ps[..|ps| - 1];
      FirstOccurrences(init) + (if ps[|ps| - 1] in init then [] else [ps[|ps| - 1]])
  }

  predicate NoDuplicates(ps: seq<Point3>) {
    forall i, j :: 0 <= i < j < |ps| ==> ps[i] != ps[j]
  }

  /** Index of the first occurrence of `p` in `ps`. */
  function IndexOf(ps: seq<Point3>, p: Point3): (k: nat)
    requires p in ps
    ensures k < |ps| && ps[k] == p && p !in ps[..k]
  {
    if ps[0] == p then 0 else 1 + IndexOf(ps[1..], p)
  }

  /** Appending does not move an existing first occurrence. */
  lemma {:induction false} IndexOfPrefix(ps: seq<Point3>, q: Point3, p: Point3)
    requires p in ps
    ensures p in ps + [q] && IndexOf(ps + [q], p) == IndexOf(ps, p)
  {
    if ps[0] != p {
      assert (ps + [q])[1..] == ps[1..] + [q];
      IndexOfPrefix(ps[1..], q, p);
    }
  }

  /** The kept points are exactly the input's points, each once, in order
      of first occurrence. */
  lemma {:induction false} FirstOccurrencesFacts(ps: seq<Point3>)
    ensures forall p :: p in FirstOccurrences(ps) <==> p in ps
    ensures NoDuplicates(FirstOccurrences(ps))
    ensures forall i, j :: 0 <= i < j < |FirstOccurrences(ps)| ==>
      IndexOf(ps, FirstOccurrences(ps)[i]) < IndexOf(ps, FirstOccurrences(ps)[j])
  {
    if ps != [] {
      var init := ps[..|ps| - 1];
      var last := ps[|ps| - 1];
      assert ps == init + [last];
      FirstOccurrencesFacts(init);
      var r := FirstOccurrences(ps);
      var r0 := FirstOccurrences(init);
      forall p | p in r0
        ensures p in ps && IndexOf(ps, p) == IndexOf(init, p)
      {
        IndexOfPrefix(init, last, p);
      }
      if last !in init {
        assert r == r0 + [last];
        assert IndexOf(ps, last) == |ps| - 1;
        forall i, j | 0 <= i < j < |r|
          ensures IndexOf(ps, r[i]) < IndexOf(ps, r[j])
        {
          assert r[i] == r0[i];
          if j < |r0| {
            assert r[j] == r0[j];
          }
        }
      } else {
        assert r == r0;
      }
    }
  }

  /** Input without repeated points is kept as it is. */
  lemma {:induction false} FirstOccurrencesOfDistinct(ps: seq<Point3>)
    requires NoDuplicates(ps)
    ensures FirstOccurrences(ps) == ps
  {
    if ps != [] {
      var init := ps[..|ps| - 1];
      assert NoDuplicates(init);
      FirstOccurrencesOfDistinct(init);
      assert ps[|ps| - 1] !in init;
      assert ps == init + [ps[|ps| - 1]];
    }
  }

  lemma EndpointsSnoc(segments: seq<Edge3>, i: nat)
    requires i < |segments|
    ensures Endpoints(segments[..i + 1]) == Endpoints(segments[..i]) + [segments[i].p1, segments[i].p2]
  {
    assert segments[..i + 1][..i] == segments[..i];
  }

  /** One more point: it is kept exactly when the prefix does not hold it. */
  lemma FirstOccurrencesSnoc(ps: seq<Point3>, i: nat)
    requires i < |ps|
    ensures (forall p :: p in ps[..i + 1] <==> p in ps[..i] || p == ps[i])
    ensures FirstOccurrences(ps[..i + 1]) == FirstOccurrences(ps[..i]) + (if ps[i] in ps[..i] then [] else [ps[i]])
  {
    assert ps[..i + 1][..i] == ps[..i];
    assert ps[..i + 1] == ps[..i] + [ps[i]];
  }

  /** The two loops of the `Objeto3D` constructor: collect the endpoints,
      then keep each point the `seen` set has not met yet. */
  method UniqueEndpoints(segments: seq<Edge3>) returns (unique: seq<Point3>)
    ensures unique == FirstOccurrences(Endpoints(segments))
  {
    var allPoints: seq<Point3> := [];
    for i := 0 to |segments|
      invariant allPoints == Endpoints(segments[..i])
    {
      EndpointsSnoc(segments, i);
      allPoints := allPoints + [segments[i].p1, segments[i].p2];
    }
    assert segments[..|segments|] == segments;
    unique := [];
    var seen: set<Point3> := {};
    for i := 0 to |allPoints|
      invariant unique == FirstOccurrences(allPoints[..i])
      invariant forall p :: p in seen <==> p in allPoints[..i]
    {
      var point := allPoints[i];
      FirstOccurrencesSnoc(allPoints, i);
      if point !in seen {
        seen := seen + {point};
        unique := unique + [point];
      }
    }
    assert allPoints[..|allPoints|] == allPoints;
  }

  /** Every endpoint of every segment is among the object's points. */
  lemma EndpointsCovered(segments: seq<Edge3>, i: nat)
    requires i < |segments|
    ensures segments[i].p1 in FirstOccurrences(Endpoints(segments))
    ensures segments[i].p2 in FirstOccurrences(Endpoints(segments))
  {
    FirstOccurrencesFacts(Endpoints(segments));
    assert Endpoints(segments)[2 * i] == segments[i].p1;
    assert Endpoints(segments)[2 * i + 1] == segments[i].p2;
  }

  class Object3D {
    const segments: seq<Edge3>
    var coordinates: seq<Point3>
    var color: string
    const name: string

    /** `Objeto3D(segments, color)`. */
    constructor (segs: seq<Edge3>, col: string, names: NameCounter)
      modifies names
      ensures names.count == old(names.count) + 1 && name == NameOf("O3D", names.count)
      ensures segments == segs && color == col
      ensures coordinates == FirstOccurrences(Endpoints(segs))
    {
      var unique := UniqueEndpoints(segs);
      var nm := names.Fresh("O3D");
      segments := segs;
      coordinates := unique;
      color := col;
      name := nm;
    }
  }

  // ---------------------------------------------------------------------
  // BezierPatch: evaluation

  /** The cubic Bernstein basis `B[i](u)`. */
  function BasisList(u: real): (b: seq<real>)
    ensures |b| == 4
    ensures b[0] + b[1] + b[2] + b[3] == 1.0
  {
    [(1.0 - u) * (1.0 - u) * (1.0 - u),
     3.0 * u * ((1.0 - u) * (1.0 - u)),
     3.0 * (u * u) * (1.0 - u),
     u * u * u]
  }

  /** At `u = 0` only the first basis function is non-zero, at `u = 1` only
      the last; both are 1 there. */
  lemma BasisEnds()
    ensures BasisList(0.0) == [1.0, 0.0, 0.0, 0.0]
    ensures BasisList(1.0) == [0.0, 0.0, 0.0, 1.0]
  {}

  function Add(p: Point3, q: Point3): Point3 {
    Point3(p.x + q.x, p.y + q.y, p.z + q.z)
  }

  function Scale(p: Point3, a: real): Point3 {
    Point3(p.x * a, p.y * a, p.z * a)
  }

  const Origin: Point3 := Point3(0.0, 0.0, 0.0)

  /** The first `n` terms of row `i`: control point `i*4 + j` (row-major)
      weighted by `B[i] * Bv[j]`. */
  function RowSum(cp: seq<Point3>, b: seq<real>, bv: seq<real>, i: nat, n: nat): Point3
    requires |cp| == 16 && |b| == 4 && |bv| == 4 && i < 4 && n <= 4
  {
    if n == 0 then Origin
    else Add(RowSum(cp, b, bv, i, n - 1), Scale(cp[i * 4 + n - 1], b[i] * bv[n - 1]))
  }

  /** The first `m` full rows. */
  function RowsSum(cp: seq<Point3>, b: seq<real>, bv: seq<real>, m: nat): Point3
    requires |cp| == 16 && |b| == 4 && |bv| == 4 && m <= 4
  {
    if m == 0 then Origin else Add(RowsSum(cp, b, bv, m - 1), RowSum(cp, b, bv, m - 1, 4))
  }

  /** The surface point at `(u, v)`. */
  function PatchPoint(cp: seq<Point3>, u: real, v: real): Point3
    requires |cp| == 16
  {
    RowsSum(cp, BasisList(u), BasisList(v), 4)
  }

  /** `b` is 1 at index `a` and 0 elsewhere. */
  predicate UnitAt(b: seq<real>, a: nat) {
    |b| == 4 && a < 4 && forall i :: 0 <= i < 4 ==> b[i] == if i == a then 1.0 else 0.0
  }

  lemma {:induction false} RowSumUnit(cp: seq<Point3>, b: seq<real>, bv: seq<real>, i: nat, n: nat, a: nat, c: nat)
    requires |cp| == 16 && UnitAt(b, a) && UnitAt(bv, c) && i < 4 && n <= 4
    ensures RowSum(cp, b, bv, i, n) == if i == a && c < n then cp[i * 4 + c] else Origin
  {
    if n > 0 {
      RowSumUnit(cp, b, bv, i, n - 1, a, c);
      var w := b[i] * bv[n - 1];
      if i == a && n - 1 == c {
        assert b[i] == 1.0 && bv[n - 1] == 1.0;
        assert w == 1.0;
      } else if i != a {
        assert b[i] == 0.0;
        assert w == 0.0;
      } else {
        assert bv[n - 1] == 0.0;
        assert w == 0.0;
      }
    }
  }

  /** With unit basis lists the patch picks the single control point
      `a*4 + c`. */
  lemma {:induction false} RowsSumUnit(cp: seq<Point3>, b: seq<real>, bv: seq<real>, m: nat, a: nat, c: nat)
    requires |cp| == 16 && UnitAt(b, a) && UnitAt(bv, c) && m <= 4
    ensures RowsSum(cp, b, bv, m) == if a < m then cp[a * 4 + c] else Origin
  {
    if m > 0 {
      RowsSumUnit(cp, b, bv, m - 1, a, c);
      RowSumUnit(cp, b, bv, m - 1, 4, a, c);
    }
  }

  /** The patch passes through its four corner control points. */
  lemma PatchCorners(cp: seq<Point3>)
    requires |cp| == 16
    ensures PatchPoint(cp, 0.0, 0.0) == cp[0]
    ensures PatchPoint(cp, 0.0, 1.0) == cp[3]
    ensures PatchPoint(cp, 1.0, 0.0) == cp[12]
    ensures PatchPoint(cp, 1.0, 1.0) == cp[15]
  {
    BasisEnds();
    assert UnitAt(BasisList(0.0), 0) && UnitAt(BasisList(1.0), 3);
    RowsSumUnit(cp, BasisList(0.0), BasisList(0.0), 4, 0, 0);
    RowsSumUnit(cp, BasisList(0.0), BasisList(1.0), 4, 0, 3);
    RowsSumUnit(cp, BasisList(1.0), BasisList(0.0), 4, 3, 0);
    RowsSumUnit(cp, BasisList(1.0), BasisList(1.0), 4, 3, 3);
  }

  /** `_evaluate_bezier(u, v)`: the basis lists at `u` and `v`, then the
      double loop accumulating `x, y, z`. */
  method EvaluateBezier(cp: seq<Point3>, u: real, v: real) returns (p: Point3)
    requires |cp| == 16
    ensures p == PatchPoint(cp, u, v)
  {
    var b := BasisList(u);
    var bv := BasisList(v);
    p := Accumulate(cp, b, bv);
  }

  /** The double loop of `_evaluate_bezier`, over given basis lists. */
  method Accumulate(cp: seq<Point3>, b: seq<real>, bv: seq<real>) returns (p: Point3)
    requires |cp| == 16 && |b| == 4 && |bv| == 4
    ensures p == RowsSum(cp, b, bv, 4)
  {
    var x, y, z := 0.0, 0.0, 0.0;
    for i := 0 to 4
      invariant Point3(x, y, z) == RowsSum(cp, b, bv, i)
    {
      for j := 0 to 4
        invariant Point3(x, y, z) == Add(RowsSum(cp, b, bv, i), RowSum(cp, b, bv, i, j))
      {
        var weight := b[i] * bv[j];
        var q := cp[i * 4 + j];
        x := x + q.x * weight;
        y := y + q.y * weight;
        z := z + q.z * weight;
      }
    }
    p := Point3(x, y, z);
  }

  // ---------------------------------------------------------------------
  // BezierPatch: the sample grid

  /** Row `i` of the grid: `v` runs over `linspace(0, 1, res)`. */
  function GridRow(cp: seq<Point3>, res: nat, i: nat): (row: seq<Point3>)
    requires |cp| == 16 && i < res
    ensures |row| == res
  {
    seq(res, j requires 0 <= j < res => PatchPoint(cp, Bezier.Linspace(i, res), Bezier.Linspace(j, res)))
  }

  /** The whole grid, one row per `u`. */
  function Grid(cp: seq<Point3>, res: nat): (g: seq<seq<Point3>>)
    requires |cp| == 16
    ensures |g| == res && forall i :: 0 <= i < res ==> |g[i]| == res
  {
    seq(res, i requires 0 <= i < res => GridRow(cp, res, i))
  }

  /** Rows concatenated in order. */
  function Flatten(rows: seq<seq<Point3>>): seq<Point3> {
    if rows == [] then [] else Flatten(rows[..|rows| - 1]) + rows[|rows| - 1]
  }

  /** What `_compute_surface_points` leaves in `surface_points`. */
  function SurfacePoints(cp: seq<Point3>, res: nat): seq<Point3>
    requires |cp| == 16
  {
    Flatten(Grid(cp, res))
  }

  /** `i*res + j` for `i < n`, `j < res` is below `n*res`, and below
      `(n-1)*res` when `i < n - 1`. */
  lemma RowIndex(res: nat, n: nat, i: nat, j: nat)
    requires i < n && j < res
    ensures i * res + j < n * res
    ensures i < n - 1 ==> i * res + j < (n - 1) * res
    ensures n * res == (n - 1) * res + res
  {
    var d := n - 1 - i;
    assert n * res == i * res + res + d * res;
    assert (n - 1) * res == i * res + d * res;
  }

  lemma MulSucc(m: nat, res: nat)
    ensures (m + 1) * res == m * res + res
  {}

  /** The mesh indices `i*res + j`, `idx + 1` and `(i+1)*res + j` of `draw`
      all address the `res^2` samples. */
  lemma MeshIndex(res: nat, i: nat, j: nat)
    requires i < res && j < res
    ensures i * res + j < res * res
    ensures j < res - 1 ==> i * res + j + 1 < res * res
    ensures i < res - 1 ==> (i + 1) * res + j < res * res
  {
    RowIndex(res, res, i, j);
    if j < res - 1 {
      RowIndex(res, res, i, j + 1);
    }
    if i < res - 1 {
      RowIndex(res, res, i + 1, j);
      assert (i + 1) * res == i * res + res;
    }
  }

  lemma {:induction false} FlattenLength(rows: seq<seq<Point3>>, res: nat)
    requires forall i :: 0 <= i < |rows| ==> |rows[i]| == res
    ensures |Flatten(rows)| == |rows| * res
  {
    if rows != [] {
      FlattenLength(rows[..|rows| - 1], res);
      MulSucc(|rows| - 1, res);
    }
  }

  /** Rows of equal length `res`, flattened: element `i*res + j` is
      `rows[i][j]`. */
  lemma {:induction false} FlattenIndex(rows: seq<seq<Point3>>, res: nat, i: nat, j: nat)
    requires forall k :: 0 <= k < |rows| ==> |rows[k]| == res
    requires i < |rows| && j < res
    ensures |Flatten(rows)| == |rows| * res && i * res + j < |rows| * res
    ensures Flatten(rows)[i * res + j] == rows[i][j]
  {
    var n := |rows|;
    var init := rows[..n - 1];
    FlattenLength(rows, res);
    FlattenLength(init, res);
    RowIndex(res, n, i, j);
    assert Flatten(rows) == Flatten(init) + rows[n - 1];
    if i < n - 1 {
      FlattenIndex(init, res, i, j);
      assert init[i] == rows[i];
    }
  }

  /** There are `res^2` samples. */
  lemma SurfacePointsLength(cp: seq<Point3>, res: nat)
    requires |cp| == 16
    ensures |SurfacePoints(cp, res)| == res * res
  {
    FlattenLength(Grid(cp, res), res);
  }

  /** Sample `i*res + j` is the surface at `(linspace[i], linspace[j])`. */
  lemma SurfacePointAt(cp: seq<Point3>, res: nat, i: nat, j: nat)
    requires |cp| == 16 && i < res && j < res
    ensures |SurfacePoints(cp, res)| == res * res && i * res + j < res * res
    ensures SurfacePoints(cp, res)[i * res + j] == PatchPoint(cp, Bezier.Linspace(i, res), Bezier.Linspace(j, res))
  {
    var g := Grid(cp, res);
    FlattenIndex(g, res, i, j);
    assert g[i] == GridRow(cp, res, i);
  }

  /** `_compute_surface_points`: `u` outer, `v` inner. */
  method ComputeSurfacePoints(cp: seq<Point3>, res: nat) returns (points: seq<Point3>)
    requires |cp| == 16
    ensures points == SurfacePoints(cp, res)
  {
    ghost var g := Grid(cp, res);
    points := [];
    for i := 0 to res
      invariant points == Flatten(g[..i])
    {
      var u := Bezier.Linspace(i, res);
      for j := 0 to res
        invariant points == Flatten(g[..i]) + g[i][..j]
      {
        var v := Bezier.Linspace(j, res);
        var p := EvaluateBezier(cp, u, v);
        assert g[i] == GridRow(cp, res, i);
        assert g[i][..j + 1] == g[i][..j] + [p];
        points := points + [p];
      }
      assert g[i][..res] == g[i];
      assert g[..i + 1][..i] == g[..i];
    }
    assert g[..res] == g;
  }

  // ---------------------------------------------------------------------
  // BezierPatch: the clipped mesh

  /** The inline `clip_line` of `draw`: Cohen-Sutherland with the same
      outcodes and edge order as the editor's, but no guards on the
      divisions. Each division is written as `Interpolate`, whose
      precondition is that the divisor is non-zero; it always holds, since
      the chosen edge separates the two endpoints along its axis. */
  method PatchClipLine(w: Rect, line: Segment) returns (r: Option<Segment>)
    ensures r == CohenSutherlandSpec(w, line)
    ensures r.Some? ==> InRect(w, r.value.p1) && InRect(w, r.value.p2)
  {
    var x1, y1, x2, y2 := line.p1.x, line.p1.y, line.p2.x, line.p2.y;
    var code1 := OutCode(w, Point2(x1, y1));
    var code2 := OutCode(w, Point2(x2, y2));
    while true
      invariant code1 == OutCode(w, Point2(x1, y1))
      invariant code2 == OutCode(w, Point2(x2, y2))
      invariant CohenSutherlandSpec(w, Segment(Point2(x1, y1), Point2(x2, y2))) == CohenSutherlandSpec(w, line)
      decreases CsMeasure(w, Segment(Point2(x1, y1), Point2(x2, y2)))
    {
      ghost var s := Segment(Point2(x1, y1), Point2(x2, y2));
      if code1 | code2 == 0 {
        r := Some(Segment(Point2(x1, y1), Point2(x2, y2)));
        CohenSutherlandSound(w, line);
        return;
      } else if code1 & code2 != 0 {
        return None;
      }
      var codeOut := if code1 != 0 then code1 else code2;
      assert codeOut == CodeOut(w, s);
      ChosenSeparates(w, s);
      var x, y;
      if codeOut & TOP != 0 {
        assert Chosen(codeOut) == TOP;
        x := Interpolate(y1, x1, y2, x2, w.ymax);
        y := w.ymax;
      } else if codeOut & BOTTOM != 0 {
        assert Chosen(codeOut) == BOTTOM;
        x := Interpolate(y1, x1, y2, x2, w.ymin);
        y := w.ymin;
      } else if codeOut & RIGHT != 0 {
        assert Chosen(codeOut) == RIGHT;
        y := Interpolate(x1, y1, x2, y2, w.xmax);
        x := w.xmax;
      } else {
        assert Chosen(codeOut) == LEFT;
        y := Interpolate(x1, y1, x2, y2, w.xmin);
        x := w.xmin;
      }
      assert Point2(x, y) == CsIntersection(w, s);
      CsStepDecreases(w, s);
      CsUnfold(w, s);
      if codeOut == code1 {
        x1, y1 := x, y;
        code1 := OutCode(w, Point2(x1, y1));
      } else {
        x2, y2 := x, y;
        code2 := OutCode(w, Point2(x2, y2));
      }
    }
  }

  /** `xmin, ymin = 20, 20` and `xmax, ymax` 20 short of the canvas size. */
  function PatchWindow(canvasWidth: real, canvasHeight: real): Rect {
    Rect(20.0, 20.0, canvasWidth - 20.0, canvasHeight - 20.0)
  }

  /** The u-direction lines of row `i`: sample `j` to sample `j + 1`. */
  function URow(projected: seq<Point2>, res: nat, i: nat): (row: seq<Segment>)
    requires |projected| == res * res && i < res
    ensures |row| == res - 1
  {
    seq(res - 1, j requires 0 <= j < res - 1 =>
      MeshIndex(res, i, j); Segment(projected[i * res + j], projected[i * res + j + 1]))
  }

  lemma URowAt(projected: seq<Point2>, res: nat, i: nat, j: nat)
    requires |projected| == res * res && i < res && j < res - 1
    ensures i * res + j < res * res && i * res + j + 1 < res * res
    ensures URow(projected, res, i)[j] == Segment(projected[i * res + j], projected[i * res + j + 1])
  {
    MeshIndex(res, i, j);
  }

  /** The v-direction lines of column `j`: row `i` to row `i + 1`. */
  function VColumn(projected: seq<Point2>, res: nat, j: nat): (col: seq<Segment>)
    requires |projected| == res * res && j < res
    ensures |col| == res - 1
  {
    seq(res - 1, i requires 0 <= i < res - 1 =>
      MeshIndex(res, i, j); Segment(projected[i * res + j], projected[(i + 1) * res + j]))
  }

  lemma VColumnAt(projected: seq<Point2>, res: nat, i: nat, j: nat)
    requires |projected| == res * res && j < res && i < res - 1
    ensures i * res + j < res * res && (i + 1) * res + j < res * res
    ensures VColumn(projected, res, j)[i] == Segment(projected[i * res + j], projected[(i + 1) * res + j])
  {
    MeshIndex(res, i, j);
  }

  /** Extending a prefix by one element. */
  lemma PrefixSnoc(s: seq<Segment>, k: nat)
    requires k < |s|
    ensures s[..k + 1] == s[..k] + [s[k]]
  {}

  function URows(projected: seq<Point2>, res: nat, n: nat): seq<Segment>
    requires |projected| == res * res && n <= res
  {
    if n == 0 then [] else URows(projected, res, n - 1) + URow(projected, res, n - 1)
  }

  function VColumns(projected: seq<Point2>, res: nat, n: nat): seq<Segment>
    requires |projected| == res * res && n <= res
  {
    if n == 0 then [] else VColumns(projected, res, n - 1) + VColumn(projected, res, n - 1)
  }

  /** Every mesh line `draw` considers, u-direction first. */
  function MeshLines(projected: seq<Point2>, res: nat): seq<Segment>
    requires |projected| == res * res
  {
    URows(projected, res, res) + VColumns(projected, res, res)
  }

  /** `n` rows (or columns) contribute `n (res - 1)` lines. */
  lemma {:induction false} MeshLineCount(projected: seq<Point2>, res: nat, n: nat)
    requires |projected| == res * res && n <= res
    ensures |URows(projected, res, n)| == n * (res - 1)
    ensures |VColumns(projected, res, n)| == n * (res - 1)
  {
    if n > 0 {
      MeshLineCount(projected, res, n - 1);
    }
  }

  /** The lines kept after clipping, in order. */
  function ClipAll(w: Rect, lines: seq<Segment>): seq<Segment> {
    if lines == [] then []
    else
      var last := CohenSutherlandSpec(w, lines[|lines| - 1]);
      ClipAll(w, lines[..|lines| - 1]) + (if last.Some? then [last.value] else [])
  }

  lemma ClipAllSnoc(w: Rect, lines: seq<Segment>, l: Segment)
    ensures ClipAll(w, lines + [l]) == ClipAll(w, lines)
      + (if CohenSutherlandSpec(w, l).Some? then [CohenSutherlandSpec(w, l).value] else [])
  {
    assert (lines + [l])[..|lines|] == lines;
  }

  /** Every line drawn lies inside the clip window, and no more lines are
      drawn than considered. */
  lemma {:induction false} ClipAllInside(w: Rect, lines: seq<Segment>)
    ensures |ClipAll(w, lines)| <= |lines|
    ensures forall l :: l in ClipAll(w, lines) ==> InRect(w, l.p1) && InRect(w, l.p2)
  {
    if lines != [] {
      ClipAllInside(w, lines[..|lines| - 1]);
      var last := lines[|lines| - 1];
      if CohenSutherlandSpec(w, last).Some? {
        CohenSutherlandSound(w, last);
      }
    }
  }

  /** Clipping a concatenation clips each part. */
  lemma {:induction false} ClipAllAppend(w: Rect, a: seq<Segment>, b: seq<Segment>)
    ensures ClipAll(w, a + b) == ClipAll(w, a) + ClipAll(w, b)
    decreases |b|
  {
    if b != [] {
      var init := b[..|b| - 1];
      assert (a + b)[..|a + b| - 1] == a + init;
      ClipAllAppend(w, a, init);
    } else {
      assert a + b == a;
    }
  }

  /** The two double loops of `draw`, returning the endpoints of every line
      it would hand to the canvas; `projected` is the surface points already
      passed through the projection. */
  method PatchMesh(projected: seq<Point2>, res: nat, canvasWidth: real, canvasHeight: real)
    returns (lines: seq<Segment>)
    requires |projected| == res * res
    ensures lines == ClipAll(PatchWindow(canvasWidth, canvasHeight), MeshLines(projected, res))
  {
    var w := PatchWindow(canvasWidth, canvasHeight);
    var us := DrawULines(projected, res, w);
    var vs := DrawVLines(projected, res, w);
    ClipAllAppend(w, URows(projected, res, res), VColumns(projected, res, res));
    lines := us + vs;
  }

  /** The first double loop: lines in the u direction. */
  method DrawULines(projected: seq<Point2>, res: nat, w: Rect) returns (lines: seq<Segment>)
    requires |projected| == res * res
    ensures lines == ClipAll(w, URows(projected, res, res))
  {
    lines := [];
    for i := 0 to res
      invariant lines == ClipAll(w, URows(projected, res, i))
    {
      var rowLines := DrawURow(projected, res, w, i);
      ClipAllAppend(w, URows(projected, res, i), URow(projected, res, i));
      lines := lines + rowLines;
    }
  }

  /** The inner loop of the first double loop, for row `i`. */
  method DrawURow(projected: seq<Point2>, res: nat, w: Rect, i: nat) returns (lines: seq<Segment>)
    requires |projected| == res * res && i < res
    ensures lines == ClipAll(w, URow(projected, res, i))
  {
    ghost var row := URow(projected, res, i);
    lines := [];
    for j := 0 to res - 1
      invariant lines == ClipAll(w, row[..j])
    {
      URowAt(projected, res, i, j);
      var idx := i * res + j;
      var segment := Segment(projected[idx], projected[idx + 1]);
      var clipped := PatchClipLine(w, segment);
      PrefixSnoc(row, j);
      ClipAllSnoc(w, row[..j], segment);
      if clipped.Some? {
        lines := lines + [clipped.value];
      }
    }
    assert row[..res - 1] == row;
  }

  /** The second double loop: lines in the v direction. */
  method DrawVLines(projected: seq<Point2>, res: nat, w: Rect) returns (lines: seq<Segment>)
    requires |projected| == res * res
    ensures lines == ClipAll(w, VColumns(projected, res, res))
  {
    lines := [];
    for j := 0 to res
      invariant lines == ClipAll(w, VColumns(projected, res, j))
    {
      var columnLines := DrawVColumn(projected, res, w, j);
      ClipAllAppend(w, VColumns(projected, res, j), VColumn(projected, res, j));
      lines := lines + columnLines;
    }
  }

  /** The inner loop of the second double loop, for column `j`. */
  method DrawVColumn(projected: seq<Point2>, res: nat, w: Rect, j: nat) returns (lines: seq<Segment>)
    requires |projected| == res * res && j < res
    ensures lines == ClipAll(w, VColumn(projected, res, j))
  {
    ghost var col := VColumn(projected, res, j);
    lines := [];
    for i := 0 to res - 1
      invariant lines == ClipAll(w, col[..i])
    {
      VColumnAt(projected, res, i, j);
      var idx := i * res + j;
      var idxNext := (i + 1) * res + j;
      var segment := Segment(projected[idx], projected[idxNext]);
      var clipped := PatchClipLine(w, segment);
      PrefixSnoc(col, i);
      ClipAllSnoc(w, col[..i], segment);
      if clipped.Some? {
        lines := lines + [clipped.value];
      }
    }
    assert col[..res - 1] == col;
  }

  // ---------------------------------------------------------------------
  // BezierPatch: the object

  const PatchError: string := "Deve haver 16 pontos de controle (4x4)"

  class BezierPatch {
    var coordinates: seq<Point3>
    var color: string
    const name: string
    const resolution: nat
    var surfacePoints: seq<Point3>

    constructor (cp: seq<Point3>, col: string, res: nat, nm: string)
      requires |cp| == 16
      ensures coordinates == cp && color == col && resolution == res && name == nm
      ensures surfacePoints == SurfacePoints(cp, res)
    {
      var pts := ComputeSurfacePoints(cp, res);
      coordinates := cp;
      color := col;
      resolution := res;
      name := nm;
      surfacePoints := pts;
    }
  }

  /** `BezierPatch(control_points, color, resolution=20)`: the count is
      checked before the base constructor, so a rejected patch takes no
      name. */
  method NewBezierPatch(cp: seq<Point3>, color: string, resolution: nat, names: NameCounter)
    returns (r: Result<BezierPatch>)
    modifies names
    ensures r.Success? <==> |cp| == 16
    ensures r.Success? ==> (fresh(r.value) && names.count == old(names.count) + 1
      && r.value.name == NameOf("BP", names.count)
      && r.value.coordinates == cp && r.value.color == color && r.value.resolution == resolution
      && r.value.surfacePoints == SurfacePoints(cp, resolution)
      && |r.value.surfacePoints| == resolution * resolution)
    ensures r.Failure? ==> names.count == old(names.count) && r.error == PatchError
  {
    if |cp| != 16 {
      return Failure(PatchError);
    }
    var name := names.Fresh("BP");
    var p := new BezierPatch(cp, color, resolution, name);
    SurfacePointsLength(cp, resolution);
    return Success(p);
  }

  /** The default grid of `BezierPatch`. */
  const DefaultResolution: nat := 20
}
