/** Uniform cubic B-splines (`BSpline` of objects.py): validation, the
    power-form coefficients of each 4-point segment, forward-difference
    marching, consecutive-duplicate removal and the control-point
    bounding-box visibility test. */
module BSplines {
  import opened Geometry
  import opened Naming

  // ---------------------------------------------------------------------
  // Coefficients

  /** A cubic `a t^3 + b t^2 + c t + d` on one axis. */
  datatype Cubic = Cubic(a: real, b: real, c: real, d: real)

  function Eval(p: Cubic, t: real): real {
    p.a * t * t * t + p.b * t * t + p.c * t + p.d
  }

  /** `_calculate_coefficients` for one axis of the control points
      `p0 .. p3`. */
  function AxisCoefficients(p0: real, p1: real, p2: real, p3: real): (k: Cubic)
    ensures Eval(k, 0.0) == (p0 + 4.0 * p1 + p2) / 6.0
    ensures Eval(k, 1.0) == (p1 + 4.0 * p2 + p3) / 6.0
  {
    Cubic((-p0 + 3.0 * p1 - 3.0 * p2 + p3) / 6.0,
          (3.0 * p0 - 6.0 * p1 + 3.0 * p2) / 6.0,
          (-3.0 * p0 + 3.0 * p2) / 6.0,
          (p0 + 4.0 * p1 + p2) / 6.0)
  }

  /** The power form agrees with the uniform cubic B-spline basis
      `((1-t)^3, 3t^3 - 6t^2 + 4, -3t^3 + 3t^2 + 3t + 1, t^3) / 6`. */
  lemma CoefficientsAreBasis(p0: real, p1: real, p2: real, p3: real, t: real)
    ensures Eval(AxisCoefficients(p0, p1, p2, p3), t)
      == ((1.0 - t) * (1.0 - t) * (1.0 - t) * p0
          + (3.0 * t * t * t - 6.0 * t * t + 4.0) * p1
          + (-3.0 * t * t * t + 3.0 * t * t + 3.0 * t + 1.0) * p2
          + t * t * t * p3) / 6.0
  {}

  /** Consecutive segments join: segment `i` ends where segment `i + 1`
      (control points shifted by one) starts. */
  lemma SegmentsJoin(p0: real, p1: real, p2: real, p3: real, p4: real)
    ensures Eval(AxisCoefficients(p0, p1, p2, p3), 1.0) == Eval(AxisCoefficients(p1, p2, p3, p4), 0.0)
  {}

  /** One point of segment `cp` at parameter `t`. */
  function SegmentPoint(cp: seq<Point2>, t: real): Point2
    requires |cp| == 4
  {
    Point2(Eval(AxisCoefficients(cp[0].x, cp[1].x, cp[2].x, cp[3].x), t),
           Eval(AxisCoefficients(cp[0].y, cp[1].y, cp[2].y, cp[3].y), t))
  }

  // ---------------------------------------------------------------------
  // Forward differences

  lemma CubeThirdDifference(t: real, h: real)
    ensures (t + 3.0 * h) * (t + 3.0 * h) * (t + 3.0 * h) - 3.0 * ((t + 2.0 * h) * (t + 2.0 * h) * (t + 2.0 * h))
      + 3.0 * ((t + h) * (t + h) * (t + h)) - t * t * t == 6.0 * (h * h * h)
  {}

  lemma SquareThirdDifference(t: real, h: real)
    ensures (t + 3.0 * h) * (t + 3.0 * h) - 3.0 * ((t + 2.0 * h) * (t + 2.0 * h))
      + 3.0 * ((t + h) * (t + h)) - t * t == 0.0
  {}

  /** `a * X - 3 (a * Y) + 3 (a * Z) - a * W == a * k` when
      `X - 3Y + 3Z - W == k`. */
  lemma ScaleDifference(a: real, x: real, y: real, z: real, w: real, k: real)
    requires x - 3.0 * y + 3.0 * z - w == k
    ensures a * x - 3.0 * (a * y) + 3.0 * (a * z) - a * w == a * k
  {}

  /** The cubic with its powers grouped. */
  lemma EvalPowers(p: Cubic, s: real)
    ensures Eval(p, s) == p.a * (s * s * s) + p.b * (s * s) + p.c * s + p.d
  {}

  /** The third difference of a cubic with step `h` is the constant
      `6 a h^3`. */
  lemma ThirdDifference(p: Cubic, t: real, h: real)
    ensures Eval(p, t + 3.0 * h) - 3.0 * Eval(p, t + 2.0 * h) + 3.0 * Eval(p, t + h) - Eval(p, t)
      == 6.0 * p.a * (h * h * h)
  {
    var t3, t2, t1 := t + 3.0 * h, t + 2.0 * h, t + h;
    CubeThirdDifference(t, h);
    SquareThirdDifference(t, h);
    ScaleDifference(p.a, t3 * t3 * t3, t2 * t2 * t2, t1 * t1 * t1, t * t * t, 6.0 * (h * h * h));
    ScaleDifference(p.b, t3 * t3, t2 * t2, t1 * t1, t * t, 0.0);
    ScaleDifference(p.c, t3, t2, t1, t, 0.0);
    EvalPowers(p, t3);
    EvalPowers(p, t2);
    EvalPowers(p, t1);
    EvalPowers(p, t);
    assert p.a * (6.0 * (h * h * h)) == 6.0 * p.a * (h * h * h);
  }

  /** The same difference written with repeated steps `t + h + h + h`. */
  lemma ThirdDifferenceSteps(p: Cubic, t: real, h: real)
    ensures Eval(p, t + h + h + h) - 3.0 * Eval(p, t + h + h) + 3.0 * Eval(p, t + h) - Eval(p, t)
      == 6.0 * p.a * (h * h * h)
  {
    ThirdDifference(p, t, h);
    assert t + h + h + h == t + 3.0 * h;
    assert t + h + h == t + 2.0 * h;
  }

  /** The starting differences the source computes are the first, second
      and third differences of the cubic at 0. */
  lemma InitialDifferences(p: Cubic, h: real)
    ensures p.d == Eval(p, 0.0)
    ensures p.c * h + p.b * (h * h) + p.a * (h * h * h) == Eval(p, 0.0 + h) - Eval(p, 0.0)
    ensures 2.0 * p.b * (h * h) + 6.0 * p.a * (h * h * h)
      == Eval(p, 0.0 + h + h) - 2.0 * Eval(p, 0.0 + h) + Eval(p, 0.0)
  {
    assert 0.0 + h + h == 2.0 * h;
  }

  /** The state of one axis of the march at parameter `t`: the value, first
      and second differences at `t`, and the constant third difference. */
  predicate MarchState(p: Cubic, h: real, t: real, v: real, d1: real, d2: real, d3: real) {
    v == Eval(p, t)
    && d1 == Eval(p, t + h) - Eval(p, t)
    && d2 == Eval(p, t + h + h) - 2.0 * Eval(p, t + h) + Eval(p, t)
    && d3 == 6.0 * p.a * (h * h * h)
  }

  /** The starting values `_compute_segment` assigns, with `h2 = h^2` and
      `h3 = h^3`, are the march state at `t = 0`. */
  lemma MarchStart(p: Cubic, h: real, h2: real, h3: real, v: real, d1: real, d2: real, d3: real)
    requires h2 == h * h && h3 == h * h * h
    requires v == p.d && d1 == p.c * h + p.b * h2 + p.a * h3
    requires d2 == 2.0 * p.b * h2 + 6.0 * p.a * h3 && d3 == 6.0 * p.a * h3
    ensures MarchState(p, h, 0.0, v, d1, d2, d3)
  {
    InitialDifferences(p, h);
  }

  /** The update of one step, on plain values. */
  lemma DifferenceUpdate(e0: real, e1: real, e2: real, e3: real, v: real, d1: real, d2: real, d3: real)
    requires v == e0 && d1 == e1 - e0 && d2 == e2 - 2.0 * e1 + e0
    requires d3 == e3 - 3.0 * e2 + 3.0 * e1 - e0
    ensures v + d1 == e1 && d1 + d2 == e2 - e1 && d2 + d3 == e3 - 2.0 * e2 + e1
  {}

  /** One step `x += dx; dx += d2x; d2x += d3x` keeps the march exact. */
  lemma MarchStep(p: Cubic, h: real, t: real, v: real, d1: real, d2: real, d3: real)
    requires MarchState(p, h, t, v, d1, d2, d3)
    ensures MarchState(p, h, t + h, v + d1, d1 + d2, d2 + d3, d3)
  {
    ThirdDifferenceSteps(p, t, h);
    DifferenceUpdate(Eval(p, t), Eval(p, t + h), Eval(p, t + h + h), Eval(p, t + h + h + h), v, d1, d2, d3);
  }

  /** The points `_compute_segment` returns: `[]` unless there are exactly
      four control points, else `steps` points, point `k` being the cubic
      at `t = k / steps`. */
  function SegmentSpec(cp: seq<Point2>, steps: nat): (pts: seq<Point2>)
    requires |cp| == 4 ==> steps > 0
    ensures |cp| != 4 ==> pts == []
    ensures |cp| == 4 ==> |pts| == steps
  {
    if |cp| != 4 then []
    else seq(steps, k requires 0 <= k < steps => SegmentPoint(cp, k as real / steps as real))
  }

  /** Adding the step `1/steps` moves the parameter from `k/steps` to
      `(k+1)/steps`. */
  lemma NextParameter(k: nat, steps: nat, delta: real)
    requires steps > 0 && delta == 1.0 / steps as real
    ensures k as real / steps as real + delta == (k + 1) as real / steps as real
  {}

  /** `_compute_segment(control_points, steps)`: forward-difference
      marching on both axes. */
  method ComputeSegment(controlPoints: seq<Point2>, steps: nat) returns (points: seq<Point2>)
    requires |controlPoints| == 4 ==> steps > 0
    ensures points == SegmentSpec(controlPoints, steps)
  {
    if |controlPoints| != 4 {
      return [];
    }
    var cp := controlPoints;
    var px := AxisCoefficients(cp[0].x, cp[1].x, cp[2].x, cp[3].x);
    var py := AxisCoefficients(cp[0].y, cp[1].y, cp[2].y, cp[3].y);
    points := [];
    var delta := 1.0 / steps as real;
    var delta2 := delta * delta;
    var delta3 := delta * delta * delta;

    var x := px.d;
    var dx := px.c * delta + px.b * delta2 + px.a * delta3;
    var d2x := 2.0 * px.b * delta2 + 6.0 * px.a * delta3;
    var d3x := 6.0 * px.a * delta3;

    var y := py.d;
    var dy := py.c * delta + py.b * delta2 + py.a * delta3;
    var d2y := 2.0 * py.b * delta2 + 6.0 * py.a * delta3;
    var d3y := 6.0 * py.a * delta3;

    MarchStart(px, delta, delta2, delta3, x, dx, d2x, d3x);
    MarchStart(py, delta, delta2, delta3, y, dy, d2y, d3y);
    ghost var t := 0.0;
    for k := 0 to steps
      invariant |points| == k
      invariant forall j :: 0 <= j < k ==> points[j] == SegmentPoint(cp, j as real / steps as real)
      invariant t == k as real / steps as real
      invariant MarchState(px, delta, t, x, dx, d2x, d3x)
      invariant MarchState(py, delta, t, y, dy, d2y, d3y)
    {
      assert Point2(x, y) == SegmentPoint(cp, t);
      points := points + [Point2(x, y)];
      MarchStep(px, delta, t, x, dx, d2x, d3x);
      MarchStep(py, delta, t, y, dy, d2y, d3y);
      NextParameter(k, steps, delta);
      t := t + delta;
      x := x + dx;
      dx := dx + d2x;
      d2x := d2x + d3x;

      y := y + dy;
      dy := dy + d2y;
      d2y := d2y + d3y;
    }
  }

  // ---------------------------------------------------------------------
  // Duplicate removal

  /** 1e-6, the tolerance of `_remove_duplicate_points`. */
  const Eps: real := 0.000001

  function Abs(v: real): real { if v < 0.0 then -v else v }

  /** `p` is kept after `prev`: it differs by more than `Eps` on some axis. */
  predicate Far(p: Point2, prev: Point2) {
    Abs(p.x - prev.x) > Eps || Abs(p.y - prev.y) > Eps
  }

  /** The points kept from `ps` when the last kept point so far is `prev`. */
  function DedupFrom(ps: seq<Point2>, prev: Option<Point2>): seq<Point2> {
    if ps == [] then []
    else if prev.None? || Far(ps[0], prev.value) then [ps[0]] + DedupFrom(ps[1..], Some(ps[0]))
    else DedupFrom(ps[1..], prev)
  }

  function Dedup(ps: seq<Point2>): seq<Point2> {
    DedupFrom(ps, None)
  }

  /** `sub` is `ps` with some elements left out, the rest in order. */
  predicate Subsequence(sub: seq<Point2>, ps: seq<Point2>)
    decreases |ps|
  {
    if sub == [] then true
    else if ps == [] then false
    else if sub[0] == ps[0] then Subsequence(sub[1..], ps[1..])
    else Subsequence(sub, ps[1..])
  }

  /** The kept points are a subsequence of the input. */
  lemma {:induction false} DedupSubsequence(ps: seq<Point2>, prev: Option<Point2>)
    ensures Subsequence(DedupFrom(ps, prev), ps)
    decreases |ps|
  {
    if ps != [] {
      DedupSubsequence(ps[1..], if prev.None? || Far(ps[0], prev.value) then Some(ps[0]) else prev);
      if !(prev.None? || Far(ps[0], prev.value)) {
        SubsequenceSkip(DedupFrom(ps[1..], prev), ps);
      }
    }
  }

  /** Skipping one more input element keeps a subsequence. */
  lemma {:induction false} SubsequenceSkip(sub: seq<Point2>, ps: seq<Point2>)
    requires ps != [] && Subsequence(sub, ps[1..])
    ensures Subsequence(sub, ps)
    decreases |ps|, |sub|
  {
    if sub != [] && sub[0] == ps[0] {
      SubsequenceDropHead(sub, ps[1..]);
    }
  }

  /** Dropping the first element of a subsequence keeps a subsequence. */
  lemma {:induction false} SubsequenceDropHead(sub: seq<Point2>, ps: seq<Point2>)
    requires sub != [] && Subsequence(sub, ps)
    ensures Subsequence(sub[1..], ps)
    decreases |ps|, |sub|
  {
    if sub[0] != ps[0] {
      SubsequenceDropHead(sub, ps[1..]);
    }
    if sub[1..] != [] {
      SubsequenceSkip(sub[1..], ps);
    }
  }

  /** The first point is always kept. */
  lemma DedupKeepsFirst(ps: seq<Point2>)
    requires ps != []
    ensures Dedup(ps) != [] && Dedup(ps)[0] == ps[0]
  {}

  /** Each kept point is far from the point kept before it (or from `prev`). */
  lemma {:induction false} DedupSeparated(ps: seq<Point2>, prev: Option<Point2>)
    ensures var r := DedupFrom(ps, prev);
      (r != [] && prev.Some? ==> Far(r[0], prev.value))
      && forall i :: 0 <= i < |r| - 1 ==> Far(r[i + 1], r[i])
    decreases |ps|
  {
    if ps != [] {
      if prev.None? || Far(ps[0], prev.value) {
        var rest := DedupFrom(ps[1..], Some(ps[0]));
        DedupSeparated(ps[1..], Some(ps[0]));
        var r := DedupFrom(ps, prev);
        assert r == [ps[0]] + rest;
        forall i | 0 <= i < |r| - 1
          ensures Far(r[i + 1], r[i])
        {
          if i > 0 {
            assert r[i + 1] == rest[i] && r[i] == rest[i - 1];
          }
        }
      } else {
        assert DedupFrom(ps, prev) == DedupFrom(ps[1..], prev);
        DedupSeparated(ps[1..], prev);
      }
    }
  }

  /** A list whose consecutive points are already far apart is unchanged. */
  lemma {:induction false} DedupKeepsSeparated(ps: seq<Point2>, prev: Option<Point2>)
    requires ps != [] && prev.Some? ==> Far(ps[0], prev.value)
    requires forall i :: 0 <= i < |ps| - 1 ==> Far(ps[i + 1], ps[i])
    ensures DedupFrom(ps, prev) == ps
    decreases |ps|
  {
    if ps != [] {
      DedupKeepsSeparated(ps[1..], Some(ps[0]));
    }
  }

  /** `_remove_duplicate_points`' loop over the points with `prev`. */
  method RemoveDuplicatePoints(points: seq<Point2>) returns (unique: seq<Point2>)
    ensures unique == Dedup(points)
  {
    unique := [];
    var prev: Option<Point2> := None;
    for i := 0 to |points|
      invariant unique + DedupFrom(points[i..], prev) == Dedup(points)
    {
      var p := points[i];
      assert points[i..][1..] == points[i + 1..];
      if prev.None? || Abs(p.x - prev.value.x) > Eps || Abs(p.y - prev.value.y) > Eps {
        unique := unique + [p];
        prev := Some(p);
      }
    }
  }

  // ---------------------------------------------------------------------
  // The whole curve

  /** `_validate_input` accepts the control points. */
  predicate ValidInput(n: nat, degree: nat) {
    n >= 4 && n >= degree + 1
  }

  /** The message `_validate_input` raises, if any. */
  function ValidationError(n: nat, degree: nat): (e: Option<string>)
    ensures e.None? <==> ValidInput(n, degree)
  {
    if n < 4 then Some("B-Spline requer pelo menos 4 pontos de controle")
    else if n < degree + 1 then
      Some("Grau " + Decimal(degree) + " requer pelo menos " + Decimal(degree + 1) + " pontos")
    else None
  }

  /** The points of the first `m` segments, before duplicate removal. */
  function RawCurve(coords: seq<Point2>, degree: nat, m: nat): seq<Point2>
    requires m <= |coords| - degree
  {
    if m == 0 then []
    else RawCurve(coords, degree, m - 1) + SegmentSpec(coords[m - 1..m - 1 + degree + 1], 100)
  }

  /** What `_compute_entire_curve` leaves in `curve_points`. */
  function EntireCurve(coords: seq<Point2>, degree: nat): seq<Point2>
    requires |coords| >= degree
  {
    Dedup(RawCurve(coords, degree, |coords| - degree))
  }

  /** For the cubic case there are `n - 3` segments of 100 points each,
      segment `i` starting at index `100 i`; for any other degree every
      segment has the wrong size and the curve is empty. */
  lemma {:induction false} RawCurveShape(coords: seq<Point2>, degree: nat, m: nat)
    requires m <= |coords| - degree
    ensures degree == 3 ==> |RawCurve(coords, degree, m)| == 100 * m
    ensures degree == 3 ==> (forall j :: 0 <= j < 100 * m ==> (j / 100 + 4 <= |coords| &&
      RawCurve(coords, degree, m)[j] == SegmentPoint(coords[j / 100..j / 100 + 4], (j % 100) as real / 100.0)))
    ensures degree != 3 ==> RawCurve(coords, degree, m) == []
  {
    if m > 0 {
      RawCurveShape(coords, degree, m - 1);
      if degree == 3 {
        var prefix := RawCurve(coords, degree, m - 1);
        var last := SegmentSpec(coords[m - 1..m + 3], 100);
        assert RawCurve(coords, degree, m) == prefix + last;
        forall j | 0 <= j < 100 * m
          ensures j / 100 + 4 <= |coords|
          ensures RawCurve(coords, degree, m)[j] == SegmentPoint(coords[j / 100..j / 100 + 4], (j % 100) as real / 100.0)
        {
          if j < 100 * (m - 1) {
            assert RawCurve(coords, degree, m)[j] == prefix[j];
          } else {
            assert j / 100 == m - 1;
            assert RawCurve(coords, degree, m)[j] == last[j - 100 * (m - 1)];
          }
        }
      }
    }
  }

  // ---------------------------------------------------------------------
  // Bounding-box visibility

  function MinX(cs: seq<Point2>): (m: real)
    requires cs != []
    ensures forall p :: p in cs ==> m <= p.x
    ensures exists p :: p in cs && p.x == m
  {
    if |cs| == 1 then cs[0].x
    else var r := MinX(cs[1..]); assert cs[1] in cs[1..]; if cs[0].x <= r then cs[0].x else r
  }

  function MaxX(cs: seq<Point2>): (m: real)
    requires cs != []
    ensures forall p :: p in cs ==> p.x <= m
    ensures exists p :: p in cs && p.x == m
  {
    if |cs| == 1 then cs[0].x
    else var r := MaxX(cs[1..]); assert cs[1] in cs[1..]; if cs[0].x >= r then cs[0].x else r
  }

  function MinY(cs: seq<Point2>): (m: real)
    requires cs != []
    ensures forall p :: p in cs ==> m <= p.y
    ensures exists p :: p in cs && p.y == m
  {
    if |cs| == 1 then cs[0].y
    else var r := MinY(cs[1..]); assert cs[1] in cs[1..]; if cs[0].y <= r then cs[0].y else r
  }

  function MaxY(cs: seq<Point2>): (m: real)
    requires cs != []
    ensures forall p :: p in cs ==> p.y <= m
    ensures exists p :: p in cs && p.y == m
  {
    if |cs| == 1 then cs[0].y
    else var r := MaxY(cs[1..]); assert cs[1] in cs[1..]; if cs[0].y >= r then cs[0].y else r
  }

  /** The test in `clip`: the control points' bounding box meets the
      window. */
  predicate BoxVisible(cs: seq<Point2>, w: Rect)
    requires cs != []
  {
    !(MaxX(cs) < w.xmin || MinX(cs) > w.xmax || MaxY(cs) < w.ymin || MinY(cs) > w.ymax)
  }

  /** The curve is hidden exactly when every control point lies strictly
      beyond one and the same side of the window. */
  lemma BoxVisibleIff(cs: seq<Point2>, w: Rect)
    requires cs != []
    ensures !BoxVisible(cs, w) <==>
      (forall p :: p in cs ==> p.x < w.xmin) || (forall p :: p in cs ==> p.x > w.xmax)
      || (forall p :: p in cs ==> p.y < w.ymin) || (forall p :: p in cs ==> p.y > w.ymax)
  {
    assert cs[0] in cs;
  }

  /** The points `draw` keeps: the curve points inside the clip window. */
  function InsidePoints(pts: seq<Point2>, w: Rect): (r: seq<Point2>)
    ensures forall p :: p in r <==> p in pts && InRect(w, p)
  {
    if pts == [] then []
    else (if InRect(w, pts[0]) then [pts[0]] else []) + InsidePoints(pts[1..], w)
  }

  /** The filter keeps the curve's order: the points of a concatenation
      are the points of each part, in turn. */
  lemma {:induction false} InsidePointsAppend(a: seq<Point2>, b: seq<Point2>, w: Rect)
    ensures InsidePoints(a + b, w) == InsidePoints(a, w) + InsidePoints(b, w)
  {
    if a != [] {
      assert (a + b)[0] == a[0];
      assert (a + b)[1..] == a[1..] + b;
      InsidePointsAppend(a[1..], b, w);
    } else {
      assert a + b == b;
    }
  }

  /** One point is kept exactly when it is inside. */
  lemma InsidePointsSingle(p: Point2, w: Rect)
    ensures InsidePoints([p], w) == (if InRect(w, p) then [p] else [])
  {
    assert [p][1..] == [];
  }

  /** The kept points are a subsequence of the curve points. */
  lemma {:induction false} InsidePointsSubsequence(pts: seq<Point2>, w: Rect)
    ensures Subsequence(InsidePoints(pts, w), pts)
  {
    if pts != [] {
      var rest := InsidePoints(pts[1..], w);
      InsidePointsSubsequence(pts[1..], w);
      if InRect(w, pts[0]) {
        assert InsidePoints(pts, w) == [pts[0]] + rest;
        assert ([pts[0]] + rest)[1..] == rest;
      } else {
        assert InsidePoints(pts, w) == rest;
        SubsequenceSkip(rest, pts);
      }
    }
  }

  // ---------------------------------------------------------------------
  // The object

  class BSpline {
    var coordinates: seq<Point2>
    var color: string
    const name: string
    const degree: nat
    var curvePoints: seq<Point2>
    var visible: bool
    var window: Option<Rect>

    /** The part of `__init__` after a successful `_validate_input`: the
        name has already been drawn from the counter. */
    constructor (coords: seq<Point2>, col: string, deg: nat, nm: string)
      requires ValidInput(|coords|, deg)
      ensures coordinates == coords && color == col && degree == deg && name == nm
      ensures curvePoints == EntireCurve(coords, deg)
      ensures window == None
    {
      coordinates := coords;
      color := col;
      degree := deg;
      name := nm;
      curvePoints := [];
      visible := false;
      window := None;
      new;
      ComputeEntireCurve();
    }

    /** `_compute_entire_curve`: one segment per `i in range(n - degree)`,
        then duplicate removal. */
    method ComputeEntireCurve()
      requires |coordinates| >= degree
      modifies this
      ensures coordinates == old(coordinates) && color == old(color)
      ensures visible == old(visible) && window == old(window)
      ensures curvePoints == EntireCurve(coordinates, degree)
    {
      var n := |coordinates|;
      curvePoints := [];
      for i := 0 to n - degree
        invariant coordinates == old(coordinates) && color == old(color)
        invariant visible == old(visible) && window == old(window)
        invariant curvePoints == RawCurve(coordinates, degree, i)
      {
        var segment := coordinates[i..i + degree + 1];
        var pts := ComputeSegment(segment, 100);
        curvePoints := curvePoints + pts;
      }
      curvePoints := RemoveDuplicatePoints(curvePoints);
    }

    /** `_point_inside_clip_window`. */
    predicate PointInsideClipWindow(x: real, y: real)
      reads this
      requires window.Some?
    {
      InRect(window.value, Point2(x, y))
    }

    /** `clip`: the bounding-box test, and the window kept for `draw`. */
    method Clip(clipWindow: Rect)
      requires coordinates != []
      modifies this
      ensures coordinates == old(coordinates) && curvePoints == old(curvePoints) && color == old(color)
      ensures visible == BoxVisible(coordinates, clipWindow)
      ensures window == Some(clipWindow)
    {
      var cs := coordinates;
      visible := !(MaxX(cs) < clipWindow.xmin || MinX(cs) > clipWindow.xmax
                   || MaxY(cs) < clipWindow.ymin || MinY(cs) > clipWindow.ymax);
      window := Some(clipWindow);
    }
  }

  /** `BSpline(coordinates, color, degree)`: the name is drawn from the
      counter before `_validate_input` runs, so a rejected spline still
      uses up a number. */
  method NewBSpline(coordinates: seq<Point2>, color: string, degree: nat, names: NameCounter)
    returns (r: Result<BSpline>)
    modifies names
    ensures names.count == old(names.count) + 1
    ensures r.Success? <==> ValidInput(|coordinates|, degree)
    ensures r.Success? ==> (fresh(r.value) && r.value.coordinates == coordinates
      && r.value.color == color && r.value.degree == degree
      && r.value.name == NameOf("B", names.count)
      && r.value.curvePoints == EntireCurve(coordinates, degree))
    ensures r.Failure? ==> Some(r.error) == ValidationError(|coordinates|, degree)
  {
    var name := names.Fresh("B");
    var err := ValidationError(|coordinates|, degree);
    if err.Some? {
      return Failure(err.value);
    }
    var b := new BSpline(coordinates, color, degree, name);
    return Success(b);
  }
}
