/** Cubic Bézier curves (`Curve2D`): splitting the control points into
    4-point segments, sampling a segment, the de Casteljau midpoint split,
    and the depth-bounded subdivision clip that fills `clipped_segments`. */
module Bezier {
  import opened Geometry
  import opened Naming

  // ---------------------------------------------------------------------
  // Evaluation

  /** One coordinate of a cubic Bézier segment: the Bernstein form
      `(1-t)^3 a + 3 (1-t)^2 t b + 3 (1-t) t^2 c + t^3 d`. */
  function Bernstein(a: real, b: real, c: real, d: real, t: real): real {
    (1.0 - t) * (1.0 - t) * (1.0 - t) * a + 3.0 * (1.0 - t) * (1.0 - t) * t * b
    + 3.0 * (1.0 - t) * t * t * c + t * t * t * d
  }

  /** The point of the segment with control points `cp[0..4]` at `t`. */
  function BezierAt(cp: seq<Point2>, t: real): Point2
    requires |cp| >= 4
  {
    Point2(Bernstein(cp[0].x, cp[1].x, cp[2].x, cp[3].x, t),
           Bernstein(cp[0].y, cp[1].y, cp[2].y, cp[3].y, t))
  }

  /** `np.linspace(0, 1, n)[k]`. */
  function Linspace(k: nat, n: nat): (t: real)
    requires k < n
    ensures 0.0 <= t <= 1.0
    ensures k == 0 ==> t == 0.0
    ensures n >= 2 && k == n - 1 ==> t == 1.0
  {
    if n == 1 then 0.0 else k as real / (n - 1) as real
  }

  /** The curve starts at the first and ends at the last control point. */
  lemma BezierEnds(cp: seq<Point2>)
    requires |cp| >= 4
    ensures BezierAt(cp, 0.0) == cp[0]
    ensures BezierAt(cp, 1.0) == cp[3]
  {}

  lemma BernsteinReverse(a: real, b: real, c: real, d: real, t: real)
    ensures Bernstein(a, b, c, d, t) == Bernstein(d, c, b, a, 1.0 - t)
  {}

  /** A combination of four values in `[lo, hi]` with non-negative weights
      summing to one stays in `[lo, hi]`. */
  lemma ConvexCombination(w0: real, w1: real, w2: real, w3: real,
                          a: real, b: real, c: real, d: real, lo: real, hi: real)
    requires w0 >= 0.0 && w1 >= 0.0 && w2 >= 0.0 && w3 >= 0.0
    requires w0 + w1 + w2 + w3 == 1.0
    requires lo <= a <= hi && lo <= b <= hi && lo <= c <= hi && lo <= d <= hi
    ensures lo <= w0 * a + w1 * b + w2 * c + w3 * d <= hi
  {
    MulNonNeg(w0, a - lo); MulNonNeg(w1, b - lo); MulNonNeg(w2, c - lo); MulNonNeg(w3, d - lo);
    MulNonNeg(w0, hi - a); MulNonNeg(w1, hi - b); MulNonNeg(w2, hi - c); MulNonNeg(w3, hi - d);
    assert w0 * lo + w1 * lo + w2 * lo + w3 * lo == lo;
    assert w0 * hi + w1 * hi + w2 * hi + w3 * hi == hi;
  }

  /** The Bernstein weights at `t` in `[0, 1]` are non-negative and sum to
      one. */
  lemma BernsteinWeights(t: real)
    requires 0.0 <= t <= 1.0
    ensures (1.0 - t) * (1.0 - t) * (1.0 - t) >= 0.0
    ensures 3.0 * (1.0 - t) * (1.0 - t) * t >= 0.0
    ensures 3.0 * (1.0 - t) * t * t >= 0.0
    ensures t * t * t >= 0.0
    ensures (1.0 - t) * (1.0 - t) * (1.0 - t) + 3.0 * (1.0 - t) * (1.0 - t) * t
      + 3.0 * (1.0 - t) * t * t + t * t * t == 1.0
  {
    var s := 1.0 - t;
    MulNonNeg(s, s); MulNonNeg(s * s, s); MulNonNeg(s * s, t);
    MulNonNeg(t, t); MulNonNeg(t * t, t); MulNonNeg(s, t * t);
  }

  lemma BernsteinInRange(a: real, b: real, c: real, d: real, t: real, lo: real, hi: real)
    requires 0.0 <= t <= 1.0
    requires lo <= a <= hi && lo <= b <= hi && lo <= c <= hi && lo <= d <= hi
    ensures lo <= Bernstein(a, b, c, d, t) <= hi
  {
    BernsteinWeights(t);
    ConvexCombination((1.0 - t) * (1.0 - t) * (1.0 - t), 3.0 * (1.0 - t) * (1.0 - t) * t,
      3.0 * (1.0 - t) * t * t, t * t * t, a, b, c, d, lo, hi);
  }

  /** Convex hull property: when all four control points are in the window,
      so is the whole segment. This is what makes `_is_fully_inside` a
      sound accept test. */
  lemma BezierInHull(w: Rect, cp: seq<Point2>, t: real)
    requires |cp| >= 4 && 0.0 <= t <= 1.0
    requires forall i :: 0 <= i < 4 ==> InRect(w, cp[i])
    ensures InRect(w, BezierAt(cp, t))
  {
    assert InRect(w, cp[0]) && InRect(w, cp[1]) && InRect(w, cp[2]) && InRect(w, cp[3]);
    BernsteinInRange(cp[0].x, cp[1].x, cp[2].x, cp[3].x, t, w.xmin, w.xmax);
    BernsteinInRange(cp[0].y, cp[1].y, cp[2].y, cp[3].y, t, w.ymin, w.ymax);
  }

  /** `compute_bezier_points`: `steps` samples at `linspace(0, 1, steps)`. */
  method ComputeBezierPoints(controlPoints: seq<Point2>, steps: nat) returns (points: seq<Point2>)
    requires |controlPoints| >= 4
    ensures |points| == steps
    ensures forall k :: 0 <= k < steps ==> points[k] == BezierAt(controlPoints, Linspace(k, steps))
    ensures steps >= 2 ==> points[0] == controlPoints[0] && points[steps - 1] == controlPoints[3]
  {
    points := [];
    for k := 0 to steps
      invariant |points| == k
      invariant forall j :: 0 <= j < k ==> points[j] == BezierAt(controlPoints, Linspace(j, steps))
    {
      points := points + [BezierAt(controlPoints, Linspace(k, steps))];
    }
    BezierEnds(controlPoints);
  }

  // ---------------------------------------------------------------------
  // Segments

  /** How many `i = 0, 3, 6, ...` satisfy `i + 3 < n`. */
  function SegmentCount(n: nat): nat {
    if n < 4 then 0 else (n - 4) / 3 + 1
  }

  /** `get_bezier_segments`: the windows `coordinates[3j .. 3j+4]`. */
  function Segments(cs: seq<Point2>): (segs: seq<seq<Point2>>)
    ensures |segs| == SegmentCount(|cs|)
    ensures forall j :: 0 <= j < |segs| ==> 3 * j + 4 <= |cs| && segs[j] == cs[3 * j..3 * j + 4]
  {
    seq(SegmentCount(|cs|), j requires 0 <= j < SegmentCount(|cs|) => cs[3 * j..3 * j + 4])
  }

  /** A curve the editor accepts (`n >= 4`, `(n - 4) % 3 == 0`) has
      `(n - 1) / 3` segments, consecutive segments share an endpoint, and
      the last segment ends at the last control point. */
  lemma SegmentsOfValidCurve(cs: seq<Point2>)
    requires |cs| >= 4 && (|cs| - 4) % 3 == 0
    ensures |Segments(cs)| == (|cs| - 1) / 3
    ensures forall j :: 0 <= j < |Segments(cs)| - 1 ==> Segments(cs)[j][3] == Segments(cs)[j + 1][0]
    ensures Segments(cs)[0][0] == cs[0]
    ensures Segments(cs)[|Segments(cs)| - 1][3] == cs[|cs| - 1]
  {
    var m := (|cs| - 4) / 3;
    assert |cs| == 3 * m + 4;
  }

  /** Fewer than four control points give no segment. */
  lemma SegmentsShort(cs: seq<Point2>)
    requires |cs| < 4
    ensures Segments(cs) == []
  {}

  /** The `while i + 3 < n` loop of `get_bezier_segments`. */
  method GetBezierSegments(coordinates: seq<Point2>) returns (segments: seq<seq<Point2>>)
    ensures segments == Segments(coordinates)
  {
    segments := [];
    var n := |coordinates|;
    if n < 4 {
      return [];
    }
    var i := 0;
    while i + 3 < n
      invariant i == 3 * |segments| && |segments| <= SegmentCount(n)
      invariant forall j :: 0 <= j < |segments| ==> segments[j] == coordinates[3 * j..3 * j + 4]
      decreases n - i
    {
      segments := segments + [coordinates[i..i + 4]];
      i := i + 3;
    }
  }

  // ---------------------------------------------------------------------
  // de Casteljau

  function Mid(p: Point2, q: Point2): Point2 {
    Point2((p.x + q.x) / 2.0, (p.y + q.y) / 2.0)
  }

  /** One level of the construction: midpoints of neighbours. */
  function Midpoints(ps: seq<Point2>): (r: seq<Point2>)
    requires |ps| >= 1
    ensures |r| == |ps| - 1
  {
    seq(|ps| - 1, i requires 0 <= i < |ps| - 1 => Mid(ps[i], ps[i + 1]))
  }

  /** `points[k]` of `_de_casteljau_split`. */
  function Level(cp: seq<Point2>, k: nat): (r: seq<Point2>)
    requires k < |cp|
    ensures |r| == |cp| - k
  {
    if k == 0 then cp else Midpoints(Level(cp, k - 1))
  }

  /** The two halves: the first point of every level, and the last point
      of every level from the deepest up. */
  function Split(cp: seq<Point2>): (halves: (seq<Point2>, seq<Point2>))
    requires |cp| >= 1
    ensures |halves.0| == |cp| && |halves.1| == |cp|
    ensures halves.0[0] == cp[0] && halves.1[|cp| - 1] == cp[|cp| - 1]
    ensures halves.0[|cp| - 1] == halves.1[0]
  {
    var n := |cp|;
    (seq(n, k requires 0 <= k < n => Level(cp, k)[0]),
     seq(n, k requires 0 <= k < n => Level(cp, n - 1 - k)[k]))
  }

  /** The halves of a 4-point segment, written out. */
  lemma SplitFour(cp: seq<Point2>)
    requires |cp| == 4
    ensures var (l, r) := Split(cp);
      var p0, p1, p2, p3 := cp[0], cp[1], cp[2], cp[3];
      l[1] == Mid(p0, p1) && l[2] == Mid(Mid(p0, p1), Mid(p1, p2))
      && l[3] == Mid(Mid(Mid(p0, p1), Mid(p1, p2)), Mid(Mid(p1, p2), Mid(p2, p3)))
      && r[3] == p3 && r[2] == Mid(p2, p3) && r[1] == Mid(Mid(p1, p2), Mid(p2, p3))
  {
    assert Level(cp, 1) == [Mid(cp[0], cp[1]), Mid(cp[1], cp[2]), Mid(cp[2], cp[3])];
  }

  lemma BernsteinLeftHalf(a: real, b: real, c: real, d: real, t: real)
    ensures Bernstein(a, (a + b) / 2.0, (a + 2.0 * b + c) / 4.0, (a + 3.0 * b + 3.0 * c + d) / 8.0, t)
      == Bernstein(a, b, c, d, t / 2.0)
  {}

  lemma BernsteinRightHalf(a: real, b: real, c: real, d: real, t: real)
    ensures Bernstein((a + 3.0 * b + 3.0 * c + d) / 8.0, (b + 2.0 * c + d) / 4.0, (c + d) / 2.0, d, t)
      == Bernstein(a, b, c, d, (1.0 + t) / 2.0)
  {
    BernsteinReverse((a + 3.0 * b + 3.0 * c + d) / 8.0, (b + 2.0 * c + d) / 4.0, (c + d) / 2.0, d, t);
    BernsteinLeftHalf(d, c, b, a, 1.0 - t);
    assert (d + 3.0 * c + 3.0 * b + a) / 8.0 == (a + 3.0 * b + 3.0 * c + d) / 8.0;
    assert (d + 2.0 * c + b) / 4.0 == (b + 2.0 * c + d) / 4.0;
    BernsteinReverse(a, b, c, d, (1.0 + t) / 2.0);
    assert 1.0 - (1.0 + t) / 2.0 == (1.0 - t) / 2.0;
  }

  /** The split is exact: the left half traces the curve on `[0, 1/2]` and
      the right half on `[1/2, 1]`. */
  lemma SplitTracesCurve(cp: seq<Point2>, t: real)
    requires |cp| == 4
    ensures BezierAt(Split(cp).0, t) == BezierAt(cp, t / 2.0)
    ensures BezierAt(Split(cp).1, t) == BezierAt(cp, (1.0 + t) / 2.0)
  {
    SplitFour(cp);
    var (l, r) := Split(cp);
    assert l[1].x == (cp[0].x + cp[1].x) / 2.0;
    assert l[2].x == (cp[0].x + 2.0 * cp[1].x + cp[2].x) / 4.0;
    assert l[3].x == (cp[0].x + 3.0 * cp[1].x + 3.0 * cp[2].x + cp[3].x) / 8.0;
    assert l[1].y == (cp[0].y + cp[1].y) / 2.0;
    assert l[2].y == (cp[0].y + 2.0 * cp[1].y + cp[2].y) / 4.0;
    assert l[3].y == (cp[0].y + 3.0 * cp[1].y + 3.0 * cp[2].y + cp[3].y) / 8.0;
    assert r[0] == l[3];
    assert r[1].x == (cp[1].x + 2.0 * cp[2].x + cp[3].x) / 4.0;
    assert r[2].x == (cp[2].x + cp[3].x) / 2.0;
    assert r[1].y == (cp[1].y + 2.0 * cp[2].y + cp[3].y) / 4.0;
    assert r[2].y == (cp[2].y + cp[3].y) / 2.0;
    BernsteinLeftHalf(cp[0].x, cp[1].x, cp[2].x, cp[3].x, t);
    BernsteinLeftHalf(cp[0].y, cp[1].y, cp[2].y, cp[3].y, t);
    BernsteinRightHalf(cp[0].x, cp[1].x, cp[2].x, cp[3].x, t);
    BernsteinRightHalf(cp[0].y, cp[1].y, cp[2].y, cp[3].y, t);
  }

  /** The midpoint loop building one level. */
  method MidpointLevel(last: seq<Point2>) returns (newPoints: seq<Point2>)
    requires |last| >= 1
    ensures newPoints == Midpoints(last)
  {
    newPoints := [];
    for i := 0 to |last| - 1
      invariant |newPoints| == i
      invariant forall j :: 0 <= j < i ==> newPoints[j] == Mid(last[j], last[j + 1])
    {
      var p, q := last[i], last[i + 1];
      newPoints := newPoints + [Point2((p.x + q.x) / 2.0, (p.y + q.y) / 2.0)];
    }
  }

  /** `levels` are the first `|levels|` levels of the construction. */
  predicate LevelsOf(cp: seq<Point2>, levels: seq<seq<Point2>>) {
    |levels| <= |cp| && forall k :: 0 <= k < |levels| ==> levels[k] == Level(cp, k)
  }

  /** Adding the midpoints of the last level adds the next level. */
  lemma LevelsGrow(cp: seq<Point2>, levels: seq<seq<Point2>>)
    requires 1 <= |levels| < |cp| && LevelsOf(cp, levels)
    ensures LevelsOf(cp, levels + [Midpoints(levels[|levels| - 1])])
  {
    var m := |levels|;
    var next := levels + [Midpoints(levels[m - 1])];
    forall k | 0 <= k < m + 1
      ensures next[k] == Level(cp, k)
    {
      if k < m {
        assert next[k] == levels[k];
      } else {
        assert Level(cp, m) == Midpoints(Level(cp, m - 1));
      }
    }
  }

  /** `_de_casteljau_split`: grow the list of levels while the last one has
      more than one point, then read off the two halves. */
  method DeCasteljauSplit(controlPoints: seq<Point2>) returns (left: seq<Point2>, right: seq<Point2>)
    requires |controlPoints| >= 1
    ensures (left, right) == Split(controlPoints)
  {
    var points := [controlPoints];
    while |points[|points| - 1]| > 1
      invariant 1 <= |points| && LevelsOf(controlPoints, points)
      invariant |points[|points| - 1]| == |controlPoints| - (|points| - 1)
      decreases |controlPoints| - |points|
    {
      var newPoints := MidpointLevel(points[|points| - 1]);
      LevelsGrow(controlPoints, points);
      points := points + [newPoints];
    }
    var n := |points|;
    assert n == |controlPoints|;
    assert forall i :: 0 <= i < n ==> |points[i]| == n - i;
    left := seq(n, i requires 0 <= i < n => points[i][0]);
    right := seq(n, k requires 0 <= k < n => points[n - 1 - k][|points[n - 1 - k]| - 1]);
    HalvesFromLevels(controlPoints, points, left, right);
  }

  lemma HalvesFromLevels(cp: seq<Point2>, points: seq<seq<Point2>>, left: seq<Point2>, right: seq<Point2>)
    requires |points| == |cp| >= 1 && LevelsOf(cp, points)
    requires forall i :: 0 <= i < |points| ==> |points[i]| == |cp| - i
    requires |left| == |points| && forall i :: 0 <= i < |points| ==> left[i] == points[i][0]
    requires |right| == |points| && forall k :: 0 <= k < |points| ==> right[k] == points[|points| - 1 - k][k]
    ensures (left, right) == Split(cp)
  {
    var (l, r) := Split(cp);
    assert left == l;
    assert right == r;
  }

  // ---------------------------------------------------------------------
  // Subdivision clipping

  /** `_is_fully_inside`: every control point is in the window. */
  predicate FullyInside(w: Rect, seg: seq<Point2>) {
    forall p :: p in seg ==> InRect(w, p)
  }

  /** `_is_visible`: one of the samples at `linspace(0, 1, 10)` is in the
      window. */
  predicate Visible(w: Rect, seg: seq<Point2>)
    requires |seg| >= 4
  {
    exists k :: 0 <= k < 10 && InRect(w, BezierAt(seg, Linspace(k, 10)))
  }

  function Pow2(d: nat): (r: nat)
    ensures r >= 1
  {
    if d == 0 then 1 else 2 * Pow2(d - 1)
  }

  /** The segments `_clip_segment(segment, window, depth)` appends. */
  function ClipSegmentSpec(w: Rect, seg: seq<Point2>, depth: nat): seq<seq<Point2>>
    requires |seg| == 4
    decreases depth
  {
    if depth == 0 then (if Visible(w, seg) then [seg] else [])
    else if FullyInside(w, seg) then [seg]
    else
      var (l, r) := Split(seg);
      ClipSegmentSpec(w, l, depth - 1) + ClipSegmentSpec(w, r, depth - 1)
  }

  /** Above depth 0 a segment not fully inside is replaced by the pieces of
      its two halves. */
  lemma ClipSegmentSplits(w: Rect, seg: seq<Point2>, depth: nat, left: seq<Point2>, right: seq<Point2>)
    requires |seg| == 4 && depth > 0 && !FullyInside(w, seg) && (left, right) == Split(seg)
    ensures |left| == 4 && |right| == 4
    ensures ClipSegmentSpec(w, seg, depth) == ClipSegmentSpec(w, left, depth - 1) + ClipSegmentSpec(w, right, depth - 1)
  {}

  /** Regrouping the buffer after the two recursive calls; a separate lemma
      keeps that step out of the method's proof context. */
  lemma AppendAssoc(a: seq<seq<Point2>>, b: seq<seq<Point2>>, c: seq<seq<Point2>>)
    ensures (a + b) + c == a + (b + c)
  {}

  /** What `clip` leaves in `clipped_segments`. */
  function ClipCurveSpec(w: Rect, segs: seq<seq<Point2>>, maxDepth: nat): seq<seq<Point2>>
    requires forall s :: s in segs ==> |s| == 4
  {
    if segs == [] then []
    else ClipCurveSpec(w, segs[..|segs| - 1], maxDepth) + ClipSegmentSpec(w, segs[|segs| - 1], maxDepth)
  }

  /** At most `2^depth` pieces come out of one segment. */
  lemma {:induction false} ClipSegmentCount(w: Rect, seg: seq<Point2>, depth: nat)
    requires |seg| == 4
    decreases depth
    ensures |ClipSegmentSpec(w, seg, depth)| <= Pow2(depth)
  {
    if depth > 0 && !FullyInside(w, seg) {
      var (l, r) := Split(seg);
      ClipSegmentCount(w, l, depth - 1);
      ClipSegmentCount(w, r, depth - 1);
    }
  }

  /** Every piece is a 4-point segment that either has all its control
      points in the window, or was kept at the depth limit because one of
      its samples is in the window. */
  lemma {:induction false} ClipSegmentPieces(w: Rect, seg: seq<Point2>, depth: nat)
    requires |seg| == 4
    decreases depth
    ensures forall s :: s in ClipSegmentSpec(w, seg, depth) ==> |s| == 4 && (FullyInside(w, s) || Visible(w, s))
  {
    if depth > 0 && !FullyInside(w, seg) {
      var (l, r) := Split(seg);
      ClipSegmentPieces(w, l, depth - 1);
      ClipSegmentPieces(w, r, depth - 1);
    }
  }

  /** Every point of every piece is a point of the original segment: the
      pieces are arcs of the input curve. The lemma returns the parameter
      `u` of that point on the original segment. */
  lemma {:induction false} ClipSegmentOnCurve(w: Rect, seg: seq<Point2>, depth: nat, s: seq<Point2>, t: real)
    returns (u: real)
    requires |seg| == 4 && 0.0 <= t <= 1.0
    requires s in ClipSegmentSpec(w, seg, depth)
    decreases depth
    ensures |s| == 4
    ensures 0.0 <= u <= 1.0 && BezierAt(s, t) == BezierAt(seg, u)
  {
    if depth == 0 || FullyInside(w, seg) {
      assert s == seg;
      u := t;
    } else {
      var (l, r) := Split(seg);
      if s in ClipSegmentSpec(w, l, depth - 1) {
        var v := ClipSegmentOnCurve(w, l, depth - 1, s, t);
        SplitTracesCurve(seg, v);
        u := v / 2.0;
      } else {
        var v := ClipSegmentOnCurve(w, r, depth - 1, s, t);
        SplitTracesCurve(seg, v);
        u := (1.0 + v) / 2.0;
      }
    }
  }

  /** Above depth 0 a segment with every control point inside is kept
      whole; at depth 0 a segment is kept exactly when it is visible. */
  lemma ClipSegmentKeepsInside(w: Rect, seg: seq<Point2>, depth: nat)
    requires |seg| == 4
    ensures depth > 0 && FullyInside(w, seg) ==> ClipSegmentSpec(w, seg, depth) == [seg]
    ensures depth == 0 ==> (ClipSegmentSpec(w, seg, depth) == [seg] <==> Visible(w, seg))
    ensures depth == 0 ==> (ClipSegmentSpec(w, seg, depth) == [] <==> !Visible(w, seg))
  {}

  /** A segment fully inside is also visible, so it survives at any depth. */
  lemma ClipSegmentInsideAnyDepth(w: Rect, seg: seq<Point2>, depth: nat)
    requires |seg| == 4 && FullyInside(w, seg)
    ensures ClipSegmentSpec(w, seg, depth) == [seg]
  {
    if depth == 0 {
      assert seg[0] in seg;
      BezierEnds(seg);
      assert Linspace(0, 10) == 0.0;
      assert InRect(w, BezierAt(seg, Linspace(0, 10)));
    }
  }

  /** `_is_fully_inside`'s early-return loop. */
  method IsFullyInside(seg: seq<Point2>, w: Rect) returns (inside: bool)
    ensures inside == FullyInside(w, seg)
  {
    for i := 0 to |seg|
      invariant forall j :: 0 <= j < i ==> InRect(w, seg[j])
    {
      var p := seg[i];
      if !(w.xmin <= p.x <= w.xmax && w.ymin <= p.y <= w.ymax) {
        assert p in seg;
        return false;
      }
    }
    return true;
  }

  /** `_is_visible`'s early-return loop over ten samples. */
  method IsVisible(seg: seq<Point2>, w: Rect) returns (visible: bool)
    requires |seg| >= 4
    ensures visible == Visible(w, seg)
  {
    for k := 0 to 10
      invariant forall j :: 0 <= j < k ==> !InRect(w, BezierAt(seg, Linspace(j, 10)))
    {
      var p := BezierAt(seg, Linspace(k, 10));
      if w.xmin <= p.x <= w.xmax && w.ymin <= p.y <= w.ymax {
        return true;
      }
    }
    return false;
  }

  /** A `Curve2D`: its control points, colour, name and the buffer of
      clipped segments that `draw` renders. */
  class Curve2D {
    var coordinates: seq<Point2>
    var color: string
    const name: string
    var clippedSegments: seq<seq<Point2>>

    /** `Curve2D(coordinates, color)`: takes the next name from the shared
        counter and starts with no clipped segment. */
    constructor (coordinates: seq<Point2>, color: string, names: NameCounter)
      modifies names
      ensures names.count == old(names.count) + 1
      ensures name == NameOf("C", names.count)
      ensures this.coordinates == coordinates && this.color == color && clippedSegments == []
    {
      var n := names.Fresh("C");
      this.coordinates := coordinates;
      this.color := color;
      name := n;
      clippedSegments := [];
    }

    /** `_clip_segment`: appends the pieces of `segment` to the buffer. */
    method ClipSegment(segment: seq<Point2>, w: Rect, depth: nat)
      requires |segment| == 4
      modifies this
      ensures clippedSegments == old(clippedSegments) + ClipSegmentSpec(w, segment, depth)
      ensures coordinates == old(coordinates) && color == old(color)
      decreases depth
    {
      if depth == 0 {
        ClipSegmentKeepsInside(w, segment, depth);
        var visible := IsVisible(segment, w);
        if visible {
          clippedSegments := clippedSegments + [segment];
        }
        return;
      }
      var inside := IsFullyInside(segment, w);
      if inside {
        ClipSegmentKeepsInside(w, segment, depth);
        clippedSegments := clippedSegments + [segment];
        return;
      }
      var left, right := DeCasteljauSplit(segment);
      ClipSegmentSplits(w, segment, depth, left, right);
      ghost var before := clippedSegments;
      ClipSegment(left, w, depth - 1);
      ClipSegment(right, w, depth - 1);
      AppendAssoc(before, ClipSegmentSpec(w, left, depth - 1), ClipSegmentSpec(w, right, depth - 1));
    }

    /** `clip`: empties the buffer, then clips every segment. */
    method Clip(w: Rect, maxDepth: nat)
      modifies this
      ensures clippedSegments == ClipCurveSpec(w, Segments(coordinates), maxDepth)
      ensures coordinates == old(coordinates) && color == old(color)
    {
      clippedSegments := [];
      var segments := GetBezierSegments(coordinates);
      for i := 0 to |segments|
        invariant coordinates == old(coordinates) && color == old(color)
        invariant segments == Segments(coordinates)
        invariant clippedSegments == ClipCurveSpec(w, segments[..i], maxDepth)
      {
        assert segments[..i + 1][..i] == segments[..i];
        ClipSegment(segments[i], w, maxDepth);
      }
      assert segments[..|segments|] == segments;
    }
  }
}
