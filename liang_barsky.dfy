/** Liang-Barsky parametric line clipping (`clip_line_liang_barsky`).
    The line is `P(u) = p1 + u * (p2 - p1)`; each of the four window edges
    gives one inequality `u * p[k] <= q[k]`, and the scan narrows the
    parameter range `[u1, u2]`, starting from `[0, 1]`, to the parameters
    that satisfy all four. */
module LiangBarsky {
  import opened Geometry
  import opened Clipping

  /** The list `p = [-dx, dx, -dy, dy]`. */
  function LbP(s: Segment): (p: seq<real>)
    ensures |p| == 4
  {
    var dx, dy := s.p2.x - s.p1.x, s.p2.y - s.p1.y;
    [-dx, dx, -dy, dy]
  }

  /** The list `q`: the first endpoint's distance to each edge. */
  function LbQ(w: Rect, s: Segment): (q: seq<real>)
    ensures |q| == 4
  {
    [s.p1.x - w.xmin, w.xmax - s.p1.x, s.p1.y - w.ymin, w.ymax - s.p1.y]
  }

  /** The point of the line at parameter `u`. */
  function PointAt(s: Segment, u: real): Point2 {
    Point2(s.p1.x + u * (s.p2.x - s.p1.x), s.p1.y + u * (s.p2.y - s.p1.y))
  }

  /** The scan's state: rejected (an early `return None`) or the current
      parameter range. */
  datatype LbState = LbReject | LbRange(u1: real, u2: real)

  /** One iteration of the `zip(p, q)` loop. */
  function LbStep(st: LbState, pk: real, qk: real): LbState {
    match st
    case LbReject => LbReject
    case LbRange(u1, u2) =>
      if pk == 0.0 then (if qk < 0.0 then LbReject else st)
      else if pk < 0.0 then LbRange(Max(u1, qk / pk), u2)
      else LbRange(u1, Min(u2, qk / pk))
  }

  /** The state after the first `n` boundaries. */
  function LbScan(p: seq<real>, q: seq<real>, n: nat): LbState
    requires n <= |p| && n <= |q|
  {
    if n == 0 then LbRange(0.0, 1.0) else LbStep(LbScan(p, q, n - 1), p[n - 1], q[n - 1])
  }

  /** The parameter range of the whole scan, if the line survives it. */
  function LbRangeOf(w: Rect, s: Segment): (r: Option<(real, real)>)
    ensures r.Some? ==> 0.0 <= r.value.0 <= r.value.1 <= 1.0
  {
    var st := LbScan(LbP(s), LbQ(w, s), 4);
    LbScanBounds(LbP(s), LbQ(w, s), 4);
    if st.LbReject? || st.u1 > st.u2 then None else Some((st.u1, st.u2))
  }

  /** `clip_line_liang_barsky` as written: the second endpoint is computed
      from the already clipped first endpoint. */
  function LiangBarskyAsWritten(w: Rect, s: Segment): Option<Segment> {
    match LbRangeOf(w, s)
    case None => None
    case Some((u1, u2)) =>
      var dx, dy := s.p2.x - s.p1.x, s.p2.y - s.p1.y;
      var x1, y1 := s.p1.x + u1 * dx, s.p1.y + u1 * dy;
      Some(Segment(Point2(x1, y1), Point2(x1 + u2 * dx, y1 + u2 * dy)))
  }

  /** Liang-Barsky as intended: both endpoints from the original first
      endpoint. */
  function LiangBarskySpec(w: Rect, s: Segment): Option<Segment> {
    match LbRangeOf(w, s)
    case None => None
    case Some((u1, u2)) => Some(Segment(PointAt(s, u1), PointAt(s, u2)))
  }

  // ---------------------------------------------------------------------
  // Properties of the scan

  /** The range only ever narrows from `[0, 1]`. */
  lemma {:induction false} LbScanBounds(p: seq<real>, q: seq<real>, n: nat)
    requires n <= |p| && n <= |q|
    ensures LbScan(p, q, n).LbRange? ==> 0.0 <= LbScan(p, q, n).u1 && LbScan(p, q, n).u2 <= 1.0
  {
    if n > 0 {
      LbScanBounds(p, q, n - 1);
    }
  }

  /** Once rejected, the scan stays rejected. */
  lemma {:induction false} LbRejectSticky(p: seq<real>, q: seq<real>, m: nat, n: nat)
    requires m <= n <= |p| && n <= |q|
    requires LbScan(p, q, m) == LbReject
    ensures LbScan(p, q, n) == LbReject
    decreases n - m
  {
    if m < n {
      LbRejectSticky(p, q, m + 1, n);
    }
  }

  lemma MulLeNeg(u: real, p: real, q: real)
    requires p < 0.0 && u >= q / p
    ensures u * p <= q
  {
    assert (u - q / p) * p <= 0.0;
    assert (q / p) * p == q;
  }

  lemma MulLePos(u: real, p: real, q: real)
    requires p > 0.0 && u <= q / p
    ensures u * p <= q
  {
    assert (q / p - u) * p >= 0.0;
    assert (q / p) * p == q;
  }

  lemma MulLeNegConverse(u: real, p: real, q: real)
    requires p < 0.0 && u * p <= q
    ensures u >= q / p
  {
    assert (u * p) / p == u;
    assert (q - u * p) / p <= 0.0 by { DivNonNeg(q - u * p, -p); DivNeg(q - u * p, p); }
    DivSplit(q, u * p, p);
  }

  lemma MulLePosConverse(u: real, p: real, q: real)
    requires p > 0.0 && u * p <= q
    ensures u <= q / p
  {
    assert (u * p) / p == u;
    DivNonNeg(q - u * p, p);
    DivSplit(q, u * p, p);
  }

  /** `u` meets the inequalities of the first `n` boundaries. */
  predicate MeetsAll(p: seq<real>, q: seq<real>, u: real, n: nat)
    requires n <= |p| && n <= |q|
  {
    forall k :: 0 <= k < n ==> u * p[k] <= q[k]
  }

  /** Every parameter of the surviving range meets the first `n`
      inequalities. */
  lemma {:induction false} LbScanSound(p: seq<real>, q: seq<real>, n: nat, u: real)
    requires n <= |p| && n <= |q|
    requires LbScan(p, q, n).LbRange? && LbScan(p, q, n).u1 <= u <= LbScan(p, q, n).u2
    ensures MeetsAll(p, q, u, n)
  {
    if n > 0 {
      var prev := LbScan(p, q, n - 1);
      assert prev.LbRange?;
      LbScanSound(p, q, n - 1, u);
      var pk, qk := p[n - 1], q[n - 1];
      if pk < 0.0 {
        MulLeNeg(u, pk, qk);
      } else if pk > 0.0 {
        MulLePos(u, pk, qk);
      }
    }
  }

  /** Conversely, every parameter in `[0, 1]` that meets the first `n`
      inequalities lies in the surviving range. */
  lemma {:induction false} LbScanComplete(p: seq<real>, q: seq<real>, n: nat, u: real)
    requires n <= |p| && n <= |q|
    requires 0.0 <= u <= 1.0
    requires MeetsAll(p, q, u, n)
    ensures LbScan(p, q, n).LbRange? && LbScan(p, q, n).u1 <= u <= LbScan(p, q, n).u2
  {
    if n > 0 {
      LbScanComplete(p, q, n - 1, u);
      var pk, qk := p[n - 1], q[n - 1];
      assert u * pk <= qk;
      if pk < 0.0 {
        MulLeNegConverse(u, pk, qk);
      } else if pk > 0.0 {
        MulLePosConverse(u, pk, qk);
      }
    }
  }

  /** `MeetsAll` for the four boundaries, spelled out. */
  lemma MeetsAllFour(p: seq<real>, q: seq<real>, u: real)
    requires |p| == 4 && |q| == 4
    ensures MeetsAll(p, q, u, 4)
      <==> u * p[0] <= q[0] && u * p[1] <= q[1] && u * p[2] <= q[2] && u * p[3] <= q[3]
  {
    if u * p[0] <= q[0] && u * p[1] <= q[1] && u * p[2] <= q[2] && u * p[3] <= q[3] {
      forall k | 0 <= k < 4
        ensures u * p[k] <= q[k]
      {
        assert k == 0 || k == 1 || k == 2 || k == 3;
      }
    }
  }

  /** One axis: the point `a + u*d` lies in `[lo, hi]` exactly when it
      meets that axis's two inequalities. */
  lemma AxisInside(x: real, a: real, d: real, lo: real, hi: real, u: real,
                    pLo: real, pHi: real, qLo: real, qHi: real)
    requires x == a + u * d
    requires pLo == -d && pHi == d && qLo == a - lo && qHi == hi - a
    ensures (lo <= x <= hi) <==> (u * pLo <= qLo && u * pHi <= qHi)
  {
    assert u * pLo == -(u * d);
  }

  /** The `x` boundaries: `P(u)` is between the vertical edges exactly
      when `u` meets the first two inequalities. */
  lemma PointAtInsideX(w: Rect, s: Segment, u: real)
    ensures (w.xmin <= PointAt(s, u).x <= w.xmax) <==> (u * LbP(s)[0] <= LbQ(w, s)[0] && u * LbP(s)[1] <= LbQ(w, s)[1])
  {
    AxisInside(PointAt(s, u).x, s.p1.x, s.p2.x - s.p1.x, w.xmin, w.xmax, u, LbP(s)[0], LbP(s)[1], LbQ(w, s)[0], LbQ(w, s)[1]);
  }

  /** The `y` boundaries, likewise. */
  lemma PointAtInsideY(w: Rect, s: Segment, u: real)
    ensures (w.ymin <= PointAt(s, u).y <= w.ymax) <==> (u * LbP(s)[2] <= LbQ(w, s)[2] && u * LbP(s)[3] <= LbQ(w, s)[3])
  {
    AxisInside(PointAt(s, u).y, s.p1.y, s.p2.y - s.p1.y, w.ymin, w.ymax, u, LbP(s)[2], LbP(s)[3], LbQ(w, s)[2], LbQ(w, s)[3]);
  }

  /** The four inequalities say exactly that `P(u)` is in the window. */
  lemma PointAtInside(w: Rect, s: Segment, u: real)
    ensures InRect(w, PointAt(s, u)) <==> MeetsAll(LbP(s), LbQ(w, s), u, 4)
  {
    PointAtInsideX(w, s, u);
    PointAtInsideY(w, s, u);
    MeetsAllFour(LbP(s), LbQ(w, s), u);
  }

  // ---------------------------------------------------------------------
  // Properties of the corrected clipper

  /** The clipped line lies in the window. */
  lemma LiangBarskyInside(w: Rect, s: Segment)
    requires LiangBarskySpec(w, s).Some?
    ensures InRect(w, LiangBarskySpec(w, s).value.p1)
    ensures InRect(w, LiangBarskySpec(w, s).value.p2)
  {
    var st := LbScan(LbP(s), LbQ(w, s), 4);
    LbScanSound(LbP(s), LbQ(w, s), 4, st.u1);
    LbScanSound(LbP(s), LbQ(w, s), 4, st.u2);
    PointAtInside(w, s, st.u1);
    PointAtInside(w, s, st.u2);
  }

  /** The exact characterisation: a point of the original line (parameter
      `u` in `[0, 1]`) is in the window if and only if it is on the clipped
      line, and the line is rejected exactly when no point of it is in the
      window. */
  lemma LiangBarskyExact(w: Rect, s: Segment, u: real)
    requires 0.0 <= u <= 1.0
    ensures InRect(w, PointAt(s, u))
      <==> LbRangeOf(w, s).Some? && LbRangeOf(w, s).value.0 <= u <= LbRangeOf(w, s).value.1
  {
    var p, q := LbP(s), LbQ(w, s);
    PointAtInside(w, s, u);
    if InRect(w, PointAt(s, u)) {
      LbScanComplete(p, q, 4, u);
    }
    if LbRangeOf(w, s).Some? && LbRangeOf(w, s).value.0 <= u <= LbRangeOf(w, s).value.1 {
      LbScanSound(p, q, 4, u);
    }
  }

  /** A line whose endpoints are both inside comes back unchanged. */
  lemma LiangBarskyKeepsInside(w: Rect, s: Segment)
    requires InRect(w, s.p1) && InRect(w, s.p2)
    ensures LiangBarskySpec(w, s) == Some(s)
  {
    assert PointAt(s, 0.0) == s.p1;
    assert PointAt(s, 1.0) == s.p2;
    LiangBarskyExact(w, s, 0.0);
    LiangBarskyExact(w, s, 1.0);
    var st := LbScan(LbP(s), LbQ(w, s), 4);
    LbScanBounds(LbP(s), LbQ(w, s), 4);
    assert st.u1 == 0.0 && st.u2 == 1.0;
  }

  /** As written, the second endpoint can leave the window: the line from
      (-10, 5) to (5, 5) against the window (0, 0)-(10, 10) comes back as
      (0, 5)-(15, 5); the intended answer is (0, 5)-(5, 5). */
  lemma LiangBarskyAsWrittenOvershoots()
    ensures var w := Rect(0.0, 0.0, 10.0, 10.0);
      var s := Segment(Point2(-10.0, 5.0), Point2(5.0, 5.0));
      LiangBarskyAsWritten(w, s) == Some(Segment(Point2(0.0, 5.0), Point2(15.0, 5.0)))
      && !InRect(w, Point2(15.0, 5.0))
      && LiangBarskySpec(w, s) == Some(Segment(Point2(0.0, 5.0), Point2(5.0, 5.0)))
  {
    var w := Rect(0.0, 0.0, 10.0, 10.0);
    var s := Segment(Point2(-10.0, 5.0), Point2(5.0, 5.0));
    assert LbP(s) == [-15.0, 15.0, 0.0, 0.0];
    assert LbQ(w, s) == [-10.0, 20.0, 5.0, 5.0];
    assert LbScan(LbP(s), LbQ(w, s), 1) == LbRange(2.0 / 3.0, 1.0);
    assert LbScan(LbP(s), LbQ(w, s), 2) == LbRange(2.0 / 3.0, 1.0);
    assert LbScan(LbP(s), LbQ(w, s), 4) == LbRange(2.0 / 3.0, 1.0);
  }

  // ---------------------------------------------------------------------
  // Properties of the clipper as written

  /** The clipper as written and the intended one accept the same lines:
      those whose scan leaves a range. */
  lemma LiangBarskyAsWrittenAccepts(w: Rect, s: Segment)
    ensures LiangBarskyAsWritten(w, s).Some? <==> LbRangeOf(w, s).Some?
    ensures LiangBarskySpec(w, s).Some? <==> LbRangeOf(w, s).Some?
  {
    match LbRangeOf(w, s)
    case None =>
    case Some((u1, u2)) =>
  }

  /** For a surviving range `[u1, u2]` both clippers start at the line's
      point at `u1`; as written the second endpoint is the point at
      `u1 + u2` rather than at `u2`, and the two agree exactly when `u1` is
      0 or the line has no length. */
  lemma LiangBarskyAsWrittenVsSpec(w: Rect, s: Segment, u1: real, u2: real)
    requires LbRangeOf(w, s) == Some((u1, u2))
    ensures LiangBarskyAsWritten(w, s) == Some(Segment(PointAt(s, u1), PointAt(s, u1 + u2)))
    ensures LiangBarskySpec(w, s) == Some(Segment(PointAt(s, u1), PointAt(s, u2)))
    ensures PointAt(s, u1 + u2) == PointAt(s, u2) <==> u1 == 0.0 || s.p1 == s.p2
  {
    var dx, dy := s.p2.x - s.p1.x, s.p2.y - s.p1.y;
    AsWrittenOfRange(w, s, u1, u2, dx, dy);
    SecondEndpointAxis(s.p1.x, s.p2.x, u1, u2);
    SecondEndpointAxis(s.p1.y, s.p2.y, u1, u2);
    var x1, y1 := s.p1.x + u1 * dx, s.p1.y + u1 * dy;
    assert Point2(x1, y1) == PointAt(s, u1);
    assert Point2(x1 + u2 * dx, y1 + u2 * dy) == PointAt(s, u1 + u2);
  }

  /** One coordinate of the second endpoint: measured from the clipped
      start it is the point at `u1 + u2`, which is the point at `u2` exactly
      when `u1` is 0 or the coordinate does not change along the line. */
  lemma SecondEndpointAxis(a: real, b: real, u1: real, u2: real)
    ensures (a + u1 * (b - a)) + u2 * (b - a) == a + (u1 + u2) * (b - a)
    ensures (a + u1 * (b - a)) + u2 * (b - a) == a + u2 * (b - a) <==> u1 == 0.0 || a == b
  {
    if u1 != 0.0 && u1 * (b - a) == 0.0 {
      ZeroProduct(u1, b - a);
    }
  }

  lemma ZeroProduct(a: real, b: real)
    requires a != 0.0 && a * b == 0.0
    ensures b == 0.0
  {
    assert b == (a * b) / a;
  }

  /** The clipper as written, for a known surviving range and the line's
      deltas `dx`, `dy`. */
  lemma AsWrittenOfRange(w: Rect, s: Segment, u1: real, u2: real, dx: real, dy: real)
    requires LbRangeOf(w, s) == Some((u1, u2))
    requires dx == s.p2.x - s.p1.x && dy == s.p2.y - s.p1.y
    ensures var x1, y1 := s.p1.x + u1 * dx, s.p1.y + u1 * dy;
      LiangBarskyAsWritten(w, s) == Some(Segment(Point2(x1, y1), Point2(x1 + u2 * dx, y1 + u2 * dy)))
  {
    var a := LiangBarskyAsWritten(w, s).value;
    assert a.p1.x == s.p1.x + u1 * dx;
    assert a.p2.x == a.p1.x + u2 * dx;
    assert a.p1.y == s.p1.y + u1 * dy;
    assert a.p2.y == a.p1.y + u2 * dy;
    assert a == Segment(Point2(a.p1.x, a.p1.y), Point2(a.p2.x, a.p2.y));
  }

  /** The first endpoint as written is in the window. */
  lemma LiangBarskyAsWrittenFirstInside(w: Rect, s: Segment)
    requires LiangBarskyAsWritten(w, s).Some?
    ensures InRect(w, LiangBarskyAsWritten(w, s).value.p1)
  {
    LiangBarskyAsWrittenAccepts(w, s);
    var (u1, u2) := LbRangeOf(w, s).value;
    LiangBarskyAsWrittenVsSpec(w, s, u1, u2);
    LiangBarskyInside(w, s);
  }

  /** A line whose endpoints are both inside comes back unchanged, as
      written too: then `u1` is 0 and `u2` is 1. */
  lemma LiangBarskyAsWrittenKeepsInside(w: Rect, s: Segment)
    requires InRect(w, s.p1) && InRect(w, s.p2)
    ensures LiangBarskyAsWritten(w, s) == Some(s)
  {
    assert PointAt(s, 0.0) == s.p1;
    assert PointAt(s, 1.0) == s.p2;
    LiangBarskyExact(w, s, 0.0);
    LiangBarskyExact(w, s, 1.0);
    assert LbRangeOf(w, s) == Some((0.0, 1.0));
  }

  // ---------------------------------------------------------------------
  // The loop

  /** The `for pi, qi in zip(p, q)` scan with its early `return None`;
      `None` here is a rejected line. */
  method ScanBoundaries(p: seq<real>, q: seq<real>) returns (r: Option<(real, real)>)
    requires |p| == 4 && |q| == 4
    ensures r.None? <==> LbScan(p, q, 4).LbReject?
    ensures r.Some? ==> LbScan(p, q, 4) == LbRange(r.value.0, r.value.1)
  {
    var u1, u2 := 0.0, 1.0;
    for k := 0 to 4
      invariant LbScan(p, q, k) == LbRange(u1, u2)
    {
      var pk, qk := p[k], q[k];
      if pk == 0.0 {
        if qk < 0.0 {
          LbRejectSticky(p, q, k + 1, 4);
          return None;
        }
      } else {
        var u := qk / pk;
        if pk < 0.0 {
          u1 := Max(u1, u);
        } else {
          u2 := Min(u2, u);
        }
      }
    }
    return Some((u1, u2));
  }

  /** `clip_line_liang_barsky` as the editor runs it: after the scan the
      first endpoint is overwritten and the second is measured from it. */
  method LiangBarskyClipAsWritten(w: Rect, line: Segment) returns (r: Option<Segment>)
    ensures r == LiangBarskyAsWritten(w, line)
    ensures r.Some? <==> LiangBarskySpec(w, line).Some?
    ensures r.Some? ==>
      InRect(w, r.value.p1) && r.value.p2 == PointAt(line, LbRangeOf(w, line).value.0 + LbRangeOf(w, line).value.1)
  {
    var x1, y1, x2, y2 := line.p1.x, line.p1.y, line.p2.x, line.p2.y;
    var dx, dy := x2 - x1, y2 - y1;
    var range := ScanBoundaries(LbP(line), LbQ(w, line));
    if range.None? {
      return None;
    }
    var (u1, u2) := range.value;
    if u1 > u2 {
      return None;
    }
    assert LbRangeOf(w, line) == Some((u1, u2));
    x1 := x1 + u1 * dx;
    y1 := y1 + u1 * dy;
    x2 := x1 + u2 * dx;
    y2 := y1 + u2 * dy;
    r := Some(Segment(Point2(x1, y1), Point2(x2, y2)));
    AsWrittenOfRange(w, line, u1, u2, dx, dy);
    LiangBarskyAsWrittenAccepts(w, line);
    LiangBarskyAsWrittenVsSpec(w, line, u1, u2);
    LiangBarskyAsWrittenFirstInside(w, line);
  }

  /** `clip_line_liang_barsky` with the second endpoint measured from the
      original first endpoint. */
  method LiangBarskyClip(w: Rect, line: Segment) returns (r: Option<Segment>)
    ensures r == LiangBarskySpec(w, line)
    ensures r.Some? ==> InRect(w, r.value.p1) && InRect(w, r.value.p2)
  {
    var x1, y1, x2, y2 := line.p1.x, line.p1.y, line.p2.x, line.p2.y;
    var dx, dy := x2 - x1, y2 - y1;
    var range := ScanBoundaries(LbP(line), LbQ(w, line));
    if range.None? {
      return None;
    }
    var (u1, u2) := range.value;
    if u1 > u2 {
      return None;
    }
    assert LbRangeOf(w, line) == Some((u1, u2));
    r := Some(Segment(Point2(x1 + u1 * dx, y1 + u1 * dy), Point2(x1 + u2 * dx, y1 + u2 * dy)));
    assert Point2(x1 + u1 * dx, y1 + u1 * dy) == PointAt(line, u1);
    assert Point2(x1 + u2 * dx, y1 + u2 * dy) == PointAt(line, u2);
    LiangBarskyInside(w, line);
  }
}
