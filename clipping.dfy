/** The window clipping engine of graphics_system.py: the point test,
    Cohen-Sutherland with 4-bit outcodes, Liang-Barsky parametric clipping
    and Sutherland-Hodgman polygon clipping. Every operation here is a pure
    computation on the window rectangle; building the `Line`/`Polygon`
    objects that hold a clipped result (which bumps the name counter) is done
    by the editor (module Editor). */
module Clipping {
  import opened Geometry

  /** A line's two endpoints. */
  datatype Segment = Segment(p1: Point2, p2: Point2)

  // ---------------------------------------------------------------------
  // Outcodes

  const INSIDE: bv4 := 0
  const LEFT: bv4 := 1
  const RIGHT: bv4 := 2
  const BOTTOM: bv4 := 4
  const TOP: bv4 := 8

  /** `compute_out_code`: LEFT/RIGHT from x, BOTTOM/TOP from y, each pair
      tested with `if ... elif`. */
  function OutCode(w: Rect, p: Point2): (code: bv4)
    ensures code == INSIDE <==> InRect(w, p)
    ensures code & (LEFT | RIGHT) != LEFT | RIGHT
    ensures code & (BOTTOM | TOP) != BOTTOM | TOP
  {
    (if p.x < w.xmin then LEFT else if p.x > w.xmax then RIGHT else INSIDE)
    | (if p.y < w.ymin then BOTTOM else if p.y > w.ymax then TOP else INSIDE)
  }

  /** Each outcode bit, as the comparison that sets it. */
  lemma OutCodeBits(w: Rect, p: Point2)
    ensures (OutCode(w, p) & LEFT != 0) == (p.x < w.xmin)
    ensures (OutCode(w, p) & RIGHT != 0) == (!(p.x < w.xmin) && p.x > w.xmax)
    ensures (OutCode(w, p) & BOTTOM != 0) == (p.y < w.ymin)
    ensures (OutCode(w, p) & TOP != 0) == (!(p.y < w.ymin) && p.y > w.ymax)
  {}

  /** Number of set bits. */
  function Popcount(c: bv4): nat {
    (if c & 1 != 0 then 1 else 0) + (if c & 2 != 0 then 1 else 0)
    + (if c & 4 != 0 then 1 else 0) + (if c & 8 != 0 then 1 else 0)
  }

  lemma PopcountSubset(n: bv4, o: bv4)
    requires n & o == n && n != o
    ensures Popcount(n) < Popcount(o)
  {}

  // ---------------------------------------------------------------------
  // Cohen-Sutherland

  /** Neither endpoint is accepted nor is the line trivially rejected: the
      loop has to clip. */
  predicate Partial(w: Rect, s: Segment) {
    var c1, c2 := OutCode(w, s.p1), OutCode(w, s.p2);
    c1 | c2 != 0 && c1 & c2 == 0
  }

  /** `code_out`: the first endpoint's code if it is outside, else the second's. */
  function CodeOut(w: Rect, s: Segment): bv4 {
    var c1 := OutCode(w, s.p1);
    if c1 != 0 then c1 else OutCode(w, s.p2)
  }

  /** For a partial line, the edge the chosen endpoint is clipped against
      separates the two endpoints along its axis, so the interpolation never
      divides by zero (the source's `if y2 != y1` guards never fire). */
  lemma PartialDistinct(w: Rect, s: Segment)
    requires Partial(w, s)
    ensures CodeOut(w, s) & (TOP | BOTTOM) != 0 ==> s.p1.y != s.p2.y
    ensures CodeOut(w, s) & (TOP | BOTTOM) == 0 ==> s.p1.x != s.p2.x
  {
    OutCodeBits(w, s.p1);
    OutCodeBits(w, s.p2);
  }

  /** The value on the second axis where the line through `(a1, b1)` and
      `(a2, b2)` reaches `c` on the first axis. */
  function Interpolate(a1: real, b1: real, a2: real, b2: real, c: real): real
    requires a1 != a2
  {
    b1 + (b2 - b1) * (c - a1) / (a2 - a1)
  }

  /** Interpolating at a value `c` between the endpoints on the first axis
      lands between them on the second axis. */
  lemma InterpolateBetween(a1: real, b1: real, a2: real, b2: real, c: real)
    requires a1 != a2 && Between(c, a1, a2)
    ensures Between(Interpolate(a1, b1, a2, b2, c), b1, b2)
  {
    RatioInUnit(a1, a2, c);
    var t := (c - a1) / (a2 - a1);
    MulDiv(b2 - b1, c - a1, a2 - a1);
    assert Interpolate(a1, b1, a2, b2, c) == b1 + (b2 - b1) * t;
    LerpBetween(b1, b2, t);
  }

  /** The edge `code_out` names: its first set bit in the order TOP,
      BOTTOM, RIGHT, LEFT. */
  function Chosen(out: bv4): bv4 {
    if out & TOP != 0 then TOP else if out & BOTTOM != 0 then BOTTOM
    else if out & RIGHT != 0 then RIGHT else LEFT
  }

  /** The same fact stated for the edge the loop actually picks. */
  lemma ChosenSeparates(w: Rect, s: Segment)
    requires Partial(w, s)
    ensures Chosen(CodeOut(w, s)) == TOP || Chosen(CodeOut(w, s)) == BOTTOM ==> s.p1.y != s.p2.y
    ensures Chosen(CodeOut(w, s)) == RIGHT || Chosen(CodeOut(w, s)) == LEFT ==> s.p1.x != s.p2.x
  {
    PartialDistinct(w, s);
  }

  /** `q` lies on the boundary line of the edge `bit`. */
  predicate OnEdge(w: Rect, bit: bv4, q: Point2) {
    if bit == TOP then q.y == w.ymax else if bit == BOTTOM then q.y == w.ymin
    else if bit == RIGHT then q.x == w.xmax else q.x == w.xmin
  }

  /** The point where the line meets the edge named by `code_out`. */
  function CsIntersection(w: Rect, s: Segment): Point2
    requires Partial(w, s)
  {
    var x1, y1, x2, y2 := s.p1.x, s.p1.y, s.p2.x, s.p2.y;
    PartialDistinct(w, s);
    match Chosen(CodeOut(w, s))
    case TOP => Point2(Interpolate(y1, x1, y2, x2, w.ymax), w.ymax)
    case BOTTOM => Point2(Interpolate(y1, x1, y2, x2, w.ymin), w.ymin)
    case RIGHT => Point2(w.xmax, Interpolate(x1, y1, x2, y2, w.xmax))
    case _ => Point2(w.xmin, Interpolate(x1, y1, x2, y2, w.xmin))
  }

  /** Replace the endpoint `code_out` came from by `q`. */
  function Replace(w: Rect, s: Segment, q: Point2): Segment {
    if CodeOut(w, s) == OutCode(w, s.p1) then Segment(q, s.p2) else Segment(s.p1, q)
  }

  /** One pass of the loop body: the outside endpoint moves to the edge. */
  function CsStep(w: Rect, s: Segment): Segment
    requires Partial(w, s)
  {
    Replace(w, s, CsIntersection(w, s))
  }

  /** Termination measure: 0 once the loop will stop, otherwise one more
      than the number of edges some endpoint is still outside of. */
  function CsMeasure(w: Rect, s: Segment): nat {
    if Partial(w, s) then 1 + Popcount(OutCode(w, s.p1) | OutCode(w, s.p2)) else 0
  }

  /** Moving the outside endpoint to any point of the chosen edge that lies
      between the endpoints clears that edge from both codes and sets no
      edge that neither endpoint was outside of. */
  lemma ReplaceShrinks(w: Rect, s: Segment, q: Point2)
    requires Partial(w, s)
    requires OnEdge(w, Chosen(CodeOut(w, s)), q)
    requires Between(q.x, s.p1.x, s.p2.x) && Between(q.y, s.p1.y, s.p2.y)
    ensures CsMeasure(w, Replace(w, s, q)) < CsMeasure(w, s)
  {
    OutCodeBits(w, s.p1);
    OutCodeBits(w, s.p2);
    OutCodeBits(w, q);
    var s' := Replace(w, s, q);
    if Partial(w, s') {
      var o := OutCode(w, s.p1) | OutCode(w, s.p2);
      var n := OutCode(w, s'.p1) | OutCode(w, s'.p2);
      PopcountSubset(n, o);
    }
  }

  /** The intersection lies on the chosen edge, between the endpoints,
      unless the window is inverted on that axis, in which case both
      endpoints of the next line share an outcode bit. */
  lemma CsIntersectionFacts(w: Rect, s: Segment)
    requires Partial(w, s)
    ensures var q := CsIntersection(w, s);
      (OnEdge(w, Chosen(CodeOut(w, s)), q) && Between(q.x, s.p1.x, s.p2.x) && Between(q.y, s.p1.y, s.p2.y))
      || OutCode(w, CsStep(w, s).p1) & OutCode(w, CsStep(w, s).p2) != 0
  {
    var q := CsIntersection(w, s);
    var x1, y1, x2, y2 := s.p1.x, s.p1.y, s.p2.x, s.p2.y;
    OutCodeBits(w, s.p1);
    OutCodeBits(w, s.p2);
    OutCodeBits(w, q);
    PartialDistinct(w, s);
    match Chosen(CodeOut(w, s))
    case TOP =>
      if Between(w.ymax, y1, y2) {
        InterpolateBetween(y1, x1, y2, x2, w.ymax);
      } else {
        // upside-down window: the moved point and the other endpoint are
        // both below ymin
        assert OutCode(w, CsStep(w, s).p1) & OutCode(w, CsStep(w, s).p2) & BOTTOM != 0;
      }
    case BOTTOM =>
      InterpolateBetween(y1, x1, y2, x2, w.ymin);
    case RIGHT =>
      if Between(w.xmax, x1, x2) {
        InterpolateBetween(x1, y1, x2, y2, w.xmax);
      } else {
        assert OutCode(w, CsStep(w, s).p1) & OutCode(w, CsStep(w, s).p2) & LEFT != 0;
      }
    case _ =>
      InterpolateBetween(x1, y1, x2, y2, w.xmin);
  }

  /** Each pass of the loop brings it closer to stopping. */
  lemma CsStepDecreases(w: Rect, s: Segment)
    requires Partial(w, s)
    ensures CsMeasure(w, CsStep(w, s)) < CsMeasure(w, s)
  {
    CsIntersectionFacts(w, s);
    var q := CsIntersection(w, s);
    if OnEdge(w, Chosen(CodeOut(w, s)), q) && Between(q.x, s.p1.x, s.p2.x) && Between(q.y, s.p1.y, s.p2.y) {
      ReplaceShrinks(w, s, q);
    }
  }

  /** The Cohen-Sutherland loop as a recursive definition. */
  function CohenSutherlandSpec(w: Rect, s: Segment): Option<Segment>
    decreases CsMeasure(w, s)
  {
    var c1, c2 := OutCode(w, s.p1), OutCode(w, s.p2);
    if c1 | c2 == 0 then Some(s)
    else if c1 & c2 != 0 then None
    else
      CsStepDecreases(w, s);
      CohenSutherlandSpec(w, CsStep(w, s))
  }

  /** Every line Cohen-Sutherland accepts lies inside the window, and its
      endpoints stay within the bounding box of the original line. */
  lemma {:induction false} CohenSutherlandSound(w: Rect, s: Segment)
    requires CohenSutherlandSpec(w, s).Some?
    ensures InRect(w, CohenSutherlandSpec(w, s).value.p1)
    ensures InRect(w, CohenSutherlandSpec(w, s).value.p2)
    ensures var r := CohenSutherlandSpec(w, s).value;
      Between(r.p1.x, s.p1.x, s.p2.x) && Between(r.p1.y, s.p1.y, s.p2.y)
      && Between(r.p2.x, s.p1.x, s.p2.x) && Between(r.p2.y, s.p1.y, s.p2.y)
    decreases CsMeasure(w, s)
  {
    if OutCode(w, s.p1) | OutCode(w, s.p2) != 0 {
      CsStepDecreases(w, s);
      var s' := CsStep(w, s);
      CohenSutherlandSound(w, s');
      CsIntersectionFacts(w, s);
    }
  }

  /** A partial line clips to whatever its next line clips to. */
  lemma CsUnfold(w: Rect, s: Segment)
    requires Partial(w, s)
    ensures CohenSutherlandSpec(w, s) == CohenSutherlandSpec(w, CsStep(w, s))
  {}

  /** `clip_line_cohen_sutherland`: the `while True` loop with its guarded
      interpolations, returning the clipped endpoints or None. */
  method CohenSutherland(w: Rect, line: Segment) returns (r: Option<Segment>)
    ensures r == CohenSutherlandSpec(w, line)
    ensures OutCode(w, line.p1) | OutCode(w, line.p2) == 0 ==> r == Some(line)
    ensures OutCode(w, line.p1) & OutCode(w, line.p2) != 0 ==> r == None
    ensures r.Some? ==> InRect(w, r.value.p1) && InRect(w, r.value.p2)
  {
    var x1, y1, x2, y2 := line.p1.x, line.p1.y, line.p2.x, line.p2.y;
    var codeStart := OutCode(w, Point2(x1, y1));
    var codeEnd := OutCode(w, Point2(x2, y2));
    while true
      invariant codeStart == OutCode(w, Point2(x1, y1))
      invariant codeEnd == OutCode(w, Point2(x2, y2))
      invariant CohenSutherlandSpec(w, Segment(Point2(x1, y1), Point2(x2, y2))) == CohenSutherlandSpec(w, line)
      decreases CsMeasure(w, Segment(Point2(x1, y1), Point2(x2, y2)))
    {
      ghost var s := Segment(Point2(x1, y1), Point2(x2, y2));
      if codeStart | codeEnd == 0 {
        r := Some(Segment(Point2(x1, y1), Point2(x2, y2)));
        CohenSutherlandSound(w, line);
        return;
      } else if codeStart & codeEnd != 0 {
        return None;
      }
      var codeOut := if codeStart != 0 then codeStart else codeEnd;
      var x, y;
      if codeOut & TOP != 0 {
        x := if y2 != y1 then Interpolate(y1, x1, y2, x2, w.ymax) else x1;
        y := w.ymax;
      } else if codeOut & BOTTOM != 0 {
        x := if y2 != y1 then Interpolate(y1, x1, y2, x2, w.ymin) else x1;
        y := w.ymin;
      } else if codeOut & RIGHT != 0 {
        y := if x2 != x1 then Interpolate(x1, y1, x2, y2, w.xmax) else y1;
        x := w.xmax;
      } else {
        y := if x2 != x1 then Interpolate(x1, y1, x2, y2, w.xmin) else y1;
        x := w.xmin;
      }
      PartialDistinct(w, s);
      assert Point2(x, y) == CsIntersection(w, s);
      CsStepDecreases(w, s);
      CsUnfold(w, s);
      if codeOut == codeStart {
        x1, y1 := x, y;
        codeStart := OutCode(w, Point2(x1, y1));
      } else {
        x2, y2 := x, y;
        codeEnd := OutCode(w, Point2(x2, y2));
      }
    }
  }
}
