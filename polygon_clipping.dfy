/** Sutherland-Hodgman polygon clipping (`clip_polygon`): the vertex list is
    clipped against the left, right, bottom and top edges of the window in
    turn, and the polygon is dropped as soon as a stage leaves no vertex. */
module PolygonClipping {
  import opened Geometry

  /** The four window edges, in the order the source visits them. */
  datatype Boundary = Left | Right | Bottom | Top

  const Edges: seq<Boundary> := [Left, Right, Bottom, Top]

  /** `is_inside_left` ... `is_inside_top`: the closed half-plane of one edge. */
  predicate InsideEdge(w: Rect, e: Boundary, p: Point2) {
    match e
    case Left => p.x >= w.xmin
    case Right => p.x <= w.xmax
    case Bottom => p.y >= w.ymin
    case Top => p.y <= w.ymax
  }

  /** A point in every half-plane is in the window. */
  lemma InsideAllEdges(w: Rect, p: Point2)
    ensures InRect(w, p) <==> forall e :: InsideEdge(w, e, p)
  {
    if forall e :: InsideEdge(w, e, p) {
      assert InsideEdge(w, Left, p) && InsideEdge(w, Right, p);
      assert InsideEdge(w, Bottom, p) && InsideEdge(w, Top, p);
    }
  }

  /** `Edges` lists every boundary. */
  lemma EdgesCover(w: Rect, p: Point2, e: Boundary)
    requires forall j :: 0 <= j < 4 ==> InsideEdge(w, Edges[j], p)
    ensures InsideEdge(w, e, p)
  {
    assert InsideEdge(w, Edges[0], p) && InsideEdge(w, Edges[1], p);
    assert InsideEdge(w, Edges[2], p) && InsideEdge(w, Edges[3], p);
  }

  /** The edge's boundary line. */
  predicate OnBoundary(w: Rect, e: Boundary, p: Point2) {
    match e
    case Left => p.x == w.xmin
    case Right => p.x == w.xmax
    case Bottom => p.y == w.ymin
    case Top => p.y == w.ymax
  }

  /** Crossing a vertical boundary at `x = c`: the point-slope formula
      `y = m * (c - x1) + y1` lands between the endpoints' `y`. */
  lemma VerticalCrossing(x1: real, y1: real, x2: real, y2: real, c: real)
    requires x1 != x2 && Between(c, x1, x2)
    ensures Between((y2 - y1) / (x2 - x1) * (c - x1) + y1, y1, y2)
  {
    var t := (c - x1) / (x2 - x1);
    RatioInUnit(x1, x2, c);
    assert (y2 - y1) / (x2 - x1) * (c - x1) == (y2 - y1) * t;
    LerpBetween(y1, y2, t);
  }

  /** Crossing a horizontal boundary at `y = c` along a non-vertical edge:
      `x = x1 + (c - y1) / m` lands between the endpoints' `x`. */
  lemma HorizontalCrossing(x1: real, y1: real, x2: real, y2: real, c: real)
    requires x1 != x2 && y1 != y2 && Between(c, y1, y2)
    ensures (y2 - y1) / (x2 - x1) != 0.0
    ensures Between(x1 + (c - y1) / ((y2 - y1) / (x2 - x1)), x1, x2)
  {
    var t := (c - y1) / (y2 - y1);
    RatioInUnit(y1, y2, c);
    assert (c - y1) / ((y2 - y1) / (x2 - x1)) == (x2 - x1) * t;
    LerpBetween(x1, x2, t);
  }

  /** `compute_intersection` against the vertical boundary `x = c`:
      `y = m * (c - x1) + y1` with the slope `m`. The edge crosses the
      boundary, so it is not vertical and `m` is finite. */
  function VerticalIntersection(c: real, p1: Point2, p2: Point2): (r: Point2)
    requires Between(c, p1.x, p2.x) && p1.x != p2.x
    ensures r.x == c
    ensures Between(r.y, p1.y, p2.y)
  {
    var x1, y1, x2, y2 := p1.x, p1.y, p2.x, p2.y;
    VerticalCrossing(x1, y1, x2, y2, c);
    var m := (y2 - y1) / (x2 - x1);
    Point2(c, m * (c - x1) + y1)
  }

  /** `compute_intersection` against the horizontal boundary `y = c`:
      `x = x1 + (c - y1) / m`. For a vertical edge `m` is infinite, the
      quotient is zero and `x` stays `x1`; the edge crosses the boundary, so
      `m` is never zero. */
  function HorizontalIntersection(c: real, p1: Point2, p2: Point2): (r: Point2)
    requires Between(c, p1.y, p2.y) && p1.y != p2.y
    ensures r.y == c
    ensures Between(r.x, p1.x, p2.x)
  {
    var x1, y1, x2, y2 := p1.x, p1.y, p2.x, p2.y;
    if x1 == x2 then Point2(x1, c)
    else
      HorizontalCrossing(x1, y1, x2, y2, c);
      var m := (y2 - y1) / (x2 - x1);
      Point2(x1 + (c - y1) / m, c)
  }

  /** `compute_intersection` for an edge of the polygon that crosses the
      boundary line of `e`. */
  function Intersection(w: Rect, e: Boundary, p1: Point2, p2: Point2): (r: Point2)
    requires InsideEdge(w, e, p1) != InsideEdge(w, e, p2)
    ensures OnBoundary(w, e, r)
    ensures Between(r.x, p1.x, p2.x) && Between(r.y, p1.y, p2.y)
  {
    match e
    case Left => VerticalIntersection(w.xmin, p1, p2)
    case Right => VerticalIntersection(w.xmax, p1, p2)
    case Bottom => HorizontalIntersection(w.ymin, p1, p2)
    case Top => HorizontalIntersection(w.ymax, p1, p2)
  }

  /** What one vertex `cur`, with its predecessor `prev`, contributes. */
  function Emit(w: Rect, e: Boundary, prev: Point2, cur: Point2): seq<Point2> {
    if InsideEdge(w, e, cur) then
      (if !InsideEdge(w, e, prev) then [Intersection(w, e, prev, cur)] else []) + [cur]
    else if InsideEdge(w, e, prev) then [Intersection(w, e, prev, cur)]
    else []
  }

  /** What one vertex emits is inside its edge, and stays inside (or
      outside) any edge both `prev` and `cur` are inside (or outside). */
  lemma EmitFacts(w: Rect, e: Boundary, f: Boundary, prev: Point2, cur: Point2)
    ensures forall v :: v in Emit(w, e, prev, cur) ==> InsideEdge(w, e, v)
    ensures InsideEdge(w, f, prev) && InsideEdge(w, f, cur) ==>
      forall v :: v in Emit(w, e, prev, cur) ==> InsideEdge(w, f, v)
    ensures !InsideEdge(w, f, prev) && !InsideEdge(w, f, cur) ==>
      forall v :: v in Emit(w, e, prev, cur) ==> !InsideEdge(w, f, v)
  {
    if InsideEdge(w, e, prev) != InsideEdge(w, e, cur) {
      var r := Intersection(w, e, prev, cur);
      assert OnBoundary(w, e, r);
    }
  }

  /** Python's `vertices[i - 1]`: the vertex before `i`, the last one for
      `i == 0`. */
  function PrevIndex(n: nat, i: nat): nat
    requires i < n
  {
    if i == 0 then n - 1 else i - 1
  }

  /** The output of `clip_edge` after its first `i` iterations. */
  function ClipEdgeUpTo(w: Rect, e: Boundary, vs: seq<Point2>, i: nat): seq<Point2>
    requires i <= |vs|
  {
    if i == 0 then []
    else ClipEdgeUpTo(w, e, vs, i - 1) + Emit(w, e, vs[PrevIndex(|vs|, i - 1)], vs[i - 1])
  }

  /** `clip_edge`: the polygon clipped against one edge. */
  function ClipEdgeSpec(w: Rect, e: Boundary, vs: seq<Point2>): seq<Point2> {
    ClipEdgeUpTo(w, e, vs, |vs|)
  }

  // ---------------------------------------------------------------------
  // Properties of one stage

  /** Every vertex a stage emits is inside its edge. */
  lemma {:induction false} ClipEdgeInside(w: Rect, e: Boundary, vs: seq<Point2>, i: nat)
    requires i <= |vs|
    ensures forall v :: v in ClipEdgeUpTo(w, e, vs, i) ==> InsideEdge(w, e, v)
  {
    if i > 0 {
      ClipEdgeInside(w, e, vs, i - 1);
      EmitFacts(w, e, e, vs[PrevIndex(|vs|, i - 1)], vs[i - 1]);
    }
  }

  /** A stage keeps every half-plane that all input vertices were in: the
      new vertices lie between two input vertices. */
  lemma {:induction false} ClipEdgeKeeps(w: Rect, e: Boundary, f: Boundary, vs: seq<Point2>, i: nat)
    requires i <= |vs|
    requires forall v :: v in vs ==> InsideEdge(w, f, v)
    ensures forall v :: v in ClipEdgeUpTo(w, e, vs, i) ==> InsideEdge(w, f, v)
  {
    if i > 0 {
      ClipEdgeKeeps(w, e, f, vs, i - 1);
      var prev, cur := vs[PrevIndex(|vs|, i - 1)], vs[i - 1];
      assert InsideEdge(w, f, prev) && InsideEdge(w, f, cur);
      EmitFacts(w, e, f, prev, cur);
    }
  }

  /** A polygon entirely inside an edge passes that stage unchanged. */
  lemma {:induction false} ClipEdgeIdentity(w: Rect, e: Boundary, vs: seq<Point2>, i: nat)
    requires i <= |vs|
    requires forall v :: v in vs ==> InsideEdge(w, e, v)
    ensures ClipEdgeUpTo(w, e, vs, i) == vs[..i]
  {
    if i > 0 {
      ClipEdgeIdentity(w, e, vs, i - 1);
      assert vs[..i] == vs[..i - 1] + [vs[i - 1]];
    }
  }

  /** A polygon entirely outside an edge vanishes at that stage. */
  lemma {:induction false} ClipEdgeOutside(w: Rect, e: Boundary, vs: seq<Point2>, i: nat)
    requires i <= |vs|
    requires forall v :: v in vs ==> !InsideEdge(w, e, v)
    ensures ClipEdgeUpTo(w, e, vs, i) == []
  {
    if i > 0 {
      ClipEdgeOutside(w, e, vs, i - 1);
    }
  }

  /** Each vertex contributes at most two vertices. */
  lemma {:induction false} ClipEdgeLength(w: Rect, e: Boundary, vs: seq<Point2>, i: nat)
    requires i <= |vs|
    ensures |ClipEdgeUpTo(w, e, vs, i)| <= 2 * i
  {
    if i > 0 {
      ClipEdgeLength(w, e, vs, i - 1);
    }
  }

  /** The `for i in range(len(vertices))` loop of `clip_edge`. */
  method ClipEdge(w: Rect, e: Boundary, vertices: seq<Point2>) returns (clipped: seq<Point2>)
    ensures clipped == ClipEdgeSpec(w, e, vertices)
    ensures forall v :: v in clipped ==> InsideEdge(w, e, v)
  {
    clipped := [];
    for i := 0 to |vertices|
      invariant clipped == ClipEdgeUpTo(w, e, vertices, i)
    {
      var current := vertices[i];
      var prev := vertices[PrevIndex(|vertices|, i)];
      var currentInside := InsideEdge(w, e, current);
      var previousInside := InsideEdge(w, e, prev);
      ghost var before := clipped;
      if currentInside {
        if !previousInside {
          clipped := clipped + [Intersection(w, e, prev, current)];
        }
        clipped := clipped + [current];
      } else if previousInside {
        clipped := clipped + [Intersection(w, e, prev, current)];
      }
      assert clipped == before + Emit(w, e, prev, current);
      assert ClipEdgeUpTo(w, e, vertices, i + 1) == before + Emit(w, e, prev, current);
    }
    ClipEdgeInside(w, e, vertices, |vertices|);
  }

  // ---------------------------------------------------------------------
  // The four stages

  /** The vertex list after the first `k` stages, or None once a stage has
      left nothing. */
  function ClipStages(w: Rect, vs: seq<Point2>, k: nat): Option<seq<Point2>>
    requires k <= 4
  {
    if k == 0 then Some(vs)
    else match ClipStages(w, vs, k - 1)
      case None => None
      case Some(c) =>
        var out := ClipEdgeSpec(w, Edges[k - 1], c);
        if out == [] then None else Some(out)
  }

  /** `clip_polygon`'s result: the clipped vertices, or None. */
  function ClipPolygonSpec(w: Rect, vs: seq<Point2>): Option<seq<Point2>> {
    ClipStages(w, vs, 4)
  }

  /** After `k` stages the vertices are inside the first `k` edges. */
  lemma {:induction false} ClipStagesInside(w: Rect, vs: seq<Point2>, k: nat)
    requires k <= 4 && ClipStages(w, vs, k).Some? && k > 0
    ensures forall j, v :: 0 <= j < k && v in ClipStages(w, vs, k).value ==> InsideEdge(w, Edges[j], v)
  {
    var c := ClipStages(w, vs, k - 1).value;
    var out := ClipStages(w, vs, k).value;
    ClipEdgeInside(w, Edges[k - 1], c, |c|);
    if k > 1 {
      ClipStagesInside(w, vs, k - 1);
      forall j | 0 <= j < k - 1
        ensures forall v :: v in out ==> InsideEdge(w, Edges[j], v)
      {
        ClipEdgeKeeps(w, Edges[k - 1], Edges[j], c, |c|);
      }
    }
  }

  /** Every vertex of a clipped polygon is in the window. */
  lemma ClipPolygonInside(w: Rect, vs: seq<Point2>)
    requires ClipPolygonSpec(w, vs).Some?
    ensures forall v :: v in ClipPolygonSpec(w, vs).value ==> InRect(w, v)
  {
    ClipStagesInside(w, vs, 4);
    forall v | v in ClipPolygonSpec(w, vs).value
      ensures InRect(w, v)
    {
      assert InsideEdge(w, Edges[0], v) && InsideEdge(w, Edges[1], v);
      assert InsideEdge(w, Edges[2], v) && InsideEdge(w, Edges[3], v);
    }
  }

  /** A polygon inside the window passes any stage unchanged. */
  lemma ClipEdgeKeepsWindow(w: Rect, e: Boundary, vs: seq<Point2>)
    requires forall v :: v in vs ==> InRect(w, v)
    ensures ClipEdgeSpec(w, e, vs) == vs
  {
    assert forall v :: v in vs ==> InsideEdge(w, e, v);
    ClipEdgeIdentity(w, e, vs, |vs|);
    assert vs[..|vs|] == vs;
  }

  /** A non-empty polygon inside the window comes back unchanged. */
  lemma ClipPolygonKeepsInside(w: Rect, vs: seq<Point2>)
    requires vs != [] && forall v :: v in vs ==> InRect(w, v)
    ensures ClipPolygonSpec(w, vs) == Some(vs)
  {
    ClipEdgeKeepsWindow(w, Left, vs);
    assert ClipStages(w, vs, 1) == Some(vs);
    ClipEdgeKeepsWindow(w, Right, vs);
    assert ClipStages(w, vs, 2) == Some(vs);
    ClipEdgeKeepsWindow(w, Bottom, vs);
    assert ClipStages(w, vs, 3) == Some(vs);
    ClipEdgeKeepsWindow(w, Top, vs);
  }

  /** While the polygon survives, its vertices stay outside an edge that
      all the input vertices were outside of. */
  lemma {:induction false} ClipStagesOutside(w: Rect, vs: seq<Point2>, e: Boundary, k: nat)
    requires k <= 4
    requires forall v :: v in vs ==> !InsideEdge(w, e, v)
    ensures ClipStages(w, vs, k).Some? ==> forall v :: v in ClipStages(w, vs, k).value ==> !InsideEdge(w, e, v)
  {
    if k > 0 {
      ClipStagesOutside(w, vs, e, k - 1);
      if ClipStages(w, vs, k - 1).Some? {
        var c := ClipStages(w, vs, k - 1).value;
        ClipEdgeKeepsOut(w, Edges[k - 1], e, c, |c|);
      }
    }
  }

  /** An empty vertex list, or one entirely beyond one edge, is dropped. */
  lemma ClipPolygonDropsOutside(w: Rect, vs: seq<Point2>, e: Boundary)
    requires forall v :: v in vs ==> !InsideEdge(w, e, v)
    ensures ClipPolygonSpec(w, vs) == None
  {
    ClipStagesOutside(w, vs, e, 4);
    if ClipPolygonSpec(w, vs).Some? {
      ClipStagesInside(w, vs, 4);
      var out := ClipPolygonSpec(w, vs).value;
      assert out[0] in out;
      EdgesCover(w, out[0], e);
      assert false;
    }
  }

  /** A stage against one edge keeps every vertex outside another edge that
      all input vertices were outside of. */
  lemma {:induction false} ClipEdgeKeepsOut(w: Rect, e: Boundary, f: Boundary, vs: seq<Point2>, i: nat)
    requires i <= |vs|
    requires forall v :: v in vs ==> !InsideEdge(w, f, v)
    ensures forall v :: v in ClipEdgeUpTo(w, e, vs, i) ==> !InsideEdge(w, f, v)
  {
    if i > 0 {
      ClipEdgeKeepsOut(w, e, f, vs, i - 1);
      var prev, cur := vs[PrevIndex(|vs|, i - 1)], vs[i - 1];
      assert !InsideEdge(w, f, prev) && !InsideEdge(w, f, cur);
      EmitFacts(w, e, f, prev, cur);
    }
  }

  /** Once a stage leaves nothing, the result is None. */
  lemma {:induction false} ClipStagesSticky(w: Rect, vs: seq<Point2>, m: nat, n: nat)
    requires m <= n <= 4 && ClipStages(w, vs, m) == None
    ensures ClipStages(w, vs, n) == None
    decreases n - m
  {
    if m < n {
      ClipStagesSticky(w, vs, m + 1, n);
    }
  }

  /** `clip_polygon`'s loop over the four edges, returning early when a
      stage leaves no vertex. */
  method ClipPolygon(w: Rect, vertices: seq<Point2>) returns (r: Option<seq<Point2>>)
    ensures r == ClipPolygonSpec(w, vertices)
    ensures r.Some? ==> r.value != [] && forall v :: v in r.value ==> InRect(w, v)
  {
    var clippedVertices := vertices;
    for k := 0 to 4
      invariant ClipStages(w, vertices, k) == Some(clippedVertices)
    {
      clippedVertices := ClipEdge(w, Edges[k], clippedVertices);
      if clippedVertices == [] {
        ClipStagesSticky(w, vertices, k + 1, 4);
        return None;
      }
    }
    r := Some(clippedVertices);
    ClipPolygonInside(w, vertices);
  }
}
