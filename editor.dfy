/** The rotating editor's `GraphicsSystem`: the window record with its
    rotation, the display file, the shared name counter, the queue of
    transformation steps and the line-clipping choice. Widgets and drawing
    are not modelled; each method is the state change its button or event
    handler makes. */
module Editor {
  import opened Geometry
  import opened Naming
  import opened Clipping
  import opened LiangBarsky
  import opened PolygonClipping
  import opened Bezier
  import opened Transforms
  import opened Viewing
  import opened Scene

  const CanvasWidth: real := 775.0
  const CanvasHeight: real := 383.0
  /** The viewport: the canvas less a 20-pixel margin. */
  const InitialViewport: Rect := Rect(20.0, 20.0, CanvasWidth - 20.0, CanvasHeight - 20.0)
  /** The first window: the viewport's size, centred on the origin. */
  const InitialWindow: Rect := Rect(-367.5, -171.5, 367.5, 171.5)
  const MoveStep: real := 0.1

  /** The two line clippers of the radio buttons. */
  datatype LineClip = CS | LB

  /** `clip_line` for the selected algorithm. Liang-Barsky is the clipper
      as written, whose second endpoint can leave the window; both
      endpoints are inside only under Cohen-Sutherland. */
  function ClipLineSpec(m: LineClip, w: Rect, s: Segment): (r: Option<Segment>)
    ensures r.Some? ==> InRect(w, r.value.p1)
    ensures m == CS && r.Some? ==> InRect(w, r.value.p2)
    ensures m == LB ==> (r.Some? <==> LiangBarskySpec(w, s).Some?)
  {
    match m
    case CS =>
      var r := CohenSutherlandSpec(w, s);
      if r.Some? then CohenSutherlandSound(w, s); r else r
    case LB =>
      var r := LiangBarskyAsWritten(w, s);
      LiangBarskyAsWrittenAccepts(w, s);
      if r.Some? then LiangBarskyAsWrittenFirstInside(w, s); r else r
  }

  /** What clipping guarantees of a shown object: every vertex of a point
      or polygon is in the window, and so is a line's first endpoint, and
      its second too under Cohen-Sutherland; a curve is shown whole, its
      pieces being clipped separately. */
  predicate ClippedInside(m: LineClip, w: Rect, o: GraphicObject) {
    match o.kind
    case CurveKind => true
    case LineKind => |o.coordinates| == 2 && InRect(w, o.coordinates[0]) && (m == CS ==> InRect(w, o.coordinates[1]))
    case _ => forall v :: v in o.coordinates ==> InRect(w, v)
  }

  /** What `clip_object` returns for `o` when the counter stands at `n`:
      a point survives when it is in the window; a clipped line or polygon
      is a new object named from the next counter value (a line in the
      default colour); a curve is returned as it is. */
  function ClipObjectSpec(m: LineClip, w: Rect, o: GraphicObject, n: nat): (r: Option<GraphicObject>)
    requires WellShaped(o)
    ensures r.Some? ==> ClippedInside(m, w, r.value) && r.value.kind == o.kind
    ensures o.kind == CurveKind ==> r == Some(o)
    ensures o.kind == PointKind ==> (r.Some? <==> InRect(w, o.coordinates[0])) && (r.Some? ==> r == Some(o))
  {
    match o.kind
    case PointKind =>
      if InRect(w, o.coordinates[0]) then Some(o) else None
    case LineKind =>
      var s := ClipLineSpec(m, w, Segment(o.coordinates[0], o.coordinates[1]));
      if s.None? then None
      else Some(GraphicObject(LineKind, NameOf("L", n + 1), [s.value.p1, s.value.p2], DefaultColor, false))
    case PolygonKind =>
      var vs := ClipPolygonSpec(w, o.coordinates);
      if vs.None? then None
      else
        ClipPolygonInside(w, o.coordinates);
        Some(GraphicObject(PolygonKind, NameOf("W", n + 1), vs.value, o.color, o.filled))
    case CurveKind => Some(o)
  }

  /** `ClipObjectSpec` as a total function of the object and the counter;
      an object of the wrong shape, which a valid display file does not
      hold, gives `None`. */
  function ClipWith(m: LineClip, w: Rect): (GraphicObject, nat) -> Option<GraphicObject> {
    (o: GraphicObject, k: nat) => if WellShaped(o) then ClipObjectSpec(m, w, o, k) else None
  }

  /** A pass over `df` with the counter starting at `n`: the results of
      `clip` for each object, in order, the `None`s dropped, each call
      seeing the counter as the earlier results left it. */
  function ShownBy(clip: (GraphicObject, nat) -> Option<GraphicObject>, df: seq<GraphicObject>, n: nat): seq<GraphicObject> {
    if df == [] then []
    else
      var prev := ShownBy(clip, df[..|df| - 1], n);
      var c := clip(df[|df| - 1], n + NewObjects(prev));
      prev + (if c.Some? then [c.value] else [])
  }

  /** `redraw`'s clipping pass over `df` with the counter starting at `n`. */
  function RedrawSpec(m: LineClip, w: Rect, df: seq<GraphicObject>, n: nat): seq<GraphicObject> {
    ShownBy(ClipWith(m, w), df, n)
  }

  lemma {:induction false} NewObjectsAppend(a: seq<GraphicObject>, b: seq<GraphicObject>)
    ensures NewObjects(a + b) == NewObjects(a) + NewObjects(b)
  {
    if b == [] {
      assert a + b == a;
    } else {
      assert (a + b)[..|a + b| - 1] == a + b[..|b| - 1];
      NewObjectsAppend(a, b[..|b| - 1]);
    }
  }

  /** The pass over `pre + [last]`: the pass over `pre`, then the result
      for `last` with the counter `k` that `pre` left. */
  lemma ShownByUnfold(clip: (GraphicObject, nat) -> Option<GraphicObject>, df: seq<GraphicObject>, n: nat,
                      pre: seq<GraphicObject>, last: GraphicObject, k: nat)
    requires df == pre + [last] && k == n + NewObjects(ShownBy(clip, pre, n))
    ensures ShownBy(clip, df, n) == ShownBy(clip, pre, n) + (if clip(last, k).Some? then [clip(last, k).value] else [])
  {
    assert df[..|df| - 1] == pre;
    assert df[|df| - 1] == last;
  }

  lemma {:induction false} ShownByAppend(clip: (GraphicObject, nat) -> Option<GraphicObject>,
                                         a: seq<GraphicObject>, b: seq<GraphicObject>, n: nat, na: nat)
    requires na == n + NewObjects(ShownBy(clip, a, n))
    ensures ShownBy(clip, a + b, n) == ShownBy(clip, a, n) + ShownBy(clip, b, na)
  {
    if b == [] {
      assert a + b == a;
      assert ShownBy(clip, a, n) + [] == ShownBy(clip, a, n);
    } else {
      var b', last := b[..|b| - 1], b[|b| - 1];
      assert b == b' + [last];
      assert a + b == (a + b') + [last];
      ShownByAppend(clip, a, b', n, na);
      var ra := ShownBy(clip, a, n);
      var rb' := ShownBy(clip, b', na);
      NewObjectsAppend(ra, rb');
      var k := na + NewObjects(rb');
      ShownByUnfold(clip, a + b, n, a + b', last, k);
      ShownByUnfold(clip, b, na, b', last, k);
      var tail := if clip(last, k).Some? then [clip(last, k).value] else [];
      AppendAssocObjects(ShownBy(clip, a + b, n), ShownBy(clip, b, na), ra, rb', tail);
    }
  }

  lemma AppendAssocObjects(x: seq<GraphicObject>, z: seq<GraphicObject>,
                           r: seq<GraphicObject>, r': seq<GraphicObject>, tail: seq<GraphicObject>)
    requires x == (r + r') + tail && z == r' + tail
    ensures x == r + z
  {}

  /** Redrawing one object shows its clip, if any. */
  lemma RedrawSpecSingle(m: LineClip, w: Rect, o: GraphicObject, n: nat)
    requires WellShaped(o)
    ensures RedrawSpec(m, w, [o], n) == (if ClipObjectSpec(m, w, o, n).Some? then [ClipObjectSpec(m, w, o, n).value] else [])
  {
    ShownByUnfold(ClipWith(m, w), [o], n, [], o, n);
  }

  /** Redrawing a concatenation shows the first part's clips, then the
      second part's, the second part starting from the counter the first
      part left: the display-file order is kept. */
  lemma RedrawSpecAppend(m: LineClip, w: Rect, a: seq<GraphicObject>, b: seq<GraphicObject>, n: nat, na: nat)
    requires na == n + NewObjects(RedrawSpec(m, w, a, n))
    ensures RedrawSpec(m, w, a + b, n) == RedrawSpec(m, w, a, n) + RedrawSpec(m, w, b, na)
  {
    ShownByAppend(ClipWith(m, w), a, b, n, na);
  }

  /** The loop's step, stated for the counter value the clip saw. */
  lemma RedrawStep(m: LineClip, w: Rect, df: seq<GraphicObject>, i: nat, n: nat,
                   shown: seq<GraphicObject>, k: nat, c: Option<GraphicObject>)
    requires i < |df| && WellShaped(df[i])
    requires shown == RedrawSpec(m, w, df[..i], n) && k == n + NewObjects(shown)
    requires c == ClipObjectSpec(m, w, df[i], k)
    ensures RedrawSpec(m, w, df[..i + 1], n) == shown + (if c.Some? then [c.value] else [])
  {
    assert df[..i + 1] == df[..i] + [df[i]];
    ShownByUnfold(ClipWith(m, w), df[..i + 1], n, df[..i], df[i], k);
  }

  /** Every object the pass shows meets the clipping guarantee, and the
      pass never shows more objects than the display file holds. */
  lemma {:induction false} RedrawSpecInside(m: LineClip, w: Rect, df: seq<GraphicObject>, n: nat)
    ensures |RedrawSpec(m, w, df, n)| <= |df|
    ensures forall k :: 0 <= k < |RedrawSpec(m, w, df, n)| ==> ClippedInside(m, w, RedrawSpec(m, w, df, n)[k])
  {
    if df != [] {
      var pre, last := df[..|df| - 1], df[|df| - 1];
      assert df == pre + [last];
      RedrawSpecInside(m, w, pre, n);
      var k := n + NewObjects(RedrawSpec(m, w, pre, n));
      ShownByUnfold(ClipWith(m, w), df, n, pre, last, k);
    }
  }

  // ---------------------------------------------------------------------
  // Viewport transform

  /** The uniform scale: the smaller of the two axis ratios. */
  function Scale(w: Rect, vp: Rect): real
    requires w.Width() != 0.0 && w.Height() != 0.0
  {
    Min(vp.Width() / w.Width(), vp.Height() / w.Height())
  }

  /** The inverse window rotation about the window centre: the source turns
      by `-rotation`, whose cosine is `cos` and whose sine is `-sin`. */
  function Unrotate(w: Rect, cos: real, sin: real, p: Point2): Point2 {
    var c := Center(w);
    var ct, st := cos, -sin;
    Point2((p.x - c.x) * ct - (p.y - c.y) * st + c.x, (p.x - c.x) * st + (p.y - c.y) * ct + c.y)
  }

  /** No rotation leaves points alone, the centre never moves, and a true
      rotation keeps the distance to the centre. */
  lemma UnrotateFacts(w: Rect, cos: real, sin: real, p: Point2)
    ensures Unrotate(w, 1.0, 0.0, p) == p
    ensures Unrotate(w, cos, sin, Center(w)) == Center(w)
    ensures cos * cos + sin * sin == 1.0 ==> Dist2(Unrotate(w, cos, sin, p), Center(w)) == Dist2(p, Center(w))
  {
    var c := Center(w);
    var dx, dy := p.x - c.x, p.y - c.y;
    assert dx * 1.0 - dy * -0.0 == dx;
    assert dx * -0.0 + dy * 1.0 == dy;
    assert (c.x - c.x) * cos - (c.y - c.y) * -sin == 0.0;
    assert (c.x - c.x) * -sin + (c.y - c.y) * cos == 0.0;
    if cos * cos + sin * sin == 1.0 {
      assert cos * cos + (-sin) * (-sin) == 1.0;
      TurnedLength(dx, dy, cos, -sin);
    }
  }

  /** `viewport_transform`: undo the window rotation, then map to the
      viewport with the uniform scale and the y axis flipped. None where
      the source divides by a zero window extent. */
  function ViewportTransform(w: Rect, cos: real, sin: real, vp: Rect, p: Point2): (r: Option<Point2>)
    ensures r.None? <==> w.Width() == 0.0 || w.Height() == 0.0
  {
    if w.Width() == 0.0 || w.Height() == 0.0 then None
    else
      Some(ToViewport(w, vp, Scale(w, vp), Unrotate(w, cos, sin, p)))
  }

  /** The window-to-viewport map proper: offsets from the window's
      bottom-left corner, scaled, with y measured down from the viewport's
      bottom edge. */
  function ToViewport(w: Rect, vp: Rect, scale: real, u: Point2): Point2 {
    Point2(vp.xmin + (u.x - w.xmin) * scale, vp.ymax - (u.y - w.ymin) * scale)
  }

  /** Without rotation, x is scaled from the left edge and y from the
      bottom edge and flipped: the window's bottom-left corner lands on the
      viewport's `(xmin, ymax)`, and distances scale by one factor on both
      axes. */
  lemma ViewportUnrotated(w: Rect, vp: Rect, p: Point2, q: Point2)
    requires w.Width() != 0.0 && w.Height() != 0.0
    ensures ViewportTransform(w, 1.0, 0.0, vp, p) == Some(ToViewport(w, vp, Scale(w, vp), p))
    ensures ViewportTransform(w, 1.0, 0.0, vp, Point2(w.xmin, w.ymin)) == Some(Point2(vp.xmin, vp.ymax))
    ensures var s := Scale(w, vp);
      var a, b := ViewportTransform(w, 1.0, 0.0, vp, p).value, ViewportTransform(w, 1.0, 0.0, vp, q).value;
      a.x - b.x == (p.x - q.x) * s && a.y - b.y == (q.y - p.y) * s
  {
    var s := Scale(w, vp);
    UnrotateFacts(w, 1.0, 0.0, p);
    UnrotateFacts(w, 1.0, 0.0, q);
    UnrotateFacts(w, 1.0, 0.0, Point2(w.xmin, w.ymin));
    assert ViewportTransform(w, 1.0, 0.0, vp, p) == Some(ToViewport(w, vp, s, p));
    assert ViewportTransform(w, 1.0, 0.0, vp, q) == Some(ToViewport(w, vp, s, q));
    var c0 := Point2(w.xmin, w.ymin);
    assert (c0.x - w.xmin) * s == 0.0 && (c0.y - w.ymin) * s == 0.0;
    assert ToViewport(w, vp, s, c0) == Point2(vp.xmin, vp.ymax);
    assert ViewportTransform(w, 1.0, 0.0, vp, c0) == Some(ToViewport(w, vp, s, c0));
    assert (p.x - w.xmin) * s - (q.x - w.xmin) * s == (p.x - q.x) * s;
    assert (q.y - w.ymin) * s - (p.y - w.ymin) * s == (q.y - p.y) * s;
  }

  /** Without rotation every window point lands inside the viewport. */
  lemma ViewportInside(w: Rect, vp: Rect, p: Point2)
    requires w.WellFormed() && vp.WellFormed() && InRect(w, p)
    ensures InRect(vp, ViewportTransform(w, 1.0, 0.0, vp, p).value)
  {
    var s := Scale(w, vp);
    ViewportUnrotated(w, vp, p, p);
    DivNonNeg(vp.Width(), w.Width());
    DivNonNeg(vp.Height(), w.Height());
    ScaledWithin(p.x - w.xmin, w.Width(), vp.Width(), s);
    ScaledWithin(p.y - w.ymin, w.Height(), vp.Height(), s);
  }

  /** The window centre lands on the same device point whatever the
      rotation. */
  lemma ViewportCenterFixed(w: Rect, cos: real, sin: real, vp: Rect)
    requires w.Width() != 0.0 && w.Height() != 0.0
    ensures ViewportTransform(w, cos, sin, vp, Center(w)) == ViewportTransform(w, 1.0, 0.0, vp, Center(w))
  {
    UnrotateFacts(w, cos, sin, Center(w));
    UnrotateFacts(w, 1.0, 0.0, Center(w));
  }

  // ---------------------------------------------------------------------
  // The editor

  class GraphicsSystem {
    /** The window extents and its rotation, as cosine and sine. */
    var window: Rect
    var rotationCos: real
    var rotationSin: real
    /** The window copied at start-up, rotation 0 included. */
    const originalWindow: Rect
    const viewport: Rect
    var displayFile: seq<GraphicObject>
    /** The class-level `_counter` all graphic objects share. */
    const names: NameCounter
    var tempTransformations: seq<Step>
    var lineClipMethod: LineClip
    var selectedColor: string
    /** The last mouse position of a drag; None before the first press. */
    var lastPan: Option<Point2>

    /** Every object has the shape its constructor demands, and the names
        are unique and were handed out by the counter. */
    predicate Valid()
      reads this, names
    {
      AllWellShaped(displayFile) && UniqueNames(displayFile, names.count)
    }

    constructor ()
      ensures Valid() && fresh(names) && names.count == 0
      ensures window == InitialWindow && originalWindow == InitialWindow && viewport == InitialViewport
      ensures rotationCos == 1.0 && rotationSin == 0.0
      ensures displayFile == [] && tempTransformations == [] && lineClipMethod == CS
      ensures selectedColor == DefaultColor && lastPan == None
    {
      var vp := InitialViewport;
      var halfWidth, halfHeight := (vp.xmax - vp.xmin) / 2.0, (vp.ymax - vp.ymin) / 2.0;
      window := Rect(-halfWidth, -halfHeight, halfWidth, halfHeight);
      originalWindow := Rect(-halfWidth, -halfHeight, halfWidth, halfHeight);
      viewport := vp;
      rotationCos, rotationSin := 1.0, 0.0;
      displayFile := [];
      names := new NameCounter();
      tempTransformations := [];
      lineClipMethod := CS;
      selectedColor := DefaultColor;
      lastPan := None;
    }

    // -------------------------------------------------------------------
    // Window

    /** `apply_window_rotation` with the parsed angle's cosine and sine. */
    method ApplyWindowRotation(cos: real, sin: real)
      modifies this
      ensures rotationCos == cos && rotationSin == sin
      ensures window == old(window) && displayFile == old(displayFile) && tempTransformations == old(tempTransformations)
      ensures lineClipMethod == old(lineClipMethod) && selectedColor == old(selectedColor) && lastPan == old(lastPan)
    {
      rotationCos, rotationSin := cos, sin;
    }

    /** `move_window`: one tenth of the extent along the rotated axis. */
    method MoveWindow(d: Direction)
      modifies this
      ensures window == MoveRotated(old(window), d, MoveStep, rotationCos, rotationSin)
      ensures window.Width() == old(window).Width() && window.Height() == old(window).Height()
      ensures rotationCos == old(rotationCos) && rotationSin == old(rotationSin)
      ensures displayFile == old(displayFile) && tempTransformations == old(tempTransformations)
      ensures lineClipMethod == old(lineClipMethod) && selectedColor == old(selectedColor) && lastPan == old(lastPan)
    {
      var theta := (rotationCos, rotationSin);
      var (ux, uy) := Unit(d);
      var dx := ux * ((window.xmax - window.xmin) * MoveStep);
      var dy := uy * ((window.ymax - window.ymin) * MoveStep);
      var dxRot := dx * theta.0 - dy * theta.1;
      var dyRot := dx * theta.1 + dy * theta.0;
      window := Rect(window.xmin + dxRot, window.ymin + dyRot, window.xmax + dxRot, window.ymax + dyRot);
    }

    /** `reset_view`: back to the start-up window, rotation included. */
    method ResetView()
      modifies this
      ensures window == originalWindow && rotationCos == 1.0 && rotationSin == 0.0
      ensures displayFile == old(displayFile) && tempTransformations == old(tempTransformations)
      ensures lineClipMethod == old(lineClipMethod) && selectedColor == old(selectedColor) && lastPan == old(lastPan)
    {
      window := originalWindow;
      rotationCos, rotationSin := 1.0, 0.0;
    }

    /** `pan` with action "start". */
    method PanStart(ex: real, ey: real)
      modifies this
      ensures lastPan == Some(Point2(ex, ey)) && window == old(window)
      ensures rotationCos == old(rotationCos) && rotationSin == old(rotationSin)
      ensures displayFile == old(displayFile) && tempTransformations == old(tempTransformations)
      ensures lineClipMethod == old(lineClipMethod) && selectedColor == old(selectedColor)
    {
      lastPan := Some(Point2(ex, ey));
    }

    /** `pan` with action "drag"; before any press the source has no last
        position and fails, leaving everything as it was. */
    method PanDrag(ex: real, ey: real)
      requires viewport == InitialViewport
      modifies this
      ensures old(lastPan).None? ==> window == old(window) && lastPan == old(lastPan)
      ensures old(lastPan).Some? ==>
        window == Pan(old(window), old(lastPan).value.x, old(lastPan).value.y, ex, ey, viewport.xmax, viewport.ymax)
        && lastPan == Some(Point2(ex, ey))
      ensures rotationCos == old(rotationCos) && rotationSin == old(rotationSin)
      ensures displayFile == old(displayFile) && tempTransformations == old(tempTransformations)
      ensures lineClipMethod == old(lineClipMethod) && selectedColor == old(selectedColor)
    {
      if lastPan.None? {
        return;
      }
      var last := lastPan.value;
      var dx := (ex - last.x) * (window.xmax - window.xmin) / viewport.xmax;
      var dy := (ey - last.y) * (window.ymax - window.ymin) / viewport.ymax;
      window := Rect(window.xmin - dx, window.ymin + dy, window.xmax - dx, window.ymax + dy);
      lastPan := Some(Point2(ex, ey));
    }

    /** `zoom`: the mouse wheel at canvas point `(ex, ey)`. */
    method Zoom(ex: real, ey: real, delta: real)
      requires viewport == InitialViewport
      modifies this
      ensures window == Viewing.Zoom(old(window), ex, ey, delta, viewport.xmax, viewport.ymax)
      ensures rotationCos == old(rotationCos) && rotationSin == old(rotationSin) && lastPan == old(lastPan)
      ensures displayFile == old(displayFile) && tempTransformations == old(tempTransformations)
      ensures lineClipMethod == old(lineClipMethod) && selectedColor == old(selectedColor)
    {
      var w := window;
      var factor := if delta > 0.0 then 0.9 else 1.1;
      var mx := w.xmin + (ex / viewport.xmax) * (w.xmax - w.xmin);
      var my := w.ymin + ((viewport.ymax - ey) / viewport.ymax) * (w.ymax - w.ymin);
      assert Point2(mx, my) == MousePoint(w, ex, ey, viewport.xmax, viewport.ymax);
      window := Rect(mx - (mx - w.xmin) * factor, my - (my - w.ymin) * factor,
                     mx + (w.xmax - mx) * factor, my + (w.ymax - my) * factor);
    }

    /** `zoom_manual`: scale by `factor` about the window centre. */
    method ZoomManual(factor: real)
      modifies this
      ensures window == ZoomCentered(old(window), factor)
      ensures rotationCos == old(rotationCos) && rotationSin == old(rotationSin) && lastPan == old(lastPan)
      ensures displayFile == old(displayFile) && tempTransformations == old(tempTransformations)
      ensures lineClipMethod == old(lineClipMethod) && selectedColor == old(selectedColor)
    {
      var c := Center(window);
      window := ScaleAbout(window, c, factor);
    }

    // -------------------------------------------------------------------
    // Settings

    /** `choose_color`: a cancelled dialog changes nothing. */
    method ChooseColor(color: Option<string>)
      modifies this
      ensures selectedColor == if color.Some? then color.value else old(selectedColor)
      ensures window == old(window) && displayFile == old(displayFile) && tempTransformations == old(tempTransformations)
      ensures lineClipMethod == old(lineClipMethod) && lastPan == old(lastPan)
      ensures rotationCos == old(rotationCos) && rotationSin == old(rotationSin)
    {
      if color.Some? {
        selectedColor := color.value;
      }
    }

    /** The line-clipping radio buttons. */
    method SelectLineClip(m: LineClip)
      modifies this
      ensures lineClipMethod == m
      ensures window == old(window) && displayFile == old(displayFile) && tempTransformations == old(tempTransformations)
      ensures selectedColor == old(selectedColor) && lastPan == old(lastPan)
      ensures rotationCos == old(rotationCos) && rotationSin == old(rotationSin)
    {
      lineClipMethod := m;
    }

    // -------------------------------------------------------------------
    // Display file

    /** The `add_point`, `add_line`, `add_polygon` and `add_bezier_curve`
        pattern: build the object (which takes the next name) and append
        it. */
    method Append(kind: Kind, coordinates: seq<Point2>, color: string, filled: bool)
      requires Valid() && WellShaped(GraphicObject(kind, "", coordinates, color, filled))
      modifies this, names
      ensures Valid()
      ensures names.count == old(names.count) + 1
      ensures displayFile == old(displayFile) + [GraphicObject(kind, NameOf(Prefix(kind), names.count), coordinates, color, filled)]
      ensures window == old(window) && tempTransformations == old(tempTransformations)
      ensures lineClipMethod == old(lineClipMethod) && selectedColor == old(selectedColor) && lastPan == old(lastPan)
      ensures rotationCos == old(rotationCos) && rotationSin == old(rotationSin)
    {
      var name := names.Fresh(Prefix(kind));
      var o := GraphicObject(kind, name, coordinates, color, filled);
      UniqueNamesAppend(displayFile, names.count - 1, o);
      displayFile := displayFile + [o];
    }

    /** `add_point`: exactly one coordinate, in the selected colour. */
    method AddPoint(coordinates: seq<Point2>) returns (added: bool)
      requires Valid()
      modifies this, names
      ensures Valid() && (added <==> |coordinates| == 1)
      ensures added ==> (names.count == old(names.count) + 1
        && displayFile == old(displayFile) + [GraphicObject(PointKind, NameOf("P", names.count), coordinates, old(selectedColor), false)])
      ensures !added ==> names.count == old(names.count) && displayFile == old(displayFile)
      ensures window == old(window) && tempTransformations == old(tempTransformations)
      ensures lineClipMethod == old(lineClipMethod) && selectedColor == old(selectedColor) && lastPan == old(lastPan)
      ensures rotationCos == old(rotationCos) && rotationSin == old(rotationSin)
    {
      added := |coordinates| == 1;
      if added {
        Append(PointKind, coordinates, selectedColor, false);
      }
    }

    /** `add_line`: exactly two coordinates, in the selected colour. */
    method AddLine(coordinates: seq<Point2>) returns (added: bool)
      requires Valid()
      modifies this, names
      ensures Valid() && (added <==> |coordinates| == 2)
      ensures added ==> (names.count == old(names.count) + 1
        && displayFile == old(displayFile) + [GraphicObject(LineKind, NameOf("L", names.count), coordinates, old(selectedColor), false)])
      ensures !added ==> names.count == old(names.count) && displayFile == old(displayFile)
      ensures window == old(window) && tempTransformations == old(tempTransformations)
      ensures lineClipMethod == old(lineClipMethod) && selectedColor == old(selectedColor) && lastPan == old(lastPan)
      ensures rotationCos == old(rotationCos) && rotationSin == old(rotationSin)
    {
      added := |coordinates| == 2;
      if added {
        Append(LineKind, coordinates, selectedColor, false);
      }
    }

    /** `add_polygon`: at least three coordinates, in the selected colour,
        filled when the fill box is ticked. */
    method AddPolygon(coordinates: seq<Point2>, fill: bool) returns (added: bool)
      requires Valid()
      modifies this, names
      ensures Valid() && (added <==> |coordinates| >= 3)
      ensures added ==> (names.count == old(names.count) + 1
        && displayFile == old(displayFile) + [GraphicObject(PolygonKind, NameOf("W", names.count), coordinates, old(selectedColor), fill)])
      ensures !added ==> names.count == old(names.count) && displayFile == old(displayFile)
      ensures window == old(window) && tempTransformations == old(tempTransformations)
      ensures lineClipMethod == old(lineClipMethod) && selectedColor == old(selectedColor) && lastPan == old(lastPan)
      ensures rotationCos == old(rotationCos) && rotationSin == old(rotationSin)
    {
      added := |coordinates| >= 3;
      if added {
        Append(PolygonKind, coordinates, selectedColor, fill);
      }
    }

    /** `add_bezier_curve`: four control points plus three for every further
        segment. The `Curve2D` constructor takes the name. */
    method AddBezierCurve(coordinates: seq<Point2>) returns (added: bool)
      requires Valid()
      modifies this, names
      ensures Valid() && (added <==> |coordinates| >= 4 && (|coordinates| - 4) % 3 == 0)
      ensures added ==> (names.count == old(names.count) + 1
        && displayFile == old(displayFile) + [GraphicObject(CurveKind, NameOf("C", names.count), coordinates, old(selectedColor), false)])
      ensures !added ==> names.count == old(names.count) && displayFile == old(displayFile)
      ensures window == old(window) && tempTransformations == old(tempTransformations)
      ensures lineClipMethod == old(lineClipMethod) && selectedColor == old(selectedColor) && lastPan == old(lastPan)
      ensures rotationCos == old(rotationCos) && rotationSin == old(rotationSin)
    {
      added := |coordinates| >= 4 && (|coordinates| - 4) % 3 == 0;
      if added {
        var curve := new Curve2D(coordinates, selectedColor, names);
        var o := GraphicObject(CurveKind, curve.name, coordinates, selectedColor, false);
        UniqueNamesAppend(displayFile, names.count - 1, o);
        displayFile := displayFile + [o];
      }
    }

    /** `clear_canvas`: empty the display file and reset the counter. */
    method ClearCanvas()
      requires Valid()
      modifies this, names
      ensures Valid() && displayFile == [] && names.count == 0
      ensures window == old(window) && tempTransformations == old(tempTransformations)
      ensures lineClipMethod == old(lineClipMethod) && selectedColor == old(selectedColor) && lastPan == old(lastPan)
      ensures rotationCos == old(rotationCos) && rotationSin == old(rotationSin)
    {
      displayFile := [];
      names.Reset();
    }

    /** `delete_selected`: remove the first object with the selected name. */
    method DeleteSelected(selectedName: string)
      requires Valid()
      modifies this
      ensures Valid() && displayFile == DeleteFirst(old(displayFile), selectedName)
      ensures window == old(window) && tempTransformations == old(tempTransformations)
      ensures lineClipMethod == old(lineClipMethod) && selectedColor == old(selectedColor) && lastPan == old(lastPan)
      ensures rotationCos == old(rotationCos) && rotationSin == old(rotationSin)
    {
      UniqueNamesDelete(displayFile, names.count, selectedName);
      WellShapedDelete(displayFile, selectedName);
      var found := FindFirst(displayFile, selectedName);
      if found.Some? {
        var i := found.value;
        displayFile := displayFile[..i] + displayFile[i + 1..];
      }
    }

    // -------------------------------------------------------------------
    // Transformations

    /** Opening the transformations menu starts an empty queue. */
    method BeginTransformations()
      modifies this
      ensures tempTransformations == []
      ensures window == old(window) && displayFile == old(displayFile)
      ensures lineClipMethod == old(lineClipMethod) && selectedColor == old(selectedColor) && lastPan == old(lastPan)
      ensures rotationCos == old(rotationCos) && rotationSin == old(rotationSin)
    {
      tempTransformations := [];
    }

    /** `add_transformation`: queue the step read from the current tab, if
        its parameters could be read. */
    method AddTransformation(step: Option<Step>)
      modifies this
      ensures tempTransformations == old(tempTransformations) + (if step.Some? then [step.value] else [])
      ensures window == old(window) && displayFile == old(displayFile)
      ensures lineClipMethod == old(lineClipMethod) && selectedColor == old(selectedColor) && lastPan == old(lastPan)
      ensures rotationCos == old(rotationCos) && rotationSin == old(rotationSin)
    {
      if step.Some? {
        tempTransformations := tempTransformations + [step.value];
      }
    }

    /** `remove_transformation`: drop the selected queue entry, if any. */
    method RemoveTransformation(selected: Option<nat>)
      modifies this
      ensures selected.Some? && selected.value < |old(tempTransformations)| ==>
        tempTransformations == old(tempTransformations)[..selected.value] + old(tempTransformations)[selected.value + 1..]
      ensures !(selected.Some? && selected.value < |old(tempTransformations)|) ==> tempTransformations == old(tempTransformations)
      ensures window == old(window) && displayFile == old(displayFile)
      ensures lineClipMethod == old(lineClipMethod) && selectedColor == old(selectedColor) && lastPan == old(lastPan)
      ensures rotationCos == old(rotationCos) && rotationSin == old(rotationSin)
    {
      if selected.Some? && selected.value < |tempTransformations| {
        var index := selected.value;
        tempTransformations := tempTransformations[..index] + tempTransformations[index + 1..];
      }
    }

    /** `apply_all_transformations`: combine the queued matrices and apply
        the product to the first object with the selected name. When a step
        needs the missing centre the source raises before changing
        anything. */
    method ApplyAllTransformations(selectedName: string) returns (r: Result<Mat3>)
      requires Valid()
      modifies this
      ensures Valid()
      ensures r == Combined(tempTransformations, CenterOf(old(displayFile), selectedName))
      ensures r.Failure? ==> displayFile == old(displayFile)
      ensures r.Success? ==> displayFile == TransformFirst(old(displayFile), selectedName, r.value)
      ensures window == old(window) && tempTransformations == old(tempTransformations)
      ensures lineClipMethod == old(lineClipMethod) && selectedColor == old(selectedColor) && lastPan == old(lastPan)
      ensures rotationCos == old(rotationCos) && rotationSin == old(rotationSin)
    {
      var center := CenterOf(displayFile, selectedName);
      r := CombineSteps(tempTransformations, center);
      if r.Failure? {
        return;
      }
      UniqueNamesTransform(displayFile, names.count, selectedName, r.value);
      WellShapedTransform(displayFile, selectedName, r.value);
      var found := FindFirst(displayFile, selectedName);
      if found.Some? {
        var i := found.value;
        var newCoords := TransformCoordinates(displayFile[i].coordinates, r.value);
        displayFile := displayFile[i := displayFile[i].(coordinates := newCoords)];
      }
    }

    // -------------------------------------------------------------------
    // Clipping

    /** `clip_object`: the result `ClipObjectSpec` gives for the counter
        as it stands, a clipped line or polygon taking the next name; a
        curve is returned as it is, its clipped segments being the curve's
        own buffer. */
    method ClipObject(obj: GraphicObject) returns (r: Option<GraphicObject>)
      requires WellShaped(obj)
      modifies names
      ensures r.Some? ==> ClippedInside(lineClipMethod, window, r.value)
      ensures r.Some? ==> r.value.kind == obj.kind
      ensures names.count == old(names.count) + NewObjects(if r.Some? then [r.value] else [])
      ensures r == ClipObjectSpec(lineClipMethod, window, obj, old(names.count))
    {
      match obj.kind
      case PointKind =>
        var p := obj.coordinates[0];
        r := if window.xmin <= p.x <= window.xmax && window.ymin <= p.y <= window.ymax then Some(obj) else None;
      case LineKind =>
        var line := Segment(obj.coordinates[0], obj.coordinates[1]);
        var s;
        if lineClipMethod == CS {
          s := CohenSutherland(window, line);
        } else {
          s := LiangBarskyClipAsWritten(window, line);
        }
        if s.None? {
          return None;
        }
        var name := names.Fresh("L");
        r := Some(GraphicObject(LineKind, name, [s.value.p1, s.value.p2], DefaultColor, false));
      case PolygonKind =>
        var vs := ClipPolygon(window, obj.coordinates);
        if vs.None? {
          return None;
        }
        var name := names.Fresh("W");
        r := Some(GraphicObject(PolygonKind, name, vs.value, obj.color, obj.filled));
      case CurveKind =>
        r := Some(obj);
    }

    /** `redraw`'s clipping pass: the clip of every display-file object,
        in order, the dropped ones left out, each clipped line and polygon
        having taken a name from the counter. */
    method Redraw() returns (shown: seq<GraphicObject>)
      requires Valid()
      modifies names
      ensures Valid()
      ensures |shown| <= |displayFile|
      ensures forall k :: 0 <= k < |shown| ==> ClippedInside(lineClipMethod, window, shown[k])
      ensures names.count == old(names.count) + NewObjects(shown)
      ensures shown == RedrawSpec(lineClipMethod, window, displayFile, old(names.count))
    {
      ghost var m, w, df, n0 := lineClipMethod, window, displayFile, names.count;
      shown := [];
      for i := 0 to |displayFile|
        invariant lineClipMethod == m && window == w && displayFile == df
        invariant names.count == n0 + NewObjects(shown)
        invariant Valid()
        invariant shown == RedrawSpec(m, w, df[..i], n0)
      {
        ghost var before := names.count;
        assert WellShaped(displayFile[i]);
        var c := ClipObject(displayFile[i]);
        UniqueNamesGrow(displayFile, before, names.count);
        RedrawStep(m, w, df, i, n0, shown, before, c);
        if c.Some? {
          NewObjectsAppend(shown, [c.value]);
          shown := shown + [c.value];
        }
      }
      assert df[..|df|] == df;
      RedrawSpecInside(lineClipMethod, window, displayFile, old(names.count));
    }
  }
}
