/** The earlier editor's `GraphicsSystem`: an unrotated window, a display
    file of points, lines and polygons, and its own object counter. It
    draws every object without clipping. */
module LegacyEditor {
  import opened Geometry
  import opened Naming
  import opened Viewing
  import opened Scene

  const InitialWindow: Rect := Rect(-50.0, -50.0, 50.0, 50.0)
  const InitialViewport: Rect := Rect(50.0, 50.0, 850.0, 650.0)
  const MoveStep: real := 0.1

  /** The fixed drawing colours of `Ponto`, `Linha` and `Poligono`. */
  const PointColor: string := "#00ff88"
  const LineColor: string := "#00aaff"
  const PolygonOutline: string := "#ffaa00"

  // ---------------------------------------------------------------------
  // Viewport transform

  /** The scale of `viewport_transform`: the horizontal ratio when the
      window is wider than the viewport, else the vertical one. None where
      the source divides by zero. */
  function AspectScale(w: Rect, vp: Rect): (r: Option<real>)
    ensures r.None? <==> (w.Height() == 0.0 || vp.Height() == 0.0
      || (w.Width() / w.Height() > vp.Width() / vp.Height() && w.Width() == 0.0))
  {
    if w.Height() == 0.0 || vp.Height() == 0.0 then None
    else
      var windowAspect := w.Width() / w.Height();
      var viewportAspect := vp.Width() / vp.Height();
      if windowAspect > viewportAspect then
        if w.Width() == 0.0 then None else Some(vp.Width() / w.Width())
      else Some(vp.Height() / w.Height())
  }

  /** `viewport_transform`: x scaled from the left edge, y measured down
      from the top edge. */
  function ViewportTransform(w: Rect, vp: Rect, p: Point2): (r: Option<Point2>)
    ensures r.Some? <==> AspectScale(w, vp).Some?
  {
    match AspectScale(w, vp)
    case None => None
    case Some(scale) => Some(Place(w, vp, scale, p))
  }

  /** The map for a given scale. */
  function Place(w: Rect, vp: Rect, scale: real, p: Point2): Point2 {
    Point2(vp.xmin + (p.x - w.xmin) * scale, vp.ymin + (w.ymax - p.y) * scale)
  }

  /** For positive extents the aspect test picks the smaller ratio: the
      window fits the viewport on both axes. */
  lemma AspectScaleIsMin(w: Rect, vp: Rect)
    requires w.WellFormed() && vp.WellFormed()
    ensures AspectScale(w, vp) == Some(Min(vp.Width() / w.Width(), vp.Height() / w.Height()))
  {
    var W, H, VW, VH := w.Width(), w.Height(), vp.Width(), vp.Height();
    AspectOrder(W, H, VW, VH);
  }

  /** `W/H > VW/VH` exactly when `VW/W < VH/H`, for positive sizes. */
  lemma AspectOrder(W: real, H: real, VW: real, VH: real)
    requires W > 0.0 && H > 0.0 && VW > 0.0 && VH > 0.0
    ensures W / H > VW / VH <==> VW / W < VH / H
  {
    var k1 := H * VH;
    var k2 := W * H;
    MulPositive(H, VH);
    MulPositive(W, H);
    assert (W / H) * k1 == W * VH;
    assert (VW / VH) * k1 == VW * H;
    assert (VW / W) * k2 == VW * H;
    assert (VH / H) * k2 == VH * W;
    ScaleOrder(W / H, VW / VH, k1);
    ScaleOrder(VH / H, VW / W, k2);
  }

  lemma MulPositive(a: real, b: real)
    requires a > 0.0 && b > 0.0
    ensures a * b > 0.0
  {}

  /** Multiplying by a positive number keeps a strict order. */
  lemma ScaleOrder(a: real, b: real, k: real)
    requires k > 0.0
    ensures a > b <==> a * k > b * k
  {
    assert a * k - b * k == (a - b) * k;
    if a > b {
      MulPositive(a - b, k);
    } else {
      MulNonNeg(b - a, k);
    }
  }

  /** The window's top-left corner lands on the viewport's `(xmin, ymin)`. */
  lemma ViewportCorner(w: Rect, vp: Rect)
    requires w.WellFormed() && vp.WellFormed()
    ensures ViewportTransform(w, vp, Point2(w.xmin, w.ymax)) == Some(Point2(vp.xmin, vp.ymin))
  {
    AspectScaleIsMin(w, vp);
    var s := AspectScale(w, vp).value;
    var c0 := Point2(w.xmin, w.ymax);
    assert (c0.x - w.xmin) * s == 0.0 && (w.ymax - c0.y) * s == 0.0;
    assert Place(w, vp, s, c0) == Point2(vp.xmin, vp.ymin);
  }

  /** Every window point lands inside the viewport. */
  lemma ViewportInside(w: Rect, vp: Rect, p: Point2)
    requires w.WellFormed() && vp.WellFormed() && InRect(w, p)
    ensures InRect(vp, ViewportTransform(w, vp, p).value)
  {
    AspectScaleIsMin(w, vp);
    DivNonNeg(vp.Width(), w.Width());
    DivNonNeg(vp.Height(), w.Height());
    PlaceInside(w, vp, AspectScale(w, vp).value, p);
  }

  lemma PlaceInside(w: Rect, vp: Rect, s: real, p: Point2)
    requires w.WellFormed() && vp.WellFormed() && InRect(w, p)
    requires 0.0 <= s <= vp.Width() / w.Width() && s <= vp.Height() / w.Height()
    ensures InRect(vp, Place(w, vp, s, p))
  {
    ScaledWithin(p.x - w.xmin, w.Width(), vp.Width(), s);
    ScaledWithin(w.ymax - p.y, w.Height(), vp.Height(), s);
  }

  // ---------------------------------------------------------------------
  // The editor

  class GraphicsSystem {
    var window: Rect
    const originalWindow: Rect
    const viewport: Rect
    var displayFile: seq<GraphicObject>
    /** The class-level `_contador` of `ObjetoGrafico`. */
    const names: NameCounter
    /** The last mouse position of a drag; None before the first press. */
    var lastPan: Option<Point2>

    /** Shapes as the constructors demand, and unique counter-given names. */
    predicate Valid()
      reads this, names
    {
      AllWellShaped(displayFile) && UniqueNames(displayFile, names.count)
    }

    constructor ()
      ensures Valid() && fresh(names) && names.count == 0
      ensures window == InitialWindow && originalWindow == InitialWindow && viewport == InitialViewport
      ensures displayFile == [] && lastPan == None
    {
      window := InitialWindow;
      originalWindow := InitialWindow;
      viewport := InitialViewport;
      displayFile := [];
      names := new NameCounter();
      lastPan := None;
    }

    /** `move_window`: shift one axis by a tenth of its extent. */
    method MoveWindow(d: Direction)
      modifies this
      ensures window == MoveAxis(old(window), d, MoveStep)
      ensures displayFile == old(displayFile) && lastPan == old(lastPan)
    {
      var deltaX := (window.xmax - window.xmin) * MoveStep;
      var deltaY := (window.ymax - window.ymin) * MoveStep;
      match d
      case Up => window := window.(ymin := window.ymin + deltaY, ymax := window.ymax + deltaY);
      case Down => window := window.(ymin := window.ymin - deltaY, ymax := window.ymax - deltaY);
      case ToLeft => window := window.(xmin := window.xmin - deltaX, xmax := window.xmax - deltaX);
      case ToRight => window := window.(xmin := window.xmin + deltaX, xmax := window.xmax + deltaX);
    }

    /** `reset_view`. */
    method ResetView()
      modifies this
      ensures window == originalWindow
      ensures displayFile == old(displayFile) && lastPan == old(lastPan)
    {
      window := originalWindow;
    }

    /** `pan` with action "start". */
    method PanStart(ex: real, ey: real)
      modifies this
      ensures lastPan == Some(Point2(ex, ey))
      ensures window == old(window) && displayFile == old(displayFile)
    {
      lastPan := Some(Point2(ex, ey));
    }

    /** `pan` with action "drag"; without a press first the source fails
        and nothing changes. */
    method PanDrag(ex: real, ey: real)
      requires viewport == InitialViewport
      modifies this
      ensures old(lastPan).None? ==> window == old(window) && lastPan == old(lastPan)
      ensures old(lastPan).Some? ==>
        window == Pan(old(window), old(lastPan).value.x, old(lastPan).value.y, ex, ey, viewport.xmax, viewport.ymax)
        && lastPan == Some(Point2(ex, ey))
      ensures displayFile == old(displayFile)
    {
      if lastPan.None? {
        return;
      }
      var last := lastPan.value;
      var dx := (ex - last.x) * (window.xmax - window.xmin) / viewport.xmax;
      var dy := (ey - last.y) * (window.ymax - window.ymin) / viewport.ymax;
      window := Rect(window.xmin - dx, window.ymin + dy, window.xmax - dx, window.ymax + dy);
      lastPan := Some(Point2(ex, ey));
    }

    /** `zoom`: the mouse wheel at canvas point `(ex, ey)`. */
    method Zoom(ex: real, ey: real, delta: real)
      requires viewport == InitialViewport
      modifies this
      ensures window == Viewing.Zoom(old(window), ex, ey, delta, viewport.xmax, viewport.ymax)
      ensures displayFile == old(displayFile) && lastPan == old(lastPan)
    {
      var w := window;
      var factor := if delta > 0.0 then 0.9 else 1.1;
      var mx := w.xmin + (ex / viewport.xmax) * (w.xmax - w.xmin);
      var my := w.ymin + ((viewport.ymax - ey) / viewport.ymax) * (w.ymax - w.ymin);
      assert Point2(mx, my) == MousePoint(w, ex, ey, viewport.xmax, viewport.ymax);
      window := Rect(mx - (mx - w.xmin) * factor, my - (my - w.ymin) * factor,
                     mx + (w.xmax - mx) * factor, my + (w.ymax - my) * factor);
    }

    /** `zoom_manual`: scale about the centre. */
    method ZoomManual(factor: real)
      modifies this
      ensures window == ZoomCentered(old(window), factor)
      ensures displayFile == old(displayFile) && lastPan == old(lastPan)
    {
      var c := Center(window);
      window := ScaleAbout(window, c, factor);
    }

    /** Build an object (which takes the next name) and append it. */
    method Append(kind: Kind, coordinates: seq<Point2>, color: string)
      requires Valid() && WellShaped(GraphicObject(kind, "", coordinates, color, false))
      modifies this, names
      ensures Valid() && names.count == old(names.count) + 1
      ensures displayFile == old(displayFile) + [GraphicObject(kind, NameOf(Prefix(kind), names.count), coordinates, color, false)]
      ensures window == old(window) && lastPan == old(lastPan)
    {
      var name := names.Fresh(Prefix(kind));
      var o := GraphicObject(kind, name, coordinates, color, false);
      UniqueNamesAppend(displayFile, names.count - 1, o);
      displayFile := displayFile + [o];
    }

    /** `add_point`: exactly one coordinate. */
    method AddPoint(coordinates: seq<Point2>) returns (added: bool)
      requires Valid()
      modifies this, names
      ensures Valid() && (added <==> |coordinates| == 1)
      ensures added ==> (names.count == old(names.count) + 1
        && displayFile == old(displayFile) + [GraphicObject(PointKind, NameOf("P", names.count), coordinates, PointColor, false)])
      ensures !added ==> names.count == old(names.count) && displayFile == old(displayFile)
      ensures window == old(window) && lastPan == old(lastPan)
    {
      added := |coordinates| == 1;
      if added {
        Append(PointKind, coordinates, PointColor);
      }
    }

    /** `add_line`: exactly two coordinates. */
    method AddLine(coordinates: seq<Point2>) returns (added: bool)
      requires Valid()
      modifies this, names
      ensures Valid() && (added <==> |coordinates| == 2)
      ensures added ==> (names.count == old(names.count) + 1
        && displayFile == old(displayFile) + [GraphicObject(LineKind, NameOf("L", names.count), coordinates, LineColor, false)])
      ensures !added ==> names.count == old(names.count) && displayFile == old(displayFile)
      ensures window == old(window) && lastPan == old(lastPan)
    {
      added := |coordinates| == 2;
      if added {
        Append(LineKind, coordinates, LineColor);
      }
    }

    /** `add_polygon`: at least three coordinates. */
    method AddPolygon(coordinates: seq<Point2>) returns (added: bool)
      requires Valid()
      modifies this, names
      ensures Valid() && (added <==> |coordinates| >= 3)
      ensures added ==> (names.count == old(names.count) + 1
        && displayFile == old(displayFile) + [GraphicObject(PolygonKind, NameOf("W", names.count), coordinates, PolygonOutline, false)])
      ensures !added ==> names.count == old(names.count) && displayFile == old(displayFile)
      ensures window == old(window) && lastPan == old(lastPan)
    {
      added := |coordinates| >= 3;
      if added {
        Append(PolygonKind, coordinates, PolygonOutline);
      }
    }

    /** `clear_canvas`: empty the display file and reset the counter. */
    method ClearCanvas()
      requires Valid()
      modifies this, names
      ensures Valid() && displayFile == [] && names.count == 0
      ensures window == old(window) && lastPan == old(lastPan)
    {
      displayFile := [];
      names.Reset();
    }

    /** `delete_selected`: remove the first object with the selected name. */
    method DeleteSelected(selectedName: string)
      requires Valid()
      modifies this
      ensures Valid() && displayFile == DeleteFirst(old(displayFile), selectedName)
      ensures window == old(window) && lastPan == old(lastPan)
    {
      UniqueNamesDelete(displayFile, names.count, selectedName);
      WellShapedDelete(displayFile, selectedName);
      var found := FindFirst(displayFile, selectedName);
      if found.Some? {
        var i := found.value;
        displayFile := displayFile[..i] + displayFile[i + 1..];
      }
    }
  }
}
