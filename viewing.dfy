/** The window operations both editors share: moving the window by a tenth
    of its extent, dragging it with the mouse, zooming about the mouse point
    and zooming about the centre. Each takes the window record and returns
    the new one; the editors' methods store the result. */
module Viewing {
  import opened Geometry

  /** The four arrow buttons. */
  datatype Direction = Up | Down | ToLeft | ToRight

  /** The unit step of each direction, as `(dx, dy)`. */
  function Unit(d: Direction): (real, real) {
    match d
    case Up => (0.0, 1.0)
    case Down => (0.0, -1.0)
    case ToLeft => (-1.0, 0.0)
    case ToRight => (1.0, 0.0)
  }

  function Opposite(d: Direction): Direction {
    match d
    case Up => Down
    case Down => Up
    case ToLeft => ToRight
    case ToRight => ToLeft
  }

  /** The window moved by `(dx, dy)`. */
  function Shift(w: Rect, dx: real, dy: real): (r: Rect)
    ensures r.Width() == w.Width() && r.Height() == w.Height()
  {
    Rect(w.xmin + dx, w.ymin + dy, w.xmax + dx, w.ymax + dy)
  }

  /** The offset of one arrow press on an unrotated window: `step` times the
      extent of the axis the direction lies on. */
  function AxisOffset(w: Rect, d: Direction, step: real): (real, real) {
    (Unit(d).0 * (w.Width() * step), Unit(d).1 * (w.Height() * step))
  }

  /** `move_window` without rotation: shift along one axis. */
  function MoveAxis(w: Rect, d: Direction, step: real): Rect {
    Shift(w, AxisOffset(w, d, step).0, AxisOffset(w, d, step).1)
  }

  /** A move changes one axis by `step` times its extent and leaves the
      other axis and both extents alone. */
  lemma MoveAxisShifts(w: Rect, d: Direction, step: real)
    ensures var r := MoveAxis(w, d, step);
      r.Width() == w.Width() && r.Height() == w.Height()
      && (d == Up ==> r == Rect(w.xmin, w.ymin + w.Height() * step, w.xmax, w.ymax + w.Height() * step))
      && (d == Down ==> r == Rect(w.xmin, w.ymin - w.Height() * step, w.xmax, w.ymax - w.Height() * step))
      && (d == ToLeft ==> r == Rect(w.xmin - w.Width() * step, w.ymin, w.xmax - w.Width() * step, w.ymax))
      && (d == ToRight ==> r == Rect(w.xmin + w.Width() * step, w.ymin, w.xmax + w.Width() * step, w.ymax))
  {}

  /** Pressing the opposite arrow undoes a move. */
  lemma MoveAxisUndo(w: Rect, d: Direction, step: real)
    ensures MoveAxis(MoveAxis(w, d, step), Opposite(d), step) == w
  {}

  /** `move_window` of the rotating editor: the axis offset turned by the
      window rotation, given by its cosine and sine. */
  function MoveRotated(w: Rect, d: Direction, step: real, cos: real, sin: real): Rect {
    var (dx, dy) := AxisOffset(w, d, step);
    Shift(w, dx * cos - dy * sin, dx * sin + dy * cos)
  }

  /** Without rotation the rotating move is the axis move; with any rotation
      the extents are kept, the opposite arrow undoes the move, and for a
      true rotation the distance moved is that of the axis move. */
  lemma MoveRotatedFacts(w: Rect, d: Direction, step: real, cos: real, sin: real)
    ensures MoveRotated(w, d, step, 1.0, 0.0) == MoveAxis(w, d, step)
    ensures MoveRotated(w, d, step, cos, sin).Width() == w.Width()
    ensures MoveRotated(w, d, step, cos, sin).Height() == w.Height()
    ensures MoveRotated(MoveRotated(w, d, step, cos, sin), Opposite(d), step, cos, sin) == w
    ensures cos * cos + sin * sin == 1.0 ==>
      var (dx, dy) := AxisOffset(w, d, step);
      var r := MoveRotated(w, d, step, cos, sin);
      (r.xmin - w.xmin) * (r.xmin - w.xmin) + (r.ymin - w.ymin) * (r.ymin - w.ymin) == dx * dx + dy * dy
  {
    var (dx, dy) := AxisOffset(w, d, step);
    var r := MoveRotated(w, d, step, cos, sin);
    assert AxisOffset(r, Opposite(d), step) == (-dx, -dy);
    assert (-dx) * cos - (-dy) * sin == -(dx * cos - dy * sin);
    assert (-dx) * sin + (-dy) * cos == -(dx * sin + dy * cos);
    if cos * cos + sin * sin == 1.0 {
      TurnedLength(dx, dy, cos, sin);
    }
  }

  // ---------------------------------------------------------------------
  // Dragging

  /** The world offset of a drag from `(lx, ly)` to `(ex, ey)` in canvas
      pixels, scaled by the window extent over the viewport's far corner. */
  function DragOffset(w: Rect, lx: real, ly: real, ex: real, ey: real, vpXmax: real, vpYmax: real): (real, real)
    requires vpXmax != 0.0 && vpYmax != 0.0
  {
    ((ex - lx) * w.Width() / vpXmax, (ey - ly) * w.Height() / vpYmax)
  }

  /** `pan` on a drag event: x moves against the mouse, y with it (canvas y
      grows downwards). */
  function Pan(w: Rect, lx: real, ly: real, ex: real, ey: real, vpXmax: real, vpYmax: real): Rect
    requires vpXmax != 0.0 && vpYmax != 0.0
  {
    var (dx, dy) := DragOffset(w, lx, ly, ex, ey, vpXmax, vpYmax);
    Rect(w.xmin - dx, w.ymin + dy, w.xmax - dx, w.ymax + dy)
  }

  /** A drag translates the window without changing its size, and dragging
      back to the start point restores it. */
  lemma PanFacts(w: Rect, lx: real, ly: real, ex: real, ey: real, vpXmax: real, vpYmax: real)
    requires vpXmax != 0.0 && vpYmax != 0.0
    ensures var r := Pan(w, lx, ly, ex, ey, vpXmax, vpYmax);
      r.Width() == w.Width() && r.Height() == w.Height()
      && r.xmin - w.xmin == -((ex - lx) * w.Width() / vpXmax) && r.ymin - w.ymin == (ey - ly) * w.Height() / vpYmax
    ensures Pan(Pan(w, lx, ly, ex, ey, vpXmax, vpYmax), ex, ey, lx, ly, vpXmax, vpYmax) == w
  {
    var r := Pan(w, lx, ly, ex, ey, vpXmax, vpYmax);
    assert r.Width() == w.Width() && r.Height() == w.Height();
    assert (lx - ex) * w.Width() / vpXmax == -((ex - lx) * w.Width() / vpXmax);
    assert (ly - ey) * w.Height() / vpYmax == -((ey - ly) * w.Height() / vpYmax);
  }

  // ---------------------------------------------------------------------
  // Zooming

  /** The wheel factor: in for a positive delta, out otherwise. */
  function WheelFactor(delta: real): real {
    if delta > 0.0 then 0.9 else 1.1
  }

  /** The world point under canvas pixel `(ex, ey)`. */
  function MousePoint(w: Rect, ex: real, ey: real, vpXmax: real, vpYmax: real): Point2
    requires vpXmax != 0.0 && vpYmax != 0.0
  {
    Point2(w.xmin + (ex / vpXmax) * w.Width(), w.ymin + ((vpYmax - ey) / vpYmax) * w.Height())
  }

  /** Both extents scaled by `factor` about the point `c`. */
  function ScaleAbout(w: Rect, c: Point2, factor: real): Rect {
    Rect(c.x - (c.x - w.xmin) * factor, c.y - (c.y - w.ymin) * factor,
         c.x + (w.xmax - c.x) * factor, c.y + (w.ymax - c.y) * factor)
  }

  /** Scaling about `c` multiplies both extents by the factor, and scaling
      back by its inverse restores the window. */
  lemma ScaleAboutFacts(w: Rect, c: Point2, factor: real)
    ensures ScaleAbout(w, c, factor).Width() == w.Width() * factor
    ensures ScaleAbout(w, c, factor).Height() == w.Height() * factor
    ensures factor != 0.0 ==> ScaleAbout(ScaleAbout(w, c, factor), c, 1.0 / factor) == w
  {
    if factor != 0.0 {
      var r := ScaleAbout(w, c, factor);
      assert (c.x - r.xmin) * (1.0 / factor) == c.x - w.xmin;
      assert (r.xmax - c.x) * (1.0 / factor) == w.xmax - c.x;
      assert (c.y - r.ymin) * (1.0 / factor) == c.y - w.ymin;
      assert (r.ymax - c.y) * (1.0 / factor) == w.ymax - c.y;
    }
  }

  /** `zoom`: scale about the world point under the mouse. */
  function Zoom(w: Rect, ex: real, ey: real, delta: real, vpXmax: real, vpYmax: real): Rect
    requires vpXmax != 0.0 && vpYmax != 0.0
  {
    ScaleAbout(w, MousePoint(w, ex, ey, vpXmax, vpYmax), WheelFactor(delta))
  }

  /** After a wheel zoom the same world point is under the mouse, and both
      extents are scaled by 0.9 or 1.1. */
  lemma ZoomKeepsMouse(w: Rect, ex: real, ey: real, delta: real, vpXmax: real, vpYmax: real)
    requires vpXmax != 0.0 && vpYmax != 0.0
    ensures var r := Zoom(w, ex, ey, delta, vpXmax, vpYmax);
      MousePoint(r, ex, ey, vpXmax, vpYmax) == MousePoint(w, ex, ey, vpXmax, vpYmax)
      && r.Width() == w.Width() * WheelFactor(delta) && r.Height() == w.Height() * WheelFactor(delta)
  {
    var m := MousePoint(w, ex, ey, vpXmax, vpYmax);
    var f := WheelFactor(delta);
    var r := Zoom(w, ex, ey, delta, vpXmax, vpYmax);
    ScaleAboutFacts(w, m, f);
    var u, v := ex / vpXmax, (vpYmax - ey) / vpYmax;
    FixedUnderScaling(w.xmin, w.Width(), u, f, r.xmin, r.Width());
    FixedUnderScaling(w.ymin, w.Height(), v, f, r.ymin, r.Height());
  }

  /** With `m = lo + u * ext`, the scaled interval `lo' = m - (m - lo) * f`,
      `ext' = ext * f` puts `m` at the same fraction `u`. */
  lemma FixedUnderScaling(lo: real, ext: real, u: real, f: real, lo': real, ext': real)
    requires lo' == (lo + u * ext) - ((lo + u * ext) - lo) * f && ext' == ext * f
    ensures lo' + u * ext' == lo + u * ext
  {
    assert ((lo + u * ext) - lo) * f == (u * ext) * f;
    assert u * (ext * f) == (u * ext) * f;
  }

  /** The window centre. */
  function Center(w: Rect): Point2 {
    Point2((w.xmin + w.xmax) / 2.0, (w.ymin + w.ymax) / 2.0)
  }

  /** `zoom_manual`: scale about the centre. */
  function ZoomCentered(w: Rect, factor: real): Rect {
    ScaleAbout(w, Center(w), factor)
  }

  /** A manual zoom keeps the centre, multiplies both extents by the factor,
      and is undone by the inverse factor. */
  lemma ZoomCenteredFacts(w: Rect, factor: real)
    ensures Center(ZoomCentered(w, factor)) == Center(w)
    ensures ZoomCentered(w, factor).Width() == w.Width() * factor
    ensures ZoomCentered(w, factor).Height() == w.Height() * factor
    ensures factor != 0.0 ==> ZoomCentered(ZoomCentered(w, factor), 1.0 / factor) == w
  {
    var c := Center(w);
    var r := ZoomCentered(w, factor);
    ScaleAboutFacts(w, c, factor);
    assert (c.x - w.xmin) * factor == (w.xmax - c.x) * factor;
    assert (c.y - w.ymin) * factor == (w.ymax - c.y) * factor;
    assert Center(r) == c;
  }
}
