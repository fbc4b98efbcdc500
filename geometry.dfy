/** Values shared by every part of the editor's geometry pipeline: points,
    axis-aligned rectangles (the window and the viewport), and the
    Option/Result wrappers used for the source's `None` returns and raised
    errors. Coordinates are exact reals. */
module Geometry {

  datatype Option<+T> = None | Some(value: T)

  datatype Result<+T> = Success(value: T) | Failure(error: string)

  /** A 2D point `(x, y)`. */
  datatype Point2 = Point2(x: real, y: real)

  /** A 3D point `(x, y, z)`. */
  datatype Point3 = Point3(x: real, y: real, z: real)

  /** A window or viewport record `{xmin, ymin, xmax, ymax}`. */
  datatype Rect = Rect(xmin: real, ymin: real, xmax: real, ymax: real) {
    function Width(): real { xmax - xmin }
    function Height(): real { ymax - ymin }
    /** Both extents are positive, as for every window the editor builds. */
    predicate WellFormed() { xmin < xmax && ymin < ymax }
  }

  /** The inclusive point test used everywhere in the clipping engine. */
  predicate InRect(w: Rect, p: Point2) {
    w.xmin <= p.x <= w.xmax && w.ymin <= p.y <= w.ymax
  }

  function Min(a: real, b: real): real { if a <= b then a else b }
  function Max(a: real, b: real): real { if a <= b then b else a }

  /** `v` lies on the closed interval spanned by `a` and `b`. */
  predicate Between(v: real, a: real, b: real) {
    Min(a, b) <= v <= Max(a, b)
  }

  lemma MulNonNeg(a: real, b: real)
    requires a >= 0.0 && b >= 0.0
    ensures a * b >= 0.0
  {}

  /** `a + t * (b - a)` stays between `a` and `b` for `0 <= t <= 1`. */
  lemma LerpBetween(a: real, b: real, t: real)
    requires 0.0 <= t <= 1.0
    ensures Between(a + (b - a) * t, a, b)
  {
    var d := b - a;
    assert d - d * t == d * (1.0 - t);
    if a <= b {
      MulNonNeg(d, t);
      MulNonNeg(d, 1.0 - t);
    } else {
      MulNonNeg(-d, t);
      MulNonNeg(-d, 1.0 - t);
    }
  }

  lemma DivNonNeg(a: real, b: real)
    requires a >= 0.0 && b > 0.0
    ensures a / b >= 0.0
  {}

  lemma MulDiv(x: real, y: real, z: real)
    requires z != 0.0
    ensures x * y / z == x * (y / z)
  {}

  lemma DivSplit(a: real, b: real, c: real)
    requires c != 0.0
    ensures a / c - b / c == (a - b) / c
  {}

  lemma DivNeg(a: real, b: real)
    requires b != 0.0
    ensures a / b == (-a) / (-b)
  {}

  /** The parameter at which a segment from `a` to `b` reaches `c`, when `c`
      lies between them, is in `[0, 1]`. */
  lemma RatioInUnit(a: real, b: real, c: real)
    requires a != b && Between(c, a, b)
    ensures 0.0 <= (c - a) / (b - a) <= 1.0
  {
    var t := (c - a) / (b - a);
    assert (b - a) / (b - a) == 1.0;
    DivSplit(b - a, c - a, b - a);
    assert 1.0 - t == (b - c) / (b - a);
    if a < b {
      DivNonNeg(c - a, b - a);
      DivNonNeg(b - c, b - a);
    } else {
      DivNeg(c - a, b - a);
      DivNeg(b - c, b - a);
      DivNonNeg(a - c, a - b);
      DivNonNeg(c - b, a - b);
    }
  }

  /** `0 <= d <= ext` and `0 <= s <= vext / ext` give `0 <= d * s <= vext`. */
  lemma ScaledWithin(d: real, ext: real, vext: real, s: real)
    requires 0.0 <= d <= ext && ext > 0.0 && 0.0 <= s <= vext / ext
    ensures 0.0 <= d * s <= vext
  {
    MulNonNeg(d, s);
    assert d * s <= ext * s;
    assert ext * (vext / ext) == vext;
    assert ext * s <= ext * (vext / ext);
  }

  /** A vector turned by an angle with cosine `cos` and sine `sin`, where
      `cos^2 + sin^2 == 1`, keeps its squared length. */
  lemma TurnedLength(dx: real, dy: real, cos: real, sin: real)
    requires cos * cos + sin * sin == 1.0
    ensures (dx * cos - dy * sin) * (dx * cos - dy * sin) + (dx * sin + dy * cos) * (dx * sin + dy * cos) == dx * dx + dy * dy
  {
    assert (dx * cos - dy * sin) * (dx * cos - dy * sin) == dx * dx * (cos * cos) - 2.0 * (dx * dy) * (cos * sin) + dy * dy * (sin * sin);
    assert (dx * sin + dy * cos) * (dx * sin + dy * cos) == dx * dx * (sin * sin) + 2.0 * (dx * dy) * (cos * sin) + dy * dy * (cos * cos);
    assert dx * dx * (cos * cos) + dx * dx * (sin * sin) == dx * dx * (cos * cos + sin * sin);
    assert dy * dy * (cos * cos) + dy * dy * (sin * sin) == dy * dy * (cos * cos + sin * sin);
  }

  // ---------------------------------------------------------------------
  // The flattened device coordinates

  /** `get_coordinates` (2D) and `get_coordinates_3d` (3D): the projected
      points flattened to `[vx0, vy0, vx1, vy1, ...]`, with the first point
      repeated at the end when there are at least three. */
  function Flattened<T>(coords: seq<T>, project: T -> Point2): (r: seq<real>)
    ensures |r| == 2 * |coords| + (if |coords| >= 3 then 2 else 0)
    ensures forall i :: 0 <= i < |coords| ==> r[2 * i] == project(coords[i]).x && r[2 * i + 1] == project(coords[i]).y
    ensures |coords| >= 3 ==> r[|r| - 2] == project(coords[0]).x && r[|r| - 1] == project(coords[0]).y
  {
    FlatPoints(coords, project) + (if |coords| >= 3 then [project(coords[0]).x, project(coords[0]).y] else [])
  }

  function FlatPoints<T>(coords: seq<T>, project: T -> Point2): (r: seq<real>)
    ensures |r| == 2 * |coords|
    ensures forall i :: 0 <= i < |coords| ==> r[2 * i] == project(coords[i]).x && r[2 * i + 1] == project(coords[i]).y
  {
    if coords == [] then []
    else
      var rest := FlatPoints(coords[..|coords| - 1], project);
      var last := project(coords[|coords| - 1]);
      rest + [last.x, last.y]
  }

  /** The loop of `get_coordinates`, extending the list pairwise. */
  method GetCoordinates<T>(coordinates: seq<T>, project: T -> Point2) returns (coords: seq<real>)
    ensures coords == Flattened(coordinates, project)
  {
    coords := [];
    for i := 0 to |coordinates|
      invariant coords == FlatPoints(coordinates[..i], project)
    {
      var v := project(coordinates[i]);
      assert coordinates[..i + 1][..i] == coordinates[..i];
      coords := coords + [v.x, v.y];
    }
    assert coordinates[..|coordinates|] == coordinates;
    if |coordinates| >= 3 {
      var v0 := project(coordinates[0]);
      coords := coords + [v0.x, v0.y];
    }
  }
}
