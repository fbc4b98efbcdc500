/** The object transformations of the editor: 3x3 homogeneous matrices in
    the row-vector convention (`[x, y, 1] @ M`), the matrix each queued step
    produces (`generate_matrix`), their composition
    (`apply_all_transformations`) and the object centre
    (`get_object_center`). Cosine and sine of a rotation angle are given as
    numbers. */
module Transforms {
  import opened Geometry

  /** A 3x3 matrix, `mij` being row `i`, column `j`. */
  datatype Mat3 = Mat3(m00: real, m01: real, m02: real,
                       m10: real, m11: real, m12: real,
                       m20: real, m21: real, m22: real)

  const Identity: Mat3 := Mat3(1.0, 0.0, 0.0, 0.0, 1.0, 0.0, 0.0, 0.0, 1.0)

  /** Matrix product `a @ b`. */
  function Mul(a: Mat3, b: Mat3): Mat3 {
    Mat3(a.m00 * b.m00 + a.m01 * b.m10 + a.m02 * b.m20,
         a.m00 * b.m01 + a.m01 * b.m11 + a.m02 * b.m21,
         a.m00 * b.m02 + a.m01 * b.m12 + a.m02 * b.m22,
         a.m10 * b.m00 + a.m11 * b.m10 + a.m12 * b.m20,
         a.m10 * b.m01 + a.m11 * b.m11 + a.m12 * b.m21,
         a.m10 * b.m02 + a.m11 * b.m12 + a.m12 * b.m22,
         a.m20 * b.m00 + a.m21 * b.m10 + a.m22 * b.m20,
         a.m20 * b.m01 + a.m21 * b.m11 + a.m22 * b.m21,
         a.m20 * b.m02 + a.m21 * b.m12 + a.m22 * b.m22)
  }

  /** `[x, y, 1] @ m`, keeping the first two components (the third is
      dropped, not divided by). */
  function Apply(p: Point2, m: Mat3): Point2 {
    Point2(p.x * m.m00 + p.y * m.m10 + m.m20, p.x * m.m01 + p.y * m.m11 + m.m21)
  }

  /** The last column is `(0, 0, 1)`: the matrix maps `w = 1` to `w = 1`. */
  predicate Affine(m: Mat3) {
    m.m02 == 0.0 && m.m12 == 0.0 && m.m22 == 1.0
  }

  lemma MulAffine(a: Mat3, b: Mat3)
    requires Affine(a) && Affine(b)
    ensures Affine(Mul(a, b))
  {}

  /** Applying a product is applying its factors in order. */
  lemma ApplyMul(p: Point2, a: Mat3, b: Mat3)
    requires Affine(a)
    ensures Apply(p, Mul(a, b)) == Apply(Apply(p, a), b)
  {
    ApplyMulX(p, a, b);
    ApplyMulY(p, a, b);
  }

  lemma ApplyMulX(p: Point2, a: Mat3, b: Mat3)
    requires Affine(a)
    ensures Apply(p, Mul(a, b)).x == Apply(Apply(p, a), b).x
  {
    var c, q := Mul(a, b), Apply(p, a);
    AffineColumn(p.x, p.y, a, q.x, q.y, b.m00, b.m10, b.m20, c.m00, c.m10, c.m20);
  }

  lemma ApplyMulY(p: Point2, a: Mat3, b: Mat3)
    requires Affine(a)
    ensures Apply(p, Mul(a, b)).y == Apply(Apply(p, a), b).y
  {
    var c, q := Mul(a, b), Apply(p, a);
    AffineColumn(p.x, p.y, a, q.x, q.y, b.m01, b.m11, b.m21, c.m01, c.m11, c.m21);
  }

  /** One output coordinate of `[x, y, 1] @ a @ b`, computed both ways:
      `(qx, qy)` is `[x, y, 1] @ a`, `(b0, b1, b2)` a column of `b` and
      `(m0, m1, m2)` the same column of `a @ b`. */
  lemma AffineColumn(x: real, y: real, a: Mat3, qx: real, qy: real, b0: real, b1: real, b2: real, m0: real, m1: real, m2: real)
    requires Affine(a)
    ensures (qx == x * a.m00 + y * a.m10 + a.m20 && qy == x * a.m01 + y * a.m11 + a.m21
      && m0 == a.m00 * b0 + a.m01 * b1 + a.m02 * b2
      && m1 == a.m10 * b0 + a.m11 * b1 + a.m12 * b2
      && m2 == a.m20 * b0 + a.m21 * b1 + a.m22 * b2) ==> x * m0 + y * m1 + m2 == qx * b0 + qy * b1 + b2
  {
    if qx == x * a.m00 + y * a.m10 + a.m20 && qy == x * a.m01 + y * a.m11 + a.m21
      && m0 == a.m00 * b0 + a.m01 * b1 + a.m02 * b2
      && m1 == a.m10 * b0 + a.m11 * b1 + a.m12 * b2
      && m2 == a.m20 * b0 + a.m21 * b1 + a.m22 * b2
    {
      assert a.m02 * b2 == 0.0 && a.m12 * b2 == 0.0 && a.m22 * b2 == b2;
      assert qx * b0 == x * (a.m00 * b0) + y * (a.m10 * b0) + a.m20 * b0;
      assert qy * b1 == x * (a.m01 * b1) + y * (a.m11 * b1) + a.m21 * b1;
      assert x * m0 == x * (a.m00 * b0) + x * (a.m01 * b1);
      assert y * m1 == y * (a.m10 * b0) + y * (a.m11 * b1);
    }
  }

  lemma ApplyIdentity(p: Point2)
    ensures Apply(p, Identity) == p
  {}

  /** `[[1, 0, 0], [0, 1, 0], [dx, dy, 1]]`. */
  function TranslationMatrix(dx: real, dy: real): (m: Mat3)
    ensures Affine(m)
  {
    Mat3(1.0, 0.0, 0.0, 0.0, 1.0, 0.0, dx, dy, 1.0)
  }

  /** `[[sx, 0, 0], [0, sy, 0], [0, 0, 1]]`. */
  function ScalingMatrix(sx: real, sy: real): (m: Mat3)
    ensures Affine(m)
  {
    Mat3(sx, 0.0, 0.0, 0.0, sy, 0.0, 0.0, 0.0, 1.0)
  }

  /** `[[cos, -sin, 0], [sin, cos, 0], [0, 0, 1]]`. */
  function RotationMatrix(cos: real, sin: real): (m: Mat3)
    ensures Affine(m)
  {
    Mat3(cos, -sin, 0.0, sin, cos, 0.0, 0.0, 0.0, 1.0)
  }

  /** What each elementary matrix does to a point. */
  lemma ApplyTranslation(p: Point2, dx: real, dy: real)
    ensures Apply(p, TranslationMatrix(dx, dy)) == Point2(p.x + dx, p.y + dy)
  {}

  lemma ApplyScaling(p: Point2, sx: real, sy: real)
    ensures Apply(p, ScalingMatrix(sx, sy)) == Point2(p.x * sx, p.y * sy)
  {}

  lemma ApplyRotation(p: Point2, cos: real, sin: real)
    ensures Apply(p, RotationMatrix(cos, sin)) == Point2(p.x * cos + p.y * sin, p.x * -sin + p.y * cos)
  {}

  /** `T(-c) @ m @ T(c)`: `m` applied about the point `c`. */
  function About(c: Point2, m: Mat3): (r: Mat3)
    ensures Affine(m) ==> Affine(r)
  {
    Mul(Mul(TranslationMatrix(-c.x, -c.y), m), TranslationMatrix(c.x, c.y))
  }

  /** Applying `About(c, m)` moves `c` to the origin, applies `m` and moves
      back. */
  lemma ApplyAbout(p: Point2, c: Point2, m: Mat3)
    requires Affine(m)
    ensures Apply(p, About(c, m)) == Apply(Apply(Point2(p.x - c.x, p.y - c.y), m), TranslationMatrix(c.x, c.y))
  {
    var t := TranslationMatrix(-c.x, -c.y);
    MulAffine(t, m);
    ApplyMul(p, Mul(t, m), TranslationMatrix(c.x, c.y));
    ApplyMul(p, t, m);
    ApplyTranslation(p, -c.x, -c.y);
  }

  /** Scaling about `c` scales each offset from `c`, so `c` stays put. */
  lemma ScalingAbout(p: Point2, sx: real, sy: real, c: Point2)
    ensures Apply(p, About(c, ScalingMatrix(sx, sy))) == Point2((p.x - c.x) * sx + c.x, (p.y - c.y) * sy + c.y)
    ensures Apply(c, About(c, ScalingMatrix(sx, sy))) == c
  {
    OffsetAbout(p, c, ScalingMatrix(sx, sy));
    OffsetAbout(c, c, ScalingMatrix(sx, sy));
    ApplyScaling(Point2(p.x - c.x, p.y - c.y), sx, sy);
    ApplyScaling(Point2(0.0, 0.0), sx, sy);
  }

  /** `About(c, m)` maps `p` to `c` plus the image of the offset `p - c`. */
  lemma OffsetAbout(p: Point2, c: Point2, m: Mat3)
    requires Affine(m)
    ensures var q := Apply(Point2(p.x - c.x, p.y - c.y), m);
      Apply(p, About(c, m)) == Point2(q.x + c.x, q.y + c.y)
  {
    ApplyAbout(p, c, m);
    ApplyTranslation(Apply(Point2(p.x - c.x, p.y - c.y), m), c.x, c.y);
  }

  /** Rotation about `c` rotates each offset from `c`; `c` stays put, and
      for a true rotation (`cos^2 + sin^2 == 1`) distances to `c` are
      kept. */
  lemma RotationAbout(p: Point2, cos: real, sin: real, c: Point2)
    ensures Apply(p, About(c, RotationMatrix(cos, sin)))
         == Point2((p.x - c.x) * cos + (p.y - c.y) * sin + c.x, (p.x - c.x) * -sin + (p.y - c.y) * cos + c.y)
    ensures Apply(c, About(c, RotationMatrix(cos, sin))) == c
    ensures cos * cos + sin * sin == 1.0 ==>
      Dist2(Apply(p, About(c, RotationMatrix(cos, sin))), c) == Dist2(p, c)
  {
    var dx, dy := p.x - c.x, p.y - c.y;
    OffsetAbout(p, c, RotationMatrix(cos, sin));
    OffsetAbout(c, c, RotationMatrix(cos, sin));
    ApplyRotation(Point2(dx, dy), cos, sin);
    ApplyRotation(Point2(0.0, 0.0), cos, sin);
    if cos * cos + sin * sin == 1.0 {
      RotatedLength(dx, dy, cos, sin);
    }
  }

  /** Squared distance. */
  function Dist2(p: Point2, q: Point2): real {
    (p.x - q.x) * (p.x - q.x) + (p.y - q.y) * (p.y - q.y)
  }

  lemma RotatedLength(dx: real, dy: real, cos: real, sin: real)
    requires cos * cos + sin * sin == 1.0
    ensures (dx * cos + dy * sin) * (dx * cos + dy * sin) + (dx * -sin + dy * cos) * (dx * -sin + dy * cos) == dx * dx + dy * dy
  {
    assert (dx * cos + dy * sin) * (dx * cos + dy * sin) == dx * dx * (cos * cos) + 2.0 * (dx * dy) * (cos * sin) + dy * dy * (sin * sin);
    assert (dx * -sin + dy * cos) * (dx * -sin + dy * cos) == dx * dx * (sin * sin) - 2.0 * (dx * dy) * (cos * sin) + dy * dy * (cos * cos);
    assert dx * dx * (cos * cos) + dx * dx * (sin * sin) == dx * dx * (cos * cos + sin * sin);
    assert dy * dy * (cos * cos) + dy * dy * (sin * sin) == dy * dy * (cos * cos + sin * sin);
  }

  // ---------------------------------------------------------------------
  // Queued steps

  /** The rotation pivot choices of the rotation tab. */
  datatype Pivot = AroundOrigin | AroundCenter | AroundPoint(x: real, y: real)

  /** One entry of `temp_transformations`. The angle of a rotation is
      given by its cosine and sine; `Other` stands for any other tab name. */
  datatype Step =
    | Translation(dx: real, dy: real)
    | Scaling(sx: real, sy: real)
    | Rotation(cos: real, sin: real, pivot: Pivot)
    | Other

  /** The step needs the selected object's centre. */
  predicate NeedsCenter(step: Step) {
    step.Scaling? || (step.Rotation? && step.pivot.AroundCenter?)
  }

  const NoCenterError: string := "no centre: no object with the selected name, or it has no coordinates"

  /** `generate_matrix`. `center` is `get_object_center` of the selected
      object's current coordinates, or None when there is no such object
      (the source then fails on the unset centre) or no coordinates. */
  function GenerateMatrix(step: Step, center: Option<Point2>): (r: Result<Mat3>)
    ensures r.Failure? <==> NeedsCenter(step) && center.None?
    ensures r.Success? ==> Affine(r.value)
  {
    match step
    case Translation(dx, dy) => Success(TranslationMatrix(dx, dy))
    case Scaling(sx, sy) =>
      if center.None? then Failure(NoCenterError)
      else
        Success(About(center.value, ScalingMatrix(sx, sy)))
    case Rotation(cos, sin, pivot) =>
      if pivot.AroundCenter? && center.None? then Failure(NoCenterError)
      else
        var c := match pivot
          case AroundOrigin => Point2(0.0, 0.0)
          case AroundCenter => center.value
          case AroundPoint(x, y) => Point2(x, y);
        Success(About(c, RotationMatrix(cos, sin)))
    case Other => Success(Identity)
  }

  /** The product `I @ M1 @ ... @ Mn` of the queued steps, failing at the
      first step whose matrix cannot be built. */
  function Combined(steps: seq<Step>, center: Option<Point2>): (r: Result<Mat3>)
    ensures r.Success? ==> Affine(r.value)
  {
    if steps == [] then Success(Identity)
    else
      var init := Combined(steps[..|steps| - 1], center);
      if init.Failure? then init
      else
        var m := GenerateMatrix(steps[|steps| - 1], center);
        if m.Failure? then Failure(m.error)
        else
          MulAffine(init.value, m.value);
          Success(Mul(init.value, m.value))
  }

  /** The step list applied one step at a time. */
  function ApplySteps(p: Point2, steps: seq<Step>, center: Option<Point2>): Option<Point2> {
    if steps == [] then Some(p)
    else
      var init := ApplySteps(p, steps[..|steps| - 1], center);
      var m := GenerateMatrix(steps[|steps| - 1], center);
      if init.None? || m.Failure? then None else Some(Apply(init.value, m.value))
  }

  /** Some step of the queue needs the object centre. */
  predicate AnyNeedsCenter(steps: seq<Step>)
  {
    steps != [] && (AnyNeedsCenter(steps[..|steps| - 1]) || NeedsCenter(steps[|steps| - 1]))
  }

  lemma {:induction false} AnyNeedsCenterExists(steps: seq<Step>)
    ensures AnyNeedsCenter(steps) <==> exists k :: 0 <= k < |steps| && NeedsCenter(steps[k])
  {
    if steps != [] {
      var init := steps[..|steps| - 1];
      AnyNeedsCenterExists(init);
      if exists k :: 0 <= k < |init| && NeedsCenter(init[k]) {
        var k :| 0 <= k < |init| && NeedsCenter(init[k]);
        assert steps[k] == init[k];
      }
      if exists k :: 0 <= k < |steps| && NeedsCenter(steps[k]) {
        var k :| 0 <= k < |steps| && NeedsCenter(steps[k]);
        if k < |init| {
          assert init[k] == steps[k];
        }
      }
    }
  }

  /** The combined matrix fails exactly when some step needs the missing
      centre. */
  lemma {:induction false} CombinedFails(steps: seq<Step>, center: Option<Point2>)
    ensures Combined(steps, center).Failure? <==> center.None? && exists k :: 0 <= k < |steps| && NeedsCenter(steps[k])
  {
    CombinedFailsRec(steps, center);
    AnyNeedsCenterExists(steps);
  }

  lemma {:induction false} CombinedFailsRec(steps: seq<Step>, center: Option<Point2>)
    ensures Combined(steps, center).Failure? <==> center.None? && AnyNeedsCenter(steps)
  {
    if steps != [] {
      CombinedFailsRec(steps[..|steps| - 1], center);
    }
  }

  /** When the combined matrix exists, applying it does what applying the
      steps one by one does. */
  lemma {:induction false} CombinedIsStepwise(p: Point2, steps: seq<Step>, center: Option<Point2>)
    requires Combined(steps, center).Success?
    ensures ApplySteps(p, steps, center) == Some(Apply(p, Combined(steps, center).value))
  {
    if steps == [] {
      ApplyIdentity(p);
    } else {
      var init := steps[..|steps| - 1];
      var m := GenerateMatrix(steps[|steps| - 1], center).value;
      CombinedIsStepwise(p, init, center);
      ApplyMul(p, Combined(init, center).value, m);
    }
  }

  /** An empty queue gives the identity: the points are unchanged. */
  lemma CombinedEmpty(p: Point2, center: Option<Point2>)
    ensures Combined([], center) == Success(Identity)
    ensures Apply(p, Identity) == p
  {}

  predicate AllTranslations(steps: seq<Step>) {
    forall k :: 0 <= k < |steps| ==> steps[k].Translation?
  }

  function SumDx(steps: seq<Step>): real
    requires AllTranslations(steps)
  {
    if steps == [] then 0.0 else SumDx(steps[..|steps| - 1]) + steps[|steps| - 1].dx
  }

  function SumDy(steps: seq<Step>): real
    requires AllTranslations(steps)
  {
    if steps == [] then 0.0 else SumDy(steps[..|steps| - 1]) + steps[|steps| - 1].dy
  }

  /** A queue of translations only is the translation by the summed
      offsets, whatever the centre. */
  lemma {:induction false} TranslationsAdd(steps: seq<Step>, center: Option<Point2>)
    requires AllTranslations(steps)
    ensures Combined(steps, center) == Success(TranslationMatrix(SumDx(steps), SumDy(steps)))
  {
    if steps != [] {
      var init := steps[..|steps| - 1];
      assert AllTranslations(init);
      TranslationsAdd(init, center);
    }
  }

  /** The loop of `apply_all_transformations` building the combined
      matrix. */
  method CombineSteps(steps: seq<Step>, center: Option<Point2>) returns (r: Result<Mat3>)
    ensures r == Combined(steps, center)
  {
    var combined := Identity;
    for i := 0 to |steps|
      invariant Combined(steps[..i], center) == Success(combined)
    {
      assert steps[..i + 1][..i] == steps[..i];
      var m := GenerateMatrix(steps[i], center);
      if m.Failure? {
        assert steps[..i + 1][i] == steps[i];
        MakeFailSticky(steps, center, i + 1, m.error);
        return Failure(m.error);
      }
      combined := Mul(combined, m.value);
    }
    assert steps[..|steps|] == steps;
    return Success(combined);
  }

  /** Once a prefix fails, the whole queue fails with the same error. */
  lemma {:induction false} MakeFailSticky(steps: seq<Step>, center: Option<Point2>, i: nat, e: string)
    requires i <= |steps| && Combined(steps[..i], center) == Failure(e)
    ensures Combined(steps, center) == Failure(e)
    decreases |steps| - i
  {
    if i < |steps| {
      assert steps[..i + 1][..i] == steps[..i];
      MakeFailSticky(steps, center, i + 1, e);
    } else {
      assert steps[..i] == steps;
    }
  }

  /** The new coordinates: every point times the combined matrix. */
  function TransformAll(coords: seq<Point2>, m: Mat3): (r: seq<Point2>)
    ensures |r| == |coords|
  {
    if coords == [] then [] else TransformAll(coords[..|coords| - 1], m) + [Apply(coords[|coords| - 1], m)]
  }

  /** Point `k` of the new coordinates is point `k` times the matrix. */
  lemma {:induction false} TransformAllAt(coords: seq<Point2>, m: Mat3, k: nat)
    requires k < |coords|
    ensures TransformAll(coords, m)[k] == Apply(coords[k], m)
  {
    if k < |coords| - 1 {
      TransformAllAt(coords[..|coords| - 1], m, k);
      assert coords[..|coords| - 1][k] == coords[k];
    }
  }

  /** The identity matrix leaves the coordinates as they are. */
  lemma {:induction false} TransformAllIdentity(coords: seq<Point2>)
    ensures TransformAll(coords, Identity) == coords
  {
    if coords != [] {
      TransformAllIdentity(coords[..|coords| - 1]);
      ApplyIdentity(coords[|coords| - 1]);
    }
  }

  /** Applying a queue of translations moves every coordinate by the summed
      offsets. */
  lemma TranslationsShiftEveryPoint(coords: seq<Point2>, steps: seq<Step>, center: Option<Point2>, k: nat)
    requires AllTranslations(steps) && k < |coords|
    ensures Combined(steps, center).Success?
    ensures TransformAll(coords, Combined(steps, center).value)[k]
      == Point2(coords[k].x + SumDx(steps), coords[k].y + SumDy(steps))
  {
    TranslationsAdd(steps, center);
    TransformAllAt(coords, TranslationMatrix(SumDx(steps), SumDy(steps)), k);
    ApplyTranslation(coords[k], SumDx(steps), SumDy(steps));
  }

  /** The loop building `new_coords`. */
  method TransformCoordinates(coords: seq<Point2>, m: Mat3) returns (newCoords: seq<Point2>)
    ensures newCoords == TransformAll(coords, m)
  {
    newCoords := [];
    for i := 0 to |coords|
      invariant newCoords == TransformAll(coords[..i], m)
    {
      assert coords[..i + 1][..i] == coords[..i];
      newCoords := newCoords + [Apply(coords[i], m)];
    }
    assert coords[..|coords|] == coords;
  }

  // ---------------------------------------------------------------------
  // Object centre

  function SumX(ps: seq<Point2>): real {
    if ps == [] then 0.0 else SumX(ps[..|ps| - 1]) + ps[|ps| - 1].x
  }

  function SumY(ps: seq<Point2>): real {
    if ps == [] then 0.0 else SumY(ps[..|ps| - 1]) + ps[|ps| - 1].y
  }

  /** `get_object_center`: the mean of the coordinates; None where the
      source fails on an empty list. */
  function Centroid(coords: seq<Point2>): (c: Option<Point2>)
    ensures c.Some? <==> coords != []
    ensures c.Some? ==> c.value.x * |coords| as real == SumX(coords) && c.value.y * |coords| as real == SumY(coords)
  {
    if coords == [] then None
    else Some(Point2(SumX(coords) / |coords| as real, SumY(coords) / |coords| as real))
  }

  /** The sums of the transformed coordinates, `k` being the number of
      points. */
  lemma {:induction false} SumXOfTransformed(coords: seq<Point2>, m: Mat3, k: real)
    requires k == |coords| as real
    ensures SumX(TransformAll(coords, m)) == SumX(coords) * m.m00 + SumY(coords) * m.m10 + k * m.m20
  {
    if coords != [] {
      var init, p := coords[..|coords| - 1], coords[|coords| - 1];
      SumXOfTransformed(init, m, k - 1.0);
      var qs, q := TransformAll(init, m), Apply(p, m);
      assert (qs + [q])[..|qs|] == qs;
      assert SumX(qs + [q]) == SumX(qs) + q.x;
      assert SumX(coords) == SumX(init) + p.x && SumY(coords) == SumY(init) + p.y;
      LinearStep(SumX(init), SumY(init), k - 1.0, k, p.x, p.y, m.m00, m.m10, m.m20);
    }
  }

  lemma {:induction false} SumYOfTransformed(coords: seq<Point2>, m: Mat3, k: real)
    requires k == |coords| as real
    ensures SumY(TransformAll(coords, m)) == SumX(coords) * m.m01 + SumY(coords) * m.m11 + k * m.m21
  {
    if coords != [] {
      var init, p := coords[..|coords| - 1], coords[|coords| - 1];
      SumYOfTransformed(init, m, k - 1.0);
      var qs, q := TransformAll(init, m), Apply(p, m);
      assert (qs + [q])[..|qs|] == qs;
      assert SumY(qs + [q]) == SumY(qs) + q.y;
      assert SumX(coords) == SumX(init) + p.x && SumY(coords) == SumY(init) + p.y;
      LinearStep(SumX(init), SumY(init), k - 1.0, k, p.x, p.y, m.m01, m.m11, m.m21);
    }
  }

  /** One more point in a sum of linear images: the image sum of `k0`
      points plus the image of `(x, y)` is the image of the new sums. */
  lemma LinearStep(ax: real, ay: real, k0: real, k: real, x: real, y: real, a: real, b: real, e: real)
    requires k == k0 + 1.0
    ensures ax * a + ay * b + k0 * e + (x * a + y * b + e) == (ax + x) * a + (ay + y) * b + k * e
  {}

  /** An affine map moves the centre as it moves any point. */
  lemma {:induction false} CentroidOfTransformed(coords: seq<Point2>, m: Mat3)
    requires coords != []
    ensures Centroid(TransformAll(coords, m)) == Some(Apply(Centroid(coords).value, m))
  {
    var t := TransformAll(coords, m);
    var n := |coords| as real;
    assert |t| as real == n;
    MeanXOfTransformed(coords, m);
    MeanYOfTransformed(coords, m);
    var c := Point2(SumX(coords) / n, SumY(coords) / n);
    assert Centroid(coords) == Some(c);
    assert Centroid(t) == Some(Point2(SumX(t) / n, SumY(t) / n));
    assert Apply(c, m) == Point2(SumX(t) / n, SumY(t) / n);
  }

  lemma {:induction false} MeanXOfTransformed(coords: seq<Point2>, m: Mat3)
    requires coords != []
    ensures var n := |coords| as real;
      SumX(TransformAll(coords, m)) / n == (SumX(coords) / n) * m.m00 + (SumY(coords) / n) * m.m10 + m.m20
  {
    var n := |coords| as real;
    assert n > 0.0;
    SumXOfTransformed(coords, m, n);
    DivLinear(SumX(TransformAll(coords, m)), SumX(coords), SumY(coords), n, m.m00, m.m10, m.m20);
  }

  lemma {:induction false} MeanYOfTransformed(coords: seq<Point2>, m: Mat3)
    requires coords != []
    ensures var n := |coords| as real;
      SumY(TransformAll(coords, m)) / n == (SumX(coords) / n) * m.m01 + (SumY(coords) / n) * m.m11 + m.m21
  {
    var n := |coords| as real;
    assert n > 0.0;
    SumYOfTransformed(coords, m, n);
    DivLinear(SumY(TransformAll(coords, m)), SumX(coords), SumY(coords), n, m.m01, m.m11, m.m21);
  }

  lemma DivLinear(s: real, sx: real, sy: real, n: real, a: real, b: real, e: real)
    requires n > 0.0
    ensures s == sx * a + sy * b + n * e ==> s / n == (sx / n) * a + (sy / n) * b + e
  {
    var cx, cy := sx / n, sy / n;
    assert cx * n == sx && cy * n == sy;
    assert (cx * a + cy * b + e) * n == (cx * n) * a + (cy * n) * b + n * e;
  }

  /** Scaling about the object's centre leaves that centre in place. */
  lemma {:induction false} ScalingKeepsCentroid(coords: seq<Point2>, sx: real, sy: real)
    requires coords != []
    ensures var c := Centroid(coords).value;
      Centroid(TransformAll(coords, GenerateMatrix(Scaling(sx, sy), Some(c)).value)) == Some(c)
  {
    var c := Centroid(coords).value;
    CentroidOfTransformed(coords, About(c, ScalingMatrix(sx, sy)));
    ScalingAbout(c, sx, sy, c);
  }
}
