/** The display file: the ordered list of graphic objects the editors keep,
    searched by name. Objects are values here; the editors replace an entry
    to change it. */
module Scene {
  import opened Geometry
  import opened Naming
  import opened Transforms

  /** The 2D object classes `Point`, `Line`, `Polygon` and `Curve2D`. */
  datatype Kind = PointKind | LineKind | PolygonKind | CurveKind

  /** The class-level `prefix` of each kind. */
  function Prefix(k: Kind): (p: string)
    ensures |p| == 1 && PlainPrefix(p)
  {
    match k
    case PointKind => "P"
    case LineKind => "L"
    case PolygonKind => "W"
    case CurveKind => "C"
  }

  /** The default colour of points, lines and curves. */
  const DefaultColor: string := "#00aaff"
  /** The default colour of polygons. */
  const PolygonColor: string := "#ffaa00"

  /** A graphic object: its kind, name, world coordinates, colour and (for a
      polygon) whether it is filled. */
  datatype GraphicObject = GraphicObject(kind: Kind, name: string, coordinates: seq<Point2>, color: string, filled: bool)

  // ---------------------------------------------------------------------
  // Search by name

  /** The position of the first object called `name`. */
  function IndexOfName(df: seq<GraphicObject>, name: string): (r: Option<nat>)
    ensures r.Some? ==> (r.value < |df| && df[r.value].name == name
      && forall j :: 0 <= j < r.value ==> df[j].name != name)
    ensures r.None? <==> forall j :: 0 <= j < |df| ==> df[j].name != name
  {
    if df == [] then None
    else if df[0].name == name then Some(0)
    else
      match IndexOfName(df[1..], name)
      case None => assert forall j :: 1 <= j < |df| ==> df[j] == df[1..][j - 1]; None
      case Some(i) => Some(i + 1)
  }

  /** The `for i, obj in enumerate(display_file): if obj.name == name: ...
      break` search shared by deletion and transformation. */
  method FindFirst(df: seq<GraphicObject>, name: string) returns (r: Option<nat>)
    ensures r == IndexOfName(df, name)
  {
    for i := 0 to |df|
      invariant forall j :: 0 <= j < i ==> df[j].name != name
    {
      if df[i].name == name {
        FirstIsIndex(df, name, i);
        return Some(i);
      }
    }
    return None;
  }

  /** A match with no match before it is the one `IndexOfName` finds. */
  lemma FirstIsIndex(df: seq<GraphicObject>, name: string, i: nat)
    requires i < |df| && df[i].name == name
    requires forall j :: 0 <= j < i ==> df[j].name != name
    ensures IndexOfName(df, name) == Some(i)
  {}

  // ---------------------------------------------------------------------
  // Deletion

  /** `delete_selected`: remove the first object called `name`. */
  function DeleteFirst(df: seq<GraphicObject>, name: string): seq<GraphicObject> {
    match IndexOfName(df, name)
    case None => df
    case Some(i) => df[..i] + df[i + 1..]
  }

  /** Only the first match goes: everything before it and everything after
      it stays, in order; with no match nothing changes. */
  lemma DeleteFirstFacts(df: seq<GraphicObject>, name: string)
    ensures (forall j :: 0 <= j < |df| ==> df[j].name != name) ==> DeleteFirst(df, name) == df
    ensures IndexOfName(df, name).Some? ==>
      var i := IndexOfName(df, name).value;
      var r := DeleteFirst(df, name);
      |r| == |df| - 1 && r[..i] == df[..i] && r[i..] == df[i + 1..]
      && multiset(r) + multiset{df[i]} == multiset(df)
  {
    if IndexOfName(df, name).Some? {
      var i := IndexOfName(df, name).value;
      var r := DeleteFirst(df, name);
      assert df == df[..i] + [df[i]] + df[i + 1..];
      assert r[..i] == df[..i];
      assert r[i..] == df[i + 1..];
    }
  }

  /** A later object with the same name survives the deletion. */
  lemma DeleteFirstKeepsLaterDuplicates(df: seq<GraphicObject>, name: string, k: nat)
    requires IndexOfName(df, name).Some? && IndexOfName(df, name).value < k < |df|
    ensures df[k] in DeleteFirst(df, name)
  {
    var i := IndexOfName(df, name).value;
    assert DeleteFirst(df, name)[k - 1] == df[k];
  }

  // ---------------------------------------------------------------------
  // Centre and transformation of the selected object

  /** The centre `generate_matrix` uses: `get_object_center` of the first
      object called `name`; None when there is none or it has no points. */
  function CenterOf(df: seq<GraphicObject>, name: string): (c: Option<Point2>)
    ensures c.Some? <==> IndexOfName(df, name).Some? && df[IndexOfName(df, name).value].coordinates != []
  {
    match IndexOfName(df, name)
    case None => None
    case Some(i) => Centroid(df[i].coordinates)
  }

  /** The display file after the combined matrix `m` is applied to the
      first object called `name`. */
  function TransformFirst(df: seq<GraphicObject>, name: string, m: Mat3): (r: seq<GraphicObject>)
    ensures |r| == |df|
  {
    match IndexOfName(df, name)
    case None => df
    case Some(i) => df[i := df[i].(coordinates := TransformAll(df[i].coordinates, m))]
  }

  /** Only the first match changes, and only its coordinates: each becomes
      the old point times the matrix. */
  lemma TransformFirstFacts(df: seq<GraphicObject>, name: string, m: Mat3)
    ensures IndexOfName(df, name).None? ==> TransformFirst(df, name, m) == df
    ensures IndexOfName(df, name).Some? ==>
      var i := IndexOfName(df, name).value;
      var r := TransformFirst(df, name, m);
      (forall j :: 0 <= j < |df| && j != i ==> r[j] == df[j])
      && r[i].kind == df[i].kind && r[i].name == df[i].name && r[i].color == df[i].color && r[i].filled == df[i].filled
      && |r[i].coordinates| == |df[i].coordinates|
      && forall k :: 0 <= k < |df[i].coordinates| ==> r[i].coordinates[k] == Apply(df[i].coordinates[k], m)
  {
    if IndexOfName(df, name).Some? {
      var i := IndexOfName(df, name).value;
      forall k | 0 <= k < |df[i].coordinates|
        ensures TransformAll(df[i].coordinates, m)[k] == Apply(df[i].coordinates[k], m)
      {
        TransformAllAt(df[i].coordinates, m, k);
      }
    }
  }

  /** An empty queue leaves the display file as it was. */
  lemma EmptyQueueChangesNothing(df: seq<GraphicObject>, name: string)
    ensures Combined([], CenterOf(df, name)) == Success(Identity)
    ensures TransformFirst(df, name, Identity) == df
  {
    if IndexOfName(df, name).Some? {
      var i := IndexOfName(df, name).value;
      TransformAllIdentity(df[i].coordinates);
      assert df[i].(coordinates := df[i].coordinates) == df[i];
    }
  }

  // ---------------------------------------------------------------------
  // Names

  /** Object `o` was named when the counter reached some `n <= count`. */
  predicate NamedBy(o: GraphicObject, count: nat) {
    exists n: nat :: 1 <= n <= count && o.name == NameOf(Prefix(o.kind), n)
  }

  /** Every object was named by the counter before it reached `count`, and
      no two objects share a name. */
  predicate UniqueNames(df: seq<GraphicObject>, count: nat) {
    (forall j :: 0 <= j < |df| ==> NamedBy(df[j], count))
    && forall j, k :: 0 <= j < k < |df| ==> df[j].name != df[k].name
  }

  /** The counter only grows between resets, so older names stay valid. */
  lemma UniqueNamesGrow(df: seq<GraphicObject>, count: nat, count': nat)
    requires UniqueNames(df, count) && count <= count'
    ensures UniqueNames(df, count')
  {
    forall j | 0 <= j < |df|
      ensures NamedBy(df[j], count')
    {
      var n: nat :| 1 <= n <= count && df[j].name == NameOf(Prefix(df[j].kind), n);
    }
  }

  /** A new object named by the next counter value keeps the names unique. */
  lemma UniqueNamesAppend(df: seq<GraphicObject>, count: nat, o: GraphicObject)
    requires UniqueNames(df, count) && o.name == NameOf(Prefix(o.kind), count + 1)
    ensures UniqueNames(df + [o], count + 1)
  {
    var r := df + [o];
    forall j | 0 <= j < |df|
      ensures r[j].name != o.name && NamedBy(r[j], count + 1)
    {
      assert NamedBy(df[j], count);
      var n: nat :| 1 <= n <= count && df[j].name == NameOf(Prefix(df[j].kind), n);
      NamesDistinct(Prefix(df[j].kind), n, Prefix(o.kind), count + 1);
    }
    assert NamedBy(r[|df|], count + 1);
  }

  /** Entry `j` of the list with entry `i` removed. */
  lemma RemoveAt(df: seq<GraphicObject>, i: nat, j: nat)
    requires i < |df| && j < |df| - 1
    ensures |df[..i] + df[i + 1..]| == |df| - 1
    ensures (df[..i] + df[i + 1..])[j] == df[if j < i then j else j + 1]
  {}

  /** Deleting and transforming keep the names unique. */
  lemma UniqueNamesDelete(df: seq<GraphicObject>, count: nat, name: string)
    requires UniqueNames(df, count)
    ensures UniqueNames(DeleteFirst(df, name), count)
  {
    if IndexOfName(df, name).Some? {
      var i := IndexOfName(df, name).value;
      var r := DeleteFirst(df, name);
      assert r == df[..i] + df[i + 1..];
      forall j | 0 <= j < |r|
        ensures NamedBy(r[j], count)
      {
        RemoveAt(df, i, j);
      }
      forall j, k | 0 <= j < k < |r|
        ensures r[j].name != r[k].name
      {
        RemoveAt(df, i, j);
        RemoveAt(df, i, k);
      }
    }
  }

  lemma UniqueNamesTransform(df: seq<GraphicObject>, count: nat, name: string, m: Mat3)
    requires UniqueNames(df, count)
    ensures UniqueNames(TransformFirst(df, name, m), count)
  {
    var r := TransformFirst(df, name, m);
    assert forall j :: 0 <= j < |df| ==> r[j].name == df[j].name && r[j].kind == df[j].kind;
    forall j | 0 <= j < |df|
      ensures NamedBy(r[j], count)
    {
      var n: nat :| 1 <= n <= count && df[j].name == NameOf(Prefix(df[j].kind), n);
      assert r[j].name == NameOf(Prefix(r[j].kind), n);
    }
  }

  /** With unique names the first match is the only match. */
  lemma UniqueNamesOnlyMatch(df: seq<GraphicObject>, count: nat, name: string, k: nat)
    requires UniqueNames(df, count) && k < |df| && df[k].name == name
    ensures IndexOfName(df, name) == Some(k)
  {}
  // ---------------------------------------------------------------------
  // Shapes

  /** The number of coordinates each constructor path accepts: one for a
      point, two for a line, at least three for a polygon, and `4 + 3k`
      for a curve. */
  predicate WellShaped(o: GraphicObject) {
    match o.kind
    case PointKind => |o.coordinates| == 1
    case LineKind => |o.coordinates| == 2
    case PolygonKind => |o.coordinates| >= 3
    case CurveKind => |o.coordinates| >= 4 && (|o.coordinates| - 4) % 3 == 0
  }

  predicate AllWellShaped(df: seq<GraphicObject>) {
    forall j :: 0 <= j < |df| ==> WellShaped(df[j])
  }

  /** Deleting and transforming keep every object's shape. */
  lemma WellShapedDelete(df: seq<GraphicObject>, name: string)
    requires AllWellShaped(df)
    ensures AllWellShaped(DeleteFirst(df, name))
  {
    if IndexOfName(df, name).Some? {
      var i := IndexOfName(df, name).value;
      var r := DeleteFirst(df, name);
      assert r == df[..i] + df[i + 1..];
      forall j | 0 <= j < |r|
        ensures WellShaped(r[j])
      {
        RemoveAt(df, i, j);
      }
    }
  }

  lemma WellShapedTransform(df: seq<GraphicObject>, name: string, m: Mat3)
    requires AllWellShaped(df)
    ensures AllWellShaped(TransformFirst(df, name, m))
  {
    var r := TransformFirst(df, name, m);
    assert forall j :: 0 <= j < |df| ==> r[j].kind == df[j].kind && |r[j].coordinates| == |df[j].coordinates|;
  }

  /** How many lines and polygons a list of clipped objects holds: each was
      built by a constructor during clipping. */
  function NewObjects(shown: seq<GraphicObject>): nat {
    if shown == [] then 0
    else NewObjects(shown[..|shown| - 1]) + (if shown[|shown| - 1].kind in {LineKind, PolygonKind} then 1 else 0)
  }
}
