/**
 * The manual coordinate dialog: points are typed one at a time into a list
 * that can be undone, cleared or edited, a preview reports the length of
 * the path (or the perimeter of the polygon) they describe, and "create"
 * adds them to the editor as new nodes joined by one new way, which is then
 * selected.
 */
module ManualCoordinate {
  import opened Wrappers
  import opened OsmGraph
  import Coordinates
  import Editing
  import CoordinateImport

  type Coord = CoordinateImport.Coord

  /** `calculateDistance(p1, p2)`: the ground distance in metres between two degree points. */
  type Distance = (Coord, Coord) -> real

  // ------------------------------------------------------------ the point list

  /**
   * `Array.prototype.splice(index, 1)`: a negative index counts from the
   * end (clamped at the start), an index at or past the end removes nothing.
   */
  function SpliceOne<T>(s: seq<T>, index: int): (r: seq<T>)
    ensures |r| == if -|s| <= index < |s| then |s| - 1 else if index < -|s| && s != [] then |s| - 1 else |s|
  {
    var start := if index < 0 then (if |s| + index < 0 then 0 else |s| + index) else index;
    if start < |s| then s[..start] + s[start + 1..] else s
  }

  /** Removing the i-th point keeps the others in order; an index past the end changes nothing. */
  lemma SpliceOneRemovesIndex<T>(s: seq<T>, index: int)
    ensures 0 <= index < |s| ==>
      && SpliceOne(s, index) == s[..index] + s[index + 1..]
      && multiset(SpliceOne(s, index)) + multiset{s[index]} == multiset(s)
    ensures index >= |s| ==> SpliceOne(s, index) == s
    ensures -|s| <= index < 0 ==> SpliceOne(s, index) == s[..|s| + index] + s[|s| + index + 1..]
  {
    if 0 <= index < |s| {
      assert s == s[..index] + [s[index]] + s[index + 1..];
      calc {
        multiset(s);
      ==
        multiset(s[..index] + [s[index]] + s[index + 1..]);
      ==
        multiset(s[..index]) + multiset{s[index]} + multiset(s[index + 1..]);
      ==
        multiset(s[..index] + s[index + 1..]) + multiset{s[index]};
      }
    }
  }

  /** Which of undo, clear and create are enabled for a list of `n` points. */
  datatype Buttons = Buttons(undo: bool, clear: bool, create: bool)

  /** `updatePointsList()`: with no point all three are disabled; otherwise undo and clear are enabled, and create from two points on. */
  function ButtonsFor(n: nat): (b: Buttons)
    ensures b.undo <==> n > 0
    ensures b.clear <==> n > 0
    ensures b.create <==> n >= 2
  {
    if n == 0 then Buttons(false, false, false) else Buttons(true, true, !(n < 2))
  }

  // ------------------------------------------------------------ conversion

  /**
   * `convertToLonLat()`: degree points are taken as they are; anything else
   * is read as metres from the reference point, which must be numeric.
   */
  function ConvertToLonLat(points: seq<Coord>, coordType: string, refLon: Option<real>, refLat: Option<real>, cos: Coordinates.CosDeg): (r: Result<seq<Coord>>)
    requires Coordinates.NeverZero(cos)
    ensures coordType == "lonlat" ==> r == Ok(points)
    ensures r.Ok? ==> |r.value| == |points|
    ensures r.Err? <==> coordType != "lonlat" && (refLon.None? || refLat.None?)
    ensures r.Err? ==> r.message == "参考点经纬度无效"
  {
    if coordType == "lonlat" then Ok(points)
    else if refLon.None? || refLat.None? then Err("参考点经纬度无效")
    else Ok(CoordinateImport.ToDegrees(points, refLon.value, refLat.value, cos))
  }

  /** In metre mode every converted point reads back as the metres typed for it. */
  lemma ConvertedPointsReadBack(points: seq<Coord>, coordType: string, refLon: Option<real>, refLat: Option<real>, cos: Coordinates.CosDeg)
    requires Coordinates.NeverZero(cos)
    requires coordType != "lonlat" && refLon.Some? && refLat.Some?
    ensures var r := ConvertToLonLat(points, coordType, refLon, refLat, cos);
      forall i :: 0 <= i < |points| ==>
        Coordinates.LonLatToMeters(r.value[i].x, r.value[i].y, refLon.value, refLat.value, cos) == Coordinates.Pair(points[i].x, points[i].y)
  {
    CoordinateImport.ToDegreesConvertsBack(points, refLon.value, refLat.value, cos);
  }

  // ------------------------------------------------------------ preview

  /** The sum of the first `k` legs `cs[i] -> cs[i + 1]` of a path. */
  function PathLength(cs: seq<Coord>, k: nat, dist: Distance): real
    requires k < |cs| || k == 0
  {
    if k == 0 then 0.0 else PathLength(cs, k - 1, dist) + dist(cs[k - 1], cs[k])
  }

  /** The sum of the first `k` legs `cs[i] -> cs[(i + 1) % n]` of the ring through all the points. */
  function RingLength(cs: seq<Coord>, k: nat, dist: Distance): real
    requires k <= |cs|
  {
    if k == 0 then 0.0 else RingLength(cs, k - 1, dist) + dist(cs[k - 1], cs[k % |cs|])
  }

  /** The ring and the path agree on every leg but the closing one. */
  lemma {:induction false} RingPrefixIsPath(cs: seq<Coord>, k: nat, dist: Distance)
    requires k < |cs|
    ensures RingLength(cs, k, dist) == PathLength(cs, k, dist)
  {
    if k > 0 {
      RingPrefixIsPath(cs, k - 1, dist);
      ModBelow(k, |cs|);
    }
  }

  lemma ModBelow(k: nat, n: nat)
    requires k < n
    ensures k % n == k
  {
  }

  /** The path over `a` is a prefix of the path over `a + b`. */
  lemma {:induction false} PathLengthPrefix(a: seq<Coord>, b: seq<Coord>, k: nat, dist: Distance)
    requires k < |a|
    ensures PathLength(a + b, k, dist) == PathLength(a, k, dist)
  {
    if k > 0 {
      PathLengthPrefix(a, b, k - 1, dist);
    }
  }

  /**
   * The perimeter shown for a polygon is the length of the closed way that
   * "create" will build: the path through all the points and back to the first.
   */
  lemma PerimeterIsClosedPathLength(cs: seq<Coord>, dist: Distance)
    requires |cs| >= 1
    ensures RingLength(cs, |cs|, dist) == PathLength(cs + [cs[0]], |cs|, dist)
    ensures RingLength(cs, |cs|, dist) == PathLength(cs, |cs| - 1, dist) + dist(cs[|cs| - 1], cs[0])
  {
    var n := |cs|;
    RingPrefixIsPath(cs, n - 1, dist);
    PathLengthPrefix(cs, [cs[0]], n - 1, dist);
    assert (cs + [cs[0]])[n - 1] == cs[n - 1];
    assert (cs + [cs[0]])[n] == cs[0];
  }

  /** With non-negative leg lengths a path never shrinks as legs are added. */
  lemma {:induction false} PathLengthGrows(cs: seq<Coord>, j: nat, k: nat, dist: Distance)
    requires j <= k < |cs|
    requires forall p, q :: dist(p, q) >= 0.0
    ensures PathLength(cs, j, dist) <= PathLength(cs, k, dist)
  {
    if j < k {
      PathLengthGrows(cs, j, k - 1, dist);
    }
  }

  /** The polygon loop of `updatePreview()`. */
  method Perimeter(coords: seq<Coord>, dist: Distance) returns (perimeter: real)
    ensures perimeter == RingLength(coords, |coords|, dist)
  {
    perimeter := 0.0;
    var i := 0;
    while i < |coords|
      invariant 0 <= i <= |coords|
      invariant perimeter == RingLength(coords, i, dist)
    {
      var p1 := coords[i];
      var p2 := coords[(i + 1) % |coords|];
      perimeter := perimeter + dist(p1, p2);
      i := i + 1;
    }
  }

  /** The path loop of `updatePreview()`: legs `0 .. length - 2`, none for fewer than two points. */
  method TotalLength(coords: seq<Coord>, dist: Distance) returns (length: real)
    ensures length == PathLength(coords, if coords == [] then 0 else |coords| - 1, dist)
  {
    length := 0.0;
    var i := 0;
    while i < |coords| - 1
      invariant 0 <= i <= if coords == [] then 0 else |coords| - 1
      invariant length == PathLength(coords, i, dist)
    {
      length := length + dist(coords[i], coords[i + 1]);
      i := i + 1;
    }
  }

  /** What the preview shows: nothing, the node count with the perimeter or path length, or (conversion failed) nothing new. */
  datatype Preview = Hidden | Shown(count: nat, polygon: bool, meters: real) | Unchanged

  /**
   * `updatePreview()`: hidden below two points; a polygon when auto-closing
   * at least three; the length is taken over the points in degrees.
   */
  function PreviewOf(points: seq<Coord>, autoClose: bool, coordType: string, refLon: Option<real>, refLat: Option<real>,
                     cos: Coordinates.CosDeg, dist: Distance): (p: Preview)
    requires Coordinates.NeverZero(cos)
    ensures |points| < 2 <==> p.Hidden?
    ensures p.Shown? ==> p.count == |points| && (p.polygon <==> autoClose && |points| >= 3)
  {
    if |points| < 2 then Hidden
    else
      var polygon := autoClose && |points| >= 3;
      match ConvertToLonLat(points, coordType, refLon, refLat, cos)
      case Err(_) => Unchanged
      case Ok(c) =>
        Shown(|points|, polygon, if polygon then RingLength(c, |c|, dist) else PathLength(c, |c| - 1, dist))
  }

  /** The polygon preview reports the length of the closed way over the converted points. */
  lemma PolygonPreviewIsClosedWay(points: seq<Coord>, coordType: string, refLon: Option<real>, refLat: Option<real>,
                                  cos: Coordinates.CosDeg, dist: Distance)
    requires Coordinates.NeverZero(cos)
    requires |points| >= 3
    requires ConvertToLonLat(points, coordType, refLon, refLat, cos).Ok?
    ensures var c := ConvertToLonLat(points, coordType, refLon, refLat, cos).value;
      PreviewOf(points, true, coordType, refLon, refLat, cos, dist) == Shown(|points|, true, PathLength(c + [c[0]], |c|, dist))
  {
    var c := ConvertToLonLat(points, coordType, refLon, refLat, cos).value;
    PerimeterIsClosedPathLength(c, dist);
  }

  // ------------------------------------------------------------ the dialog

  /** The dialog's state: the points typed so far, in the order typed. */
  class ManualCoordinateDialog {
    const editor: Editing.Editor
    var points: seq<Coord>

    constructor(editor: Editing.Editor)
      ensures this.editor == editor && points == []
    {
      this.editor := editor;
      points := [];
    }

    /** `addPoint()` with both inputs through `parseFloat`: a point is appended only when both are numbers. */
    method AddPoint(x: Option<real>, y: Option<real>) returns (added: bool)
      modifies this`points
      ensures added <==> x.Some? && y.Some?
      ensures points == if added then old(points) + [CoordinateImport.Coord(x.value, y.value)] else old(points)
    {
      if x.None? || y.None? {
        return false;
      }
      points := points + [CoordinateImport.Coord(x.value, y.value)];
      added := true;
    }

    /** The undo button: drops the last point, if any. */
    method UndoPoint()
      modifies this`points
      ensures points == if old(points) == [] then [] else old(points)[..|old(points)| - 1]
    {
      if |points| > 0 {
        points := points[..|points| - 1];
      }
    }

    /** The clear button: empties the list only when the user confirms. */
    method ClearPoints(confirmed: bool)
      modifies this`points
      ensures points == if confirmed then [] else old(points)
    {
      if confirmed {
        points := [];
      }
    }

    /** `removePoint(index)`. */
    method RemovePoint(index: int)
      modifies this`points
      ensures points == SpliceOne(old(points), index)
    {
      points := SpliceOne(points, index);
    }

    /** `updatePointsList()`'s button states. */
    method UpdateButtons() returns (b: Buttons)
      ensures b == ButtonsFor(|points|)
    {
      if |points| == 0 {
        b := Buttons(false, false, false);
      } else {
        b := Buttons(true, true, !(|points| < 2));
      }
    }

    /** `updatePreview()`. */
    method UpdatePreview(autoClose: bool, coordType: string, refLon: Option<real>, refLat: Option<real>,
                         cos: Coordinates.CosDeg, dist: Distance) returns (p: Preview)
      requires Coordinates.NeverZero(cos)
      ensures p == PreviewOf(points, autoClose, coordType, refLon, refLat, cos, dist)
    {
      if |points| < 2 {
        return Hidden;
      }
      var isPolygon := autoClose && |points| >= 3;
      var converted := ConvertToLonLat(points, coordType, refLon, refLat, cos);
      if converted.Err? {
        return Unchanged;
      }
      var coords := converted.value;
      var meters;
      if isPolygon {
        meters := Perimeter(coords, dist);
      } else {
        meters := TotalLength(coords, dist);
      }
      p := Shown(|points|, isPolygon, meters);
    }

    /**
     * `createWay()`: with fewer than two points, or a metre list without a
     * numeric reference point, nothing changes; otherwise one node per
     * point and one way over them, as the import builds them; the view is
     * fitted and the new way becomes the selected way and the whole
     * multi-selection. The node selection and the command stacks are left
     * as they were.
     */
    method CreateWay(coordType: string, refLon: Option<real>, refLat: Option<real>, cos: Coordinates.CosDeg,
                     autoClose: bool, building: string, name: string,
                     width: real, height: real, worldToCanvas: Editing.WorldToCanvas) returns (outcome: CoordinateImport.Outcome)
      requires Coordinates.NeverZero(cos)
      modifies editor`nodes, editor`ways, editor`selectedWay, editor`selectedWays
      modifies editor`centerX, editor`centerY, editor`scale
      ensures var c := ConvertToLonLat(points, coordType, refLon, refLat, cos);
        |points| < 2 || c.Err? ==>
          && outcome == (if |points| < 2 then CoordinateImport.TooFewPoints else CoordinateImport.Failed(c.message))
          && editor.nodes == old(editor.nodes) && editor.ways == old(editor.ways)
          && editor.Sel() == old(editor.Sel())
          && editor.centerX == old(editor.centerX) && editor.centerY == old(editor.centerY) && editor.scale == old(editor.scale)
      ensures var c := ConvertToLonLat(points, coordType, refLon, refLat, cos);
        |points| >= 2 && c.Ok? ==>
          var ids := CoordinateImport.Run(NextId(old(editor.nodes).Keys), |points|);
          var wid := NextId(old(editor.ways).Keys);
          && outcome == CoordinateImport.Imported(ids, wid)
          && editor.nodes == old(editor.nodes) + CoordinateImport.NewNodes(NextId(old(editor.nodes).Keys), c.value)
          && editor.ways == old(editor.ways)[wid := CoordinateImport.ImportedWay(ids, autoClose, building, name)]
          && editor.CurrentView() == Editing.FittedView(editor.nodes, old(editor.CurrentView()), width, height, worldToCanvas)
          && editor.Sel() == old(editor.Sel()).(way := Some(wid), ways := {wid})
    {
      if |points| < 2 {
        return CoordinateImport.TooFewPoints;
      }
      var converted := ConvertToLonLat(points, coordType, refLon, refLat, cos);
      if converted.Err? {
        return CoordinateImport.Failed(converted.message);
      }
      var ids, wid := CoordinateImport.AddNodesAndWay(editor, converted.value, autoClose, building, name);
      FocusWay(wid, width, height, worldToCanvas);
      outcome := CoordinateImport.Imported(ids, wid);
    }

    /** The tail of `createWay()`: fit the view, then select the new way alone. */
    method FocusWay(wid: int, width: real, height: real, worldToCanvas: Editing.WorldToCanvas)
      modifies editor`centerX, editor`centerY, editor`scale, editor`selectedWay, editor`selectedWays
      ensures editor.CurrentView() == Editing.FittedView(editor.nodes, old(editor.CurrentView()), width, height, worldToCanvas)
      ensures editor.Sel() == old(editor.Sel()).(way := Some(wid), ways := {wid})
    {
      editor.FitToWindow(width, height, worldToCanvas);
      editor.selectedWay := Some(wid);
      editor.selectedWays := {wid};
    }
  }
}
