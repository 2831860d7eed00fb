/**
 * The translate dialog: shifts all the data by an offset, given either in
 * metres east and north of the current view centre, or as the move of a
 * reference point from an old to a new position. The data is either moved
 * in place or copied, the copies numbered after the existing ids with the
 * ways re-pointed at the copied nodes.
 */
module TranslateCoordinates {
  import opened Wrappers
  import opened OsmGraph
  import opened Commands
  import Coordinates
  import Editing
  import CoordinateImport

  /** `Math.hypot(x, y)`. */
  type Hypot = (real, real) -> real

  /** The inputs: the mode radio, then each field through `parseFloat`. */
  datatype OffsetForm = OffsetForm(mode: string, east: Option<real>, north: Option<real>,
                                   oldLon: Option<real>, oldLat: Option<real>, newLon: Option<real>, newLat: Option<real>)

  /** A move in degrees, with its ground length in metres. */
  datatype Offset = Offset(deltaLon: real, deltaLat: real, distance: real)

  // ------------------------------------------------------------ the offset

  /** `parseFloat(x) || 0`: a field that is not a number counts as zero. */
  function OrZero(v: Option<real>): real
  {
    if v.Some? then v.value else 0.0
  }

  /**
   * `calculateOffset()`. In offset mode the metres are converted at the
   * latitude of the view centre and a zero move is refused; in the other
   * mode all four reference coordinates must be numbers and the move is
   * their difference.
   */
  function CalculateOffset(f: OffsetForm, centerY: real, cos: Coordinates.CosDeg, hypot: Hypot): (r: Result<Offset>)
    requires Coordinates.NeverZero(cos)
    ensures f.mode == "offset" ==> (r.Err? <==> OrZero(f.east) == 0.0 && OrZero(f.north) == 0.0)
    ensures f.mode != "offset" ==> (r.Err? <==> f.oldLon.None? || f.oldLat.None? || f.newLon.None? || f.newLat.None?)
    ensures f.mode != "offset" && r.Ok? ==>
      f.oldLon.value + r.value.deltaLon == f.newLon.value && f.oldLat.value + r.value.deltaLat == f.newLat.value
  {
    if f.mode == "offset" then
      var east := OrZero(f.east);
      var north := OrZero(f.north);
      if east == 0.0 && north == 0.0 then Err("请输入有效的偏移量")
      else
        var metersPerDegreeLon := Coordinates.MetersPerDegreeLat * cos(centerY);
        Ok(Offset(east / metersPerDegreeLon, north / Coordinates.MetersPerDegreeLat, hypot(east, north)))
    else if f.oldLon.None? || f.oldLat.None? || f.newLon.None? || f.newLat.None? then Err("请输入有效的参考点坐标")
    else
      var deltaLon := f.newLon.value - f.oldLon.value;
      var deltaLat := f.newLat.value - f.oldLat.value;
      var avgLat := (f.oldLat.value + f.newLat.value) / 2.0;
      var metersPerDegreeLon := Coordinates.MetersPerDegreeLat * cos(avgLat);
      Ok(Offset(deltaLon, deltaLat, hypot(deltaLon * metersPerDegreeLon, deltaLat * Coordinates.MetersPerDegreeLat)))
  }

  /**
   * In offset mode the move is the typed metres: a point on the centre's
   * latitude, moved by the offset, lies that many metres east and north of
   * where it was.
   */
  lemma OffsetIsTypedMetres(f: OffsetForm, centerY: real, cos: Coordinates.CosDeg, hypot: Hypot, lon: real)
    requires Coordinates.NeverZero(cos)
    requires f.mode == "offset" && CalculateOffset(f, centerY, cos, hypot).Ok?
    ensures var o := CalculateOffset(f, centerY, cos, hypot).value;
      Coordinates.LonLatToMeters(lon + o.deltaLon, centerY + o.deltaLat, lon, centerY, cos) == Coordinates.Pair(OrZero(f.east), OrZero(f.north))
  {
    var o := CalculateOffset(f, centerY, cos, hypot).value;
    assert Coordinates.MetersToLonLat(OrZero(f.east), OrZero(f.north), lon, centerY, cos) == Coordinates.Pair(lon + o.deltaLon, centerY + o.deltaLat);
    Coordinates.MetersRoundTrip(OrZero(f.east), OrZero(f.north), lon, centerY, cos);
  }

  // ------------------------------------------------------------ moving

  /** A node moved by the offset; its tags are kept. */
  function Shift(n: Node, dLon: real, dLat: real): Node
  {
    n.(lon := n.lon + dLon, lat := n.lat + dLat)
  }

  /** Every node moved by the offset, under the same id. */
  function Moved(nodes: map<int, Node>, dLon: real, dLat: real): (r: map<int, Node>)
    ensures r.Keys == nodes.Keys
  {
    map id | id in nodes :: Shift(nodes[id], dLon, dLat)
  }

  /** Moving back by the opposite offset restores every node. */
  lemma MoveBack(nodes: map<int, Node>, dLon: real, dLat: real)
    ensures Moved(Moved(nodes, dLon, dLat), -dLon, -dLat) == nodes
  {
    var back := Moved(Moved(nodes, dLon, dLat), -dLon, -dLat);
    assert back.Keys == nodes.Keys;
    forall id | id in nodes
      ensures back[id] == nodes[id]
    {
    }
  }

  /** The move loop of `applyTranslate()`: each node is shifted in place, in any order. */
  method MoveAll(ed: Editing.Editor, dLon: real, dLat: real)
    modifies ed`nodes
    ensures ed.nodes == Moved(old(ed.nodes), dLon, dLat)
  {
    ghost var base := ed.nodes;
    var todo := ed.nodes.Keys;
    while todo != {}
      invariant todo <= base.Keys
      invariant ed.nodes.Keys == base.Keys
      invariant forall id :: id in base ==> ed.nodes[id] == if id in todo then base[id] else Shift(base[id], dLon, dLat)
      decreases todo
    {
      IntsHaveElement(todo);
      var id :| id in todo;
      ed.nodes := ed.nodes[id := Shift(ed.nodes[id], dLon, dLat)];
      todo := todo - {id};
    }
    forall id | id in base
      ensures ed.nodes[id] == Moved(base, dLon, dLat)[id]
    {
    }
  }

  // ------------------------------------------------------------ bounds

  /** Every element of a set of reals moved by `d`. */
  function ShiftSet(s: set<real>, d: real): set<real>
  {
    set x | x in s :: x + d
  }

  lemma MinShift(s: set<real>, d: real)
    requires s != {}
    ensures ShiftSet(s, d) != {} && MinReal(ShiftSet(s, d)) == MinReal(s) + d
  {
    var m := MinReal(s);
    assert m + d in ShiftSet(s, d);
    var m' := MinReal(ShiftSet(s, d));
    var x :| x in s && m' == x + d;
    assert m <= x;
  }

  lemma MaxShift(s: set<real>, d: real)
    requires s != {}
    ensures ShiftSet(s, d) != {} && MaxReal(ShiftSet(s, d)) == MaxReal(s) + d
  {
    var m := MaxReal(s);
    assert m + d in ShiftSet(s, d);
    var m' := MaxReal(ShiftSet(s, d));
    var x :| x in s && m' == x + d;
    assert x <= m;
  }

  lemma MovedCoordinates(nodes: map<int, Node>, dLon: real, dLat: real)
    ensures Lons(Moved(nodes, dLon, dLat)) == ShiftSet(Lons(nodes), dLon)
    ensures Lats(Moved(nodes, dLon, dLat)) == ShiftSet(Lats(nodes), dLat)
  {
    var m := Moved(nodes, dLon, dLat);
    forall y | y in Lons(m)
      ensures y in ShiftSet(Lons(nodes), dLon)
    {
      var id :| id in m && m[id].lon == y;
      assert nodes[id].lon in Lons(nodes);
    }
    forall y | y in Lats(m)
      ensures y in ShiftSet(Lats(nodes), dLat)
    {
      var id :| id in m && m[id].lat == y;
      assert nodes[id].lat in Lats(nodes);
    }
    forall y | y in ShiftSet(Lons(nodes), dLon)
      ensures y in Lons(m)
    {
      var x :| x in Lons(nodes) && y == x + dLon;
      var id :| id in nodes && nodes[id].lon == x;
      assert m[id].lon == y;
    }
    forall y | y in ShiftSet(Lats(nodes), dLat)
      ensures y in Lats(m)
    {
      var x :| x in Lats(nodes) && y == x + dLat;
      var id :| id in nodes && nodes[id].lat == x;
      assert m[id].lat == y;
    }
  }

  /** The bounding box of the moved data is the old box moved by the offset. */
  lemma MovedBounds(nodes: map<int, Node>, dLon: real, dLat: real)
    requires nodes != map[]
    ensures var b := NodeBounds(nodes).value;
      NodeBounds(Moved(nodes, dLon, dLat)) == Some(Bounds(b.minLon + dLon, b.maxLon + dLon, b.minLat + dLat, b.maxLat + dLat))
  {
    MapHasKey(nodes);
    var id :| id in nodes;
    assert nodes[id].lon in Lons(nodes) && nodes[id].lat in Lats(nodes);
    MovedCoordinates(nodes, dLon, dLat);
    MinShift(Lons(nodes), dLon);
    MaxShift(Lons(nodes), dLon);
    MinShift(Lats(nodes), dLat);
    MaxShift(Lats(nodes), dLat);
  }

  // ------------------------------------------------------------ preview

  /** What the preview shows: the node count, the distance and the new centre. */
  datatype Preview = Preview(count: nat, distance: real, newCenterLon: real, newCenterLat: real)

  /**
   * `previewTranslate()`: fails (an alert) when the offset does, or when
   * there is no data to take a centre from; otherwise the centre of the
   * current box moved by the offset.
   */
  function PreviewTranslate(nodes: map<int, Node>, offset: Result<Offset>): (p: Option<Preview>)
    ensures p.Some? <==> offset.Ok? && nodes != map[]
  {
    if offset.Err? then None
    else
      var b := NodeBounds(nodes);
      if b.None? then None
      else Some(Preview(|nodes.Keys|, offset.value.distance,
                        b.value.CenterLon() + offset.value.deltaLon, b.value.CenterLat() + offset.value.deltaLat))
  }

  /** The centre the preview announces is the centre of the data once moved. */
  lemma PreviewCentreIsMovedCentre(nodes: map<int, Node>, offset: Result<Offset>)
    requires PreviewTranslate(nodes, offset).Some?
    ensures var p := PreviewTranslate(nodes, offset).value;
      var b := NodeBounds(Moved(nodes, offset.value.deltaLon, offset.value.deltaLat)).value;
      p.newCenterLon == b.CenterLon() && p.newCenterLat == b.CenterLat()
  {
    MovedBounds(nodes, offset.value.deltaLon, offset.value.deltaLat);
  }

  // ------------------------------------------------------------ copying

  /** The shifted copies, in visiting order. */
  function CopiedNodes(nodes: map<int, Node>, order: seq<int>, dLon: real, dLat: real): (r: seq<Node>)
    requires forall i :: 0 <= i < |order| ==> order[i] in nodes
    ensures |r| == |order|
    ensures forall i :: 0 <= i < |order| ==> r[i] == Shift(nodes[order[i]], dLon, dLat)
  {
    seq(|order|, i requires 0 <= i < |order| => Shift(nodes[order[i]], dLon, dLat))
  }

  /** `nodeIdMap`: the i-th visited id goes to `start + i`. */
  function IdMap(order: seq<int>, start: int): map<int, int>
  {
    if order == [] then map[] else IdMap(order[..|order| - 1], start)[order[|order| - 1] := start + |order| - 1]
  }

  /** Every visited id has a copy, and (ids being distinct) the i-th one's copy is `start + i`. */
  lemma {:induction false} IdMapSpec(order: seq<int>, start: int)
    requires Editing.NoDup(order)
    ensures forall k :: k in IdMap(order, start) <==> k in order
    ensures forall i :: 0 <= i < |order| ==> IdMap(order, start)[order[i]] == start + i
  {
    if order != [] {
      var n := |order| - 1;
      IdMapSpec(order[..n], start);
      assert forall i :: 0 <= i < n ==> order[..n][i] == order[i];
      assert forall k :: k in order <==> k in order[..n] || k == order[n];
    }
  }

  /** `wayData.nodes.map(nid => nodeIdMap.get(nid))`; an id without a copy is kept. */
  function Remap(refs: seq<int>, idMap: map<int, int>): (r: seq<int>)
    ensures |r| == |refs|
    ensures forall i :: 0 <= i < |refs| && refs[i] in idMap ==> r[i] == idMap[refs[i]]
  {
    seq(|refs|, i requires 0 <= i < |refs| => if refs[i] in idMap then idMap[refs[i]] else refs[i])
  }

  /** The copied ways, in visiting order, with their tags. */
  function CopiedWays(ways: map<int, Way>, wayOrder: seq<int>, idMap: map<int, int>): (r: seq<Way>)
    requires forall i :: 0 <= i < |wayOrder| ==> wayOrder[i] in ways
    ensures |r| == |wayOrder|
    ensures forall i :: 0 <= i < |wayOrder| ==> r[i] == Way(Remap(ways[wayOrder[i]].nodes, idMap), ways[wayOrder[i]].tags)
  {
    seq(|wayOrder|, i requires 0 <= i < |wayOrder| => Way(Remap(ways[wayOrder[i]].nodes, idMap), ways[wayOrder[i]].tags))
  }

  lemma NumberedStep<T>(start: int, xs: seq<T>, i: nat)
    requires i < |xs|
    ensures Numbered(start, xs[..i])[start + i := xs[i]] == Numbered(start, xs[..i + 1])
  {
    assert xs[..i + 1][..i] == xs[..i];
  }

  lemma IdMapStep(order: seq<int>, start: int, i: nat)
    requires i < |order|
    ensures IdMap(order[..i], start)[order[i] := start + i] == IdMap(order[..i + 1], start)
  {
    assert order[..i + 1][..i] == order[..i];
  }

  /**
   * The node loop of the copy: each node in visiting order gets a shifted
   * copy under the largest id so far plus one, and `nodeIdMap` records it.
   */
  method CopyNodes(nodes: map<int, Node>, order: seq<int>, dLon: real, dLat: real) returns (newNodes: map<int, Node>, idMap: map<int, int>)
    requires forall i :: 0 <= i < |order| ==> order[i] in nodes
    ensures newNodes == Numbered(NextId(nodes.Keys), CopiedNodes(nodes, order, dLon, dLat))
    ensures idMap == IdMap(order, NextId(nodes.Keys))
  {
    ghost var start := NextId(nodes.Keys);
    ghost var copies := CopiedNodes(nodes, order, dLon, dLat);
    newNodes := map[];
    idMap := map[];
    var i := 0;
    while i < |order|
      invariant 0 <= i <= |order|
      invariant newNodes == Numbered(start, copies[..i])
      invariant idMap == IdMap(order[..i], start)
    {
      var oldId := order[i];
      NextIdAfterNumbered(nodes, copies, i);
      var newId := NextId(nodes.Keys + newNodes.Keys);
      assert nodes.Keys + newNodes.Keys == (nodes + newNodes).Keys;
      IdMapStep(order, start, i);
      NumberedStep(start, copies, i);
      idMap := idMap[oldId := newId];
      newNodes := newNodes[newId := Shift(nodes[oldId], dLon, dLat)];
      i := i + 1;
    }
    assert copies[..|order|] == copies;
    assert order[..|order|] == order;
  }

  /** The way loop of the copy: each way in visiting order is copied over the copied nodes under the next free way id. */
  method CopyWays(ways: map<int, Way>, wayOrder: seq<int>, idMap: map<int, int>) returns (newWays: map<int, Way>)
    requires forall i :: 0 <= i < |wayOrder| ==> wayOrder[i] in ways
    ensures newWays == Numbered(NextId(ways.Keys), CopiedWays(ways, wayOrder, idMap))
  {
    ghost var start := NextId(ways.Keys);
    ghost var copies := CopiedWays(ways, wayOrder, idMap);
    newWays := map[];
    var i := 0;
    while i < |wayOrder|
      invariant 0 <= i <= |wayOrder|
      invariant newWays == Numbered(start, copies[..i])
    {
      var w := ways[wayOrder[i]];
      NextIdAfterNumbered(ways, copies, i);
      var newWayId := NextId(ways.Keys + newWays.Keys);
      assert ways.Keys + newWays.Keys == (ways + newWays).Keys;
      NumberedStep(start, copies, i);
      newWays := newWays[newWayId := Way(Remap(w.nodes, idMap), w.tags)];
      i := i + 1;
    }
    assert copies[..|wayOrder|] == copies;
  }

  /** The data after "keep original": the originals, then the copies numbered after them. */
  function Copied(s: Store, order: seq<int>, wayOrder: seq<int>, dLon: real, dLat: real): (r: Store)
    requires forall i :: 0 <= i < |order| ==> order[i] in s.nodes
    requires forall i :: 0 <= i < |wayOrder| ==> wayOrder[i] in s.ways
    ensures forall k :: k in s.nodes ==> k in r.nodes && r.nodes[k] == s.nodes[k]
    ensures forall k :: k in s.ways ==> k in r.ways && r.ways[k] == s.ways[k]
    ensures |r.nodes.Keys| == |s.nodes.Keys| + |order| && |r.ways.Keys| == |s.ways.Keys| + |wayOrder|
  {
    var idMap := IdMap(order, NextId(s.nodes.Keys));
    NumberedAreFresh(s.nodes, CopiedNodes(s.nodes, order, dLon, dLat));
    NumberedAreFresh(s.ways, CopiedWays(s.ways, wayOrder, idMap));
    Store(s.nodes + Numbered(NextId(s.nodes.Keys), CopiedNodes(s.nodes, order, dLon, dLat)),
          s.ways + Numbered(NextId(s.ways.Keys), CopiedWays(s.ways, wayOrder, idMap)))
  }

  /**
   * The copy keeps every original node and way as it was and adds exactly
   * one node per node and one way per way.
   */
  lemma CopyDoubles(s: Store, order: seq<int>, wayOrder: seq<int>, dLon: real, dLat: real)
    requires Editing.IsOrderOf(order, s.nodes.Keys) && Editing.IsOrderOf(wayOrder, s.ways.Keys)
    ensures var c := Copied(s, order, wayOrder, dLon, dLat);
      && (forall k :: k in s.nodes ==> k in c.nodes && c.nodes[k] == s.nodes[k])
      && (forall k :: k in s.ways ==> k in c.ways && c.ways[k] == s.ways[k])
      && |c.nodes.Keys| == 2 * |s.nodes.Keys|
      && |c.ways.Keys| == 2 * |s.ways.Keys|
  {
    var idMap := IdMap(order, NextId(s.nodes.Keys));
    NumberedAreFresh(s.nodes, CopiedNodes(s.nodes, order, dLon, dLat));
    NumberedAreFresh(s.ways, CopiedWays(s.ways, wayOrder, idMap));
    OrderLength(order, s.nodes.Keys);
    OrderLength(wayOrder, s.ways.Keys);
  }

  /** A visiting order is as long as the key set it lists. */
  lemma {:induction false} OrderLength(order: seq<int>, keys: set<int>)
    requires Editing.IsOrderOf(order, keys)
    ensures |order| == |keys|
  {
    if order == [] {
      assert !(exists k :: k in keys);
      EmptyIfNoElement(keys);
    } else {
      var n := |order| - 1;
      var init := order[..n];
      var rest := keys - {order[n]};
      assert order[n] in keys;
      assert |rest| == |keys| - 1;
      forall i | 0 <= i < |init|
        ensures init[i] in rest
      {
        assert init[i] == order[i] && order[i] != order[n];
      }
      forall k | k in rest
        ensures k in init
      {
        var j :| 0 <= j < |order| && order[j] == k;
        assert j != n;
        assert init[j] == k;
      }
      assert Editing.NoDup(init);
      OrderLength(init, rest);
    }
  }

  /**
   * The copies are wired like the originals: the copy of the i-th visited
   * way has the original's tags and refers, at each position, to the copy
   * of the node the original refers to there, which is that node moved by
   * the offset.
   */
  lemma CopiedWaysUseCopiedNodes(s: Store, order: seq<int>, wayOrder: seq<int>, dLon: real, dLat: real, i: nat, j: nat)
    requires Editing.NoDup(order) && forall n :: 0 <= n < |order| ==> order[n] in s.nodes
    requires forall n :: 0 <= n < |wayOrder| ==> wayOrder[n] in s.ways
    requires i < |wayOrder| && j < |s.ways[wayOrder[i]].nodes| && s.ways[wayOrder[i]].nodes[j] in order
    ensures var c := Copied(s, order, wayOrder, dLon, dLat);
      var copyId := NextId(s.ways.Keys) + i;
      && copyId in c.ways && c.ways[copyId].tags == s.ways[wayOrder[i]].tags
      && j < |c.ways[copyId].nodes| && c.ways[copyId].nodes[j] in c.nodes
      && c.nodes[c.ways[copyId].nodes[j]] == Shift(s.nodes[s.ways[wayOrder[i]].nodes[j]], dLon, dLat)
  {
    var ref := s.ways[wayOrder[i]].nodes[j];
    IdMapSpec(order, NextId(s.nodes.Keys));
    var k :| 0 <= k < |order| && order[k] == ref;
    CopiedWayAt(s, order, wayOrder, dLon, dLat, i);
    CopiedNodeAt(s, order, wayOrder, dLon, dLat, k);
  }

  lemma CopiedWayAt(s: Store, order: seq<int>, wayOrder: seq<int>, dLon: real, dLat: real, i: nat)
    requires forall n :: 0 <= n < |order| ==> order[n] in s.nodes
    requires forall n :: 0 <= n < |wayOrder| ==> wayOrder[n] in s.ways
    requires i < |wayOrder|
    ensures var c := Copied(s, order, wayOrder, dLon, dLat);
      var w := s.ways[wayOrder[i]];
      && NextId(s.ways.Keys) + i in c.ways
      && c.ways[NextId(s.ways.Keys) + i] == Way(Remap(w.nodes, IdMap(order, NextId(s.nodes.Keys))), w.tags)
  {
    var idMap := IdMap(order, NextId(s.nodes.Keys));
    NumberedLookup(s.ways, CopiedWays(s.ways, wayOrder, idMap), i);
  }

  lemma CopiedNodeAt(s: Store, order: seq<int>, wayOrder: seq<int>, dLon: real, dLat: real, k: nat)
    requires forall n :: 0 <= n < |order| ==> order[n] in s.nodes
    requires forall n :: 0 <= n < |wayOrder| ==> wayOrder[n] in s.ways
    requires k < |order|
    ensures var c := Copied(s, order, wayOrder, dLon, dLat);
      && NextId(s.nodes.Keys) + k in c.nodes
      && c.nodes[NextId(s.nodes.Keys) + k] == Shift(s.nodes[order[k]], dLon, dLat)
  {
    NumberedLookup(s.nodes, CopiedNodes(s.nodes, order, dLon, dLat), k);
  }

  // ------------------------------------------------------------ apply

  /** What `applyTranslate()` ends with. */
  datatype Outcome = NoData | Failed(message: string) | Cancelled | Translated(nodeCount: nat)

  /** The data after the translation: copied with "keep original", otherwise moved in place. */
  function TranslatedStore(s: Store, keepOriginal: bool, order: seq<int>, wayOrder: seq<int>, o: Offset): (r: Store)
    requires forall i :: 0 <= i < |order| ==> order[i] in s.nodes
    requires forall i :: 0 <= i < |wayOrder| ==> wayOrder[i] in s.ways
    ensures !keepOriginal ==> r.nodes.Keys == s.nodes.Keys && r.ways == s.ways
    ensures keepOriginal ==> forall k :: k in s.nodes ==> k in r.nodes && r.nodes[k] == s.nodes[k]
    ensures keepOriginal ==> forall k :: k in s.ways ==> k in r.ways && r.ways[k] == s.ways[k]
  {
    if keepOriginal then Copied(s, order, wayOrder, o.deltaLon, o.deltaLat)
    else Store(Moved(s.nodes, o.deltaLon, o.deltaLat), s.ways)
  }

  /**
   * `applyTranslate()`: nothing happens without data, on a bad offset or
   * when the user cancels; otherwise the data is copied or moved, the view
   * fitted, and both command stacks emptied. `order` and `wayOrder` are the
   * orders the two maps are visited in.
   */
  method ApplyTranslate(ed: Editing.Editor, f: OffsetForm, keepOriginal: bool, confirmed: bool,
                        order: seq<int>, wayOrder: seq<int>, cos: Coordinates.CosDeg, hypot: Hypot,
                        width: real, height: real, worldToCanvas: Editing.WorldToCanvas) returns (outcome: Outcome)
    requires Coordinates.NeverZero(cos)
    requires Editing.IsOrderOf(order, ed.nodes.Keys) && Editing.IsOrderOf(wayOrder, ed.ways.Keys)
    modifies ed`nodes, ed`ways, ed`centerX, ed`centerY, ed`scale, ed`undoStack, ed`redoStack
    ensures var o := CalculateOffset(f, old(ed.centerY), cos, hypot);
      old(ed.nodes) == map[] || o.Err? || !confirmed ==>
        && outcome == (if old(ed.nodes) == map[] then NoData else if o.Err? then Failed(o.message) else Cancelled)
        && ed.Hist() == old(ed.Hist())
        && ed.centerX == old(ed.centerX) && ed.centerY == old(ed.centerY) && ed.scale == old(ed.scale)
    ensures var o := CalculateOffset(f, old(ed.centerY), cos, hypot);
      old(ed.nodes) != map[] && o.Ok? && confirmed ==>
        && ed.Data() == TranslatedStore(old(ed.Data()), keepOriginal, order, wayOrder, o.value)
        && outcome == Translated(|ed.nodes.Keys|)
        && ed.CurrentView() == Editing.FittedView(ed.nodes, old(ed.CurrentView()), width, height, worldToCanvas)
        && ed.undoStack == [] && ed.redoStack == []
  {
    if ed.nodes == map[] {
      return NoData;
    }
    var offset := CalculateOffset(f, ed.centerY, cos, hypot);
    if offset.Err? {
      return Failed(offset.message);
    }
    if !confirmed {
      return Cancelled;
    }
    var o := offset.value;
    ghost var view := ed.CurrentView();
    if keepOriginal {
      var newNodes, idMap := CopyNodes(ed.nodes, order, o.deltaLon, o.deltaLat);
      var newWays := CopyWays(ed.ways, wayOrder, idMap);
      ed.nodes := ed.nodes + newNodes;
      ed.ways := ed.ways + newWays;
    } else {
      MoveAll(ed, o.deltaLon, o.deltaLat);
    }
    assert ed.CurrentView() == view;
    CoordinateImport.FitAndResetHistory(ed, width, height, worldToCanvas);
    outcome := Translated(|ed.nodes.Keys|);
  }
}
