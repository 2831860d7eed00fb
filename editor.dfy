/**
 * The editor object: the node and way maps, the two command stacks, the view
 * parameters, the selection and the way under construction, with the
 * operations that change them. Every operation is stated against the pure
 * definitions of the other modules: a command's effect on the maps is
 * `Commands.Execute`/`Revert`, a stack operation is the matching function of
 * `UndoHistory`, a pick is the result of the `Spatial` scans.
 */
module Editing {
  import opened Wrappers
  import opened OsmGraph
  import opened Commands
  import UndoHistory
  import View
  import opened Spatial
  import Settings
  import Coordinates
  import Basemap

  /** The three selection fields: `selectedNode`, `selectedWay` and the set `selectedWays`. */
  datatype Selection = Selection(node: Option<int>, way: Option<int>, ways: set<int>)

  const NoSelection := Selection(None, None, {})

  /** A pick whose id is truthy (`cnode`/`cway` used as conditions; id 0 is falsy). */
  predicate PickTruthy(p: Option<Pick>)
  {
    p.Some? && p.value.id != 0
  }

  /**
   * The decision of `handleSelect` once both scans are done. The source
   * compares plain distances (`min < mind`); on squared distances, which are
   * never negative, the comparison has the same outcome.
   */
  function SelectFromPicks(sel: Selection, nodePick: Option<Pick>, wayPick: Option<Pick>, ways: map<int, Way>, shift: bool, ctrl: bool): Selection
  {
    if PickTruthy(nodePick) && (!PickTruthy(wayPick) || nodePick.value.d2 < wayPick.value.d2) then
      sel.(node := Some(nodePick.value.id), way := None)
    else if PickTruthy(wayPick) then
      var wid := wayPick.value.id;
      if wid in ways && IsClosed(ways[wid].nodes) then
        if shift then sel.(node := None, ways := sel.ways - {wid})
        else if ctrl then sel.(node := None, ways := sel.ways + {wid})
        else Selection(None, Some(wid), {wid})
      else Selection(None, Some(wid), {})
    else if !shift && !ctrl then NoSelection
    else sel
  }

  /**
   * A node is selected only when it is strictly closer than the best way
   * segment: on equal distances the way wins and the node selection is cleared.
   */
  lemma NodeWinsOnlyWhenStrictlyCloser(sel: Selection, nodePick: Option<Pick>, wayPick: Option<Pick>, ways: map<int, Way>, shift: bool, ctrl: bool)
    ensures var r := SelectFromPicks(sel, nodePick, wayPick, ways, shift, ctrl);
      PickTruthy(nodePick) && (!PickTruthy(wayPick) || nodePick.value.d2 < wayPick.value.d2) ==>
        r.node == Some(nodePick.value.id) && r.way == None && r.ways == sel.ways
    ensures var r := SelectFromPicks(sel, nodePick, wayPick, ways, shift, ctrl);
      PickTruthy(wayPick) && (!PickTruthy(nodePick) || wayPick.value.d2 <= nodePick.value.d2) ==> r.node == None
  {
  }

  /**
   * A picked closed polygon: shift removes it from the multi-selection, ctrl
   * adds it, and without modifiers it becomes the selected way and the sole
   * member; a picked open way becomes the selected way and empties the
   * multi-selection.
   */
  lemma WayPickRules(sel: Selection, nodePick: Option<Pick>, wayPick: Option<Pick>, ways: map<int, Way>, shift: bool, ctrl: bool)
    requires PickTruthy(wayPick) && wayPick.value.id in ways
    requires !PickTruthy(nodePick) || wayPick.value.d2 <= nodePick.value.d2
    ensures var r := SelectFromPicks(sel, nodePick, wayPick, ways, shift, ctrl);
      var wid := wayPick.value.id;
      && (IsClosed(ways[wid].nodes) && shift ==> wid !in r.ways && r.ways + {wid} == sel.ways + {wid} && r.way == sel.way)
      && (IsClosed(ways[wid].nodes) && !shift && ctrl ==> r.ways == sel.ways + {wid} && r.way == sel.way)
      && (IsClosed(ways[wid].nodes) && !shift && !ctrl ==> r.ways == {wid} && r.way == Some(wid))
      && (!IsClosed(ways[wid].nodes) ==> r.ways == {} && r.way == Some(wid))
  {
  }

  /** Nothing picked: without modifiers everything is deselected, with one the selection is kept. */
  lemma EmptyPickRules(sel: Selection, nodePick: Option<Pick>, wayPick: Option<Pick>, ways: map<int, Way>, shift: bool, ctrl: bool)
    requires !PickTruthy(nodePick) && !PickTruthy(wayPick)
    ensures !shift && !ctrl ==> SelectFromPicks(sel, nodePick, wayPick, ways, shift, ctrl) == NoSelection
    ensures shift || ctrl ==> SelectFromPicks(sel, nodePick, wayPick, ways, shift, ctrl) == sel
  {
  }

  /** How `finishBoxSelect` combines the boxed ways with the multi-selection. */
  function BoxSelection(sel: set<int>, picked: set<int>, shift: bool, ctrl: bool): (r: set<int>)
    ensures shift ==> r <= sel && r !! picked && sel <= r + picked
    ensures !shift && ctrl ==> sel <= r && picked <= r && r <= sel + picked
    ensures !shift && !ctrl ==> r == picked
  {
    if shift then sel - picked else if ctrl then sel + picked else picked
  }

  /** No id occurs twice. */
  predicate NoDup(s: seq<int>)
  {
    forall i, j :: 0 <= i < j < |s| ==> s[i] != s[j]
  }

  /** `order` lists every member of `keys` once: the order a map or set is iterated in. */
  ghost predicate IsOrderOf(order: seq<int>, keys: set<int>)
  {
    && NoDup(order)
    && (forall i :: 0 <= i < |order| ==> order[i] in keys)
    && (forall k :: k in keys ==> k in order)
  }

  /**
   * The way `finishCreation` builds from the collected node ids: in polygon
   * mode with at least three ids the list is closed (the first id appended
   * unless it is already last) and tagged `area=yes`; otherwise the ids as
   * they are, with no tags.
   */
  function NewWay(refs: seq<int>, polygon: bool): (w: Way)
    ensures polygon && |refs| >= 3 ==>
      && w.tags == map["area" := "yes"]
      && |refs| <= |w.nodes| <= |refs| + 1
      && w.nodes[..|refs|] == refs
      && w.nodes[|w.nodes| - 1] == refs[0]
    ensures !(polygon && |refs| >= 3) ==> w.nodes == refs && w.tags == map[]
  {
    if polygon && |refs| >= 3 then
      var closed := if refs[0] != refs[|refs| - 1] then refs + [refs[0]] else refs;
      assert closed[..|refs|] == refs;
      Way(closed, map["area" := "yes"])
    else Way(refs, map[])
  }

  /**
   * A polygon built from at least three distinct ids (as `handleWayCreation`
   * collects them) is a closed way in the sense of the pick rules.
   */
  lemma NewPolygonIsClosed(refs: seq<int>)
    requires |refs| >= 3 && NoDup(refs)
    ensures IsClosed(NewWay(refs, true).nodes)
    ensures |NewWay(refs, true).nodes| == |refs| + 1
  {
    assert refs[0] != refs[|refs| - 1];
  }

  /** The view parameters `worldToCanvas` depends on. */
  datatype ViewState = ViewState(scale: real, centerX: real, centerY: real, rotation: real, webmercator: bool)

  /** `worldToCanvas(lon, lat)` under given view parameters: trigonometry, so a parameter. */
  type WorldToCanvas = (ViewState, real, real) -> Point

  /**
   * The view `fitToWindow()` leaves on a `width` x `height` canvas: with no
   * nodes the view `v` as it was; otherwise centred on the middle of the
   * node box, with the scale fitted to the box as drawn around that centre
   * at the old scale. Rotation and the coordinate system are kept.
   */
  function FittedView(nodes: map<int, Node>, v: ViewState, width: real, height: real, worldToCanvas: WorldToCanvas): (r: ViewState)
    ensures r.rotation == v.rotation && r.webmercator == v.webmercator
    ensures nodes == map[] ==> r == v
    ensures nodes != map[] ==> View.MinScale(v.webmercator) <= r.scale <= View.MaxScale(v.webmercator)
    ensures nodes != map[] ==>
      forall id :: id in nodes ==>
        && View.Abs(nodes[id].lon - r.centerX) <= (NodeBounds(nodes).value.maxLon - NodeBounds(nodes).value.minLon) / 2.0
        && View.Abs(nodes[id].lat - r.centerY) <= (NodeBounds(nodes).value.maxLat - NodeBounds(nodes).value.minLat) / 2.0
  {
    if nodes == map[] then v
    else
      View.FitCentreCoversNodes(nodes);
      var b := NodeBounds(nodes).value;
      var centred := v.(centerX := b.CenterLon(), centerY := b.CenterLat());
      var p1 := worldToCanvas(centred, b.minLon, b.minLat);
      var p2 := worldToCanvas(centred, b.maxLon, b.maxLat);
      centred.(scale := View.FitScale(v.scale, p2.x - p1.x, p2.y - p1.y, width, height, v.webmercator))
  }

  /** Map `m` restricted to the keys in `s`. */
  function Restrict(m: map<int, Way>, s: set<int>): (r: map<int, Way>)
    ensures r.Keys == m.Keys * s
    ensures forall k :: k in r ==> r[k] == m[k]
  {
    map k | k in m && k in s :: m[k]
  }

  /** Every way left is an unchanged way of `before`. */
  predicate WaysShrunk(before: map<int, Way>, after: map<int, Way>)
  {
    forall wid :: wid in after ==> wid in before && after[wid] == before[wid]
  }

  /** Ways that only lose entries twice over have only lost entries, and a node no way held stays unheld. */
  lemma ShrunkTwice(w0: map<int, Way>, w1: map<int, Way>, w2: map<int, Way>)
    requires WaysShrunk(w0, w1) && WaysShrunk(w1, w2)
    ensures WaysShrunk(w0, w2)
    ensures forall id :: NodeUnheld(w1, id) ==> NodeUnheld(w2, id)
  {
  }

  /** No way of `ways` lists the node `id`. */
  predicate NodeUnheld(ways: map<int, Way>, id: int)
  {
    forall wid :: wid in ways ==> id !in ways[wid].nodes
  }

  /** The ways left by the node part of `deleteSelected`: those holding a truthy selected node that exists are gone. */
  function WaysAfterNodePart(nodes: map<int, Node>, ways: map<int, Way>, sel: Option<int>): map<int, Way>
  {
    if Truthy(sel) && sel.value in nodes then ways - WaysContaining(ways, sel.value).Keys else ways
  }

  /**
   * The way parts of `deleteSelected`, from ways `w`, selected way `sw` and
   * multi-selection `sws` to `w'`, `sw'`, `sws'`: a truthy selected way that
   * is missing ends the call with everything as it was; otherwise the
   * selected way (when truthy) and every multi-selected way are gone, the
   * selected way is cleared when it was truthy and the multi-selection is
   * emptied.
   */
  predicate WayPartsOutcome(w: map<int, Way>, sw: Option<int>, sws: set<int>, w': map<int, Way>, sw': Option<int>, sws': set<int>)
  {
    if Truthy(sw) && sw.value !in w then
      w' == w && sw' == sw && sws' == sws
    else
      && sw' == (if Truthy(sw) then None else sw)
      && sws' == {}
      && w' == w - (if Truthy(sw) then {sw.value} else {}) - sws
  }

  /** The outcome of the way parts, from the two steps that do not stop. */
  lemma WayPartsFromSteps(w: map<int, Way>, sw: Option<int>, sws: set<int>, w2: map<int, Way>, w': map<int, Way>)
    requires !(Truthy(sw) && sw.value !in w)
    requires w2 == w - (if Truthy(sw) then {sw.value} else {})
    requires w' == w2 - sws
    ensures WayPartsOutcome(w, sw, sws, w', if Truthy(sw) then None else sw, {})
  {
  }

  class Editor {
    var nodes: map<int, Node>
    var ways: map<int, Way>
    var undoStack: seq<Command>
    var redoStack: seq<Command>

    var scale: real
    var centerX: real
    var centerY: real
    var rotation: real

    var selectedNode: Option<int>
    var selectedWay: Option<int>
    var selectedWays: set<int>
    /** 'select', 'add_way', 'add_polygon', …: only 'add_polygon' matters here. */
    var mode: string
    var creatingWay: seq<int>
    var boxSelecting: bool
    /** The box's first corner; the source's `null` before the first box is any point here. */
    var boxStart: Point

    const gridSettings: Settings.GridSettings
    const coordSystem: Coordinates.CoordinateSystem
    const threeDSettings: Settings.ThreeDSettings
    const basemap: Basemap.BasemapManager

    /** The state of a fresh editor. */
    constructor()
      ensures nodes == map[] && ways == map[] && undoStack == [] && redoStack == []
      ensures scale == 100000.0 && centerX == 0.0 && centerY == 0.0 && rotation == 0.0
      ensures Sel() == NoSelection && mode == "select" && creatingWay == [] && !boxSelecting
      ensures fresh(gridSettings) && fresh(coordSystem) && fresh(threeDSettings) && fresh(basemap)
      ensures gridSettings.State() == Settings.DefaultGrid
      ensures coordSystem.coordType == "geographic"
      ensures threeDSettings.Clone() == Settings.DefaultThreeD
      ensures basemap.zoom == Basemap.DefaultTileZoom && !basemap.IsAnyEnabled()
    {
      nodes := map[];
      ways := map[];
      undoStack := [];
      redoStack := [];
      scale := 100000.0;
      centerX := 0.0;
      centerY := 0.0;
      rotation := 0.0;
      selectedNode := None;
      selectedWay := None;
      selectedWays := {};
      mode := "select";
      creatingWay := [];
      boxSelecting := false;
      boxStart := Point(0.0, 0.0);
      gridSettings := new Settings.GridSettings();
      coordSystem := new Coordinates.CoordinateSystem();
      threeDSettings := new Settings.ThreeDSettings();
      basemap := new Basemap.BasemapManager();
    }

    /** The two maps. */
    function Data(): Store
      reads this`nodes, this`ways
    {
      Store(nodes, ways)
    }

    /** The maps with both stacks. */
    function Hist(): UndoHistory.History
      reads this`nodes, this`ways, this`undoStack, this`redoStack
    {
      UndoHistory.History(Store(nodes, ways), undoStack, redoStack)
    }

    function Sel(): Selection
      reads this`selectedNode, this`selectedWay, this`selectedWays
    {
      Selection(selectedNode, selectedWay, selectedWays)
    }

    /** The view parameters as `worldToCanvas` reads them. */
    function CurrentView(): ViewState
      reads this`scale, this`centerX, this`centerY, this`rotation, coordSystem`coordType
    {
      ViewState(scale, centerX, centerY, rotation, WebMercator())
    }

    /** `coordSystem.coordType === 'webmercator'`, which picks the scale limits. */
    predicate WebMercator()
      reads coordSystem`coordType
    {
      coordSystem.coordType == "webmercator"
    }

    /** The way under construction lists existing nodes, each once. */
    predicate CreationValid()
      reads this`creatingWay, this`nodes
    {
      NoDup(creatingWay) && forall i :: 0 <= i < |creatingWay| ==> creatingWay[i] in nodes
    }

    // ---------------------------------------------------------------- commands

    /** The `ways.delete` loop of a node deletion, over the affected way ids. */
    method RemoveWays(ids: set<int>)
      modifies this`ways
      ensures ways == old(ways) - ids
    {
      var rest := ids;
      while rest != {}
        invariant rest <= ids
        invariant ways == old(ways) - (ids - rest)
        decreases rest
      {
        IntsHaveElement(rest);
        var wid :| wid in rest;
        assert ids - (rest - {wid}) == (ids - rest) + {wid};
        ways := ways - {wid};
        rest := rest - {wid};
      }
    }

    /** The `ways.set` loop of undoing a node deletion, over the affected-way snapshots. */
    method RestoreWays(affected: map<int, Way>)
      modifies this`ways
      ensures ways == old(ways) + affected
    {
      var rest := affected.Keys;
      while rest != {}
        invariant rest <= affected.Keys
        invariant ways == old(ways) + Restrict(affected, affected.Keys - rest)
        decreases rest
      {
        IntsHaveElement(rest);
        var wid :| wid in rest;
        assert Restrict(affected, affected.Keys - (rest - {wid})) == Restrict(affected, affected.Keys - rest)[wid := affected[wid]];
        ways := ways[wid := affected[wid]];
        rest := rest - {wid};
      }
      assert Restrict(affected, affected.Keys) == affected;
    }

    /** The tag assignment of ModifyTagsCommand on the live entry. */
    method AssignTags(kind: Kind, id: int, tags: Tags)
      modifies this`nodes, this`ways
      ensures Data() == SetTags(old(Data()), kind, id, tags)
    {
      if kind == NodeKind && id in nodes {
        nodes := nodes[id := nodes[id].(tags := tags)];
      } else if kind == WayKind && id in ways {
        ways := ways[id := ways[id].(tags := tags)];
      }
    }

    /** The position assignment of MoveNodeCommand on the live entry. */
    method AssignPos(id: int, p: Pos)
      modifies this`nodes
      ensures Data() == SetPos(old(Data()), id, p)
    {
      if id in nodes {
        nodes := nodes[id := nodes[id].(lon := p.lon, lat := p.lat)];
      }
    }

    /** `command.execute()` on this editor's maps. */
    method Perform(c: Command)
      modifies this`nodes, this`ways
      ensures Data() == Execute(c, old(Data()))
    {
      match c {
        case AddObject(id, obj) =>
          if obj.NodeObj? {
            nodes := nodes[id := obj.node];
          } else if obj.WayObj? {
            ways := ways[id := obj.way];
          }
        case DeleteObject(id, obj, affected) =>
          if obj.NodeObj? {
            nodes := nodes - {id};
            RemoveWays(affected.Keys);
          } else if obj.WayObj? {
            ways := ways - {id};
          }
        case ModifyTags(kind, id, _, newTags) =>
          AssignTags(kind, id, newTags);
        case MoveNode(id, _, newPos) =>
          AssignPos(id, newPos);
      }
    }

    /** `command.undo()` on this editor's maps. */
    method Reverse(c: Command)
      modifies this`nodes, this`ways
      ensures Data() == Revert(c, old(Data()))
    {
      match c {
        case AddObject(id, obj) =>
          if obj.NodeObj? {
            nodes := nodes - {id};
          } else if obj.WayObj? {
            ways := ways - {id};
          }
        case DeleteObject(id, obj, affected) =>
          if obj.NodeObj? {
            nodes := nodes[id := obj.node];
            RestoreWays(affected);
          } else if obj.WayObj? {
            ways := ways[id := obj.way];
          }
        case ModifyTags(kind, id, oldTags, _) =>
          AssignTags(kind, id, oldTags);
        case MoveNode(id, oldPos, _) =>
          AssignPos(id, oldPos);
      }
    }

    /** `executeCommand(command)`: run it, push it, clear the redo stack, drop the oldest entry past the cap. */
    method ExecuteCommand(c: Command)
      modifies this`nodes, this`ways, this`undoStack, this`redoStack
      ensures Hist() == UndoHistory.ExecuteCommand(old(Hist()), c)
    {
      Perform(c);
      undoStack := undoStack + [c];
      redoStack := [];
      if |undoStack| > UndoHistory.MaxUndoLevels {
        undoStack := undoStack[1..];
      }
    }

    /** `undo()`. */
    method Undo()
      modifies this`nodes, this`ways, this`undoStack, this`redoStack
      ensures Hist() == UndoHistory.Undo(old(Hist()))
    {
      if |undoStack| == 0 {
        return;
      }
      var c := undoStack[|undoStack| - 1];
      undoStack := undoStack[..|undoStack| - 1];
      Reverse(c);
      redoStack := redoStack + [c];
    }

    /** `redo()`: the command goes back on the undo stack with no cap check. */
    method Redo()
      modifies this`nodes, this`ways, this`undoStack, this`redoStack
      ensures Hist() == UndoHistory.Redo(old(Hist()))
    {
      if |redoStack| == 0 {
        return;
      }
      var c := redoStack[|redoStack| - 1];
      redoStack := redoStack[..|redoStack| - 1];
      Perform(c);
      undoStack := undoStack + [c];
    }

    /**
     * `moveSelectedNode(dx, dy)`: with a truthy selected node that exists,
     * shift it in place and push the matching MoveNode command, already
     * executed, with no cap check, clearing the redo stack; otherwise nothing.
     */
    method MoveSelectedNode(dx: real, dy: real)
      modifies this`nodes, this`undoStack, this`redoStack
      ensures !Truthy(old(selectedNode)) || old(selectedNode).value !in old(nodes) ==> Hist() == old(Hist())
      ensures Truthy(old(selectedNode)) && old(selectedNode).value in old(nodes) ==>
        var id := old(selectedNode).value;
        var n := old(nodes)[id];
        var cmd := MoveNode(id, PosOf(n), Pos(n.lon + dx, n.lat + dy));
        Hist() == UndoHistory.PushMoved(old(Hist()).(store := Execute(cmd, old(Data()))), cmd)
    {
      if !Truthy(selectedNode) {
        return;
      }
      var id := selectedNode.value;
      if id !in nodes {
        return;
      }
      var nd := nodes[id];
      var oldPos := Pos(nd.lon, nd.lat);
      nodes := nodes[id := nd.(lon := nd.lon + dx, lat := nd.lat + dy)];
      var cmd := MoveNode(id, oldPos, Pos(nd.lon + dx, nd.lat + dy));
      undoStack := undoStack + [cmd];
      redoStack := [];
    }

    // --------------------------------------------------------------- selection

    /**
     * `handleSelect(x, y, shift, ctrl)`: the closest node strictly within 15
     * pixels and the way owning the closest segment strictly within 10 pixels,
     * then the selection rule.
     */
    method HandleSelect(p: Point, shift: bool, ctrl: bool, toCanvas: (real, real) -> Point) returns (nodePick: Option<Pick>, wayPick: Option<Pick>)
      modifies this`selectedNode, this`selectedWay, this`selectedWays
      ensures nodePick.None? <==> NoNodeWithin(nodes, p, toCanvas)
      ensures nodePick.Some? ==> && nodePick.value.id in nodes
                                 && nodePick.value.d2 == NodeD2(nodes[nodePick.value.id], p, toCanvas)
                                 && NoNodeCloser(nodes, nodePick.value.d2, p, toCanvas)
      ensures wayPick.None? <==> NoWayWithin(nodes, ways, p, toCanvas, SegmentDist2)
      ensures wayPick.Some? ==> && wayPick.value.id in ways
                                && HasSegmentAt(nodes, ways[wayPick.value.id], wayPick.value.d2, p, toCanvas, SegmentDist2)
                                && NoWayCloser(nodes, ways, wayPick.value.d2, p, toCanvas, SegmentDist2)
      ensures Sel() == SelectFromPicks(old(Sel()), nodePick, wayPick, ways, shift, ctrl)
    {
      nodePick := FindClosestNode(nodes, p, toCanvas);
      wayPick := FindClosestWay(nodes, ways, p, toCanvas, SegmentDist2);
      SelectPicked(nodePick, wayPick, shift, ctrl);
    }

    /** The selection step of `handleSelect`, given the closest node and way hits. */
    method SelectPicked(nodePick: Option<Pick>, wayPick: Option<Pick>, shift: bool, ctrl: bool)
      requires wayPick.Some? ==> wayPick.value.id in ways
      modifies this`selectedNode, this`selectedWay, this`selectedWays
      ensures Sel() == SelectFromPicks(old(Sel()), nodePick, wayPick, ways, shift, ctrl)
    {
      if PickTruthy(nodePick) && (!PickTruthy(wayPick) || nodePick.value.d2 < wayPick.value.d2) {
        selectedNode := Some(nodePick.value.id);
        selectedWay := None;
      } else if PickTruthy(wayPick) {
        var wid := wayPick.value.id;
        var ids := ways[wid].nodes;
        if |ids| >= 4 && ids[0] == ids[|ids| - 1] {
          if shift {
            selectedWays := selectedWays - {wid};
          } else if ctrl {
            selectedWays := selectedWays + {wid};
          } else {
            selectedWay := Some(wid);
            selectedWays := {wid};
          }
        } else {
          selectedWay := Some(wid);
          selectedWays := {};
        }
        selectedNode := None;
      } else if !shift && !ctrl {
        selectedNode := None;
        selectedWay := None;
        selectedWays := {};
      }
    }

    /** `startBoxSelect(x, y)`. */
    method StartBoxSelect(p: Point)
      modifies this`boxSelecting, this`boxStart
      ensures boxSelecting && boxStart == p
    {
      boxSelecting := true;
      boxStart := p;
    }

    /**
     * `finishBoxSelect(x, y, shift, ctrl)`: nothing unless a box is open;
     * otherwise close it and remove (shift), add (ctrl) or set the closed
     * ways the box spanned from `boxStart` to `c2` holds.
     */
    method FinishBoxSelect(c2: Point, shift: bool, ctrl: bool, toCanvas: (real, real) -> Point) returns (picked: set<int>)
      modifies this`boxSelecting, this`selectedWays
      ensures !old(boxSelecting) ==> !boxSelecting && selectedWays == old(selectedWays)
      ensures old(boxSelecting) ==> !boxSelecting
      ensures old(boxSelecting) ==> forall wid :: wid in picked <==> wid in ways && BoxPicks(nodes, ways[wid], boxStart, c2, toCanvas)
      ensures old(boxSelecting) ==> selectedWays == BoxSelection(old(selectedWays), picked, shift, ctrl)
    {
      picked := {};
      if !boxSelecting {
        return;
      }
      boxSelecting := false;
      picked := BoxPickedWays(nodes, ways, boxStart, c2, toCanvas);
      if shift {
        var rest := picked;
        while rest != {}
          invariant rest <= picked && !boxSelecting
          invariant selectedWays == old(selectedWays) - (picked - rest)
          decreases rest
        {
          IntsHaveElement(rest);
          var id :| id in rest;
          selectedWays := selectedWays - {id};
          rest := rest - {id};
        }
      } else if ctrl {
        var rest := picked;
        while rest != {}
          invariant rest <= picked && !boxSelecting
          invariant selectedWays == old(selectedWays) + (picked - rest)
          decreases rest
        {
          IntsHaveElement(rest);
          var id :| id in rest;
          selectedWays := selectedWays + {id};
          rest := rest - {id};
        }
      } else {
        selectedWays := picked;
      }
    }

    /** `selectAllPolygons()`: exactly the closed ways. */
    method SelectAllPolygons()
      modifies this`selectedWays
      ensures forall wid :: wid in selectedWays <==> wid in ways && IsClosed(ways[wid].nodes)
    {
      selectedWays := {};
      var rest := ways.Keys;
      while rest != {}
        invariant rest <= ways.Keys
        invariant forall wid :: wid in selectedWays <==> wid in ways && wid !in rest && IsClosed(ways[wid].nodes)
        decreases rest
      {
        IntsHaveElement(rest);
        var id :| id in rest;
        var ids := ways[id].nodes;
        if |ids| >= 4 && ids[0] == ids[|ids| - 1] {
          selectedWays := selectedWays + {id};
        }
        rest := rest - {id};
      }
    }

    /** `clearSelection()`. */
    method ClearSelection()
      modifies this`selectedNode, this`selectedWay, this`selectedWays
      ensures Sel() == NoSelection
    {
      selectedNode := None;
      selectedWay := None;
      selectedWays := {};
    }

    // ---------------------------------------------------------------- creation

    /** `addNode(x, y)`: a new untagged node under the next free id, through `executeCommand`. */
    method AddNode(worldX: real, worldY: real) returns (id: int)
      modifies this`nodes, this`ways, this`undoStack, this`redoStack
      ensures id == NextId(old(nodes).Keys)
      ensures Hist() == UndoHistory.ExecuteCommand(old(Hist()), AddObject(id, NodeObj(Node(worldX, worldY, map[]))))
    {
      id := NextId(nodes.Keys);
      ExecuteCommand(AddObject(id, NodeObj(Node(worldX, worldY, map[]))));
    }

    /**
     * `handleWayCreation(x, y)`: a truthy node within 15 pixels joins the
     * way under construction unless already in it; with no such node a new
     * node is created at the (grid-snapped, when snapping is on) world point
     * and joins it.
     */
    method HandleWayCreation(p: Point, toCanvas: (real, real) -> Point, canvasToWorld: Point -> Pos, snap: Pos -> Pos) returns (nodePick: Option<Pick>)
      modifies this`nodes, this`ways, this`undoStack, this`redoStack, this`creatingWay
      ensures nodePick.None? <==> NoNodeWithin(old(nodes), p, toCanvas)
      ensures nodePick.Some? ==> nodePick.value.id in old(nodes) && NoNodeCloser(old(nodes), nodePick.value.d2, p, toCanvas)
      ensures PickTruthy(nodePick) ==>
        && Hist() == old(Hist())
        && creatingWay == if nodePick.value.id in old(creatingWay) then old(creatingWay) else old(creatingWay) + [nodePick.value.id]
      ensures !PickTruthy(nodePick) ==>
        var id := NextId(old(nodes).Keys);
        var w := canvasToWorld(p);
        var s := if gridSettings.snapToGrid then snap(w) else w;
        && Hist() == UndoHistory.ExecuteCommand(old(Hist()), AddObject(id, NodeObj(Node(s.lon, s.lat, map[]))))
        && creatingWay == old(creatingWay) + [id]
      ensures old(CreationValid()) ==> CreationValid()
    {
      nodePick := FindClosestNode(nodes, p, toCanvas);
      if PickTruthy(nodePick) {
        var cn := nodePick.value.id;
        if cn !in creatingWay {
          creatingWay := creatingWay + [cn];
        }
      } else {
        var w := canvasToWorld(p);
        if gridSettings.snapToGrid {
          w := snap(w);
        }
        var id := NextId(nodes.Keys);
        ExecuteCommand(AddObject(id, NodeObj(Node(w.lon, w.lat, map[]))));
        assert nodes == old(nodes)[id := Node(w.lon, w.lat, map[])];
        creatingWay := creatingWay + [id];
      }
    }

    /**
     * `finishCreation()`: with at least two ids, add the way `NewWay` builds
     * under the next free way id and empty the list; otherwise nothing.
     */
    method FinishCreation()
      modifies this`nodes, this`ways, this`undoStack, this`redoStack, this`creatingWay
      ensures |old(creatingWay)| < 2 ==> Hist() == old(Hist()) && creatingWay == old(creatingWay)
      ensures |old(creatingWay)| >= 2 ==>
        && creatingWay == []
        && Hist() == UndoHistory.ExecuteCommand(old(Hist()),
             AddObject(NextId(old(ways).Keys), WayObj(NewWay(old(creatingWay), mode == "add_polygon"))))
    {
      if |creatingWay| < 2 {
        return;
      }
      var id := NextId(ways.Keys);
      var data;
      if mode == "add_polygon" && |creatingWay| >= 3 {
        if creatingWay[0] != creatingWay[|creatingWay| - 1] {
          creatingWay := creatingWay + [creatingWay[0]];
        }
        data := Way(creatingWay, map["area" := "yes"]);
      } else {
        data := Way(creatingWay, map[]);
      }
      ExecuteCommand(AddObject(id, WayObj(data)));
      creatingWay := [];
    }

    /** `cancelCreation()`. */
    method CancelCreation()
      modifies this`creatingWay
      ensures creatingWay == []
    {
      creatingWay := [];
    }

    // ---------------------------------------------------------------- deletion

    /** The snapshot loop of `deleteSelected`: every way whose node list includes `nid`. */
    method CollectAffected(nid: int) returns (affected: map<int, Way>)
      ensures affected == WaysContaining(ways, nid)
    {
      affected := map[];
      var rest := ways.Keys;
      while rest != {}
        invariant rest <= ways.Keys
        invariant forall wid :: wid in affected <==> wid in ways && wid !in rest && nid in ways[wid].nodes
        invariant forall wid :: wid in affected ==> affected[wid] == ways[wid]
        decreases rest
      {
        IntsHaveElement(rest);
        var wid :| wid in rest;
        if nid in ways[wid].nodes {
          affected := affected[wid := ways[wid]];
        }
        rest := rest - {wid};
      }
      var wc := WaysContaining(ways, nid);
      forall wid
        ensures wid in affected <==> wid in wc
      {
      }
      assert affected.Keys == wc.Keys;
      assert forall wid :: wid in affected ==> affected[wid] == wc[wid];
    }

    /**
     * The node part of `deleteSelected`: with a truthy selected node that
     * exists, delete it together with a snapshot of every way containing it,
     * and deselect it. `stop` is the source's early `return` on a missing node.
     */
    method DeleteSelectedNode() returns (stop: bool)
      modifies this`nodes, this`ways, this`undoStack, this`redoStack, this`selectedNode
      ensures !Truthy(old(selectedNode)) ==> !stop && Hist() == old(Hist()) && selectedNode == old(selectedNode)
      ensures Truthy(old(selectedNode)) && old(selectedNode).value !in old(nodes) ==>
        stop && Hist() == old(Hist()) && selectedNode == old(selectedNode)
      ensures Truthy(old(selectedNode)) && old(selectedNode).value in old(nodes) ==>
        var id := old(selectedNode).value;
        && !stop && selectedNode == None
        && Hist() == UndoHistory.ExecuteCommand(old(Hist()), DeleteObject(id, NodeObj(old(nodes)[id]), WaysContaining(old(ways), id)))
        && id !in nodes && (forall wid :: wid in ways ==> id !in ways[wid].nodes)
        && ways == old(ways) - WaysContaining(old(ways), id).Keys
      ensures nodes.Keys <= old(nodes).Keys && WaysShrunk(old(ways), ways)
    {
      stop := false;
      if !Truthy(selectedNode) {
        return;
      }
      var id := selectedNode.value;
      if id !in nodes {
        stop := true;
        return;
      }
      var affected := CollectAffected(id);
      DeleteNodeCascades(Hist(), id);
      ExecuteCommand(DeleteObject(id, NodeObj(nodes[id]), affected));
      selectedNode := None;
    }

    /**
     * The single-way part of `deleteSelected` (no affected-way snapshot: it
     * defaults to empty). `issued` is the command run, if any.
     */
    method DeleteSelectedWay() returns (stop: bool, ghost issued: seq<Command>)
      modifies this`nodes, this`ways, this`undoStack, this`redoStack, this`selectedWay
      ensures Hist() == UndoHistory.ExecuteEach(old(Hist()), issued)
      ensures issued == if Truthy(old(selectedWay)) && old(selectedWay).value in old(ways)
        then [NewDeleteObject(old(selectedWay).value, WayObj(old(ways)[old(selectedWay).value]), None)] else []
      ensures !Truthy(old(selectedWay)) ==> !stop && Hist() == old(Hist()) && selectedWay == old(selectedWay)
      ensures Truthy(old(selectedWay)) && old(selectedWay).value !in old(ways) ==>
        stop && Hist() == old(Hist()) && selectedWay == old(selectedWay)
      ensures Truthy(old(selectedWay)) && old(selectedWay).value in old(ways) ==>
        var id := old(selectedWay).value;
        && !stop && selectedWay == None
        && Hist() == UndoHistory.ExecuteCommand(old(Hist()), NewDeleteObject(id, WayObj(old(ways)[id]), None))
      ensures !stop ==> ways == old(ways) - (if Truthy(old(selectedWay)) then {old(selectedWay).value} else {})
      ensures nodes == old(nodes) && WaysShrunk(old(ways), ways)
    {
      stop, issued := false, [];
      if !Truthy(selectedWay) {
        assert ways == old(ways) - {};
        return;
      }
      var id := selectedWay.value;
      if id !in ways {
        stop := true;
        return;
      }
      var cmd := NewDeleteObject(id, WayObj(ways[id]), None);
      issued := [cmd];
      assert UndoHistory.ExecuteEach(Hist(), [cmd]) == UndoHistory.ExecuteEach(UndoHistory.ExecuteCommand(Hist(), cmd), []);
      ExecuteCommand(cmd);
      assert ways == old(ways) - {id};
      selectedWay := None;
    }

    /**
     * One pass of the multi-selection loop of `deleteSelected`: a way that
     * still exists is deleted through `executeCommand`; a missing one is
     * skipped. `issued` is the command run, if any.
     */
    method DeleteWayIfPresent(id: int) returns (issued: seq<Command>)
      modifies this`nodes, this`ways, this`undoStack, this`redoStack
      ensures Hist() == UndoHistory.ExecuteEach(old(Hist()), issued)
      ensures id in old(ways) ==> issued == [NewDeleteObject(id, WayObj(old(ways)[id]), None)]
      ensures id !in old(ways) ==> issued == []
      ensures nodes == old(nodes) && ways == old(ways) - {id}
    {
      if id !in ways {
        issued := [];
        assert ways == old(ways) - {id};
        return;
      }
      var cmd := NewDeleteObject(id, WayObj(ways[id]), None);
      issued := [cmd];
      assert UndoHistory.ExecuteEach(Hist(), [cmd]) == UndoHistory.ExecuteEach(UndoHistory.ExecuteCommand(Hist(), cmd), []);
      ExecuteCommand(cmd);
    }

    /** One pass of the multi-selection delete loop, for the way `id`. */
    method DeletePass(ghost h0: UndoHistory.History, ghost done: set<int>, cmds: seq<Command>, id: int) returns (cmds': seq<Command>)
      requires DeleteLoopState(Hist(), h0, done, cmds) && id !in done
      modifies this`nodes, this`ways, this`undoStack, this`redoStack
      ensures DeleteLoopState(Hist(), h0, done + {id}, cmds')
    {
      var issued := DeleteWayIfPresent(id);
      DeleteStep(h0, cmds, issued, done, id, h0.store.ways);
      cmds' := cmds + issued;
    }

    /**
     * The multi-selection part of `deleteSelected`: when the set is not
     * empty, one DeleteObject command per selected way that still exists, in
     * the set's order (left open), then the set is emptied. `cmds` lists the
     * commands issued.
     */
    method DeleteSelectedWays() returns (cmds: seq<Command>)
      modifies this`nodes, this`ways, this`undoStack, this`redoStack, this`selectedWays
      ensures Hist() == UndoHistory.ExecuteEach(old(Hist()), cmds)
      ensures |cmds| == |old(selectedWays) * old(ways).Keys|
      ensures forall i :: 0 <= i < |cmds| ==>
        && cmds[i].DeleteObject? && cmds[i].id in old(selectedWays) && cmds[i].id in old(ways)
        && cmds[i].obj == WayObj(old(ways)[cmds[i].id]) && cmds[i].affectedWays == map[]
      ensures nodes == old(nodes) && ways == old(ways) - old(selectedWays)
      ensures selectedWays == {}
    {
      if selectedWays == {} {
        cmds := [];
        assert ways == old(ways) - {};
        return;
      }
      ghost var h0 := Hist();
      assert DeleteLoopState(Hist(), h0, {}, []) by {
        assert UndoHistory.ExecuteEach(h0, []) == h0;
        assert ways == h0.store.ways - {};
      }
      cmds := DeleteEach(h0, selectedWays);
      selectedWays := {};
    }

    /** The loop of the multi-selection delete, over the ways in `targets` in the set's order (left open). */
    method DeleteEach(ghost h0: UndoHistory.History, targets: set<int>) returns (cmds: seq<Command>)
      requires DeleteLoopState(Hist(), h0, {}, [])
      modifies this`nodes, this`ways, this`undoStack, this`redoStack
      ensures DeleteLoopState(Hist(), h0, targets, cmds)
    {
      cmds := [];
      var rest := targets;
      assert targets - rest == {};
      while rest != {}
        invariant rest <= targets
        invariant DeleteLoopState(Hist(), h0, targets - rest, cmds)
        decreases rest
      {
        cmds, rest := DeleteNext(h0, targets, rest, cmds);
      }
      assert targets - rest == targets;
    }

    /** One turn of the multi-selection delete loop: some way of `rest` is visited and taken out of it. */
    method DeleteNext(ghost h0: UndoHistory.History, ghost targets: set<int>, rest: set<int>, cmds: seq<Command>)
      returns (cmds': seq<Command>, rest': set<int>)
      requires rest != {} && rest <= targets
      requires DeleteLoopState(Hist(), h0, targets - rest, cmds)
      modifies this`nodes, this`ways, this`undoStack, this`redoStack
      ensures rest' < rest
      ensures DeleteLoopState(Hist(), h0, targets - rest', cmds')
    {
      IntsHaveElement(rest);
      var id :| id in rest;
      cmds' := DeletePass(h0, targets - rest, cmds, id);
      rest' := rest - {id};
      assert (targets - rest) + {id} == targets - rest';
    }

    /**
     * `deleteSelected()`: the node part, then the single way, then the
     * multi-selection; `cmds` lists the commands issued, one
     * `executeCommand` each, and every one of them is a deletion.
     */
    method DeleteSelected() returns (ghost cmds: seq<Command>)
      modifies this`nodes, this`ways, this`undoStack, this`redoStack, this`selectedNode, this`selectedWay, this`selectedWays
      ensures Hist() == UndoHistory.ExecuteEach(old(Hist()), cmds)
      ensures forall i :: 0 <= i < |cmds| ==> cmds[i].DeleteObject?
      ensures Truthy(old(selectedNode)) && old(selectedNode).value in old(nodes) ==>
        var id := old(selectedNode).value;
        cmds != [] && cmds[0] == DeleteObject(id, NodeObj(old(nodes)[id]), WaysContaining(old(ways), id))
      ensures nodes.Keys <= old(nodes).Keys && WaysShrunk(old(ways), ways)
      ensures Truthy(old(selectedNode)) && old(selectedNode).value in old(nodes) ==>
        && selectedNode == None && old(selectedNode).value !in nodes
        && forall wid :: wid in ways ==> old(selectedNode).value !in ways[wid].nodes
      ensures !Truthy(old(selectedNode)) ==> selectedNode == old(selectedNode)
      ensures Truthy(old(selectedNode)) && old(selectedNode).value !in old(nodes) ==>
        && cmds == [] && Hist() == old(Hist())
        && selectedNode == old(selectedNode) && selectedWay == old(selectedWay) && selectedWays == old(selectedWays)
      ensures !(Truthy(old(selectedNode)) && old(selectedNode).value !in old(nodes)) ==>
        WayPartsOutcome(WaysAfterNodePart(old(nodes), old(ways), old(selectedNode)), old(selectedWay), old(selectedWays),
                        ways, selectedWay, selectedWays)
    {
      ghost var w0 := ways;
      ghost var h0 := Hist();
      var stop := DeleteSelectedNode();
      cmds := [];
      if Truthy(old(selectedNode)) && old(selectedNode).value in old(nodes) {
        var id := old(selectedNode).value;
        cmds := [DeleteObject(id, NodeObj(old(nodes)[id]), WaysContaining(old(ways), id))];
        assert UndoHistory.ExecuteEach(h0, cmds) == UndoHistory.ExecuteEach(UndoHistory.ExecuteCommand(h0, cmds[0]), []);
      }
      if stop {
        return;
      }
      ghost var w1 := ways;
      var rest := DeleteSelectedWayParts();
      ShrunkTwice(w0, w1, ways);
      UndoHistory.ExecuteEachAppend(h0, cmds, rest);
      cmds := cmds + rest;
    }

    /**
     * The way parts of `deleteSelected()`: the single way, then, unless that
     * stopped on a missing way, the multi-selection.
     */
    method DeleteSelectedWayParts() returns (ghost cmds: seq<Command>)
      modifies this`nodes, this`ways, this`undoStack, this`redoStack, this`selectedWay, this`selectedWays
      ensures Hist() == UndoHistory.ExecuteEach(old(Hist()), cmds)
      ensures forall i :: 0 <= i < |cmds| ==> cmds[i].DeleteObject? && cmds[i].obj.WayObj?
      ensures nodes == old(nodes) && WaysShrunk(old(ways), ways)
      ensures Truthy(old(selectedWay)) && old(selectedWay).value !in old(ways) ==> cmds == [] && Hist() == old(Hist())
      ensures WayPartsOutcome(old(ways), old(selectedWay), old(selectedWays), ways, selectedWay, selectedWays)
    {
      ghost var w1, sw, sws := ways, selectedWay, selectedWays;
      ghost var h1 := Hist();
      var stop;
      stop, cmds := DeleteSelectedWay();
      if !stop {
        ghost var w2 := ways;
        var rest := DeleteSelectedWays();
        ShrunkTwice(w1, w2, ways);
        UndoHistory.ExecuteEachAppend(h1, cmds, rest);
        cmds := cmds + rest;
        WayPartsFromSteps(w1, sw, sws, w2, ways);
      }
    }
    // -------------------------------------------------------------------- view

    /** `resetView()`. */
    method ResetView()
      modifies this`scale, this`centerX, this`centerY, this`rotation
      ensures scale == 100000.0 && centerX == 0.0 && centerY == 0.0 && rotation == 0.0
    {
      scale := 100000.0;
      centerX := 0.0;
      centerY := 0.0;
      rotation := 0.0;
    }

    /** `onScroll(e)`: zoom out by 0.9 on a positive wheel delta, else in by 1.1, then clamp. */
    method OnScroll(deltaY: real)
      modifies this`scale
      ensures scale == View.Zoom(old(scale), View.ScrollFactor(deltaY), WebMercator())
      ensures View.MinScale(WebMercator()) <= scale <= View.MaxScale(WebMercator())
    {
      scale := scale * View.ScrollFactor(deltaY);
      scale := View.ClampScale(scale, WebMercator());
    }

    /** The zoom keys of `onKey`: '+'/'=' multiply by 1.5, '-'/'_' by 0.667, then clamp; other keys leave the scale. */
    method ZoomKey(key: string)
      modifies this`scale
      ensures key in {"+", "=", "-", "_"} ==> scale == View.Zoom(old(scale), View.KeyZoomFactor(key), WebMercator())
      ensures !(key in {"+", "=", "-", "_"}) ==> scale == old(scale)
    {
      if key == "+" || key == "=" {
        scale := scale * 1.5;
        scale := View.ClampScale(scale, WebMercator());
      } else if key == "-" || key == "_" {
        scale := scale * 0.667;
        scale := View.ClampScale(scale, WebMercator());
      }
    }

    /** `rotateView(angle)`. */
    method RotateView(angle: real)
      modifies this`rotation
      ensures rotation == View.RotateView(old(rotation), angle)
    {
      rotation := View.RotateView(rotation, angle);
    }

    /**
     * `fitToWindow()` on a canvas of `width` x `height` pixels: with no nodes
     * nothing; otherwise centre on the middle of the node box, measure the box
     * on the canvas with the new centre, and fit the scale.
     */
    method FitToWindow(width: real, height: real, worldToCanvas: WorldToCanvas)
      modifies this`centerX, this`centerY, this`scale
      ensures nodes == map[] ==> centerX == old(centerX) && centerY == old(centerY) && scale == old(scale)
      ensures nodes != map[] ==>
        var b := NodeBounds(nodes).value;
        var v := ViewState(old(scale), b.CenterLon(), b.CenterLat(), rotation, WebMercator());
        var p1 := worldToCanvas(v, b.minLon, b.minLat);
        var p2 := worldToCanvas(v, b.maxLon, b.maxLat);
        && centerX == b.CenterLon() && centerY == b.CenterLat()
        && scale == View.FitScale(old(scale), p2.x - p1.x, p2.y - p1.y, width, height, WebMercator())
      ensures nodes != map[] ==> View.MinScale(WebMercator()) <= scale <= View.MaxScale(WebMercator())
      ensures CurrentView() == FittedView(nodes, old(CurrentView()), width, height, worldToCanvas)
    {
      if nodes == map[] {
        return;
      }
      var b := NodeBounds(nodes).value;
      centerX := b.CenterLon();
      centerY := b.CenterLat();
      var v := ViewState(scale, centerX, centerY, rotation, WebMercator());
      var p1 := worldToCanvas(v, b.minLon, b.minLat);
      var p2 := worldToCanvas(v, b.maxLon, b.maxLat);
      scale := View.FitScale(scale, p2.x - p1.x, p2.y - p1.y, width, height, WebMercator());
    }

    /**
     * `onTileZoomChange()` with `parsed` the input's `parseInt` (None for
     * NaN, which falls back to the current zoom): clamp to [0, 19] and store;
     * in webmercator mode derive the scale from the zoom at the centre
     * latitude (`computeScaleForTileZoom`, a parameter) and clamp it.
     */
    method OnTileZoomChange(parsed: Option<int>, computeScale: (int, real) -> real)
      modifies basemap`zoom, this`scale
      ensures basemap.zoom == Basemap.ClampZoom(if parsed.Some? then parsed.value else old(basemap.zoom))
      ensures WebMercator() ==> scale == View.ClampScale(computeScale(basemap.zoom, centerY), true)
      ensures !WebMercator() ==> scale == old(scale)
    {
      var z := if parsed.Some? then parsed.value else basemap.zoom;
      z := Basemap.ClampZoom(z);
      basemap.SetZoom(Some(z));
      if WebMercator() {
        scale := computeScale(basemap.zoom, centerY);
        scale := View.ClampScale(scale, true);
      }
    }
  }

  // ------------------------------------------------------------ lemmas

  /**
   * Undoing a `moveSelectedNode` puts the node back where it was and leaves
   * the undo stack as before the move.
   */
  lemma MoveSelectedThenUndoRestores(h: UndoHistory.History, id: int, dx: real, dy: real)
    requires id in h.store.nodes
    ensures var n := h.store.nodes[id];
      var cmd := MoveNode(id, PosOf(n), Pos(n.lon + dx, n.lat + dy));
      var u := UndoHistory.Undo(UndoHistory.PushMoved(h.(store := Execute(cmd, h.store)), cmd));
      u.store == h.store && u.undo == h.undo && u.redo == [cmd]
  {
    var n := h.store.nodes[id];
    var cmd := MoveNode(id, PosOf(n), Pos(n.lon + dx, n.lat + dy));
    MoveThenUndoRestores(id, PosOf(n), Pos(n.lon + dx, n.lat + dy), h.store);
    var m := UndoHistory.PushMoved(h.(store := Execute(cmd, h.store)), cmd);
    assert m.undo[..|m.undo| - 1] == h.undo;
  }

  /**
   * `addNode` uses a free id, adds exactly that node, and a following undo
   * restores the maps.
   */
  lemma AddNodeThenUndo(h: UndoHistory.History, n: Node)
    ensures var id := NextId(h.store.nodes.Keys);
      var e := UndoHistory.ExecuteCommand(h, AddObject(id, NodeObj(n)));
      && id !in h.store.nodes
      && e.store.nodes == h.store.nodes[id := n] && e.store.ways == h.store.ways
      && UndoHistory.Undo(e).store == h.store
  {
    var id := NextId(h.store.nodes.Keys);
    UndoHistory.UndoAfterExecuteRestores(h, AddObject(id, NodeObj(n)));
  }

  /**
   * The node deletion of `deleteSelected` removes the node and every way
   * that referenced it, so no remaining way references it; every other way
   * stays; undo restores both maps.
   */
  lemma DeleteNodeCascades(h: UndoHistory.History, id: int)
    requires id in h.store.nodes
    ensures var c := DeleteObject(id, NodeObj(h.store.nodes[id]), WaysContaining(h.store.ways, id));
      var e := UndoHistory.ExecuteCommand(h, c);
      && id !in e.store.nodes
      && (forall wid :: wid in e.store.ways ==> id !in e.store.ways[wid].nodes)
      && (forall wid :: wid in h.store.ways && id !in h.store.ways[wid].nodes ==> wid in e.store.ways)
      && WaysShrunk(h.store.ways, e.store.ways)
      && UndoHistory.Undo(e).store == h.store
  {
    var c := DeleteObject(id, NodeObj(h.store.nodes[id]), WaysContaining(h.store.ways, id));
    UndoHistory.UndoAfterExecuteRestores(h, c);
  }

  /**
   * Deleting k multi-selected ways issues k commands, so from an undo stack
   * within the cap it grows by k up to the cap, keeping the newest entries.
   */
  lemma DeletingWaysAddsOneEntryEach(h: UndoHistory.History, cmds: seq<Command>)
    requires |h.undo| <= UndoHistory.MaxUndoLevels
    ensures |UndoHistory.ExecuteEach(h, cmds).undo| == UndoHistory.Min(|h.undo| + |cmds|, UndoHistory.MaxUndoLevels)
  {
    UndoHistory.ExecuteEachKeepsLatest(h, cmds);
  }

  /**
   * The state of the multi-selection delete loop after the ways in `done`
   * were visited from history `h0`: the commands issued so far, one per
   * visited way that existed, each a snapshot of that way, and run in order
   * to give `h`.
   */
  ghost predicate DeleteLoopState(h: UndoHistory.History, h0: UndoHistory.History, done: set<int>, cmds: seq<Command>)
  {
    && h == UndoHistory.ExecuteEach(h0, cmds)
    && |cmds| == |done * h0.store.ways.Keys|
    && (forall i :: 0 <= i < |cmds| ==>
          && cmds[i].DeleteObject? && cmds[i].id in done && cmds[i].id in h0.store.ways
          && cmds[i].obj == WayObj(h0.store.ways[cmds[i].id]) && cmds[i].affectedWays == map[])
    && h.store.nodes == h0.store.nodes && h.store.ways == h0.store.ways - done
  }

  /**
   * One pass of the multi-selection delete loop keeps the loop's invariant:
   * the run of commands grows by what the pass issued, and the count of
   * deleted ways by one exactly when the way existed.
   */
  lemma DeleteStep(h: UndoHistory.History, cmds: seq<Command>, issued: seq<Command>, done: set<int>, id: int, ways: map<int, Way>)
    requires id !in done
    requires id in ways ==> |issued| == 1
    requires id !in ways ==> issued == []
    requires |cmds| == |done * ways.Keys|
    ensures UndoHistory.ExecuteEach(h, cmds + issued) == UndoHistory.ExecuteEach(UndoHistory.ExecuteEach(h, cmds), issued)
    ensures |cmds + issued| == |(done + {id}) * ways.Keys|
  {
    if id in ways {
      UndoHistory.ExecuteEachSnoc(h, cmds, issued[0]);
      assert issued == [issued[0]];
      var e := UndoHistory.ExecuteEach(h, cmds);
      assert UndoHistory.ExecuteEach(e, [issued[0]]) == UndoHistory.ExecuteEach(UndoHistory.ExecuteCommand(e, issued[0]), []);
      assert (done + {id}) * ways.Keys == (done * ways.Keys) + {id};
    } else {
      assert cmds + issued == cmds;
      assert (done + {id}) * ways.Keys == done * ways.Keys;
    }
  }

  /** Selecting all polygons selects what a box around every node picks. */
  lemma SelectAllAgreesWithBoxAroundAll(nodes: map<int, Node>, ways: map<int, Way>, c1: Point, c2: Point, toCanvas: (real, real) -> Point, sel: set<int>)
    requires forall id :: id in nodes ==> InBox(c1, c2, CanvasOf(nodes[id], toCanvas))
    requires forall wid :: wid in sel <==> wid in ways && IsClosed(ways[wid].nodes)
    ensures forall wid :: wid in sel <==> wid in ways && BoxPicks(nodes, ways[wid], c1, c2, toCanvas)
  {
    BoxAroundEverythingPicksPolygons(nodes, ways, c1, c2, toCanvas);
  }
}
