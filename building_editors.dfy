/*
 * The building height and colour editors: one undoable ModifyTagsCommand
 * per selected way that exists, each keeping the way's other tags and
 * setting one building tag.
 */
module BuildingEditors {
  import opened Wrappers
  import opened OsmGraph
  import opened Commands
  import opened Text
  import Editing
  import UndoHistory
  import Styles

  /** `editor.selectedWay ? [selectedWay] : Array.from(editor.selectedWays)`, the set's iteration order given as `order`. */
  function Targets(selectedWay: Option<int>, order: seq<int>): (ids: seq<int>)
    ensures Truthy(selectedWay) ==> ids == [selectedWay.value]
    ensures !Truthy(selectedWay) ==> ids == order
  {
    if Truthy(selectedWay) then [selectedWay.value] else order
  }

  /** The command issued for way `id` in data `s`: its current tags, then the same with `key` set to `value`. */
  function TagCommand(s: Store, id: int, key: string, value: string): Command
    requires id in s.ways
  {
    ModifyTags(WayKind, id, s.ways[id].tags, s.ways[id].tags[key := value])
  }

  /**
   * The loop shared by both editors: for each target in order, a way that
   * exists gets one command through `executeCommand`, built from its tags
   * at that moment; a missing way is skipped.
   */
  function TagAll(h: UndoHistory.History, ids: seq<int>, key: string, value: string): (r: UndoHistory.History)
    ensures r.store.nodes == h.store.nodes && r.store.ways.Keys == h.store.ways.Keys
    ensures (forall i :: 0 <= i < |ids| ==> ids[i] !in h.store.ways) ==> r == h
    decreases |ids|
  {
    if ids == [] then h
    else
      var before := TagAll(h, ids[..|ids| - 1], key, value);
      var id := ids[|ids| - 1];
      if id in before.store.ways then UndoHistory.ExecuteCommand(before, TagCommand(before.store, id, key, value))
      else before
  }

  /**
   * What the loop leaves: nodes and the set of ways untouched, every target
   * way with `key` set to `value` and its other tags kept, every other way
   * as it was.
   */
  lemma {:induction false} TagAllEffect(h: UndoHistory.History, ids: seq<int>, key: string, value: string)
    ensures var r := TagAll(h, ids, key, value).store;
      && r.nodes == h.store.nodes && r.ways.Keys == h.store.ways.Keys
      && forall id :: id in h.store.ways ==>
           r.ways[id] == if id in ids then h.store.ways[id].(tags := h.store.ways[id].tags[key := value]) else h.store.ways[id]
    decreases |ids|
  {
    if ids != [] {
      var init := ids[..|ids| - 1];
      TagAllEffect(h, init, key, value);
      var last := ids[|ids| - 1];
      assert forall id :: id in ids <==> id in init || id == last;
    }
  }

  /** The commands the loop issues for distinct targets, read off the data it starts from. */
  function TagCommands(s: Store, ids: seq<int>, key: string, value: string): (cs: seq<Command>)
    ensures |cs| <= |ids|
    decreases |ids|
  {
    if ids == [] then []
    else
      var id := ids[|ids| - 1];
      TagCommands(s, ids[..|ids| - 1], key, value) + (if id in s.ways then [TagCommand(s, id, key, value)] else [])
  }

  /**
   * With distinct targets the loop is the undo history's `executeCommand`
   * applied to one command per existing target, in order, each from the
   * way's original tags.
   */
  lemma {:induction false} TagAllIsExecuteEach(h: UndoHistory.History, ids: seq<int>, key: string, value: string)
    requires Editing.NoDup(ids)
    ensures TagAll(h, ids, key, value) == UndoHistory.ExecuteEach(h, TagCommands(h.store, ids, key, value))
    decreases |ids|
  {
    if ids != [] {
      var init := ids[..|ids| - 1];
      var id := ids[|ids| - 1];
      TagAllIsExecuteEach(h, init, key, value);
      var before := TagAll(h, init, key, value);
      TagAllEffect(h, init, key, value);
      assert id !in init;
      if id in h.store.ways {
        assert before.store.ways[id] == h.store.ways[id];
        UndoHistory.ExecuteEachSnoc(h, TagCommands(h.store, init, key, value), TagCommand(h.store, id, key, value));
      } else {
        assert id !in before.store.ways;
        assert TagAll(h, ids, key, value) == before;
        assert TagCommands(h.store, ids, key, value) == TagCommands(h.store, init, key, value) + [];
        assert TagCommands(h.store, ids, key, value) == TagCommands(h.store, init, key, value);
      }
    }
  }

  /** Every command of the run finds the way's tags as they were, so the run is consistent. */
  lemma {:induction false} TagCommandsConsistent(s: Store, ids: seq<int>, key: string, value: string)
    requires Editing.NoDup(ids)
    ensures ConsistentAll(TagCommands(s, ids, key, value), s)
    decreases |ids|
  {
    if ids != [] {
      var init := ids[..|ids| - 1];
      var id := ids[|ids| - 1];
      var cs := TagCommands(s, init, key, value);
      TagCommandsConsistent(s, init, key, value);
      if id in s.ways {
        var h := UndoHistory.History(s, [], []);
        TagAllIsExecuteEach(h, init, key, value);
        UndoHistory.ExecuteEachKeepsLatest(h, cs);
        TagAllEffect(h, init, key, value);
        assert id !in init;
        assert ExecuteAll(cs, s).ways[id] == s.ways[id];
        ConsistentAllSnoc(cs, TagCommand(s, id, key, value), s);
      } else {
        assert TagCommands(s, ids, key, value) == cs + [];
        assert TagCommands(s, ids, key, value) == cs;
      }
    }
  }

  /**
   * Starting from an empty undo stack, undoing once per command the editor
   * issued takes the data back to what it was before the edit (for up to
   * the undo limit of target ways).
   */
  lemma TagAllUndoes(h: UndoHistory.History, ids: seq<int>, key: string, value: string)
    requires h.undo == [] && Editing.NoDup(ids) && |ids| <= UndoHistory.MaxUndoLevels
    ensures var cs := TagCommands(h.store, ids, key, value);
      UndoHistory.UndoTimes(TagAll(h, ids, key, value), |cs|).store == h.store
  {
    var cs := TagCommands(h.store, ids, key, value);
    TagAllIsExecuteEach(h, ids, key, value);
    TagCommandsConsistent(h.store, ids, key, value);
    UndoHistory.UndoAllAfterExecuteAll(h, cs);
  }

  /** What `openHeightEditor` ends in. */
  datatype Outcome = NoTargets | Cancelled | InvalidNumber | Applied(key: string, value: string)

  /** `/l$/i`: the text ends in `l` or `L`. */
  predicate EndsInL(s: string)
  {
    |s| > 0 && (s[|s| - 1] == 'l' || s[|s| - 1] == 'L')
  }

  /**
   * The height editor's decision: no targets alerts, a cancelled prompt
   * stops, a non-number alerts; otherwise input ending in `l`/`L` (after
   * trimming) sets `building:levels` and any other number `building:height`,
   * to the number written back as text (`String(num)`, a parameter).
   */
  function HeightOutcome(targets: seq<int>, input: Option<string>, parse: ParseFloat, str: real -> string): (o: Outcome)
    ensures o.Applied? <==> targets != [] && input.Some? && parse(input.value).Some?
    ensures o.Applied? ==> o.value == str(parse(input.value).value)
    ensures o.Applied? ==> (o.key == "building:levels" <==> EndsInL(Trim(input.value)))
    ensures o.Applied? ==> o.key in {"building:levels", "building:height"}
  {
    if targets == [] then NoTargets
    else if input.None? then Cancelled
    else if parse(input.value).None? then InvalidNumber
    else Applied(if EndsInL(Trim(input.value)) then "building:levels" else "building:height", str(parse(input.value).value))
  }

  /**
   * What the 3D view then reads: a height in metres counts when the way
   * has no `height` and no level tags, and a level count gives three
   * metres per level when the way has no `height` and no `levels` tag.
   */
  lemma HeightEditorTakesEffect(tags: Tags, input: string, parse: ParseFloat, str: real -> string, defaultHeight: real)
    requires parse(input).Some? && parse(str(parse(input).value)) == parse(input) && str(parse(input).value) != ""
    requires "height" !in tags && "levels" !in tags
    ensures var o := HeightOutcome([0], Some(input), parse, str);
      var h := Styles.BuildingHeight(tags[o.key := o.value], defaultHeight, parse);
      && (o.key == "building:levels" ==> h == 3.0 * parse(input).value)
      && (o.key == "building:height" && "building:levels" !in tags ==> h == parse(input).value)
  {
  }

  /** `openHeightEditor(editor)`, with the prompt's answer (`None` when cancelled). */
  method OpenHeightEditor(ed: Editing.Editor, order: seq<int>, input: Option<string>, parse: ParseFloat, str: real -> string) returns (o: Outcome)
    requires Editing.IsOrderOf(order, ed.selectedWays)
    modifies ed`nodes, ed`ways, ed`undoStack, ed`redoStack
    ensures o == HeightOutcome(Targets(ed.selectedWay, order), input, parse, str)
    ensures ed.Hist() == if o.Applied? then TagAll(old(ed.Hist()), Targets(ed.selectedWay, order), o.key, o.value) else old(ed.Hist())
  {
    var ways := if Truthy(ed.selectedWay) then [ed.selectedWay.value] else order;
    if |ways| == 0 {
      return NoTargets;
    }
    if input.None? {
      return Cancelled;
    }
    var isLevels := EndsInL(Trim(input.value));
    var num := parse(input.value);
    if num.None? {
      return InvalidNumber;
    }
    var key := if isLevels then "building:levels" else "building:height";
    TagWays(ed, ways, key, str(num.value));
    o := Applied(key, str(num.value));
  }

  /** The colour the picker starts from: the first target's `getBuildingColor`, or #F0F0F0 when that way is missing. */
  function InitialColour(ways: map<int, Way>, targets: seq<int>, defaultColour: string): (c: string)
    requires targets != []
    ensures targets[0] !in ways ==> c == "#F0F0F0"
  {
    if targets[0] in ways then Styles.BuildingColor(ways[targets[0]].tags, defaultColour) else "#F0F0F0"
  }

  /**
   * After the colour editor applies a colour, every existing target way
   * renders in that colour whatever colour tags it had, and its other tags
   * are kept.
   */
  lemma ColourEditorTakesEffect(h: UndoHistory.History, targets: seq<int>, hex: string, defaultColour: string, id: int)
    requires Styles.IsHexColor(hex) && id in targets && id in h.store.ways
    ensures var ws := TagAll(h, targets, "building:colour", hex).store.ways;
      id in ws && var w := ws[id];
      && Styles.BuildingColor(w.tags, defaultColour) == hex
      && w.nodes == h.store.ways[id].nodes
      && forall k :: k in h.store.ways[id].tags && k != "building:colour" ==> k in w.tags && w.tags[k] == h.store.ways[id].tags[k]
  {
    TagAllEffect(h, targets, "building:colour", hex);
    Styles.BuildingColorPriority(h.store.ways[id].tags, defaultColour, hex);
  }

  /**
   * `openColorEditor(editor)`: with no targets it alerts and opens nothing;
   * otherwise the picker opens on the initial colour and, when it hands
   * back a colour (`picked`; the picker itself passes on only valid hex
   * colours), `building:colour` is set on every existing target way.
   */
  method OpenColorEditor(ed: Editing.Editor, order: seq<int>, picked: Option<string>) returns (initial: Option<string>)
    requires Editing.IsOrderOf(order, ed.selectedWays)
    modifies ed`nodes, ed`ways, ed`undoStack, ed`redoStack
    ensures var targets := Targets(ed.selectedWay, order);
      && (initial.None? <==> targets == [])
      && (initial.Some? ==> initial.value == InitialColour(old(ed.ways), targets, ed.threeDSettings.defaultBuildingColor))
      && ed.Hist() == if initial.Some? && picked.Some? then TagAll(old(ed.Hist()), targets, "building:colour", picked.value) else old(ed.Hist())
  {
    var ways := if Truthy(ed.selectedWay) then [ed.selectedWay.value] else order;
    if |ways| == 0 {
      return None;
    }
    var init := "#F0F0F0";
    if ways[0] in ed.ways {
      init := Styles.BuildingColor(ed.ways[ways[0]].tags, ed.threeDSettings.defaultBuildingColor);
    }
    initial := Some(init);
    if picked.Some? {
      TagWays(ed, ways, "building:colour", picked.value);
    }
  }

  /** The `ways.forEach` loop of both editors. */
  method TagWays(ed: Editing.Editor, ids: seq<int>, key: string, value: string)
    modifies ed`nodes, ed`ways, ed`undoStack, ed`redoStack
    ensures ed.Hist() == TagAll(old(ed.Hist()), ids, key, value)
  {
    var i := 0;
    while i < |ids|
      invariant 0 <= i <= |ids|
      invariant ed.Hist() == TagAll(old(ed.Hist()), ids[..i], key, value)
    {
      var id := ids[i];
      assert ids[..i + 1][..i] == ids[..i];
      if id in ed.ways {
        var way := ed.ways[id];
        ed.ExecuteCommand(ModifyTags(WayKind, id, way.tags, way.tags[key := value]));
      }
      i := i + 1;
    }
    assert ids[..|ids|] == ids;
  }
}
