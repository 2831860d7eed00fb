# MAP_UI editor core, modelled in Dafny

MAP_UI is a browser map editor for OpenStreetMap-style data. It keeps nodes
(a position in degrees plus tags) and ways (an ordered list of node ids plus
tags) in two maps. Every edit the user can undo goes through a command object
(add, delete, modify tags, move node). `executeCommand` runs the command and
pushes it on an undo stack capped at 50 entries. `undo` and `redo` move
commands between the two stacks. Around that core sit the following:

- selection by click, box or "all polygons";
- way and polygon creation;
- cascading deletion;
- view zoom, rotation and fit;
- a tile basemap;
- OSM XML import and export;
- dialogs: tag editor, building height and colour, grid panel, coordinate
  import, manual coordinate entry, coordinate export, and translation (move or
  copy) of all the data.

The Dafny project models each of these as follows.

| file | module | what it holds |
|---|---|---|
| wrappers.dfy | Wrappers | `Option`, `Result` |
| graph.dfy | OsmGraph | nodes, ways, `Math.max`/`Math.min` over key sets, the next-free-id rule, node bounds, the ways containing a node |
| commands.dfy | Commands | the four commands' `execute()`/`undo()` as functions on the two maps, and their inverse laws |
| history.dfy | UndoHistory | `executeCommand`, `undo`, `redo` and the 50-entry cap on a value |
| editor.dfy | Editing | the `OSMEditor` class: the maps and stacks it mutates in place, selection, creation, deletion, view |
| spatial.dfy | Spatial | click hit-testing (closest node, closest way segment) and box picking |
| view.dfy | View | scale clamping, zoom factors, rotation, fit-to-window scale |
| styles.dfy | Styles | building height/colour lookup, `ensureHexColor`, `hexToRgb`, the colour picker's `asColor`, `getNameLabel` |
| text.dfy | Text | `trim`, `split`, `String(n)`, `toString(16)`, `toLowerCase` as used by the above |
| coordinates.dfy | Coordinates | `CoordinateSystem` and the metre/degree conversions |
| basemap.dfy | Basemap | `BasemapManager`: zoom, attribution, tile arithmetic and the tile loop of `drawSource` |
| settings.dfy | Settings | `GridSettings`, the grid control panel's `apply`, `ThreeDSettings` |
| osmxml.dfy | OsmXml | `generateOSMXML` and `loadOSMData` and their round trip |
| tag_editor.dfy | TagEditor | `TagEditorDialog` |
| building_editors.dfy | BuildingEditors | `openHeightEditor`, `openColorEditor` |
| coordinate_import.dfy | CoordinateImport | `CoordinateImportDialog`: parsing and importing |
| manual_coordinate.dfy | ManualCoordinate | `ManualCoordinateDialog` |
| export_coordinates.dfy | ExportCoordinates | `ExportCoordinatesDialog` |
| translate_coordinates.dfy | TranslateCoordinates | `TranslateCoordinatesDialog` |

Parts of the JavaScript that the model cannot compute are given to the
operations as parameters:

- browser arithmetic: `Math.hypot`, `Math.cos`, `toFixed`, `parseFloat`, and
  number-to-text formatting;
- map and set iteration order;
- `JSON.parse` and `JSON.stringify`;
- `Date.now`;
- prompt answers.

Most parameters are arbitrary. A few properties ask something of them:

- the cosine is never 0 (`Coordinates.NeverZero`), or is not 0 at the
  reference latitude, for the metre conversions and everything built on them;
- an iteration order lists each key once (`Editing.IsOrderOf`,
  `OsmXml.Enumerates`, `OsmXml.EnumeratesTags`);
- number-to-text formatting writes no line break (`ExportCoordinates.SingleLine`),
  for `ExportCoordinates.CsvReadsBack`, `ExportCoordinates.SpaceReadsBack` and
  `ExportCoordinates.TableReadsBack`;
- `parseFloat` reads back what `String` writes for the typed height
  (`BuildingEditors.HeightEditorTakesEffect`);
- `Math.hypot` gives no negative distance (`ManualCoordinate.PathLengthGrows`).

Every other property holds for any behaviour of these functions.

## Model

| member | source | states |
|---|---|---|
| Commands.NewDeleteObject | project/js/commands/DeleteObjectCommand.js:15-22 | a missing `affectedWays` becomes the empty snapshot; id and object are kept |
| Commands.Execute | project/js/commands/DeleteObjectCommand.js:24-34 | `execute()`: only the addressed map changes, and in it only the command's id plus, for a node deletion, the snapshot ways; an add stores its object and leaves the other map alone, a way delete leaves the nodes alone, a node delete removes the node and exactly the snapshot ways, an unknown object type changes nothing, and tag and move commands keep both key sets |
| Commands.Revert | project/js/commands/DeleteObjectCommand.js:36-46 | `undo()`: only the addressed map changes, and in it only the command's id plus, for a node deletion, the snapshot ways; an add removes its object and leaves the other map alone, a way delete puts the way back and leaves the nodes alone, a node delete puts the node back and the snapshot ways over the way map, an unknown object type changes nothing, and tag and move commands keep both key sets |
| Commands.SetTags | project/js/commands/ModifyTagsCommand.js:24-30 | setting tags keeps both key sets, changes only the addressed object's tags and nothing when the object is missing |
| Commands.SetPos | project/js/commands/MoveNodeCommand.js:22-28 | moving keeps the node key set and the ways, changes only the addressed node's position |
| Commands.AddThenUndoRestores | project/js/commands/AddObjectCommand.js:22-36 | when the id was free, `undo()` after `execute()` restores both maps exactly |
| Commands.DeleteThenUndoRestores | project/js/commands/DeleteObjectCommand.js:24-46 | when the stored object and way snapshots match the live data, `undo()` after `execute()` restores the node, the cascaded ways and the way map exactly |
| Commands.ModifyTagsThenUndoRestores | project/js/commands/ModifyTagsCommand.js:24-38 | when the remembered old tags are the live ones, `undo()` after `execute()` restores the data |
| Commands.MoveThenUndoRestores | project/js/commands/MoveNodeCommand.js:22-36 | when the remembered old position is the live one, `undo()` after `execute()` restores the data |
| Commands.UndoAfterExecute | project/js/interfaces/ICommand.js:1-30 | the inverse law for every command: under its snapshot condition `undo` undoes `execute` |
| Commands.ExecuteAfterUndo | project/js/interfaces/ICommand.js:1-30 | for every command and every state, executing again after an undo gives the state after the first execute (what `redo` relies on) |
| Commands.AddAfterUndo | project/js/commands/AddObjectCommand.js:22-36 | re-executing an add after its undo gives the same state, with no precondition |
| Commands.DeleteAfterUndo | project/js/commands/DeleteObjectCommand.js:24-46 | re-executing a delete after its undo gives the same state, with no precondition |
| Commands.ModifyAfterUndo | project/js/commands/ModifyTagsCommand.js:24-38 | re-executing a tag change after its undo gives the same state |
| Commands.MoveAfterUndo | project/js/commands/MoveNodeCommand.js:22-36 | re-executing a move after its undo gives the same state |
| Commands.ExecuteIdempotent | project/js/commands/ModifyTagsCommand.js:24-30 | tag and move commands are idempotent: executing twice is executing once |
| Commands.ExecuteAllSnoc | project/js/OSMEditor.js:120-126 | running a list of commands then one more is running the extended list |
| Commands.ConsistentAllSnoc | project/js/OSMEditor.js:120-126 | a run of commands stays consistent when the next one matches the state the run leaves |
| Commands.UndoAllRestores | project/js/OSMEditor.js:128-136 | undoing a consistent run newest-first restores the starting data |
| Commands.RevertAllPrefix | project/js/OSMEditor.js:128-136 | undoing a run ends with undoing its first command |
| UndoHistory.ExecuteKeepsCap | project/js/OSMEditor.js:120-126 | from a stack within the 50-entry cap, `executeCommand` keeps it within the cap, puts the command on top and empties the redo stack |
| UndoHistory.ExecuteCommand | project/js/OSMEditor.js:120-126 | `executeCommand` leaves the data the command's execute gives, puts the command on top of the undo stack and empties the redo stack |
| UndoHistory.PushCapped | project/js/OSMEditor.js:122-124 | the command goes on top; the stack grows by one below 50 entries and otherwise keeps its length, holding the newest entries of the old stack in order |
| UndoHistory.Undo | project/js/OSMEditor.js:128-136 | an empty undo stack changes nothing; otherwise the top command is reverted and moved onto the redo stack; the total of both stacks is kept |
| UndoHistory.Redo | project/js/OSMEditor.js:138-146 | an empty redo stack changes nothing; otherwise the top command is executed again and moved onto the undo stack; the total of both stacks is kept |
| UndoHistory.PushMoved | project/js/OSMEditor.js:528-529 | the drag's move command is appended to the undo stack without the cap, the data is untouched and the redo stack is empty |
| UndoHistory.ExecuteEachAppend | project/js/OSMEditor.js:120-126 | executing a list of commands then a second list is executing the joined list |
| UndoHistory.ExecuteDropsOldest | project/js/OSMEditor.js:122-124 | at the cap the oldest entry is dropped; below it nothing is dropped |
| UndoHistory.BoundedPreserved | project/js/OSMEditor.js:120-146 | execute, undo and redo all keep the total of both stacks within the cap |
| UndoHistory.UndoRedoConserveCommands | project/js/OSMEditor.js:128-146 | undo and redo move one command between the stacks and keep the rest of the redo stack |
| UndoHistory.UndoAfterExecuteRestores | project/js/OSMEditor.js:120-136 | undo right after execute restores the data, puts exactly that command on the redo stack and, below the cap, restores the undo stack |
| UndoHistory.RedoAfterUndoAfterExecute | project/js/OSMEditor.js:120-146 | redo after undo after execute returns to the state after execute |
| UndoHistory.UndoAfterRedo | project/js/OSMEditor.js:128-146 | undo after redo returns to the whole history before redo |
| UndoHistory.EmptyStacksAreNoOps | project/js/OSMEditor.js:128-146 | undo and redo on an empty stack change nothing |
| UndoHistory.ExecuteEachKeepsLatest | project/js/OSMEditor.js:120-126 | after k executes the undo stack holds min(old + k, 50) entries, the newest commands last |
| UndoHistory.ExecuteEachSnoc | project/js/OSMEditor.js:120-126 | one more command extends a run by one `executeCommand` |
| UndoHistory.UndoTimesPops | project/js/OSMEditor.js:128-136 | undoing as many times as there are entries reverts them all, newest first, and empties the stack |
| UndoHistory.UndoAllAfterExecuteAll | project/js/OSMEditor.js:120-136 | from an empty stack, up to 50 consistent commands are all undone by as many undos |
| UndoHistory.MovePushExceedsCap | project/js/OSMEditor.js:528-529 | `moveSelectedNode` pushes without the cap, so at the cap the stack reaches 51 entries and a later execute keeps 51 |
| OsmGraph.MaxInt | project/js/OSMEditor.js:516 | `Math.max(...keys)` is a key at least as large as every key |
| OsmGraph.NextId | project/js/OSMEditor.js:516 | the next id is above every existing id; it is 1 for an empty map and one past the largest id otherwise |
| OsmGraph.MinReal | project/js/OSMEditor.js:559 | `Math.min(...values)` is a member no larger than any member |
| OsmGraph.MaxReal | project/js/OSMEditor.js:559 | `Math.max(...values)` is a member no smaller than any member |
| OsmGraph.NodeBounds | project/js/OSMEditor.js:556-559 | there is no box exactly when there are no nodes; otherwise it is well ordered and contains every node |
| OsmGraph.NodeInBox | project/js/OSMEditor.js:558-559 | each node lies within the min/max of the node coordinates |
| OsmGraph.NodeBoundsTight | project/js/OSMEditor.js:559 | each edge of the box is the coordinate of some node |
| OsmGraph.WaysContaining | project/js/OSMEditor.js:542 | the snapshot holds exactly the ways whose reference list contains the node, unchanged |
| OsmGraph.NumberedSpec | project/js/ui/CoordinateImportDialog.js:238-242 | ids numbered from `start` cover exactly `start .. start+n-1` and hold the elements in order |
| OsmGraph.NumberedSnoc | project/js/ui/CoordinateImportDialog.js:238-242 | numbering one more element puts it under the next id |
| OsmGraph.NextIdAfterNumbered | project/js/ui/CoordinateImportDialog.js:239 | after i elements numbered from the next free id, the next free id is i further on |
| OsmGraph.NumberedSize | project/js/ui/CoordinateImportDialog.js:238-242 | n elements get n distinct ids |
| OsmGraph.NumberedAreFresh | project/js/ui/CoordinateImportDialog.js:238-242 | the numbered ids are all new: existing entries are kept and one entry is added per element |
| OsmGraph.NumberedLookup | project/js/ui/CoordinateImportDialog.js:238-242 | the i-th element is found under next free id + i |
| Basemap.ClampZoom | project/js/layers/BasemapManager.js:25 | the zoom lands in [0, 19]; in-range values are kept, values below give 0 and values above give 19 |
| Basemap.AttributionListsEnabled | project/js/layers/BasemapManager.js:28-33 | the attribution is empty exactly when no source is on; it lists the enabled sources' texts, OSM first, joined by " \| " |
| Basemap.AttributionOf | project/js/layers/BasemapManager.js:28-33 | no source gives empty text; one source gives its attribution; both give the OSM attribution, the separator, then the satellite attribution |
| Basemap.BasemapManager.constructor | project/js/layers/BasemapManager.js:2-19 | zoom 16, both sources off |
| Basemap.BasemapManager.SetOSMEnabled | project/js/layers/BasemapManager.js:21 | sets the OSM switch |
| Basemap.BasemapManager.SetSatelliteEnabled | project/js/layers/BasemapManager.js:22 | sets the satellite switch |
| Basemap.BasemapManager.Attribution | project/js/layers/BasemapManager.js:23-33 | empty exactly when `isAnyEnabled()` is false |
| Basemap.BasemapManager.SetZoom | project/js/layers/BasemapManager.js:25 | a number is clamped to [0, 19]; NaN keeps the zoom; the zoom stays valid |
| Basemap.Pow2 | project/js/layers/BasemapManager.js:36-61 | `Math.pow(2, z)` is at least 1 |
| Basemap.TileColumnRoundTrip | project/js/layers/BasemapManager.js:36-38 | `tileX2lon` and `lon2tileX` are mutual inverses; -180 is column 0 and 180 is column 2^z |
| Basemap.Lon2TileX | project/js/layers/BasemapManager.js:36 | converting back with `tileX2lon` gives the longitude; -180° is column 0 and 180° is column 2^z |
| Basemap.TileX2Lon | project/js/layers/BasemapManager.js:38 | column 0 is -180° and column 2^z is 180° |
| Basemap.JsIntRem | project/js/layers/BasemapManager.js:73 | JavaScript `%` takes the sign of the dividend: the remainder is in [0, n) for non-negative and (-n, 0] for negative dividends |
| Basemap.WrapColumnIsModulo | project/js/layers/BasemapManager.js:73 | the wrapped column lies in [0, 2^z) and is the column modulo 2^z, negative columns included |
| Basemap.WrapColumn | project/js/layers/BasemapManager.js:73 | the wrapped column lies in 0..maxTiles-1, and a column already in range is kept |
| Basemap.ClampTileLat | project/js/layers/BasemapManager.js:55 | the latitudes are cut at ±85.05112878 and kept when inside |
| Basemap.ColumnRange | project/js/layers/BasemapManager.js:62 | a column span wider than half the world becomes the whole row of tiles, otherwise it is kept |
| Basemap.TileWindow | project/js/layers/BasemapManager.js:57-62 | the window's columns come from the floored tile columns of the longitudes; its rows come from the clamped latitudes, north edge first |
| Basemap.VisitTiles | project/js/layers/BasemapManager.js:64-99 | the loops visit min(columns x rows, 513) tiles, column by column and top to bottom, each at its wrapped column |
| Basemap.VisitColumn | project/js/layers/BasemapManager.js:71-98 | the inner loop over one column keeps the visit count and order |
| Basemap.ExtentIsBoundingBox | project/js/layers/BasemapManager.js:52-53 | the running min/max loop over the view corners gives their bounding box: every corner inside, every bound reached |
| Basemap.DrawSource | project/js/layers/BasemapManager.js:47-101 | the tile window is the one computed from the corners' bounding box, and the visits are those of the loops |
| Coordinates.CoordinateSystem.constructor | project/js/models/CoordinateSystem.js:6-16 | geographic type, scene origin (0, 0) |
| Coordinates.CoordinateSystem.GeographicToScene | project/js/models/CoordinateSystem.js:24-29 | y is metres north of the origin at 111320 m per degree; the origin's longitude maps to x = 0 |
| Coordinates.CoordinateSystem.SceneToGeographic | project/js/models/CoordinateSystem.js:37-42 | the latitude is the origin's plus y / 111320; x = 0 gives the origin's longitude |
| Coordinates.CoordinateSystem.SetSceneOrigin | project/js/models/CoordinateSystem.js:49-52 | sets both origin coordinates |
| Coordinates.CoordinateSystem.TypeDescription | project/js/models/CoordinateSystem.js:58-60 | "地理坐标" exactly for the geographic type, "场景坐标" for every other |
| Coordinates.GeographicRoundTrip | project/js/models/CoordinateSystem.js:24-42 | scene coordinates of a point read back as that point; the origin maps to (0, 0) |
| Coordinates.SceneRoundTrip | project/js/models/CoordinateSystem.js:24-42 | geographic coordinates of a scene point read back as that scene point |
| Coordinates.MetersRoundTrip | project/js/ui/CoordinateImportDialog.js:205-216 | a metre offset converted to degrees and back is the same offset |
| Coordinates.MetersToLonLat | project/js/ui/CoordinateImportDialog.js:205-216 | converting back with `LonLatToMeters` gives the metre offsets; a zero offset gives the reference point |
| Coordinates.LonLatRoundTrip | project/js/ui/ExportCoordinatesDialog.js:212-219 | a point converted to metres and back is the same point; the reference point is (0, 0) |
| Coordinates.LonLatToMeters | project/js/ui/ExportCoordinatesDialog.js:212-219 | the reference point maps to the origin; the y offset is zero exactly at the reference latitude and, with a nonzero cosine, the x offset exactly at the reference longitude |
| Settings.ResetToOriginSpec | project/js/models/GridSettings.js:27-30 | the origin becomes (0, 0) and no other field changes |
| Settings.ResetToOriginIdempotent | project/js/models/GridSettings.js:27-30 | resetting twice is resetting once |
| Settings.StatusDescriptionShowsState | project/js/models/GridSettings.js:46-51 | the status says "网格: 关闭" exactly when the grid is hidden; otherwise it ends in 开/关 according to snapping |
| Settings.StatusDescription | project/js/models/GridSettings.js:46-51 | the text is the grid-off text exactly when the grid is hidden |
| Settings.GridSettings.constructor | project/js/models/GridSettings.js:6-22 | the documented defaults |
| Settings.GridSettings.ResetToOrigin | project/js/models/GridSettings.js:27-30 | the new state is the reset of the old one |
| Settings.GridSettings.SetOrigin | project/js/models/GridSettings.js:37-40 | exactly the two origin fields change |
| Settings.NumberOr | project/js/ui/GridControlPanelDialog.js:42-44 | `parseFloat(v) \|\| fallback`: NaN and 0 fall back |
| Settings.TextOr | project/js/ui/GridControlPanelDialog.js:48-49 | `v \|\| fallback`: the empty string falls back |
| Settings.ApplyGridPanelRules | project/js/ui/GridControlPanelDialog.js:40-49 | after `apply` the grid size is `Math.max(1, parsed || old)`; origin and colours fall back on NaN, 0 or empty; the check boxes are copied |
| Settings.ApplyGridPanelTo | project/js/ui/GridControlPanelDialog.js:40-49 | the grid settings object ends in the state `apply` describes |
| Settings.ApplyGridPanel | project/js/ui/GridControlPanelDialog.js:40-49 | the grid size is at least 1 m, and the three check boxes are copied into the settings |
| Settings.UpdateFrom | project/js/models/ThreeDSettings.js:46-57 | each field present in the update is assigned, every absent one kept |
| Settings.UpdateFromCloneIsIdentity | project/js/models/ThreeDSettings.js:46-76 | `updateFrom(clone())` changes nothing; `updateFrom` of another clone copies it; an empty update changes nothing |
| Settings.ThreeDSettings.constructor | project/js/models/ThreeDSettings.js:6-24 | the documented defaults |
| Settings.ThreeDSettings.Reset | project/js/models/ThreeDSettings.js:29-40 | every field back to the constructor's value |
| Settings.ThreeDSettings.UpdateFromSettings | project/js/models/ThreeDSettings.js:46-57 | the new clone is `UpdateFrom` of the old clone |
| BuildingEditors.Targets | project/js/ui/BuildingEditors.js:5-26 | a truthy `selectedWay` alone, else the multi-selection in its iteration order |
| BuildingEditors.TagAllEffect | project/js/ui/BuildingEditors.js:12-21 | the loop sets the key on every existing target way, keeps its other tags and its nodes, and changes nothing else |
| BuildingEditors.TagAll | project/js/ui/BuildingEditors.js:12-21 | tagging the selected ways leaves the nodes and the way ids alone, and changes nothing when no target way exists |
| BuildingEditors.TagCommands | project/js/ui/BuildingEditors.js:12-21 | at most one command per target |
| BuildingEditors.TagAllIsExecuteEach | project/js/ui/BuildingEditors.js:12-21 | for distinct targets the loop is one `executeCommand` per existing way with commands read off the starting data |
| BuildingEditors.TagCommandsConsistent | project/js/ui/BuildingEditors.js:15-19 | each command's old tags are the live tags when it runs |
| BuildingEditors.TagAllUndoes | project/js/ui/BuildingEditors.js:12-21 | from an empty undo stack, undoing once per command issued restores the data |
| BuildingEditors.HeightOutcome | project/js/ui/BuildingEditors.js:4-23 | the edit applies exactly when there are targets, the prompt is answered and the number parses; the key is `building:levels` exactly when the trimmed text ends in l/L, else `building:height` |
| BuildingEditors.HeightEditorTakesEffect | project/js/ui/BuildingEditors.js:9-18 | the value written is what the 3D view reads back: levels give 3 m each, a height its metres |
| BuildingEditors.OpenHeightEditor | project/js/ui/BuildingEditors.js:4-23 | returns the outcome; the history is the tag loop when it applies and unchanged otherwise |
| BuildingEditors.InitialColour | project/js/ui/BuildingEditors.js:29-31 | #F0F0F0 when the first target is missing |
| BuildingEditors.ColourEditorTakesEffect | project/js/ui/BuildingEditors.js:32-41 | after a valid hex colour is applied, each existing target renders in that colour and keeps its other tags and nodes |
| BuildingEditors.OpenColorEditor | project/js/ui/BuildingEditors.js:25-44 | no picker exactly when there are no targets; it opens on the initial colour; a picked colour is written to every existing target |
| BuildingEditors.TagWays | project/js/ui/BuildingEditors.js:12-21 | the `forEach` loop of both editors leaves the history `TagAll` describes |
| Styles.RgbHexValid | project/js/OSMEditor.js:243 | the hex text of three numbers is a valid `#RRGGBB` exactly when each fits in a byte |
| Styles.EnsureHexColorValid | project/js/OSMEditor.js:236-245 | a valid hex colour is kept; with a valid default and an in-range `rgb(...)` the result is always valid |
| Styles.EnsureHexColor | project/js/OSMEditor.js:236-245 | empty or `transparent` gives the default; a valid hex colour is kept; any other result is a valid hex colour, the default, or the hex of the `rgb(...)` found in the text |
| Styles.ColorNamesValid | project/js/OSMEditor.js:239-241 | every named colour maps to a valid hex colour |
| Styles.FindRgb | project/js/OSMEditor.js:242 | `match` finds no `rgb(...)` exactly when there is none at any index, else one that occurs |
| Styles.FindRgbLeftmost | project/js/OSMEditor.js:242 | the `rgb(...)` found is the leftmost one: no match starts before it, as `String.prototype.match` reports |
| Styles.AsColorRules | project/js/ui/ColorPickerDialog.js:34 | `asColor` keeps valid hex; it is invalid exactly when neither hex nor an in-range `rgb(...)` is given; it is idempotent on valid results |
| Styles.AsColor | project/js/ui/ColorPickerDialog.js:34 | a valid hex colour is kept; the result is invalid exactly when the input is not hex and holds an `rgb(...)` with a component above 255 |
| Styles.RgbAtText | project/js/ui/ColorPickerDialog.js:34 | `rgb(r,g,b)` is matched at its start with exactly those numbers |
| Styles.RgbTextRead | project/js/ui/ColorPickerDialog.js:34 | typing `rgb(r,g,b)` is read back as those components by both colour helpers and converted to their hex |
| Styles.PickerApply | project/js/ui/ColorPickerDialog.js:36 | `onApply` receives a colour only when `asColor` gives a valid `#RRGGBB`, and then that colour |
| Styles.RemoveFirstHash | project/js/OSMEditor.js:249 | `replace('#','')` removes only the first '#' |
| Styles.HexToRgb | project/js/OSMEditor.js:247-253 | every component read is a byte |
| Styles.HexToRgbAccepts | project/js/OSMEditor.js:247-253 | `hexToRgb` succeeds exactly when, after the first '#' is removed, 3 or 6 hex digits remain |
| Styles.HexToRgbRoundTrip | project/js/OSMEditor.js:243-253 | the hex text written for a colour reads back as its components |
| Styles.CjkOnly | project/js/OSMEditor.js:491 | only CJK ideographs are kept, in order |
| Styles.CjkOnlyOfCjk | project/js/OSMEditor.js:491 | a name of CJK ideographs only is kept whole |
| Styles.GetNameLabel | project/js/OSMEditor.js:491 | the loop's label is the name's CJK characters if any, else the name; no label for a missing or empty name |
| Styles.NameLabelIdempotent | project/js/OSMEditor.js:491 | no label exactly for a missing or empty name; a label is the name itself or made of CJK ideographs only; labelling a label changes nothing |
| Styles.BuildingHeightPriority | project/js/OSMEditor.js:223-229 | a numeric `height` tag wins; a numeric `levels` tag alone gives 3 m per level; without height tags the `building` type's default or the setting's default applies |
| Styles.BuildingHeight | project/js/OSMEditor.js:223-229 | a numeric `height` tag is the height; when no text parses as a number, the `building` type's default or the setting's default height |
| Styles.FirstTruthy | project/js/OSMEditor.js:232 | the first colour tag with a non-empty value; none exactly when all are missing or empty |
| Styles.BuildingColorPriority | project/js/OSMEditor.js:231-234 | `building:colour` wins over the other colour tags; without colour tags the default applies |
| Styles.BuildingColor | project/js/OSMEditor.js:231-234 | a `building:colour` tag wins, passed through the hex check; with no colour tag at all the default is used |
| TagEditor.LiveTags | project/js/ui/TagEditorDialog.js:10-11 | the node's tags for type 'node', else the way's; none when the object is missing |
| TagEditor.KindOf | project/js/commands/ModifyTagsCommand.js:25-27 | 'node' and 'way' select the node and way maps; any other type touches nothing |
| TagEditor.AddTag | project/js/ui/TagEditorDialog.js:60-67 | a cancelled or empty key, or a cancelled value, changes nothing; otherwise exactly that key is set |
| TagEditor.DelTag | project/js/ui/TagEditorDialog.js:81 | exactly that key disappears |
| TagEditor.AddThenDelete | project/js/ui/TagEditorDialog.js:60-83 | adding then deleting a key leaves what deleting alone leaves, and a new key leaves nothing behind |
| TagEditor.ApplyThenUndo | project/js/ui/TagEditorDialog.js:85-93 | after `apply` the object has exactly the edited tags and nothing else changed; undo restores the data |
| TagEditor.TagEditorDialog.constructor | project/js/ui/TagEditorDialog.js:5-13 | the working copy is the object's live tags |
| TagEditor.TagEditorDialog.AddTagPrompt | project/js/ui/TagEditorDialog.js:60-67 | the working copy becomes `AddTag` of the old one |
| TagEditor.TagEditorDialog.EditTag | project/js/ui/TagEditorDialog.js:69-76 | alerts exactly without a selected row; otherwise a given value replaces the selected key's |
| TagEditor.TagEditorDialog.DelTagSelected | project/js/ui/TagEditorDialog.js:78-83 | alerts exactly without a selected row; otherwise that key is deleted |
| TagEditor.TagEditorDialog.Apply | project/js/ui/TagEditorDialog.js:85-93 | exactly one tag command, from the live tags to the working copy, through `executeCommand` |
| Text.TrimSpec | project/js/ui/CoordinateImportDialog.js:154-176 | `trim()` removes white space only at the ends and leaves no white space at either end |
| Text.Trim | project/js/ui/CoordinateImportDialog.js:154-176 | the result is a slice of the input starting after its leading white space |
| Text.TrimIdempotent | project/js/ui/CoordinateImportDialog.js:176 | trimming twice is trimming once |
| Text.TrimEmptyIffBlank | project/js/ui/CoordinateImportDialog.js:158-172 | the trimmed text is empty exactly when the text is all white space |
| Text.Split | project/js/ui/CoordinateImportDialog.js:172-176 | `split` gives at least one piece, none containing the separator |
| Text.JoinSplit | project/js/ui/CoordinateImportDialog.js:172 | joining the pieces with the separator gives the input back |
| Text.Tokens | project/js/ui/CoordinateImportDialog.js:173-176 | `split(/\s+/)` then dropping empty pieces gives non-empty pieces without white space |
| Text.TokensKeepNonSpace | project/js/ui/CoordinateImportDialog.js:176 | the tokens run together are the non-space characters of the line |
| Text.NatToString | project/js/OSMEditor.js:634 | `String(n)` is decimal digits without leading zeros |
| Text.NatToStringRoundTrip | project/js/OSMEditor.js:630-634 | reading back `String(n)` gives n |
| Text.IntToStringInjective | project/js/OSMEditor.js:630-634 | distinct ids are written differently |
| Text.ToHexRoundTrip | project/js/OSMEditor.js:243 | reading back `toString(16)` gives the number |
| Text.ToHexLength | project/js/OSMEditor.js:243 | `toString(16)` has 1 digit below 16, 2 below 256 and at least 3 above |
| Text.Hex2 | project/js/OSMEditor.js:243 | `padStart(2,'0')` gives 2 lowercase hex digits for a byte and reads back as the number |
| Text.ToLowerIdempotent | project/js/OSMEditor.js:240 | lowercasing twice is lowercasing once |
| Text.ToLower | project/js/OSMEditor.js:240 | lower-casing keeps the length and maps each character by itself through the A-Z lower-casing |
| Editing.NodeWinsOnlyWhenStrictlyCloser | project/js/OSMEditor.js:503 | a node hit is selected only when no way was hit or the node is strictly closer; on a tie the way wins and the node selection is cleared |
| Editing.WayPickRules | project/js/OSMEditor.js:504 | a picked closed polygon is removed with shift, added with ctrl, and otherwise becomes the selected way and the only multi-selected way; a picked open way becomes the selected way and empties the multi-selection |
| Editing.EmptyPickRules | project/js/OSMEditor.js:505 | with no hit, a plain click deselects everything and a modified click keeps the selection |
| Editing.BoxSelection | project/js/OSMEditor.js:514 | shift leaves the old selection minus every boxed way; ctrl adds the boxed ways and nothing else; with no modifier the selection is exactly the boxed ways |
| Editing.NewWay | project/js/OSMEditor.js:524 | in polygon mode with at least 3 ids the way is closed, tagged `area=yes` and starts with the collected ids; otherwise it is the ids as collected, untagged |
| Editing.NewPolygonIsClosed | project/js/OSMEditor.js:524 | a polygon built from at least 3 distinct ids counts as closed under the pick rules (at least 4 refs, first equals last) |
| Editing.Editor.constructor | project/js/OSMEditor.js:20-32 | a new editor has no data and empty stacks, scale 100000 at the origin without rotation, select mode with nothing selected, default grid and 3D settings, geographic coordinates and the default tile zoom with every basemap off |
| Editing.Editor.RemoveWays | project/js/commands/DeleteObjectCommand.js:28-30 | the way map loses exactly the given ids |
| Editing.Editor.RestoreWays | project/js/commands/DeleteObjectCommand.js:40-42 | the way map gets exactly the snapshot entries back, overriding same-id entries |
| Editing.Editor.AssignTags | project/js/commands/ModifyTagsCommand.js:24-30 | the live maps change as the value-level tag update prescribes |
| Editing.Editor.AssignPos | project/js/commands/MoveNodeCommand.js:22-28 | the live maps change as the value-level move prescribes |
| Editing.Editor.Perform | project/js/interfaces/ICommand.js:1-30 | in-place `execute()` of every command kind gives the value-level result, so the inverse laws proved for commands apply to the editor |
| Editing.Editor.Reverse | project/js/interfaces/ICommand.js:1-30 | in-place `undo()` of every command kind gives the value-level result |
| Editing.Editor.ExecuteCommand | project/js/OSMEditor.js:120-126 | the new data and stacks are the history model's execute, whose cap and undo laws are proved in UndoHistory |
| Editing.Editor.Undo | project/js/OSMEditor.js:128-136 | the new data and stacks are the history model's undo |
| Editing.Editor.Redo | project/js/OSMEditor.js:138-146 | the new data and stacks are the history model's redo |
| Editing.Editor.MoveSelectedNode | project/js/OSMEditor.js:528-529 | with a selected node that exists, the node moves by (dx, dy) and a MoveNode command holding the old and new positions is pushed without the cap while the redo stack is emptied; otherwise nothing changes |
| Editing.Editor.HandleSelect | project/js/OSMEditor.js:502-506 | the node hit is an existing node strictly within 15 px with none closer (none iff there is no such node); the way hit owns a segment strictly within 10 px with no segment closer (none iff there is no such way); the selection is then updated by the pick rules |
| Editing.Editor.SelectPicked | project/js/OSMEditor.js:503-505 | the selection changes as the pick rules above prescribe |
| Editing.Editor.StartBoxSelect | project/js/OSMEditor.js:510 | a box is open and anchored at the press point |
| Editing.Editor.FinishBoxSelect | project/js/OSMEditor.js:513-514 | with no open box nothing changes; otherwise the box closes, the picked ways are exactly the closed ways whose known nodes all lie in the box, and the selection is combined as above |
| Editing.Editor.SelectAllPolygons | project/js/OSMEditor.js:538 | the multi-selection is exactly the closed ways |
| Editing.Editor.ClearSelection | project/js/OSMEditor.js:540 | nothing is selected |
| Editing.Editor.AddNode | project/js/OSMEditor.js:516 | the id is one above the largest node id (1 when there are none) and the untagged node is added through `executeCommand` |
| Editing.Editor.HandleWayCreation | project/js/OSMEditor.js:518 | a node hit within 15 px (none closer) is appended to the way under construction unless already in it, with no history change; with no hit a new node at the (snapped when snapping is on) world point is added under the next id and appended; the list keeps listing distinct existing ids |
| Editing.Editor.FinishCreation | project/js/OSMEditor.js:524 | fewer than 2 ids change nothing; otherwise the built way is added under the next free way id through `executeCommand` and the list is emptied |
| Editing.Editor.CancelCreation | project/js/OSMEditor.js:526 | the way under construction is discarded |
| Editing.Editor.CollectAffected | project/js/OSMEditor.js:542 | the snapshot holds exactly the ways whose node lists include the node |
| Editing.Editor.DeleteSelectedNode | project/js/OSMEditor.js:542 | no selected node changes nothing; a missing one stops the deletion; otherwise a DeleteObject command holding the node and the snapshot of its ways is executed, the node is deselected, exactly the ways holding it are removed with it, no remaining way references it, and every remaining way is unchanged |
| Editing.Editor.DeleteSelectedWay | project/js/OSMEditor.js:543 | no selected way changes nothing; a missing one stops the deletion and changes nothing; otherwise a DeleteObject command holding the way and no way snapshots is run through `executeCommand`, exactly that way is removed and it is deselected; the nodes are untouched |
| Editing.Editor.DeleteWayIfPresent | project/js/OSMEditor.js:544 | an existing way is deleted by exactly one DeleteObject command holding its snapshot; a missing one issues no command and changes nothing |
| Editing.Editor.DeletePass | project/js/OSMEditor.js:544 | one turn of the multi-delete loop keeps its invariant: the commands issued are one snapshot per visited way that existed, run in order |
| Editing.Editor.DeleteEach | project/js/OSMEditor.js:544 | visiting every target, in whatever order the set yields, ends with that invariant for all targets |
| Editing.Editor.DeleteNext | project/js/OSMEditor.js:544 | each turn visits one more target and keeps the invariant |
| Editing.Editor.DeleteSelectedWays | project/js/OSMEditor.js:544 | with an empty multi-selection nothing happens; otherwise one DeleteObject command per selected way that still exists, each holding that way, run through `executeCommand`; exactly the selected ways are removed and the multi-selection is emptied |
| Editing.Editor.DeleteSelected | project/js/OSMEditor.js:542-545 | the history after deletion is the history model's execution of a list of DeleteObject commands, the first deleting the selected node with the snapshot of the ways holding it; a selected node that is missing ends the call with nothing changed, selected way and multi-selection included; otherwise the selected node is deselected and unreferenced, and from the ways the node part left (`WaysAfterNodePart`) the way parts end as `WayPartsOutcome` states: a selected way missing there (it may have gone with the node) ends the call and keeps the multi-selection; else the selected way and every multi-selected way are removed, the selected way is cleared and the multi-selection emptied; deletion never changes a remaining way |
| Editing.Editor.DeleteSelectedWayParts | project/js/OSMEditor.js:543-544 | the history after deletion is the execution of a list of way-deleting DeleteObject commands; a truthy selected way that is missing ends the call with nothing run and the multi-selection kept; otherwise the selected way and every multi-selected way are removed, the selected way is cleared and the multi-selection emptied (`WayPartsOutcome`); the nodes are untouched and no remaining way changes |
| Editing.Editor.ResetView | project/js/OSMEditor.js:553 | scale 100000, centre at the origin, no rotation |
| Editing.Editor.OnScroll | project/js/OSMEditor.js:686 | the scale is multiplied by the wheel factor and clamped into the current range |
| Editing.Editor.ZoomKey | project/js/OSMEditor.js:697-711 | '+' and '=' zoom in, '-' and '_' zoom out, with clamping; any other key keeps the scale |
| Editing.Editor.RotateView | project/js/OSMEditor.js:573 | the rotation becomes the JavaScript remainder of rotation + angle + 360 by 360 |
| Editing.Editor.FitToWindow | project/js/OSMEditor.js:555-571 | the new view is `Editing.FittedView` of the nodes and the old view; nothing else changes |
| Editing.FittedView | project/js/OSMEditor.js:555-571 | `fitToWindow`'s view: rotation and projection kept; no nodes keep the view; otherwise every node lies within half the node box's width and height of the new centre, and the new scale is within the zoom range |
| Editing.Editor.OnTileZoomChange | project/js/OSMEditor.js:421 | the tile zoom is the parsed value (the current zoom when it is not a number) clamped into 0..19; in Web Mercator the scale is the clamped scale for that zoom at the centre latitude, otherwise it is kept |
| Editing.MoveSelectedThenUndoRestores | project/js/OSMEditor.js:528-529 | undoing a node move puts the node back and leaves the undo stack as before the move |
| Editing.AddNodeThenUndo | project/js/OSMEditor.js:516 | an added node gets a free id, exactly that node is added, and undo restores both maps |
| Editing.DeleteNodeCascades | project/js/OSMEditor.js:542 | deleting a node removes it and every way that references it, keeps every other way, and undo restores both maps |
| Editing.DeletingWaysAddsOneEntryEach | project/js/OSMEditor.js:544 | deleting k selected ways grows an undo stack within the cap by k, up to the 50-entry cap |
| Editing.DeleteStep | project/js/OSMEditor.js:544 | one more visited way extends the run of commands by what it issued and the count of deleted ways by one exactly when it existed |
| Editing.SelectAllAgreesWithBoxAroundAll | project/js/OSMEditor.js:538 | selecting all polygons selects the same ways as a box around every node |
| Spatial.Dist2 | project/js/OSMEditor.js:502 | the squared canvas distance is never negative |
| Spatial.ClampedDist2 | project/js/OSMEditor.js:508 | the squared point-to-segment distance, with the projection clamped to the end points, is never negative |
| Spatial.SegmentDist2 | project/js/OSMEditor.js:508 | the squared distance from a point to a segment is never negative |
| Spatial.SegmentOf | project/js/OSMEditor.js:502 | a way has a segment i exactly when i and i+1 index its node list and both nodes exist; segments with a missing node are skipped |
| Spatial.FindClosestNode | project/js/OSMEditor.js:522 | no node is returned iff no node lies strictly within 15 px; otherwise it is an existing node within 15 px and no node is closer |
| Spatial.ScanWay | project/js/OSMEditor.js:502 | scanning one way keeps the best hit so far or replaces it with a strictly closer segment of this way within 10 px; no segment of the way is closer than the result |
| Spatial.FindClosestWay | project/js/OSMEditor.js:502 | no way is returned iff no segment of any way lies strictly within 10 px; otherwise the way owns a segment at the returned distance and no segment of any way is closer |
| Spatial.CloserCarries | project/js/OSMEditor.js:502 | a "nothing closer" bound over the ways already scanned still holds after the best distance shrinks |
| Spatial.InBoxSymmetric | project/js/OSMEditor.js:513 | the selection box does not depend on which corner the drag started from |
| Spatial.UnresolvedPolygonIsPicked | project/js/OSMEditor.js:513 | unknown node ids are skipped, so a closed way with no known node is picked by any box |
| Spatial.BoxPickedWays | project/js/OSMEditor.js:513 | the picked set is exactly the closed ways whose known nodes all lie in the box |
| Spatial.BoxAroundEverythingPicksPolygons | project/js/OSMEditor.js:513 | a box containing every node picks exactly the closed ways |
| View.ClampScale | project/js/OSMEditor.js:427-439 | the result is in the current range: in-range scales are kept, smaller ones become the minimum, larger ones the maximum |
| View.ClampIdempotent | project/js/OSMEditor.js:427-439 | clamping twice is clamping once |
| View.ClampMonotone | project/js/OSMEditor.js:427-439 | clamping preserves the order of two scales |
| View.ScrollFactor | project/js/OSMEditor.js:686 | scrolling down zooms out and scrolling up zooms in |
| View.KeyZoomFactor | project/js/OSMEditor.js:697-711 | '+' and '=' zoom in, '-' and '_' zoom out, and every other key has factor 1 |
| View.ZoomInNotLower | project/js/OSMEditor.js:697-704 | a zoom-in never lowers an in-range scale |
| View.ZoomOutNotHigher | project/js/OSMEditor.js:705-711 | a zoom-out never raises an in-range scale |
| View.Zoom | project/js/OSMEditor.js:697-711 | the zoomed scale is within the zoom range, and equals scale times factor when that is in range |
| View.Trunc | project/js/OSMEditor.js:573 | truncation toward zero is within 1 of the number, on the side of zero |
| View.RotateView | project/js/OSMEditor.js:573 | the new rotation differs from rotation + angle + 360 by a whole number of turns and takes the dividend's sign: in [0, 360) for a non-negative dividend, in (-360, 0] otherwise |
| View.RotationStaysInRange | project/js/OSMEditor.js:573 | a rotation in [0, 360) stays there for any angle of at least -360 |
| View.FitScale | project/js/OSMEditor.js:562-569 | the fitted scale is always in the current range |
| View.FitScaleFixedPoint | project/js/OSMEditor.js:562-569 | a box that already fills the canvas less the 40 px margin along its tighter axis keeps an in-range scale |
| View.FitCentreCoversNodes | project/js/OSMEditor.js:556-561 | every node is within half the box extent of the new centre on each axis |
| OsmXml.Without | project/js/OSMEditor.js:634 | the keys written for a node never include `modified` and are all keys of the node |
| OsmXml.WithoutSpec | project/js/OSMEditor.js:634 | exactly the keys other than `modified` are written, and a list of distinct keys stays distinct |
| OsmXml.Pairs | project/js/OSMEditor.js:634 | one tag child per listed key, in order, holding that key's value |
| OsmXml.NodeElemOf | project/js/OSMEditor.js:634 | a node element carries the node's id and position, and only tags of the node other than `modified` with their values |
| OsmXml.WayElemOf | project/js/OSMEditor.js:634 | a way element carries the way's id and every ref in order, and only tags of the way with their values |
| OsmXml.ExportNodes | project/js/OSMEditor.js:634 | one node element per node, the i-th being the element of the i-th node in the iteration order |
| OsmXml.ExportWays | project/js/OSMEditor.js:634 | one way element per way in the iteration order, each with the way's refs in order, and each exactly the element of that way with all its tags (`WayElemOf`) |
| OsmXml.WriteTags | project/js/OSMEditor.js:634 | the tag loop of a way writes one tag line per key, in order |
| OsmXml.WriteNodeTags | project/js/OSMEditor.js:634 | the tag loop of a node writes one tag line per key other than `modified`, in order |
| OsmXml.WriteRefs | project/js/OSMEditor.js:634 | the ref loop writes one `nd` line per ref, in order |
| OsmXml.WriteNode | project/js/OSMEditor.js:634 | one pass of the node loop writes the text of that node's element |
| OsmXml.WriteWay | project/js/OSMEditor.js:634 | one pass of the way loop writes the text of that way's element |
| OsmXml.WriteNodes | project/js/OSMEditor.js:634 | the node loop writes the elements of every node, in iteration order |
| OsmXml.WriteWays | project/js/OSMEditor.js:634 | the way loop writes the elements of every way, in iteration order |
| OsmXml.GenerateOSMXML | project/js/OSMEditor.js:634 | the document is the header, every node element, every way element and the closing tag |
| OsmXml.KnownRefs | project/js/OSMEditor.js:630 | every ref kept on load names a loaded node, and none is invented |
| OsmXml.LoadOSMData | project/js/OSMEditor.js:630 | both maps are rebuilt from the elements alone: nodes with later duplicates overwriting, then ways against the loaded nodes |
| OsmXml.ReadTags | project/js/OSMEditor.js:630 | the tag children become a tag object, a later duplicate key overwriting |
| OsmXml.TagsOf | project/js/OSMEditor.js:630 | the last `<tag>` child sets its key's value |
| OsmXml.TagsOfKeys | project/js/OSMEditor.js:630 | the loaded tag keys are exactly the keys of the `<tag>` children |
| OsmXml.TagsOfLastWins | project/js/OSMEditor.js:630 | each key holds the value of its last `<tag>` child: a later duplicate overwrites an earlier one |
| OsmXml.LoadedNodes | project/js/OSMEditor.js:630 | at most one node per element; the last element is stored under its id with its position and tags |
| OsmXml.LoadedWays | project/js/OSMEditor.js:630 | at most one way per element; the last element is stored exactly when it has a known ref or an earlier way had its id, and with a known ref it holds the known refs and its tags |
| OsmXml.ImportOSM | project/js/OSMEditor.js:628 | importing loads the document, leaves both command stacks empty, and the view becomes `Editing.FittedView` of the new nodes: rotation and projection kept, unchanged with no nodes, otherwise centred so every node lies within half the node box of the centre, with the scale in range |
| OsmXml.LoadedWaysAreResolved | project/js/OSMEditor.js:630 | every loaded way has at least one ref, and every ref names a loaded node |
| OsmXml.KnownRefsFilter | project/js/OSMEditor.js:630 | the refs kept are exactly those naming a node, and all refs are kept when all name nodes |
| OsmXml.TagsOfPairs | project/js/OSMEditor.js:630-634 | reading back the tag children of some keys gives the tags restricted to those keys |
| OsmXml.StripModified | project/js/OSMEditor.js:634 | the same node ids and positions, with no `modified` tag |
| OsmXml.NodeTagsRoundTrip | project/js/OSMEditor.js:630-634 | written node tags read back as the node's tags minus `modified` |
| OsmXml.StrippedPairs | project/js/OSMEditor.js:630-634 | the same for any listing of a tag object's keys |
| OsmXml.WayTagsRoundTrip | project/js/OSMEditor.js:630-634 | written way tags read back as the way's tags |
| OsmXml.NodesRoundTripPrefix | project/js/OSMEditor.js:630-634 | loading the elements of the first nodes of an order gives those nodes without `modified` |
| OsmXml.LoadOneWay | project/js/OSMEditor.js:630-634 | loading a written way whose refs all exist gives back its refs and tags |
| OsmXml.WaysRoundTripPrefix | project/js/OSMEditor.js:630-634 | loading the elements of the first ways of an order gives those ways, when each has a ref and every ref exists |
| OsmXml.ExportThenLoadNodes | project/js/OSMEditor.js:630-634 | over the node elements the writer emits, loading gives back every node without its `modified` tag |
| OsmXml.ExportThenLoadWays | project/js/OSMEditor.js:630-634 | over the way elements the writer emits, loading gives back every way, when each has a ref and every ref names a node |
| OsmXml.ExportThenLoad | project/js/OSMEditor.js:630-634 | over the element values the writer emits, loading restores both maps up to node `modified` tags, whenever every way has a ref and every ref names a node |
| OsmXml.ExportKeepsAllButModified | project/js/OSMEditor.js:634 | no written node tag is `modified`, and every way's refs are written in order |
| CoordinateImport.NonBlankLines | project/js/ui/CoordinateImportDialog.js:172 | only lines that are not blank are kept, each one of the input lines |
| CoordinateImport.TrimAll | project/js/ui/CoordinateImportDialog.js:176 | each piece is trimmed, none dropped |
| CoordinateImport.NonEmptyPieces | project/js/ui/CoordinateImportDialog.js:176 | only non-empty pieces are kept, each one of the input pieces |
| CoordinateImport.Reader | project/js/ui/CoordinateImportDialog.js:173-183 | each line is read on its own: its first two fields, when both are numbers |
| CoordinateImport.Collect | project/js/ui/CoordinateImportDialog.js:175-184 | at most one point per line; when every line reads, the i-th point is the i-th line's reading |
| CoordinateImport.ReadLines | project/js/ui/CoordinateImportDialog.js:175-184 | the loop yields the points of the lines, in line order, skipping lines without one |
| CoordinateImport.ReadLine | project/js/ui/CoordinateImportDialog.js:176-183 | the loop body yields exactly the line's point, or nothing |
| CoordinateImport.CollectAppend | project/js/ui/CoordinateImportDialog.js:175-184 | line order is kept: two blocks of lines yield the first block's points, then the second's |
| CoordinateImport.CollectOne | project/js/ui/CoordinateImportDialog.js:177-183 | one line yields its point, or nothing |
| CoordinateImport.CsvFieldsClean | project/js/ui/CoordinateImportDialog.js:173-176 | a comma-separated field is never empty, has no comma and no white space at either end |
| CoordinateImport.TrimmedPieceClean | project/js/ui/CoordinateImportDialog.js:176 | a trimmed CSV field holds no comma and trimming it again changes nothing |
| CoordinateImport.ToDegrees | project/js/ui/CoordinateImportDialog.js:194-198 | one converted point per point, each the metre offset converted around the reference point |
| CoordinateImport.ParseCoordinates | project/js/ui/CoordinateImportDialog.js:153-203 | the result is the parse rule for the form: blank input first, then JSON or lines, then the coordinate-type conversion |
| CoordinateImport.RawPoints | project/js/ui/CoordinateImportDialog.js:153-184 | blank input gives no points; the read fails exactly for non-blank JSON input that is not an array, with `JSON格式错误: ` followed by `JSON.parse`'s message, or by `JSON必须是数组` for valid JSON that is not an array; an array gives its points |
| CoordinateImport.ParsedPoints | project/js/ui/CoordinateImportDialog.js:153-203 | fails exactly when the read fails or non-blank metre input has an unreadable reference point; otherwise the conversion keeps the number of points |
| CoordinateImport.BlankInputGivesNoPoints | project/js/ui/CoordinateImportDialog.js:154-158 | blank or white-space-only input parses to no points, whatever the other fields say |
| CoordinateImport.ParseFailures | project/js/ui/CoordinateImportDialog.js:163-193 | JSON that is not an array fails with the prefixed JSON error message, metre mode with a non-numeric reference point fails, and line formats never fail to read |
| CoordinateImport.ToDegreesConvertsBack | project/js/ui/CoordinateImportDialog.js:205-216 | each converted point, taken back to metres around the same reference point, is the typed offset |
| CoordinateImport.ParsedByMode | project/js/ui/CoordinateImportDialog.js:188-202 | metre input is converted around the typed reference point, scene input around the scene origin, and any other type is kept as degrees |
| CoordinateImport.Run | project/js/ui/CoordinateImportDialog.js:237-242 | n consecutive ids from the start id |
| CoordinateImport.RunSnoc | project/js/ui/CoordinateImportDialog.js:237-242 | one more point extends the id run by the next id |
| CoordinateImport.Untagged | project/js/ui/CoordinateImportDialog.js:240 | one untagged node per point, at that point |
| CoordinateImport.NewNodes | project/js/ui/CoordinateImportDialog.js:237-242 | the new ids are exactly start .. start + n - 1, each holding its point's untagged node |
| CoordinateImport.AddNodes | project/js/ui/CoordinateImportDialog.js:237-242 | the node loop adds one untagged node per point under consecutive ids from the next free id, and returns them in point order |
| CoordinateImport.NumberPoints | project/js/ui/CoordinateImportDialog.js:237-242 | the same loop on the node map as a value |
| CoordinateImport.NewNodesAreFresh | project/js/ui/CoordinateImportDialog.js:239 | no existing node is overwritten, and the node count grows by the number of points |
| CoordinateImport.ImportedWayRules | project/js/ui/CoordinateImportDialog.js:244-266 | auto-closing at least 3 new ids gives a closed way tagged `area=yes`; otherwise the ids as they are and no `area`; `building` and `name` are set, trimmed, exactly when not blank, and there are no other tags |
| CoordinateImport.ImportedWay | project/js/ui/CoordinateImportDialog.js:244-266 | the way holds the new node ids in order, plus at most one closing node, and only `building`, `name` or `area` tags |
| CoordinateImport.AddWay | project/js/ui/CoordinateImportDialog.js:252-266 | the way goes in under one above the largest way id (1 when there are none), a free id, and no other way changes |
| CoordinateImport.AddNodesAndWay | project/js/ui/CoordinateImportDialog.js:237-266 | the new nodes and the way over them, nothing else in the maps changes |
| CoordinateImport.AddPoints | project/js/ui/CoordinateImportDialog.js:227-274 | after the optional clear, the nodes and the way are added, both command stacks are empty, the selection is kept unless cleared, and the view becomes `Editing.FittedView` of the new nodes: rotation and projection kept, unchanged with no nodes, otherwise centred so every node lies within half the node box of the centre, with the scale in range |
| CoordinateImport.FitAndResetHistory | project/js/ui/CoordinateImportDialog.js:269-274 | both command stacks are empty, the data is untouched, and the view becomes `Editing.FittedView` of the new nodes: rotation and projection kept, unchanged with no nodes, otherwise centred so every node lies within half the node box of the centre, with the scale in range |
| CoordinateImport.ClearData | project/js/ui/CoordinateImportDialog.js:228-234 | no nodes, no ways, nothing selected |
| CoordinateImport.Import | project/js/ui/CoordinateImportDialog.js:218-284 | a parse error or fewer than 2 points change nothing and report why; otherwise the new node ids and way id are reported, the maps become the (optionally cleared) maps plus the new nodes and way, both stacks are empty, and the view becomes `Editing.FittedView` of the new nodes: rotation and projection kept, unchanged with no nodes, otherwise centred so every node lies within half the node box of the centre, with the scale in range |
| ExportCoordinates.ExtractPoints | project/js/ui/ExportCoordinatesDialog.js:41-44 | at most one point per id, ids without a node dropped |
| ExportCoordinates.ExtractAppend | project/js/ui/ExportCoordinatesDialog.js:41-44 | the points of a concatenation of ids are the points of each part, in order |
| ExportCoordinates.ExtractedPointsAreNodes | project/js/ui/ExportCoordinatesDialog.js:41-44 | every point is a node of the way with that node's position, and there are none exactly when no id has a node |
| ExportCoordinates.ExtractAllPresent | project/js/ui/ExportCoordinatesDialog.js:41-44 | when every id has a node, the i-th point is the i-th id's node |
| ExportCoordinates.OpenRules | project/js/ui/ExportCoordinatesDialog.js:6-55 | a truthy selected way is the one exported, else the single member of the multi-selection; an opened dialog holds an existing way and at least one point read off its nodes, and an alert leaves no points |
| ExportCoordinates.OpenDialog | project/js/ui/ExportCoordinatesDialog.js:6-55 | without an alert a selected way exists and the exported points are its nodes' points, not empty; with an alert there are no points |
| ExportCoordinates.SkipLast | project/js/ui/ExportCoordinatesDialog.js:195-201 | the last point is dropped exactly when asked, with at least two points whose first and last positions agree; otherwise the points are kept |
| ExportCoordinates.ClosedWayExportsOpenPoints | project/js/ui/ExportCoordinatesDialog.js:195-201 | exporting a way an import auto-closed, skipping the last point, gives the points of the ids before closing |
| ExportCoordinates.Decimals | project/js/ui/ExportCoordinatesDialog.js:190 | 8 decimals exactly in high precision, else 2 |
| ExportCoordinates.RoundAll | project/js/ui/ExportCoordinatesDialog.js:203-226 | one pair per input pair, each of its coordinates rounded to the given decimals |
| ExportCoordinates.LonLats | project/js/ui/ExportCoordinatesDialog.js:220-226 | the i-th pair is the i-th point's longitude and latitude |
| ExportCoordinates.ToMeters | project/js/ui/ExportCoordinatesDialog.js:203-219 | the i-th pair is the i-th point's metre offset from the reference, by `Coordinates.LonLatToMeters` |
| ExportCoordinates.Lines | project/js/ui/ExportCoordinatesDialog.js:242-248 | the table rows of a non-empty list end with a line break |
| ExportCoordinates.Formatted | project/js/ui/ExportCoordinatesDialog.js:229-253 | JSON output is the JSON text of the coordinates; CSV, space and default output of no coordinates is empty; a table is never empty and ends with a line break |
| ExportCoordinates.ConvertCoordinates | project/js/ui/ExportCoordinatesDialog.js:186-227 | the conversion fails, with the source's message, exactly in metre mode without both reference numbers; otherwise one pair per point kept by the skip rule |
| ExportCoordinates.MetreExportReadsBack | project/js/ui/ExportCoordinatesDialog.js:203-219 | points placed from metre offsets around a reference point export, around the same point, as those offsets rounded |
| ExportCoordinates.DegreeExportIsPositions | project/js/ui/ExportCoordinatesDialog.js:195-226 | in degree mode the points of an auto-closed way export, skipping the last, as the rounded positions of its original ids |
| ExportCoordinates.TableLines | project/js/ui/ExportCoordinatesDialog.js:242-248 | two header lines and one row per point |
| ExportCoordinates.LinesSnoc | project/js/ui/ExportCoordinatesDialog.js:242-248 | one more table row adds one more line ended by a break |
| ExportCoordinates.FormatCoordinates | project/js/ui/ExportCoordinatesDialog.js:229-253 | the text is the chosen format: csv for an unknown format, space lines, the table built row by row, or the JSON text |
| ExportCoordinates.SplitJoin | project/js/ui/ExportCoordinatesDialog.js:229-253 | joining break-free lines with breaks and splitting again gives the lines back |
| ExportCoordinates.SplitLines | project/js/ui/ExportCoordinatesDialog.js:242-248 | break-terminated lines split into those lines and one final empty piece |
| ExportCoordinates.NoBreakInNumber | project/js/ui/ExportCoordinatesDialog.js:246 | a row number is written without a line break |
| ExportCoordinates.CsvReadsBack | project/js/ui/ExportCoordinatesDialog.js:234 | csv text splits at line breaks into exactly one "x, y" line per point |
| ExportCoordinates.SpaceReadsBack | project/js/ui/ExportCoordinatesDialog.js:239-240 | space-separated text splits at line breaks into exactly one "x y" line per point |
| ExportCoordinates.TableReadsBack | project/js/ui/ExportCoordinatesDialog.js:242-248 | the table splits into the two header lines, one row per point numbered from 1, and a final empty piece |
| ExportCoordinates.Extension | project/js/ui/ExportCoordinatesDialog.js:287-289 | json and csv keep their names as extension, every other format gives txt |
| ExportCoordinates.FileName | project/js/ui/ExportCoordinatesDialog.js:292-293 | the name starts `coordinates_meters_` or `coordinates_lonlat_` and ends with the format's extension |
| ExportCoordinates.ExportCoordinatesDialog.constructor | project/js/ui/ExportCoordinatesDialog.js:6-55 | the dialog holds the chosen way and its points, and is shown exactly when no alert stopped it |
| ExportCoordinates.ExportCoordinatesDialog.UpdatePreview | project/js/ui/ExportCoordinatesDialog.js:255-263 | the preview is the formatted conversion, or the conversion's error message after the error prefix |
| ManualCoordinate.SpliceOne | project/js/ui/ManualCoordinateDialog.js:233-234 | `splice(index, 1)` removes one point for an index inside the list or below it (counted from the end, clamped at the start) and none past the end |
| ManualCoordinate.SpliceOneRemovesIndex | project/js/ui/ManualCoordinateDialog.js:233-234 | removing the i-th point keeps the others in order, a negative index removes from the end, and an index past the end changes nothing |
| ManualCoordinate.ButtonsFor | project/js/ui/ManualCoordinateDialog.js:192-226 | undo and clear are enabled exactly when there is a point, create exactly from two points on |
| ManualCoordinate.ConvertToLonLat | project/js/ui/ManualCoordinateDialog.js:288-310 | degree points are returned unchanged; otherwise one converted point per point; it fails, with the reference-point message, exactly for a non-degree type without both reference numbers |
| ManualCoordinate.ConvertedPointsReadBack | project/js/ui/ManualCoordinateDialog.js:302-308 | in metre mode each converted point, taken back to metres around the reference point, is the point as typed |
| ManualCoordinate.RingPrefixIsPath | project/js/ui/ManualCoordinateDialog.js:258-270 | the perimeter loop and the path loop agree on every leg but the closing one |
| ManualCoordinate.PathLengthPrefix | project/js/ui/ManualCoordinateDialog.js:268-270 | adding points at the end does not change the length of the earlier legs |
| ManualCoordinate.PerimeterIsClosedPathLength | project/js/ui/ManualCoordinateDialog.js:256-262 | the perimeter shown is the path through all points back to the first: the open path plus the closing leg |
| ManualCoordinate.PathLengthGrows | project/js/ui/ManualCoordinateDialog.js:266-270 | with non-negative leg lengths the length never shrinks as legs are added |
| ManualCoordinate.Perimeter | project/js/ui/ManualCoordinateDialog.js:256-262 | the polygon loop sums every leg of the ring through all points |
| ManualCoordinate.TotalLength | project/js/ui/ManualCoordinateDialog.js:266-270 | the path loop sums the legs between consecutive points, none for fewer than two |
| ManualCoordinate.PreviewOf | project/js/ui/ManualCoordinateDialog.js:239-276 | the preview is hidden exactly below two points; when shown it counts every point and is a polygon exactly when auto-closing at least three |
| ManualCoordinate.PolygonPreviewIsClosedWay | project/js/ui/ManualCoordinateDialog.js:249-262 | the polygon preview reports the length of the closed way "create" builds over the converted points |
| ManualCoordinate.ManualCoordinateDialog.constructor | project/js/ui/ManualCoordinateDialog.js:6-10 | a new dialog has no points |
| ManualCoordinate.ManualCoordinateDialog.AddPoint | project/js/ui/ManualCoordinateDialog.js:125-141 | a point is appended exactly when both inputs are numbers; otherwise the list is kept |
| ManualCoordinate.ManualCoordinateDialog.UndoPoint | project/js/ui/ManualCoordinateDialog.js:159-165 | the last point is dropped, if any |
| ManualCoordinate.ManualCoordinateDialog.ClearPoints | project/js/ui/ManualCoordinateDialog.js:168-174 | the list is emptied exactly when confirmed |
| ManualCoordinate.ManualCoordinateDialog.RemovePoint | project/js/ui/ManualCoordinateDialog.js:233-237 | the list loses the point `splice(index, 1)` names |
| ManualCoordinate.ManualCoordinateDialog.UpdateButtons | project/js/ui/ManualCoordinateDialog.js:183-231 | the button states follow the rule above for the current list |
| ManualCoordinate.ManualCoordinateDialog.UpdatePreview | project/js/ui/ManualCoordinateDialog.js:239-276 | the preview follows the rule above for the current list |
| ManualCoordinate.ManualCoordinateDialog.CreateWay | project/js/ui/ManualCoordinateDialog.js:312-372 | fewer than 2 points or a failed conversion change nothing and report why; otherwise the import's nodes and way are added over the converted points, the new way becomes the selected way and the only multi-selected way, and the view becomes `Editing.FittedView` of the new nodes: rotation and projection kept, unchanged with no nodes, otherwise centred so every node lies within half the node box of the centre, with the scale in range |
| ManualCoordinate.ManualCoordinateDialog.FocusWay | project/js/ui/ManualCoordinateDialog.js:355-363 | the way becomes the selected way and the only multi-selected way, the node selection is kept, and the view becomes `Editing.FittedView` of the new nodes: rotation and projection kept, unchanged with no nodes, otherwise centred so every node lies within half the node box of the centre, with the scale in range |
| TranslateCoordinates.CalculateOffset | project/js/ui/TranslateCoordinatesDialog.js:162-207 | offset mode fails exactly when both metre fields are zero or not numbers; reference mode fails exactly when one of the four coordinates is not a number, and otherwise moves the old reference point onto the new one |
| TranslateCoordinates.OffsetIsTypedMetres | project/js/ui/TranslateCoordinatesDialog.js:165-183 | in offset mode a point on the view centre's latitude, moved by the offset, lies the typed metres east and north of where it was |
| TranslateCoordinates.Moved | project/js/ui/TranslateCoordinatesDialog.js:284-287 | every node keeps its id |
| TranslateCoordinates.MoveBack | project/js/ui/TranslateCoordinatesDialog.js:284-287 | moving back by the opposite offset restores every node |
| TranslateCoordinates.MoveAll | project/js/ui/TranslateCoordinatesDialog.js:284-287 | the in-place loop moves every node by the offset, keeping ids and tags |
| TranslateCoordinates.MinShift | project/js/ui/TranslateCoordinatesDialog.js:150-153 | the smallest coordinate moves by the offset |
| TranslateCoordinates.MaxShift | project/js/ui/TranslateCoordinatesDialog.js:150-153 | the largest coordinate moves by the offset |
| TranslateCoordinates.MovedCoordinates | project/js/ui/TranslateCoordinatesDialog.js:147-148 | the longitudes and latitudes of the moved data are the old ones moved by the offset |
| TranslateCoordinates.MovedBounds | project/js/ui/TranslateCoordinatesDialog.js:144-160 | the bounding box of the moved data is the old box moved by the offset |
| TranslateCoordinates.PreviewTranslate | project/js/ui/TranslateCoordinatesDialog.js:209-231 | a preview is shown exactly when the offset is valid and there is data |
| TranslateCoordinates.PreviewCentreIsMovedCentre | project/js/ui/TranslateCoordinatesDialog.js:215-217 | the announced new centre is the centre of the data once moved |
| TranslateCoordinates.CopiedNodes | project/js/ui/TranslateCoordinatesDialog.js:254-262 | the i-th copy is the i-th visited node moved by the offset, tags kept |
| TranslateCoordinates.IdMapSpec | project/js/ui/TranslateCoordinatesDialog.js:254-256 | every visited node id is mapped, the i-th one to the first free id plus i |
| TranslateCoordinates.Remap | project/js/ui/TranslateCoordinatesDialog.js:269 | each ref with a copy is replaced by its copy's id, position by position |
| TranslateCoordinates.CopiedWays | project/js/ui/TranslateCoordinatesDialog.js:266-272 | the i-th copy is the i-th visited way with its tags and its node list remapped to the copies |
| TranslateCoordinates.Copied | project/js/ui/TranslateCoordinatesDialog.js:251-280 | the originals are kept, and one fresh node and one fresh way are added per visited original |
| TranslateCoordinates.TranslatedStore | project/js/ui/TranslateCoordinatesDialog.js:251-288 | moving in place keeps the node ids and the ways; copying keeps every original node and way |
| TranslateCoordinates.CopyNodes | project/js/ui/TranslateCoordinatesDialog.js:253-262 | the node loop numbers the moved copies from the next free id in visiting order and records each id's copy |
| TranslateCoordinates.CopyWays | project/js/ui/TranslateCoordinatesDialog.js:265-272 | the way loop numbers the re-pointed copies from the next free way id in visiting order |
| TranslateCoordinates.CopyDoubles | project/js/ui/TranslateCoordinatesDialog.js:251-280 | copying keeps every original node and way as it was and exactly doubles both counts |
| TranslateCoordinates.OrderLength | project/js/ui/TranslateCoordinatesDialog.js:254 | a visiting order is as long as the key set it lists |
| TranslateCoordinates.CopiedWaysUseCopiedNodes | project/js/ui/TranslateCoordinatesDialog.js:253-280 | each copied way has the original's tags and refers, at each position, to the copy of the original's node, which is that node moved by the offset |
| TranslateCoordinates.CopiedWayAt | project/js/ui/TranslateCoordinatesDialog.js:266-279 | the i-th visited way's copy sits at the next free way id plus i |
| TranslateCoordinates.CopiedNodeAt | project/js/ui/TranslateCoordinatesDialog.js:254-277 | the k-th visited node's copy sits at the next free node id plus k, moved by the offset |
| TranslateCoordinates.ApplyTranslate | project/js/ui/TranslateCoordinatesDialog.js:233-306 | no data, a bad offset or a cancel change nothing and report why; otherwise the data is copied or moved in place, the node count is reported, both command stacks are empty, and the view becomes `Editing.FittedView` of the new nodes: rotation and projection kept, unchanged with no nodes, otherwise centred so every node lies within half the node box of the centre, with the scale in range |

## Left out

- Canvas rendering (`redraw`, the grid, compass, 2D and 3D drawing, labels, the box and measurement overlays) and tile image loading and caching: pixel output and network I/O with nothing to state. Of `drawSource` only the tile index arithmetic and the loop bound are modelled.
- DOM and event plumbing: `bindEvents`, the mouse handlers, `updateBoxSelect`, the `update*Info` and `update*Status` label writers, every `createDialog` and `innerHTML` builder, and `Dialog.js`. Of `onKey` only the zoom keys are modelled (`ZoomKey`); its other keys call operations that are modelled on their own.
- `alert`, `prompt` and `confirm`: their answers are parameters and their messages are not modelled, except where an outcome value reports which branch was taken.
- Floating point: coordinates, scales and distances are reals, so there is no rounding, overflow, NaN or Infinity. A number field that does not parse is `None`.
- Ids: node and way ids are unbounded integers. JavaScript numbers lose integer precision above 2^53, which the model does not reproduce.
- Trigonometry and browser formatting are parameters: the rotation inside `worldToCanvas`/`canvasToWorld`, `computeScaleForTileZoom`, `snapToGrid`, `calculateDistance`, `lat2tileY`/`tileY2lat`, `Math.cos`, `Math.hypot`, `toFixed`, `String(number)` and `parseFloat`.
- The Web-Mercator conversion (`geographicToMercator`/`mercatorToGeographic`) is not part of this model: no file of the repository defines it.
- File I/O: the file chooser and `FileReader` of `importOSM`, the Blob download of `exportOSM` and `downloadFile`, and clipboard copy.
- XML text parsing: `loadOSMData` is modelled from its parsed node and way elements. `DOMParser`, attribute reading and the relation map are not modelled, and the escaping of text in attributes is not modelled (see `OsmXml.ExportThenLoad` below).
- `JSON.parse` in the import dialog is a parameter that gives an array of `[x, y]` pairs, a valid value that is not an array, or a syntax error with its message. JSON arrays whose elements are not pairs of numbers are not modelled.
- Map and set iteration orders are parameters (node and way export order, the order of the multi-selection delete, the copy order of a translation). Every property holds for any order that lists each key once.
- The measurement tools, `clearData`, `setSceneOrigin`'s prompts (the origin update itself is `Coordinates.CoordinateSystem.SetSceneOrigin`), `MapCalibrationDialog.js` and `ThreedSettingsDialog.js`: form and prompt UI around modelled operations.
- The first `onCoordSystemChange` of `OSMEditor.js` is dead code, overridden by the second. Coordinate-system switching is not modelled beyond the coordinate type the view rules read.
- Spatial.SegmentDist2: only non-negativity is proved. The bound by the distance to the nearer end point is not proved, because it needs non-linear real arithmetic.
- Spatial.FindClosestNode: compares squared distances with the squared radius. Over reals this orders candidates exactly as `Math.hypot` does.
- CoordinateImport.ParseCoordinates: requires a cosine that is never zero. In double precision the cosine of ±90° is about 6.1e-17, not 0, so the source gets a very large finite value there; the model takes the cosine as a parameter and asks that it never be 0, as the double-precision cosine never is. The same requirement is on `CoordinateImport.Import`, `CoordinateImport.ParsedByMode`, `CoordinateImport.ParseFailures`, `CoordinateImport.BlankInputGivesNoPoints`, `ManualCoordinate.ConvertToLonLat`, `ManualCoordinate.PreviewOf`, `ManualCoordinate.ManualCoordinateDialog.UpdatePreview`, `ManualCoordinate.ManualCoordinateDialog.CreateWay`, `TranslateCoordinates.CalculateOffset` and `TranslateCoordinates.ApplyTranslate`.
- ManualCoordinate.PreviewOf: a failed conversion leaves the preview unchanged. In the source, `updatePreview` lets the conversion's exception escape.
- TranslateCoordinates.Remap: a way reference to a node that does not exist keeps its old id in the copy. In the source, `nodeIdMap.get` yields `undefined` there.
- BuildingEditors.TagAllUndoes: proved from an empty undo stack with at most 50 target ways, where no entry is dropped by the cap.
- TagEditor.TagEditorDialog.EditTag: the key selected in the list (`getSelectedKey`) is a parameter.
- Editing.Editor.OnTileZoomChange: `parseInt` of the input field is a parameter (`None` for NaN). The early return when the input element is missing is DOM plumbing.
- Editing.Editor.FitToWindow: the canvas size and `worldToCanvas` are parameters. The new scale is stated through `View.FitScale`, and the centre through `View.FitCentreCoversNodes`.
- OsmXml.ExportThenLoad: the round trip is proved over the node and way element values the writer emits and the reader parses, not over the XML text. The source writes positions with `toFixed(7)`, so a position with more than 7 decimals comes back rounded. It writes tag keys and values without escaping `&`, `<` and `"`, so such text can give a document `DOMParser` rejects or reads differently; the parser itself decodes entities.
- OsmXml.ExportThenLoadNodes: the same element-level round trip as `OsmXml.ExportThenLoad`; `toFixed(7)` rounding and unescaped tag text are not modelled.
- OsmXml.ExportThenLoadWays: the same element-level round trip as `OsmXml.ExportThenLoad`; unescaped tag text is not modelled.
- Text.ToLower: lower-cases only A-Z. JavaScript's `toLowerCase` is Unicode-aware: KELVIN SIGN (U+212A) becomes `k`, for example.
- Styles.EnsureHexColor: built on `Text.ToLower`, so colour names are looked up after ASCII lower-casing only. In the source `"BLAC\u212A"` finds `black` and gives `#000000`; in the model it gives the default. The source's `names[lc]` also finds keys inherited from `Object.prototype` (`constructor`, `toString`, ...) and returns a function for them; the model's name table holds only the listed names.
- Styles.EnsureHexColorValid: the same ASCII lower-casing as `Styles.EnsureHexColor`. Also, the source's `names[lc]` is a plain-object lookup, so a key inherited from `Object.prototype` (`constructor`, `toString`, ...) is found and returns a function rather than a colour; the model's name table holds only the listed names.
- Styles.BuildingHeightPriority: the source's `defaults[tags.building]` is a plain-object lookup, so a `building` value such as `constructor` or `toString` finds an inherited function, which is truthy and is returned as the height; the model's default table holds only the listed types.
- Styles.BuildingHeight: the same inherited-key lookup as `Styles.BuildingHeightPriority` is not modelled.
- OsmXml.TagsOf: tags are a map. In the source they are a plain object, where a `<tag k="__proto__">` is not stored as a tag and inherited keys such as `constructor` read as present; the model treats every key alike. The same holds for `OsmXml.LoadOSMData` and for the tag objects edited by `TagEditor.TagEditorDialog`.
