/**
 * The two settings objects the editor owns (GridSettings and ThreeDSettings)
 * and the grid control panel's `apply`, which writes the grid settings from
 * the panel's input fields.
 */
module Settings {
  import opened Wrappers

  /** Every field of a GridSettings object, as a value. */
  datatype GridState = GridState(
    originX: real, originY: real, gridSizeMeters: real,
    showGrid: bool, gridColor: string, axisColor: string,
    showCoordinates: bool, snapToGrid: bool)

  /** The constructor's values. */
  const DefaultGrid := GridState(0.0, 0.0, 100.0, true, "lightgray", "red", true, false)

  /** `resetToOrigin()`: the origin back to (0, 0). */
  function ResetToOriginSpec(s: GridState): (r: GridState)
    ensures r.originX == 0.0 && r.originY == 0.0
    ensures r.(originX := s.originX, originY := s.originY) == s
  {
    s.(originX := 0.0, originY := 0.0)
  }

  /** Resetting the origin twice is resetting it once. */
  lemma ResetToOriginIdempotent(s: GridState)
    ensures ResetToOriginSpec(ResetToOriginSpec(s)) == ResetToOriginSpec(s)
  {
  }

  /** The status text shown while the grid is hidden. */
  const GridOffText: string := "网格: 关闭"

  /**
   * `getStatusDescription()`: the "closed" text when the grid is hidden,
   * otherwise the size in metres (written by `sizeText`, JavaScript's number
   * formatting) and an on/off mark for snapping.
   */
  function StatusDescription(s: GridState, sizeText: real -> string): (r: string)
    ensures r == GridOffText <==> !s.showGrid
  {
    if s.showGrid then "网格: " + sizeText(s.gridSizeMeters) + "m, 对齐: " + (if s.snapToGrid then "开" else "关")
    else GridOffText
  }

  /**
   * The status text tells a hidden grid apart from a shown one, and when
   * shown its last character is the snapping mark.
   */
  lemma StatusDescriptionShowsState(s: GridState, sizeText: real -> string)
    ensures StatusDescription(s, sizeText) == GridOffText <==> !s.showGrid
    ensures s.showGrid ==> StatusDescription(s, sizeText)[|StatusDescription(s, sizeText)| - 1] == (if s.snapToGrid then '开' else '关')
  {
    if s.showGrid {
      var r := StatusDescription(s, sizeText);
      assert GridOffText[|GridOffText| - 1] == '闭';
    }
  }

  class GridSettings {
    var originX: real
    var originY: real
    var gridSizeMeters: real
    var showGrid: bool
    var gridColor: string
    var axisColor: string
    var showCoordinates: bool
    var snapToGrid: bool

    /** All fields as one value. */
    function State(): GridState
      reads this
    {
      GridState(originX, originY, gridSizeMeters, showGrid, gridColor, axisColor, showCoordinates, snapToGrid)
    }

    constructor()
      ensures State() == DefaultGrid
    {
      originX := 0.0;
      originY := 0.0;
      gridSizeMeters := 100.0;
      showGrid := true;
      gridColor := "lightgray";
      axisColor := "red";
      showCoordinates := true;
      snapToGrid := false;
    }

    method ResetToOrigin()
      modifies this`originX, this`originY
      ensures State() == ResetToOriginSpec(old(State()))
    {
      originX := 0.0;
      originY := 0.0;
    }

    /** `setOrigin(x, y)`: exactly the two origin fields change. */
    method SetOrigin(x: real, y: real)
      modifies this`originX, this`originY
      ensures State() == old(State()).(originX := x, originY := y)
    {
      originX := x;
      originY := y;
    }
  }

  /**
   * What the grid control panel reads from its inputs: the three number
   * fields after `parseFloat` (None for NaN), the three checkboxes and the two
   * colour texts.
   */
  datatype GridPanelInput = GridPanelInput(
    originX: Option<real>, originY: Option<real>, gridSizeMeters: Option<real>,
    showGrid: bool, showCoordinates: bool, snapToGrid: bool,
    gridColor: string, axisColor: string)

  /** JavaScript's `parsed || fallback` for a number: NaN and 0 are falsy. */
  function NumberOr(parsed: Option<real>, fallback: real): (r: real)
    ensures parsed.Some? && parsed.value != 0.0 ==> r == parsed.value
    ensures parsed.None? || parsed.value == 0.0 ==> r == fallback
  {
    if parsed.Some? && parsed.value != 0.0 then parsed.value else fallback
  }

  /** `text || fallback` for a string: the empty string is falsy. */
  function TextOr(text: string, fallback: string): (r: string)
    ensures text != "" ==> r == text
    ensures text == "" ==> r == fallback
  {
    if text != "" then text else fallback
  }

  /** The new grid settings written by `GridControlPanelDialog.apply`. */
  function ApplyGridPanel(s: GridState, input: GridPanelInput): (r: GridState)
    ensures r.gridSizeMeters >= 1.0
    ensures r.showGrid == input.showGrid && r.showCoordinates == input.showCoordinates && r.snapToGrid == input.snapToGrid
  {
    var size := NumberOr(input.gridSizeMeters, s.gridSizeMeters);
    GridState(
      NumberOr(input.originX, s.originX),
      NumberOr(input.originY, s.originY),
      if 1.0 < size then size else 1.0,
      input.showGrid,
      TextOr(input.gridColor, s.gridColor),
      TextOr(input.axisColor, s.axisColor),
      input.showCoordinates,
      input.snapToGrid)
  }

  /**
   * After `apply` the grid size is `Math.max(1, parsed || old)`, so at
   * least 1; an origin field keeps its old value exactly when the entry is
   * blank, NaN or 0; the checkboxes are copied; a colour keeps its old value
   * exactly when its entry is empty.
   */
  lemma ApplyGridPanelRules(s: GridState, input: GridPanelInput)
    ensures ApplyGridPanel(s, input).gridSizeMeters >= 1.0
    ensures ApplyGridPanel(s, input).gridSizeMeters ==
      var v := if input.gridSizeMeters.Some? && input.gridSizeMeters.value != 0.0 then input.gridSizeMeters.value else s.gridSizeMeters;
      if v > 1.0 then v else 1.0
    ensures ApplyGridPanel(s, input).originX == (if input.originX.Some? && input.originX.value != 0.0 then input.originX.value else s.originX)
    ensures ApplyGridPanel(s, input).originY == (if input.originY.Some? && input.originY.value != 0.0 then input.originY.value else s.originY)
    ensures ApplyGridPanel(s, input).showGrid == input.showGrid
    ensures ApplyGridPanel(s, input).showCoordinates == input.showCoordinates
    ensures ApplyGridPanel(s, input).snapToGrid == input.snapToGrid
    ensures ApplyGridPanel(s, input).gridColor == (if input.gridColor == "" then s.gridColor else input.gridColor)
    ensures ApplyGridPanel(s, input).axisColor == (if input.axisColor == "" then s.axisColor else input.axisColor)
  {
  }

  /**
   * `apply()`: the eight field assignments in the order of the source.
   * Labels, redraw and the alert are left out.
   */
  method ApplyGridPanelTo(gs: GridSettings, input: GridPanelInput)
    modifies gs
    ensures gs.State() == ApplyGridPanel(old(gs.State()), input)
  {
    gs.originX := NumberOr(input.originX, gs.originX);
    gs.originY := NumberOr(input.originY, gs.originY);
    var size := NumberOr(input.gridSizeMeters, gs.gridSizeMeters);
    gs.gridSizeMeters := if 1.0 < size then size else 1.0;
    gs.showGrid := input.showGrid;
    gs.showCoordinates := input.showCoordinates;
    gs.snapToGrid := input.snapToGrid;
    gs.gridColor := TextOr(input.gridColor, gs.gridColor);
    gs.axisColor := TextOr(input.axisColor, gs.axisColor);
  }

  /** The ten fields of ThreeDSettings, as returned by `clone()`. */
  datatype ThreeDValues = ThreeDValues(
    viewAngle: real, rotationAngle: real, heightScale: real,
    lightAngle: real, shadowIntensity: real,
    defaultHeight: real, defaultBuildingColor: string, wallColorIntensity: real,
    show3DLabels: bool, showLandscape: bool)

  /** The constructor's (and `reset()`'s) values. */
  const DefaultThreeD := ThreeDValues(45.0, 0.0, 1.0, 135.0, 0.3, 10.0, "#F0F0F0", 0.8, true, true)

  /** The argument of `updateFrom`: each field present or undefined. */
  datatype ThreeDUpdate = ThreeDUpdate(
    viewAngle: Option<real>, rotationAngle: Option<real>, heightScale: Option<real>,
    lightAngle: Option<real>, shadowIntensity: Option<real>,
    defaultHeight: Option<real>, defaultBuildingColor: Option<string>, wallColorIntensity: Option<real>,
    show3DLabels: Option<bool>, showLandscape: Option<bool>)

  function Pick<T>(o: Option<T>, keep: T): T
  {
    if o.Some? then o.value else keep
  }

  /** `updateFrom(settings)`: every field that is present is assigned, every other one kept. */
  function UpdateFrom(v: ThreeDValues, u: ThreeDUpdate): (r: ThreeDValues)
    ensures u.viewAngle.Some? ==> r.viewAngle == u.viewAngle.value
    ensures u.viewAngle.None? ==> r.viewAngle == v.viewAngle
    ensures u.rotationAngle.Some? ==> r.rotationAngle == u.rotationAngle.value
    ensures u.rotationAngle.None? ==> r.rotationAngle == v.rotationAngle
    ensures u.heightScale.Some? ==> r.heightScale == u.heightScale.value
    ensures u.heightScale.None? ==> r.heightScale == v.heightScale
    ensures u.lightAngle.Some? ==> r.lightAngle == u.lightAngle.value
    ensures u.lightAngle.None? ==> r.lightAngle == v.lightAngle
    ensures u.shadowIntensity.Some? ==> r.shadowIntensity == u.shadowIntensity.value
    ensures u.shadowIntensity.None? ==> r.shadowIntensity == v.shadowIntensity
    ensures u.defaultHeight.Some? ==> r.defaultHeight == u.defaultHeight.value
    ensures u.defaultHeight.None? ==> r.defaultHeight == v.defaultHeight
    ensures u.defaultBuildingColor.Some? ==> r.defaultBuildingColor == u.defaultBuildingColor.value
    ensures u.defaultBuildingColor.None? ==> r.defaultBuildingColor == v.defaultBuildingColor
    ensures u.wallColorIntensity.Some? ==> r.wallColorIntensity == u.wallColorIntensity.value
    ensures u.wallColorIntensity.None? ==> r.wallColorIntensity == v.wallColorIntensity
    ensures u.show3DLabels.Some? ==> r.show3DLabels == u.show3DLabels.value
    ensures u.show3DLabels.None? ==> r.show3DLabels == v.show3DLabels
    ensures u.showLandscape.Some? ==> r.showLandscape == u.showLandscape.value
    ensures u.showLandscape.None? ==> r.showLandscape == v.showLandscape
  {
    ThreeDValues(
      Pick(u.viewAngle, v.viewAngle), Pick(u.rotationAngle, v.rotationAngle), Pick(u.heightScale, v.heightScale),
      Pick(u.lightAngle, v.lightAngle), Pick(u.shadowIntensity, v.shadowIntensity),
      Pick(u.defaultHeight, v.defaultHeight), Pick(u.defaultBuildingColor, v.defaultBuildingColor),
      Pick(u.wallColorIntensity, v.wallColorIntensity),
      Pick(u.show3DLabels, v.show3DLabels), Pick(u.showLandscape, v.showLandscape))
  }

  /** A cloned record passed back as an update: every field present. */
  function AsUpdate(v: ThreeDValues): ThreeDUpdate
  {
    ThreeDUpdate(
      Some(v.viewAngle), Some(v.rotationAngle), Some(v.heightScale),
      Some(v.lightAngle), Some(v.shadowIntensity),
      Some(v.defaultHeight), Some(v.defaultBuildingColor), Some(v.wallColorIntensity),
      Some(v.show3DLabels), Some(v.showLandscape))
  }

  /** The update with nothing present. */
  const NoUpdate := ThreeDUpdate(None, None, None, None, None, None, None, None, None, None)

  /**
   * `updateFrom(clone())` changes nothing; an update with every field
   * present makes the settings exactly that record; an empty update is a
   * no-op.
   */
  lemma UpdateFromCloneIsIdentity(v: ThreeDValues, w: ThreeDValues)
    ensures UpdateFrom(v, AsUpdate(v)) == v
    ensures UpdateFrom(v, AsUpdate(w)) == w
    ensures UpdateFrom(v, NoUpdate) == v
  {
  }

  class ThreeDSettings {
    var viewAngle: real
    var rotationAngle: real
    var heightScale: real
    var lightAngle: real
    var shadowIntensity: real
    var defaultHeight: real
    var defaultBuildingColor: string
    var wallColorIntensity: real
    var show3DLabels: bool
    var showLandscape: bool

    /** `clone()`: all ten fields. */
    function Clone(): ThreeDValues
      reads this
    {
      ThreeDValues(viewAngle, rotationAngle, heightScale, lightAngle, shadowIntensity,
                   defaultHeight, defaultBuildingColor, wallColorIntensity, show3DLabels, showLandscape)
    }

    constructor()
      ensures Clone() == DefaultThreeD
    {
      viewAngle := 45.0;
      rotationAngle := 0.0;
      heightScale := 1.0;
      lightAngle := 135.0;
      shadowIntensity := 0.3;
      defaultHeight := 10.0;
      defaultBuildingColor := "#F0F0F0";
      wallColorIntensity := 0.8;
      show3DLabels := true;
      showLandscape := true;
    }

    /** `reset()`: every field back to the constructor's value (so resetting twice is resetting once). */
    method Reset()
      modifies this
      ensures Clone() == DefaultThreeD
    {
      viewAngle := 45.0;
      rotationAngle := 0.0;
      heightScale := 1.0;
      lightAngle := 135.0;
      shadowIntensity := 0.3;
      defaultHeight := 10.0;
      defaultBuildingColor := "#F0F0F0";
      wallColorIntensity := 0.8;
      show3DLabels := true;
      showLandscape := true;
    }

    /** `updateFrom(settings)`: each field assigned when present in the argument. */
    method UpdateFromSettings(u: ThreeDUpdate)
      modifies this
      ensures Clone() == UpdateFrom(old(Clone()), u)
    {
      viewAngle := Pick(u.viewAngle, viewAngle);
      rotationAngle := Pick(u.rotationAngle, rotationAngle);
      heightScale := Pick(u.heightScale, heightScale);
      lightAngle := Pick(u.lightAngle, lightAngle);
      shadowIntensity := Pick(u.shadowIntensity, shadowIntensity);
      defaultHeight := Pick(u.defaultHeight, defaultHeight);
      defaultBuildingColor := Pick(u.defaultBuildingColor, defaultBuildingColor);
      wallColorIntensity := Pick(u.wallColorIntensity, wallColorIntensity);
      show3DLabels := Pick(u.show3DLabels, show3DLabels);
      showLandscape := Pick(u.showLandscape, showLandscape);
    }
  }
}
