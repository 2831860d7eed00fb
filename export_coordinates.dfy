/*
 * The coordinate export dialog: which way is exported, the points read off
 * its nodes, their conversion to rounded degrees or metres, the text formats
 * and the download file name.
 */
module ExportCoordinates {
  import opened Wrappers
  import opened OsmGraph
  import opened Text
  import Coordinates
  import Editing
  import CoordinateImport

  type Coord = CoordinateImport.Coord

  /** `toFixed(decimals)` read back with `parseFloat`: the browser's rounding, a parameter here. */
  type Round = (real, nat) -> real

  /** How a number is written inside a template string: the browser's formatting, a parameter here. */
  type Show = real -> string

  /** One extracted point: `{id, lon, lat}`. */
  datatype ExportNode = ExportNode(id: int, lon: real, lat: real)

  // ------------------------------------------------------------ opening

  /** What the constructor leaves behind: the chosen way (if any), its points, and the alert when it gives up. */
  datatype Opening = Opening(wayId: Option<int>, points: seq<ExportNode>, alert: Option<string>)

  /** The only element of a one-element set. */
  ghost function TheOnly(s: set<int>): (x: int)
    requires |s| == 1
    ensures s == {x}
  {
    IntsHaveElement(s);
    var x :| x in s;
    assert s == {x} by {
      forall y | y in s
        ensures y == x
      {
        assert |s - {x}| == 0;
      }
    }
    x
  }

  /**
   * `way.nodes.map(id => node ? {id, lon, lat} : null).filter(n => n !== null)`:
   * the referenced nodes in order, dropping ids that have no node.
   */
  function ExtractPoints(refs: seq<int>, nodes: map<int, Node>): (r: seq<ExportNode>)
    ensures |r| <= |refs|
    decreases |refs|
  {
    if refs == [] then []
    else
      var head := if refs[0] in nodes then [ExportNode(refs[0], nodes[refs[0]].lon, nodes[refs[0]].lat)] else [];
      head + ExtractPoints(refs[1..], nodes)
  }

  /**
   * The constructor's choice: `selectedWay` when truthy, else the single
   * member of `selectedWays`; several or none selected, a missing way, or a
   * way none of whose nodes exist each end in an alert.
   */
  ghost function OpenDialog(selectedWay: Option<int>, selectedWays: set<int>, ways: map<int, Way>, nodes: map<int, Node>): (o: Opening)
    ensures o.alert.None? ==> o.wayId.Some? && o.wayId.value in ways && o.points != []
                              && o.points == ExtractPoints(ways[o.wayId.value].nodes, nodes)
    ensures o.alert.Some? ==> o.points == []
  {
    if !Truthy(selectedWay) && |selectedWays| > 1 then Opening(None, [], Some("请只选择一个多边形进行导出"))
    else if !Truthy(selectedWay) && |selectedWays| == 0 then Opening(None, [], Some("请先选择要导出坐标的多边形"))
    else
      var id := if Truthy(selectedWay) then selectedWay.value else TheOnly(selectedWays);
      if id !in ways then Opening(Some(id), [], Some("未找到选中的路径"))
      else
        var points := ExtractPoints(ways[id].nodes, nodes);
        if points == [] then Opening(Some(id), [], Some("该路径没有有效节点"))
        else Opening(Some(id), points, None)
  }

  // ------------------------------------------------------------ extraction

  /** Extraction works piece by piece: the points of a concatenation are the points of each part. */
  lemma {:induction false} ExtractAppend(a: seq<int>, b: seq<int>, nodes: map<int, Node>)
    ensures ExtractPoints(a + b, nodes) == ExtractPoints(a, nodes) + ExtractPoints(b, nodes)
    decreases |a|
  {
    if a != [] {
      assert (a + b)[1..] == a[1..] + b && (a + b)[0] == a[0];
      ExtractAppend(a[1..], b, nodes);
      var head := if a[0] in nodes then [ExportNode(a[0], nodes[a[0]].lon, nodes[a[0]].lat)] else [];
      assert ExtractPoints(a + b, nodes) == head + ExtractPoints(a[1..] + b, nodes);
      assert ExtractPoints(a, nodes) == head + ExtractPoints(a[1..], nodes);
    } else {
      assert a + b == b;
    }
  }

  /**
   * Every extracted point is a node of the way, with that node's position,
   * and the points are empty exactly when none of the way's ids has a node.
   */
  lemma {:induction false} ExtractedPointsAreNodes(refs: seq<int>, nodes: map<int, Node>)
    ensures forall p :: p in ExtractPoints(refs, nodes) ==>
      p.id in refs && p.id in nodes && p.lon == nodes[p.id].lon && p.lat == nodes[p.id].lat
    ensures ExtractPoints(refs, nodes) == [] <==> forall i :: 0 <= i < |refs| ==> refs[i] !in nodes
    decreases |refs|
  {
    if refs != [] {
      ExtractedPointsAreNodes(refs[1..], nodes);
      if refs[0] !in nodes {
        forall i | 0 < i < |refs|
          ensures refs[i] == refs[1..][i - 1]
        {
        }
      }
    }
  }

  /** When every id has a node, the i-th point is the i-th id's node. */
  lemma {:induction false} ExtractAllPresent(refs: seq<int>, nodes: map<int, Node>)
    requires forall i :: 0 <= i < |refs| ==> refs[i] in nodes
    ensures var r := ExtractPoints(refs, nodes);
      && |r| == |refs|
      && forall i :: 0 <= i < |refs| ==> r[i] == ExportNode(refs[i], nodes[refs[i]].lon, nodes[refs[i]].lat)
    decreases |refs|
  {
    if refs != [] {
      ExtractAllPresent(refs[1..], nodes);
    }
  }

  /** The opened dialog always holds an existing way and at least one point, read off that way's nodes. */
  lemma OpenRules(selectedWay: Option<int>, selectedWays: set<int>, ways: map<int, Way>, nodes: map<int, Node>)
    ensures var o := OpenDialog(selectedWay, selectedWays, ways, nodes);
      && (o.alert.None? ==> o.wayId.Some? && o.wayId.value in ways && o.points != []
                            && o.points == ExtractPoints(ways[o.wayId.value].nodes, nodes))
      && (o.alert.Some? ==> o.points == [])
      && (Truthy(selectedWay) ==> o.wayId == selectedWay)
      && (!Truthy(selectedWay) ==> (o.wayId.Some? <==> |selectedWays| == 1))
      && (!Truthy(selectedWay) && o.wayId.Some? ==> selectedWays == {o.wayId.value})
  {
  }

  // ------------------------------------------------------------ closing point

  /**
   * The "skip last" option: the final point is dropped only when there are
   * at least two and the first and last have the same longitude and latitude.
   */
  function SkipLast(points: seq<ExportNode>, skip: bool): (r: seq<ExportNode>)
    ensures |r| <= |points| && r == points[..|r|]
    ensures |r| == |points| - 1 <==>
      skip && |points| >= 2 && points[0].lon == points[|points| - 1].lon && points[0].lat == points[|points| - 1].lat
    ensures |r| != |points| - 1 ==> r == points
  {
    if skip && |points| >= 2 && points[0].lon == points[|points| - 1].lon && points[0].lat == points[|points| - 1].lat
    then points[..|points| - 1]
    else points
  }

  /**
   * Exporting the way an import closed (its ids with the first appended
   * again) with "skip last" gives exactly the points of the ids before
   * closing.
   */
  lemma ClosedWayExportsOpenPoints(ids: seq<int>, nodes: map<int, Node>)
    requires |ids| >= 3 && ids[0] != ids[|ids| - 1]
    requires forall i :: 0 <= i < |ids| ==> ids[i] in nodes
    ensures SkipLast(ExtractPoints(CoordinateImport.ClosedRefs(ids, true), nodes), true) == ExtractPoints(ids, nodes)
  {
    var refs := CoordinateImport.ClosedRefs(ids, true);
    assert refs == ids + [ids[0]];
    ExtractAppend(ids, [ids[0]], nodes);
    ExtractAllPresent(ids, nodes);
    var open := ExtractPoints(ids, nodes);
    var all := ExtractPoints(refs, nodes);
    assert ExtractPoints([ids[0]], nodes) == [ExportNode(ids[0], nodes[ids[0]].lon, nodes[ids[0]].lat)];
    assert all == open + [open[0]];
    assert all[..|all| - 1] == open;
  }

  // ------------------------------------------------------------ conversion

  /** The form fields the conversion reads; a reference field that does not parse as a number is `None`. */
  datatype ExportForm = ExportForm(coordType: string, format: string, skipLast: bool, highPrecision: bool,
                                   refLon: Option<real>, refLat: Option<real>)

  /** 8 decimals in high precision, else 2. */
  function Decimals(highPrecision: bool): (d: nat)
    ensures d == 8 || d == 2
    ensures d == 8 <==> highPrecision
  {
    if highPrecision then 8 else 2
  }

  /** Both numbers of each pair rounded to `d` decimals. */
  function RoundAll(cs: seq<Coord>, d: nat, round: Round): (r: seq<Coord>)
    ensures |r| == |cs|
    ensures forall i :: 0 <= i < |cs| ==> r[i] == CoordinateImport.Coord(round(cs[i].x, d), round(cs[i].y, d))
  {
    seq(|cs|, i requires 0 <= i < |cs| => CoordinateImport.Coord(round(cs[i].x, d), round(cs[i].y, d)))
  }

  /** The points as degree pairs. */
  function LonLats(points: seq<ExportNode>): (r: seq<Coord>)
    ensures |r| == |points|
    ensures forall i :: 0 <= i < |points| ==> r[i] == CoordinateImport.Coord(points[i].lon, points[i].lat)
  {
    seq(|points|, i requires 0 <= i < |points| => CoordinateImport.Coord(points[i].lon, points[i].lat))
  }

  /** The points as metres east and north of the reference point, the east scale taken at its latitude. */
  function ToMeters(points: seq<ExportNode>, refLon: real, refLat: real, cos: Coordinates.CosDeg): (r: seq<Coord>)
    ensures |r| == |points|
    ensures forall i :: 0 <= i < |points| ==>
      var m := Coordinates.LonLatToMeters(points[i].lon, points[i].lat, refLon, refLat, cos);
      r[i] == CoordinateImport.Coord(m.a, m.b)
  {
    seq(|points|, i requires 0 <= i < |points| =>
      var m := Coordinates.LonLatToMeters(points[i].lon, points[i].lat, refLon, refLat, cos);
      CoordinateImport.Coord(m.a, m.b))
  }

  /**
   * `convertCoordinates()`: after the optional skip of the closing point,
   * metre mode needs both reference numbers and converts, any other mode
   * keeps degrees; each number is then rounded to the chosen decimals.
   */
  function ConvertCoordinates(points: seq<ExportNode>, f: ExportForm, cos: Coordinates.CosDeg, round: Round): (r: Result<seq<Coord>>)
    ensures r.Err? <==> f.coordType == "meter" && (f.refLon.None? || f.refLat.None?)
    ensures r.Err? ==> r.message == "参考点坐标无效"
    ensures r.Ok? ==> |r.value| == |SkipLast(points, f.skipLast)|
  {
    var pts := SkipLast(points, f.skipLast);
    var d := Decimals(f.highPrecision);
    if f.coordType == "meter" then
      if f.refLon.None? || f.refLat.None? then Err("参考点坐标无效")
      else Ok(RoundAll(ToMeters(pts, f.refLon.value, f.refLat.value, cos), d, round))
    else Ok(RoundAll(LonLats(pts), d, round))
  }

  /**
   * Points placed by converting metre offsets from a reference point (as the
   * import and manual entry dialogs do) export in metre mode, from the same
   * reference point, as those offsets again, up to the rounding.
   */
  lemma MetreExportReadsBack(points: seq<ExportNode>, ms: seq<Coord>, f: ExportForm, cos: Coordinates.CosDeg, round: Round)
    requires f.coordType == "meter" && !f.skipLast && f.refLon.Some? && f.refLat.Some?
    requires cos(f.refLat.value) != 0.0
    requires |points| == |ms|
    requires forall i :: 0 <= i < |ms| ==>
      var g := Coordinates.MetersToLonLat(ms[i].x, ms[i].y, f.refLon.value, f.refLat.value, cos);
      points[i].lon == g.a && points[i].lat == g.b
    ensures ConvertCoordinates(points, f, cos, round) == Ok(RoundAll(ms, Decimals(f.highPrecision), round))
  {
    var back := ToMeters(points, f.refLon.value, f.refLat.value, cos);
    forall i | 0 <= i < |ms|
      ensures back[i] == ms[i]
    {
      Coordinates.MetersRoundTrip(ms[i].x, ms[i].y, f.refLon.value, f.refLat.value, cos);
    }
    assert back == ms;
  }

  /** In degree mode, exporting the open points of a way gives their positions, up to the rounding. */
  lemma DegreeExportIsPositions(ids: seq<int>, nodes: map<int, Node>, f: ExportForm, cos: Coordinates.CosDeg, round: Round)
    requires f.coordType != "meter" && f.skipLast
    requires |ids| >= 3 && ids[0] != ids[|ids| - 1]
    requires forall i :: 0 <= i < |ids| ==> ids[i] in nodes
    ensures var r := ConvertCoordinates(ExtractPoints(CoordinateImport.ClosedRefs(ids, true), nodes), f, cos, round);
      && r.Ok? && |r.value| == |ids|
      && forall i :: 0 <= i < |ids| ==>
           r.value[i] == CoordinateImport.Coord(round(nodes[ids[i]].lon, Decimals(f.highPrecision)),
                                                round(nodes[ids[i]].lat, Decimals(f.highPrecision)))
  {
    ClosedWayExportsOpenPoints(ids, nodes);
    ExtractAllPresent(ids, nodes);
  }

  // ------------------------------------------------------------ formatting

  /** A number rendering that never produces a line break. */
  ghost predicate SingleLine(show: Show)
  {
    forall v :: '\n' !in show(v)
  }

  function CsvLine(c: Coord, show: Show): string
  {
    show(c.x) + ", " + show(c.y)
  }

  function SpaceLine(c: Coord, show: Show): string
  {
    show(c.x) + " " + show(c.y)
  }

  /** The table's data row for the i-th point, numbered from 1. */
  function TableRow(i: nat, c: Coord, show: Show): string
  {
    NatToString(i + 1) + "\t" + show(c.x) + "\t" + show(c.y)
  }

  const TableHeader: seq<string> := ["序号\tX/经度\tY/纬度", "----\t-------\t-------"]

  /** The table's lines: the two header lines, then one row per point. */
  function TableLines(coords: seq<Coord>, show: Show): (r: seq<string>)
    ensures |r| == |coords| + 2
  {
    TableHeader + seq(|coords|, i requires 0 <= i < |coords| => TableRow(i, coords[i], show))
  }

  /** Each line followed by a line break. */
  function Lines(ls: seq<string>): (r: string)
    ensures ls != [] ==> r != [] && r[|r| - 1] == '\n'
    decreases |ls|
  {
    if ls == [] then [] else ls[0] + "\n" + Lines(ls[1..])
  }

  lemma {:induction false} LinesSnoc(ls: seq<string>, l: string)
    ensures Lines(ls + [l]) == Lines(ls) + l + "\n"
    decreases |ls|
  {
    if ls != [] {
      assert (ls + [l])[1..] == ls[1..] + [l];
      LinesSnoc(ls[1..], l);
    }
  }

  /**
   * The text shown and downloaded: csv (also for any unknown format) and
   * space give one line per point joined by line breaks, table gives its
   * lines each ended by a line break, json is `JSON.stringify` (a parameter).
   */
  function Formatted(coords: seq<Coord>, format: string, show: Show, json: seq<Coord> -> string): (r: string)
    ensures format == "json" ==> r == json(coords)
    ensures format != "json" && format != "table" && coords == [] ==> r == []
    ensures format == "table" ==> r != [] && r[|r| - 1] == '\n'
  {
    if format == "json" then json(coords)
    else if format == "space" then Join(seq(|coords|, i requires 0 <= i < |coords| => SpaceLine(coords[i], show)), "\n")
    else if format == "table" then Lines(TableLines(coords, show))
    else Join(seq(|coords|, i requires 0 <= i < |coords| => CsvLine(coords[i], show)), "\n")
  }

  /** `formatCoordinates(coords)`; the table is built by appending one row per point. */
  method FormatCoordinates(coords: seq<Coord>, format: string, show: Show, json: seq<Coord> -> string) returns (text: string)
    ensures text == Formatted(coords, format, show, json)
  {
    if format == "json" {
      text := json(coords);
    } else if format == "space" {
      text := Join(seq(|coords|, i requires 0 <= i < |coords| => SpaceLine(coords[i], show)), "\n");
    } else if format == "table" {
      text := "序号\tX/经度\tY/纬度\n";
      text := text + "----\t-------\t-------\n";
      assert TableLines([], show) == TableHeader;
      assert Lines(TableHeader[1..][1..]) == [];
      assert text == Lines(TableLines([], show));
      var i := 0;
      while i < |coords|
        invariant 0 <= i <= |coords|
        invariant text == Lines(TableLines(coords[..i], show))
      {
        var row := TableRow(i, coords[i], show);
        assert TableLines(coords[..i + 1], show) == TableLines(coords[..i], show) + [row];
        LinesSnoc(TableLines(coords[..i], show), row);
        text := text + row + "\n";
        i := i + 1;
      }
      assert coords[..|coords|] == coords;
    } else {
      text := Join(seq(|coords|, i requires 0 <= i < |coords| => CsvLine(coords[i], show)), "\n");
    }
  }

  /** Splitting at a separator right after a piece free of separators yields that piece first. */
  lemma {:induction false} SplitAfterPiece(a: string, sep: char, b: string)
    requires sep !in a
    ensures Split(a + [sep] + b, sep) == [a] + Split(b, sep)
    decreases |a|
  {
    if a == [] {
      assert ([] + [sep] + b)[1..] == b;
    } else {
      assert (a + [sep] + b)[1..] == a[1..] + [sep] + b;
      assert a[0] != sep && sep !in a[1..];
      SplitAfterPiece(a[1..], sep, b);
      assert [a[0]] + a[1..] == a;
    }
  }

  /** Joining pieces free of the separator and splitting again gives the pieces back. */
  lemma {:induction false} SplitJoin(pieces: seq<string>, sep: char)
    requires |pieces| >= 1
    requires forall i :: 0 <= i < |pieces| ==> sep !in pieces[i]
    ensures Split(Join(pieces, [sep]), sep) == pieces
    decreases |pieces|
  {
    if |pieces| == 1 {
      SplitPiece(pieces[0], sep);
    } else {
      SplitJoin(pieces[1..], sep);
      SplitAfterPiece(pieces[0], sep, Join(pieces[1..], [sep]));
    }
  }

  lemma {:induction false} SplitPiece(a: string, sep: char)
    requires sep !in a
    ensures Split(a, sep) == [a]
    decreases |a|
  {
    if a != [] {
      assert a[0] != sep && sep !in a[1..];
      SplitPiece(a[1..], sep);
      assert [a[0]] + a[1..] == a;
    }
  }

  /** Lines each ended by a break split into those lines and a final empty piece. */
  lemma {:induction false} SplitLines(ls: seq<string>)
    requires forall i :: 0 <= i < |ls| ==> '\n' !in ls[i]
    ensures Split(Lines(ls), '\n') == ls + [[]]
    decreases |ls|
  {
    if ls != [] {
      SplitLines(ls[1..]);
      SplitAfterPiece(ls[0], '\n', Lines(ls[1..]));
    }
  }

  lemma NoBreakInNumber(n: nat)
    ensures '\n' !in NatToString(n)
  {
    var s := NatToString(n);
    forall k | 0 <= k < |s|
      ensures s[k] != '\n'
    {
      assert IsDigit(s[k]);
    }
  }

  /**
   * csv (and any unknown format) reads back line by line: splitting the
   * text at line breaks gives one "x, y" line per point, with no trailing
   * empty line.
   */
  lemma CsvReadsBack(coords: seq<Coord>, format: string, show: Show, json: seq<Coord> -> string)
    requires format !in {"json", "space", "table"}
    requires SingleLine(show) && coords != []
    ensures Split(Formatted(coords, format, show, json), '\n') == seq(|coords|, i requires 0 <= i < |coords| => CsvLine(coords[i], show))
  {
    var pieces := seq(|coords|, i requires 0 <= i < |coords| => CsvLine(coords[i], show));
    forall i | 0 <= i < |pieces|
      ensures '\n' !in pieces[i]
    {
      assert '\n' !in show(coords[i].x) && '\n' !in show(coords[i].y);
    }
    SplitJoin(pieces, '\n');
  }

  /**
   * The space format reads back line by line as well: one "x y" line per
   * point, with no trailing empty line.
   */
  lemma SpaceReadsBack(coords: seq<Coord>, show: Show, json: seq<Coord> -> string)
    requires SingleLine(show) && coords != []
    ensures Split(Formatted(coords, "space", show, json), '\n') == seq(|coords|, i requires 0 <= i < |coords| => SpaceLine(coords[i], show))
  {
    var pieces := seq(|coords|, i requires 0 <= i < |coords| => SpaceLine(coords[i], show));
    forall i | 0 <= i < |pieces|
      ensures '\n' !in pieces[i]
    {
      assert '\n' !in show(coords[i].x) && '\n' !in show(coords[i].y);
    }
    SplitJoin(pieces, '\n');
  }

  /**
   * The table reads back line by line: the two header lines, the row of
   * each point numbered from 1, and the empty piece after the final break.
   */
  lemma TableReadsBack(coords: seq<Coord>, show: Show, json: seq<Coord> -> string)
    requires SingleLine(show)
    ensures var pieces := Split(Formatted(coords, "table", show, json), '\n');
      && |pieces| == |coords| + 3
      && pieces[0] == "序号\tX/经度\tY/纬度" && pieces[1] == "----\t-------\t-------"
      && (forall i :: 0 <= i < |coords| ==> pieces[i + 2] == TableRow(i, coords[i], show))
      && pieces[|coords| + 2] == []
  {
    var ls := TableLines(coords, show);
    forall i | 0 <= i < |ls|
      ensures '\n' !in ls[i]
    {
      if i >= 2 {
        NoBreakInNumber(i - 1);
        assert '\n' !in show(coords[i - 2].x) && '\n' !in show(coords[i - 2].y);
      }
    }
    SplitLines(ls);
  }

  // ------------------------------------------------------------ download

  /** The download's extension: json and csv keep their names, everything else is txt. */
  function Extension(format: string): (ext: string)
    ensures ext in {"json", "csv", "txt"}
    ensures ext == "json" <==> format == "json"
    ensures ext == "csv" <==> format == "csv"
  {
    if format == "json" then "json" else if format == "csv" then "csv" else "txt"
  }

  /** `coordinates_<meters|lonlat>_<now>.<ext>`; the clock is a parameter. */
  function FileName(coordType: string, format: string, now: nat): (name: string)
    ensures "coordinates_" + (if coordType == "meter" then "meters" else "lonlat") + "_" <= name
    ensures var e := "." + Extension(format); |e| < |name| && name[|name| - |e|..] == e
  {
    var kind := if coordType == "meter" then "meters" else "lonlat";
    "coordinates_" + kind + "_" + NatToString(now) + "." + Extension(format)
  }

  // ------------------------------------------------------------ dialog

  /** The dialog's state: the exported way and the points read off it when it opened. */
  class ExportCoordinatesDialog {
    const editor: Editing.Editor
    var selectedWayId: Option<int>
    var nodes: seq<ExportNode>
    /** Whether the constructor went on to build the dialog rather than alert and stop. */
    var shown: bool

    /** The constructor: choose the way, read its points, and give up with an alert when there is nothing to export. */
    constructor(editor: Editing.Editor)
      ensures this.editor == editor
      ensures var o := OpenDialog(editor.selectedWay, editor.selectedWays, editor.ways, editor.nodes);
        selectedWayId == o.wayId && nodes == o.points && shown == o.alert.None?
    {
      this.editor := editor;
      selectedWayId := None;
      nodes := [];
      shown := false;
      new;
      var id: int;
      if Truthy(editor.selectedWay) {
        id := editor.selectedWay.value;
      } else if |editor.selectedWays| == 1 {
        IntsHaveElement(editor.selectedWays);
        id :| id in editor.selectedWays;
        assert editor.selectedWays == {TheOnly(editor.selectedWays)};
      } else {
        return;
      }
      selectedWayId := Some(id);
      if id !in editor.ways {
        return;
      }
      var points := ExtractPoints(editor.ways[id].nodes, editor.nodes);
      if points == [] {
        return;
      }
      nodes := points;
      shown := true;
    }

    /** `updatePreview()`: the formatted text, or the conversion's error after "错误: ". */
    method UpdatePreview(f: ExportForm, cos: Coordinates.CosDeg, round: Round, show: Show, json: seq<Coord> -> string) returns (text: string)
      ensures var r := ConvertCoordinates(nodes, f, cos, round);
        text == if r.Err? then "错误: " + r.message else Formatted(r.value, f.format, show, json)
    {
      var r := ConvertCoordinates(nodes, f, cos, round);
      if r.Err? {
        text := "错误: " + r.message;
      } else {
        text := FormatCoordinates(r.value, f.format, show, json);
      }
    }
  }
}
