/**
 * The coordinate import dialog: reading a list of points from pasted text
 * (a JSON array, or comma- or space-separated lines), converting metre or
 * scene coordinates to degrees, and adding the points to the editor as new
 * nodes joined by one new way.
 *
 * The bulk node creation and the way built over the new nodes are shared
 * with the manual entry dialog, which does the same.
 */
module CoordinateImport {
  import opened Wrappers
  import opened OsmGraph
  import opened Text
  import Coordinates
  import Editing

  /** A `[x, y]` pair as read: longitude and latitude, or metres east and north. */
  datatype Coord = Coord(x: real, y: real)

  /** The dialog's inputs, as the text of its fields and the values of its selectors. */
  datatype Form = Form(input: string, format: string, coordType: string, refLon: string, refLat: string)

  /** What `JSON.parse` of the trimmed input gives, as far as the dialog looks at it. */
  datatype JsonRead =
    | JsonArray(coords: seq<Coord>)   // an array, read as `[x, y]` pairs
    | JsonNotArray                    // valid JSON that is not an array
    | JsonSyntaxError(reason: string) // `JSON.parse` threw, with this message

  /** `JSON.parse` of the trimmed input. */
  type JsonParse = string -> JsonRead

  /**
   * The message thrown for JSON input that is not an array: the prefix, then
   * the message of the error caught, which is `JSON.parse`'s own or the
   * dialog's "not an array" error.
   */
  function JsonFailure(read: JsonRead): (m: string)
    requires !read.JsonArray?
    ensures read.JsonNotArray? ==> m == "JSON格式错误: JSON必须是数组"
    ensures read.JsonSyntaxError? ==> m == "JSON格式错误: " + read.reason
  {
    "JSON格式错误: " + (if read.JsonSyntaxError? then read.reason else "JSON必须是数组")
  }

  // ------------------------------------------------------------ reading lines

  /** `lines.filter(l => l.trim())`: the lines that are not blank, in order. */
  function NonBlankLines(ls: seq<string>): (r: seq<string>)
    ensures |r| <= |ls|
    ensures forall i :: 0 <= i < |r| ==> Trim(r[i]) != [] && r[i] in ls
  {
    if ls == [] then []
    else
      var last := ls[|ls| - 1];
      NonBlankLines(ls[..|ls| - 1]) + (if Trim(last) != [] then [last] else [])
  }

  /** `parts.map(p => p.trim())`. */
  function TrimAll(ps: seq<string>): (r: seq<string>)
    ensures |r| == |ps|
    ensures forall i :: 0 <= i < |r| ==> r[i] == Trim(ps[i])
  {
    seq(|ps|, i requires 0 <= i < |ps| => Trim(ps[i]))
  }

  /** `parts.filter(p => p)`: the non-empty pieces, in order. */
  function NonEmptyPieces(ps: seq<string>): (r: seq<string>)
    ensures |r| <= |ps|
    ensures forall i :: 0 <= i < |r| ==> r[i] != [] && r[i] in ps
  {
    if ps == [] then []
    else
      var last := ps[|ps| - 1];
      NonEmptyPieces(ps[..|ps| - 1]) + (if last != [] then [last] else [])
  }

  /**
   * The fields of one line: split at commas (csv) or at runs of white space
   * (any other text format), each trimmed, empty ones dropped.
   */
  function Fields(line: string, csv: bool): seq<string>
  {
    if csv then NonEmptyPieces(TrimAll(Split(Trim(line), ','))) else Tokens(Trim(line))
  }

  /** The point one line yields: its first two fields when both read as numbers; later fields are ignored. */
  function LinePoint(line: string, csv: bool, parse: ParseFloat): Option<Coord>
  {
    var f := Fields(line, csv);
    if |f| >= 2 && parse(f[0]).Some? && parse(f[1]).Some? then Some(Coord(parse(f[0]).value, parse(f[1]).value))
    else None
  }

  /** What one line yields, as a function of the line alone. */
  type LineReader = string -> Option<Coord>

  /** The reader of one text format. */
  function Reader(csv: bool, parse: ParseFloat): (read: LineReader)
    ensures forall line :: read(line) == LinePoint(line, csv, parse)
  {
    l => LinePoint(l, csv, parse)
  }

  /** The points of the lines, in line order; a line without a point adds nothing. */
  function Collect(lines: seq<string>, read: LineReader): (r: seq<Coord>)
    ensures |r| <= |lines|
    ensures (forall j :: 0 <= j < |lines| ==> read(lines[j]).Some?) ==>
      |r| == |lines| && forall i :: 0 <= i < |r| ==> r[i] == read(lines[i]).value
  {
    if lines == [] then []
    else
      var p := read(lines[|lines| - 1]);
      Collect(lines[..|lines| - 1], read) + (if p.Some? then [p.value] else [])
  }

  /** The `for (const line of lines)` loop of `parseCoordinates`. */
  method ReadLines(lines: seq<string>, csv: bool, parse: ParseFloat) returns (coords: seq<Coord>)
    ensures coords == Collect(lines, Reader(csv, parse))
  {
    ghost var read := Reader(csv, parse);
    coords := [];
    var i := 0;
    while i < |lines|
      invariant 0 <= i <= |lines|
      invariant coords == Collect(lines[..i], read)
    {
      var p := ReadLine(lines[i], csv, parse);
      CollectStep(lines, i, read);
      coords := coords + if p.Some? then [p.value] else [];
      i := i + 1;
    }
    assert lines[..|lines|] == lines;
  }

  /** The body of that loop for one line. */
  method ReadLine(line: string, csv: bool, parse: ParseFloat) returns (p: Option<Coord>)
    ensures p == Reader(csv, parse)(line)
  {
    var f := Fields(line, csv);
    p := None;
    if |f| >= 2 {
      var x := parse(f[0]);
      var y := parse(f[1]);
      if x.Some? && y.Some? {
        p := Some(Coord(x.value, y.value));
      }
    }
  }

  lemma CollectStep(lines: seq<string>, i: nat, read: LineReader)
    requires i < |lines|
    ensures Collect(lines[..i + 1], read)
      == Collect(lines[..i], read) + (if read(lines[i]).Some? then [read(lines[i]).value] else [])
  {
    assert lines[..i + 1][..i] == lines[..i];
  }

  /** Line order is kept: the points of two blocks of lines are the points of the first, then those of the second. */
  lemma {:induction false} CollectAppend(a: seq<string>, b: seq<string>, read: LineReader)
    ensures Collect(a + b, read) == Collect(a, read) + Collect(b, read)
  {
    if b == [] {
      assert a + b == a;
    } else {
      var init := b[..|b| - 1];
      CollectAppend(a, init, read);
      assert (a + b)[..|a + b| - 1] == a + init;
    }
  }

  /** One line yields its point, or nothing. */
  lemma CollectOne(line: string, read: LineReader)
    ensures Collect([line], read) == if read(line).Some? then [read(line).value] else []
  {
    assert [line][..0] == [];
  }

  /** A comma-separated field is never empty, has no comma and no white space at either end. */
  lemma CsvFieldsClean(line: string)
    ensures forall i :: 0 <= i < |Fields(line, true)| ==>
      && Fields(line, true)[i] != []
      && ',' !in Fields(line, true)[i]
      && Trim(Fields(line, true)[i]) == Fields(line, true)[i]
  {
    var pieces := Split(Trim(line), ',');
    var trimmed := TrimAll(pieces);
    var f := Fields(line, true);
    forall i | 0 <= i < |f|
      ensures f[i] != [] && ',' !in f[i] && Trim(f[i]) == f[i]
    {
      assert f[i] in trimmed;
      var j :| 0 <= j < |trimmed| && trimmed[j] == f[i];
      assert ',' !in pieces[j];
      TrimmedPieceClean(pieces[j]);
    }
  }

  /** A comma-free piece stays comma-free when trimmed, and trimming it again changes nothing. */
  lemma TrimmedPieceClean(p: string)
    requires ',' !in p
    ensures ',' !in Trim(p) && Trim(Trim(p)) == Trim(p)
  {
    TrimIdempotent(p);
    var t := Trim(p);
    assert forall c :: c in t ==> c in p;
  }

  // ------------------------------------------------------------ parsing

  /** The points the text holds before any conversion; blank input holds none. */
  function RawPoints(f: Form, json: JsonParse, parse: ParseFloat): (r: Result<seq<Coord>>)
    ensures Trim(f.input) == [] ==> r == Ok([])
    ensures r.Err? <==> Trim(f.input) != [] && f.format == "json" && !json(Trim(f.input)).JsonArray?
    ensures r.Err? && json(Trim(f.input)).JsonNotArray? ==> r.message == "JSON格式错误: JSON必须是数组"
    ensures r.Err? && json(Trim(f.input)).JsonSyntaxError? ==> r.message == "JSON格式错误: " + json(Trim(f.input)).reason
    ensures r.Ok? && f.format == "json" && Trim(f.input) != [] ==> r.value == json(Trim(f.input)).coords
  {
    var input := Trim(f.input);
    if input == [] then Ok([])
    else if f.format == "json" then
      (if json(input).JsonArray? then Ok(json(input).coords) else Err(JsonFailure(json(input))))
    else Ok(Collect(NonBlankLines(Split(input, '\n')), Reader(f.format == "csv", parse)))
  }

  /** Metre offsets from a reference point, as degrees. */
  function ToDegrees(cs: seq<Coord>, refLon: real, refLat: real, cos: Coordinates.CosDeg): (r: seq<Coord>)
    requires cos(refLat) != 0.0
    ensures |r| == |cs|
    ensures forall i :: 0 <= i < |cs| ==>
      var g := Coordinates.MetersToLonLat(cs[i].x, cs[i].y, refLon, refLat, cos);
      r[i] == Coord(g.a, g.b)
  {
    seq(|cs|, i requires 0 <= i < |cs| =>
      var g := Coordinates.MetersToLonLat(cs[i].x, cs[i].y, refLon, refLat, cos);
      Coord(g.a, g.b))
  }

  /**
   * What `parseCoordinates` returns or throws: blank input gives no points
   * (before any other check); a JSON input that is not an array fails; metre
   * input needs a numeric reference point; scene input is converted around
   * the scene origin; any other type is taken as degrees.
   */
  function ParsedPoints(f: Form, json: JsonParse, parse: ParseFloat, cos: Coordinates.CosDeg, origin: Coordinates.Pair): (r: Result<seq<Coord>>)
    requires Coordinates.NeverZero(cos)
    ensures r.Err? <==>
      || RawPoints(f, json, parse).Err?
      || (Trim(f.input) != [] && f.coordType == "meter" && (parse(f.refLon).None? || parse(f.refLat).None?))
    ensures r.Ok? ==> |r.value| == |RawPoints(f, json, parse).value|
  {
    var raw := RawPoints(f, json, parse);
    if Trim(f.input) == [] || raw.Err? then raw
    else if f.coordType == "meter" then
      var lon := parse(f.refLon);
      var lat := parse(f.refLat);
      if lon.None? || lat.None? then Err("请设置有效的参考点经纬度")
      else Ok(ToDegrees(raw.value, lon.value, lat.value, cos))
    else if f.coordType == "scene" then Ok(ToDegrees(raw.value, origin.a, origin.b, cos))
    else raw
  }

  /** `parseCoordinates()`. */
  method ParseCoordinates(f: Form, json: JsonParse, parse: ParseFloat, cos: Coordinates.CosDeg, origin: Coordinates.Pair) returns (r: Result<seq<Coord>>)
    requires Coordinates.NeverZero(cos)
    ensures r == ParsedPoints(f, json, parse, cos, origin)
  {
    var input := Trim(f.input);
    if input == [] {
      return Ok([]);
    }
    var coords;
    if f.format == "json" {
      var parsed := json(input);
      if !parsed.JsonArray? {
        return Err(JsonFailure(parsed));
      }
      coords := parsed.coords;
    } else {
      coords := ReadLines(NonBlankLines(Split(input, '\n')), f.format == "csv", parse);
    }
    if f.coordType == "meter" {
      var lon := parse(f.refLon);
      var lat := parse(f.refLat);
      if lon.None? || lat.None? {
        return Err("请设置有效的参考点经纬度");
      }
      coords := ToDegrees(coords, lon.value, lat.value, cos);
    } else if f.coordType == "scene" {
      coords := ToDegrees(coords, origin.a, origin.b, cos);
    }
    r := Ok(coords);
  }

  /** Blank or white-space-only input parses to no points, whatever the other fields say. */
  lemma BlankInputGivesNoPoints(f: Form, json: JsonParse, parse: ParseFloat, cos: Coordinates.CosDeg, origin: Coordinates.Pair)
    requires Coordinates.NeverZero(cos)
    requires AllSpace(f.input)
    ensures ParsedPoints(f, json, parse, cos, origin) == Ok([])
  {
    TrimEmptyIffBlank(f.input);
  }

  /** The failures: JSON that is not an array, and metre mode with a reference coordinate that is not a number. */
  lemma ParseFailures(f: Form, json: JsonParse, parse: ParseFloat, cos: Coordinates.CosDeg, origin: Coordinates.Pair)
    requires Coordinates.NeverZero(cos)
    requires !AllSpace(f.input)
    ensures f.format == "json" && !json(Trim(f.input)).JsonArray? ==>
      ParsedPoints(f, json, parse, cos, origin) == Err(JsonFailure(json(Trim(f.input))))
    ensures RawPoints(f, json, parse).Ok? && f.coordType == "meter" && (parse(f.refLon).None? || parse(f.refLat).None?) ==>
      ParsedPoints(f, json, parse, cos, origin).Err?
    ensures f.format != "json" ==> RawPoints(f, json, parse).Ok?
  {
    TrimEmptyIffBlank(f.input);
  }

  /** Each converted point, read as metres from the same reference point again, is the point as typed. */
  lemma ToDegreesConvertsBack(cs: seq<Coord>, refLon: real, refLat: real, cos: Coordinates.CosDeg)
    requires cos(refLat) != 0.0
    ensures forall i :: 0 <= i < |cs| ==>
      var d := ToDegrees(cs, refLon, refLat, cos)[i];
      Coordinates.LonLatToMeters(d.x, d.y, refLon, refLat, cos) == Coordinates.Pair(cs[i].x, cs[i].y)
  {
    forall i | 0 <= i < |cs|
      ensures var d := ToDegrees(cs, refLon, refLat, cos)[i];
        Coordinates.LonLatToMeters(d.x, d.y, refLon, refLat, cos) == Coordinates.Pair(cs[i].x, cs[i].y)
    {
      Coordinates.MetersRoundTrip(cs[i].x, cs[i].y, refLon, refLat, cos);
    }
  }

  /**
   * In metre mode with a numeric reference point the parsed points are the
   * typed points converted around it; in degree mode they are the typed points.
   */
  lemma ParsedByMode(f: Form, json: JsonParse, parse: ParseFloat, cos: Coordinates.CosDeg, origin: Coordinates.Pair)
    requires Coordinates.NeverZero(cos)
    requires !AllSpace(f.input) && RawPoints(f, json, parse).Ok?
    ensures f.coordType == "meter" && parse(f.refLon).Some? && parse(f.refLat).Some? ==>
      && cos(parse(f.refLat).value) != 0.0
      && ParsedPoints(f, json, parse, cos, origin)
         == Ok(ToDegrees(RawPoints(f, json, parse).value, parse(f.refLon).value, parse(f.refLat).value, cos))
    ensures f.coordType == "scene" ==>
      && cos(origin.b) != 0.0
      && ParsedPoints(f, json, parse, cos, origin) == Ok(ToDegrees(RawPoints(f, json, parse).value, origin.a, origin.b, cos))
    ensures f.coordType != "meter" && f.coordType != "scene" ==> ParsedPoints(f, json, parse, cos, origin) == RawPoints(f, json, parse)
  {
    TrimEmptyIffBlank(f.input);
  }

  // ------------------------------------------------------------ creating

  /** The ids `start`, `start + 1`, ..., one per point. */
  function Run(start: int, n: nat): (r: seq<int>)
    ensures |r| == n
    ensures forall i :: 0 <= i < n ==> r[i] == start + i
  {
    seq(n, i => start + i)
  }

  lemma RunSnoc(start: int, n: nat)
    ensures Run(start, n) + [start + n] == Run(start, n + 1)
  {
  }

  /** One untagged node per point. */
  function Untagged(cs: seq<Coord>): (ns: seq<Node>)
    ensures |ns| == |cs|
    ensures forall i :: 0 <= i < |cs| ==> ns[i] == Node(cs[i].x, cs[i].y, map[])
  {
    seq(|cs|, i requires 0 <= i < |cs| => Node(cs[i].x, cs[i].y, map[]))
  }

  /** The untagged nodes for the points, numbered from `start` in point order. */
  function NewNodes(start: int, cs: seq<Coord>): (m: map<int, Node>)
    ensures forall k :: k in m <==> start <= k < start + |cs|
    ensures forall k :: k in m ==> m[k] == Node(cs[k - start].x, cs[k - start].y, map[])
  {
    NumberedSpec(start, Untagged(cs));
    Numbered(start, Untagged(cs))
  }

  /**
   * The node loop shared by the import and the manual entry dialog: each
   * point becomes an untagged node under the next free id (largest id plus
   * one, or 1), so the ids are consecutive, in point order.
   */
  method AddNodes(ed: Editing.Editor, cs: seq<Coord>) returns (ids: seq<int>)
    modifies ed`nodes
    ensures ids == Run(NextId(old(ed.nodes).Keys), |cs|)
    ensures ed.nodes == old(ed.nodes) + NewNodes(NextId(old(ed.nodes).Keys), cs)
  {
    var nodes;
    nodes, ids := NumberPoints(ed.nodes, cs);
    ed.nodes := nodes;
  }

  /** That loop on the node map as a value: each point in turn goes in under the next free id. */
  method NumberPoints(nodes: map<int, Node>, cs: seq<Coord>) returns (m: map<int, Node>, ids: seq<int>)
    ensures ids == Run(NextId(nodes.Keys), |cs|)
    ensures m == nodes + NewNodes(NextId(nodes.Keys), cs)
  {
    ghost var start := NextId(nodes.Keys);
    ghost var ns := Untagged(cs);
    m := nodes;
    ids := [];
    var i := 0;
    while i < |cs|
      invariant 0 <= i <= |cs|
      invariant ids == Run(start, i)
      invariant m == nodes + Numbered(start, ns[..i])
    {
      NextIdAfterNumbered(nodes, ns, i);
      var nid := NextId(m.Keys);
      NumberedSnoc(nodes, start, ns, i);
      m := m[nid := Node(cs[i].x, cs[i].y, map[])];
      RunSnoc(start, i);
      ids := ids + [nid];
      i := i + 1;
    }
    assert ns[..|cs|] == ns;
  }

  /** The new nodes are all fresh: every existing node is kept as it was, and one node is added per point. */
  lemma NewNodesAreFresh(base: map<int, Node>, cs: seq<Coord>)
    ensures var m := base + NewNodes(NextId(base.Keys), cs);
      && (forall k :: k in base ==> k in m && m[k] == base[k])
      && |m.Keys| == |base.Keys| + |cs|
  {
    NumberedAreFresh(base, Untagged(cs));
  }

  /**
   * The way over the new nodes: with auto-close and at least three ids the
   * first id is appended (unless already last); `building` and `name` come
   * from the trimmed inputs when they are not blank; `area=yes` marks a
   * closed list of at least four refs.
   */
  function ImportedWay(ids: seq<int>, autoClose: bool, building: string, name: string): (w: Way)
    ensures |ids| <= |w.nodes| <= |ids| + 1 && w.nodes[..|ids|] == ids
    ensures w.tags.Keys <= {"building", "name", "area"}
  {
    var refs := ClosedRefs(ids, autoClose);
    Way(refs, AreaTag(refs, NameTags(building, name)))
  }

  /** The node list: the first id appended when auto-closing at least three ids that are not yet closed. */
  function ClosedRefs(ids: seq<int>, autoClose: bool): seq<int>
  {
    if autoClose && |ids| >= 3 && ids[0] != ids[|ids| - 1] then ids + [ids[0]] else ids
  }

  /** `building` and `name` from the trimmed inputs, each only when not blank. */
  function NameTags(building: string, name: string): Tags
  {
    var t: Tags := if Trim(building) != [] then map["building" := Trim(building)] else map[];
    if Trim(name) != [] then t["name" := Trim(name)] else t
  }

  /** `area=yes` on a closed list of at least four refs. */
  function AreaTag(refs: seq<int>, t: Tags): Tags
  {
    if |refs| >= 4 && refs[0] == refs[|refs| - 1] then t["area" := "yes"] else t
  }

  /**
   * For fresh, distinct ids: auto-close with at least three points gives a
   * closed way tagged `area=yes`; otherwise the ids as they are and no
   * `area` tag; `building` and `name` are set exactly when not blank.
   */
  lemma ImportedWayRules(ids: seq<int>, autoClose: bool, building: string, name: string)
    requires Editing.NoDup(ids)
    ensures var w := ImportedWay(ids, autoClose, building, name);
      && (autoClose && |ids| >= 3 ==> IsClosed(w.nodes) && w.nodes == ids + [ids[0]] && "area" in w.tags && w.tags["area"] == "yes")
      && (!(autoClose && |ids| >= 3) ==> w.nodes == ids && "area" !in w.tags)
      && ("building" in w.tags <==> Trim(building) != [])
      && ("building" in w.tags ==> w.tags["building"] == Trim(building))
      && ("name" in w.tags <==> Trim(name) != [])
      && ("name" in w.tags ==> w.tags["name"] == Trim(name))
      && w.tags.Keys <= {"building", "name", "area"}
  {
    if |ids| >= 2 {
      assert ids[0] != ids[|ids| - 1];
    }
  }

  /** The way-building step shared by both dialogs: the way over `ids` goes in under the next free way id. */
  method AddWay(ed: Editing.Editor, ids: seq<int>, autoClose: bool, building: string, name: string) returns (wid: int)
    modifies ed`ways
    ensures wid == NextId(old(ed.ways).Keys) && wid !in old(ed.ways)
    ensures ed.ways == old(ed.ways)[wid := ImportedWay(ids, autoClose, building, name)]
  {
    var refs := ids;
    if autoClose && |refs| >= 3 && refs[0] != refs[|refs| - 1] {
      refs := refs + [refs[0]];
    }
    assert refs == ClosedRefs(ids, autoClose);
    wid := NextId(ed.ways.Keys);
    var tags: Tags := map[];
    var buildingTag := Trim(building);
    if buildingTag != [] {
      tags := tags["building" := buildingTag];
    }
    var nameTag := Trim(name);
    if nameTag != [] {
      tags := tags["name" := nameTag];
    }
    assert tags == NameTags(building, name);
    if |refs| >= 4 && refs[0] == refs[|refs| - 1] {
      tags := tags["area" := "yes"];
    }
    ed.ways := ed.ways[wid := Way(refs, tags)];
  }

  /** The node loop, then the way over the new nodes. */
  method AddNodesAndWay(ed: Editing.Editor, coords: seq<Coord>, autoClose: bool, building: string, name: string) returns (ids: seq<int>, wid: int)
    modifies ed`nodes, ed`ways
    ensures ids == Run(NextId(old(ed.nodes).Keys), |coords|)
    ensures wid == NextId(old(ed.ways).Keys)
    ensures ed.nodes == old(ed.nodes) + NewNodes(NextId(old(ed.nodes).Keys), coords)
    ensures ed.ways == old(ed.ways)[wid := ImportedWay(ids, autoClose, building, name)]
  {
    ids := AddNodes(ed, coords);
    wid := AddWay(ed, ids, autoClose, building, name);
  }

  // ------------------------------------------------------------ import

  /**
   * The second half of `import()`, once at least two points are read: clear
   * when asked, add the nodes and the way, fit the view, empty both stacks.
   */
  method AddPoints(ed: Editing.Editor, coords: seq<Coord>, clearExisting: bool, autoClose: bool, building: string, name: string,
                   width: real, height: real, worldToCanvas: Editing.WorldToCanvas) returns (ids: seq<int>, wid: int)
    modifies ed`nodes, ed`ways, ed`selectedNode, ed`selectedWay, ed`selectedWays, ed`undoStack, ed`redoStack
    modifies ed`centerX, ed`centerY, ed`scale
    ensures var baseNodes := if clearExisting then map[] else old(ed.nodes);
      var baseWays := if clearExisting then map[] else old(ed.ways);
      && ids == Run(NextId(baseNodes.Keys), |coords|)
      && wid == NextId(baseWays.Keys)
      && ed.nodes == baseNodes + NewNodes(NextId(baseNodes.Keys), coords)
      && ed.ways == baseWays[wid := ImportedWay(ids, autoClose, building, name)]
    ensures ed.CurrentView() == Editing.FittedView(ed.nodes, old(ed.CurrentView()), width, height, worldToCanvas)
    ensures ed.undoStack == [] && ed.redoStack == []
    ensures ed.Sel() == if clearExisting then Editing.NoSelection else old(ed.Sel())
  {
    ghost var view := ed.CurrentView();
    if clearExisting {
      ClearData(ed);
    }
    ids, wid := AddNodesAndWay(ed, coords, autoClose, building, name);
    assert ed.CurrentView() == view;
    FitAndResetHistory(ed, width, height, worldToCanvas);
  }

  /**
   * The last two steps both dialogs share: fit the view to the nodes (as
   * `Editing.Editor.FitToWindow` states) and empty both command stacks.
   */
  method FitAndResetHistory(ed: Editing.Editor, width: real, height: real, worldToCanvas: Editing.WorldToCanvas)
    modifies ed`centerX, ed`centerY, ed`scale, ed`undoStack, ed`redoStack
    ensures ed.CurrentView() == Editing.FittedView(ed.nodes, old(ed.CurrentView()), width, height, worldToCanvas)
    ensures ed.undoStack == [] && ed.redoStack == []
  {
    ed.FitToWindow(width, height, worldToCanvas);
    ed.undoStack := [];
    ed.redoStack := [];
  }

  /** "Clear existing data": no nodes, no ways, nothing selected. */
  method ClearData(ed: Editing.Editor)
    modifies ed`nodes, ed`ways, ed`selectedNode, ed`selectedWay, ed`selectedWays
    ensures ed.nodes == map[] && ed.ways == map[] && ed.Sel() == Editing.NoSelection
  {
    ed.nodes := map[];
    ed.ways := map[];
    ed.selectedNode := None;
    ed.selectedWay := None;
    ed.selectedWays := {};
  }

  /** What the import reports: the new node ids and way id, too few points, or the error message. */
  datatype Outcome = Imported(nodeIds: seq<int>, wayId: int) | TooFewPoints | Failed(message: string)

  /**
   * `import()`: parse; with fewer than two points or an error nothing
   * changes; otherwise (after clearing the data and the selection when asked)
   * add one node per point and one way over them, fit the view, and empty
   * both command stacks.
   */
  method Import(ed: Editing.Editor, f: Form, json: JsonParse, parse: ParseFloat, cos: Coordinates.CosDeg,
                clearExisting: bool, autoClose: bool, building: string, name: string,
                width: real, height: real, worldToCanvas: Editing.WorldToCanvas) returns (outcome: Outcome)
    requires Coordinates.NeverZero(cos)
    modifies ed`nodes, ed`ways, ed`selectedNode, ed`selectedWay, ed`selectedWays, ed`undoStack, ed`redoStack
    modifies ed`centerX, ed`centerY, ed`scale
    ensures var parsed := ParsedPoints(f, json, parse, cos, Coordinates.Pair(ed.coordSystem.sceneOriginLon, ed.coordSystem.sceneOriginLat));
      parsed.Err? || |parsed.value| < 2 ==>
        && outcome == (if parsed.Err? then Failed(parsed.message) else TooFewPoints)
        && ed.nodes == old(ed.nodes) && ed.ways == old(ed.ways) && ed.Sel() == old(ed.Sel()) && ed.Hist() == old(ed.Hist())
        && ed.centerX == old(ed.centerX) && ed.centerY == old(ed.centerY) && ed.scale == old(ed.scale)
    ensures var parsed := ParsedPoints(f, json, parse, cos, Coordinates.Pair(ed.coordSystem.sceneOriginLon, ed.coordSystem.sceneOriginLat));
      parsed.Ok? && |parsed.value| >= 2 ==>
        var baseNodes := if clearExisting then map[] else old(ed.nodes);
        var baseWays := if clearExisting then map[] else old(ed.ways);
        var ids := Run(NextId(baseNodes.Keys), |parsed.value|);
        var wid := NextId(baseWays.Keys);
        && outcome == Imported(ids, wid)
        && ed.nodes == baseNodes + NewNodes(NextId(baseNodes.Keys), parsed.value)
        && ed.ways == baseWays[wid := ImportedWay(ids, autoClose, building, name)]
        && ed.CurrentView() == Editing.FittedView(ed.nodes, old(ed.CurrentView()), width, height, worldToCanvas)
        && ed.undoStack == [] && ed.redoStack == []
        && ed.Sel() == if clearExisting then Editing.NoSelection else old(ed.Sel())
  {
    var origin := Coordinates.Pair(ed.coordSystem.sceneOriginLon, ed.coordSystem.sceneOriginLat);
    var parsed := ParseCoordinates(f, json, parse, cos, origin);
    if parsed.Err? {
      return Failed(parsed.message);
    }
    var coords := parsed.value;
    if |coords| < 2 {
      return TooFewPoints;
    }
    var ids, wid := AddPoints(ed, coords, clearExisting, autoClose, building, name, width, height, worldToCanvas);
    outcome := Imported(ids, wid);
  }
}
