/**
 * Saving and loading the graph as OSM XML (API version 0.6 layout).
 *
 * The XML text is not parsed here: a document is represented by its node and
 * way elements, in document order, with the attribute values already read as
 * numbers. `generateOSMXML` writes the text of such a list of elements, and
 * `loadOSMData` rebuilds the maps from such a list.
 */
module OsmXml {
  import opened Wrappers
  import opened OsmGraph
  import opened Text
  import Editing

  /** A `<tag k=".." v=".."/>` child. */
  datatype TagPair = TagPair(k: string, v: string)

  /** A `<node>` element: id, position and tag children in order. */
  datatype NodeElem = NodeElem(id: int, lat: real, lon: real, tags: seq<TagPair>)

  /** A `<way>` element: id, `<nd ref>` children and tag children, in order. */
  datatype WayElem = WayElem(id: int, refs: seq<int>, tags: seq<TagPair>)

  /** The tag a node's output never carries. */
  const ModifiedKey: string := "modified"

  /** The order `Object.entries` lists a tag object's keys in. */
  type KeyOrder = Tags -> seq<string>

  /** The set of the elements of a sequence (prefix-recursive). */
  function SeqSet<T>(s: seq<T>): set<T>
  {
    if s == [] then {} else SeqSet(s[..|s| - 1]) + {s[|s| - 1]}
  }

  lemma {:induction false} SeqSetMembers<T>(s: seq<T>)
    ensures forall x :: x in SeqSet(s) <==> x in s
  {
    if s != [] {
      SeqSetMembers(s[..|s| - 1]);
      assert s == s[..|s| - 1] + [s[|s| - 1]];
    }
  }

  /** An order lists every key of the map once. */
  predicate Enumerates<V>(order: seq<int>, m: map<int, V>)
  {
    && (forall i, j :: 0 <= i < j < |order| ==> order[i] != order[j])
    && (forall i :: 0 <= i < |order| ==> order[i] in m)
    && (forall id :: id in m ==> id in order)
  }

  /** The key order lists every key of every tag map once. */
  ghost predicate EnumeratesTags(keyOrder: KeyOrder)
  {
    forall t: Tags :: && (forall i, j :: 0 <= i < j < |keyOrder(t)| ==> keyOrder(t)[i] != keyOrder(t)[j])
                      && (forall i :: 0 <= i < |keyOrder(t)| ==> keyOrder(t)[i] in t)
                      && (forall k :: k in t ==> k in keyOrder(t))
  }

  /** The keys without `m`, order kept. */
  function Without(keys: seq<string>, m: string): (r: seq<string>)
    ensures |r| <= |keys|
    ensures forall i :: 0 <= i < |r| ==> r[i] in keys && r[i] != m
  {
    if keys == [] then []
    else Without(keys[..|keys| - 1], m) + (if keys[|keys| - 1] == m then [] else [keys[|keys| - 1]])
  }

  lemma {:induction false} WithoutSpec(keys: seq<string>, m: string)
    ensures forall k :: k in Without(keys, m) <==> k in keys && k != m
    ensures (forall i, j :: 0 <= i < j < |keys| ==> keys[i] != keys[j]) ==>
      forall i, j :: 0 <= i < j < |Without(keys, m)| ==> Without(keys, m)[i] != Without(keys, m)[j]
  {
    if keys != [] {
      var init := keys[..|keys| - 1];
      WithoutSpec(init, m);
      assert keys == init + [keys[|keys| - 1]];
    }
  }

  /** Every key listed is a key of `t`. */
  predicate KeysIn(t: Tags, keys: seq<string>)
  {
    forall i :: 0 <= i < |keys| ==> keys[i] in t
  }

  /** The tag children for the given keys of `t`, in that order. */
  function Pairs(t: Tags, keys: seq<string>): (r: seq<TagPair>)
    requires KeysIn(t, keys)
    ensures |r| == |keys|
    ensures forall i :: 0 <= i < |r| ==> r[i] == TagPair(keys[i], t[keys[i]])
  {
    if keys == [] then [] else Pairs(t, keys[..|keys| - 1]) + [TagPair(keys[|keys| - 1], t[keys[|keys| - 1]])]
  }

  /** The element written for node `id`: its position and every tag but `modified`. */
  function NodeElemOf(id: int, n: Node, keyOrder: KeyOrder): (e: NodeElem)
    requires EnumeratesTags(keyOrder)
    ensures e.id == id && e.lat == n.lat && e.lon == n.lon
    ensures forall j :: 0 <= j < |e.tags| ==> e.tags[j].k != ModifiedKey && e.tags[j].k in n.tags && e.tags[j].v == n.tags[e.tags[j].k]
  {
    WithoutSpec(keyOrder(n.tags), ModifiedKey);
    NodeElem(id, n.lat, n.lon, Pairs(n.tags, Without(keyOrder(n.tags), ModifiedKey)))
  }

  /** The element written for way `id`: its refs and every tag. */
  function WayElemOf(id: int, w: Way, keyOrder: KeyOrder): (e: WayElem)
    requires EnumeratesTags(keyOrder)
    ensures e.id == id && e.refs == w.nodes
    ensures forall j :: 0 <= j < |e.tags| ==> e.tags[j].k in w.tags && e.tags[j].v == w.tags[e.tags[j].k]
  {
    WayElem(id, w.nodes, Pairs(w.tags, keyOrder(w.tags)))
  }

  /** The elements `generateOSMXML` writes for the nodes, in `order`; the `modified` tag is left out. */
  function ExportNodes(nodes: map<int, Node>, order: seq<int>, keyOrder: KeyOrder): (r: seq<NodeElem>)
    requires forall i :: 0 <= i < |order| ==> order[i] in nodes
    requires EnumeratesTags(keyOrder)
    ensures |r| == |order|
    ensures forall i :: 0 <= i < |r| ==> r[i] == NodeElemOf(order[i], nodes[order[i]], keyOrder)
  {
    if order == [] then []
    else
      var id := order[|order| - 1];
      ExportNodes(nodes, order[..|order| - 1], keyOrder) + [NodeElemOf(id, nodes[id], keyOrder)]
  }

  /** The elements `generateOSMXML` writes for the ways, in `order`: every ref in order and every tag. */
  function ExportWays(ways: map<int, Way>, order: seq<int>, keyOrder: KeyOrder): (r: seq<WayElem>)
    requires forall i :: 0 <= i < |order| ==> order[i] in ways
    requires EnumeratesTags(keyOrder)
    ensures |r| == |order|
    ensures forall i :: 0 <= i < |r| ==> r[i].id == order[i] && r[i].refs == ways[order[i]].nodes
    ensures forall i :: 0 <= i < |r| ==> r[i] == WayElemOf(order[i], ways[order[i]], keyOrder)
  {
    if order == [] then []
    else
      var id := order[|order| - 1];
      ExportWays(ways, order[..|order| - 1], keyOrder) + [WayElemOf(id, ways[id], keyOrder)]
  }

  // ------------------------------------------------------------ the text

  const XmlHeader: string := "<?xml version=\"1.0\" encoding=\"UTF-8\"?>\n<osm version=\"0.6\" generator=\"OSM Editor Refactored\">\n"
  const XmlFooter: string := "</osm>"

  function TagLine(p: TagPair): string
  {
    "    <tag k=\"" + p.k + "\" v=\"" + p.v + "\"/>\n"
  }

  function TagLines(ps: seq<TagPair>): string
  {
    if ps == [] then "" else TagLines(ps[..|ps| - 1]) + TagLine(ps[|ps| - 1])
  }

  function NdLine(ref: int): string
  {
    "    <nd ref=\"" + IntToString(ref) + "\"/>\n"
  }

  function NdLines(refs: seq<int>): string
  {
    if refs == [] then "" else NdLines(refs[..|refs| - 1]) + NdLine(refs[|refs| - 1])
  }

  /** The opening line of a node; `fixed7` is `toFixed(7)`. */
  function NodeOpen(e: NodeElem, fixed7: real -> string): string
  {
    "  <node id=\"" + IntToString(e.id) + "\" lat=\"" + fixed7(e.lat) + "\" lon=\"" + fixed7(e.lon) + "\">\n"
  }

  function NodeText(e: NodeElem, fixed7: real -> string): string
  {
    NodeOpen(e, fixed7) + TagLines(e.tags) + "  </node>\n"
  }

  function WayText(e: WayElem): string
  {
    "  <way id=\"" + IntToString(e.id) + "\">\n" + NdLines(e.refs) + TagLines(e.tags) + "  </way>\n"
  }

  function NodesText(es: seq<NodeElem>, fixed7: real -> string): string
  {
    if es == [] then "" else NodesText(es[..|es| - 1], fixed7) + NodeText(es[|es| - 1], fixed7)
  }

  function WaysText(es: seq<WayElem>): string
  {
    if es == [] then "" else WaysText(es[..|es| - 1]) + WayText(es[|es| - 1])
  }

  /** The whole document: header, every node, every way, closing tag. */
  function DocumentText(ns: seq<NodeElem>, ws: seq<WayElem>, fixed7: real -> string): string
  {
    XmlHeader + NodesText(ns, fixed7) + WaysText(ws) + XmlFooter
  }

  /** One more key adds one more tag line. */
  lemma PairsSnoc(t: Tags, keys: seq<string>, k: string)
    requires KeysIn(t, keys)
    requires k in t
    ensures TagLines(Pairs(t, keys + [k])) == TagLines(Pairs(t, keys)) + TagLine(TagPair(k, t[k]))
  {
    assert (keys + [k])[..|keys|] == keys;
    var ps := Pairs(t, keys + [k]);
    assert ps[..|ps| - 1] == Pairs(t, keys);
  }

  lemma PairsStep(t: Tags, keys: seq<string>, j: nat)
    requires j < |keys|
    requires KeysIn(t, keys)
    ensures TagLines(Pairs(t, keys[..j + 1])) == TagLines(Pairs(t, keys[..j])) + TagLine(TagPair(keys[j], t[keys[j]]))
  {
    assert keys[..j + 1] == keys[..j] + [keys[j]];
    PairsSnoc(t, keys[..j], keys[j]);
  }

  /** The tag lines of a way, for `keys` in order (the inner loop of `generateOSMXML`). */
  method WriteTags(t: Tags, keys: seq<string>) returns (text: string)
    requires KeysIn(t, keys)
    ensures text == TagLines(Pairs(t, keys))
  {
    text := "";
    var j := 0;
    while j < |keys|
      invariant 0 <= j <= |keys|
      invariant text == TagLines(Pairs(t, keys[..j]))
    {
      PairsStep(t, keys, j);
      text := text + TagLine(TagPair(keys[j], t[keys[j]]));
      j := j + 1;
    }
    assert keys[..|keys|] == keys;
  }

  /** One more key adds one more tag line, unless it is `modified`. */
  lemma NodePairsStep(t: Tags, keys: seq<string>, j: nat)
    requires j < |keys|
    requires KeysIn(t, keys)
    ensures KeysIn(t, Without(keys[..j + 1], ModifiedKey))
    ensures TagLines(Pairs(t, Without(keys[..j + 1], ModifiedKey)))
         == TagLines(Pairs(t, Without(keys[..j], ModifiedKey))) + (if keys[j] == ModifiedKey then "" else TagLine(TagPair(keys[j], t[keys[j]])))
  {
    var w := Without(keys[..j], ModifiedKey);
    assert keys[..j + 1][..j] == keys[..j];
    if keys[j] != ModifiedKey {
      assert Without(keys[..j + 1], ModifiedKey) == w + [keys[j]];
      PairsSnoc(t, w, keys[j]);
    } else {
      assert Without(keys[..j + 1], ModifiedKey) == w;
    }
  }

  /** The tag lines of a node: as `WriteTags`, but a `modified` key is skipped. */
  method WriteNodeTags(t: Tags, keys: seq<string>) returns (text: string)
    requires KeysIn(t, keys)
    ensures KeysIn(t, Without(keys, ModifiedKey))
    ensures text == TagLines(Pairs(t, Without(keys, ModifiedKey)))
  {
    text := "";
    var j := 0;
    while j < |keys|
      invariant 0 <= j <= |keys|
      invariant KeysIn(t, Without(keys[..j], ModifiedKey))
      invariant text == TagLines(Pairs(t, Without(keys[..j], ModifiedKey)))
    {
      NodePairsStep(t, keys, j);
      if keys[j] != ModifiedKey {
        text := text + TagLine(TagPair(keys[j], t[keys[j]]));
      }
      j := j + 1;
    }
    assert keys[..|keys|] == keys;
  }

  /** The `nd` lines of a way, in order. */
  method WriteRefs(refs: seq<int>) returns (text: string)
    ensures text == NdLines(refs)
  {
    text := "";
    var j := 0;
    while j < |refs|
      invariant 0 <= j <= |refs|
      invariant text == NdLines(refs[..j])
    {
      assert refs[..j + 1][..j] == refs[..j];
      text := text + NdLine(refs[j]);
      j := j + 1;
    }
    assert refs[..|refs|] == refs;
  }

  /** The text of one node element (one pass of the node loop of `generateOSMXML`). */
  method WriteNode(id: int, n: Node, keyOrder: KeyOrder, fixed7: real -> string) returns (text: string)
    requires EnumeratesTags(keyOrder)
    ensures text == NodeText(NodeElemOf(id, n, keyOrder), fixed7)
  {
    var tagText := WriteNodeTags(n.tags, keyOrder(n.tags));
    text := NodeOpen(NodeElemOf(id, n, keyOrder), fixed7) + tagText + "  </node>\n";
  }

  /** The text of one way element (one pass of the way loop of `generateOSMXML`). */
  method WriteWay(id: int, w: Way, keyOrder: KeyOrder) returns (text: string)
    requires EnumeratesTags(keyOrder)
    ensures text == WayText(WayElemOf(id, w, keyOrder))
  {
    var refText := WriteRefs(w.nodes);
    var tagText := WriteTags(w.tags, keyOrder(w.tags));
    text := "  <way id=\"" + IntToString(id) + "\">\n" + refText + tagText + "  </way>\n";
  }

  lemma NodesTextStep(nodes: map<int, Node>, order: seq<int>, keyOrder: KeyOrder, fixed7: real -> string, i: nat)
    requires i < |order|
    requires forall k :: 0 <= k < |order| ==> order[k] in nodes
    requires EnumeratesTags(keyOrder)
    ensures NodesText(ExportNodes(nodes, order[..i + 1], keyOrder), fixed7)
         == NodesText(ExportNodes(nodes, order[..i], keyOrder), fixed7) + NodeText(NodeElemOf(order[i], nodes[order[i]], keyOrder), fixed7)
  {
    assert order[..i + 1][..i] == order[..i];
    var es := ExportNodes(nodes, order[..i + 1], keyOrder);
    assert es[..|es| - 1] == ExportNodes(nodes, order[..i], keyOrder);
  }

  lemma WaysTextStep(ways: map<int, Way>, order: seq<int>, keyOrder: KeyOrder, i: nat)
    requires i < |order|
    requires forall k :: 0 <= k < |order| ==> order[k] in ways
    requires EnumeratesTags(keyOrder)
    ensures WaysText(ExportWays(ways, order[..i + 1], keyOrder))
         == WaysText(ExportWays(ways, order[..i], keyOrder)) + WayText(WayElemOf(order[i], ways[order[i]], keyOrder))
  {
    assert order[..i + 1][..i] == order[..i];
    var es := ExportWays(ways, order[..i + 1], keyOrder);
    assert es[..|es| - 1] == ExportWays(ways, order[..i], keyOrder);
  }

  /** The node loop of `generateOSMXML`. */
  method WriteNodes(nodes: map<int, Node>, order: seq<int>, keyOrder: KeyOrder, fixed7: real -> string) returns (body: string)
    requires forall k :: 0 <= k < |order| ==> order[k] in nodes
    requires EnumeratesTags(keyOrder)
    ensures body == NodesText(ExportNodes(nodes, order, keyOrder), fixed7)
  {
    body := "";
    var i := 0;
    while i < |order|
      invariant 0 <= i <= |order|
      invariant body == NodesText(ExportNodes(nodes, order[..i], keyOrder), fixed7)
    {
      var text := WriteNode(order[i], nodes[order[i]], keyOrder, fixed7);
      NodesTextStep(nodes, order, keyOrder, fixed7, i);
      body := body + text;
      i := i + 1;
    }
    assert order[..|order|] == order;
  }

  /** The way loop of `generateOSMXML`. */
  method WriteWays(ways: map<int, Way>, order: seq<int>, keyOrder: KeyOrder) returns (body: string)
    requires forall k :: 0 <= k < |order| ==> order[k] in ways
    requires EnumeratesTags(keyOrder)
    ensures body == WaysText(ExportWays(ways, order, keyOrder))
  {
    body := "";
    var i := 0;
    while i < |order|
      invariant 0 <= i <= |order|
      invariant body == WaysText(ExportWays(ways, order[..i], keyOrder))
    {
      var text := WriteWay(order[i], ways[order[i]], keyOrder);
      WaysTextStep(ways, order, keyOrder, i);
      body := body + text;
      i := i + 1;
    }
    assert order[..|order|] == order;
  }

  /**
   * `generateOSMXML()`: the nodes in `nodeOrder` then the ways in
   * `wayOrder` (the maps' own iteration orders), each with its tags in
   * `keyOrder`; node tags named `modified` are skipped.
   */
  method GenerateOSMXML(nodes: map<int, Node>, ways: map<int, Way>, nodeOrder: seq<int>, wayOrder: seq<int>, keyOrder: KeyOrder, fixed7: real -> string) returns (xml: string)
    requires Enumerates(nodeOrder, nodes) && Enumerates(wayOrder, ways)
    requires EnumeratesTags(keyOrder)
    ensures xml == DocumentText(ExportNodes(nodes, nodeOrder, keyOrder), ExportWays(ways, wayOrder, keyOrder), fixed7)
  {
    var nodesText := WriteNodes(nodes, nodeOrder, keyOrder, fixed7);
    var waysText := WriteWays(ways, wayOrder, keyOrder);
    xml := XmlHeader + nodesText + waysText + XmlFooter;
  }

  // ------------------------------------------------------------ loading

  /** Tag children into a tag object: a later duplicate key overwrites. */
  function TagsOf(ps: seq<TagPair>): (r: Tags)
    ensures ps != [] ==> ps[|ps| - 1].k in r && r[ps[|ps| - 1].k] == ps[|ps| - 1].v
  {
    if ps == [] then map[] else TagsOf(ps[..|ps| - 1])[ps[|ps| - 1].k := ps[|ps| - 1].v]
  }

  /** The keys of `TagsOf` are exactly the children's keys. */
  lemma {:induction false} TagsOfKeys(ps: seq<TagPair>)
    ensures TagsOf(ps).Keys == set i | 0 <= i < |ps| :: ps[i].k
    decreases |ps|
  {
    if ps != [] {
      var init := ps[..|ps| - 1];
      TagsOfKeys(init);
      assert forall i :: 0 <= i < |init| ==> init[i] == ps[i];
      assert (set i | 0 <= i < |ps| :: ps[i].k) == (set i | 0 <= i < |init| :: init[i].k) + {ps[|ps| - 1].k};
    }
  }

  /** In `TagsOf`, each key holds the value of its last child. */
  lemma {:induction false} TagsOfLastWins(ps: seq<TagPair>, i: int)
    requires 0 <= i < |ps|
    requires forall j :: i < j < |ps| ==> ps[j].k != ps[i].k
    ensures ps[i].k in TagsOf(ps) && TagsOf(ps)[ps[i].k] == ps[i].v
    decreases |ps|
  {
    if i < |ps| - 1 {
      var init := ps[..|ps| - 1];
      assert init[i] == ps[i];
      TagsOfLastWins(init, i);
    }
  }

  /** The `nd` refs kept on load: those naming a loaded node, in order. */
  function KnownRefs(refs: seq<int>, nodes: map<int, Node>): (r: seq<int>)
    ensures forall i :: 0 <= i < |r| ==> r[i] in nodes
    ensures |r| <= |refs|
  {
    if refs == [] then []
    else KnownRefs(refs[..|refs| - 1], nodes) + (if refs[|refs| - 1] in nodes then [refs[|refs| - 1]] else [])
  }

  /** The node map `loadOSMData` builds: each element in turn, a later duplicate id overwriting. */
  function LoadedNodes(es: seq<NodeElem>): (r: map<int, Node>)
    ensures |r| <= |es|
    ensures es != [] ==>
      var e := es[|es| - 1];
      e.id in r && r[e.id] == Node(e.lon, e.lat, TagsOf(e.tags))
  {
    if es == [] then map[]
    else
      var e := es[|es| - 1];
      LoadedNodes(es[..|es| - 1])[e.id := Node(e.lon, e.lat, TagsOf(e.tags))]
  }

  /** The way map `loadOSMData` builds: a way whose refs all drop out is not stored. */
  function LoadedWays(es: seq<WayElem>, nodes: map<int, Node>): (r: map<int, Way>)
    ensures |r| <= |es|
    ensures es != [] ==>
      var e := es[|es| - 1];
      (e.id in r <==> e.id in LoadedWays(es[..|es| - 1], nodes) || KnownRefs(e.refs, nodes) != [])
      && (KnownRefs(e.refs, nodes) != [] ==> r[e.id] == Way(KnownRefs(e.refs, nodes), TagsOf(e.tags)))
  {
    if es == [] then map[]
    else
      var e := es[|es| - 1];
      var refs := KnownRefs(e.refs, nodes);
      var prev := LoadedWays(es[..|es| - 1], nodes);
      if |refs| > 0 then prev[e.id := Way(refs, TagsOf(e.tags))] else prev
  }

  /**
   * `loadOSMData` after parsing: clear both maps, load every node element,
   * then every way element against the loaded nodes.
   */
  method LoadOSMData(ed: Editing.Editor, nodeElems: seq<NodeElem>, wayElems: seq<WayElem>)
    modifies ed`nodes, ed`ways
    ensures ed.nodes == LoadedNodes(nodeElems)
    ensures ed.ways == LoadedWays(wayElems, ed.nodes)
  {
    ed.nodes := map[];
    ed.ways := map[];
    var i := 0;
    while i < |nodeElems|
      invariant 0 <= i <= |nodeElems|
      invariant ed.nodes == LoadedNodes(nodeElems[..i]) && ed.ways == map[]
    {
      var e := nodeElems[i];
      var tags := ReadTags(e.tags);
      ed.nodes := ed.nodes[e.id := Node(e.lon, e.lat, tags)];
      assert nodeElems[..i + 1][..i] == nodeElems[..i];
      i := i + 1;
    }
    assert nodeElems[..|nodeElems|] == nodeElems;
    i := 0;
    while i < |wayElems|
      invariant 0 <= i <= |wayElems|
      invariant ed.nodes == LoadedNodes(nodeElems)
      invariant ed.ways == LoadedWays(wayElems[..i], ed.nodes)
    {
      var e := wayElems[i];
      var refs := ReadRefs(e.refs, ed.nodes);
      var tags := ReadTags(e.tags);
      if |refs| > 0 {
        ed.ways := ed.ways[e.id := Way(refs, tags)];
      }
      assert wayElems[..i + 1][..i] == wayElems[..i];
      i := i + 1;
    }
    assert wayElems[..|wayElems|] == wayElems;
  }

  /** The `querySelectorAll('nd')` loop of `loadOSMData`: keep the refs that name a loaded node. */
  method ReadRefs(refs: seq<int>, nodes: map<int, Node>) returns (r: seq<int>)
    ensures r == KnownRefs(refs, nodes)
  {
    r := [];
    var j := 0;
    while j < |refs|
      invariant 0 <= j <= |refs|
      invariant r == KnownRefs(refs[..j], nodes)
    {
      assert refs[..j + 1][..j] == refs[..j];
      if refs[j] in nodes {
        r := r + [refs[j]];
      }
      j := j + 1;
    }
    assert refs[..|refs|] == refs;
  }

  /** The `querySelectorAll('tag').forEach` loop of `loadOSMData`. */
  method ReadTags(ps: seq<TagPair>) returns (tags: Tags)
    ensures tags == TagsOf(ps)
  {
    tags := map[];
    var i := 0;
    while i < |ps|
      invariant 0 <= i <= |ps|
      invariant tags == TagsOf(ps[..i])
    {
      assert ps[..i + 1][..i] == ps[..i];
      tags := tags[ps[i].k := ps[i].v];
      i := i + 1;
    }
    assert ps[..|ps|] == ps;
  }

  /**
   * `importOSM` once the file is read: load, fit the view to the new nodes,
   * and empty both command stacks.
   */
  method ImportOSM(ed: Editing.Editor, nodeElems: seq<NodeElem>, wayElems: seq<WayElem>, width: real, height: real, worldToCanvas: Editing.WorldToCanvas)
    modifies ed`nodes, ed`ways, ed`undoStack, ed`redoStack, ed`centerX, ed`centerY, ed`scale
    ensures ed.nodes == LoadedNodes(nodeElems)
    ensures ed.ways == LoadedWays(wayElems, ed.nodes)
    ensures ed.CurrentView() == Editing.FittedView(ed.nodes, old(ed.CurrentView()), width, height, worldToCanvas)
    ensures ed.undoStack == [] && ed.redoStack == []
  {
    ghost var view := ed.CurrentView();
    LoadOSMData(ed, nodeElems, wayElems);
    assert ed.CurrentView() == view;
    ghost var loaded := ed.nodes;
    ed.FitToWindow(width, height, worldToCanvas);
    assert ed.nodes == loaded;
    ed.undoStack := [];
    ed.redoStack := [];
  }

  // ------------------------------------------------------------ properties

  /** Every way has at least one ref, and every ref names a node. */
  predicate Resolved(ways: map<int, Way>, nodes: map<int, Node>)
  {
    forall wid :: wid in ways ==> |ways[wid].nodes| > 0 && forall i :: 0 <= i < |ways[wid].nodes| ==> ways[wid].nodes[i] in nodes
  }

  /** Every loaded way has at least one ref, each naming a loaded node. */
  lemma {:induction false} LoadedWaysAreResolved(es: seq<WayElem>, nodes: map<int, Node>)
    ensures Resolved(LoadedWays(es, nodes), nodes)
  {
    if es != [] {
      LoadedWaysAreResolved(es[..|es| - 1], nodes);
    }
  }

  /** The refs kept are exactly those naming a node, in their original order. */
  lemma {:induction false} KnownRefsFilter(refs: seq<int>, nodes: map<int, Node>)
    ensures forall r :: r in KnownRefs(refs, nodes) <==> r in refs && r in nodes
    ensures (forall i :: 0 <= i < |refs| ==> refs[i] in nodes) ==> KnownRefs(refs, nodes) == refs
  {
    if refs != [] {
      KnownRefsFilter(refs[..|refs| - 1], nodes);
      assert refs == refs[..|refs| - 1] + [refs[|refs| - 1]];
    }
  }

  /** The tag children of the keys in `keys` read back as `t` restricted to those keys. */
  lemma {:induction false} TagsOfPairs(t: Tags, keys: seq<string>)
    requires KeysIn(t, keys)
    ensures TagsOf(Pairs(t, keys)) == map k | k in t && k in SeqSet(keys) :: t[k]
  {
    if keys != [] {
      var init := keys[..|keys| - 1];
      TagsOfPairs(t, init);
      var ps := Pairs(t, keys);
      assert ps[..|ps| - 1] == Pairs(t, init);
    }
  }

  /** A node's tags with the `modified` entry removed. */
  function StripModified(nodes: map<int, Node>): (r: map<int, Node>)
    ensures r.Keys == nodes.Keys
    ensures forall id :: id in r ==> r[id].lon == nodes[id].lon && r[id].lat == nodes[id].lat && ModifiedKey !in r[id].tags
  {
    map id | id in nodes :: nodes[id].(tags := nodes[id].tags - {ModifiedKey})
  }

  /** Exported node tags read back as the node's tags without `modified`. */
  lemma NodeTagsRoundTrip(t: Tags, keyOrder: KeyOrder)
    requires EnumeratesTags(keyOrder)
    ensures KeysIn(t, Without(keyOrder(t), ModifiedKey))
    ensures TagsOf(Pairs(t, Without(keyOrder(t), ModifiedKey))) == t - {ModifiedKey}
  {
    var ko := keyOrder(t);
    assert (forall i :: 0 <= i < |ko| ==> ko[i] in t) && (forall k :: k in t ==> k in ko);
    StrippedPairs(t, ko);
  }

  /** The tag children for the keys of `ko` other than `modified` read back as `t` without `modified`. */
  lemma StrippedPairs(t: Tags, ko: seq<string>)
    requires forall i :: 0 <= i < |ko| ==> ko[i] in t
    requires forall k :: k in t ==> k in ko
    ensures KeysIn(t, Without(ko, ModifiedKey))
    ensures TagsOf(Pairs(t, Without(ko, ModifiedKey))) == t - {ModifiedKey}
  {
    var keys := Without(ko, ModifiedKey);
    assert KeysIn(t, keys);
    TagsOfPairs(t, keys);
    assert forall k :: k in SeqSet(keys) <==> k in t && k != ModifiedKey by {
      WithoutSpec(ko, ModifiedKey);
      SeqSetMembers(keys);
    }
    var read, want := map k | k in t && k in SeqSet(keys) :: t[k], t - {ModifiedKey};
    assert read.Keys == want.Keys;
    assert forall k :: k in read ==> read[k] == want[k];
  }

  /** Exported way tags read back as the way's tags. */
  lemma WayTagsRoundTrip(t: Tags, keyOrder: KeyOrder)
    requires EnumeratesTags(keyOrder)
    ensures TagsOf(Pairs(t, keyOrder(t))) == t
  {
    TagsOfPairs(t, keyOrder(t));
    SeqSetMembers(keyOrder(t));
  }

  /** The node map of the first nodes of `order`, with `modified` stripped. */
  function StrippedPrefix(nodes: map<int, Node>, order: seq<int>): (r: map<int, Node>)
    requires forall i :: 0 <= i < |order| ==> order[i] in nodes
  {
    if order == [] then map[]
    else
      var id := order[|order| - 1];
      StrippedPrefix(nodes, order[..|order| - 1])[id := nodes[id].(tags := nodes[id].tags - {ModifiedKey})]
  }

  lemma {:induction false} StrippedPrefixIsStripModified(nodes: map<int, Node>, order: seq<int>)
    requires forall i :: 0 <= i < |order| ==> order[i] in nodes
    ensures StrippedPrefix(nodes, order).Keys == SeqSet(order)
    ensures forall id :: id in StrippedPrefix(nodes, order) ==> id in nodes && StrippedPrefix(nodes, order)[id] == StripModified(nodes)[id]
  {
    if order != [] {
      StrippedPrefixIsStripModified(nodes, order[..|order| - 1]);
    }
  }

  lemma {:induction false} NodesRoundTripPrefix(nodes: map<int, Node>, order: seq<int>, keyOrder: KeyOrder)
    requires forall i :: 0 <= i < |order| ==> order[i] in nodes
    requires EnumeratesTags(keyOrder)
    ensures LoadedNodes(ExportNodes(nodes, order, keyOrder)) == StrippedPrefix(nodes, order)
  {
    if order != [] {
      var init := order[..|order| - 1];
      var id := order[|order| - 1];
      NodesRoundTripPrefix(nodes, init, keyOrder);
      NodeTagsRoundTrip(nodes[id].tags, keyOrder);
      var es := ExportNodes(nodes, order, keyOrder);
      assert es[..|es| - 1] == ExportNodes(nodes, init, keyOrder);
    }
  }

  /** The way map of the first ways of `order`. */
  function WaysPrefix(ways: map<int, Way>, order: seq<int>): (r: map<int, Way>)
    requires forall i :: 0 <= i < |order| ==> order[i] in ways
  {
    if order == [] then map[]
    else WaysPrefix(ways, order[..|order| - 1])[order[|order| - 1] := ways[order[|order| - 1]]]
  }

  lemma {:induction false} WaysPrefixIsRestriction(ways: map<int, Way>, order: seq<int>)
    requires forall i :: 0 <= i < |order| ==> order[i] in ways
    ensures WaysPrefix(ways, order).Keys == SeqSet(order)
    ensures forall wid :: wid in WaysPrefix(ways, order) ==> wid in ways && WaysPrefix(ways, order)[wid] == ways[wid]
  {
    if order != [] {
      WaysPrefixIsRestriction(ways, order[..|order| - 1]);
    }
  }

  /** Loading one exported way element gives back that way. */
  lemma LoadOneWay(w: Way, id: int, keyOrder: KeyOrder, nodes: map<int, Node>)
    requires forall i :: 0 <= i < |w.nodes| ==> w.nodes[i] in nodes
    requires EnumeratesTags(keyOrder)
    ensures KnownRefs(WayElemOf(id, w, keyOrder).refs, nodes) == w.nodes
    ensures TagsOf(WayElemOf(id, w, keyOrder).tags) == w.tags
  {
    WayTagsRoundTrip(w.tags, keyOrder);
    KnownRefsFilter(w.nodes, nodes);
  }

  lemma {:induction false} WaysRoundTripPrefix(ways: map<int, Way>, order: seq<int>, keyOrder: KeyOrder, nodes: map<int, Node>)
    requires forall i :: 0 <= i < |order| ==> order[i] in ways
    requires forall i :: 0 <= i < |order| ==> |ways[order[i]].nodes| > 0
    requires forall i, k :: 0 <= i < |order| && 0 <= k < |ways[order[i]].nodes| ==> ways[order[i]].nodes[k] in nodes
    requires EnumeratesTags(keyOrder)
    ensures LoadedWays(ExportWays(ways, order, keyOrder), nodes) == WaysPrefix(ways, order)
  {
    if order != [] {
      var init := order[..|order| - 1];
      var id := order[|order| - 1];
      WaysRoundTripPrefix(ways, init, keyOrder, nodes);
      var es := ExportWays(ways, order, keyOrder);
      assert es[..|es| - 1] == ExportWays(ways, init, keyOrder);
      LoadOneWay(ways[id], id, keyOrder, nodes);
    }
  }

  /** Saving then loading the nodes gives them back without their `modified` tags. */
  lemma ExportThenLoadNodes(nodes: map<int, Node>, nodeOrder: seq<int>, keyOrder: KeyOrder)
    requires Enumerates(nodeOrder, nodes)
    requires EnumeratesTags(keyOrder)
    ensures LoadedNodes(ExportNodes(nodes, nodeOrder, keyOrder)) == StripModified(nodes)
  {
    NodesRoundTripPrefix(nodes, nodeOrder, keyOrder);
    StrippedPrefixIsStripModified(nodes, nodeOrder);
    EnumeratedKeys(nodeOrder, nodes);
    var sp, sm := StrippedPrefix(nodes, nodeOrder), StripModified(nodes);
    assert sp.Keys == sm.Keys;
    assert forall id :: id in sp ==> sp[id] == sm[id];
  }

  /** An enumeration lists exactly the map's keys. */
  lemma EnumeratedKeys<V>(order: seq<int>, m: map<int, V>)
    requires Enumerates(order, m)
    ensures SeqSet(order) == m.Keys
  {
    SeqSetMembers(order);
    forall id | id in SeqSet(order)
      ensures id in m.Keys
    {
      var i :| 0 <= i < |order| && order[i] == id;
    }
    forall id | id in m.Keys
      ensures id in SeqSet(order)
    {
    }
  }

  /** All of an enumeration's prefix map is the whole way map. */
  lemma WaysPrefixAll(ways: map<int, Way>, wayOrder: seq<int>)
    requires Enumerates(wayOrder, ways)
    ensures WaysPrefix(ways, wayOrder) == ways
  {
    WaysPrefixIsRestriction(ways, wayOrder);
    EnumeratedKeys(wayOrder, ways);
    var wp := WaysPrefix(ways, wayOrder);
    assert wp.Keys == ways.Keys;
    assert forall wid :: wid in wp ==> wp[wid] == ways[wid];
  }

  /** Saving then loading the ways against nodes holding all their refs gives them back. */
  lemma ExportThenLoadWays(ways: map<int, Way>, wayOrder: seq<int>, keyOrder: KeyOrder, nodes: map<int, Node>)
    requires Enumerates(wayOrder, ways)
    requires EnumeratesTags(keyOrder)
    requires Resolved(ways, nodes)
    ensures LoadedWays(ExportWays(ways, wayOrder, keyOrder), nodes) == ways
  {
    forall i | 0 <= i < |wayOrder|
      ensures |ways[wayOrder[i]].nodes| > 0
    {
      var wid := wayOrder[i];
      assert wid in ways;
      assert |ways[wid].nodes| > 0;
    }
    forall i, k | 0 <= i < |wayOrder| && 0 <= k < |ways[wayOrder[i]].nodes|
      ensures ways[wayOrder[i]].nodes[k] in nodes
    {
      var wid := wayOrder[i];
      assert ways[wid].nodes[k] in nodes;
    }
    WaysRoundTripPrefix(ways, wayOrder, keyOrder, nodes);
    WaysPrefixAll(ways, wayOrder);
  }

  /**
   * Saving then loading gives back the graph, up to the `modified` tags the
   * writer drops from nodes, whenever every way has at least one ref and
   * every ref names an existing node (the loader drops the others).
   */
  lemma ExportThenLoad(nodes: map<int, Node>, ways: map<int, Way>, nodeOrder: seq<int>, wayOrder: seq<int>, keyOrder: KeyOrder)
    requires Enumerates(nodeOrder, nodes) && Enumerates(wayOrder, ways)
    requires EnumeratesTags(keyOrder)
    requires Resolved(ways, nodes)
    ensures LoadedNodes(ExportNodes(nodes, nodeOrder, keyOrder)) == StripModified(nodes)
    ensures LoadedWays(ExportWays(ways, wayOrder, keyOrder), StripModified(nodes)) == ways
  {
    ExportThenLoadNodes(nodes, nodeOrder, keyOrder);
    ExportThenLoadWays(ways, wayOrder, keyOrder, StripModified(nodes));
  }

  /** A node's `modified` tag never reaches the text; every other tag and every ref of a way does, in order. */
  lemma ExportKeepsAllButModified(nodes: map<int, Node>, ways: map<int, Way>, nodeOrder: seq<int>, wayOrder: seq<int>, keyOrder: KeyOrder)
    requires Enumerates(nodeOrder, nodes) && Enumerates(wayOrder, ways)
    requires EnumeratesTags(keyOrder)
    ensures forall i, j :: 0 <= i < |nodeOrder| && 0 <= j < |ExportNodes(nodes, nodeOrder, keyOrder)[i].tags| ==>
      ExportNodes(nodes, nodeOrder, keyOrder)[i].tags[j].k != ModifiedKey
    ensures forall i :: 0 <= i < |wayOrder| ==> ExportWays(ways, wayOrder, keyOrder)[i].refs == ways[wayOrder[i]].nodes
  {
    forall i, j | 0 <= i < |nodeOrder| && 0 <= j < |ExportNodes(nodes, nodeOrder, keyOrder)[i].tags|
      ensures ExportNodes(nodes, nodeOrder, keyOrder)[i].tags[j].k != ModifiedKey
    {
      ExportNodeAt(nodes, nodeOrder, keyOrder, i);
    }
  }

  /** The i-th exported node element. */
  lemma {:induction false} ExportNodeAt(nodes: map<int, Node>, order: seq<int>, keyOrder: KeyOrder, i: int)
    requires forall k :: 0 <= k < |order| ==> order[k] in nodes
    requires EnumeratesTags(keyOrder)
    requires 0 <= i < |order|
    ensures ExportNodes(nodes, order, keyOrder)[i] == NodeElemOf(order[i], nodes[order[i]], keyOrder)
  {
    if i < |order| - 1 {
      ExportNodeAt(nodes, order[..|order| - 1], keyOrder, i);
    }
  }
}
