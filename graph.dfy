/**
 * The node/way graph held by the editor: nodes with a position and tags, ways
 * that reference nodes by id, the closed-polygon test, id allocation and the
 * bounding box of all nodes.
 */
module OsmGraph {
  import opened Wrappers

  type Tags = map<string, string>

  /** A node: geographic position in degrees and its tags. */
  datatype Node = Node(lon: real, lat: real, tags: Tags)

  /** A way: an ordered list of node ids (weak references) and its tags. */
  datatype Way = Way(nodes: seq<int>, tags: Tags)

  /** A way is a closed polygon iff it has at least four references and its first id equals its last. */
  predicate IsClosed(refs: seq<int>)
  {
    |refs| >= 4 && refs[0] == refs[|refs| - 1]
  }

  /** A set with no element is empty. */
  lemma EmptyIfNoElement<T>(s: set<T>)
    requires !(exists x :: x in s)
    ensures s == {}
  {
    assert forall x :: x in s <==> x in {};
  }

  /** A non-empty set has an element (stated for the `:|` choices below). */
  lemma IntsHaveElement(s: set<int>)
    requires s != {}
    ensures exists x :: x in s
  {
    if !(exists x :: x in s) {
      EmptyIfNoElement(s);
      assert false;
    }
  }

  lemma MapEmptyIfNoKey<V>(m: map<int, V>)
    requires !(exists k :: k in m)
    ensures m == map[]
  {
    assert !(exists k :: k in m.Keys);
    EmptyIfNoElement(m.Keys);
    assert m.Keys == {};
  }

  /** A non-empty map has a key. */
  lemma MapHasKey<V>(m: map<int, V>)
    requires m != map[]
    ensures exists k :: k in m
  {
    if !(exists k :: k in m) {
      MapEmptyIfNoKey(m);
      assert false;
    }
  }

  lemma {:induction false} MaxIntExists(s: set<int>)
    requires s != {}
    ensures exists m :: m in s && forall y :: y in s ==> y <= m
  {
    IntsHaveElement(s);
    var x :| x in s;
    var w := x;
    if s == {x} {
      assert forall y :: y in s ==> y <= x;
    } else {
      MaxIntExists(s - {x});
      var m :| m in s - {x} && forall y :: y in s - {x} ==> y <= m;
      w := if x <= m then m else x;
      forall y | y in s ensures y <= w {
        if y != x { assert y in s - {x}; }
      }
    }
    assert w in s && forall y :: y in s ==> y <= w;
  }

  /** The largest element of a non-empty set: `Math.max(...s)`. */
  function MaxInt(s: set<int>): (m: int)
    requires s != {}
    ensures m in s && forall y :: y in s ==> y <= m
  {
    MaxIntExists(s);
    var m :| m in s && forall y :: y in s ==> y <= m;
    m
  }

  /**
   * Id allocation used by every creating operation: the largest existing id
   * plus one, or 1 when there is none.
   */
  function NextId(ids: set<int>): (r: int)
    ensures forall k :: k in ids ==> k < r
    ensures ids == {} ==> r == 1
    ensures ids != {} ==> r - 1 in ids
  {
    if ids == {} then 1 else MaxInt(ids) + 1
  }

  lemma {:induction false} RealExtremaExist(s: set<real>)
    requires s != {}
    ensures exists m :: m in s && forall y :: y in s ==> m <= y
    ensures exists m :: m in s && forall y :: y in s ==> y <= m
  {
    assert exists x :: x in s by {
      if !(exists x :: x in s) {
        EmptyIfNoElement(s);
        assert false;
      }
    }
    var x :| x in s;
    if s == {x} {
      assert forall y :: y in s ==> x <= y && y <= x;
    } else {
      RealExtremaExist(s - {x});
      var lo :| lo in s - {x} && forall y :: y in s - {x} ==> lo <= y;
      var hi :| hi in s - {x} && forall y :: y in s - {x} ==> y <= hi;
      var wlo := if lo <= x then lo else x;
      var whi := if x <= hi then hi else x;
      forall y | y in s ensures wlo <= y <= whi {
        if y != x { assert y in s - {x}; }
      }
      assert wlo in s && whi in s;
    }
  }

  /** `Math.min(...s)` of a non-empty set of reals. */
  function MinReal(s: set<real>): (m: real)
    requires s != {}
    ensures m in s && forall y :: y in s ==> m <= y
  {
    RealExtremaExist(s);
    var m :| m in s && forall y :: y in s ==> m <= y;
    m
  }

  /** `Math.max(...s)` of a non-empty set of reals. */
  function MaxReal(s: set<real>): (m: real)
    requires s != {}
    ensures m in s && forall y :: y in s ==> y <= m
  {
    RealExtremaExist(s);
    var m :| m in s && forall y :: y in s ==> y <= m;
    m
  }

  /** A longitude/latitude bounding box. */
  datatype Bounds = Bounds(minLon: real, maxLon: real, minLat: real, maxLat: real)
  {
    function CenterLon(): real { (minLon + maxLon) / 2.0 }
    function CenterLat(): real { (minLat + maxLat) / 2.0 }
  }

  function Lons(nodes: map<int, Node>): set<real>
  {
    set id | id in nodes :: nodes[id].lon
  }

  function Lats(nodes: map<int, Node>): set<real>
  {
    set id | id in nodes :: nodes[id].lat
  }

  /**
   * The bounding box of every node position, absent when there are no nodes
   * (shared by the editor's fit-to-window and the translate dialog).
   */
  function NodeBounds(nodes: map<int, Node>): (b: Option<Bounds>)
    ensures b.None? <==> nodes == map[]
    ensures b.Some? ==> b.value.minLon <= b.value.maxLon && b.value.minLat <= b.value.maxLat
    ensures b.Some? ==> forall id :: id in nodes ==> InBounds(b.value, nodes[id])
  {
    if nodes == map[] then None
    else
      MapHasKey(nodes);
      var id :| id in nodes;
      assert nodes[id].lon in Lons(nodes) && nodes[id].lat in Lats(nodes);
      var b := Bounds(MinReal(Lons(nodes)), MaxReal(Lons(nodes)), MinReal(Lats(nodes)), MaxReal(Lats(nodes)));
      assert forall k :: k in nodes ==> InBounds(b, nodes[k]) by {
        forall k | k in nodes
          ensures InBounds(b, nodes[k])
        {
          NodeInBox(nodes, k);
        }
      }
      Some(b)
  }

  predicate InBounds(b: Bounds, n: Node)
  {
    b.minLon <= n.lon <= b.maxLon && b.minLat <= n.lat <= b.maxLat
  }

  lemma NodeInBox(nodes: map<int, Node>, id: int)
    requires id in nodes
    ensures nodes[id].lon in Lons(nodes) && nodes[id].lat in Lats(nodes)
    ensures InBounds(Bounds(MinReal(Lons(nodes)), MaxReal(Lons(nodes)), MinReal(Lats(nodes)), MaxReal(Lats(nodes))), nodes[id])
  {
    assert nodes[id].lon in Lons(nodes) && nodes[id].lat in Lats(nodes);
  }

  /** The box is tight: each of its four edges is the coordinate of some node. */
  lemma NodeBoundsTight(nodes: map<int, Node>)
    requires nodes != map[]
    ensures NodeBounds(nodes).Some?
    ensures var b := NodeBounds(nodes).value;
      && (exists id :: id in nodes && nodes[id].lon == b.minLon)
      && (exists id :: id in nodes && nodes[id].lon == b.maxLon)
      && (exists id :: id in nodes && nodes[id].lat == b.minLat)
      && (exists id :: id in nodes && nodes[id].lat == b.maxLat)
  {
    var b := NodeBounds(nodes).value;
    assert b.minLon in Lons(nodes) && b.maxLon in Lons(nodes);
    assert b.minLat in Lats(nodes) && b.maxLat in Lats(nodes);
  }

  /** The snapshot a node deletion takes: every way whose reference list contains `nid`. */
  function WaysContaining(ways: map<int, Way>, nid: int): (r: map<int, Way>)
    ensures forall wid :: wid in r <==> wid in ways && nid in ways[wid].nodes
    ensures forall wid :: wid in r ==> r[wid] == ways[wid]
  {
    map wid | wid in ways && nid in ways[wid].nodes :: ways[wid]
  }

  // ------------------------------------------------------------ bulk ids

  /**
   * Elements numbered by the "largest id plus one" rule from `start` on, in
   * sequence order: the map `start + i := xs[i]`.
   */
  function Numbered<T>(start: int, xs: seq<T>): map<int, T>
  {
    if xs == [] then map[] else Numbered(start, xs[..|xs| - 1])[start + |xs| - 1 := xs[|xs| - 1]]
  }

  /** The numbered ids are `start` up to `start + |xs| - 1`, and id `start + i` holds `xs[i]`. */
  lemma {:induction false} NumberedSpec<T>(start: int, xs: seq<T>)
    ensures forall k :: k in Numbered(start, xs) <==> start <= k < start + |xs|
    ensures forall k :: k in Numbered(start, xs) ==> Numbered(start, xs)[k] == xs[k - start]
  {
    if xs != [] {
      var n := |xs| - 1;
      NumberedSpec(start, xs[..n]);
      assert forall k :: k in Numbered(start, xs[..n]) ==> xs[..n][k - start] == xs[k - start];
    }
  }

  /** Numbering one more element after `i` of them: it goes in under `start + i`. */
  lemma NumberedSnoc<T>(base: map<int, T>, start: int, xs: seq<T>, i: nat)
    requires i < |xs|
    ensures (base + Numbered(start, xs[..i]))[start + i := xs[i]] == base + Numbered(start, xs[..i + 1])
  {
    assert xs[..i + 1][..i] == xs[..i];
    var m := Numbered(start, xs[..i]);
    var lhs := (base + m)[start + i := xs[i]];
    var rhs := base + m[start + i := xs[i]];
    assert lhs.Keys == rhs.Keys;
  }

  /** After `i` elements numbered from the next free id, the next free id is `i` further on. */
  lemma NextIdAfterNumbered<T>(base: map<int, T>, xs: seq<T>, i: nat)
    requires i <= |xs|
    ensures NextId((base + Numbered(NextId(base.Keys), xs[..i])).Keys) == NextId(base.Keys) + i
  {
    var start := NextId(base.Keys);
    NumberedSpec(start, xs[..i]);
    var m := base + Numbered(start, xs[..i]);
    var r := NextId(m.Keys);
    if i == 0 {
      assert m.Keys == base.Keys;
    } else {
      assert start + i - 1 in m.Keys;
      assert forall k :: k in m.Keys ==> k < start + i;
      assert r - 1 in m.Keys;
    }
  }

  lemma {:induction false} NumberedSize<T>(start: int, xs: seq<T>)
    ensures |Numbered(start, xs).Keys| == |xs|
  {
    if xs != [] {
      var n := |xs| - 1;
      NumberedSize(start, xs[..n]);
      NumberedSpec(start, xs[..n]);
      assert Numbered(start, xs).Keys == Numbered(start, xs[..n]).Keys + {start + n};
    }
  }

  /**
   * Numbered from the next free id, the new elements never overwrite an
   * existing one: every existing entry is kept and there is one more entry
   * per element.
   */
  lemma NumberedAreFresh<T>(base: map<int, T>, xs: seq<T>)
    ensures var m := base + Numbered(NextId(base.Keys), xs);
      && (forall k :: k in base ==> k in m && m[k] == base[k])
      && |m.Keys| == |base.Keys| + |xs|
  {
    var added := Numbered(NextId(base.Keys), xs);
    NumberedSpec(NextId(base.Keys), xs);
    assert base.Keys !! added.Keys;
    NumberedSize(NextId(base.Keys), xs);
    assert (base + added).Keys == base.Keys + added.Keys;
  }

  /** The element numbered `i`-th after the existing entries is found under the next free id plus `i`. */
  lemma NumberedLookup<T>(base: map<int, T>, xs: seq<T>, i: nat)
    requires i < |xs|
    ensures var m := base + Numbered(NextId(base.Keys), xs);
      NextId(base.Keys) + i in m && m[NextId(base.Keys) + i] == xs[i]
  {
    NumberedSpec(NextId(base.Keys), xs);
  }
}
