/**
 * Hit-testing on canvas positions. Every distance is kept SQUARED: the source
 * compares `Math.hypot` results with each other and with the thresholds 15
 * (nodes) and 10 (way segments), and for non-negative numbers `d < r` holds
 * exactly when `d*d < r*r`, so the picks are the same.
 */
module Spatial {
  import opened Wrappers
  import opened OsmGraph

  /** A canvas position. */
  datatype Point = Point(x: real, y: real)

  /** Squared pick radius for nodes (15 px). */
  const NodePickRadius2: real := 225.0
  /** Squared pick tolerance for way segments (10 px). */
  const WayPickTolerance2: real := 100.0

  lemma SquaresNonNegative(x: real, y: real)
    ensures x * x + y * y >= 0.0
  {
  }

  /** The squared distance between two canvas positions (`Math.hypot` of the offsets, squared). */
  function Dist2(p: Point, q: Point): (r: real)
    ensures r >= 0.0
  {
    SquaresNonNegative(p.x - q.x, p.y - q.y);
    (p.x - q.x) * (p.x - q.x) + (p.y - q.y) * (p.y - q.y)
  }

  /**
   * `pointToLineDistance`, squared, on offsets: (ax, ay) from the segment's
   * first end point to the query point, (cx, cy) from the first end point to
   * the second. A segment of zero length is its first end point; otherwise
   * the projection parameter below 0 picks the first end point, above 1 the
   * second, and in between the projected point.
   */
  function ClampedDist2(ax: real, ay: real, cx: real, cy: real): (d: real)
    ensures d >= 0.0
  {
    var dot := ax * cx + ay * cy;
    var len := cx * cx + cy * cy;
    if len == 0.0 then
      SquaresNonNegative(ax, ay);
      ax * ax + ay * ay
    else
      var t := dot / len;
      if t < 0.0 then
        SquaresNonNegative(ax, ay);
        ax * ax + ay * ay
      else if t > 1.0 then
        SquaresNonNegative(ax - cx, ay - cy);
        (ax - cx) * (ax - cx) + (ay - cy) * (ay - cy)
      else
        SquaresNonNegative(ax - t * cx, ay - t * cy);
        (ax - t * cx) * (ax - t * cx) + (ay - t * cy) * (ay - t * cy)
  }

  /** `pointToLineDistance(p, a, b)`, squared. */
  function SegmentDist2(p: Point, a: Point, b: Point): (d: real)
    ensures d >= 0.0
  {
    ClampedDist2(p.x - a.x, p.y - a.y, b.x - a.x, b.y - a.y)
  }

  /** A node's canvas position, given the world-to-canvas projection of the current view. */
  function CanvasOf(n: Node, toCanvas: (real, real) -> Point): Point
  {
    toCanvas(n.lon, n.lat)
  }

  /** The squared distance from `p` to a node's canvas position. */
  function NodeD2(n: Node, p: Point, toCanvas: (real, real) -> Point): real
  {
    Dist2(p, CanvasOf(n, toCanvas))
  }

  /**
   * The squared distance from `p` to segment `i` of a way (from its `i`-th
   * to its `i+1`-th node), absent when there is no such segment or when
   * either end is not a known node (the source skips those segments).
   */
  function SegmentOf(nodes: map<int, Node>, w: Way, i: int, p: Point, toCanvas: (real, real) -> Point, segDist: SegmentMetric): (d: Option<real>)
    ensures d.Some? <==> 0 <= i < |w.nodes| - 1 && w.nodes[i] in nodes && w.nodes[i + 1] in nodes
  {
    if 0 <= i < |w.nodes| - 1 && w.nodes[i] in nodes && w.nodes[i + 1] in nodes then
      Some(segDist(p, CanvasOf(nodes[w.nodes[i]], toCanvas), CanvasOf(nodes[w.nodes[i + 1]], toCanvas)))
    else None
  }

  /**
   * The segment distance the way scan uses. The editor passes `SegmentDist2`;
   * the scan's rules are stated for any metric, which keeps its proof free of
   * the distance arithmetic.
   */
  type SegmentMetric = (Point, Point, Point) -> real

  /** No node is strictly within the node pick radius of `p`. */
  predicate NoNodeWithin(nodes: map<int, Node>, p: Point, toCanvas: (real, real) -> Point)
  {
    forall id :: id in nodes ==> NodeD2(nodes[id], p, toCanvas) >= NodePickRadius2
  }

  /** Every node is at least `d2` away from `p`. */
  predicate NoNodeCloser(nodes: map<int, Node>, d2: real, p: Point, toCanvas: (real, real) -> Point)
  {
    forall id :: id in nodes ==> d2 <= NodeD2(nodes[id], p, toCanvas)
  }

  /** A pick: the id found and its squared distance. */
  datatype Pick = Pick(id: int, d2: real)

  /**
   * `findClosestNode` (and the first loop of `handleSelect`): over all
   * nodes, the one strictly within the pick radius and closest to `p`; a
   * later node replaces the best so far only when strictly closer, so among
   * equally close nodes the first visited is kept. The visiting order is the
   * map's, left open here.
   */
  method FindClosestNode(nodes: map<int, Node>, p: Point, toCanvas: (real, real) -> Point) returns (r: Option<Pick>)
    ensures r.None? <==> NoNodeWithin(nodes, p, toCanvas)
    ensures r.Some? ==> && r.value.id in nodes
                        && r.value.d2 == NodeD2(nodes[r.value.id], p, toCanvas)
                        && r.value.d2 < NodePickRadius2
    ensures r.Some? ==> NoNodeCloser(nodes, r.value.d2, p, toCanvas)
  {
    r := None;
    var rest := nodes.Keys;
    while rest != {}
      invariant rest <= nodes.Keys
      invariant r.None? <==> forall id :: id in nodes && id !in rest ==> NodeD2(nodes[id], p, toCanvas) >= NodePickRadius2
      invariant r.Some? ==> && r.value.id in nodes
                            && r.value.d2 == NodeD2(nodes[r.value.id], p, toCanvas)
                            && r.value.d2 < NodePickRadius2
      invariant r.Some? ==> forall id :: id in nodes && id !in rest ==> r.value.d2 <= NodeD2(nodes[id], p, toCanvas)
      decreases rest
    {
      IntsHaveElement(rest);
      var id :| id in rest;
      var d := NodeD2(nodes[id], p, toCanvas);
      if d < NodePickRadius2 && (r.None? || d < r.value.d2) {
        r := Some(Pick(id, d));
      }
      rest := rest - {id};
    }
  }

  /** No segment of `w` is strictly within the way pick tolerance of `p`. */
  predicate NoSegmentWithin(nodes: map<int, Node>, w: Way, p: Point, toCanvas: (real, real) -> Point, segDist: SegmentMetric)
  {
    forall i :: 0 <= i < |w.nodes| - 1 && SegmentOf(nodes, w, i, p, toCanvas, segDist).Some? ==> SegmentOf(nodes, w, i, p, toCanvas, segDist).value >= WayPickTolerance2
  }

  /** Every segment of `w` is at least `d2` away from `p`. */
  predicate NoSegmentCloser(nodes: map<int, Node>, w: Way, d2: real, p: Point, toCanvas: (real, real) -> Point, segDist: SegmentMetric)
  {
    forall i :: 0 <= i < |w.nodes| - 1 && SegmentOf(nodes, w, i, p, toCanvas, segDist).Some? ==> d2 <= SegmentOf(nodes, w, i, p, toCanvas, segDist).value
  }

  /** No way has a segment strictly within the way pick tolerance of `p`. */
  predicate NoWayWithin(nodes: map<int, Node>, ways: map<int, Way>, p: Point, toCanvas: (real, real) -> Point, segDist: SegmentMetric)
  {
    forall wid :: wid in ways ==> NoSegmentWithin(nodes, ways[wid], p, toCanvas, segDist)
  }

  /** No way has a segment closer to `p` than `d2`. */
  predicate NoWayCloser(nodes: map<int, Node>, ways: map<int, Way>, d2: real, p: Point, toCanvas: (real, real) -> Point, segDist: SegmentMetric)
  {
    forall wid :: wid in ways ==> NoSegmentCloser(nodes, ways[wid], d2, p, toCanvas, segDist)
  }

  /** Some segment of `w` is exactly `d2` away from `p`. */
  predicate HasSegmentAt(nodes: map<int, Node>, w: Way, d2: real, p: Point, toCanvas: (real, real) -> Point, segDist: SegmentMetric)
  {
    exists i :: 0 <= i < |w.nodes| - 1 && SegmentOf(nodes, w, i, p, toCanvas, segDist) == Some(d2)
  }

  /**
   * The inner loop of `handleSelect`'s way scan, for one way `w` with id
   * `wid`: every segment strictly within the tolerance and strictly closer
   * than the best so far (`best`) becomes the new best.
   */
  method ScanWay(nodes: map<int, Node>, wid: int, w: Way, p: Point, toCanvas: (real, real) -> Point, segDist: SegmentMetric, best: Option<Pick>) returns (r: Option<Pick>)
    requires best.Some? ==> best.value.d2 < WayPickTolerance2
    ensures r.None? <==> best.None? && NoSegmentWithin(nodes, w, p, toCanvas, segDist)
    ensures r.Some? ==> r == best || (r.value.id == wid && r.value.d2 < WayPickTolerance2 && HasSegmentAt(nodes, w, r.value.d2, p, toCanvas, segDist))
    ensures r.Some? ==> NoSegmentCloser(nodes, w, r.value.d2, p, toCanvas, segDist)
    ensures r.Some? && best.Some? ==> r.value.d2 <= best.value.d2
  {
    r := best;
    if |w.nodes| >= 2 {
      var i := 0;
      while i < |w.nodes| - 1
        invariant 0 <= i <= |w.nodes| - 1
        invariant r.None? <==> best.None? && forall k :: k < i && SegmentOf(nodes, w, k, p, toCanvas, segDist).Some? ==> SegmentOf(nodes, w, k, p, toCanvas, segDist).value >= WayPickTolerance2
        invariant r.Some? ==> r == best || (r.value.id == wid && r.value.d2 < WayPickTolerance2 && HasSegmentAt(nodes, w, r.value.d2, p, toCanvas, segDist))
        invariant r.Some? ==> forall k :: k < i && SegmentOf(nodes, w, k, p, toCanvas, segDist).Some? ==> r.value.d2 <= SegmentOf(nodes, w, k, p, toCanvas, segDist).value
        invariant r.Some? && best.Some? ==> r.value.d2 <= best.value.d2
        invariant r.Some? ==> r.value.d2 < WayPickTolerance2
      {
        var d := SegmentOf(nodes, w, i, p, toCanvas, segDist);
        if d.Some? && d.value < WayPickTolerance2 && (r.None? || d.value < r.value.d2) {
          r := Some(Pick(wid, d.value));
        }
        i := i + 1;
      }
    }
  }

  /**
   * The way scan of `handleSelect`: over every segment of every way, the way
   * owning the segment strictly within the pick tolerance and closest to `p`
   * (only a strictly closer segment replaces the best, so the first visited
   * wins a tie; the visiting order is the map's, left open here).
   */
  method FindClosestWay(nodes: map<int, Node>, ways: map<int, Way>, p: Point, toCanvas: (real, real) -> Point, segDist: SegmentMetric) returns (r: Option<Pick>)
    ensures r.None? <==> NoWayWithin(nodes, ways, p, toCanvas, segDist)
    ensures r.Some? ==> && r.value.id in ways
                        && r.value.d2 < WayPickTolerance2
                        && HasSegmentAt(nodes, ways[r.value.id], r.value.d2, p, toCanvas, segDist)
    ensures r.Some? ==> NoWayCloser(nodes, ways, r.value.d2, p, toCanvas, segDist)
  {
    r := None;
    var rest := ways.Keys;
    while rest != {}
      invariant rest <= ways.Keys
      invariant r.None? <==> forall wid :: wid in ways && wid !in rest ==> NoSegmentWithin(nodes, ways[wid], p, toCanvas, segDist)
      invariant r.Some? ==> && r.value.id in ways
                            && r.value.d2 < WayPickTolerance2
                            && HasSegmentAt(nodes, ways[r.value.id], r.value.d2, p, toCanvas, segDist)
      invariant r.Some? ==> forall wid :: wid in ways && wid !in rest ==> NoSegmentCloser(nodes, ways[wid], r.value.d2, p, toCanvas, segDist)
      decreases rest
    {
      IntsHaveElement(rest);
      var wid :| wid in rest;
      var r' := ScanWay(nodes, wid, ways[wid], p, toCanvas, segDist, r);
      CloserCarries(nodes, ways, rest, r, r', p, toCanvas, segDist);
      r := r';
      rest := rest - {wid};
    }
  }

  /** A bound that held for the ways already scanned holds for a smaller distance too. */
  lemma CloserCarries(nodes: map<int, Node>, ways: map<int, Way>, rest: set<int>, best: Option<Pick>, r: Option<Pick>, p: Point, toCanvas: (real, real) -> Point, segDist: SegmentMetric)
    requires best.Some? ==> forall wid :: wid in ways && wid !in rest ==> NoSegmentCloser(nodes, ways[wid], best.value.d2, p, toCanvas, segDist)
    requires r.Some? && best.Some? ==> r.value.d2 <= best.value.d2
    ensures r.Some? && best.Some? ==> forall wid :: wid in ways && wid !in rest ==> NoSegmentCloser(nodes, ways[wid], r.value.d2, p, toCanvas, segDist)
  {
  }

  /** `p` lies within the rectangle spanned by two corners (borders included). */
  predicate InBox(c1: Point, c2: Point, p: Point)
  {
    var minX := if c1.x <= c2.x then c1.x else c2.x;
    var maxX := if c1.x <= c2.x then c2.x else c1.x;
    var minY := if c1.y <= c2.y then c1.y else c2.y;
    var maxY := if c1.y <= c2.y then c2.y else c1.y;
    minX <= p.x <= maxX && minY <= p.y <= maxY
  }

  /** The rectangle does not depend on which corner the drag started from. */
  lemma InBoxSymmetric(c1: Point, c2: Point, p: Point)
    ensures InBox(c1, c2, p) <==> InBox(c2, c1, p)
  {
  }

  /**
   * The box-selection rule for one way: a closed polygon whose every
   * resolvable node projects inside the box (unknown node ids are skipped).
   */
  predicate BoxPicks(nodes: map<int, Node>, w: Way, c1: Point, c2: Point, toCanvas: (real, real) -> Point)
  {
    IsClosed(w.nodes)
    && forall j :: 0 <= j < |w.nodes| && w.nodes[j] in nodes ==> InBox(c1, c2, CanvasOf(nodes[w.nodes[j]], toCanvas))
  }

  /** A closed way none of whose nodes is known is picked by any box. */
  lemma UnresolvedPolygonIsPicked(nodes: map<int, Node>, w: Way, c1: Point, c2: Point, toCanvas: (real, real) -> Point)
    requires IsClosed(w.nodes)
    requires forall j :: 0 <= j < |w.nodes| ==> w.nodes[j] !in nodes
    ensures BoxPicks(nodes, w, c1, c2, toCanvas)
  {
  }

  /**
   * The scan of `finishBoxSelect`: every closed way whose known nodes all
   * project into the box spanned by `c1` and `c2`. The node scan of a way
   * stops at the first node outside the box.
   */
  method BoxPickedWays(nodes: map<int, Node>, ways: map<int, Way>, c1: Point, c2: Point, toCanvas: (real, real) -> Point) returns (picked: set<int>)
    ensures forall wid :: wid in picked <==> wid in ways && BoxPicks(nodes, ways[wid], c1, c2, toCanvas)
  {
    picked := {};
    var rest := ways.Keys;
    while rest != {}
      invariant rest <= ways.Keys
      invariant forall wid :: wid in picked <==> wid in ways && wid !in rest && BoxPicks(nodes, ways[wid], c1, c2, toCanvas)
      decreases rest
    {
      IntsHaveElement(rest);
      var wid :| wid in rest;
      var ids := ways[wid].nodes;
      if |ids| >= 4 && ids[0] == ids[|ids| - 1] {
        var all := true;
        var j := 0;
        while j < |ids|
          invariant 0 <= j <= |ids|
          invariant all
          invariant forall k :: 0 <= k < j && ids[k] in nodes ==> InBox(c1, c2, CanvasOf(nodes[ids[k]], toCanvas))
        {
          if ids[j] in nodes && !InBox(c1, c2, CanvasOf(nodes[ids[j]], toCanvas)) {
            all := false;
            break;
          }
          j := j + 1;
        }
        if all {
          picked := picked + {wid};
        }
      }
      rest := rest - {wid};
    }
  }

  /** A box containing every node's canvas position picks exactly the closed ways. */
  lemma BoxAroundEverythingPicksPolygons(nodes: map<int, Node>, ways: map<int, Way>, c1: Point, c2: Point, toCanvas: (real, real) -> Point)
    requires forall id :: id in nodes ==> InBox(c1, c2, CanvasOf(nodes[id], toCanvas))
    ensures forall wid :: wid in ways ==> (BoxPicks(nodes, ways[wid], c1, c2, toCanvas) <==> IsClosed(ways[wid].nodes))
  {
    forall wid | wid in ways
      ensures BoxPicks(nodes, ways[wid], c1, c2, toCanvas) <==> IsClosed(ways[wid].nodes)
    {
      var ids := ways[wid].nodes;
      forall j | 0 <= j < |ids| && ids[j] in nodes
        ensures InBox(c1, c2, CanvasOf(nodes[ids[j]], toCanvas))
      {
        var id := ids[j];
        assert id in nodes;
      }
    }
  }
}
