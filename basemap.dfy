/**
 * The basemap manager: which tile sources are on, the tile zoom, the
 * attribution line, and the index arithmetic of the XYZ slippy-map tile
 * scheme that `drawSource` uses to decide which tiles to visit.
 */
module Basemap {
  import opened Wrappers
  import opened Text

  const MaxTileZoom: int := 19
  const DefaultTileZoom: int := 16
  const OsmAttribution: string := "© OpenStreetMap contributors"
  const SatAttribution: string := "Esri, Maxar, Earthstar Geographics"
  const AttributionSeparator: string := " | "
  /** The latitude limit of the Web-Mercator tile pyramid. */
  const MaxTileLat: real := 85.05112878
  /** `MAX_DRAW`. */
  const MaxDraw: int := 512

  /** `Math.max(0, Math.min(19, z))`. */
  function ClampZoom(z: int): (r: int)
    ensures 0 <= r <= MaxTileZoom
    ensures 0 <= z <= MaxTileZoom ==> r == z
    ensures z < 0 ==> r == 0
    ensures z > MaxTileZoom ==> r == MaxTileZoom
  {
    if z < 0 then 0 else if z > MaxTileZoom then MaxTileZoom else z
  }

  /** `getAttribution()` for the given switches: the enabled sources' texts, OSM first. */
  function AttributionOf(osmEnabled: bool, satEnabled: bool): (r: string)
    ensures !osmEnabled && !satEnabled ==> r == ""
    ensures osmEnabled && !satEnabled ==> r == OsmAttribution
    ensures !osmEnabled && satEnabled ==> r == SatAttribution
    ensures osmEnabled && satEnabled ==> r == OsmAttribution + AttributionSeparator + SatAttribution
  {
    var parts := (if osmEnabled then [OsmAttribution] else []) + (if satEnabled then [SatAttribution] else []);
    assert osmEnabled && satEnabled ==> parts == [OsmAttribution, SatAttribution] && parts[1..] == [SatAttribution];
    assert Join([SatAttribution], AttributionSeparator) == SatAttribution;
    Join(parts, AttributionSeparator)
  }

  /** The attribution is empty exactly when no source is enabled, and lists each enabled source's text. */
  lemma AttributionListsEnabled(osmEnabled: bool, satEnabled: bool)
    ensures AttributionOf(osmEnabled, satEnabled) == "" <==> !(osmEnabled || satEnabled)
    ensures osmEnabled && !satEnabled ==> AttributionOf(osmEnabled, satEnabled) == OsmAttribution
    ensures !osmEnabled && satEnabled ==> AttributionOf(osmEnabled, satEnabled) == SatAttribution
    ensures osmEnabled && satEnabled ==> AttributionOf(osmEnabled, satEnabled) == OsmAttribution + " | " + SatAttribution
  {
    if osmEnabled && satEnabled {
      assert [OsmAttribution, SatAttribution][1..] == [SatAttribution];
      assert Join([SatAttribution], AttributionSeparator) == SatAttribution;
    }
  }

  class BasemapManager {
    var zoom: int
    var osmEnabled: bool
    var satEnabled: bool

    /** The zoom stays a valid tile zoom. */
    predicate Valid()
      reads this
    {
      0 <= zoom <= MaxTileZoom
    }

    constructor()
      ensures zoom == DefaultTileZoom && !osmEnabled && !satEnabled
      ensures Valid()
    {
      zoom := DefaultTileZoom;
      osmEnabled := false;
      satEnabled := false;
    }

    /** `setOSMEnabled(v)`: the value coerced to a boolean (given here already coerced). */
    method SetOSMEnabled(v: bool)
      modifies this`osmEnabled
      ensures osmEnabled == v
    {
      osmEnabled := v;
    }

    method SetSatelliteEnabled(v: bool)
      modifies this`satEnabled
      ensures satEnabled == v
    {
      satEnabled := v;
    }

    predicate IsAnyEnabled()
      reads this
    {
      osmEnabled || satEnabled
    }

    function Attribution(): (r: string)
      reads this
      ensures r == "" <==> !IsAnyEnabled()
    {
      AttributionListsEnabled(osmEnabled, satEnabled);
      AttributionOf(osmEnabled, satEnabled)
    }

    /**
     * `setZoom(z)` where `parsed` is `parseInt(z)` (None for NaN): a parsed
     * zoom is clamped to [0, 19] and stored, a failed parse keeps the zoom.
     */
    method SetZoom(parsed: Option<int>)
      modifies this`zoom
      ensures parsed.Some? ==> zoom == ClampZoom(parsed.value)
      ensures parsed.None? ==> zoom == old(zoom)
      ensures old(Valid()) ==> Valid()
    {
      if parsed.Some? {
        zoom := ClampZoom(parsed.value);
      }
    }
  }

  /** `Math.pow(2, z)` for a whole zoom. */
  function Pow2(z: nat): (r: nat)
    ensures r >= 1
  {
    if z == 0 then 1 else 2 * Pow2(z - 1)
  }

  /** `lon2tileX(lon, z)`: the (fractional) tile column of a longitude. */
  function Lon2TileX(lon: real, z: nat): (r: real)
    ensures TileX2Lon(r, z) == lon
    ensures lon == -180.0 ==> r == 0.0
    ensures lon == 180.0 ==> r == Pow2(z) as real
  {
    ScaleCancels((lon + 180.0) / 360.0, Pow2(z) as real);
    (lon + 180.0) / 360.0 * Pow2(z) as real
  }

  /** `tileX2lon(x, z)`: the longitude of a (fractional) tile column's west edge. */
  function TileX2Lon(x: real, z: nat): (r: real)
    ensures x == 0.0 ==> r == -180.0
    ensures x == Pow2(z) as real ==> r == 180.0
  {
    var p := Pow2(z) as real;
    assert x == p ==> x / p == 1.0;
    x / p * 360.0 - 180.0
  }

  /**
   * Column and longitude convert into each other exactly (over the reals),
   * and the date line maps to the two ends of the column range.
   */
  lemma TileColumnRoundTrip(lon: real, x: real, z: nat)
    ensures TileX2Lon(Lon2TileX(lon, z), z) == lon
    ensures Lon2TileX(TileX2Lon(x, z), z) == x
    ensures Lon2TileX(-180.0, z) == 0.0
    ensures Lon2TileX(180.0, z) == Pow2(z) as real
  {
    var p := Pow2(z) as real;
    ScaleCancels((lon + 180.0) / 360.0, p);
    DivideThenScale(x, p);
  }

  lemma ScaleCancels(d: real, k: real)
    requires k != 0.0
    ensures d * k / k == d
  {
  }

  lemma DivideThenScale(x: real, k: real)
    requires k != 0.0
    ensures x / k * 360.0 / 360.0 * k == x
  {
  }

  /** JavaScript's `%` on integers: the remainder takes the sign of the dividend. */
  function JsIntRem(a: int, n: int): (r: int)
    requires n > 0
    ensures a >= 0 ==> 0 <= r < n
    ensures a < 0 ==> -n < r <= 0
  {
    if a >= 0 then a % n else -((-a) % n)
  }

  /** `((x % maxTiles) + maxTiles) % maxTiles`: the column wrapped around the globe. */
  function WrapColumn(x: int, maxTiles: int): (r: int)
    requires maxTiles > 0
    ensures 0 <= r < maxTiles
    ensures 0 <= x < maxTiles ==> r == x
  {
    var r := JsIntRem(JsIntRem(x, maxTiles) + maxTiles, maxTiles);
    assert 0 <= x < maxTiles ==> r == x by {
      if 0 <= x < maxTiles {
        DivModUnique(x, maxTiles, 0, x);
        DivModUnique(x + maxTiles, maxTiles, 1, x);
      }
    }
    r
  }

  /** Euclidean division is determined by quotient and remainder. */
  lemma DivModUnique(a: int, n: int, q: int, r: int)
    requires n > 0 && 0 <= r < n && a == q * n + r
    ensures a / n == q && a % n == r
  {
    var d := a / n;
    if d < q {
      MulAtLeast(q - d, n);
      assert false;
    } else if d > q {
      MulAtLeast(d - q, n);
      assert false;
    }
  }

  lemma MulAtLeast(k: int, n: int)
    requires k >= 1 && n > 0
    ensures k * n >= n
  {
  }

  /** The wrapped column lies in [0, 2^z) and is the column modulo 2^z, negative columns included. */
  lemma WrapColumnIsModulo(x: int, maxTiles: int)
    requires maxTiles > 0
    ensures 0 <= WrapColumn(x, maxTiles) < maxTiles
    ensures WrapColumn(x, maxTiles) == x % maxTiles
  {
    var n := maxTiles;
    if x >= 0 {
      var q := x / n;
      var r1 := x % n;
      DivModUnique(r1 + n, n, 1, r1);
    } else {
      var m := -x;
      var q := m / n;
      var s := m % n;
      assert m == q * n + s;
      if s == 0 {
        DivModUnique(n, n, 1, 0);
        DivModUnique(x, n, -q, 0);
      } else {
        DivModUnique(n - s, n, 0, n - s);
        assert x == (-q - 1) * n + (n - s);
        DivModUnique(x, n, -q - 1, n - s);
      }
    }
  }

  /** The latitudes `drawSource` works with: the view's range cut at the tile pyramid's limit. */
  function ClampTileLat(minLat: real, maxLat: real): (r: (real, real))
    ensures r.0 >= -MaxTileLat && r.1 <= MaxTileLat
    ensures r.0 == (if minLat > -MaxTileLat then minLat else -MaxTileLat)
    ensures r.1 == (if maxLat < MaxTileLat then maxLat else MaxTileLat)
  {
    (if minLat > -MaxTileLat then minLat else -MaxTileLat, if maxLat < MaxTileLat then maxLat else MaxTileLat)
  }

  /**
   * The column range: the floors of the view's edge columns, replaced by the
   * whole row [0, 2^z - 1] when the view spans more than half the world.
   */
  function ColumnRange(minX: int, maxX: int, z: nat): (r: (int, int))
    ensures (maxX - minX) as real > Pow2(z) as real / 2.0 ==> r == (0, Pow2(z) - 1)
    ensures (maxX - minX) as real <= Pow2(z) as real / 2.0 ==> r == (minX, maxX)
  {
    var maxTiles := Pow2(z);
    if (maxX - minX) as real > maxTiles as real / 2.0 then (0, maxTiles - 1) else (minX, maxX)
  }

  /** The index window of visible tiles. */
  datatype Window = Window(minX: int, maxX: int, minY: int, maxY: int)
  {
    function Columns(): nat { if maxX < minX then 0 else maxX - minX + 1 }
    function Rows(): nat { if maxY < minY then 0 else maxY - minY + 1 }
  }

  /** The row of a latitude, `Math.floor(lat2tileY(lat, z))`; the Mercator formula itself is a parameter. */
  type Lat2TileY = (real, nat) -> real

  /**
   * `drawSource`'s window for a view whose corner coordinates span
   * [minLon, maxLon] x [minLat, maxLat].
   */
  function TileWindow(minLon: real, maxLon: real, minLat: real, maxLat: real, z: nat, lat2tileY: Lat2TileY): (w: Window)
    ensures (w.minX, w.maxX) == ColumnRange(Lon2TileX(minLon, z).Floor, Lon2TileX(maxLon, z).Floor, z)
    ensures w.minY == lat2tileY(ClampTileLat(minLat, maxLat).1, z).Floor
    ensures w.maxY == lat2tileY(ClampTileLat(minLat, maxLat).0, z).Floor
  {
    var lats := ClampTileLat(minLat, maxLat);
    var cols := ColumnRange(Lon2TileX(minLon, z).Floor, Lon2TileX(maxLon, z).Floor, z);
    Window(cols.0, cols.1, lat2tileY(lats.1, z).Floor, lat2tileY(lats.0, z).Floor)
  }

  /** A visited tile: its wrapped column and its row. */
  datatype Tile = Tile(x: int, y: int)

  /** The `i`-th tile of the window in the loops' order: column by column, each column top to bottom. */
  function TileAt(w: Window, z: nat, i: nat): Tile
    requires w.Rows() > 0
  {
    Tile(WrapColumn(w.minX + i / w.Rows(), Pow2(z)), w.minY + i % w.Rows())
  }

  function MinInt(a: int, b: int): int
  {
    if a < b then a else b
  }

  /**
   * The nested loops of `drawSource` over the window, as the list of tiles
   * that get past the `count++ > MAX_DRAW` check. The `break` leaves only the
   * inner loop, so every later column checks once more and stops.
   */
  method VisitTiles(w: Window, z: nat) returns (visits: seq<Tile>)
    ensures |visits| == MinInt(w.Columns() * w.Rows(), MaxDraw + 1)
    ensures forall i :: 0 <= i < |visits| ==> w.Rows() > 0 && visits[i] == TileAt(w, z, i)
  {
    var count := 0;
    visits := [];
    var x := w.minX;
    while x <= w.maxX
      invariant w.minX <= x && (x <= w.maxX + 1 || x == w.minX)
      invariant VisitState(w, z, (x - w.minX) * w.Rows(), count, visits)
    {
      count, visits := VisitColumn(w, z, x, count, visits);
      x := x + 1;
    }
  }

  /**
   * What the loops keep after `pos` positions of the window: every check
   * that passed appended the tile at that position, and once a check fails
   * (at position 513 or later) no later one passes.
   */
  ghost predicate VisitState(w: Window, z: nat, pos: int, count: int, visits: seq<Tile>)
  {
    && |visits| == MinInt(count, MaxDraw + 1)
    && (count <= MaxDraw + 1 ==> count == pos)
    && (count > MaxDraw + 1 ==> pos >= MaxDraw + 2)
    && (forall i :: 0 <= i < |visits| ==> w.Rows() > 0 && visits[i] == TileAt(w, z, i))
  }

  /** The inner loop of `drawSource` over the rows of column `x`. */
  method VisitColumn(w: Window, z: nat, x: int, count0: int, visits0: seq<Tile>) returns (count: int, visits: seq<Tile>)
    requires w.minX <= x <= w.maxX
    requires VisitState(w, z, (x - w.minX) * w.Rows(), count0, visits0)
    ensures VisitState(w, z, (x + 1 - w.minX) * w.Rows(), count, visits)
  {
    var h := w.Rows();
    ghost var pos := (x - w.minX) * h;
    assert (x + 1 - w.minX) * h == pos + h;
    count, visits := count0, visits0;
    var y := w.minY;
    while y <= w.maxY
      invariant w.minY <= y <= w.maxY + 1 || (y == w.minY && h == 0)
      invariant VisitState(w, z, pos + (y - w.minY), count, visits)
    {
      var passed := count <= MaxDraw;
      count := count + 1;
      if !passed {
        break;
      }
      DivModUnique(pos + (y - w.minY), h, x - w.minX, y - w.minY);
      visits := visits + [Tile(WrapColumn(x, Pow2(z)), y)];
      y := y + 1;
    }
  }

  /** A view corner as (lon, lat), the result of `canvasToWorld` on a canvas corner. */
  datatype Corner = Corner(lon: real, lat: real)

  /** The running extremes of the corners' longitudes and latitudes. */
  datatype Extent = Extent(minLon: real, maxLon: real, minLat: real, maxLat: real)

  /** The loop step of `drawSource`: each extreme moves only if the corner lies beyond it. */
  function Extend(e: Extent, c: Corner): Extent
  {
    Extent(if c.lon < e.minLon then c.lon else e.minLon, if c.lon > e.maxLon then c.lon else e.maxLon,
           if c.lat < e.minLat then c.lat else e.minLat, if c.lat > e.maxLat then c.lat else e.maxLat)
  }

  /** The extremes after the loop has seen the corners `cs` in order. */
  function ExtentOf(cs: seq<Corner>): Extent
    requires |cs| > 0
  {
    if |cs| == 1 then Extent(cs[0].lon, cs[0].lon, cs[0].lat, cs[0].lat)
    else Extend(ExtentOf(cs[..|cs| - 1]), cs[|cs| - 1])
  }

  /** The loop's result is the bounding box of the corners: every corner inside, every bound reached by one. */
  lemma {:induction false} ExtentIsBoundingBox(cs: seq<Corner>)
    requires |cs| > 0
    ensures var e := ExtentOf(cs);
      && (forall i :: 0 <= i < |cs| ==> e.minLon <= cs[i].lon <= e.maxLon && e.minLat <= cs[i].lat <= e.maxLat)
      && (exists i :: 0 <= i < |cs| && cs[i].lon == e.minLon)
      && (exists i :: 0 <= i < |cs| && cs[i].lon == e.maxLon)
      && (exists i :: 0 <= i < |cs| && cs[i].lat == e.minLat)
      && (exists i :: 0 <= i < |cs| && cs[i].lat == e.maxLat)
  {
    if |cs| == 1 {
      assert cs[0].lon == ExtentOf(cs).minLon;
      assert cs[0].lon == ExtentOf(cs).maxLon;
      assert cs[0].lat == ExtentOf(cs).minLat;
      assert cs[0].lat == ExtentOf(cs).maxLat;
    } else {
      var init := cs[..|cs| - 1];
      var last := |cs| - 1;
      ExtentIsBoundingBox(init);
      var e0 := ExtentOf(init);
      var e := ExtentOf(cs);
      assert forall i :: 0 <= i < last ==> init[i] == cs[i];
      var i1 :| 0 <= i1 < |init| && init[i1].lon == e0.minLon;
      var i2 :| 0 <= i2 < |init| && init[i2].lon == e0.maxLon;
      var i3 :| 0 <= i3 < |init| && init[i3].lat == e0.minLat;
      var i4 :| 0 <= i4 < |init| && init[i4].lat == e0.maxLat;
      assert cs[if e.minLon == e0.minLon then i1 else last].lon == e.minLon;
      assert cs[if e.maxLon == e0.maxLon then i2 else last].lon == e.maxLon;
      assert cs[if e.minLat == e0.minLat then i3 else last].lat == e.minLat;
      assert cs[if e.maxLat == e0.maxLat then i4 else last].lat == e.maxLat;
    }
  }

  /**
   * The index part of `drawSource`: the bounding box of the four view
   * corners, the tile window it gives, and the tiles the loops visit. The
   * running extremes start from the first corner rather than from infinity,
   * which gives the same values.
   */
  method DrawSource(corners: seq<Corner>, z: nat, lat2tileY: Lat2TileY) returns (w: Window, visits: seq<Tile>)
    requires |corners| == 4
    ensures var e := ExtentOf(corners); w == TileWindow(e.minLon, e.maxLon, e.minLat, e.maxLat, z, lat2tileY)
    ensures |visits| == MinInt(w.Columns() * w.Rows(), MaxDraw + 1)
    ensures forall i :: 0 <= i < |visits| ==> w.Rows() > 0 && visits[i] == TileAt(w, z, i)
  {
    var minLon, maxLon, minLat, maxLat := corners[0].lon, corners[0].lon, corners[0].lat, corners[0].lat;
    var k := 1;
    while k < |corners|
      invariant 1 <= k <= |corners|
      invariant Extent(minLon, maxLon, minLat, maxLat) == ExtentOf(corners[..k])
    {
      var c := corners[k];
      assert corners[..k + 1][..k] == corners[..k];
      minLon := if c.lon < minLon then c.lon else minLon;
      maxLon := if c.lon > maxLon then c.lon else maxLon;
      minLat := if c.lat < minLat then c.lat else minLat;
      maxLat := if c.lat > maxLat then c.lat else maxLat;
      k := k + 1;
    }
    assert corners[..k] == corners;
    w := TileWindow(minLon, maxLon, minLat, maxLat, z, lat2tileY);
    visits := VisitTiles(w, z);
  }
}
