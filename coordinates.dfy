/**
 * The coordinate system object: the current coordinate type and the scene
 * origin, and the conversion between geographic degrees and scene metres
 * (an equirectangular projection around the origin).
 */
module Coordinates {

  /** `metersPerDegreeLat`: metres per degree of latitude. */
  const MetersPerDegreeLat: real := 111320.0

  /** The cosine of an angle given in degrees (`Math.cos(deg * Math.PI / 180)`). */
  type CosDeg = real -> real

  /** Scene coordinates in metres, or geographic coordinates in degrees. */
  datatype Pair = Pair(a: real, b: real)

  class CoordinateSystem {
    /** "geographic", "scene" or "webmercator" (whatever the selector holds). */
    var coordType: string
    var sceneOriginLon: real
    var sceneOriginLat: real

    constructor()
      ensures coordType == "geographic"
      ensures sceneOriginLon == 0.0 && sceneOriginLat == 0.0
    {
      coordType := "geographic";
      sceneOriginLon := 0.0;
      sceneOriginLat := 0.0;
    }

    /**
     * `geographicToScene(lon, lat)`: metres east and north of the origin,
     * the east scale taken at the point's own latitude.
     */
    function GeographicToScene(lon: real, lat: real, cos: CosDeg): (r: Pair)
      reads this
      ensures r.b == (lat - sceneOriginLat) * MetersPerDegreeLat
      ensures lon == sceneOriginLon ==> r.a == 0.0
    {
      var metersPerDegreeLon := MetersPerDegreeLat * cos(lat);
      Pair((lon - sceneOriginLon) * metersPerDegreeLon, (lat - sceneOriginLat) * MetersPerDegreeLat)
    }

    /**
     * `sceneToGeographic(x, y)`: the latitude first, then the longitude using
     * the east scale at that latitude. A latitude whose cosine is 0 divides
     * by zero in the source (an infinite or NaN longitude); it is excluded.
     */
    function SceneToGeographic(x: real, y: real, cos: CosDeg): (r: Pair)
      reads this
      requires cos(sceneOriginLat + y / MetersPerDegreeLat) != 0.0
      ensures r.b == sceneOriginLat + y / MetersPerDegreeLat
      ensures x == 0.0 ==> r.a == sceneOriginLon
    {
      var lat := sceneOriginLat + y / MetersPerDegreeLat;
      var metersPerDegreeLon := MetersPerDegreeLat * cos(lat);
      Pair(sceneOriginLon + x / metersPerDegreeLon, lat)
    }

    /** `setSceneOrigin(lon, lat)`. */
    method SetSceneOrigin(lon: real, lat: real)
      modifies this`sceneOriginLon, this`sceneOriginLat
      ensures sceneOriginLon == lon && sceneOriginLat == lat
    {
      sceneOriginLon := lon;
      sceneOriginLat := lat;
    }

    /** `getTypeDescription()`: "geographic" reads as such, every other type as scene. */
    function TypeDescription(): (r: string)
      reads this
      ensures r == "地理坐标" <==> coordType == "geographic"
      ensures r == "地理坐标" || r == "场景坐标"
    {
      if coordType == "geographic" then "地理坐标" else "场景坐标"
    }
  }

  lemma ScaleCancels(d: real, k: real)
    requires k != 0.0
    ensures d * k / k == d
  {
  }

  lemma DivideThenScale(x: real, k: real)
    requires k != 0.0
    ensures x / k * k == x
  {
  }

  /**
   * Scene coordinates of a geographic point convert back to that point,
   * wherever the cosine of its latitude is not 0; the origin itself maps to
   * (0, 0).
   */
  lemma GeographicRoundTrip(cs: CoordinateSystem, lon: real, lat: real, cos: CosDeg)
    requires cos(lat) != 0.0
    ensures var s := cs.GeographicToScene(lon, lat, cos);
      cs.SceneToGeographic(s.a, s.b, cos) == Pair(lon, lat)
    ensures cs.GeographicToScene(cs.sceneOriginLon, cs.sceneOriginLat, cos) == Pair(0.0, 0.0)
  {
    var s := cs.GeographicToScene(lon, lat, cos);
    var k := MetersPerDegreeLat * cos(lat);
    ScaleCancels(lat - cs.sceneOriginLat, MetersPerDegreeLat);
    assert cs.sceneOriginLat + s.b / MetersPerDegreeLat == lat;
    ScaleCancels(lon - cs.sceneOriginLon, k);
    assert s.a / k == lon - cs.sceneOriginLon;
  }

  /**
   * Geographic coordinates of a scene point convert back to that point,
   * under the same condition as `SceneToGeographic`.
   */
  lemma SceneRoundTrip(cs: CoordinateSystem, x: real, y: real, cos: CosDeg)
    requires cos(cs.sceneOriginLat + y / MetersPerDegreeLat) != 0.0
    ensures var g := cs.SceneToGeographic(x, y, cos);
      cs.GeographicToScene(g.a, g.b, cos) == Pair(x, y)
  {
    var lat := cs.sceneOriginLat + y / MetersPerDegreeLat;
    var k := MetersPerDegreeLat * cos(lat);
    DivideThenScale(y, MetersPerDegreeLat);
    assert (lat - cs.sceneOriginLat) * MetersPerDegreeLat == y;
    DivideThenScale(x, k);
  }

  /**
   * The cosine never returns exactly 0: no double-precision angle is an odd
   * multiple of 90 degrees in radians, so the dialogs' divisions by
   * `111320 * cos(refLat)` are always defined.
   */
  ghost predicate NeverZero(cos: CosDeg)
  {
    forall a :: cos(a) != 0.0
  }

  /**
   * `metersToLonLat(dx, dy, refLon, refLat)` (and the same formula in the
   * manual entry dialog): a metre offset east and north of a reference point
   * as degrees, the east scale taken at the reference latitude.
   */
  function MetersToLonLat(dx: real, dy: real, refLon: real, refLat: real, cos: CosDeg): (r: Pair)
    requires cos(refLat) != 0.0
    ensures LonLatToMeters(r.a, r.b, refLon, refLat, cos) == Pair(dx, dy)
    ensures dx == 0.0 && dy == 0.0 ==> r == Pair(refLon, refLat)
  {
    DivideThenScale(dx, MetersPerDegreeLat * cos(refLat));
    DivideThenScale(dy, MetersPerDegreeLat);
    Pair(refLon + dx / (MetersPerDegreeLat * cos(refLat)), refLat + dy / MetersPerDegreeLat)
  }

  /** The export dialog's metre mode: degrees as metres east and north of the reference point. */
  function LonLatToMeters(lon: real, lat: real, refLon: real, refLat: real, cos: CosDeg): (r: Pair)
    ensures lon == refLon && lat == refLat ==> r == Pair(0.0, 0.0)
    ensures r.b == 0.0 <==> lat == refLat
    ensures cos(refLat) != 0.0 ==> (r.a == 0.0 <==> lon == refLon)
  {
    Pair((lon - refLon) * (MetersPerDegreeLat * cos(refLat)), (lat - refLat) * MetersPerDegreeLat)
  }

  /** A metre offset converted to degrees and back is the same offset. */
  lemma MetersRoundTrip(dx: real, dy: real, refLon: real, refLat: real, cos: CosDeg)
    requires cos(refLat) != 0.0
    ensures var g := MetersToLonLat(dx, dy, refLon, refLat, cos);
      LonLatToMeters(g.a, g.b, refLon, refLat, cos) == Pair(dx, dy)
  {
    var k := MetersPerDegreeLat * cos(refLat);
    DivideThenScale(dx, k);
    DivideThenScale(dy, MetersPerDegreeLat);
  }

  /** A point converted to metres and back is the same point; the reference point is (0, 0). */
  lemma LonLatRoundTrip(lon: real, lat: real, refLon: real, refLat: real, cos: CosDeg)
    requires cos(refLat) != 0.0
    ensures var m := LonLatToMeters(lon, lat, refLon, refLat, cos);
      MetersToLonLat(m.a, m.b, refLon, refLat, cos) == Pair(lon, lat)
    ensures LonLatToMeters(refLon, refLat, refLon, refLat, cos) == Pair(0.0, 0.0)
  {
    var k := MetersPerDegreeLat * cos(refLat);
    ScaleCancels(lon - refLon, k);
    ScaleCancels(lat - refLat, MetersPerDegreeLat);
  }
}
