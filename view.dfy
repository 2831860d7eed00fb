/**
 * The view-scale rules of the editor: the per-coordinate-system scale range,
 * the wheel and keyboard zoom factors, the rotation update, and the scale and
 * centre chosen by fit-to-window.
 */
module View {
  import opened OsmGraph

  /** Web-Mercator scale range, pixels per metre. */
  const MercatorMinScale: real := 0.00001
  const MercatorMaxScale: real := 10000.0
  /** Geographic and scene scale range, pixels per degree. */
  const GeographicMinScale: real := 10.0
  const GeographicMaxScale: real := 100000000.0

  function MinScale(webmercator: bool): real
  {
    if webmercator then MercatorMinScale else GeographicMinScale
  }

  function MaxScale(webmercator: bool): real
  {
    if webmercator then MercatorMaxScale else GeographicMaxScale
  }

  /** `clampScale()`: `Math.min(MAX, Math.max(MIN, scale))` for the current coordinate type. */
  function ClampScale(scale: real, webmercator: bool): (r: real)
    ensures MinScale(webmercator) <= r <= MaxScale(webmercator)
    ensures MinScale(webmercator) <= scale <= MaxScale(webmercator) ==> r == scale
    ensures scale < MinScale(webmercator) ==> r == MinScale(webmercator)
    ensures scale > MaxScale(webmercator) ==> r == MaxScale(webmercator)
  {
    var lo := MinScale(webmercator);
    var hi := MaxScale(webmercator);
    var atLeast := if lo < scale then scale else lo;
    if atLeast < hi then atLeast else hi
  }

  /** Clamping twice is clamping once. */
  lemma ClampIdempotent(scale: real, webmercator: bool)
    ensures ClampScale(ClampScale(scale, webmercator), webmercator) == ClampScale(scale, webmercator)
  {
  }

  /** Clamping never reverses the order of two scales. */
  lemma ClampMonotone(a: real, b: real, webmercator: bool)
    requires a <= b
    ensures ClampScale(a, webmercator) <= ClampScale(b, webmercator)
  {
  }

  /** The wheel factor: scrolling down (positive `deltaY`) zooms out by 0.9, otherwise in by 1.1. */
  function ScrollFactor(deltaY: real): (f: real)
    ensures deltaY > 0.0 ==> f < 1.0
    ensures deltaY <= 0.0 ==> f > 1.0
  {
    if deltaY > 0.0 then 0.9 else 1.1
  }

  /** The keys that zoom: '+' or '=' by 1.5, '-' or '_' by 0.667; any other key is not a zoom key. */
  function KeyZoomFactor(key: string): (f: real)
    ensures key == "+" || key == "=" ==> f > 1.0
    ensures key == "-" || key == "_" ==> 0.0 < f < 1.0
    ensures f == 1.0 <==> !(key in {"+", "=", "-", "_"})
  {
    if key == "+" || key == "=" then 1.5
    else if key == "-" || key == "_" then 0.667
    else 1.0
  }

  /** A zoom step: multiply, then clamp. */
  function Zoom(scale: real, factor: real, webmercator: bool): (r: real)
    ensures MinScale(webmercator) <= r <= MaxScale(webmercator)
    ensures MinScale(webmercator) <= scale * factor <= MaxScale(webmercator) ==> r == scale * factor
  {
    ClampScale(scale * factor, webmercator)
  }

  lemma ProductOfNonNegatives(a: real, b: real)
    requires a >= 0.0 && b >= 0.0
    ensures a * b >= 0.0
  {
  }

  /** For a scale already in range, a zoom-in (factor at least 1) never lowers it. */
  lemma ZoomInNotLower(scale: real, factor: real, webmercator: bool)
    requires factor >= 1.0
    requires MinScale(webmercator) <= scale <= MaxScale(webmercator)
    ensures scale <= Zoom(scale, factor, webmercator)
  {
    ProductOfNonNegatives(scale, factor - 1.0);
    assert scale * factor == scale + scale * (factor - 1.0);
    ClampMonotone(scale, scale * factor, webmercator);
  }

  /** For a scale already in range, a zoom-out (factor between 0 and 1) never raises it. */
  lemma ZoomOutNotHigher(scale: real, factor: real, webmercator: bool)
    requires 0.0 < factor <= 1.0
    requires MinScale(webmercator) <= scale <= MaxScale(webmercator)
    ensures Zoom(scale, factor, webmercator) <= scale
  {
    ProductOfNonNegatives(scale, 1.0 - factor);
    assert scale == scale * factor + scale * (1.0 - factor);
    ClampMonotone(scale * factor, scale, webmercator);
  }

  /** JavaScript's `Math.trunc` on a real. */
  function Trunc(x: real): (r: int)
    ensures x >= 0.0 ==> r as real <= x < r as real + 1.0
    ensures x < 0.0 ==> r as real - 1.0 < x <= r as real
  {
    if x >= 0.0 then x.Floor else -((-x).Floor)
  }

  /** JavaScript's `%` on numbers: the remainder takes the sign of the dividend. */
  function JsRem(a: real, n: real): real
    requires n != 0.0
  {
    a - n * Trunc(a / n) as real
  }

  /** `rotateView(angle)`: `(rotation + angle + 360) % 360` with JavaScript's remainder. */
  function RotateView(rotation: real, angle: real): (r: real)
    ensures var q := (rotation + angle + 360.0 - r) / 360.0; q == q.Floor as real
    ensures rotation + angle + 360.0 >= 0.0 ==> 0.0 <= r < 360.0
    ensures rotation + angle + 360.0 < 0.0 ==> -360.0 < r <= 0.0
  {
    var a := rotation + angle + 360.0;
    var k := Trunc(a / 360.0);
    assert a >= 0.0 ==> k as real * 360.0 <= a < (k as real + 1.0) * 360.0;
    assert a < 0.0 ==> (k as real - 1.0) * 360.0 < a <= k as real * 360.0;
    JsRem(a, 360.0)
  }

  /** A rotation kept in [0, 360) stays there for any turn of at most one full circle backwards. */
  lemma RotationStaysInRange(rotation: real, angle: real)
    requires 0.0 <= rotation < 360.0 && angle >= -360.0
    ensures 0.0 <= RotateView(rotation, angle) < 360.0
  {
  }

  /** The margin `fitToWindow` leaves, in pixels. */
  const FitMargin: real := 40.0

  function Max(a: real, b: real): real
  {
    if a < b then b else a
  }

  function Min(a: real, b: real): real
  {
    if a < b then a else b
  }

  function Abs(a: real): real
  {
    if a < 0.0 then -a else a
  }

  /**
   * `fitToWindow`'s new scale: the extent (w, h) in pixels of the node box at
   * the current scale is fitted into the canvas less the margin, each extent
   * counted as at least 1 pixel, then clamped.
   */
  function FitScale(scale: real, w: real, h: real, width: real, height: real, webmercator: bool): (r: real)
    ensures MinScale(webmercator) <= r <= MaxScale(webmercator)
  {
    var sx := (width - FitMargin) / Max(Abs(w), 1.0);
    var sy := (height - FitMargin) / Max(Abs(h), 1.0);
    ClampScale(scale * Min(sx, sy), webmercator)
  }

  /**
   * When the box already fills the canvas less the margin exactly along its
   * tighter axis, the scale is kept (if in range): fitting is a fixed point.
   */
  lemma FitScaleFixedPoint(scale: real, w: real, h: real, width: real, height: real, webmercator: bool)
    requires w >= 1.0 && h >= 1.0
    requires width - FitMargin == w && height - FitMargin >= h
    requires MinScale(webmercator) <= scale <= MaxScale(webmercator)
    ensures FitScale(scale, w, h, width, height, webmercator) == scale
  {
    var sx := (width - FitMargin) / Max(Abs(w), 1.0);
    var sy := (height - FitMargin) / Max(Abs(h), 1.0);
    assert Max(Abs(w), 1.0) == w && Max(Abs(h), 1.0) == h;
    QuotientAtLeastOne(width - FitMargin, w);
    QuotientAtLeastOne(height - FitMargin, h);
    assert sx == 1.0 by {
      assert sx * w == w;
    }
    assert Min(sx, sy) == 1.0;
  }

  /** A quotient whose numerator is at least its positive denominator is at least one. */
  lemma QuotientAtLeastOne(a: real, b: real)
    requires b > 0.0 && a >= b
    ensures a / b >= 1.0
  {
    assert a / b * b == a;
  }

  /**
   * `fitToWindow` centres the view on the middle of the node box: every node
   * is within half the box's extent of the new centre on each axis.
   */
  lemma FitCentreCoversNodes(nodes: map<int, Node>)
    requires nodes != map[]
    ensures var b := NodeBounds(nodes).value;
      forall id :: id in nodes ==>
        && Abs(nodes[id].lon - b.CenterLon()) <= (b.maxLon - b.minLon) / 2.0
        && Abs(nodes[id].lat - b.CenterLat()) <= (b.maxLat - b.minLat) / 2.0
  {
    var b := NodeBounds(nodes).value;
    assert forall id :: id in nodes ==> InBounds(b, nodes[id]);
  }
}
