/**
 * Slippy-map coordinate conversion in the Web Mercator tiling scheme:
 * longitude/latitude, spherical-Mercator meters, pixels at a zoom level and
 * tile indices, with 256-pixel tiles.
 *
 * All arithmetic is over exact reals. The product pi * R of pi and the WGS-84
 * equatorial radius is kept abstract: the converter is built from any
 * positive value of it. The transcendental part of the latitude projection
 * is a parameter (see LatitudeProjection).
 */
module Convert {

  /** A point in spherical-Mercator meters; y grows northwards. */
  datatype Meters = Meters(x: real, y: real)

  /** A point in pixels at some zoom level; (0, 0) is the top-left corner and y grows downwards. */
  datatype Pixels = Pixels(x: real, y: real)

  /** The indices of a tile at some zoom level. */
  datatype Tile = Tile(x: int, y: int)

  /** A geographic position in degrees. */
  datatype LngLat = LngLat(lon: real, lat: real)

  /**
   * The two transcendental steps of the Mercator latitude formulas, in degrees:
   * `forward` is log(tan((90 + lat) * pi / 360)) / (pi / 180) and
   * `inverse` is (180 / pi) * (2 * atan(exp(t * pi / 180)) - pi / 2).
   * The model states nothing about them beyond what a lemma assumes.
   */
  datatype LatitudeProjection = LatitudeProjection(forward: real -> real, inverse: real -> real)

  /** The converter's three constants, fixed when it is built. */
  datatype Converter = Converter(tileSize: nat, initialResolution: real, originShift: real)
  {
    /** What the constructor establishes and every conversion relies on. */
    predicate Valid() {
      && tileSize == 256
      && originShift > 0.0
      && initialResolution == 2.0 * originShift / 256.0
    }
  }

  /**
   * Builds the converter from the abstract product pi * R: the tile size is 256,
   * the resolution at zoom 0 is the equatorial circumference spread over one
   * tile, and the origin shift is half the circumference.
   */
  function New(piR: real): (c: Converter)
    requires piR > 0.0
    ensures c.Valid()
    ensures c.originShift == piR
    ensures c.initialResolution * (c.tileSize as real) == 2.0 * piR
  {
    var circumference := 2.0 * piR;
    Converter(256, circumference / (256 as real), circumference / 2.0)
  }

  /** 2 to the power `n`, the number of tiles along each axis at zoom `n`. */
  function Pow2(n: nat): (r: nat)
    ensures r >= 1
  {
    if n == 0 then 1 else 2 * Pow2(n - 1)
  }

  /** Width (and height) in pixels of the whole map at `zoom`, written with the literal 256. */
  function MapSize(zoom: nat): (r: real)
    ensures r >= 256.0
  {
    (Pow2(zoom) as real) * 256.0
  }

  /** Meters per pixel at `zoom`. */
  function Resolution(c: Converter, zoom: nat): (r: real)
    requires c.Valid()
    ensures 0.0 < r <= c.initialResolution
  {
    c.initialResolution / (Pow2(zoom) as real)
  }

  /** Pixel coordinates to meters; the y axis is flipped. */
  function PixelsToMeters(c: Converter, p: Pixels, zoom: nat): (m: Meters)
    requires c.Valid()
  {
    var res := Resolution(c, zoom);
    var mx := p.x * res - c.originShift;
    var my := (MapSize(zoom) - p.y) * res - c.originShift;
    Meters(mx, my)
  }

  /** Meters to pixel coordinates; the y axis is flipped. */
  function MetersToPixels(c: Converter, m: Meters, zoom: nat): (p: Pixels)
    requires c.Valid()
  {
    var res := Resolution(c, zoom);
    var px := (m.x + c.originShift) / res;
    var py := (m.y + c.originShift) / res;
    Pixels(px, MapSize(zoom) - py)
  }

  /** Longitude/latitude to meters (forward spherical Mercator). */
  function LngLatToMeters(c: Converter, proj: LatitudeProjection, ll: LngLat): (m: Meters)
  {
    var mx := ll.lon * c.originShift / 180.0;
    var my := proj.forward(ll.lat);
    Meters(mx, my * c.originShift / 180.0)
  }

  /** Meters to longitude/latitude (inverse spherical Mercator). */
  function MetersToLngLat(c: Converter, proj: LatitudeProjection, m: Meters): (ll: LngLat)
    requires c.Valid()
  {
    var lon := m.x / c.originShift * 180.0;
    var lat := m.y / c.originShift * 180.0;
    LngLat(lon, proj.inverse(lat))
  }

  /** The smallest integer not below `x` (Math.ceil). */
  function Ceil(x: real): (r: int)
    ensures (r - 1) as real < x <= r as real
  {
    -((-x).Floor)
  }

  /**
   * One axis of pixelsToTile: floor(ceil(v / size) - 1). The tile it gives is
   * the one whose span (size * r, size * (r + 1)] holds `v`, so a pixel on a
   * tile boundary belongs to the tile before it.
   */
  function PixelToTileIndex(v: real, size: nat): (r: int)
    requires size > 0
    ensures (r as real) * (size as real) < v <= (r as real + 1.0) * (size as real)
  {
    var k := Ceil(v / (size as real));
    var r := ((k as real) - 1.0).Floor;
    assert r == k - 1;
    ScaleQuotientBounds(v, size as real, r as real, r as real + 1.0);
    r
  }

  /** Bounds on a quotient by a positive divisor are bounds on the dividend, scaled. */
  lemma ScaleQuotientBounds(v: real, d: real, lo: real, hi: real)
    requires d > 0.0
    requires lo < v / d <= hi
    ensures lo * d < v <= hi * d
  {
    assert v / d * d == v;
    assert (v / d - lo) * d > 0.0;
    assert (hi - v / d) * d >= 0.0;
  }

  /** The top-left pixel of a tile. */
  function TileToPixels(c: Converter, t: Tile): (p: Pixels)
  {
    Pixels((t.x * c.tileSize) as real, (t.y * c.tileSize) as real)
  }

  /**
   * The tile that holds a pixel, by the ceil-minus-one boundary rule: on each
   * axis the pixel lies after the tile's first pixel edge and at most at the
   * next tile's.
   */
  function PixelsToTile(c: Converter, p: Pixels): (t: Tile)
    requires c.Valid()
    ensures (t.x * c.tileSize) as real < p.x <= ((t.x + 1) * c.tileSize) as real
    ensures (t.y * c.tileSize) as real < p.y <= ((t.y + 1) * c.tileSize) as real
  {
    Tile(PixelToTileIndex(p.x, c.tileSize), PixelToTileIndex(p.y, c.tileSize))
  }

  /** meters -> pixels -> tile */
  function MetersToTile(c: Converter, m: Meters, zoom: nat): (t: Tile)
    requires c.Valid()
  {
    PixelsToTile(c, MetersToPixels(c, m, zoom))
  }

  /** tile -> pixels -> meters */
  function TileToMeters(c: Converter, t: Tile, zoom: nat): (m: Meters)
    requires c.Valid()
  {
    PixelsToMeters(c, TileToPixels(c, t), zoom)
  }

  /** longitude/latitude -> pixels -> tile */
  function LngLatToTile(c: Converter, proj: LatitudeProjection, ll: LngLat, zoom: nat): (t: Tile)
    requires c.Valid()
  {
    PixelsToTile(c, LngLatToPixels(c, proj, ll, zoom))
  }

  /** tile -> meters -> longitude/latitude */
  function TileToLngLat(c: Converter, proj: LatitudeProjection, t: Tile, zoom: nat): (ll: LngLat)
    requires c.Valid()
  {
    MetersToLngLat(c, proj, TileToMeters(c, t, zoom))
  }

  /** longitude/latitude -> meters -> pixels */
  function LngLatToPixels(c: Converter, proj: LatitudeProjection, ll: LngLat, zoom: nat): (p: Pixels)
    requires c.Valid()
  {
    MetersToPixels(c, LngLatToMeters(c, proj, ll), zoom)
  }

  /** pixels -> meters -> longitude/latitude */
  function PixelsToLngLat(c: Converter, proj: LatitudeProjection, p: Pixels, zoom: nat): (ll: LngLat)
    requires c.Valid()
  {
    MetersToLngLat(c, proj, PixelsToMeters(c, p, zoom))
  }
}
