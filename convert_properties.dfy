/**
 * What the conversions promise: how resolution depends on zoom, the exact
 * round trips between pixels, meters and longitude, the tile boundary rule,
 * and the closed forms of the composed conversions.
 */
module ConvertProperties {
  import opened Convert

  // ---------------------------------------------------------------------
  // Resolution per zoom
  // ---------------------------------------------------------------------

  /** Zoom 0 has the initial resolution, and every zoom step halves it. */
  lemma ResolutionHalves(c: Converter, zoom: nat)
    requires c.Valid()
    ensures Resolution(c, 0) == c.initialResolution
    ensures Resolution(c, zoom + 1) == Resolution(c, zoom) / 2.0
  {
    var p := Pow2(zoom) as real;
    assert Pow2(zoom + 1) as real == 2.0 * p;
    assert c.initialResolution / (2.0 * p) == (c.initialResolution / p) / 2.0;
  }

  /** Resolution strictly decreases as zoom grows. */
  lemma {:induction false} ResolutionStrictlyDecreasing(c: Converter, z1: nat, z2: nat)
    requires c.Valid()
    requires z1 < z2
    ensures Resolution(c, z2) < Resolution(c, z1)
  {
    ResolutionHalves(c, z2 - 1);
    if z1 < z2 - 1 {
      ResolutionStrictlyDecreasing(c, z1, z2 - 1);
    }
  }

  /** At every zoom the whole pixel map spans exactly twice the origin shift in meters. */
  lemma MapSpansTwiceOriginShift(c: Converter, zoom: nat)
    requires c.Valid()
    ensures MapSize(zoom) * Resolution(c, zoom) == 2.0 * c.originShift
  {
  }

  // ---------------------------------------------------------------------
  // Pixels and meters
  // ---------------------------------------------------------------------

  /** Pixels to meters and back gives the same pixel. */
  lemma PixelsMetersRoundTrip(c: Converter, p: Pixels, zoom: nat)
    requires c.Valid()
    ensures MetersToPixels(c, PixelsToMeters(c, p, zoom), zoom) == p
  {
  }

  /** Meters to pixels and back gives the same point. */
  lemma MetersPixelsRoundTrip(c: Converter, m: Meters, zoom: nat)
    requires c.Valid()
    ensures PixelsToMeters(c, MetersToPixels(c, m, zoom), zoom) == m
  {
  }

  /**
   * The top-left pixel is the north-west corner of the meter square and the
   * bottom-right pixel its south-east corner, at every zoom.
   */
  lemma PixelCorners(c: Converter, zoom: nat)
    requires c.Valid()
    ensures PixelsToMeters(c, Pixels(0.0, 0.0), zoom) == Meters(-c.originShift, c.originShift)
    ensures PixelsToMeters(c, Pixels(MapSize(zoom), MapSize(zoom)), zoom)
         == Meters(c.originShift, -c.originShift)
  {
    MapSpansTwiceOriginShift(c, zoom);
  }

  // ---------------------------------------------------------------------
  // Longitude/latitude and meters
  // ---------------------------------------------------------------------

  /** Longitude goes to meters and back exactly, whatever the latitude projection. */
  lemma LongitudeRoundTrip(c: Converter, proj: LatitudeProjection, ll: LngLat)
    requires c.Valid()
    ensures MetersToLngLat(c, proj, LngLatToMeters(c, proj, ll)).lon == ll.lon
  {
  }

  /** Meter x goes to longitude and back exactly. */
  lemma MeterXRoundTrip(c: Converter, proj: LatitudeProjection, m: Meters)
    requires c.Valid()
    ensures LngLatToMeters(c, proj, MetersToLngLat(c, proj, m)).x == m.x
  {
  }

  /** The prime meridian is meter x 0 and the antimeridian at 180 degrees is the origin shift. */
  lemma LongitudeLandmarks(c: Converter, proj: LatitudeProjection, lat: real)
    requires c.Valid()
    ensures LngLatToMeters(c, proj, LngLat(0.0, lat)).x == 0.0
    ensures LngLatToMeters(c, proj, LngLat(180.0, lat)).x == c.originShift
    ensures LngLatToMeters(c, proj, LngLat(-180.0, lat)).x == -c.originShift
  {
  }

  /**
   * Meter x 0 is the prime meridian and meter x +-originShift the antimeridian
   * at +-180 degrees; the origin (0, 0) is longitude 0 and the inverse
   * projection of ordinate 0.
   */
  lemma MetersToLngLatLandmarks(c: Converter, proj: LatitudeProjection, y: real)
    requires c.Valid()
    ensures MetersToLngLat(c, proj, Meters(0.0, y)).lon == 0.0
    ensures MetersToLngLat(c, proj, Meters(c.originShift, y)).lon == 180.0
    ensures MetersToLngLat(c, proj, Meters(-c.originShift, y)).lon == -180.0
    ensures MetersToLngLat(c, proj, Meters(0.0, 0.0)) == LngLat(0.0, proj.inverse(0.0))
  {
    MulDivCancel(c.originShift, c.originShift, 1.0);
    MulDivCancel(c.originShift, -c.originShift, -1.0);
  }

  /**
   * Longitude/latitude to meters and back is the identity at every latitude
   * where the inverse Mercator step undoes the forward one.
   */
  lemma LngLatMetersRoundTrip(c: Converter, proj: LatitudeProjection, ll: LngLat)
    requires c.Valid()
    requires proj.inverse(proj.forward(ll.lat)) == ll.lat
    ensures MetersToLngLat(c, proj, LngLatToMeters(c, proj, ll)) == ll
  {
    LongitudeRoundTrip(c, proj, ll);
    var f := proj.forward(ll.lat);
    var m := LngLatToMeters(c, proj, ll);
    assert m.y == f * c.originShift / 180.0;
    assert m.y / c.originShift * 180.0 == f;
  }

  // ---------------------------------------------------------------------
  // Tiles and pixels
  // ---------------------------------------------------------------------

  /** A tile's top-left pixel is its indices times 256; tile (3, 4) starts at pixel (768, 1024). */
  lemma TileToPixelsScales(c: Converter, t: Tile)
    requires c.Valid()
    ensures TileToPixels(c, t) == Pixels(256.0 * t.x as real, 256.0 * t.y as real)
    ensures TileToPixels(c, Tile(3, 4)) == Pixels(768.0, 1024.0)
  {
  }

  /**
   * A pixel coordinate `v` lies in tile `t` exactly when 256 * t < v <= 256 * (t + 1);
   * the outer floor of floor(ceil(v / 256) - 1) never changes the value.
   */
  lemma {:induction false} PixelToTileIndexIff(v: real, t: int)
    ensures PixelToTileIndex(v, 256) == t <==> 256.0 * t as real < v <= 256.0 * (t + 1) as real
    ensures PixelToTileIndex(v, 256) == Ceil(v / 256.0) - 1
  {
    var r := PixelToTileIndex(v, 256);
    if r < t {
      assert (r + 1) * 256 <= t * 256;
    } else if r > t {
      assert (t + 1) * 256 <= r * 256;
    }
    var k := Ceil(v / 256.0);
    assert ((k as real) - 1.0).Floor == k - 1;
  }

  /**
   * A pixel lies in tile `t` exactly when it is right of (below) the tile's
   * top-left pixel and at most the top-left pixel of the next tile.
   */
  lemma PixelsToTileIff(c: Converter, p: Pixels, t: Tile)
    requires c.Valid()
    ensures PixelsToTile(c, p) == t <==>
      && TileToPixels(c, t).x < p.x <= TileToPixels(c, Tile(t.x + 1, t.y)).x
      && TileToPixels(c, t).y < p.y <= TileToPixels(c, Tile(t.x, t.y + 1)).y
  {
    PixelToTileIndexIff(p.x, t.x);
    PixelToTileIndexIff(p.y, t.y);
  }

  /** A pixel exactly on a tile boundary belongs to the tile before it. */
  lemma BoundaryPixelGoesToPreviousTile(t: int)
    ensures PixelToTileIndex(256.0 * t as real, 256) == t - 1
  {
    PixelToTileIndexIff(256.0 * t as real, t - 1);
  }

  /**
   * The top-left pixel of a tile maps back to the tile diagonally before it:
   * tile (3, 4) gives pixel (768, 1024), which gives tile (2, 3).
   */
  lemma TilePixelsTileShift(c: Converter, t: Tile)
    requires c.Valid()
    ensures PixelsToTile(c, TileToPixels(c, t)) == Tile(t.x - 1, t.y - 1)
    ensures PixelsToTile(c, Pixels(768.0, 1024.0)) == Tile(2, 3)
  {
    BoundaryPixelGoesToPreviousTile(t.x);
    BoundaryPixelGoesToPreviousTile(t.y);
    BoundaryPixelGoesToPreviousTile(3);
    BoundaryPixelGoesToPreviousTile(4);
  }

  // ---------------------------------------------------------------------
  // Tiles and meters
  // ---------------------------------------------------------------------

  /**
   * The fraction of the map's width (or height) that lies before the edge of
   * tile `k` at `zoom`, where a row holds 2^zoom tiles.
   */
  function EdgeShare(k: int, zoom: nat): real {
    k as real / Pow2(zoom) as real
  }

  /**
   * A point's pixel coordinates, times the resolution, are its distances in
   * meters from the map's west edge and from its north edge.
   */
  lemma MetersToPixelsScaled(c: Converter, m: Meters, zoom: nat)
    requires c.Valid()
    ensures MetersToPixels(c, m, zoom).x * Resolution(c, zoom) == m.x + c.originShift
    ensures MetersToPixels(c, m, zoom).y * Resolution(c, zoom) == c.originShift - m.y
  {
    var res := Resolution(c, zoom);
    var q := (m.y + c.originShift) / res;
    DivMulCancel(res, m.x + c.originShift);
    DivMulCancel(res, m.y + c.originShift);
    MapSpansTwiceOriginShift(c, zoom);
    FlippedRowTimesResolution(MapSize(zoom), q, res, c.originShift, m.y);
  }

  /**
   * A tile's corner in meters: x grows eastwards from -originShift and y falls
   * southwards from +originShift, one tile being 256 pixels of the zoom's resolution.
   */
  lemma TileToMetersCorner(c: Converter, t: Tile, zoom: nat)
    requires c.Valid()
    ensures TileToMeters(c, t, zoom)
         == Meters(256.0 * t.x as real * Resolution(c, zoom) - c.originShift,
                   c.originShift - 256.0 * t.y as real * Resolution(c, zoom))
  {
    MapSpansTwiceOriginShift(c, zoom);
    var res := Resolution(c, zoom);
    assert (MapSize(zoom) - 256.0 * t.y as real) * res
        == MapSize(zoom) * res - 256.0 * t.y as real * res;
  }

  /**
   * The same corner as a share of the map: the tile edge `k` lies
   * 2 * originShift * EdgeShare(k) meters from the west (north) edge.
   */
  lemma TileToMetersShare(c: Converter, t: Tile, zoom: nat)
    requires c.Valid()
    ensures TileToMeters(c, t, zoom)
         == Meters(c.originShift * (2.0 * EdgeShare(t.x, zoom) - 1.0),
                   c.originShift * (1.0 - 2.0 * EdgeShare(t.y, zoom)))
  {
    TileToMetersCorner(c, t, zoom);
    TileEdgeMeters(c, t.x, zoom);
    TileEdgeMeters(c, t.y, zoom);
  }

  /** `k` tiles of 256 pixels span the share EdgeShare(k) of the 2 * originShift meters. */
  lemma TileEdgeMeters(c: Converter, k: int, zoom: nat)
    requires c.Valid()
    ensures 256.0 * k as real * Resolution(c, zoom) == 2.0 * c.originShift * EdgeShare(k, zoom)
  {
    ShareOfSpan(k as real, Pow2(zoom) as real, c.initialResolution, 2.0 * c.originShift);
  }

  /** Tile (0, 0) starts at the north-west corner; tile (2^z, 2^z) at the south-east corner. */
  lemma TileGridCoversMap(c: Converter, zoom: nat)
    requires c.Valid()
    ensures TileToMeters(c, Tile(0, 0), zoom) == Meters(-c.originShift, c.originShift)
    ensures TileToMeters(c, Tile(Pow2(zoom), Pow2(zoom)), zoom) == Meters(c.originShift, -c.originShift)
  {
    var n := Pow2(zoom);
    TileToMetersShare(c, Tile(0, 0), zoom);
    TileToMetersShare(c, Tile(n, n), zoom);
    MulDivCancel(n as real, n as real, 1.0);
    assert EdgeShare(0, zoom) == 0.0;
    assert EdgeShare(n, zoom) == 1.0;
  }

  /**
   * A point in meters lies in tile `t` exactly when it is east of the tile's
   * west edge and at most its east edge, and at or north of its south edge and
   * south of its north edge, the edges being given by TileToMeters.
   */
  lemma MetersToTileIff(c: Converter, m: Meters, t: Tile, zoom: nat)
    requires c.Valid()
    ensures MetersToTile(c, m, zoom) == t <==>
      && TileToMeters(c, t, zoom).x < m.x <= TileToMeters(c, Tile(t.x + 1, t.y), zoom).x
      && TileToMeters(c, Tile(t.x, t.y + 1), zoom).y <= m.y < TileToMeters(c, t, zoom).y
  {
    MetersToTileColumnIff(c, m, t, zoom);
    MetersToTileRowIff(c, m, t, zoom);
  }

  /** The column half of MetersToTileIff: x against the tile's west and east edges. */
  lemma MetersToTileColumnIff(c: Converter, m: Meters, t: Tile, zoom: nat)
    requires c.Valid()
    ensures MetersToTile(c, m, zoom).x == t.x <==>
      TileToMeters(c, t, zoom).x < m.x <= TileToMeters(c, Tile(t.x + 1, t.y), zoom).x
  {
    MetersToPixelsScaled(c, m, zoom);
    TileIndexEastward(MetersToPixels(c, m, zoom).x, Resolution(c, zoom), c.originShift, m.x, t.x);
    TileToMetersCorner(c, t, zoom);
    TileToMetersCorner(c, Tile(t.x + 1, t.y), zoom);
  }

  /** The row half of MetersToTileIff: y against the tile's north and south edges. */
  lemma MetersToTileRowIff(c: Converter, m: Meters, t: Tile, zoom: nat)
    requires c.Valid()
    ensures MetersToTile(c, m, zoom).y == t.y <==>
      TileToMeters(c, Tile(t.x, t.y + 1), zoom).y <= m.y < TileToMeters(c, t, zoom).y
  {
    MetersToPixelsScaled(c, m, zoom);
    TileIndexSouthward(MetersToPixels(c, m, zoom).y, Resolution(c, zoom), c.originShift, m.y, t.y);
    TileToMetersCorner(c, t, zoom);
    TileToMetersCorner(c, Tile(t.x, t.y + 1), zoom);
  }

  /** A tile's north-west corner in meters maps back to the tile diagonally before it. */
  lemma TileMetersTileShift(c: Converter, t: Tile, zoom: nat)
    requires c.Valid()
    ensures MetersToTile(c, TileToMeters(c, t, zoom), zoom) == Tile(t.x - 1, t.y - 1)
  {
    PixelsMetersRoundTrip(c, TileToPixels(c, t), zoom);
    TilePixelsTileShift(c, t);
  }

  // ---------------------------------------------------------------------
  // Compositions through longitude/latitude
  // ---------------------------------------------------------------------

  /**
   * Longitude/latitude in pixels: x is the share of the 360 degrees east of
   * -180 times the map size, and y is the share of the projected ordinate south
   * of +180, whatever the value of pi * R.
   */
  lemma LngLatToPixelsClosedForm(c: Converter, proj: LatitudeProjection, ll: LngLat, zoom: nat)
    requires c.Valid()
    ensures LngLatToPixels(c, proj, ll, zoom).x == (ll.lon + 180.0) / 360.0 * MapSize(zoom)
    ensures LngLatToPixels(c, proj, ll, zoom).y == (180.0 - proj.forward(ll.lat)) / 360.0 * MapSize(zoom)
  {
    var res := Resolution(c, zoom);
    var os := c.originShift;
    MapSpansTwiceOriginShift(c, zoom);
    ScaledOrdinateToPixels(ll.lon, os, res, MapSize(zoom));
    ScaledOrdinateToPixels(proj.forward(ll.lat), os, res, MapSize(zoom));
  }

  /**
   * A pixel in meters as a share of the map: pixel x lies 2 * originShift *
   * (x / size) meters east of the west edge, pixel y as far south of the north edge.
   */
  lemma PixelsToMetersShare(c: Converter, p: Pixels, zoom: nat)
    requires c.Valid()
    ensures PixelsToMeters(c, p, zoom)
         == Meters(c.originShift * (2.0 * (p.x / MapSize(zoom)) - 1.0),
                   c.originShift * (1.0 - 2.0 * (p.y / MapSize(zoom))))
  {
    MapSpansTwiceOriginShift(c, zoom);
    PixelShareToMeters(p.x, c.originShift, Resolution(c, zoom), MapSize(zoom));
    PixelShareToMeters(p.y, c.originShift, Resolution(c, zoom), MapSize(zoom));
  }

  /**
   * Pixels in degrees: the longitude is 360 degrees times the pixel's share of
   * the map width, less 180, and the latitude is the inverse projection of 180
   * less 360 times its share of the map height, whatever the value of pi * R.
   */
  lemma PixelsToLngLatClosedForm(c: Converter, proj: LatitudeProjection, p: Pixels, zoom: nat)
    requires c.Valid()
    ensures PixelsToLngLat(c, proj, p, zoom).lon == 360.0 * (p.x / MapSize(zoom)) - 180.0
    ensures PixelsToLngLat(c, proj, p, zoom).lat == proj.inverse(180.0 - 360.0 * (p.y / MapSize(zoom)))
  {
    var m := PixelsToMeters(c, p, zoom);
    PixelsToMetersShare(c, p, zoom);
    MulDivCancel(c.originShift, m.x, 2.0 * (p.x / MapSize(zoom)) - 1.0);
    MulDivCancel(c.originShift, m.y, 1.0 - 2.0 * (p.y / MapSize(zoom)));
  }

  /**
   * A tile's north-west corner in degrees: longitude 360 * tx / 2^z - 180, and
   * latitude the inverse projection of 180 - 360 * ty / 2^z.
   */
  lemma TileToLngLatClosedForm(c: Converter, proj: LatitudeProjection, t: Tile, zoom: nat)
    requires c.Valid()
    ensures TileToLngLat(c, proj, t, zoom).lon == 360.0 * EdgeShare(t.x, zoom) - 180.0
    ensures TileToLngLat(c, proj, t, zoom).lat == proj.inverse(180.0 - 360.0 * EdgeShare(t.y, zoom))
  {
    var m := TileToMeters(c, t, zoom);
    TileToMetersShare(c, t, zoom);
    MulDivCancel(c.originShift, m.x, 2.0 * EdgeShare(t.x, zoom) - 1.0);
    MulDivCancel(c.originShift, m.y, 1.0 - 2.0 * EdgeShare(t.y, zoom));
  }

  /**
   * A position lies in tile column `t.x` exactly when its longitude is east of
   * the tile's west edge and at most its east edge, the edges being given by
   * TileToLngLat.
   */
  lemma LngLatToTileColumnIff(c: Converter, proj: LatitudeProjection, ll: LngLat, t: Tile, zoom: nat)
    requires c.Valid()
    ensures LngLatToTile(c, proj, ll, zoom).x == t.x <==>
      TileToLngLat(c, proj, t, zoom).lon < ll.lon <= TileToLngLat(c, proj, Tile(t.x + 1, t.y), zoom).lon
  {
    LngLatToPixelsClosedForm(c, proj, ll, zoom);
    TileIndexOfShare(ll.lon + 180.0, LngLatToPixels(c, proj, ll, zoom).x, t.x, zoom);
    TileToLngLatClosedForm(c, proj, t, zoom);
    TileToLngLatClosedForm(c, proj, Tile(t.x + 1, t.y), zoom);
  }

  /**
   * A position lies in tile row `ty` exactly when its projected latitude
   * ordinate lies in [180 - 360 * EdgeShare(ty + 1), 180 - 360 * EdgeShare(ty)).
   */
  lemma LngLatToTileRowIff(c: Converter, proj: LatitudeProjection, ll: LngLat, ty: int, zoom: nat)
    requires c.Valid()
    ensures LngLatToTile(c, proj, ll, zoom).y == ty <==>
      180.0 - 360.0 * EdgeShare(ty + 1, zoom) <= proj.forward(ll.lat) < 180.0 - 360.0 * EdgeShare(ty, zoom)
  {
    LngLatToPixelsClosedForm(c, proj, ll, zoom);
    TileIndexOfShare(180.0 - proj.forward(ll.lat), LngLatToPixels(c, proj, ll, zoom).y, ty, zoom);
  }

  /**
   * Longitude/latitude to pixels and back is the identity at every latitude
   * where the inverse Mercator step undoes the forward one.
   */
  lemma LngLatPixelsRoundTrip(c: Converter, proj: LatitudeProjection, ll: LngLat, zoom: nat)
    requires c.Valid()
    requires proj.inverse(proj.forward(ll.lat)) == ll.lat
    ensures PixelsToLngLat(c, proj, LngLatToPixels(c, proj, ll, zoom), zoom) == ll
  {
    MetersPixelsRoundTrip(c, LngLatToMeters(c, proj, ll), zoom);
    LngLatMetersRoundTrip(c, proj, ll);
  }

  /**
   * Pixels to longitude/latitude and back is the identity at every pixel row
   * where the forward Mercator step undoes the inverse one.
   */
  lemma PixelsLngLatRoundTrip(c: Converter, proj: LatitudeProjection, p: Pixels, zoom: nat)
    requires c.Valid()
    requires var t := PixelsToMeters(c, p, zoom).y / c.originShift * 180.0;
             proj.forward(proj.inverse(t)) == t
    ensures LngLatToPixels(c, proj, PixelsToLngLat(c, proj, p, zoom), zoom) == p
  {
    var m := PixelsToMeters(c, p, zoom);
    var t := m.y / c.originShift * 180.0;
    MeterXRoundTrip(c, proj, m);
    assert t * c.originShift / 180.0 == m.y;
    PixelsMetersRoundTrip(c, p, zoom);
  }

  // ---------------------------------------------------------------------
  // Helpers over plain reals
  // ---------------------------------------------------------------------

  /**
   * A point that is the share a / 360 of the map lies in tile `k` exactly when
   * that share lies in (EdgeShare(k), EdgeShare(k + 1)].
   */
  lemma TileIndexOfShare(a: real, v: real, k: int, zoom: nat)
    requires v == a / 360.0 * MapSize(zoom)
    ensures PixelToTileIndex(v, 256) == k <==>
      360.0 * EdgeShare(k, zoom) < a <= 360.0 * EdgeShare(k + 1, zoom)
  {
    PixelToTileIndexIff(v, k);
    ShareBounds(a, k as real, Pow2(zoom) as real, v);
    ShareBounds(a, (k + 1) as real, Pow2(zoom) as real, v);
  }

  /** Comparing a pixel with the edge of tile `k` is comparing shares of the map. */
  lemma ShareBounds(a: real, k: real, n: real, v: real)
    requires n > 0.0
    requires v == a / 360.0 * (n * 256.0)
    ensures 256.0 * k < v <==> 360.0 * (k / n) < a
    ensures v <= 256.0 * k <==> a <= 360.0 * (k / n)
  {
    var q := k / n;
    DivMulCancel(n, k);
    assert v - 256.0 * k == (a - 360.0 * q) * (n * 256.0 / 360.0);
    if a > 360.0 * q {
      assert (a - 360.0 * q) * (n * 256.0 / 360.0) > 0.0;
    } else {
      assert (360.0 * q - a) * (n * 256.0 / 360.0) >= 0.0;
    }
  }

  /**
   * A pixel ordinate `v` at resolution `res`, on a map of `size` pixels that
   * spans 2 * os meters, lies the share v / size of that span from either edge.
   */
  lemma PixelShareToMeters(v: real, os: real, res: real, size: real)
    requires size > 0.0
    requires size * res == 2.0 * os
    ensures v * res - os == os * (2.0 * (v / size) - 1.0)
    ensures (size - v) * res - os == os * (1.0 - 2.0 * (v / size))
  {
    var q := v / size;
    DivMulCancel(size, v);
    assert v * res == q * (size * res);
  }

  /** `k` units of span / (256 * n) each, times 256, are the share k / n of the span. */
  lemma ShareOfSpan(k: real, n: real, unit: real, span: real)
    requires n > 0.0
    requires unit * 256.0 == span
    ensures 256.0 * k * (unit / n) == span * (k / n)
  {
    assert 256.0 * k * (unit / n) == k * (unit * 256.0) / n;
  }

  /** An ordinate `a` in degrees, scaled to meters and shifted, is a share of the map in pixels. */
  lemma ScaledOrdinateToPixels(a: real, os: real, res: real, size: real)
    requires os > 0.0 && res > 0.0
    requires size * res == 2.0 * os
    ensures (a * os / 180.0 + os) / res == (a + 180.0) / 360.0 * size
  {
    assert a * os / 180.0 + os == (a + 180.0) / 360.0 * (2.0 * os);
    assert (a + 180.0) / 360.0 * (size * res) / res == (a + 180.0) / 360.0 * size;
  }

  /**
   * A pixel coordinate `v` that the resolution `res` takes to the meter
   * coordinate `x` (x = v * res - shift) lies in tile `k` exactly when `x`
   * lies between the images of the tile's two edges.
   */
  lemma TileIndexEastward(v: real, res: real, shift: real, x: real, k: int)
    requires res > 0.0
    requires v * res == x + shift
    ensures PixelToTileIndex(v, 256) == k <==>
      256.0 * k as real * res - shift < x <= 256.0 * (k + 1) as real * res - shift
  {
    PixelToTileIndexIff(v, k);
    ScaledSpanEastward(v, 256.0 * k as real, 256.0 * (k + 1) as real, res, shift, x);
  }

  /** As TileIndexEastward for the flipped y axis, where y = shift - v * res. */
  lemma TileIndexSouthward(v: real, res: real, shift: real, y: real, k: int)
    requires res > 0.0
    requires v * res == shift - y
    ensures PixelToTileIndex(v, 256) == k <==>
      shift - 256.0 * (k + 1) as real * res <= y < shift - 256.0 * k as real * res
  {
    PixelToTileIndexIff(v, k);
    ScaledSpanSouthward(v, 256.0 * k as real, 256.0 * (k + 1) as real, res, shift, y);
  }

  /**
   * A pixel coordinate `v` that the resolution `res` takes to the meter
   * coordinate `x` (x = v * res - shift) lies in (lo, hi] exactly when `x`
   * lies between the images of the two bounds.
   */
  lemma ScaledSpanEastward(v: real, lo: real, hi: real, res: real, shift: real, x: real)
    requires res > 0.0
    requires v * res == x + shift
    ensures lo < v <= hi <==> lo * res - shift < x <= hi * res - shift
  {
    OrderTimesPositive(v, lo, res);
    OrderTimesPositive(v, hi, res);
  }

  /** As ScaledSpanEastward for the flipped y axis, where y = shift - v * res. */
  lemma ScaledSpanSouthward(v: real, lo: real, hi: real, res: real, shift: real, y: real)
    requires res > 0.0
    requires v * res == shift - y
    ensures lo < v <= hi <==> shift - hi * res <= y < shift - lo * res
  {
    OrderTimesPositive(v, lo, res);
    OrderTimesPositive(v, hi, res);
  }

  /** Multiplying by a positive factor keeps the order. */
  lemma OrderTimesPositive(v: real, bound: real, res: real)
    requires res > 0.0
    ensures bound < v <==> bound * res < v * res
    ensures v <= bound <==> v * res <= bound * res
  {
    if bound < v {
      assert (v - bound) * res > 0.0;
    }
    if v <= bound {
      assert (bound - v) * res >= 0.0;
    }
  }

  /** The flipped pixel row times the resolution is the distance south of the top edge. */
  lemma FlippedRowTimesResolution(size: real, q: real, res: real, os: real, y: real)
    requires size * res == 2.0 * os
    requires q * res == y + os
    ensures (size - q) * res == os - y
  {
    assert (size - q) * res == size * res - q * res;
  }

  /** Multiplying by a non-zero factor and dividing by it again is the identity. */
  lemma MulDivCancel(a: real, b: real, x: real)
    requires a != 0.0
    requires b == a * x
    ensures b / a == x
  {
  }

  /** Dividing by a non-zero factor and multiplying by it again is the identity. */
  lemma DivMulCancel(a: real, b: real)
    requires a != 0.0
    ensures b / a * a == b
  {
  }
}
