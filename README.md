# Slippy-map coordinate conversion, modelled in Dafny

This project models `Convert`, a class that converts map coordinates between
four forms used by slippy-map tiling (Web Mercator, 256-pixel tiles, WGS-84
equatorial radius):

- longitude/latitude in degrees (`LngLat`);
- spherical-Mercator meters (`Meters`), with y growing northwards;
- pixels at a zoom level (`Pixels`), with (0, 0) at the top-left corner and
  y growing downwards;
- tile indices at a zoom level (`Tile`).

`convert.dfy` (module `Convert`) holds the model. The class's three fields
become the immutable record `Converter(tileSize, initialResolution,
originShift)`. `New` plays the constructor and `Valid` states what it
establishes. Every arrow-function method of the class becomes a Dafny
function over that record. The composed conversions (`MetersToTile`,
`TileToMeters`, `LngLatToTile`, `TileToLngLat`, `LngLatToPixels`,
`PixelsToLngLat`) are defined as the same chains of calls that the class
makes, so "a composition equals its chained calls" holds by definition.
`convert_properties.dfy` (module `ConvertProperties`) proves what the
conversions promise.

Modelling choices:

- Arithmetic is over exact `real`s. The product pi * R is an abstract
  positive parameter of `New`. So `originShift == pi * R` and
  `256 * initialResolution == 2 * originShift`.
- Zoom is a `nat`. `Math.pow(2, zoom)` is the recursive `Pow2`.
- Tile indices are `int`s and pixels are `real`s.
- `pixelsToTile` is modelled literally as `floor(ceil(p / 256) - 1)`.
  `PixelToTileIndexIff` shows that the outer floor never changes the value.
  It also shows that a pixel on a tile boundary belongs to the tile before it.
  So tile (3, 4) starts at pixel (768, 1024), which maps back to tile (2, 3).
  The top-left pixel (0, 0) maps to tile (-1, -1).
- The latitude formulas use `Math.log`, `Math.tan`, `Math.atan` and
  `Math.exp`. Their transcendental cores are a parameter, `LatitudeProjection`
  (`forward` and `inverse`). Only the linear scaling around them is modelled.
  Latitude round trips are proved for every latitude at which `inverse`
  undoes `forward`.
- The constructor takes no argument and fixes the tile size at 256
  (index.ts:8-9). `pixelsToMeters` and `metersToPixels` use the literal 256
  rather than the field (`MapSize`), and the tile functions use the field.
- `tileToLngLat` gives the tile's north-west corner: its top-left pixel,
  with the y axis flipped.
- Round trips are exact identities over the reals.

## Model

Each conversion function of `Convert` that only computes is listed by the
lemma that states its property; that row's third column starts with the
function's name. `PixelsToTile` carries its own contract.

| member | source | states |
|---|---|---|
| Convert.New | index.ts:8-12 | the constructor fixes tile size 256, sets originShift to pi * R and makes 256 * initialResolution the whole circumference 2 * pi * R |
| Convert.Pow2 | index.ts:15 | Math.pow(2, zoom) for a whole zoom is at least 1 |
| Convert.MapSize | index.ts:26 | the map is Math.pow(2, zoom) * 256 pixels wide, at least one tile |
| Convert.Resolution | index.ts:14-15 | meters per pixel is positive and never above the zoom-0 resolution |
| Convert.Ceil | index.ts:82-83 | Math.ceil gives the least integer not below its argument |
| Convert.PixelToTileIndex | index.ts:80-85 | floor(ceil(v / size) - 1) is the tile r with size * r < v <= size * (r + 1) |
| ConvertProperties.ResolutionHalves | index.ts:14-15 | resolution(0) is initialResolution and each zoom step halves the resolution |
| ConvertProperties.ResolutionStrictlyDecreasing | index.ts:14-15 | resolution strictly decreases as zoom grows |
| ConvertProperties.MapSpansTwiceOriginShift | index.ts:10-15 | at every zoom, the map's pixel width times the resolution is 2 * originShift meters |
| ConvertProperties.PixelsMetersRoundTrip | index.ts:23-38 | metersToPixels(pixelsToMeters(p, z), z) == p |
| ConvertProperties.MetersPixelsRoundTrip | index.ts:23-38 | pixelsToMeters(metersToPixels(m, z), z) == m |
| ConvertProperties.PixelCorners | index.ts:23-28 | `PixelsToMeters`: pixel (0, 0) is meters (-originShift, originShift); pixel (2^z * 256, 2^z * 256) is (originShift, -originShift) |
| ConvertProperties.PixelsToMetersShare | index.ts:23-28 | `PixelsToMeters`: pixel x lies 2 * originShift * (x / (2^z * 256)) meters east of the west edge, pixel y as far south of the north edge |
| ConvertProperties.MetersToPixelsScaled | index.ts:32-38 | `MetersToPixels`: a pixel x times the resolution is the meters east of the west edge; pixel y times the resolution is the meters south of the north edge |
| ConvertProperties.LongitudeRoundTrip | index.ts:43-59 | metersToLngLat recovers the longitude from lngLatToMeters exactly |
| ConvertProperties.MeterXRoundTrip | index.ts:43-59 | lngLatToMeters recovers meter x from metersToLngLat exactly |
| ConvertProperties.LongitudeLandmarks | index.ts:43-49 | `LngLatToMeters`: longitude 0 is meter x 0 and longitude +180 / -180 is meter x +originShift / -originShift, at any latitude |
| ConvertProperties.MetersToLngLatLandmarks | index.ts:53-60 | `MetersToLngLat`: meter x 0 is longitude 0 and meter x +originShift / -originShift is longitude +180 / -180; meters (0, 0) is longitude 0 at the inverse projection of 0 |
| ConvertProperties.LngLatMetersRoundTrip | index.ts:43-60 | metersToLngLat(lngLatToMeters(ll)) == ll wherever the inverse latitude step undoes the forward one |
| ConvertProperties.TileToPixelsScales | index.ts:74-78 | `TileToPixels`: tileToPixels(tx, ty) == (256 * tx, 256 * ty); tile (3, 4) gives (768, 1024) |
| ConvertProperties.PixelToTileIndexIff | index.ts:80-85 | pixel v is in tile t exactly when 256 * t < v <= 256 * (t + 1); the outer floor is the identity |
| Convert.PixelsToTile | index.ts:80-85 | pixelsToTile(p) is a tile t with 256 * t < p <= 256 * (t + 1) on both axes |
| ConvertProperties.PixelsToTileIff | index.ts:74-85 | pixelsToTile(p) == t exactly when p lies after t's top-left pixel and at most the next tile's top-left pixel on both axes |
| ConvertProperties.BoundaryPixelGoesToPreviousTile | index.ts:80-85 | a pixel exactly at 256 * t maps to tile t - 1 |
| ConvertProperties.TilePixelsTileShift | index.ts:74-85 | pixelsToTile(tileToPixels(t)) == (tx - 1, ty - 1); pixel (768, 1024) is tile (2, 3) |
| ConvertProperties.TileToMetersCorner | index.ts:68-72 | `TileToMeters`: tileToMeters(t) is (256 * tx * res - originShift, originShift - 256 * ty * res) |
| ConvertProperties.TileToMetersShare | index.ts:68-72 | tileToMeters(t) is originShift * (2 * tx / 2^z - 1) and originShift * (1 - 2 * ty / 2^z) |
| ConvertProperties.TileEdgeMeters | index.ts:14-15 | k tiles of 256 pixels span the share k / 2^z of the 2 * originShift meters |
| ConvertProperties.TileGridCoversMap | index.ts:68-72 | tile (0, 0) starts at (-originShift, originShift) and tile (2^z, 2^z) at (originShift, -originShift) |
| ConvertProperties.MetersToTileIff | index.ts:62-72 | metersToTile(m) == t exactly when m lies inside t's span as given by tileToMeters of t and its neighbours (west/north edge open, east/south edge closed) |
| ConvertProperties.MetersToTileColumnIff | index.ts:62-66 | `MetersToTile`: the tile column of m is tx exactly when tileToMeters(tx).x < m.x <= tileToMeters(tx + 1).x |
| ConvertProperties.MetersToTileRowIff | index.ts:62-66 | the tile row of m is ty exactly when tileToMeters(ty + 1).y <= m.y < tileToMeters(ty).y |
| ConvertProperties.TileMetersTileShift | index.ts:62-72 | metersToTile(tileToMeters(t)) == (tx - 1, ty - 1) |
| ConvertProperties.LngLatToPixelsClosedForm | index.ts:99-103 | `LngLatToPixels`: x = (lon + 180) / 360 * 2^z * 256 and y = (180 - forward(lat)) / 360 * 2^z * 256, whatever pi * R is |
| ConvertProperties.PixelsToLngLatClosedForm | index.ts:105-109 | `PixelsToLngLat`: longitude 360 * x / (2^z * 256) - 180 and latitude inverse(180 - 360 * y / (2^z * 256)), whatever pi * R is |
| ConvertProperties.TileToLngLatClosedForm | index.ts:93-97 | `TileToLngLat`: longitude 360 * tx / 2^z - 180 and latitude inverse(180 - 360 * ty / 2^z) |
| ConvertProperties.LngLatToTileColumnIff | index.ts:87-91 | `LngLatToTile`: the tile column of a position is tx exactly when tileToLngLat(tx).lon < lon <= tileToLngLat(tx + 1).lon |
| ConvertProperties.LngLatToTileRowIff | index.ts:87-91 | the tile row is ty exactly when 180 - 360 * (ty + 1) / 2^z <= forward(lat) < 180 - 360 * ty / 2^z |
| ConvertProperties.LngLatPixelsRoundTrip | index.ts:99-109 | pixelsToLngLat(lngLatToPixels(ll, z), z) == ll wherever the inverse latitude step undoes the forward one |
| ConvertProperties.PixelsLngLatRoundTrip | index.ts:99-109 | lngLatToPixels(pixelsToLngLat(p, z), z) == p wherever the forward latitude step undoes the inverse one |

## Left out

- The transcendental latitude steps, log(tan(...)) at index.ts:46 and (180 / pi) * (2 * atan(exp(...)) - pi / 2) at index.ts:57-58, are the two fields of `LatitudeProjection`. They take any total real function. No property of them is claimed: not that they are inverse to each other, and not that latitude 0 maps to 0.
- The pole singularity at latitude +-90 degrees, where `tan` is infinite, is not modelled. The parameter functions are total.
- IEEE-754 behaviour is not modelled: rounding, floating-point round trips, which hold only approximately, infinities, NaN, and the concrete values of `Math.PI` and the radius 6378137. The product pi * R is an abstract positive real.
- Negative or fractional zoom, which `Math.pow` would accept, is not modelled. Zoom is a `nat`.
- Fractional tile indices passed to `tileToPixels` are not modelled. Tile indices are `int`s.
- The class mechanics are not modelled: instance construction, arrow-function binding, and results returned as two-element arrays. The record and the result datatypes carry the same values.
- LngLatMetersRoundTrip, LngLatPixelsRoundTrip, PixelsLngLatRoundTrip: the latitude half holds only where the caller supplies that the latitude steps invert each other, because the transcendental functions are not modelled.
