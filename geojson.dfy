/**
 * The perimeter geometry of the burn-severity script: flattening a GeoJSON
 * feature's coordinates (`extract_coordinates`), gathering them for every
 * feature (`all_coords`) and the minimum bounding rectangle of the result.
 */
module GeoJson {
  import opened Wrappers

  /** A GeoJSON position: longitude then latitude. */
  datatype Position = Position(lon: real, lat: real)

  /** A GeoJSON geometry by its `type`, with coordinates nested as RFC 7946 prescribes for that type. */
  datatype Geometry =
    | Point(position: Position)
    | MultiPoint(points: seq<Position>)
    | LineString(line: seq<Position>)
    | MultiLineString(lines: seq<seq<Position>>)
    | Polygon(rings: seq<seq<Position>>)
    | MultiPolygon(polygons: seq<seq<seq<Position>>>)
    /** Any other `type`, such as "GeometryCollection". */
    | Unsupported(kind: string)

  /** A GeoJSON feature; only its geometry matters here. */
  datatype Feature = Feature(geometry: Geometry)

  /** `[x for part in parts for x in part]`: the parts concatenated in order. */
  function Concat<T>(parts: seq<seq<T>>): seq<T>
    decreases |parts|
  {
    if parts == [] then [] else Concat(parts[..|parts| - 1]) + parts[|parts| - 1]
  }

  /** The total number of elements over all parts. */
  function TotalLength<T>(parts: seq<seq<T>>): nat
    decreases |parts|
  {
    if parts == [] then 0 else TotalLength(parts[..|parts| - 1]) + |parts[|parts| - 1]|
  }

  /**
   * Concatenation keeps every element in its place: its length is the total
   * length, and element `j` of part `i` sits after all elements of the
   * parts before `i`.
   */
  lemma {:induction false} ConcatAt<T>(parts: seq<seq<T>>, i: int, j: int)
    requires 0 <= i < |parts| && 0 <= j < |parts[i]|
    ensures |Concat(parts)| == TotalLength(parts)
    ensures TotalLength(parts[..i]) + j < |Concat(parts)|
    ensures Concat(parts)[TotalLength(parts[..i]) + j] == parts[i][j]
    decreases |parts|
  {
    var init := parts[..|parts| - 1];
    ConcatLength(init);
    if i < |parts| - 1 {
      ConcatAt(init, i, j);
      assert init[..i] == parts[..i];
      assert init[i] == parts[i];
    } else {
      assert parts[..i] == init;
    }
  }

  /** The length of a concatenation is the total length of its parts. */
  lemma {:induction false} ConcatLength<T>(parts: seq<seq<T>>)
    ensures |Concat(parts)| == TotalLength(parts)
    decreases |parts|
  {
    if parts != [] {
      ConcatLength(parts[..|parts| - 1]);
    }
  }

  /** An element is in the concatenation exactly when it is in one of the parts. */
  lemma {:induction false} ConcatMembership<T>(parts: seq<seq<T>>, x: T)
    ensures x in Concat(parts) <==> exists i :: 0 <= i < |parts| && x in parts[i]
    decreases |parts|
  {
    if parts != [] {
      var init := parts[..|parts| - 1];
      ConcatMembership(init, x);
      if exists i :: 0 <= i < |parts| && x in parts[i] {
        var i :| 0 <= i < |parts| && x in parts[i];
        if i < |init| {
          assert init[i] == parts[i];
        }
      }
      if exists i :: 0 <= i < |init| && x in init[i] {
        var i :| 0 <= i < |init| && x in init[i];
        assert parts[i] == init[i];
      }
    }
  }

  /** The concatenation of every polygon's rings, polygon after polygon. */
  function ConcatPolygons(polygons: seq<seq<seq<Position>>>): (r: seq<seq<Position>>)
    ensures |r| == |polygons|
  {
    seq(|polygons|, i requires 0 <= i < |polygons| => Concat(polygons[i]))
  }

  /** `extract_coordinates(feature)`: the feature's positions, flattened as its type prescribes; `None` for any other type. */
  function ExtractCoordinates(feature: Feature): (coords: Option<seq<Position>>)
    ensures coords.None? <==> feature.geometry.Unsupported?
    ensures feature.geometry.Point? ==> coords == Some([feature.geometry.position])
  {
    match feature.geometry
    case Point(p) => Some([p])
    case MultiPoint(ps) => Some(ps)
    case LineString(ps) => Some(ps)
    case MultiLineString(parts) => Some(Concat(parts))
    case Polygon(parts) => Some(Concat(parts))
    case MultiPolygon(polygons) => Some(Concat(ConcatPolygons(polygons)))
    case Unsupported(_) => None
  }

  /** A position occurs somewhere in the geometry's coordinates. */
  ghost predicate Occurs(g: Geometry, c: Position) {
    match g
    case Point(p) => c == p
    case MultiPoint(ps) => c in ps
    case LineString(ps) => c in ps
    case MultiLineString(parts) => exists i :: 0 <= i < |parts| && c in parts[i]
    case Polygon(parts) => exists i :: 0 <= i < |parts| && c in parts[i]
    case MultiPolygon(polygons) =>
      exists i, j :: 0 <= i < |polygons| && 0 <= j < |polygons[i]| && c in polygons[i][j]
    case Unsupported(_) => false
  }

  /** The number of positions in the geometry's coordinates. */
  function LeafCount(g: Geometry): nat {
    match g
    case Point(_) => 1
    case MultiPoint(ps) => |ps|
    case LineString(ps) => |ps|
    case MultiLineString(parts) => TotalLength(parts)
    case Polygon(parts) => TotalLength(parts)
    case MultiPolygon(polygons) => TotalLength(ConcatPolygons(polygons))
    case Unsupported(_) => 0
  }

  /**
   * Flattening fails only on an unsupported type; otherwise it keeps every
   * position of the geometry and nothing else, one entry per position.
   */
  lemma ExtractCoordinatesFlattens(feature: Feature, c: Position)
    ensures ExtractCoordinates(feature).None? <==> feature.geometry.Unsupported?
    ensures ExtractCoordinates(feature).Some? ==>
              |ExtractCoordinates(feature).value| == LeafCount(feature.geometry) &&
              (c in ExtractCoordinates(feature).value <==> Occurs(feature.geometry, c))
  {
    match feature.geometry
    case Point(_) =>
    case MultiPoint(_) =>
    case LineString(_) =>
    case MultiLineString(parts) =>
      ConcatLength(parts);
      ConcatMembership(parts, c);
    case Polygon(parts) =>
      ConcatLength(parts);
      ConcatMembership(parts, c);
    case MultiPolygon(polygons) =>
      var rings := ConcatPolygons(polygons);
      ConcatLength(rings);
      ConcatMembership(rings, c);
      if exists i :: 0 <= i < |rings| && c in rings[i] {
        var i :| 0 <= i < |rings| && c in rings[i];
        ConcatMembership(polygons[i], c);
      }
      if exists i, j :: 0 <= i < |polygons| && 0 <= j < |polygons[i]| && c in polygons[i][j] {
        var i, j :| 0 <= i < |polygons| && 0 <= j < |polygons[i]| && c in polygons[i][j];
        ConcatMembership(polygons[i], c);
        assert c in rings[i];
      }
    case Unsupported(_) =>
  }

  /**
   * The order of a flattened multi-part geometry: position `j` of part `i`
   * follows every position of the parts before `i`.
   */
  lemma ExtractCoordinatesOrder(feature: Feature, i: int, j: int)
    requires feature.geometry.MultiLineString? || feature.geometry.Polygon?
    requires var parts := if feature.geometry.Polygon? then feature.geometry.rings else feature.geometry.lines;
             0 <= i < |parts| && 0 <= j < |parts[i]|
    ensures var parts := if feature.geometry.Polygon? then feature.geometry.rings else feature.geometry.lines;
            var flat := ExtractCoordinates(feature).value;
            TotalLength(parts[..i]) + j < |flat| && flat[TotalLength(parts[..i]) + j] == parts[i][j]
  {
    var parts := if feature.geometry.Polygon? then feature.geometry.rings else feature.geometry.lines;
    ConcatAt(parts, i, j);
  }

  /**
   * The order of a flattened MultiPolygon: position `k` of ring `j` of
   * polygon `i` follows every position of the polygons before `i`, then
   * every position of the rings of polygon `i` before `j`.
   */
  lemma ExtractCoordinatesMultiPolygonOrder(feature: Feature, i: int, j: int, k: int)
    requires feature.geometry.MultiPolygon?
    requires var polygons := feature.geometry.polygons;
             0 <= i < |polygons| && 0 <= j < |polygons[i]| && 0 <= k < |polygons[i][j]|
    ensures var polygons := feature.geometry.polygons;
            var flat := ExtractCoordinates(feature).value;
            var at := TotalLength(ConcatPolygons(polygons)[..i]) + TotalLength(polygons[i][..j]) + k;
            at < |flat| && flat[at] == polygons[i][j][k]
  {
    var polygons := feature.geometry.polygons;
    var rings := ConcatPolygons(polygons);
    ConcatAt(polygons[i], j, k);
    assert rings[i] == Concat(polygons[i]);
    ConcatAt(rings, i, TotalLength(polygons[i][..j]) + k);
  }

  /** Every feature's geometry has a supported type. */
  predicate AllSupported(features: seq<Feature>) {
    forall i :: 0 <= i < |features| ==> !features[i].geometry.Unsupported?
  }

  /** The positions of every feature, feature after feature. */
  function AllCoordinates(features: seq<Feature>): seq<Position>
    requires AllSupported(features)
    decreases |features|
  {
    if features == [] then []
    else AllCoordinates(features[..|features| - 1]) + ExtractCoordinates(features[|features| - 1]).value
  }

  /** A position is gathered exactly when it occurs in some feature's geometry. */
  lemma {:induction false} AllCoordinatesMembership(features: seq<Feature>, c: Position)
    requires AllSupported(features)
    ensures c in AllCoordinates(features) <==> exists i :: 0 <= i < |features| && Occurs(features[i].geometry, c)
    decreases |features|
  {
    if features != [] {
      var init := features[..|features| - 1];
      var last := features[|features| - 1];
      AllCoordinatesMembership(init, c);
      ExtractCoordinatesFlattens(last, c);
      if exists i :: 0 <= i < |features| && Occurs(features[i].geometry, c) {
        var i :| 0 <= i < |features| && Occurs(features[i].geometry, c);
        if i < |init| {
          assert init[i] == features[i];
        }
      }
      if exists i :: 0 <= i < |init| && Occurs(init[i].geometry, c) {
        var i :| 0 <= i < |init| && Occurs(init[i].geometry, c);
        assert features[i] == init[i];
      }
    }
  }

  /**
   * The `all_coords` loop: extends the list with every feature's
   * coordinates in turn. Extending with the `None` of an unsupported
   * geometry raises, which is reported as `None` here.
   */
  method CollectCoordinates(features: seq<Feature>) returns (r: Option<seq<Position>>)
    ensures r.None? <==> !AllSupported(features)
    ensures r.Some? ==> r.value == AllCoordinates(features)
  {
    var allCoords: seq<Position> := [];
    var i := 0;
    while i < |features|
      invariant 0 <= i <= |features|
      invariant AllSupported(features[..i])
      invariant allCoords == AllCoordinates(features[..i])
    {
      var coords := ExtractCoordinates(features[i]);
      if coords.None? {
        return None;
      }
      assert features[..i + 1][..i] == features[..i];
      allCoords := allCoords + coords.value;
      i := i + 1;
    }
    assert features[..i] == features;
    r := Some(allCoords);
  }

  /** The minimum bounding rectangle: least and greatest longitude and latitude. */
  datatype Box = Box(bottomLeftLong: real, bottomLeftLat: real, topRightLong: real, topRightLat: real)

  /** `min(xs)`: the least element. */
  function Min(xs: seq<real>): (m: real)
    requires |xs| > 0
    ensures m in xs
    ensures forall k :: 0 <= k < |xs| ==> m <= xs[k]
    decreases |xs|
  {
    if |xs| == 1 then xs[0]
    else
      var rest := Min(xs[1..]);
      if xs[0] <= rest then xs[0] else rest
  }

  /** `max(xs)`: the greatest element. */
  function Max(xs: seq<real>): (m: real)
    requires |xs| > 0
    ensures m in xs
    ensures forall k :: 0 <= k < |xs| ==> xs[k] <= m
    decreases |xs|
  {
    if |xs| == 1 then xs[0]
    else
      var rest := Max(xs[1..]);
      if xs[0] >= rest then xs[0] else rest
  }

  /** `longitudes` after `zip(*all_coords)`. */
  function Longitudes(coords: seq<Position>): (lons: seq<real>)
    ensures |lons| == |coords| && forall k :: 0 <= k < |coords| ==> lons[k] == coords[k].lon
  {
    seq(|coords|, k requires 0 <= k < |coords| => coords[k].lon)
  }

  /** `latitudes` after `zip(*all_coords)`. */
  function Latitudes(coords: seq<Position>): (lats: seq<real>)
    ensures |lats| == |coords| && forall k :: 0 <= k < |coords| ==> lats[k] == coords[k].lat
  {
    seq(|coords|, k requires 0 <= k < |coords| => coords[k].lat)
  }

  /** The position lies in the box, borders included. */
  predicate Inside(box: Box, c: Position) {
    box.bottomLeftLong <= c.lon <= box.topRightLong && box.bottomLeftLat <= c.lat <= box.topRightLat
  }

  /**
   * The bounds computed from `all_coords`: no box when there is no
   * coordinate (the unpacking of `zip(*[])` fails); otherwise the smallest
   * box holding every coordinate, each of whose four bounds is attained.
   */
  function BoundingBox(coords: seq<Position>): (box: Option<Box>)
    ensures box.None? <==> coords == []
    ensures box.Some? ==> forall k :: 0 <= k < |coords| ==> Inside(box.value, coords[k])
    ensures box.Some? ==>
              && (exists k :: 0 <= k < |coords| && coords[k].lon == box.value.bottomLeftLong)
              && (exists k :: 0 <= k < |coords| && coords[k].lat == box.value.bottomLeftLat)
              && (exists k :: 0 <= k < |coords| && coords[k].lon == box.value.topRightLong)
              && (exists k :: 0 <= k < |coords| && coords[k].lat == box.value.topRightLat)
  {
    if coords == [] then None
    else
      var lons, lats := Longitudes(coords), Latitudes(coords);
      Some(Box(Min(lons), Min(lats), Max(lons), Max(lats)))
  }

  /** A box computed from coordinates has its bottom-left corner below and left of its top-right one. */
  lemma BoundingBoxOrdered(coords: seq<Position>)
    requires coords != []
    ensures var box := BoundingBox(coords).value;
            box.bottomLeftLong <= box.topRightLong && box.bottomLeftLat <= box.topRightLat
  {
    assert Inside(BoundingBox(coords).value, coords[0]);
  }
}
