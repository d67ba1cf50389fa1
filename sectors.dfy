/**
 * Search-sector generation of the wildfire values script (`process_points`):
 * around every unburned value point, one wedge per compass direction, built
 * from one vertex per whole degree of the direction's bearing range.
 */
module Sectors {
  import opened Wrappers
  import opened Strings

  /** A planar coordinate pair, `SHAPE@XY` of a value point or a generated vertex. */
  datatype Point = Point(x: real, y: real)

  /** One row of the erased values feature class: its location and its `Label`. */
  datatype ValuePoint = ValuePoint(xy: Point, pointLabel: Field)

  /** One row inserted into the sector feature class: `SHAPE@`, `Direction`, `Distance`, `Value`. */
  datatype SectorRow = SectorRow(shape: seq<Point>, direction: string, distance: string, value: Field)

  /** A compass direction and the bearings, in whole degrees, that its sector spans. */
  datatype Compass = Compass(name: string, start: int, end: int)

  /** The script's direction table, in the order the dictionary lists it. */
  const Directions: seq<Compass> :=
    [Compass("east", 315, 45), Compass("north", 45, 135), Compass("west", 135, 225), Compass("south", 225, 315)]

  /** Python's `range(lo, hi)`. */
  function Range(lo: int, hi: int): (r: seq<int>)
    ensures |r| == if lo <= hi then hi - lo else 0
    ensures forall k :: 0 <= k < |r| ==> r[k] == lo + k
  {
    if lo < hi then seq(hi - lo, k => lo + k) else []
  }

  /**
   * The bearings of one sector: `start..end` inclusive, or, when the range
   * crosses north (`start > end`), `start..359` followed by `0..end`.
   */
  function BearingRange(start: int, end: int): (angles: seq<int>)
    ensures 0 <= start < 360 && 0 <= end < 360 ==> forall k :: 0 <= k < |angles| ==> 0 <= angles[k] < 360
  {
    if start > end then Range(start, 360) + Range(0, end + 1) else Range(start, end + 1)
  }

  /**
   * Independent reading of a bearing range: the angles met walking clockwise
   * from `start` to `end` one degree at a time, wrapping at 360.
   */
  lemma BearingRangeClockwise(start: int, end: int)
    requires 0 <= start < 360 && 0 <= end < 360
    ensures |BearingRange(start, end)| == (end - start) % 360 + 1
    ensures forall k :: 0 <= k < |BearingRange(start, end)| ==>
              BearingRange(start, end)[k] == (start + k) % 360
  {
    var r := BearingRange(start, end);
    if start > end {
      var head, tail := Range(start, 360), Range(0, end + 1);
      assert r == head + tail;
      forall k | 0 <= k < |r| ensures r[k] == (start + k) % 360 {
        if k < |head| {
          assert r[k] == head[k] == start + k;
        } else {
          assert r[k] == tail[k - |head|] == start + k - 360;
        }
      }
    }
  }

  /** Every direction of the table spans 91 bearings, all in [0, 360); east wraps past north. */
  lemma CompassBearings()
    ensures forall d :: 0 <= d < |Directions| ==>
              var angles := BearingRange(Directions[d].start, Directions[d].end);
              |angles| == 91 && forall k :: 0 <= k < |angles| ==> 0 <= angles[k] < 360
    ensures BearingRange(315, 45) == Range(315, 360) + Range(0, 46)
    ensures forall d :: 1 <= d < |Directions| ==>
              BearingRange(Directions[d].start, Directions[d].end) == Range(Directions[d].start, Directions[d].end + 1)
  {
    forall d | 0 <= d < |Directions|
      ensures var angles := BearingRange(Directions[d].start, Directions[d].end);
              |angles| == 91 && forall k :: 0 <= k < |angles| ==> 0 <= angles[k] < 360
    {
      BearingRangeClockwise(Directions[d].start, Directions[d].end);
    }
  }

  /**
   * The closed vertex ring of a sector: the origin, the point at every bearing
   * in order, and the origin again. `pointAt(origin, angle, distance)` stands
   * for the trigonometric `point_from_bearing_and_distance`.
   */
  function SectorShape(origin: Point, angles: seq<int>, distance: int, pointAt: (Point, int, int) -> Point): (ring: seq<Point>)
    ensures |ring| == |angles| + 2
    ensures ring[0] == origin && ring[|ring| - 1] == origin
    ensures forall k :: 0 <= k < |angles| ==> ring[k + 1] == pointAt(origin, angles[k], distance)
  {
    [origin] + seq(|angles|, k requires 0 <= k < |angles| => pointAt(origin, angles[k], distance)) + [origin]
  }

  /** Builds the vertex list of one sector the way `process_points` does, by appending. */
  method SectorVertices(origin: Point, angles: seq<int>, distance: int, pointAt: (Point, int, int) -> Point)
    returns (points: seq<Point>)
    ensures |points| == |angles| + 2
    ensures points[0] == origin && points[|points| - 1] == origin
    ensures forall k :: 0 <= k < |angles| ==> points[k + 1] == pointAt(origin, angles[k], distance)
    ensures points == SectorShape(origin, angles, distance, pointAt)
  {
    points := [origin];
    var i := 0;
    while i < |angles|
      invariant 0 <= i <= |angles|
      invariant |points| == i + 1 && points[0] == origin
      invariant forall k :: 0 <= k < i ==> points[k + 1] == pointAt(origin, angles[k], distance)
    {
      points := points + [pointAt(origin, angles[i], distance)];
      i := i + 1;
    }
    points := points + [origin];
  }

  /** The four rows `process_points` inserts for one value point, east, north, west, south. */
  function SectorsOf(p: ValuePoint, distance: int, pointAt: (Point, int, int) -> Point): (rows: seq<SectorRow>)
    ensures |rows| == |Directions|
  {
    seq(|Directions|, d requires 0 <= d < |Directions| =>
      SectorRow(SectorShape(p.xy, BearingRange(Directions[d].start, Directions[d].end), distance, pointAt),
                Directions[d].name, IntToString(distance), p.pointLabel))
  }

  /** Every row inserted for a sequence of value points, in cursor order. */
  function AllSectors(points: seq<ValuePoint>, distance: int, pointAt: (Point, int, int) -> Point): seq<SectorRow>
    decreases |points|
  {
    if points == [] then []
    else AllSectors(points[..|points| - 1], distance, pointAt) + SectorsOf(points[|points| - 1], distance, pointAt)
  }

  /**
   * Row `4 * i + d` of the output is point `i`'s sector for direction `d`:
   * tagged with the point's label, the direction name and `str(distance)`,
   * a ring of 93 vertices that starts and ends at the point.
   */
  lemma {:induction false} AllSectorsAt(points: seq<ValuePoint>, distance: int, pointAt: (Point, int, int) -> Point, i: int, d: int)
    requires 0 <= i < |points| && 0 <= d < 4
    ensures |AllSectors(points, distance, pointAt)| == 4 * |points|
    ensures var row := AllSectors(points, distance, pointAt)[4 * i + d];
            && row.value == points[i].pointLabel
            && row.direction == Directions[d].name
            && row.distance == IntToString(distance)
            && |row.shape| == 93
            && row.shape[0] == points[i].xy && row.shape[92] == points[i].xy
    decreases |points|
  {
    var init := points[..|points| - 1];
    AllSectorsLength(init, distance, pointAt);
    if i < |points| - 1 {
      AllSectorsAt(init, distance, pointAt, i, d);
    } else {
      CompassBearings();
    }
  }

  /** Each value point contributes exactly four rows. */
  lemma {:induction false} AllSectorsLength(points: seq<ValuePoint>, distance: int, pointAt: (Point, int, int) -> Point)
    ensures |AllSectors(points, distance, pointAt)| == 4 * |points|
    decreases |points|
  {
    if points != [] {
      AllSectorsLength(points[..|points| - 1], distance, pointAt);
    }
  }

  /** The sector feature class: the rows an insert cursor has added so far. */
  class SectorTable {
    var rows: seq<SectorRow>

    constructor ()
      ensures rows == []
    {
      rows := [];
    }

    /** `insert_cursor.insertRow(row)`. */
    method InsertRow(row: SectorRow)
      modifies this
      ensures rows == old(rows) + [row]
    {
      rows := rows + [row];
    }
  }

  /**
   * The body of `process_points` for one value point: inserts its east,
   * north, west and south sectors, in that order.
   */
  method InsertSectors(table: SectorTable, point: ValuePoint, distance: int, pointAt: (Point, int, int) -> Point)
    modifies table
    ensures table.rows == old(table.rows) + SectorsOf(point, distance, pointAt)
  {
    ghost var sectors := SectorsOf(point, distance, pointAt);
    var d := 0;
    while d < |Directions|
      invariant 0 <= d <= |Directions|
      invariant table.rows == old(table.rows) + sectors[..d]
    {
      var direction := Directions[d];
      var angles := BearingRange(direction.start, direction.end);
      var shape := SectorVertices(point.xy, angles, distance, pointAt);
      table.InsertRow(SectorRow(shape, direction.name, IntToString(distance), point.pointLabel));
      assert sectors[..d + 1] == sectors[..d] + [sectors[d]];
      d := d + 1;
    }
    assert sectors[..d] == sectors;
  }

  /**
   * `process_points(distance, input_fc, values_fc_erased)`: for every value
   * point, in cursor order, inserts its east, north, west and south sectors.
   */
  method ProcessPoints(distance: int, table: SectorTable, values: seq<ValuePoint>, pointAt: (Point, int, int) -> Point)
    modifies table
    ensures table.rows == old(table.rows) + AllSectors(values, distance, pointAt)
  {
    var i := 0;
    while i < |values|
      invariant 0 <= i <= |values|
      invariant table.rows == old(table.rows) + AllSectors(values[..i], distance, pointAt)
    {
      InsertSectors(table, values[i], distance, pointAt);
      assert values[..i + 1][..i] == values[..i];
      i := i + 1;
    }
    assert values[..i] == values;
  }
}
