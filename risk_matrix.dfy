/**
 * Risk classification of the wildfire values script: which values a fire
 * touches (`get_unique_values`), the risk of one value in one direction
 * (`get_direction_risk`), and the risk-matrix pass that writes
 * North/East/South/West_Risk onto the copied values feature class.
 */
module RiskMatrix {
  import opened Wrappers
  import opened Strings

  /** A row of an intersect output (`Pizza_Slice_Intersects` or `Rainbow_Intersects`): `Value`, `Direction`. */
  datatype IntersectRow = IntersectRow(value: Field, direction: string)

  /** The three risk levels, ordered Low < Medium < High. */
  datatype Risk = High | Medium | Low {
    /** The text written into a risk field. */
    function Text(): string {
      match this
      case High => "High Risk"
      case Medium => "Medium Risk"
      case Low => "Low Risk"
    }

    /** Position in the order Low < Medium < High. */
    function Level(): nat {
      match this
      case High => 2
      case Medium => 1
      case Low => 0
    }
  }

  /** Why the risk-matrix pass stopped. */
  datatype RiskError =
    /** `del Medium_Risk_Cursor, row` when the rainbow table had no rows: `row` was never bound. */
    | UnboundRow

  /** The `Value` column of an intersect table, as a search cursor yields it. */
  function ValuesOf(rows: seq<IntersectRow>): (vs: seq<Field>)
    ensures |vs| == |rows|
    ensures forall j :: 0 <= j < |rows| ==> vs[j] == rows[j].value
  {
    seq(|rows|, j requires 0 <= j < |rows| => rows[j].value)
  }

  /**
   * `get_unique_values(fc1, fc2, field)`: adds every field value of both
   * tables to a set; the result is exactly their union.
   */
  method UniqueValues<T>(fc1: seq<T>, fc2: seq<T>) returns (values: set<T>)
    ensures forall v :: v in values <==> v in fc1 || v in fc2
  {
    values := {};
    var i := 0;
    while i < |fc1|
      invariant 0 <= i <= |fc1|
      invariant forall v :: v in values <==> v in fc1[..i]
    {
      values := values + {fc1[i]};
      i := i + 1;
    }
    assert fc1[..i] == fc1;
    i := 0;
    while i < |fc2|
      invariant 0 <= i <= |fc2|
      invariant forall v :: v in values <==> v in fc1 || v in fc2[..i]
    {
      values := values + {fc2[i]};
      i := i + 1;
    }
    assert fc2[..i] == fc2;
  }

  /** A cursor row is a hit for `value` in `direction`: same value, same lower-cased direction. */
  predicate Hit(row: IntersectRow, value: Field, direction: string) {
    row.value == value && Lower(row.direction) == direction
  }

  /** Some row of the table is a hit. */
  predicate AnyHit(rows: seq<IntersectRow>, value: Field, direction: string) {
    exists j :: 0 <= j < |rows| && Hit(rows[j], value, direction)
  }

  /**
   * The risk of `value` in `direction`: High when a pizza slice is hit,
   * otherwise Medium when a rainbow is hit, otherwise Low.
   */
  function RiskOf(pizza: seq<IntersectRow>, rainbow: seq<IntersectRow>, value: Field, direction: string): (r: Risk)
    ensures r == Low <==> !AnyHit(pizza, value, direction) && !AnyHit(rainbow, value, direction)
    ensures r != High ==> !AnyHit(pizza, value, direction)
  {
    if AnyHit(pizza, value, direction) then High
    else if AnyHit(rainbow, value, direction) then Medium
    else Low
  }

  /** The risk is the highest level among the hits: High beats Medium, which beats no hit. */
  lemma RiskIsHighestHit(pizza: seq<IntersectRow>, rainbow: seq<IntersectRow>, value: Field, direction: string)
    ensures var r := RiskOf(pizza, rainbow, value, direction);
            && (AnyHit(pizza, value, direction) ==> r.Level() == 2)
            && (AnyHit(rainbow, value, direction) ==> r.Level() >= 1)
            && (r.Level() >= 1 ==> AnyHit(pizza, value, direction) || AnyHit(rainbow, value, direction))
            && (r.Level() == 2 ==> AnyHit(pizza, value, direction))
  {
  }

  /** A hit depends only on which rows the table holds, not on their order or repetition. */
  lemma AnyHitOrderFree(rows: seq<IntersectRow>, rows': seq<IntersectRow>, value: Field, direction: string)
    requires multiset(rows) == multiset(rows')
    ensures AnyHit(rows, value, direction) == AnyHit(rows', value, direction)
  {
    if AnyHit(rows, value, direction) {
      var j :| 0 <= j < |rows| && Hit(rows[j], value, direction);
      assert rows[j] in multiset(rows');
      var j' :| 0 <= j' < |rows'| && rows'[j'] == rows[j];
    }
    if AnyHit(rows', value, direction) {
      var j :| 0 <= j < |rows'| && Hit(rows'[j], value, direction);
      assert rows'[j] in multiset(rows);
      var j' :| 0 <= j' < |rows| && rows[j'] == rows'[j];
    }
  }

  /** `get_direction_risk` does not depend on the order of either cursor. */
  lemma RiskOfOrderFree(pizza: seq<IntersectRow>, pizza': seq<IntersectRow>, rainbow: seq<IntersectRow>, rainbow': seq<IntersectRow>,
                        value: Field, direction: string)
    requires multiset(pizza) == multiset(pizza') && multiset(rainbow) == multiset(rainbow')
    ensures RiskOf(pizza, rainbow, value, direction) == RiskOf(pizza', rainbow', value, direction)
  {
    AnyHitOrderFree(pizza, pizza', value, direction);
    AnyHitOrderFree(rainbow, rainbow', value, direction);
  }

  /**
   * `get_direction_risk(pizza, rainbow, value, direction)`: starts at Low,
   * scans the rainbow cursor (a hit sets Medium), deletes the loop variable,
   * then scans the pizza cursor (a hit sets High). Deleting the loop variable
   * fails when the rainbow cursor yielded no row.
   */
  method DirectionRisk(pizza: seq<IntersectRow>, rainbow: seq<IntersectRow>, value: Field, direction: string)
    returns (r: Result<Risk, RiskError>)
    ensures rainbow == [] ==> r == Err(UnboundRow)
    ensures rainbow != [] ==> r == Ok(RiskOf(pizza, rainbow, value, direction))
  {
    var result := Low;
    var i := 0;
    while i < |rainbow|
      invariant 0 <= i <= |rainbow|
      invariant result == if AnyHit(rainbow[..i], value, direction) then Medium else Low
    {
      if rainbow[i].value == value && Lower(rainbow[i].direction) == direction {
        result := Medium;
      }
      assert rainbow[..i + 1] == rainbow[..i] + [rainbow[i]];
      i := i + 1;
    }
    if |rainbow| == 0 {
      return Err(UnboundRow);
    }
    assert rainbow[..i] == rainbow;
    i := 0;
    while i < |pizza|
      invariant 0 <= i <= |pizza|
      invariant result == if AnyHit(pizza[..i], value, direction) then High
                          else if AnyHit(rainbow, value, direction) then Medium else Low
    {
      if pizza[i].value == value && Lower(pizza[i].direction) == direction {
        result := High;
      }
      assert pizza[..i + 1] == pizza[..i] + [pizza[i]];
      i := i + 1;
    }
    assert pizza[..i] == pizza;
    r := Ok(result);
  }

  /**
   * `get_direction_risk` without the failing `del` of the loop variable:
   * the same two scans, so a pizza-slice hit reads High even when the
   * rainbow table is empty.
   */
  method DirectionRiskIntended(pizza: seq<IntersectRow>, rainbow: seq<IntersectRow>, value: Field, direction: string)
    returns (r: Risk)
    ensures AnyHit(pizza, value, direction) ==> r == High
    ensures !AnyHit(pizza, value, direction) && AnyHit(rainbow, value, direction) ==> r == Medium
    ensures !AnyHit(pizza, value, direction) && !AnyHit(rainbow, value, direction) ==> r == Low
  {
    r := Low;
    var i := 0;
    while i < |rainbow|
      invariant 0 <= i <= |rainbow|
      invariant r == if AnyHit(rainbow[..i], value, direction) then Medium else Low
    {
      if rainbow[i].value == value && Lower(rainbow[i].direction) == direction {
        r := Medium;
      }
      assert rainbow[..i + 1] == rainbow[..i] + [rainbow[i]];
      i := i + 1;
    }
    assert rainbow[..i] == rainbow;
    i := 0;
    while i < |pizza|
      invariant 0 <= i <= |pizza|
      invariant r == if AnyHit(pizza[..i], value, direction) then High
                     else if AnyHit(rainbow, value, direction) then Medium else Low
    {
      if pizza[i].value == value && Lower(pizza[i].direction) == direction {
        r := High;
      }
      assert pizza[..i + 1] == pizza[..i] + [pizza[i]];
      i := i + 1;
    }
    assert pizza[..i] == pizza;
  }

  /** The directions the risk matrix asks about, in the order of the risk fields. */
  const RiskDirections: seq<string> := ["north", "east", "south", "west"]

  /** The fields the risk matrix writes, in the same order. */
  const RiskFields: seq<string> := ["North_Risk", "East_Risk", "South_Risk", "West_Risk"]

  /** The texts of a value's risk in each of the four directions, north, east, south, west. */
  function RiskTexts(pizza: seq<IntersectRow>, rainbow: seq<IntersectRow>, value: Field): (texts: seq<Field>)
    ensures |texts| == |RiskDirections|
  {
    seq(|RiskDirections|, k requires 0 <= k < |RiskDirections| => Some(RiskOf(pizza, rainbow, value, RiskDirections[k]).Text()))
  }

  /** `temp_risk_list`: the value's risk in each direction of `RiskDirections`, in order. */
  method DirectionRisks(pizza: seq<IntersectRow>, rainbow: seq<IntersectRow>, value: Field)
    returns (r: Result<seq<Risk>, RiskError>)
    ensures rainbow == [] ==> r == Err(UnboundRow)
    ensures rainbow != [] ==> r.Ok? && |r.value| == |RiskDirections|
    ensures r.Ok? ==> forall k :: 0 <= k < |RiskDirections| ==> r.value[k] == RiskOf(pizza, rainbow, value, RiskDirections[k])
  {
    var risks: seq<Risk> := [];
    var k := 0;
    while k < |RiskDirections|
      invariant 0 <= k <= |RiskDirections|
      invariant |risks| == k
      invariant rainbow == [] ==> k == 0
      invariant forall m :: 0 <= m < k ==> risks[m] == RiskOf(pizza, rainbow, value, RiskDirections[m])
    {
      var one := DirectionRisk(pizza, rainbow, value, RiskDirections[k]);
      if one.Err? {
        return Err(one.error);
      }
      risks := risks + [one.value];
      k := k + 1;
    }
    r := Ok(risks);
  }

  /** A row of the copied values feature class: the four risk fields, `Label`, and every other attribute. */
  datatype ValueRow = ValueRow(risks: seq<Field>, labelField: Field, others: seq<Field>)

  /** A risk field the null pass rewrites: null, or the text "NULL". */
  predicate IsNullRisk(f: Field) {
    f == None || f == Some("NULL")
  }

  /** The null pass on one row: every null or "NULL" risk field becomes "Low Risk". */
  function NullFilled(row: ValueRow): (filled: ValueRow)
    ensures |filled.risks| == |row.risks|
    ensures filled.labelField == row.labelField && filled.others == row.others
    ensures forall k :: 0 <= k < |row.risks| ==>
              filled.risks[k] == if IsNullRisk(row.risks[k]) then Some(Low.Text()) else row.risks[k]
  {
    row.(risks := seq(|row.risks|, k requires 0 <= k < |row.risks| =>
                        if IsNullRisk(row.risks[k]) then Some(Low.Text()) else row.risks[k]))
  }

  /** Running the null pass twice changes nothing the first run did not. */
  lemma NullFilledIdempotent(row: ValueRow)
    ensures NullFilled(NullFilled(row)) == NullFilled(row)
    ensures forall k :: 0 <= k < |row.risks| ==> !IsNullRisk(NullFilled(row).risks[k])
  {
  }

  /** The update pass on one row: a row whose `Label` equals `value` gets the four risk texts. */
  function Updated(row: ValueRow, value: Field, texts: seq<Field>): ValueRow {
    if row.labelField == value then row.(risks := texts) else row
  }

  /** `temp_risk_list` built with the intended direction risk: one risk per direction, never an error. */
  method DirectionRisksIntended(pizza: seq<IntersectRow>, rainbow: seq<IntersectRow>, value: Field)
    returns (risks: seq<Risk>)
    ensures |risks| == |RiskDirections|
    ensures forall k :: 0 <= k < |risks| ==> risks[k] == RiskOf(pizza, rainbow, value, RiskDirections[k])
  {
    risks := [];
    var k := 0;
    while k < |RiskDirections|
      invariant 0 <= k <= |RiskDirections| && |risks| == k
      invariant forall m :: 0 <= m < k ==> risks[m] == RiskOf(pizza, rainbow, value, RiskDirections[m])
    {
      var risk := DirectionRiskIntended(pizza, rainbow, value, RiskDirections[k]);
      risks := risks + [risk];
      k := k + 1;
    }
  }

  /** The output values feature class (`output_dataset`), read and written through update cursors. */
  class RiskTable {
    var rows: seq<ValueRow>

    /** Every row carries the four risk fields. */
    ghost predicate Valid()
      reads this
    {
      forall i :: 0 <= i < |rows| ==> |rows[i].risks| == |RiskFields|
    }

    constructor (rows: seq<ValueRow>)
      requires forall i :: 0 <= i < |rows| ==> |rows[i].risks| == |RiskFields|
      ensures Valid() && this.rows == rows
    {
      this.rows := rows;
    }

    /**
     * The update cursor of the risk-matrix cell: every row whose `Label`
     * equals `value` gets `texts` in North/East/South/West_Risk; its label,
     * its other attributes and every other row stay as they were.
     */
    method UpdateRisks(value: Field, texts: seq<Field>)
      requires Valid() && |texts| == |RiskFields|
      modifies this
      ensures Valid() && |rows| == |old(rows)|
      ensures forall i :: 0 <= i < |rows| ==> rows[i] == Updated(old(rows)[i], value, texts)
    {
      var i := 0;
      while i < |rows|
        invariant 0 <= i <= |rows| == |old(rows)|
        invariant Valid()
        invariant forall j :: 0 <= j < i ==> rows[j] == Updated(old(rows)[j], value, texts)
        invariant forall j :: i <= j < |rows| ==> rows[j] == old(rows)[j]
      {
        var row := rows[i];
        if row.labelField == value {
          row := row.(risks := texts);
          rows := rows[i := row];
        }
        i := i + 1;
      }
    }

    /** The null-replacement cursor: every null or "NULL" risk field of every row becomes "Low Risk". */
    method ReplaceNulls()
      requires Valid()
      modifies this
      ensures Valid() && |rows| == |old(rows)|
      ensures forall i :: 0 <= i < |rows| ==> rows[i] == NullFilled(old(rows)[i])
    {
      var i := 0;
      while i < |rows|
        invariant 0 <= i <= |rows| == |old(rows)|
        invariant Valid()
        invariant forall j :: 0 <= j < i ==> rows[j] == NullFilled(old(rows)[j])
        invariant forall j :: i <= j < |rows| ==> rows[j] == old(rows)[j]
      {
        var row := rows[i];
        var k := 0;
        while k < |RiskFields|
          invariant 0 <= k <= |RiskFields|
          invariant |row.risks| == |RiskFields|
          invariant row.labelField == rows[i].labelField && row.others == rows[i].others
          invariant forall m :: 0 <= m < k ==> row.risks[m] == NullFilled(rows[i]).risks[m]
          invariant forall m :: k <= m < |RiskFields| ==> row.risks[m] == rows[i].risks[m]
        {
          if row.risks[k] == None || row.risks[k] == Some("NULL") {
            row := row.(risks := row.risks[k := Some(Low.Text())]);
          }
          k := k + 1;
        }
        rows := rows[i := row];
        i := i + 1;
      }
    }
  }

  /** The values some fire touches: the labels `get_unique_values` collects from both intersect tables. */
  function IntersectedValues(pizza: seq<IntersectRow>, rainbow: seq<IntersectRow>): set<Field> {
    (set v | v in ValuesOf(rainbow)) + (set v | v in ValuesOf(pizza))
  }

  /** No fire touches anything exactly when both intersect tables are empty. */
  lemma IntersectedValuesEmpty(pizza: seq<IntersectRow>, rainbow: seq<IntersectRow>)
    ensures IntersectedValues(pizza, rainbow) == {} <==> pizza == [] && rainbow == []
  {
    if pizza != [] {
      assert ValuesOf(pizza)[0] in IntersectedValues(pizza, rainbow);
    }
    if rainbow != [] {
      assert ValuesOf(rainbow)[0] in IntersectedValues(pizza, rainbow);
    }
  }

  /**
   * What the risk matrix makes of one row, once every value in `ids` has
   * been processed: a row labelled with one of them carries that value's
   * four risk texts; any other row has had its null risks replaced.
   */
  function RiskMatrixRow(row: ValueRow, ids: set<Field>, pizza: seq<IntersectRow>, rainbow: seq<IntersectRow>): ValueRow {
    if row.labelField in ids then row.(risks := RiskTexts(pizza, rainbow, row.labelField)) else NullFilled(row)
  }

  /**
   * The risk-matrix cell as written: the null pass runs inside the loop over
   * the unique values, so with no intersected value it never runs and the
   * rows are left as they were; and the first direction risk fails when
   * the rainbow table is empty.
   */
  function RiskMatrixAsWritten(rows: seq<ValueRow>, pizza: seq<IntersectRow>, rainbow: seq<IntersectRow>): Result<seq<ValueRow>, RiskError> {
    var ids := IntersectedValues(pizza, rainbow);
    if ids == {} then Ok(rows)
    else if rainbow == [] then Err(UnboundRow)
    else Ok(seq(|rows|, i requires 0 <= i < |rows| => RiskMatrixRow(rows[i], ids, pizza, rainbow)))
  }

  /**
   * The intended risk-matrix cell: every intersected value gets its risks
   * whatever the rainbow table holds, and the null pass runs once after
   * the loop whatever the loop did.
   */
  function RiskMatrixIntended(rows: seq<ValueRow>, pizza: seq<IntersectRow>, rainbow: seq<IntersectRow>): (out: seq<ValueRow>)
    ensures |out| == |rows|
  {
    var ids := IntersectedValues(pizza, rainbow);
    seq(|rows|, i requires 0 <= i < |rows| => RiskMatrixRow(rows[i], ids, pizza, rainbow))
  }

  /** A row none of whose risk fields is null or "NULL". */
  predicate RisksFilled(row: ValueRow) {
    forall k :: 0 <= k < |row.risks| ==> !IsNullRisk(row.risks[k])
  }

  /** The null pass leaves a row without null risks as it is. */
  lemma NullFilledNoOp(row: ValueRow)
    requires RisksFilled(row)
    ensures NullFilled(row) == row
  {
    assert NullFilled(row).risks == row.risks;
  }

  /**
   * In the intended cell every row of the output carries a risk in every
   * risk field (none is null or "NULL"), and a row labelled with an
   * intersected value carries that value's four direction risks.
   */
  lemma RiskMatrixIntendedFillsAll(rows: seq<ValueRow>, pizza: seq<IntersectRow>, rainbow: seq<IntersectRow>)
    ensures var out := RiskMatrixIntended(rows, pizza, rainbow);
            forall i :: 0 <= i < |rows| ==>
              && RisksFilled(out[i])
              && out[i].labelField == rows[i].labelField && out[i].others == rows[i].others
              && (rows[i].labelField in IntersectedValues(pizza, rainbow) ==>
                    out[i].risks == RiskTexts(pizza, rainbow, rows[i].labelField))
  {
    var out := RiskMatrixIntended(rows, pizza, rainbow);
    forall i | 0 <= i < |rows| ensures RisksFilled(out[i]) {
      NullFilledIdempotent(rows[i]);
    }
  }

  /** Whenever some value was intersected and the rainbow table has rows, the cell as written is the intended one. */
  lemma RiskMatrixAgreesWhenIntersected(rows: seq<ValueRow>, pizza: seq<IntersectRow>, rainbow: seq<IntersectRow>)
    requires rainbow != []
    ensures RiskMatrixAsWritten(rows, pizza, rainbow) == Ok(RiskMatrixIntended(rows, pizza, rainbow))
  {
    IntersectedValuesEmpty(pizza, rainbow);
  }

  /**
   * First discrepancy: a values row whose risk fields are still null, with
   * no fire intersecting any sector, keeps its null risks as written, where
   * the intended cell reads "Low Risk".
   */
  lemma RiskMatrixAsWrittenKeepsNulls()
    ensures var row := ValueRow([None, None, None, None], Some("Camp"), []);
            && RiskMatrixAsWritten([row], [], []) == Ok([row])
            && RiskMatrixIntended([row], [], [])[0].risks[0] == Some("Low Risk")
  {
    var row := ValueRow([None, None, None, None], Some("Camp"), []);
    IntersectedValuesEmpty([], []);
    assert RiskMatrixRow(row, {}, [], []) == NullFilled(row);
    assert NullFilled(row).risks[0] == Some("Low Risk");
  }

  /**
   * Second discrepancy: a value whose northern pizza slice meets a fire,
   * with no rainbow meeting any, stops the cell as written, where the
   * intended cell reads "High Risk" in its North_Risk field.
   */
  lemma RiskMatrixAsWrittenFailsWithoutRainbow()
    ensures var row := ValueRow([None, None, None, None], Some("Camp"), []);
            var pizza := [IntersectRow(Some("Camp"), "north")];
            && RiskMatrixAsWritten([row], pizza, []) == Err(UnboundRow)
            && RiskMatrixIntended([row], pizza, [])[0].risks[0] == Some("High Risk")
  {
    var row := ValueRow([None, None, None, None], Some("Camp"), []);
    var pizza := [IntersectRow(Some("Camp"), "north")];
    assert ValuesOf(pizza)[0] == Some("Camp");
    assert Some("Camp") in IntersectedValues(pizza, []);
    assert Lower("north") == "north";
    assert Hit(pizza[0], Some("Camp"), RiskDirections[0]);
    assert RiskOf(pizza, [], Some("Camp"), RiskDirections[0]) == High;
  }

  /** The four risk texts as written into a row, from the risks of `DirectionRisks`. */
  function Texts(risks: seq<Risk>): (texts: seq<Field>)
    ensures |texts| == |risks|
    ensures forall k :: 0 <= k < |risks| ==> texts[k] == Some(risks[k].Text())
    ensures forall k :: 0 <= k < |texts| ==> !IsNullRisk(texts[k])
  {
    seq(|risks|, k requires 0 <= k < |risks| => Some(risks[k].Text()))
  }

  /** Invariant of the risk-matrix loop: row `i` of `now` has been carried from `was` through `done`. */
  ghost predicate ProcessedAsWritten(now: seq<ValueRow>, was: seq<ValueRow>, done: set<Field>,
                                     pizza: seq<IntersectRow>, rainbow: seq<IntersectRow>)
  {
    && |now| == |was|
    && (done == {} ==> now == was)
    && (done != {} ==> forall i :: 0 <= i < |was| ==> now[i] == RiskMatrixRow(was[i], done, pizza, rainbow))
  }

  /** One iteration of the loop as written carries the invariant from `done` to `done + {value}`. */
  lemma ProcessedAsWrittenStep(now: seq<ValueRow>, was: seq<ValueRow>, done: set<Field>, value: Field,
                               pizza: seq<IntersectRow>, rainbow: seq<IntersectRow>, next: seq<ValueRow>)
    requires ProcessedAsWritten(now, was, done, pizza, rainbow)
    requires value !in done
    requires |next| == |now|
    requires forall i :: 0 <= i < |now| ==>
               next[i] == NullFilled(Updated(now[i], value, RiskTexts(pizza, rainbow, value)))
    ensures ProcessedAsWritten(next, was, done + {value}, pizza, rainbow)
  {
    var texts := RiskTexts(pizza, rainbow, value);
    forall i | 0 <= i < |was| ensures next[i] == RiskMatrixRow(was[i], done + {value}, pizza, rainbow) {
      if was[i].labelField == value {
        var filled := now[i].(risks := texts);
        NullFilledNoOp(filled);
        assert filled == RiskMatrixRow(was[i], done + {value}, pizza, rainbow);
      } else if was[i].labelField in done {
        NullFilledNoOp(now[i]);
      } else if done != {} {
        NullFilledIdempotent(was[i]);
      }
    }
  }

  /**
   * The risk-matrix cell (the loop over `get_unique_values`): for every
   * intersected value, in set order, computes its four direction risks,
   * writes them onto the rows labelled with it, then runs the null pass.
   */
  method BuildRiskMatrix(table: RiskTable, pizza: seq<IntersectRow>, rainbow: seq<IntersectRow>)
    returns (outcome: Result<(), RiskError>)
    requires table.Valid()
    modifies table
    ensures table.Valid()
    ensures var expected := RiskMatrixAsWritten(old(table.rows), pizza, rainbow);
            && (expected.Err? ==> outcome == Err(expected.error) && table.rows == old(table.rows))
            && (expected.Ok? ==> outcome.Ok? && table.rows == expected.value)
  {
    var ids := UniqueValues(ValuesOf(rainbow), ValuesOf(pizza));
    assert ids == IntersectedValues(pizza, rainbow);
    var remaining := ids;
    while remaining != {}
      invariant table.Valid()
      invariant remaining <= ids
      invariant ProcessedAsWritten(table.rows, old(table.rows), ids - remaining, pizza, rainbow)
      invariant ids - remaining != {} ==> rainbow != []
      decreases remaining
    {
      var value :| value in remaining;
      var risks := DirectionRisks(pizza, rainbow, value);
      if risks.Err? {
        return Err(risks.error);
      }
      var texts := Texts(risks.value);
      assert texts == RiskTexts(pizza, rainbow, value);
      ghost var before := table.rows;
      table.UpdateRisks(value, texts);
      table.ReplaceNulls();
      ProcessedAsWrittenStep(before, old(table.rows), ids - remaining, value, pizza, rainbow, table.rows);
      assert ids - (remaining - {value}) == (ids - remaining) + {value};
      remaining := remaining - {value};
    }
    assert ids - remaining == ids;
    outcome := Ok(());
  }

  /**
   * The intended risk-matrix cell: the same loop with the intended
   * direction risk and without the null pass, then one null pass over the
   * whole table.
   */
  method BuildRiskMatrixIntended(table: RiskTable, pizza: seq<IntersectRow>, rainbow: seq<IntersectRow>)
    requires table.Valid()
    modifies table
    ensures table.Valid()
    ensures table.rows == RiskMatrixIntended(old(table.rows), pizza, rainbow)
  {
    var ids := UniqueValues(ValuesOf(rainbow), ValuesOf(pizza));
    assert ids == IntersectedValues(pizza, rainbow);
    var remaining := ids;
    while remaining != {}
      invariant table.Valid()
      invariant remaining <= ids
      invariant |table.rows| == |old(table.rows)|
      invariant forall i :: 0 <= i < |table.rows| ==>
                  table.rows[i] == if old(table.rows)[i].labelField in ids - remaining
                                   then old(table.rows)[i].(risks := RiskTexts(pizza, rainbow, old(table.rows)[i].labelField))
                                   else old(table.rows)[i]
      decreases remaining
    {
      var value :| value in remaining;
      var risks := DirectionRisksIntended(pizza, rainbow, value);
      var texts := Texts(risks);
      assert texts == RiskTexts(pizza, rainbow, value);
      table.UpdateRisks(value, texts);
      assert ids - (remaining - {value}) == (ids - remaining) + {value};
      remaining := remaining - {value};
    }
    assert ids - remaining == ids;
    ghost var updated := table.rows;
    table.ReplaceNulls();
    forall i | 0 <= i < |table.rows|
      ensures table.rows[i] == RiskMatrixRow(old(table.rows)[i], ids, pizza, rainbow)
    {
      if old(table.rows)[i].labelField in ids {
        NullFilledNoOp(updated[i]);
      }
    }
  }
}
