/**
 * `build_depreciation_schedule` (src/helpers.py): straight-line depreciation
 * fanned out per asset. A row with a missing or non-positive
 * Depreciation_Years, or a missing ramp year, yields nothing; otherwise the
 * life is truncated to whole years n and the row yields n entries, for the
 * ramp year and the n - 1 years after it, each of total cost / n. A life
 * between 0 and 1 truncates to n = 0, and dividing the cost by it raises
 * ZeroDivisionError, so the whole schedule fails.
 */
module Depreciation {
  import opened Wrappers
  import opened Enrichment

  datatype DepreciationEntry = DepreciationEntry(
    projectCode: string,
    programName: string,
    assetId: string,
    year: int,
    annualDepreciation: real)

  /** The row is skipped: no life, a non-positive life, or no ramp year. */
  predicate Skipped(row: EnrichedLine)
  {
    row.asset.depreciationYears.None? || row.rampYear.None? || row.asset.depreciationYears.value <= 0.0
  }

  /** The row is not skipped but its life truncates to 0 whole years: total_cost / 0 raises. */
  predicate DividesByZero(row: EnrichedLine)
  {
    !Skipped(row) && row.asset.depreciationYears.value.Floor == 0
  }

  /** No row of the table divides by zero. */
  predicate Depreciable(df: seq<EnrichedLine>)
  {
    forall i :: 0 <= i < |df| ==> !DividesByZero(df[i])
  }

  /** ZeroDivisionError, raised by the first row whose life truncates to 0 years. */
  datatype ScheduleError = ZeroDivision

  /** int(Depreciation_Years) for a row that is not skipped: the life truncated to whole years. */
  function LifeYears(row: EnrichedLine): nat
  {
    if Skipped(row) then 0 else row.asset.depreciationYears.value.Floor
  }

  function Entry(row: EnrichedLine, year: int, annual: real): DepreciationEntry
  {
    DepreciationEntry(row.asset.projectCode, row.asset.programName, row.asset.assetId, year, annual)
  }

  /**
   * The entries of one asset that does not divide by zero: none when it is
   * skipped, otherwise as many as its whole years of life, for consecutive
   * years from the ramp year, each an equal share such that the shares add
   * back to the total cost.
   */
  function Fanout(row: EnrichedLine): (r: seq<DepreciationEntry>)
    requires !DividesByZero(row)
    ensures |r| == LifeYears(row)
    ensures forall i :: 0 <= i < |r| ==> r[i].year == row.rampYear.value + i
    ensures forall i :: 0 <= i < |r| ==> r[i].annualDepreciation * (|r| as real) == row.totalCost
    ensures forall i :: 0 <= i < |r| ==>
      && r[i].projectCode == row.asset.projectCode
      && r[i].programName == row.asset.programName
      && r[i].assetId == row.asset.assetId
  {
    var n := LifeYears(row);
    if n == 0 then []
    else
      var annual := row.totalCost / n as real;
      var ramp := row.rampYear.value;
      assert annual * (n as real) == row.totalCost;
      var entries := seq(n, i requires 0 <= i < n => Entry(row, ramp + i, annual));
      assert forall i :: 0 <= i < n ==> entries[i] == Entry(row, ramp + i, annual);
      entries
  }

  /** The whole schedule: the entries of each row in input order. */
  function Schedule(df: seq<EnrichedLine>): seq<DepreciationEntry>
    requires Depreciable(df)
  {
    if df == [] then [] else Schedule(df[..|df| - 1]) + Fanout(df[|df| - 1])
  }

  /**
   * The loop of `build_depreciation_schedule`: rows in order, the years of
   * each row in ascending order, one record appended per year. It fails
   * exactly when some row's life truncates to 0 years, and otherwise builds
   * the specification schedule.
   */
  method BuildDepreciationSchedule(df: seq<EnrichedLine>) returns (r: Result<seq<DepreciationEntry>, ScheduleError>)
    ensures !Depreciable(df) ==> r == Failure(ZeroDivision)
    ensures Depreciable(df) ==> r == Success(Schedule(df))
  {
    var records := [];
    for k := 0 to |df|
      invariant Depreciable(df[..k])
      invariant records == Schedule(df[..k])
    {
      var row := df[k];
      if row.asset.depreciationYears.None? || row.rampYear.None? || row.asset.depreciationYears.value <= 0.0 {
        ScheduleStep(df, k);
        continue;
      }
      var depYears := row.asset.depreciationYears.value.Floor;
      var rampYear := row.rampYear.value;
      if depYears == 0 {
        // total_cost / 0
        assert DividesByZero(df[k]);
        return Failure(ZeroDivision);
      }
      ScheduleStep(df, k);
      records := AppendFanout(records, row, depYears, rampYear);
    }
    assert df[..|df|] == df;
    return Success(records);
  }

  /** The inner loop: the row's years in ascending order, one record appended per year. */
  method AppendFanout(records: seq<DepreciationEntry>, row: EnrichedLine, depYears: nat, rampYear: int)
    returns (extended: seq<DepreciationEntry>)
    requires !Skipped(row) && depYears == LifeYears(row) > 0 && rampYear == row.rampYear.value
    ensures extended == records + Fanout(row)
  {
    ghost var fan := Fanout(row);
    var annualDep := row.totalCost / depYears as real;
    extended := records;
    for i := 0 to depYears
      invariant extended == records + fan[..i]
    {
      assert fan[..i + 1] == fan[..i] + [fan[i]];
      extended := extended + [DepreciationEntry(row.asset.projectCode, row.asset.programName, row.asset.assetId, rampYear + i, annualDep)];
    }
    assert fan[..depYears] == fan;
  }

  /** One more row that does not divide by zero extends the schedule by its own entries. */
  lemma ScheduleStep(df: seq<EnrichedLine>, k: nat)
    requires k < |df| && Depreciable(df[..k]) && !DividesByZero(df[k])
    ensures Depreciable(df[..k + 1])
    ensures Schedule(df[..k + 1]) == Schedule(df[..k]) + Fanout(df[k])
  {
    assert df[..k + 1][..k] == df[..k];
  }

  /** The schedule of a one-row table is that row's entries. */
  lemma ScheduleOfOne(row: EnrichedLine)
    requires !DividesByZero(row)
    ensures Depreciable([row]) && Schedule([row]) == Fanout(row)
  {
    assert [row][..0] == [];
  }

  /** A half-year life passes the skip test but truncates to 0 years, so a table holding that row has no schedule. */
  lemma HalfYearLifeDividesByZero(row: EnrichedLine, df: seq<EnrichedLine>)
    requires row.asset.depreciationYears == Some(0.5) && row.rampYear.Some?
    requires row in df
    ensures !Skipped(row) && LifeYears(row) == 0
    ensures !Depreciable(df)
  {
    var i :| 0 <= i < |df| && df[i] == row;
    assert (0.5).Floor == 0;
    assert DividesByZero(df[i]);
  }

  /** The schedule of two tables one after the other is their schedules one after the other. */
  lemma {:induction false} ScheduleAppend(a: seq<EnrichedLine>, b: seq<EnrichedLine>)
    requires Depreciable(a) && Depreciable(b)
    ensures Depreciable(a + b)
    ensures Schedule(a + b) == Schedule(a) + Schedule(b)
  {
    DepreciableAppend(a, b);
    if b == [] {
      assert a + b == a;
    } else {
      var init := b[..|b| - 1];
      assert (a + b)[..|a + b| - 1] == a + init;
      assert (a + b)[|a + b| - 1] == b[|b| - 1];
      assert Depreciable(init) by {
        forall i | 0 <= i < |init| ensures !DividesByZero(init[i]) {
          assert init[i] == b[i];
        }
      }
      ScheduleAppend(a, init);
    }
  }

  lemma DepreciableAppend(a: seq<EnrichedLine>, b: seq<EnrichedLine>)
    requires Depreciable(a) && Depreciable(b)
    ensures Depreciable(a + b)
  {
    forall i | 0 <= i < |a + b| ensures !DividesByZero((a + b)[i]) {
      if i < |a| {
        assert (a + b)[i] == a[i];
      } else {
        assert (a + b)[i] == b[i - |a|];
      }
    }
  }

  function TotalDepreciation(entries: seq<DepreciationEntry>): real
  {
    if entries == [] then 0.0
    else TotalDepreciation(entries[..|entries| - 1]) + entries[|entries| - 1].annualDepreciation
  }

  lemma {:induction false} TotalDepreciationAppend(a: seq<DepreciationEntry>, b: seq<DepreciationEntry>)
    ensures TotalDepreciation(a + b) == TotalDepreciation(a) + TotalDepreciation(b)
  {
    if b == [] {
      assert a + b == a;
    } else {
      assert (a + b)[..|a + b| - 1] == a + b[..|b| - 1];
      TotalDepreciationAppend(a, b[..|b| - 1]);
    }
  }

  lemma {:induction false} TotalOfEqualShares(entries: seq<DepreciationEntry>, share: real)
    requires forall i :: 0 <= i < |entries| ==> entries[i].annualDepreciation == share
    ensures TotalDepreciation(entries) == |entries| as real * share
  {
    if entries != [] {
      TotalOfEqualShares(entries[..|entries| - 1], share);
    }
  }

  /** The entries of one asset with at least one whole year of life add up to its total cost. */
  lemma FanoutTotal(row: EnrichedLine)
    requires LifeYears(row) > 0
    ensures TotalDepreciation(Fanout(row)) == row.totalCost
  {
    var f := Fanout(row);
    var n := LifeYears(row);
    TotalOfEqualShares(f, row.totalCost / n as real);
  }

  /** The cost of the rows with at least one whole year of life. */
  function DepreciableCost(df: seq<EnrichedLine>): real
  {
    if df == [] then 0.0
    else DepreciableCost(df[..|df| - 1]) + (if LifeYears(df[|df| - 1]) > 0 then df[|df| - 1].totalCost else 0.0)
  }

  /** The number of whole years of life over all rows. */
  function TotalLifeYears(df: seq<EnrichedLine>): nat
  {
    if df == [] then 0 else TotalLifeYears(df[..|df| - 1]) + LifeYears(df[|df| - 1])
  }

  /**
   * Conservation: the schedule has one entry per whole year of life of each
   * depreciable row, and its entries add up to the cost of those rows.
   */
  lemma {:induction false} ScheduleTotals(df: seq<EnrichedLine>)
    requires Depreciable(df)
    ensures |Schedule(df)| == TotalLifeYears(df)
    ensures TotalDepreciation(Schedule(df)) == DepreciableCost(df)
  {
    if df != [] {
      var last := df[|df| - 1];
      ScheduleTotals(df[..|df| - 1]);
      TotalDepreciationAppend(Schedule(df[..|df| - 1]), Fanout(last));
      if LifeYears(last) > 0 {
        FanoutTotal(last);
      }
    }
  }

  /** Every entry of the schedule comes from some row of the table and carries that row's project code. */
  lemma {:induction false} ScheduleEntryFromRow(df: seq<EnrichedLine>, k: nat)
    requires Depreciable(df) && k < |Schedule(df)|
    ensures exists i :: 0 <= i < |df| && Schedule(df)[k].projectCode == df[i].asset.projectCode
  {
    var init := df[..|df| - 1];
    if k < |Schedule(init)| {
      ScheduleEntryFromRow(init, k);
      var i :| 0 <= i < |init| && Schedule(init)[k].projectCode == init[i].asset.projectCode;
      assert df[i] == init[i];
    } else {
      assert Schedule(df)[k] == Fanout(df[|df| - 1])[k - |Schedule(init)|];
    }
  }
}
