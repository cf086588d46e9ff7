/**
 * The per-row enrichment of `load_capex_data` (src/helpers.py): total cost,
 * the parsed year and quarter number of the three timing labels, the
 * composite quarter indices of the order and ramp quarters, and the order
 * period. Rows are never dropped or reordered; a label that does not parse
 * leaves its derived fields missing. An empty register cannot be enriched.
 */
module Enrichment {
  import opened Wrappers
  import opened QuarterParser

  /** One row of the asset register as loaded from the workbook. */
  datatype AssetLine = AssetLine(
    projectCode: string,
    programName: string,
    assetId: string,
    assetName: string,
    assetType: string,
    processArea: string,
    fabLocation: string,
    scenario: string,
    quantity: real,
    unitCost: real,
    orderQuarter: Cell,
    needQuarter: Cell,
    rampStartQuarter: Cell,
    depreciationYears: Option<real>)

  /** A register row with the columns the loader adds; `asset` holds the original columns unchanged. */
  datatype EnrichedLine = EnrichedLine(
    asset: AssetLine,
    totalCost: real,
    orderYear: Option<int>,
    orderNum: Option<int>,
    needYear: Option<int>,
    needNum: Option<int>,
    rampYear: Option<int>,
    rampNum: Option<int>,
    orderQIndex: Option<int>,
    rampQIndex: Option<int>,
    orderPeriod: Option<YearQuarter>)

  function YearOf(p: Option<YearQuarter>): Option<int>
  {
    if p.Some? then Some(p.value.year) else None
  }

  function NumOf(p: Option<YearQuarter>): Option<int>
  {
    if p.Some? then Some(p.value.quarter) else None
  }

  /** year * 4 + quarter, missing when either operand is missing (NaN propagates). */
  function QIndex(year: Option<int>, num: Option<int>): Option<int>
  {
    if year.Some? && num.Some? then Some(year.value * 4 + num.value) else None
  }

  function EnrichLine(a: AssetLine): EnrichedLine
  {
    var order := SplitQuarter(a.orderQuarter);
    var need := SplitQuarter(a.needQuarter);
    var ramp := SplitQuarter(a.rampStartQuarter);
    EnrichedLine(
      a,
      a.quantity * a.unitCost,
      YearOf(order), NumOf(order),
      YearOf(need), NumOf(need),
      YearOf(ramp), NumOf(ramp),
      QIndex(YearOf(order), NumOf(order)),
      QIndex(YearOf(ramp), NumOf(ramp)),
      // Order_Period is built only from text cells; its value is the parsed pair
      if a.orderQuarter.Text? then order else None)
  }

  /**
   * With no rows, the parsed labels are an empty column, and unpacking it
   * into years and quarters raises ValueError.
   */
  datatype LoadError = NoRowsToUnpack

  /**
   * The enriched table: one row per input row, in the same order, each
   * keeping its original columns and carrying its total cost. It fails
   * exactly when the register is empty.
   */
  function LoadCapexData(rows: seq<AssetLine>): (r: Result<seq<EnrichedLine>, LoadError>)
    ensures r.Failure? <==> rows == []
    ensures r.Success? ==> |r.value| == |rows|
    ensures r.Success? ==> forall i :: 0 <= i < |rows| ==> r.value[i].asset == rows[i]
    ensures r.Success? ==> forall i :: 0 <= i < |rows| ==> r.value[i].totalCost == rows[i].quantity * rows[i].unitCost
  {
    if rows == [] then Failure(NoRowsToUnpack)
    else Success(seq(|rows|, i requires 0 <= i < |rows| => EnrichLine(rows[i])))
  }

  /**
   * The timing columns of an enriched row agree with the parser: year and
   * quarter number are the parsed pair of their label, present together
   * exactly when it parses; the composite index is present exactly then and
   * equals year * 4 + quarter; and the order period is the parsed pair.
   */
  lemma EnrichedTiming(rows: seq<AssetLine>, i: nat)
    requires i < |rows|
    ensures LoadCapexData(rows).Success?
    ensures var r := LoadCapexData(rows).value[i];
      && r.orderYear == YearOf(SplitQuarter(rows[i].orderQuarter))
      && r.orderNum == NumOf(SplitQuarter(rows[i].orderQuarter))
      && r.needYear == YearOf(SplitQuarter(rows[i].needQuarter))
      && r.needNum == NumOf(SplitQuarter(rows[i].needQuarter))
      && r.rampYear == YearOf(SplitQuarter(rows[i].rampStartQuarter))
      && r.rampNum == NumOf(SplitQuarter(rows[i].rampStartQuarter))
      && (r.orderYear.Some? <==> SplitQuarter(rows[i].orderQuarter).Some?)
      && (r.orderNum.Some? <==> r.orderYear.Some?)
      && (r.orderQIndex.Some? <==> r.orderYear.Some?)
      && r.orderPeriod == SplitQuarter(rows[i].orderQuarter)
      && (r.orderPeriod.Some? ==>
            r.orderYear == Some(r.orderPeriod.value.year) && r.orderNum == Some(r.orderPeriod.value.quarter)
            && r.orderQIndex == Some(r.orderPeriod.value.year * 4 + r.orderPeriod.value.quarter))
      && (r.needYear.Some? <==> SplitQuarter(rows[i].needQuarter).Some?)
      && (r.needNum.Some? <==> r.needYear.Some?)
      && (r.rampYear.Some? <==> SplitQuarter(rows[i].rampStartQuarter).Some?)
      && (r.rampNum.Some? <==> r.rampYear.Some?)
      && (r.rampQIndex.Some? <==> r.rampYear.Some?)
      && (r.rampYear.Some? ==> r.rampQIndex == Some(r.rampYear.value * 4 + r.rampNum.value))
  {
  }

  /**
   * For quarter numbers 1 to 4 the composite index orders periods exactly as
   * the calendar does (and so is one-to-one); the parser does not itself
   * confine quarters to that range.
   */
  lemma {:induction false} QIndexOrdersPeriods(a: YearQuarter, b: YearQuarter)
    requires 1 <= a.quarter <= 4 && 1 <= b.quarter <= 4
    ensures PeriodLt(a, b) <==> a.year * 4 + a.quarter < b.year * 4 + b.quarter
    ensures a == b <==> a.year * 4 + a.quarter == b.year * 4 + b.quarter
  {
    if a.year < b.year {
      assert a.year * 4 + 4 <= b.year * 4;
    } else if b.year < a.year {
      assert b.year * 4 + 4 <= a.year * 4;
    }
  }

  /** Outside quarters 1 to 4 the index and the calendar disagree: "2025Q9" indexes after "2026Q1". */
  lemma QIndexOutOfRangeQuarter()
    ensures SplitQuarter(Text("2025Q9")) == Some(YearQuarter(2025, 9))
    ensures SplitQuarter(Text("2026Q1")) == Some(YearQuarter(2026, 1))
    ensures PeriodLt(YearQuarter(2025, 9), YearQuarter(2026, 1))
    ensures QIndex(Some(2025), Some(9)).value > QIndex(Some(2026), Some(1)).value
  {
    SplitQuarterOfDigits("2025Q9");
    SplitQuarterOfDigits("2026Q1");
  }
}
