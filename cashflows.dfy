/**
 * `build_project_cashflows` (src/helpers.py), up to and including the NPV
 * sum: one project's yearly capex outflow (by order year) and modelled
 * benefit inflow (depreciation times a benefit multiple, by year), merged
 * over the sorted union of their years, and discounted by ordinal position.
 */
module Cashflows {
  import opened Wrappers
  import opened Sums
  import opened Enrichment
  import opened Rollups
  import opened Depreciation

  datatype CashflowError =
    | NoSuchProject(projectCode: string)  // ValueError: no row has the project code
    | ScheduleDividesByZero               // ZeroDivisionError: a project row's life truncates to 0 years
    | NoDepreciationColumn                // KeyError: the project's depreciation table is empty, so has no columns

  /** The defaults of `build_project_cashflows`; Dafny has no default arguments, so callers pass them. */
  const DefaultDiscountRate: real := 0.10
  const DefaultBenefitMultiple: real := 1.3

  datatype ProjectCashflows = ProjectCashflows(discountRate: real, years: seq<int>, cashflows: seq<real>, npv: real)

  /* ---------- the project's rows ---------- */

  /** The positions of the table's rows that carry the project code. */
  ghost function CodeIndices(df: seq<EnrichedLine>, projectCode: string): set<nat>
  {
    set i: nat | i < |df| && df[i].asset.projectCode == projectCode
  }

  /**
   * The rows of one project, in table order: every row with the code and no
   * other, one kept row per matching position.
   */
  function ProjectRows(df: seq<EnrichedLine>, projectCode: string): (r: seq<EnrichedLine>)
    ensures forall i :: 0 <= i < |r| ==> r[i].asset.projectCode == projectCode && r[i] in df
    ensures forall i :: 0 <= i < |df| && df[i].asset.projectCode == projectCode ==> df[i] in r
    ensures |r| == |CodeIndices(df, projectCode)|
    ensures r == [] <==> forall i :: 0 <= i < |df| ==> df[i].asset.projectCode != projectCode
  {
    if df == [] then []
    else
      var init := df[..|df| - 1];
      var last := df[|df| - 1];
      var r := ProjectRows(init, projectCode) + (if last.asset.projectCode == projectCode then [last] else []);
      assert forall i :: 0 <= i < |init| ==> init[i] == df[i];
      CodeIndicesStep(df, projectCode);
      r
  }

  lemma CodeIndicesStep(df: seq<EnrichedLine>, projectCode: string)
    requires df != []
    ensures |CodeIndices(df, projectCode)| ==
      |CodeIndices(df[..|df| - 1], projectCode)| + (if df[|df| - 1].asset.projectCode == projectCode then 1 else 0)
  {
    var n := |df| - 1;
    var before := CodeIndices(df[..n], projectCode);
    var after := CodeIndices(df, projectCode);
    var added: set<nat> := if df[n].asset.projectCode == projectCode then {n} else {};
    forall i: nat
      ensures i in after <==> i in before || i in added
    {
      if i < n {
        assert df[..n][i] == df[i];
      }
    }
    assert after == before + added;
    assert n !in before;
  }

  /** Filtering two tables one after the other is filtering each, one after the other: the table order is kept. */
  lemma {:induction false} ProjectRowsAppend(a: seq<EnrichedLine>, b: seq<EnrichedLine>, projectCode: string)
    ensures ProjectRows(a + b, projectCode) == ProjectRows(a, projectCode) + ProjectRows(b, projectCode)
  {
    if b == [] {
      assert a + b == a;
    } else {
      assert (a + b)[..|a + b| - 1] == a + b[..|b| - 1];
      ProjectRowsAppend(a, b[..|b| - 1], projectCode);
    }
  }

  /* ---------- capex outflow ---------- */

  /** (order year, cost) of each row that has an order year: groupby drops rows whose year is missing. */
  function OrderYearCosts(rows: seq<EnrichedLine>): seq<(int, real)>
  {
    if rows == [] then []
    else
      var last := rows[|rows| - 1];
      OrderYearCosts(rows[..|rows| - 1]) + (if last.orderYear.Some? then [(last.orderYear.value, last.totalCost)] else [])
  }

  /** groupby("Order_Year")["Total_Cost_USD"].sum() * -1 */
  function CapexOutflow(rows: seq<EnrichedLine>): map<int, real>
  {
    var g := SumBy(OrderYearCosts(rows));
    map y | y in g :: -g[y]
  }

  predicate HasOrderYear(rows: seq<EnrichedLine>, y: int)
  {
    exists i :: 0 <= i < |rows| && rows[i].orderYear == Some(y)
  }

  /** The total cost of the rows ordered in year y. */
  function YearCost(rows: seq<EnrichedLine>, y: int): real
  {
    if rows == [] then 0.0
    else YearCost(rows[..|rows| - 1], y) + (if rows[|rows| - 1].orderYear == Some(y) then rows[|rows| - 1].totalCost else 0.0)
  }

  lemma {:induction false} OrderYearCostsOf(rows: seq<EnrichedLine>, y: int)
    ensures Occurs(OrderYearCosts(rows), y) <==> HasOrderYear(rows, y)
    ensures SumWhere(OrderYearCosts(rows), y) == YearCost(rows, y)
  {
    if rows != [] {
      var init := rows[..|rows| - 1];
      var last := rows[|rows| - 1];
      var p := OrderYearCosts(init);
      var tail: seq<(int, real)> := if last.orderYear.Some? then [(last.orderYear.value, last.totalCost)] else [];
      OrderYearCostsOf(init, y);
      OccursAppend(p, tail, y);
      SumWhereAppend(p, tail, y);
      if HasOrderYear(rows, y) {
        var i :| 0 <= i < |rows| && rows[i].orderYear == Some(y);
        if i < |init| { assert init[i] == rows[i]; }
      }
      if HasOrderYear(init, y) {
        var i :| 0 <= i < |init| && init[i].orderYear == Some(y);
        assert rows[i] == init[i];
      }
    }
  }

  lemma OccursAppend(a: seq<(int, real)>, b: seq<(int, real)>, y: int)
    ensures Occurs(a + b, y) <==> Occurs(a, y) || Occurs(b, y)
  {
    if Occurs(a + b, y) {
      var i :| 0 <= i < |a + b| && (a + b)[i].0 == y;
      if i >= |a| { assert b[i - |a|] == (a + b)[i]; }
    }
    if Occurs(a, y) {
      var i :| 0 <= i < |a| && a[i].0 == y;
      assert (a + b)[i] == a[i];
    }
    if Occurs(b, y) {
      var i :| 0 <= i < |b| && b[i].0 == y;
      assert (a + b)[|a| + i] == b[i];
    }
  }

  lemma {:induction false} SumWhereAppend(a: seq<(int, real)>, b: seq<(int, real)>, y: int)
    ensures SumWhere(a + b, y) == SumWhere(a, y) + SumWhere(b, y)
  {
    if b == [] {
      assert a + b == a;
    } else {
      assert (a + b)[..|a + b| - 1] == a + b[..|b| - 1];
      SumWhereAppend(a, b[..|b| - 1], y);
    }
  }

  /**
   * The outflow has a year exactly when some row was ordered in it, and its
   * value for any year (0 where absent, as `.get(y, 0)` reads it) is minus
   * the cost ordered in that year.
   */
  lemma CapexOutflowCorrect(rows: seq<EnrichedLine>, y: int)
    ensures y in CapexOutflow(rows) <==> HasOrderYear(rows, y)
    ensures Get(CapexOutflow(rows), y) == -YearCost(rows, y)
  {
    SumByIsGroupedSum(OrderYearCosts(rows), y);
    OrderYearCostsOf(rows, y);
  }

  /* ---------- benefit inflow ---------- */

  /** (year, depreciation * multiple) of each schedule entry: the Annual_Benefit_USD column. */
  function BenefitPairs(dep: seq<DepreciationEntry>, benefitMultiple: real): seq<(int, real)>
  {
    if dep == [] then []
    else BenefitPairs(dep[..|dep| - 1], benefitMultiple) + [BenefitPair(dep[|dep| - 1], benefitMultiple)]
  }

  function BenefitPair(e: DepreciationEntry, benefitMultiple: real): (int, real)
  {
    (e.year, e.annualDepreciation * benefitMultiple)
  }

  /** dep.groupby("Year")["Annual_Benefit_USD"].sum() */
  function Benefit(dep: seq<DepreciationEntry>, benefitMultiple: real): map<int, real>
  {
    SumBy(BenefitPairs(dep, benefitMultiple))
  }

  predicate HasDepreciationYear(dep: seq<DepreciationEntry>, y: int)
  {
    exists i :: 0 <= i < |dep| && dep[i].year == y
  }

  /** The depreciation charged in year y over all entries. */
  function YearDepreciation(dep: seq<DepreciationEntry>, y: int): real
  {
    if dep == [] then 0.0
    else YearDepreciation(dep[..|dep| - 1], y) + (if dep[|dep| - 1].year == y then dep[|dep| - 1].annualDepreciation else 0.0)
  }

  lemma {:induction false} BenefitPairsYears(dep: seq<DepreciationEntry>, benefitMultiple: real, y: int)
    ensures Occurs(BenefitPairs(dep, benefitMultiple), y) <==> HasDepreciationYear(dep, y)
  {
    if dep != [] {
      var init := dep[..|dep| - 1];
      var last := dep[|dep| - 1];
      var tail := [BenefitPair(last, benefitMultiple)];
      assert BenefitPairs(dep, benefitMultiple) == BenefitPairs(init, benefitMultiple) + tail;
      BenefitPairsYears(init, benefitMultiple, y);
      OccursAppend(BenefitPairs(init, benefitMultiple), tail, y);
      assert Occurs(tail, y) <==> last.year == y by {
        assert tail[0].0 == last.year;
      }
      if HasDepreciationYear(dep, y) {
        var i :| 0 <= i < |dep| && dep[i].year == y;
        if i < |init| { assert init[i] == dep[i]; }
      }
      if HasDepreciationYear(init, y) {
        var i :| 0 <= i < |init| && init[i].year == y;
        assert dep[i] == init[i];
      }
    }
  }

  lemma BenefitPairsStep(dep: seq<DepreciationEntry>, benefitMultiple: real, y: int)
    requires dep != []
    ensures SumWhere(BenefitPairs(dep, benefitMultiple), y) ==
      SumWhere(BenefitPairs(dep[..|dep| - 1], benefitMultiple), y)
      + (if dep[|dep| - 1].year == y then dep[|dep| - 1].annualDepreciation else 0.0) * benefitMultiple
  {
    var tail := [BenefitPair(dep[|dep| - 1], benefitMultiple)];
    assert BenefitPairs(dep, benefitMultiple) == BenefitPairs(dep[..|dep| - 1], benefitMultiple) + tail;
    SumWhereAppend(BenefitPairs(dep[..|dep| - 1], benefitMultiple), tail, y);
    assert tail[..0] == [];
  }

  lemma {:induction false} BenefitPairsTotal(dep: seq<DepreciationEntry>, benefitMultiple: real, y: int)
    ensures SumWhere(BenefitPairs(dep, benefitMultiple), y) == benefitMultiple * YearDepreciation(dep, y)
    decreases |dep|
  {
    if dep != [] {
      BenefitPairsTotal(dep[..|dep| - 1], benefitMultiple, y);
      BenefitPairsInduct(dep, benefitMultiple, y);
    }
  }

  lemma BenefitPairsInduct(dep: seq<DepreciationEntry>, m: real, y: int)
    requires dep != []
    requires SumWhere(BenefitPairs(dep[..|dep| - 1], m), y) == m * YearDepreciation(dep[..|dep| - 1], y)
    ensures SumWhere(BenefitPairs(dep, m), y) == m * YearDepreciation(dep, y)
  {
    var here := if dep[|dep| - 1].year == y then dep[|dep| - 1].annualDepreciation else 0.0;
    var before := YearDepreciation(dep[..|dep| - 1], y);
    assert YearDepreciation(dep, y) == before + here;
    BenefitPairsStep(dep, m, y);
    Distribute(m, before, here, YearDepreciation(dep, y));
  }

  lemma Distribute(m: real, a: real, b: real, c: real)
    requires c == a + b
    ensures m * a + b * m == m * c
  {
  }

  /**
   * The benefit has a year exactly when some entry depreciates in it, and
   * its value for any year (0 where absent) is the multiple times the
   * depreciation of that year.
   */
  lemma BenefitCorrect(dep: seq<DepreciationEntry>, benefitMultiple: real, y: int)
    ensures y in Benefit(dep, benefitMultiple) <==> HasDepreciationYear(dep, y)
    ensures Get(Benefit(dep, benefitMultiple), y) == benefitMultiple * YearDepreciation(dep, y)
  {
    SumByIsGroupedSum(BenefitPairs(dep, benefitMultiple), y);
    BenefitPairsYears(dep, benefitMultiple, y);
    BenefitPairsTotal(dep, benefitMultiple, y);
  }

  /** Entries for consecutive years from `start`, each of the same share, charge each of those years exactly one share. */
  lemma {:induction false} ConsecutiveYearCharge(dep: seq<DepreciationEntry>, start: int, share: real, y: int)
    requires forall i :: 0 <= i < |dep| ==> dep[i].year == start + i && dep[i].annualDepreciation == share
    ensures YearDepreciation(dep, y) == if start <= y < start + |dep| then share else 0.0
  {
    if dep != [] {
      ConsecutiveYearCharge(dep[..|dep| - 1], start, share, y);
    }
  }

  /** One depreciable asset charges each year of its life, from the ramp year on, an equal share of its cost, and no other year. */
  lemma FanoutYearCharge(row: EnrichedLine, y: int)
    requires LifeYears(row) > 0
    ensures YearDepreciation(Fanout(row), y) ==
      if row.rampYear.value <= y < row.rampYear.value + LifeYears(row) then row.totalCost / LifeYears(row) as real else 0.0
  {
    var f := Fanout(row);
    var n := LifeYears(row) as real;
    forall i | 0 <= i < |f| ensures f[i].annualDepreciation == row.totalCost / n {
      ShareOfTotal(f[i].annualDepreciation, n, row.totalCost);
    }
    ConsecutiveYearCharge(f, row.rampYear.value, row.totalCost / n, y);
  }

  lemma ShareOfTotal(share: real, n: real, total: real)
    requires n > 0.0 && share * n == total
    ensures share == total / n
  {
  }

  /** One asset costing 1,000,000 with a four-year life from 2026 is charged 250,000 in each of 2026 to 2029 and nothing otherwise. */
  lemma SingleAssetSchedule(row: EnrichedLine, y: int)
    requires row.totalCost == 1000000.0 && row.asset.depreciationYears == Some(4.0) && row.rampYear == Some(2026)
    ensures Depreciable([row]) && Schedule([row]) == Fanout(row)
    ensures HasDepreciationYear(Fanout(row), y) <==> 2026 <= y <= 2029
    ensures YearDepreciation(Fanout(row), y) == if 2026 <= y <= 2029 then 250000.0 else 0.0
  {
    assert LifeYears(row) == 4;
    ScheduleOfOne(row);
    if 2026 <= y <= 2029 {
      assert Fanout(row)[y - 2026].year == y;
    }
    FanoutYearCharge(row, y);
  }

  /**
   * With the default benefit multiple of 1.3, that asset's project gains
   * 325,000 in each of 2026 to 2029 and in no other year.
   */
  lemma SingleAssetBenefit(row: EnrichedLine, y: int)
    requires row.totalCost == 1000000.0 && row.asset.depreciationYears == Some(4.0) && row.rampYear == Some(2026)
    ensures y in Benefit(Schedule([row]), DefaultBenefitMultiple) <==> 2026 <= y <= 2029
    ensures 2026 <= y <= 2029 ==> Get(Benefit(Schedule([row]), DefaultBenefitMultiple), y) == 325000.0
  {
    SingleAssetSchedule(row, y);
    BenefitCorrect(Fanout(row), DefaultBenefitMultiple, y);
  }

  /* ---------- sorted(set(...)) of the years ---------- */

  predicate Increasing(xs: seq<int>)
  {
    forall i, j :: 0 <= i < j < |xs| ==> xs[i] < xs[j]
  }

  function InsertYear(xs: seq<int>, y: int): (r: seq<int>)
    requires Increasing(xs)
    ensures Increasing(r)
    ensures forall z :: z in r <==> z in xs || z == y
  {
    if xs == [] then [y]
    else if xs[0] == y then xs
    else if y < xs[0] then [y] + xs
    else
      var rest := InsertYear(xs[1..], y);
      assert forall z :: z in xs <==> z == xs[0] || z in xs[1..];
      assert forall j :: 0 <= j < |rest| ==> xs[0] < rest[j] by {
        forall j | 0 <= j < |rest| ensures xs[0] < rest[j] {
          assert rest[j] in rest;
        }
      }
      [xs[0]] + rest
  }

  /** sorted(set(ys)): the distinct values of ys in ascending order. */
  function SortedDistinct(ys: seq<int>): (r: seq<int>)
    ensures Increasing(r)
    ensures forall z :: z in r <==> z in ys
  {
    if ys == [] then []
    else
      var r := InsertYear(SortedDistinct(ys[..|ys| - 1]), ys[|ys| - 1]);
      assert forall z :: z in ys <==> z in ys[..|ys| - 1] || z == ys[|ys| - 1] by {
        assert ys == ys[..|ys| - 1] + [ys[|ys| - 1]];
      }
      r
  }

  function YearsOf(pairs: seq<(int, real)>): (r: seq<int>)
    ensures forall y :: y in r <==> Occurs(pairs, y)
  {
    var r := seq(|pairs|, i requires 0 <= i < |pairs| => pairs[i].0);
    assert forall y :: Occurs(pairs, y) ==> y in r by {
      forall y | Occurs(pairs, y) ensures y in r {
        var i :| 0 <= i < |pairs| && pairs[i].0 == y;
        assert r[i] == y;
      }
    }
    r
  }

  /* ---------- NPV ---------- */

  /** sum(cf / (1 + rate) ** i for i, cf in enumerate(cashflows)), added left to right. */
  function Npv(cashflows: seq<real>, rate: real): real
    requires 1.0 + rate != 0.0
  {
    if cashflows == [] then 0.0
    else
      var i := |cashflows| - 1;
      PowNonZero(1.0 + rate, i);
      Npv(cashflows[..i], rate) + cashflows[i] / Pow(1.0 + rate, i)
  }

  /** At a zero rate nothing is discounted: the NPV is the plain sum of the cashflows. */
  lemma {:induction false} NpvAtZeroRate(cashflows: seq<real>)
    ensures Npv(cashflows, 0.0) == Sum(cashflows)
  {
    if cashflows != [] {
      NpvAtZeroRate(cashflows[..|cashflows| - 1]);
      PowOfOne(|cashflows| - 1);
    }
  }

  /**
   * Discounting is by ordinal position: the first cashflow is not
   * discounted and the rest are discounted one period further than they
   * would be on their own, whatever calendar years they stand for.
   */
  lemma {:induction false} NpvByPosition(cashflows: seq<real>, rate: real)
    requires 1.0 + rate != 0.0
    requires cashflows != []
    ensures Npv(cashflows, rate) == cashflows[0] + Npv(cashflows[1..], rate) / (1.0 + rate)
    decreases |cashflows|
  {
    if |cashflows| == 1 {
      assert cashflows[..0] == [] && cashflows[1..] == [];
      assert Npv(cashflows, rate) == cashflows[0] / Pow(1.0 + rate, 0);
      assert 0.0 / (1.0 + rate) == 0.0;
    } else {
      NpvByPosition(cashflows[..|cashflows| - 1], rate);
      NpvByPositionStep(cashflows, rate);
    }
  }

  lemma NpvByPositionStep(cashflows: seq<real>, rate: real)
    requires 1.0 + rate != 0.0
    requires |cashflows| >= 2
    requires var init := cashflows[..|cashflows| - 1];
      Npv(init, rate) == init[0] + Npv(init[1..], rate) / (1.0 + rate)
    ensures Npv(cashflows, rate) == cashflows[0] + Npv(cashflows[1..], rate) / (1.0 + rate)
  {
    var n := |cashflows|;
    var q := 1.0 + rate;
    var init := cashflows[..n - 1];
    var c := cashflows[n - 1];
    assert init[1..] == cashflows[1..][..n - 2];
    PowNonZero(q, n - 2);
    var p := Pow(q, n - 2);
    assert Pow(q, n - 1) == q * p;
    assert Npv(cashflows[1..], rate) == Npv(init[1..], rate) + c / p;
    assert Npv(cashflows, rate) == Npv(init, rate) + c / (q * p);
    DivideSum(Npv(init[1..], rate), c / p, q);
    DivideTwice(c, p, q);
  }

  lemma DivideSum(x: real, y: real, q: real)
    requires q != 0.0
    ensures (x + y) / q == x / q + y / q
  {
  }

  lemma DivideTwice(c: real, p: real, q: real)
    requires p != 0.0 && q != 0.0
    ensures (c / p) / q == c / (q * p)
  {
  }

  /* ---------- build_project_cashflows ---------- */

  /** The years of the merged table are the order years and the depreciation years. */
  lemma MergedYears(proj: seq<EnrichedLine>, dep: seq<DepreciationEntry>, benefitMultiple: real, y: int)
    ensures y in YearsOf(OrderYearCosts(proj)) + YearsOf(BenefitPairs(dep, benefitMultiple)) <==>
      HasOrderYear(proj, y) || HasDepreciationYear(dep, y)
  {
    OrderYearCostsOf(proj, y);
    BenefitPairsYears(dep, benefitMultiple, y);
  }

  /** The net cashflow of year y: minus the capex ordered in it plus the multiple times its depreciation. */
  function NetCashflow(proj: seq<EnrichedLine>, dep: seq<DepreciationEntry>, benefitMultiple: real, y: int): real
  {
    -YearCost(proj, y) + benefitMultiple * YearDepreciation(dep, y)
  }

  /** A year's cashflow as the source reads it, outflow.get(y, 0) + benefit.get(y, 0), is the net cashflow of that year. */
  lemma YearlyCashflow(proj: seq<EnrichedLine>, dep: seq<DepreciationEntry>, benefitMultiple: real, y: int)
    ensures Get(CapexOutflow(proj), y) + Get(Benefit(dep, benefitMultiple), y) == NetCashflow(proj, dep, benefitMultiple, y)
  {
    CapexOutflowCorrect(proj, y);
    BenefitCorrect(dep, benefitMultiple, y);
  }

  /**
   * The successful result for a project's rows and their schedule: the years
   * are the distinct order years and depreciation years in ascending order,
   * the cashflow of each year is minus the cost ordered in it plus the
   * multiple times its depreciation, and the NPV discounts the k-th cashflow
   * by (1 + rate)^k.
   */
  ghost predicate MergedCashflows(pc: ProjectCashflows, proj: seq<EnrichedLine>, dep: seq<DepreciationEntry>,
                                  discountRate: real, benefitMultiple: real)
    requires 1.0 + discountRate != 0.0
  {
    && pc.discountRate == discountRate
    && Increasing(pc.years)
    && (forall y :: y in pc.years <==> HasOrderYear(proj, y) || HasDepreciationYear(dep, y))
    && |pc.cashflows| == |pc.years|
    && (forall k :: 0 <= k < |pc.years| ==> pc.cashflows[k] == NetCashflow(proj, dep, benefitMultiple, pc.years[k]))
    && pc.npv == Npv(pc.cashflows, discountRate)
  }

  /** The merge of `build_project_cashflows`: one cashflow per year of the sorted union, then the NPV. */
  method MergeCashflows(proj: seq<EnrichedLine>, dep: seq<DepreciationEntry>, discountRate: real, benefitMultiple: real)
    returns (pc: ProjectCashflows)
    requires 1.0 + discountRate != 0.0
    ensures MergedCashflows(pc, proj, dep, discountRate, benefitMultiple)
  {
    var outflow := CapexOutflow(proj);
    var benefit := Benefit(dep, benefitMultiple);
    var years := SortedDistinct(YearsOf(OrderYearCosts(proj)) + YearsOf(BenefitPairs(dep, benefitMultiple)));
    forall y ensures y in years <==> HasOrderYear(proj, y) || HasDepreciationYear(dep, y) {
      MergedYears(proj, dep, benefitMultiple, y);
    }
    var cashflows := [];
    for k := 0 to |years|
      invariant |cashflows| == k
      invariant forall j :: 0 <= j < k ==> cashflows[j] == Get(outflow, years[j]) + Get(benefit, years[j])
    {
      var cf := Get(outflow, years[k]) + Get(benefit, years[k]);
      cashflows := cashflows + [cf];
    }
    forall k | 0 <= k < |years|
      ensures cashflows[k] == NetCashflow(proj, dep, benefitMultiple, years[k])
    {
      YearlyCashflow(proj, dep, benefitMultiple, years[k]);
    }
    var npv := Npv(cashflows, discountRate);
    pc := ProjectCashflows(discountRate, years, cashflows, npv);
  }

  /**
   * Fails with NoSuchProject when no row has the project code, with
   * ScheduleDividesByZero when a project row's life truncates to 0 years,
   * and with NoDepreciationColumn when the project's rows yield no
   * depreciation entry; otherwise merges the project's cashflows.
   */
  method BuildProjectCashflows(df: seq<EnrichedLine>, projectCode: string, discountRate: real, benefitMultiple: real)
    returns (r: Result<ProjectCashflows, CashflowError>)
    requires 1.0 + discountRate != 0.0
    ensures r == Failure(NoSuchProject(projectCode)) <==> forall i :: 0 <= i < |df| ==> df[i].asset.projectCode != projectCode
    ensures r == Failure(ScheduleDividesByZero) <==>
      ProjectRows(df, projectCode) != [] && !Depreciable(ProjectRows(df, projectCode))
    ensures r == Failure(NoDepreciationColumn) <==>
      ProjectRows(df, projectCode) != [] && Depreciable(ProjectRows(df, projectCode)) && Schedule(ProjectRows(df, projectCode)) == []
    ensures r.Success? <==>
      ProjectRows(df, projectCode) != [] && Depreciable(ProjectRows(df, projectCode)) && Schedule(ProjectRows(df, projectCode)) != []
    ensures r.Success? ==>
      MergedCashflows(r.value, ProjectRows(df, projectCode), Schedule(ProjectRows(df, projectCode)), discountRate, benefitMultiple)
  {
    var proj := ProjectRows(df, projectCode);
    if proj == [] {
      return Failure(NoSuchProject(projectCode));
    }
    var schedule := BuildDepreciationSchedule(proj);
    if schedule.Failure? {
      return Failure(ScheduleDividesByZero);
    }
    var dep := schedule.value;
    if dep == [] {
      return Failure(NoDepreciationColumn);
    }
    var pc := MergeCashflows(proj, dep, discountRate, benefitMultiple);
    return Success(pc);
  }
}
