# CapEx forecasting engine — a verified model

This project models the calculation core of a capital-expenditure forecasting
engine for semiconductor fab tooling. An asset register (one row per tool or
asset: project, program, scenario, quantity, unit cost, order / need / ramp-start
quarters, depreciation life) is enriched with totals and parsed timing columns,
rolled up by scenario and by (scenario, order quarter), fanned out into a
straight-line depreciation schedule, and turned into per-project yearly
cashflows and their net present value. A second, portfolio-level part adjusts a
series of additions for inflation, depreciates it over a trailing useful-life
window and rolls the net book value forward.

Amounts are exact `real`s, missing cells are `Option`s, and the conditions under
which the engine raises become `Result` failures.

Modules, in dependency order:

- `Wrappers` (`wrappers.dfy`): `Option` and `Result`.
- `Sums` (`sums.dfy`): left-to-right sums of amounts and integer powers, with the
  algebra the rest needs.
- `QuarterParser` (`quarter_parser.dfy`): `_split_quarter`, including Python's
  `int()` on the slices it takes (surrounding whitespace, one sign, digits with
  single underscores between them).
- `Enrichment` (`enrichment.dfy`): the per-row columns that `load_capex_data`
  adds.
- `Rollups` (`rollups.dfy`): `compute_summaries` and `build_quarterly_capex`, over
  a generic grouped sum with its reference definition.
- `Depreciation` (`depreciation.dfy`): `build_depreciation_schedule`.
  - The source's nested loop is a method.
  - That method is proved equal to a specification function.
  - The conservation laws are proved about that function.
- `Cashflows` (`cashflows.dfy`): `build_project_cashflows`, through the NPV sum.
  - The source's loop over the merged years is a method.
  - Its contract relates each year's cashflow to the project's orders and
    depreciation.
- `CapexUtils` (`capex_utils.dfy`): `inflation_adjust`, `depreciation_schedule`
  and `nbv_schedule`.
  - `depreciation_schedule` fills a fresh array in a loop.
  - `nbv_schedule` carries the opening value across its loop.
  - Both are proved against specification functions.
  - The proof shows that the book value rolled forward from the schedule is
    never negative.

`nbv_schedule` zips its two inputs, so its loop stops at the shorter one. But
the table it then builds has columns of unequal length when the inputs differ,
and pandas rejects that table. So the model fails with `LengthMismatch` in that
case; it does not return a table as long as the shorter input.

Three more conditions make the engine raise, and the model fails on each:
- an empty register: `load_capex_data` cannot unpack the parsed labels of no
  rows into years and quarters;
- a Depreciation_Years strictly between 0 and 1: it passes the skip test, `int()`
  truncates it to 0, and the cost is divided by 0;
- a project code that no row carries, or a project with no depreciation entry,
  in `build_project_cashflows`.

## Model

| member | source | states |
|---|---|---|
| QuarterParser.SplitQuarter | src/helpers.py:21-28 | A cell parses exactly when it is non-empty text, `int()` of its first four characters succeeds, and its last character is a digit. Then the year is `int()` of the first four characters, between -999 and 9999, and the quarter is the last digit, 0 to 9. Every other cell gives a missing value, never an error. |
| QuarterParser.ParseIntOneChar | src/helpers.py:26 | `int()` of a single character succeeds exactly when it is a digit, and gives that digit. |
| QuarterParser.ParseIntBounds | src/helpers.py:26 | `int()` of at most four characters lies between -999 and 9999. |
| QuarterParser.SplitQuarterOfDigits | src/helpers.py:26 | For a label whose first four characters and last character are digits, the year is the four-digit number and the quarter is the last digit. The character in between is not checked. |
| QuarterParser.SplitQuarterRejectsBadStart | src/helpers.py:23-28 | A label that starts with neither a digit, a sign nor whitespace gives a missing value. |
| QuarterParser.SplitQuarterExamples | src/helpers.py:21-26 | "2025Q1" parses to (2025, 1) and "2025Q4" to (2025, 4). |
| QuarterParser.SplitQuarterRejections | src/helpers.py:23-28 | "Q1-2025", the empty label and a non-text cell each give a missing value. |
| Enrichment.LoadCapexData | src/helpers.py:35-56 | Fails exactly when the register is empty, where unpacking the parsed labels raises. Otherwise there is one enriched row per input row, in the same order. Each keeps its input columns, and its total cost is quantity times unit cost. |
| Enrichment.EnrichedTiming | src/helpers.py:42-54 | The year and quarter number of the order, need and ramp-start labels are the parsed pair of that label, present together exactly when it parses. The quarter index is present exactly then and equals year × 4 + quarter. The order period is the parsed order label. |
| Enrichment.QIndexOrdersPeriods | src/helpers.py:47-49 | For quarters 1 to 4, the quarter index orders periods exactly as the calendar does, in both directions, and two periods are equal exactly when their indices are. |
| Enrichment.QIndexOutOfRangeQuarter | src/helpers.py:47-49 | Outside quarters 1 to 4 the index and the calendar disagree: "2025Q9" parses and indexes after "2026Q1". |
| Rollups.SumByIsGroupedSum | src/helpers.py:65 | A grouped sum has a key exactly for each group that occurs. Its value there is the total of that group's amounts, compared against an independent filter-and-sum definition. |
| Rollups.ComputeSummaries | src/helpers.py:63-66 | Capex by scenario has a key exactly for each scenario in the table, holding the total cost of that scenario's rows. |
| Rollups.QuarterlyCapexCorrect | src/helpers.py:73-85 | The quarterly table is strictly sorted by (order period, scenario), so each key appears once. It has a row for (s, p) exactly when some input row has scenario s and order period p, and the total under each key is that group's cost. The table's grand total is the cost of all rows with an order period; rows without one drop out. |
| Rollups.QuarterlyCapexRowTotals | src/helpers.py:80-85 | Every row of the quarterly table holds the total cost of its own (scenario, period) group. |
| Depreciation.Fanout | src/helpers.py:100-115 | For a row that does not divide by zero: as many entries as its whole years of life, so none if it is skipped. Entry i is for the ramp year plus i. The entries carry the row's identifiers and an equal share, and share × count equals the total cost. |
| Depreciation.BuildDepreciationSchedule | src/helpers.py:92-117 | Fails with ZeroDivision exactly when some row passes the skip test with a life that truncates to 0 years. Otherwise the nested loop appends exactly the specification schedule: each row's entries in input order, years ascending. |
| Depreciation.AppendFanout | src/helpers.py:107-115 | The inner loop appends exactly the row's specification entries to the records built so far. |
| Depreciation.HalfYearLifeDividesByZero | src/helpers.py:100-105 | A row with a life of 0.5 years and a ramp year is not skipped, truncates to 0 years, and leaves any table holding it without a schedule. |
| Depreciation.ScheduleAppend | src/helpers.py:95-116 | Two tables with schedules, concatenated, have a schedule, and it is the concatenation of their schedules, so rows contribute independently and in order. |
| Depreciation.FanoutTotal | src/helpers.py:103-115 | The entries of an asset with at least one whole year of life add up to exactly its total cost. |
| Depreciation.ScheduleTotals | src/helpers.py:92-117 | For a table with no row that divides by zero, the schedule has one entry per whole year of life over all rows. Its entries add up to the cost of the depreciable rows. |
| Depreciation.ScheduleEntryFromRow | src/helpers.py:109-112 | For a table with a schedule, every schedule entry carries the project code of some input row. |
| Cashflows.ProjectRows | src/helpers.py:125 | The project's rows all carry the project code and come from the table. Every row of the table with the code is kept, one kept row per matching position. They are empty exactly when no row has the code. |
| Cashflows.ProjectRowsAppend | src/helpers.py:125 | Filtering two tables one after the other gives the two filtered tables one after the other, so the table order is kept. |
| Cashflows.CapexOutflowCorrect | src/helpers.py:130-131 | The outflow has a year exactly when some project row was ordered in it. Its value (0 when absent) is minus the cost ordered that year. |
| Cashflows.BenefitCorrect | src/helpers.py:133-135 | The benefit has a year exactly when some schedule entry falls in it. Its value (0 when absent) is the multiple times that year's depreciation. |
| Cashflows.FanoutYearCharge | src/helpers.py:103-115 | One depreciable asset charges its cost ÷ life to each year from the ramp year through the end of its life, and 0 to every other year. |
| Cashflows.SingleAssetSchedule | src/helpers.py:103-115 | An asset of 1,000,000 with a four-year life from 2026 is charged 250,000 in each of 2026 to 2029 and nothing in any other year. |
| Cashflows.SingleAssetBenefit | src/helpers.py:124-135 | With the default benefit multiple of 1.3, that asset brings 325,000 in each of 2026 to 2029, and its benefit has no other year. |
| Cashflows.SortedDistinct | src/helpers.py:137 | `sorted(set(...))`: the result is strictly increasing and holds exactly the values of its input. |
| Cashflows.YearlyCashflow | src/helpers.py:141 | `outflow.get(y, 0) + benefit.get(y, 0)` is minus the cost ordered in y plus the multiple times y's depreciation. |
| Cashflows.NpvAtZeroRate | src/helpers.py:144 | At a zero rate the NPV is the plain sum of the cashflows. |
| Cashflows.NpvByPosition | src/helpers.py:144 | Discounting is by ordinal position, not calendar year: the first cashflow is undiscounted, and the rest are discounted one period more than on their own. |
| Cashflows.MergeCashflows | src/helpers.py:137-144 | The years are strictly increasing and are exactly the order years and the depreciation years. There is one cashflow per year, equal to minus the cost ordered that year plus the multiple times its depreciation. The NPV discounts the k-th cashflow by (1 + rate)^k. |
| Cashflows.BuildProjectCashflows | src/helpers.py:124-144 | The result is NoSuchProject exactly when no row has the code. It is ScheduleDividesByZero exactly when some project row's life truncates to 0 years. It is NoDepreciationColumn exactly when the project's rows yield no depreciation entry. Otherwise: the years are strictly increasing and are exactly the order years and the depreciation years. There is one cashflow per year, equal to minus the cost ordered that year plus the multiple times its depreciation. The NPV discounts the k-th cashflow by (1 + rate)^k. |
| CapexUtils.InflationAdjust | data/src/src/capex_utils.py:4-7 | The adjusted series has the length of its input. |
| CapexUtils.InflationAdjustAtZeroRate | data/src/src/capex_utils.py:4-7 | At a zero rate every amount is unchanged. |
| CapexUtils.InflationAdjustCompose | data/src/src/capex_utils.py:4-7 | Adjusting at r1 and then at r2 is one adjustment at the compounded rate (1 + r1)(1 + r2) − 1. |
| CapexUtils.InflationAdjustRoundTrip | data/src/src/capex_utils.py:4-7 | When 1 + rate ≠ 0, deflating at the reciprocal factor gives back the original series. |
| CapexUtils.InflationAdjustGrows | data/src/src/capex_utils.py:4-7 | At a non-negative rate no non-negative amount shrinks. |
| CapexUtils.Depreciation | data/src/src/capex_utils.py:9-16 | The depreciation curve has one charge per period of the additions. |
| CapexUtils.DepreciationSchedule | data/src/src/capex_utils.py:9-16 | The loop fills a fresh array with exactly the specification curve. Each charge is the additions of the last L periods up to t, divided by L. |
| CapexUtils.NegativeLifeChargesNothing | data/src/src/capex_utils.py:12-15 | With a negative useful life every window slice is empty, so every charge is 0. |
| CapexUtils.DepreciationExample | data/src/src/capex_utils.py:12-15 | [100, 100, 100] with a two-period life gives [50, 100, 100]. |
| CapexUtils.DepreciationWithinLife | data/src/src/capex_utils.py:13-15 | When the life is at least the series length, the charge of period t is the running total up to t, divided by L. |
| CapexUtils.DepreciationBounds | data/src/src/capex_utils.py:13-15 | With non-negative additions, each charge lies between 0 and the total of all additions ÷ L, so it is at most that total. |
| CapexUtils.ChargedSoFar | data/src/src/capex_utils.py:12-15 | The depreciation charged over the first n periods is the average of the running totals of additions at periods n, n − 1, …, n − L + 1. Running totals before the first period count as 0. |
| CapexUtils.ChargedAtMostAdded | data/src/src/capex_utils.py:12-15 | With non-negative additions, the depreciation charged over the first n periods never exceeds the additions of those periods. Each addition is charged at most L times, at 1/L of its value each time. |
| CapexUtils.NbvFirstPeriod | data/src/src/capex_utils.py:20-22 | The first closing value starts from an opening value of 0. |
| CapexUtils.NbvRollForward | data/src/src/capex_utils.py:21-24 | Each closing value is the previous one plus the period's addition minus its depreciation. |
| CapexUtils.NbvSchedule | data/src/src/capex_utils.py:18-29 | The table fails exactly when the two columns differ in length. Otherwise it keeps both columns, and the book value of period t is the additions so far minus the depreciation so far. |
| CapexUtils.NbvNeverNegative | data/src/src/capex_utils.py:9-24 | Book value rolled forward from `depreciation_schedule` over the same non-negative additions, with L > 0, is never negative. |

## Left out

- Reading the workbook (`pd.read_excel`): the model starts from the sequence of register rows.
- Enrichment.EnrichLine: the model does not build a `pd.Period`.
  - The order period is the pair parsed from the order label.
  - A text label that `pd.Period` cannot parse makes the source raise; here its period is missing.
  - A label such as "2025Q9" makes the source raise; here it gives (2025, 9).
- Enrichment.LoadCapexData: the source adds columns to the data frame in place, one column at a time. The model returns the enriched rows as a new sequence. The in-place update and the data frame's aliasing are not modelled.
- QuarterParser.ParseInt: Python's `int()` is modelled for ASCII text only.
  - Unicode digits and Unicode whitespace are not modelled.
  - Surrounding whitespace is limited to space, tab to carriage return, and \x1c to \x1f.
- Floating point and NaN: amounts are exact reals and missing cells are `Option`s.
  - Rounding, infinities and NaN propagation are not modelled.
  - A missing Scenario, Quantity or Unit_Cost_USD is not modelled.
- Cashflows.BuildProjectCashflows: requires 1 + discount rate ≠ 0. The source divides by zero there and gets an infinite or NaN NPV without raising.
- Cashflows.BuildProjectCashflows: the default arguments `discount_rate=0.10` and `benefit_multiple=1.3` are not defaults here, because Dafny has no default arguments. They are the constants `DefaultDiscountRate` and `DefaultBenefitMultiple`, and a caller passes them.
- Cashflows.Npv: requires 1 + rate ≠ 0, for the same reason.
- CapexUtils.DepreciationSchedule: requires a non-zero useful life. With a life of zero every slice is empty and the source divides 0 by 0 in floating point, which gives NaN. A negative life is modelled: its slices are empty too, and every charge is 0.
- CapexUtils.Depreciation: requires a non-zero useful life, for the same reason.
- The IRR and everything after the NPV sum of `build_project_cashflows`: the source file ends at the NPV line. Root-finding is floating-point numerics.
- `build_quarterly_depreciation` and `build_annual_dep_by_program`: the dashboard imports them, but src/helpers.py does not define them, so they are not part of this model.
- The Streamlit dashboard (`app.py`), its caching, charts and error display: presentation only.
- Exporting tables to CSV: no code for it appears in the source.
