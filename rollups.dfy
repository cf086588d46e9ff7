/**
 * Rollups of the enriched table (src/helpers.py): `compute_summaries`, the
 * capex total per scenario, and `build_quarterly_capex`, the capex total per
 * (scenario, order period), sorted by period and then scenario, leaving out
 * rows without an order period as pandas' groupby does.
 */
module Rollups {
  import opened Wrappers
  import opened QuarterParser
  import opened Enrichment

  /* ---------- grouped sums as a map (groupby(...).sum()) ---------- */

  /** Some pair carries key k. */
  predicate Occurs<K(==)>(pairs: seq<(K, real)>, k: K)
  {
    exists i :: 0 <= i < |pairs| && pairs[i].0 == k
  }

  /** The total of the amounts paired with key k: the reference a grouped sum must agree with. */
  function SumWhere<K(==)>(pairs: seq<(K, real)>, k: K): real
  {
    if pairs == [] then 0.0
    else SumWhere(pairs[..|pairs| - 1], k) + (if pairs[|pairs| - 1].0 == k then pairs[|pairs| - 1].1 else 0.0)
  }

  function Get<K(==)>(m: map<K, real>, k: K): real
  {
    if k in m then m[k] else 0.0
  }

  /** Key by key sums of amounts, accumulated row by row. */
  function SumBy<K(==)>(pairs: seq<(K, real)>): map<K, real>
  {
    if pairs == [] then map[]
    else
      var m := SumBy(pairs[..|pairs| - 1]);
      var (k, a) := pairs[|pairs| - 1];
      m[k := Get(m, k) + a]
  }

  lemma OccursInPrefix<K>(pairs: seq<(K, real)>, k: K)
    requires pairs != []
    ensures Occurs(pairs, k) <==> Occurs(pairs[..|pairs| - 1], k) || pairs[|pairs| - 1].0 == k
  {
    var init := pairs[..|pairs| - 1];
    if Occurs(init, k) {
      var i :| 0 <= i < |init| && init[i].0 == k;
      assert pairs[i] == init[i];
    }
    if Occurs(pairs, k) && pairs[|pairs| - 1].0 != k {
      var i :| 0 <= i < |pairs| && pairs[i].0 == k;
      assert init[i] == pairs[i];
    }
  }

  /** A grouped sum has one entry per key that occurs, holding the total of that key's amounts. */
  lemma {:induction false} SumByIsGroupedSum<K>(pairs: seq<(K, real)>, k: K)
    ensures k in SumBy(pairs) <==> Occurs(pairs, k)
    ensures Get(SumBy(pairs), k) == SumWhere(pairs, k)
  {
    if pairs != [] {
      SumByIsGroupedSum(pairs[..|pairs| - 1], k);
      OccursInPrefix(pairs, k);
    }
  }

  /* ---------- compute_summaries ---------- */

  datatype Summaries = Summaries(capexByScenario: map<string, real>)

  function ScenarioCosts(df: seq<EnrichedLine>): seq<(string, real)>
  {
    seq(|df|, i requires 0 <= i < |df| => (df[i].asset.scenario, df[i].totalCost))
  }

  predicate HasScenario(df: seq<EnrichedLine>, sc: string)
  {
    exists i :: 0 <= i < |df| && df[i].asset.scenario == sc
  }

  /**
   * The capex total per scenario, over every row whether or not its timing
   * parsed: a key for each scenario that occurs, holding the total cost of
   * that scenario's rows.
   */
  function ComputeSummaries(df: seq<EnrichedLine>): (s: Summaries)
    ensures forall sc :: sc in s.capexByScenario <==> HasScenario(df, sc)
    ensures forall sc :: sc in s.capexByScenario ==> s.capexByScenario[sc] == SumWhere(ScenarioCosts(df), sc)
  {
    var pairs := ScenarioCosts(df);
    var m := SumBy(pairs);
    assert forall sc :: sc in m <==> HasScenario(df, sc) by {
      forall sc ensures sc in m <==> HasScenario(df, sc) {
        SumByIsGroupedSum(pairs, sc);
        if HasScenario(df, sc) {
          var i :| 0 <= i < |df| && df[i].asset.scenario == sc;
          assert pairs[i].0 == sc;
        }
      }
    }
    assert forall sc :: sc in m ==> m[sc] == SumWhere(pairs, sc) by {
      forall sc | sc in m ensures m[sc] == SumWhere(pairs, sc) {
        SumByIsGroupedSum(pairs, sc);
      }
    }
    Summaries(m)
  }

  /* ---------- build_quarterly_capex ---------- */

  datatype QuarterlyCapexRow = QuarterlyCapexRow(scenario: string, orderPeriod: YearQuarter, totalCost: real)

  /** Python's ordering of strings: lexicographic by code point. */
  predicate StrLt(a: string, b: string)
  {
    if a == [] then b != []
    else if b == [] then false
    else if a[0] == b[0] then StrLt(a[1..], b[1..])
    else a[0] < b[0]
  }

  lemma {:induction false} StrLtIrreflexive(a: string)
    ensures !StrLt(a, a)
  {
    if a != [] {
      StrLtIrreflexive(a[1..]);
    }
  }

  lemma {:induction false} StrLtTransitive(a: string, b: string, c: string)
    requires StrLt(a, b) && StrLt(b, c)
    ensures StrLt(a, c)
  {
    if a != [] && a[0] == b[0] && b[0] == c[0] {
      StrLtTransitive(a[1..], b[1..], c[1..]);
    }
  }

  lemma {:induction false} StrLtTotal(a: string, b: string)
    requires a != b
    ensures StrLt(a, b) || StrLt(b, a)
  {
    if a != [] && b != [] && a[0] == b[0] {
      StrLtTotal(a[1..], b[1..]);
    }
  }

  /** The sort order of the output: by order period, then by scenario. */
  predicate KeyLt(s1: string, p1: YearQuarter, s2: string, p2: YearQuarter)
  {
    PeriodLt(p1, p2) || (p1 == p2 && StrLt(s1, s2))
  }

  predicate RowLt(a: QuarterlyCapexRow, b: QuarterlyCapexRow)
  {
    KeyLt(a.scenario, a.orderPeriod, b.scenario, b.orderPeriod)
  }

  lemma KeyLtIrreflexive(s: string, p: YearQuarter)
    ensures !KeyLt(s, p, s, p)
  {
    StrLtIrreflexive(s);
  }

  lemma KeyLtTransitive(a: QuarterlyCapexRow, b: QuarterlyCapexRow, c: QuarterlyCapexRow)
    requires RowLt(a, b) && RowLt(b, c)
    ensures RowLt(a, c)
  {
    if a.orderPeriod == b.orderPeriod == c.orderPeriod {
      StrLtTransitive(a.scenario, b.scenario, c.scenario);
    }
  }

  lemma KeyLtTotal(s1: string, p1: YearQuarter, s2: string, p2: YearQuarter)
    requires s1 != s2 || p1 != p2
    ensures KeyLt(s1, p1, s2, p2) || KeyLt(s2, p2, s1, p1)
  {
    if p1 == p2 {
      StrLtTotal(s1, s2);
    }
  }

  /** Strictly ascending by (period, scenario): sorted, and no key twice. */
  predicate Sorted(rows: seq<QuarterlyCapexRow>)
  {
    forall i, j :: 0 <= i < j < |rows| ==> RowLt(rows[i], rows[j])
  }

  /** The (scenario, period) keys of a table. */
  function Keys(rows: seq<QuarterlyCapexRow>): set<(string, YearQuarter)>
  {
    if rows == [] then {} else {(rows[0].scenario, rows[0].orderPeriod)} + Keys(rows[1..])
  }

  /** Every row of the table sorts after key (s, p). */
  predicate AllAbove(rows: seq<QuarterlyCapexRow>, s: string, p: YearQuarter)
  {
    forall j :: 0 <= j < |rows| ==> KeyLt(s, p, rows[j].scenario, rows[j].orderPeriod)
  }

  /** The total of the rows of a table carrying key (s, p). */
  function KeyTotal(rows: seq<QuarterlyCapexRow>, s: string, p: YearQuarter): real
  {
    if rows == [] then 0.0
    else (if rows[0].scenario == s && rows[0].orderPeriod == p then rows[0].totalCost else 0.0) + KeyTotal(rows[1..], s, p)
  }

  function TableTotal(rows: seq<QuarterlyCapexRow>): real
  {
    if rows == [] then 0.0 else rows[0].totalCost + TableTotal(rows[1..])
  }

  /** Adds amount a under key (s, p) of a sorted table: to the row with that key, or as a new row in its sorted place. */
  function AddTo(rows: seq<QuarterlyCapexRow>, s: string, p: YearQuarter, a: real): seq<QuarterlyCapexRow>
  {
    if rows == [] then [QuarterlyCapexRow(s, p, a)]
    else if rows[0].scenario == s && rows[0].orderPeriod == p then
      [rows[0].(totalCost := rows[0].totalCost + a)] + rows[1..]
    else if KeyLt(s, p, rows[0].scenario, rows[0].orderPeriod) then
      [QuarterlyCapexRow(s, p, a)] + rows
    else
      [rows[0]] + AddTo(rows[1..], s, p, a)
  }

  lemma {:induction false} AddToKeys(rows: seq<QuarterlyCapexRow>, s: string, p: YearQuarter, a: real)
    ensures Keys(AddTo(rows, s, p, a)) == Keys(rows) + {(s, p)}
  {
    var r := AddTo(rows, s, p, a);
    if rows == [] {
      assert r[1..] == [];
    } else if rows[0].scenario == s && rows[0].orderPeriod == p {
      assert r[1..] == rows[1..];
    } else if KeyLt(s, p, rows[0].scenario, rows[0].orderPeriod) {
      assert r[1..] == rows;
    } else {
      AddToKeys(rows[1..], s, p, a);
      assert r[1..] == AddTo(rows[1..], s, p, a);
    }
  }

  lemma {:induction false} AddToAbove(rows: seq<QuarterlyCapexRow>, s: string, p: YearQuarter, a: real, bs: string, bp: YearQuarter)
    requires AllAbove(rows, bs, bp) && KeyLt(bs, bp, s, p)
    ensures AllAbove(AddTo(rows, s, p, a), bs, bp)
  {
    var r := AddTo(rows, s, p, a);
    if rows == [] {
    } else if rows[0].scenario == s && rows[0].orderPeriod == p {
      assert r[0].scenario == s && r[0].orderPeriod == p && r[1..] == rows[1..];
    } else if KeyLt(s, p, rows[0].scenario, rows[0].orderPeriod) {
      assert r[1..] == rows;
    } else {
      AddToAbove(rows[1..], s, p, a, bs, bp);
      assert r == [rows[0]] + AddTo(rows[1..], s, p, a);
    }
  }

  lemma {:induction false} AddToKeyTotal(rows: seq<QuarterlyCapexRow>, s: string, p: YearQuarter, a: real, s': string, p': YearQuarter)
    ensures KeyTotal(AddTo(rows, s, p, a), s', p') == KeyTotal(rows, s', p') + (if s' == s && p' == p then a else 0.0)
    ensures TableTotal(AddTo(rows, s, p, a)) == TableTotal(rows) + a
  {
    var r := AddTo(rows, s, p, a);
    if rows == [] {
      assert r[1..] == [];
    } else if rows[0].scenario == s && rows[0].orderPeriod == p {
      assert r[1..] == rows[1..];
    } else if KeyLt(s, p, rows[0].scenario, rows[0].orderPeriod) {
      assert r[1..] == rows;
    } else {
      AddToKeyTotal(rows[1..], s, p, a, s', p');
      assert r[1..] == AddTo(rows[1..], s, p, a);
    }
  }

  lemma {:induction false} AddToSorted(rows: seq<QuarterlyCapexRow>, s: string, p: YearQuarter, a: real)
    requires Sorted(rows)
    ensures Sorted(AddTo(rows, s, p, a))
  {
    var r := AddTo(rows, s, p, a);
    var n := QuarterlyCapexRow(s, p, a);
    if rows == [] {
    } else if rows[0].scenario == s && rows[0].orderPeriod == p {
      assert forall i :: 0 <= i < |r| ==> r[i].scenario == rows[i].scenario && r[i].orderPeriod == rows[i].orderPeriod;
    } else if KeyLt(s, p, rows[0].scenario, rows[0].orderPeriod) {
      forall i, j | 0 <= i < j < |r| ensures RowLt(r[i], r[j]) {
        if i == 0 && j > 1 {
          KeyLtTransitive(n, rows[0], rows[j - 1]);
        }
      }
    } else {
      var tail := AddTo(rows[1..], s, p, a);
      AddToSorted(rows[1..], s, p, a);
      KeyLtTotal(s, p, rows[0].scenario, rows[0].orderPeriod);
      assert AllAbove(rows[1..], rows[0].scenario, rows[0].orderPeriod) by {
        forall j | 0 <= j < |rows[1..]| ensures RowLt(rows[0], rows[1..][j]) {
          assert rows[1..][j] == rows[j + 1];
        }
      }
      AddToAbove(rows[1..], s, p, a, rows[0].scenario, rows[0].orderPeriod);
      assert r == [rows[0]] + tail;
    }
  }

  /**
   * `build_quarterly_capex`: rows with an order period, folded in input
   * order into a table keyed by (scenario, order period).
   */
  function QuarterlyCapex(df: seq<EnrichedLine>): seq<QuarterlyCapexRow>
  {
    if df == [] then []
    else
      var table := QuarterlyCapex(df[..|df| - 1]);
      var last := df[|df| - 1];
      if last.orderPeriod.None? then table
      else AddTo(table, last.asset.scenario, last.orderPeriod.value, last.totalCost)
  }

  /** The total cost of the input rows with scenario s and order period p. */
  function GroupCost(df: seq<EnrichedLine>, s: string, p: YearQuarter): real
  {
    if df == [] then 0.0
    else
      var last := df[|df| - 1];
      GroupCost(df[..|df| - 1], s, p) + (if last.asset.scenario == s && last.orderPeriod == Some(p) then last.totalCost else 0.0)
  }

  /** The total cost of the input rows that have an order period. */
  function PeriodCost(df: seq<EnrichedLine>): real
  {
    if df == [] then 0.0
    else
      var last := df[|df| - 1];
      PeriodCost(df[..|df| - 1]) + (if last.orderPeriod.Some? then last.totalCost else 0.0)
  }

  /** Some input row has scenario s and order period p. */
  predicate InGroup(df: seq<EnrichedLine>, s: string, p: YearQuarter)
  {
    exists i :: 0 <= i < |df| && df[i].asset.scenario == s && df[i].orderPeriod == Some(p)
  }

  lemma InGroupOfPrefix(df: seq<EnrichedLine>, s: string, p: YearQuarter)
    requires df != []
    ensures InGroup(df, s, p) <==>
      InGroup(df[..|df| - 1], s, p) || (df[|df| - 1].asset.scenario == s && df[|df| - 1].orderPeriod == Some(p))
  {
    var init := df[..|df| - 1];
    if InGroup(init, s, p) {
      var i :| 0 <= i < |init| && init[i].asset.scenario == s && init[i].orderPeriod == Some(p);
      assert df[i] == init[i];
    }
    if InGroup(df, s, p) {
      var i :| 0 <= i < |df| && df[i].asset.scenario == s && df[i].orderPeriod == Some(p);
      if i < |init| {
        assert init[i] == df[i];
      }
    }
  }

  /**
   * The quarterly table is sorted by (period, scenario) with each key once;
   * it has a row for (s, p) exactly when some input row has scenario s and
   * order period p; the table's total under (s, p) is that group's total
   * cost; and the whole table's total is the cost of all rows with an
   * order period (rows without one are left out).
   */
  lemma {:induction false} QuarterlyCapexCorrect(df: seq<EnrichedLine>)
    ensures Sorted(QuarterlyCapex(df))
    ensures forall s, p :: (s, p) in Keys(QuarterlyCapex(df)) <==> InGroup(df, s, p)
    ensures forall s, p :: KeyTotal(QuarterlyCapex(df), s, p) == GroupCost(df, s, p)
    ensures TableTotal(QuarterlyCapex(df)) == PeriodCost(df)
  {
    if df != [] {
      var init := df[..|df| - 1];
      var last := df[|df| - 1];
      var q := QuarterlyCapex(init);
      QuarterlyCapexCorrect(init);
      if last.orderPeriod.Some? {
        var (sc, pd, c) := (last.asset.scenario, last.orderPeriod.value, last.totalCost);
        AddToSorted(q, sc, pd, c);
        AddToKeys(q, sc, pd, c);
        forall s, p ensures KeyTotal(QuarterlyCapex(df), s, p) == GroupCost(df, s, p) {
          AddToKeyTotal(q, sc, pd, c, s, p);
        }
        AddToKeyTotal(q, sc, pd, c, sc, pd);
      }
      forall s, p ensures (s, p) in Keys(QuarterlyCapex(df)) <==> InGroup(df, s, p) {
        InGroupOfPrefix(df, s, p);
      }
    }
  }

  /** In a sorted table, the total under a present key is that key's one row. */
  lemma {:induction false} KeyTotalOfSortedRow(rows: seq<QuarterlyCapexRow>, i: nat)
    requires Sorted(rows) && i < |rows|
    ensures KeyTotal(rows, rows[i].scenario, rows[i].orderPeriod) == rows[i].totalCost
  {
    var s, p := rows[i].scenario, rows[i].orderPeriod;
    if i == 0 {
      KeyTotalAbsent(rows[1..], s, p);
    } else {
      assert RowLt(rows[0], rows[i]);
      if rows[0].scenario == s && rows[0].orderPeriod == p {
        KeyLtIrreflexive(s, p);
      }
      assert rows[1..][i - 1] == rows[i];
      KeyTotalOfSortedRow(rows[1..], i - 1);
    }
  }

  /** Rows that all sort after (s, p) contribute nothing under it. */
  lemma {:induction false} KeyTotalAbsent(rows: seq<QuarterlyCapexRow>, s: string, p: YearQuarter)
    requires forall j :: 0 <= j < |rows| ==> KeyLt(s, p, rows[j].scenario, rows[j].orderPeriod)
    ensures KeyTotal(rows, s, p) == 0.0
  {
    if rows != [] {
      if rows[0].scenario == s && rows[0].orderPeriod == p {
        KeyLtIrreflexive(s, p);
      }
      KeyTotalAbsent(rows[1..], s, p);
    }
  }

  /** Each row of the quarterly table holds the total cost of its (scenario, order period) group. */
  lemma QuarterlyCapexRowTotals(df: seq<EnrichedLine>)
    ensures forall i :: 0 <= i < |QuarterlyCapex(df)| ==>
      QuarterlyCapex(df)[i].totalCost == GroupCost(df, QuarterlyCapex(df)[i].scenario, QuarterlyCapex(df)[i].orderPeriod)
  {
    var q := QuarterlyCapex(df);
    QuarterlyCapexCorrect(df);
    forall i | 0 <= i < |q| ensures q[i].totalCost == GroupCost(df, q[i].scenario, q[i].orderPeriod) {
      KeyTotalOfSortedRow(q, i);
    }
  }
}
