/**
 * The portfolio curve: inflation-adjusted additions, their straight-line
 * depreciation over a trailing useful-life window, and the net book value
 * rolled forward from them.
 */
module CapexUtils {
  import opened Wrappers
  import opened Sums

  // ---------------------------------------------------------------------------
  // inflation_adjust
  // ---------------------------------------------------------------------------

  /** Each period's amount compounded by its period index: capex * (1 + rate) ** arange(len(capex)). */
  function InflationAdjust(capex: seq<real>, rate: real): (out: seq<real>)
    ensures |out| == |capex|
  {
    seq(|capex|, t requires 0 <= t < |capex| => capex[t] * Pow(1.0 + rate, t))
  }

  /** A zero rate leaves every amount unchanged. */
  lemma InflationAdjustAtZeroRate(capex: seq<real>)
    ensures InflationAdjust(capex, 0.0) == capex
  {
    var out := InflationAdjust(capex, 0.0);
    forall t | 0 <= t < |capex|
      ensures out[t] == capex[t]
    {
      PowOfOne(t);
    }
  }

  /** Adjusting at rate r1 and then at rate r2 is adjusting once at the compounded rate. */
  lemma InflationAdjustCompose(capex: seq<real>, r1: real, r2: real)
    ensures InflationAdjust(InflationAdjust(capex, r1), r2) == InflationAdjust(capex, (1.0 + r1) * (1.0 + r2) - 1.0)
  {
    var once := InflationAdjust(capex, r1);
    var twice := InflationAdjust(once, r2);
    var direct := InflationAdjust(capex, (1.0 + r1) * (1.0 + r2) - 1.0);
    var q := (1.0 + r1) * (1.0 + r2);
    forall t | 0 <= t < |capex|
      ensures twice[t] == direct[t]
    {
      assert 1.0 + (q - 1.0) == q;
      assert direct[t] == capex[t] * Pow(q, t);
      assert twice[t] == (capex[t] * Pow(1.0 + r1, t)) * Pow(1.0 + r2, t);
      ComposeFactors(capex[t], 1.0 + r1, 1.0 + r2, q, t);
    }
  }

  /** Scaling by g1^t and then by g2^t is scaling once by (g1 * g2)^t. */
  lemma ComposeFactors(x: real, g1: real, g2: real, g: real, t: nat)
    requires g == g1 * g2
    ensures (x * Pow(g1, t)) * Pow(g2, t) == x * Pow(g, t)
  {
    var p1, p2 := Pow(g1, t), Pow(g2, t);
    PowOfProduct(g1, g2, t);
    Associate(x, p1, p2);
  }

  lemma Associate(x: real, y: real, z: real)
    ensures (x * y) * z == x * (y * z)
  {
  }

  /** Deflating by the reciprocal factor undoes an adjustment, whenever 1 + rate is not zero. */
  lemma InflationAdjustRoundTrip(capex: seq<real>, rate: real)
    requires 1.0 + rate != 0.0
    ensures InflationAdjust(InflationAdjust(capex, rate), 1.0 / (1.0 + rate) - 1.0) == capex
  {
    var q := 1.0 + rate;
    var back := 1.0 / q - 1.0;
    assert q * (1.0 / q) == 1.0;
    InflationAdjustCompose(capex, rate, back);
    var compounded := (1.0 + rate) * (1.0 + back) - 1.0;
    assert compounded == 0.0;
    assert InflationAdjust(capex, compounded) == InflationAdjust(capex, 0.0);
    InflationAdjustAtZeroRate(capex);
  }

  /** A non-negative rate never shrinks a non-negative amount. */
  lemma InflationAdjustGrows(capex: seq<real>, rate: real, t: nat)
    requires rate >= 0.0
    requires t < |capex| && capex[t] >= 0.0
    ensures InflationAdjust(capex, rate)[t] >= capex[t]
  {
    PowAtLeastOne(1.0 + rate, t);
    assert capex[t] * Pow(1.0 + rate, t) >= capex[t] * 1.0;
  }

  // ---------------------------------------------------------------------------
  // depreciation_schedule
  // ---------------------------------------------------------------------------

  /** The first period of the window that is still depreciating in period t: max(0, t - L + 1). */
  function WindowStart(t: int, usefulLife: int): nat
  {
    if t - usefulLife + 1 > 0 then t - usefulLife + 1 else 0
  }

  /**
   * The charge of period t: the additions of the last L periods (up to and
   * including t), divided by L. For a negative L the window starts after t,
   * and that slice is empty.
   */
  function DepreciationAt(adjusted: seq<real>, usefulLife: int, t: nat): real
    requires usefulLife != 0 && t < |adjusted|
  {
    var start := WindowStart(t, usefulLife);
    (if start <= t + 1 then Sum(adjusted[start..t + 1]) else 0.0) / (usefulLife as real)
  }

  /** The whole depreciation curve, one charge per period. */
  function Depreciation(adjusted: seq<real>, usefulLife: int): (dep: seq<real>)
    requires usefulLife != 0
    ensures |dep| == |adjusted|
  {
    seq(|adjusted|, t requires 0 <= t < |adjusted| => DepreciationAt(adjusted, usefulLife, t))
  }

  /** depreciation_schedule: fills a zeroed array, one period at a time. */
  method DepreciationSchedule(adjusted: seq<real>, usefulLife: int) returns (dep: array<real>)
    requires usefulLife != 0
    ensures fresh(dep)
    ensures dep[..] == Depreciation(adjusted, usefulLife)
  {
    var years := |adjusted|;
    dep := new real[years](_ => 0.0);
    for year := 0 to years
      invariant forall t :: 0 <= t < year ==> dep[t] == DepreciationAt(adjusted, usefulLife, t)
    {
      var startIdx := if year - usefulLife + 1 > 0 then year - usefulLife + 1 else 0;
      // adjusted_capex[start_idx:year+1]: empty when the start is past the end
      var activeAssets := if startIdx <= year + 1 then adjusted[startIdx..year + 1] else [];
      dep[year] := Sum(activeAssets) / (usefulLife as real);
    }
  }

  /** Three periods of 100 with a two-period life are charged 50, then 100, then 100. */
  lemma DepreciationExample()
    ensures Depreciation([100.0, 100.0, 100.0], 2) == [50.0, 100.0, 100.0]
  {
    var a := [100.0, 100.0, 100.0];
    assert a[0..1] == [100.0] && a[0..2] == [100.0, 100.0] && a[1..3] == [100.0, 100.0];
    assert Sum([100.0]) == 100.0;
    assert Sum([100.0, 100.0]) == 200.0;
    var dep := Depreciation(a, 2);
    assert dep[0] == 50.0 && dep[1] == 100.0 && dep[2] == 100.0;
  }

  /** A negative useful life charges nothing in any period. */
  lemma NegativeLifeChargesNothing(adjusted: seq<real>, usefulLife: int)
    requires usefulLife < 0
    ensures forall t :: 0 <= t < |adjusted| ==> Depreciation(adjusted, usefulLife)[t] == 0.0
  {
    forall t | 0 <= t < |adjusted|
      ensures Depreciation(adjusted, usefulLife)[t] == 0.0
    {
      assert WindowStart(t, usefulLife) > t + 1;
    }
  }

  /** While nothing has aged out of the window, a period's charge is the running total over L. */
  lemma DepreciationWithinLife(adjusted: seq<real>, usefulLife: int, t: nat)
    requires usefulLife >= |adjusted| && t < |adjusted|
    ensures Depreciation(adjusted, usefulLife)[t] == Sum(adjusted[..t + 1]) / (usefulLife as real)
  {
    assert WindowStart(t, usefulLife) == 0;
  }

  /** Non-negative additions give charges between zero and the total of all additions over L. */
  lemma DepreciationBounds(adjusted: seq<real>, usefulLife: int, t: nat)
    requires usefulLife > 0 && t < |adjusted|
    requires forall i :: 0 <= i < |adjusted| ==> adjusted[i] >= 0.0
    ensures 0.0 <= Depreciation(adjusted, usefulLife)[t] <= Sum(adjusted) / (usefulLife as real)
    ensures Depreciation(adjusted, usefulLife)[t] <= Sum(adjusted)
  {
    ChargeBounds(adjusted, usefulLife, t);
    assert Depreciation(adjusted, usefulLife)[t] == DepreciationAt(adjusted, usefulLife, t);
  }

  lemma ChargeBounds(adjusted: seq<real>, usefulLife: int, t: nat)
    requires usefulLife > 0 && t < |adjusted|
    requires forall i :: 0 <= i < |adjusted| ==> adjusted[i] >= 0.0
    ensures 0.0 <= DepreciationAt(adjusted, usefulLife, t) <= Sum(adjusted) / (usefulLife as real)
    ensures DepreciationAt(adjusted, usefulLife, t) <= Sum(adjusted)
  {
    WindowWithinTotal(adjusted, WindowStart(t, usefulLife), t + 1);
    DivideMonotone(Sum(adjusted[WindowStart(t, usefulLife)..t + 1]), Sum(adjusted), usefulLife as real);
  }

  /** With non-negative terms, any slice adds up to between zero and the whole sum. */
  lemma WindowWithinTotal(a: seq<real>, i: nat, j: nat)
    requires i <= j <= |a|
    requires forall k :: 0 <= k < |a| ==> a[k] >= 0.0
    ensures 0.0 <= Sum(a[i..j]) <= Sum(a)
  {
    SumSlice(a, i, j);
    PrefixSumMonotone(a, i, j);
    PrefixSumMonotone(a, j, |a|);
    assert a[..|a|] == a;
  }

  lemma DivideMonotone(x: real, y: real, d: real)
    requires 0.0 <= x <= y && d >= 1.0
    ensures 0.0 <= x / d <= y / d <= y
  {
  }

  /** The running total of additions, extended by 0 before the first period and by the grand total after the last. */
  function Running(a: seq<real>, m: int): real
  {
    if m <= 0 then 0.0 else if m >= |a| then Sum(a) else Sum(a[..m])
  }

  /** Running(a, n) + Running(a, n - 1) + ... over k consecutive periods ending at n. */
  function Trail(a: seq<real>, n: int, k: nat): real
    decreases k
  {
    if k == 0 then 0.0 else Running(a, n) + Trail(a, n - 1, k - 1)
  }

  /** Within the periods, the running total is the prefix sum. */
  lemma RunningOfPrefix(a: seq<real>, n: nat)
    requires n <= |a|
    ensures Running(a, n) == Sum(a[..n])
  {
    assert a[..|a|] == a;
    assert a[..0] == [];
  }

  /** The additions inside the window ending at period n - 1 are the difference of two running totals. */
  lemma WindowAsRunning(a: seq<real>, usefulLife: int, n: nat)
    requires usefulLife > 0 && 0 < n <= |a|
    ensures Sum(a[WindowStart(n - 1, usefulLife)..n]) == Running(a, n) - Running(a, n - usefulLife)
  {
    var s := WindowStart(n - 1, usefulLife);
    SumSlice(a, s, n);
    RunningOfPrefix(a, n);
    RunningOfPrefix(a, s);
  }

  /** A period's charge is the difference of the running totals at its two window ends, divided by L. */
  lemma ChargeOfWindow(a: seq<real>, usefulLife: int, n: nat)
    requires usefulLife > 0 && 0 < n <= |a|
    ensures Depreciation(a, usefulLife)[n - 1] == (Running(a, n) - Running(a, n - usefulLife)) / (usefulLife as real)
  {
    WindowAsRunning(a, usefulLife, n);
    assert Depreciation(a, usefulLife)[n - 1] == DepreciationAt(a, usefulLife, n - 1);
  }

  /** Sliding a trail of k terms forward by one period adds the new front and drops the old back. */
  lemma {:induction false} TrailSlide(a: seq<real>, n: int, k: nat)
    ensures Trail(a, n, k) - Trail(a, n - 1, k) == Running(a, n) - Running(a, n - k)
    decreases k
  {
    if k > 0 {
      TrailSlide(a, n - 1, k - 1);
    }
  }

  lemma {:induction false} TrailBeforeStart(a: seq<real>, n: int, k: nat)
    requires n <= 0
    ensures Trail(a, n, k) == 0.0
    decreases k
  {
    if k > 0 {
      TrailBeforeStart(a, n - 1, k - 1);
    }
  }

  /** w holds, for each period, the additions inside its window as the difference of two running totals. */
  ghost predicate WindowSums(a: seq<real>, usefulLife: int, w: seq<real>)
  {
    && |w| == |a|
    && forall t :: 0 <= t < |w| ==> w[t] == Running(a, t + 1) - Running(a, t + 1 - usefulLife)
  }

  /** The window sums of the first n periods add up to the trail of L running totals ending at n. */
  lemma {:induction false} WindowTrail(a: seq<real>, usefulLife: nat, w: seq<real>, n: nat)
    requires WindowSums(a, usefulLife, w) && n <= |w|
    ensures Sum(w[..n]) == Trail(a, n, usefulLife)
  {
    if n == 0 {
      assert w[..0] == [];
      TrailBeforeStart(a, 0, usefulLife);
    } else {
      WindowTrail(a, usefulLife, w, n - 1);
      WindowTrailStep(a, usefulLife, w, n);
    }
  }

  lemma WindowTrailStep(a: seq<real>, usefulLife: nat, w: seq<real>, n: nat)
    requires 0 < n <= |w|
    requires w[n - 1] == Running(a, n) - Running(a, n - usefulLife)
    requires Sum(w[..n - 1]) == Trail(a, n - 1, usefulLife)
    ensures Sum(w[..n]) == Trail(a, n, usefulLife)
  {
    SumPrefixStep(w, n);
    TrailSlide(a, n, usefulLife);
  }

  /** Shares of a common divisor add up to the total divided by it. */
  lemma {:induction false} SumOfShares(shares: seq<real>, w: seq<real>, l: real, n: nat)
    requires l > 0.0 && |shares| == |w| && n <= |w|
    requires forall t :: 0 <= t < |w| ==> shares[t] == w[t] / l
    ensures Sum(shares[..n]) == Sum(w[..n]) / l
  {
    if n == 0 {
      assert shares[..0] == [] && w[..0] == [];
    } else {
      SumOfShares(shares, w, l, n - 1);
      SumPrefixStep(shares, n);
      SumPrefixStep(w, n);
      AddShares(Sum(w[..n - 1]), w[n - 1], l);
    }
  }

  lemma AddShares(x: real, y: real, l: real)
    requires l > 0.0
    ensures x / l + y / l == (x + y) / l
  {
  }

  /** The depreciation charged in the first n periods is the trail of L running totals ending at n, divided by L. */
  lemma ChargedSoFar(a: seq<real>, usefulLife: int, n: nat)
    requires usefulLife > 0 && n <= |a|
    ensures Sum(Depreciation(a, usefulLife)[..n]) == Trail(a, n, usefulLife) / (usefulLife as real)
  {
    var w := seq(|a|, t requires 0 <= t < |a| => Running(a, t + 1) - Running(a, t + 1 - usefulLife));
    assert WindowSums(a, usefulLife, w);
    forall t | 0 <= t < |a|
      ensures Depreciation(a, usefulLife)[t] == w[t] / (usefulLife as real)
    {
      ChargeOfWindow(a, usefulLife, t + 1);
    }
    SumOfShares(Depreciation(a, usefulLife), w, usefulLife as real, n);
    WindowTrail(a, usefulLife, w, n);
  }

  /** With non-negative additions the running total never decreases and never goes below zero. */
  lemma RunningMonotone(a: seq<real>, m: int, m': int)
    requires forall i :: 0 <= i < |a| ==> a[i] >= 0.0
    requires m <= m'
    ensures 0.0 <= Running(a, m) <= Running(a, m')
  {
    assert a[..|a|] == a;
    var i := if m <= 0 then 0 else if m >= |a| then |a| else m;
    var j := if m' <= 0 then 0 else if m' >= |a| then |a| else m';
    assert a[..0] == [];
    PrefixSumMonotone(a, i, j);
  }

  /** A trail of k running totals ending at n is at most k times the latest one. */
  lemma {:induction false} TrailBound(a: seq<real>, n: int, k: nat)
    requires forall i :: 0 <= i < |a| ==> a[i] >= 0.0
    ensures Trail(a, n, k) <= (k as real) * Running(a, n)
    decreases k
  {
    if k > 0 {
      TrailBound(a, n - 1, k - 1);
      RunningMonotone(a, n - 1, n);
      ScaleMonotone(Running(a, n - 1), Running(a, n), (k - 1) as real);
    }
  }

  lemma ScaleMonotone(x: real, y: real, c: real)
    requires x <= y && c >= 0.0
    ensures c * x <= c * y
  {
  }

  /**
   * Each addition is charged at most L times at 1/L of its value, so the
   * depreciation of the first n periods never exceeds their additions.
   */
  lemma ChargedAtMostAdded(a: seq<real>, usefulLife: int, n: nat)
    requires usefulLife > 0 && n <= |a|
    requires forall i :: 0 <= i < |a| ==> a[i] >= 0.0
    ensures Sum(Depreciation(a, usefulLife)[..n]) <= Sum(a[..n])
  {
    ChargedSoFar(a, usefulLife, n);
    TrailShareBound(a, usefulLife, n);
  }

  lemma TrailShareBound(a: seq<real>, usefulLife: int, n: nat)
    requires usefulLife > 0 && n <= |a|
    requires forall i :: 0 <= i < |a| ==> a[i] >= 0.0
    ensures Trail(a, n, usefulLife) / (usefulLife as real) <= Sum(a[..n])
  {
    TrailBound(a, n, usefulLife);
    ShareBound(Trail(a, n, usefulLife), Running(a, n), usefulLife as real);
    RunningOfPrefix(a, n);
  }

  lemma ShareBound(trail: real, added: real, l: real)
    requires l > 0.0 && trail <= l * added
    ensures trail / l <= added
  {
  }

  // ---------------------------------------------------------------------------
  // nbv_schedule
  // ---------------------------------------------------------------------------

  /** The three columns of the net book value table. */
  datatype NbvTable = NbvTable(additions: seq<real>, depreciation: seq<real>, nbv: seq<real>)

  /** The table cannot be built when its columns differ in length. */
  datatype TableError = LengthMismatch

  /** The closing book value of period t: everything added so far less everything depreciated so far. */
  function NbvAt(additions: seq<real>, depreciation: seq<real>, t: nat): real
    requires t < |additions| && t < |depreciation|
  {
    Sum(additions[..t + 1]) - Sum(depreciation[..t + 1])
  }

  /** Each period's closing value is the previous one plus the period's addition less its depreciation. */
  lemma NbvRollForward(additions: seq<real>, depreciation: seq<real>, t: nat)
    requires 0 < t < |additions| && t < |depreciation|
    ensures NbvAt(additions, depreciation, t) == NbvAt(additions, depreciation, t - 1) + additions[t] - depreciation[t]
  {
    assert additions[..t + 1][..t] == additions[..t];
    assert depreciation[..t + 1][..t] == depreciation[..t];
  }

  /** The first closing value starts from an opening value of zero. */
  lemma NbvFirstPeriod(additions: seq<real>, depreciation: seq<real>)
    requires 0 < |additions| && 0 < |depreciation|
    ensures NbvAt(additions, depreciation, 0) == additions[0] - depreciation[0]
  {
    assert additions[..1][..0] == [];
    assert depreciation[..1][..0] == [];
  }

  /**
   * nbv_schedule: rolls the book value forward over the paired periods and
   * builds the table; the table fails to build when the columns differ in length.
   */
  method NbvSchedule(additions: seq<real>, depreciation: seq<real>) returns (r: Result<NbvTable, TableError>)
    ensures r.Failure? <==> |additions| != |depreciation|
    ensures r.Success? ==>
      && r.value.additions == additions
      && r.value.depreciation == depreciation
      && |r.value.nbv| == |additions|
      && (forall t :: 0 <= t < |additions| ==> r.value.nbv[t] == NbvAt(additions, depreciation, t))
  {
    var nbv: seq<real> := [];
    var opening := 0.0;
    var pairs := if |additions| <= |depreciation| then |additions| else |depreciation|;
    for t := 0 to pairs
      invariant |nbv| == t
      invariant opening == Sum(additions[..t]) - Sum(depreciation[..t])
      invariant forall i :: 0 <= i < t ==> nbv[i] == NbvAt(additions, depreciation, i)
    {
      var add := additions[t];
      var dep := depreciation[t];
      var closing := opening + add - dep;
      assert additions[..t + 1][..t] == additions[..t];
      assert depreciation[..t + 1][..t] == depreciation[..t];
      nbv := nbv + [closing];
      opening := closing;
    }
    if |additions| != |depreciation| {
      return Failure(LengthMismatch);
    }
    return Success(NbvTable(additions, depreciation, nbv));
  }

  /** Book value rolled forward from depreciation_schedule over the same additions is never negative. */
  lemma NbvNeverNegative(adjusted: seq<real>, usefulLife: int, t: nat)
    requires usefulLife > 0 && t < |adjusted|
    requires forall i :: 0 <= i < |adjusted| ==> adjusted[i] >= 0.0
    ensures NbvAt(adjusted, Depreciation(adjusted, usefulLife), t) >= 0.0
  {
    ChargedAtMostAdded(adjusted, usefulLife, t + 1);
  }
}
