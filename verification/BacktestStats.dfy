/** The summary figures of a backtest: one-pass loops against declarative definitions, and what a
    round-trip cost does to each figure. */
module BacktestStats {
  import opened Outcomes
  import opened Backtest
  import opened RealFacts

  /** R after cost of each resolved trade, in order. */
  function NetR(ts: seq<Trade>, cost: real): seq<real> {
    var rs := ResolvedOf(ts);
    seq(|rs|, i requires 0 <= i < |rs| => rs[i].rMultiple - cost)
  }

  function Sum(xs: seq<real>): real {
    if xs == [] then 0.0 else Sum(xs[..|xs| - 1]) + xs[|xs| - 1]
  }

  /** The cumulative R after `k` resolved trades. */
  function CurveAt(xs: seq<real>, k: nat): real
    requires k <= |xs|
  {
    Sum(xs[..k])
  }

  /** The curve point by point. */
  ghost function Curve(ts: seq<Trade>, cost: real): seq<real> {
    seq(|NetR(ts, cost)| + 1, k requires 0 <= k <= |NetR(ts, cost)| => CurveAt(NetR(ts, cost), k))
  }

  method EquityCurve(ts: seq<Trade>, cost: real) returns (curve: seq<real>)
    ensures curve == Curve(ts, cost)
  {
    var xs := NetR(ts, cost);
    curve := [0.0];
    var running := 0.0;
    for i := 0 to |xs|
      invariant |curve| == i + 1 && running == CurveAt(xs, i)
      invariant forall k :: 0 <= k <= i ==> curve[k] == CurveAt(xs, k)
    {
      TakeSnoc(xs, i);
      running := running + xs[i];
      curve := curve + [running];
    }
  }

  /** The curve starts at zero, moves by the net R of each resolved trade in turn, and ends at the total. */
  lemma CurveSteps(ts: seq<Trade>, cost: real, k: nat)
    requires k < |ResolvedOf(ts)|
    ensures |Curve(ts, cost)| == |ResolvedOf(ts)| + 1 && Curve(ts, cost)[0] == 0.0
    ensures Curve(ts, cost)[k + 1] - Curve(ts, cost)[k] == ResolvedOf(ts)[k].rMultiple - cost
    ensures Curve(ts, cost)[|ResolvedOf(ts)|] == TotalR(ts, cost)
  {
    var xs := NetR(ts, cost);
    TakeSnoc(xs, k);
    assert xs[..|xs|] == xs;
  }

  /** The largest fall from any point of the curve to any later one. */
  ghost predicate IsMaxDrawdown(curve: seq<real>, d: real) {
    && (forall i, j :: 0 <= i <= j < |curve| ==> curve[i] - curve[j] <= d)
    && (exists i, j :: 0 <= i <= j < |curve| && curve[i] - curve[j] == d)
  }

  /** One pass with a running peak finds the largest of all the quadratically many falls. */
  method MaxDrawdown(curve: seq<real>) returns (d: real)
    requires curve != [] && curve[0] == 0.0
    ensures IsMaxDrawdown(curve, d) && d >= 0.0
  {
    var peak, worst := 0.0, 0.0;
    ghost var top, low, high := 0, 0, 0;
    for k := 0 to |curve|
      invariant 0 <= top < |curve| && top <= k && (k > 0 ==> top < k) && curve[top] == peak
      invariant forall i :: 0 <= i < k ==> curve[i] <= peak
      invariant 0 <= high <= low < |curve| && curve[low] - curve[high] == worst && worst <= 0.0
      invariant forall i, j :: 0 <= i <= j < k ==> curve[i] - curve[j] <= -worst
    {
      if curve[k] > peak {
        peak := curve[k];
        top := k;
      }
      if curve[k] - peak < worst {
        worst := curve[k] - peak;
        high, low := top, k;
      }
    }
    d := if worst < 0.0 then -worst else worst;
  }

  lemma DrawdownUnique(curve: seq<real>, d: real, e: real)
    requires IsMaxDrawdown(curve, d) && IsMaxDrawdown(curve, e)
    ensures d == e
  {
    var i, j :| 0 <= i <= j < |curve| && curve[i] - curve[j] == d;
    var k, m :| 0 <= k <= m < |curve| && curve[k] - curve[m] == e;
    assert d <= e && e <= d;
  }

  // ---------------------------------------------------------------- figures over resolved trades

  function Gains(xs: seq<real>): real {
    if xs == [] then 0.0
    else Gains(xs[..|xs| - 1]) + (if xs[|xs| - 1] > 0.0 then xs[|xs| - 1] else 0.0)
  }

  function Pains(xs: seq<real>): real {
    if xs == [] then 0.0
    else Pains(xs[..|xs| - 1]) + (if xs[|xs| - 1] < 0.0 then -xs[|xs| - 1] else 0.0)
  }

  function TotalR(ts: seq<Trade>, cost: real): real {
    Sum(NetR(ts, cost))
  }

  /** Undefined without resolved trades. */
  function ExpectancyR(ts: seq<Trade>, cost: real): Option<real> {
    var n := |ResolvedOf(ts)|;
    if n == 0 then None else Some(TotalR(ts, cost) / n as real)
  }

  /** Undefined, not infinite, without a losing trade. */
  function ProfitFactor(ts: seq<Trade>, cost: real): Option<real> {
    var xs := NetR(ts, cost);
    if Pains(xs) <= 0.0 then None else Some(Gains(xs) / Pains(xs))
  }

  /** What remains of winners minus what losers cost is the total. */
  lemma {:induction false} GainsMinusPains(xs: seq<real>)
    ensures Gains(xs) - Pains(xs) == Sum(xs) && Gains(xs) >= 0.0 && Pains(xs) >= 0.0
    ensures Pains(xs) > 0.0 <==> exists i :: 0 <= i < |xs| && xs[i] < 0.0
  {
    if xs != [] {
      var init := xs[..|xs| - 1];
      GainsMinusPains(init);
      if i :| 0 <= i < |init| && init[i] < 0.0 {
        assert xs[i] < 0.0;
      }
      if i :| 0 <= i < |xs| && xs[i] < 0.0 && i < |init| {
        assert init[i] < 0.0;
      }
    }
  }

  // ---------------------------------------------------------------- what cost does

  lemma {:induction false} ShiftedSum(xs: seq<real>, ys: seq<real>, delta: real)
    requires |xs| == |ys| && forall i :: 0 <= i < |xs| ==> ys[i] == xs[i] - delta
    ensures Sum(ys) == Sum(xs) - delta * |xs| as real
    ensures delta >= 0.0 ==> Gains(ys) <= Gains(xs) && Pains(ys) >= Pains(xs)
  {
    if xs != [] {
      var n := |xs| - 1;
      ShiftedSum(xs[..n], ys[..n], delta);
      assert delta * (n as real) + delta == delta * |xs| as real;
    }
  }

  /** Raising the cost lowers the total by exactly the difference per trade, and the expectancy by exactly
      the difference. */
  lemma CostLowersTotal(ts: seq<Trade>, cheap: real, dear: real)
    ensures TotalR(ts, dear) == TotalR(ts, cheap) - (dear - cheap) * |ResolvedOf(ts)| as real
    ensures ExpectancyR(ts, cheap).Some? <==> ExpectancyR(ts, dear).Some?
    ensures ExpectancyR(ts, cheap).Some? ==>
              ExpectancyR(ts, dear).value == ExpectancyR(ts, cheap).value - (dear - cheap)
  {
    CostLowersSum(ts, cheap, dear);
    var n := |ResolvedOf(ts)|;
    if n > 0 {
      ExpectancyShift(TotalR(ts, cheap), TotalR(ts, dear), dear - cheap, n as real);
    }
  }

  lemma CostLowersSum(ts: seq<Trade>, cheap: real, dear: real)
    ensures TotalR(ts, dear) == TotalR(ts, cheap) - (dear - cheap) * |ResolvedOf(ts)| as real
  {
    ShiftedSum(NetR(ts, cheap), NetR(ts, dear), dear - cheap);
  }

  lemma ExpectancyShift(a: real, b: real, delta: real, n: real)
    requires n > 0.0 && b == a - delta * n
    ensures b / n == a / n - delta
  {
    DivideShift(a, delta, n);
  }

  /** Profit factor, once defined, stays defined as the cost rises, and never rises. */
  lemma CostLowersProfitFactor(ts: seq<Trade>, cheap: real, dear: real)
    requires cheap <= dear && ProfitFactor(ts, cheap).Some?
    ensures ProfitFactor(ts, dear).Some? && ProfitFactor(ts, dear).value <= ProfitFactor(ts, cheap).value
  {
    var xs, ys := NetR(ts, cheap), NetR(ts, dear);
    ShiftedSum(xs, ys, dear - cheap);
    GainsMinusPains(ys);
    RatioFalls(Gains(xs), Pains(xs), Gains(ys), Pains(ys));
  }

  lemma {:induction false} CurveShift(xs: seq<real>, ys: seq<real>, delta: real, k: nat)
    requires |xs| == |ys| && k <= |xs| && forall i :: 0 <= i < |xs| ==> ys[i] == xs[i] - delta
    ensures CurveAt(ys, k) == CurveAt(xs, k) - Paid(delta, k)
  {
    ShiftedSum(xs[..k], ys[..k], delta);
  }

  /** Raising the cost never shrinks the maximum drawdown. */
  lemma CostDeepensDrawdown(ts: seq<Trade>, cheap: real, dear: real, d: real, d': real)
    requires cheap <= dear && IsMaxDrawdown(Curve(ts, cheap), d) && IsMaxDrawdown(Curve(ts, dear), d')
    ensures d <= d'
  {
    var curve, curve' := Curve(ts, cheap), Curve(ts, dear);
    var i, j :| 0 <= i <= j < |curve| && curve[i] - curve[j] == d;
    FallDeepens(ts, cheap, dear, i, j);
    assert curve'[i] - curve'[j] >= d;
  }

  lemma FallDeepens(ts: seq<Trade>, cheap: real, dear: real, i: nat, j: nat)
    requires cheap <= dear && i <= j <= |ResolvedOf(ts)|
    ensures var xs, ys := NetR(ts, cheap), NetR(ts, dear);
            CurveAt(xs, i) - CurveAt(xs, j) <= CurveAt(ys, i) - CurveAt(ys, j)
  {
    var delta := dear - cheap;
    CurveShift(NetR(ts, cheap), NetR(ts, dear), delta, i);
    CurveShift(NetR(ts, cheap), NetR(ts, dear), delta, j);
    PaidGrows(delta, i, j);
  }

  /** The extra cost after `k` trades. */
  function Paid(delta: real, k: nat): real {
    delta * k as real
  }

  lemma PaidGrows(delta: real, i: nat, j: nat)
    requires delta >= 0.0 && i <= j
    ensures Paid(delta, i) <= Paid(delta, j)
  {
    Widen(delta, i, j);
  }

  // ---------------------------------------------------------------- cost sensitivity

  datatype Row = Row(costR: real, expectancyR: Option<real>, totalR: real, profitFactor: Option<real>,
                     maxDrawdownR: real, stillPositive: bool)

  /** The same trades scored at each cost level. Rows at higher cost are never better in any figure, and an
      edge that is gone at one level is gone at every higher one. */
  method CostSensitivity(ts: seq<Trade>, levels: seq<real>) returns (rows: seq<Row>)
    ensures |rows| == |levels|
    ensures forall i :: 0 <= i < |rows| ==>
              && rows[i].costR == levels[i]
              && rows[i].totalR == TotalR(ts, levels[i])
              && rows[i].expectancyR == ExpectancyR(ts, levels[i])
              && rows[i].profitFactor == ProfitFactor(ts, levels[i])
              && (rows[i].stillPositive <==> rows[i].expectancyR.Some? && rows[i].expectancyR.value > 0.0)
              && IsMaxDrawdown(Curve(ts, levels[i]), rows[i].maxDrawdownR)
    ensures forall i, k :: 0 <= i < |rows| && 0 <= k < |rows| && levels[i] <= levels[k] ==>
              && rows[k].totalR <= rows[i].totalR
              && rows[i].maxDrawdownR <= rows[k].maxDrawdownR
              && (rows[k].stillPositive ==> rows[i].stillPositive)
              && (rows[i].profitFactor.Some? ==>
                    rows[k].profitFactor.Some? && rows[k].profitFactor.value <= rows[i].profitFactor.value)
  {
    rows := [];
    for i := 0 to |levels|
      invariant |rows| == i
      invariant forall k :: 0 <= k < i ==> Scores(rows[k], ts, levels[k])
    {
      var curve := EquityCurve(ts, levels[i]);
      var d := MaxDrawdown(curve);
      var e := ExpectancyR(ts, levels[i]);
      rows := rows + [Row(levels[i], e, TotalR(ts, levels[i]), ProfitFactor(ts, levels[i]),
                          d, e.Some? && e.value > 0.0)];
    }
    forall i, k | 0 <= i < |rows| && 0 <= k < |rows| && levels[i] <= levels[k]
      ensures Worse(rows[k], rows[i])
    {
      HigherCostIsWorse(ts, levels[i], levels[k], rows[i], rows[k]);
    }
  }

  ghost predicate Scores(row: Row, ts: seq<Trade>, cost: real) {
    && row.costR == cost && row.totalR == TotalR(ts, cost) && row.expectancyR == ExpectancyR(ts, cost)
    && row.profitFactor == ProfitFactor(ts, cost)
    && row.stillPositive == (row.expectancyR.Some? && row.expectancyR.value > 0.0)
    && IsMaxDrawdown(Curve(ts, cost), row.maxDrawdownR)
  }

  predicate Worse(dear: Row, cheap: Row) {
    && dear.totalR <= cheap.totalR
    && cheap.maxDrawdownR <= dear.maxDrawdownR
    && (dear.stillPositive ==> cheap.stillPositive)
    && (cheap.profitFactor.Some? ==> dear.profitFactor.Some? && dear.profitFactor.value <= cheap.profitFactor.value)
  }

  lemma HigherCostIsWorse(ts: seq<Trade>, cheap: real, dear: real, row: Row, row': Row)
    requires cheap <= dear && Scores(row, ts, cheap) && Scores(row', ts, dear)
    ensures Worse(row', row)
  {
    TotalFalls(ts, cheap, dear);
    if ProfitFactor(ts, cheap).Some? {
      CostLowersProfitFactor(ts, cheap, dear);
    }
    CostDeepensDrawdown(ts, cheap, dear, row.maxDrawdownR, row'.maxDrawdownR);
  }

  lemma TotalFalls(ts: seq<Trade>, cheap: real, dear: real)
    requires cheap <= dear
    ensures TotalR(ts, dear) <= TotalR(ts, cheap)
    ensures ExpectancyR(ts, cheap).Some? <==> ExpectancyR(ts, dear).Some?
    ensures ExpectancyR(ts, cheap).Some? ==> ExpectancyR(ts, dear).value <= ExpectancyR(ts, cheap).value
  {
    CostLowersTotal(ts, cheap, dear);
    Widen(dear - cheap, 0, |ResolvedOf(ts)|);
  }
}
