/** What a backtest of S07 can come to: every resolved trade is two R won or one R lost, so the figures of any run
    follow from how many targets and stops were hit. */
module S07Results {
  import opened Outcomes
  import opened Market
  import opened RealFacts
  import opened IndicatorLaws
  import opened S07
  import opened Mirror
  import opened Backtest
  import opened BacktestStats

  /** How many trades ended this way. */
  function Count(ts: seq<Trade>, exit: Exit): nat {
    if ts == [] then 0 else (if ts[0].exit == exit then 1 else 0) + Count(ts[1..], exit)
  }

  /** A target earns two R and a stop loses one. */
  predicate TwoToOne(ts: seq<Trade>) {
    forall t :: t in ts ==> (t.exit.Target? ==> t.rMultiple == 2.0) && (t.exit.Stop? ==> t.rMultiple == -1.0)
  }

  function S07On(e: FeatureEngine): Strategy
    requires e.Valid()
  {
    w => SignalOf(e, w)
  }

  function S07Trades(e: FeatureEngine, bars: seq<Bar>, i: nat, limit: Option<nat>): seq<Trade>
    requires e.Valid() && (limit.Some? ==> limit.value > 0)
  {
    Walk(bars, S07On(e), i, limit)
  }

  /** Every resolved S07 trade is +2 R or -1 R, whatever the prices. */
  lemma S07Pays(e: FeatureEngine, bars: seq<Bar>, i: nat, limit: Option<nat>, t: Trade)
    requires e.Valid() && (limit.Some? ==> limit.value > 0) && t in S07Trades(e, bars, i, limit)
    ensures t.exit.Target? ==> t.rMultiple == 2.0
    ensures t.exit.Stop? ==> t.rMultiple == -1.0
    ensures t.exit.Unresolved? ==> t.rMultiple == 0.0
  {
    TradeReward(bars, S07On(e), i, limit, t);
    var o := Output(t.direction, t.entry, t.stopLoss, t.takeProfit, t.score);
    TwiceTheStop(e, bars[..t.index], o);
    PaysTwo(t);
  }

  lemma PaysTwo(t: Trade)
    requires t.entry != t.stopLoss && Abs(t.takeProfit - t.entry) == 2.0 * Abs(t.entry - t.stopLoss)
    requires t.exit.Target? ==> t.rMultiple * Abs(t.entry - t.stopLoss) == Abs(t.takeProfit - t.entry)
    ensures t.exit.Target? ==> t.rMultiple == 2.0
  {
    if t.exit.Target? {
      TwoTimes(t.rMultiple, Abs(t.entry - t.stopLoss), Abs(t.takeProfit - t.entry));
    }
  }

  lemma TwiceTheStop(e: FeatureEngine, past: seq<Bar>, o: Output)
    requires e.Valid() && SignalOf(e, past) == Some(o)
    ensures o.entry != o.stopLoss && Abs(o.takeProfit - o.entry) == 2.0 * Abs(o.entry - o.stopLoss)
  {
    SignalGeometry(past, FeaturesOf(e, past));
  }

  lemma TwoTimes(a: real, d: real, x: real)
    requires d > 0.0 && a * d == x && x == 2.0 * d
    ensures a == 2.0
  {
    if a > 2.0 { Ordered(a, 2.0, d); } else if a < 2.0 { Ordered(2.0, a, d); }
  }

  /** `x` for each of `n` trades. */
  function Of(x: real, n: nat): real {
    if n == 0 then 0.0 else Of(x, n - 1) + x
  }

  lemma {:induction false} OfIsProduct(x: real, n: nat)
    ensures Of(x, n) == x * n as real
  {
    if n > 0 {
      OfIsProduct(x, n - 1);
      OneMore(x, n);
    }
  }

  lemma {:induction false} OfLess(x: real, cost: real, n: nat)
    ensures Of(x - cost, n) == Of(x, n) - Of(cost, n)
    ensures x > cost ==> (Of(x - cost, n) > 0.0 <==> n > 0)
  {
    if n > 0 { OfLess(x, cost, n - 1); }
  }

  lemma {:induction false} OfBoth(x: real, m: nat, n: nat)
    ensures Of(x, m + n) == Of(x, m) + Of(x, n)
  {
    if n > 0 { OfBoth(x, m, n - 1); }
  }

  /** Gained, lost and total, in targets hit and stops hit. */
  lemma {:induction false} SumFromExits(ts: seq<Trade>, cost: real)
    requires TwoToOne(ts)
    ensures BacktestStats.Sum(NetR(ts, cost)) == Of(2.0 - cost, Count(ts, Target)) + Of(-1.0 - cost, Count(ts, Stop))
  {
    if ts != [] {
      SumFromExits(ts[1..], cost);
      FirstCounts(ts, cost);
    }
  }

  lemma {:induction false} ResolvedCount(ts: seq<Trade>)
    ensures |ResolvedOf(ts)| == Count(ts, Target) + Count(ts, Stop)
  {
    if ts != [] {
      ResolvedCount(ts[1..]);
    }
  }

  lemma {:induction false} GainsFromExits(ts: seq<Trade>, cost: real)
    requires TwoToOne(ts) && 0.0 <= cost < 2.0
    ensures Gains(NetR(ts, cost)) == Of(2.0 - cost, Count(ts, Target))
    ensures Pains(NetR(ts, cost)) == Of(1.0 + cost, Count(ts, Stop))
  {
    if ts != [] {
      GainsFromExits(ts[1..], cost);
      FirstCounts(ts, cost);
    }
  }

  lemma FirstCounts(ts: seq<Trade>, cost: real)
    requires ts != []
    ensures var x := if ts[0].Resolved() then ts[0].rMultiple - cost else 0.0;
            && BacktestStats.Sum(NetR(ts, cost)) == x + BacktestStats.Sum(NetR(ts[1..], cost))
            && Gains(NetR(ts, cost)) == (if x > 0.0 then x else 0.0) + Gains(NetR(ts[1..], cost))
            && Pains(NetR(ts, cost)) == (if x < 0.0 then -x else 0.0) + Pains(NetR(ts[1..], cost))
  {
    NetOfFirst(ts, cost);
    if ts[0].Resolved() { Prepended(ts[0].rMultiple - cost, NetR(ts[1..], cost)); }
  }

  lemma NetOfFirst(ts: seq<Trade>, cost: real)
    requires ts != []
    ensures NetR(ts, cost) == if ts[0].Resolved() then [ts[0].rMultiple - cost] + NetR(ts[1..], cost)
                              else NetR(ts[1..], cost)
  {
  }

  lemma {:induction false} Prepended(x: real, xs: seq<real>)
    ensures BacktestStats.Sum([x] + xs) == x + BacktestStats.Sum(xs)
    ensures Gains([x] + xs) == (if x > 0.0 then x else 0.0) + Gains(xs)
    ensures Pains([x] + xs) == (if x < 0.0 then -x else 0.0) + Pains(xs)
  {
    if xs == [] {
      assert [x] + xs == [x] && [x][..0] == [];
    } else {
      assert ([x] + xs)[..|xs|] == [x] + xs[..|xs| - 1];
      Prepended(x, xs[..|xs| - 1]);
    }
  }

  predicate IsRatio(x: real, a: real, b: real) {
    b != 0.0 && x * b == a
  }

  /** The report of an S07 backtest with T targets and S stops at a cost of c R a trade: the total is 2T - S - c(T +
      S), the expectancy is the total over T + S, and for a cost from zero to below two the profit factor is (2 - c)T
      / (1 + c)S, undefined exactly without a stop (`Of(x, n)` is x times n). */
  lemma S07Report(e: FeatureEngine, bars: seq<Bar>, i: nat, limit: Option<nat>, cost: real)
    requires e.Valid() && (limit.Some? ==> limit.value > 0)
    ensures var ts := S07Trades(e, bars, i, limit);
            var won, lost := Count(ts, Target), Count(ts, Stop);
            && TotalR(ts, cost) == Of(2.0, won) - Of(1.0, lost) - Of(cost, won + lost)
            && (ExpectancyR(ts, cost).Some? <==> won + lost > 0)
            && (ExpectancyR(ts, cost).Some? ==> Of(ExpectancyR(ts, cost).value, won + lost) == TotalR(ts, cost))
            && (0.0 <= cost < 2.0 ==>
                  && (ProfitFactor(ts, cost).Some? <==> lost > 0)
                  && (ProfitFactor(ts, cost).Some? ==>
                        IsRatio(ProfitFactor(ts, cost).value, Of(2.0 - cost, won), Of(1.0 + cost, lost))))
  {
    var ts := S07Trades(e, bars, i, limit);
    forall t | t in ts
      ensures (t.exit.Target? ==> t.rMultiple == 2.0) && (t.exit.Stop? ==> t.rMultiple == -1.0)
    {
      S07Pays(e, bars, i, limit, t);
    }
    TotalFromExits(ts, cost);
    ExpectancyMeans(ts, cost, Count(ts, Target) + Count(ts, Stop));
    if 0.0 <= cost < 2.0 { FactorFromExits(ts, cost); }
  }

  lemma TotalFromExits(ts: seq<Trade>, cost: real)
    requires TwoToOne(ts)
    ensures |ResolvedOf(ts)| == Count(ts, Target) + Count(ts, Stop)
    ensures TotalR(ts, cost) == Of(2.0, Count(ts, Target)) - Of(1.0, Count(ts, Stop))
                                - Of(cost, Count(ts, Target) + Count(ts, Stop))
  {
    var won, lost := Count(ts, Target), Count(ts, Stop);
    SumFromExits(ts, cost);
    ResolvedCount(ts);
    OfLess(2.0, cost, won);
    OfLess(-1.0, cost, lost);
    OfLess(0.0, 1.0, lost);
    OfLess(1.0, 1.0, lost);
    OfBoth(cost, won, lost);
    Nothing(lost);
  }

  lemma {:induction false} Nothing(n: nat)
    ensures Of(0.0, n) == 0.0
  {
    if n > 0 { Nothing(n - 1); }
  }

  lemma FactorFromExits(ts: seq<Trade>, cost: real)
    requires TwoToOne(ts) && 0.0 <= cost < 2.0
    ensures ProfitFactor(ts, cost).Some? <==> Count(ts, Stop) > 0
    ensures ProfitFactor(ts, cost).Some? ==>
              IsRatio(ProfitFactor(ts, cost).value, Of(2.0 - cost, Count(ts, Target)), Of(1.0 + cost, Count(ts, Stop)))
  {
    GainsFromExits(ts, cost);
    OfLess(1.0, -cost, Count(ts, Stop));
    assert 1.0 - -cost == 1.0 + cost;
    if Count(ts, Stop) > 0 { Quotient(Gains(NetR(ts, cost)), Pains(NetR(ts, cost))); }
  }

  lemma ExpectancyMeans(ts: seq<Trade>, cost: real, n: nat)
    requires n == |ResolvedOf(ts)|
    ensures ExpectancyR(ts, cost).Some? <==> n > 0
    ensures ExpectancyR(ts, cost).Some? ==> Of(ExpectancyR(ts, cost).value, n) == TotalR(ts, cost)
  {
    if n > 0 {
      Quotient(TotalR(ts, cost), n as real);
      OfIsProduct(ExpectancyR(ts, cost).value, n);
    }
  }

  lemma Quotient(a: real, b: real)
    requires b != 0.0
    ensures IsRatio(a / b, a, b)
  {
  }
}
