/** Direction neutrality of the whole chain: indicators, S07, score, trades and statistics answer a
    reflected market with the reflected result. */
module Mirror {
  import opened Outcomes
  import opened Market
  import opened IndicatorLaws
  import opened S07
  import opened Scoring
  import opened Backtest
  import opened BacktestStats

  function FlipSignal(s: Option<Output>, k: real): Option<Output> {
    if s.Some? then Some(FlipOutput(s.value, k)) else None
  }

  /** S07 on a window: indicators computed from the window, then the decision. */
  function SignalOf(e: FeatureEngine, bars: seq<Bar>): Option<Output>
    requires e.Valid()
  {
    Decide(bars, FeaturesOf(e, bars)).output
  }

  lemma SignalReflects(e: FeatureEngine, bars: seq<Bar>, k: real)
    requires e.Valid()
    ensures SignalOf(e, FlipAll(bars, k)) == FlipSignal(SignalOf(e, bars), k)
  {
    FeaturesReflect(e, bars, k);
    DecisionReflects(bars, FeaturesOf(e, bars), k);
  }

  /** Indicators and decision together: a reflected series gives the reflected result, and an equal score. */
  lemma SignalAndScoreReflect(e: FeatureEngine, bars: seq<Bar>, k: real, index: int)
    requires e.Valid()
    ensures SignalOf(e, FlipAll(bars, k)) == FlipSignal(SignalOf(e, bars), k)
    ensures SignalOf(e, bars).Some? ==>
              var o, o' := SignalOf(e, bars).value, SignalOf(e, FlipAll(bars, k)).value;
              o'.baseScore + Terms(FlipAll(bars, k), o'.direction, index) ==
              o.baseScore + Terms(bars, o.direction, index)
  {
    SignalReflects(e, bars, k);
    if SignalOf(e, bars).Some? {
      ScoreReflects(bars, SignalOf(e, bars).value.direction, index, k);
    }
  }

  // ---------------------------------------------------------------- trades

  function FlipTrade(t: Trade, k: real): Trade {
    t.(direction := Other(t.direction), entry := k - t.entry,
       stopLoss := k - t.stopLoss, takeProfit := k - t.takeProfit)
  }

  function FlipTrades(ts: seq<Trade>, k: real): seq<Trade> {
    seq(|ts|, i requires 0 <= i < |ts| => FlipTrade(ts[i], k))
  }

  lemma TouchReflects(b: Bar, o: Output, k: real)
    ensures HitsStop(Flip(b, k), Other(o.direction), k - o.stopLoss) <==> HitsStop(b, o.direction, o.stopLoss)
    ensures Touches(Flip(b, k), FlipOutput(o, k)) <==> Touches(b, o)
  {
  }

  lemma {:induction false} FirstTouchReflects(bars: seq<Bar>, from: nat, o: Output, k: real)
    requires from <= |bars|
    ensures FirstTouch(FlipAll(bars, k), from, FlipOutput(o, k)) == FirstTouch(bars, from, o)
    decreases |bars| - from
  {
    if from < |bars| {
      TouchReflects(bars[from], o, k);
      FirstTouchReflects(bars, from + 1, o, k);
    }
  }

  /** The reflected trade exits the same way, after the same number of bars, with the same R. */
  lemma TradeReflects(bars: seq<Bar>, i: nat, o: Output, k: real)
    requires i <= |bars|
    ensures TradeAt(FlipAll(bars, k), i, FlipOutput(o, k)) == FlipTrade(TradeAt(bars, i, o), k)
  {
    FirstTouchReflects(bars, i, o, k);
    var touch := FirstTouch(bars, i, o);
    if touch.Some? {
      TouchReflects(bars[touch.value], o, k);
    }
    assert Abs((k - o.entry) - (k - o.stopLoss)) == Abs(o.entry - o.stopLoss);
    assert Abs((k - o.takeProfit) - (k - o.entry)) == Abs(o.takeProfit - o.entry);
  }

  /** Two strategies that answer reflected windows with reflected signals. */
  ghost predicate Reflected(bars: seq<Bar>, s: Strategy, s': Strategy, k: real) {
    forall n :: 0 <= n <= |bars| ==> s'(FlipAll(bars, k)[..n]) == FlipSignal(s(bars[..n]), k)
  }

  /** The step at a position that signals, given the claim for the trades after it. */
  lemma TakenReflects(bars: seq<Bar>, s: Strategy, s': Strategy, k: real, i: nat, limit: Option<nat>)
    requires i < |bars| && (limit.Some? ==> limit.value > 0) && s(bars[..i]).Some?
    requires s'(FlipAll(bars, k)[..i]) == FlipSignal(s(bars[..i]), k)
    requires var t := TradeAt(bars, i, s(bars[..i]).value);
             After(FlipAll(bars, k), s', i, limit, FlipTrade(t, k)) == FlipTrades(After(bars, s, i, limit, t), k)
    ensures Walk(FlipAll(bars, k), s', i, limit) == FlipTrades(Walk(bars, s, i, limit), k)
  {
    var o := s(bars[..i]).value;
    var t := TradeAt(bars, i, o);
    TradeReflects(bars, i, o, k);
    WalkTakes(bars, s, i, limit);
    WalkTakes(FlipAll(bars, k), s', i, limit);
  }

  lemma {:induction false} AfterReflects(bars: seq<Bar>, s: Strategy, s': Strategy, k: real, i: nat, limit: Option<nat>,
                                         t: Trade)
    requires Reflected(bars, s, s', k) && i < |bars| && (limit.Some? ==> limit.value > 0)
    ensures After(FlipAll(bars, k), s', i, limit, FlipTrade(t, k)) == FlipTrades(After(bars, s, i, limit, t), k)
    decreases |bars| - i, 0
  {
    if limit != Some(1) {
      WalkReflects(bars, s, s', k, i + Max(t.barsHeld, 1), if limit.Some? then Some(limit.value - 1) else None);
    }
  }

  lemma {:induction false} WalkReflects(bars: seq<Bar>, s: Strategy, s': Strategy, k: real, i: nat, limit: Option<nat>)
    requires Reflected(bars, s, s', k) && (limit.Some? ==> limit.value > 0)
    ensures Walk(FlipAll(bars, k), s', i, limit) == FlipTrades(Walk(bars, s, i, limit), k)
    decreases |bars| - i, 1
  {
    if i >= |bars| {
      assert Walk(bars, s, i, limit) == [];
    } else {
      assert s'(FlipAll(bars, k)[..i]) == FlipSignal(s(bars[..i]), k);
      if s(bars[..i]).None? {
        WalkReflects(bars, s, s', k, i + 1, limit);
      } else {
        AfterReflects(bars, s, s', k, i, limit, TradeAt(bars, i, s(bars[..i]).value));
        TakenReflects(bars, s, s', k, i, limit);
      }
    }
  }

  lemma {:induction false} ResolvedFlips(ts: seq<Trade>, k: real)
    ensures ResolvedOf(FlipTrades(ts, k)) == FlipTrades(ResolvedOf(ts), k)
  {
    if ts != [] {
      ResolvedFlips(ts[1..], k);
      assert FlipTrades(ts, k)[1..] == FlipTrades(ts[1..], k);
    }
  }

  /** Every summary figure is computed from the same net R sequence. */
  lemma FiguresReflect(ts: seq<Trade>, k: real, cost: real)
    ensures NetR(FlipTrades(ts, k), cost) == NetR(ts, cost)
    ensures Curve(FlipTrades(ts, k), cost) == Curve(ts, cost)
    ensures TotalR(FlipTrades(ts, k), cost) == TotalR(ts, cost)
    ensures ExpectancyR(FlipTrades(ts, k), cost) == ExpectancyR(ts, cost)
    ensures ProfitFactor(FlipTrades(ts, k), cost) == ProfitFactor(ts, cost)
    ensures forall d :: IsMaxDrawdown(Curve(FlipTrades(ts, k), cost), d) <==> IsMaxDrawdown(Curve(ts, cost), d)
  {
    ResolvedFlips(ts, k);
    assert NetR(FlipTrades(ts, k), cost) == NetR(ts, cost);
    assert Curve(FlipTrades(ts, k), cost) == Curve(ts, cost);
  }

  /** The same figures for two lists of trades. */
  ghost predicate SameFigures(ts: seq<Trade>, us: seq<Trade>, cost: real) {
    && Curve(ts, cost) == Curve(us, cost)
    && TotalR(ts, cost) == TotalR(us, cost)
    && ExpectancyR(ts, cost) == ExpectancyR(us, cost)
    && ProfitFactor(ts, cost) == ProfitFactor(us, cost)
  }

  /** The whole S07 backtest of the reflected series: the reflected trades in the same order, and at every cost
      the same equity curve, hence drawdown, total, expectancy and profit factor. */
  lemma BacktestReflects(e: FeatureEngine, bars: seq<Bar>, k: real, warmup: nat, limit: Option<nat>, cost: real)
    requires e.Valid() && (limit.Some? ==> limit.value > 0)
    ensures var s: Strategy := w => SignalOf(e, w);
            && Walk(FlipAll(bars, k), s, warmup, limit) == FlipTrades(Walk(bars, s, warmup, limit), k)
            && SameFigures(Walk(FlipAll(bars, k), s, warmup, limit), Walk(bars, s, warmup, limit), cost)
  {
    var s: Strategy := w => SignalOf(e, w);
    forall n | 0 <= n <= |bars|
      ensures s(FlipAll(bars, k)[..n]) == FlipSignal(s(bars[..n]), k)
    {
      FlipTake(bars, k, n);
      SignalAndScoreReflect(e, bars[..n], k, 6);
    }
    WalkReflects(bars, s, s, k, warmup, limit);
    FiguresReflect(Walk(bars, s, warmup, limit), k, cost);
  }
}
