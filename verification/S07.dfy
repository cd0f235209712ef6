/** S07, the momentum breakout: a close beyond the extreme of the twenty bars before it, with a large body,
    on the right side of the long average and of the directional movement. */
module S07 {
  import opened Outcomes
  import opened Market
  import opened IndicatorLaws

  const HISTORY_GUARD_SHIFT := 22
  const WINDOW_FIRST_SHIFT := 2
  const WINDOW_LAST_SHIFT := 21
  const CANDLE_ATR_MULT := 1.5
  const STOP_ATR_MULT := 1.5
  const TARGET_ATR_MULT := 3.0
  const BASE_SCORE := 50.0

  datatype StrategyCode = AtrUnavailable | InsufficientHistory | IndicatorUnavailable | NoSignal | Signal

  datatype StrategyResult = StrategyResult(code: StrategyCode, output: Option<Output>)

  function Asks(o: Output): StrategyResult {
    StrategyResult(Signal, Some(o))
  }

  /** `x` is the largest high of the window: it bounds every high and is one of them. */
  ghost predicate IsHighest(bars: seq<Bar>, x: real) {
    && |bars| >= HISTORY_GUARD_SHIFT
    && (forall k :: WINDOW_FIRST_SHIFT <= k <= WINDOW_LAST_SHIFT ==> Shifted(bars, k).h <= x)
    && (exists k :: WINDOW_FIRST_SHIFT <= k <= WINDOW_LAST_SHIFT && Shifted(bars, k).h == x)
  }

  ghost predicate IsLowest(bars: seq<Bar>, x: real) {
    && |bars| >= HISTORY_GUARD_SHIFT
    && (forall k :: WINDOW_FIRST_SHIFT <= k <= WINDOW_LAST_SHIFT ==> x <= Shifted(bars, k).l)
    && (exists k :: WINDOW_FIRST_SHIFT <= k <= WINDOW_LAST_SHIFT && Shifted(bars, k).l == x)
  }

  /** Every high of the window lies below the newest close. */
  predicate BreaksAbove(bars: seq<Bar>)
    requires |bars| >= HISTORY_GUARD_SHIFT
  {
    forall k :: WINDOW_FIRST_SHIFT <= k <= WINDOW_LAST_SHIFT ==> Shifted(bars, k).h < Shifted(bars, 1).c
  }

  predicate BreaksBelow(bars: seq<Bar>)
    requires |bars| >= HISTORY_GUARD_SHIFT
  {
    forall k :: WINDOW_FIRST_SHIFT <= k <= WINDOW_LAST_SHIFT ==> Shifted(bars, k).l > Shifted(bars, 1).c
  }

  predicate BigBody(bars: seq<Bar>, atr: real)
    requires bars != []
  {
    Abs(Shifted(bars, 1).c - Shifted(bars, 1).o) > CANDLE_ATR_MULT * atr
  }

  predicate Ready(bars: seq<Bar>, f: FeatureSet) {
    && f.atr.Some? && f.atr.value > 0.0 && |bars| >= HISTORY_GUARD_SHIFT
    && f.ema200.Some? && f.diPlus.Some? && f.diMinus.Some?
  }

  /** What S07 asks for, stated without its loop. */
  function Decide(bars: seq<Bar>, f: FeatureSet): StrategyResult {
    if f.atr.None? || f.atr.value <= 0.0 then StrategyResult(AtrUnavailable, None)
    else if |bars| < HISTORY_GUARD_SHIFT then StrategyResult(InsufficientHistory, None)
    else if !Ready(bars, f) then StrategyResult(IndicatorUnavailable, None)
    else
      var price, atr := Shifted(bars, 1).c, f.atr.value;
      if BreaksAbove(bars) && BigBody(bars, atr) && price > f.ema200.value && f.diPlus.value > f.diMinus.value then
        Asks(Output(Buy, price, price - STOP_ATR_MULT * atr, price + TARGET_ATR_MULT * atr, BASE_SCORE))
      else if BreaksBelow(bars) && BigBody(bars, atr) && price < f.ema200.value && f.diMinus.value > f.diPlus.value then
        Asks(Output(Sell, price, price + STOP_ATR_MULT * atr, price - TARGET_ATR_MULT * atr, BASE_SCORE))
      else StrategyResult(NoSignal, None)
  }

  method Evaluate(bars: seq<Bar>, f: FeatureSet) returns (r: StrategyResult)
    ensures r == Decide(bars, f)
  {
    if f.atr.None? || f.atr.value <= 0.0 {
      return StrategyResult(AtrUnavailable, None);
    }
    var atr := f.atr.value;
    if !Exists(bars, HISTORY_GUARD_SHIFT) {
      return StrategyResult(InsufficientHistory, None);
    }
    if f.ema200.None? || f.diPlus.None? || f.diMinus.None? {
      return StrategyResult(IndicatorUnavailable, None);
    }
    var price, open1 := At(bars, 1).value.c, At(bars, 1).value.o;
    var hh, ll := WindowExtremes(bars);
    var candle := Abs(price - open1);
    var bodyOk := candle > CANDLE_ATR_MULT * atr;
    BreakoutMeans(bars, hh, ll);
    if price > hh && bodyOk && price > f.ema200.value && f.diPlus.value > f.diMinus.value {
      return Asks(Output(Buy, price, price - STOP_ATR_MULT * atr, price + TARGET_ATR_MULT * atr, BASE_SCORE));
    }
    if price < ll && bodyOk && price < f.ema200.value && f.diMinus.value > f.diPlus.value {
      return Asks(Output(Sell, price, price + STOP_ATR_MULT * atr, price - TARGET_ATR_MULT * atr, BASE_SCORE));
    }
    return StrategyResult(NoSignal, None);
  }

  /** One loop over shifts 2 to 21. */
  method WindowExtremes(bars: seq<Bar>) returns (hh: real, ll: real)
    requires |bars| >= HISTORY_GUARD_SHIFT
    ensures IsHighest(bars, hh) && IsLowest(bars, ll)
  {
    var high: Option<real> := None;
    var low: Option<real> := None;
    for k := WINDOW_FIRST_SHIFT to WINDOW_LAST_SHIFT + 1
      invariant k > WINDOW_FIRST_SHIFT ==> high.Some? && low.Some?
      invariant high.Some? ==> (forall j :: WINDOW_FIRST_SHIFT <= j < k ==> Shifted(bars, j).h <= high.value)
                               && exists j :: WINDOW_FIRST_SHIFT <= j < k && Shifted(bars, j).h == high.value
      invariant low.Some? ==> (forall j :: WINDOW_FIRST_SHIFT <= j < k ==> low.value <= Shifted(bars, j).l)
                              && exists j :: WINDOW_FIRST_SHIFT <= j < k && Shifted(bars, j).l == low.value
    {
      var b := Shifted(bars, k);
      if high.None? || b.h > high.value { high := Some(b.h); }
      if low.None? || b.l < low.value { low := Some(b.l); }
    }
    hh, ll := high.value, low.value;
  }

  lemma BreakoutMeans(bars: seq<Bar>, hh: real, ll: real)
    requires IsHighest(bars, hh) && IsLowest(bars, ll)
    ensures Shifted(bars, 1).c > hh <==> BreaksAbove(bars)
    ensures Shifted(bars, 1).c < ll <==> BreaksBelow(bars)
  {
    var j :| WINDOW_FIRST_SHIFT <= j <= WINDOW_LAST_SHIFT && Shifted(bars, j).h == hh;
    var m :| WINDOW_FIRST_SHIFT <= m <= WINDOW_LAST_SHIFT && Shifted(bars, m).l == ll;
    assert BreaksAbove(bars) ==> Shifted(bars, j).h < Shifted(bars, 1).c;
    assert BreaksBelow(bars) ==> Shifted(bars, m).l > Shifted(bars, 1).c;
  }

  // ---------------------------------------------------------------- what a signal means

  /** Every signal risks one and a half ATR to gain three: the target is exactly twice as far as the stop, on
      the other side of the entry, and a signal needs a body larger than the stop distance. */
  lemma SignalGeometry(bars: seq<Bar>, f: FeatureSet)
    requires Decide(bars, f).output.Some?
    ensures var o := Decide(bars, f).output.value;
            && Ready(bars, f) && f.atr.value > 0.0
            && Abs(o.takeProfit - o.entry) == 2.0 * Abs(o.entry - o.stopLoss)
            && Abs(o.entry - o.stopLoss) == STOP_ATR_MULT * f.atr.value
            && Abs(Shifted(bars, 1).c - Shifted(bars, 1).o) > Abs(o.entry - o.stopLoss)
            && (if o.direction.Buy? then o.stopLoss < o.entry < o.takeProfit else o.takeProfit < o.entry < o.stopLoss)
  {
  }

  function FlipResult(r: StrategyResult, k: real): StrategyResult {
    r.(output := if r.output.Some? then Some(FlipOutput(r.output.value, k)) else None)
  }

  lemma BreakoutsReflect(bars: seq<Bar>, k: real)
    requires |bars| >= HISTORY_GUARD_SHIFT
    ensures BreaksAbove(FlipAll(bars, k)) <==> BreaksBelow(bars)
    ensures BreaksBelow(FlipAll(bars, k)) <==> BreaksAbove(bars)
  {
    var flipped := FlipAll(bars, k);
    assert forall j :: WINDOW_FIRST_SHIFT <= j <= WINDOW_LAST_SHIFT ==>
             Shifted(flipped, j) == Flip(Shifted(bars, j), k);
  }

  /** Reflecting every price turns a BUY into the reflected SELL and a SELL into the reflected BUY, and every
      refusal into the same refusal. */
  lemma DecisionReflects(bars: seq<Bar>, f: FeatureSet, k: real)
    ensures Decide(FlipAll(bars, k), FlipFeatures(f, k)) == FlipResult(Decide(bars, f), k)
  {
    if Ready(bars, f) {
      BreakoutsReflect(bars, k);
      assert Shifted(FlipAll(bars, k), 1) == Flip(Shifted(bars, 1), k);
    }
  }

  // ---------------------------------------------------------------- the decision from the bars

  lemma WindowByIndex(bars: seq<Bar>)
    requires |bars| >= 22
    ensures var n := |bars|;
            BreaksAbove(bars) <==> forall j :: n - 21 <= j <= n - 2 ==> bars[j].h < bars[n - 1].c
  {
    var n := |bars|;
    if BreaksAbove(bars) {
      forall j | n - 21 <= j <= n - 2
        ensures bars[j].h < bars[n - 1].c
      {
        assert Shifted(bars, n - j).h < Shifted(bars, 1).c;
      }
    }
  }

  /** A purchase exactly when the newest close lies above each of the twenty highs before it and above the long
      average, the newest body is larger than one and a half ATR and DI+ is above DI-; at that close, with the stop
      one and a half ATR below it, the target three above it and a score of fifty. */
  lemma BuysExactly(bars: seq<Bar>, f: FeatureSet)
    ensures var r, n := Decide(bars, f).output, |bars|;
            && (r.Some? && r.value.direction.Buy? <==>
                  && f.atr.Some? && f.atr.value > 0.0 && n >= 22 && f.ema200.Some? && f.diPlus.Some? && f.diMinus.Some?
                  && (forall j :: n - 21 <= j <= n - 2 ==> bars[j].h < bars[n - 1].c)
                  && bars[n - 1].c > f.ema200.value && f.diPlus.value > f.diMinus.value
                  && Abs(bars[n - 1].c - bars[n - 1].o) > 1.5 * f.atr.value)
            && (r.Some? && r.value.direction.Buy? ==>
                  var c := bars[n - 1].c;
                  r.value == Output(Buy, c, c - 1.5 * f.atr.value, c + 3.0 * f.atr.value, 50.0))
  {
    if |bars| >= 22 {
      WindowByIndex(bars);
    }
  }

  /** A sale is the mirror image, exactly. */
  lemma SellsExactly(bars: seq<Bar>, f: FeatureSet)
    ensures var r, n := Decide(bars, f).output, |bars|;
            && (r.Some? && r.value.direction.Sell? <==>
                  && f.atr.Some? && f.atr.value > 0.0 && n >= 22 && f.ema200.Some? && f.diPlus.Some? && f.diMinus.Some?
                  && (forall j :: n - 21 <= j <= n - 2 ==> bars[j].l > bars[n - 1].c)
                  && bars[n - 1].c < f.ema200.value && f.diPlus.value < f.diMinus.value
                  && Abs(bars[n - 1].c - bars[n - 1].o) > 1.5 * f.atr.value)
            && (r.Some? && r.value.direction.Sell? ==>
                  var c := bars[n - 1].c;
                  r.value == Output(Sell, c, c + 1.5 * f.atr.value, c - 3.0 * f.atr.value, 50.0))
  {
    var flipped, g := FlipAll(bars, 0.0), FlipFeatures(f, 0.0);
    DecisionReflects(bars, f, 0.0);
    BuysExactly(flipped, g);
    if |bars| >= 22 {
      var n := |bars|;
      assert flipped[n - 1] == Flip(bars[n - 1], 0.0);
      assert forall j :: n - 21 <= j <= n - 2 ==> (flipped[j].h < flipped[n - 1].c <==> bars[j].l > bars[n - 1].c);
    }
  }

  /** Why there is no signal, in the order in which it is found out. */
  lemma CodeExactly(bars: seq<Bar>, f: FeatureSet)
    ensures var r := Decide(bars, f);
            var noAtr := f.atr.None? || f.atr.value <= 0.0;
            var missing := f.ema200.None? || f.diPlus.None? || f.diMinus.None?;
            && (r.code.AtrUnavailable? <==> noAtr)
            && (r.code.InsufficientHistory? <==> !noAtr && |bars| < 22)
            && (r.code.IndicatorUnavailable? <==> !noAtr && |bars| >= 22 && missing)
            && (r.code.Signal? <==> r.output.Some?)
  {
  }
}
