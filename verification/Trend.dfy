/** S07 from raw prices: what the whole chain of indicators comes to in a market that only rises, or only falls. */
module Trend {
  import opened Outcomes
  import opened Market
  import opened RealFacts
  import opened Features
  import opened IndicatorLaws
  import opened IndicatorSteps
  import opened S07
  import opened Mirror

  /** Higher highs, higher closes and no lower low, bar after bar. */
  ghost predicate Rising(bars: seq<Bar>) {
    forall k :: 0 < k < |bars| ==>
      bars[k - 1].h < bars[k].h && bars[k - 1].c < bars[k].c && bars[k - 1].l <= bars[k].l
  }

  /** Lower lows, lower closes and no higher high. */
  ghost predicate Falling(bars: seq<Bar>) {
    forall k :: 0 < k < |bars| ==>
      bars[k].l < bars[k - 1].l && bars[k].c < bars[k - 1].c && bars[k].h <= bars[k - 1].h
  }

  lemma {:induction false} EmaPositive(xs: seq<real>, period: int, i: nat)
    requires period >= 1 && i < |xs| && forall k :: 0 <= k <= i ==> xs[k] > 0.0
    ensures EmaAt(xs, period, i) > 0.0
  {
    if i > 0 {
      EmaPositive(xs, period, i - 1);
      PositiveProduct(xs[i], Weight(period));
      MulNonneg(EmaAt(xs, period, i - 1), 1.0 - Weight(period));
    }
  }

  /** The average of a rising series lies below its newest value. */
  lemma EmaBelowNewest(xs: seq<real>, period: int, i: nat)
    requires period >= 2 && 0 < i < |xs| && forall k :: 0 < k <= i ==> xs[k - 1] < xs[k]
    ensures EmaAt(xs, period, i) < xs[i]
  {
    RisesTo(xs, i - 1);
    EmaWithinPrefix(xs, period, i - 1, xs[0], xs[i - 1]);
    WeightBelowOne(period);
    NearerOld(Weight(period), xs[i], EmaAt(xs, period, i - 1));
  }

  lemma NearerOld(w: real, v: real, prev: real)
    requires w < 1.0 && prev < v
    ensures Blend(w, v, prev) < v
  {
    var d, u := v - prev, 1.0 - w;
    PositiveProduct(d, u);
    OldPart(w, v, d, u);
    assert v - d == prev && Blend(w, v, v - d) < v;
  }

  lemma OldPart(w: real, v: real, d: real, u: real)
    requires u == 1.0 - w
    ensures Blend(w, v, v - d) == v - d * u
  {
    assert (v - d) * u == v * u - d * u;
    assert v * u == v - v * w;
  }

  lemma WeightBelowOne(period: int)
    requires period >= 2
    ensures Weight(period) < 1.0
  {
    var k, w := period as real + 1.0, Weight(period);
    assert w * k == 2.0;
    if w >= 1.0 {
      MulNonneg(w - 1.0, k);
      assert false;
    }
  }

  lemma {:induction false} RisesTo(xs: seq<real>, i: nat)
    requires i < |xs| && forall k :: 0 < k <= i ==> xs[k - 1] < xs[k]
    ensures forall k :: 0 <= k <= i ==> xs[0] <= xs[k] <= xs[i]
  {
    if i > 0 {
      RisesTo(xs, i - 1);
    }
  }

  lemma {:induction false} SumPositive(xs: seq<real>)
    requires xs != [] && forall k :: 0 <= k < |xs| ==> xs[k] > 0.0
    ensures Features.SumOf(xs) > 0.0
  {
    var init := xs[..|xs| - 1];
    if init == [] {
      assert Features.SumOf(init) == 0.0;
    } else {
      SumPositive(init);
    }
  }

  lemma {:induction false} WilderPositive(xs: seq<real>, period: int, i: nat)
    requires period >= 1 && period - 1 <= i < |xs| && forall k :: 0 <= k <= i ==> xs[k] > 0.0
    ensures WilderAt(xs, period, i) > 0.0
  {
    if i == period - 1 {
      var sum := Features.SumOf(xs[..period]);
      SumPositive(xs[..period]);
      assert sum / period as real * period as real == sum;
      Cancel(sum / period as real, period as real);
    } else {
      WilderPositive(xs, period, i - 1);
      WilderStep(xs, period, i);
      var n, prev := period as real, WilderAt(xs, period, i - 1);
      MulNonneg(n - 1.0, prev);
      assert n * WilderAt(xs, period, i) > 0.0;
      Cancel(WilderAt(xs, period, i), n);
    }
  }

  lemma RisingRaw(bars: seq<Bar>, i: nat)
    requires GoodBars(bars) && Rising(bars) && 0 < i < |bars|
    ensures RawPlus(bars)[i - 1] > 0.0 && RawMinus(bars)[i - 1] == 0.0 && TrueRangeAt(bars, i) > 0.0
  {
    assert GoodBar(bars[i]) && GoodBar(bars[i - 1]);
    var up := bars[i].h - bars[i - 1].h;
    TrueRangeSpans(bars, i);
    assert TrueRangeAt(bars, i) >= bars[i].h - bars[i - 1].c > 0.0;
    assert Movement(bars, i) == (up, 0.0);
    PercentPositive(up, TrueRangeAt(bars, i));
  }

  lemma PercentPositive(move: real, tr: real)
    requires move > 0.0 && tr > 0.0
    ensures Features.Scaled(move, tr) > 0.0 && Features.Scaled(0.0, tr) == 0.0
  {
    var x := 100.0 * move / tr;
    assert x * tr == 100.0 * move;
    Cancel(x, tr);
  }

  /** In such a market nothing moves down: at every bar DI- is zero, DI+ is positive, and ADX is a hundred. */
  lemma RisingDirection(bars: seq<Bar>, period: int, i: nat)
    requires GoodBars(bars) && Rising(bars) && period >= 1 && 0 < i < |bars|
    ensures DiMinusAt(bars, period, i) == 0.0 && DiPlusAt(bars, period, i) > 0.0 && AdxAt(bars, period, i) == 100.0
  {
    var dx := DxSeries(bars, period);
    forall k | 0 <= k < i
      ensures dx[k] == 100.0
    {
      RisingDi(bars, period, k + 1);
      OnlyUp(DiPlusAt(bars, period, k + 1));
    }
    EmaWithinPrefix(dx, period, i - 1, 100.0, 100.0);
    RisingDi(bars, period, i);
  }

  lemma RisingDi(bars: seq<Bar>, period: int, i: nat)
    requires GoodBars(bars) && Rising(bars) && period >= 1 && 0 < i < |bars|
    ensures DiMinusAt(bars, period, i) == 0.0 && DiPlusAt(bars, period, i) > 0.0
  {
    forall k | 0 <= k < i
      ensures RawPlus(bars)[k] > 0.0
    {
      RisingRaw(bars, k + 1);
    }
    EmaPositive(RawPlus(bars), period, i - 1);
    NothingFalls(bars, period, i);
  }

  lemma NothingFalls(bars: seq<Bar>, period: int, i: nat)
    requires GoodBars(bars) && Rising(bars) && period >= 1 && 0 < i < |bars|
    ensures DiMinusAt(bars, period, i) == 0.0
  {
    forall k | 0 <= k < i
      ensures RawMinus(bars)[k] == 0.0
    {
      RisingRaw(bars, k + 1);
    }
    EmaWithinPrefix(RawMinus(bars), period, i - 1, 0.0, 0.0);
  }

  lemma OnlyUp(p: real)
    requires p > 0.0
    ensures Index(p, 0.0) == 100.0
  {
    assert 100.0 * p / p == 100.0;
  }

  lemma RisingAtr(bars: seq<Bar>, period: int, i: nat)
    requires GoodBars(bars) && Rising(bars) && period >= 1 && period <= i < |bars|
    ensures AtrAt(bars, period, i).Some? && AtrAt(bars, period, i).value > 0.0
  {
    forall k | 0 <= k < i
      ensures TrueRanges(bars)[k] > 0.0
    {
      RisingRaw(bars, k + 1);
    }
    WilderPositive(TrueRanges(bars), period, i - 1);
  }

  /** With enough bars, and only then, every feature is there: the newest values of the indicators. */
  lemma FeaturesAre(e: FeatureEngine, bars: seq<Bar>)
    requires e.Valid()
    ensures var f, n := FeaturesOf(e, bars), |bars|;
            && f.barsUsed == n
            && (f.ema200.Some? <==> n >= e.emaPeriod && n >= e.atrPeriod + 1 && n >= e.adxPeriod + 2)
            && (f.ema200.None? ==> f.atr.None? && f.atrPrev.None? && f.adx.None? && f.diPlus.None? && f.diMinus.None?)
            && (f.ema200.Some? ==>
                  && f.ema200.value == EmaAt(Closes(bars), e.emaPeriod, n - 1)
                  && f.atr.Some? && f.atr == AtrAt(bars, e.atrPeriod, n - 1)
                  && f.diPlus == Some(DiPlusAt(bars, e.adxPeriod, n - 1))
                  && f.diMinus == Some(DiMinusAt(bars, e.adxPeriod, n - 1))
                  && f.adx == Some(AdxAt(bars, e.adxPeriod, n - 1)))
  {
  }

  /** The previous ATR is the ATR the series had one bar ago. */
  lemma PreviousAtr(e: FeatureEngine, bars: seq<Bar>)
    requires e.Valid() && |bars| > e.MinBars()
    ensures FeaturesOf(e, bars).atrPrev == FeaturesOf(e, bars[..|bars| - 1]).atr
  {
    AtrCausal(bars, bars[..|bars| - 1], e.atrPeriod, |bars| - 2);
  }

  /** The features of a rising market with enough bars, on the side of a rise. */
  lemma RisingFeatures(e: FeatureEngine, bars: seq<Bar>)
    requires e.Valid() && e.emaPeriod >= 2 && GoodBars(bars) && Rising(bars)
    requires |bars| >= e.emaPeriod && |bars| >= e.atrPeriod + 1 && |bars| >= e.adxPeriod + 2
    ensures var f, n := FeaturesOf(e, bars), |bars|;
            && f.atr == AtrAt(bars, e.atrPeriod, n - 1) && f.atr.Some? && f.atr.value > 0.0
            && f.ema200.Some? && f.ema200.value < bars[n - 1].c
            && f.diPlus.Some? && f.diMinus.Some? && f.diPlus.value > 0.0 == f.diMinus.value
  {
    FeaturesAre(e, bars);
    RisingAtr(bars, e.atrPeriod, |bars| - 1);
    RisingSides(e, bars);
    RisingAverage(e, bars);
  }

  lemma RisingSides(e: FeatureEngine, bars: seq<Bar>)
    requires e.Valid() && GoodBars(bars) && Rising(bars) && |bars| >= 2 && FeaturesOf(e, bars).ema200.Some?
    ensures var f := FeaturesOf(e, bars);
            f.diPlus.Some? && f.diMinus.Some? && f.diPlus.value > 0.0 == f.diMinus.value
  {
    FeaturesAre(e, bars);
    RisingDi(bars, e.adxPeriod, |bars| - 1);
  }

  lemma RisingAverage(e: FeatureEngine, bars: seq<Bar>)
    requires e.Valid() && e.emaPeriod >= 2 && Rising(bars) && |bars| >= 2 && FeaturesOf(e, bars).ema200.Some?
    ensures FeaturesOf(e, bars).ema200.value < bars[|bars| - 1].c
  {
    FeaturesAre(e, bars);
    RisingEma(bars, e.emaPeriod, |bars| - 1);
  }

  lemma RisingEma(bars: seq<Bar>, period: int, i: nat)
    requires Rising(bars) && period >= 2 && 0 < i < |bars|
    ensures EmaAt(Closes(bars), period, i) < bars[i].c
  {
    EmaBelowNewest(Closes(bars), period, i);
  }

  lemma RisesThrough(bars: seq<Bar>, i: nat, k: nat)
    requires Rising(bars) && i <= k < |bars|
    ensures bars[i].h <= bars[k].h && bars[i].l <= bars[k].l
    decreases k - i
  {
    if i < k {
      RisesThrough(bars, i, k - 1);
    }
  }

  /** What S07 answers on a series, beside the prices and the ATR it should answer from. */
  datatype Shown = Shown(signal: Option<Output>, atr: Option<real>, newest: Bar, before: Bar)

  function ShownBy(e: FeatureEngine, bars: seq<Bar>): Shown
    requires e.Valid() && |bars| >= 2
  {
    var n := |bars|;
    Shown(SignalOf(e, bars), AtrAt(bars, e.atrPeriod, n - 1), bars[n - 1], bars[n - 2])
  }

  /** A purchase exactly when the newest close passes the high before it with a body larger than one and a half ATR: at
      that close, with the stop one and a half ATR below and the target three above. */
  predicate BuysBreakouts(x: Shown) {
    var c := x.newest.c;
    && x.atr.Some?
    && x.signal == if c > x.before.h && Abs(c - x.newest.o) > 1.5 * x.atr.value
                   then Some(Output(Buy, c, c - 1.5 * x.atr.value, c + 3.0 * x.atr.value, 50.0)) else None
  }

  /** A sale exactly when the newest close falls below the low before it with such a body. */
  predicate SellsBreakouts(x: Shown) {
    var c := x.newest.c;
    && x.atr.Some?
    && x.signal == if c < x.before.l && Abs(c - x.newest.o) > 1.5 * x.atr.value
                   then Some(Output(Sell, c, c + 1.5 * x.atr.value, c - 3.0 * x.atr.value, 50.0)) else None
  }

  /** S07 on a rising market long enough for every indicator buys breakouts, does nothing else, and never sells. */
  lemma RisingBreakoutBuys(e: FeatureEngine, bars: seq<Bar>)
    requires e.Valid() && e.emaPeriod >= 2 && GoodBars(bars) && Rising(bars) && |bars| >= 22
    requires |bars| >= e.emaPeriod && |bars| >= e.atrPeriod + 1 && |bars| >= e.adxPeriod + 2
    ensures BuysBreakouts(ShownBy(e, bars))
  {
    RisingFeatures(e, bars);
    RisingDecision(bars, FeaturesOf(e, bars));
  }

  /** The decision on features that point up. */
  lemma RisingDecision(bars: seq<Bar>, f: FeatureSet)
    requires GoodBars(bars) && Rising(bars) && |bars| >= 22
    requires f.atr.Some? && f.atr.value > 0.0 && f.ema200.Some? && f.ema200.value < bars[|bars| - 1].c
    requires f.diPlus.Some? && f.diMinus.Some? && f.diPlus.value > f.diMinus.value
    ensures BuysBreakouts(Shown(Decide(bars, f).output, f.atr, bars[|bars| - 1], bars[|bars| - 2]))
  {
    var n := |bars|;
    forall j | n - 21 <= j <= n - 2
      ensures bars[j].h <= bars[n - 2].h
    {
      RisesThrough(bars, j, n - 2);
    }
    BuysExactly(bars, f);
    SellsExactly(bars, f);
  }

  /** A price above every high of the series. */
  function Above(bars: seq<Bar>): (k: real)
    ensures forall i :: 0 <= i < |bars| ==> bars[i].h < k
  {
    if bars == [] then 0.0 else MaxReal(Above(bars[..|bars| - 1]), bars[|bars| - 1].h + 1.0)
  }

  function FlipShown(x: Shown, k: real): Shown {
    Shown(FlipSignal(x.signal, k), x.atr, Flip(x.newest, k), Flip(x.before, k))
  }

  lemma ShownReflects(e: FeatureEngine, bars: seq<Bar>, k: real)
    requires e.Valid() && |bars| >= 2
    ensures ShownBy(e, FlipAll(bars, k)) == FlipShown(ShownBy(e, bars), k)
  {
    ShownSignal(e, bars, k);
    ShownPrices(e, bars, k);
  }

  lemma ShownSignal(e: FeatureEngine, bars: seq<Bar>, k: real)
    requires e.Valid() && |bars| >= 2
    ensures ShownBy(e, FlipAll(bars, k)).signal == FlipSignal(ShownBy(e, bars).signal, k)
  {
    SignalReflects(e, bars, k);
  }

  lemma ShownPrices(e: FeatureEngine, bars: seq<Bar>, k: real)
    requires e.Valid() && |bars| >= 2
    ensures var x, x' := ShownBy(e, bars), ShownBy(e, FlipAll(bars, k));
            x'.atr == x.atr && x'.newest == Flip(x.newest, k) && x'.before == Flip(x.before, k)
  {
    AtrReflects(bars, k, e.atrPeriod, |bars| - 1);
  }

  lemma FlipBack(x: Shown, k: real)
    requires BuysBreakouts(FlipShown(x, k))
    ensures SellsBreakouts(x)
  {
  }

  /** S07 on a falling market sells breakouts, does nothing else, and never buys. */
  lemma FallingBreakoutSells(e: FeatureEngine, bars: seq<Bar>)
    requires e.Valid() && e.emaPeriod >= 2 && GoodBars(bars) && Falling(bars) && |bars| >= 22
    requires |bars| >= e.emaPeriod && |bars| >= e.atrPeriod + 1 && |bars| >= e.adxPeriod + 2
    ensures SellsBreakouts(ShownBy(e, bars))
  {
    var k := Above(bars);
    FlippedIsGood(bars, k);
    RisingBreakoutBuys(e, FlipAll(bars, k));
    ShownReflects(e, bars, k);
    FlipBack(ShownBy(e, bars), k);
  }

  lemma FlippedIsGood(bars: seq<Bar>, k: real)
    requires GoodBars(bars) && Falling(bars) && forall i :: 0 <= i < |bars| ==> bars[i].h < k
    ensures GoodBars(FlipAll(bars, k)) && Rising(FlipAll(bars, k))
  {
    forall i | 0 <= i < |bars|
      ensures GoodBar(FlipAll(bars, k)[i])
    {
      assert GoodBar(bars[i]);
    }
  }
}
