/** What the indicators guarantee on a valid series: their ranges, that the value at a bar depends on the
    bars up to it only, and how they answer when every price is reflected. */
module IndicatorLaws {
  import opened Outcomes
  import opened Market
  import opened RealFacts
  import opened Features

  // ---------------------------------------------------------------- ranges

  ghost predicate GoodBars(bars: seq<Bar>) {
    forall i :: 0 <= i < |bars| ==> GoodBar(bars[i])
  }

  lemma ScaledWithin(move: real, tr: real)
    requires 0.0 <= move <= tr
    ensures 0.0 <= Scaled(move, tr) <= 100.0
  {
    if tr != 0.0 {
      QuotientWithin(100.0 * move, tr, 0.0, 100.0);
    }
  }

  /** No bar moves further than its true range, and it moves in one direction only. */
  lemma RawWithin(bars: seq<Bar>, i: nat)
    requires GoodBars(bars) && 0 < i < |bars|
    ensures var p, m := RawPlus(bars)[i - 1], RawMinus(bars)[i - 1];
            0.0 <= p && 0.0 <= m && p + m <= 100.0
  {
    assert GoodBar(bars[i]) && GoodBar(bars[i - 1]);
    var tr := TrueRangeAt(bars, i);
    var (up, down) := Movement(bars, i);
    assert up <= Abs(bars[i].h - bars[i - 1].c) <= tr;
    assert down <= Abs(bars[i].l - bars[i - 1].c) <= tr;
    ScaledWithin(up, tr);
    ScaledWithin(down, tr);
  }

  function Sums(xs: seq<real>, ys: seq<real>): (r: seq<real>)
    requires |xs| == |ys|
    ensures |r| == |xs| && forall j :: 0 <= j < |r| ==> r[j] == xs[j] + ys[j]
  {
    seq(|xs|, j requires 0 <= j < |xs| => xs[j] + ys[j])
  }

  /** Averages of two series that are never negative and never more than `hi` together. */
  lemma AveragesWithin(xs: seq<real>, ys: seq<real>, period: int, i: nat, hi: real)
    requires period >= 1 && i < |xs| == |ys|
    requires forall j :: 0 <= j < |xs| ==> 0.0 <= xs[j] && 0.0 <= ys[j] && xs[j] + ys[j] <= hi
    ensures 0.0 <= EmaAt(xs, period, i) && 0.0 <= EmaAt(ys, period, i)
    ensures EmaAt(xs, period, i) + EmaAt(ys, period, i) <= hi
  {
    EmaWithinPrefix(xs, period, i, 0.0, hi);
    EmaWithinPrefix(ys, period, i, 0.0, hi);
    EmaWithinPrefix(Sums(xs, ys), period, i, 0.0, hi);
    EmaAdds(xs, ys, Sums(xs, ys), period, i);
  }

  /** DI+ and DI- are never negative and never more than 100 together. */
  lemma DiWithin(bars: seq<Bar>, period: int, i: nat)
    requires GoodBars(bars) && period >= 1 && 0 < i < |bars|
    ensures var p, m := DiPlusAt(bars, period, i), DiMinusAt(bars, period, i);
            0.0 <= p <= 100.0 && 0.0 <= m <= 100.0 && p + m <= 100.0
  {
    var ps, ms := RawPlus(bars), RawMinus(bars);
    forall j | 0 <= j < |ps|
      ensures 0.0 <= ps[j] && 0.0 <= ms[j] && ps[j] + ms[j] <= 100.0
    {
      RawWithin(bars, j + 1);
    }
    AveragesWithin(ps, ms, period, i - 1, 100.0);
  }

  lemma IndexWithin(p: real, m: real)
    requires 0.0 <= p && 0.0 <= m
    ensures 0.0 <= Index(p, m) <= 100.0
  {
    if p + m != 0.0 {
      QuotientWithin(100.0 * Abs(p - m), p + m, 0.0, 100.0);
    }
  }

  /** ADX lies between 0 and 100. */
  lemma AdxWithin(bars: seq<Bar>, period: int, i: nat)
    requires GoodBars(bars) && period >= 1 && 0 < i < |bars|
    ensures 0.0 <= AdxAt(bars, period, i) <= 100.0
  {
    var dx := DxSeries(bars, period);
    forall j | 0 <= j < |dx|
      ensures 0.0 <= dx[j] <= 100.0
    {
      DiWithin(bars, period, j + 1);
      IndexWithin(DiPlusAt(bars, period, j + 1), DiMinusAt(bars, period, j + 1));
    }
    EmaWithinPrefix(dx, period, i - 1, 0.0, 100.0);
  }

  /** On any bars the true range is the greatest of three distances: it bounds them all and is one of them. */
  lemma TrueRangeIsGreatest(bars: seq<Bar>, i: nat)
    requires 0 < i < |bars|
    ensures var b, pc, tr := bars[i], bars[i - 1].c, TrueRangeAt(bars, i);
            && tr >= Abs(b.h - b.l) && tr >= Abs(b.h - pc) && tr >= Abs(b.l - pc)
            && (tr == Abs(b.h - b.l) || tr == Abs(b.h - pc) || tr == Abs(b.l - pc))
  {
  }

  /** On a sound series the true range is the distance between the highest and the lowest of the bar's prices and the
      close before it. */
  lemma TrueRangeSpans(bars: seq<Bar>, i: nat)
    requires GoodBars(bars) && 0 < i < |bars|
    ensures var b, pc := bars[i], bars[i - 1].c;
            TrueRangeAt(bars, i) == (if b.h < pc then pc else b.h) - (if pc < b.l then pc else b.l)
  {
    assert GoodBar(bars[i]);
  }

  /** ATR lies between the least and the greatest such span so far. */
  lemma AtrWithin(bars: seq<Bar>, period: int, i: nat, lo: real, hi: real)
    requires GoodBars(bars) && period >= 1 && period <= i < |bars|
    requires forall k :: 1 <= k <= i ==>
               var b, pc := bars[k], bars[k - 1].c;
               lo <= (if b.h < pc then pc else b.h) - (if pc < b.l then pc else b.l) <= hi
    ensures lo <= AtrAt(bars, period, i).value <= hi
  {
    var trs := TrueRanges(bars);
    forall k | 0 <= k <= i - 1
      ensures lo <= trs[k] <= hi
    {
      TrueRangeSpans(bars, k + 1);
    }
    WilderWithinPrefix(trs, period, i - 1, lo, hi);
  }

  /** So ATR is never negative and never more than the whole price range of the bars so far. */
  lemma AtrWithinPrices(bars: seq<Bar>, period: int, i: nat, low: real, high: real)
    requires GoodBars(bars) && period >= 1 && period <= i < |bars|
    requires forall k :: 0 <= k <= i ==> low <= bars[k].l && bars[k].h <= high
    ensures 0.0 <= AtrAt(bars, period, i).value <= high - low
  {
    forall k | 1 <= k <= i
      ensures var b, pc := bars[k], bars[k - 1].c;
              0.0 <= (if b.h < pc then pc else b.h) - (if pc < b.l then pc else b.l) <= high - low
    {
      assert GoodBar(bars[k]) && GoodBar(bars[k - 1]);
    }
    AtrWithin(bars, period, i, 0.0, high - low);
  }

  // ---------------------------------------------------------------- causality

  ghost predicate AgreeTo(bars: seq<Bar>, bars': seq<Bar>, i: nat) {
    0 < i < |bars| && i < |bars'| && bars[..i + 1] == bars'[..i + 1]
  }

  lemma RawsAgree(bars: seq<Bar>, bars': seq<Bar>, i: nat)
    requires AgreeTo(bars, bars', i)
    ensures forall k :: 0 <= k < i ==> TrueRanges(bars)[k] == TrueRanges(bars')[k]
    ensures forall k :: 0 <= k < i ==> RawPlus(bars)[k] == RawPlus(bars')[k]
    ensures forall k :: 0 <= k < i ==> RawMinus(bars)[k] == RawMinus(bars')[k]
  {
    assert forall k :: 0 <= k <= i ==> bars[k] == bars[..i + 1][k] && bars'[k] == bars'[..i + 1][k];
  }

  lemma AtrCausal(bars: seq<Bar>, bars': seq<Bar>, period: int, i: nat)
    requires period >= 1 && AgreeTo(bars, bars', i)
    ensures AtrAt(bars, period, i) == AtrAt(bars', period, i)
  {
    RawsAgree(bars, bars', i);
    if i >= period {
      WilderCausal(TrueRanges(bars), TrueRanges(bars'), period, i - 1);
    }
  }

  lemma DiCausal(bars: seq<Bar>, bars': seq<Bar>, period: int, i: nat)
    requires period >= 1 && AgreeTo(bars, bars', i)
    ensures forall k :: 1 <= k <= i ==> DiPlusAt(bars, period, k) == DiPlusAt(bars', period, k)
    ensures forall k :: 1 <= k <= i ==> DiMinusAt(bars, period, k) == DiMinusAt(bars', period, k)
  {
    RawsAgree(bars, bars', i);
    forall k | 1 <= k <= i
      ensures DiPlusAt(bars, period, k) == DiPlusAt(bars', period, k)
      ensures DiMinusAt(bars, period, k) == DiMinusAt(bars', period, k)
    {
      EmaCausal(RawPlus(bars), RawPlus(bars'), period, k - 1);
      EmaCausal(RawMinus(bars), RawMinus(bars'), period, k - 1);
    }
  }

  /** Two series that agree on their first `i + 1` bars have the same indicators at bar `i`. */
  lemma IndicatorsAreCausal(bars: seq<Bar>, bars': seq<Bar>, period: int, i: nat)
    requires period >= 1 && AgreeTo(bars, bars', i)
    ensures AtrAt(bars, period, i) == AtrAt(bars', period, i)
    ensures DiPlusAt(bars, period, i) == DiPlusAt(bars', period, i)
    ensures DiMinusAt(bars, period, i) == DiMinusAt(bars', period, i)
    ensures AdxAt(bars, period, i) == AdxAt(bars', period, i)
  {
    AtrCausal(bars, bars', period, i);
    DiCausal(bars, bars', period, i);
    EmaCausal(DxSeries(bars, period), DxSeries(bars', period), period, i - 1);
  }

  // ---------------------------------------------------------------- reflection

  lemma RawsReflect(bars: seq<Bar>, k: real)
    requires |bars| >= 1
    ensures TrueRanges(FlipAll(bars, k)) == TrueRanges(bars)
    ensures RawPlus(FlipAll(bars, k)) == RawMinus(bars)
    ensures RawMinus(FlipAll(bars, k)) == RawPlus(bars)
  {
    var flipped := FlipAll(bars, k);
    forall i | 0 < i < |bars|
      ensures TrueRangeAt(flipped, i) == TrueRangeAt(bars, i)
      ensures Movement(flipped, i).0 == Movement(bars, i).1 && Movement(flipped, i).1 == Movement(bars, i).0
    {
      assert flipped[i] == Flip(bars[i], k) && flipped[i - 1] == Flip(bars[i - 1], k);
    }
  }

  lemma AtrReflects(bars: seq<Bar>, k: real, period: int, i: nat)
    requires period >= 1 && i < |bars|
    ensures AtrAt(FlipAll(bars, k), period, i) == AtrAt(bars, period, i)
  {
    RawsReflect(bars, k);
  }

  lemma DiReflects(bars: seq<Bar>, k: real, period: int, i: nat)
    requires period >= 1 && 0 < i < |bars|
    ensures DiPlusAt(FlipAll(bars, k), period, i) == DiMinusAt(bars, period, i)
    ensures DiMinusAt(FlipAll(bars, k), period, i) == DiPlusAt(bars, period, i)
  {
    RawsReflect(bars, k);
  }

  lemma AdxReflects(bars: seq<Bar>, k: real, period: int, i: nat)
    requires period >= 1 && 0 < i < |bars|
    ensures AdxAt(FlipAll(bars, k), period, i) == AdxAt(bars, period, i)
  {
    var flipped := FlipAll(bars, k);
    forall j | 0 <= j < |bars| - 1
      ensures DxSeries(flipped, period)[j] == DxSeries(bars, period)[j]
    {
      DiReflects(bars, k, period, j + 1);
      IndexSymmetric(DiPlusAt(bars, period, j + 1), DiMinusAt(bars, period, j + 1));
    }
    assert DxSeries(flipped, period) == DxSeries(bars, period);
  }

  /** Reflection swaps DI+ with DI- and keeps ATR and ADX. */
  lemma IndicatorsReflect(bars: seq<Bar>, k: real, period: int, i: nat)
    requires period >= 1 && 0 < i < |bars|
    ensures var flipped := FlipAll(bars, k);
            && AtrAt(flipped, period, i) == AtrAt(bars, period, i)
            && DiPlusAt(flipped, period, i) == DiMinusAt(bars, period, i)
            && DiMinusAt(flipped, period, i) == DiPlusAt(bars, period, i)
            && AdxAt(flipped, period, i) == AdxAt(bars, period, i)
  {
    AtrReflects(bars, k, period, i);
    DiReflects(bars, k, period, i);
    AdxReflects(bars, k, period, i);
  }

  lemma IndexSymmetric(p: real, m: real)
    ensures Index(p, m) == Index(m, p)
  {
    assert Abs(p - m) == Abs(m - p) && p + m == m + p;
  }

  // ---------------------------------------------------------------- the feature set

  datatype FeatureSet = FeatureSet(ema200: Option<real>, atr: Option<real>, atrPrev: Option<real>, adx: Option<real>,
                                   diPlus: Option<real>, diMinus: Option<real>, barsUsed: nat)

  datatype FeatureEngine = FeatureEngine(emaPeriod: int, atrPeriod: int, adxPeriod: int) {
    predicate Valid() {
      emaPeriod >= 1 && atrPeriod >= 1 && adxPeriod >= 1
    }

    function MinBars(): int {
      MaxInt(emaPeriod, MaxInt(atrPeriod + 1, adxPeriod + 2))
    }
  }

  function MaxInt(a: int, b: int): int {
    if a < b then b else a
  }

  function Closes(bars: seq<Bar>): (r: seq<real>)
    ensures |r| == |bars| && forall i :: 0 <= i < |bars| ==> r[i] == bars[i].c
  {
    seq(|bars|, i requires 0 <= i < |bars| => bars[i].c)
  }

  /** The indicators at the newest bar; none at all below the minimum length. */
  function FeaturesOf(e: FeatureEngine, bars: seq<Bar>): FeatureSet
    requires e.Valid()
  {
    var n := |bars|;
    if n < e.MinBars() then FeatureSet(None, None, None, None, None, None, n)
    else
      FeatureSet(
        Some(EmaAt(Closes(bars), e.emaPeriod, n - 1)),
        AtrAt(bars, e.atrPeriod, n - 1),
        AtrAt(bars, e.atrPeriod, n - 2),
        Some(AdxAt(bars, e.adxPeriod, n - 1)),
        Some(DiPlusAt(bars, e.adxPeriod, n - 1)),
        Some(DiMinusAt(bars, e.adxPeriod, n - 1)),
        n)
  }

  method Compute(e: FeatureEngine, bars: seq<Bar>) returns (f: FeatureSet)
    requires e.Valid()
    ensures f == FeaturesOf(e, bars)
  {
    var n := |bars|;
    if n < e.MinBars() {
      return FeatureSet(None, None, None, None, None, None, n);
    }
    var emaSeries := Ema(Closes(bars), e.emaPeriod);
    var atrSeries := Atr(bars, e.atrPeriod);
    var adx := Adx(bars, e.adxPeriod);
    f := FeatureSet(Some(emaSeries.value[n - 1]), atrSeries.value[n - 1], atrSeries.value[n - 2],
                    adx.value.adx[n - 1], adx.value.diPlus[n - 1], adx.value.diMinus[n - 1], n);
  }

  /** The feature set of the reflected series. */
  function FlipFeatures(f: FeatureSet, k: real): FeatureSet {
    f.(ema200 := if f.ema200.Some? then Some(k - f.ema200.value) else None, diPlus := f.diMinus, diMinus := f.diPlus)
  }

  lemma ClosesReflect(e: FeatureEngine, bars: seq<Bar>, k: real)
    requires e.Valid() && bars != []
    ensures var last := |bars| - 1;
            EmaAt(Closes(FlipAll(bars, k)), e.emaPeriod, last) == k - EmaAt(Closes(bars), e.emaPeriod, last)
  {
    EmaReflects(Closes(bars), Closes(FlipAll(bars, k)), e.emaPeriod, |bars| - 1, k);
  }

  lemma FeaturesReflect(e: FeatureEngine, bars: seq<Bar>, k: real)
    requires e.Valid()
    ensures FeaturesOf(e, FlipAll(bars, k)) == FlipFeatures(FeaturesOf(e, bars), k)
  {
    var n := |bars|;
    if n >= e.MinBars() {
      ClosesReflect(e, bars, k);
      AtrReflects(bars, k, e.atrPeriod, n - 1);
      AtrReflects(bars, k, e.atrPeriod, n - 2);
      IndicatorsReflect(bars, k, e.adxPeriod, n - 1);
    }
  }
}
