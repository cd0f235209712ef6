/** Each indicator from its value at the bar before and the newest prices, without the definitions behind it. */
module IndicatorSteps {
  import opened Outcomes
  import opened Market
  import opened RealFacts
  import opened Features
  import opened IndicatorLaws

  /** An exponential average over `n` moves: two parts of the new value and `n - 1` parts of the old average. */
  predicate Averages(next: real, n: int, x: real, prev: real) {
    (n as real + 1.0) * next == 2.0 * x + (n as real - 1.0) * prev
  }

  /** Wilder's average over `n` moves: one part of the new value and `n - 1` parts of the old average. */
  predicate Smooths(next: real, n: int, x: real, prev: real) {
    n as real * next == x + (n as real - 1.0) * prev
  }

  /** `pct` is `part` in percent of `whole`. */
  predicate IsPercent(pct: real, part: real, whole: real) {
    pct * whole == 100.0 * part
  }

  predicate IsMean(mean: real, n: int, sum: real) {
    mean * n as real == sum
  }

  lemma EmaStep(xs: seq<real>, period: int, i: nat)
    requires period >= 1 && i < |xs|
    ensures EmaAt(xs, period, 0) == xs[0]
    ensures i > 0 ==> Averages(EmaAt(xs, period, i), period, xs[i], EmaAt(xs, period, i - 1))
  {
    if i > 0 {
      var k, w := period as real + 1.0, Weight(period);
      assert k * w == 2.0;
      Regroup(k, w, xs[i], EmaAt(xs, period, i - 1));
    }
  }

  lemma Regroup(k: real, w: real, v: real, prev: real)
    requires k * w == 2.0
    ensures k * Blend(w, v, prev) == 2.0 * v + (k - 2.0) * prev
  {
    Threefold(k, w, v);
    Threefold(k, w, prev);
    assert k * Blend(w, v, prev) == k * (v * w) + k * (prev - prev * w);
    assert k * (prev - prev * w) == k * prev - k * (prev * w);
  }

  lemma Threefold(k: real, w: real, v: real)
    ensures k * (v * w) == (k * w) * v
  {
  }

  lemma WilderStep(xs: seq<real>, period: int, i: nat)
    requires period >= 1 && period - 1 <= i < |xs|
    ensures i >= period ==> Smooths(WilderAt(xs, period, i), period, xs[i], WilderAt(xs, period, i - 1))
    ensures i == period - 1 ==> IsMean(WilderAt(xs, period, i), period, SumOf(xs[..period]))
  {
    if i >= period {
      OnePart(period as real, WilderAt(xs, period, i - 1), xs[i]);
    } else {
      var sum := SumOf(xs[..period]);
      assert sum / period as real * period as real == sum;
    }
  }

  lemma OnePart(n: real, prev: real, x: real)
    requires n >= 1.0
    ensures n * (prev + (x - prev) / n) == x + (n - 1.0) * prev
  {
    var d := (x - prev) / n;
    assert d * n == x - prev;
  }

  /** ATR: Wilder's average of the true ranges (`TrueRangeSpans` says what they are), started with the mean of the
      first `period` of them and missing before. */
  lemma AtrStep(bars: seq<Bar>, period: int, i: nat)
    requires period >= 1 && 0 < i < |bars|
    ensures i < period <==> AtrAt(bars, period, i).None?
    ensures i == period ==> IsMean(AtrAt(bars, period, i).value, period, SumOf(TrueRanges(bars)[..period]))
    ensures i > period ==>
              Smooths(AtrAt(bars, period, i).value, period, TrueRangeAt(bars, i), AtrAt(bars, period, i - 1).value)
  {
    if i >= period {
      WilderStep(TrueRanges(bars), period, i - 1);
    }
  }

  /** What one bar contributes to the two directional averages: in percent of its true range, the larger of the rise of
      the high and the fall of the low, on the side it happened, and nothing on the other. */
  lemma MovementStep(bars: seq<Bar>, i: nat)
    requires GoodBars(bars) && 0 < i < |bars|
    ensures var up, down, tr := bars[i].h - bars[i - 1].h, bars[i - 1].l - bars[i].l, TrueRanges(bars)[i - 1];
            && IsPercent(RawPlus(bars)[i - 1], if up > 0.0 && up > down then up else 0.0, tr)
            && IsPercent(RawMinus(bars)[i - 1], if down > 0.0 && down > up then down else 0.0, tr)
            && (tr == 0.0 ==> RawPlus(bars)[i - 1] == 0.0 && RawMinus(bars)[i - 1] == 0.0)
  {
    assert GoodBar(bars[i]) && GoodBar(bars[i - 1]);
    MoveWithinRange(bars, i);
    ScaledTimes(Movement(bars, i).0, TrueRangeAt(bars, i));
    ScaledTimes(Movement(bars, i).1, TrueRangeAt(bars, i));
  }

  lemma MoveWithinRange(bars: seq<Bar>, i: nat)
    requires 0 < i < |bars| && GoodBar(bars[i]) && GoodBar(bars[i - 1])
    ensures 0.0 <= Movement(bars, i).0 <= TrueRangeAt(bars, i) && 0.0 <= Movement(bars, i).1 <= TrueRangeAt(bars, i)
  {
    var tr := TrueRangeAt(bars, i);
    var (up, down) := Movement(bars, i);
    assert up <= Abs(bars[i].h - bars[i - 1].c) <= tr && down <= Abs(bars[i].l - bars[i - 1].c) <= tr;
  }

  lemma ScaledTimes(move: real, tr: real)
    requires 0.0 <= move <= tr
    ensures IsPercent(Features.Scaled(move, tr), move, tr)
  {
    if tr != 0.0 {
      assert 100.0 * move / tr * tr == 100.0 * move;
    }
  }

  /** DI+ and DI- average those contributions, and ADX the difference of the two in percent of their sum. All three
      start at the second bar. */
  lemma DirectionStep(bars: seq<Bar>, period: int, i: nat)
    requires GoodBars(bars) && period >= 1 && 0 < i < |bars|
    ensures var p, m, dx := DiPlusAt(bars, period, i), DiMinusAt(bars, period, i), DxSeries(bars, period)[i - 1];
            && IsPercent(dx, Abs(p - m), p + m)
            && (i == 1 ==> p == RawPlus(bars)[0] && m == RawMinus(bars)[0] && AdxAt(bars, period, i) == dx)
            && (i > 1 ==>
                  && Averages(p, period, RawPlus(bars)[i - 1], DiPlusAt(bars, period, i - 1))
                  && Averages(m, period, RawMinus(bars)[i - 1], DiMinusAt(bars, period, i - 1))
                  && Averages(AdxAt(bars, period, i), period, dx, AdxAt(bars, period, i - 1)))
  {
    EmaStep(RawPlus(bars), period, i - 1);
    EmaStep(RawMinus(bars), period, i - 1);
    EmaStep(DxSeries(bars, period), period, i - 1);
    DiWithin(bars, period, i);
    IndexTimes(DiPlusAt(bars, period, i), DiMinusAt(bars, period, i));
  }

  lemma IndexTimes(p: real, m: real)
    requires p >= 0.0 && m >= 0.0
    ensures IsPercent(Index(p, m), Abs(p - m), p + m)
  {
    if p + m != 0.0 {
      assert 100.0 * Abs(p - m) / (p + m) * (p + m) == 100.0 * Abs(p - m);
    }
  }
}
