/** The indicators: moving averages, average true range and directional movement, as loops over bars
    proved against recursive definitions, with the range, causality and reflection laws of each. */
module Features {
  import opened Outcomes
  import opened Market
  import opened RealFacts

  // ---------------------------------------------------------------- simple moving average

  function SumOf(xs: seq<real>): real {
    if xs == [] then 0.0 else SumOf(xs[..|xs| - 1]) + xs[|xs| - 1]
  }

  lemma {:induction false} SumSplit(x: real, xs: seq<real>)
    ensures SumOf([x] + xs) == x + SumOf(xs)
  {
    if xs == [] {
      assert [x] + xs == [x] && [x][..0] == [];
    } else {
      assert ([x] + xs)[..|xs|] == [x] + xs[..|xs| - 1];
      SumSplit(x, xs[..|xs| - 1]);
    }
  }

  /** Dropping the oldest value and adding the newest moves the window by one. */
  lemma SlideWindow(xs: seq<real>, i: nat, p: nat)
    requires 0 < p <= i < |xs|
    ensures SumOf(xs[i - p + 1..i + 1]) == SumOf(xs[i - p..i]) + xs[i] - xs[i - p]
  {
    assert xs[i - p..i] == [xs[i - p]] + xs[i - p + 1..i];
    SumSplit(xs[i - p], xs[i - p + 1..i]);
    assert xs[i - p + 1..i + 1][..p - 1] == xs[i - p + 1..i];
  }

  /** The running sum is the mean of the last `period` values; `None` for a period that is refused. */
  method Sma(values: seq<real>, period: int) returns (r: Option<seq<Option<real>>>)
    ensures r.None? <==> period <= 0
    ensures r.Some? ==>
              && |r.value| == |values|
              && forall i :: 0 <= i < |values| ==>
                   r.value[i] == if i < period - 1 then None
                                 else Some(SumOf(values[i - period + 1..i + 1]) / period as real)
  {
    if period <= 0 { return None; }
    var out: seq<Option<real>> := seq(|values|, _ => None);
    if |values| < period { return Some(out); }
    var running := 0.0;
    for i := 0 to period
      invariant running == SumOf(values[..i])
    {
      TakeSnoc(values, i);
      running := running + values[i];
    }
    out := out[period - 1 := Some(running / period as real)];
    for i := period to |values|
      invariant |out| == |values|
      invariant running == SumOf(values[i - period..i])
      invariant forall k :: 0 <= k < i ==>
                  out[k] == if k < period - 1 then None
                            else Some(SumOf(values[k - period + 1..k + 1]) / period as real)
    {
      SlideWindow(values, i, period);
      running := running + (values[i] - values[i - period]);
      out := out[i := Some(running / period as real)];
    }
    r := Some(out);
  }

  // ---------------------------------------------------------------- exponential moving average

  /** The smoothing weight, between 0 and 1. */
  function Weight(period: int): (w: real)
    requires period >= 1
    ensures 0.0 < w <= 1.0
  {
    2.0 / (period as real + 1.0)
  }

  function Blend(w: real, v: real, prev: real): real {
    v * w + prev * (1.0 - w)
  }

  lemma BlendBetween(w: real, v: real, prev: real, lo: real, hi: real)
    requires 0.0 <= w <= 1.0 && lo <= v <= hi && lo <= prev <= hi
    ensures lo <= Blend(w, v, prev) <= hi
  {
    MulNonneg(v - lo, w);
    MulNonneg(prev - lo, 1.0 - w);
    MulNonneg(hi - v, w);
    MulNonneg(hi - prev, 1.0 - w);
    assert Blend(w, v, prev) - lo == (v - lo) * w + (prev - lo) * (1.0 - w);
    assert hi - Blend(w, v, prev) == (hi - v) * w + (hi - prev) * (1.0 - w);
  }

  /** Seeded with the first value, not with a mean. */
  function EmaAt(xs: seq<real>, period: int, i: nat): real
    requires period >= 1 && i < |xs|
  {
    if i == 0 then xs[0] else Blend(Weight(period), xs[i], EmaAt(xs, period, i - 1))
  }

  method Ema(values: seq<real>, period: int) returns (r: Option<seq<real>>)
    ensures r.None? <==> period <= 0
    ensures r.Some? ==>
              |r.value| == |values| && forall i :: 0 <= i < |values| ==> r.value[i] == EmaAt(values, period, i)
  {
    if period <= 0 { return None; }
    if values == [] { return Some([]); }
    var w := Weight(period);
    var out := [values[0]];
    var prev := values[0];
    for i := 1 to |values|
      invariant |out| == i && prev == EmaAt(values, period, i - 1)
      invariant forall k :: 0 <= k < i ==> out[k] == EmaAt(values, period, k)
    {
      prev := values[i] * w + prev * (1.0 - w);
      out := out + [prev];
    }
    r := Some(out);
  }

  /** Each value lies between the smallest and the largest of its prefix. */
  lemma {:induction false} EmaWithinPrefix(xs: seq<real>, period: int, i: nat, lo: real, hi: real)
    requires period >= 1 && i < |xs| && forall k :: 0 <= k <= i ==> lo <= xs[k] <= hi
    ensures lo <= EmaAt(xs, period, i) <= hi
  {
    if i > 0 {
      EmaWithinPrefix(xs, period, i - 1, lo, hi);
      BlendBetween(Weight(period), xs[i], EmaAt(xs, period, i - 1), lo, hi);
    }
  }

  /** The value at `i` depends on the first `i + 1` inputs only. */
  lemma {:induction false} EmaCausal(xs: seq<real>, ys: seq<real>, period: int, i: nat)
    requires period >= 1 && i < |xs| && i < |ys| && forall k :: 0 <= k <= i ==> xs[k] == ys[k]
    ensures EmaAt(xs, period, i) == EmaAt(ys, period, i)
  {
    if i > 0 {
      EmaCausal(xs, ys, period, i - 1);
    }
  }

  lemma {:induction false} EmaReflects(xs: seq<real>, ys: seq<real>, period: int, i: nat, k: real)
    requires period >= 1 && i < |xs| == |ys| && forall j :: 0 <= j < |xs| ==> ys[j] == k - xs[j]
    ensures EmaAt(ys, period, i) == k - EmaAt(xs, period, i)
  {
    if i > 0 {
      EmaReflects(xs, ys, period, i - 1, k);
      var w, a, b := Weight(period), xs[i], EmaAt(xs, period, i - 1);
      assert (k - a) * w + (k - b) * (1.0 - w) == k - (a * w + b * (1.0 - w));
    }
  }

  lemma {:induction false} EmaAdds(xs: seq<real>, ys: seq<real>, zs: seq<real>, period: int, i: nat)
    requires period >= 1 && i < |xs| == |ys| == |zs| && forall j :: 0 <= j < |xs| ==> zs[j] == xs[j] + ys[j]
    ensures EmaAt(zs, period, i) == EmaAt(xs, period, i) + EmaAt(ys, period, i)
  {
    if i > 0 {
      EmaAdds(xs, ys, zs, period, i - 1);
      var w, a, b, c, d := Weight(period), xs[i], ys[i], EmaAt(xs, period, i - 1), EmaAt(ys, period, i - 1);
      assert (a + b) * w + (c + d) * (1.0 - w) == (a * w + c * (1.0 - w)) + (b * w + d * (1.0 - w));
    }
  }

  /** The values that are there. */
  function Present(values: seq<Option<real>>): seq<real> {
    if values == [] then []
    else
      var init := Present(values[..|values| - 1]);
      if values[|values| - 1].Some? then init + [values[|values| - 1].value] else init
  }

  /** The average of the values present so far. */
  function Average(values: seq<Option<real>>, period: int): Option<real>
    requires period >= 1
  {
    var xs := Present(values);
    if xs == [] then None else Some(EmaAt(xs, period, |xs| - 1))
  }

  lemma AverageStep(values: seq<Option<real>>, period: int, i: nat)
    requires period >= 1 && i < |values|
    ensures var before, after := Average(values[..i], period), Average(values[..i + 1], period);
            after == if values[i].None? then before
                     else if before.None? then values[i]
                     else Some(Blend(Weight(period), values[i].value, before.value))
  {
    TakeSnoc(values, i);
    var xs := Present(values[..i]);
    if values[i].Some? && xs != [] {
      EmaCausal(xs, xs + [values[i].value], period, |xs| - 1);
    }
  }

  /** A buffer that may hold missing values, wherever they are: they stay missing, and the present values are
      averaged as if the missing ones were not there. */
  method EmaOnBuffer(values: seq<Option<real>>, period: int) returns (out: seq<Option<real>>)
    requires period >= 1
    ensures |out| == |values|
    ensures forall i :: 0 <= i < |values| ==>
              out[i] == if values[i].None? then None else Average(values[..i + 1], period)
  {
    var w := Weight(period);
    out := [];
    var prev: Option<real> := None;
    for i := 0 to |values|
      invariant |out| == i && prev == Average(values[..i], period)
      invariant forall k :: 0 <= k < i ==> out[k] == if values[k].None? then None else Average(values[..k + 1], period)
    {
      AverageStep(values, period, i);
      if values[i].None? {
        out := out + [None];
      } else {
        var v := values[i].value;
        if prev.None? {
          prev := Some(v);
        } else {
          prev := Some(Blend(w, v, prev.value));
        }
        out := out + [prev];
      }
    }
  }

  // ---------------------------------------------------------------- true range and its average

  /** The true range of bar `i`, defined from the second bar on. */
  function TrueRangeAt(bars: seq<Bar>, i: nat): (tr: real)
    requires 0 < i < |bars|
    ensures tr >= 0.0 && tr >= Abs(bars[i].h - bars[i].l)
    ensures tr >= Abs(bars[i].h - bars[i - 1].c) && tr >= Abs(bars[i].l - bars[i - 1].c)
  {
    var pc := bars[i - 1].c;
    MaxReal(MaxReal(Abs(bars[i].h - bars[i].l), Abs(bars[i].h - pc)), Abs(bars[i].l - pc))
  }

  /** The true ranges of the bars from the second on. */
  function TrueRanges(bars: seq<Bar>): (r: seq<real>)
    requires |bars| >= 1
    ensures |r| == |bars| - 1
  {
    seq(|bars| - 1, i requires 0 <= i < |bars| - 1 => TrueRangeAt(bars, i + 1))
  }

  /** One step of Wilder's smoothing. */
  function Smoothed(prev: real, x: real, period: int): real
    requires period >= 1
  {
    prev + (x - prev) / period as real
  }

  /** Wilder's smoothing, seeded with the mean of the first `period` values. */
  function WilderAt(xs: seq<real>, period: int, i: nat): real
    requires period >= 1 && period - 1 <= i < |xs|
  {
    if i == period - 1 then SumOf(xs[..period]) / period as real
    else
      var prev := WilderAt(xs, period, i - 1);
      Smoothed(prev, xs[i], period)
  }

  function AtrAt(bars: seq<Bar>, period: int, i: nat): Option<real>
    requires period >= 1 && i < |bars|
  {
    if i < period then None else Some(WilderAt(TrueRanges(bars), period, i - 1))
  }

  method Atr(bars: seq<Bar>, period: int) returns (r: Option<seq<Option<real>>>)
    ensures r.None? <==> period <= 0
    ensures r.Some? ==> |r.value| == |bars| && forall i :: 0 <= i < |bars| ==> r.value[i] == AtrAt(bars, period, i)
  {
    if period <= 0 { return None; }
    var out: seq<Option<real>> := seq(|bars|, _ => None);
    if |bars| < period + 1 { return Some(out); }
    ghost var trs := TrueRanges(bars);
    var total := FirstRanges(bars, period);
    var prev := total / period as real;
    out := out[period := Some(prev)];
    for i := period + 1 to |bars|
      invariant prev == WilderAt(trs, period, i - 2)
      invariant FilledTo(out, bars, period, i)
    {
      WilderNext(bars, period, i);
      prev := Smoothed(prev, TrueRangeAt(bars, i), period);
      out := out[i := Some(prev)];
    }
    r := Some(out);
  }

  lemma WilderNext(bars: seq<Bar>, period: int, i: nat)
    requires period >= 1 && period < i < |bars|
    ensures var trs := TrueRanges(bars);
            var prev := WilderAt(trs, period, i - 2);
            WilderAt(trs, period, i - 1) == Smoothed(prev, TrueRangeAt(bars, i), period)
  {
  }

  /** The values before bar `i` are in place and the others are still missing. */
  predicate FilledTo(out: seq<Option<real>>, bars: seq<Bar>, period: int, i: int)
    requires period >= 1
  {
    |out| == |bars| && forall k :: 0 <= k < |bars| ==> out[k] == if k < i then AtrAt(bars, period, k) else None
  }

  method FirstRanges(bars: seq<Bar>, period: int) returns (total: real)
    requires period >= 1 && |bars| >= period + 1
    ensures total == SumOf(TrueRanges(bars)[..period])
  {
    ghost var trs := TrueRanges(bars);
    total := 0.0;
    for i := 1 to period + 1
      invariant total == SumOf(trs[..i - 1])
    {
      TakeSnoc(trs, i - 1);
      total := total + TrueRangeAt(bars, i);
    }
  }

  lemma {:induction false} SumWithin(xs: seq<real>, lo: real, hi: real)
    requires forall k :: 0 <= k < |xs| ==> lo <= xs[k] <= hi
    ensures lo * |xs| as real <= SumOf(xs) <= hi * |xs| as real
  {
    if xs != [] {
      SumWithin(xs[..|xs| - 1], lo, hi);
      OneMore(lo, |xs|);
      OneMore(hi, |xs|);
    }
  }

  lemma WilderBetween(prev: real, x: real, period: int, lo: real, hi: real)
    requires period >= 1 && lo <= prev <= hi && lo <= x <= hi
    ensures lo <= prev + (x - prev) / period as real <= hi
  {
    var n := period as real;
    var w := 1.0 / n;
    QuotientWithin(1.0, n, 0.0, 1.0);
    DivAsMul(x - prev, n);
    assert prev + (x - prev) * w == Blend(w, x, prev);
    BlendBetween(w, x, prev, lo, hi);
  }

  /** Every smoothed value lies between the smallest and the largest value so far. */
  lemma {:induction false} WilderWithinPrefix(xs: seq<real>, period: int, i: nat, lo: real, hi: real)
    requires period >= 1 && period - 1 <= i < |xs| && forall k :: 0 <= k <= i ==> lo <= xs[k] <= hi
    ensures lo <= WilderAt(xs, period, i) <= hi
  {
    if i == period - 1 {
      SumWithin(xs[..period], lo, hi);
      QuotientWithin(SumOf(xs[..period]), period as real, lo, hi);
    } else {
      WilderWithinPrefix(xs, period, i - 1, lo, hi);
      WilderBetween(WilderAt(xs, period, i - 1), xs[i], period, lo, hi);
    }
  }

  lemma {:induction false} WilderCausal(xs: seq<real>, ys: seq<real>, period: int, i: nat)
    requires period >= 1 && period - 1 <= i < |xs| && i < |ys| && forall k :: 0 <= k <= i ==> xs[k] == ys[k]
    ensures WilderAt(xs, period, i) == WilderAt(ys, period, i)
  {
    if i == period - 1 {
      assert xs[..period] == ys[..period];
    } else {
      WilderCausal(xs, ys, period, i - 1);
    }
  }

  // ---------------------------------------------------------------- directional movement

  /** The upward and downward movement of bar `i`; the smaller one is zeroed, and both when equal. */
  function Movement(bars: seq<Bar>, i: nat): (real, real)
    requires 0 < i < |bars|
  {
    var up := MaxReal(bars[i].h - bars[i - 1].h, 0.0);
    var down := MaxReal(bars[i - 1].l - bars[i].l, 0.0);
    if up > down then (up, 0.0) else if down > up then (0.0, down) else (0.0, 0.0)
  }

  function Scaled(move: real, tr: real): real {
    if tr == 0.0 then 0.0 else 100.0 * move / tr
  }

  /** The per-bar directional values of the bars from the second on. */
  function RawPlus(bars: seq<Bar>): (r: seq<real>)
    requires |bars| >= 1
    ensures |r| == |bars| - 1
  {
    seq(|bars| - 1, i requires 0 <= i < |bars| - 1 => Scaled(Movement(bars, i + 1).0, TrueRangeAt(bars, i + 1)))
  }

  function RawMinus(bars: seq<Bar>): (r: seq<real>)
    requires |bars| >= 1
    ensures |r| == |bars| - 1
  {
    seq(|bars| - 1, i requires 0 <= i < |bars| - 1 => Scaled(Movement(bars, i + 1).1, TrueRangeAt(bars, i + 1)))
  }

  function DiPlusAt(bars: seq<Bar>, period: int, i: nat): real
    requires period >= 1 && 0 < i < |bars|
  {
    EmaAt(RawPlus(bars), period, i - 1)
  }

  function DiMinusAt(bars: seq<Bar>, period: int, i: nat): real
    requires period >= 1 && 0 < i < |bars|
  {
    EmaAt(RawMinus(bars), period, i - 1)
  }

  function Index(p: real, m: real): real {
    if p + m == 0.0 then 0.0 else 100.0 * Abs(p - m) / (p + m)
  }

  function DxSeries(bars: seq<Bar>, period: int): (r: seq<real>)
    requires period >= 1 && |bars| >= 1
    ensures |r| == |bars| - 1
  {
    seq(|bars| - 1, i requires 0 <= i < |bars| - 1 =>
        Index(DiPlusAt(bars, period, i + 1), DiMinusAt(bars, period, i + 1)))
  }

  function AdxAt(bars: seq<Bar>, period: int, i: nat): real
    requires period >= 1 && 0 < i < |bars|
  {
    EmaAt(DxSeries(bars, period), period, i - 1)
  }

  datatype AdxResult = AdxResult(adx: seq<Option<real>>, diPlus: seq<Option<real>>, diMinus: seq<Option<real>>)

  method Adx(bars: seq<Bar>, period: int) returns (r: Option<AdxResult>)
    ensures r.None? <==> period <= 0
    ensures r.Some? ==>
              && |r.value.adx| == |r.value.diPlus| == |r.value.diMinus| == |bars|
              && forall i :: 0 <= i < |bars| ==>
                   && r.value.diPlus[i] == (if i == 0 then None else Some(DiPlusAt(bars, period, i)))
                   && r.value.diMinus[i] == (if i == 0 then None else Some(DiMinusAt(bars, period, i)))
                   && r.value.adx[i] == (if i == 0 then None else Some(AdxAt(bars, period, i)))
  {
    if period <= 0 { return None; }
    if |bars| < 2 {
      var none: seq<Option<real>> := seq(|bars|, _ => None);
      return Some(AdxResult(none, none, none));
    }
    var rawP, rawN := RawMovements(bars);
    var diP := EmaOnBuffer(rawP, period);
    var diN := EmaOnBuffer(rawN, period);
    BufferOfRest(rawP, RawPlus(bars), period, diP);
    BufferOfRest(rawN, RawMinus(bars), period, diN);
    var dx := DirectionalIndex(bars, period, diP, diN);
    var adx := EmaOnBuffer(dx, period);
    BufferOfRest(dx, DxSeries(bars, period), period, adx);
    r := Some(AdxResult(adx, diP, diN));
  }

  /** A missing first value, then `xs`. */
  ghost predicate Holds(values: seq<Option<real>>, xs: seq<real>) {
    |values| == |xs| + 1 && values[0] == None && forall k :: 1 <= k < |values| ==> values[k] == Some(xs[k - 1])
  }

  /** The movement loop of the indicator: clamp at zero, zero the smaller, divide by the true range. */
  method RawMovements(bars: seq<Bar>) returns (rawP: seq<Option<real>>, rawN: seq<Option<real>>)
    requires |bars| >= 2
    ensures Holds(rawP, RawPlus(bars)) && Holds(rawN, RawMinus(bars))
  {
    rawP, rawN := [None], [None];
    for i := 1 to |bars|
      invariant |rawP| == |rawN| == i && rawP[0] == None && rawN[0] == None
      invariant forall k :: 1 <= k < i ==>
                  rawP[k] == Some(RawPlus(bars)[k - 1]) && rawN[k] == Some(RawMinus(bars)[k - 1])
    {
      var tmpP := bars[i].h - bars[i - 1].h;
      var tmpN := bars[i - 1].l - bars[i].l;
      if tmpP < 0.0 { tmpP := 0.0; }
      if tmpN < 0.0 { tmpN := 0.0; }
      if tmpP > tmpN {
        tmpN := 0.0;
      } else if tmpN > tmpP {
        tmpP := 0.0;
      } else {
        tmpP, tmpN := 0.0, 0.0;
      }
      assert (tmpP, tmpN) == Movement(bars, i);
      var tr := TrueRangeAt(bars, i);
      if tr != 0.0 {
        rawP, rawN := rawP + [Some(100.0 * tmpP / tr)], rawN + [Some(100.0 * tmpN / tr)];
      } else {
        rawP, rawN := rawP + [Some(0.0)], rawN + [Some(0.0)];
      }
    }
  }

  method DirectionalIndex(bars: seq<Bar>, period: int, diP: seq<Option<real>>, diN: seq<Option<real>>)
    returns (dx: seq<Option<real>>)
    requires period >= 1 && |bars| == |diP| == |diN| >= 2 && diP[0] == None
    requires forall i :: 1 <= i < |bars| ==>
               diP[i] == Some(DiPlusAt(bars, period, i)) && diN[i] == Some(DiMinusAt(bars, period, i))
    ensures Holds(dx, DxSeries(bars, period))
  {
    dx := [];
    for i := 0 to |bars|
      invariant |dx| == i && (i > 0 ==> dx[0] == None)
      invariant forall k :: 1 <= k < i ==> dx[k] == Some(DxSeries(bars, period)[k - 1])
    {
      if diP[i].None? || diN[i].None? {
        dx := dx + [None];
      } else {
        var p, m := diP[i].value, diN[i].value;
        dx := dx + [Some(if p + m != 0.0 then 100.0 * Abs(p - m) / (p + m) else 0.0)];
      }
    }
  }

  /** A buffer whose first value only is missing is averaged like the series of its other values. */
  lemma BufferOfRest(values: seq<Option<real>>, xs: seq<real>, period: int, out: seq<Option<real>>)
    requires period >= 1 && Holds(values, xs) && |out| == |values|
    requires forall i :: 0 <= i < |values| ==>
               out[i] == if values[i].None? then None else Average(values[..i + 1], period)
    ensures out[0] == None && forall i :: 1 <= i < |out| ==> out[i] == Some(EmaAt(xs, period, i - 1))
  {
    forall i | 1 <= i < |out|
      ensures out[i] == Some(EmaAt(xs, period, i - 1))
    {
      PresentPrefix(values, xs, i + 1);
      EmaCausal(xs[..i], xs, period, i - 1);
    }
  }

  lemma {:induction false} PresentPrefix(values: seq<Option<real>>, xs: seq<real>, n: nat)
    requires Holds(values, xs) && 1 <= n <= |values|
    ensures Present(values[..n]) == xs[..n - 1]
  {
    TakeSnoc(values, n - 1);
    if n == 1 {
      assert values[..0] == [];
    } else {
      PresentPrefix(values, xs, n - 1);
      assert xs[..n - 1] == xs[..n - 2] + [xs[n - 2]];
    }
  }
}
