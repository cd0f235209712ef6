/** The score of a signal: candle, wick and volume terms, accumulated under a floor and a cap. */
module Scoring {
  import opened Outcomes
  import opened Market
  import opened RealFacts

  const SCORE_BONUS_CAP := 30.0
  const SCORE_BONUS_FLOOR := -50.0
  const VOLUME_LOOKBACK: nat := 20

  function Clamp(v: real, lo: real, hi: real): real {
    if v < lo then lo else if v > hi then hi else v
  }

  /** Class 2 is momentum and breakout, the only class the wick term applies to. */
  function StrategyClass(index: int): int {
    var n := index + 1;
    if n in {1, 2, 6} then 0 else if n in {3, 5, 9} then 1 else if n in {7, 10, 13} then 2 else 3
  }

  function CandleQualityPenalty(b: Bar, d: Direction): (p: real)
    ensures -10.0 <= p <= 0.0
  {
    var range := b.h - b.l;
    if range <= 0.0 then -10.0
    else
      var ratio := Abs(b.c - b.o) / range;
      var body := if ratio < 0.30 then -8.0 else if ratio < 0.50 then -4.0 else 0.0;
      var against := if d.Buy? && b.c < b.o && ratio > 0.6 then -4.0
                     else if d.Sell? && b.c > b.o && ratio > 0.6 then -4.0 else 0.0;
      MaxReal(body + against, -10.0)
  }

  function WickPenalty(b: Bar, d: Direction): (p: real)
    ensures p == -5.0 || p == -4.0 || p == 0.0
  {
    var body := Abs(b.c - b.o);
    if body <= 0.0 then -4.0
    else
      var upper := b.h - MaxReal(b.o, b.c);
      var lower := (if b.o < b.c then b.o else b.c) - b.l;
      if d.Buy? && upper > body then -5.0
      else if d.Sell? && lower > body then -5.0 else 0.0
  }

  /** The sum of the volumes of the newest `n` bars. */
  function RecentVolume(bars: seq<Bar>, n: nat): real
    requires n <= |bars|
  {
    if n == 0 then 0.0 else RecentVolume(bars, n - 1) + bars[|bars| - n].v
  }

  function MinNat(a: nat, b: nat): nat {
    if a < b then a else b
  }

  /** The mean volume of up to `count` bars, the bar under test included; zero without bars. */
  method AvgVolume(bars: seq<Bar>, count: nat) returns (avg: real)
    ensures avg == AverageVolume(bars, count)
  {
    var total := 0.0;
    var n := 0;
    var k := 1;
    while k <= count
      invariant n == k - 1 <= count && n <= |bars| && total == RecentVolume(bars, n)
    {
      if !Exists(bars, k) {
        break;
      }
      total := total + At(bars, k).value.v;
      n := n + 1;
      k := k + 1;
    }
    avg := if n == 0 then 0.0 else total / n as real;
  }

  function AverageVolume(bars: seq<Bar>, count: nat): real {
    var n := MinNat(count, |bars|);
    if n == 0 then 0.0 else RecentVolume(bars, n) / n as real
  }

  function VolumeBonus(bars: seq<Bar>): (p: real)
    ensures p == 0.0 || p == 4.0 || p == 8.0
  {
    var avg := AverageVolume(bars, VOLUME_LOOKBACK);
    if avg <= 0.0 || bars == [] then 0.0
    else
      var r := bars[|bars| - 1].v / avg;
      if r > 1.5 then 8.0 else if r > 1.2 then 4.0 else 0.0
  }

  // ---------------------------------------------------------------- accumulation

  function SumOf(m: seq<(string, real)>): real {
    if m == [] then 0.0 else SumOf(m[..|m| - 1]) + m[|m| - 1].1
  }

  /** Adds bonus terms under the floor and the cap; `parts` records the amounts that landed. */
  class Accumulator {
    var bonus: real
    var parts: seq<(string, real)>

    constructor ()
      ensures bonus == 0.0 && parts == [] && Valid()
    {
      bonus, parts := 0.0, [];
    }

    ghost predicate Valid()
      reads this
    {
      && SCORE_BONUS_FLOOR <= bonus <= SCORE_BONUS_CAP
      && bonus == SumOf(parts)
      && forall i :: 0 <= i < |parts| ==> parts[i].1 != 0.0
    }

    method Add(name: string, pts: real)
      requires Valid()
      modifies this
      ensures Valid()
      ensures bonus == Clamp(old(bonus) + pts, SCORE_BONUS_FLOOR, SCORE_BONUS_CAP)
      ensures parts == if bonus == old(bonus) then old(parts) else old(parts) + [(name, bonus - old(bonus))]
    {
      if pts == 0.0 {
        return;
      }
      var before := bonus;
      bonus := Clamp(bonus + pts, SCORE_BONUS_FLOOR, SCORE_BONUS_CAP);
      var applied := bonus - before;
      if applied == 0.0 {
        return;
      }
      parts := parts + [(name, applied)];
      assert parts[..|parts| - 1] == old(parts);
    }
  }

  datatype ScoreResult = ScoreResult(baseScore: real, bonus: real, totalScore: real, components: seq<(string, real)>)

  /** The plain sum of the applicable terms. */
  function Terms(bars: seq<Bar>, d: Direction, index: int): (t: real)
    requires bars != []
    ensures -15.0 <= t <= 8.0
  {
    var b := bars[|bars| - 1];
    CandleQualityPenalty(b, d) + (if StrategyClass(index) == 2 then WickPenalty(b, d) else 0.0) + VolumeBonus(bars)
  }

  /** The floor and the cap never bind for these three terms: the total is the base plus their plain sum, and
      the recorded components add up to the bonus. A series without bars cannot be scored. */
  method ScoreSignal(o: Output, bars: seq<Bar>, index: int) returns (r: Option<ScoreResult>)
    ensures r.None? <==> bars == []
    ensures r.Some? ==>
              && r.value.bonus == Terms(bars, o.direction, index)
              && r.value.totalScore == o.baseScore + Terms(bars, o.direction, index)
              && r.value.baseScore == o.baseScore
              && SumOf(r.value.components) == r.value.bonus
  {
    if bars == [] { return None; }
    var acc := new Accumulator();
    var b := bars[|bars| - 1];
    acc.Add("Candle", CandleQualityPenalty(b, o.direction));
    if StrategyClass(index) == 2 {
      acc.Add("Wick", WickPenalty(b, o.direction));
    }
    acc.Add("Vol", VolumeBonus(bars));
    r := Some(ScoreResult(o.baseScore, acc.bonus, o.baseScore + acc.bonus, acc.parts));
  }

  // ---------------------------------------------------------------- what the terms mean

  /** A quotient against a threshold, without the division. */
  lemma RatioAgainst(a: real, m: real, x: real)
    requires m > 0.0
    ensures a / m < x <==> a < x * m
    ensures a / m > x <==> a > x * m
  {
    var q := a / m;
    assert q * m == a;
    if q < x { Ordered(x, q, m); } else if q > x { Ordered(q, x, m); }
  }

  /** A bar without range costs ten; a body under three tenths of the range eight, one under five tenths four, and a
      body of more than six tenths against the direction four as well. The two never add up, and the floor
      never binds. */
  lemma CandleExactly(b: Bar, d: Direction)
    ensures var p, range, body := CandleQualityPenalty(b, d), b.h - b.l, Abs(b.c - b.o);
            && (range <= 0.0 ==> p == -10.0)
            && (range > 0.0 && body < 0.3 * range ==> p == -8.0)
            && (range > 0.0 && 0.3 * range <= body < 0.5 * range ==> p == -4.0)
            && (range > 0.0 && body >= 0.5 * range ==>
                  p == if body > 0.6 * range && (if d.Buy? then b.c < b.o else b.c > b.o) then -4.0 else 0.0)
  {
    var range, body := b.h - b.l, Abs(b.c - b.o);
    if range > 0.0 {
      RatioAgainst(body, range, 0.3);
      RatioAgainst(body, range, 0.5);
      RatioAgainst(body, range, 0.6);
    }
  }

  /** A bar that closes where it opened costs four; otherwise a wick longer than the body, above for a purchase and
      below for a sale, costs five. */
  lemma WickExactly(b: Bar, d: Direction)
    ensures WickPenalty(b, d) == -4.0 <==> b.o == b.c
    ensures WickPenalty(b, d) == -5.0 <==>
            b.o != b.c && (if d.Buy? then b.h - b.o > Abs(b.c - b.o) && b.h - b.c > Abs(b.c - b.o)
                           else b.o - b.l > Abs(b.c - b.o) && b.c - b.l > Abs(b.c - b.o))
  {
  }

  /** With n the number of bars, at most twenty, and T their volume: eight points when n times the newest volume passes
      one and a half T, four when it passes 1.2 T only, and none without volume. */
  lemma VolumeExactly(bars: seq<Bar>)
    requires bars != []
    ensures var n := if |bars| < 20 then |bars| else 20;
            var total, v := RecentVolume(bars, n), bars[|bars| - 1].v;
            && (VolumeBonus(bars) == 8.0 <==> total > 0.0 && v * n as real > 1.5 * total)
            && (VolumeBonus(bars) >= 4.0 <==> total > 0.0 && v * n as real > 1.2 * total)
  {
    var n := if |bars| < 20 then |bars| else 20;
    var total, v := RecentVolume(bars, n), bars[|bars| - 1].v;
    var avg := total / n as real;
    assert n == MinNat(VOLUME_LOOKBACK, |bars|) && avg == AverageVolume(bars, VOLUME_LOOKBACK);
    MeanAgainst(total, n as real, avg, v);
  }

  lemma MeanAgainst(total: real, n: real, avg: real, v: real)
    requires n > 0.0 && avg == total / n
    ensures avg > 0.0 <==> total > 0.0
    ensures avg > 0.0 ==> (v / avg > 1.5 <==> v * n > 1.5 * total) && (v / avg > 1.2 <==> v * n > 1.2 * total)
  {
    RatioAgainst(total, n, 0.0);
    assert avg * n == total;
    if avg > 0.0 {
      RatioAgainst(v, avg, 1.5);
      RatioAgainst(v, avg, 1.2);
      TimesAgainst(v, avg, n, 1.5);
      TimesAgainst(v, avg, n, 1.2);
    }
  }

  lemma TimesAgainst(v: real, avg: real, n: real, x: real)
    requires n > 0.0
    ensures v > x * avg <==> v * n > x * (avg * n)
  {
    var y := x * avg;
    assert x * (avg * n) == y * n;
    if v > y { Ordered(v, y, n); } else if v < y { Ordered(y, v, n); }
  }

  /** One bar more adds its volume. */
  lemma {:induction false} VolumeOfOneMore(bars: seq<Bar>, b: Bar, n: nat)
    requires n <= |bars|
    ensures RecentVolume(bars + [b], n + 1) == b.v + RecentVolume(bars, n)
  {
    if n > 0 {
      VolumeOfOneMore(bars, b, n - 1);
      assert (bars + [b])[|bars + [b]| - (n + 1)] == bars[|bars| - n];
    }
  }

  /** The wick term is for the momentum and breakout strategies, numbers 7, 10 and 13, only. */
  lemma WickOnlyForBreakouts(bars: seq<Bar>, d: Direction, index: int)
    requires bars != []
    ensures var b := bars[|bars| - 1];
            Terms(bars, d, index) - CandleQualityPenalty(b, d) - VolumeBonus(bars)
            == if index in {6, 9, 12} then WickPenalty(b, d) else 0.0
  {
  }

  // ---------------------------------------------------------------- reflection

  lemma {:induction false} VolumeReflects(bars: seq<Bar>, k: real, n: nat)
    requires n <= |bars|
    ensures RecentVolume(FlipAll(bars, k), n) == RecentVolume(bars, n)
  {
    if n > 0 {
      VolumeReflects(bars, k, n - 1);
    }
  }

  /** The reflected signal on the reflected series scores the same, term by term. */
  lemma ScoreReflects(bars: seq<Bar>, d: Direction, index: int, k: real)
    requires bars != []
    ensures Terms(FlipAll(bars, k), Other(d), index) == Terms(bars, d, index)
    ensures var b := bars[|bars| - 1];
            && CandleQualityPenalty(Flip(b, k), Other(d)) == CandleQualityPenalty(b, d)
            && WickPenalty(Flip(b, k), Other(d)) == WickPenalty(b, d)
    ensures VolumeBonus(FlipAll(bars, k)) == VolumeBonus(bars)
  {
    var b := bars[|bars| - 1];
    assert FlipAll(bars, k)[|bars| - 1] == Flip(b, k);
    assert Abs(Flip(b, k).c - Flip(b, k).o) == Abs(b.c - b.o);
    assert Flip(b, k).h - Flip(b, k).l == b.h - b.l;
    VolumeReflects(bars, k, MinNat(VOLUME_LOOKBACK, |bars|));
  }
}
