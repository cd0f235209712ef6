/** Price bars: their validation, the shift indexing strategies use, and their reflection. */
module Market {
  import opened Outcomes

  /** `t` is the bar's time; the others are open, high, low, close and volume. */
  datatype Bar = Bar(t: int, o: real, h: real, l: real, c: real, v: real)

  datatype Direction = Buy | Sell

  /** What a strategy that signals asks for. */
  datatype Output = Output(direction: Direction, entry: real, stopLoss: real, takeProfit: real, baseScore: real)

  function Abs(x: real): (r: real)
    ensures r >= 0.0 && (r == x || r == -x)
  {
    if x < 0.0 then -x else x
  }

  function MaxReal(a: real, b: real): (r: real)
    ensures r >= a && r >= b && (r == a || r == b)
  {
    if a < b then b else a
  }

  // ---------------------------------------------------------------- validation

  datatype Code =
    | Valid | Empty | Insufficient | NonFinite | HighBelowLow | OhlcOutOfRange | NonPositivePrice | NegativeVolume
    | NaiveTimestamp | DuplicateTimestamp | NotChronological

  /** A bar as it arrives: some number may be infinite or missing, and its time may lack a zone. */
  datatype RawBar = BadNumber(t: int) | Numbers(bar: Bar, aware: bool)

  predicate InRange(b: Bar) {
    b.l <= b.h && b.l <= b.o <= b.h && b.l <= b.c <= b.h
  }

  predicate Positive(b: Bar) {
    b.o > 0.0 && b.c > 0.0 && b.h > 0.0 && b.l > 0.0
  }

  predicate GoodBar(b: Bar) {
    InRange(b) && Positive(b) && b.v >= 0.0
  }

  predicate Acceptable(r: RawBar) {
    r.Numbers? && GoodBar(r.bar) && r.aware
  }

  /** A bar that breaks this rule and none of those before it. */
  predicate Breaks(r: RawBar, code: Code) {
    match code
    case NonFinite => r.BadNumber?
    case HighBelowLow => r.Numbers? && r.bar.h < r.bar.l
    case OhlcOutOfRange => r.Numbers? && r.bar.l <= r.bar.h && !InRange(r.bar)
    case NonPositivePrice => r.Numbers? && InRange(r.bar) && !Positive(r.bar)
    case NegativeVolume => r.Numbers? && InRange(r.bar) && Positive(r.bar) && r.bar.v < 0.0
    case NaiveTimestamp => r.Numbers? && GoodBar(r.bar) && !r.aware
    case _ => false
  }

  function TimeOf(r: RawBar): int {
    if r.Numbers? then r.bar.t else r.t
  }

  predicate InOrder(bars: seq<RawBar>, n: int) {
    forall i :: 0 < i < n && i < |bars| ==> TimeOf(bars[i - 1]) < TimeOf(bars[i])
  }

  /** A series fit to compute on: long enough, possible bars, strictly later times. */
  predicate FitToCompute(bars: seq<RawBar>, minRequired: int) {
    && bars != [] && |bars| >= minRequired
    && (forall i :: 0 <= i < |bars| ==> Acceptable(bars[i]))
    && InOrder(bars, |bars|)
  }

  /** A series is fit exactly when it is long enough, every bar has finite numbers and an aware time, every low is
      positive and bounds open, close and high, every high bounds open and close, no volume is negative, and times
      increase. */
  lemma FitExactly(bars: seq<RawBar>, minRequired: int)
    ensures FitToCompute(bars, minRequired) <==>
            && |bars| >= 1 && |bars| >= minRequired
            && (forall i :: 0 <= i < |bars| ==>
                  && bars[i].Numbers? && bars[i].aware
                  && var b := bars[i].bar;
                     0.0 < b.l <= b.o <= b.h && b.l <= b.c <= b.h && b.v >= 0.0)
            && (forall i :: 0 < i < |bars| && bars[i - 1].Numbers? && bars[i].Numbers? ==>
                  bars[i - 1].bar.t < bars[i].bar.t)
  {
    if FitToCompute(bars, minRequired) {
      assert forall i :: 0 <= i < |bars| ==> Acceptable(bars[i]);
    }
  }

  /** The first bar that is not acceptable, with the first rule it breaks. */
  predicate FaultAt(bars: seq<RawBar>, i: int, code: Code) {
    0 <= i < |bars| && Breaks(bars[i], code) && forall k :: 0 <= k < i ==> Acceptable(bars[k])
  }

  /** The first bar that is not later than the one before it. */
  predicate OutOfOrderAt(bars: seq<RawBar>, i: int) {
    0 < i < |bars| && InOrder(bars, i) && TimeOf(bars[i]) <= TimeOf(bars[i - 1])
  }

  /** Accepts exactly the series that are fit to compute on, and otherwise names the first rule broken. */
  method ValidateSeries(bars: seq<RawBar>, minRequired: int) returns (code: Code)
    ensures code.Valid? <==> FitToCompute(bars, minRequired)
    ensures code.Empty? <==> bars == []
    ensures code.Insufficient? <==> bars != [] && |bars| < minRequired
    ensures code.DuplicateTimestamp? ==> exists i :: OutOfOrderAt(bars, i) && TimeOf(bars[i]) == TimeOf(bars[i - 1])
    ensures code.NotChronological? ==> exists i :: OutOfOrderAt(bars, i) && TimeOf(bars[i]) < TimeOf(bars[i - 1])
    ensures code.Valid? || code.Empty? || code.Insufficient? || code.DuplicateTimestamp? || code.NotChronological?
            || exists i :: FaultAt(bars, i, code)
  {
    if bars == [] { return Empty; }
    if |bars| < minRequired { return Insufficient; }
    for i := 0 to |bars|
      invariant forall k :: 0 <= k < i ==> Acceptable(bars[k])
    {
      code := CheckBar(bars[i]);
      if !code.Valid? {
        assert FaultAt(bars, i, code);
        return;
      }
    }
    for i := 1 to |bars|
      invariant InOrder(bars, i)
    {
      if bars[i].bar.t == bars[i - 1].bar.t {
        assert OutOfOrderAt(bars, i);
        return DuplicateTimestamp;
      }
      if bars[i].bar.t < bars[i - 1].bar.t {
        assert OutOfOrderAt(bars, i);
        return NotChronological;
      }
    }
    return Valid;
  }

  method CheckBar(r: RawBar) returns (code: Code)
    ensures code.Valid? <==> Acceptable(r)
    ensures !code.Valid? ==> Breaks(r, code)
  {
    if r.BadNumber? { return NonFinite; }
    var b := r.bar;
    if b.h < b.l { return HighBelowLow; }
    if !(b.l <= b.o <= b.h && b.l <= b.c <= b.h) { return OhlcOutOfRange; }
    if b.o <= 0.0 || b.c <= 0.0 || b.h <= 0.0 || b.l <= 0.0 { return NonPositivePrice; }
    if b.v < 0.0 { return NegativeVolume; }
    if !r.aware { return NaiveTimestamp; }
    return Valid;
  }

  // ---------------------------------------------------------------- shifts

  /** Shift 1 is the newest closed bar; shift 0, negative shifts and missing history have no bar. */
  function At(bars: seq<Bar>, shift: int): Option<Bar> {
    if shift <= 0 || |bars| < shift then None else Some(Shifted(bars, shift))
  }

  function Shifted(bars: seq<Bar>, shift: int): Bar
    requires 1 <= shift <= |bars|
  {
    bars[|bars| - shift]
  }

  predicate Exists(bars: seq<Bar>, shift: int) {
    1 <= shift <= |bars|
  }

  // ---------------------------------------------------------------- reflection

  /** The bar with every price reflected to `k` minus the price: highs and lows trade places. */
  function Flip(b: Bar, k: real): Bar {
    Bar(b.t, k - b.o, k - b.l, k - b.h, k - b.c, b.v)
  }

  function FlipAll(bars: seq<Bar>, k: real): (r: seq<Bar>)
    ensures |r| == |bars| && forall i :: 0 <= i < |bars| ==> r[i] == Flip(bars[i], k)
  {
    seq(|bars|, i requires 0 <= i < |bars| => Flip(bars[i], k))
  }

  function Other(d: Direction): Direction {
    if d.Buy? then Sell else Buy
  }

  /** The reflected signal: the opposite direction at reflected prices. */
  function FlipOutput(o: Output, k: real): Output {
    Output(Other(o.direction), k - o.entry, k - o.stopLoss, k - o.takeProfit, o.baseScore)
  }

  lemma FlipTake(bars: seq<Bar>, k: real, n: nat)
    requires n <= |bars|
    ensures FlipAll(bars, k)[..n] == FlipAll(bars[..n], k)
  {
  }
}
