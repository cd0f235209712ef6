/** Exposure, correlation, Kelly and position sizing: the numbers the risk gate decides on. */
module Measures {
  import opened Outcomes
  import opened Market
  import opened RealFacts

  datatype Position = Position(symbol: string, side: Direction, quantity: real, entryPrice: real,
                               stopLoss: Option<real>, strategyId: Option<string>, sector: Option<string>)

  datatype Portfolio = Portfolio(positions: seq<Position>, pausedSymbols: set<string>)

  datatype Account = Account(balance: real, equity: real, dayStartEquity: real, manuallyPaused: bool, haltedDaily: bool,
                             haltedWeekly: bool, profitLocked: bool, healthOk: bool, recoveryMode: bool,
                             consecutiveLosses: int, kellyLayerActive: bool, equityCurveLayerActive: bool)

  datatype Stats = Stats(trades: int, winRate: real, avgWin: real, avgLoss: real, demoted: bool)

  /** A strategy without history. */
  const NO_STATS := Stats(0, 0.0, 0.0, 0.0, false)

  datatype SizingConfig = SizingConfig(riskPerTradePct: real, kellyEnabled: bool, kellyMinTrades: int,
                                       kellyFraction: real, kellyFloor: real, kellyCeiling: real, heatReduceLevel: real,
                                       heatReduceMultiplier: real, recoveryMultiplier: real, minMultiplier: real,
                                       maxMultiplier: real)

  // ---------------------------------------------------------------- rounding

  /** Half to even, in units of `1 / scale`. */
  function Round(x: real, scale: real): real
    requires scale > 0.0
  {
    Nearest(x * scale) as real / scale
  }

  function Nearest(y: real): int {
    var f := y.Floor;
    var d := y - f as real;
    if d < 0.5 then f else if d > 0.5 then f + 1 else if f % 2 == 0 then f else f + 1
  }

  lemma NearestMonotone(x: real, y: real)
    requires x <= y
    ensures Nearest(x) <= Nearest(y)
  {
  }

  /** Rounding never reverses an order. */
  lemma RoundMonotone(x: real, y: real, scale: real)
    requires scale > 0.0 && x <= y
    ensures Round(x, scale) <= Round(y, scale)
  {
    MulNonneg(y - x, scale);
    assert x * scale <= y * scale;
    NearestMonotone(x * scale, y * scale);
    DivMonotone(Nearest(x * scale) as real, Nearest(y * scale) as real, scale);
  }

  lemma DivMonotone(a: real, b: real, n: real)
    requires n > 0.0 && a <= b
    ensures a / n <= b / n
  {
    var x, y := a / n, b / n;
    assert x * n == a && y * n == b;
    Cancel(y - x, n);
  }

  /** Rounding gives the nearest unit, and the even one of two that are equally near. */
  lemma RoundExactly(x: real, scale: real)
    requires scale > 0.0
    ensures exists n :: IsNearestEven(n, x, scale, Round(x, scale))
  {
    var n := Nearest(x * scale);
    assert n as real / scale * scale == n as real;
    assert IsNearestEven(n, x, scale, Round(x, scale));
  }

  predicate IsNearestEven(n: int, x: real, scale: real, rounded: real) {
    var left := x * scale - n as real;
    rounded * scale == n as real && -0.5 <= left <= 0.5 && (left == 0.5 || left == -0.5 ==> n % 2 == 0)
  }

  // ---------------------------------------------------------------- exposure

  /** Money at risk to the stop in percent of the balance; `None` stands for the NaN of a missing stop. */
  function RiskPct(p: Position, balance: real): Option<real> {
    if balance <= 0.0 then Some(0.0)
    else if p.stopLoss.None? || p.stopLoss.value <= 0.0 then None
    else Some(Abs(p.entryPrice - p.stopLoss.value) * p.quantity / balance * 100.0)
  }

  /** A position without a stop counts as one full unit of risk. */
  function Contribution(p: Position, balance: real, riskPct: real): real {
    var r := RiskPct(p, balance);
    if r.None? then riskPct else r.value
  }

  lemma ContributionNonneg(p: Position, balance: real, riskPct: real)
    requires p.quantity >= 0.0 && riskPct >= 0.0
    ensures Contribution(p, balance, riskPct) >= 0.0
  {
    if balance > 0.0 && p.stopLoss.Some? && p.stopLoss.value > 0.0 {
      var money := Abs(p.entryPrice - p.stopLoss.value) * p.quantity;
      MulNonneg(Abs(p.entryPrice - p.stopLoss.value), p.quantity);
      var share := money / balance;
      assert share * balance == money;
      Cancel(share, balance);
    }
  }

  /** Which positions an exposure sum looks at: all, one symbol, or one sector. */
  datatype Scope = Everything | OfSymbol(symbol: string) | OfSector(sector: string)

  predicate InScope(p: Position, s: Scope) {
    match s
    case Everything => true
    case OfSymbol(x) => p.symbol == x
    case OfSector(x) => p.sector == Some(x)
  }

  function ExposureSum(ps: seq<Position>, s: Scope, balance: real, riskPct: real): real {
    if ps == [] then 0.0
    else
      var init := ExposureSum(ps[..|ps| - 1], s, balance, riskPct);
      var p := ps[|ps| - 1];
      if InScope(p, s) then init + Contribution(p, balance, riskPct) else init
  }

  function Exposure(ps: seq<Position>, s: Scope, balance: real, riskPct: real): real {
    Round(ExposureSum(ps, s, balance, riskPct), 10000.0)
  }

  /** One position's share of the sum: nothing out of scope; in scope the money to the stop in percent of the balance,
      one full unit of risk without a stop, and nothing on an account without a balance. */
  lemma SumOfOne(p: Position, s: Scope, balance: real, riskPct: real)
    ensures var x := ExposureSum([p], s, balance, riskPct);
            var counts := s.Everything? || (s.OfSymbol? && p.symbol == s.symbol)
                          || (s.OfSector? && p.sector == Some(s.sector));
            var stopped := p.stopLoss.Some? && p.stopLoss.value > 0.0;
            && (!counts || balance <= 0.0 ==> x == 0.0)
            && (counts && balance > 0.0 && stopped ==>
                  x * balance == Abs(p.entryPrice - p.stopLoss.value) * p.quantity * 100.0)
            && (counts && balance > 0.0 && !stopped ==> x == riskPct)
  {
    assert [p][..0] == [];
    if balance > 0.0 && p.stopLoss.Some? {
      PercentOf(Abs(p.entryPrice - p.stopLoss.value) * p.quantity, balance);
    }
  }

  lemma PercentOf(money: real, balance: real)
    requires balance > 0.0
    ensures money / balance * 100.0 * balance == money * 100.0
  {
    assert money / balance * balance == money;
  }

  /** One loop over the book. */
  method ExposurePct(ps: seq<Position>, s: Scope, balance: real, riskPct: real) returns (total: real)
    ensures total == Exposure(ps, s, balance, riskPct)
  {
    total := 0.0;
    for i := 0 to |ps|
      invariant total == ExposureSum(ps[..i], s, balance, riskPct)
    {
      TakeSnoc(ps, i);
      if InScope(ps[i], s) {
        total := total + Contribution(ps[i], balance, riskPct);
      }
    }
    assert ps[..|ps|] == ps;
    total := Round(total, 10000.0);
  }

  /** The book with one more position, anywhere in it. */
  function Insert(ps: seq<Position>, at: nat, p: Position): seq<Position>
    requires at <= |ps|
  {
    ps[..at] + [p] + ps[at..]
  }

  lemma {:induction false} SumConcat(a: seq<Position>, b: seq<Position>, s: Scope, balance: real, riskPct: real)
    ensures ExposureSum(a + b, s, balance, riskPct) ==
            ExposureSum(a, s, balance, riskPct) + ExposureSum(b, s, balance, riskPct)
  {
    if b == [] {
      assert a + b == a;
    } else {
      assert (a + b)[..|a + b| - 1] == a + b[..|b| - 1];
      SumConcat(a, b[..|b| - 1], s, balance, riskPct);
    }
  }

  /** One more position never lowers any exposure. */
  lemma ExposureGrows(ps: seq<Position>, at: nat, p: Position, s: Scope, balance: real, riskPct: real)
    requires at <= |ps| && p.quantity >= 0.0 && riskPct >= 0.0
    ensures Exposure(Insert(ps, at, p), s, balance, riskPct) >= Exposure(ps, s, balance, riskPct)
  {
    ContributionNonneg(p, balance, riskPct);
    SumConcat(ps[..at] + [p], ps[at..], s, balance, riskPct);
    SumConcat(ps[..at], [p], s, balance, riskPct);
    SumConcat(ps[..at], ps[at..], s, balance, riskPct);
    assert ps[..at] + ps[at..] == ps;
    assert [p][..0] == [];
    RoundMonotone(ExposureSum(ps, s, balance, riskPct), ExposureSum(Insert(ps, at, p), s, balance, riskPct), 10000.0);
  }

  // ---------------------------------------------------------------- correlation

  type Correlation = (seq<real>, seq<real>) -> real

  function Window(closes: seq<real>, lookback: nat): seq<real> {
    if |closes| <= lookback + 1 then closes else closes[|closes| - lookback - 1..]
  }

  predicate Correlates(p: Position, symbol: string, d: Direction, closes: map<string, seq<real>>) {
    p.symbol != symbol && p.side == d && p.symbol in closes && closes[p.symbol] != []
  }

  /** The correlation of one open position with the signal, if it takes part. */
  function PairCorrelation(p: Position, symbol: string, closes: map<string, seq<real>>, lookback: nat,
                           corr: Correlation): real
    requires symbol in closes && p.symbol in closes
  {
    corr(Window(closes[symbol], lookback), Window(closes[p.symbol], lookback))
  }

  /** The largest positive correlation of an open same-direction position, zero if there is none. */
  method HasCorrelatedSameDirection(ps: seq<Position>, symbol: string, d: Direction, closes: map<string, seq<real>>,
                                    threshold: real, lookback: nat, corr: Correlation)
    returns (blocked: bool, worstSymbol: Option<string>, worst: real)
    ensures blocked == Blocked(ps, symbol, d, closes, threshold, lookback, corr)
    ensures symbol in closes && closes[symbol] != [] ==>
              worst == Round(WorstOf(ps, symbol, d, closes, lookback, corr), 10000.0) && worst >= 0.0
    ensures worstSymbol == WorstSymbol(ps, symbol, d, closes, lookback, corr)
  {
    if symbol !in closes || closes[symbol] == [] {
      return false, None, 0.0;
    }
    worst, worstSymbol := 0.0, None;
    for i := 0 to |ps|
      invariant worst == WorstOf(ps[..i], symbol, d, closes, lookback, corr) >= 0.0
      invariant worstSymbol == WorstSymbol(ps[..i], symbol, d, closes, lookback, corr)
    {
      TakeSnoc(ps, i);
      var p := ps[i];
      if Correlates(p, symbol, d, closes) {
        var r := PairCorrelation(p, symbol, closes, lookback, corr);
        if r > worst {
          worst, worstSymbol := r, Some(p.symbol);
        }
      }
    }
    assert ps[..|ps|] == ps;
    blocked := worst > threshold;
    worst := Round(worst, 10000.0);
    RoundMonotone(0.0, WorstOf(ps, symbol, d, closes, lookback, corr), 10000.0);
  }

  function WorstOf(ps: seq<Position>, symbol: string, d: Direction, closes: map<string, seq<real>>, lookback: nat,
                   corr: Correlation): real
    requires symbol in closes
  {
    if ps == [] then 0.0
    else
      var init := WorstOf(ps[..|ps| - 1], symbol, d, closes, lookback, corr);
      var p := ps[|ps| - 1];
      if Correlates(p, symbol, d, closes)
      then MaxReal(init, PairCorrelation(p, symbol, closes, lookback, corr)) else init
  }

  /** The first position to reach the largest correlation. */
  function WorstSymbol(ps: seq<Position>, symbol: string, d: Direction, closes: map<string, seq<real>>, lookback: nat,
                       corr: Correlation): Option<string>
  {
    if symbol !in closes || closes[symbol] == [] || ps == [] then None
    else
      var init, p := ps[..|ps| - 1], ps[|ps| - 1];
      if Correlates(p, symbol, d, closes)
         && PairCorrelation(p, symbol, closes, lookback, corr) > WorstOf(init, symbol, d, closes, lookback, corr)
      then Some(p.symbol) else WorstSymbol(init, symbol, d, closes, lookback, corr)
  }

  /** A signal is blocked by a named open position in another symbol. */
  lemma {:induction false} BlockedNamesOne(ps: seq<Position>, symbol: string, d: Direction,
                                           closes: map<string, seq<real>>, lookback: nat, corr: Correlation)
    requires symbol in closes && closes[symbol] != []
    ensures WorstOf(ps, symbol, d, closes, lookback, corr) > 0.0 <==>
            WorstSymbol(ps, symbol, d, closes, lookback, corr).Some?
    ensures WorstOf(ps, symbol, d, closes, lookback, corr) >= 0.0
    ensures WorstSymbol(ps, symbol, d, closes, lookback, corr).Some? ==>
              exists p :: p in ps && Correlates(p, symbol, d, closes)
                          && WorstSymbol(ps, symbol, d, closes, lookback, corr) == Some(p.symbol)
                          && PairCorrelation(p, symbol, closes, lookback, corr) ==
                             WorstOf(ps, symbol, d, closes, lookback, corr)
  {
    if ps != [] {
      BlockedNamesOne(ps[..|ps| - 1], symbol, d, closes, lookback, corr);
      assert ps[|ps| - 1] in ps;
    }
  }

  predicate Blocked(ps: seq<Position>, symbol: string, d: Direction, closes: map<string, seq<real>>, threshold: real,
                    lookback: nat, corr: Correlation) {
    symbol in closes && closes[symbol] != [] && WorstOf(ps, symbol, d, closes, lookback, corr) > threshold
  }

  lemma {:induction false} WorstReached(ps: seq<Position>, symbol: string, d: Direction, closes: map<string, seq<real>>,
                                        lookback: nat, corr: Correlation, threshold: real)
    requires symbol in closes
    ensures WorstOf(ps, symbol, d, closes, lookback, corr) > threshold <==>
            threshold < 0.0 || exists p :: p in ps && Correlates(p, symbol, d, closes)
                                           && PairCorrelation(p, symbol, closes, lookback, corr) > threshold
  {
    if ps != [] {
      var init, last := ps[..|ps| - 1], ps[|ps| - 1];
      assert ps == init + [last];
      WorstReached(init, symbol, d, closes, lookback, corr, threshold);
    }
  }

  /** A signal is blocked exactly when it has closes of its own and some open position in another symbol, on the same
      side and with closes, correlates with it above the threshold over the newest closes, or the threshold is
      negative. */
  lemma BlockedExactly(ps: seq<Position>, symbol: string, d: Direction, closes: map<string, seq<real>>, threshold: real,
                       lookback: nat, corr: Correlation)
    ensures Blocked(ps, symbol, d, closes, threshold, lookback, corr) <==>
            && symbol in closes && closes[symbol] != []
            && (threshold < 0.0
                || exists p :: p in ps && p.symbol != symbol && p.side == d
                       && p.symbol in closes && closes[p.symbol] != []
                       && corr(Window(closes[symbol], lookback), Window(closes[p.symbol], lookback)) > threshold)
  {
    if symbol in closes {
      WorstReached(ps, symbol, d, closes, lookback, corr, threshold);
      if threshold >= 0.0 && Blocked(ps, symbol, d, closes, threshold, lookback, corr) {
        var p :| p in ps && Correlates(p, symbol, d, closes)
                 && PairCorrelation(p, symbol, closes, lookback, corr) > threshold;
      }
      if p :| p in ps && p.symbol != symbol && p.side == d && p.symbol in closes && closes[p.symbol] != []
              && corr(Window(closes[symbol], lookback), Window(closes[p.symbol], lookback)) > threshold {
        assert PairCorrelation(p, symbol, closes, lookback, corr) > threshold;
      }
    }
  }

  /** The newest closes, one more than the look-back asks for, or all there are. */
  lemma WindowExactly(closes: seq<real>, lookback: nat)
    ensures var w := Window(closes, lookback);
            && |w| == (if |closes| < lookback + 1 then |closes| else lookback + 1)
            && w == closes[|closes| - |w|..]
  {
  }

  lemma {:induction false} WorstConcat(a: seq<Position>, b: seq<Position>, symbol: string, d: Direction,
                                       closes: map<string, seq<real>>, lookback: nat, corr: Correlation)
    requires symbol in closes
    ensures WorstOf(a + b, symbol, d, closes, lookback, corr) ==
            MaxReal(WorstOf(a, symbol, d, closes, lookback, corr), WorstOf(b, symbol, d, closes, lookback, corr))
    ensures WorstOf(a, symbol, d, closes, lookback, corr) >= 0.0
  {
    if b == [] {
      assert a + b == a;
      if a != [] {
        WorstConcat(a[..|a| - 1], [], symbol, d, closes, lookback, corr);
      }
    } else {
      assert (a + b)[..|a + b| - 1] == a + b[..|b| - 1];
      WorstConcat(a, b[..|b| - 1], symbol, d, closes, lookback, corr);
    }
  }

  /** One more position never unblocks a signal. */
  lemma BlockedGrows(ps: seq<Position>, at: nat, p: Position, symbol: string, d: Direction,
                     closes: map<string, seq<real>>, threshold: real, lookback: nat, corr: Correlation)
    requires at <= |ps| && Blocked(ps, symbol, d, closes, threshold, lookback, corr)
    ensures Blocked(Insert(ps, at, p), symbol, d, closes, threshold, lookback, corr)
  {
    WorstConcat(ps[..at] + [p], ps[at..], symbol, d, closes, lookback, corr);
    WorstConcat(ps[..at], [p], symbol, d, closes, lookback, corr);
    WorstConcat(ps[..at], ps[at..], symbol, d, closes, lookback, corr);
    assert ps[..at] + ps[at..] == ps;
  }

  // ---------------------------------------------------------------- sizing

  function Clamp(v: real, lo: real, hi: real): real {
    if v < lo then lo else if v > hi then hi else v
  }

  function KellyMultiplier(st: Stats, a: Account, c: SizingConfig): real {
    if !c.kellyEnabled || st.trades < c.kellyMinTrades || st.avgLoss <= 0.0 then 1.0
    else
      var b := st.avgWin / st.avgLoss;
      if b <= 0.0 || !a.kellyLayerActive then 1.0
      else Clamp(1.0 + (st.winRate - (1.0 - st.winRate) / b) * c.kellyFraction, c.kellyFloor, c.kellyCeiling)
  }

  /** Kelly sizing is one unless it is enabled, active, and knows enough trades with wins and losses. Then it moves
      from one by the fraction of the expected win per unit won, within floor and ceiling; so, between them, a size
      grows exactly when the strategy's expectancy is positive. */
  lemma KellyExactly(st: Stats, a: Account, c: SizingConfig)
    ensures var idle := !c.kellyEnabled || !a.kellyLayerActive || st.trades < c.kellyMinTrades
                        || st.avgLoss <= 0.0 || st.avgWin <= 0.0;
            && (idle ==> KellyMultiplier(st, a, c) == 1.0)
            && (!idle ==> exists m :: IsKelly(m, st, c) && KellyMultiplier(st, a, c)
                                      == if m < c.kellyFloor then c.kellyFloor
                                         else if m > c.kellyCeiling then c.kellyCeiling else m)
  {
    if st.avgLoss > 0.0 {
      var b := st.avgWin / st.avgLoss;
      assert b * st.avgLoss == st.avgWin;
      if st.avgWin > 0.0 {
        Cancel(b, st.avgLoss);
        KellyEdge(st.winRate, st.avgWin, st.avgLoss, b, c.kellyFraction);
        assert IsKelly(1.0 + (st.winRate - (1.0 - st.winRate) / b) * c.kellyFraction, st, c);
      } else if b > 0.0 {
        PositiveProduct(b, st.avgLoss);
      }
    }
  }

  /** One plus the fraction of what a trade is expected to win, per unit won. */
  predicate IsKelly(m: real, st: Stats, c: SizingConfig) {
    (m - 1.0) * st.avgWin == (st.winRate * st.avgWin - (1.0 - st.winRate) * st.avgLoss) * c.kellyFraction
  }

  lemma KellyEdge(p: real, win: real, loss: real, b: real, fraction: real)
    requires win > 0.0 && loss > 0.0 && b > 0.0 && b * loss == win
    ensures (p - (1.0 - p) / b) * fraction * win == (p * win - (1.0 - p) * loss) * fraction
  {
    var x := (1.0 - p) / b;
    assert x * b == 1.0 - p;
    assert x * win == x * b * loss;
    assert (p - x) * win == p * win - x * win;
    assert (p - x) * fraction * win == (p - x) * win * fraction;
  }

  /** Kelly, equity curve, heat and recovery, multiplied and clamped. */
  function Multiplier(a: Account, ps: seq<Position>, st: Stats, c: SizingConfig): real {
    var afterCurve := Apply(DrawnDown(a), 0.75, KellyMultiplier(st, a, c));
    var hot := Exposure(ps, Everything, a.balance, c.riskPerTradePct) >= c.heatReduceLevel;
    var afterHeat := Apply(hot, c.heatReduceMultiplier, afterCurve);
    Clamp(Apply(a.recoveryMode, c.recoveryMultiplier, afterHeat), c.minMultiplier, c.maxMultiplier)
  }

  function Apply(on: bool, factor: real, m: real): real {
    if on then m * factor else m
  }

  predicate DrawnDown(a: Account) {
    a.equityCurveLayerActive && a.dayStartEquity > 0.0 && a.equity < a.dayStartEquity * 0.99
  }

  /** Falls back to the base size when the size itself would risk more than the limit. */
  function Cap(q: real, base: real, stop: real, limit: real): real {
    if AtRisk(q, stop) > limit then base else q
  }

  function AtRisk(q: real, stop: real): real {
    q * stop
  }

  function Whole(q: real, fractional: bool): real {
    if fractional then q else q.Floor as real
  }

  function Scaled(base: real, m: real): real {
    base * m
  }

  function CappedQuantity(base: real, m: real, stop: real, limit: real, fractional: bool): real {
    Cap(Whole(Scaled(base, m), fractional), Whole(base, fractional), stop, limit)
  }

  datatype SizingResult = SizingResult(quantity: real, riskAmount: real, multiplier: real, capped: bool)

  function Budget(a: Account, c: SizingConfig): real {
    a.balance * c.riskPerTradePct / 100.0
  }

  /** The multiplier is the product of its factors, each one when it does not apply, brought into the configured
      range. */
  lemma MultiplierExactly(a: Account, ps: seq<Position>, st: Stats, c: SizingConfig)
    ensures var curve := a.equityCurveLayerActive && a.dayStartEquity > 0.0 && a.equity < 0.99 * a.dayStartEquity;
            var hot := Exposure(ps, Everything, a.balance, c.riskPerTradePct) >= c.heatReduceLevel;
            var product := Product(KellyMultiplier(st, a, c), curve, hot, c.heatReduceMultiplier,
                                   a.recoveryMode, c.recoveryMultiplier);
            BroughtInto(Multiplier(a, ps, st, c), product, c.minMultiplier, c.maxMultiplier)
  {
    var hot := Exposure(ps, Everything, a.balance, c.riskPerTradePct) >= c.heatReduceLevel;
    MultipliedOut(KellyMultiplier(st, a, c), DrawnDown(a), hot, c.heatReduceMultiplier,
                  a.recoveryMode, c.recoveryMultiplier);
  }

  function Product(kelly: real, curve: bool, hot: bool, heat: real, recovering: bool, recovery: real): real {
    kelly * (if curve then 0.75 else 1.0) * (if hot then heat else 1.0) * (if recovering then recovery else 1.0)
  }

  lemma MultipliedOut(kelly: real, curve: bool, hot: bool, heat: real, recovering: bool, recovery: real)
    ensures Apply(recovering, recovery, Apply(hot, heat, Apply(curve, 0.75, kelly)))
            == Product(kelly, curve, hot, heat, recovering, recovery)
  {
    var curved := Apply(curve, 0.75, kelly);
    ApplyIsFactor(curve, 0.75, kelly);
    ApplyIsFactor(hot, heat, curved);
    ApplyIsFactor(recovering, recovery, Apply(hot, heat, curved));
  }

  /** `m` is the point of the range nearest to `x`; of a range that is upside down, one of its ends. */
  predicate BroughtInto(m: real, x: real, lo: real, hi: real) {
    && (x < lo ==> m == lo) && (lo <= x && x > hi ==> m == hi) && (lo <= x <= hi ==> m == x)
    && (lo <= hi ==> lo <= m <= hi)
  }

  lemma ApplyIsFactor(on: bool, factor: real, m: real)
    ensures Apply(on, factor, m) == m * (if on then factor else 1.0)
  {
  }

  /** The factors in the order the source multiplies them. */
  method CombineMultipliers(a: Account, ps: seq<Position>, st: Stats, c: SizingConfig) returns (m: real)
    ensures m == Multiplier(a, ps, st, c)
  {
    m := KellyMultiplier(st, a, c);
    if DrawnDown(a) { m := Apply(true, 0.75, m); }
    var heat := ExposurePct(ps, Everything, a.balance, c.riskPerTradePct);
    if heat >= c.heatReduceLevel { m := Apply(true, c.heatReduceMultiplier, m); }
    if a.recoveryMode { m := Apply(true, c.recoveryMultiplier, m); }
    m := Clamp(m, c.minMultiplier, c.maxMultiplier);
  }

  /** Whole shares, or millionths of a share, within the budget. The fractional quantity is rounded to the nearest
      millionth after the cap, so its limit is looser by half a millionth of a share. */
  method SizePosition(a: Account, ps: seq<Position>, stop: real, st: Stats, c: SizingConfig, fractional: bool)
    returns (r: SizingResult)
    ensures stop <= 0.0 || a.balance <= 0.0 ==> r == SizingResult(0.0, 0.0, 0.0, false)
    ensures stop > 0.0 && a.balance > 0.0 ==> Sized(r, Budget(a, c), stop, Multiplier(a, ps, st, c), fractional)
    ensures stop > 0.0 && a.balance > 0.0 && c.riskPerTradePct >= 0.0 ==>
              WithinBudget(r.quantity, stop, Budget(a, c), fractional)
  {
    if stop <= 0.0 || a.balance <= 0.0 {
      return SizingResult(0.0, 0.0, 0.0, false);
    }
    var m := CombineMultipliers(a, ps, st, c);
    var budget := Budget(a, c);
    r := QuantityFor(budget, stop, m, fractional);
    if c.riskPerTradePct >= 0.0 {
      BudgetNonneg(a, c);
      SizedWithinBudget(r, budget, stop, m, fractional);
    }
  }

  predicate WithinBudget(quantity: real, stop: real, budget: real, fractional: bool) {
    AtRisk(quantity, stop) <= budget * 1.01 + Slack(stop, fractional)
  }

  function Slack(stop: real, fractional: bool): real {
    if fractional then 0.0000005 * stop else 0.0
  }

  function RoundedQuantity(raw: real, fractional: bool): real {
    if fractional then Round(raw, 1000000.0) else raw
  }

  lemma BudgetNonneg(a: Account, c: SizingConfig)
    requires a.balance > 0.0 && c.riskPerTradePct >= 0.0
    ensures Budget(a, c) >= 0.0
  {
    MulNonneg(a.balance, c.riskPerTradePct);
  }

  predicate Sized(r: SizingResult, budget: real, stop: real, m: real, fractional: bool)
    requires stop > 0.0
  {
    && r.multiplier == Round(m, 10000.0)
    && Capped(r, budget / stop, m, stop, budget * 1.01, fractional)
  }

  predicate Capped(r: SizingResult, base: real, m: real, stop: real, limit: real, fractional: bool) {
    var raw := CappedQuantity(base, m, stop, limit, fractional);
    && r.quantity == RoundedQuantity(raw, fractional)
    && r.riskAmount == Round(AtRisk(raw, stop), 100.0)
    && (r.capped <==> AtRisk(Whole(Scaled(base, m), fractional), stop) > limit)
  }

  method QuantityFor(budget: real, stop: real, m: real, fractional: bool) returns (r: SizingResult)
    requires stop > 0.0
    ensures Sized(r, budget, stop, m, fractional)
  {
    r := CapQuantity(budget / stop, m, stop, budget * 1.01, fractional);
  }

  method CapQuantity(base: real, m: real, stop: real, limit: real, fractional: bool)
    returns (r: SizingResult)
    ensures r.multiplier == Round(m, 10000.0) && Capped(r, base, m, stop, limit, fractional)
  {
    var qty, risk, capped := CapAtBase(Scaled(base, m), base, stop, limit, fractional);
    r := SizingResult(RoundedQuantity(qty, fractional), Round(risk, 100.0), Round(m, 10000.0), capped);
  }

  method CapAtBase(scaled: real, base: real, stop: real, limit: real, fractional: bool)
    returns (qty: real, risk: real, capped: bool)
    ensures qty == Cap(Whole(scaled, fractional), Whole(base, fractional), stop, limit)
    ensures risk == AtRisk(qty, stop) && (capped <==> AtRisk(Whole(scaled, fractional), stop) > limit)
  {
    qty := Whole(scaled, fractional);
    risk := AtRisk(qty, stop);
    capped := false;
    if risk > limit {
      qty := Whole(base, fractional);
      risk := AtRisk(qty, stop);
      capped := true;
    }
  }

  /** For every multiplier whatsoever: no combination of Kelly, equity curve, heat and recovery risks more than
      101% of the budget. */
  lemma SizedWithinBudget(r: SizingResult, budget: real, stop: real, m: real, fractional: bool)
    requires budget >= 0.0 && stop > 0.0 && Sized(r, budget, stop, m, fractional)
    ensures WithinBudget(r.quantity, stop, budget, fractional)
  {
    BaseIsBudget(budget, stop);
    CappedWithinLimit(r.quantity, budget / stop, m, stop, budget * 1.01, fractional);
  }

  lemma BaseIsBudget(budget: real, stop: real)
    requires budget >= 0.0 && stop > 0.0
    ensures AtRisk(budget / stop, stop) <= budget * 1.01
  {
    assert budget / stop * stop == budget;
  }

  lemma CappedWithinLimit(quantity: real, base: real, m: real, stop: real, limit: real, fractional: bool)
    requires stop > 0.0 && AtRisk(base, stop) <= limit
    requires quantity == RoundedQuantity(CappedQuantity(base, m, stop, limit, fractional), fractional)
    ensures AtRisk(quantity, stop) <= limit + Slack(stop, fractional)
  {
    RawWithinLimit(Scaled(base, m), base, stop, limit, fractional);
    RoundedWithinLimit(CappedQuantity(base, m, stop, limit, fractional), stop, limit, fractional);
  }

  lemma RoundedWithinLimit(raw: real, stop: real, limit: real, fractional: bool)
    requires stop > 0.0 && AtRisk(raw, stop) <= limit
    ensures AtRisk(RoundedQuantity(raw, fractional), stop) <= limit + Slack(stop, fractional)
  {
    if fractional {
      RoundedRisk(raw, RoundedQuantity(raw, true), stop, limit);
    }
  }

  lemma RawWithinLimit(scaled: real, base: real, stop: real, limit: real, fractional: bool)
    requires stop > 0.0 && AtRisk(base, stop) <= limit
    ensures AtRisk(Cap(Whole(scaled, fractional), Whole(base, fractional), stop, limit), stop) <= limit
  {
    var b := Whole(base, fractional);
    MulNonneg(base - b, stop);
    assert (base - b) * stop == base * stop - b * stop;
  }

  /** Rounding a fractional size never takes the risk past the limit, whatever the size, exactly when the size that
      risks the whole limit does not round up. */
  lemma FractionsKeepTheLimitExactly(limit: real, stop: real)
    requires stop > 0.0
    ensures (forall raw :: AtRisk(raw, stop) <= limit ==> AtRisk(RoundedQuantity(raw, true), stop) <= limit)
            <==> RoundedQuantity(limit / stop, true) <= limit / stop
  {
    var most := limit / stop;
    assert AtRisk(most, stop) == limit;
    AtRiskBelow(RoundedQuantity(most, true), most, stop);
    if RoundedQuantity(most, true) <= most {
      forall raw | AtRisk(raw, stop) <= limit
        ensures AtRisk(RoundedQuantity(raw, true), stop) <= limit
      {
        AtRiskBelow(raw, most, stop);
        RoundMonotone(raw, most, 1000000.0);
        AtRiskBelow(RoundedQuantity(raw, true), most, stop);
      }
    }
  }

  /** A budget of 160 on a stop of a hundred million: 1.6 millionths of a share round to two, and 200 is risked. */
  lemma FractionPassesTheLimit(r: SizingResult)
    requires Sized(r, 160.0, 100000000.0, 1.0, true)
    ensures AtRisk(r.quantity, 100000000.0) == 200.0 > 160.0 * 1.01 && !r.capped
  {
    assert 160.0 / 100000000.0 == 0.0000016;
    assert Scaled(0.0000016, 1.0) == 0.0000016 && 0.0000016 * 1000000.0 == 1.6 && 0.0000016 * 100000000.0 == 160.0;
    assert Nearest(1.6) == 2;
  }

  lemma RoundedRisk(qty: real, rounded: real, stop: real, limit: real)
    requires stop > 0.0 && qty * stop <= limit && rounded - qty <= 0.0000005
    ensures rounded * stop <= limit + 0.0000005 * stop
  {
    MulNonneg(0.0000005 - (rounded - qty), stop);
  }

  /** A larger multiplier buys fewer whole shares exactly when it alone is capped and the smaller one had bought
      more than the base size. */
  lemma QuantityDropsExactly(base: real, stop: real, limit: real, m: real, m': real)
    requires base >= 0.0 && stop > 0.0 && m <= m'
    ensures CappedQuantity(base, m', stop, limit, false) < CappedQuantity(base, m, stop, limit, false)
            <==> OnlyLargerIsCapped(base * m, base * m', base, stop, limit)
  {
    MulNonneg(base, m' - m);
    assert base * (m' - m) == base * m' - base * m;
    DropsExactly(base * m, base * m', base, stop, limit);
  }

  predicate OnlyLargerIsCapped(x: real, x': real, base: real, stop: real, limit: real) {
    && AtRisk(Whole(x, false), stop) <= limit
    && AtRisk(Whole(x', false), stop) > limit
    && Whole(x, false) > Whole(base, false)
  }

  lemma DropsExactly(x: real, x': real, base: real, stop: real, limit: real)
    requires x <= x' && stop > 0.0
    ensures Cap(Whole(x', false), Whole(base, false), stop, limit) <
            Cap(Whole(x, false), Whole(base, false), stop, limit)
            <==> OnlyLargerIsCapped(x, x', base, stop, limit)
  {
    FloorMonotone(x, x');
    CapsInOrder(Whole(x, false), Whole(x', false), Whole(base, false), stop, limit);
  }

  lemma FloorMonotone(x: real, y: real)
    requires x <= y
    ensures Whole(x, false) <= Whole(y, false)
  {
    var a, b := x.Floor, y.Floor;
    assert a as real < b as real + 1.0;
    assert a < b + 1;
  }

  lemma CapsInOrder(q: real, q': real, b: real, stop: real, limit: real)
    requires q <= q' && stop > 0.0
    ensures Cap(q', b, stop, limit) < Cap(q, b, stop, limit) <==>
            AtRisk(q, stop) <= limit && AtRisk(q', stop) > limit && q > b
  {
    MulNonneg(q' - q, stop);
    assert (q' - q) * stop == q' * stop - q * stop;
  }

  /** A multiplier buys no whole share: it scales the base below one, or the base is itself under one share and the
      scaled size is capped back to it. */
  predicate NoShares(base: real, m: real) {
    SizedToNothing(base, base * m)
  }

  predicate SizedToNothing(base: real, scaled: real) {
    scaled < 1.0 || (base < 1.0 && (base * 1.01 < 1.0 || scaled >= 2.0))
  }

  lemma NoSharesExactly(base: real, stop: real, limit: real, m: real)
    requires base >= 0.0 && stop > 0.0 && limit == AtRisk(base * 1.01, stop)
    ensures CappedQuantity(base, m, stop, limit, false) <= 0.0 <==> NoShares(base, m)
  {
    AtRiskBelow(Whole(base * m, false), base * 1.01, stop);
    FloorFacts(base * m, base * 1.01);
    FloorFacts(base, base * 1.01);
  }

  /** When the base size is under one share and lies within the 1% allowance below it, a multiplier of two or more
      is capped down to nothing while a smaller one may still buy the single share. No other size reopens. */
  lemma SizeReopensExactly(base: real, stop: real, limit: real, m: real, m': real)
    requires base >= 0.0 && stop > 0.0 && m' <= m && limit == AtRisk(base * 1.01, stop)
    ensures CappedQuantity(base, m, stop, limit, false) <= 0.0 && CappedQuantity(base, m', stop, limit, false) > 0.0
            <==> base < 1.0 && base * 1.01 >= 1.0 && base * m >= 2.0 && 1.0 <= base * m' < 2.0
  {
    MulNonneg(base, m - m');
    assert base * (m - m') == base * m - base * m';
    FloorMonotone(base * m', base * m);
    AtRiskBelow(Whole(base * m, false), base * 1.01, stop);
    AtRiskBelow(Whole(base * m', false), base * 1.01, stop);
    FloorFacts(base * m, base * 1.01);
    FloorFacts(base * m', base * 1.01);
    FloorFacts(base, base * 1.01);
  }

  lemma AtRiskBelow(q: real, l: real, stop: real)
    requires stop > 0.0
    ensures AtRisk(q, stop) > AtRisk(l, stop) <==> q > l
  {
    if q > l {
      Ordered(q, l, stop);
    } else if q < l {
      Ordered(l, q, stop);
    }
  }

  lemma FloorFacts(x: real, l: real)
    ensures Whole(x, false) > 0.0 <==> x >= 1.0
    ensures Whole(x, false) >= 2.0 <==> x >= 2.0
    ensures Whole(x, false) > 0.0 ==> Whole(x, false) >= 1.0
    ensures Whole(x, false) < 2.0 ==> Whole(x, false) <= 1.0
  {
  }

  /** Factors that shrink or keep a size, clamped to at most double. */
  predicate TameSizing(c: SizingConfig) {
    && c.riskPerTradePct >= 0.0
    && 0.0 <= c.kellyFloor && 0.0 <= c.kellyCeiling
    && 0.0 <= c.heatReduceMultiplier <= 1.0
    && 0.0 <= c.recoveryMultiplier
    && c.minMultiplier <= c.maxMultiplier <= 2.0
  }

  /** A hotter book never raises the multiplier. */
  lemma MultiplierFalls(a: Account, ps: seq<Position>, at: nat, p: Position, st: Stats, c: SizingConfig)
    requires at <= |ps| && p.quantity >= 0.0 && TameSizing(c)
    ensures Multiplier(a, Insert(ps, at, p), st, c) <= Multiplier(a, ps, st, c) <= 2.0
  {
    ExposureGrows(ps, at, p, Everything, a.balance, c.riskPerTradePct);
    var m := Apply(DrawnDown(a), 0.75, KellyMultiplier(st, a, c));
    ApplyFalls(c.heatReduceMultiplier, m);
    var hot := Apply(true, c.heatReduceMultiplier, m);
    ApplyMonotone(a.recoveryMode, c.recoveryMultiplier, hot, m);
  }

  lemma ApplyFalls(f: real, m: real)
    requires 0.0 <= f <= 1.0 && m >= 0.0
    ensures Apply(true, f, m) <= m
  {
    MulNonneg(m, 1.0 - f);
    assert m * (1.0 - f) == m - m * f;
  }

  lemma ApplyMonotone(on: bool, f: real, m: real, m': real)
    requires 0.0 <= f && m <= m'
    ensures Apply(on, f, m) <= Apply(on, f, m')
  {
    MulNonneg(m' - m, f);
    assert (m' - m) * f == m' * f - m * f;
  }

  function SharesFor(budget: real, stop: real, m: real): real
    requires stop > 0.0
  {
    CappedQuantity(budget / stop, m, stop, budget * 1.01, false)
  }

  lemma SizedShares(r: SizingResult, budget: real, stop: real, m: real)
    requires stop > 0.0 && Sized(r, budget, stop, m, false)
    ensures r.quantity == SharesFor(budget, stop, m) && r.multiplier == Round(m, 10000.0)
  {
  }

  /** `k` whole shares are the most that `money` buys at this risk per share. */
  predicate MostShares(k: int, stop: real, money: real) {
    k as real * stop <= money < (k + 1) as real * stop
  }

  /** The size is the greatest whole number of shares whose risk stays within the multiplier's share of the budget; if
      that would risk more than 101% of the budget, it is the greatest whose risk stays within the budget itself. */
  lemma SizeIsGreatest(budget: real, stop: real, m: real)
    requires stop > 0.0
    ensures exists k, q :: SizedAs(k, q, budget, stop, m) && SharesFor(budget, stop, m) == q as real
  {
    var base := budget / stop;
    assert base * stop == budget;
    ScaledMoney(base, m, stop);
    var k, b := (base * m).Floor, base.Floor;
    FloorIsMost(base * m, stop, budget * m);
    FloorIsMost(base, stop, budget);
    SharesAre(base, m, stop, budget * 1.01);
    var q := if k as real * stop > budget * 1.01 then b else k;
    assert SizedAs(k, q, budget, stop, m);
  }

  lemma SharesAre(base: real, m: real, stop: real, limit: real)
    ensures var k := (base * m).Floor;
            CappedQuantity(base, m, stop, limit, false)
            == (if k as real * stop > limit then base.Floor else k) as real
  {
    assert Scaled(base, m) == base * m;
  }

  predicate SizedAs(k: int, q: int, budget: real, stop: real, m: real) {
    && MostShares(k, stop, budget * m)
    && (if k as real * stop <= budget * 1.01 then q == k else MostShares(q, stop, budget))
  }

  lemma ScaledMoney(base: real, m: real, stop: real)
    ensures base * m * stop == base * stop * m
  {
  }

  lemma FloorIsMost(x: real, stop: real, money: real)
    requires stop > 0.0 && x * stop == money
    ensures MostShares(x.Floor, stop, money)
  {
    var k := x.Floor;
    Ordered((k + 1) as real, x, stop);
    if x > k as real { Ordered(x, k as real, stop); }
  }

  lemma BaseTimesStop(budget: real, stop: real)
    requires budget >= 0.0 && stop > 0.0
    ensures budget / stop >= 0.0 && AtRisk(budget / stop * 1.01, stop) == budget * 1.01
  {
    var base := budget / stop;
    assert base * stop == budget;
    Cancel(base, stop);
    assert base * 1.01 * stop == base * stop * 1.01;
  }

  /** A size that came to nothing for a multiplier of at most two comes to nothing for every smaller one. */
  lemma NoSharesStays(base: real, m: real, m': real)
    requires base >= 0.0 && m' <= m <= 2.0 && NoShares(base, m)
    ensures NoShares(base, m')
  {
    var x, x' := base * m, base * m';
    ProductGrows(base, m', m);
    UnderTwo(base, m);
    assert x' <= x && (base < 1.0 ==> x < 2.0);
    assert SizedToNothing(base, x) && SizedToNothing(base, x');
  }

  lemma UnderTwo(base: real, m: real)
    requires base >= 0.0 && m <= 2.0
    ensures base < 1.0 ==> base * m < 2.0
  {
    var x := base * m;
    MulNonneg(2.0 - m, base);
    assert x <= 2.0 * base;
  }

  /** One dollar of stop and a hundred of budget: 1.01 buys 101 shares and 1.02 buys 100. */
  lemma QuantityNotMonotone()
    ensures CappedQuantity(100.0, 1.01, 1.0, 101.0, false) == 101.0
            && CappedQuantity(100.0, 1.02, 1.0, 101.0, false) == 100.0
  {
    assert 100.0 * 1.01 == 101.0 && 100.0 * 1.02 == 102.0;
  }
}
