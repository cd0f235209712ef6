/** The deterministic gate: every rule is evaluated and recorded, and the first failure in order is the
    blocking reason. Only a signal that fails nothing is sized. */
module RiskGate {
  import opened Outcomes
  import opened Market
  import opened Measures

  datatype Rule =
    | ManualPause | DailyLossLimit | WeeklyLossLimit | DailyProfitLock | HealthWatchdog | ConsecutiveLosses
    | MarketOpen | EntryWindow | SymbolActive | StrategyNotDemoted
    | MinScore | PositiveEv | MinRewardRisk | MinStopDistance
    | NoDuplicatePosition | MaxOpenPositions | PortfolioHeat | SymbolExposure | SectorExposure | CorrelationRule
    | Spread | OvernightGap | NewsWindow | SignalTtl
    | ComputedQuantity

  datatype Reason = Silent | Says(text: string) | HeatIs(heat: real) | SectorCap(sector: string)
                  | CorrelatedWith(other: Option<string>)

  datatype Check = Check(rule: Rule, passed: bool, reason: Reason)

  datatype RiskConfig = RiskConfig(
    sizing: SizingConfig, maxConsecutiveLosses: int, minScore: real, requirePositiveEv: bool, minRewardRisk: real,
    minStopDistanceAtr: real, maxOpenPositions: int, heatMax: real, maxSymbolExposure: real, maxSectorExposure: real,
    correlationEnabled: bool, correlationThreshold: real, lookback: nat, maxSpread: real, maxGap: real)

  datatype Signal = Signal(symbol: string, strategyId: string, direction: Direction, totalScore: real,
                           expectedValue: real, evIsBootstrap: bool, rewardRisk: real, stopDistance: real,
                           atr: Option<real>, expiresAt: int)

  datatype Situation = Situation(
    signal: Signal, account: Account, portfolio: Portfolio, stats: Stats, closes: map<string, seq<real>>,
    sector: string, spread: Option<real>, gap: Option<real>, newsBlocked: bool, marketOpen: bool,
    withinEntryWindow: bool, now: int)

  datatype Verdict = Pass | Reduce | Reject

  datatype GateResult = GateResult(verdict: Verdict, checks: seq<Check>, blockingReason: Option<Reason>,
                                   approvedQuantity: Option<real>, sizeMultiplier: real)

  // ---------------------------------------------------------------- what the rules mean

  function Only(on: bool, rule: Rule): seq<Rule> {
    if on then [rule] else []
  }

  function AccountRules(): seq<Rule> {
    [ManualPause, DailyLossLimit, WeeklyLossLimit, DailyProfitLock, HealthWatchdog, ConsecutiveLosses]
  }

  function AvailabilityRules(): seq<Rule> {
    [MarketOpen, EntryWindow, SymbolActive, StrategyNotDemoted]
  }

  function SignalRules(s: Situation, c: RiskConfig): seq<Rule> {
    [MinScore] + Only(c.requirePositiveEv, PositiveEv) + [MinRewardRisk] + Only(HasAtr(s.signal), MinStopDistance)
  }

  function BookRules(): seq<Rule> {
    [NoDuplicatePosition, MaxOpenPositions]
  }

  function ExposureRules(s: Situation): seq<Rule> {
    [PortfolioHeat, SymbolExposure] + Only(s.sector != "", SectorExposure)
  }

  function CorrelationRules(s: Situation, c: RiskConfig): seq<Rule> {
    Only(c.correlationEnabled && s.closes != map[], CorrelationRule)
  }

  function MarketRules(s: Situation): seq<Rule> {
    Only(s.spread.Some?, Spread) + Only(s.gap.Some?, OvernightGap)
  }

  function TimingRules(): seq<Rule> {
    [NewsWindow, SignalTtl]
  }

  /** The rules that apply, in order; which apply never depends on the open positions. */
  function Rules(s: Situation, c: RiskConfig): seq<Rule> {
    AccountRules() + AvailabilityRules() + SignalRules(s, c) + BookRules() + ExposureRules(s)
    + CorrelationRules(s, c) + MarketRules(s) + TimingRules()
  }

  predicate HasAtr(g: Signal) {
    g.atr.Some? && g.atr.value != 0.0
  }

  function CountOpen(ps: seq<Position>, symbol: string, strategyId: string): nat {
    if ps == [] then 0
    else
      var p := ps[|ps| - 1];
      CountOpen(ps[..|ps| - 1], symbol, strategyId)
      + (if p.symbol == symbol && p.strategyId == Some(strategyId) then 1 else 0)
  }

  function ExposureOf(s: Situation, c: RiskConfig, scope: Scope): real {
    Exposure(s.portfolio.positions, scope, s.account.balance, c.sizing.riskPerTradePct)
  }

  predicate CorrelationBlocks(s: Situation, c: RiskConfig, corr: Correlation) {
    Blocked(s.portfolio.positions, s.signal.symbol, s.signal.direction,
            s.closes, c.correlationThreshold, c.lookback, corr)
  }

  predicate Passes(rule: Rule, s: Situation, c: RiskConfig, corr: Correlation) {
    match rule
    case ManualPause => !s.account.manuallyPaused
    case DailyLossLimit => !s.account.haltedDaily
    case WeeklyLossLimit => !s.account.haltedWeekly
    case DailyProfitLock => !s.account.profitLocked
    case HealthWatchdog => s.account.healthOk
    case ConsecutiveLosses => s.account.consecutiveLosses < c.maxConsecutiveLosses
    case MarketOpen => s.marketOpen
    case EntryWindow => s.withinEntryWindow
    case SymbolActive => s.signal.symbol !in s.portfolio.pausedSymbols
    case StrategyNotDemoted => !s.stats.demoted
    case MinScore => s.signal.totalScore >= c.minScore
    case PositiveEv => s.signal.expectedValue > 0.0
    case MinRewardRisk => s.signal.rewardRisk >= c.minRewardRisk
    case MinStopDistance => HasAtr(s.signal) ==> s.signal.stopDistance / s.signal.atr.value >= c.minStopDistanceAtr
    case NoDuplicatePosition => CountOpen(s.portfolio.positions, s.signal.symbol, s.signal.strategyId) == 0
    case MaxOpenPositions => |s.portfolio.positions| < c.maxOpenPositions
    case PortfolioHeat => ExposureOf(s, c, Everything) < c.heatMax
    case SymbolExposure => ExposureOf(s, c, OfSymbol(s.signal.symbol)) + c.sizing.riskPerTradePct <= c.maxSymbolExposure
    case SectorExposure => ExposureOf(s, c, OfSector(s.sector)) + c.sizing.riskPerTradePct <= c.maxSectorExposure
    case CorrelationRule => !CorrelationBlocks(s, c, corr)
    case Spread => s.spread.Some? ==> s.spread.value <= c.maxSpread
    case OvernightGap => s.gap.Some? ==> Abs(s.gap.value) <= c.maxGap
    case NewsWindow => !s.newsBlocked
    case SignalTtl => s.now < s.signal.expiresAt
    case ComputedQuantity => true
  }

  function ReasonFor(rule: Rule, s: Situation, c: RiskConfig, corr: Correlation): Reason {
    match rule
    case ManualPause => Says("manually paused")
    case DailyLossLimit => Says("daily loss limit")
    case WeeklyLossLimit => Says("weekly loss limit")
    case DailyProfitLock => Says("daily profit lock")
    case HealthWatchdog => Says("health watchdog")
    case ConsecutiveLosses => Says("consec-loss cooldown")
    case MarketOpen => Says("market closed")
    case EntryWindow => Says("outside entry window")
    case SymbolActive => Says("symbol paused")
    case StrategyNotDemoted => Says("strategy demoted")
    case MinScore => Says("score below min")
    case PositiveEv =>
      if s.signal.expectedValue <= 0.0 then Says("non-positive EV")
      else if s.signal.evIsBootstrap then Says("bootstrap EV \U{2014} not yet a real filter") else Silent
    case MinRewardRisk => Says("reward:risk too low")
    case MinStopDistance => Says("stop too tight for volatility")
    case NoDuplicatePosition => Says("already open (strategy+symbol)")
    case MaxOpenPositions => Says("max open positions")
    case PortfolioHeat => HeatIs(ExposureOf(s, c, Everything))
    case SymbolExposure => Says("symbol exposure cap")
    case SectorExposure => SectorCap(s.sector)
    case CorrelationRule =>
      if CorrelationBlocks(s, c, corr)
      then CorrelatedWith(WorstSymbol(s.portfolio.positions, s.signal.symbol, s.signal.direction,
                                      s.closes, c.lookback, corr))
      else Silent
    case Spread => Says("spread too wide")
    case OvernightGap => Says("overnight gap too large")
    case NewsWindow => Says("inside news blackout window")
    case SignalTtl => Says("signal expired")
    case ComputedQuantity => Silent
  }

  /** The checks record exactly these rules, in this order, each with its own outcome and reason. */
  predicate Record(checks: seq<Check>, rules: seq<Rule>, s: Situation, c: RiskConfig, corr: Correlation) {
    && |checks| == |rules|
    && forall i :: 0 <= i < |checks| ==> Records(checks[i], rules[i], s, c, corr)
  }

  predicate Records(k: Check, rule: Rule, s: Situation, c: RiskConfig, corr: Correlation) {
    && k.rule == rule
    && (k.passed <==> Passes(rule, s, c, corr))
    && k.reason == ReasonFor(rule, s, c, corr)
  }

  lemma RecordConcat(a: seq<Check>, b: seq<Check>, ra: seq<Rule>, rb: seq<Rule>, s: Situation, c: RiskConfig,
                     corr: Correlation)
    requires Record(a, ra, s, c, corr) && Record(b, rb, s, c, corr)
    ensures Record(a + b, ra + rb, s, c, corr)
  {
  }

  lemma RecordSnoc(checks: seq<Check>, rules: seq<Rule>, k: Check, rule: Rule, s: Situation, c: RiskConfig,
                   corr: Correlation)
    requires Record(checks, rules, s, c, corr) && Records(k, rule, s, c, corr)
    ensures Record(checks + [k], rules + [rule], s, c, corr)
  {
  }

  // ---------------------------------------------------------------- the gate, section by section

  method CheckAccount(s: Situation, c: RiskConfig, corr: Correlation) returns (checks: seq<Check>)
    ensures Record(checks, AccountRules(), s, c, corr)
  {
    checks := [Check(ManualPause, !s.account.manuallyPaused, Says("manually paused"))];
    checks := checks + [Check(DailyLossLimit, !s.account.haltedDaily, Says("daily loss limit"))];
    checks := checks + [Check(WeeklyLossLimit, !s.account.haltedWeekly, Says("weekly loss limit"))];
    checks := checks + [Check(DailyProfitLock, !s.account.profitLocked, Says("daily profit lock"))];
    checks := checks + [Check(HealthWatchdog, s.account.healthOk, Says("health watchdog"))];
    checks := checks + [Check(ConsecutiveLosses, s.account.consecutiveLosses < c.maxConsecutiveLosses,
                              Says("consec-loss cooldown"))];
  }

  method CheckAvailability(s: Situation, c: RiskConfig, corr: Correlation) returns (checks: seq<Check>)
    ensures Record(checks, AvailabilityRules(), s, c, corr)
  {
    checks := [Check(MarketOpen, s.marketOpen, Says("market closed"))];
    checks := checks + [Check(EntryWindow, s.withinEntryWindow, Says("outside entry window"))];
    checks := checks + [Check(SymbolActive, s.signal.symbol !in s.portfolio.pausedSymbols, Says("symbol paused"))];
    checks := checks + [Check(StrategyNotDemoted, !s.stats.demoted, Says("strategy demoted"))];
  }

  method CheckSignal(s: Situation, c: RiskConfig, corr: Correlation) returns (checks: seq<Check>)
    ensures Record(checks, SignalRules(s, c), s, c, corr)
  {
    var g := s.signal;
    var score := Check(MinScore, g.totalScore >= c.minScore, Says("score below min"));
    RecordSnoc([], [], score, MinScore, s, c, corr);
    checks := [score];
    ghost var rules := [MinScore];
    if c.requirePositiveEv {
      var evOk := g.expectedValue > 0.0;
      var note := if !evOk then Says("non-positive EV")
                  else if g.evIsBootstrap then Says("bootstrap EV \U{2014} not yet a real filter") else Silent;
      var ev := Check(PositiveEv, evOk, note);
      RecordSnoc(checks, rules, ev, PositiveEv, s, c, corr);
      checks, rules := checks + [ev], rules + [PositiveEv];
    }
    var reward := Check(MinRewardRisk, g.rewardRisk >= c.minRewardRisk, Says("reward:risk too low"));
    RecordSnoc(checks, rules, reward, MinRewardRisk, s, c, corr);
    checks, rules := checks + [reward], rules + [MinRewardRisk];
    if g.atr.Some? && g.atr.value != 0.0 {
      var ratio := g.stopDistance / g.atr.value;
      var stop := Check(MinStopDistance, ratio >= c.minStopDistanceAtr, Says("stop too tight for volatility"));
      RecordSnoc(checks, rules, stop, MinStopDistance, s, c, corr);
      checks, rules := checks + [stop], rules + [MinStopDistance];
    }
    assert rules == SignalRules(s, c);
  }

  method CountOpenPositions(ps: seq<Position>, symbol: string, strategyId: string) returns (n: nat)
    ensures n == CountOpen(ps, symbol, strategyId)
  {
    n := 0;
    for i := 0 to |ps|
      invariant n == CountOpen(ps[..i], symbol, strategyId)
    {
      TakeSnoc(ps, i);
      if ps[i].symbol == symbol && ps[i].strategyId == Some(strategyId) { n := n + 1; }
    }
    assert ps[..|ps|] == ps;
  }

  method CheckBook(s: Situation, c: RiskConfig, corr: Correlation) returns (checks: seq<Check>)
    ensures Record(checks, BookRules(), s, c, corr)
  {
    var ps := s.portfolio.positions;
    var already := CountOpenPositions(ps, s.signal.symbol, s.signal.strategyId);
    checks := [Check(NoDuplicatePosition, already == 0, Says("already open (strategy+symbol)"))];
    checks := checks + [Check(MaxOpenPositions, |ps| < c.maxOpenPositions, Says("max open positions"))];
  }

  method CheckExposure(s: Situation, c: RiskConfig, corr: Correlation) returns (checks: seq<Check>)
    ensures Record(checks, ExposureRules(s), s, c, corr)
  {
    var ps, balance, risk := s.portfolio.positions, s.account.balance, c.sizing.riskPerTradePct;
    var heat := ExposurePct(ps, Everything, balance, risk);
    checks := [Check(PortfolioHeat, heat < c.heatMax, HeatIs(heat))];
    var symbolExposure := ExposurePct(ps, OfSymbol(s.signal.symbol), balance, risk);
    checks := checks + [Check(SymbolExposure, symbolExposure + risk <= c.maxSymbolExposure,
                              Says("symbol exposure cap"))];
    if s.sector != "" {
      var sectorExposure := ExposurePct(ps, OfSector(s.sector), balance, risk);
      checks := checks + [Check(SectorExposure, sectorExposure + risk <= c.maxSectorExposure, SectorCap(s.sector))];
    }
  }

  method CheckCorrelation(s: Situation, c: RiskConfig, corr: Correlation) returns (checks: seq<Check>)
    ensures Record(checks, CorrelationRules(s, c), s, c, corr)
  {
    checks := [];
    if c.correlationEnabled && s.closes != map[] {
      var blocked, other, r := HasCorrelatedSameDirection(s.portfolio.positions, s.signal.symbol, s.signal.direction,
                                                          s.closes, c.correlationThreshold, c.lookback, corr);
      checks := checks + [Check(CorrelationRule, !blocked, if blocked then CorrelatedWith(other) else Silent)];
    }
  }

  method CheckMarket(s: Situation, c: RiskConfig, corr: Correlation) returns (checks: seq<Check>)
    ensures Record(checks, MarketRules(s), s, c, corr)
  {
    checks := [];
    ghost var rules := [];
    if s.spread.Some? {
      var spread := Check(Spread, s.spread.value <= c.maxSpread, Says("spread too wide"));
      RecordSnoc(checks, rules, spread, Spread, s, c, corr);
      checks, rules := checks + [spread], rules + [Spread];
    }
    if s.gap.Some? {
      var gap := Check(OvernightGap, Abs(s.gap.value) <= c.maxGap, Says("overnight gap too large"));
      RecordSnoc(checks, rules, gap, OvernightGap, s, c, corr);
      checks, rules := checks + [gap], rules + [OvernightGap];
    }
    assert rules == MarketRules(s);
  }

  method CheckTiming(s: Situation, c: RiskConfig, corr: Correlation) returns (checks: seq<Check>)
    ensures Record(checks, TimingRules(), s, c, corr)
  {
    checks := [Check(NewsWindow, !s.newsBlocked, Says("inside news blackout window"))];
    checks := checks + [Check(SignalTtl, s.now < s.signal.expiresAt, Says("signal expired"))];
  }

  // ---------------------------------------------------------------- the verdict

  /** The rules one after the other, stopping at the first that fails. */
  function FirstFailure(rules: seq<Rule>, s: Situation, c: RiskConfig, corr: Correlation): (r: Option<Rule>)
    ensures r.None? <==> forall rule :: rule in rules ==> Passes(rule, s, c, corr)
  {
    if rules == [] then None
    else if !Passes(rules[0], s, c, corr) then Some(rules[0])
    else FirstFailure(rules[1..], s, c, corr)
  }

  /** What a gate that stopped at the first failure would say, and the size it would grant. */
  ghost predicate ShortCircuits(r: GateResult, s: Situation, c: RiskConfig, corr: Correlation) {
    match FirstFailure(Rules(s, c), s, c, corr)
    case Some(rule) =>
      && r.verdict == Reject && r.blockingReason == Some(ReasonFor(rule, s, c, corr))
      && r.blockingReason != Some(Silent)
      && r.approvedQuantity == None && r.sizeMultiplier == 1.0
    case None => Granted(r, s, c)
  }

  ghost predicate Granted(r: GateResult, s: Situation, c: RiskConfig) {
    var shares := SharesOf(s, c);
    if shares <= 0.0 then
      r.verdict == Reject && r.blockingReason == Some(Says("computed size rounds to zero shares"))
      && r.approvedQuantity == None && r.sizeMultiplier == 1.0
    else
      && r.blockingReason == None && r.approvedQuantity == Some(shares)
      && r.sizeMultiplier == Round(MultiplierOf(s, c), 10000.0)
      && r.verdict == if r.sizeMultiplier < 1.0 then Reduce else Pass
  }

  function MultiplierOf(s: Situation, c: RiskConfig): real {
    Multiplier(s.account, s.portfolio.positions, s.stats, c.sizing)
  }

  function SharesOf(s: Situation, c: RiskConfig): real {
    if s.signal.stopDistance <= 0.0 || s.account.balance <= 0.0 then 0.0
    else SharesFor(Budget(s.account, c.sizing), s.signal.stopDistance, MultiplierOf(s, c))
  }

  /** A failing rule always has something to say, so the rule's own name is never needed in its place. */
  lemma FailureSpeaks(rule: Rule, s: Situation, c: RiskConfig, corr: Correlation)
    requires !Passes(rule, s, c, corr)
    ensures ReasonFor(rule, s, c, corr) != Silent
  {
  }

  method FirstFailed(checks: seq<Check>) returns (first: Option<Check>)
    ensures first.None? <==> forall i :: 0 <= i < |checks| ==> checks[i].passed
    ensures first.Some? ==> exists i :: FirstFailedAt(checks, i) && checks[i] == first.value
  {
    var i := 0;
    while i < |checks|
      invariant 0 <= i <= |checks|
      invariant forall j :: 0 <= j < i ==> checks[j].passed
    {
      if !checks[i].passed {
        assert FirstFailedAt(checks, i);
        return Some(checks[i]);
      }
      i := i + 1;
    }
    first := None;
  }

  predicate FirstFailedAt(checks: seq<Check>, i: int) {
    0 <= i < |checks| && !checks[i].passed && forall j :: 0 <= j < i ==> checks[j].passed
  }

  /** The first failure of a complete record is the failure a gate that stops early meets. */
  lemma {:induction false} RecordFindsFirst(checks: seq<Check>, rules: seq<Rule>, i: int, s: Situation, c: RiskConfig,
                                            corr: Correlation)
    requires Record(checks, rules, s, c, corr) && FirstFailedAt(checks, i)
    ensures FirstFailure(rules, s, c, corr) == Some(checks[i].rule)
  {
    assert Records(checks[0], rules[0], s, c, corr);
    if i > 0 {
      RecordTail(checks, rules, s, c, corr);
      RecordFindsFirst(checks[1..], rules[1..], i - 1, s, c, corr);
    }
  }

  lemma RecordTail(checks: seq<Check>, rules: seq<Rule>, s: Situation, c: RiskConfig, corr: Correlation)
    requires Record(checks, rules, s, c, corr) && checks != []
    ensures Record(checks[1..], rules[1..], s, c, corr)
  {
    forall i | 0 <= i < |checks| - 1
      ensures Records(checks[1..][i], rules[1..][i], s, c, corr)
    {
      assert Records(checks[i + 1], rules[i + 1], s, c, corr);
    }
  }

  lemma AllPassed(checks: seq<Check>, rules: seq<Rule>, s: Situation, c: RiskConfig, corr: Correlation)
    requires Record(checks, rules, s, c, corr) && forall i :: 0 <= i < |checks| ==> checks[i].passed
    ensures FirstFailure(rules, s, c, corr) == None
  {
    forall rule | rule in rules
      ensures Passes(rule, s, c, corr)
    {
      var i :| 0 <= i < |rules| && rules[i] == rule;
      assert Records(checks[i], rules[i], s, c, corr);
    }
  }

  method CheckEverything(s: Situation, c: RiskConfig, corr: Correlation) returns (checks: seq<Check>)
    ensures Record(checks, Rules(s, c), s, c, corr)
  {
    checks := CheckAccount(s, c, corr);
    ghost var rules := AccountRules();
    var more := CheckAvailability(s, c, corr);
    RecordConcat(checks, more, rules, AvailabilityRules(), s, c, corr);
    checks, rules := checks + more, rules + AvailabilityRules();
    more := CheckSignal(s, c, corr);
    RecordConcat(checks, more, rules, SignalRules(s, c), s, c, corr);
    checks, rules := checks + more, rules + SignalRules(s, c);
    more := CheckBook(s, c, corr);
    RecordConcat(checks, more, rules, BookRules(), s, c, corr);
    checks, rules := checks + more, rules + BookRules();
    more := CheckExposure(s, c, corr);
    RecordConcat(checks, more, rules, ExposureRules(s), s, c, corr);
    checks, rules := checks + more, rules + ExposureRules(s);
    more := CheckCorrelation(s, c, corr);
    RecordConcat(checks, more, rules, CorrelationRules(s, c), s, c, corr);
    checks, rules := checks + more, rules + CorrelationRules(s, c);
    more := CheckMarket(s, c, corr);
    RecordConcat(checks, more, rules, MarketRules(s), s, c, corr);
    checks, rules := checks + more, rules + MarketRules(s);
    more := CheckTiming(s, c, corr);
    RecordConcat(checks, more, rules, TimingRules(), s, c, corr);
    checks := checks + more;
  }

  /** Evaluates every rule, yet decides exactly what a gate stopping at the first failure decides; the record
      holds every rule either way, and the size check last when the rules all pass. */
  method Evaluate(s: Situation, c: RiskConfig, corr: Correlation) returns (r: GateResult)
    ensures ShortCircuits(r, s, c, corr)
    ensures |r.checks| >= |Rules(s, c)| && Record(r.checks[..|Rules(s, c)|], Rules(s, c), s, c, corr)
    ensures FirstFailure(Rules(s, c), s, c, corr).Some? ==> |r.checks| == |Rules(s, c)|
    ensures FirstFailure(Rules(s, c), s, c, corr).None? ==>
              |r.checks| == |Rules(s, c)| + 1 && r.checks[|Rules(s, c)|].rule == ComputedQuantity
              && (r.checks[|Rules(s, c)|].passed <==> SharesOf(s, c) > 0.0)
  {
    var checks := CheckEverything(s, c, corr);
    var first := FirstFailed(checks);
    assert checks[..|Rules(s, c)|] == checks;
    if first.Some? {
      ghost var i :| FirstFailedAt(checks, i) && checks[i] == first.value;
      RecordFindsFirst(checks, Rules(s, c), i, s, c, corr);
      assert Records(checks[i], Rules(s, c)[i], s, c, corr);
      FailureSpeaks(Rules(s, c)[i], s, c, corr);
      return GateResult(Reject, checks, Some(first.value.reason), None, 1.0);
    }
    AllPassed(checks, Rules(s, c), s, c, corr);
    r := SizeIt(s, c, checks);
  }

  method SizeIt(s: Situation, c: RiskConfig, checks: seq<Check>) returns (r: GateResult)
    ensures Granted(r, s, c)
    ensures |r.checks| == |checks| + 1 && r.checks[..|checks|] == checks
    ensures r.checks[|checks|].rule == ComputedQuantity && (r.checks[|checks|].passed <==> SharesOf(s, c) > 0.0)
  {
    var sizing := SizePosition(s.account, s.portfolio.positions, s.signal.stopDistance, s.stats, c.sizing, false);
    if s.signal.stopDistance > 0.0 && s.account.balance > 0.0 {
      SizedShares(sizing, Budget(s.account, c.sizing), s.signal.stopDistance, MultiplierOf(s, c));
    }
    assert sizing.quantity == SharesOf(s, c);
    var note := Says("computed size rounds to zero shares");
    if sizing.quantity <= 0.0 {
      return GateResult(Reject, checks + [Check(ComputedQuantity, false, note)], Some(note), None, 1.0);
    }
    r := GateResult(if sizing.multiplier < 1.0 then Reduce else Pass, checks + [Check(ComputedQuantity, true, Silent)],
                    None, Some(sizing.quantity), sizing.multiplier);
  }

  // ---------------------------------------------------------------- one more position

  function WithPosition(s: Situation, at: nat, p: Position): Situation
    requires at <= |s.portfolio.positions|
  {
    s.(portfolio := s.portfolio.(positions := Insert(s.portfolio.positions, at, p)))
  }

  lemma {:induction false} CountConcat(a: seq<Position>, b: seq<Position>, symbol: string, strategyId: string)
    ensures CountOpen(a + b, symbol, strategyId) == CountOpen(a, symbol, strategyId) + CountOpen(b, symbol, strategyId)
  {
    if b == [] {
      assert a + b == a;
    } else {
      assert (a + b)[..|a + b| - 1] == a + b[..|b| - 1];
      CountConcat(a, b[..|b| - 1], symbol, strategyId);
    }
  }

  lemma CountGrows(ps: seq<Position>, at: nat, p: Position, symbol: string, strategyId: string)
    requires at <= |ps|
    ensures CountOpen(Insert(ps, at, p), symbol, strategyId) >= CountOpen(ps, symbol, strategyId)
  {
    CountConcat(ps[..at] + [p], ps[at..], symbol, strategyId);
    CountConcat(ps[..at], [p], symbol, strategyId);
    CountConcat(ps[..at], ps[at..], symbol, strategyId);
    assert ps[..at] + ps[at..] == ps;
  }

  /** No rule that failed passes in a fuller book. */
  lemma FailureStays(rule: Rule, s: Situation, at: nat, p: Position, c: RiskConfig, corr: Correlation)
    requires at <= |s.portfolio.positions| && p.quantity >= 0.0 && c.sizing.riskPerTradePct >= 0.0
    requires !Passes(rule, s, c, corr)
    ensures !Passes(rule, WithPosition(s, at, p), c, corr)
  {
    var ps, balance, risk := s.portfolio.positions, s.account.balance, c.sizing.riskPerTradePct;
    match rule
    case NoDuplicatePosition => CountGrows(ps, at, p, s.signal.symbol, s.signal.strategyId);
    case PortfolioHeat => ExposureGrows(ps, at, p, Everything, balance, risk);
    case SymbolExposure => ExposureGrows(ps, at, p, OfSymbol(s.signal.symbol), balance, risk);
    case SectorExposure => ExposureGrows(ps, at, p, OfSector(s.sector), balance, risk);
    case CorrelationRule =>
      BlockedGrows(ps, at, p, s.signal.symbol, s.signal.direction, s.closes, c.correlationThreshold, c.lookback, corr);
    case _ =>
  }

  /** A rejected signal stays rejected in a fuller book: by a rule no later in the order if a rule rejected it,
      and for want of size, or by a rule, if its size came to nothing. */
  lemma GateIsMonotone(s: Situation, at: nat, p: Position, c: RiskConfig, corr: Correlation, r: GateResult,
                       r': GateResult)
    requires at <= |s.portfolio.positions| && p.quantity >= 0.0 && TameSizing(c.sizing)
    requires ShortCircuits(r, s, c, corr) && ShortCircuits(r', WithPosition(s, at, p), c, corr)
    ensures r.verdict == Reject ==> r'.verdict == Reject
    ensures FirstFailureIndex(Rules(WithPosition(s, at, p), c), WithPosition(s, at, p), c, corr) <=
            FirstFailureIndex(Rules(s, c), s, c, corr)
  {
    var s' := WithPosition(s, at, p);
    assert Rules(s', c) == Rules(s, c);
    FailsNoLater(Rules(s, c), s, at, p, c, corr);
    GateReopensExactly(s, at, p, c, corr, r, r');
    MultiplierFalls(s.account, s.portfolio.positions, at, p, s.stats, c.sizing);
    if s.signal.stopDistance > 0.0 && s.account.balance > 0.0 {
      BudgetNonneg(s.account, c.sizing);
      BaseTimesStop(Budget(s.account, c.sizing), s.signal.stopDistance);
      if NoShares(BaseOf(s, c), MultiplierOf(s, c)) {
        NoSharesStays(BaseOf(s, c), MultiplierOf(s, c), MultiplierOf(s', c));
      }
    }
  }

  /** Shares for a multiplier of one. */
  function BaseOf(s: Situation, c: RiskConfig): real
    requires s.signal.stopDistance > 0.0
  {
    Budget(s.account, c.sizing) / s.signal.stopDistance
  }

  /** The size comes to nothing for this multiplier. */
  predicate Sizeless(s: Situation, c: RiskConfig, m: real) {
    s.signal.stopDistance <= 0.0 || s.account.balance <= 0.0 || NoShares(BaseOf(s, c), m)
  }

  lemma SizelessExactly(s: Situation, c: RiskConfig)
    requires c.sizing.riskPerTradePct >= 0.0
    ensures SharesOf(s, c) <= 0.0 <==> Sizeless(s, c, MultiplierOf(s, c))
  {
    if s.signal.stopDistance > 0.0 && s.account.balance > 0.0 {
      BudgetNonneg(s.account, c.sizing);
      BaseTimesStop(Budget(s.account, c.sizing), s.signal.stopDistance);
      NoSharesExactly(BaseOf(s, c), s.signal.stopDistance, Budget(s.account, c.sizing) * 1.01, MultiplierOf(s, c));
    }
  }

  /** For every configuration of the size factors: a fuller book turns a rejection into an approval exactly when no
      rule fails in it, the multiplier of the emptier book bought nothing, and that of the fuller book buys a share. */
  lemma GateReopensExactly(s: Situation, at: nat, p: Position, c: RiskConfig, corr: Correlation, r: GateResult,
                           r': GateResult)
    requires at <= |s.portfolio.positions| && p.quantity >= 0.0 && c.sizing.riskPerTradePct >= 0.0
    requires ShortCircuits(r, s, c, corr) && ShortCircuits(r', WithPosition(s, at, p), c, corr)
    ensures var s' := WithPosition(s, at, p);
            r.verdict == Reject && r'.verdict != Reject <==>
            && FirstFailure(Rules(s', c), s', c, corr).None?
            && Sizeless(s, c, MultiplierOf(s, c))
            && !Sizeless(s, c, MultiplierOf(s', c))
  {
    var s' := WithPosition(s, at, p);
    assert Rules(s', c) == Rules(s, c);
    FailsNoLater(Rules(s, c), s, at, p, c, corr);
    IndexOfFailure(Rules(s, c), s, c, corr);
    IndexOfFailure(Rules(s, c), s', c, corr);
    SizelessExactly(s, c);
    SizelessExactly(s', c);
  }

  // ---------------------------------------------------------------- a book that reopens the gate

  /** Kelly at three times the base size, halved when the book is hot, clamped at three. */
  function LooseConfig(): RiskConfig {
    RiskConfig(SizingConfig(1.0, true, 0, 2.0, 0.5, 3.0, 1.0, 0.5, 0.5, 0.25, 3.0),
               6, 48.0, false, 1.5, 0.5, 5, 8.0, 4.0, 6.0, false, 0.7, 30, 0.15, 3.0)
  }

  /** A budget of 199 on a stop of 200: nearly one share. */
  function NearlyOneShare(): Situation {
    Situation(Signal("X", "S7", Buy, 50.0, 0.0, false, 2.0, 200.0, None, 1),
              Account(19900.0, 19900.0, 0.0, false, false, false, false, true, false, 0, true, false),
              Portfolio([], {}), Stats(30, 1.0, 1.0, 1.0, false), map[], "", None, None, false, true, true, 0)
  }

  function Unstopped(): Position {
    Position("Y", Buy, 1.0, 10.0, None, None, None)
  }

  /** The empty book rejects the signal, three times nearly one share being capped to none; one open position
      elsewhere makes the book hot, and one and a half times nearly one share is one. */
  lemma HotterBookReopensTheGate(corr: Correlation, r: GateResult, r': GateResult)
    requires ShortCircuits(r, NearlyOneShare(), LooseConfig(), corr)
    requires ShortCircuits(r', WithPosition(NearlyOneShare(), 0, Unstopped()), LooseConfig(), corr)
    ensures r.verdict == Reject && r'.verdict != Reject
  {
    var s, c, p := NearlyOneShare(), LooseConfig(), Unstopped();
    AllRulesPass(corr);
    MultipliersAre();
    SizesAre();
    GateReopensExactly(s, 0, p, c, corr, r, r');
  }

  /** The gate itself, on both books. */
  method EvaluateBothBooks(corr: Correlation) returns (r: GateResult, r': GateResult)
    ensures r.verdict == Reject && r'.verdict != Reject
  {
    r := Evaluate(NearlyOneShare(), LooseConfig(), corr);
    r' := Evaluate(WithPosition(NearlyOneShare(), 0, Unstopped()), LooseConfig(), corr);
    HotterBookReopensTheGate(corr, r, r');
  }

  lemma SizesAre()
    ensures Sizeless(NearlyOneShare(), LooseConfig(), 3.0) && !Sizeless(NearlyOneShare(), LooseConfig(), 1.5)
  {
    assert BaseOf(NearlyOneShare(), LooseConfig()) == 0.995;
    assert NoShares(0.995, 3.0) && !NoShares(0.995, 1.5);
  }

  lemma ExposuresAre()
    ensures Exposure([Unstopped()], Everything, 19900.0, 1.0) == 1.0
    ensures Exposure([Unstopped()], OfSymbol("X"), 19900.0, 1.0) == 0.0
    ensures forall scope :: Exposure([], scope, 19900.0, 1.0) == 0.0
  {
    var ps := [Unstopped()];
    assert ps[..0] == [];
    assert "Y"[0] != "X"[0];
    assert Nearest(10000.0) == 10000 && Nearest(0.0) == 0;
  }

  lemma MultipliersAre()
    ensures MultiplierOf(NearlyOneShare(), LooseConfig()) == 3.0
    ensures MultiplierOf(WithPosition(NearlyOneShare(), 0, Unstopped()), LooseConfig()) == 1.5
  {
    ExposuresAre();
    var s := NearlyOneShare();
    assert Insert(s.portfolio.positions, 0, Unstopped()) == [Unstopped()];
    assert KellyMultiplier(s.stats, s.account, LooseConfig().sizing) == 3.0;
  }

  lemma AllRulesPass(corr: Correlation)
    ensures var s := WithPosition(NearlyOneShare(), 0, Unstopped());
            FirstFailure(Rules(s, LooseConfig()), s, LooseConfig(), corr).None?
  {
    var s, c := WithPosition(NearlyOneShare(), 0, Unstopped()), LooseConfig();
    assert s.portfolio.positions == [Unstopped()];
    ExposuresAre();
    assert [Unstopped()][..0] == [];
    assert CountOpen([Unstopped()], "X", "S7") == 0;
    forall rule | rule in Rules(s, c)
      ensures Passes(rule, s, c, corr)
    {
    }
  }

  /** How many rules pass before the first that does not. */
  function FirstFailureIndex(rules: seq<Rule>, s: Situation, c: RiskConfig, corr: Correlation): nat {
    if rules == [] || !Passes(rules[0], s, c, corr) then 0 else 1 + FirstFailureIndex(rules[1..], s, c, corr)
  }

  lemma {:induction false} IndexOfFailure(rules: seq<Rule>, s: Situation, c: RiskConfig, corr: Correlation)
    ensures FirstFailureIndex(rules, s, c, corr) <= |rules|
    ensures FirstFailureIndex(rules, s, c, corr) < |rules| <==> FirstFailure(rules, s, c, corr).Some?
    ensures FirstFailure(rules, s, c, corr).Some? ==>
              FirstFailure(rules, s, c, corr).value == rules[FirstFailureIndex(rules, s, c, corr)]
  {
    if rules != [] {
      IndexOfFailure(rules[1..], s, c, corr);
    }
  }

  lemma {:induction false} FailsNoLater(rules: seq<Rule>, s: Situation, at: nat, p: Position, c: RiskConfig,
                                        corr: Correlation)
    requires at <= |s.portfolio.positions| && p.quantity >= 0.0 && c.sizing.riskPerTradePct >= 0.0
    ensures FirstFailureIndex(rules, WithPosition(s, at, p), c, corr) <= FirstFailureIndex(rules, s, c, corr)
  {
    if rules != [] {
      FailsNoLater(rules[1..], s, at, p, c, corr);
      if !Passes(rules[0], s, c, corr) {
        FailureStays(rules[0], s, at, p, c, corr);
      }
    }
  }
}
