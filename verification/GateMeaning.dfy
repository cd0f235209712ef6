/** The verdict of the gate from the situation itself: which rules apply, in which order, and exactly when a signal
    gets through. */
module GateMeaning {
  import opened Outcomes
  import opened Market
  import opened Measures
  import opened RiskGate

  /** Where each rule stands. */
  function Rank(rule: Rule): nat {
    match rule
    case ManualPause => 0
    case DailyLossLimit => 1
    case WeeklyLossLimit => 2
    case DailyProfitLock => 3
    case HealthWatchdog => 4
    case ConsecutiveLosses => 5
    case MarketOpen => 6
    case EntryWindow => 7
    case SymbolActive => 8
    case StrategyNotDemoted => 9
    case MinScore => 10
    case PositiveEv => 11
    case MinRewardRisk => 12
    case MinStopDistance => 13
    case NoDuplicatePosition => 14
    case MaxOpenPositions => 15
    case PortfolioHeat => 16
    case SymbolExposure => 17
    case SectorExposure => 18
    case CorrelationRule => 19
    case Spread => 20
    case OvernightGap => 21
    case NewsWindow => 22
    case SignalTtl => 23
    case ComputedQuantity => 24
  }

  /** A rule whose input is missing or switched off is not applied. */
  predicate Applies(rule: Rule, s: Situation, c: RiskConfig) {
    match rule
    case PositiveEv => c.requirePositiveEv
    case MinStopDistance => s.signal.atr.Some? && s.signal.atr.value != 0.0
    case SectorExposure => s.sector != ""
    case CorrelationRule => c.correlationEnabled && s.closes != map[]
    case Spread => s.spread.Some?
    case OvernightGap => s.gap.Some?
    case ComputedQuantity => false
    case _ => true
  }

  predicate Ascends(rules: seq<Rule>, lo: nat, hi: nat) {
    && (forall i :: 0 <= i < |rules| ==> lo <= Rank(rules[i]) < hi)
    && forall i, j :: 0 <= i < j < |rules| ==> Rank(rules[i]) < Rank(rules[j])
  }

  lemma AscendsConcat(a: seq<Rule>, b: seq<Rule>, lo: nat, mid: nat, hi: nat)
    requires lo <= mid <= hi && Ascends(a, lo, mid) && Ascends(b, mid, hi)
    ensures Ascends(a + b, lo, hi)
  {
  }

  /** Exactly the rules that apply are evaluated. */
  lemma RulesExactly(s: Situation, c: RiskConfig, rule: Rule)
    ensures rule in Rules(s, c) <==> Applies(rule, s, c)
  {
    EarlyRules(s, c, rule);
    LateRules(s, c, rule);
  }

  lemma EarlyRules(s: Situation, c: RiskConfig, rule: Rule)
    ensures rule in AccountRules() + AvailabilityRules() + SignalRules(s, c) <==> Applies(rule, s, c) && Rank(rule) < 14
  {
    assert rule in SignalRules(s, c) <==> Applies(rule, s, c) && 10 <= Rank(rule) < 14;
  }

  lemma LateRules(s: Situation, c: RiskConfig, rule: Rule)
    ensures rule in BookRules() + ExposureRules(s) + CorrelationRules(s, c) + MarketRules(s) + TimingRules()
            <==> Applies(rule, s, c) && 14 <= Rank(rule)
  {
    assert rule in ExposureRules(s) <==> Applies(rule, s, c) && 16 <= Rank(rule) < 19;
    assert rule in MarketRules(s) <==> Applies(rule, s, c) && 20 <= Rank(rule) < 22;
  }

  /** They are evaluated in the order of their ranks. */
  lemma RulesAscend(s: Situation, c: RiskConfig)
    ensures Ascends(Rules(s, c), 0, 24)
  {
    FixedAscend();
    SignalAscends(s, c);
    ExposureAscends(s);
    OnlyAscends(c.correlationEnabled && s.closes != map[], CorrelationRule);
    MarketAscends(s);
    var head := AccountRules() + AvailabilityRules();
    AscendsConcat(AccountRules(), AvailabilityRules(), 0, 6, 10);
    AscendsConcat(head, SignalRules(s, c), 0, 10, 14);
    AscendsConcat(head + SignalRules(s, c), BookRules(), 0, 14, 16);
    var upToBook := head + SignalRules(s, c) + BookRules();
    AscendsConcat(upToBook, ExposureRules(s), 0, 16, 19);
    AscendsConcat(upToBook + ExposureRules(s), CorrelationRules(s, c), 0, 19, 20);
    var upToCorrelation := upToBook + ExposureRules(s) + CorrelationRules(s, c);
    AscendsConcat(upToCorrelation, MarketRules(s), 0, 20, 22);
    AscendsConcat(upToCorrelation + MarketRules(s), TimingRules(), 0, 22, 24);
  }

  lemma FixedAscend()
    ensures Ascends(AccountRules(), 0, 6) && Ascends(AvailabilityRules(), 6, 10)
    ensures Ascends(BookRules(), 14, 16) && Ascends(TimingRules(), 22, 24)
  {
  }

  lemma OnlyAscends(on: bool, rule: Rule)
    ensures Ascends(Only(on, rule), Rank(rule), Rank(rule) + 1)
  {
  }

  lemma SignalAscends(s: Situation, c: RiskConfig)
    ensures Ascends(SignalRules(s, c), 10, 14)
  {
    var ev, stop := Only(c.requirePositiveEv, PositiveEv), Only(HasAtr(s.signal), MinStopDistance);
    OnlyAscends(c.requirePositiveEv, PositiveEv);
    OnlyAscends(HasAtr(s.signal), MinStopDistance);
    OnlyAscends(true, MinScore);
    OnlyAscends(true, MinRewardRisk);
    AscendsConcat([MinScore], ev, 10, 11, 12);
    AscendsConcat([MinScore] + ev, [MinRewardRisk], 10, 12, 13);
    AscendsConcat([MinScore] + ev + [MinRewardRisk], stop, 10, 13, 14);
  }

  lemma ExposureAscends(s: Situation)
    ensures Ascends(ExposureRules(s), 16, 19)
  {
    OnlyAscends(s.sector != "", SectorExposure);
    TwoAscend();
    AscendsConcat([PortfolioHeat, SymbolExposure], Only(s.sector != "", SectorExposure), 16, 18, 19);
  }

  lemma TwoAscend()
    ensures Ascends([PortfolioHeat, SymbolExposure], 16, 18)
  {
  }

  lemma MarketAscends(s: Situation)
    ensures Ascends(MarketRules(s), 20, 22)
  {
    OnlyAscends(s.spread.Some?, Spread);
    OnlyAscends(s.gap.Some?, OvernightGap);
    AscendsConcat(Only(s.spread.Some?, Spread), Only(s.gap.Some?, OvernightGap), 20, 21, 22);
  }

  // ---------------------------------------------------------------- exactly when a signal gets through

  predicate AccountAllows(a: Account, c: RiskConfig) {
    && !a.manuallyPaused && !a.haltedDaily && !a.haltedWeekly && !a.profitLocked && a.healthOk
    && a.consecutiveLosses < c.maxConsecutiveLosses
  }

  predicate SignalIsGood(s: Situation, c: RiskConfig) {
    && s.marketOpen && s.withinEntryWindow && !s.newsBlocked && s.now < s.signal.expiresAt
    && s.signal.symbol !in s.portfolio.pausedSymbols && !s.stats.demoted
    && s.signal.totalScore >= c.minScore && s.signal.rewardRisk >= c.minRewardRisk
    && (c.requirePositiveEv ==> s.signal.expectedValue > 0.0)
    && (s.signal.atr.Some? && s.signal.atr.value != 0.0 ==>
          s.signal.stopDistance / s.signal.atr.value >= c.minStopDistanceAtr)
    && (s.spread.Some? ==> s.spread.value <= c.maxSpread)
    && (s.gap.Some? ==> -c.maxGap <= s.gap.value <= c.maxGap)
  }

  /** The book holds no position of this strategy in this symbol, has room, and no exposure reaches its cap. */
  predicate BookHasRoom(s: Situation, c: RiskConfig) {
    var ps, balance, unit := s.portfolio.positions, s.account.balance, c.sizing.riskPerTradePct;
    && (forall p :: p in ps ==> !(p.symbol == s.signal.symbol && p.strategyId == Some(s.signal.strategyId)))
    && |ps| < c.maxOpenPositions
    && Exposure(ps, Everything, balance, unit) < c.heatMax
    && Exposure(ps, OfSymbol(s.signal.symbol), balance, unit) + unit <= c.maxSymbolExposure
    && (s.sector != "" ==> Exposure(ps, OfSector(s.sector), balance, unit) + unit <= c.maxSectorExposure)
  }

  predicate Uncorrelated(s: Situation, c: RiskConfig, corr: Correlation) {
    c.correlationEnabled && s.closes != map[] ==>
      !Blocked(s.portfolio.positions, s.signal.symbol, s.signal.direction, s.closes, c.correlationThreshold, c.lookback,
               corr)
  }

  /** A signal is approved exactly when the account may trade, the signal is good, the book has room for it, nothing
      open correlates with it, and its size comes to at least one share; it is then approved for that size, reduced
      exactly when the rounded multiplier is below one. */
  lemma ApprovesExactly(r: GateResult, s: Situation, c: RiskConfig, corr: Correlation, budget: real)
    requires ShortCircuits(r, s, c, corr) && budget == s.account.balance * c.sizing.riskPerTradePct / 100.0
    ensures r.verdict != Reject <==>
            && AccountAllows(s.account, c) && SignalIsGood(s, c) && BookHasRoom(s, c) && Uncorrelated(s, c, corr)
            && s.signal.stopDistance > 0.0 && s.account.balance > 0.0
            && SharesFor(budget, s.signal.stopDistance,
                         Multiplier(s.account, s.portfolio.positions, s.stats, c.sizing)) > 0.0
    ensures r.verdict != Reject ==>
              && r.blockingReason.None?
              && r.approvedQuantity
                 == Some(SharesFor(budget, s.signal.stopDistance,
                                   Multiplier(s.account, s.portfolio.positions, s.stats, c.sizing)))
              && (r.verdict == Reduce <==> r.sizeMultiplier < 1.0)
    ensures r.verdict == Reject ==> r.approvedQuantity.None? && r.blockingReason.Some?
  {
    AllPassExactly(s, c, corr);
    SharesOfBudget(s, c, budget);
  }

  lemma SharesOfBudget(s: Situation, c: RiskConfig, budget: real)
    requires budget == s.account.balance * c.sizing.riskPerTradePct / 100.0
    ensures s.signal.stopDistance <= 0.0 || s.account.balance <= 0.0 ==> SharesOf(s, c) == 0.0
    ensures s.signal.stopDistance > 0.0 && s.account.balance > 0.0 ==>
              SharesOf(s, c) == SharesFor(budget, s.signal.stopDistance,
                                          Multiplier(s.account, s.portfolio.positions, s.stats, c.sizing))
  {
    assert budget == Budget(s.account, c.sizing);
  }

  lemma AllPassExactly(s: Situation, c: RiskConfig, corr: Correlation)
    ensures FirstFailure(Rules(s, c), s, c, corr).None? <==>
            AccountAllows(s.account, c) && SignalIsGood(s, c) && BookHasRoom(s, c) && Uncorrelated(s, c, corr)
  {
    forall rule: Rule
      ensures rule in Rules(s, c) <==> Applies(rule, s, c)
    {
      RulesExactly(s, c, rule);
    }
    NoneOpenExactly(s.portfolio.positions, s.signal.symbol, s.signal.strategyId);
    if FirstFailure(Rules(s, c), s, c, corr).None? {
      EachPassed(s, c, corr);
    } else {
      var rule :| rule in Rules(s, c) && !Passes(rule, s, c, corr);
      assert Applies(rule, s, c);
    }
  }

  lemma EachPassed(s: Situation, c: RiskConfig, corr: Correlation)
    requires forall rule :: Applies(rule, s, c) ==> Passes(rule, s, c, corr)
    requires CountOpen(s.portfolio.positions, s.signal.symbol, s.signal.strategyId) == 0 <==>
             forall p :: p in s.portfolio.positions ==>
               !(p.symbol == s.signal.symbol && p.strategyId == Some(s.signal.strategyId))
    ensures AccountAllows(s.account, c) && SignalIsGood(s, c) && BookHasRoom(s, c) && Uncorrelated(s, c, corr)
  {
    AccountPassed(s, c, corr);
    SignalPassed(s, c, corr);
    BookPassed(s, c, corr);
    assert Applies(CorrelationRule, s, c) ==> Passes(CorrelationRule, s, c, corr);
  }

  lemma AccountPassed(s: Situation, c: RiskConfig, corr: Correlation)
    requires forall rule :: Applies(rule, s, c) ==> Passes(rule, s, c, corr)
    ensures AccountAllows(s.account, c)
  {
    assert Passes(ManualPause, s, c, corr) && Passes(DailyLossLimit, s, c, corr) && Passes(WeeklyLossLimit, s, c, corr);
    assert Passes(DailyProfitLock, s, c, corr) && Passes(HealthWatchdog, s, c, corr);
    assert Passes(ConsecutiveLosses, s, c, corr);
  }

  lemma BookPassed(s: Situation, c: RiskConfig, corr: Correlation)
    requires forall rule :: Applies(rule, s, c) ==> Passes(rule, s, c, corr)
    requires CountOpen(s.portfolio.positions, s.signal.symbol, s.signal.strategyId) == 0 <==>
             forall p :: p in s.portfolio.positions ==>
               !(p.symbol == s.signal.symbol && p.strategyId == Some(s.signal.strategyId))
    ensures BookHasRoom(s, c)
  {
    assert Passes(NoDuplicatePosition, s, c, corr) && Passes(MaxOpenPositions, s, c, corr);
    assert Passes(PortfolioHeat, s, c, corr) && Passes(SymbolExposure, s, c, corr);
    assert s.sector != "" ==> Applies(SectorExposure, s, c) && Passes(SectorExposure, s, c, corr);
  }

  lemma SignalPassed(s: Situation, c: RiskConfig, corr: Correlation)
    requires forall rule :: Applies(rule, s, c) ==> Passes(rule, s, c, corr)
    ensures SignalIsGood(s, c)
  {
    TimesPassed(s, c, corr);
    FigurePassed(s, c, corr);
    assert s.spread.Some? ==> Applies(Spread, s, c) && Passes(Spread, s, c, corr);
    assert s.gap.Some? ==> Applies(OvernightGap, s, c) && Passes(OvernightGap, s, c, corr);
  }

  lemma TimesPassed(s: Situation, c: RiskConfig, corr: Correlation)
    requires forall rule :: Applies(rule, s, c) ==> Passes(rule, s, c, corr)
    ensures s.marketOpen && s.withinEntryWindow && !s.newsBlocked && s.now < s.signal.expiresAt
    ensures s.signal.symbol !in s.portfolio.pausedSymbols && !s.stats.demoted
  {
    assert Passes(Rule.MarketOpen, s, c, corr) && Passes(EntryWindow, s, c, corr) && Passes(SymbolActive, s, c, corr);
    assert Passes(StrategyNotDemoted, s, c, corr) && Passes(NewsWindow, s, c, corr) && Passes(SignalTtl, s, c, corr);
  }

  lemma FigurePassed(s: Situation, c: RiskConfig, corr: Correlation)
    requires forall rule :: Applies(rule, s, c) ==> Passes(rule, s, c, corr)
    ensures s.signal.totalScore >= c.minScore && s.signal.rewardRisk >= c.minRewardRisk
    ensures c.requirePositiveEv ==> s.signal.expectedValue > 0.0
    ensures s.signal.atr.Some? && s.signal.atr.value != 0.0 ==>
              s.signal.stopDistance / s.signal.atr.value >= c.minStopDistanceAtr
  {
    assert Passes(MinScore, s, c, corr) && Passes(MinRewardRisk, s, c, corr);
    assert c.requirePositiveEv ==> Applies(PositiveEv, s, c) && Passes(PositiveEv, s, c, corr);
    assert HasAtr(s.signal) ==> Applies(MinStopDistance, s, c) && Passes(MinStopDistance, s, c, corr);
  }

  lemma {:induction false} NoneOpenExactly(ps: seq<Position>, symbol: string, strategyId: string)
    ensures CountOpen(ps, symbol, strategyId) == 0 <==>
            forall p :: p in ps ==> !(p.symbol == symbol && p.strategyId == Some(strategyId))
  {
    if ps != [] {
      var init := ps[..|ps| - 1];
      assert ps == init + [ps[|ps| - 1]];
      NoneOpenExactly(init, symbol, strategyId);
    }
  }

  /** The reason given is that of the failing rule with the lowest rank. */
  lemma LowestRankBlocks(r: GateResult, s: Situation, c: RiskConfig, corr: Correlation, rule: Rule)
    requires ShortCircuits(r, s, c, corr) && Applies(rule, s, c) && !Passes(rule, s, c, corr)
    requires forall q :: Applies(q, s, c) && Rank(q) < Rank(rule) ==> Passes(q, s, c, corr)
    ensures r.verdict == Reject && r.blockingReason == Some(ReasonFor(rule, s, c, corr))
  {
    RulesExactly(s, c, rule);
    var k := FirstFailureIndex(Rules(s, c), s, c, corr);
    IndexOfFailure(Rules(s, c), s, c, corr);
    var first := Rules(s, c)[k];
    assert first in Rules(s, c);
    RulesExactly(s, c, first);
    FirstFails(Rules(s, c), s, c, corr);
    RulesAscend(s, c);
    var j :| 0 <= j < |Rules(s, c)| && Rules(s, c)[j] == rule;
    SameRank(first, rule);
  }

  lemma SameRank(a: Rule, b: Rule)
    ensures Rank(a) == Rank(b) ==> a == b
  {
  }

  lemma {:induction false} FirstFails(rules: seq<Rule>, s: Situation, c: RiskConfig, corr: Correlation)
    requires FirstFailureIndex(rules, s, c, corr) < |rules|
    ensures !Passes(rules[FirstFailureIndex(rules, s, c, corr)], s, c, corr)
    ensures forall j :: 0 <= j < FirstFailureIndex(rules, s, c, corr) ==> Passes(rules[j], s, c, corr)
  {
    if Passes(rules[0], s, c, corr) {
      FirstFails(rules[1..], s, c, corr);
    }
  }
}
