/** A run in which a multiplier of four hundred-thousandths is passed on as one, and the order is sized twenty-five
    thousand times too large. */
module Oversized {
  import opened Outcomes
  import opened Market
  import opened Authorization
  import opened Orchestrator
  import M = Measures
  import G = RiskGate
  import C = Contracts
  import Z = OptionsRisk

  /** A multiplier clamped to 0.00004, which rounds to zero. */
  function TinyConfig(): Config {
    Config(
      G.RiskConfig(M.SizingConfig(1.0, false, 30, 0.35, 0.5, 1.5, 6.0, 0.5, 0.5, 0.00004, 0.00004),
                   6, 48.0, false, 1.5, 0.5, 5, 8.0, 4.0, 6.0, false, 0.7, 30, 0.15, 3.0),
      C.SelectionPolicy(7, 60, 30, 15.0, 100, 0.05),
      Z.SizingPolicy(1.0, 50, 5.0),
      30)
  }

  /** A stop of one cent, so that even the tiny multiplier buys four shares. */
  function TinySignal(): G.Signal {
    G.Signal("X", "S7", Buy, 50.0, 0.0, false, 2.0, 0.01, None, 1)
  }

  function AtTheMoney(): C.Contract {
    C.Contract("X-C", C.Call, 50.0, 30, 100, Some(C.Quote(0.99, 1.0)), None, true)
  }

  function TinyInputs(): Inputs {
    Inputs("d", "s", Found(TinySignal(), 50.0), false,
           M.Account(100000.0, 100000.0, 0.0, false, false, false, false, true, false, 0, false, false),
           M.Portfolio([], {}), "", None, None, true, Some([AtTheMoney()]), 0.0, Book(100000.0, [], []), "n", 0, 0,
           false, true)
  }

  lemma MultiplierRoundsToZero()
    ensures G.MultiplierOf(SituationOf(TinyInputs()), TinyConfig().risk) == 0.00004
    ensures MultiplierFor(TinyInputs(), TinyConfig()) == 1.0
  {
    assert M.Nearest(0.0) == 0;
    RoundsToZero(0.00004);
  }

  lemma GateIsOpen(corr: M.Correlation)
    ensures GateOpens(TinyInputs(), TinyConfig(), corr)
  {
    var s, c := SituationOf(TinyInputs()), TinyConfig().risk;
    assert M.Nearest(0.0) == 0;
    forall rule | rule in G.Rules(s, c)
      ensures G.Passes(rule, s, c, corr)
    {
    }
    MultiplierRoundsToZero();
    assert M.Budget(s.account, c.sizing) / s.signal.stopDistance == 100000.0 && 100000.0 * 0.00004 == 4.0;
    G.SizelessExactly(s, c);
  }

  lemma TheContractIsPicked()
    ensures Picks(TinyInputs(), TinyConfig(), AtTheMoney())
  {
    var c, cs, p := AtTheMoney(), [AtTheMoney()], TinyConfig().selection;
    assert C.Dte(c, 0) == 30;
    C.EligibleMeans(c, C.Call, 0, p);
    assert cs[..0] == [];
    assert C.EligibleOf(cs, C.Call, 0, p) == [c];
    assert C.IsFirstLeast(C.EligibleOf(cs, C.Call, 0, p), 0, 50.0, 0, p.targetDte);
  }

  lemma TenAreBought()
    ensures Buys(TinyInputs(), TinyConfig(), AtTheMoney(), 10)
  {
    MultiplierRoundsToZero();
    var i, cfg, c := TinyInputs(), TinyConfig(), AtTheMoney();
    assert PolicyFor(i, cfg) == Z.SizingPolicy(1.0, 50, 5.0);
    assert Z.PerContract(c) == 100.0;
  }

  /** Ten contracts at a thousand are approved where the configured multiplier allows a loss of four cents. */
  lemma ZeroMultiplierOversizes(corr: M.Correlation)
    ensures Approves(TinyInputs(), TinyConfig(), corr, AtTheMoney(), 10)
    ensures Z.Loss(10, Z.PerContract(AtTheMoney())) == 1000.0
    ensures Z.RiskBudget(TinyInputs().account.balance,
                         Scaled(TinyConfig().sizing, TinyConfig().risk.sizing.maxMultiplier)) == 0.04
  {
    GateIsOpen(corr);
    TheContractIsPicked();
    TenAreBought();
  }
}
