/** One decision cycle: signal, gate, contract, size, review, licence, submission, and one decision recorded.
    The strategy core, the chain provider, the AI review and the broker answer from outside. */
module Orchestrator {
  import opened Outcomes
  import opened RealFacts
  import opened Market
  import opened Authorization
  import opened Adapter
  import M = Measures
  import G = RiskGate
  import C = Contracts
  import Z = OptionsRisk
  import R = AiReview
  import W = GateMeaning

  datatype QuantAnswer = QuantFailed | NoCandidate | Found(signal: G.Signal, entry: real)

  datatype Inputs = Inputs(
    decisionId: string, snapshotId: string, quant: QuantAnswer, gateFails: bool, account: M.Account,
    portfolio: M.Portfolio, sector: string, spread: Option<real>, gap: Option<real>, marketOpen: bool,
    chain: Option<seq<C.Contract>>, openPremium: real, book: Book, nonce: string, now: int, today: int,
    dryRun: bool, storeAccepts: bool)

  datatype Config = Config(risk: G.RiskConfig, selection: C.SelectionPolicy, sizing: Z.SizingPolicy, ttl: int)

  datatype SystemState = Executing | RiskCheckState | RejectedState | FailedState

  datatype Stage = NoStage | QuantStage | RiskEngine | RiskAgent | ExecutionGuard

  datatype DecisionLog = DecisionLog(decisionId: string, state: SystemState, stage: Stage, accepted: bool,
                                     contract: Option<C.Contract>, ordered: int, execution: Option<SubmissionState>)

  /** A run ends with a recorded decision, or an error leaves it: a policy that does not validate, a review or a
      submission that raises, or a store that refuses the record. */
  datatype RunOutcome = Finished(decision: DecisionLog) | BadPolicy | ReviewRaised | SubmitRaised | StoreRefused

  class DecisionStore {
    var decisions: seq<DecisionLog>

    constructor ()
      ensures decisions == []
    {
      decisions := [];
    }

    method Append(d: DecisionLog, accepts: bool) returns (ok: bool)
      modifies this
      ensures ok == accepts
      ensures decisions == if accepts then old(decisions) + [d] else old(decisions)
    {
      ok := accepts;
      if accepts { decisions := decisions + [d]; }
    }
  }

  // ---------------------------------------------------------------- what a run approves

  function SituationOf(i: Inputs): G.Situation
    requires i.quant.Found?
  {
    G.Situation(i.quant.signal, i.account, i.portfolio, M.NO_STATS, map[], i.sector, i.spread, i.gap, false,
                i.marketOpen, true, i.now)
  }

  predicate GateOpens(i: Inputs, cfg: Config, corr: M.Correlation) {
    && i.quant.Found? && !i.gateFails
    && G.FirstFailure(G.Rules(SituationOf(i), cfg.risk), SituationOf(i), cfg.risk, corr).None?
    && G.SharesOf(SituationOf(i), cfg.risk) > 0.0
  }

  /** The multiplier the option sizing is given; one that rounds to zero counts as one. */
  function PassedOn(multiplier: real): real {
    if multiplier == 0.0 then 1.0 else multiplier
  }

  function MultiplierFor(i: Inputs, cfg: Config): real
    requires i.quant.Found?
  {
    PassedOn(M.Round(G.MultiplierOf(SituationOf(i), cfg.risk), 10000.0))
  }

  function Scaled(p: Z.SizingPolicy, multiplier: real): Z.SizingPolicy {
    p.(riskPct := p.riskPct * multiplier)
  }

  function PolicyFor(i: Inputs, cfg: Config): Z.SizingPolicy
    requires i.quant.Found?
  {
    Scaled(cfg.sizing, MultiplierFor(i, cfg))
  }

  ghost predicate Picks(i: Inputs, cfg: Config, c: C.Contract) {
    && i.quant.Found? && i.chain.Some? && C.PolicyIsValid(cfg.selection) && i.quant.entry > 0.0
    && C.IsChoice(c, i.chain.value, C.TypeFor(i.quant.signal.direction), i.quant.entry, i.today, cfg.selection)
  }

  /** `q` is the greatest count of `c` that every limit allows. */
  ghost predicate Buys(i: Inputs, cfg: Config, c: C.Contract, q: int) {
    && i.quant.Found? && c.quote.Some?
    && var p := PolicyFor(i, cfg);
       var remaining := Z.AllowedPremium(i.account.balance, p) - i.openPremium;
    && Z.SizingPolicyIsValid(p)
    && Z.Fits(q, Z.PerContract(c), Z.RiskBudget(i.account.balance, p), p.maxContracts, remaining)
    && forall n: int :: n > q ==>
         !Z.Fits(n, Z.PerContract(c), Z.RiskBudget(i.account.balance, p), p.maxContracts, remaining)
  }

  /** Everything before the review lets this contract and this count through. */
  ghost predicate Approves(i: Inputs, cfg: Config, corr: M.Correlation, c: C.Contract, q: int) {
    GateOpens(i, cfg, corr) && Picks(i, cfg, c) && c.quote.Some? && Buys(i, cfg, c, q)
  }

  /** At most one contract and one count are ever approved on the same inputs. */
  lemma OneApprovalOnly(i: Inputs, cfg: Config, corr: M.Correlation, c: C.Contract, q: int, d: C.Contract, n: int)
    requires Approves(i, cfg, corr, c, q) && Approves(i, cfg, corr, d, n)
    ensures c == d && q == n
  {
    C.OneChoiceOnly(c, d, i.chain.value, C.TypeFor(i.quant.signal.direction), i.quant.entry, i.today, cfg.selection);
  }

  /** A bounded limit order at the ask. */
  function OrderFor(c: C.Contract, q: int): Proposal
    requires c.quote.Some?
  {
    Proposal(c.symbol, q, BuyToOpen, "limit", Some(InMillionths(c.quote.value.ask)), "day")
  }

  /** The price an order and its record carry; a quote in whole millionths is kept exactly. */
  function InMillionths(price: real): (n: int)
    ensures -0.5 <= n as real - price * 1000000.0 <= 0.5
  {
    (price * 1000000.0 + 0.5).Floor
  }

  function LicenceFor(i: Inputs, cfg: Config, secret: int, c: C.Contract, q: int): Option<Licence>
    requires c.quote.Some?
  {
    Authorize(secret, i.nonce, i.decisionId, i.snapshotId, OrderFor(c, q), i.book, q, cfg.ttl, i.now)
  }

  // ---------------------------------------------------------------- what a run does

  datatype Snapshot = Snapshot(decisions: seq<DecisionLog>, side: Option<View>)

  predicate Keeps(review: R.Review) {
    !review.Veto? && !review.Raises?
  }

  /** An approval that goes all the way to the adapter. */
  ghost predicate Executes(i: Inputs, cfg: Config, corr: M.Correlation, review: R.Review, side: Option<View>,
                           c: C.Contract, q: int) {
    Approves(i, cfg, corr, c, q) && Keeps(review) && !i.dryRun && side.Some? && cfg.ttl > 0
  }

  /** `None` is the exception. */
  function StateIn(x: Option<ExecutionResult>): Option<SubmissionState> {
    if x.Some? then Some(x.value.state) else None
  }

  ghost predicate SubmittedAs(v: View, v': View, i: Inputs, cfg: Config, secret: int, c: C.Contract, q: int, w: World,
                              state: Option<SubmissionState>) {
    && c.quote.Some? && LicenceFor(i, cfg, secret, c, q).Some?
    && exists x :: SubmitRelation(v, v', Token(LicenceFor(i, cfg, secret, c, q).value), secret,
                                OrderFor(c, q), i.book, "",
                                  i.now, w, x) && state == StateIn(x)
  }

  ghost predicate NothingExecutes(i: Inputs, cfg: Config, corr: M.Correlation, review: R.Review, side: Option<View>) {
    forall c, q :: !Executes(i, cfg, corr, review, side, c, q)
  }

  /** The selection or the scaled sizing policy does not validate when the run gets to it. */
  ghost predicate Mispolicied(i: Inputs, cfg: Config, corr: M.Correlation) {
    && GateOpens(i, cfg, corr) && i.chain.Some?
    && (!C.PolicyIsValid(cfg.selection)
        || ((exists c :: Picks(i, cfg, c)) && !Z.SizingPolicyIsValid(PolicyFor(i, cfg))))
  }

  ghost predicate SomethingApproved(i: Inputs, cfg: Config, corr: M.Correlation) {
    exists c, q :: Approves(i, cfg, corr, c, q)
  }

  /** The order gets to the adapter with an unused nonce, and searching the journal raises. */
  ghost predicate SubmitFails(i: Inputs, cfg: Config, corr: M.Correlation, review: R.Review, side: Option<View>) {
    && !NothingExecutes(i, cfg, corr, review, side) && side.Some?
    && i.nonce !in side.value.used && SearchFor(side.value, ClientOrderId(i.nonce)).SearchRaised?
  }

  /** One decision is recorded when the run finishes and none otherwise. */
  ghost predicate Ended(s: Snapshot, s': Snapshot, i: Inputs, r: RunOutcome) {
    && s'.decisions == (if r.Finished? then s.decisions + [r.decision] else s.decisions)
    && (r.Finished? ==> r.decision.decisionId == i.decisionId)
    && (r.Finished? ==> i.storeAccepts)
    && (r.StoreRefused? ==> !i.storeAccepts)
  }

  /** How a run ends, and that exactly one decision is recorded when it finishes and none otherwise. */
  ghost predicate Recorded(s: Snapshot, s': Snapshot, i: Inputs, cfg: Config, corr: M.Correlation, review: R.Review,
                           r: RunOutcome) {
    && Ended(s, s', i, r)
    && (r.BadPolicy? <==> Mispolicied(i, cfg, corr))
    && (r.ReviewRaised? <==> review.Raises? && SomethingApproved(i, cfg, corr))
    && (r.SubmitRaised? <==> SubmitFails(i, cfg, corr, review, s.side))
  }

  /** Something the decision needed could not be had; an empty chain or a refusal is not an outage. */
  predicate Outage(i: Inputs, cfg: Config, corr: M.Correlation) {
    i.quant.QuantFailed? || (i.quant.Found? && i.gateFails) || (GateOpens(i, cfg, corr) && i.chain.None?)
  }

  ghost function RefusalState(i: Inputs, cfg: Config, corr: M.Correlation): SystemState {
    if Outage(i, cfg, corr) then FailedState else SystemState.RejectedState
  }

  /** An outage has no stage; everything that is turned down after a candidate was found is the risk engine's. */
  ghost function RefusalStage(i: Inputs, cfg: Config, corr: M.Correlation): Stage {
    if Outage(i, cfg, corr) then NoStage else if i.quant.NoCandidate? then QuantStage else RiskEngine
  }

  /** What a run with nothing to execute reports. Without an approval: a refusal, or a failure. With one: the veto, or
      the trade it was told not to carry out, or the licence that was refused. */
  ghost predicate ReportsOnly(d: DecisionLog, i: Inputs, cfg: Config, corr: M.Correlation, review: R.Review,
                              side: Option<View>) {
    && d.execution.None?
    && (!SomethingApproved(i, cfg, corr) ==>
          && !d.accepted && d.contract.None? && d.ordered == 0
          && d.state == RefusalState(i, cfg, corr) && d.stage == RefusalStage(i, cfg, corr))
    && (SomethingApproved(i, cfg, corr) ==>
          && ApprovesContract(i, cfg, corr, d)
          && (d.accepted <==> Keeps(review) && (i.dryRun || side.None?))
          && d.stage == (if review.Veto? then RiskAgent else NoStage)
          && d.state == (if review.Veto? then SystemState.RejectedState
                         else if d.accepted then RiskCheckState else FailedState))
  }

  /** The decision names the approved contract, and its count when it was accepted. */
  ghost predicate ApprovesContract(i: Inputs, cfg: Config, corr: M.Correlation, d: DecisionLog) {
    && d.contract.Some?
    && exists q :: Approves(i, cfg, corr, d.contract.value, q) && d.ordered == if d.accepted then q else 0
  }

  /** Exactly the approved order reaches the adapter, exactly when nothing stops it; otherwise registry, journal
      and broker are as they were. */
  ghost predicate RunRelation(s: Snapshot, s': Snapshot, i: Inputs, cfg: Config, corr: M.Correlation, review: R.Review,
                              secret: int, w: World, r: RunOutcome) {
    && Recorded(s, s', i, cfg, corr, review, r)
    && s'.side.Some? == s.side.Some?
    && (NothingExecutes(i, cfg, corr, review, s.side) ==>
          s'.side == s.side && (r.Finished? ==> ReportsOnly(r.decision, i, cfg, corr, review, s.side)))
    && (forall c, q :: Executes(i, cfg, corr, review, s.side, c, q) ==>
          ExecutedAs(s, s', i, cfg, secret, w, r, c, q))
  }

  ghost predicate ExecutedAs(s: Snapshot, s': Snapshot, i: Inputs, cfg: Config, secret: int, w: World, r: RunOutcome,
                             c: C.Contract, q: int) {
    && s.side.Some? && s'.side.Some?
    && exists state ::
         && SubmittedAs(s.side.value, s'.side.value, i, cfg, secret, c, q, w, state)
         && (r.Finished? ==> state.Some? && DecidedAs(r.decision, c, q, state.value))
         && (r.SubmitRaised? <==> state.None?)
  }

  /** A decision is accepted exactly when the broker acknowledged the order, and then says what was ordered. */
  predicate DecidedAs(d: DecisionLog, c: C.Contract, q: int, state: SubmissionState) {
    && d.contract == Some(c) && d.execution == Some(state)
    && (d.accepted <==> state.SubmittedState?)
    && d.ordered == (if d.accepted then q else 0)
    && d.state == (if state.SubmittedState? then Executing
                   else if state.UnknownState? then FailedState else SystemState.RejectedState)
    && d.stage == (if state.SubmittedState? || state.UnknownState? then NoStage else ExecutionGuard)
  }

  /** What the steps before the review come to. */
  datatype Plan = Escapes | Stop(state: SystemState, stage: Stage) | Go(contract: C.Contract, quantity: int)

  ghost predicate PlanRelation(p: Plan, i: Inputs, cfg: Config, corr: M.Correlation) {
    && (p.Go? ==> Approves(i, cfg, corr, p.contract, p.quantity))
    && (!p.Go? ==> forall c, q :: !Approves(i, cfg, corr, c, q))
    && (p.Stop? ==> p.state == RefusalState(i, cfg, corr) && p.stage == RefusalStage(i, cfg, corr))
    && (p.Escapes? <==> Mispolicied(i, cfg, corr))
  }

  method PlanTrade(i: Inputs, cfg: Config, corr: M.Correlation) returns (p: Plan)
    ensures PlanRelation(p, i, cfg, corr)
  {
    if i.quant.QuantFailed? { return Stop(FailedState, NoStage); }
    if i.quant.NoCandidate? { return Stop(SystemState.RejectedState, QuantStage); }
    var s := SituationOf(i);
    if i.gateFails { return Stop(FailedState, NoStage); }
    var gate := G.Evaluate(s, cfg.risk, corr);
    if gate.verdict == G.Reject {
      assert !GateOpens(i, cfg, corr);
      return Stop(SystemState.RejectedState, RiskEngine);
    }
    assert GateOpens(i, cfg, corr);
    assert PassedOn(gate.sizeMultiplier) == MultiplierFor(i, cfg);
    if i.chain.None? { return Stop(FailedState, NoStage); }
    p := PlanContract(i, cfg, corr, gate.sizeMultiplier, i.chain.value);
  }

  method PlanContract(i: Inputs, cfg: Config, corr: M.Correlation, multiplier: real, chain: seq<C.Contract>)
    returns (p: Plan)
    requires GateOpens(i, cfg, corr) && i.chain == Some(chain) && PassedOn(multiplier) == MultiplierFor(i, cfg)
    ensures PlanRelation(p, i, cfg, corr)
  {
    var d := i.quant.signal.direction;
    var selection := C.SelectContract(chain, d, i.quant.entry, i.today, cfg.selection);
    match selection
    case InvalidPolicy =>
      return Escapes;
    case BadSpot =>
      return Stop(SystemState.RejectedState, RiskEngine);
    case NothingEligible(_) =>
      NoChoice(i, cfg, chain);
      return Stop(SystemState.RejectedState, RiskEngine);
    case Chosen(c, _, _) =>
      forall e | Picks(i, cfg, e)
        ensures e == c
      {
        C.OneChoiceOnly(e, c, chain, C.TypeFor(d), i.quant.entry, i.today, cfg.selection);
      }
      p := PlanSize(i, cfg, corr, multiplier, c);
  }

  lemma NoChoice(i: Inputs, cfg: Config, chain: seq<C.Contract>)
    requires i.quant.Found? && i.chain == Some(chain)
    requires C.NoneEligible(chain, C.TypeFor(i.quant.signal.direction), i.today, cfg.selection)
    ensures forall c :: !Picks(i, cfg, c)
  {
    var want := C.TypeFor(i.quant.signal.direction);
    forall c
      ensures !Picks(i, cfg, c)
    {
      if Picks(i, cfg, c) {
        C.ChoiceIsSelected(c, chain, want, i.quant.entry, i.today, cfg.selection);
        assert false;
      }
    }
  }

  method PlanSize(i: Inputs, cfg: Config, corr: M.Correlation, multiplier: real, c: C.Contract) returns (p: Plan)
    requires GateOpens(i, cfg, corr) && PassedOn(multiplier) == MultiplierFor(i, cfg)
    requires c.quote.Some? && c.quote.value.ask > 0.0 && c.multiplier == C.STANDARD_MULTIPLIER
    requires Picks(i, cfg, c) && forall e :: Picks(i, cfg, e) ==> e == c
    ensures PlanRelation(p, i, cfg, corr)
  {
    var scaled := Scaled(cfg.sizing, PassedOn(multiplier));
    var sizing := Z.SizeOptionPosition(c, i.account.balance, scaled, i.openPremium);
    if sizing.InvalidPolicy? {
      return Escapes;
    }
    assert Z.Priced(c, i.account.balance);
    if sizing.Approved? {
      assert Buys(i, cfg, c, sizing.quantity);
      p := Plan.Go(c, sizing.quantity);
    } else {
      assert forall q :: !Buys(i, cfg, c, q);
      p := Stop(SystemState.RejectedState, RiskEngine);
    }
  }

  class OptionsOrchestrator {
    const config: Config
    const store: DecisionStore
    const adapter: OptionsExecutionAdapter?

    constructor (config: Config, store: DecisionStore, adapter: OptionsExecutionAdapter?)
      ensures this.config == config && this.store == store && this.adapter == adapter
    {
      this.config, this.store, this.adapter := config, store, adapter;
    }

    ghost predicate Valid() {
      adapter != null ==> adapter.Valid()
    }

    ghost function Outside(): set<object> {
      if adapter == null then {}
      else {adapter.registry, adapter.broker} + (if adapter.journal == null then {} else {adapter.journal})
    }

    ghost function Side(): Option<View>
      reads Outside()
    {
      if adapter == null then None else Some(adapter.Now())
    }

    ghost function Now(): Snapshot
      reads store, Outside()
    {
      Snapshot(store.decisions, Side())
    }

    method Finish(i: Inputs, state: SystemState, stage: Stage, accepted: bool, contract: Option<C.Contract>,
                  ordered: int, execution: Option<SubmissionState>) returns (r: RunOutcome)
      modifies store
      ensures r == if i.storeAccepts
                   then Finished(DecisionLog(i.decisionId, state, stage, accepted, contract, ordered, execution))
                   else StoreRefused
      ensures store.decisions == if r.Finished? then old(store.decisions) + [r.decision] else old(store.decisions)
    {
      var d := DecisionLog(i.decisionId, state, stage, accepted, contract, ordered, execution);
      var ok := store.Append(d, i.storeAccepts);
      r := if ok then Finished(d) else StoreRefused;
    }

    method Run(i: Inputs, corr: M.Correlation, review: R.Review, w: World) returns (r: RunOutcome)
      requires Valid()
      modifies store, Outside()
      ensures RunRelation(old(Now()), Now(), i, config, corr, review, Secret(), w, r)
    {
      var p := PlanTrade(i, config, corr);
      if p.Go? {
        r := Act(i, corr, review, w, p.contract, p.quantity);
        return;
      }
      if p.Escapes? {
        r := BadPolicy;
      } else {
        r := Finish(i, p.state, p.stage, false, None, 0, None);
      }
      StoppedRun(old(Now()), Now(), i, config, corr, review, Secret(), w, p, r);
    }

    /** The review and what follows it. */
    method Act(i: Inputs, corr: M.Correlation, review: R.Review, w: World, c: C.Contract, q: int)
      returns (r: RunOutcome)
      requires Valid() && Approves(i, config, corr, c, q)
      modifies store, Outside()
      ensures RunRelation(old(Now()), Now(), i, config, corr, review, Secret(), w, r)
    {
      if review.Raises? || review.Veto? || i.dryRun || adapter == null {
        r := Hold(i, review, c, q);
        HeldRun(old(Now()), Now(), i, config, corr, review, Secret(), w, r, c, q);
        return;
      }
      var licence := LicenceFor(i, config, adapter.secret, c, q);
      if licence.None? {
        r := Finish(i, FailedState, NoStage, false, Some(c), 0, None);
        HeldRun(old(Now()), Now(), i, config, corr, review, Secret(), w, r, c, q);
        return;
      }
      ghost var state, v, v';
      r, state, v, v' := Execute(i, w, c, q, licence.value);
      ExecutionEnds(old(Now()), Now(), i, config, Secret(), w, r, c, q, state);
      ExecutionIsTheRun(old(Now()), Now(), i, config, corr, review, Secret(), w, r, c, q);
    }

    /** The exits between the review and the licence. */
    method Hold(i: Inputs, review: R.Review, c: C.Contract, q: int) returns (r: RunOutcome)
      requires review.Raises? || review.Veto? || i.dryRun || adapter == null
      modifies store
      ensures Ended(old(Now()), Now(), i, r) && Side() == old(Side())
      ensures r.ReviewRaised? <==> review.Raises?
      ensures !r.BadPolicy? && !r.SubmitRaised?
      ensures r.Finished? ==> r.decision.execution.None? && r.decision.contract == Some(c)
      ensures r.Finished? ==> (r.decision.accepted <==> !review.Veto?)
      ensures r.Finished? ==> r.decision.ordered == if r.decision.accepted then q else 0
      ensures r.Finished? ==> HeldAs(r.decision, review)
    {
      if review.Raises? {
        return ReviewRaised;
      }
      if review.Veto? {
        r := Finish(i, SystemState.RejectedState, RiskAgent, false, Some(c), 0, None);
        return;
      }
      r := Finish(i, RiskCheckState, NoStage, true, Some(c), q, None);
    }

    function Secret(): int {
      if adapter == null then 0 else adapter.secret
    }

    method Execute(i: Inputs, w: World, c: C.Contract, q: int, licence: Licence)
      returns (r: RunOutcome, ghost state: Option<SubmissionState>, ghost v: View, ghost v': View)
      requires Valid() && adapter != null
      requires c.quote.Some? && LicenceFor(i, config, adapter.secret, c, q) == Some(licence)
      modifies store, Outside()
      ensures old(Side()) == Some(v) && Side() == Some(v')
      ensures SubmittedAs(v, v', i, config, adapter.secret, c, q, w, state)
      ensures store.decisions == if r.Finished? then old(store.decisions) + [r.decision] else old(store.decisions)
      ensures Concludes(r, i, c, q, state)
    {
      var x;
      x, v, v' := SubmitLicensed(i, w, c, q, licence);
      state := x;
      if x.None? {
        r := SubmitRaised;
      } else {
        r := Conclude(i, c, q, x.value);
      }
    }

    /** SUBMITTED is not filled and UNKNOWN is not refused. */
    method Conclude(i: Inputs, c: C.Contract, q: int, state: SubmissionState) returns (r: RunOutcome)
      modifies store
      ensures Side() == old(Side())
      ensures Concludes(r, i, c, q, Some(state))
      ensures store.decisions == if r.Finished? then old(store.decisions) + [r.decision] else old(store.decisions)
    {
      match state
      case SubmittedState => r := Finish(i, Executing, NoStage, true, Some(c), q, Some(state));
      case UnknownState => r := Finish(i, FailedState, NoStage, false, Some(c), 0, Some(state));
      case _ => r := Finish(i, SystemState.RejectedState, ExecutionGuard, false, Some(c), 0, Some(state));
    }

    method SubmitLicensed(i: Inputs, w: World, c: C.Contract, q: int, licence: Licence)
      returns (state: Option<SubmissionState>, ghost v: View, ghost v': View)
      requires Valid() && adapter != null
      requires c.quote.Some? && LicenceFor(i, config, adapter.secret, c, q) == Some(licence)
      modifies Outside()
      ensures store.decisions == old(store.decisions)
      ensures old(Side()) == Some(v) && Side() == Some(v')
      ensures SubmittedAs(v, v', i, config, adapter.secret, c, q, w, state)
    {
      v := adapter.Now();
      var x := adapter.Submit(OrderFor(c, q), Token(licence), i.book, i.now, "", w);
      v' := adapter.Now();
      state := StateIn(x);
    }
  }

  /** A run that stops before the review. */
  lemma StoppedRun(s: Snapshot, s': Snapshot, i: Inputs, cfg: Config, corr: M.Correlation, review: R.Review,
                   secret: int, w: World, p: Plan, r: RunOutcome)
    requires PlanRelation(p, i, cfg, corr) && !p.Go? && s'.side == s.side && Ended(s, s', i, r)
    requires r.BadPolicy? <==> p.Escapes?
    requires !r.ReviewRaised? && !r.SubmitRaised?
    requires r.Finished? && p.Stop? ==>
               r.decision == DecisionLog(i.decisionId, p.state, p.stage, false, None, 0, None)
    ensures RunRelation(s, s', i, cfg, corr, review, secret, w, r)
  {
    assert !SomethingApproved(i, cfg, corr) && NothingExecutes(i, cfg, corr, review, s.side);
  }

  /** State and stage of an approved trade that never got to the adapter. */
  predicate HeldAs(d: DecisionLog, review: R.Review) {
    && d.stage == (if review.Veto? then RiskAgent else NoStage)
    && d.state == (if review.Veto? then SystemState.RejectedState
                   else if d.accepted then RiskCheckState else FailedState)
  }

  /** A run whose approved trade never gets to the adapter. */
  lemma HeldRun(s: Snapshot, s': Snapshot, i: Inputs, cfg: Config, corr: M.Correlation, review: R.Review, secret: int,
                w: World, r: RunOutcome, c: C.Contract, q: int)
    requires Approves(i, cfg, corr, c, q) && !Mispolicied(i, cfg, corr) && SomethingApproved(i, cfg, corr)
    requires !Keeps(review) || i.dryRun || s.side.None? || cfg.ttl <= 0
    requires s'.side == s.side && Ended(s, s', i, r) && !r.BadPolicy? && !r.SubmitRaised?
    requires r.ReviewRaised? <==> review.Raises?
    requires r.Finished? ==> r.decision.execution.None? && r.decision.contract == Some(c)
    requires r.Finished? ==> (r.decision.accepted <==> Keeps(review) && (i.dryRun || s.side.None?))
    requires r.Finished? ==> HeldAs(r.decision, review)
    requires r.Finished? ==> r.decision.ordered == if r.decision.accepted then q else 0
    ensures RunRelation(s, s', i, cfg, corr, review, secret, w, r)
  {
    assert NothingExecutes(i, cfg, corr, review, s.side);
  }

  /** How a run that reached the adapter ends. */
  predicate Concludes(r: RunOutcome, i: Inputs, c: C.Contract, q: int, state: Option<SubmissionState>) {
    if state.None? then r.SubmitRaised?
    else if !i.storeAccepts then r.StoreRefused?
    else r.Finished? && r.decision.decisionId == i.decisionId && DecidedAs(r.decision, c, q, state.value)
  }

  lemma ExecutionEnds(s: Snapshot, s': Snapshot, i: Inputs, cfg: Config, secret: int, w: World, r: RunOutcome,
                      c: C.Contract, q: int, state: Option<SubmissionState>)
    requires s.side.Some? && s'.side.Some? && c.quote.Some?
    requires SubmittedAs(s.side.value, s'.side.value, i, cfg, secret, c, q, w, state)
    requires s'.decisions == if r.Finished? then s.decisions + [r.decision] else s.decisions
    requires Concludes(r, i, c, q, state)
    ensures Ended(s, s', i, r) && !r.BadPolicy? && !r.ReviewRaised? && ExecutedAs(s, s', i, cfg, secret, w, r, c, q)
  {
  }

  lemma ExecutionIsTheRun(s: Snapshot, s': Snapshot, i: Inputs, cfg: Config, corr: M.Correlation, review: R.Review,
                          secret: int, w: World, r: RunOutcome, c: C.Contract, q: int)
    requires s.side.Some? && s'.side.Some? && Executes(i, cfg, corr, review, s.side, c, q)
    requires Ended(s, s', i, r) && !r.BadPolicy? && !r.ReviewRaised? && !Mispolicied(i, cfg, corr)
    requires ExecutedAs(s, s', i, cfg, secret, w, r, c, q)
    ensures RunRelation(s, s', i, cfg, corr, review, secret, w, r)
  {
    var state :| SubmittedAs(s.side.value, s'.side.value, i, cfg, secret, c, q, w, state)
                 && (r.SubmitRaised? <==> state.None?);
    RaisesExactly(s.side.value, s'.side.value, i, cfg, secret, c, q, w, state);
    forall d, n | Executes(i, cfg, corr, review, s.side, d, n)
      ensures ExecutedAs(s, s', i, cfg, secret, w, r, d, n)
    {
      OneApprovalOnly(i, cfg, corr, c, q, d, n);
    }
  }

  /** A submission raises exactly when its nonce is unused and searching the journal for it raises. */
  lemma RaisesExactly(v: View, v': View, i: Inputs, cfg: Config, secret: int, c: C.Contract, q: int, w: World,
                      state: Option<SubmissionState>)
    requires c.quote.Some? && SubmittedAs(v, v', i, cfg, secret, c, q, w, state)
    ensures state.None? <==> i.nonce !in v.used && SearchFor(v, ClientOrderId(i.nonce)).SearchRaised?
  {
  }

  // ---------------------------------------------------------------- the review only subtracts

  /** Whatever the AI review says: against the same world, a run with it makes the very broker call of the run
      without one, or none at all; a veto also leaves registry and journal alone. */
  lemma ReviewOnlySubtracts(s: Snapshot, a: Snapshot, b: Snapshot, i: Inputs, cfg: Config, corr: M.Correlation,
                            review: R.Review, secret: int, w: World, ra: RunOutcome, rb: RunOutcome)
    requires s.side.Some?
    requires RunRelation(s, a, i, cfg, corr, review, secret, w, ra)
    requires RunRelation(s, b, i, cfg, corr, R.NoReview, secret, w, rb)
    ensures !Keeps(review) ==> a.side == s.side
    ensures Keeps(review) ==> a.side.value.received == b.side.value.received && a.side.value.used == b.side.value.used
    ensures a.side.value.received == s.side.value.received || a.side.value.received == b.side.value.received
  {
    if !Keeps(review) {
      assert NothingExecutes(i, cfg, corr, review, s.side);
    } else if exists c, q :: Executes(i, cfg, corr, review, s.side, c, q) {
      var c, q :| Executes(i, cfg, corr, review, s.side, c, q);
      assert Executes(i, cfg, corr, R.NoReview, s.side, c, q);
      assert ExecutedAs(s, a, i, cfg, secret, w, ra, c, q) && ExecutedAs(s, b, i, cfg, secret, w, rb, c, q);
      var x :| SubmittedAs(s.side.value, a.side.value, i, cfg, secret, c, q, w, x);
      var y :| SubmittedAs(s.side.value, b.side.value, i, cfg, secret, c, q, w, y);
      SameCall(s.side.value, a.side.value, b.side.value, i, cfg, secret, c, q, w, x, y);
    } else {
      forall c, q
        ensures !Executes(i, cfg, corr, R.NoReview, s.side, c, q)
      {
        assert !Executes(i, cfg, corr, review, s.side, c, q);
      }
    }
  }

  /** The journal's torn bytes aside, a submission leaves one result. */
  lemma SameCall(v: View, a: View, b: View, i: Inputs, cfg: Config, secret: int, c: C.Contract, q: int, w: World,
                 x: Option<SubmissionState>, y: Option<SubmissionState>)
    requires c.quote.Some?
    requires SubmittedAs(v, a, i, cfg, secret, c, q, w, x) && SubmittedAs(v, b, i, cfg, secret, c, q, w, y)
    ensures a.received == b.received && a.used == b.used && x == y
  {
  }

  /** What reaches the broker, at most once a run, is a day order to buy the approved contract and count to open,
      limited at that contract's ask to the nearest millionth, under the id of the run's licence. */
  lemma BrokerHearsTheApprovedOrder(s: Snapshot, s': Snapshot, i: Inputs, cfg: Config, corr: M.Correlation,
                                    review: R.Review, secret: int, w: World, r: RunOutcome)
    requires s.side.Some? && RunRelation(s, s', i, cfg, corr, review, secret, w, r)
    ensures s'.side.value.received == s.side.value.received
            || exists c, q, limit: int ::
                 && Approves(i, cfg, corr, c, q) && !review.Veto? && !review.Raises? && !i.dryRun
                 && -0.5 <= limit as real - c.quote.value.ask * 1000000.0 <= 0.5
                 && s'.side.value.received == s.side.value.received
                      + [Payload(Proposal(c.symbol, q, BuyToOpen, "limit", Some(limit), "day"), "st-" + i.nonce)]
  {
    if exists c, q :: Executes(i, cfg, corr, review, s.side, c, q) {
      var c, q :| Executes(i, cfg, corr, review, s.side, c, q);
      assert ExecutedAs(s, s', i, cfg, secret, w, r, c, q);
      var x :| SubmittedAs(s.side.value, s'.side.value, i, cfg, secret, c, q, w, x);
      assert Approves(i, cfg, corr, c, q);
      var limit := InMillionths(c.quote.value.ask);
      assert OrderFor(c, q) == Proposal(c.symbol, q, BuyToOpen, "limit", Some(limit), "day");
    }
  }

  /** Nothing but the registry and the journal keeps an approved order that is to be executed from the broker: it gets
      there exactly when the run's nonce is unused and, with a journal, reading it gets to the end without meeting the
      id and the write-ahead completes. */
  lemma ApprovedOrderGoesOut(s: Snapshot, s': Snapshot, i: Inputs, cfg: Config, corr: M.Correlation, review: R.Review,
                             secret: int, w: World, r: RunOutcome, c: C.Contract, q: int)
    requires RunRelation(s, s', i, cfg, corr, review, secret, w, r)
    requires Approves(i, cfg, corr, c, q) && !review.Veto? && !review.Raises?
    requires !i.dryRun && s.side.Some? && cfg.ttl > 0
    ensures s'.side.Some?
    ensures s'.side.value.received != s.side.value.received <==>
            && i.nonce !in s.side.value.used
            && (s.side.value.disk.Some? ==>
                  && s.side.value.quiet && w.attemptFault.NoFault?
                  && forall x :: x in s.side.value.seen ==> x.coid != "st-" + i.nonce)
  {
    assert Executes(i, cfg, corr, review, s.side, c, q);
    assert ExecutedAs(s, s', i, cfg, secret, w, r, c, q);
    var state :| SubmittedAs(s.side.value, s'.side.value, i, cfg, secret, c, q, w, state);
    LicensedOrderGoesOut(s.side.value, s'.side.value, i, cfg, secret, c, q, w, state);
  }

  lemma LicensedOrderGoesOut(v: View, v': View, i: Inputs, cfg: Config, secret: int, c: C.Contract, q: int, w: World,
                             state: Option<SubmissionState>)
    requires SubmittedAs(v, v', i, cfg, secret, c, q, w, state)
    ensures v'.received != v.received <==>
            && i.nonce !in v.used
            && (v.disk.Some? ==>
                  v.quiet && w.attemptFault.NoFault? && forall x :: x in v.seen ==> x.coid != "st-" + i.nonce)
  {
    var token := Token(LicenceFor(i, cfg, secret, c, q).value);
    var x :| SubmitRelation(v, v', token, secret, OrderFor(c, q), i.book, "", i.now, w, x) && state == StateIn(x);
    CalledExactly(v, v', token, secret, OrderFor(c, q), i.book, "", i.now, w, x);
  }

  /** What an approval rests on, in the inputs of the run: an account that may trade, a live signal above the score
      floor in an open market, spread and gap within their limits, and no position of the strategy in the symbol. */
  lemma ApprovedMeans(i: Inputs, cfg: Config, corr: M.Correlation, c: C.Contract, q: int)
    requires Approves(i, cfg, corr, c, q)
    ensures i.quant.Found? && !i.gateFails && i.chain.Some? && i.marketOpen
    ensures W.AccountAllows(i.account, cfg.risk) && i.account.balance > 0.0
    ensures var g := i.quant.signal;
            && i.now < g.expiresAt && g.totalScore >= cfg.risk.minScore && g.rewardRisk >= cfg.risk.minRewardRisk
            && (cfg.risk.requirePositiveEv ==> g.expectedValue > 0.0)
            && g.symbol !in i.portfolio.pausedSymbols && |i.portfolio.positions| < cfg.risk.maxOpenPositions
            && (forall p :: p in i.portfolio.positions ==>
                  !(p.symbol == g.symbol && p.strategyId == Some(g.strategyId)))
    ensures i.spread.Some? ==> i.spread.value <= cfg.risk.maxSpread
    ensures i.gap.Some? ==> -cfg.risk.maxGap <= i.gap.value <= cfg.risk.maxGap
  {
    W.AllPassExactly(SituationOf(i), cfg.risk, corr);
  }

  /** What the approved order may cost at its limit: it stays, up to the rounding of the limit, within the risk budget
      of the multiplier passed on and within what the whole book may hold, in contracts of a hundred shares; one
      contract more at the ask would pass one of the three bounds. */
  lemma ApprovedOrderFits(i: Inputs, cfg: Config, corr: M.Correlation, c: C.Contract, q: int, limit: int,
                          multiplier: real, budget: real, share: real)
    requires Approves(i, cfg, corr, c, q) && -0.5 <= limit as real - c.quote.value.ask * 1000000.0 <= 0.5
    requires multiplier == M.Round(G.MultiplierOf(SituationOf(i), cfg.risk), 10000.0)
    requires budget
             == i.account.balance * (cfg.sizing.riskPct * (if multiplier == 0.0 then 1.0 else multiplier)) / 100.0
    requires share == i.account.balance * cfg.sizing.maxPremiumPct / 100.0
    ensures c.multiplier == 100 && 1 <= q <= cfg.sizing.maxContracts
    ensures Costs(limit as real / 1000000.0, q) <= budget + 0.00005 * q as real
    ensures i.openPremium + Costs(limit as real / 1000000.0, q) <= share + 0.00005 * q as real
    ensures var more := Costs(c.quote.value.ask, q + 1);
            more > budget || i.openPremium + more > share || q + 1 > cfg.sizing.maxContracts
  {
    ChosenContract(i, cfg, c);
    BudgetIs(i, cfg, multiplier, budget);
    SizedAtTheAsk(i, cfg, corr, c, q, budget, share);
    LimitCosts(limit as real / 1000000.0, c.quote.value.ask, q);
  }

  lemma BudgetIs(i: Inputs, cfg: Config, multiplier: real, budget: real)
    requires i.quant.Found? && multiplier == M.Round(G.MultiplierOf(SituationOf(i), cfg.risk), 10000.0)
    requires budget
             == i.account.balance * (cfg.sizing.riskPct * (if multiplier == 0.0 then 1.0 else multiplier)) / 100.0
    ensures budget == Z.RiskBudget(i.account.balance, PolicyFor(i, cfg))
  {
    assert MultiplierFor(i, cfg) == if multiplier == 0.0 then 1.0 else multiplier;
  }

  /** What `q` contracts of a hundred shares cost at this price. */
  function Costs(price: real, q: int): real {
    price * 100.0 * q as real
  }

  lemma SizedAtTheAsk(i: Inputs, cfg: Config, corr: M.Correlation, c: C.Contract, q: int, budget: real, share: real)
    requires Approves(i, cfg, corr, c, q) && c.multiplier == 100
    requires budget == Z.RiskBudget(i.account.balance, PolicyFor(i, cfg))
    requires share == Z.AllowedPremium(i.account.balance, PolicyFor(i, cfg))
    ensures FitsAtPrice(q, c.quote.value.ask, budget, cfg.sizing.maxContracts, share - i.openPremium)
    ensures !FitsAtPrice(q + 1, c.quote.value.ask, budget, cfg.sizing.maxContracts, share - i.openPremium)
  {
    assert PolicyFor(i, cfg).maxContracts == cfg.sizing.maxContracts;
    CostsOf(c.quote.value.ask, q);
    CostsOf(c.quote.value.ask, q + 1);
    assert !Z.Fits(q + 1, Z.PerContract(c), budget, cfg.sizing.maxContracts, share - i.openPremium);
  }

  predicate FitsAtPrice(q: int, price: real, budget: real, maxContracts: int, remaining: real) {
    q >= 1 && Costs(price, q) <= budget && q <= maxContracts && Costs(price, q) <= remaining
  }

  lemma CostsOf(ask: real, q: int)
    ensures Z.Loss(q, ask * 100.0) == Costs(ask, q)
  {
  }

  lemma LimitCosts(limit: real, ask: real, q: int)
    requires limit - ask <= 0.0000005 && q >= 1
    ensures Costs(limit, q) <= Costs(ask, q) + 0.00005 * q as real
  {
    ProductGrows(q as real, limit * 100.0, ask * 100.0 + 0.00005);
    Sum(ask * 100.0, 0.00005, q as real);
  }

  /** The approved contract is in the chain, has the standard multiplier and expresses the signal's direction. */
  lemma ChosenContract(i: Inputs, cfg: Config, c: C.Contract)
    requires Picks(i, cfg, c)
    ensures c in i.chain.value && c.multiplier == 100 && c.quote.Some?
    ensures c.kind == if i.quant.signal.direction == Buy then C.Call else C.Put
  {
    var want := C.TypeFor(i.quant.signal.direction);
    C.ChoiceIsSelected(c, i.chain.value, want, i.quant.entry, i.today, cfg.selection);
    C.EligibleMeans(c, want, i.today, cfg.selection);
  }

  /** The recorded decision of a run that reached the broker says what the reply was: EXECUTING and accepted, with the
      count ordered, for an acknowledgement with an id; REJECTED at the execution guard for a refusal; FAILED, because
      an order may exist, for everything else. */
  lemma DecisionTellsTheReply(s: Snapshot, s': Snapshot, i: Inputs, cfg: Config, corr: M.Correlation,
                              review: R.Review, secret: int, w: World, r: RunOutcome)
    requires s.side.Some? && RunRelation(s, s', i, cfg, corr, review, secret, w, r) && r.Finished?
    requires s'.side.value.received != s.side.value.received
    ensures var d, n := r.decision, |s.side.value.received|;
            && |s'.side.value.received| == n + 1
            && var order := s'.side.value.received[n].proposal;
            && d.contract.Some? && order.symbol == d.contract.value.symbol && d.execution.Some?
            && (d.accepted <==> w.reply.Response? && w.reply.orderId != "")
            && (d.accepted ==> d.ordered == order.quantity && d.state == Executing && d.stage == NoStage)
            && (w.reply.RaisedRejected? ==> d.state == SystemState.RejectedState && d.stage == ExecutionGuard)
            && (!d.accepted && !w.reply.RaisedRejected? ==> d.state == FailedState && d.stage == NoStage)
            && (!d.accepted ==> d.ordered == 0)
  {
    assert !NothingExecutes(i, cfg, corr, review, s.side);
    var c, q :| Executes(i, cfg, corr, review, s.side, c, q);
    assert ExecutedAs(s, s', i, cfg, secret, w, r, c, q);
    var state :| SubmittedAs(s.side.value, s'.side.value, i, cfg, secret, c, q, w, state)
                 && state.Some? && DecidedAs(r.decision, c, q, state.value);
    SubmissionTells(s.side.value, s'.side.value, i, cfg, secret, c, q, w, state);
  }

  lemma SubmissionTells(v: View, v': View, i: Inputs, cfg: Config, secret: int, c: C.Contract, q: int, w: World,
                        state: Option<SubmissionState>)
    requires SubmittedAs(v, v', i, cfg, secret, c, q, w, state) && v'.received != v.received
    ensures v'.received == v.received + [Payload(OrderFor(c, q), "st-" + i.nonce)]
    ensures state.Some? && !state.value.BlockedState?
    ensures state.value.SubmittedState? <==> w.reply.Response? && w.reply.orderId != ""
    ensures state.value.RejectedState? <==> w.reply.RaisedRejected?
  {
    var token := Token(LicenceFor(i, cfg, secret, c, q).value);
    var x :| SubmitRelation(v, v', token, secret, OrderFor(c, q), i.book, "", i.now, w, x) && state == StateIn(x);
    ReplyDecides(v, v', token, secret, OrderFor(c, q), i.book, "", i.now, w, x);
  }

  /** A run records exactly one decision, unless a policy it gets to does not validate, the review of an approved
      trade raises, searching the journal raises, or the store refuses; then it records none. */
  lemma OneDecisionExactly(s: Snapshot, s': Snapshot, i: Inputs, cfg: Config, corr: M.Correlation, review: R.Review,
                           secret: int, w: World, r: RunOutcome)
    requires RunRelation(s, s', i, cfg, corr, review, secret, w, r)
    ensures (r.Finished? && s'.decisions == s.decisions + [r.decision] && r.decision.decisionId == i.decisionId) <==>
            && i.storeAccepts
            && !Mispolicied(i, cfg, corr)
            && !(review.Raises? && SomethingApproved(i, cfg, corr))
            && !SubmitFails(i, cfg, corr, review, s.side)
    ensures !r.Finished? ==> s'.decisions == s.decisions
  {
  }

  /** A veto with a confidence of a one and four hundred zeros: the approved trade is not executed, and nothing is
      recorded of it. */
  lemma HugeConfidenceLosesTheDecision(s: Snapshot, s': Snapshot, i: Inputs, cfg: Config, corr: M.Correlation,
                                       review: R.Review, secret: int, w: World, r: RunOutcome, debate: bool,
                                       bull: R.Reply, bear: R.Reply, e: nat)
    requires e == 400
    requires R.IsReview(review, debate, bull, bear, R.Answer(Some(R.VetoTrade), R.Whole(R.Pow(10, e))))
    requires SomethingApproved(i, cfg, corr) && RunRelation(s, s', i, cfg, corr, review, secret, w, r)
    ensures r.ReviewRaised? && s'.decisions == s.decisions && s'.side == s.side
  {
    R.HugeConfidenceRaises(review, debate, bull, bear, e);
    assert NothingExecutes(i, cfg, corr, review, s.side);
  }

  // ---------------------------------------------------------------- the multiplier passed on

  /** No multiplier between these bounds is passed on above the upper one. */
  predicate StaysWithin(min: real, max: real) {
    M.Round(max, 10000.0) <= max && (max >= 1.0 || min > 0.00005 || max < -0.00005)
  }

  /** For a configured least and greatest multiplier: whatever lies between them is passed on at most as the greatest,
      exactly when the greatest does not round up and, unless it is at least one, nothing between them rounds to
      zero. */
  lemma PassedOnWithinExactly(min: real, max: real)
    requires min <= max
    ensures (forall m :: min <= m <= max ==> PassedOn(M.Round(m, 10000.0)) <= max) <==> StaysWithin(min, max)
  {
    if StaysWithin(min, max) {
      forall m | min <= m <= max
        ensures PassedOn(M.Round(m, 10000.0)) <= max
      {
        M.RoundMonotone(m, max, 10000.0);
        RoundsToZero(m);
      }
    } else {
      RoundsToZero(max);
      var m := if min >= -0.00005 then min else if max <= 0.00005 then max else 0.0;
      RoundsToZero(m);
      assert min <= m <= max;
      assert PassedOn(M.Round(max, 10000.0)) > max || PassedOn(M.Round(m, 10000.0)) > max;
    }
  }

  lemma RoundsToZero(m: real)
    ensures M.Round(m, 10000.0) == 0.0 <==> -0.00005 <= m <= 0.00005
  {
    var n := M.Nearest(m * 10000.0);
    assert M.Round(m, 10000.0) == n as real / 10000.0;
    assert n == 0 <==> -0.5 <= m * 10000.0 <= 0.5;
  }

  /** Under such a configuration an approved order cannot lose more than the balance times the risk percentage times
      the configured greatest multiplier. */
  lemma LossWithinMaximum(i: Inputs, cfg: Config, corr: M.Correlation, c: C.Contract, q: int)
    requires Approves(i, cfg, corr, c, q) && cfg.sizing.riskPct >= 0.0
    requires cfg.risk.sizing.minMultiplier <= cfg.risk.sizing.maxMultiplier
    requires StaysWithin(cfg.risk.sizing.minMultiplier, cfg.risk.sizing.maxMultiplier)
    ensures Z.Loss(q, Z.PerContract(c)) <=
            Z.RiskBudget(i.account.balance, Scaled(cfg.sizing, cfg.risk.sizing.maxMultiplier))
  {
    assert cfg.risk.sizing.minMultiplier <= G.MultiplierOf(SituationOf(i), cfg.risk) <= cfg.risk.sizing.maxMultiplier;
    PassedOnWithinExactly(cfg.risk.sizing.minMultiplier, cfg.risk.sizing.maxMultiplier);
    ApprovedWithinBudget(i, cfg, corr, c, q);
    BudgetGrows(i.account.balance, cfg.sizing, MultiplierFor(i, cfg), cfg.risk.sizing.maxMultiplier);
  }

  lemma ApprovedWithinBudget(i: Inputs, cfg: Config, corr: M.Correlation, c: C.Contract, q: int)
    requires Approves(i, cfg, corr, c, q)
    ensures i.account.balance > 0.0
    ensures Z.Loss(q, Z.PerContract(c)) <= Z.RiskBudget(i.account.balance, Scaled(cfg.sizing, MultiplierFor(i, cfg)))
  {
  }

  lemma BudgetGrows(balance: real, p: Z.SizingPolicy, m: real, m': real)
    requires balance > 0.0 && p.riskPct >= 0.0 && m <= m'
    ensures Z.RiskBudget(balance, Scaled(p, m)) <= Z.RiskBudget(balance, Scaled(p, m'))
  {
    ProductGrows(p.riskPct, m, m');
    ProductGrows(balance, p.riskPct * m, p.riskPct * m');
  }
}
