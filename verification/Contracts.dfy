/** Which contract expresses a directional view: filters first, then the one nearest the money, nearest the
    target expiry, lowest symbol. */
module Contracts {
  import opened Outcomes
  import opened Market
  import opened RealFacts

  datatype ContractType = Call | Put

  datatype Quote = Quote(bid: real, ask: real) {
    function Mid(): real {
      (bid + ask) / 2.0
    }

    /** Whether the spread in percent of the mid passes a ceiling; a mid at or below zero never does. */
    predicate SpreadWithin(maxPct: real) {
      Mid() > 0.0 && (ask - bid) / Mid() * 100.0 <= maxPct
    }
  }

  datatype Contract = Contract(symbol: string, kind: ContractType, strike: real, expiration: int, multiplier: int,
                               quote: Option<Quote>, openInterest: Option<int>, tradable: bool)

  datatype SelectionPolicy = SelectionPolicy(minDte: int, maxDte: int, targetDte: int, maxSpreadPct: real,
                                             minOpenInterest: int, minAsk: real)

  predicate PolicyIsValid(p: SelectionPolicy) {
    0 < p.minDte <= p.targetDte <= p.maxDte && p.maxSpreadPct > 0.0 && p.minOpenInterest >= 0 && p.minAsk > 0.0
  }

  datatype Reason = WrongType | NotTradable | NonStandardMultiplier | ExpiresTooSoon | ExpiresTooLate | NoQuote
                  | NoTwoSidedMarket | CrossedQuote | PremiumBelowFloor | SpreadTooWide | InsufficientOpenInterest

  const STANDARD_MULTIPLIER := 100

  /** Days to expiry. */
  function Dte(c: Contract, asof: int): int {
    c.expiration - asof
  }

  function TypeFor(d: Direction): ContractType {
    if d == Buy then Call else Put
  }

  /** The first rule a contract breaks. */
  function Fault(c: Contract, want: ContractType, asof: int, p: SelectionPolicy): Option<Reason> {
    if c.kind != want then Some(WrongType)
    else if !c.tradable then Some(NotTradable)
    else if c.multiplier != STANDARD_MULTIPLIER then Some(NonStandardMultiplier)
    else if Dte(c, asof) < p.minDte then Some(ExpiresTooSoon)
    else if Dte(c, asof) > p.maxDte then Some(ExpiresTooLate)
    else match c.quote
      case None => Some(NoQuote)
      case Some(q) =>
        if q.bid <= 0.0 || q.ask <= 0.0 then Some(NoTwoSidedMarket)
        else if q.ask < q.bid then Some(CrossedQuote)
        else if q.ask < p.minAsk then Some(PremiumBelowFloor)
        else if !q.SpreadWithin(p.maxSpreadPct) then Some(SpreadTooWide)
        else if c.openInterest.Some? && c.openInterest.value < p.minOpenInterest then Some(InsufficientOpenInterest)
        else None
  }

  predicate Eligible(c: Contract, want: ContractType, asof: int, p: SelectionPolicy) {
    Fault(c, want, asof, p).None?
  }

  /** What a contract that breaks no rule looks like. */
  lemma EligibleMeans(c: Contract, want: ContractType, asof: int, p: SelectionPolicy)
    ensures Eligible(c, want, asof, p) <==>
            && c.kind == want && c.tradable && c.multiplier == STANDARD_MULTIPLIER
            && p.minDte <= Dte(c, asof) <= p.maxDte
            && c.quote.Some? && 0.0 < c.quote.value.bid <= c.quote.value.ask && p.minAsk <= c.quote.value.ask
            && c.quote.value.ask - c.quote.value.bid <= p.maxSpreadPct / 100.0 * c.quote.value.Mid()
            && (c.openInterest.Some? ==> c.openInterest.value >= p.minOpenInterest)
  {
    if c.quote.Some? && 0.0 < c.quote.value.bid <= c.quote.value.ask {
      var q := c.quote.value;
      RatioBelow(q.ask - q.bid, q.Mid(), p.maxSpreadPct);
    }
  }

  lemma RatioBelow(a: real, m: real, pct: real)
    requires m > 0.0
    ensures a / m * 100.0 <= pct <==> a <= pct / 100.0 * m
  {
    var x, y := a / m, pct / 100.0;
    assert x * m == a;
    if x < y {
      Ordered(y, x, m);
    } else if x > y {
      Ordered(x, y, m);
    }
  }

  /** The filters in the order they are applied. */
  const FILTERS := [WrongType, NotTradable, NonStandardMultiplier, ExpiresTooSoon, ExpiresTooLate, NoQuote,
                    NoTwoSidedMarket, CrossedQuote, PremiumBelowFloor, SpreadTooWide, InsufficientOpenInterest]

  /** A contract breaks this rule, whatever the other rules say; a rule about the quote needs one. */
  predicate Fails(c: Contract, r: Reason, want: ContractType, asof: int, p: SelectionPolicy) {
    match r
    case WrongType => c.kind != want
    case NotTradable => !c.tradable
    case NonStandardMultiplier => c.multiplier != 100
    case ExpiresTooSoon => c.expiration - asof < p.minDte
    case ExpiresTooLate => c.expiration - asof > p.maxDte
    case NoQuote => c.quote.None?
    case NoTwoSidedMarket => c.quote.Some? && (c.quote.value.bid <= 0.0 || c.quote.value.ask <= 0.0)
    case CrossedQuote => c.quote.Some? && c.quote.value.ask < c.quote.value.bid
    case PremiumBelowFloor => c.quote.Some? && c.quote.value.ask < p.minAsk
    case SpreadTooWide =>
      c.quote.Some? && (c.quote.value.ask - c.quote.value.bid) * 200.0
                       > p.maxSpreadPct * (c.quote.value.bid + c.quote.value.ask)
    case InsufficientOpenInterest => c.openInterest.Some? && c.openInterest.value < p.minOpenInterest
  }

  /** The reason given is the first of the filters the contract fails; without one it fails none. */
  lemma FaultIsFirst(c: Contract, want: ContractType, asof: int, p: SelectionPolicy, k: nat)
    requires k < |FILTERS|
    ensures Fault(c, want, asof, p) == Some(FILTERS[k]) <==>
            Fails(c, FILTERS[k], want, asof, p) && forall j :: 0 <= j < k ==> !Fails(c, FILTERS[j], want, asof, p)
  {
    if c.quote.Some? && c.quote.value.bid > 0.0 && c.quote.value.ask > 0.0 {
      SpreadAgainst(c.quote.value, p.maxSpreadPct);
    }
    assert FILTERS[0] == WrongType && FILTERS[1] == NotTradable && FILTERS[2] == NonStandardMultiplier;
    assert FILTERS[3] == ExpiresTooSoon && FILTERS[4] == ExpiresTooLate && FILTERS[5] == Reason.NoQuote;
    assert FILTERS[6] == NoTwoSidedMarket && FILTERS[7] == CrossedQuote && FILTERS[8] == PremiumBelowFloor;
    assert FILTERS[9] == SpreadTooWide && FILTERS[10] == InsufficientOpenInterest;
  }

  lemma SpreadAgainst(q: Quote, maxPct: real)
    requires q.bid > 0.0 && q.ask > 0.0
    ensures q.SpreadWithin(maxPct) <==> (q.ask - q.bid) * 200.0 <= maxPct * (q.bid + q.ask)
  {
    RatioBelow(q.ask - q.bid, q.Mid(), maxPct);
    assert maxPct / 100.0 * q.Mid() == maxPct * (q.bid + q.ask) / 200.0;
  }

  // ---------------------------------------------------------------- the order of preference

  predicate StringBelow(a: string, b: string) {
    if b == [] then false
    else if a == [] then true
    else if a[0] != b[0] then a[0] < b[0]
    else StringBelow(a[1..], b[1..])
  }

  lemma {:induction false} StringOrder(a: string, b: string)
    ensures !(StringBelow(a, b) && StringBelow(b, a))
    ensures a != b ==> StringBelow(a, b) || StringBelow(b, a)
    ensures !StringBelow(a, a)
  {
    if a != [] {
      if b != [] {
        StringOrder(a[1..], b[1..]);
        assert a == [a[0]] + a[1..] && b == [b[0]] + b[1..];
      } else {
        StringOrder(a[1..], a[1..]);
      }
    }
  }

  /** Symbols are compared character by character from the front; a proper prefix comes first. */
  lemma {:induction false} StringBelowExactly(a: string, b: string)
    ensures StringBelow(a, b) <==>
            exists n :: 0 <= n <= |a| && n < |b| && a[..n] == b[..n] && (n == |a| || a[n] < b[n])
  {
    if StringBelow(a, b) {
      if a != [] && a[0] == b[0] {
        StringBelowExactly(a[1..], b[1..]);
        var n :| 0 <= n <= |a[1..]| && n < |b[1..]| && a[1..][..n] == b[1..][..n]
                 && (n == |a[1..]| || a[1..][n] < b[1..][n]);
        assert a[..n + 1] == [a[0]] + a[1..][..n] && b[..n + 1] == [b[0]] + b[1..][..n];
      } else {
        assert a[..0] == b[..0];
      }
    }
    if n :| 0 <= n <= |a| && n < |b| && a[..n] == b[..n] && (n == |a| || a[n] < b[n]) {
      if n > 0 {
        assert a[0] == a[..n][0] == b[..n][0] == b[0];
        assert a[1..][..n - 1] == a[..n][1..] == b[..n][1..] == b[1..][..n - 1];
        StringBelowExactly(a[1..], b[1..]);
      }
    }
  }

  lemma {:induction false} StringTransitive(a: string, b: string, c: string)
    requires StringBelow(a, b) && StringBelow(b, c)
    ensures StringBelow(a, c)
  {
    if a != [] && a[0] == b[0] && b[0] == c[0] {
      StringTransitive(a[1..], b[1..], c[1..]);
    }
  }

  function StrikeDistance(c: Contract, spot: real): real {
    Abs(c.strike - spot)
  }

  function DteDistance(c: Contract, asof: int, target: int): nat {
    var d := Dte(c, asof) - target;
    if d >= 0 then d else -d
  }

  /** `a` is strictly preferred to `b`. */
  predicate Before(a: Contract, b: Contract, spot: real, asof: int, target: int) {
    || StrikeDistance(a, spot) < StrikeDistance(b, spot)
    || (StrikeDistance(a, spot) == StrikeDistance(b, spot)
        && (|| DteDistance(a, asof, target) < DteDistance(b, asof, target)
            || (DteDistance(a, asof, target) == DteDistance(b, asof, target) && StringBelow(a.symbol, b.symbol))))
  }

  lemma BeforeTransitive(a: Contract, b: Contract, c: Contract, spot: real, asof: int, target: int)
    requires Before(a, b, spot, asof, target) && Before(b, c, spot, asof, target)
    ensures Before(a, c, spot, asof, target)
  {
    if StringBelow(a.symbol, b.symbol) && StringBelow(b.symbol, c.symbol) {
      StringTransitive(a.symbol, b.symbol, c.symbol);
    }
  }

  /** Contracts with different symbols are never tied. */
  lemma BeforeIsTotal(a: Contract, b: Contract, spot: real, asof: int, target: int)
    requires a.symbol != b.symbol
    ensures Before(a, b, spot, asof, target) <==> !Before(b, a, spot, asof, target)
  {
    StringOrder(a.symbol, b.symbol);
  }

  /** What is not preferred to `b` is not preferred to anything before `b`. */
  lemma BeforeSkips(a: Contract, b: Contract, c: Contract, spot: real, asof: int, target: int)
    requires Before(a, b, spot, asof, target) && !Before(c, b, spot, asof, target)
    ensures Before(a, c, spot, asof, target)
  {
    if Before(b, c, spot, asof, target) {
      BeforeTransitive(a, b, c, spot, asof, target);
    } else {
      StringOrder(b.symbol, c.symbol);
    }
  }

  lemma BeforeIsStrict(a: Contract, b: Contract, spot: real, asof: int, target: int)
    ensures !(Before(a, b, spot, asof, target) && Before(b, a, spot, asof, target))
  {
    StringOrder(a.symbol, b.symbol);
  }

  // ---------------------------------------------------------------- the selection

  datatype Selection =
    | InvalidPolicy
    | BadSpot
    | NothingEligible(rejections: map<Reason, nat>)
    | Chosen(contract: Contract, considered: nat, rejected: map<Reason, nat>)

  function CountFault(cs: seq<Contract>, r: Reason, want: ContractType, asof: int, p: SelectionPolicy): nat {
    if cs == [] then 0
    else CountFault(cs[..|cs| - 1], r, want, asof, p) + (if Fault(cs[|cs| - 1], want, asof, p) == Some(r) then 1 else 0)
  }

  function EligibleOf(cs: seq<Contract>, want: ContractType, asof: int, p: SelectionPolicy): seq<Contract> {
    if cs == [] then []
    else
      var init, c := EligibleOf(cs[..|cs| - 1], want, asof, p), cs[|cs| - 1];
      if Eligible(c, want, asof, p) then init + [c] else init
  }

  lemma {:induction false} EligibleExactly(cs: seq<Contract>, want: ContractType, asof: int, p: SelectionPolicy)
    ensures forall c :: c in EligibleOf(cs, want, asof, p) <==> c in cs && Eligible(c, want, asof, p)
  {
    if cs != [] {
      var n := |cs| - 1;
      EligibleExactly(cs[..n], want, asof, p);
      assert cs == cs[..n] + [cs[n]];
    }
  }

  /** Sum of the counts of a rejection map. */
  ghost function Total(m: map<Reason, nat>): nat {
    if m == map[] then 0 else m[Pick(m)] + Total(m - {Pick(m)})
  }

  ghost function Pick(m: map<Reason, nat>): (r: Reason)
    requires m != map[]
    ensures r in m
  {
    var r :| r in m;
    r
  }

  lemma {:induction false} TotalPick(m: map<Reason, nat>, r: Reason)
    requires r in m
    ensures Total(m) == m[r] + Total(m - {r})
  {
    var s := Pick(m);
    if s != r {
      TotalPick(m - {s}, r);
      TotalPick(m - {r}, s);
      SwapRemoval(m, r, s);
    }
  }

  lemma SwapRemoval(m: map<Reason, nat>, r: Reason, s: Reason)
    ensures m - {s} - {r} == m - {r} - {s}
  {
  }

  /** Counting one more of a reason adds one to the total. */
  lemma TotalDrop(m: map<Reason, nat>, r: Reason)
    ensures Total(m[r := (if r in m then m[r] else 0) + 1]) == Total(m) + 1
  {
    var m' := m[r := (if r in m then m[r] else 0) + 1];
    TotalPick(m', r);
    if r in m {
      TotalPick(m, r);
      assert m' - {r} == m - {r};
    } else {
      assert m' - {r} == m;
    }
  }

  /** The tally holds exactly the reasons met, each with how often it was met. */
  predicate Tallies(m: map<Reason, nat>, cs: seq<Contract>, want: ContractType, asof: int, p: SelectionPolicy) {
    forall r ::
      (r in m <==> CountFault(cs, r, want, asof, p) > 0) && (r in m ==> m[r] == CountFault(cs, r, want, asof, p))
  }

  /** The first of the least elements: strictly preferred to everything before it, and nothing after it is
      preferred to it. */
  predicate IsFirstLeast(cs: seq<Contract>, k: int, spot: real, asof: int, target: int) {
    && 0 <= k < |cs|
    && (forall j :: 0 <= j < k ==> Before(cs[k], cs[j], spot, asof, target))
    && (forall j :: k < j < |cs| ==> !Before(cs[j], cs[k], spot, asof, target))
  }

  lemma FirstLeastIsLeast(cs: seq<Contract>, k: int, spot: real, asof: int, target: int)
    requires IsFirstLeast(cs, k, spot, asof, target)
    ensures forall c :: c in cs ==> !Before(c, cs[k], spot, asof, target)
  {
    forall c | c in cs
      ensures !Before(c, cs[k], spot, asof, target)
    {
      var j :| 0 <= j < |cs| && cs[j] == c;
      BeforeIsStrict(cs[j], cs[k], spot, asof, target);
    }
  }

  method Minimum(cs: seq<Contract>, spot: real, asof: int, target: int) returns (best: Contract)
    requires cs != []
    ensures exists k :: IsFirstLeast(cs, k, spot, asof, target) && cs[k] == best
  {
    best := cs[0];
    ghost var k := 0;
    for i := 1 to |cs|
      invariant IsFirstLeast(cs[..i], k, spot, asof, target) && cs[k] == best
    {
      TakeSnoc(cs, i);
      if Before(cs[i], best, spot, asof, target) {
        LeastMoves(cs[..i], k, cs[i], spot, asof, target);
        best, k := cs[i], i;
      }
    }
    assert cs[..|cs|] == cs;
  }

  lemma LeastMoves(cs: seq<Contract>, k: int, c: Contract, spot: real, asof: int, target: int)
    requires IsFirstLeast(cs, k, spot, asof, target) && Before(c, cs[k], spot, asof, target)
    ensures forall j :: 0 <= j < |cs| ==> Before(c, cs[j], spot, asof, target)
  {
    forall j | 0 <= j < |cs|
      ensures Before(c, cs[j], spot, asof, target)
    {
      if j != k {
        BeforeIsStrict(cs[j], cs[k], spot, asof, target);
        BeforeSkips(c, cs[k], cs[j], spot, asof, target);
      }
    }
  }

  /** One pass that drops or keeps each contract. */
  method Filter(cs: seq<Contract>, want: ContractType, asof: int, p: SelectionPolicy)
    returns (eligible: seq<Contract>, rejected: map<Reason, nat>)
    ensures eligible == EligibleOf(cs, want, asof, p)
    ensures Tallies(rejected, cs, want, asof, p)
    ensures |cs| == |eligible| + Total(rejected)
  {
    eligible, rejected := [], map[];
    for i := 0 to |cs|
      invariant eligible == EligibleOf(cs[..i], want, asof, p)
      invariant Tallies(rejected, cs[..i], want, asof, p)
      invariant i == |eligible| + Total(rejected)
    {
      TakeSnoc(cs, i);
      var fault := FaultOf(cs[i], want, asof, p);
      match fault
      case None => eligible := eligible + [cs[i]];
      case Some(r) =>
        TotalDrop(rejected, r);
        rejected := rejected[r := (if r in rejected then rejected[r] else 0) + 1];
    }
    assert cs[..|cs|] == cs;
  }

  /** The filters one by one, cheap ones first. */
  method FaultOf(c: Contract, want: ContractType, asof: int, p: SelectionPolicy) returns (r: Option<Reason>)
    ensures r == Fault(c, want, asof, p)
    ensures r.None? ==>
              c.quote.Some? && 0.0 < c.quote.value.bid <= c.quote.value.ask && c.multiplier == STANDARD_MULTIPLIER
  {
    if c.kind != want { return Some(WrongType); }
    if !c.tradable { return Some(NotTradable); }
    if c.multiplier != STANDARD_MULTIPLIER { return Some(NonStandardMultiplier); }
    var dte := Dte(c, asof);
    if dte < p.minDte { return Some(ExpiresTooSoon); }
    if dte > p.maxDte { return Some(ExpiresTooLate); }
    if c.quote.None? { return Some(NoQuote); }
    var q := c.quote.value;
    if q.bid <= 0.0 || q.ask <= 0.0 { return Some(NoTwoSidedMarket); }
    if q.ask < q.bid { return Some(CrossedQuote); }
    if q.ask < p.minAsk { return Some(PremiumBelowFloor); }
    if !q.SpreadWithin(p.maxSpreadPct) { return Some(SpreadTooWide); }
    if c.openInterest.Some? && c.openInterest.value < p.minOpenInterest { return Some(InsufficientOpenInterest); }
    r := None;
  }

  /** The best of the eligible contracts. */
  ghost predicate IsSelected(c: Contract, cs: seq<Contract>, want: ContractType, spot: real, asof: int,
                             p: SelectionPolicy) {
    && c in cs && Eligible(c, want, asof, p)
    && forall d :: d in cs && Eligible(d, want, asof, p) ==> !Before(d, c, spot, asof, p.targetDte)
  }

  /** The choice itself: the first of the best, should several share strike distance, expiry distance and symbol. */
  ghost predicate IsChoice(c: Contract, cs: seq<Contract>, want: ContractType, spot: real, asof: int,
                           p: SelectionPolicy) {
    exists k :: IsFirstLeast(EligibleOf(cs, want, asof, p), k, spot, asof, p.targetDte)
                && EligibleOf(cs, want, asof, p)[k] == c
  }

  lemma OneChoiceOnly(c: Contract, d: Contract, cs: seq<Contract>, want: ContractType, spot: real, asof: int,
                      p: SelectionPolicy)
    requires IsChoice(c, cs, want, spot, asof, p) && IsChoice(d, cs, want, spot, asof, p)
    ensures c == d
  {
    var es := EligibleOf(cs, want, asof, p);
    var i :| IsFirstLeast(es, i, spot, asof, p.targetDte) && es[i] == c;
    var j :| IsFirstLeast(es, j, spot, asof, p.targetDte) && es[j] == d;
    assert i == j;
  }

  lemma ChoiceIsSelected(c: Contract, cs: seq<Contract>, want: ContractType, spot: real, asof: int, p: SelectionPolicy)
    requires IsChoice(c, cs, want, spot, asof, p)
    ensures IsSelected(c, cs, want, spot, asof, p)
  {
    var es := EligibleOf(cs, want, asof, p);
    var k :| IsFirstLeast(es, k, spot, asof, p.targetDte) && es[k] == c;
    FirstLeastIsLeast(es, k, spot, asof, p.targetDte);
    EligibleExactly(cs, want, asof, p);
    assert es[k] in es;
  }

  ghost predicate NoneEligible(cs: seq<Contract>, want: ContractType, asof: int, p: SelectionPolicy) {
    forall c :: c in cs ==> !Eligible(c, want, asof, p)
  }

  /** What the outcome of a selection means. */
  ghost predicate Selects(r: Selection, cs: seq<Contract>, want: ContractType, spot: real, asof: int,
                          p: SelectionPolicy) {
    && (r.InvalidPolicy? <==> !PolicyIsValid(p))
    && (r.BadSpot? <==> PolicyIsValid(p) && spot <= 0.0)
    && (r.NothingEligible? <==> PolicyIsValid(p) && spot > 0.0 && NoneEligible(cs, want, asof, p))
    && (r.NothingEligible? ==> Tallies(r.rejections, cs, want, asof, p) && Total(r.rejections) == |cs|)
    && (r.Chosen? ==>
          && IsSelected(r.contract, cs, want, spot, asof, p)
          && Tallies(r.rejected, cs, want, asof, p)
          && r.considered == |cs| == |EligibleOf(cs, want, asof, p)| + Total(r.rejected))
  }

  /** The most preferred of the eligible contracts; a failure exactly when none is eligible; every contract
      considered is either eligible or counted under the first rule it breaks. */
  method SelectContract(cs: seq<Contract>, d: Direction, spot: real, asof: int, p: SelectionPolicy)
    returns (r: Selection)
    ensures Selects(r, cs, TypeFor(d), spot, asof, p)
    ensures r.Chosen? ==> IsChoice(r.contract, cs, TypeFor(d), spot, asof, p)
    ensures r.Chosen? ==> r.contract.quote.Some? && 0.0 < r.contract.quote.value.ask
                          && r.contract.multiplier == STANDARD_MULTIPLIER
  {
    if !PolicyIsValid(p) { return InvalidPolicy; }
    if spot <= 0.0 { return BadSpot; }
    var want := TypeFor(d);
    var eligible, rejected := Filter(cs, want, asof, p);
    EligibleExactly(cs, want, asof, p);
    if eligible == [] {
      NoneKept(cs, want, asof, p);
      return NothingEligible(rejected);
    }
    assert eligible[0] in eligible;
    var best := Minimum(eligible, spot, asof, p.targetDte);
    assert IsChoice(best, cs, want, spot, asof, p);
    ChoiceIsSelected(best, cs, want, spot, asof, p);
    r := Chosen(best, |cs|, rejected);
  }

  lemma NoneKept(cs: seq<Contract>, want: ContractType, asof: int, p: SelectionPolicy)
    requires EligibleOf(cs, want, asof, p) == []
    ensures NoneEligible(cs, want, asof, p)
  {
    EligibleExactly(cs, want, asof, p);
    forall c | c in cs
      ensures !Eligible(c, want, asof, p)
    {
      assert c !in EligibleOf(cs, want, asof, p);
    }
  }

  predicate DistinctSymbols(cs: seq<Contract>) {
    forall i, j :: 0 <= i < j < |cs| ==> cs[i].symbol != cs[j].symbol
  }

  /** The order in which a chain arrives decides nothing: one choice only is the best of a chain with distinct
      symbols, and it is the best of every rearrangement of the chain. */
  lemma OrderDoesNotMatter(cs: seq<Contract>, ds: seq<Contract>, c: Contract, d: Contract, want: ContractType,
                           spot: real, asof: int, p: SelectionPolicy)
    requires multiset(cs) == multiset(ds) && DistinctSymbols(cs)
    requires IsSelected(c, cs, want, spot, asof, p) && IsSelected(d, ds, want, spot, asof, p)
    ensures c == d
  {
    assert d in multiset(ds) && d in cs;
    assert c in multiset(cs) && c in ds;
    if c.symbol != d.symbol {
      BeforeIsTotal(c, d, spot, asof, p.targetDte);
    } else {
      var i :| 0 <= i < |cs| && cs[i] == c;
      var j :| 0 <= j < |cs| && cs[j] == d;
    }
  }

  function Without(cs: seq<Contract>, k: nat): seq<Contract>
    requires k < |cs|
  {
    cs[..k] + cs[k + 1..]
  }

  lemma {:induction false} CountFaultByMultiset(cs: seq<Contract>, ds: seq<Contract>, r: Reason, want: ContractType,
                                                asof: int, p: SelectionPolicy)
    requires multiset(cs) == multiset(ds)
    ensures CountFault(cs, r, want, asof, p) == CountFault(ds, r, want, asof, p)
    decreases |cs|
  {
    if cs == [] {
      assert |ds| == |multiset(ds)|;
    } else {
      var k := Locate(cs[0], cs, ds);
      WithoutOne(ds, k);
      WithoutOne(cs, 0);
      CountFaultByMultiset(Without(cs, 0), Without(ds, k), r, want, asof, p);
      CountFaultRemove(ds, k, r, want, asof, p);
      CountFaultRemove(cs, 0, r, want, asof, p);
    }
  }

  lemma Locate(c: Contract, cs: seq<Contract>, ds: seq<Contract>) returns (k: nat)
    requires multiset(cs) == multiset(ds) && c in cs
    ensures k < |ds| && ds[k] == c
  {
    assert c in multiset(ds);
    k :| 0 <= k < |ds| && ds[k] == c;
  }

  lemma WithoutOne(cs: seq<Contract>, k: nat)
    requires k < |cs|
    ensures multiset(Without(cs, k)) == multiset(cs) - multiset{cs[k]}
  {
    assert cs == cs[..k] + [cs[k]] + cs[k + 1..];
  }

  lemma {:induction false} CountFaultRemove(cs: seq<Contract>, k: nat, r: Reason, want: ContractType, asof: int,
                                            p: SelectionPolicy)
    requires k < |cs|
    ensures CountFault(cs, r, want, asof, p) ==
            CountFault(Without(cs, k), r, want, asof, p) + (if Fault(cs[k], want, asof, p) == Some(r) then 1 else 0)
  {
    var n := |cs| - 1;
    if k == n {
      assert Without(cs, k) == cs[..n];
    } else {
      CountFaultRemove(cs[..n], k, r, want, asof, p);
      WithoutInit(cs, k);
    }
  }

  lemma WithoutInit(cs: seq<Contract>, k: nat)
    requires k < |cs| - 1
    ensures Without(cs, k) == Without(cs[..|cs| - 1], k) + [cs[|cs| - 1]]
    ensures Without(cs, k)[..|cs| - 2] == Without(cs[..|cs| - 1], k)
  {
  }

  lemma TalliesAgree(cs: seq<Contract>, ds: seq<Contract>, m: map<Reason, nat>, m': map<Reason, nat>,
                     want: ContractType, asof: int, p: SelectionPolicy)
    requires multiset(cs) == multiset(ds)
    requires Tallies(m, cs, want, asof, p) && Tallies(m', ds, want, asof, p)
    ensures m == m'
  {
    forall r: Reason
      ensures CountFault(cs, r, want, asof, p) == CountFault(ds, r, want, asof, p)
    {
      CountFaultByMultiset(cs, ds, r, want, asof, p);
    }
  }

  lemma NoneEligibleAgree(cs: seq<Contract>, ds: seq<Contract>, want: ContractType, asof: int, p: SelectionPolicy)
    requires multiset(cs) == multiset(ds) && NoneEligible(cs, want, asof, p)
    ensures NoneEligible(ds, want, asof, p)
  {
    forall c | c in ds
      ensures !Eligible(c, want, asof, p)
    {
      assert c in multiset(ds) && c in multiset(cs) && c in cs;
    }
  }

  /** Two selections over rearrangements of one chain with distinct symbols are the same in every part: the
      contract, the failure, the count considered and the tally. */
  lemma SelectionIsOrderIndependent(cs: seq<Contract>, ds: seq<Contract>, r: Selection, r': Selection,
                                    want: ContractType, spot: real, asof: int, p: SelectionPolicy)
    requires multiset(cs) == multiset(ds) && DistinctSymbols(cs)
    requires Selects(r, cs, want, spot, asof, p) && Selects(r', ds, want, spot, asof, p)
    ensures r == r'
  {
    if NoneEligible(cs, want, asof, p) { NoneEligibleAgree(cs, ds, want, asof, p); }
    if NoneEligible(ds, want, asof, p) { NoneEligibleAgree(ds, cs, want, asof, p); }
    assert |cs| == |multiset(cs)| == |multiset(ds)| == |ds|;
    match r
    case Chosen(c, n, m) =>
      OrderDoesNotMatter(cs, ds, c, r'.contract, want, spot, asof, p);
      TalliesAgree(cs, ds, m, r'.rejected, want, asof, p);
    case NothingEligible(m) => TalliesAgree(cs, ds, m, r'.rejections, want, asof, p);
    case _ =>
  }

  /** What is chosen, on the contracts themselves: a tradable contract of a hundred shares on the side of the signal,
      in the expiry window, with a sound two-sided quote. No other eligible contract has its strike nearer the price
      of the underlying; among those as near, none expires nearer the target; among those, none has a lower symbol. */
  lemma ChosenMeans(r: Selection, cs: seq<Contract>, d: Direction, spot: real, asof: int, p: SelectionPolicy)
    requires Selects(r, cs, TypeFor(d), spot, asof, p) && r.Chosen?
    ensures var c := r.contract;
            && c in cs && c.tradable && c.multiplier == 100 && c.kind == (if d.Buy? then Call else Put)
            && p.minDte <= c.expiration - asof <= p.maxDte
            && c.quote.Some? && 0.0 < c.quote.value.bid <= c.quote.value.ask
    ensures forall e :: e in cs && Eligible(e, TypeFor(d), asof, p) ==>
              NotBetter(e, r.contract, spot, asof, p.targetDte)
  {
    var c := r.contract;
    EligibleMeans(c, TypeFor(d), asof, p);
    forall e | e in cs && Eligible(e, TypeFor(d), asof, p)
      ensures NotBetter(e, c, spot, asof, p.targetDte)
    {
      assert !Before(e, c, spot, asof, p.targetDte);
    }
  }

  /** `e` is farther from the money than `c`, or as far and farther from the target expiry, or as far in both without a
      lower symbol. */
  predicate NotBetter(e: Contract, c: Contract, spot: real, asof: int, target: int) {
    var strike, strike' := Abs(e.strike - spot), Abs(c.strike - spot);
    var days, days' := Abs((e.expiration - asof - target) as real), Abs((c.expiration - asof - target) as real);
    strike > strike' || (strike == strike' && (days > days' || (days == days' && !StringBelow(e.symbol, c.symbol))))
  }
}
