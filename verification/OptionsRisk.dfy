/** How many contracts a risk budget buys. A long option's greatest loss is the premium paid. */
module OptionsRisk {
  import opened Outcomes
  import opened RealFacts
  import opened Contracts

  datatype SizingPolicy = SizingPolicy(riskPct: real, maxContracts: int, maxPremiumPct: real)

  predicate SizingPolicyIsValid(p: SizingPolicy) {
    0.0 < p.riskPct <= 100.0 && p.maxContracts >= 1 && 0.0 < p.maxPremiumPct <= 100.0
  }

  datatype Cause = NoQuote | BadAsk | BadBalance | OverBudget | CapReached | CapTooTight

  datatype Sizing =
    | InvalidPolicy
    | InvalidMultiplier
    | Refused(cause: Cause)
    | Approved(quantity: int, premium: real, maxLoss: real, total: real, budget: real,
               cappedByCount: bool, cappedByBook: bool)

  function RiskBudget(balance: real, p: SizingPolicy): real {
    balance * p.riskPct / 100.0
  }

  function AllowedPremium(balance: real, p: SizingPolicy): real {
    balance * p.maxPremiumPct / 100.0
  }

  /** What `q` contracts may lose. */
  function Loss(q: int, perContract: real): real {
    q as real * perContract
  }

  /** A count of contracts that respects every limit at once. */
  predicate Fits(q: int, perContract: real, budget: real, maxContracts: int, remaining: real) {
    && q >= 1
    && Loss(q, perContract) <= budget
    && q <= maxContracts
    && Loss(q, perContract) <= remaining
  }

  /** The floor of a quotient is the greatest count that stays within the amount. */
  lemma FloorIsGreatest(q: int, amount: real, perContract: real)
    requires perContract > 0.0
    ensures Loss(q, perContract) <= amount <==> q <= (amount / perContract).Floor
  {
    var x := amount / perContract;
    assert x * perContract == amount;
    var d := x - q as real;
    assert d * perContract == x * perContract - q as real * perContract;
    if q as real <= x {
      MulNonneg(d, perContract);
    } else {
    }
  }

  /** Both limits on money at once: the smaller of two floors and a count. */
  lemma FitsExactly(q: int, perContract: real, budget: real, maxContracts: int, remaining: real)
    requires perContract > 0.0
    ensures Fits(q, perContract, budget, maxContracts, remaining) <==>
            1 <= q <= Least((budget / perContract).Floor, maxContracts, (remaining / perContract).Floor)
  {
    FloorIsGreatest(q, budget, perContract);
    FloorIsGreatest(q, remaining, perContract);
  }

  function Least(a: int, b: int, c: int): int {
    var m := if a <= b then a else b;
    if m <= c then m else c
  }

  /** The contract is one whose loss can be bounded. */
  predicate Priced(c: Contract, balance: real) {
    c.quote.Some? && c.quote.value.ask > 0.0 && c.multiplier > 0 && balance > 0.0
  }

  function PerContract(c: Contract): real
    requires c.quote.Some?
  {
    c.quote.value.ask * c.multiplier as real
  }

  /** The greatest count within the per-trade budget, the contract ceiling and what the whole book still allows;
      a refusal exactly when there is no such count. */
  method SizeOptionPosition(c: Contract, balance: real, p: SizingPolicy, openPremium: real) returns (r: Sizing)
    ensures r.InvalidPolicy? <==> !SizingPolicyIsValid(p)
    ensures r.InvalidMultiplier? <==>
              SizingPolicyIsValid(p) && c.quote.Some? && c.quote.value.ask > 0.0 && c.multiplier <= 0
    ensures SizingPolicyIsValid(p) && Priced(c, balance) ==>
              SizedExactly(r, PerContract(c), RiskBudget(balance, p), p.maxContracts,
                           AllowedPremium(balance, p) - openPremium)
    ensures r.Approved? ==> Priced(c, balance)
    ensures r.Approved? ==> r.premium == c.quote.value.ask && r.maxLoss == PerContract(c)
    ensures r.Approved? ==> r.budget == RiskBudget(balance, p)
    ensures r.Approved? ==> WithinLimits(r, balance, p, openPremium)
    ensures r == Refused(Cause.NoQuote) <==> SizingPolicyIsValid(p) && c.quote.None?
    ensures r == Refused(BadAsk) <==> SizingPolicyIsValid(p) && c.quote.Some? && c.quote.value.ask <= 0.0
    ensures r == Refused(BadBalance) <==>
              SizingPolicyIsValid(p) && c.quote.Some? && c.quote.value.ask > 0.0 && c.multiplier > 0 && balance <= 0.0
    ensures SizingPolicyIsValid(p) && Priced(c, balance) ==>
              Explained(r, PerContract(c), RiskBudget(balance, p), p.maxContracts,
                        AllowedPremium(balance, p) - openPremium)
  {
    if !SizingPolicyIsValid(p) { return Sizing.InvalidPolicy; }
    if c.quote.None? { return Refused(Cause.NoQuote); }
    var ask := c.quote.value.ask;
    if ask <= 0.0 { return Refused(BadAsk); }
    if c.multiplier <= 0 { return InvalidMultiplier; }
    if balance <= 0.0 { return Refused(BadBalance); }
    r := SizeWithin(ask, PerContract(c), RiskBudget(balance, p), p.maxContracts,
                    AllowedPremium(balance, p), openPremium);
  }

  /** Approved with the greatest count that fits, or refused because none does. */
  ghost predicate SizedExactly(r: Sizing, perContract: real, budget: real, maxContracts: int, remaining: real) {
    if r.Approved? then
      && Fits(r.quantity, perContract, budget, maxContracts, remaining)
      && (forall q: int :: q > r.quantity ==> !Fits(q, perContract, budget, maxContracts, remaining))
      && r.total == Loss(r.quantity, perContract)
    else
      r.Refused? && forall q: int :: !Fits(q, perContract, budget, maxContracts, remaining)
  }

  /** Why there is no count, and which limits an approved one ran into: the ceiling when the budget alone would buy
      more than it, the book when budget and ceiling would allow one more. */
  ghost predicate Explained(r: Sizing, perContract: real, budget: real, maxContracts: int, remaining: real) {
    && (r.Approved? || r in {Refused(OverBudget), Refused(CapReached), Refused(CapTooTight)})
    && (r == Refused(OverBudget) <==> perContract > budget)
    && (r == Refused(CapReached) <==> perContract <= budget && remaining <= 0.0)
    && (r == Refused(CapTooTight) <==> perContract <= budget && 0.0 < remaining < perContract)
    && (r.Approved? ==>
          && (r.cappedByCount <==> Loss(maxContracts + 1, perContract) <= budget)
          && (r.cappedByBook <==> Loss(r.quantity + 1, perContract) <= budget && r.quantity + 1 <= maxContracts))
  }

  predicate WithinLimits(r: Sizing, balance: real, p: SizingPolicy, openPremium: real)
    requires r.Approved?
  {
    && r.quantity >= 1
    && r.total <= RiskBudget(balance, p)
    && r.quantity <= p.maxContracts
    && openPremium + r.total <= AllowedPremium(balance, p)
  }

  method SizeWithin(ask: real, perContract: real, budget: real, maxContracts: int, allowed: real, openPremium: real)
    returns (r: Sizing)
    requires perContract > 0.0 && maxContracts >= 1
    ensures SizedExactly(r, perContract, budget, maxContracts, allowed - openPremium)
    ensures Explained(r, perContract, budget, maxContracts, allowed - openPremium)
    ensures r.Approved? ==> r.premium == ask && r.maxLoss == perContract && r.budget == budget
  {
    var remaining := allowed - openPremium;
    forall q: int
      ensures Fits(q, perContract, budget, maxContracts, remaining) <==>
              1 <= q <= Least((budget / perContract).Floor, maxContracts, (remaining / perContract).Floor)
    {
      FitsExactly(q, perContract, budget, maxContracts, remaining);
    }
    FloorIsGreatest(1, budget, perContract);
    FloorIsGreatest(1, remaining, perContract);
    FloorIsGreatest(maxContracts + 1, budget, perContract);
    var qty := (budget / perContract).Floor;
    var countCapped, bookCapped := false, false;
    if qty < 1 { return Refused(OverBudget); }
    if qty > maxContracts {
      qty, countCapped := maxContracts, true;
    }
    if remaining <= 0.0 {
      NothingRemains(remaining, perContract);
      return Refused(CapReached);
    }
    var affordable := (remaining / perContract).Floor;
    if affordable < qty {
      qty, bookCapped := affordable, true;
    }
    if qty < 1 { return Refused(CapTooTight); }
    FloorIsGreatest(qty + 1, budget, perContract);
    r := Approved(qty, ask, perContract, Loss(qty, perContract), budget, countCapped, bookCapped);
  }

  lemma NothingRemains(remaining: real, perContract: real)
    requires remaining <= 0.0 && perContract > 0.0
    ensures (remaining / perContract).Floor < 1
  {
    var x := remaining / perContract;
    assert x * perContract == remaining;
    Cancel(-x, perContract);
  }

  // ---------------------------------------------------------------- a sequence of trades

  /** The premium committed after a run of sizings, each made against the book the earlier ones left. */
  function PremiumAfter(start: real, rs: seq<Sizing>): real {
    if rs == [] then start
    else
      var before := PremiumAfter(start, rs[..|rs| - 1]);
      var last := rs[|rs| - 1];
      if last.Approved? then before + last.total else before
  }

  /** Every approval in the run was within the limits when it was made, under a policy of its own that keeps
      the same share of the book. */
  ghost predicate EachWithin(start: real, rs: seq<Sizing>, ps: seq<SizingPolicy>, balance: real, share: real) {
    && |ps| == |rs|
    && forall i :: 0 <= i < |rs| ==>
         ps[i].maxPremiumPct == share
         && (rs[i].Approved? ==> WithinLimits(rs[i], balance, ps[i], PremiumAfter(start, rs[..i])))
  }

  /** At a fixed balance the open premium never passes the book's cap, whatever each trade's own risk budget. */
  lemma {:induction false} BookStaysCapped(start: real, rs: seq<Sizing>, ps: seq<SizingPolicy>, balance: real,
                                           share: real)
    requires EachWithin(start, rs, ps, balance, share)
    requires start <= balance * share / 100.0
    ensures PremiumAfter(start, rs) <= balance * share / 100.0
  {
    if rs != [] {
      var n := |rs| - 1;
      assert rs[..n][..n] == rs[..n];
      forall i | 0 <= i < n
        ensures rs[..n][..i] == rs[..i]
      {
      }
      BookStaysCapped(start, rs[..n], ps[..n], balance, share);
    }
  }

  /** The cap holds after each of the sizings. */
  predicate Capped(start: real, rs: seq<Sizing>, cap: real) {
    forall i :: 0 <= i <= |rs| ==> PremiumAfter(start, rs[..i]) <= cap
  }

  lemma CappedSnoc(start: real, rs: seq<Sizing>, r: Sizing, cap: real)
    requires Capped(start, rs, cap) && PremiumAfter(start, rs + [r]) <= cap
    ensures Capped(start, rs + [r], cap)
  {
    forall i | 0 <= i <= |rs + [r]|
      ensures PremiumAfter(start, (rs + [r])[..i]) <= cap
    {
      if i <= |rs| {
        assert (rs + [r])[..i] == rs[..i];
      } else {
        assert (rs + [r])[..i] == rs + [r];
      }
    }
  }

  lemma EachWithinSnoc(start: real, rs: seq<Sizing>, ps: seq<SizingPolicy>, balance: real, share: real, r: Sizing)
    requires |rs| < |ps| && EachWithin(start, rs, ps[..|rs|], balance, share) && ps[|rs|].maxPremiumPct == share
    requires r.Approved? ==> WithinLimits(r, balance, ps[|rs|], PremiumAfter(start, rs))
    ensures EachWithin(start, rs + [r], ps[..|rs| + 1], balance, share)
    ensures PremiumAfter(start, rs + [r]) == PremiumAfter(start, rs) + (if r.Approved? then r.total else 0.0)
    ensures forall j :: 0 <= j <= |rs| ==> (rs + [r])[..j] == rs[..j]
  {
    var all, policies := rs + [r], ps[..|rs| + 1];
    assert all[..|rs|] == rs;
    forall i | 0 <= i < |all|
      ensures policies[i].maxPremiumPct == share
      ensures all[i].Approved? ==> WithinLimits(all[i], balance, policies[i], PremiumAfter(start, all[..i]))
    {
      if i < |rs| {
        assert all[..i] == rs[..i] && policies[i] == ps[..|rs|][i];
      }
    }
  }

  /** The same, for a loop that sizes one contract after the other against what is already committed. */
  method SizeAll(cs: seq<Contract>, ps: seq<SizingPolicy>, balance: real, share: real, start: real)
    returns (rs: seq<Sizing>, open: real)
    requires |cs| == |ps| && forall i :: 0 <= i < |ps| ==> ps[i].maxPremiumPct == share
    requires start <= balance * share / 100.0
    ensures |rs| == |cs| && open == PremiumAfter(start, rs)
    ensures Capped(start, rs, balance * share / 100.0)
  {
    rs, open := [], start;
    for i := 0 to |cs|
      invariant |rs| == i && open == PremiumAfter(start, rs)
      invariant EachWithin(start, rs, ps[..i], balance, share)
      invariant Capped(start, rs, balance * share / 100.0)
    {
      var r := SizeOptionPosition(cs[i], balance, ps[i], open);
      EachWithinSnoc(start, rs, ps, balance, share, r);
      if r.Approved? { open := open + r.total; }
      BookStaysCapped(start, rs + [r], ps[..i + 1], balance, share);
      CappedSnoc(start, rs, r, balance * share / 100.0);
      rs := rs + [r];
    }
  }
}
