/** What the broker's answer about one order means. Reads only; an answer that cannot be classified,
    or that disagrees with what was authorised, is escalated. */
module Reconciliation {
  import opened Outcomes

  datatype ReconciledState =
    Filled | PartiallyFilled | Open | Canceled | Expired | RejectedByBroker | NotFound | NeedsHuman

  /** One order as the broker describes it. The status is trimmed and lower-case; a number that is
      missing or does not parse is `None`, a missing text is empty. */
  datatype OrderPayload = OrderPayload(
    status: string, id: string, symbol: string, qty: Option<real>, filledQty: Option<real>)

  datatype LookupAnswer = QueryFailed | NoOrder | UnreadableOrder | Order(payload: OrderPayload)

  datatype Discrepancy = SymbolMismatch | QuantityMismatch | Overfill | FilledWithoutQuantity

  datatype Reconciled = Reconciled(
    coid: string,
    state: ReconciledState,
    filledQuantity: real,
    requestedQuantity: real,
    brokerOrderId: Option<string>,
    brokerStatus: string,
    discrepancies: seq<Discrepancy>)
  {
    predicate PositionExists() {
      state.Filled? || state.PartiallyFilled?
    }

    predicate IsTerminal() {
      state.Filled? || state.Canceled? || state.Expired? || state.RejectedByBroker? || state.NotFound?
    }

    predicate SafeToRetry() {
      state.NotFound? || state.RejectedByBroker?
    }
  }

  /** A query that failed, an id that is empty, or the settled truth. */
  datatype Settlement = Unavailable | MissingId | Settled(r: Reconciled)

  const LIVE_STATUSES := ["new", "accepted", "pending_new", "accepted_for_bidding", "held", "pending_cancel"]
  const AMBIGUOUS_STATUSES := ["suspended", "stopped", "calculated", "done_for_day", "replaced", "pending_replace"]

  function ClassifyStatus(status: string): Option<ReconciledState> {
    if status == "filled" then Some(Filled)
    else if status == "partially_filled" then Some(PartiallyFilled)
    else if status in LIVE_STATUSES then Some(Open)
    else if status == "canceled" then Some(Canceled)
    else if status == "expired" then Some(Expired)
    else if status == "rejected" then Some(RejectedByBroker)
    else if status in AMBIGUOUS_STATUSES then Some(NeedsHuman)
    else None
  }

  function Num(v: Option<real>, default: real): real {
    if v.Some? then v.value else default
  }

  function IdOf(p: OrderPayload): Option<string> {
    if p.id == "" then None else Some(p.id)
  }

  /** The broker's order is the one that was authorised. An empty expectation checks nothing. */
  predicate Agrees(p: OrderPayload, expectedQuantity: real, expectedSymbol: string) {
    var requested := Num(p.qty, expectedQuantity);
    var filled := Num(p.filledQty, 0.0);
    && (expectedSymbol == "" || p.symbol == expectedSymbol)
    && (requested == 0.0 || expectedQuantity == 0.0 || requested == expectedQuantity)
    && !(filled > requested > 0.0)
    && (p.status == "filled" ==> filled > 0.0)
  }

  /** What one lookup establishes. */
  function Classify(answer: LookupAnswer, expectedQuantity: real, expectedSymbol: string): ReconciledState
    requires !answer.QueryFailed?
  {
    match answer
    case NoOrder => NotFound
    case UnreadableOrder => NeedsHuman
    case Order(p) =>
      var known := ClassifyStatus(p.status);
      if known.None? || !Agrees(p, expectedQuantity, expectedSymbol) then NeedsHuman else known.value
  }

  /** The discrepancies listed are exactly those there are; a number the broker does not state
      disagrees with nothing. */
  predicate Lists(r: Reconciled, p: OrderPayload, expectedQuantity: real, expectedSymbol: string) {
    && r.requestedQuantity == (if p.qty.Some? then p.qty.value else expectedQuantity)
    && (SymbolMismatch in r.discrepancies <==> expectedSymbol != "" && p.symbol != expectedSymbol)
    && (QuantityMismatch in r.discrepancies <==>
          p.qty.Some? && p.qty.value != 0.0 && expectedQuantity != 0.0 && p.qty.value != expectedQuantity)
    && (Overfill in r.discrepancies <==>
          r.requestedQuantity > 0.0 && p.filledQty.Some? && p.filledQty.value > r.requestedQuantity)
    && (FilledWithoutQuantity in r.discrepancies <==>
          p.status == "filled" && (p.filledQty.None? || p.filledQty.value <= 0.0))
    && (r.discrepancies == [] <==> Agrees(p, expectedQuantity, expectedSymbol))
  }

  method ReconcileOrder(answer: LookupAnswer, coid: string, expectedQuantity: real, expectedSymbol: string)
    returns (s: Settlement)
    ensures s.MissingId? <==> coid == ""
    ensures s.Unavailable? <==> coid != "" && answer.QueryFailed?
    ensures s.Settled? ==>
              && s.r.coid == coid
              && s.r.state == Classify(answer, expectedQuantity, expectedSymbol)
              && (answer.Order? ==>
                    && s.r.brokerStatus == answer.payload.status
                    && s.r.brokerOrderId == IdOf(answer.payload)
                    && s.r.filledQuantity == Num(answer.payload.filledQty, 0.0)
                    && (ClassifyStatus(answer.payload.status).Some? ==>
                          Lists(s.r, answer.payload, expectedQuantity, expectedSymbol)))
              && (!answer.Order? ==> s.r.brokerStatus == "" && s.r.brokerOrderId == None && s.r.discrepancies == [])
  {
    if coid == "" { return MissingId; }
    match answer
    case QueryFailed => s := Unavailable;
    case NoOrder => s := Settled(Reconciled(coid, NotFound, 0.0, expectedQuantity, None, "", []));
    case UnreadableOrder => s := Settled(Reconciled(coid, NeedsHuman, 0.0, expectedQuantity, None, "", []));
    case Order(p) =>
      var known := ClassifyStatus(p.status);
      var filled := Num(p.filledQty, 0.0);
      if known.None? {
        return Settled(Reconciled(coid, NeedsHuman, filled, expectedQuantity, IdOf(p), p.status, []));
      }
      var state := known.value;
      var requested := Num(p.qty, expectedQuantity);
      var discrepancies: seq<Discrepancy> := [];
      if expectedSymbol != "" && p.symbol != expectedSymbol {
        discrepancies := discrepancies + [SymbolMismatch];
      }
      if requested != 0.0 && expectedQuantity != 0.0 && requested != expectedQuantity {
        discrepancies := discrepancies + [QuantityMismatch];
      }
      if filled > requested > 0.0 {
        discrepancies := discrepancies + [Overfill];
      }
      if state.Filled? && filled <= 0.0 {
        discrepancies := discrepancies + [FilledWithoutQuantity];
      }
      if discrepancies != [] {
        state := NeedsHuman;
      }
      s := Settled(Reconciled(coid, state, filled, requested, IdOf(p), p.status, discrepancies));
  }

  /** What a reconciliation of one lookup reports. */
  predicate Of(s: Reconciled, answer: LookupAnswer, q: real, sym: string) {
    !answer.QueryFailed? && s.state == Classify(answer, q, sym)
  }

  /** Every state, as the answer decides it. An order that contradicts what was sent, or whose status has no agreed
      meaning, is for a human. */
  lemma StateExactly(s: Reconciled, answer: LookupAnswer, q: real, sym: string)
    requires Of(s, answer, q, sym)
    ensures s.state.NotFound? <==> answer.NoOrder?
    ensures answer.Order? && Agrees(answer.payload, q, sym) ==>
              var status := answer.payload.status;
              && (s.state.Filled? <==> status == "filled")
              && (s.state.PartiallyFilled? <==> status == "partially_filled")
              && (s.state.Canceled? <==> status == "canceled")
              && (s.state.Expired? <==> status == "expired")
              && (s.state.RejectedByBroker? <==> status == "rejected")
              && (s.state.Open? <==> status in ["new", "accepted", "pending_new", "accepted_for_bidding", "held",
                                                "pending_cancel"])
    ensures answer.UnreadableOrder? || (answer.Order? && !Agrees(answer.payload, q, sym)) ==> s.state.NeedsHuman?
  {
    if answer.Order? {
      LabelsDistinct(answer.payload.status);
      if answer.payload.status in LIVE_STATUSES { LiveIsOpen(answer.payload.status); }
    }
  }

  /** An order agrees with what was sent unless symbol or quantity are known on both sides and differ, more was filled
      than ordered, or it is called filled with nothing filled. */
  lemma AgreesExactly(p: OrderPayload, q: real, sym: string)
    ensures !Agrees(p, q, sym) <==>
            || (sym != "" && p.symbol != sym)
            || (p.qty.Some? && p.qty.value != 0.0 && q != 0.0 && p.qty.value != q)
            || (p.filledQty.Some? && p.qty.Some? && 0.0 < p.qty.value < p.filledQty.value)
            || (p.filledQty.Some? && p.qty.None? && 0.0 < q < p.filledQty.value)
            || (p.status == "filled" && (p.filledQty.None? || p.filledQty.value <= 0.0))
  {
  }

  /** A retry is allowed only when the broker has no such order or rejected exactly that order. */
  lemma RetryExactly(s: Reconciled, answer: LookupAnswer, q: real, sym: string)
    requires Of(s, answer, q, sym)
    ensures s.SafeToRetry() <==>
            answer.NoOrder? || (answer.Order? && answer.payload.status == "rejected" && Agrees(answer.payload, q, sym))
    ensures s.SafeToRetry() ==> s.IsTerminal() && !s.PositionExists()
  {
    if answer.Order? {
      LabelsDistinct(answer.payload.status);
    }
  }

  /** Nothing more will happen to an order exactly when it does not exist, or it is the one that was sent and the
      broker calls it filled, cancelled, expired or rejected. */
  lemma TerminalExactly(s: Reconciled, answer: LookupAnswer, q: real, sym: string)
    requires Of(s, answer, q, sym)
    ensures s.IsTerminal() <==>
            answer.NoOrder?
            || (answer.Order? && Agrees(answer.payload, q, sym)
                && answer.payload.status in ["filled", "canceled", "expired", "rejected"])
  {
    if answer.Order? {
      LabelsDistinct(answer.payload.status);
    }
  }

  /** Shares held at the broker that `position_exists` does not show: exactly the orders whose status
      is neither filled nor partially filled, and those with a discrepancy. */
  lemma PositionMissedExactly(s: Reconciled, p: OrderPayload, q: real, sym: string)
    requires Of(s, Order(p), q, sym) && Num(p.filledQty, 0.0) > 0.0
    ensures !s.PositionExists() <==> (p.status != "filled" && p.status != "partially_filled") || !Agrees(p, q, sym)
  {
    LabelsDistinct(p.status);
  }

  /** A partial fill that was then cancelled: four are held, the order is over, and no position is reported. */
  lemma CanceledPartialFillIsMissed(s: Reconciled)
    requires Of(s, Order(OrderPayload("canceled", "b-1", "X", Some(10.0), Some(4.0))), 10.0, "X")
    ensures !s.PositionExists() && s.IsTerminal() && !s.SafeToRetry()
  {
    LabelsDistinct("canceled");
  }

  lemma LabelsDistinct(status: string)
    ensures status == "rejected" ==> ClassifyStatus(status) == Some(RejectedByBroker)
    ensures status == "canceled" ==> ClassifyStatus(status) == Some(Canceled)
    ensures ClassifyStatus(status) == Some(RejectedByBroker) ==> status == "rejected"
    ensures status == "expired" ==> ClassifyStatus(status) == Some(Expired)
  {
    assert |"rejected"| == 8 && |"canceled"| == 8;
    assert "rejected"[0] == 'r' && "canceled"[0] == 'c';
    assert forall s :: s in LIVE_STATUSES ==> s[0] != 'r' && s[0] != 'c' && s[0] != 'e';
    assert "expired"[0] == 'e' && "filled"[0] == 'f' && "partially_filled"[0] == 'p';
  }

  lemma LiveIsOpen(status: string)
    requires status in LIVE_STATUSES
    ensures ClassifyStatus(status) == Some(Open)
  {
    assert status[0] != 'f' && (status[0] == 'p' ==> status[1] == 'e');
    assert "filled"[0] == 'f' && "partially_filled"[1] == 'a';
  }

  /** A batch: one order that cannot be queried is escalated and the rest are still settled. */
  method ReconcileAll(items: seq<(string, real, string)>, answer: string -> LookupAnswer) returns (out: seq<Reconciled>)
    ensures |out| == |items|
    ensures forall i :: 0 <= i < |items| ==>
              && out[i].coid == items[i].0
              && out[i].state == if items[i].0 == "" || answer(items[i].0).QueryFailed? then NeedsHuman
                                 else Classify(answer(items[i].0), items[i].1, items[i].2)
  {
    out := [];
    for i := 0 to |items|
      invariant |out| == i
      invariant forall k :: 0 <= k < i ==>
                  && out[k].coid == items[k].0
                  && out[k].state == if items[k].0 == "" || answer(items[k].0).QueryFailed? then NeedsHuman
                                     else Classify(answer(items[k].0), items[k].1, items[k].2)
    {
      var (coid, q, sym) := items[i];
      var s := ReconcileOrder(answer(coid), coid, q, sym);
      if s.Settled? {
        out := out + [s.r];
      } else {
        out := out + [Reconciled(coid, NeedsHuman, 0.0, q, None, "", [])];
      }
    }
  }
}
