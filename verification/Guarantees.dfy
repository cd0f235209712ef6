/** What holds in every state of every run. */
module Guarantees {
  import opened Outcomes
  import opened IntentLog
  import opened Authorization
  import opened Adapter
  import opened Protocol
  import opened RegistryInvariant
  import opened JournalInvariant

  lemma {:induction false} Reachable(states: seq<State>, events: seq<Event>, n: nat)
    requires Run(states, events) && n < |states|
    ensures RegistryInv(states[n]) && states[n].journaled == states[0].journaled
    ensures states[0].journaled && Careful(states, events) ==> JournalInv(states[n])
  {
    if n > 0 {
      Reachable(states, events, n - 1);
      var s, e, s' := states[n - 1], events[n - 1], states[n];
      assert Step(s, e, s');
      InvariantStep(s, e, s');
      assert Careful(states, events) ==> CleanWriteAhead(s, e);
    }
  }

  lemma InvariantStep(s: State, e: Event, s': State)
    requires RegistryInv(s) && Step(s, e, s')
    ensures RegistryInv(s') && s'.journaled == s.journaled
    ensures s.journaled && JournalInv(s) && CleanWriteAhead(s, e) ==> JournalInv(s')
  {
    RegistryStep(s, e, s');
    if s.journaled && JournalInv(s) && CleanWriteAhead(s, e) {
      JournalStep(s, e, s');
    }
  }

  /** With the registry alone, journal or not, one licence reaches the broker at most once per process
      life, and every order carries exactly the request, book and quantity of an unexpired minted licence. */
  lemma OneLicenceOneOrder(states: seq<State>, events: seq<Event>, n: nat)
    requires Run(states, events) && n < |states|
    ensures var s := states[n];
            && (forall i :: 0 <= i < |s.calls| ==>
                  var c := s.calls[i];
                  && c.licence in s.minted
                  && c.licence.proposalHash == OfProposal(c.request)
                  && c.licence.portfolioHash == OfBook(c.book)
                  && c.licence.approvedQuantity == c.request.quantity > 0
                  && c.verifiedAt < c.licence.expiresAt
                  && c.id == ClientOrderId(c.licence.nonce))
            && (forall i, k :: 0 <= i < k < |s.calls| && s.calls[i].epoch == s.calls[k].epoch ==>
                  s.calls[i].licence != s.calls[k].licence && s.calls[i].id != s.calls[k].id)
  {
    Reachable(states, events, n);
    var s := states[n];
    forall i, k | 0 <= i < k < |s.calls| && s.calls[i].epoch == s.calls[k].epoch
      ensures s.calls[i].id != s.calls[k].id
    {
      ClientOrderIdInjective(s.calls[i].licence.nonce, s.calls[k].licence.nonce);
    }
  }

  /** With the journal, the broker is called at most once per client order id over every run, crashes,
      restarts and surviving licences included. */
  lemma AtMostOneCallPerId(states: seq<State>, events: seq<Event>, n: nat)
    requires Run(states, events) && Careful(states, events) && states[0].journaled && n < |states|
    ensures var calls := states[n].calls;
            forall i, k :: 0 <= i < k < |calls| ==> calls[i].id != calls[k].id
  {
    Reachable(states, events, n);
  }

  /** No contacted order is forgotten: its attempt was durable before the call, with the symbol, quantity
      and limit that were sent, and it is pending unless the broker refused it or recovery settled it. */
  lemma NoOrderForgotten(states: seq<State>, events: seq<Event>, n: nat, i: nat)
    requires Run(states, events) && Careful(states, events) && states[0].journaled
    requires n < |states| && i < |states[n].calls|
    ensures var s := states[n];
            var c := s.calls[i];
            && AttemptedBefore(s.disk.lines, c.linesBefore, c.id, c.request)
            && Latest(Readable(s.disk), c.id).Some?
            && var last := Latest(Readable(s.disk), c.id).value;
               IsPending(Readable(s.disk), c.id) || last.recovered || last.phase.Rejected?
  {
    Reachable(states, events, n);
    LatestIsSound(states[n], states[n].calls[i].id);
  }

  lemma LatestIsSound(s: State, id: string)
    requires JournalInv(s) && Called(s.calls, id)
    ensures Latest(Readable(s.disk), id).Some?
    ensures RecordSound(s.orders, Latest(Readable(s.disk), id).value)
    ensures Latest(Readable(s.disk), id).value.coid == id
  {
    CalledIsReadable(s, id);
    LatestIsLast(Readable(s.disk), id);
    var i :| 0 <= i < |Readable(s.disk)| && Readable(s.disk)[i] == Latest(Readable(s.disk), id).value;
    assert Readable(s.disk)[i] in Readable(s.disk);
  }

  /** The log never denies an order that exists at the broker: it is pending, or recovery has seen it. */
  lemma LogNeverDeniesAnOrder(states: seq<State>, events: seq<Event>, n: nat, id: string)
    requires Run(states, events) && Careful(states, events) && states[0].journaled
    requires n < |states| && id in states[n].orders
    ensures var log := Readable(states[n].disk);
            && Latest(log, id).Some?
            && (IsPending(log, id) || (Latest(log, id).value.phase.Reconciled? && Latest(log, id).value.recovered))
  {
    Reachable(states, events, n);
    LatestIsSound(states[n], id);
  }

  /** When nothing is pending, which is when the runtime may start, every order that exists at the broker
      has been observed by recovery, and no licence presented later can send any of them again. */
  lemma SafeStart(states: seq<State>, events: seq<Event>, n: nat, id: string)
    requires Run(states, events) && Careful(states, events) && states[0].journaled && n < |states|
    requires Pending(Readable(states[n].disk)) == []
    requires id in states[n].orders
    ensures var log := Readable(states[n].disk);
            && Has(log, id)
            && Latest(log, id).Some?
            && Latest(log, id).value.phase.Reconciled? && Latest(log, id).value.recovered
  {
    LogNeverDeniesAnOrder(states, events, n, id);
    LatestIsLast(Readable(states[n].disk), id);
    PendingExact(Readable(states[n].disk), 0);
  }
}
