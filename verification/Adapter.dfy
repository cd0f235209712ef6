/** The one place where an order reaches the broker. */
module Adapter {
  import opened Outcomes
  import opened IntentLog
  import opened JournalLine
  import opened JournalFile
  import opened Authorization

  datatype SubmissionState = SubmittedState | RejectedState | UnknownState | BlockedState

  datatype Payload = Payload(proposal: Proposal, clientOrderId: string)

  datatype ExecutionResult = ExecutionResult(
    state: SubmissionState,
    request: Proposal,
    clientOrderId: string,
    brokerOrderId: Option<string>)
  {
    predicate NeedsReconciliation() {
      state.SubmittedState? || state.UnknownState?
    }
  }

  /** What came back from the broker call. An empty `orderId` is a response without one. */
  datatype BrokerReply =
    | RaisedRejected
    | RaisedTimeout
    | RaisedOther
    | Unreadable
    | Response(orderId: string)

  class BrokerPort {
    var received: seq<Payload>

    constructor ()
      ensures received == []
    {
      received := [];
    }

    method SubmitOptionOrder(payload: Payload)
      modifies this
      ensures received == old(received) + [payload]
    {
      received := received + [payload];
    }
  }

  /** What the world does during one submission: the two journal writes and the broker's reply. */
  datatype World = World(attemptFault: WriteFault, reply: BrokerReply, outcomeFault: WriteFault)

  function ClientOrderId(nonce: string): string {
    "st-" + nonce
  }

  lemma ClientOrderIdInjective(m: string, n: string)
    ensures ClientOrderId(m) == ClientOrderId(n) <==> m == n
  {
    assert ClientOrderId(m)[3..] == m && ClientOrderId(n)[3..] == n;
  }

  function StateOf(reply: BrokerReply): SubmissionState {
    match reply
    case RaisedRejected => RejectedState
    case RaisedTimeout => UnknownState
    case RaisedOther => UnknownState
    case Unreadable => UnknownState
    case Response(id) => if id == "" then UnknownState else SubmittedState
  }

  function PhaseOf(state: SubmissionState): Phase
    requires !state.BlockedState?
  {
    match state
    case SubmittedState => Submitted
    case RejectedState => Rejected
    case UnknownState => Unknown
  }

  function BrokerIdOf(reply: BrokerReply): Option<string> {
    if reply.Response? && reply.orderId != "" then Some(reply.orderId) else None
  }

  /** The write-ahead record of one licensed request. */
  function AttemptOf(l: Licence, request: Proposal, cycleId: string, now: int): IntentRecord {
    AttemptRecord(ClientOrderId(l.nonce), l.decisionId, cycleId, request.symbol, request.quantity,
                  request.limitPrice, now)
  }

  function OutcomeOf(l: Licence, reply: BrokerReply, now: int): IntentRecord {
    OutcomeRecord(ClientOrderId(l.nonce), PhaseOf(StateOf(reply)), BrokerIdOf(reply), "", now, false)
  }

  /** What one `submit` meets and leaves behind: the registry, the journal file, what a reader yields of it and
      whether reading gets to the end, and the broker. Without a journal nothing is read. */
  datatype View = View(used: set<string>, disk: Option<Disk>, seen: seq<IntentRecord>, quiet: bool,
                       received: seq<Payload>)
  {
    /** A file without unconvertible lines, read whole. */
    predicate Whole() {
      disk.Some? ==> quiet && seen == Readable(disk.value)
    }
  }

  predicate Sized(l: Licence, request: Proposal) {
    request.quantity == l.approvedQuantity && request.quantity > 0
  }

  /** The request passed every check before the journal is searched. */
  predicate Admitted(v: View, auth: Candidate, secret: int, request: Proposal, book: Book, now: int) {
    Licenses(auth, secret, request, book, now) && auth.licence.nonce !in v.used && Sized(auth.licence, request)
  }

  /** What searching the journal for the order's id gives; without a journal nothing is found. */
  function SearchFor(v: View, id: string): Search {
    if v.disk.None? then Search.NotFound else SearchIn(v.seen, v.quiet, id)
  }

  /** The request passed every check before the write-ahead. */
  predicate Cleared(v: View, auth: Candidate, secret: int, request: Proposal, book: Book, now: int) {
    Admitted(v, auth, secret, request, book, now) && SearchFor(v, ClientOrderId(auth.licence.nonce)).NotFound?
  }

  predicate Contacted(v: View, l: Licence, w: World) {
    SearchFor(v, ClientOrderId(l.nonce)).NotFound? && (v.disk.None? || w.attemptFault.NoFault?)
  }

  /** What happens once the nonce is burned. A raising search leaves by an exception (`None`) and a found id is
      refused, both with journal and broker as they were; otherwise the write-ahead comes first, the broker is
      called only when that is complete, and the outcome, or a torn outcome, follows. */
  ghost predicate SendRelation(v: View, v': View, l: Licence, request: Proposal, cycleId: string, now: int, w: World,
                               r: Option<ExecutionResult>) {
    var search := SearchFor(v, ClientOrderId(l.nonce));
    && v'.used == v.used
    && v'.disk.Some? == v.disk.Some?
    && (v.Whole() ==> v'.Whole())
    && (r.None? <==> search.SearchRaised?)
    && (!search.NotFound? ==> v' == v)
    && (if Contacted(v, l, w) then ContactRelation(v, v', l, request, cycleId, now, w, r)
        else
          && v'.received == v.received
          && (r.Some? ==> r.value.request == request && r.value.state.BlockedState?)
          && (search.NotFound? ==>
                TornBy(v.disk.value, AttemptOf(l, request, cycleId, now), v'.disk.value)))
  }

  ghost predicate ContactRelation(v: View, v': View, l: Licence, request: Proposal, cycleId: string, now: int, w: World,
                                  r: Option<ExecutionResult>) {
    && v'.disk.Some? == v.disk.Some?
    && v'.received == v.received + [Payload(request, ClientOrderId(l.nonce))]
    && r == Some(ExecutionResult(StateOf(w.reply), request, ClientOrderId(l.nonce), BrokerIdOf(w.reply)))
    && (v.disk.Some? ==>
          var ahead := Appended(v.disk.value, AttemptOf(l, request, cycleId, now));
          var outcome := OutcomeOf(l, w.reply, now);
          if w.outcomeFault.NoFault? then v'.disk.value == Appended(ahead, outcome)
          else TornBy(ahead, outcome, v'.disk.value))
  }

  datatype Preparation = SearchFailed | Refused | Go

  /** The search and the write-ahead on their own. */
  ghost predicate AheadRelation(v: View, m: View, l: Licence, request: Proposal, cycleId: string, now: int, w: World,
                                p: Preparation) {
    var search := SearchFor(v, ClientOrderId(l.nonce));
    && m.used == v.used && m.received == v.received && m.disk.Some? == v.disk.Some?
    && (v.Whole() ==> m.Whole())
    && (p.SearchFailed? <==> search.SearchRaised?)
    && (p.Go? <==> Contacted(v, l, w))
    && (!search.NotFound? || v.disk.None? ==> m == v)
    && (search.NotFound? && v.disk.Some? ==>
          if p.Go? then m.disk.value == Appended(v.disk.value, AttemptOf(l, request, cycleId, now))
          else TornBy(v.disk.value, AttemptOf(l, request, cycleId, now), m.disk.value))
  }

  /** The outcome write on its own. */
  ghost predicate OutcomeRelation(m: View, v': View, l: Licence, reply: BrokerReply, now: int, fault: WriteFault) {
    && v'.used == m.used && v'.received == m.received && v'.disk.Some? == m.disk.Some?
    && (m.Whole() ==> v'.Whole())
    && (m.disk.Some? ==>
          if fault.NoFault? then v'.disk.value == Appended(m.disk.value, OutcomeOf(l, reply, now))
          else TornBy(m.disk.value, OutcomeOf(l, reply, now), v'.disk.value))
  }

  /** The broker call and the outcome on their own. */
  ghost predicate CallRelation(m: View, v': View, l: Licence, request: Proposal, now: int, w: World) {
    OutcomeRelation(m.(received := m.received + [Payload(request, ClientOrderId(l.nonce))]),
                    v', l, w.reply, now, w.outcomeFault)
  }

  lemma SendComposes(v: View, m: View, v': View, l: Licence, request: Proposal, cycleId: string, now: int, w: World)
    requires AheadRelation(v, m, l, request, cycleId, now, w, Go) && CallRelation(m, v', l, request, now, w)
    ensures SendRelation(v, v', l, request, cycleId, now, w,
                         Some(ExecutionResult(StateOf(w.reply), request, ClientOrderId(l.nonce), BrokerIdOf(w.reply))))
  {
  }

  lemma SendStops(v: View, m: View, l: Licence, request: Proposal, cycleId: string, now: int, w: World, p: Preparation)
    requires AheadRelation(v, m, l, request, cycleId, now, w, p) && !p.Go?
    ensures SendRelation(v, m, l, request, cycleId, now, w,
                         if p.SearchFailed? then None
                         else Some(ExecutionResult(BlockedState, request, ClientOrderId(l.nonce), None)))
  {
  }

  /** The whole contract of `submit`: a request that is not admitted is refused and burns the nonce exactly when the
      licence verifies; an admitted one burns it and is sent. */
  ghost predicate SubmitRelation(v: View, v': View, auth: Candidate, secret: int, request: Proposal, book: Book,
                                 cycleId: string, now: int, w: World, r: Option<ExecutionResult>) {
    if Admitted(v, auth, secret, request, book, now) then
      SendRelation(v.(used := v.used + {auth.licence.nonce}), v', auth.licence, request, cycleId, now, w, r)
    else
      && v' == v.(used := if Licenses(auth, secret, request, book, now) then v.used + {auth.licence.nonce} else v.used)
      && r.Some? && r.value.request == request && r.value.state.BlockedState?
  }

  // ---------------------------------------------------------------- what a submission tells

  /** The broker is called, with the licensed order, exactly when the licence is genuine, unexpired, unused and bound
      to this order and book, the quantity is the approved one, and either there is no journal or a reader that gets
      to its end finds no record of the id before a complete write-ahead. */
  lemma CalledExactly(v: View, v': View, auth: Candidate, secret: int, request: Proposal, book: Book, cycleId: string,
                      now: int, w: World, r: Option<ExecutionResult>)
    requires SubmitRelation(v, v', auth, secret, request, book, cycleId, now, w, r)
    ensures v'.received != v.received <==>
            && auth.Token?
            && var l := auth.licence;
            && l.signature == Sign(secret, l) && now < l.expiresAt && l.nonce !in v.used
            && l.proposalHash == OfProposal(request) && l.portfolioHash == OfBook(book)
            && request.quantity == l.approvedQuantity > 0
            && (v.disk.Some? ==>
                  v.quiet && w.attemptFault.NoFault? && forall x :: x in v.seen ==> x.coid != "st-" + l.nonce)
    ensures v'.received != v.received ==>
              v'.received == v.received + [Payload(request, "st-" + auth.licence.nonce)]
    ensures v'.received == v.received && r.Some? ==> r.value.state.BlockedState?
  {
    if auth.Token? {
      var id := ClientOrderId(auth.licence.nonce);
      assert Has(v.seen, id) <==> exists x :: x in v.seen && x.coid == id;
    }
  }

  /** What a submission reports once the broker was called, as the reply alone decides it: SUBMITTED, under the
      broker's id, for a response with one; REJECTED for a refusal; UNKNOWN for everything else. */
  lemma ReplyDecides(v: View, v': View, auth: Candidate, secret: int, request: Proposal, book: Book, cycleId: string,
                     now: int, w: World, r: Option<ExecutionResult>)
    requires SubmitRelation(v, v', auth, secret, request, book, cycleId, now, w, r) && v'.received != v.received
    ensures r.Some? && r.value.request == request && r.value.clientOrderId == "st-" + auth.licence.nonce
    ensures r.value.state.SubmittedState? <==> w.reply.Response? && w.reply.orderId != ""
    ensures r.value.state.SubmittedState? ==> r.value.brokerOrderId == Some(w.reply.orderId)
    ensures r.value.state.RejectedState? <==> w.reply.RaisedRejected?
    ensures r.value.state.SubmittedState? || r.value.state.RejectedState? || r.value.state.UnknownState?
    ensures !r.value.state.SubmittedState? ==> r.value.brokerOrderId == None
  {
  }

  /** The last complete line of the file then says the same, whatever the file ended in before; on a terminated file
      the attempt, with the data of the order, comes right before it. */
  lemma FileTells(v: View, v': View, auth: Candidate, secret: int, request: Proposal, book: Book, cycleId: string,
                  now: int, w: World, r: Option<ExecutionResult>)
    requires SubmitRelation(v, v', auth, secret, request, book, cycleId, now, w, r) && v'.received != v.received
    requires v.disk.Some? && w.outcomeFault.NoFault?
    ensures v'.disk.Some? && v'.disk.value.tail.Clean? && v'.disk.value.lines != []
    ensures var lines := v'.disk.value.lines;
            var told := lines[|lines| - 1];
            && told.coid == "st-" + auth.licence.nonce && told.at == now && !told.recovered
            && (told.phase.Submitted? <==> w.reply.Response? && w.reply.orderId != "")
            && (told.phase.Submitted? ==> told.brokerOrderId == Some(w.reply.orderId))
            && (told.phase.Rejected? <==> w.reply.RaisedRejected?)
            && (told.phase.Submitted? || told.phase.Rejected? || told.phase.Unknown?)
            && (!told.phase.Submitted? ==> told.brokerOrderId == None)
    ensures v.disk.value.tail.Clean? ==>
              var lines, n := v'.disk.value.lines, |v.disk.value.lines|;
              && |lines| == n + 2 && lines[..n] == v.disk.value.lines
              && lines[n].coid == "st-" + auth.licence.nonce && lines[n].phase.Attempted? && lines[n].at == now
              && lines[n].decisionId == auth.licence.decisionId && lines[n].cycleId == cycleId
              && lines[n].symbol == request.symbol && lines[n].quantity == request.quantity
              && lines[n].limitPrice == request.limitPrice
  {
  }

  class OptionsExecutionAdapter {
    const broker: BrokerPort
    const registry: AuthorizationRegistry
    const journal: IntentJournal?
    const secret: int

    constructor (broker: BrokerPort, registry: AuthorizationRegistry, journal: IntentJournal?, secret: int)
      ensures this.broker == broker && this.registry == registry && this.journal == journal && this.secret == secret
    {
      this.broker, this.registry, this.journal, this.secret := broker, registry, journal, secret;
    }

    ghost predicate Valid() {
      journal != null ==> journal.Valid()
    }

    ghost function Now(): View
      reads registry, broker, if journal == null then {} else {journal}
    {
      if journal == null then View(registry.used, None, [], true, broker.received)
      else View(registry.used, Some(journal.Contents()), journal.Seen(), journal.Quiet(), broker.received)
    }

    /** A failed outcome write never changes what is reported. */
    method JournalOutcome(l: Licence, reply: BrokerReply, now: int, fault: WriteFault)
      requires Valid()
      modifies if journal == null then {} else {journal}
      ensures OutcomeRelation(old(Now()), Now(), l, reply, now, fault)
    {
      if journal == null { return; }
      var ok := journal.RecordOutcome(ClientOrderId(l.nonce), PhaseOf(StateOf(reply)), BrokerIdOf(reply), "",
                                      now, false, fault);
    }

    /** Verifies the licence against this request, then submits at most once. */
    method Submit(request: Proposal, auth: Candidate, book: Book, now: int, cycleId: string, w: World)
      returns (r: Option<ExecutionResult>)
      requires Valid()
      modifies registry, broker, if journal == null then {} else {journal}
      ensures SubmitRelation(old(Now()), Now(), auth, secret, request, book, cycleId, now, w, r)
    {
      var v := registry.Verify(auth, secret, request, book, now, true);
      if v != Verified {
        return Some(ExecutionResult(BlockedState, request, "", None));
      }
      var l := auth.licence;
      if request.quantity != l.approvedQuantity {
        return Some(ExecutionResult(BlockedState, request, "", None));
      }
      if request.quantity <= 0 {
        return Some(ExecutionResult(BlockedState, request, "", None));
      }
      r := Send(request, l, now, cycleId, w);
    }

    /** What follows the burned nonce. */
    method Send(request: Proposal, l: Licence, now: int, cycleId: string, w: World) returns (r: Option<ExecutionResult>)
      requires Valid()
      modifies broker, if journal == null then {} else {journal}
      ensures SendRelation(old(Now()), Now(), l, request, cycleId, now, w, r)
    {
      var p := WriteAhead(request, l, now, cycleId, w);
      ghost var m := Now();
      if p.Go? {
        var x := Contact(request, l, now, w);
        SendComposes(old(Now()), m, Now(), l, request, cycleId, now, w);
        return Some(x);
      }
      SendStops(old(Now()), m, l, request, cycleId, now, w, p);
      r := if p.SearchFailed? then None else Some(ExecutionResult(BlockedState, request, ClientOrderId(l.nonce), None));
    }

    /** The search for the id and the write-ahead; without a journal there is neither. */
    method WriteAhead(request: Proposal, l: Licence, now: int, cycleId: string, w: World) returns (p: Preparation)
      requires Valid()
      modifies if journal == null then {} else {journal}
      ensures AheadRelation(old(Now()), Now(), l, request, cycleId, now, w, p)
    {
      if journal == null {
        return Go;
      }
      var id := ClientOrderId(l.nonce);
      var search := journal.HasAttempt(id);
      if search.SearchRaised? {
        return SearchFailed;
      }
      if search.Found? {
        return Refused;
      }
      var ok := journal.RecordAttempt(id, l.decisionId, cycleId, request.symbol, request.quantity,
                                      request.limitPrice, now, w.attemptFault);
      p := if ok then Go else Refused;
    }

    /** The broker call and what is made of its answer. */
    method Contact(request: Proposal, l: Licence, now: int, w: World) returns (x: ExecutionResult)
      requires Valid()
      modifies broker, if journal == null then {} else {journal}
      ensures CallRelation(old(Now()), Now(), l, request, now, w)
      ensures x == ExecutionResult(StateOf(w.reply), request, ClientOrderId(l.nonce), BrokerIdOf(w.reply))
    {
      var id := ClientOrderId(l.nonce);
      broker.SubmitOptionOrder(Payload(request, id));
      JournalOutcome(l, w.reply, now, w.outcomeFault);
      x := Interpret(w.reply, request, id);
    }

    /** Anything but a refusal or an order id is ambiguous. */
    method Interpret(reply: BrokerReply, request: Proposal, id: string) returns (x: ExecutionResult)
      ensures x == ExecutionResult(StateOf(reply), request, id, BrokerIdOf(reply))
    {
      match reply
      case RaisedRejected => x := ExecutionResult(RejectedState, request, id, None);
      case RaisedTimeout => x := ExecutionResult(UnknownState, request, id, None);
      case RaisedOther => x := ExecutionResult(UnknownState, request, id, None);
      case Unreadable => x := ExecutionResult(UnknownState, request, id, None);
      case Response(orderId) =>
        if orderId == "" {
          x := ExecutionResult(UnknownState, request, id, None);
        } else {
          x := ExecutionResult(SubmittedState, request, id, Some(orderId));
        }
    }
  }
}
