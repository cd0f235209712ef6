/** What every step keeps of the journal file: each call has its durable attempt, and the log tells the truth. */
module JournalInvariant {
  import opened Outcomes
  import opened IntentLog
  import opened Authorization
  import opened Adapter
  import opened Protocol
  import opened RegistryInvariant

  /** The durable attempt line of a call, complete before the broker was contacted. */
  ghost predicate AttemptedBefore(lines: seq<IntentRecord>, n: nat, id: string, request: Proposal) {
    exists i :: 0 <= i < n && i < |lines| && IsAttempt(lines[i], id, request)
  }

  predicate IsAttempt(r: IntentRecord, id: string, request: Proposal) {
    && r.coid == id && r.phase == Attempted && r.symbol == request.symbol && r.quantity == request.quantity
    && r.limitPrice == request.limitPrice
  }

  /** A refusal or an absence in the log is true, and only recovery writes what it alone establishes. */
  predicate RecordSound(orders: set<string>, r: IntentRecord) {
    && Truthful(orders, r.coid, r.phase)
    && (!r.recovered ==> r.phase.Attempted? || r.phase.Submitted? || r.phase.Unknown? || r.phase.Rejected?)
  }

  predicate Called(calls: seq<Call>, id: string) {
    exists i :: 0 <= i < |calls| && calls[i].id == id
  }

  ghost predicate JobJournaled(d: Disk, calls: seq<Call>, orders: set<string>, j: Job) {
    match j.stage
    case Unseen => forall r :: r in Readable(d) ==> r.coid != j.Id()
    case Ready =>
      && AttemptedBefore(d.lines, |d.lines|, j.Id(), j.request)
      && !Called(calls, j.Id())
      && forall r :: r in Readable(d) && r.coid == j.Id() ==> r.phase.Attempted?
    case Told(phase) => phase.Submitted? || phase.Unknown? || (phase.Rejected? && j.Id() !in orders)
    case _ => true
  }

  ghost predicate JournalInv(s: State) {
    && (forall r :: r in Readable(s.disk) ==> RecordSound(s.orders, r))
    && (forall i :: 0 <= i < |s.calls| ==>
          && s.calls[i].linesBefore <= |s.disk.lines|
          && AttemptedBefore(s.disk.lines, s.calls[i].linesBefore, s.calls[i].id, s.calls[i].request))
    && (forall i, k :: 0 <= i < k < |s.calls| ==> s.calls[i].id != s.calls[k].id)
    && (forall id :: id in s.orders ==> Called(s.calls, id))
    && (forall t :: t in s.jobs ==> JobJournaled(s.disk, s.calls, s.orders, s.jobs[t]))
  }

  /** Any write, whole or torn, keeps the complete lines and brings in at most the record written. */
  lemma WriteShape(d: Disk, r: IntentRecord, d': Disk)
    requires TornBy(d, r, d')
    ensures d.lines <= d'.lines
    ensures forall x :: x in Readable(d') ==> x in Readable(d) || x == r
  {
    assert forall x :: x in d.lines ==> x in Readable(d);
  }

  lemma AttemptedStays(lines: seq<IntentRecord>, lines': seq<IntentRecord>, n: nat, id: string, request: Proposal)
    requires lines <= lines' && n <= |lines| && AttemptedBefore(lines, n, id, request)
    ensures AttemptedBefore(lines', n, id, request) && AttemptedBefore(lines', |lines'|, id, request)
  {
    var i :| 0 <= i < n && i < |lines| && IsAttempt(lines[i], id, request);
    assert lines'[i] == lines[i];
  }

  /** A sound record about no submission that still counts on the file keeps the invariant. */
  lemma JournalWrite(s: State, r: IntentRecord, d': Disk)
    requires JournalInv(s) && RecordSound(s.orders, r) && TornBy(s.disk, r, d')
    requires forall t :: t in s.jobs && (s.jobs[t].stage.Unseen? || s.jobs[t].stage.Ready?) ==> s.jobs[t].Id() != r.coid
    ensures JournalInv(s.(disk := d'))
  {
    WriteShape(s.disk, r, d');
    forall i | 0 <= i < |s.calls|
      ensures AttemptedBefore(d'.lines, s.calls[i].linesBefore, s.calls[i].id, s.calls[i].request)
    {
      AttemptedStays(s.disk.lines, d'.lines, s.calls[i].linesBefore, s.calls[i].id, s.calls[i].request);
    }
    forall t | t in s.jobs
      ensures JobJournaled(d', s.calls, s.orders, s.jobs[t])
    {
      if s.jobs[t].stage.Ready? {
        AttemptedStays(s.disk.lines, d'.lines, |s.disk.lines|, s.jobs[t].Id(), s.jobs[t].request);
      }
    }
  }

  lemma JournalSetJob(s: State, t: nat, j: Job)
    requires JournalInv(s) && JobJournaled(s.disk, s.calls, s.orders, j)
    ensures JournalInv(s.(jobs := s.jobs[t := j]))
  {
  }

  lemma JournalLeave(s: State, t: nat)
    requires JournalInv(s)
    ensures JournalInv(Leave(s, t))
  {
  }

  lemma CalledIsReadable(s: State, id: string)
    requires JournalInv(s) && Called(s.calls, id)
    ensures exists r :: r in s.disk.lines && r in Readable(s.disk) && r.coid == id
  {
    var i :| 0 <= i < |s.calls| && s.calls[i].id == id;
    var k :| 0 <= k < s.calls[i].linesBefore && k < |s.disk.lines|
             && IsAttempt(s.disk.lines[k], id, s.calls[i].request);
    assert s.disk.lines[k] in s.disk.lines;
  }

  lemma DistinctNonces(s: State, t: nat, u: nat)
    requires RegistryInv(s) && t in s.jobs && u in s.jobs && t != u
    requires PastBurn(s.jobs[t].stage) && PastBurn(s.jobs[u].stage)
    ensures s.jobs[t].Id() != s.jobs[u].Id()
  {
    ClientOrderIdInjective(s.jobs[t].licence.nonce, s.jobs[u].licence.nonce);
  }

  ghost predicate OnlyUser(s: State, t: nat, id: string) {
    forall u :: u in s.jobs && u != t && PastBurn(s.jobs[u].stage) ==> s.jobs[u].Id() != id
  }

  lemma OthersDiffer(s: State, t: nat)
    requires RegistryInv(s) && t in s.jobs && PastBurn(s.jobs[t].stage)
    ensures OnlyUser(s, t, s.jobs[t].Id())
  {
    forall u | u in s.jobs && u != t && PastBurn(s.jobs[u].stage)
      ensures s.jobs[u].Id() != s.jobs[t].Id()
    {
      DistinctNonces(s, t, u);
    }
  }

  /** A whole attempt line on a clean file makes its submission ready to contact the broker. */
  lemma AttemptMakesReady(s: State, j: Job, r: IntentRecord)
    requires JournalInv(s) && s.disk.tail.Clean? && j.stage.Unseen? && JobJournaled(s.disk, s.calls, s.orders, j)
    requires IsAttempt(r, j.Id(), j.request) && r.coid != ""
    ensures JobJournaled(Appended(s.disk, r), s.calls, s.orders, j.(stage := Ready))
  {
    var d' := Appended(s.disk, r);
    WriteShape(s.disk, r, d');
    var n := |s.disk.lines|;
    assert IsAttempt(d'.lines[n], j.Id(), j.request);
    if Called(s.calls, j.Id()) {
      CalledIsReadable(s, j.Id());
    }
  }

  lemma JournalWriteAhead(s: State, t: nat, cycleId: string, at: int, ok: bool, s': State)
    requires JournalInv(s) && t in s.jobs && OnlyUser(s, t, s.jobs[t].Id())
    requires WriteAheadStep(s, t, cycleId, at, ok, s') && CleanWriteAhead(s, WriteAhead(t, cycleId, at, ok))
    ensures JournalInv(s')
  {
    var j := s.jobs[t];
    var r := AttemptBy(j, cycleId, at);
    JournalLeave(s, t);
    JournalWrite(Leave(s, t), r, s'.disk);
    if ok {
      assert r.coid[0] == 's';
      AttemptMakesReady(s, j, r);
      RejoinAs(s, t, j.(stage := Ready), s'.disk);
    }
  }

  /** A submission set aside while the file was written continues in its new stage. */
  lemma RejoinAs(s: State, t: nat, j: Job, d: Disk)
    requires t in s.jobs && JournalInv(Leave(s, t).(disk := d)) && JobJournaled(d, s.calls, s.orders, j)
    ensures JournalInv(s.(disk := d, jobs := s.jobs[t := j]))
  {
    JournalSetJob(Leave(s, t).(disk := d), t, j);
    assert (s.jobs - {t})[t := j] == s.jobs[t := j];
  }

  lemma JournalAddCall(s: State, c: Call)
    requires JournalInv(s) && !Called(s.calls, c.id)
    requires c.linesBefore == |s.disk.lines| && AttemptedBefore(s.disk.lines, c.linesBefore, c.id, c.request)
    requires forall t :: t in s.jobs && s.jobs[t].stage.Ready? ==> s.jobs[t].Id() != c.id
    ensures JournalInv(s.(calls := s.calls + [c])) && Called(s.calls + [c], c.id)
  {
    var calls' := s.calls + [c];
    assert calls'[|s.calls|] == c;
    forall id | Called(s.calls, id)
      ensures Called(calls', id)
    {
      var i :| 0 <= i < |s.calls| && s.calls[i].id == id;
      assert calls'[i].id == id;
    }
    forall t | t in s.jobs
      ensures JobJournaled(s.disk, calls', s.orders, s.jobs[t])
    {
      assert JobJournaled(s.disk, s.calls, s.orders, s.jobs[t]);
    }
  }

  lemma JournalAddOrder(s: State, id: string)
    requires JournalInv(s) && Called(s.calls, id)
    requires forall r :: r in Readable(s.disk) && r.coid == id ==> r.phase.Attempted?
    requires forall t :: t in s.jobs && s.jobs[t].stage.Told? ==> s.jobs[t].Id() != id
    ensures JournalInv(s.(orders := s.orders + {id}))
  {
    var orders' := s.orders + {id};
    forall t | t in s.jobs
      ensures JobJournaled(s.disk, s.calls, orders', s.jobs[t])
    {
      assert JobJournaled(s.disk, s.calls, s.orders, s.jobs[t]);
    }
    forall r | r in Readable(s.disk)
      ensures RecordSound(orders', r)
    {
      assert RecordSound(s.orders, r);
    }
  }

  lemma JournalContact(s: State, t: nat, accepted: bool, s': State)
    requires JournalInv(s) && t in s.jobs && OnlyUser(s, t, s.jobs[t].Id()) && ContactStep(s, t, accepted, s')
    ensures JournalInv(s')
  {
    var j := s.jobs[t];
    assert JobJournaled(s.disk, s.calls, s.orders, j);
    var c := Call(j.Id(), j.licence, j.request, j.book, j.verifiedAt, s.epoch, |s.disk.lines|);
    JournalLeave(s, t);
    JournalAddCall(Leave(s, t), c);
    if accepted {
      JournalAddOrder(Leave(s, t).(calls := s.calls + [c]), j.Id());
    }
    RejoinAs(s.(calls := s'.calls, orders := s'.orders), t, j.(stage := Contacted), s.disk);
  }

  lemma JournalWriteOutcome(s: State, t: nat, brokerId: Option<string>, at: int, ok: bool, s': State)
    requires JournalInv(s) && t in s.jobs && OnlyUser(s, t, s.jobs[t].Id())
    requires s.journaled && WriteOutcomeStep(s, t, brokerId, at, ok, s')
    ensures JournalInv(s')
  {
    assert JobJournaled(s.disk, s.calls, s.orders, s.jobs[t]);
    JournalLeave(s, t);
    JournalWrite(Leave(s, t), OutcomeBy(s.jobs[t], brokerId, at), s'.disk);
  }

  lemma InFlightSound(s: State, r: IntentRecord)
    requires JournalInv(s) && InFlight(s, r)
    ensures RecordSound(s.orders, r)
  {
    if t :| t in s.jobs && s.jobs[t].stage.Told? && r == OutcomeBy(s.jobs[t], r.brokerOrderId, r.at) {
      assert JobJournaled(s.disk, s.calls, s.orders, s.jobs[t]);
    }
  }

  lemma JournalCrash(s: State, writing: Option<IntentRecord>, s': State)
    requires JournalInv(s) && CrashStep(s, writing, s')
    ensures JournalInv(s')
  {
    var quiet := s.(jobs := map[]);
    if writing.Some? {
      InFlightSound(s, writing.value);
      JournalWrite(quiet, writing.value, s'.disk);
    }
  }

  /** Before the journal is searched a submission means nothing to the file. */
  lemma JournalEarly(s: State, t: nat, j: Job)
    requires JournalInv(s) && (j.stage.Presented? || j.stage.Burned? || j.stage.SizeChecked? || j.stage.Contacted?)
    ensures JournalInv(s.(jobs := s.jobs[t := j]))
  {
    JournalSetJob(s, t, j);
  }

  lemma JournalConsume(s: State, t: nat, s': State)
    requires JournalInv(s) && ConsumeStep(s, t, s')
    ensures JournalInv(s')
  {
    JournalLeave(s, t);
    JournalEarly(s, t, s.jobs[t].(stage := Burned));
  }

  lemma JournalCheckSize(s: State, t: nat, s': State)
    requires JournalInv(s) && CheckSizeStep(s, t, s')
    ensures JournalInv(s')
  {
    JournalLeave(s, t);
    JournalEarly(s, t, s.jobs[t].(stage := SizeChecked));
  }

  lemma JournalLook(s: State, t: nat, s': State)
    requires s.journaled && JournalInv(s) && LookStep(s, t, s')
    ensures JournalInv(s')
  {
    JournalLeave(s, t);
    if !Has(Readable(s.disk), s.jobs[t].Id()) {
      JournalSetJob(s, t, s.jobs[t].(stage := Unseen));
    }
  }

  lemma JournalOrderEnds(s: State, id: string, s': State)
    requires JournalInv(s) && OrderEndsStep(s, id, s')
    ensures JournalInv(s')
  {
    forall t | t in s.jobs
      ensures JobJournaled(s'.disk, s'.calls, s'.orders, s'.jobs[t])
    {
      assert JobJournaled(s.disk, s.calls, s.orders, s.jobs[t]);
    }
  }

  lemma JournalStep(s: State, e: Event, s': State)
    requires s.journaled && RegistryInv(s) && JournalInv(s) && Step(s, e, s') && CleanWriteAhead(s, e)
    ensures JournalInv(s')
  {
    match e
    case Mint(_) =>
    case Present(t, j) => JournalEarly(s, t, j);
    case Consume(t) => JournalConsume(s, t, s');
    case CheckSize(t) => JournalCheckSize(s, t, s');
    case Look(t) => JournalLook(s, t, s');
    case WriteAhead(t, cycleId, at, ok) => OthersDiffer(s, t); JournalWriteAhead(s, t, cycleId, at, ok, s');
    case Contact(t, accepted) => OthersDiffer(s, t); JournalContact(s, t, accepted, s');
    case Answer(t, phase) => JournalSetJob(s, t, s.jobs[t].(stage := Told(phase)));
    case WriteOutcome(t, brokerId, at, ok) => OthersDiffer(s, t); JournalWriteOutcome(s, t, brokerId, at, ok, s');
    case Crash(writing) => JournalCrash(s, writing, s');
    case Recover(r, ok) => JournalWrite(s, r, s'.disk);
    case OrderEnds(id) => JournalOrderEnds(s, id, s');
  }
}
