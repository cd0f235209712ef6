/** The submission protocol as a step system: any number of submitters share one registry, one journal
    and one broker; a crash may strike at any point, keeps the journal file and the broker and loses
    the registry and every submitter; writes may fail part-way; licences outlive the crash. */
module Protocol {
  import opened Outcomes
  import opened IntentLog
  import opened Authorization
  import opened Adapter

  /** How far one submission got. `Presented` has passed every check before the nonce is burned. */
  datatype Stage =
    | Presented
    | Burned
    | SizeChecked
    | Unseen
    | Ready
    | Contacted
    | Told(phase: Phase)

  datatype Job = Job(licence: Licence, request: Proposal, book: Book, verifiedAt: int, stage: Stage) {
    function Id(): string {
      ClientOrderId(licence.nonce)
    }
  }

  /** One order that reached the broker. `linesBefore` is the length of the readable file at that time. */
  datatype Call = Call(id: string, licence: Licence, request: Proposal, book: Book, verifiedAt: int,
                       epoch: nat, linesBefore: nat)

  datatype State = State(
    journaled: bool,
    secret: int,
    minted: set<Licence>,
    used: set<string>,
    disk: Disk,
    calls: seq<Call>,
    orders: set<string>,
    jobs: map<nat, Job>,
    epoch: nat)

  datatype Event =
    | Mint(licence: Licence)
    | Present(t: nat, job: Job)
    | Consume(t: nat)
    | CheckSize(t: nat)
    | Look(t: nat)
    | WriteAhead(t: nat, cycleId: string, at: int, ok: bool)
    | Contact(t: nat, accepted: bool)
    | Answer(t: nat, phase: Phase)
    | WriteOutcome(t: nat, brokerId: Option<string>, at: int, ok: bool)
    | Crash(writing: Option<IntentRecord>)
    | Recover(record: IntentRecord, ok: bool)
    | OrderEnds(id: string)

  predicate Initial(s: State) {
    s.minted == {} && s.used == {} && s.disk == EMPTY_DISK && s.calls == [] && s.orders == {} && s.jobs == map[]
  }

  /** A truthful record about `id`: only an order that does not exist is reported refused or absent. */
  predicate Truthful(orders: set<string>, id: string, phase: Phase) {
    (phase.Rejected? || phase.Abandoned?) ==> id !in orders
  }

  /** What recovery may write: it runs before any submission, and records a broker's answer about some id. */
  predicate RecoveryRecord(s: State, r: IntentRecord) {
    && s.jobs == map[]
    && r.coid != ""
    && r.recovered
    && Resolved(r.phase)
    && Truthful(s.orders, r.coid, r.phase)
  }

  function AttemptBy(j: Job, cycleId: string, at: int): IntentRecord {
    AttemptOf(j.licence, j.request, cycleId, at)
  }

  function OutcomeBy(j: Job, brokerId: Option<string>, at: int): IntentRecord
    requires j.stage.Told?
  {
    OutcomeRecordFor(j.Id(), j.stage.phase, brokerId, at)
  }

  function OutcomeRecordFor(id: string, phase: Phase, brokerId: Option<string>, at: int): IntentRecord {
    IntentRecord(id, phase, at, "", "", "", 0, None, brokerId, "", false)
  }

  /** A record some component was writing when the process died. */
  predicate InFlight(s: State, r: IntentRecord) {
    && s.journaled
    && (|| RecoveryRecord(s, r)
        || (exists t :: t in s.jobs && s.jobs[t].stage.Unseen? && r == AttemptBy(s.jobs[t], r.cycleId, r.at))
        || (exists t :: t in s.jobs && s.jobs[t].stage.Told? && r == OutcomeBy(s.jobs[t], r.brokerOrderId, r.at)))
  }

  function Move(s: State, t: nat, stage: Stage): State
    requires t in s.jobs
  {
    s.(jobs := s.jobs[t := s.jobs[t].(stage := stage)])
  }

  function Leave(s: State, t: nat): State {
    s.(jobs := s.jobs - {t})
  }

  predicate At(s: State, t: nat, stage: Stage) {
    t in s.jobs && s.jobs[t].stage == stage
  }

  predicate MintStep(s: State, l: Licence, s': State) {
    && l.signature == Sign(s.secret, l)
    && l.approvedQuantity > 0
    && (forall m :: m in s.minted ==> m.nonce != l.nonce)
    && s' == s.(minted := s.minted + {l})
  }

  predicate PresentStep(s: State, t: nat, j: Job, s': State) {
    // An ideal signature cannot be forged: one that verifies was issued for some minted licence.
    && t !in s.jobs
    && j.stage == Presented
    && Licenses(Token(j.licence), s.secret, j.request, j.book, j.verifiedAt)
    && (exists m :: m in s.minted && m.signature == j.licence.signature)
    && s' == s.(jobs := s.jobs[t := j])
  }

  predicate ConsumeStep(s: State, t: nat, s': State) {
    && At(s, t, Presented)
    && s' == if s.jobs[t].licence.nonce in s.used then Leave(s, t)
             else Move(s, t, Burned).(used := s.used + {s.jobs[t].licence.nonce})
  }

  predicate CheckSizeStep(s: State, t: nat, s': State) {
    && At(s, t, Burned)
    && s' == if Sized(s.jobs[t].licence, s.jobs[t].request) then Move(s, t, SizeChecked) else Leave(s, t)
  }

  predicate LookStep(s: State, t: nat, s': State) {
    && At(s, t, SizeChecked)
    && s' == if !s.journaled then Move(s, t, Ready)
             else if Has(Readable(s.disk), s.jobs[t].Id()) then Leave(s, t)
             else Move(s, t, Unseen)
  }

  predicate WriteAheadStep(s: State, t: nat, cycleId: string, at: int, ok: bool, s': State) {
    && At(s, t, Unseen)
    && var r := AttemptBy(s.jobs[t], cycleId, at);
       if ok then s' == Move(s, t, Ready).(disk := Appended(s.disk, r))
       else TornBy(s.disk, r, s'.disk) && s' == Leave(s, t).(disk := s'.disk)
  }

  predicate ContactStep(s: State, t: nat, accepted: bool, s': State) {
    && At(s, t, Ready)
    && var j := s.jobs[t];
       s' == Move(s, t, Contacted).(
               calls := s.calls + [Call(j.Id(), j.licence, j.request, j.book, j.verifiedAt, s.epoch, |s.disk.lines|)],
               orders := if accepted then s.orders + {j.Id()} else s.orders)
  }

  predicate AnswerStep(s: State, t: nat, phase: Phase, s': State) {
    && At(s, t, Contacted)
    && (phase.Submitted? || phase.Unknown? || phase.Rejected?)
    && Truthful(s.orders, s.jobs[t].Id(), phase)
    && s' == Move(s, t, Told(phase))
  }

  predicate WriteOutcomeStep(s: State, t: nat, brokerId: Option<string>, at: int, ok: bool, s': State) {
    && t in s.jobs && s.jobs[t].stage.Told?
    && var r := OutcomeBy(s.jobs[t], brokerId, at);
       if !s.journaled then s' == Leave(s, t)
       else if ok then s' == Leave(s, t).(disk := Appended(s.disk, r))
       else TornBy(s.disk, r, s'.disk) && s' == Leave(s, t).(disk := s'.disk)
  }

  predicate CrashStep(s: State, writing: Option<IntentRecord>, s': State) {
    && (writing.None? ==> s'.disk == s.disk)
    && (writing.Some? ==> InFlight(s, writing.value) && TornBy(s.disk, writing.value, s'.disk))
    && s' == s.(used := {}, jobs := map[], epoch := s.epoch + 1, disk := s'.disk)
  }

  predicate RecoverStep(s: State, record: IntentRecord, ok: bool, s': State) {
    && s.journaled
    && RecoveryRecord(s, record)
    && (if ok then s'.disk == Appended(s.disk, record) else TornBy(s.disk, record, s'.disk))
    && s' == s.(disk := s'.disk)
  }

  predicate OrderEndsStep(s: State, id: string, s': State) {
    s' == s.(orders := s.orders - {id})
  }

  /** The transition relation; `s'` may differ from `s` in the part of a line a failed write left. */
  predicate Step(s: State, e: Event, s': State) {
    match e
    case Mint(l) => MintStep(s, l, s')
    case Present(t, j) => PresentStep(s, t, j, s')
    case Consume(t) => ConsumeStep(s, t, s')
    case CheckSize(t) => CheckSizeStep(s, t, s')
    case Look(t) => LookStep(s, t, s')
    case WriteAhead(t, cycleId, at, ok) => WriteAheadStep(s, t, cycleId, at, ok, s')
    case Contact(t, accepted) => ContactStep(s, t, accepted, s')
    case Answer(t, phase) => AnswerStep(s, t, phase, s')
    case WriteOutcome(t, brokerId, at, ok) => WriteOutcomeStep(s, t, brokerId, at, ok, s')
    case Crash(writing) => CrashStep(s, writing, s')
    case Recover(record, ok) => RecoverStep(s, record, ok, s')
    case OrderEnds(id) => OrderEndsStep(s, id, s')
  }

  /** The condition the write-ahead needs and the code does not check: the file ends in a newline. */
  predicate CleanWriteAhead(s: State, e: Event) {
    e.WriteAhead? && e.ok ==> s.disk.tail.Clean?
  }

  /** A run is a sequence of states joined by steps. */
  ghost predicate Run(states: seq<State>, events: seq<Event>) {
    && |states| == |events| + 1
    && Initial(states[0])
    && forall i :: 0 <= i < |events| ==> Step(states[i], events[i], states[i + 1])
  }

  ghost predicate Careful(states: seq<State>, events: seq<Event>) {
    |states| == |events| + 1 && forall i :: 0 <= i < |events| ==> CleanWriteAhead(states[i], events[i])
  }
}
