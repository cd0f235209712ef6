/** What every step keeps of licences, submissions and calls: one licence, one call within a process life. */
module RegistryInvariant {
  import opened Outcomes
  import opened IntentLog
  import opened Authorization
  import opened Adapter
  import opened Protocol

  predicate PastBurn(stage: Stage) {
    !stage.Presented?
  }

  predicate BeforeContact(stage: Stage) {
    stage.Burned? || stage.SizeChecked? || stage.Unseen? || stage.Ready?
  }

  /** A submission carries a minted licence for exactly its own request and book. */
  ghost predicate JobLicensed(minted: set<Licence>, secret: int, j: Job) {
    && j.licence in minted
    && Licenses(Token(j.licence), secret, j.request, j.book, j.verifiedAt)
    && (j.stage.SizeChecked? || j.stage.Unseen? || j.stage.Ready? || j.stage.Contacted? || j.stage.Told? ==>
          Sized(j.licence, j.request))
  }

  ghost predicate CallLicensed(minted: set<Licence>, secret: int, c: Call) {
    && c.licence in minted
    && c.id == ClientOrderId(c.licence.nonce)
    && Licenses(Token(c.licence), secret, c.request, c.book, c.verifiedAt)
    && Sized(c.licence, c.request)
  }

  /** Minted licences are genuine, one per nonce. */
  ghost predicate MintInv(minted: set<Licence>, secret: int) {
    && (forall l :: l in minted ==> l.signature == Sign(secret, l))
    && (forall l, m :: l in minted && m in minted && l.nonce == m.nonce ==> l == m)
  }

  /** Submissions are licensed, and no two past the burn share a nonce. */
  ghost predicate JobsInv(minted: set<Licence>, secret: int, used: set<string>, jobs: map<nat, Job>) {
    && (forall t :: t in jobs ==> JobLicensed(minted, secret, jobs[t]))
    && (forall t :: t in jobs && PastBurn(jobs[t].stage) ==> jobs[t].licence.nonce in used)
    && (forall t, u :: t in jobs && u in jobs && t != u && PastBurn(jobs[t].stage) && PastBurn(jobs[u].stage) ==>
          jobs[t].licence.nonce != jobs[u].licence.nonce)
  }

  /** Calls are licensed, and no two of one process life share a nonce. */
  ghost predicate CallsInv(minted: set<Licence>, secret: int, used: set<string>, calls: seq<Call>, epoch: nat) {
    && (forall i :: 0 <= i < |calls| ==> CallLicensed(minted, secret, calls[i]) && calls[i].epoch <= epoch)
    && (forall i :: 0 <= i < |calls| && calls[i].epoch == epoch ==> calls[i].licence.nonce in used)
    && (forall i, k :: 0 <= i < k < |calls| && calls[i].epoch == calls[k].epoch ==>
          calls[i].licence.nonce != calls[k].licence.nonce)
  }

  /** What has been sent is not about to be sent again in this process life. */
  ghost predicate SentInv(calls: seq<Call>, epoch: nat, jobs: map<nat, Job>) {
    forall i, t :: 0 <= i < |calls| && calls[i].epoch == epoch && t in jobs && BeforeContact(jobs[t].stage) ==>
      calls[i].licence.nonce != jobs[t].licence.nonce
  }

  ghost predicate RegistryInv(s: State) {
    && MintInv(s.minted, s.secret)
    && JobsInv(s.minted, s.secret, s.used, s.jobs)
    && CallsInv(s.minted, s.secret, s.used, s.calls, s.epoch)
    && SentInv(s.calls, s.epoch, s.jobs)
  }

  /** The registry's invariant does not read the journal file or the broker's orders. */
  lemma RegistryFrame(s: State, s': State)
    requires RegistryInv(s) && s' == s.(disk := s'.disk, orders := s'.orders)
    ensures RegistryInv(s')
  {
  }

  lemma RegistryLeave(s: State, t: nat)
    requires RegistryInv(s) && t in s.jobs
    ensures RegistryInv(Leave(s, t))
  {
  }

  /** A submission past the burn may move on to any stage its size permits, except back before contact. */
  lemma RegistryMove(s: State, t: nat, stage: Stage)
    requires RegistryInv(s) && t in s.jobs && PastBurn(s.jobs[t].stage) && PastBurn(stage)
    requires BeforeContact(stage) ==> BeforeContact(s.jobs[t].stage)
    requires stage.Burned? || Sized(s.jobs[t].licence, s.jobs[t].request)
    ensures RegistryInv(Move(s, t, stage))
  {
    assert JobLicensed(s.minted, s.secret, s.jobs[t]);
  }

  lemma RegistryMint(s: State, l: Licence, s': State)
    requires RegistryInv(s) && MintStep(s, l, s')
    ensures RegistryInv(s')
  {
    forall u | u in s'.jobs
      ensures JobLicensed(s'.minted, s'.secret, s'.jobs[u])
    {
      assert JobLicensed(s.minted, s.secret, s.jobs[u]);
    }
    forall i | 0 <= i < |s'.calls|
      ensures CallLicensed(s'.minted, s'.secret, s'.calls[i])
    {
      assert CallLicensed(s.minted, s.secret, s.calls[i]);
    }
  }

  lemma RegistryAddJob(s: State, t: nat, j: Job)
    requires RegistryInv(s) && t !in s.jobs && j.stage == Presented && JobLicensed(s.minted, s.secret, j)
    ensures RegistryInv(s.(jobs := s.jobs[t := j]))
  {
    PutJob(s.minted, s.secret, s.used, s.jobs, t, j);
  }

  /** A submission not past the burn disturbs nothing. */
  lemma PutJob(minted: set<Licence>, secret: int, used: set<string>, jobs: map<nat, Job>, t: nat, j: Job)
    requires JobsInv(minted, secret, used, jobs) && JobLicensed(minted, secret, j) && !PastBurn(j.stage)
    ensures JobsInv(minted, secret, used, jobs[t := j])
  {
  }

  lemma RegistryPresent(s: State, t: nat, j: Job, s': State)
    requires RegistryInv(s) && PresentStep(s, t, j, s')
    ensures RegistryInv(s')
  {
    var m :| m in s.minted && m.signature == j.licence.signature;
    assert Sign(s.secret, m) == Sign(s.secret, j.licence);
    assert m == j.licence;
    RegistryAddJob(s, t, j);
  }

  lemma RegistryBurn(s: State, t: nat, s': State)
    requires RegistryInv(s) && ConsumeStep(s, t, s')
    ensures RegistryInv(s')
  {
    if s.jobs[t].licence.nonce in s.used {
      RegistryLeave(s, t);
    } else {
      BurnJob(s.minted, s.secret, s.used, s.jobs, t);
      BurnCalls(s.calls, s.epoch, s.used, s.jobs, t, s'.jobs);
    }
  }

  lemma BurnJob(minted: set<Licence>, secret: int, used: set<string>, jobs: map<nat, Job>, t: nat)
    requires JobsInv(minted, secret, used, jobs) && t in jobs && jobs[t].licence.nonce !in used
    ensures JobsInv(minted, secret, used + {jobs[t].licence.nonce}, jobs[t := jobs[t].(stage := Burned)])
  {
    assert JobLicensed(minted, secret, jobs[t]);
  }

  lemma BurnCalls(calls: seq<Call>, epoch: nat, used: set<string>, jobs: map<nat, Job>, t: nat, jobs': map<nat, Job>)
    requires SentInv(calls, epoch, jobs) && t in jobs && jobs[t].licence.nonce !in used
    requires forall i :: 0 <= i < |calls| && calls[i].epoch == epoch ==> calls[i].licence.nonce in used
    requires jobs' == jobs[t := jobs[t].(stage := Burned)]
    ensures SentInv(calls, epoch, jobs')
  {
  }

  lemma AddCall(minted: set<Licence>, secret: int, used: set<string>, calls: seq<Call>, epoch: nat, c: Call)
    requires CallsInv(minted, secret, used, calls, epoch)
    requires CallLicensed(minted, secret, c) && c.epoch == epoch && c.licence.nonce in used
    requires forall i :: 0 <= i < |calls| && calls[i].epoch == epoch ==> calls[i].licence.nonce != c.licence.nonce
    ensures CallsInv(minted, secret, used, calls + [c], epoch)
  {
  }

  lemma AddSent(calls: seq<Call>, epoch: nat, jobs: map<nat, Job>, c: Call)
    requires SentInv(calls, epoch, jobs)
    requires forall t :: t in jobs && BeforeContact(jobs[t].stage) ==> jobs[t].licence.nonce != c.licence.nonce
    ensures SentInv(calls + [c], epoch, jobs)
  {
  }

  lemma RegistryContact(s: State, t: nat, accepted: bool, s': State)
    requires RegistryInv(s) && ContactStep(s, t, accepted, s')
    ensures RegistryInv(s')
  {
    var j := s.jobs[t];
    assert JobLicensed(s.minted, s.secret, j);
    RegistryMove(s, t, Contacted);
    var c := Call(j.Id(), j.licence, j.request, j.book, j.verifiedAt, s.epoch, |s.disk.lines|);
    AddCall(s.minted, s.secret, s.used, s.calls, s.epoch, c);
    AddSent(s.calls, s.epoch, s'.jobs, c);
  }

  lemma RegistryCrash(s: State, writing: Option<IntentRecord>, s': State)
    requires RegistryInv(s) && CrashStep(s, writing, s')
    ensures RegistryInv(s')
  {
    assert forall i :: 0 <= i < |s.calls| ==> s.calls[i].epoch < s'.epoch;
  }

  lemma RegistryLook(s: State, t: nat, s': State)
    requires RegistryInv(s) && LookStep(s, t, s')
    ensures RegistryInv(s')
  {
    assert JobLicensed(s.minted, s.secret, s.jobs[t]);
    RegistryLeave(s, t);
    RegistryMove(s, t, Ready);
    RegistryMove(s, t, Unseen);
  }

  lemma RegistryWriteAhead(s: State, t: nat, cycleId: string, at: int, ok: bool, s': State)
    requires RegistryInv(s) && WriteAheadStep(s, t, cycleId, at, ok, s')
    ensures RegistryInv(s')
  {
    assert JobLicensed(s.minted, s.secret, s.jobs[t]);
    if ok {
      RegistryMove(s, t, Ready);
      RegistryFrame(Move(s, t, Ready), s');
    } else {
      RegistryLeave(s, t);
      RegistryFrame(Leave(s, t), s');
    }
  }

  lemma RegistryAnswer(s: State, t: nat, phase: Phase, s': State)
    requires RegistryInv(s) && AnswerStep(s, t, phase, s')
    ensures RegistryInv(s')
  {
    assert JobLicensed(s.minted, s.secret, s.jobs[t]);
    RegistryMove(s, t, Told(phase));
  }

  lemma RegistryCheckSize(s: State, t: nat, s': State)
    requires RegistryInv(s) && CheckSizeStep(s, t, s')
    ensures RegistryInv(s')
  {
    if Sized(s.jobs[t].licence, s.jobs[t].request) { RegistryMove(s, t, SizeChecked); } else { RegistryLeave(s, t); }
  }

  lemma RegistryWriteOutcome(s: State, t: nat, brokerId: Option<string>, at: int, ok: bool, s': State)
    requires RegistryInv(s) && WriteOutcomeStep(s, t, brokerId, at, ok, s')
    ensures RegistryInv(s')
  {
    RegistryLeave(s, t);
    RegistryFrame(Leave(s, t), s');
  }

  lemma RegistryStep(s: State, e: Event, s': State)
    requires RegistryInv(s) && Step(s, e, s')
    ensures RegistryInv(s')
  {
    match e
    case Mint(l) => RegistryMint(s, l, s');
    case Present(t, j) => RegistryPresent(s, t, j, s');
    case Consume(t) => RegistryBurn(s, t, s');
    case CheckSize(t) => RegistryCheckSize(s, t, s');
    case Look(t) => RegistryLook(s, t, s');
    case WriteAhead(t, cycleId, at, ok) => RegistryWriteAhead(s, t, cycleId, at, ok, s');
    case Contact(t, accepted) => RegistryContact(s, t, accepted, s');
    case Answer(t, phase) => RegistryAnswer(s, t, phase, s');
    case WriteOutcome(t, brokerId, at, ok) => RegistryWriteOutcome(s, t, brokerId, at, ok, s');
    case Crash(writing) => RegistryCrash(s, writing, s');
    case Recover(_, _) => RegistryFrame(s, s');
    case OrderEnds(_) => RegistryFrame(s, s');
  }
}
