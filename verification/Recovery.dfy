/** Settling every pending intent against the broker before anything may trade. */
module Recovery {
  import opened Outcomes
  import opened IntentLog
  import opened JournalLine
  import opened JournalFile
  import opened Reconciliation

  /** The broker as recovery sees it: one answer per id, and a record of what was asked. */
  class OrderLookup {
    const answer: string -> LookupAnswer
    var asked: seq<string>

    constructor (answer: string -> LookupAnswer)
      ensures this.answer == answer && asked == []
    {
      this.answer := answer;
      asked := [];
    }

    method GetOrderByClientId(c: string) returns (a: LookupAnswer)
      modifies this
      ensures a == answer(c) && asked == old(asked) + [c]
    {
      asked := asked + [c];
      a := answer(c);
    }
  }

  datatype RecoveredIntent = RecoveredIntent(intent: PendingIntent, settled: Option<Reconciled>, phase: Option<Phase>) {
    predicate Resolved() {
      settled.Some?
    }
  }

  datatype RecoveryReport = RecoveryReport(recovered: seq<RecoveredIntent>) {
    predicate SafeToTrade() {
      forall i :: 0 <= i < |recovered| ==> recovered[i].Resolved()
    }
  }

  /** Broker truth to log phase; everything that is not an absence or a refusal is RECONCILED. */
  function PhaseFor(s: ReconciledState): Phase {
    if s.NotFound? then Abandoned else if s.RejectedByBroker? then Rejected else Phase.Reconciled
  }

  predicate Answered(answer: string -> LookupAnswer, p: PendingIntent) {
    !answer(p.coid).QueryFailed?
  }

  /** The outcome line recovery writes for an answered intent. */
  function OutcomeFor(answer: string -> LookupAnswer, p: PendingIntent, now: int): IntentRecord
    requires Answered(answer, p)
  {
    var a := answer(p.coid);
    OutcomeRecord(p.coid, PhaseFor(Classify(a, p.latest.quantity as real, p.latest.symbol)),
                  if a.Order? then IdOf(a.payload) else None, if a.Order? then a.payload.status else "", now, true)
  }

  /** The outcome lines for the answered intents, in order. */
  function OutcomesFor(answer: string -> LookupAnswer, ps: seq<PendingIntent>, now: int): seq<IntentRecord> {
    if ps == [] then []
    else
      var init := OutcomesFor(answer, ps[..|ps| - 1], now);
      var p := ps[|ps| - 1];
      if Answered(answer, p) then init + [OutcomeFor(answer, p, now)] else init
  }

  /** The journal file after those lines were appended to it. */
  function Settle(d: Disk, answer: string -> LookupAnswer, ps: seq<PendingIntent>, now: int): Disk {
    if ps == [] then d
    else
      var init := Settle(d, answer, ps[..|ps| - 1], now);
      var p := ps[|ps| - 1];
      if Answered(answer, p) then Appended(init, OutcomeFor(answer, p, now)) else init
  }

  function Ids(ps: seq<PendingIntent>): seq<string> {
    seq(|ps|, i requires 0 <= i < |ps| => ps[i].coid)
  }

  predicate Reports(r: RecoveredIntent, answer: string -> LookupAnswer, p: PendingIntent) {
    && r.intent == p
    && r.settled.Some? == Answered(answer, p)
    && (r.settled.Some? ==>
          && r.settled.value.state == Classify(answer(p.coid), p.latest.quantity as real, p.latest.symbol)
          && r.phase == Some(PhaseFor(r.settled.value.state)))
  }

  /** One pending intent: ask, classify, and write what was learned. `None` when the write raised. */
  method SettleOne(journal: IntentJournal, lookup: OrderLookup, p: PendingIntent, now: int, fault: WriteFault)
    returns (r: Option<RecoveredIntent>)
    requires journal.Valid() && p.coid != ""
    modifies journal, lookup
    ensures old(journal.file) <= journal.file
    ensures lookup.asked == old(lookup.asked) + [p.coid]
    ensures r.Some? ==> Reports(r.value, lookup.answer, p)
    ensures !Answered(lookup.answer, p) ==> r.Some? && journal.Contents() == old(journal.Contents())
    ensures Answered(lookup.answer, p) ==>
              var line := OutcomeFor(lookup.answer, p, now);
              && r.Some? == fault.NoFault?
              && (r.Some? ==> journal.Contents() == Appended(old(journal.Contents()), line))
              && TornBy(old(journal.Contents()), line, journal.Contents())
  {
    var a := lookup.GetOrderByClientId(p.coid);
    var s := ReconcileOrder(a, p.coid, p.latest.quantity as real, p.latest.symbol);
    if s.Unavailable? {
      return Some(RecoveredIntent(p, None, None));
    }
    var phase := PhaseFor(s.r.state);
    var ok := journal.RecordOutcome(p.coid, phase, s.r.brokerOrderId, s.r.brokerStatus, now, true, fault);
    r := if ok then Some(RecoveredIntent(p, Some(s.r), Some(phase))) else None;
  }

  /** Some prefix of the pending list was settled and the next write left a torn line. */
  ghost predicate StoppedAt(d: Disk, answer: string -> LookupAnswer, ps: seq<PendingIntent>,
                            now: int, n: nat, d': Disk) {
    n < |ps| && Answered(answer, ps[n]) && TornBy(Settle(d, answer, ps[..n], now), OutcomeFor(answer, ps[n], now), d')
  }

  predicate AllReport(rs: seq<RecoveredIntent>, answer: string -> LookupAnswer, ps: seq<PendingIntent>, n: nat) {
    |rs| == n <= |ps| && forall k :: 0 <= k < n ==> Reports(rs[k], answer, ps[k])
  }

  /** What one answer makes of an intent: ABANDONED when the broker has no such order, REJECTED when it refused the
      order that was sent, RECONCILED for everything else, with the broker's own id and status. */
  predicate TellsAnswer(r: IntentRecord, a: LookupAnswer, p: PendingIntent, now: int) {
    && r.coid == p.coid && r.at == now && r.recovered
    && (r.phase.Abandoned? <==> a.NoOrder?)
    && (r.phase.Rejected? <==> Refuses(a, p))
    && (r.phase.Abandoned? || r.phase.Rejected? || r.phase.Reconciled?)
    && r.brokerStatus == (if a.Order? then a.payload.status else "")
    && r.brokerOrderId == (if a.Order? && a.payload.id != "" then Some(a.payload.id) else None)
  }

  lemma AnswerDecides(answer: string -> LookupAnswer, p: PendingIntent, now: int)
    requires Answered(answer, p)
    ensures TellsAnswer(OutcomeFor(answer, p, now), answer(p.coid), p, now)
  {
    var a := answer(p.coid);
    if a.Order? {
      LabelsDistinct(a.payload.status);
    }
  }

  /** The broker refused the order, and it is the one that was sent as far as the intent's last record knows it. */
  predicate Refuses(a: LookupAnswer, p: PendingIntent) {
    a.Order? && a.payload.status == "rejected" && Agrees(a.payload, p.latest.quantity as real, p.latest.symbol)
  }

  /** An outcome line carries neither symbol nor quantity, so for an intent whose last record is one a refusal counts
      whatever the broker's order looks like, unless more was filled than ordered. */
  lemma MismatchNeedsTheAttempt(a: LookupAnswer, p: PendingIntent)
    requires p.latest.quantity == 0 && p.latest.symbol == ""
    ensures Refuses(a, p) <==>
            && a.Order? && a.payload.status == "rejected"
            && !(a.payload.qty.Some? && a.payload.filledQty.Some?
                 && 0.0 < a.payload.qty.value < a.payload.filledQty.value)
  {
    assert |"rejected"| == 8 && |"filled"| == 6;
    if a.Order? { AgreesExactly(a.payload, 0.0, ""); }
  }

  /** The report tells the same of each answered intent. */
  lemma ReportTells(r: RecoveredIntent, answer: string -> LookupAnswer, p: PendingIntent)
    requires Reports(r, answer, p) && r.settled.Some?
    ensures !answer(p.coid).QueryFailed?
    ensures r.phase == Some(Abandoned) <==> answer(p.coid).NoOrder?
    ensures r.phase == Some(Rejected) <==> Refuses(answer(p.coid), p)
    ensures r.phase in {Some(Abandoned), Some(Rejected), Some(Phase.Reconciled)}
  {
    AnswerDecides(answer, p, 0);
  }

  /** How recovery ended: with a report, or with an exception that ends the runtime too. */
  datatype Recovered = Reported(report: RecoveryReport) | JournalUnreadable | WriteRaised

  /** Lists what is pending once, then settles it in that order. */
  method Recover(journal: IntentJournal, lookup: OrderLookup, now: int, faults: nat -> WriteFault)
    returns (r: Recovered)
    requires journal.Valid()
    modifies journal, lookup
    ensures old(journal.file) <= journal.file
    ensures r.JournalUnreadable? <==> !old(journal.Quiet())
    ensures r.JournalUnreadable? ==> journal.file == old(journal.file) && lookup.asked == old(lookup.asked)
    ensures r.Reported? ==>
              var ps := Pending(old(journal.Log()));
              && journal.Contents() == Settle(old(journal.Contents()), lookup.answer, ps, now)
              && lookup.asked == old(lookup.asked) + Ids(ps)
              && AllReport(r.report.recovered, lookup.answer, ps, |ps|)
    ensures r.WriteRaised? ==>
              exists n :: StoppedAt(old(journal.Contents()), lookup.answer, Pending(old(journal.Log())), now, n,
                                    journal.Contents())
    ensures old(journal.Quiet()) && (forall n :: faults(n).NoFault?) ==> r.Reported?
  {
    var pending := journal.PendingList();
    if pending.None? {
      return JournalUnreadable;
    }
    IdsNonEmpty(journal);
    r := SettleAll(journal, lookup, pending.value, now, faults);
  }

  /** One intent after the other; a write that raises ends it. */
  method SettleAll(journal: IntentJournal, lookup: OrderLookup, ps: seq<PendingIntent>, now: int,
                   faults: nat -> WriteFault)
    returns (r: Recovered)
    requires journal.Valid() && forall p :: p in ps ==> p.coid != ""
    modifies journal, lookup
    ensures old(journal.file) <= journal.file
    ensures !r.JournalUnreadable?
    ensures r.Reported? ==>
              && journal.Contents() == Settle(old(journal.Contents()), lookup.answer, ps, now)
              && lookup.asked == old(lookup.asked) + Ids(ps)
              && AllReport(r.report.recovered, lookup.answer, ps, |ps|)
    ensures r.WriteRaised? ==>
              exists n :: StoppedAt(old(journal.Contents()), lookup.answer, ps, now, n, journal.Contents())
    ensures (forall n :: faults(n).NoFault?) ==> r.Reported?
  {
    ghost var d, text, asked := journal.Contents(), journal.file, lookup.asked;
    var recovered: seq<RecoveredIntent> := [];
    assert lookup.asked == asked + Ids(ps[..0]);
    for i := 0 to |ps|
      invariant text <= journal.file
      invariant SettledTo(d, asked, lookup.answer, ps, now, i, journal.Contents(), lookup.asked, recovered)
    {
      assert ps[i] in ps;
      ghost var file, d', asked' := journal.file, journal.Contents(), lookup.asked;
      var one := SettleOne(journal, lookup, ps[i], now, faults(i));
      assert text <= file <= journal.file;
      if one.None? {
        assert StoppedAt(d, lookup.answer, ps, now, i, journal.Contents());
        return WriteRaised;
      }
      SettledToNext(d, asked, lookup.answer, ps, now, i, d', asked', recovered, journal.Contents(), one.value);
      recovered := recovered + [one.value];
    }
    assert ps[..|ps|] == ps;
    r := Reported(RecoveryReport(recovered));
  }

  /** The first `i` intents are settled: journal, questions and results. */
  predicate SettledTo(d: Disk, asked: seq<string>, answer: string -> LookupAnswer, ps: seq<PendingIntent>, now: int,
                      i: nat, d': Disk, asked': seq<string>, recovered: seq<RecoveredIntent>) {
    && i <= |ps|
    && d' == Settle(d, answer, ps[..i], now)
    && asked' == asked + Ids(ps[..i])
    && AllReport(recovered, answer, ps, i)
  }

  lemma SettledToNext(d: Disk, asked: seq<string>, answer: string -> LookupAnswer, ps: seq<PendingIntent>, now: int,
                      i: nat, d': Disk, asked': seq<string>, recovered: seq<RecoveredIntent>, d'': Disk,
                      one: RecoveredIntent)
    requires i < |ps| && SettledTo(d, asked, answer, ps, now, i, d', asked', recovered)
    requires Reports(one, answer, ps[i])
    requires d'' == if Answered(answer, ps[i]) then Appended(d', OutcomeFor(answer, ps[i], now)) else d'
    ensures SettledTo(d, asked, answer, ps, now, i + 1, d'', asked' + [ps[i].coid], recovered + [one])
  {
    SettleNext(d, answer, ps, now, i);
    Assoc(asked, Ids(ps[..i]), [ps[i].coid]);
  }

  lemma SettleNext(d: Disk, answer: string -> LookupAnswer, ps: seq<PendingIntent>, now: int, i: nat)
    requires i < |ps|
    ensures Ids(ps[..i + 1]) == Ids(ps[..i]) + [ps[i].coid]
    ensures Settle(d, answer, ps[..i + 1], now) ==
            if Answered(answer, ps[i]) then Appended(Settle(d, answer, ps[..i], now), OutcomeFor(answer, ps[i], now))
            else Settle(d, answer, ps[..i], now)
  {
    TakeSnoc(ps, i);
  }

  /** A reader never yields a record without an id, so no pending intent lacks one. */
  lemma IdsNonEmpty(journal: IntentJournal)
    requires journal.Valid()
    ensures forall p :: p in Pending(journal.Log()) ==> p.coid != ""
  {
    RecordsHaveIds(journal.codec, Lines(journal.file));
    ReadableIsAllLines(journal.codec, journal.file);
    PendingIdsNonEmpty(journal.Log());
  }

  // ---------------------------------------------------------------- what recovery achieves

  lemma {:induction false} SettleClean(d: Disk, answer: string -> LookupAnswer, ps: seq<PendingIntent>, now: int)
    requires d.tail.Clean? && forall p :: p in ps ==> p.coid != ""
    ensures Settle(d, answer, ps, now) == Disk(d.lines + OutcomesFor(answer, ps, now), Clean)
  {
    if ps == [] {
      assert d.lines + [] == d.lines;
    } else {
      SettleClean(d, answer, ps[..|ps| - 1], now);
    }
  }

  /** Without a clean tail the first appended outcome closes the torn line and is lost with it. */
  lemma {:induction false} SettleTorn(d: Disk, answer: string -> LookupAnswer, ps: seq<PendingIntent>, now: int)
    requires !d.tail.Clean? && forall p :: p in ps ==> p.coid != ""
    ensures var out := OutcomesFor(answer, ps, now);
            Settle(d, answer, ps, now) == if out == [] then d else Disk(d.lines + out[1..], Clean)
  {
    if ps != [] {
      var init := ps[..|ps| - 1];
      SettleTorn(d, answer, init, now);
      var out := OutcomesFor(answer, init, now);
      if Answered(answer, ps[|ps| - 1]) {
        var r := OutcomeFor(answer, ps[|ps| - 1], now);
        if out != [] {
          assert (out + [r])[1..] == out[1..] + [r];
          assert d.lines + out[1..] + [r] == d.lines + (out[1..] + [r]);
        } else {
          assert d.lines + (out + [r])[1..] == d.lines;
        }
      }
    }
  }

  /** The outcome of some answered intent of the list. */
  ghost predicate IsOutcomeOf(r: IntentRecord, answer: string -> LookupAnswer, ps: seq<PendingIntent>, now: int) {
    exists p :: p in ps && Answered(answer, p) && r == OutcomeFor(answer, p, now)
  }

  lemma {:induction false} OutcomesExact(answer: string -> LookupAnswer, ps: seq<PendingIntent>, now: int)
    requires DistinctIds(ps)
    ensures var out := OutcomesFor(answer, ps, now);
            && (forall r :: r in out ==> r.recovered && Resolved(r.phase) && IsOutcomeOf(r, answer, ps, now))
            && (forall p :: p in ps && Answered(answer, p) ==> OutcomeFor(answer, p, now) in out)
            && (forall i, j :: 0 <= i < j < |out| ==> out[i].coid != out[j].coid)
  {
    if ps != [] {
      var init, p := ps[..|ps| - 1], ps[|ps| - 1];
      OutcomesExact(answer, init, now);
      var before := OutcomesFor(answer, init, now);
      forall i | 0 <= i < |before|
        ensures before[i].coid != p.coid
      {
        assert before[i] in before;
        var q :| q in init && Answered(answer, q) && before[i] == OutcomeFor(answer, q, now);
      }
    }
  }

  /** Appending outcomes with distinct ids decides the latest record of exactly those ids. */
  lemma {:induction false} LatestAfter(log: seq<IntentRecord>, out: seq<IntentRecord>, c: string)
    requires forall i, j :: 0 <= i < j < |out| ==> out[i].coid != out[j].coid
    ensures Has(out, c) ==> exists r :: r in out && r.coid == c && Latest(log + out, c) == Some(r)
    ensures !Has(out, c) ==> Latest(log + out, c) == Latest(log, c)
  {
    if out == [] {
      assert log + out == log;
    } else {
      var init, r := out[..|out| - 1], out[|out| - 1];
      assert log + out == (log + init) + [r];
      LatestAppend(log + init, r, c);
      LatestAfter(log, init, c);
      if r.coid == c {
        assert r in out && out[|out| - 1].coid == c;
      } else if Has(init, c) {
        var i :| 0 <= i < |init| && init[i].coid == c;
        assert out[i].coid == c;
      }
    }
  }

  /** The ids the broker could not be asked about. */
  ghost predicate StillOpen(before: seq<IntentRecord>, answer: string -> LookupAnswer, c: string) {
    IsPending(before, c) && answer(c).QueryFailed?
  }

  /** Nothing already recorded is lost, and exactly the unanswered intents stay pending. */
  ghost predicate SettledExactly(before: seq<IntentRecord>, after: seq<IntentRecord>, answer: string -> LookupAnswer) {
    && before <= after
    && forall c :: IsPending(after, c) <==> StillOpen(before, answer, c)
  }

  ghost predicate Readers(log: seq<IntentRecord>) {
    forall i :: 0 <= i < |log| ==> log[i].coid != ""
  }

  lemma PendingIdsNonEmpty(log: seq<IntentRecord>)
    requires Readers(log)
    ensures forall p :: p in Pending(log) ==> p.coid != ""
  {
    PendingExact(log, 0);
    forall p | p in Pending(log)
      ensures p.coid != ""
    {
      assert Has(log, p.coid);
    }
  }

  lemma AnsweredIds(log: seq<IntentRecord>, answer: string -> LookupAnswer, now: int)
    ensures forall c :: Has(OutcomesFor(answer, Pending(log), now), c) <==>
                        IsPending(log, c) && !answer(c).QueryFailed?
  {
    var ps := Pending(log);
    var out := OutcomesFor(answer, ps, now);
    PendingExact(log, 0);
    OutcomesExact(answer, ps, now);
    forall c
      ensures Has(out, c) <==> IsPending(log, c) && !answer(c).QueryFailed?
    {
      if Has(out, c) {
        var i :| 0 <= i < |out| && out[i].coid == c;
        assert out[i] in out;
        var p :| p in ps && Answered(answer, p) && out[i] == OutcomeFor(answer, p, now);
        assert IsPending(log, c);
      }
      if IsPending(log, c) && !answer(c).QueryFailed? {
        var p :| p in ps && p.coid == c;
        assert OutcomeFor(answer, p, now) in out;
      }
    }
  }

  lemma AppendOutcomes(log: seq<IntentRecord>, answer: string -> LookupAnswer, now: int)
    ensures SettledExactly(log, log + OutcomesFor(answer, Pending(log), now), answer)
  {
    var out := OutcomesFor(answer, Pending(log), now);
    PendingExact(log, 0);
    OutcomesExact(answer, Pending(log), now);
    AnsweredIds(log, answer, now);
    forall c
      ensures IsPending(log + out, c) <==> StillOpen(log, answer, c)
    {
      LatestAfter(log, out, c);
    }
  }

  predicate ComesFirst(out: seq<IntentRecord>, c: string) {
    out != [] && out[0].coid == c
  }

  /** On the file: for every pending intent the broker answered for, the latest record is the line its answer decides,
      unless that is the first line written behind a torn tail. */
  lemma AnswerOnFile(d: Disk, answer: string -> LookupAnswer, now: int, p: PendingIntent)
    requires Readers(Readable(d)) && p in Pending(Readable(d)) && !answer(p.coid).QueryFailed?
    requires d.tail.Clean? || !ComesFirst(OutcomesFor(answer, Pending(Readable(d)), now), p.coid)
    ensures var latest := Latest(Readable(Settle(d, answer, Pending(Readable(d)), now)), p.coid);
            latest.Some? && TellsAnswer(latest.value, answer(p.coid), p, now)
  {
    var ps := Pending(Readable(d));
    var r, out := OutcomeFor(answer, p, now), OutcomesFor(answer, ps, now);
    PendingIdsNonEmpty(Readable(d));
    AnswerIsWritten(Readable(d), answer, now, p);
    if d.tail.Clean? {
      SettleClean(d, answer, ps, now);
      LatestIsTheOne(d.lines, out, r);
      CleanIsRead(d.lines + out);
    } else {
      SettleTorn(d, answer, ps, now);
      RestHolds(out, r);
      LatestIsTheOne(d.lines, out[1..], r);
      CleanIsRead(d.lines + out[1..]);
    }
    AnswerDecides(answer, p, now);
  }

  lemma CleanIsRead(lines: seq<IntentRecord>)
    ensures Readable(Disk(lines, Clean)) == lines
  {
  }

  lemma AnswerIsWritten(log: seq<IntentRecord>, answer: string -> LookupAnswer, now: int, p: PendingIntent)
    requires p in Pending(log) && Answered(answer, p)
    ensures var out := OutcomesFor(answer, Pending(log), now);
            OutcomeFor(answer, p, now) in out && forall i, j :: 0 <= i < j < |out| ==> out[i].coid != out[j].coid
  {
    PendingExact(log, 0);
    OutcomesExact(answer, Pending(log), now);
  }

  lemma RestHolds(out: seq<IntentRecord>, r: IntentRecord)
    requires r in out && !ComesFirst(out, r.coid)
    ensures out != [] && r in out[1..]
  {
    var i :| 0 <= i < |out| && out[i] == r;
    assert out[1..][i - 1] == r;
  }

  lemma LatestIsTheOne(log: seq<IntentRecord>, out: seq<IntentRecord>, r: IntentRecord)
    requires r in out && forall i, j :: 0 <= i < j < |out| ==> out[i].coid != out[j].coid
    ensures Latest(log + out, r.coid) == Some(r)
  {
    var i :| 0 <= i < |out| && out[i] == r;
    LatestAfter(log, out, r.coid);
    assert out[i].coid == r.coid;
  }

  /** Recovery settles exactly what the broker answered, and loses nothing, precisely when the journal
      ended in a newline or there was nothing to write. */
  lemma RecoveryExact(d: Disk, answer: string -> LookupAnswer, now: int)
    requires Readers(Readable(d))
    ensures var before := Readable(d);
            var after := Readable(Settle(d, answer, Pending(before), now));
            SettledExactly(before, after, answer) <==>
            d.tail.Clean? || forall p :: p in Pending(before) ==> !Answered(answer, p)
  {
    var before := Readable(d);
    var out := OutcomesFor(answer, Pending(before), now);
    PendingIdsNonEmpty(before);
    NothingAnswered(before, answer, now);
    AppendOutcomes(before, answer, now);
    if d.tail.Clean? {
      SettleClean(d, answer, Pending(before), now);
      assert before == d.lines;
      assert Readable(Disk(d.lines + out, Clean)) == before + out;
    } else if out == [] {
      SettleTorn(d, answer, Pending(before), now);
      assert before + out == before;
    } else {
      TornRecoveryLoses(d, answer, now);
    }
  }

  lemma NothingAnswered(log: seq<IntentRecord>, answer: string -> LookupAnswer, now: int)
    ensures OutcomesFor(answer, Pending(log), now) == [] <==> forall p :: p in Pending(log) ==> !Answered(answer, p)
  {
    var out := OutcomesFor(answer, Pending(log), now);
    PendingExact(log, 0);
    OutcomesExact(answer, Pending(log), now);
    if out != [] {
      assert out[0] in out;
    }
  }

  /** On a torn tail the first answer is lost: a garbage tail leaves its intent pending, and a whole
      record in the tail is itself no longer readable. */
  lemma TornRecoveryLoses(d: Disk, answer: string -> LookupAnswer, now: int)
    requires Readers(Readable(d)) && !d.tail.Clean?
    requires OutcomesFor(answer, Pending(Readable(d)), now) != []
    ensures !SettledExactly(Readable(d), Readable(Settle(d, answer, Pending(Readable(d)), now)), answer)
  {
    var before := Readable(d);
    var out := OutcomesFor(answer, Pending(before), now);
    PendingAfterTorn(d, answer, now);
    AnsweredIds(before, answer, now);
    if d.tail.Garbage? {
      assert before == d.lines && Has(out, out[0].coid);
      assert IsPending(d.lines + out[1..], out[0].coid) && !StillOpen(before, answer, out[0].coid);
    } else {
      OutcomesWerePending(before, answer, now);
      WholeTailIsLost(d, out);
    }
  }

  /** An outcome is never the record already waiting in the tail: that record would not be pending. */
  lemma OutcomesWerePending(log: seq<IntentRecord>, answer: string -> LookupAnswer, now: int)
    ensures forall r :: r in OutcomesFor(answer, Pending(log), now) ==> Resolved(r.phase) && IsPending(log, r.coid)
  {
    PendingExact(log, 0);
    OutcomesExact(answer, Pending(log), now);
    AnsweredIds(log, answer, now);
    forall r | r in OutcomesFor(answer, Pending(log), now)
      ensures IsPending(log, r.coid)
    {
      assert Has(OutcomesFor(answer, Pending(log), now), r.coid);
    }
  }

  lemma WholeTailIsLost(d: Disk, out: seq<IntentRecord>)
    requires d.tail.Whole? && out != [] && forall r :: r in out ==> Resolved(r.phase) && IsPending(Readable(d), r.coid)
    ensures !(Readable(d) <= d.lines + out[1..])
  {
    var n, r := |d.lines|, d.tail.r;
    LatestAppend(d.lines, r, r.coid);
    assert r !in out;
    assert Readable(d)[n] == r;
    assert |out| > 1 ==> (d.lines + out[1..])[n] == out[1] && out[1] in out;
  }

  /** One result per pending intent, in order. */
  ghost predicate ReportOf(report: RecoveryReport, before: seq<IntentRecord>, answer: string -> LookupAnswer) {
    AllReport(report.recovered, answer, Pending(before), |Pending(before)|)
  }

  /** A whole record after the last newline that is all the log knows of its own pending intent: settling it first
      makes the log forget it. */
  predicate ForgetsFirst(d: Disk, out: seq<IntentRecord>) {
    out != [] && d.tail.Whole? && d.tail.r.coid == out[0].coid && !IsPending(d.lines, out[0].coid)
  }

  /** For every tail: "safe to trade" and "nothing is pending on the file" say the same, except when the report is
      safe, something was answered, and the torn tail swallowed the first answer without also swallowing every trace
      of its intent. Then the runtime starts with an intent still pending. */
  lemma SafeMeansSettledExactly(d: Disk, answer: string -> LookupAnswer, now: int, report: RecoveryReport)
    requires Readers(Readable(d)) && ReportOf(report, Readable(d), answer)
    ensures var out := OutcomesFor(answer, Pending(Readable(d)), now);
            var after := Readable(Settle(d, answer, Pending(Readable(d)), now));
            (report.SafeToTrade() <==> Pending(after) == []) <==>
            d.tail.Clean? || out == [] || !report.SafeToTrade() || ForgetsFirst(d, out)
  {
    var before := Readable(d);
    var out := OutcomesFor(answer, Pending(before), now);
    var after := Readable(Settle(d, answer, Pending(before), now));
    SafeExactly(before, answer, report);
    NonePending(after);
    NothingAnswered(before, answer, now);
    if d.tail.Clean? || out == [] {
      RecoveryExact(d, answer, now);
    } else {
      PendingAfterTorn(d, answer, now);
      TornLeavesOpen(d, answer, now, report);
    }
  }

  /** What is pending after the first answer was swallowed: what the complete lines leave pending and no later
      answer settles. */
  lemma PendingAfterTorn(d: Disk, answer: string -> LookupAnswer, now: int)
    requires Readers(Readable(d)) && !d.tail.Clean? && OutcomesFor(answer, Pending(Readable(d)), now) != []
    ensures var out := OutcomesFor(answer, Pending(Readable(d)), now);
            var after := Readable(Settle(d, answer, Pending(Readable(d)), now));
            && after == d.lines + out[1..]
            && (forall c :: IsPending(after, c) <==> IsPending(d.lines, c) && !Has(out[1..], c))
            && !Has(out[1..], out[0].coid)
  {
    var ps := Pending(Readable(d));
    var out := OutcomesFor(answer, ps, now);
    PendingIdsNonEmpty(Readable(d));
    SettleTorn(d, answer, ps, now);
    LaterOutcomes(Readable(d), answer, now);
    PendingBehind(d.lines, out[1..]);
  }

  lemma LaterOutcomes(log: seq<IntentRecord>, answer: string -> LookupAnswer, now: int)
    requires OutcomesFor(answer, Pending(log), now) != []
    ensures var out := OutcomesFor(answer, Pending(log), now);
            && (forall i, j :: 0 <= i < j < |out| - 1 ==> out[1..][i].coid != out[1..][j].coid)
            && (forall r :: r in out[1..] ==> Resolved(r.phase))
            && !Has(out[1..], out[0].coid)
  {
    var out := OutcomesFor(answer, Pending(log), now);
    PendingExact(log, 0);
    OutcomesExact(answer, Pending(log), now);
    assert forall r :: r in out[1..] ==> r in out;
  }

  /** Outcomes with distinct ids settle exactly their own intents. */
  lemma PendingBehind(log: seq<IntentRecord>, out: seq<IntentRecord>)
    requires forall i, j :: 0 <= i < j < |out| ==> out[i].coid != out[j].coid
    requires forall r :: r in out ==> Resolved(r.phase)
    ensures forall c :: IsPending(log + out, c) <==> IsPending(log, c) && !Has(out, c)
  {
    forall c
      ensures IsPending(log + out, c) <==> IsPending(log, c) && !Has(out, c)
    {
      LatestAfter(log, out, c);
    }
  }

  /** Some intent is pending in the complete lines and no later answer settles it. */
  ghost predicate LeftOpen(d: Disk, out: seq<IntentRecord>) {
    out != [] && exists c :: IsPending(d.lines, c) && !Has(out[1..], c)
  }

  /** `out` holds outcomes for exactly the intents that were pending and answered. */
  ghost predicate Answers(out: seq<IntentRecord>, before: seq<IntentRecord>, answer: string -> LookupAnswer) {
    forall c :: Has(out, c) <==> IsPending(before, c) && !answer(c).QueryFailed?
  }

  lemma TornLeavesOpen(d: Disk, answer: string -> LookupAnswer, now: int, report: RecoveryReport)
    requires Readers(Readable(d)) && ReportOf(report, Readable(d), answer) && !d.tail.Clean?
    requires OutcomesFor(answer, Pending(Readable(d)), now) != []
    ensures var out := OutcomesFor(answer, Pending(Readable(d)), now);
            LeftOpen(d, out) <==> !(report.SafeToTrade() && ForgetsFirst(d, out))
  {
    var before := Readable(d);
    var out := OutcomesFor(answer, Pending(before), now);
    PendingAfterTorn(d, answer, now);
    AnsweredIds(before, answer, now);
    SafeExactly(before, answer, report);
    HeadOrTail(out);
    assert Answers(out, before, answer);
    if !ForgetsFirst(d, out) {
      FirstLeftOpen(d, out, answer);
    } else if !report.SafeToTrade() {
      var c :| StillOpen(before, answer, c);
      AnotherLeftOpen(d, out, answer, c);
    } else {
      NoneLeftOpen(d, out, answer);
    }
  }

  lemma FirstLeftOpen(d: Disk, out: seq<IntentRecord>, answer: string -> LookupAnswer)
    requires out != [] && Answers(out, Readable(d), answer) && !Has(out[1..], out[0].coid) && !ForgetsFirst(d, out)
    ensures LeftOpen(d, out)
  {
    assert Has(out, out[0].coid);
    TailDecidesOne(d, out[0].coid);
    assert IsPending(d.lines, out[0].coid) && !Has(out[1..], out[0].coid);
  }

  lemma AnotherLeftOpen(d: Disk, out: seq<IntentRecord>, answer: string -> LookupAnswer, c: string)
    requires out != [] && Answers(out, Readable(d), answer) && ForgetsFirst(d, out) && StillOpen(Readable(d), answer, c)
    requires forall x :: Has(out, x) <==> out[0].coid == x || Has(out[1..], x)
    ensures LeftOpen(d, out)
  {
    assert !Has(out, c);
    TailDecidesOne(d, c);
    assert IsPending(d.lines, c) && !Has(out[1..], c);
  }

  lemma NoneLeftOpen(d: Disk, out: seq<IntentRecord>, answer: string -> LookupAnswer)
    requires out != [] && Answers(out, Readable(d), answer) && ForgetsFirst(d, out)
    requires forall c :: !StillOpen(Readable(d), answer, c)
    requires forall x :: Has(out, x) <==> out[0].coid == x || Has(out[1..], x)
    ensures !LeftOpen(d, out)
  {
    forall c | IsPending(d.lines, c)
      ensures Has(out[1..], c)
    {
      TailDecidesOne(d, c);
      assert !StillOpen(Readable(d), answer, c);
      assert Has(out, c);
    }
  }

  lemma HeadOrTail(out: seq<IntentRecord>)
    requires out != []
    ensures forall c :: Has(out, c) <==> out[0].coid == c || Has(out[1..], c)
  {
    forall c
      ensures Has(out, c) <==> out[0].coid == c || Has(out[1..], c)
    {
      if Has(out[1..], c) {
        var i :| 0 <= i < |out| - 1 && out[1..][i].coid == c;
        assert out[i + 1].coid == c;
      }
      if Has(out, c) {
        var i :| 0 <= i < |out| && out[i].coid == c;
        assert i > 0 ==> out[1..][i - 1].coid == c;
      }
    }
  }

  /** The record in the tail decides its own id; every other id is decided by the complete lines. */
  lemma TailDecidesOne(d: Disk, c: string)
    ensures !(d.tail.Whole? && d.tail.r.coid == c) ==> (IsPending(Readable(d), c) <==> IsPending(d.lines, c))
  {
    if d.tail.Whole? {
      LatestAppend(d.lines, d.tail.r, c);
    } else {
      assert Readable(d) == d.lines;
    }
  }

  /** The dangerous case spelled out: unreadable text in the tail, an answer for every intent, and at least one
      intent. The report says safe to trade, and the first intent is still pending on the file. */
  lemma SafeWhilePending(d: Disk, answer: string -> LookupAnswer, now: int, report: RecoveryReport)
    requires Readers(Readable(d)) && ReportOf(report, Readable(d), answer)
    requires d.tail.Garbage? && report.SafeToTrade() && Pending(Readable(d)) != []
    ensures var out := OutcomesFor(answer, Pending(Readable(d)), now);
            var after := Readable(Settle(d, answer, Pending(Readable(d)), now));
            out != [] && IsPending(after, out[0].coid) && Pending(after) != []
  {
    var before := Readable(d);
    var ps := Pending(before);
    var out := OutcomesFor(answer, ps, now);
    NothingAnswered(before, answer, now);
    SafeExactly(before, answer, report);
    PendingExact(before, 0);
    assert ps[0] in ps && IsPending(before, ps[0].coid) && !StillOpen(before, answer, ps[0].coid);
    AnsweredIds(before, answer, now);
    PendingAfterTorn(d, answer, now);
    assert before == d.lines && Has(out, out[0].coid);
    NonePending(Readable(Settle(d, answer, ps, now)));
  }

  /** With nothing pending a recovery asks nothing and writes nothing, whatever the broker would say. */
  lemma NothingToDo(d: Disk, again: string -> LookupAnswer, later: int)
    requires Pending(Readable(d)) == []
    ensures Settle(d, again, Pending(Readable(d)), later) == d && Ids(Pending(Readable(d))) == []
  {
  }

  lemma NonePending(log: seq<IntentRecord>)
    ensures Pending(log) == [] <==> forall c :: !IsPending(log, c)
  {
    PendingExact(log, 0);
    if Pending(log) != [] {
      assert Pending(log)[0] in Pending(log);
      assert IsPending(log, Pending(log)[0].coid);
    }
  }

  /** The report is safe exactly when the broker answered for every pending intent, whatever became of the writes. */
  lemma SafeExactly(before: seq<IntentRecord>, answer: string -> LookupAnswer, report: RecoveryReport)
    requires ReportOf(report, before, answer)
    ensures report.SafeToTrade() <==> forall c :: !StillOpen(before, answer, c)
  {
    var ps := Pending(before);
    PendingExact(before, 0);
    forall c | StillOpen(before, answer, c)
      ensures !report.SafeToTrade()
    {
      var p :| p in ps && p.coid == c;
      var i :| 0 <= i < |ps| && ps[i] == p;
      assert !report.recovered[i].Resolved();
    }
    if !report.SafeToTrade() {
      var i :| 0 <= i < |report.recovered| && !report.recovered[i].Resolved();
      assert ps[i] in ps;
      assert StillOpen(before, answer, ps[i].coid);
    }
  }
}
