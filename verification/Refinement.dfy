/** The protocol against the code: every `submit` and every `recover` is a path of protocol steps, a
    restart that recovery calls safe knows every live order, and a torn journal tail breaks the promise. */
module Refinement {
  import opened Outcomes
  import opened IntentLog
  import opened JournalLine
  import opened JournalFile
  import opened Authorization
  import opened Adapter
  import opened Reconciliation
  import opened Recovery
  import opened Protocol
  import opened RegistryInvariant
  import opened Guarantees

  ghost predicate Path(states: seq<State>, events: seq<Event>) {
    && |states| == |events| + 1
    && forall i :: 0 <= i < |events| ==> Step(states[i], events[i], states[i + 1])
  }

  /** One more step at the end of a path. */
  lemma Extend(states: seq<State>, events: seq<Event>, e: Event, s': State)
    requires Path(states, events) && Step(states[|events|], e, s')
    ensures Path(states + [s'], events + [e])
  {
    forall i | 0 <= i < |events| + 1
      ensures Step((states + [s'])[i], (events + [e])[i], (states + [s'])[i + 1])
    {
      if i < |events| {
        assert Step(states[i], events[i], states[i + 1]);
      }
    }
  }

  lemma Join(states: seq<State>, events: seq<Event>, more: seq<State>, moreEvents: seq<Event>)
    requires Path(states, events) && Path(more, moreEvents) && more[0] == states[|events|]
    ensures var all := states + more[1..];
            && Path(all, events + moreEvents)
            && all[0] == states[0] && all[|events|] == states[|events|]
            && all[|events| + |moreEvents|] == more[|moreEvents|]
  {
    var all := states + more[1..];
    forall i | 0 <= i < |events + moreEvents|
      ensures Step(all[i], (events + moreEvents)[i], all[i + 1])
    {
      if i < |events| {
        assert Step(states[i], events[i], states[i + 1]);
      } else {
        var k := i - |events|;
        assert Step(more[k], moreEvents[k], more[k + 1]);
        assert all[i] == more[k];
      }
    }
  }

  // ---------------------------------------------------------------- submit

  /** The protocol state and the adapter's objects agree, and the journal holds no unconvertible line: its own
      writes never make one (`JournalFile.OwnWritesNeverRaise`). */
  ghost predicate Matches(s: State, v: View, secret: int) {
    && s.used == v.used && s.secret == secret
    && s.journaled == v.disk.Some? && (v.disk.Some? ==> s.disk == v.disk.value)
    && v.Whole()
  }

  function Started(s: State, t: nat, l: Licence, request: Proposal, book: Book, now: int): State {
    s.(jobs := s.jobs[t := Job(l, request, book, now, Presented)])
  }

  /** A licensed, unused, correctly sized request reaches the journal check. */
  lemma ReachSizeChecked(s: State, t: nat, l: Licence, request: Proposal, book: Book, now: int)
    returns (states: seq<State>, events: seq<Event>)
    requires t !in s.jobs && Licenses(Token(l), s.secret, request, book, now) && l.nonce !in s.used
    requires (exists m :: m in s.minted && m.signature == l.signature) && Sized(l, request)
    ensures Path(states, events) && |events| == 3 && states[0] == s
    ensures states[3] == Move(Started(s, t, l, request, book, now), t, SizeChecked).(used := s.used + {l.nonce})
    ensures forall i :: 0 <= i < 3 ==> !events[i].WriteAhead?
  {
    var s1 := Started(s, t, l, request, book, now);
    var s2 := Move(s1, t, Burned).(used := s.used + {l.nonce});
    var s3 := Move(s2, t, SizeChecked);
    assert Step(s, Present(t, s1.jobs[t]), s1) && Step(s1, Consume(t), s2) && Step(s2, CheckSize(t), s3);
    states, events := [s, s1, s2, s3], [Present(t, s1.jobs[t]), Consume(t), CheckSize(t)];
    assert s3 == Move(s1, t, SizeChecked).(used := s.used + {l.nonce});
  }

  /** A path on which one submitter comes and goes and the state ends as the view `v'` says. */
  ghost predicate Simulates(states: seq<State>, events: seq<Event>, s: State, v: View, v': View, secret: int,
                            request: Proposal) {
    && Path(states, events)
    && states[0] == s
    && Ends(s, states[|events|], v, v', secret, request)
    && forall i :: 0 <= i < |events| ==> events[i].WriteAhead? ==> states[i].disk == s.disk
  }

  ghost predicate Ends(s: State, s': State, v: View, v': View, secret: int, request: Proposal) {
    && Matches(s', v', secret) && s'.jobs == s.jobs && s'.minted == s.minted && s'.epoch == s.epoch
    && (v'.received == v.received ==> s'.calls == s.calls && s'.orders == s.orders)
    && (v'.received != v.received ==>
          && |s'.calls| == |s.calls| + 1 && s'.calls[..|s.calls|] == s.calls
          && s'.calls[|s.calls|].request == request
          && v'.received == v.received + [Payload(request, s'.calls[|s.calls|].id)])
  }

  /** A request stopped before the write-ahead: the nonce is burned at most, nothing else changes. */
  lemma BlockedPath(s: State, t: nat, v: View, v': View, auth: Candidate, secret: int, request: Proposal, book: Book,
                    now: int)
    returns (states: seq<State>, events: seq<Event>)
    requires Matches(s, v, secret) && t !in s.jobs && !Cleared(v, auth, secret, request, book, now)
    requires auth.Token? && auth.licence.signature == Sign(secret, auth.licence) ==>
               exists m :: m in s.minted && m.signature == auth.licence.signature
    requires v' == v.(used :=
                     if Licenses(auth, secret, request, book, now) then v.used + {auth.licence.nonce} else v.used)
    ensures Simulates(states, events, s, v, v', secret, request)
  {
    states, events := [s], [];
    if !Licenses(auth, secret, request, book, now) {
      return;
    }
    var l := auth.licence;
    if l.nonce in s.used {
      states, events := ReplayedPath(s, t, l, request, book, now);
      assert v.used + {l.nonce} == v.used;
    } else if !Sized(l, request) {
      states, events := WrongSizePath(s, t, l, request, book, now);
    } else {
      states, events := ReachSizeChecked(s, t, l, request, book, now);
      var s3 := states[3];
      assert Leave(s3, t).jobs == s.jobs;
      Extend(states, events, Look(t), Leave(s3, t));
      states, events := states + [Leave(s3, t)], events + [Look(t)];
    }
  }

  lemma ReplayedPath(s: State, t: nat, l: Licence, request: Proposal, book: Book, now: int)
    returns (states: seq<State>, events: seq<Event>)
    requires t !in s.jobs && Licenses(Token(l), s.secret, request, book, now) && l.nonce in s.used
    requires exists m :: m in s.minted && m.signature == l.signature
    ensures Path(states, events) && states[0] == s && states[|events|] == s
    ensures forall i :: 0 <= i < |events| ==> !events[i].WriteAhead?
  {
    var s1 := Started(s, t, l, request, book, now);
    assert Step(s, Present(t, s1.jobs[t]), s1) && Step(s1, Consume(t), Leave(s1, t));
    assert Leave(s1, t).jobs == s.jobs;
    states, events := [s, s1, Leave(s1, t)], [Present(t, s1.jobs[t]), Consume(t)];
  }

  lemma WrongSizePath(s: State, t: nat, l: Licence, request: Proposal, book: Book, now: int)
    returns (states: seq<State>, events: seq<Event>)
    requires t !in s.jobs && Licenses(Token(l), s.secret, request, book, now)
             && l.nonce !in s.used && !Sized(l, request)
    requires exists m :: m in s.minted && m.signature == l.signature
    ensures Path(states, events) && states[0] == s && states[|events|] == s.(used := s.used + {l.nonce})
    ensures forall i :: 0 <= i < |events| ==> !events[i].WriteAhead?
  {
    var s1 := Started(s, t, l, request, book, now);
    var s2 := Move(s1, t, Burned).(used := s.used + {l.nonce});
    assert Step(s, Present(t, s1.jobs[t]), s1) && Step(s1, Consume(t), s2) && Step(s2, CheckSize(t), Leave(s2, t));
    assert Leave(s2, t).jobs == s.jobs;
    states, events := [s, s1, s2, Leave(s2, t)], [Present(t, s1.jobs[t]), Consume(t), CheckSize(t)];
  }

  /** A cleared request: the write-ahead, and the broker call unless that write failed. */
  lemma ClearedPath(s: State, t: nat, v: View, v': View, auth: Candidate, secret: int, request: Proposal, book: Book,
                    cycleId: string, now: int, w: World, r: Option<ExecutionResult>, accepted: bool)
    returns (states: seq<State>, events: seq<Event>)
    requires Matches(s, v, secret) && t !in s.jobs && Cleared(v, auth, secret, request, book, now)
    requires SubmitRelation(v, v', auth, secret, request, book, cycleId, now, w, r)
    requires exists m :: m in s.minted && m.signature == auth.licence.signature
    requires w.reply.RaisedRejected? ==> !accepted && ClientOrderId(auth.licence.nonce) !in s.orders
    ensures Simulates(states, events, s, v, v', secret, request)
  {
    var l := auth.licence;
    states, events := ReachSizeChecked(s, t, l, request, book, now);
    var s3 := states[3];
    var s4 := Move(s3, t, if s.journaled then Unseen else Ready);
    Extend(states, events, Look(t), s4);
    states, events := states + [s4], events + [Look(t)];
    if s.journaled {
      states, events := WriteAheadPath(s, s4, t, cycleId, now, w, v', states, events);
    }
    if !s.journaled || w.attemptFault.NoFault? {
      states, events := ContactPath(s, states[|events|], t, w, v', now, accepted, states, events);
    }
  }

  /** Every outcome `submit` permits is a path of protocol steps of one submitter, which has left at the
      end: same registry, same journal file, and one more broker call exactly when the adapter made one. */
  lemma SubmitRefines(s: State, t: nat, v: View, v': View, auth: Candidate, secret: int, request: Proposal, book: Book,
                      cycleId: string, now: int, w: World, r: Option<ExecutionResult>, accepted: bool)
    returns (states: seq<State>, events: seq<Event>)
    requires Matches(s, v, secret) && t !in s.jobs
    requires SubmitRelation(v, v', auth, secret, request, book, cycleId, now, w, r)
    requires auth.Token? && auth.licence.signature == Sign(secret, auth.licence) ==>
               exists m :: m in s.minted && m.signature == auth.licence.signature
    requires auth.Token? && w.reply.RaisedRejected? ==>
               !accepted && ClientOrderId(auth.licence.nonce) !in s.orders
    ensures Simulates(states, events, s, v, v', secret, request)
  {
    if Cleared(v, auth, secret, request, book, now) {
      states, events := ClearedPath(s, t, v, v', auth, secret, request, book, cycleId, now, w, r, accepted);
    } else {
      if Licenses(auth, secret, request, book, now) && auth.licence.nonce in v.used {
        assert v.used + {auth.licence.nonce} == v.used;
      }
      states, events := BlockedPath(s, t, v, v', auth, secret, request, book, now);
    }
  }

  /** The write-ahead of the submission at `Unseen`, whole or failed. */
  lemma WriteAheadPath(s: State, s4: State, t: nat, cycleId: string, now: int, w: World, v': View,
                       states: seq<State>, events: seq<Event>)
    returns (states': seq<State>, events': seq<Event>)
    requires Path(states, events) && states[|events|] == s4 && At(s4, t, Unseen) && s4.disk == s.disk
    requires t !in s.jobs && s4.jobs == s.jobs[t := s4.jobs[t]] && v'.disk.Some?
    requires !w.attemptFault.NoFault? ==> TornBy(s.disk, AttemptBy(s4.jobs[t], cycleId, now), v'.disk.value)
    requires forall i :: 0 <= i < |events| ==> !events[i].WriteAhead?
    ensures Path(states', events') && states'[0] == states[0]
    ensures states'[|events'|] ==
            if w.attemptFault.NoFault?
            then Move(s4, t, Ready).(disk := Appended(s.disk, AttemptBy(s4.jobs[t], cycleId, now)))
            else s4.(disk := v'.disk.value, jobs := s.jobs)
    ensures forall i :: 0 <= i < |events'| ==> events'[i].WriteAhead? ==> states'[i].disk == s.disk
  {
    var ok := w.attemptFault.NoFault?;
    var s5 := if ok then Move(s4, t, Ready).(disk := Appended(s.disk, AttemptBy(s4.jobs[t], cycleId, now)))
              else Leave(s4, t).(disk := v'.disk.value);
    assert Leave(s4, t).jobs == s.jobs;
    Extend(states, events, WriteAhead(t, cycleId, now, ok), s5);
    states', events' := states + [s5], events + [WriteAhead(t, cycleId, now, ok)];
  }

  /** The broker call of the submission at `Ready`, its answer and the outcome write. */
  lemma ContactPath(s: State, s5: State, t: nat, w: World, v': View, now: int, accepted: bool,
                    states: seq<State>, events: seq<Event>)
    returns (states': seq<State>, events': seq<Event>)
    requires Path(states, events) && states[|events|] == s5 && At(s5, t, Ready)
    requires t !in s.jobs && s5.jobs == s.jobs[t := s5.jobs[t]] && s5.orders == s.orders
    requires w.reply.RaisedRejected? ==> !accepted && s5.jobs[t].Id() !in s.orders
    requires s5.journaled == v'.disk.Some?
    requires s5.journaled ==> var o := OutcomeOf(s5.jobs[t].licence, w.reply, now);
               if w.outcomeFault.NoFault? then v'.disk.value == Appended(s5.disk, o)
               else TornBy(s5.disk, o, v'.disk.value)
    requires forall i :: 0 <= i < |events| ==> events[i].WriteAhead? ==> states[i].disk == s.disk
    ensures Path(states', events') && states'[0] == states[0]
    ensures var s' := states'[|events'|]; var j := s5.jobs[t];
            s' == s5.(calls := s5.calls
                              + [Call(j.Id(), j.licence, j.request, j.book, j.verifiedAt, s5.epoch, |s5.disk.lines|)],
                      orders := if accepted then s5.orders + {j.Id()} else s5.orders,
                      jobs := s.jobs, disk := if s5.journaled then v'.disk.value else s5.disk)
    ensures forall i :: 0 <= i < |events'| ==> events'[i].WriteAhead? ==> states'[i].disk == s.disk
  {
    var j := s5.jobs[t];
    var phase := PhaseOf(StateOf(w.reply));
    var s6 := Move(s5, t, Contacted).(
      calls := s5.calls + [Call(j.Id(), j.licence, j.request, j.book, j.verifiedAt, s5.epoch, |s5.disk.lines|)],
      orders := if accepted then s5.orders + {j.Id()} else s5.orders);
    var s7 := Move(s6, t, Told(phase));
    var s8 := Leave(s7, t).(disk := if s5.journaled then v'.disk.value else s5.disk);
    var done := WriteOutcome(t, BrokerIdOf(w.reply), now, w.outcomeFault.NoFault?);
    assert OutcomeBy(s7.jobs[t], BrokerIdOf(w.reply), now) == OutcomeOf(j.licence, w.reply, now);
    assert s8.jobs == s.jobs;
    Extend(states, events, Contact(t, accepted), s6);
    Extend(states + [s6], events + [Contact(t, accepted)], Answer(t, phase), s7);
    Extend(states + [s6] + [s7], events + [Contact(t, accepted)] + [Answer(t, phase)], done, s8);
    states' := states + [s6] + [s7] + [s8];
    events' := events + [Contact(t, accepted)] + [Answer(t, phase)] + [done];
  }

  // ---------------------------------------------------------------- recover

  /** The broker tells recovery an order is absent or refused only when it does not exist. */
  ghost predicate TruthfulLookup(orders: set<string>, answer: string -> LookupAnswer, ps: seq<PendingIntent>) {
    forall p :: p in ps && (answer(p.coid).NoOrder? || Refuses(answer(p.coid), p)) ==> p.coid !in orders
  }

  /** What `recover` writes, whatever the journal ends in, is a path of recovery steps. */
  lemma {:induction false} RecoverRefines(s: State, answer: string -> LookupAnswer, now: int, n: nat)
    returns (states: seq<State>, events: seq<Event>)
    requires s.journaled && s.jobs == map[] && Readers(Readable(s.disk))
    requires n <= |Pending(Readable(s.disk))| && TruthfulLookup(s.orders, answer, Pending(Readable(s.disk)))
    ensures Path(states, events) && states[0] == s
    ensures states[|events|] == s.(disk := Settle(s.disk, answer, Pending(Readable(s.disk))[..n], now))
    ensures forall i :: 0 <= i < |events| ==> !events[i].WriteAhead?
  {
    var ps := Pending(Readable(s.disk));
    if n == 0 {
      assert ps[..0] == [];
      states, events := [s], [];
    } else {
      states, events := RecoverRefines(s, answer, now, n - 1);
      SettleNext(s.disk, answer, ps, now, n - 1);
      if Answered(answer, ps[n - 1]) {
        states, events := RecoverOneMore(s, answer, now, n - 1, states, events);
      }
    }
  }

  /** The answer about the next intent adds one step to such a path. */
  lemma RecoverOneMore(s: State, answer: string -> LookupAnswer, now: int, n: nat,
                       before: seq<State>, done: seq<Event>)
    returns (states: seq<State>, events: seq<Event>)
    requires s.journaled && s.jobs == map[] && Readers(Readable(s.disk)) && n < |Pending(Readable(s.disk))|
    requires TruthfulLookup(s.orders, answer, Pending(Readable(s.disk)))
    requires Path(before, done) && before[0] == s && before[|done|] == s.(disk := before[|done|].disk)
    requires Answered(answer, Pending(Readable(s.disk))[n])
    requires forall i :: 0 <= i < |done| ==> !done[i].WriteAhead?
    ensures Path(states, events) && states[0] == s
    ensures states[|events|]
         == s.(disk := Appended(before[|done|].disk, OutcomeFor(answer, Pending(Readable(s.disk))[n], now)))
    ensures forall i :: 0 <= i < |events| ==> !events[i].WriteAhead?
  {
    var at, r := before[|done|], OutcomeFor(answer, Pending(Readable(s.disk))[n], now);
    RecoveryWrites(s, answer, now, n, at);
    var after := at.(disk := Appended(at.disk, r));
    Extend(before, done, Event.Recover(r, true), after);
    states, events := before + [after], done + [Event.Recover(r, true)];
  }

  lemma RecoveryWrites(s: State, answer: string -> LookupAnswer, now: int, n: nat, at: State)
    requires s.jobs == map[] && Readers(Readable(s.disk)) && n < |Pending(Readable(s.disk))|
    requires TruthfulLookup(s.orders, answer, Pending(Readable(s.disk)))
    requires at == s.(disk := at.disk) && Answered(answer, Pending(Readable(s.disk))[n])
    ensures RecoveryRecord(at, OutcomeFor(answer, Pending(Readable(s.disk))[n], now))
  {
    var p := Pending(Readable(s.disk))[n];
    PendingIdsNonEmpty(Readable(s.disk));
    AnswerDecides(answer, p, now);
    assert p in Pending(Readable(s.disk));
  }

  /** A recovery that a failing write ended is one too. */
  lemma StoppedRecoveryRefines(s: State, answer: string -> LookupAnswer, now: int, n: nat, d': Disk)
    returns (states: seq<State>, events: seq<Event>)
    requires s.journaled && s.jobs == map[] && Readers(Readable(s.disk))
    requires TruthfulLookup(s.orders, answer, Pending(Readable(s.disk)))
    requires StoppedAt(s.disk, answer, Pending(Readable(s.disk)), now, n, d')
    ensures Path(states, events) && states[0] == s && states[|events|] == s.(disk := d')
    ensures forall i :: 0 <= i < |events| ==> !events[i].WriteAhead?
  {
    var ps := Pending(Readable(s.disk));
    states, events := RecoverRefines(s, answer, now, n);
    var at, r := states[|events|], OutcomeFor(answer, ps[n], now);
    RecoveryWrites(s, answer, now, n, at);
    Extend(states, events, Event.Recover(r, false), at.(disk := d'));
    states, events := states + [at.(disk := d')], events + [Event.Recover(r, false)];
  }

  /** End to end: after any careful run, a restart whose recovery reports "safe to trade" leaves a journal
      in which every order that exists at the broker is recorded as seen by recovery; if it was pending, the broker
      answered with an order, and the record carries that order's status and id. */
  lemma SafeRestart(states: seq<State>, events: seq<Event>, answer: string -> LookupAnswer, now: int,
                    report: RecoveryReport, id: string)
    requires Run(states, events) && Careful(states, events) && states[0].journaled
    requires var s := states[|events|];
             && s.jobs == map[] && s.disk.tail.Clean? && Readers(Readable(s.disk))
             && TruthfulLookup(s.orders, answer, Pending(Readable(s.disk)))
             && ReportOf(report, Readable(s.disk), answer)
    requires report.SafeToTrade() && id in states[|events|].orders
    ensures var s := states[|events|];
            var log := Readable(Settle(s.disk, answer, Pending(Readable(s.disk)), now));
            && Latest(log, id).Some?
            && Latest(log, id).value.phase == Phase.Reconciled && Latest(log, id).value.recovered
            && Has(log, id)
            && (IsPending(Readable(s.disk), id) ==> SeenAs(Latest(log, id).value, answer(id)))
  {
    EveryOrderIsSeen(states, events, answer, now, report, id);
    if IsPending(Readable(states[|events|].disk), id) {
      PendingIsSeen(states[|events|].disk, answer, now, report, id);
    }
  }

  lemma EveryOrderIsSeen(states: seq<State>, events: seq<Event>, answer: string -> LookupAnswer, now: int,
                         report: RecoveryReport, id: string)
    requires Run(states, events) && Careful(states, events) && states[0].journaled
    requires var s := states[|events|];
             && s.jobs == map[] && s.disk.tail.Clean? && Readers(Readable(s.disk))
             && TruthfulLookup(s.orders, answer, Pending(Readable(s.disk)))
             && ReportOf(report, Readable(s.disk), answer)
    requires report.SafeToTrade() && id in states[|events|].orders
    ensures var s := states[|events|];
            var log := Readable(Settle(s.disk, answer, Pending(Readable(s.disk)), now));
            && Latest(log, id).Some?
            && Latest(log, id).value.phase == Phase.Reconciled && Latest(log, id).value.recovered
            && Has(log, id)
  {
    var s := states[|events|];
    var ps := Pending(Readable(s.disk));
    Reachable(states, events, |events|);
    var more, moreEvents := RecoverRefines(s, answer, now, |ps|);
    assert ps[..|ps|] == ps;
    Join(states, events, more, moreEvents);
    var all, allEvents := states + more[1..], events + moreEvents;
    assert all[|allEvents|] == more[|moreEvents|];
    assert all[0] == states[0];
    SafeMeansSettledExactly(s.disk, answer, now, report);
    SafeStart(all, allEvents, |allEvents|, id);
  }

  /** The record of an order the broker showed, or showed in a form that cannot be read. */
  predicate SeenAs(r: IntentRecord, a: LookupAnswer) {
    && (a.Order? || a.UnreadableOrder?)
    && r.brokerStatus == (if a.Order? then a.payload.status else "")
    && r.brokerOrderId == (if a.Order? && a.payload.id != "" then Some(a.payload.id) else None)
  }

  lemma PendingIsSeen(d: Disk, answer: string -> LookupAnswer, now: int, report: RecoveryReport, id: string)
    requires d.tail.Clean? && Readers(Readable(d)) && ReportOf(report, Readable(d), answer) && report.SafeToTrade()
    requires IsPending(Readable(d), id)
    ensures var latest := Latest(Readable(Settle(d, answer, Pending(Readable(d)), now)), id);
            latest.Some? && (latest.value.phase.Reconciled? ==> SeenAs(latest.value, answer(id)))
  {
    PendingExact(Readable(d), 0);
    var p :| p in Pending(Readable(d)) && p.coid == id;
    SafeExactly(Readable(d), answer, report);
    assert !StillOpen(Readable(d), answer, id);
    AnswerOnFile(d, answer, now, p);
  }

  // ---------------------------------------------------------------- the torn tail

  /** The write-ahead is durable exactly when the journal ended in a newline. */
  lemma WriteAheadDurableExactly(s: State, t: nat, cycleId: string, at: int, s': State)
    requires WriteAheadStep(s, t, cycleId, at, true, s')
    requires !Has(Readable(s.disk), s.jobs[t].Id())
    ensures Has(Readable(s'.disk), s.jobs[t].Id()) <==> s.disk.tail.Clean?
  {
    var r := AttemptBy(s.jobs[t], cycleId, at);
    assert r.coid[0] == 's';
    AppendExact(s.disk, r);
    if s.disk.tail.Clean? {
      assert Readable(s'.disk)[|Readable(s.disk)|] == r;
    } else {
      assert forall i :: 0 <= i < |s.disk.lines| ==> s.disk.lines[i] == Readable(s.disk)[i];
    }
  }

  /** A licensed, unused request whose id the journal does not show reaches the write-ahead. */
  lemma ReachUnseen(s: State, t: nat, l: Licence, request: Proposal, book: Book, now: int)
    returns (states: seq<State>, events: seq<Event>)
    requires s.journaled && t !in s.jobs && Licenses(Token(l), s.secret, request, book, now) && l.nonce !in s.used
    requires l in s.minted && Sized(l, request) && !Has(Readable(s.disk), ClientOrderId(l.nonce))
    ensures Path(states, events) && states[0] == s
    ensures states[|events|] == s.(used := s.used + {l.nonce}, jobs := s.jobs[t := Job(l, request, book, now, Unseen)])
  {
    states, events := ReachSizeChecked(s, t, l, request, book, now);
    var s' := Move(states[3], t, Unseen);
    Extend(states, events, Look(t), s');
    states, events := states + [s'], events + [Look(t)];
    assert s'.jobs == s.jobs[t := Job(l, request, book, now, Unseen)];
  }

  /** On a torn tail the write-ahead reports success and the broker accepts an order that the journal does
      not mention, so recovery will never ask about it. */
  lemma SentUnrecorded(s: State, t: nat, cycleId: string, at: int)
    returns (states: seq<State>, events: seq<Event>)
    requires s.journaled && At(s, t, Unseen) && !Has(Readable(s.disk), s.jobs[t].Id()) && !s.disk.tail.Clean?
    ensures Path(states, events) && states[0] == s
    ensures var s' := states[|events|]; var id := s.jobs[t].Id();
            && id in s'.orders && !Has(Readable(s'.disk), id) && !IsPending(Readable(s'.disk), id)
            && |s'.calls| == |s.calls| + 1 && s'.calls[|s.calls|].id == id
            && s'.minted == s.minted && s'.secret == s.secret && s'.journaled
  {
    var j := s.jobs[t];
    var s1 := Move(s, t, Ready).(disk := Appended(s.disk, AttemptBy(j, cycleId, at)));
    var c := Call(j.Id(), j.licence, j.request, j.book, j.verifiedAt, s.epoch, |s1.disk.lines|);
    var s2 := Move(s1, t, Contacted).(calls := s.calls + [c], orders := s.orders + {j.Id()});
    WriteAheadDurableExactly(s, t, cycleId, at, s1);
    LatestIsLast(Readable(s2.disk), j.Id());
    states, events := [s, s1, s2], [WriteAhead(t, cycleId, at, true), Contact(t, true)];
    assert Step(s, events[0], s1) && Step(s1, events[1], s2);
  }

  /** From any reachable state with a torn tail and a submission about to write ahead, an order is sent
      unrecorded; after a crash the same licence sends it again. */
  lemma TornTailForgetsAndRepeats(s: State, t: nat, cycleId: string, at: int)
    returns (states: seq<State>, events: seq<Event>, forgotten: nat)
    requires s.journaled && At(s, t, Unseen) && !s.disk.tail.Clean?
    requires RegistryInv(s) && !Has(Readable(s.disk), s.jobs[t].Id())
    ensures Path(states, events) && states[0] == s && forgotten <= |events|
    ensures var id := s.jobs[t].Id(); var m := states[forgotten]; var calls := states[|events|].calls;
            && id in m.orders && !Has(Readable(m.disk), id) && !IsPending(Readable(m.disk), id)
            && |calls| == |s.calls| + 2 && calls[|s.calls|].id == calls[|s.calls| + 1].id == id
  {
    var j := s.jobs[t];
    assert JobLicensed(s.minted, s.secret, j);
    states, events := SentUnrecorded(s, t, cycleId, at);
    forgotten := |events|;
    var m := states[forgotten];
    var down := m.(used := {}, jobs := map[], epoch := m.epoch + 1);
    Extend(states, events, Crash(None), down);
    states, events := states + [down], events + [Crash(None)];
    var more, moreEvents := ReachUnseen(down, t, j.licence, j.request, j.book, j.verifiedAt);
    Join(states, events, more, moreEvents);
    states, events := states + more[1..], events + moreEvents;
    var up := states[|events|];
    var again := Move(up, t, Ready).(disk := Appended(up.disk, AttemptBy(up.jobs[t], cycleId, at)));
    Extend(states, events, WriteAhead(t, cycleId, at, true), again);
    states, events := states + [again], events + [WriteAhead(t, cycleId, at, true)];
    var k := again.jobs[t];
    var c := Call(k.Id(), k.licence, k.request, k.book, k.verifiedAt, again.epoch, |again.disk.lines|);
    var last := Move(again, t, Contacted).(calls := again.calls + [c]);
    Extend(states, events, Contact(t, false), last);
    states, events := states + [last], events + [Contact(t, false)];
  }

  /** Such a state is reached: one licence's write-ahead fails part-way, and another licence comes next. */
  lemma TornTailIsReachable(secret: int, a: Licence, b: Licence, p: Proposal, q: Proposal, book: Book, now: int)
    returns (states: seq<State>, events: seq<Event>)
    requires Licenses(Token(a), secret, p, book, now) && Licenses(Token(b), secret, q, book, now)
    requires Sized(a, p) && Sized(b, q) && a.nonce != b.nonce
    ensures Run(states, events) && states[0].journaled
    ensures var s := states[|events|];
            At(s, 0, Unseen) && !s.disk.tail.Clean? && !Has(Readable(s.disk), s.jobs[0].Id())
  {
    var s0 := State(true, secret, {}, {}, EMPTY_DISK, [], {}, map[], 0);
    var s1 := s0.(minted := s0.minted + {a});
    var s2 := s1.(minted := s1.minted + {b});
    states, events := [s0, s1, s2], [Mint(a), Mint(b)];
    assert Step(s0, events[0], s1) && Step(s1, events[1], s2);
    var more, moreEvents := ReachUnseen(s2, 0, a, p, book, now);
    Join(states, events, more, moreEvents);
    states, events := states + more[1..], events + moreEvents;
    var s6 := states[|events|];
    var s7 := Leave(s6, 0).(disk := Disk([], Garbage));
    assert Step(s6, WriteAhead(0, "", now, false), s7);
    Extend(states, events, WriteAhead(0, "", now, false), s7);
    states, events := states + [s7], events + [WriteAhead(0, "", now, false)];
    var rest, restEvents := ReachUnseen(s7, 0, b, q, book, now);
    Join(states, events, rest, restEvents);
    states, events := states + rest[1..], events + restEvents;
  }
}
