/** The execution intent journal seen as a sequence of records: which record is the latest
    for an id, which ids are still pending, and what a file whose last line may be torn holds. */
module IntentLog {
  import opened Outcomes

  datatype Phase = Attempted | Submitted | Unknown | Rejected | Reconciled | Abandoned

  /** Phases after which no broker action is pending. */
  predicate Resolved(p: Phase) {
    p.Rejected? || p.Reconciled? || p.Abandoned?
  }

  /** One line of the log. `recovered` is the marker recovery stores in `extra`; the price is kept in millionths. */
  datatype IntentRecord = IntentRecord(
    coid: string,
    phase: Phase,
    at: int,
    decisionId: string,
    cycleId: string,
    symbol: string,
    quantity: int,
    limitPrice: Option<int>,
    brokerOrderId: Option<string>,
    brokerStatus: string,
    recovered: bool)

  datatype PendingIntent = PendingIntent(coid: string, latest: IntentRecord, firstAttemptAt: int)

  // ---------------------------------------------------------------- reading a log

  predicate Has(log: seq<IntentRecord>, c: string) {
    exists i :: 0 <= i < |log| && log[i].coid == c
  }

  /** The last record written for `c`; the latest outcome wins. */
  function Latest(log: seq<IntentRecord>, c: string): Option<IntentRecord> {
    if log == [] then None
    else if log[|log| - 1].coid == c then Some(log[|log| - 1])
    else Latest(log[..|log| - 1], c)
  }

  function First(log: seq<IntentRecord>, c: string): Option<IntentRecord> {
    if log == [] then None
    else
      var earlier := First(log[..|log| - 1], c);
      if earlier.Some? then earlier
      else if log[|log| - 1].coid == c then Some(log[|log| - 1])
      else None
  }

  predicate IsPending(log: seq<IntentRecord>, c: string) {
    Latest(log, c).Some? && !Resolved(Latest(log, c).value.phase)
  }

  lemma {:induction false} LatestIsLast(log: seq<IntentRecord>, c: string)
    ensures Latest(log, c).Some? <==> Has(log, c)
    ensures Latest(log, c).Some? ==>
              exists i :: 0 <= i < |log| && log[i] == Latest(log, c).value && log[i].coid == c
                          && forall j :: i < j < |log| ==> log[j].coid != c
  {
    if log != [] {
      var init := log[..|log| - 1];
      LatestIsLast(init, c);
      if log[|log| - 1].coid != c && Latest(init, c).Some? {
        var i :| 0 <= i < |init| && init[i] == Latest(init, c).value && init[i].coid == c
                 && forall j :: i < j < |init| ==> init[j].coid != c;
        assert log[i] == init[i];
        assert forall j :: i < j < |log| ==> log[j].coid != c;
      } else if log[|log| - 1].coid != c {
        assert forall i :: 0 <= i < |log| - 1 ==> log[i] == init[i];
      }
    }
  }

  lemma LatestAppend(log: seq<IntentRecord>, r: IntentRecord, c: string)
    ensures Latest(log + [r], c) == if r.coid == c then Some(r) else Latest(log, c)
  {
    assert (log + [r])[..|log|] == log;
  }

  lemma {:induction false} FirstIsFirst(log: seq<IntentRecord>, c: string)
    ensures First(log, c).Some? <==> Has(log, c)
    ensures First(log, c).Some? ==>
              exists i :: 0 <= i < |log| && log[i] == First(log, c).value && log[i].coid == c
                          && forall j :: 0 <= j < i ==> log[j].coid != c
  {
    if log != [] {
      var init := log[..|log| - 1];
      FirstIsFirst(init, c);
      assert forall i :: 0 <= i < |log| - 1 ==> log[i] == init[i];
      if First(init, c).Some? {
        var i :| 0 <= i < |init| && init[i] == First(init, c).value && init[i].coid == c
                 && forall j :: 0 <= j < i ==> init[j].coid != c;
        assert log[i] == init[i];
      } else if log[|log| - 1].coid == c {
        assert forall j :: 0 <= j < |log| - 1 ==> log[j].coid != c;
      }
    }
  }

  // ---------------------------------------------------------------- the pending list

  /** Ids in the order they first appear: the insertion order of the `latest` dictionary. */
  function Order(log: seq<IntentRecord>): seq<string> {
    if log == [] then []
    else
      var earlier := Order(log[..|log| - 1]);
      if log[|log| - 1].coid in earlier then earlier else earlier + [log[|log| - 1].coid]
  }

  lemma {:induction false} OrderExact(log: seq<IntentRecord>)
    ensures forall c :: c in Order(log) <==> Has(log, c)
    ensures forall i, j :: 0 <= i < j < |Order(log)| ==> Order(log)[i] != Order(log)[j]
  {
    if log != [] {
      var init := log[..|log| - 1];
      OrderExact(init);
      forall c
        ensures c in Order(log) <==> Has(log, c)
      {
        assert c in Order(log) <==> c in Order(init) || c == log[|log| - 1].coid;
        assert Has(log, c) <==> Has(init, c) || c == log[|log| - 1].coid by {
          assert forall i :: 0 <= i < |init| ==> init[i] == log[i];
          if Has(log, c) {
            var i :| 0 <= i < |log| && log[i].coid == c;
            if i < |init| { assert init[i].coid == c; }
          }
        }
      }
    }
  }

  function IntentOf(log: seq<IntentRecord>, c: string): PendingIntent
    requires Has(log, c)
  {
    LatestIsLast(log, c);
    FirstIsFirst(log, c);
    PendingIntent(c, Latest(log, c).value, First(log, c).value.at)
  }

  /** The unresolved ids among `ids`, in that order. */
  function Unresolved(log: seq<IntentRecord>, ids: seq<string>): (out: seq<PendingIntent>)
    requires forall c :: c in ids ==> Has(log, c)
    ensures forall p :: p in out ==> p.coid in ids && p == IntentOf(log, p.coid) && IsPending(log, p.coid)
    ensures forall c :: c in ids && IsPending(log, c) ==> IntentOf(log, c) in out
  {
    if ids == [] then []
    else
      var rest := Unresolved(log, ids[..|ids| - 1]);
      var c := ids[|ids| - 1];
      if IsPending(log, c) then rest + [IntentOf(log, c)] else rest
  }

  /** Stable insertion by first-attempt time. */
  function Insert(p: PendingIntent, sorted: seq<PendingIntent>): seq<PendingIntent> {
    if sorted == [] || sorted[|sorted| - 1].firstAttemptAt <= p.firstAttemptAt then sorted + [p]
    else Insert(p, sorted[..|sorted| - 1]) + [sorted[|sorted| - 1]]
  }

  function SortByFirst(ps: seq<PendingIntent>): seq<PendingIntent> {
    if ps == [] then [] else Insert(ps[|ps| - 1], SortByFirst(ps[..|ps| - 1]))
  }

  ghost predicate OldestFirst(ps: seq<PendingIntent>) {
    forall i, j :: 0 <= i < j < |ps| ==> ps[i].firstAttemptAt <= ps[j].firstAttemptAt
  }

  /** The elements with one given first-attempt time, in order: what stability preserves. */
  ghost function AtTime(ps: seq<PendingIntent>, t: int): seq<PendingIntent> {
    if ps == [] then []
    else AtTime(ps[..|ps| - 1], t) + (if ps[|ps| - 1].firstAttemptAt == t then [ps[|ps| - 1]] else [])
  }

  lemma {:induction false} InsertPermutes(p: PendingIntent, ps: seq<PendingIntent>)
    ensures multiset(Insert(p, ps)) == multiset(ps) + multiset{p}
  {
    if ps != [] && ps[|ps| - 1].firstAttemptAt > p.firstAttemptAt {
      assert ps == ps[..|ps| - 1] + [ps[|ps| - 1]];
      InsertPermutes(p, ps[..|ps| - 1]);
    }
  }

  lemma {:induction false} InsertSorts(p: PendingIntent, ps: seq<PendingIntent>)
    requires OldestFirst(ps)
    ensures OldestFirst(Insert(p, ps))
  {
    if ps != [] && ps[|ps| - 1].firstAttemptAt > p.firstAttemptAt {
      var init, last := ps[..|ps| - 1], ps[|ps| - 1];
      InsertSorts(p, init);
      InsertPermutes(p, init);
      var rest := Insert(p, init);
      forall i | 0 <= i < |rest|
        ensures rest[i].firstAttemptAt <= last.firstAttemptAt
      {
        assert rest[i] in multiset(rest);
        assert rest[i] == p || rest[i] in init;
      }
    }
  }

  lemma AtTimeSnoc(ps: seq<PendingIntent>, p: PendingIntent, t: int)
    ensures AtTime(ps + [p], t) == AtTime(ps, t) + (if p.firstAttemptAt == t then [p] else [])
  {
    assert (ps + [p])[..|ps|] == ps;
  }

  /** Insertion moves a new entry past strictly later ones only. */
  lemma {:induction false} InsertIsStable(p: PendingIntent, ps: seq<PendingIntent>, t: int)
    ensures AtTime(Insert(p, ps), t) == AtTime(ps, t) + (if p.firstAttemptAt == t then [p] else [])
  {
    if ps == [] || ps[|ps| - 1].firstAttemptAt <= p.firstAttemptAt {
      AtTimeSnoc(ps, p, t);
    } else {
      var init, last := ps[..|ps| - 1], ps[|ps| - 1];
      InsertIsStable(p, init, t);
      AtTimeSnoc(Insert(p, init), last, t);
    }
  }

  lemma {:induction false} SortExact(ps: seq<PendingIntent>, t: int)
    ensures OldestFirst(SortByFirst(ps))
    ensures multiset(SortByFirst(ps)) == multiset(ps)
    ensures AtTime(SortByFirst(ps), t) == AtTime(ps, t)
  {
    if ps != [] {
      var init := ps[..|ps| - 1];
      assert ps == init + [ps[|ps| - 1]];
      SortExact(init, t);
      InsertSorts(ps[|ps| - 1], SortByFirst(init));
      InsertPermutes(ps[|ps| - 1], SortByFirst(init));
      InsertIsStable(ps[|ps| - 1], SortByFirst(init), t);
    }
  }

  /** The unresolved intents in order of first appearance. */
  function ByAppearance(log: seq<IntentRecord>): seq<PendingIntent> {
    OrderExact(log);
    Unresolved(log, Order(log))
  }

  /** What recovery must settle, oldest first. */
  function Pending(log: seq<IntentRecord>): seq<PendingIntent> {
    SortByFirst(ByAppearance(log))
  }

  ghost predicate DistinctIds(ps: seq<PendingIntent>) {
    forall i, j :: 0 <= i < j < |ps| ==> ps[i].coid != ps[j].coid
  }

  lemma {:induction false} UnresolvedDistinct(log: seq<IntentRecord>, ids: seq<string>)
    requires forall c :: c in ids ==> Has(log, c)
    requires forall i, j :: 0 <= i < j < |ids| ==> ids[i] != ids[j]
    ensures DistinctIds(Unresolved(log, ids))
  {
    if ids != [] {
      var rest := Unresolved(log, ids[..|ids| - 1]);
      UnresolvedDistinct(log, ids[..|ids| - 1]);
      assert forall i :: 0 <= i < |rest| ==> rest[i] in rest;
    }
  }

  lemma {:induction false} InsertKeepsDistinct(p: PendingIntent, ps: seq<PendingIntent>)
    requires DistinctIds(ps) && forall q :: q in ps ==> q.coid != p.coid
    ensures DistinctIds(Insert(p, ps))
    ensures forall q :: q in Insert(p, ps) <==> q == p || q in ps
  {
    if ps != [] && ps[|ps| - 1].firstAttemptAt > p.firstAttemptAt {
      var init, last := ps[..|ps| - 1], ps[|ps| - 1];
      assert ps == init + [last];
      InsertKeepsDistinct(p, init);
      var rest := Insert(p, init);
      forall i | 0 <= i < |rest|
        ensures rest[i].coid != last.coid
      {
        assert rest[i] in rest;
        if rest[i] != p { assert rest[i] in init; }
      }
    }
  }

  lemma {:induction false} SortKeepsDistinct(ps: seq<PendingIntent>)
    requires DistinctIds(ps)
    ensures DistinctIds(SortByFirst(ps))
    ensures forall q :: q in SortByFirst(ps) <==> q in ps
  {
    if ps != [] {
      var init := ps[..|ps| - 1];
      assert ps == init + [ps[|ps| - 1]];
      SortKeepsDistinct(init);
      InsertKeepsDistinct(ps[|ps| - 1], SortByFirst(init));
    }
  }

  /** `Pending` lists exactly the unresolved ids, each once, oldest first; equal times keep the
      order in which the ids first appeared. */
  lemma PendingExact(log: seq<IntentRecord>, t: int)
    ensures forall c :: IsPending(log, c) <==> exists p :: p in Pending(log) && p.coid == c
    ensures forall p :: p in Pending(log) ==> Has(log, p.coid) && p == IntentOf(log, p.coid)
    ensures DistinctIds(Pending(log))
    ensures OldestFirst(Pending(log))
    ensures AtTime(Pending(log), t) == AtTime(ByAppearance(log), t)
  {
    OrderExact(log);
    UnresolvedDistinct(log, Order(log));
    SortKeepsDistinct(ByAppearance(log));
    SortExact(ByAppearance(log), t);
    forall c | IsPending(log, c)
      ensures exists p :: p in Pending(log) && p.coid == c
    {
      LatestIsLast(log, c);
      assert IntentOf(log, c) in Pending(log);
    }
  }

  // ---------------------------------------------------------------- the file behind the log

  /** What follows the last newline: nothing, unreadable text, or one whole record. */
  datatype Tail = Clean | Garbage | Whole(r: IntentRecord)

  /** The readable complete lines of a journal file, and its tail. */
  datatype Disk = Disk(lines: seq<IntentRecord>, tail: Tail)

  const EMPTY_DISK := Disk([], Clean)

  function Readable(d: Disk): seq<IntentRecord> {
    d.lines + (if d.tail.Whole? then [d.tail.r] else [])
  }

  /** One whole line appended. A line glued onto a torn tail makes both unreadable. */
  function Appended(d: Disk, r: IntentRecord): Disk {
    Disk(if d.tail.Clean? && r.coid != "" then d.lines + [r] else d.lines, Clean)
  }

  /** Some prefix of the line for `r` reached the file before the write stopped. */
  predicate TornBy(d: Disk, r: IntentRecord, d': Disk) {
    || d' == d
    || d' == Appended(d, r)
    || d' == Disk(d.lines, Garbage)
    || (d.tail.Clean? && r.coid != "" && d' == Disk(d.lines, Whole(r)))
  }

  /** A completed append is readable exactly when the file ended in a newline; otherwise the new
      record, and any whole record waiting in the tail, are lost. */
  lemma AppendExact(d: Disk, r: IntentRecord)
    requires r.coid != ""
    ensures Readable(Appended(d, r)) == Readable(d) + [r] <==> d.tail.Clean?
    ensures !d.tail.Clean? ==> Readable(Appended(d, r)) == d.lines
    ensures Appended(d, r).tail.Clean?
  {
    if d.tail.Clean? {
      assert Readable(d) == d.lines;
    } else {
      assert |Readable(d) + [r]| > |d.lines|;
    }
  }
}
