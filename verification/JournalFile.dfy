/** The journal as the characters of a file: what a reader of the lines sees after whole, torn and
    glued writes, where reading stops, and the class that appends to the file. */
module JournalFile {
  import opened Outcomes
  import opened IntentLog
  import opened JournalLine

  // ---------------------------------------------------------------- a file as lines

  /** The texts between newlines; the last one is what follows the last newline. */
  function Lines(f: string): (ls: seq<string>)
    ensures |ls| >= 1
  {
    if f == "" then [""]
    else
      var ls, ch := Lines(f[..|f| - 1]), f[|f| - 1];
      if ch == '\n' then ls + [""] else ls[..|ls| - 1] + [ls[|ls| - 1] + [ch]]
  }

  function Complete(f: string): seq<string> {
    Lines(f)[..|Lines(f)| - 1]
  }

  function LastText(f: string): string {
    Lines(f)[|Lines(f)| - 1]
  }

  /** Text without a newline extends the last line. */
  lemma {:induction false} LinesExtend(f: string, x: string)
    requires '\n' !in x
    ensures Lines(f + x) == Complete(f) + [LastText(f) + x]
  {
    if x == "" {
      assert f + x == f && LastText(f) + x == LastText(f);
    } else {
      var n := |x| - 1;
      assert f + x == (f + x[..n]) + [x[n]] && (f + x)[..|f + x| - 1] == f + x[..n];
      LinesExtend(f, x[..n]);
      assert (LastText(f) + x[..n]) + [x[n]] == LastText(f) + x;
    }
  }

  /** A newline closes the last line. */
  lemma LinesClose(f: string)
    ensures Lines(f + "\n") == Lines(f) + [""]
  {
    assert (f + "\n")[..|f|] == f;
  }

  predicate Terminated(f: string) {
    f == "" || f[|f| - 1] == '\n'
  }

  lemma TerminatedLast(f: string)
    requires Terminated(f)
    ensures LastText(f) == ""
  {
    if f != "" {
      assert Lines(f) == Lines(f[..|f| - 1]) + [""];
    }
  }

  /** Behind a terminated file the lines of what follows are lines of the whole. */
  lemma {:induction false} LinesConcat(f: string, y: string)
    requires Terminated(f)
    ensures Lines(f + y) == Complete(f) + Lines(y)
  {
    TerminatedLast(f);
    if y == "" {
      assert f + y == f;
    } else {
      var n := |y| - 1;
      assert (f + y)[..|f + y| - 1] == f + y[..n] && (f + y)[|f + y| - 1] == y[n];
      LinesConcat(f, y[..n]);
      ConcatSnoc(Complete(f), Lines(y[..n]), y[n]);
    }
  }

  lemma ConcatSnoc(a: seq<string>, b: seq<string>, ch: char)
    requires b != []
    ensures (a + b)[..|a + b| - 1] + [(a + b)[|a + b| - 1] + [ch]] == a + (b[..|b| - 1] + [b[|b| - 1] + [ch]])
    ensures (a + b) + [""] == a + (b + [""])
  {
  }

  /** One line in front of other text. */
  lemma LineThenRest(x: string, y: string)
    requires '\n' !in x
    ensures Lines(x + "\n" + y) == [x] + Lines(y)
  {
    assert "" + x == x && Complete("") == [] && LastText("") == "";
    LinesExtend("", x);
    LinesClose(x);
    LinesConcat(x + "\n", y);
    assert Complete(x + "\n") == [x];
  }

  // ---------------------------------------------------------------- what the lines hold

  function LineRecords(c: Codec, line: string): seq<IntentRecord> {
    if c.Dec(line).Got? then [c.Dec(line).record] else []
  }

  function RecordsOf(c: Codec, ls: seq<string>): seq<IntentRecord> {
    if ls == [] then [] else RecordsOf(c, ls[..|ls| - 1]) + LineRecords(c, ls[|ls| - 1])
  }

  lemma {:induction false} RecordsConcat(c: Codec, a: seq<string>, b: seq<string>)
    ensures RecordsOf(c, a + b) == RecordsOf(c, a) + RecordsOf(c, b)
  {
    if b == [] {
      assert a + b == a;
    } else {
      var n := |b| - 1;
      assert (a + b)[..|a + b| - 1] == a + b[..n];
      RecordsConcat(c, a, b[..n]);
      Assoc(RecordsOf(c, a), RecordsOf(c, b[..n]), LineRecords(c, b[n]));
    }
  }

  lemma RecordsStep(c: Codec, ls: seq<string>, i: nat)
    requires i < |ls|
    ensures RecordsOf(c, ls[..i + 1]) == RecordsOf(c, ls[..i]) + LineRecords(c, ls[i])
  {
    TakeSnoc(ls, i);
  }

  lemma RecordsOfOne(c: Codec, line: string)
    ensures RecordsOf(c, [line]) == LineRecords(c, line)
  {
    assert [line][..0] == [];
  }

  function TailOf(c: Codec, t: string): Tail {
    if c.blank(t) then Clean else if c.Dec(t).Got? then Whole(c.Dec(t).record) else Garbage
  }

  /** The records of the complete lines of `f`, and its tail. */
  function Scan(c: Codec, f: string): Disk {
    Disk(RecordsOf(c, Complete(f)), TailOf(c, LastText(f)))
  }

  /** The text after the last newline is read like any other line. */
  lemma ReadableIsAllLines(c: Codec, f: string)
    ensures Readable(Scan(c, f)) == RecordsOf(c, Lines(f))
  {
    TailRecords(c, LastText(f));
    ReadableParts(Scan(c, f));
    RecordsConcat(c, Complete(f), [LastText(f)]);
    RecordsOfOne(c, LastText(f));
    assert Lines(f) == Complete(f) + [LastText(f)];
  }

  lemma ReadableParts(d: Disk)
    ensures Readable(d) == d.lines + Readable(Disk([], d.tail))
  {
  }

  lemma TailRecords(c: Codec, t: string)
    ensures Readable(Disk([], TailOf(c, t))) == LineRecords(c, t)
  {
  }

  lemma ScanExtend(c: Codec, f: string, x: string)
    requires '\n' !in x
    ensures Scan(c, f + x) == Disk(Scan(c, f).lines, TailOf(c, LastText(f) + x))
  {
    LinesExtend(f, x);
    assert Complete(f + x) == Complete(f);
  }

  /** A terminated line closes the tail: the text before it and the line are read as one. */
  lemma ScanClose(c: Codec, f: string, x: string)
    requires '\n' !in x && c.blank("")
    ensures Scan(c, f + x + "\n") == Disk(Scan(c, f).lines + LineRecords(c, LastText(f) + x), Clean)
  {
    LinesExtend(f, x);
    LinesClose(f + x);
    assert Complete(f + x + "\n") == Complete(f) + [LastText(f) + x];
  }

  // ---------------------------------------------------------------- where reading stops

  /** The number of lines before the first that raises. */
  function BeforeRaise(c: Codec, ls: seq<string>): (n: nat)
    ensures n <= |ls|
    ensures forall i :: 0 <= i < n ==> !c.Dec(ls[i]).Raises?
    ensures n < |ls| ==> c.Dec(ls[n]).Raises?
  {
    if ls == [] || c.Dec(ls[0]).Raises? then 0 else 1 + BeforeRaise(c, ls[1..])
  }

  /** What a reader yields before it ends or raises. */
  function Yielded(c: Codec, f: string): seq<IntentRecord> {
    RecordsOf(c, Lines(f)[..BeforeRaise(c, Lines(f))])
  }

  predicate AnyRaises(c: Codec, ls: seq<string>) {
    exists i :: 0 <= i < |ls| && c.Dec(ls[i]).Raises?
  }

  predicate Sound(c: Codec, f: string) {
    !AnyRaises(c, Lines(f))
  }

  lemma YieldedIsPrefix(c: Codec, f: string)
    ensures Yielded(c, f) <= Readable(Scan(c, f))
    ensures Sound(c, f) <==> BeforeRaise(c, Lines(f)) == |Lines(f)|
    ensures Sound(c, f) ==> Yielded(c, f) == Readable(Scan(c, f))
  {
    SoundExactly(c, Lines(f));
    PrefixRecords(c, Lines(f), BeforeRaise(c, Lines(f)));
    ReadableIsAllLines(c, f);
    assert Lines(f)[..|Lines(f)|] == Lines(f);
  }

  lemma SoundExactly(c: Codec, ls: seq<string>)
    ensures !AnyRaises(c, ls) <==> BeforeRaise(c, ls) == |ls|
  {
  }

  lemma PrefixRecords(c: Codec, ls: seq<string>, n: nat)
    requires n <= |ls|
    ensures RecordsOf(c, ls[..n]) <= RecordsOf(c, ls)
  {
    assert ls == ls[..n] + ls[n..];
    RecordsConcat(c, ls[..n], ls[n..]);
  }

  /** An object with a usable id, phase and time whose quantity or extra does not convert. */
  predicate Unconvertible(c: Codec, line: string) {
    && !c.blank(line) && c.parse(line).Members?
    && var m := c.parse(line).fields;
       c.Usable(m) && (c.IntOf(m.quantity).None? || !c.DictOf(m.extra))
  }

  /** For every file: reading reaches the end and has seen every record exactly when no line is unconvertible. */
  lemma ReaderSeesEverything(c: Codec, f: string)
    ensures BeforeRaise(c, Lines(f)) == |Lines(f)| && Yielded(c, f) == Readable(Scan(c, f)) <==>
            forall i :: 0 <= i < |Lines(f)| ==> !Unconvertible(c, Lines(f)[i])
  {
    YieldedIsPrefix(c, f);
    forall i | 0 <= i < |Lines(f)|
      ensures c.Dec(Lines(f)[i]).Raises? <==> Unconvertible(c, Lines(f)[i])
    {
      RaisesExactly(c, Lines(f)[i]);
    }
  }

  /** One unconvertible line hides everything after it, whatever that is. */
  lemma RaisingLineHidesTheRest(c: Codec, f: string, bad: string, g: string)
    requires Terminated(f) && Sound(c, f) && '\n' !in bad && c.Dec(bad).Raises? && c.Dec("").Skipped?
    ensures Yielded(c, f + (bad + "\n" + g)) == Readable(Scan(c, f))
    ensures !Sound(c, f + (bad + "\n" + g))
  {
    var ls, n := Lines(f + (bad + "\n" + g)), |Complete(f)|;
    LinesConcat(f, bad + "\n" + g);
    LineThenRest(bad, g);
    TerminatedLast(f);
    assert ls[n] == bad && ls[..n] == Complete(f);
    forall i | 0 <= i < n
      ensures !c.Dec(ls[i]).Raises?
    {
      assert ls[i] == Lines(f)[i];
    }
    assert BeforeRaise(c, ls) == n;
  }

  /** A line that does not parse, or is no record, never hides the lines after it. */
  lemma UnreadableLineHidesNothing(c: Codec, f: string, bad: string, g: string)
    requires Terminated(f) && '\n' !in bad && c.Dec(bad).Skipped? && c.Dec("").Skipped?
    ensures Readable(Scan(c, f + (bad + "\n" + g))) == Readable(Scan(c, f)) + Readable(Scan(c, g))
    ensures Sound(c, f + (bad + "\n" + g)) <==> Sound(c, f) && Sound(c, g)
  {
    var whole, a := f + (bad + "\n" + g), Complete(f);
    LinesAround(f, bad, g);
    ReadableIsAllLines(c, whole);
    ReadableIsAllLines(c, f);
    ReadableIsAllLines(c, g);
    SkippedRecords(c, a, bad, Lines(g), Lines(whole), Lines(f));
    SkippedRaises(c, a, bad, Lines(g), Lines(whole), Lines(f));
  }

  /** Such a line in front of an attempt: the attempt is on the file, pending, and never yielded. */
  lemma RaisingFirstLine(c: Codec, bad: string, r: IntentRecord)
    requires c.Valid() && '\n' !in bad && c.Dec(bad).Raises? && r.coid != "" && r.phase == Attempted
    ensures var f := bad + "\n" + Line(c, r);
            && Readable(Scan(c, f)) == [r] && IsPending(Readable(Scan(c, f)), r.coid)
            && Yielded(c, f) == [] && !Sound(c, f)
  {
    assert c.BlankIsStripped("", "");
    RaisingLineHidesTheRest(c, "", bad, Line(c, r));
    assert "" + (bad + "\n" + Line(c, r)) == bad + "\n" + Line(c, r);
    BehindOneLine(c, bad, r);
    assert [r][..0] == [];
  }

  lemma BehindOneLine(c: Codec, bad: string, r: IntentRecord)
    requires c.Valid() && r.coid != "" && '\n' !in bad && !c.Dec(bad).Got?
    ensures Readable(Scan(c, bad + "\n" + Line(c, r))) == [r]
  {
    var x := c.enc(r);
    assert c.RoundTrips(r) && c.BlankIsStripped("", "");
    LineThenRest(bad, x + "\n");
    LineThenRest(x, "");
    assert x + "\n" + "" == x + "\n";
    ReadableIsAllLines(c, bad + "\n" + Line(c, r));
    RecordsConcat(c, [bad], [x] + [""]);
    RecordsConcat(c, [x], [""]);
    RecordsOfOne(c, bad);
    RecordsOfOne(c, x);
    RecordsOfOne(c, "");
  }

  lemma SkippedRecords(c: Codec, a: seq<string>, bad: string, b: seq<string>, whole: seq<string>, front: seq<string>)
    requires c.Dec(bad).Skipped? && c.Dec("").Skipped?
    requires whole == a + ([bad] + b) && front == a + ([""] + [])
    ensures RecordsOf(c, whole) == RecordsOf(c, front) + RecordsOf(c, b)
  {
    SkippedBetween(c, a, bad, b);
    SkippedBetween(c, a, "", []);
  }

  lemma SkippedRaises(c: Codec, a: seq<string>, bad: string, b: seq<string>, whole: seq<string>, front: seq<string>)
    requires c.Dec(bad).Skipped? && c.Dec("").Skipped?
    requires whole == a + ([bad] + b) && front == a + ([""] + [])
    ensures AnyRaises(c, whole) <==> AnyRaises(c, front) || AnyRaises(c, b)
  {
    RaisesBetween(c, a, bad, b);
    RaisesBetween(c, a, "", []);
  }

  lemma LinesAround(f: string, bad: string, g: string)
    requires Terminated(f) && '\n' !in bad
    ensures Lines(f + (bad + "\n" + g)) == Complete(f) + ([bad] + Lines(g))
    ensures Lines(f) == Complete(f) + ([""] + [])
  {
    LinesConcat(f, bad + "\n" + g);
    LineThenRest(bad, g);
    TerminatedLast(f);
    assert Lines(f) == Complete(f) + [LastText(f)];
  }

  lemma SkippedBetween(c: Codec, a: seq<string>, bad: string, b: seq<string>)
    requires c.Dec(bad).Skipped?
    ensures RecordsOf(c, a + ([bad] + b)) == RecordsOf(c, a) + RecordsOf(c, b)
  {
    RecordsConcat(c, a, [bad] + b);
    RecordsConcat(c, [bad], b);
    RecordsOfOne(c, bad);
  }

  lemma RaisesBetween(c: Codec, a: seq<string>, bad: string, b: seq<string>)
    requires !c.Dec(bad).Raises?
    ensures AnyRaises(c, a + ([bad] + b)) <==> AnyRaises(c, a) || AnyRaises(c, b)
  {
    var all := a + ([bad] + b);
    if AnyRaises(c, a) {
      var i :| 0 <= i < |a| && c.Dec(a[i]).Raises?;
      assert all[i] == a[i];
    }
    if AnyRaises(c, b) {
      var i :| 0 <= i < |b| && c.Dec(b[i]).Raises?;
      assert all[|a| + 1 + i] == b[i];
    }
  }

  // ---------------------------------------------------------------- whole, torn and glued writes

  function Line(c: Codec, r: IntentRecord): string {
    c.enc(r) + "\n"
  }

  /** Appending a whole line does to the file what `Appended` does to the disk. */
  lemma WholeLine(c: Codec, f: string, r: IntentRecord)
    requires c.Valid()
    ensures Scan(c, f + Line(c, r)) == Appended(Scan(c, f), r)
  {
    var x, t := c.enc(r), LastText(f);
    assert c.RoundTrips(r) && c.BlankIsStripped(t, x) && c.GlueUnreadable(t, r, |x|);
    assert x == x[..|x|];
    ScanClose(c, f, x);
    assert f + Line(c, r) == f + x + "\n";
  }

  /** Every prefix of a line that may survive a crash leaves the file in a state `TornBy` allows. */
  lemma TornLine(c: Codec, f: string, r: IntentRecord, k: nat)
    requires c.Valid() && k <= |Line(c, r)|
    ensures TornBy(Scan(c, f), r, Scan(c, f + Line(c, r)[..k]))
  {
    var x, t := c.enc(r), LastText(f);
    if k == |Line(c, r)| {
      assert Line(c, r)[..k] == Line(c, r);
      WholeLine(c, f, r);
    } else if k == 0 {
      assert f + Line(c, r)[..0] == f;
    } else {
      assert Line(c, r)[..k] == x[..k];
      assert c.RoundTrips(r) && '\n' !in x[..k];
      ScanExtend(c, f, x[..k]);
      assert c.PrefixUnreadable(r, k) && c.BlankIsStripped(t, x[..k]) && c.GlueUnreadable(t, r, k);
      if k == |x| {
        assert x[..k] == x;
      }
    }
  }

  /** Torn-write safety for a file that ends in a newline: after any prefix of one appended line, a
      reader sees the old records or the old records and the new one, nothing else. */
  lemma TornWriteIsSafe(c: Codec, f: string, r: IntentRecord, k: nat)
    requires c.Valid() && k <= |Line(c, r)| && Terminated(f) && Sound(c, f)
    ensures Sound(c, f + Line(c, r)[..k])
    ensures var after := Yielded(c, f + Line(c, r)[..k]);
            after == Yielded(c, f) || (r.coid != "" && after == Yielded(c, f) + [r])
  {
    TornLine(c, f, r, k);
    TerminatedLast(f);
    TornOnClean(Scan(c, f), r, Scan(c, f + Line(c, r)[..k]));
    OwnWritesNeverRaise(c, f, r, k);
    YieldedIsPrefix(c, f);
    YieldedIsPrefix(c, f + Line(c, r)[..k]);
  }

  lemma TornOnClean(d: Disk, r: IntentRecord, d': Disk)
    requires d.tail.Clean? && TornBy(d, r, d')
    ensures Readable(d') == Readable(d) || (r.coid != "" && Readable(d') == Readable(d) + [r])
  {
  }

  /** No write of the journal's own, whole, torn or glued onto a torn tail, leaves a line that raises. */
  lemma OwnWritesNeverRaise(c: Codec, f: string, r: IntentRecord, k: nat)
    requires c.Valid() && k <= |Line(c, r)| && Sound(c, f)
    ensures Sound(c, f + Line(c, r)[..k])
  {
    var x, p := c.enc(r), Line(c, r)[..k];
    var n := if k <= |x| then k else |x|;
    assert c.RoundTrips(r) && '\n' !in x[..n];
    LinesExtend(f, x[..n]);
    LastStaysQuiet(c, f, r, n);
    var ls := Complete(f) + [LastText(f) + x[..n]];
    forall i | 0 <= i < |ls|
      ensures !c.Dec(ls[i]).Raises?
    {
      assert i < |Complete(f)| ==> ls[i] == Lines(f)[i];
    }
    if k <= |x| {
      assert p == x[..n];
    } else {
      assert p == x[..n] + "\n" && f + p == f + x[..n] + "\n";
      LinesClose(f + x[..n]);
      assert c.BlankIsStripped("", "");
    }
  }

  lemma LastStaysQuiet(c: Codec, f: string, r: IntentRecord, n: nat)
    requires c.Valid() && Sound(c, f) && n <= |c.enc(r)|
    ensures !c.Dec(LastText(f) + c.enc(r)[..n]).Raises?
  {
    var t, p := LastText(f), c.enc(r)[..n];
    assert c.RoundTrips(r) && c.PrefixUnreadable(r, n) && c.BlankIsStripped(t, p) && c.GlueUnreadable(t, r, n);
    assert n == |c.enc(r)| ==> p == c.enc(r);
    assert n == 0 ==> t + p == t;
  }

  /** Every record a reader yields carries an id. */
  lemma {:induction false} RecordsHaveIds(c: Codec, ls: seq<string>)
    ensures forall i :: 0 <= i < |RecordsOf(c, ls)| ==> RecordsOf(c, ls)[i].coid != ""
  {
    if ls != [] {
      RecordsHaveIds(c, ls[..|ls| - 1]);
      RaisesExactly(c, ls[|ls| - 1]);
    }
  }

  // ---------------------------------------------------------------- the journal

  /** How one write ended: complete, or an error after some characters of the line reached the file. */
  datatype WriteFault = NoFault | FailsAfter(written: nat)

  /** The answer to "is this id in the log"; reading may raise before the id is met. */
  datatype Search = Found | NotFound | SearchRaised

  function SearchIn(yielded: seq<IntentRecord>, sound: bool, c: string): Search {
    if Has(yielded, c) then Found else if sound then Search.NotFound else SearchRaised
  }

  function Find(m: map<string, IntentRecord>, c: string): Option<IntentRecord> {
    if c in m then Some(m[c]) else None
  }

  class IntentJournal {
    const codec: Codec
    var file: string

    constructor (codec: Codec, existing: string)
      requires codec.Valid()
      ensures this.codec == codec && file == existing && Valid()
    {
      this.codec := codec;
      file := existing;
    }

    ghost predicate Valid() {
      codec.Valid()
    }

    ghost function Contents(): Disk
      reads this
    {
      Scan(codec, file)
    }

    /** The readable records, in write order. */
    ghost function Log(): seq<IntentRecord>
      reads this
    {
      Readable(Contents())
    }

    /** What a reader yields, and whether it gets to the end. */
    ghost function Seen(): seq<IntentRecord>
      reads this
    {
      Yielded(codec, file)
    }

    ghost predicate Quiet()
      reads this
    {
      Sound(codec, file)
    }

    method Append(r: IntentRecord, fault: WriteFault) returns (ok: bool)
      requires Valid()
      modifies this`file
      ensures ok <==> fault.NoFault?
      ensures ok ==> Contents() == Appended(old(Contents()), r)
      ensures TornBy(old(Contents()), r, Contents())
      ensures old(file) <= file
      ensures old(Quiet()) ==> Quiet() && Seen() == Log()
    {
      var line := Line(codec, r);
      var k := |line|;
      match fault {
        case NoFault =>
        case FailsAfter(written) => if written < k { k := written; }
      }
      TornLine(codec, file, r, k);
      WholeLine(codec, file, r);
      assert line[..|line|] == line;
      if Quiet() { OwnWritesNeverRaise(codec, file, r, k); }
      file := file + line[..k];
      YieldedIsPrefix(codec, file);
      ok := fault.NoFault?;
    }

    /** The lines of the file, character by character. */
    method SplitLines() returns (ls: seq<string>)
      ensures ls == Lines(file)
    {
      ls := [""];
      for i := 0 to |file|
        invariant ls == Lines(file[..i])
      {
        TakeSnoc(file, i);
        if file[i] == '\n' {
          ls := ls + [""];
        } else {
          ls := ls[..|ls| - 1] + [ls[|ls| - 1] + [file[i]]];
        }
      }
      assert file[..|file|] == file;
    }

    /** Line by line through the file: lines that do not parse are skipped, and the first unconvertible one raises. */
    method IterRecords() returns (out: seq<IntentRecord>, raised: bool)
      requires Valid()
      ensures out == Seen() && (raised <==> !Quiet())
      ensures out <= Log() && (!raised ==> out == Log())
    {
      var ls := SplitLines();
      out, raised := [], false;
      ghost var n := BeforeRaise(codec, ls);
      var i := 0;
      while i < |ls|
        invariant 0 <= i <= n && out == RecordsOf(codec, ls[..i])
      {
        RecordsStep(codec, ls, i);
        var reading := codec.Dec(ls[i]);
        if reading.Raises? {
          raised := true;
          break;
        }
        out := out + LineRecords(codec, ls[i]);
        i := i + 1;
      }
      assert i == n && (raised <==> n < |ls|);
      YieldedIsPrefix(codec, file);
    }

    method LatestPhase(c: string) returns (phase: Option<Phase>, raised: bool)
      requires Valid()
      ensures raised <==> !Quiet()
      ensures !raised ==> phase == if Latest(Log(), c).Some? then Some(Latest(Log(), c).value.phase) else None
    {
      var records;
      records, raised := IterRecords();
      var latest: Option<IntentRecord> := None;
      for i := 0 to |records|
        invariant latest == Latest(records[..i], c)
      {
        TakeSnoc(records, i);
        if records[i].coid == c {
          latest := Some(records[i]);
        }
      }
      assert records[..|records|] == records;
      phase := if latest.Some? then Some(latest.value.phase) else None;
    }

    /** Stops at the first record with the id, so an unconvertible line after it does no harm. */
    method HasAttempt(c: string) returns (r: Search)
      requires Valid()
      ensures r == SearchIn(Seen(), Quiet(), c)
      ensures Quiet() ==> (r.Found? <==> Has(Log(), c)) && !r.SearchRaised?
    {
      var records, raised := IterRecords();
      for i := 0 to |records|
        invariant forall j :: 0 <= j < i ==> records[j].coid != c
      {
        if records[i].coid == c {
          return Found;
        }
      }
      r := if raised then SearchRaised else Search.NotFound;
    }

    /** One pass keeps, per id, its first and latest record in dictionaries (`order` is their insertion
        order); the unresolved ones are then sorted by first attempt. `None` when reading raised. */
    method PendingList() returns (result: Option<seq<PendingIntent>>)
      requires Valid()
      ensures result == if Quiet() then Some(Pending(Log())) else None
    {
      var records, raised := IterRecords();
      if raised {
        return None;
      }
      var order, first, latest := Gather(records);
      OrderExact(records);
      var out: seq<PendingIntent> := [];
      for i := 0 to |order|
        invariant out == Unresolved(records, order[..i])
      {
        TakeSnoc(order, i);
        var c := order[i];
        assert c in order;
        LatestIsLast(records, c);
        FirstIsFirst(records, c);
        if !Resolved(latest[c].phase) {
          out := out + [PendingIntent(c, latest[c], first[c].at)];
        }
      }
      assert order[..|order|] == order;
      result := Some(SortByFirst(out));
    }

    /** The dictionaries: per id its first and its latest record, in order of first appearance. */
    method Gather(records: seq<IntentRecord>)
      returns (order: seq<string>, first: map<string, IntentRecord>, latest: map<string, IntentRecord>)
      ensures order == Order(records)
      ensures first.Keys == latest.Keys && forall c :: c in order <==> c in latest
      ensures forall c :: Find(latest, c) == Latest(records, c) && Find(first, c) == First(records, c)
    {
      order, first, latest := [], map[], map[];
      for i := 0 to |records|
        invariant order == Order(records[..i])
        invariant first.Keys == latest.Keys && forall c :: c in order <==> c in latest
        invariant forall c :: Find(latest, c) == Latest(records[..i], c)
        invariant forall c :: Find(first, c) == First(records[..i], c)
      {
        var r := records[i];
        TakeSnoc(records, i);
        if r.coid !in first {
          first := first[r.coid := r];
          order := order + [r.coid];
        }
        latest := latest[r.coid := r];
      }
      assert records[..|records|] == records;
    }

    /** Written before the broker is contacted; an empty id is refused. */
    method RecordAttempt(c: string, decisionId: string, cycleId: string, symbol: string, quantity: int,
                         limitPrice: Option<int>, at: int, fault: WriteFault) returns (ok: bool)
      requires Valid()
      modifies this`file
      ensures ok <==> c != "" && fault.NoFault?
      ensures c == "" ==> file == old(file)
      ensures ok ==> Contents() == Appended(old(Contents()),
                                            AttemptRecord(c, decisionId, cycleId, symbol, quantity, limitPrice, at))
      ensures TornBy(old(Contents()), AttemptRecord(c, decisionId, cycleId, symbol, quantity, limitPrice, at),
                     Contents())
      ensures old(file) <= file
      ensures old(Quiet()) ==> Quiet() && Seen() == Log()
    {
      YieldedIsPrefix(codec, file);
      if c == "" {
        return false;
      }
      ok := Append(AttemptRecord(c, decisionId, cycleId, symbol, quantity, limitPrice, at), fault);
    }

    /** Appends what was established; the attempt line is never edited. */
    method RecordOutcome(c: string, phase: Phase, brokerOrderId: Option<string>, brokerStatus: string,
                         at: int, recovered: bool, fault: WriteFault) returns (ok: bool)
      requires Valid()
      modifies this`file
      ensures ok <==> fault.NoFault?
      ensures ok ==> Contents() == Appended(old(Contents()),
                                            OutcomeRecord(c, phase, brokerOrderId, brokerStatus, at, recovered))
      ensures TornBy(old(Contents()), OutcomeRecord(c, phase, brokerOrderId, brokerStatus, at, recovered), Contents())
      ensures old(file) <= file
      ensures old(Quiet()) ==> Quiet() && Seen() == Log()
    {
      ok := Append(OutcomeRecord(c, phase, brokerOrderId, brokerStatus, at, recovered), fault);
    }
  }

  function AttemptRecord(c: string, decisionId: string, cycleId: string, symbol: string, quantity: int,
                         limitPrice: Option<int>, at: int): IntentRecord {
    IntentRecord(c, Attempted, at, decisionId, cycleId, symbol, quantity, limitPrice, None, "", false)
  }

  /** An outcome line carries neither symbol nor quantity. */
  function OutcomeRecord(c: string, phase: Phase, brokerOrderId: Option<string>, brokerStatus: string,
                         at: int, recovered: bool): IntentRecord {
    IntentRecord(c, phase, at, "", "", "", 0, None, brokerOrderId, brokerStatus, recovered)
  }
}
