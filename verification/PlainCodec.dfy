/** A codec that provides everything the journal asks of one: records as braced text over unary numbers. */
module PlainCodec {
  import opened Outcomes
  import opened IntentLog
  import opened JournalLine
  import opened JournalFile

  // ---------------------------------------------------------------- numbers

  function Ones(n: nat): string {
    if n == 0 then "" else "1" + Ones(n - 1)
  }

  function Unary(n: int): string {
    [Sign(n)] + Ones(Size(n)) + ";"
  }

  function Sign(n: int): char {
    if n >= 0 then '+' else '-'
  }

  function Size(n: int): nat {
    if n >= 0 then n else -n
  }

  lemma {:induction false} OnesSplit(m: nat, n: nat, s: string, t: string)
    requires Ones(m) + (";" + s) == Ones(n) + (";" + t)
    ensures m == n && s == t
  {
    var a, b := Ones(m) + (";" + s), Ones(n) + (";" + t);
    assert a[0] == (if m == 0 then ';' else '1') && b[0] == (if n == 0 then ';' else '1');
    if m == 0 {
      assert a[1..] == s && b[1..] == t;
    } else {
      assert a[1..] == Ones(m - 1) + (";" + s) && b[1..] == Ones(n - 1) + (";" + t);
      OnesSplit(m - 1, n - 1, s, t);
    }
  }

  lemma UnaryParts(n: int, s: string)
    ensures Unary(n) + s != "" && (Unary(n) + s)[0] == Sign(n)
    ensures (Unary(n) + s)[1..] == Ones(Size(n)) + (";" + s)
  {
  }

  /** A number is read off the front of a text in one way only. */
  lemma UnarySplit(m: int, n: int, s: string, t: string)
    requires Unary(m) + s == Unary(n) + t
    ensures m == n && s == t
  {
    UnaryParts(m, s);
    UnaryParts(n, t);
    OnesSplit(Size(m), Size(n), s, t);
  }

  function Join(ns: seq<int>): string {
    if ns == [] then "" else Unary(ns[0]) + Join(ns[1..])
  }

  lemma {:induction false} JoinInjective(a: seq<int>, b: seq<int>)
    requires Join(a) == Join(b)
    ensures a == b
  {
    if a != [] {
      UnarySplit(a[0], b[0], Join(a[1..]), Join(b[1..]));
      JoinInjective(a[1..], b[1..]);
    }
  }

  predicate Tame(s: string) {
    forall i :: 0 <= i < |s| ==> s[i] in "+-1;"
  }

  lemma {:induction false} OnesTame(n: nat)
    ensures Tame(Ones(n))
  {
    if n > 0 { OnesTame(n - 1); }
  }

  lemma {:induction false} JoinTame(ns: seq<int>)
    ensures Tame(Join(ns))
  {
    if ns != [] {
      OnesTame(Size(ns[0]));
      assert Tame(Unary(ns[0]));
      JoinTame(ns[1..]);
    }
  }

  // ---------------------------------------------------------------- members as numbers

  function Chars(s: string): seq<int> {
    [|s|] + seq(|s|, i requires 0 <= i < |s| => s[i] as int)
  }

  lemma CharsSplit(s: string, t: string, x: seq<int>, y: seq<int>)
    requires Chars(s) + x == Chars(t) + y
    ensures s == t && x == y
  {
    var a, b := Chars(s) + x, Chars(t) + y;
    assert a[0] == |s| && b[0] == |t|;
    forall i | 0 <= i < |s|
      ensures s[i] == t[i]
    {
      assert a[i + 1] == s[i] as int && b[i + 1] == t[i] as int;
    }
    assert a[|s| + 1..] == x && b[|t| + 1..] == y;
  }

  function Bit(b: bool): int {
    if b then 1 else 0
  }

  function Tag(v: Value): int {
    match v
    case Missing => 0
    case Null => 1
    case Flag(b) => 2 + Bit(b)
    case Number(_) => 4
    case Fraction(_) => 5
    case NonFinite => 6
    case Text(_) => 7
    case Items(_, b) => 8 + Bit(b)
    case Object(_) => 10
  }

  function Load(v: Value): int {
    match v
    case Number(n) => n
    case Fraction(n) => n
    case Items(n, _) => n
    case Object(n) => n
    case _ => 0
  }

  function OfValue(v: Value): seq<int> {
    [Tag(v), Load(v)] + Chars(if v.Text? then v.s else "")
  }

  lemma ValueSplit(v: Value, w: Value, x: seq<int>, y: seq<int>)
    requires OfValue(v) + x == OfValue(w) + y
    ensures v == w && x == y
  {
    var a, b := OfValue(v) + x, OfValue(w) + y;
    var s, t := if v.Text? then v.s else "", if w.Text? then w.s else "";
    assert a[0] == Tag(v) && b[0] == Tag(w) && a[1] == Load(v) && b[1] == Load(w);
    assert a[2..] == Chars(s) + x && b[2..] == Chars(t) + y;
    CharsSplit(s, t, x, y);
  }

  function OfPlain(p: Plainly): seq<int> {
    [Bit(p.recovered), Bit(p.limitPrice.Some?), if p.limitPrice.Some? then p.limitPrice.value else 0,
     Bit(p.brokerOrderId.Some?)]
    + (Chars(p.decisionId) + (Chars(p.cycleId) + (Chars(p.symbol)
       + (Chars(if p.brokerOrderId.Some? then p.brokerOrderId.value else "") + Chars(p.brokerStatus)))))
  }

  lemma PlainInjective(p: Plainly, q: Plainly)
    requires OfPlain(p) == OfPlain(q)
    ensures p == q
  {
    var a, b := OfPlain(p), OfPlain(q);
    assert a[0] == Bit(p.recovered) && b[0] == Bit(q.recovered);
    assert a[1] == Bit(p.limitPrice.Some?) && b[1] == Bit(q.limitPrice.Some?);
    assert a[2] == (if p.limitPrice.Some? then p.limitPrice.value else 0);
    assert b[2] == (if q.limitPrice.Some? then q.limitPrice.value else 0);
    assert a[3] == Bit(p.brokerOrderId.Some?) && b[3] == Bit(q.brokerOrderId.Some?);
    assert a[4..] == b[4..];
    TextsInjective(p, q);
  }

  function Texts(p: Plainly): seq<int> {
    Chars(p.decisionId) + (Chars(p.cycleId) + (Chars(p.symbol)
    + (Chars(if p.brokerOrderId.Some? then p.brokerOrderId.value else "") + Chars(p.brokerStatus))))
  }

  lemma TextsInjective(p: Plainly, q: Plainly)
    requires Texts(p) == Texts(q)
    ensures p.decisionId == q.decisionId && p.cycleId == q.cycleId && p.symbol == q.symbol
    ensures p.brokerStatus == q.brokerStatus
    ensures (if p.brokerOrderId.Some? then p.brokerOrderId.value else "") ==
            (if q.brokerOrderId.Some? then q.brokerOrderId.value else "")
  {
    var i := if p.brokerOrderId.Some? then p.brokerOrderId.value else "";
    var j := if q.brokerOrderId.Some? then q.brokerOrderId.value else "";
    var p4, q4 := Chars(i) + Chars(p.brokerStatus), Chars(j) + Chars(q.brokerStatus);
    var p3, q3 := Chars(p.symbol) + p4, Chars(q.symbol) + q4;
    CharsSplit(p.decisionId, q.decisionId, Chars(p.cycleId) + p3, Chars(q.cycleId) + q3);
    CharsSplit(p.cycleId, q.cycleId, p3, q3);
    CharsSplit(p.symbol, q.symbol, p4, q4);
    CharsSplit(i, j, Chars(p.brokerStatus), Chars(q.brokerStatus));
    assert Chars(p.brokerStatus) + [] == Chars(p.brokerStatus) && Chars(q.brokerStatus) + [] == Chars(q.brokerStatus);
    CharsSplit(p.brokerStatus, q.brokerStatus, [], []);
  }

  function OfFields(f: Fields): seq<int> {
    OfValue(f.coid) + (OfValue(f.phase) + (OfValue(f.at)
    + (OfValue(f.quantity) + (OfValue(f.extra) + OfPlain(f.plain)))))
  }

  lemma FieldsInjective(f: Fields, g: Fields)
    requires OfFields(f) == OfFields(g)
    ensures f == g
  {
    var f4, g4 := OfValue(f.extra) + OfPlain(f.plain), OfValue(g.extra) + OfPlain(g.plain);
    var f3, g3 := OfValue(f.quantity) + f4, OfValue(g.quantity) + g4;
    var f2, g2 := OfValue(f.at) + f3, OfValue(g.at) + g3;
    ValueSplit(f.coid, g.coid, OfValue(f.phase) + f2, OfValue(g.phase) + g2);
    ValueSplit(f.phase, g.phase, f2, g2);
    ValueSplit(f.at, g.at, f3, g3);
    ValueSplit(f.quantity, g.quantity, f4, g4);
    ValueSplit(f.extra, g.extra, OfPlain(f.plain), OfPlain(g.plain));
    PlainInjective(f.plain, g.plain);
  }

  // ---------------------------------------------------------------- lines

  /** One object: its members between braces that occur nowhere else. */
  function Braced(f: Fields): string {
    "{" + Join(OfFields(f)) + "}"
  }

  lemma BracedShape(f: Fields)
    ensures |Braced(f)| >= 2 && Braced(f)[0] == '{' && Braced(f)[|Braced(f)| - 1] == '}'
    ensures forall i :: 0 < i < |Braced(f)| ==> Braced(f)[i] != '{' && Braced(f)[i] != ' '
    ensures forall i :: 0 <= i < |Braced(f)| - 1 ==> Braced(f)[i] != '}'
    ensures '\n' !in Braced(f)
  {
    JoinTame(OfFields(f));
    InBraces(Join(OfFields(f)));
  }

  lemma InBraces(b: string)
    requires Tame(b)
    ensures var w := "{" + b + "}";
            && (forall i :: 0 < i < |w| ==> w[i] != '{' && w[i] != ' ')
            && (forall i :: 0 <= i < |w| - 1 ==> w[i] != '}')
            && '\n' !in w
  {
    var w := "{" + b + "}";
    forall i | 0 < i < |w| - 1
      ensures w[i] in "+-1;"
    {
      assert w[i] == b[i - 1];
    }
  }

  lemma BracedInjective(f: Fields, g: Fields)
    requires Braced(f) == Braced(g)
    ensures f == g
  {
    var a, b := Join(OfFields(f)), Join(OfFields(g));
    assert Braced(f)[1..|Braced(f)| - 1] == a && Braced(g)[1..|Braced(g)| - 1] == b;
    JoinInjective(OfFields(f), OfFields(g));
    FieldsInjective(f, g);
  }

  function Strip(s: string): string {
    if s != "" && s[0] == ' ' then Strip(s[1..]) else s
  }

  lemma {:induction false} StripConcat(t: string, x: string)
    ensures Strip(t) == "" ==> Strip(t + x) == Strip(x)
    ensures Strip(t) != "" ==> Strip(t + x) == Strip(t) + x && Strip(t)[0] != ' '
  {
    if t == "" {
      assert t + x == x;
    } else if t[0] == ' ' {
      assert (t + x)[1..] == t[1..] + x;
      StripConcat(t[1..], x);
    }
  }

  function Ordinal(p: Phase): int {
    match p
    case Attempted => 0
    case Submitted => 1
    case Unknown => 2
    case Rejected => 3
    case Reconciled => 4
    case Abandoned => 5
  }

  function PhaseAt(n: Option<int>): Option<Phase> {
    if n == Some(0) then Some(Attempted)
    else if n == Some(1) then Some(Submitted)
    else if n == Some(2) then Some(Unknown)
    else if n == Some(3) then Some(Rejected)
    else if n == Some(4) then Some(Reconciled)
    else if n == Some(5) then Some(Abandoned)
    else None
  }

  function FieldsOf(r: IntentRecord): Fields {
    Fields(Text(r.coid), Text(NameOf(r.phase)), Text(Unary(r.at)), Number(r.quantity), Object(0),
           Plainly(r.decisionId, r.cycleId, r.symbol, r.limitPrice, r.brokerOrderId, r.brokerStatus, r.recovered))
  }

  function Encode(r: IntentRecord): string {
    Braced(FieldsOf(r))
  }

  predicate IsBraced(w: string, f: Fields) {
    w == Braced(f)
  }

  ghost function Parse(w: string): Parsed {
    if IsObject(w) then
      var f :| IsBraced(w, f);
      Members(f)
    else NotJson
  }

  ghost predicate IsObject(w: string) {
    exists f :: IsBraced(w, f)
  }

  lemma ParseBraced(f: Fields)
    ensures Parse(Braced(f)) == Members(f)
  {
    assert IsBraced(Braced(f), f);
    BracedInjective(f, Parse(Braced(f)).fields);
  }

  lemma StripBraced(f: Fields)
    ensures Strip(Braced(f)) == Braced(f)
  {
    BracedShape(f);
  }

  ghost function NumberOf(s: string): Option<int> {
    if exists n :: s == Unary(n) then
      var n :| s == Unary(n);
      Some(n)
    else None
  }

  lemma NumberOfUnary(n: int)
    ensures NumberOf(Unary(n)) == Some(n)
  {
    var m :| NumberOf(Unary(n)) == Some(m) && Unary(n) == Unary(m);
    assert Unary(n) + "" == Unary(m) + "";
    UnarySplit(n, m, "", "");
  }

  function NameOf(p: Phase): string {
    Unary(Ordinal(p))
  }

  ghost function PhaseNamed(s: string): Option<Phase> {
    PhaseAt(NumberOf(s))
  }

  lemma PhaseRoundTrips(p: Phase)
    ensures PhaseNamed(NameOf(p)) == Some(p)
  {
    NumberOfUnary(Ordinal(p));
    assert PhaseAt(Some(Ordinal(p))) == Some(p);
  }

  ghost function Plain(): Codec {
    Codec(r => Encode(r), line => Parse(Strip(line)), s => Strip(s) == "", v => "?",
          s => PhaseNamed(s), s => NumberOf(s), s => NumberOf(s))
  }

  lemma MembersRoundTrip(r: IntentRecord)
    ensures Plain().FromMembers(FieldsOf(r)) == Plain().Decoded(r)
  {
    NumberOfUnary(r.at);
    PhaseRoundTrips(r.phase);
    var c := Plain();
    assert c.phaseOf(NameOf(r.phase)) == Some(r.phase) && c.timeOf(Unary(r.at)) == Some(r.at);
    TextMembers(c, FieldsOf(r), r.coid, r.phase, r.at, r.quantity);
  }

  lemma DecSkips(w: string)
    requires Strip(w) == "" || !IsObject(Strip(w))
    ensures Plain().Dec(w) == Skipped
  {
  }

  /** No part of an object is an object. */
  lemma PrefixIsNotJson(f: Fields, k: nat)
    requires 0 < k < |Braced(f)|
    ensures !IsObject(Strip(Braced(f)[..k]))
  {
    BracedShape(f);
    var p := Braced(f)[..k];
    assert Strip(p) == p;
    forall g
      ensures !IsBraced(p, g)
    {
      BracedShape(g);
      assert forall i :: 0 <= i < k ==> p[i] != '}';
      assert '}' in Braced(g);
    }
  }

  /** Nor is text with an object, or a part of one, behind it. */
  lemma GlueIsNotJson(t: string, p: string)
    requires Strip(t) != "" && p != "" && p[0] == '{'
    ensures Strip(t + p) != "" && !IsObject(Strip(t + p))
  {
    StripConcat(t, p);
    forall g
      ensures !IsBraced(Strip(t) + p, g)
    {
      BracedShape(g);
      assert (Strip(t) + p)[|Strip(t)|] == '{';
    }
  }

  lemma AllRoundTrip()
    ensures forall r :: Plain().RoundTrips(r)
  {
    forall r
      ensures Plain().RoundTrips(r)
    {
      ReadsBraced(FieldsOf(r));
      BracedShape(FieldsOf(r));
      MembersRoundTrip(r);
    }
  }

  lemma PlainPrefixUnreadable(r: IntentRecord, k: nat)
    ensures Plain().PrefixUnreadable(r, k)
  {
    if 0 < k < |Encode(r)| {
      PrefixIsNotJson(FieldsOf(r), k);
      DecSkips(Encode(r)[..k]);
    } else if k == 0 {
      DecSkips(Encode(r)[..0]);
    }
  }

  lemma PlainGlueUnreadable(t: string, r: IntentRecord, k: nat)
    ensures Plain().GlueUnreadable(t, r, k)
  {
    if 0 < k <= |Encode(r)| {
      var p := Encode(r)[..k];
      BracedShape(FieldsOf(r));
      StripConcat(t, p);
      if Strip(t) != "" {
        GlueIsNotJson(t, p);
        DecSkips(t + p);
      }
    }
  }

  lemma AllUnreadable()
    ensures forall r, k :: Plain().PrefixUnreadable(r, k)
    ensures forall t, r, k :: Plain().GlueUnreadable(t, r, k)
  {
    forall r, k ensures Plain().PrefixUnreadable(r, k) { PlainPrefixUnreadable(r, k); }
    forall t, r, k ensures Plain().GlueUnreadable(t, r, k) { PlainGlueUnreadable(t, r, k); }
  }

  lemma AllBlanksStripped()
    ensures forall t, x :: Plain().BlankIsStripped(t, x)
  {
    forall t, x
      ensures Plain().BlankIsStripped(t, x)
    {
      StripConcat(t, x);
      if Strip(t) == "" {
        assert Plain().parse(t + x) == Plain().parse(x);
      }
    }
  }

  /** Everything the journal asks of its codec can be had. */
  lemma PlainIsValid()
    ensures Plain().Valid()
  {
    AllRoundTrip();
    AllBlanksStripped();
    AllUnreadable();
  }

  /** The attempt with the quantity "abc", and the attempt whose extra is the number five. */
  function BadQuantity(coid: string, at: int): Fields {
    Fields(Text(coid), Text(NameOf(Attempted)), Text(Unary(at)), Text("abc"), Object(0),
           Plainly("", "", "", None, None, "", false))
  }

  function BadExtra(coid: string, at: int): Fields {
    BadQuantity(coid, at).(quantity := Number(1), extra := Number(5))
  }

  lemma NoNumber(s: string)
    requires s != "" && s[0] != '+' && s[0] != '-'
    ensures NumberOf(s) == None
  {
    forall n ensures s != Unary(n) { UnaryParts(n, ""); }
  }

  /** Both lines carry a usable id, phase and time and raise. */
  lemma BadLinesRaise(coid: string, at: int)
    requires coid != ""
    ensures Plain().Dec(Braced(BadQuantity(coid, at))) == Raises && '\n' !in Braced(BadQuantity(coid, at))
    ensures Plain().Dec(Braced(BadExtra(coid, at))) == Raises && '\n' !in Braced(BadExtra(coid, at))
  {
    NumberOfUnary(at);
    NoNumber("abc");
    PhaseRoundTrips(Attempted);
    UnconvertibleRaises(Plain(), BadQuantity(coid, at), coid, NameOf(Attempted), Unary(at));
    UnconvertibleRaises(Plain(), BadExtra(coid, at), coid, NameOf(Attempted), Unary(at));
    ReadsBraced(BadQuantity(coid, at));
    ReadsBraced(BadExtra(coid, at));
  }

  lemma ReadsBraced(f: Fields)
    ensures Plain().Dec(Braced(f)) == Plain().FromMembers(f) && '\n' !in Braced(f)
  {
    StripBraced(f);
    ParseBraced(f);
    BracedShape(f);
  }

  /** A journal whose first line is such an object: the attempt behind it is on the file and no reader gets there,
      so recovery never hears of it. */
  lemma BadQuantityHidesAnAttempt(coid: string, at: int, r: IntentRecord)
    requires coid != "" && r.coid != "" && r.phase == Attempted
    ensures var f := Braced(BadQuantity(coid, at)) + "\n" + Line(Plain(), r);
            && Readable(Scan(Plain(), f)) == [r] && IsPending(Readable(Scan(Plain(), f)), r.coid)
            && Yielded(Plain(), f) == [] && !Sound(Plain(), f)
  {
    PlainIsValid();
    BadLinesRaise(coid, at);
    RaisingFirstLine(Plain(), Braced(BadQuantity(coid, at)), r);
  }
}
