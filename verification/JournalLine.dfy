/** One line of the journal: the JSON object behind a record, what a reader makes of it, and what the
    text encoding has to provide. */
module JournalLine {
  import opened Outcomes
  import opened IntentLog

  /** A JSON value, as far as a reader looks into it. `Fraction` is a number that is not whole and keeps its
      whole part; `pairs` says whether every element of a list is one that `dict` accepts. */
  datatype Value =
    | Missing
    | Null
    | Flag(on: bool)
    | Number(n: int)
    | Fraction(n: int)
    | NonFinite
    | Text(s: string)
    | Items(size: nat, pairs: bool)
    | Object(size: nat)
  {
    predicate Falsy() {
      Missing? || Null? || this == Flag(false) || this == Number(0) || this == Text("")
      || (Items? && size == 0) || this == Object(0)
    }
  }

  /** The members a reader takes as they are. */
  datatype Plainly = Plainly(
    decisionId: string,
    cycleId: string,
    symbol: string,
    limitPrice: Option<int>,
    brokerOrderId: Option<string>,
    brokerStatus: string,
    recovered: bool)

  /** The members of one object that a reader converts, and the others. */
  datatype Fields = Fields(coid: Value, phase: Value, at: Value, quantity: Value, extra: Value, plain: Plainly)

  datatype Parsed = NotJson | NotAnObject | Members(fields: Fields)

  /** What comes of one line: a record, nothing, or an exception out of the reader. */
  datatype Reading = Got(record: IntentRecord) | Skipped | Raises

  /** `enc` is one serialised record without its newline; `parse` strips a line and parses it; `blank` says the
      stripped text is empty. `show`, `phaseOf`, `timeOf` and `intOf` are the language's own conversions: of a
      value that is not text to text, and of text to a phase, a time and a number. */
  datatype Codec = Codec(
    enc: IntentRecord -> string,
    parse: string -> Parsed,
    blank: string -> bool,
    show: Value -> string,
    phaseOf: string -> Option<Phase>,
    timeOf: string -> Option<int>,
    intOf: string -> Option<int>)
  {
    function Str(v: Value): string {
      if v.Text? then v.s else show(v)
    }

    /** `int(value or 0)`; `None` is the exception. */
    function IntOf(v: Value): Option<int> {
      if v.Falsy() then Some(0)
      else match v
        case Flag(_) => Some(1)
        case Number(n) => Some(n)
        case Fraction(n) => Some(n)
        case Text(s) => intOf(s)
        case _ => None
    }

    /** `dict(value or {})` succeeds. */
    predicate DictOf(v: Value) {
      v.Falsy() || v.Object? || (v.Items? && v.pairs)
    }

    /** The id, phase and time a record cannot do without. */
    predicate Usable(f: Fields) {
      && !f.coid.Missing? && !f.phase.Missing? && !f.at.Missing?
      && phaseOf(Str(f.phase)).Some? && timeOf(Str(f.at)).Some? && Str(f.coid) != ""
    }

    /** `from_mapping`: only the first three conversions are guarded. */
    function FromMembers(f: Fields): Reading {
      if f.coid.Missing? || f.phase.Missing? || f.at.Missing? then Skipped
      else
        var phase, at := phaseOf(Str(f.phase)), timeOf(Str(f.at));
        if phase.None? || at.None? || Str(f.coid) == "" then Skipped
        else if IntOf(f.quantity).None? || !DictOf(f.extra) then Raises
        else Got(IntentRecord(Str(f.coid), phase.value, at.value, f.plain.decisionId, f.plain.cycleId, f.plain.symbol,
                              IntOf(f.quantity).value, f.plain.limitPrice, f.plain.brokerOrderId,
                              f.plain.brokerStatus, f.plain.recovered))
    }

    /** Everything a reader does with one line. */
    function Dec(line: string): Reading {
      if blank(line) then Skipped
      else match parse(line)
        case NotJson => Skipped
        case NotAnObject => Skipped
        case Members(f) => FromMembers(f)
    }

    function Decoded(r: IntentRecord): Reading {
      if r.coid == "" then Skipped else Got(r)
    }

    /** No newline inside, and reading back what was written. */
    predicate RoundTrips(r: IntentRecord) {
      enc(r) != "" && '\n' !in enc(r) && Dec(enc(r)) == Decoded(r)
    }

    predicate PrefixUnreadable(r: IntentRecord, k: nat) {
      k < |enc(r)| ==> Dec(enc(r)[..k]) == Skipped
    }

    /** Blank text in front of a line is stripped. */
    predicate BlankIsStripped(t: string, x: string) {
      blank(t) ==> Dec(t) == Skipped && Dec(t + x) == Dec(x)
    }

    /** Nothing parses once an object, or a part of one, is glued onto other text. */
    predicate GlueUnreadable(t: string, r: IntentRecord, k: nat) {
      0 < k <= |enc(r)| ==> !blank(t + enc(r)[..k]) && (!blank(t) ==> Dec(t + enc(r)[..k]) == Skipped)
    }

    /** What one-line JSON objects provide. */
    ghost predicate Valid() {
      && blank("")
      && (forall r :: RoundTrips(r))
      && (forall r, k :: PrefixUnreadable(r, k))
      && (forall t, x :: BlankIsStripped(t, x))
      && (forall t, r, k :: GlueUnreadable(t, r, k))
    }
  }

  /** The object a writer makes is read back. */
  lemma TextMembers(c: Codec, f: Fields, coid: string, phase: Phase, at: int, n: int)
    requires f.coid == Text(coid) && f.phase.Text? && f.at.Text? && f.quantity == Number(n) && f.extra.Object?
    requires c.phaseOf(f.phase.s) == Some(phase) && c.timeOf(f.at.s) == Some(at)
    ensures c.FromMembers(f) ==
            if coid == "" then Skipped
            else Got(IntentRecord(coid, phase, at, f.plain.decisionId, f.plain.cycleId, f.plain.symbol, n,
                                  f.plain.limitPrice, f.plain.brokerOrderId, f.plain.brokerStatus, f.plain.recovered))
  {
  }

  /** A quantity that is text but no number, or an extra that is a number, is enough. */
  lemma UnconvertibleRaises(c: Codec, f: Fields, coid: string, phase: string, at: string)
    requires f.coid == Text(coid) && f.phase == Text(phase) && f.at == Text(at) && coid != ""
    requires c.phaseOf(phase).Some? && c.timeOf(at).Some?
    requires (f.quantity.Text? && f.quantity.s != "" && c.intOf(f.quantity.s).None?)
             || (f.extra.Number? && f.extra.n != 0)
    ensures c.FromMembers(f) == Raises
  {
  }

  /** A line raises exactly when it is an object with a usable id, phase and time whose quantity or extra does
      not convert; a record always has an id. */
  lemma RaisesExactly(c: Codec, line: string)
    ensures c.Dec(line).Raises? <==>
            && !c.blank(line) && c.parse(line).Members? && c.Usable(c.parse(line).fields)
            && (c.IntOf(c.parse(line).fields.quantity).None? || !c.DictOf(c.parse(line).fields.extra))
    ensures c.Dec(line).Got? ==> c.Dec(line).record.coid != ""
  {
  }

  /** Which quantities do not convert: a number beyond every bound, text that is no number, and any list or object
      that is not empty. */
  lemma QuantityFailsExactly(c: Codec, v: Value)
    ensures c.IntOf(v).None? <==>
            v.NonFinite? || (v.Text? && v.s != "" && c.intOf(v.s).None?) || (v.Items? && v.size > 0)
            || (v.Object? && v.size > 0)
  {
  }
}
