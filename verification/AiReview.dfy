/** The adversarial review as far as the decision cycle is concerned: which replies veto, which change nothing, and
    which raise out of the review. */
module AiReview {
  import opened Outcomes

  datatype Verdict = Confirm | Abstain | VetoTrade

  /** The confidence of a reply: a whole number as JSON writes it, any other number, or something else. */
  datatype Confidence = NotANumber | Whole(n: int) | Fraction(x: real) | NonFinite

  /** A provider that fails, text that is no JSON object, or an object; an unknown verdict is `None`. */
  datatype Reply = ProviderFailed | NotAnObject | Answer(verdict: Option<Verdict>, confidence: Confidence)

  datatype Opinion = Abstained | Said(verdict: Verdict) | Raised

  /** No review, a review that leaves the trade alone, one that cancels it, and one that raises. */
  datatype Review = NoReview | NoVeto | Veto | Raises

  function Pow(b: nat, e: nat): nat {
    if e == 0 then 1 else b * Pow(b, e - 1)
  }

  /** The least whole number that is too large for a double: it would round to two to the 1024th. */
  ghost predicate Overflows(n: int) {
    var size := if n >= 0 then n else -n;
    size + Pow(2, 970) >= Pow(2, 1024)
  }

  /** A known verdict with a whole confidence beyond every double: converting it raises an error nobody catches. */
  ghost predicate TooLarge(reply: Reply) {
    reply.Answer? && reply.verdict.Some? && reply.confidence.Whole? && Overflows(reply.confidence.n)
  }

  /** A known verdict with a confidence from zero to one. */
  predicate WellFormed(reply: Reply) {
    && reply.Answer? && reply.verdict.Some?
    && match reply.confidence
       case Whole(n) => n == 0 || n == 1
       case Fraction(x) => 0.0 <= x <= 1.0
       case _ => false
  }

  lemma SmallDoesNotOverflow(n: int)
    requires n == 0 || n == 1
    ensures !Overflows(n)
  {
    PowGrows(2, 970, 1024);
    PowStep(2, 971);
    PowGrows(2, 971, 1024);
    PowStep(2, 970);
    PowPositive(2, 970);
    PowGrows(2, 1, 970);
    assert Pow(2, 1) == 2 * Pow(2, 0);
  }

  lemma PowStep(b: nat, e: nat)
    requires e > 0
    ensures Pow(b, e) == b * Pow(b, e - 1)
  {
  }

  lemma {:induction false} PowPositive(b: nat, e: nat)
    requires b > 0
    ensures Pow(b, e) > 0
  {
    if e > 0 {
      PowPositive(b, e - 1);
      MulPositive(b, Pow(b, e - 1));
    }
  }

  lemma MulPositive(a: nat, b: nat)
    requires a > 0 && b > 0
    ensures a * b >= b && a * b > 0
  {
    MulMonotone(1, a, b);
  }

  lemma MulMonotone(a: nat, b: nat, n: nat)
    requires a <= b
    ensures a * n <= b * n
  {
  }

  lemma {:induction false} PowGrows(b: nat, e: nat, f: nat)
    requires b > 0 && e <= f
    ensures Pow(b, e) <= Pow(b, f)
    decreases f
  {
    if e < f {
      PowGrows(b, e, f - 1);
      PowPositive(b, f - 1);
      MulPositive(b, Pow(b, f - 1));
    }
  }

  lemma {:induction false} PowBase(a: nat, b: nat, e: nat)
    requires a <= b
    ensures Pow(a, e) <= Pow(b, e)
  {
    if e > 0 {
      PowBase(a, b, e - 1);
      MulMonotone(a, b, Pow(a, e - 1));
      MulMonotone(Pow(a, e - 1), Pow(b, e - 1), b);
    }
  }

  lemma {:induction false} PowOfEight(e: nat)
    ensures Pow(8, e) == Pow(2, 3 * e)
  {
    if e > 0 {
      PowOfEight(e - 1);
      PowStep(2, 3 * e);
      PowStep(2, 3 * e - 1);
      PowStep(2, 3 * e - 2);
    }
  }

  /** A one with four hundred zeros. */
  lemma FourHundredZerosOverflow(e: nat)
    requires e == 400
    ensures Overflows(Pow(10, e))
  {
    PowBase(8, 10, e);
    PowOfEight(e);
    PowGrows(2, 1024, 3 * e);
  }

  /** One question to one agent: failures of the provider and malformed replies abstain; the conversion of the
      confidence is not guarded. */
  method Ask(reply: Reply) returns (o: Opinion)
    ensures o.Raised? <==> TooLarge(reply)
    ensures o.Said? <==> WellFormed(reply)
    ensures o.Said? ==> o.verdict == reply.verdict.value
  {
    match reply
    case ProviderFailed => return Abstained;
    case NotAnObject => return Abstained;
    case Answer(verdict, confidence) =>
      if verdict.None? { return Abstained; }
      match confidence
      case NotANumber => return Abstained;
      case NonFinite => return Abstained;
      case Fraction(x) =>
        o := if 0.0 <= x <= 1.0 then Said(verdict.value) else Abstained;
      case Whole(n) =>
        if n == 0 || n == 1 { SmallDoesNotOverflow(n); }
        var converts := Converts(n);
        if !converts { return Raised; }
        o := if 0 <= n <= 1 then Said(verdict.value) else Abstained;
  }

  method Converts(n: int) returns (ok: bool)
    ensures ok <==> !Overflows(n)
  {
    var size := if n >= 0 then n else -n;
    ok := size + Pow(2, 970) < Pow(2, 1024);
  }

  /** Bull and bear first when there is a debate, then the judge, whose veto is the only effect. It raises exactly
      when one of the replies it asks for does, and vetoes exactly on a well-formed veto of the judge. */
  method Debate(debate: bool, bull: Reply, bear: Reply, judge: Reply) returns (r: Review)
    ensures IsReview(r, debate, bull, bear, judge)
  {
    if debate {
      var b := Ask(bull);
      if b.Raised? { return Raises; }
      var c := Ask(bear);
      if c.Raised? { return Raises; }
    }
    var j := Ask(judge);
    match j
    case Raised => r := Raises;
    case Abstained => r := NoVeto;
    case Said(v) => r := if v == VetoTrade then Veto else NoVeto;
  }

  ghost predicate IsReview(r: Review, debate: bool, bull: Reply, bear: Reply, judge: Reply) {
    && !r.NoReview?
    && (r.Raises? <==> TooLarge(judge) || (debate && (TooLarge(bull) || TooLarge(bear))))
    && (r.Veto? <==> !r.Raises? && WellFormed(judge) && judge.verdict == Some(VetoTrade))
  }

  /** A veto with such a confidence does not veto: it raises. */
  lemma HugeConfidenceRaises(r: Review, debate: bool, bull: Reply, bear: Reply, e: nat)
    requires e == 400 && IsReview(r, debate, bull, bear, Answer(Some(VetoTrade), Whole(Pow(10, e))))
    ensures r == Raises
  {
    FourHundredZerosOverflow(e);
  }
}
