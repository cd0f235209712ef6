/** Single-use execution licences: minted for one proposal against one book, signed, and burned by
    the first verification that gets past every other check. Hashes and signatures are ideal: a
    digest is its payload and a signature is the secret with the signed fields. */
module Authorization {
  import opened Outcomes

  datatype PositionIntent = BuyToOpen | SellToClose

  /** `OptionOrderRequest.to_proposal`: every field that changes the economics of the order. The
      limit price is in millionths. */
  datatype Proposal = Proposal(
    symbol: string,
    quantity: int,
    intent: PositionIntent,
    orderType: string,
    limitPrice: Option<int>,
    timeInForce: string)

  datatype Holding = Holding(symbol: string, quantity: real, side: string)

  /** The book an approval is computed against. */
  datatype Book = Book(balance: real, positions: seq<Holding>, pausedSymbols: seq<string>)

  datatype Digest = OfProposal(proposal: Proposal) | OfBook(book: Book)

  datatype Signature = Signature(
    secret: int, decisionId: string, snapshotId: string, proposalHash: Digest,
    portfolioHash: Digest, approvedQuantity: int, expiresAt: int, nonce: string)

  datatype Licence = Licence(
    decisionId: string,
    snapshotId: string,
    proposalHash: Digest,
    portfolioHash: Digest,
    approvedQuantity: int,
    expiresAt: int,
    nonce: string,
    signature: Signature)

  function Sign(secret: int, l: Licence): Signature {
    Signature(secret, l.decisionId, l.snapshotId, l.proposalHash, l.portfolioHash,
              l.approvedQuantity, l.expiresAt, l.nonce)
  }

  /** Whatever a caller passes as its authorization. */
  datatype Candidate = Absent | Foreign | Token(licence: Licence)

  datatype Verdict = Verified | Forged | Expired | ProposalMismatch | PortfolioMismatch | Replayed

  /** Mints a licence, or refuses a non-positive quantity or lifetime. */
  function Authorize(secret: int, nonce: string, decisionId: string, snapshotId: string, proposal: Proposal,
                     book: Book, quantity: int, ttl: int, now: int): (r: Option<Licence>)
    ensures r.Some? <==> quantity > 0 && ttl > 0
    ensures r.Some? ==> r.value.signature == Sign(secret, r.value) && r.value.approvedQuantity == quantity
  {
    if quantity <= 0 || ttl <= 0 then None
    else
      var unsigned := Licence(decisionId, snapshotId, OfProposal(proposal), OfBook(book), quantity, now + ttl, nonce,
                              Signature(0, "", "", OfProposal(proposal), OfBook(book), 0, 0, ""));
      Some(unsigned.(signature := Sign(secret, unsigned)))
  }

  /** The checks before the nonce is burned, in the order they are made. */
  function Precheck(auth: Candidate, secret: int, proposal: Proposal, book: Book, now: int): Verdict {
    if !auth.Token? then Forged
    else
      var l := auth.licence;
      if Sign(secret, l) != l.signature then Forged
      else if now >= l.expiresAt then Expired
      else if OfProposal(proposal) != l.proposalHash then ProposalMismatch
      else if OfBook(book) != l.portfolioHash then PortfolioMismatch
      else Verified
  }

  class AuthorizationRegistry {
    var used: set<string>

    constructor ()
      ensures used == {}
    {
      used := {};
    }

    /** Burns the nonce, or reports that it was burned before. */
    method Consume(nonce: string) returns (unused: bool)
      modifies this
      ensures unused <==> nonce !in old(used)
      ensures used == old(used) + {nonce}
    {
      if nonce in used {
        unused := false;
      } else {
        used := used + {nonce};
        unused := true;
      }
    }

    /** Verifies and burns. Any other outcome leaves every licence as usable as it was. */
    method Verify(auth: Candidate, secret: int, proposal: Proposal, book: Book, now: int, consume: bool)
      returns (v: Verdict)
      modifies this
      ensures Precheck(auth, secret, proposal, book, now) != Verified ==>
                v == Precheck(auth, secret, proposal, book, now)
      ensures Precheck(auth, secret, proposal, book, now) == Verified ==>
                v == if consume && auth.licence.nonce in old(used) then Replayed else Verified
      ensures used == if v == Verified && consume then old(used) + {auth.licence.nonce} else old(used)
      ensures v == Verified ==> Licenses(auth, secret, proposal, book, now)
    {
      v := Verified;
      match auth
      case Absent => return Forged;
      case Foreign => return Forged;
      case Token(l) =>
        if Sign(secret, l) != l.signature { return Forged; }
        if now >= l.expiresAt { return Expired; }
        if OfProposal(proposal) != l.proposalHash { return ProposalMismatch; }
        if OfBook(book) != l.portfolioHash { return PortfolioMismatch; }
        if consume {
          var unused := Consume(l.nonce);
          if !unused { return Replayed; }
        }
    }
  }

  /** What a licence permits: this proposal, this book, before expiry, under this process's key. */
  predicate Licenses(auth: Candidate, secret: int, proposal: Proposal, book: Book, now: int) {
    && auth.Token?
    && auth.licence.signature == Sign(secret, auth.licence)
    && now < auth.licence.expiresAt
    && auth.licence.proposalHash == OfProposal(proposal)
    && auth.licence.portfolioHash == OfBook(book)
  }

  /** A signature fits one licence only: changing any field of a minted licence, or presenting it
      with another proposal or book, or at or after expiry, or in another process, fails the check;
      presenting it as minted passes. */
  lemma BindingIsExact(secret: int, other: int, nonce: string, decisionId: string, snapshotId: string,
                       proposal: Proposal, book: Book, quantity: int, ttl: int, minted: int,
                       l: Licence, proposal': Proposal, book': Book, now: int)
    requires quantity > 0 && ttl > 0
    requires l.signature ==
             Authorize(secret, nonce, decisionId, snapshotId, proposal, book, quantity, ttl, minted).value.signature
    ensures Precheck(Token(l), other, proposal', book', now) == Verified <==>
            && other == secret
            && l == Authorize(secret, nonce, decisionId, snapshotId, proposal, book, quantity, ttl, minted).value
            && proposal' == proposal && book' == book && now < minted + ttl
  {
    var m := Authorize(secret, nonce, decisionId, snapshotId, proposal, book, quantity, ttl, minted).value;
    if Sign(other, l) == l.signature {
      assert Sign(other, l) == Sign(secret, m);
    }
  }

  /** Which failure is reported: forgery first, then expiry, then another order, then another book. */
  lemma VerdictExactly(auth: Candidate, secret: int, proposal: Proposal, book: Book, now: int)
    ensures var v := Precheck(auth, secret, proposal, book, now);
            var genuine := auth.Token? && auth.licence.signature == Sign(secret, auth.licence);
            && (v.Forged? <==> !genuine)
            && (v.Expired? <==> genuine && auth.licence.expiresAt <= now)
            && (v.ProposalMismatch? <==>
                  genuine && now < auth.licence.expiresAt && auth.licence.proposalHash != OfProposal(proposal))
            && (v.PortfolioMismatch? <==>
                  && genuine && now < auth.licence.expiresAt && auth.licence.proposalHash == OfProposal(proposal)
                  && auth.licence.portfolioHash != OfBook(book))
            && !v.Replayed?
  {
  }
}
