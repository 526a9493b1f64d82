/** Evidence of two conflicting votes, and its validation (src/evidence.rs). */
module Evidence {
  import opened Common
  import opened Power
  import opened Messages

  type Verifier = (PublicKey, seq<byte>, Signature) -> bool

  datatype DoubleVote = DoubleVote(voter: PublicKey, height: Height, round: Round, voteType: VoteType,
                                   a: Option<Hash32>, b: Option<Hash32>, voteA: Vote, voteB: Vote)

  datatype EvidenceConfig = EvidenceConfig(verifySignatures: bool, allowNilEquivocation: bool)

  datatype EvidenceError =
    | OffenderMismatch | HeightMismatch | RoundMismatch | VoteTypeMismatch
    | DuplicateMessages | SameBlock | NilEquivocation | InvalidSignature

  /** The vote's signature is on its block under the type, height and round of the header. */
  predicate SignedUnder(ev: DoubleVote, vote: Vote, verify: Verifier)
  {
    verify(ev.voter, VoteSignBytes(ev.voteType, ev.height, ev.round, vote.blockId), vote.signature)
  }

  /** `Evidence::validate` for a double vote. The two votes are checked under the header's
      type, height and round, and each under its own block. */
  function Validate(ev: DoubleVote, config: EvidenceConfig, verify: Verifier): Option<EvidenceError>
  {
    if ev.voteA.voter != ev.voter || ev.voteB.voter != ev.voter then Some(OffenderMismatch)
    else if ev.voteA.height != ev.height || ev.voteB.height != ev.height then Some(HeightMismatch)
    else if ev.voteA.round != ev.round || ev.voteB.round != ev.round then Some(RoundMismatch)
    else if ev.voteA.voteType != ev.voteType || ev.voteB.voteType != ev.voteType then Some(VoteTypeMismatch)
    else if ev.voteA == ev.voteB then Some(DuplicateMessages)
    else if ev.a == ev.b then Some(SameBlock)
    else if !config.allowNilEquivocation && (ev.a.None? || ev.b.None?) then Some(NilEquivocation)
    else if config.verifySignatures
            && !(SignedUnder(ev, ev.voteA, verify) && SignedUnder(ev, ev.voteB, verify))
         then Some(InvalidSignature)
    else None
  }

  /** Accepted evidence holds two votes of one type, height and round that the offender's key verifies.
      They are two different messages exactly when they name two blocks. That is so if the header's
      `a` and `b` are those of the votes, which validation itself does not compare. */
  lemma ValidEvidenceConvicts(ev: DoubleVote, config: EvidenceConfig, verify: Verifier)
    requires config.verifySignatures && Validate(ev, config, verify).None?
    ensures verify(ev.voter, ev.voteA.SignBytes(), ev.voteA.signature)
    ensures verify(ev.voter, ev.voteB.SignBytes(), ev.voteB.signature)
    ensures ev.voteA.voteType == ev.voteB.voteType
    ensures ev.voteA.height == ev.voteB.height && ev.voteA.round == ev.voteB.round
    ensures ev.voteA.SignBytes() != ev.voteB.SignBytes() <==> ev.voteA.blockId != ev.voteB.blockId
    ensures ev.a == ev.voteA.blockId && ev.b == ev.voteB.blockId ==> ev.voteA.blockId != ev.voteB.blockId
  {
    if ev.voteA.SignBytes() == ev.voteB.SignBytes() {
      VoteSignBytesInjective(ev.voteA.voteType, ev.voteA.height, ev.voteA.round, ev.voteA.blockId,
                             ev.voteB.voteType, ev.voteB.height, ev.voteB.round, ev.voteB.blockId);
    }
  }

  /** Which error evidence gets: the first thing wrong with it, in this order. */
  lemma EvidenceRefusedBecause(ev: DoubleVote, config: EvidenceConfig, verify: Verifier)
    ensures var r, v, w := Validate(ev, config, verify), ev.voteA, ev.voteB;
            var own := v.voter == ev.voter && w.voter == ev.voter;
            var high := own && v.height == ev.height && w.height == ev.height;
            var round := high && v.round == ev.round && w.round == ev.round;
            var typed := round && v.voteType == ev.voteType && w.voteType == ev.voteType;
            var two := typed && v != w;
            var differ := two && ev.a != ev.b;
            var named := differ && (config.allowNilEquivocation || (ev.a.Some? && ev.b.Some?));
            && (r == Some(OffenderMismatch) <==> !own) && (r == Some(HeightMismatch) <==> own && !high)
            && (r == Some(RoundMismatch) <==> high && !round) && (r == Some(VoteTypeMismatch) <==> round && !typed)
            && (r == Some(DuplicateMessages) <==> typed && !two) && (r == Some(SameBlock) <==> two && !differ)
            && (r == Some(NilEquivocation) <==> differ && !named) && (r.None? || r == Some(InvalidSignature) <==> named)
  {
  }

  /** Two votes put together as evidence pass exactly when they are votes of one voter in one slot for two
      choices, both of them blocks unless nil counts, and signed unless signatures are not checked. */
  lemma EquivocationAcceptedIff(v: Vote, w: Vote, config: EvidenceConfig, verify: Verifier)
    ensures var ev := DoubleVote(v.voter, v.height, v.round, v.voteType, v.blockId, w.blockId, v, w);
            Validate(ev, config, verify).None?
            <==> && v.voter == w.voter && v.height == w.height && v.round == w.round && v.voteType == w.voteType
                 && v.blockId != w.blockId && (config.allowNilEquivocation || (v.blockId.Some? && w.blockId.Some?))
                 && (config.verifySignatures ==>
                       verify(v.voter, v.SignBytes(), v.signature) && verify(w.voter, w.SignBytes(), w.signature))
  {
  }

  /** Without that comparison, one vote and a re-signed copy of it pass as a double vote. */
  lemma RelabelledEvidencePasses(vote: Vote, sig: Signature, a: Option<Hash32>, b: Option<Hash32>,
                                 config: EvidenceConfig, verify: Verifier)
    requires sig != vote.signature && a != b && config.allowNilEquivocation
    requires verify(vote.voter, vote.SignBytes(), vote.signature) && verify(vote.voter, vote.SignBytes(), sig)
    ensures var again := vote.(signature := sig);
            var ev := DoubleVote(vote.voter, vote.height, vote.round, vote.voteType, a, b, vote, again);
            Validate(ev, config, verify).None?
  {
  }
}
