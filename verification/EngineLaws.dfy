/** What an engine does with its inputs: which it refuses, what it sends, when it moves on, and that it
    decides once a proposal and the votes of two quorums have reached it. */
module EngineLaws {
  import opened Common
  import opened Power
  import opened Messages
  import opened Validators
  import opened Quorum
  import opened DoubleSign
  import opened Evidence
  import opened EngineSpec
  import opened Certificates

  // ---------------------------------------------------------------------------
  // What is sent
  // ---------------------------------------------------------------------------

  /** A vote of this engine, signed over its own bytes. */
  predicate OwnVote(env: Env, s: ConsensusState, v: Vote)
  {
    v.voter == env.me && v.height == s.height && v.round == s.round && v.signature == env.sign(v.SignBytes())
  }

  /** A proposal of this engine, as the proposer of the round, for a block that it has. */
  predicate OwnProposal(env: Env, s: ConsensusState, p: Proposal, after: Node)
    requires env.vset.validators != []
  {
    && p.proposer == env.me && p.proposer == env.vset.ProposerFor(s.height, after.state.round).pk
    && p.height == s.height && p.round == after.state.round && p.polRound == s.validRound
    && p.signature == env.sign(p.SignBytes())
    && p.blockId in after.store && after.store[p.blockId].id == p.blockId
    && p.block == (if env.cfg.includeBlock then Some(after.store[p.blockId]) else None)
    && after.state.proposal == Some(p) && after.state.proposalBlock == Some(after.store[p.blockId])
  }

  ghost predicate OwnEffect(env: Env, s: ConsensusState, e: Effect, after: Node)
    requires env.vset.validators != []
  {
    (e.SendVote? ==> OwnVote(env, s, e.vote)) && (e.SendProposal? ==> OwnProposal(env, s, e.proposal, after))
  }

  lemma AdvanceSends(env: Env, n: Node, built: Block)
    requires env.vset.validators != []
    ensures var (after, out) := AdvanceRound(env, n, built);
            forall e :: e in out ==> OwnEffect(env, n.state, e, after)
  {
  }

  lemma TickSends(env: Env, n: Node, dt: nat, built: Block)
    requires env.vset.validators != []
    ensures var (after, out) := Tick(env, n, dt, built);
            forall e :: e in out ==> OwnEffect(env, n.state, e, after)
  {
    var n1 := n.(elapsed := SaturatingAdd(n.elapsed, dt));
    AdvanceSends(env, n1, built);
  }

  lemma VoteSends(env: Env, n: Node, v: Vote, built: Block)
    requires env.vset.validators != []
    ensures var o := OnVote(env, n, v, built);
            forall e :: e in o.effects ==> OwnEffect(env, n.state, e, o.node)
  {
    if n.state.decided.None? && VerifyVote(env, n.state, v).None? {
      var (s1, ev) := RecordVote(n.state, v);
      ReactSends(env, n.(state := StoreVote(s1, v)), v, built);
    }
  }

  lemma ReactSends(env: Env, n: Node, v: Vote, built: Block)
    requires env.vset.validators != []
    ensures var o := React(env, n, v, built);
            forall e :: e in o.effects ==> OwnEffect(env, n.state, e, o.node)
  {
    AdvanceSends(env, n, built);
  }

  /** Every vote and every proposal that an engine sends is its own, of its height and round, and signed. */
  lemma SentIsSigned(env: Env, n: Node, input: Input, e: Effect)
    requires env.vset.validators != [] && e in Next(env, n, input).effects
    ensures OwnEffect(env, n.state, e, Next(env, n, input).node)
  {
    match input
    case Clock(dt, built) => TickSends(env, n, dt, built);
    case GotProposal(p) =>
    case GotVote(v, built) => VoteSends(env, n, v, built);
    case GotBlock(b) =>
  }

  // ---------------------------------------------------------------------------
  // What is refused
  // ---------------------------------------------------------------------------

  /** A proposal is refused unless it comes from the proposer of its round, for this height and round, with a
      good signature; a refusal changes nothing. */
  lemma ProposalRefusedIff(env: Env, n: Node, p: Proposal)
    requires env.vset.validators != [] && n.state.decided.None?
    ensures var o := OnProposal(env, n, p);
            && (o.error.None? <==>
                  && p.proposer in env.vset.Keys() && p.proposer == env.vset.ProposerFor(p.height, p.round).pk
                  && p.height == n.state.height && p.round == n.state.round
                  && env.verify(p.proposer, p.SignBytes(), p.signature))
            && (o.error.Some? ==> o.node == n && o.effects == [])
  {
  }

  /** The same for votes; only a decision on a block that does not execute fails later. */
  lemma VoteRefusedIff(env: Env, n: Node, v: Vote, built: Block)
    requires env.vset.validators != [] && n.state.decided.None?
    ensures var o := OnVote(env, n, v, built);
            && (o.error.None? || o.error == Some(ExecutionFailed) <==>
                  && v.voter in env.vset.Keys() && v.height == n.state.height && v.round == n.state.round
                  && env.verify(v.voter, v.SignBytes(), v.signature))
            && (o.error.Some? && o.error != Some(ExecutionFailed) ==> o.node == n && o.effects == [])
  {
  }

  /** An engine that has decided takes nothing more, but for blocks. */
  lemma DecidedIsFinal(env: Env, n: Node, input: Input)
    requires env.vset.validators != [] && n.state.decided.Some? && !input.GotBlock?
    ensures Next(env, n, input) == Outcome(n, [], None)
  {
  }

  // ---------------------------------------------------------------------------
  // The clock
  // ---------------------------------------------------------------------------

  /** What an engine keeps when it only moves on. */
  predicate SameRecord(s: ConsensusState, s': ConsensusState)
  {
    && s'.height == s.height && s'.votes == s.votes && s'.voteIndex == s.voteIndex && s'.decided == s.decided
    && s'.lockedRound == s.lockedRound && s'.lockedValue == s.lockedValue
    && s'.validRound == s.validRound && s'.validValue == s.validValue
  }

  /** The next round, from its start and without a proposal but perhaps an own one; below the last round. */
  ghost predicate NextRound(env: Env, n: Node, after: Node)
  {
    && SameRecord(n.state, after.state) && after.state.step == Step.Propose && after.elapsed == 0
    && after.state.round == n.state.round + 1 && after.state.round < env.cfg.maxRounds
    && (after.state.proposal.Some? <==> after.state.proposalBlock.Some?)
    && (after.state.proposal.Some? ==>
          after.state.proposal.value.round == after.state.round && after.state.proposal.value.proposer == env.me)
  }

  /** The guard lets the engine sign this. */
  ghost predicate MaySign(guard: Option<Guard>, key: SignedKey)
  {
    guard.Some? ==> Allowed(Observe(guard.value, key.height).signed, key)
  }

  /** Whether the engine is the proposer of this round and may sign a proposal of the block. */
  ghost predicate ProposesIn(env: Env, n: Node, round: nat, built: Block)
    requires env.vset.validators != [] && round < U32_LIMIT
  {
    && env.vset.ProposerFor(n.state.height, round).pk == env.me
    && MaySign(n.guard, ProposalKey(n.state.height, round, built.id))
  }

  lemma AdvanceLaw(env: Env, n: Node, built: Block)
    requires env.vset.validators != []
    ensures var (after, out) := AdvanceRound(env, n, built);
            && (n.state.round + 1 < env.cfg.maxRounds ==>
                  && NextRound(env, n, after) && (after.state.proposal.None? ==> out == [])
                  && (after.state.proposal.Some? <==> ProposesIn(env, n, n.state.round + 1, built))
                  && (after.state.proposal.Some? ==> after.state.proposal.value.blockId == built.id
                                                     && out == [SendProposal(after.state.proposal.value)]))
            && (n.state.round + 1 >= env.cfg.maxRounds ==> after == n && out == [])
  {
  }

  /** A vote step ends when its time is over, and not before. */
  lemma TimeoutLaw(env: Env, n: Node, dt: nat, built: Block)
    requires env.vset.validators != [] && n.state.decided.None? && n.state.step in {Step.Prevote, Step.Precommit}
    ensures var o := Next(env, n, Clock(dt, built));
            var limit := if n.state.step == Step.Prevote then env.cfg.prevoteTimeout else env.cfg.precommitTimeout;
            var spent := SaturatingAdd(n.elapsed, dt);
            && (spent < limit || n.state.round + 1 >= env.cfg.maxRounds ==>
                  o.node == n.(elapsed := spent) && o.effects == [])
            && (spent >= limit && n.state.round + 1 < env.cfg.maxRounds ==>
                  && NextRound(env, n, o.node)
                  && (o.node.state.proposal.Some? <==> ProposesIn(env, n, n.state.round + 1, built)))
  {
    AdvanceLaw(env, n.(elapsed := SaturatingAdd(n.elapsed, dt)), built);
  }

  /** In the commit step the clock only runs. */
  lemma CommitStepWaits(env: Env, n: Node, dt: nat, built: Block)
    requires env.vset.validators != [] && n.state.decided.None? && n.state.step == Step.Commit
    ensures Next(env, n, Clock(dt, built)) == Outcome(n.(elapsed := SaturatingAdd(n.elapsed, dt)), [], None)
  {
  }

  /** Whether the engine proposes a block it has built. */
  ghost predicate MayPropose(env: Env, n: Node, built: Block)
    requires env.vset.validators != []
  {
    n.state.proposal.None? && ProposesIn(env, n, n.state.round, built)
  }

  lemma MaybeProposeLaw(env: Env, n: Node, built: Block)
    requires env.vset.validators != []
    ensures var (after, out) := MaybePropose(env, n, built);
            && (MayPropose(env, n, built) ==>
                  && after.state.proposal.Some? && after.state.proposal.value.blockId == built.id
                  && after.state.proposalBlock == Some(built) && out == [SendProposal(after.state.proposal.value)])
            && (!MayPropose(env, n, built) ==> after.state == n.state && out == [])
            && SameRecord(n.state, after.state) && after.state.round == n.state.round
            && after.state.step == n.state.step && after.elapsed == n.elapsed
  {
  }

  /** The block of a proposal that is here together with its block. */
  function CompleteProposal(s: ConsensusState): BlockChoice
  {
    match (s.proposal, s.proposalBlock)
    case (Some(p), Some(_)) => Some(p.blockId)
    case _ => None
  }

  /** The first tick of a round is when its proposer proposes; the propose step ends with a complete
      proposal, if the configuration says so, or when its time is over. */
  lemma ProposeLaw(env: Env, n: Node, dt: nat, built: Block)
    requires env.vset.validators != [] && n.state.decided.None? && n.state.step == Step.Propose
    ensures var o := Next(env, n, Clock(dt, built));
            var proposes := SaturatingAdd(n.elapsed, dt) == dt && MayPropose(env, n, built);
            && SameRecord(n.state, o.node.state) && o.node.state.round == n.state.round
            && (proposes ==> o.node.state.proposal.Some? && o.node.state.proposalBlock == Some(built)
                             && |o.effects| > 0 && o.effects[0] == SendProposal(o.node.state.proposal.value))
            && (!proposes ==> o.node.state.proposal == n.state.proposal
                              && o.node.state.proposalBlock == n.state.proposalBlock
                              && forall e :: e in o.effects ==> !e.SendProposal?)
            && (o.node.state.step == Step.Prevote <==>
                  || (env.cfg.fastQuorum && o.node.state.proposal.Some? && o.node.state.proposalBlock.Some?)
                  || SaturatingAdd(n.elapsed, dt) >= env.cfg.proposeTimeout)
            && (o.node.state.step == Step.Prevote ==>
                  o.node.elapsed == 0 && forall e :: e in o.effects && e.SendVote? ==>
                    e.vote.voteType == VoteType.Prevote && e.vote.blockId == CompleteProposal(o.node.state))
            && (o.node.state.step != Step.Prevote ==>
                  o.node.state.step == Step.Propose && forall e :: e in o.effects ==> !e.SendVote?)
  {
    var n1 := n.(elapsed := SaturatingAdd(n.elapsed, dt));
    MaybeProposeLaw(env, n1, built);
  }

  // ---------------------------------------------------------------------------
  // Replies to proposals and blocks
  // ---------------------------------------------------------------------------

  /** The proposal that `ProposalRefusedIff` lets through. */
  predicate GoodProposal(env: Env, s: ConsensusState, p: Proposal)
    requires env.vset.validators != []
  {
    && p.proposer in env.vset.Keys() && p.proposer == env.vset.ProposerFor(p.height, p.round).pk
    && p.height == s.height && p.round == s.round && env.verify(p.proposer, p.SignBytes(), p.signature)
  }

  /** The prevotes in these effects: the one for this choice, or none if the guard does not allow it. */
  ghost predicate Prevotes(env: Env, n: Node, out: seq<Effect>, choice: BlockChoice)
  {
    && (forall e :: e in out && e.SendVote? ==> e.vote.voteType == VoteType.Prevote && e.vote.blockId == choice)
    && ((exists e :: e in out && e.SendVote?) <==>
          MaySign(n.guard, VoteKey(VoteType.Prevote, n.state.height, n.state.round, choice)))
  }

  lemma BroadcastIs(env: Env, n: Node, t: VoteType, bid: BlockChoice)
    ensures var (after, out) := BroadcastVote(env, n, t, bid);
            && after == n.(guard := after.guard)
            && out == if MaySign(n.guard, VoteKey(t, n.state.height, n.state.round, bid))
                      then [SendVote(MyVote(env, n.state, t, bid))] else []
  {
  }

  /** What an engine prevotes on a good proposal: the block, if it is here, executes, and is not against the
      lock; otherwise nothing. The block of the proposal is stored, and a block that is missing requested. */
  lemma ProposalLaw(env: Env, n: Node, p: Proposal, store: map<Hash32, Block>)
    requires env.vset.validators != [] && n.state.decided.None? && GoodProposal(env, n.state, p)
    requires store == if p.block.Some? then n.store[p.block.value.id := p.block.value] else n.store
    ensures var o := OnProposal(env, n, p);
            var runs := p.blockId in store && env.executes(store[p.blockId], p.proposer, p.proposer);
            var locked := n.state.lockedValue.Some? && n.state.lockedValue.value != p.blockId;
            && o.error.None? && o.node.store == store && o.node.elapsed == 0 && o.node.state.step == Step.Prevote
            && SameRecord(n.state, o.node.state) && o.node.state.round == n.state.round
            && (p.blockId !in store ==> o.node.state.proposal == Some(p) && o.node.state.proposalBlock.None?)
            && (p.blockId in store && !runs ==>
                  o.node.state.proposal == n.state.proposal && o.node.state.proposalBlock == n.state.proposalBlock)
            && Prevotes(env, n, o.effects, if runs && !locked then Some(p.blockId) else None)
            && (RequestBlock(p.blockId) in o.effects <==> p.blockId !in store)
            && (runs ==> o.node.state.proposal == Some(p) && o.node.state.proposalBlock == Some(store[p.blockId]))
  {
    var prevoting := n.(store := store, elapsed := 0, state := n.state.(step := Step.Prevote));
    if p.blockId !in store || !env.executes(store[p.blockId], p.proposer, p.proposer) {
      BroadcastPrevotes(env, n, prevoting, None, p.blockId);
    } else {
      var s := prevoting.state.(proposal := Some(p), proposalBlock := Some(store[p.blockId]));
      BroadcastPrevotes(env, n, prevoting.(state := s), PrevoteChoice(n.state, p.blockId), p.blockId);
    }
  }

  lemma BroadcastPrevotes(env: Env, n: Node, p: Node, choice: BlockChoice, id: Hash32)
    requires p.guard == n.guard && p.state.height == n.state.height && p.state.round == n.state.round
    ensures var (after, out) := BroadcastVote(env, p, VoteType.Prevote, choice);
            && after == p.(guard := after.guard) && Prevotes(env, n, out, choice) && RequestBlock(id) !in out
            && Prevotes(env, n, [RequestBlock(id)] + out, choice)
  {
    BroadcastIs(env, p, VoteType.Prevote, choice);
    var out := BroadcastVote(env, p, VoteType.Prevote, choice).1;
    var both := [RequestBlock(id)] + out;
    assert out != [] ==> both[1] == out[0] && out[0] in out && both[1] in both;
  }

  /** A block that completes the proposal of the round is prevoted, unless it is against the lock; any other
      block is only stored. It is not executed. */
  lemma BlockLaw(env: Env, n: Node, block: Block)
    requires env.vset.validators != []
    ensures var o := Next(env, n, GotBlock(block));
            var completes := n.state.proposal.Some? && n.state.proposal.value.blockId == block.id
                             && n.state.proposalBlock.None?;
            var locked := n.state.lockedValue.Some? && n.state.lockedValue.value != block.id;
            && o.node.store == n.store[block.id := block] && o.node.elapsed == n.elapsed
            && o.node.state == (if completes then n.state.(proposalBlock := Some(block)) else n.state)
            && (completes && n.state.step == Step.Prevote ==>
                  Prevotes(env, n, o.effects, if locked then None else Some(block.id)))
            && (!completes || n.state.step != Step.Prevote ==> o.effects == [])
  {
    var n2 := n.(store := n.store[block.id := block], state := n.state.(proposalBlock := Some(block)));
    BroadcastPrevotes(env, n, n2, PrevoteChoice(n.state, block.id), block.id);
  }

  // ---------------------------------------------------------------------------
  // Votes
  // ---------------------------------------------------------------------------

  /** The vote that `VoteRefusedIff` lets through. */
  predicate GoodVote(env: Env, s: ConsensusState, v: Vote)
  {
    && v.voter in env.vset.Keys() && v.height == s.height && v.round == s.round
    && env.verify(v.voter, v.SignBytes(), v.signature)
  }

  /** Every counted voter is a validator. */
  ghost predicate FromValidators(env: Env, s: ConsensusState)
  {
    forall slot :: slot in s.votes ==> s.votes[slot].Keys <= env.vset.Keys()
  }

  /** The last vote of each voter counts, in its round and for its type. */
  ghost predicate Counted(s: ConsensusState, v: Vote, s': ConsensusState)
  {
    forall slot :: BallotsAt(s', slot) == if slot == Slot(v.round, v.voteType) then BallotsAt(s, slot)[v.voter := v]
                                          else BallotsAt(s, slot)
  }

  /** No two choices have a quorum in one slot. */
  lemma OneQuorum(env: Env, ballots: Ballots, a: BlockChoice, b: BlockChoice)
    requires env.Valid() && ballots.Keys <= env.vset.Keys()
    requires ReachesQuorum(env.vset, ballots, a) && ReachesQuorum(env.vset, ballots, b)
    ensures a == b
  {
    var x, y := Backers(ballots, a), Backers(ballots, b);
    assert a != b ==> x * y == {};
    TotalPositive(env.vset);
    QuorumsIntersect(env.vset, x, y);
  }

  /** The engine once the vote is counted, before it acts on it. */
  ghost function Holding(n: Node, v: Vote): Node { n.(state := StoreVote(RecordVote(n.state, v).0, v)) }

  lemma HoldingCounts(env: Env, n: Node, v: Vote)
    requires FromValidators(env, n.state) && v.voter in env.vset.Keys()
    ensures Counted(n.state, v, Holding(n, v).state) && FromValidators(env, Holding(n, v).state)
    ensures BallotsAt(Holding(n, v).state, Slot(v.round, v.voteType)).Keys <= env.vset.Keys()
  {
  }

  /** A quorum for a choice, once this vote is counted. */
  ghost predicate Tips(env: Env, n: Node, v: Vote, choice: BlockChoice)
  {
    ReachesQuorum(env.vset, BallotsAt(n.state, Slot(v.round, v.voteType))[v.voter := v], choice)
  }

  ghost predicate Active(env: Env, n: Node, v: Vote)
  {
    env.Valid() && n.state.decided.None? && FromValidators(env, n.state) && GoodVote(env, n.state, v)
  }

  lemma TipsIs(env: Env, n: Node, v: Vote, choice: BlockChoice)
    requires Active(env, n, v) && Tips(env, n, v, choice)
    ensures QuorumBid(env.vset, BallotsAt(Holding(n, v).state, Slot(v.round, v.voteType))) == Some(choice)
  {
    HoldingCounts(env, n, v);
    var ballots := BallotsAt(Holding(n, v).state, Slot(v.round, v.voteType));
    var found := QuorumBid(env.vset, ballots);
    OneQuorum(env, ballots, choice, found.value);
  }

  lemma TipsNothing(env: Env, n: Node, v: Vote)
    requires Active(env, n, v) && forall choice :: !Tips(env, n, v, choice)
    ensures QuorumBid(env.vset, BallotsAt(Holding(n, v).state, Slot(v.round, v.voteType))).None?
  {
    HoldingCounts(env, n, v);
    var found := QuorumBid(env.vset, BallotsAt(Holding(n, v).state, Slot(v.round, v.voteType)));
    assert found.Some? ==> Tips(env, n, v, found.value);
  }

  /** The step in which a quorum of these votes matters. */
  function StepOf(t: VoteType): Step { if t == VoteType.Prevote then Step.Prevote else Step.Precommit }

  lemma OnVoteIs(env: Env, n: Node, v: Vote, built: Block)
    requires Active(env, n, v)
    ensures var r := React(env, Holding(n, v), v, built);
            var o := OnVote(env, n, v, built);
            o.node == r.node && o.error == r.error && forall e :: e in r.effects ==> e in o.effects
  {
  }

  /** The first vote under a key is indexed for good, and a later one that differs from it is reported, with
      the first vote in front. */
  lemma ReportLaw(env: Env, n: Node, v: Vote, built: Block, e: Effect)
    requires Active(env, n, v)
    ensures var index := n.state.voteIndex;
            var o := OnVote(env, n, v, built);
            && o.node.state.voteIndex == (if KeyOf(v) in index then index else index[KeyOf(v) := Indexed(v.blockId, v)])
            && (e.SendEvidence? ==>
                  (e in o.effects <==>
                     && KeyOf(v) in index && index[KeyOf(v)].bid != v.blockId
                     && e.evidence == DoubleVote(v.voter, v.height, v.round, v.voteType, index[KeyOf(v)].bid, v.blockId,
                                                 index[KeyOf(v)].vote, v)))
  {
    ReactReports(env, Holding(n, v), v, built);
  }

  lemma ReactReports(env: Env, n: Node, v: Vote, built: Block)
    requires env.vset.validators != []
    ensures var o := React(env, n, v, built);
            o.node.state.voteIndex == n.state.voteIndex && forall e :: e in o.effects ==> !e.SendEvidence?
  {
  }

  /** A vote without a quorum, or in another step, is only counted. */
  lemma CountLaw(env: Env, n: Node, v: Vote, built: Block)
    requires Active(env, n, v)
    requires n.state.step != StepOf(v.voteType) || forall choice :: !Tips(env, n, v, choice)
    ensures var o := OnVote(env, n, v, built);
            && o.error.None? && Counted(n.state, v, o.node.state) && FromValidators(env, o.node.state)
            && o.node == n.(state := n.state.(votes := o.node.state.votes, voteIndex := o.node.state.voteIndex))
  {
    OnVoteIs(env, n, v, built);
    HoldingCounts(env, n, v);
    if n.state.step == StepOf(v.voteType) {
      TipsNothing(env, n, v);
    }
  }

  /** The engine locks on a block that a quorum prevoted, and precommits it if the guard allows. */
  ghost predicate Locks(env: Env, n: Node, v: Vote, bid: Hash32, o: Outcome)
  {
    var s := o.node.state;
    && s.lockedValue == Some(bid) && s.lockedRound == Some(n.state.round) && s.validValue == Some(bid)
    && s.validRound == Some(n.state.round) && s.step == Step.Precommit && s.round == n.state.round
    && s.height == n.state.height && s.decided.None? && s.proposal == n.state.proposal
    && s.proposalBlock == n.state.proposalBlock && o.node.store == n.store && o.node.elapsed == 0
    && Counted(n.state, v, s) && FromValidators(env, s) && o.error.None?
    && (MaySign(n.guard, VoteKey(VoteType.Precommit, n.state.height, n.state.round, Some(bid))) ==>
          exists e :: e in o.effects && e.SendVote? && e.vote.voteType == VoteType.Precommit
                      && e.vote.blockId == Some(bid))
  }

  lemma LockLaw(env: Env, n: Node, v: Vote, built: Block, bid: Hash32)
    requires Active(env, n, v) && v.voteType == VoteType.Prevote && n.state.step == Step.Prevote
    requires Tips(env, n, v, Some(bid))
    ensures Locks(env, n, v, bid, OnVote(env, n, v, built))
  {
    OnVoteIs(env, n, v, built);
    HoldingCounts(env, n, v);
    TipsIs(env, n, v, Some(bid));
    var h := Holding(n, v);
    var s := h.state.(validRound := Some(n.state.round), validValue := Some(bid),
                      lockedRound := Some(n.state.round), lockedValue := Some(bid), step := Step.Precommit);
    BroadcastIs(env, h.(state := s, elapsed := 0), VoteType.Precommit, Some(bid));
  }

  /** A quorum for no block ends the round. */
  lemma NilLaw(env: Env, n: Node, v: Vote, built: Block)
    requires Active(env, n, v) && n.state.step == StepOf(v.voteType) && Tips(env, n, v, None)
    ensures var o := OnVote(env, n, v, built);
            && o.error.None? && Counted(n.state, v, o.node.state)
            && (n.state.round + 1 < env.cfg.maxRounds ==> NextRound(env, Holding(n, v), o.node))
            && (n.state.round + 1 >= env.cfg.maxRounds ==> o.node == Holding(n, v))
  {
    OnVoteIs(env, n, v, built);
    HoldingCounts(env, n, v);
    TipsIs(env, n, v, None);
    AdvanceLaw(env, Holding(n, v), built);
  }

  /** A quorum of precommits decides the block if it is here and executes for the proposer of the round; if it
      is not here, it is requested. */
  ghost predicate Decides(env: Env, n: Node, v: Vote, bid: Hash32, o: Outcome)
    requires env.vset.validators != []
  {
    if bid !in n.store then
      o.error.None? && o.node == Holding(n, v) && RequestBlock(bid) in o.effects
    else if !env.executes(n.store[bid], n.store[bid].proposerPk, env.vset.ProposerFor(n.state.height, n.state.round).pk)
    then o.error == Some(ExecutionFailed) && o.node == Holding(n, v)
    else
      && o.error.None? && o.node.state.decided.Some? && o.node.state.step == Step.Commit && o.node.store == n.store
      && o.node.state.decided.value.blockId == bid && o.node.state.decided.value.height == n.state.height
      && Committed(o.node.state.decided.value, n.store[bid]) in o.effects
  }

  lemma DecideLaw(env: Env, n: Node, v: Vote, built: Block, bid: Hash32)
    requires Active(env, n, v) && v.voteType == VoteType.Precommit && n.state.step == Step.Precommit
    requires Tips(env, n, v, Some(bid))
    ensures Decides(env, n, v, bid, OnVote(env, n, v, built))
  {
    OnVoteIs(env, n, v, built);
    TipsIs(env, n, v, Some(bid));
    assert React(env, Holding(n, v), v, built) == Decide(env, Holding(n, v), v.round, bid);
  }

  // ---------------------------------------------------------------------------
  // From a proposal to a decision
  // ---------------------------------------------------------------------------

  /** The engine after a sequence of votes, and all it has sent. */
  ghost function Fed(env: Env, n: Node, votes: seq<Vote>, built: Block): (Node, seq<Effect>)
    requires env.vset.validators != []
    decreases |votes|
  {
    if votes == [] then (n, [])
    else
      var o := Next(env, n, GotVote(votes[0], built));
      var (after, out) := Fed(env, o.node, votes[1..], built);
      (after, o.effects + out)
  }

  lemma FedVote(env: Env, n: Node, votes: seq<Vote>, built: Block, o: Outcome, after: Node, out: seq<Effect>)
    requires env.vset.validators != [] && votes != [] && o == OnVote(env, n, votes[0], built)
    requires Fed(env, o.node, votes[1..], built) == (after, out)
    ensures Fed(env, n, votes, built) == (after, o.effects + out)
  {
  }

  /** Good votes of one type for one block. */
  predicate AllFor(env: Env, s: ConsensusState, votes: seq<Vote>, t: VoteType, id: Hash32)
  {
    forall i :: 0 <= i < |votes| ==>
      GoodVote(env, s, votes[i]) && votes[i].voteType == t && votes[i].blockId == Some(id)
  }

  /** The ballots of one type in this round: those of `done`, all for the block. */
  ghost predicate Has(n: Node, t: VoteType, id: Hash32, done: set<PublicKey>)
  {
    var ballots := BallotsAt(n.state, Slot(n.state.round, t));
    ballots.Keys == done && forall pk :: pk in ballots ==> ballots[pk].blockId == Some(id)
  }

  ghost predicate Enough(env: Env, voters: set<PublicKey>)
  {
    PowerOf(env.vset, voters) >= QuorumThreshold(env.vset.Total())
  }

  /** Only the block can get a quorum, and it gets one with the power of the voters. */
  lemma TipsIff(env: Env, n: Node, v: Vote, id: Hash32, done: set<PublicKey>, choice: BlockChoice)
    requires Active(env, n, v) && Has(n, v.voteType, id, done) && v.blockId == Some(id)
    ensures Tips(env, n, v, choice) <==> choice == Some(id) && Enough(env, done + {v.voter})
  {
    var ballots := BallotsAt(n.state, Slot(v.round, v.voteType))[v.voter := v];
    if choice == Some(id) {
      assert Backers(ballots, choice) == done + {v.voter};
    } else {
      assert Backers(ballots, choice) == {};
      TotalPositive(env.vset);
    }
  }

  /** An engine that waits for precommits, or for prevotes until a quorum has come in. */
  ghost predicate Gathers(env: Env, n: Node, id: Hash32, block: Block, done: set<PublicKey>)
  {
    && env.Valid() && n.state.decided.None? && FromValidators(env, n.state)
    && id in n.store && n.store[id] == block
    && Has(n, VoteType.Prevote, id, done) && Has(n, VoteType.Precommit, id, {})
    && n.state.step == if Enough(env, done) then Step.Precommit else Step.Prevote
  }

  lemma MorePower(env: Env, a: set<PublicKey>, b: set<PublicKey>)
    requires a <= b && Enough(env, a)
    ensures Enough(env, b)
  {
    SumMonotone(a, b, (pk: PublicKey) => env.vset.Power(pk));
  }

  lemma PrevoteIn(env: Env, n: Node, v: Vote, built: Block, id: Hash32, block: Block, done: set<PublicKey>)
    requires Gathers(env, n, id, block, done) && GoodVote(env, n.state, v)
    requires v.voteType == VoteType.Prevote && v.blockId == Some(id)
    ensures var after := OnVote(env, n, v, built).node;
            Gathers(env, after, id, block, done + {v.voter})
            && after.state.height == n.state.height && after.state.round == n.state.round
  {
    forall choice ensures Tips(env, n, v, choice) <==> choice == Some(id) && Enough(env, done + {v.voter}) {
      TipsIff(env, n, v, id, done, choice);
    }
    if Enough(env, done) {
      MorePower(env, done, done + {v.voter});
      CountLaw(env, n, v, built);
    } else if Enough(env, done + {v.voter}) {
      LockLaw(env, n, v, built, id);
    } else {
      CountLaw(env, n, v, built);
    }
  }

  lemma {:induction false} PrevotesIn(env: Env, n: Node, votes: seq<Vote>, built: Block, id: Hash32, block: Block,
                                      done: set<PublicKey>) returns (after: Node, out: seq<Effect>)
    requires Gathers(env, n, id, block, done) && AllFor(env, n.state, votes, VoteType.Prevote, id)
    ensures Fed(env, n, votes, built) == (after, out)
    ensures Gathers(env, after, id, block, done + VotersOf(votes))
    ensures after.state.height == n.state.height && after.state.round == n.state.round
    decreases |votes|
  {
    if votes == [] {
      assert done + VotersOf(votes) == done;
      after, out := n, [];
    } else {
      var o := OnVote(env, n, votes[0], built);
      PrevoteIn(env, n, votes[0], built, id, block, done);
      after, out := PrevotesIn(env, o.node, votes[1..], built, id, block, done + {votes[0].voter});
      FedVote(env, n, votes, built, o, after, out);
      out := o.effects + out;
      OneMoreVoter(votes, done);
    }
  }

  lemma OneMoreVoter(votes: seq<Vote>, done: set<PublicKey>)
    requires votes != []
    ensures done + {votes[0].voter} + VotersOf(votes[1..]) == done + VotersOf(votes)
  {
    assert votes == [votes[0]] + votes[1..];
    VotersOfCons(votes[0], votes[1..]);
  }

  /** An engine that waits for precommits, or has decided. */
  ghost predicate Closes(env: Env, n: Node, id: Hash32, block: Block, done: set<PublicKey>)
  {
    && env.Valid() && FromValidators(env, n.state) && id in n.store && n.store[id] == block
    && env.executes(block, block.proposerPk, env.vset.ProposerFor(n.state.height, n.state.round).pk)
    && n.state.decided.None? && n.state.step == Step.Precommit && Has(n, VoteType.Precommit, id, done)
  }

  /** The effects hand out the block with the certificate that the engine decided on. */
  ghost predicate Commits(n: Node, out: seq<Effect>, id: Hash32, block: Block)
  {
    n.state.decided.Some? && n.state.decided.value.blockId == id && Committed(n.state.decided.value, block) in out
  }

  lemma PrecommitIn(env: Env, n: Node, v: Vote, built: Block, id: Hash32, block: Block, done: set<PublicKey>)
    requires Closes(env, n, id, block, done) && GoodVote(env, n.state, v)
    requires v.voteType == VoteType.Precommit && v.blockId == Some(id)
    ensures var o := OnVote(env, n, v, built);
            if Enough(env, done + {v.voter}) then Commits(o.node, o.effects, id, block)
            else Closes(env, o.node, id, block, done + {v.voter})
                 && o.node.state.height == n.state.height && o.node.state.round == n.state.round
  {
    forall choice ensures Tips(env, n, v, choice) <==> choice == Some(id) && Enough(env, done + {v.voter}) {
      TipsIff(env, n, v, id, done, choice);
    }
    if Enough(env, done + {v.voter}) {
      DecideLaw(env, n, v, built, id);
    } else {
      CountLaw(env, n, v, built);
    }
  }

  lemma {:induction false} StaysDecided(env: Env, n: Node, votes: seq<Vote>, built: Block)
    requires env.vset.validators != [] && n.state.decided.Some?
    ensures Fed(env, n, votes, built) == (n, [])
    decreases |votes|
  {
    if votes != [] {
      StaysDecided(env, n, votes[1..], built);
      var none: seq<Effect> := [];
      assert none + none == none;
      FedVote(env, n, votes, built, Outcome(n, none, None), n, none);
    }
  }

  lemma {:induction false} PrecommitsIn(env: Env, n: Node, votes: seq<Vote>, built: Block, id: Hash32, block: Block,
                                        done: set<PublicKey>) returns (after: Node, out: seq<Effect>)
    requires Closes(env, n, id, block, done) && AllFor(env, n.state, votes, VoteType.Precommit, id)
    requires !Enough(env, done) && Enough(env, done + VotersOf(votes))
    ensures Fed(env, n, votes, built) == (after, out) && Commits(after, out, id, block)
    decreases |votes|
  {
    assert votes == [] ==> done + VotersOf(votes) == done;
    var o := OnVote(env, n, votes[0], built);
    PrecommitIn(env, n, votes[0], built, id, block, done);
    if Enough(env, done + {votes[0].voter}) {
      after, out := o.node, [];
      StaysDecided(env, o.node, votes[1..], built);
    } else {
      OneMoreVoter(votes, done);
      after, out := PrecommitsIn(env, o.node, votes[1..], built, id, block, done + {votes[0].voter});
    }
    FedVote(env, n, votes, built, o, after, out);
    out := o.effects + out;
  }

  /** An engine that gets a good proposal with a block that executes, then prevotes for it from a quorum,
      then precommits for it from a quorum, decides it. Nothing depends on the lock or on the guard. */
  lemma EngineDecides(env: Env, n: Node, p: Proposal, block: Block, prevotes: seq<Vote>, precommits: seq<Vote>,
                      built: Block)
    requires env.Valid() && n.state.decided.None? && FromValidators(env, n.state)
    requires BallotsAt(n.state, Slot(n.state.round, VoteType.Prevote)) == map[]
    requires BallotsAt(n.state, Slot(n.state.round, VoteType.Precommit)) == map[]
    requires GoodProposal(env, n.state, p) && p.block == Some(block) && block.id == p.blockId
    requires env.executes(block, block.proposerPk, p.proposer)
    requires AllFor(env, n.state, prevotes, VoteType.Prevote, p.blockId) && Enough(env, VotersOf(prevotes))
    requires AllFor(env, n.state, precommits, VoteType.Precommit, p.blockId) && Enough(env, VotersOf(precommits))
    ensures var n1 := Next(env, n, GotProposal(p)).node;
            var n2 := Fed(env, n1, prevotes, built).0;
            var (n3, out) := Fed(env, n2, precommits, built);
            Commits(n3, out, p.blockId, block)
  {
    ProposalGathers(env, n, p, block);
    VotesDecide(env, OnProposal(env, n, p).node, p.blockId, block, prevotes, precommits, built);
  }

  lemma VotesDecide(env: Env, n: Node, id: Hash32, block: Block, prevotes: seq<Vote>, precommits: seq<Vote>,
                    built: Block)
    requires Gathers(env, n, id, block, {}) && !Enough(env, {})
    requires env.executes(block, block.proposerPk, env.vset.ProposerFor(n.state.height, n.state.round).pk)
    requires AllFor(env, n.state, prevotes, VoteType.Prevote, id) && Enough(env, VotersOf(prevotes))
    requires AllFor(env, n.state, precommits, VoteType.Precommit, id) && Enough(env, VotersOf(precommits))
    ensures var (end, out) := Fed(env, Fed(env, n, prevotes, built).0, precommits, built);
            Commits(end, out, id, block)
  {
    var n2, out2 := PrevotesIn(env, n, prevotes, built, id, block, {});
    assert {} + VotersOf(prevotes) == VotersOf(prevotes) && {} + VotersOf(precommits) == VotersOf(precommits);
    var n3, out3 := PrecommitsIn(env, n2, precommits, built, id, block, {});
  }

  lemma ProposalGathers(env: Env, n: Node, p: Proposal, block: Block)
    requires env.Valid() && n.state.decided.None? && FromValidators(env, n.state)
    requires BallotsAt(n.state, Slot(n.state.round, VoteType.Prevote)) == map[]
    requires BallotsAt(n.state, Slot(n.state.round, VoteType.Precommit)) == map[]
    requires GoodProposal(env, n.state, p) && p.block == Some(block) && block.id == p.blockId
    ensures var after := OnProposal(env, n, p).node;
            && Gathers(env, after, p.blockId, block, {}) && !Enough(env, {})
            && after.state.height == n.state.height && after.state.round == n.state.round
  {
    ProposalLaw(env, n, p, n.store[p.blockId := block]);
    TotalPositive(env.vset);
  }
}
