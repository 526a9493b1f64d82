/** The consensus engine as it runs: fields updated in place, each method computing the
    step that `EngineSpec` describes (src/consensus/engine.rs). */
module Engine {
  import opened Common
  import opened Power
  import opened Messages
  import opened Validators
  import opened Quorum
  import opened DoubleSign
  import opened Evidence
  import opened EngineSpec

  /** The tally of a set of ballots: each voter's choice with its power. */
  function TallyOf(vset: VSet, ballots: Ballots): Voters
  {
    map pk | pk in ballots :: Assigned(ballots[pk].blockId, vset.Power(pk))
  }

  lemma TallyNext(vset: VSet, ballots: Ballots, todo: set<PublicKey>, pk: PublicKey)
    requires vset.Valid() && ballots.Keys <= vset.Keys() && pk in todo && todo <= ballots.Keys
    ensures pk !in TallyOf(vset, ballots - todo)
    ensures TallyOf(vset, ballots - (todo - {pk}))
         == TallyOf(vset, ballots - todo)[pk := Assigned(ballots[pk].blockId, vset.Power(pk))]
    ensures TotalRecorded(TallyOf(vset, ballots - (todo - {pk}))) <= vset.Total()
  {
    FromSetFits(TallyOf(vset, ballots - (todo - {pk})), vset);
  }

  /** A bucket holds a quorum exactly when its backers do. */
  lemma TallyCounts(vset: VSet, ballots: Ballots, buckets: Buckets, bid: BlockChoice)
    requires ballots.Keys <= vset.Keys() && Consistent(buckets, TallyOf(vset, ballots))
    ensures PowerFor(buckets, bid) == PowerOf(vset, Backers(ballots, bid))
  {
    var voters := TallyOf(vset, ballots);
    RecountIsPower(voters, vset, bid);
    assert Supporters(voters, bid) == Backers(ballots, bid);
  }

  /** Comparing the best bucket with the threshold finds the choice that reaches a quorum. */
  lemma BestFindsQuorum(vset: VSet, ballots: Ballots, buckets: Buckets, best: BlockChoice)
    requires vset.Valid() && 2 * vset.Total() < U64_LIMIT
    requires ballots.Keys <= vset.Keys() && Consistent(buckets, TallyOf(vset, ballots)) && IsBest(buckets, best)
    ensures QuorumBid(vset, ballots) == if buckets[best] >= QuorumThreshold(vset.Total()) then Some(best) else None
  {
    var voters := TallyOf(vset, ballots);
    var found := QuorumBid(vset, ballots);
    TallyCounts(vset, ballots, buckets, best);
    assert ReachesQuorum(vset, ballots, best) <==> buckets[best] >= QuorumThreshold(vset.Total());
    if found.Some? {
      TallyCounts(vset, ballots, buckets, found.value);
      TotalPositive(vset);
      assert found.value in buckets;
      BestIsCandidate(buckets, voters, vset, best);
      OneQuorumBucket(buckets, voters, vset, best, found.value);
    }
  }

  lemma EmptyTallyHasNone(vset: VSet, ballots: Ballots)
    requires vset.Valid() && 2 * vset.Total() < U64_LIMIT
    requires ballots.Keys <= vset.Keys() && Consistent(map[], TallyOf(vset, ballots))
    ensures QuorumBid(vset, ballots).None?
  {
    var found := QuorumBid(vset, ballots);
    if found.Some? {
      TallyCounts(vset, ballots, map[], found.value);
      TotalPositive(vset);
    }
  }

  /** A verified vote is recorded, and then acted upon. */
  lemma OnVoteParts(env: Env, n: Node, v: Vote, built: Block, stored: Node, sent: seq<Effect>, reported: seq<Effect>)
    requires env.vset.validators != [] && n.state.decided.None? && VerifyVote(env, n.state, v).None?
    requires var (s, ev) := RecordVote(n.state, v);
             && stored == n.(state := StoreVote(s, v))
             && reported == sent + if ev.Some? then [SendEvidence(ev.value)] else []
    ensures var o := OnVote(env, n, v, built);
            var r := React(env, stored, v, built);
            o.node == r.node && o.error == r.error && sent + o.effects == reported + r.effects
  {
  }

  class Engine {
    const env: Env
    const guard: DoubleSignGuard?
    var state: ConsensusState
    var elapsed: nat
    var store: map<Hash32, Block>
    var outbox: seq<Effect>

    ghost function View(): Node
      reads this, guard
    {
      Node(state, if guard == null then None else Some(guard.View()), elapsed, store)
    }

    /** Every counted voter is a validator. */
    ghost predicate Valid()
      reads this
    {
      env.Valid() && forall slot :: slot in state.votes ==> state.votes[slot].Keys <= env.vset.Keys()
    }

    constructor (env: Env, height: Height, guard: DoubleSignGuard?)
      requires env.Valid()
      ensures Valid() && this.env == env && this.guard == guard && outbox == []
      ensures state == InitialState(height) && elapsed == 0 && store == map[]
    {
      this.env, this.guard := env, guard;
      state, elapsed, store, outbox := InitialState(height), 0, map[], [];
    }

    method SignOff(key: SignedKey) returns (ok: bool)
      modifies guard
      ensures (View().guard, ok) == Guarded(old(View().guard), key)
      ensures View() == old(View()).(guard := View().guard)
    {
      ok := true;
      if guard != null {
        ok := guard.Check(key);
        if ok {
          guard.DoRecord(key);
        }
      }
    }

    method DoBroadcastVote(voteType: VoteType, bid: BlockChoice)
      modifies this`outbox, guard
      ensures View() == BroadcastVote(env, old(View()), voteType, bid).0
      ensures outbox == old(outbox) + BroadcastVote(env, old(View()), voteType, bid).1
    {
      var ok := SignOff(VoteKey(voteType, state.height, state.round, bid));
      if ok {
        outbox := outbox + [SendVote(MyVote(env, state, voteType, bid))];
      }
    }

    method DoMaybePropose(built: Block)
      requires env.Valid()
      modifies this, guard
      ensures View() == MaybePropose(env, old(View()), built).0
      ensures outbox == old(outbox) + MaybePropose(env, old(View()), built).1
      ensures state.votes == old(state.votes)
    {
      if state.proposal.Some? || env.vset.ProposerFor(state.height, state.round).pk != env.me {
        return;
      }
      store := store[built.id := built];
      var ok := SignOff(ProposalKey(state.height, state.round, built.id));
      if !ok {
        return;
      }
      var p := MyProposal(env, state, built);
      state := state.(proposal := Some(p), proposalBlock := Some(built));
      outbox := outbox + [SendProposal(p)];
    }

    method DoAdvanceRound(built: Block)
      requires env.Valid()
      modifies this, guard
      ensures View() == AdvanceRound(env, old(View()), built).0
      ensures outbox == old(outbox) + AdvanceRound(env, old(View()), built).1
      ensures state.votes == old(state.votes)
    {
      if state.round + 1 >= env.cfg.maxRounds {
        return;
      }
      state := state.(round := state.round + 1, proposal := None, proposalBlock := None, step := Step.Propose);
      elapsed := 0;
      DoMaybePropose(built);
    }

    method DoTickPropose(firstTick: bool, built: Block)
      requires Valid()
      modifies this, guard
      ensures View() == TickPropose(env, old(View()), firstTick, built).0
      ensures outbox == old(outbox) + TickPropose(env, old(View()), firstTick, built).1
      ensures Valid()
    {
      if firstTick && state.proposal.None? {
        DoMaybePropose(built);
      }
      var complete := env.cfg.fastQuorum && state.proposal.Some? && state.proposalBlock.Some?;
      if complete || elapsed >= env.cfg.proposeTimeout {
        state := state.(step := Step.Prevote);
        elapsed := 0;
        DoBroadcastVote(VoteType.Prevote, OwnPrevote(state));
      }
    }

    method DoTick(dt: nat, built: Block)
      requires Valid()
      modifies this, guard
      ensures View() == Tick(env, old(View()), dt, built).0
      ensures outbox == old(outbox) + Tick(env, old(View()), dt, built).1
      ensures Valid()
    {
      if state.decided.Some? {
        return;
      }
      elapsed := SaturatingAdd(elapsed, dt);
      match state.step {
        case Propose =>
          DoTickPropose(elapsed == dt, built);
        case Prevote =>
          if elapsed >= env.cfg.prevoteTimeout {
            DoAdvanceRound(built);
          }
        case Precommit =>
          if elapsed >= env.cfg.precommitTimeout {
            DoAdvanceRound(built);
          }
        case Commit =>
      }
    }

    method DoOnProposal(p: Proposal) returns (error: Option<EngineError>)
      requires Valid()
      modifies this, guard
      ensures var o := OnProposal(env, old(View()), p);
              View() == o.node && outbox == old(outbox) + o.effects && error == o.error
      ensures Valid()
    {
      if state.decided.Some? {
        return None;
      }
      error := VerifyProposal(env, state, p);
      if error.Some? {
        return;
      }
      if p.block.Some? {
        store := store[p.block.value.id := p.block.value];
      }
      if p.blockId !in store {
        outbox := outbox + [RequestBlock(p.blockId)];
        state := state.(step := Step.Prevote);
        elapsed := 0;
        DoBroadcastVote(VoteType.Prevote, None);
        state := state.(proposal := Some(p), proposalBlock := None);
        return;
      }
      var block := store[p.blockId];
      if !env.executes(block, p.proposer, p.proposer) {
        state := state.(step := Step.Prevote);
        elapsed := 0;
        DoBroadcastVote(VoteType.Prevote, None);
        return;
      }
      state := state.(proposal := Some(p), proposalBlock := Some(block), step := Step.Prevote);
      elapsed := 0;
      DoBroadcastVote(VoteType.Prevote, PrevoteChoice(state, p.blockId));
    }

    method DoOnBlockReceived(block: Block)
      requires Valid()
      modifies this, guard
      ensures View() == OnBlockReceived(env, old(View()), block).0
      ensures outbox == old(outbox) + OnBlockReceived(env, old(View()), block).1
      ensures Valid()
    {
      store := store[block.id := block];
      if state.proposal.Some? && state.proposal.value.blockId == block.id && state.proposalBlock.None? {
        state := state.(proposalBlock := Some(block));
        if state.step == Step.Prevote {
          DoBroadcastVote(VoteType.Prevote, PrevoteChoice(state, block.id));
        }
      }
    }

    /** Feed the ballots to a new tally, in key order. */
    method CountBallots(ballots: Ballots) returns (tally: VoteTally)
      requires env.Valid() && ballots.Keys <= env.vset.Keys()
      ensures fresh(tally) && tally.Valid() && tally.voters == TallyOf(env.vset, ballots)
    {
      tally := new VoteTally(false);
      var todo := ballots.Keys;
      while todo != {}
        invariant todo <= ballots.Keys && fresh(tally)
        invariant tally.Valid() && !tally.allowDuplicates
        invariant tally.voters == TallyOf(env.vset, ballots - todo)
        decreases |todo|
      {
        var pk := MinKey(todo);
        TallyNext(env.vset, ballots, todo, pk);
        var _ := tally.AddVote(env.vset, pk, ballots[pk].blockId);
        todo := todo - {pk};
      }
      assert ballots - {} == ballots;
    }

    /** Count the ballots of a slot and compare the best choice with the threshold. */
    method Tally(slot: Slot) returns (quorum: Option<BlockChoice>)
      requires Valid()
      ensures quorum == QuorumBid(env.vset, BallotsAt(state, slot))
    {
      var ballots := BallotsAt(state, slot);
      var tally := CountBallots(ballots);
      var best := tally.Best();
      quorum := None;
      if best.Some? {
        BestFindsQuorum(env.vset, ballots, tally.buckets, best.value);
        if tally.buckets[best.value] >= QuorumThreshold(env.vset.Total()) {
          quorum := best;
        }
      } else {
        EmptyTallyHasNone(env.vset, ballots);
      }
    }

    method CollectVotes(slot: Slot, bid: Hash32) returns (out: seq<Vote>)
      ensures out == Collect(BallotsAt(state, slot), BallotsAt(state, slot).Keys, bid)
    {
      var ballots := BallotsAt(state, slot);
      var todo := ballots.Keys;
      out := [];
      while todo != {}
        invariant todo <= ballots.Keys
        invariant out + Collect(ballots, todo, bid) == Collect(ballots, ballots.Keys, bid)
        decreases |todo|
      {
        var pk := MinKey(todo);
        if ballots[pk].blockId == Some(bid) {
          out := out + [ballots[pk]];
        }
        todo := todo - {pk};
      }
    }

    method RecordVoteAndDetectEvidence(v: Vote) returns (ev: Option<DoubleVote>)
      modifies this`state
      ensures (state, ev) == RecordVote(old(state), v)
    {
      var key := KeyOf(v);
      ev := None;
      if key in state.voteIndex {
        var prev := state.voteIndex[key];
        if prev.bid != v.blockId {
          ev := Some(DoubleVote(v.voter, v.height, v.round, v.voteType, prev.bid, v.blockId, prev.vote, v));
        }
      } else {
        state := state.(voteIndex := state.voteIndex[key := Indexed(v.blockId, v)]);
      }
    }

    /** Index the vote, report a double vote, and store the vote as the voter's ballot. */
    method AcceptVote(v: Vote)
      requires Valid() && v.voter in env.vset.Keys()
      modifies this
      ensures var (s, ev) := RecordVote(old(state), v);
              && View() == old(View()).(state := StoreVote(s, v))
              && outbox == old(outbox) + if ev.Some? then [SendEvidence(ev.value)] else []
      ensures Valid()
    {
      var ev := RecordVoteAndDetectEvidence(v);
      if ev.Some? {
        outbox := outbox + [SendEvidence(ev.value)];
      }
      state := StoreVote(state, v);
    }

    method DoDecide(round: Round, bid: Hash32) returns (error: Option<EngineError>)
      requires Valid()
      modifies this
      ensures var o := Decide(env, old(View()), round, bid);
              View() == o.node && outbox == old(outbox) + o.effects && error == o.error
      ensures Valid()
    {
      if bid !in store {
        outbox := outbox + [RequestBlock(bid)];
        return None;
      }
      var block := store[bid];
      if !env.executes(block, block.proposerPk, env.vset.ProposerFor(state.height, round).pk) {
        return Some(ExecutionFailed);
      }
      var precommits := CollectVotes(Slot(round, VoteType.Precommit), bid);
      var cert := CommitCertificate(state.height, bid, precommits);
      state := state.(decided := Some(cert), step := Step.Commit);
      elapsed := 0;
      outbox := outbox + [Committed(cert, block)];
      error := None;
    }

    method DoReact(v: Vote, built: Block) returns (error: Option<EngineError>)
      requires Valid()
      modifies this, guard
      ensures var o := React(env, old(View()), v, built);
              View() == o.node && outbox == old(outbox) + o.effects && error == o.error
      ensures Valid()
    {
      error := None;
      if v.voteType == VoteType.Prevote && state.step == Step.Prevote {
        var quorum := Tally(Slot(v.round, v.voteType));
        if quorum.Some? {
          if quorum.value.Some? {
            var bid := quorum.value.value;
            state := state.(validRound := Some(state.round), validValue := Some(bid),
                            lockedRound := Some(state.round), lockedValue := Some(bid), step := Step.Precommit);
            elapsed := 0;
            DoBroadcastVote(VoteType.Precommit, Some(bid));
          } else {
            DoAdvanceRound(built);
          }
        }
      } else if v.voteType == VoteType.Precommit && state.step == Step.Precommit {
        var quorum := Tally(Slot(v.round, v.voteType));
        if quorum.Some? {
          if quorum.value.Some? {
            error := DoDecide(v.round, quorum.value.value);
          } else {
            DoAdvanceRound(built);
          }
        }
      }
    }

    method DoOnVote(v: Vote, built: Block) returns (error: Option<EngineError>)
      requires Valid()
      modifies this, guard
      ensures var o := OnVote(env, old(View()), v, built);
              View() == o.node && outbox == old(outbox) + o.effects && error == o.error
      ensures Valid()
    {
      if state.decided.Some? {
        return None;
      }
      error := VerifyVote(env, state, v);
      if error.Some? {
        return;
      }
      ghost var n, sent := View(), outbox;
      AcceptVote(v);
      ghost var stored, reported := View(), outbox;
      error := DoReact(v, built);
      OnVoteParts(env, n, v, built, stored, sent, reported);
    }
  }

  /** `CommitCertificate::verify` */
  method CheckCertificate(cert: CommitCertificate, vset: VSet, verify: Verifier) returns (error: Option<EngineError>)
    ensures error == VerifyCertificate(cert, vset, verify)
  {
    var votes := cert.precommits;
    var power := 0;
    for i := 0 to |votes|
      invariant FirstFault(vset, verify, votes[..i]).None?
      invariant power == ListedPower(vset, votes[..i])
    {
      var v := votes[i];
      assert votes[..i + 1][..i] == votes[..i];
      if v.voter !in vset.Keys() || !verify(v.voter, v.SignBytes(), v.signature) {
        FaultStays(vset, verify, votes, i + 1);
        return VoteFault(vset, verify, v);
      }
      power := SaturatingAdd(power, vset.Power(v.voter));
    }
    assert votes[..|votes|] == votes;
    error := if power < QuorumThreshold(vset.Total()) then Some(QuorumNotReached) else None;
  }

  /** The first fault of a prefix is the first fault of the list. */
  lemma {:induction false} FaultStays(vset: VSet, verify: Verifier, votes: seq<Vote>, i: nat)
    requires i <= |votes| && FirstFault(vset, verify, votes[..i]).Some?
    ensures FirstFault(vset, verify, votes) == FirstFault(vset, verify, votes[..i])
    decreases |votes|
  {
    if i < |votes| {
      var n := |votes| - 1;
      assert votes[..n][..i] == votes[..i];
      FaultStays(vset, verify, votes[..n], i);
    } else {
      assert votes[..i] == votes;
    }
  }
}
