/** What correct engines vote for and decide, along every run. */
module Validity {
  import opened Common
  import opened Power
  import opened Messages
  import opened Quorum
  import opened DoubleSign
  import opened EngineSpec
  import opened Certificates
  import opened Protocol
  import opened Locking
  import opened NodeSteps
  import opened Agreement

  // ---------------------------------------------------------------------------
  // The steps of a run
  // ---------------------------------------------------------------------------

  /** Every beginning of a run is a run. */
  lemma {:induction false} RunPrefix(sys: Sys, net: Network, events: seq<Event>, k: nat)
    requires sys.Valid() && IsRun(sys, net, events) && k <= |events|
    ensures IsRun(sys, net, events[..k])
    decreases k
  {
    if k > 0 {
      RunPrefix(sys, Apply(sys, net, events[0]), events[1..], k - 1);
      assert events[..k][1..] == events[1..][..k - 1];
    }
  }

  /** And the next event is enabled after it. */
  lemma {:induction false} RunStep(sys: Sys, net: Network, events: seq<Event>, k: nat)
    requires sys.Valid() && IsRun(sys, net, events) && k < |events|
    ensures IsRun(sys, net, events[..k]) && IsRun(sys, net, events[..k + 1])
    ensures var before := After(sys, net, events[..k]);
            Enabled(sys, before, events[k]) && After(sys, net, events[..k + 1]) == Apply(sys, before, events[k])
    decreases k
  {
    RunPrefix(sys, net, events, k);
    RunPrefix(sys, net, events, k + 1);
    if k > 0 {
      var net1, tail := Apply(sys, net, events[0]), events[1..];
      RunStep(sys, net1, tail, k - 1);
      AfterCons(sys, net, events[..k], net1, tail[..k - 1]);
      AfterCons(sys, net, events[..k + 1], net1, tail[..k]);
    } else {
      AfterCons(sys, net, events[..1], Apply(sys, net, events[0]), []);
    }
  }

  lemma AfterCons(sys: Sys, net: Network, events: seq<Event>, net1: Network, tail: seq<Event>)
    requires sys.Valid() && events != [] && IsRun(sys, net, events) && net1 == Apply(sys, net, events[0])
    requires |tail| + 1 == |events| && forall i :: 0 <= i < |tail| ==> tail[i] == events[i + 1]
    ensures IsRun(sys, net1, tail) && After(sys, net, events) == After(sys, net1, tail)
  {
    assert events[1..] == tail;
  }

  /** What the engine of the `k`-th event makes of it. */
  ghost function StepAt(sys: Sys, start: Network, events: seq<Event>, k: nat): Outcome
    requires sys.Valid() && IsRun(sys, start, events) && k < |events|
  {
    RunStep(sys, start, events, k);
    Next(sys.envs[events[k].pk], After(sys, start, events[..k]).nodes[events[k].pk], events[k].input)
  }

  // ---------------------------------------------------------------------------
  // Prevotes
  // ---------------------------------------------------------------------------

  /** The block is in the store, and executing it gives what its header says. */
  ghost predicate Runs(env: Env, store: map<Hash32, Block>, id: Hash32, credited: PublicKey, expected: PublicKey)
  {
    id in store && env.executes(store[id], credited, expected)
  }

  /** One broadcast sends at most one vote, and that one for the choice given. */
  lemma BroadcastSends(env: Env, n: Node, t: VoteType, bid: BlockChoice, v: Cast)
    requires v in CastsOf(BroadcastVote(env, n, t, bid).1)
    ensures v == Cast(env.me, t, n.state.round, bid)
  {
  }

  lemma RequestSends(id: Hash32, out: seq<Effect>)
    ensures CastsOf([RequestBlock(id)] + out) == CastsOf(out)
  {
    CastsSuffix([RequestBlock(id)], out);
  }

  /** A prevote for a block, in reply to a proposal, names the block proposed, which executes. */
  ghost predicate PrevotesOnly(env: Env, n: Node, p: Proposal, o: Outcome, v: Cast)
  {
    && v == Cast(env.me, VoteType.Prevote, n.state.round, Some(p.blockId))
    && Runs(env, o.node.store, p.blockId, p.proposer, p.proposer)
    && p.round == n.state.round && p.height == n.state.height
    && (n.state.lockedValue.Some? ==> n.state.lockedValue.value == p.blockId)
  }

  lemma ProposalPrevotes(env: Env, n: Node, p: Proposal, v: Cast)
    requires env.vset.validators != []
    requires v in CastsOf(OnProposal(env, n, p).effects) && v.choice.Some?
    ensures PrevotesOnly(env, n, p, OnProposal(env, n, p), v)
    ensures p.proposer == env.vset.ProposerFor(n.state.height, n.state.round).pk
  {
    var store := if p.block.Some? then n.store[p.block.value.id := p.block.value] else n.store;
    var prevoting := n.(store := store, elapsed := 0, state := n.state.(step := Step.Prevote));
    if p.blockId !in store {
      RequestSends(p.blockId, BroadcastVote(env, prevoting, VoteType.Prevote, None).1);
      BroadcastSends(env, prevoting, VoteType.Prevote, None, v);
    } else if !env.executes(store[p.blockId], p.proposer, p.proposer) {
      BroadcastSends(env, prevoting, VoteType.Prevote, None, v);
    } else {
      var ready := prevoting.(state := prevoting.state.(proposal := Some(p), proposalBlock := Some(store[p.blockId])));
      BroadcastSends(env, ready, VoteType.Prevote, PrevoteChoice(n.state, p.blockId), v);
    }
  }

  /** Along every run: when a correct engine prevotes a block in reply to a proposal, the proposal is the
      one of the proposer of the round, and the block is in its store and executes. */
  lemma PrevotesExecute(sys: Sys, start: Network, events: seq<Event>, k: nat, p: Proposal, v: Cast)
    requires sys.Valid() && Init(sys, start) && IsRun(sys, start, events) && k < |events|
    requires events[k].input == GotProposal(p)
    requires v in CastsOf(StepAt(sys, start, events, k).effects) && v.choice.Some?
    ensures events[k].pk in sys.envs && v == Cast(events[k].pk, VoteType.Prevote, p.round, Some(p.blockId))
    ensures p.height == sys.height && p.proposer == sys.ProposerOf(p.round)
    ensures Runs(sys.envs[events[k].pk], StepAt(sys, start, events, k).node.store, p.blockId, p.proposer, p.proposer)
  {
    RunStep(sys, start, events, k);
    ReachedGood(sys, start, events[..k]);
    var pk := events[k].pk;
    var n := After(sys, start, events[..k]).nodes[pk];
    ProposalPrevotes(sys.envs[pk], n, p, v);
  }

  // ---------------------------------------------------------------------------
  // Decisions
  // ---------------------------------------------------------------------------

  /** The engine decides in this step: the block is in its store, it executes for the proposer of the
      round, and it is handed out with the certificate. */
  ghost predicate DecidesHere(env: Env, n: Node, o: Outcome, round: Round)
    requires env.vset.validators != []
  {
    && n.state.decided.None? && o.node.state.decided.Some?
    && var id := o.node.state.decided.value.blockId;
       && id in n.store && o.node.store == n.store
       && env.executes(n.store[id], n.store[id].proposerPk, env.vset.ProposerFor(n.state.height, round).pk)
       && Committed(o.node.state.decided.value, n.store[id]) in o.effects
  }

  /** The round of the vote on which an engine decides. */
  lemma ReactDecides(env: Env, n: Node, v: Vote, built: Block)
    requires env.vset.validators != [] && n.state.decided.None?
    requires React(env, n, v, built).node.state.decided.Some?
    ensures v.voteType == VoteType.Precommit && DecidesHere(env, n, React(env, n, v, built), v.round)
    ensures exists bid: Hash32 :: QuorumBid(env.vset, BallotsAt(n.state, Slot(v.round, v.voteType))) == Some(Some(bid))
                                  && React(env, n, v, built) == Decide(env, n, v.round, bid)
  {
    var quorum := QuorumBid(env.vset, BallotsAt(n.state, Slot(v.round, v.voteType)));
    if v.voteType == VoteType.Precommit && quorum.Some? && quorum.value.Some? {
      assert React(env, n, v, built) == Decide(env, n, v.round, quorum.value.value);
    }
  }

  /** Only a precommit makes an engine decide, and a decision stays. */
  lemma NextDecides(env: Env, n: Node, input: Input)
    requires env.vset.validators != []
    ensures n.state.decided.Some? ==> Next(env, n, input).node.state.decided == n.state.decided
    ensures n.state.decided.None? && Next(env, n, input).node.state.decided.Some? ==>
              && input.GotVote? && VerifyVote(env, n.state, input.vote).None?
              && DecidesHere(env, n, Next(env, n, input), input.vote.round)
              && CollectedAt(n, input.vote, Next(env, n, input).node.state)
  {
    match input
    case Clock(dt, built) => TickUndecided(env, n, dt, built);
    case GotProposal(p) =>
    case GotBlock(b) =>
    case GotVote(v, built) =>
      if n.state.decided.None? && OnVote(env, n, v, built).node.state.decided.Some? {
        VoteDecides(env, n, v, built);
      }
  }

  lemma TickUndecided(env: Env, n: Node, dt: nat, built: Block)
    requires env.vset.validators != []
    ensures Tick(env, n, dt, built).0.state.decided == n.state.decided
  {
  }

  /** The certificate lists the precommits that the engine holds of the round of the vote. */
  ghost predicate CollectedAt(n: Node, v: Vote, after: ConsensusState)
  {
    && after.decided.Some?
    && var ballots := BallotsAt(after, Slot(v.round, VoteType.Precommit));
       after.decided.value.precommits == Collect(ballots, ballots.Keys, after.decided.value.blockId)
  }

  lemma VoteDecides(env: Env, n: Node, v: Vote, built: Block)
    requires env.vset.validators != [] && n.state.decided.None? && VerifyVote(env, n.state, v).None?
    requires OnVote(env, n, v, built).node.state.decided.Some?
    ensures DecidesHere(env, n, OnVote(env, n, v, built), v.round)
    ensures CollectedAt(n, v, OnVote(env, n, v, built).node.state)
  {
    var (s1, ev) := RecordVote(n.state, v);
    var n1 := n.(state := StoreVote(s1, v));
    ReactDecides(env, n1, v, built);
    var r := React(env, n1, v, built);
    var report := if ev.Some? then [SendEvidence(ev.value)] else [];
    assert OnVote(env, n, v, built) == r.(effects := report + r.effects);
  }

  /** Every precommit of such a certificate is of the round of the vote. */
  lemma CollectedRound(sys: Sys, sent: set<Cast>, env: Env, n: Node, v: Vote, s: ConsensusState, i: nat)
    requires HeldInv(sys, sent, env, s) && CollectedAt(n, v, s) && i < |s.decided.value.precommits|
    ensures s.decided.value.precommits[i].round == v.round
  {
    var slot := Slot(v.round, VoteType.Precommit);
    var ballots := BallotsAt(s, slot);
    forall pk | pk in ballots ensures ballots[pk].voter == pk && ballots[pk].round == v.round {
      assert pk in s.votes[slot];
    }
    CollectCorrect(ballots, ballots.Keys, s.decided.value.blockId);
  }

  /** The step in which an engine decided. */
  lemma {:induction false} DecisionStep(sys: Sys, start: Network, events: seq<Event>, p: PublicKey) returns (k: nat)
    requires sys.Valid() && Init(sys, start) && IsRun(sys, start, events)
    requires p in After(sys, start, events).nodes && After(sys, start, events).nodes[p].state.decided.Some?
    ensures k < |events| && events[k].pk == p && p in sys.envs
    ensures StepAt(sys, start, events, k).node.state.decided == After(sys, start, events).nodes[p].state.decided
    ensures IsRun(sys, start, events[..k]) && p in After(sys, start, events[..k]).nodes
    ensures After(sys, start, events[..k]).nodes[p].state.decided.None?
    decreases |events|
  {
    assert events != [];
    var last := |events| - 1;
    RunStep(sys, start, events, last);
    assert events[..last + 1] == events;
    var before, e := After(sys, start, events[..last]), events[last];
    assert p in before.nodes;
    NextDecides(sys.envs[e.pk], before.nodes[e.pk], e.input);
    if before.nodes[p].state.decided.Some? {
      k := DecisionStep(sys, start, events[..last], p);
      assert events[..last][..k] == events[..k] && events[..last][k] == events[k];
    } else {
      k := last;
    }
  }

  /** Along every run: the block that a correct engine decided was in its store when it decided, and executed
      for the proposer of the round of the certificate. */
  lemma DecisionsExecute(sys: Sys, start: Network, events: seq<Event>, p: PublicKey, id: Hash32, round: Round)
    returns (k: nat)
    requires sys.Valid() && Init(sys, start) && IsRun(sys, start, events)
    requires DecidedIn(After(sys, start, events), p, id, round)
    ensures k < |events| && events[k].pk == p && p in sys.envs && IsRun(sys, start, events[..k])
    ensures p in After(sys, start, events[..k]).nodes
    ensures var env, store := sys.envs[p], After(sys, start, events[..k]).nodes[p].store;
            && id in store && env.executes(store[id], store[id].proposerPk, sys.ProposerOf(round))
            && Committed(After(sys, start, events).nodes[p].state.decided.value, store[id])
               in StepAt(sys, start, events, k).effects
  {
    k := DecisionStep(sys, start, events, p);
    RunStep(sys, start, events, k);
    ReachedGood(sys, start, events[..k]);
    ReachedGood(sys, start, events[..k + 1]);
    var before, after := After(sys, start, events[..k]), After(sys, start, events[..k + 1]);
    StepExecutes(sys, RunDefiance(sys, start, events[..k]), RunDefiance(sys, start, events[..k + 1]),
                 before, events[k], after, id, round);
  }

  lemma StepExecutes(sys: Sys, ex: Exempt, ex': Exempt, net: Network, e: Event, net': Network, id: Hash32, round: Round)
    requires sys.Valid() && NetInv(sys, ex, net) && Enabled(sys, net, e) && net' == Apply(sys, net, e)
    requires NetInv(sys, ex', net') && net.nodes[e.pk].state.decided.None? && DecidedIn(net', e.pk, id, round)
    ensures var env, store := sys.envs[e.pk], net.nodes[e.pk].store;
            && id in store && env.executes(store[id], store[id].proposerPk, sys.ProposerOf(round))
            && Committed(net'.nodes[e.pk].state.decided.value, store[id]) in Next(env, net.nodes[e.pk], e.input).effects
  {
    var env, n, s := sys.envs[e.pk], net.nodes[e.pk], net'.nodes[e.pk].state;
    NextDecides(env, n, e.input);
    assert NodeInv(sys, ex', net'.sent, e.pk, net'.nodes[e.pk]);
    DecidedNonempty(sys, net'.sent, env, s);
    CollectedRound(sys, net'.sent, env, n, e.input.vote, s, 0);
    assert NodeInv(sys, ex, net.sent, e.pk, n);
  }

  lemma DecidedNonempty(sys: Sys, sent: set<Cast>, env: Env, s: ConsensusState)
    requires sys.Valid() && DecidedInv(sys, sent, env, s) && s.decided.Some?
    ensures s.decided.value.precommits != []
  {
    var r: Round :| GoodCertificate(sys, sent, env, s.decided.value, r);
  }
}
