/** Safety of whole runs: every step of every correct engine keeps the network invariant,
    so no two engines decide differently, every decision is certified, and no correct
    engine is accused. */
module Agreement {
  import opened Common
  import opened Power
  import opened Messages
  import opened Quorum
  import opened Evidence
  import opened EngineSpec
  import opened Certificates
  import opened Protocol
  import opened Locking
  import opened NodeSteps

  /** A step of one engine is good: the engine keeps its invariant, and what it sends is faithful. */
  ghost predicate GoodStep(sys: Sys, ex: Exempt, sent: set<Cast>, pk: PublicKey, n: Node, out: seq<Effect>)
    requires sys.vset.validators != [] && pk in sys.envs
  {
    NodeInv(sys, ex, sent + CastsOf(out), pk, n) && Faithful(sys, sent, pk, out)
  }

  lemma QuietStep(sys: Sys, ex: Exempt, sent: set<Cast>, pk: PublicKey, n: Node, out: seq<Effect>)
    requires sys.vset.validators != [] && pk in sys.envs
    requires NodeInv(sys, ex, sent, pk, n) && Quiet(sys, pk, out)
    ensures GoodStep(sys, ex, sent, pk, n, out)
  {
    QuietEffects(sys, sent, pk, out);
    assert sent + CastsOf(out) == sent;
  }

  ghost predicate Acting(sys: Sys, ex: Exempt, sent: set<Cast>, pk: PublicKey, n: Node, entries: nat)
  {
    && sys.Valid() && pk in sys.envs
    && NodeInv(sys, ex, sent, pk, n) && Roomy(n.guard.value, entries)
  }

  /** Entering the prevote step, from whatever step, with a vote the lock permits. */
  lemma PrevoteGood(sys: Sys, ex: Exempt, sent: set<Cast>, pk: PublicKey, n: Node, p: Node, bid: BlockChoice)
    requires Acting(sys, ex, sent, pk, n, 1)
    requires p.guard == n.guard && SameHeld(n.state, p.state)
    requires CoreOf(p) == CoreOf(n).(step := Step.Prevote, proposed := p.state.proposal.Some?)
    requires MayPrevote(sys, ex, pk, CoreOf(n), bid)
    ensures var (after, out) := BroadcastVote(sys.envs[pk], p, VoteType.Prevote, bid);
            GoodStep(sys, ex, sent, pk, after, out)
  {
    var env := sys.envs[pk];
    var (after, out) := BroadcastVote(env, p, VoteType.Prevote, bid);
    BroadcastCore(sys, env, p, VoteType.Prevote, bid);
    VoteEffects(sys, sent, env, p, VoteType.Prevote, bid);
    PrevoteStep(sys, ex, sent, pk, CoreOf(n), bid, p.state.proposal.Some?);
    HeldGrows(sys, sent, sent + CastsOf(out), env, n.state);
  }

  // ---------------------------------------------------------------------------
  // tick
  // ---------------------------------------------------------------------------

  /** Proposing keeps everything else. */
  lemma MaybeProposeGood(sys: Sys, ex: Exempt, sent: set<Cast>, pk: PublicKey, n: Node, built: Block)
    requires Acting(sys, ex, sent, pk, n, 2) && n.state.proposal.None?
    ensures var (after, out) := MaybePropose(sys.envs[pk], n, built);
            && Acting(sys, ex, sent, pk, after, 1) && after.state.step == n.state.step
            && Quiet(sys, pk, out)
  {
    MaybeProposeCore(sys, sys.envs[pk], n, built);
    var (after, out) := MaybePropose(sys.envs[pk], n, built);
    if after.state.proposal.Some? {
      ProposeStep(sys, ex, sent, pk, CoreOf(n));
    }
    HeldGrows(sys, sent, sent, sys.envs[pk], n.state);
  }

  /** Leaving the propose step: the prevote is for the engine's own proposal, or nil. It is against the
      lock only where the engine is exempt. */
  lemma OwnPrevoteGood(sys: Sys, ex: Exempt, sent: set<Cast>, pk: PublicKey, n: Node)
    requires Acting(sys, ex, sent, pk, n, 1) && n.state.step == Step.Propose
    requires var p := n.(state := n.state.(step := Step.Prevote), elapsed := 0);
             Defiance(n, BroadcastVote(sys.envs[pk], p, VoteType.Prevote, OwnPrevote(p.state)).1) <= ex
    ensures var p := n.(state := n.state.(step := Step.Prevote), elapsed := 0);
            var (after, out) := BroadcastVote(sys.envs[pk], p, VoteType.Prevote, OwnPrevote(p.state));
            GoodStep(sys, ex, sent, pk, after, out)
  {
    var p := n.(state := n.state.(step := Step.Prevote), elapsed := 0);
    var bid := OwnPrevote(p.state);
    OwnMayPrevote(sys, ex, sent, pk, n, p, bid);
    PrevoteGood(sys, ex, sent, pk, n, p, bid);
  }

  lemma OwnMayPrevote(sys: Sys, ex: Exempt, sent: set<Cast>, pk: PublicKey, n: Node, p: Node, bid: BlockChoice)
    requires Acting(sys, ex, sent, pk, n, 1) && n.state.step == Step.Propose
    requires p == n.(state := n.state.(step := Step.Prevote), elapsed := 0)
    requires Defiance(n, BroadcastVote(sys.envs[pk], p, VoteType.Prevote, bid).1) <= ex
    ensures MayPrevote(sys, ex, pk, CoreOf(n), bid)
  {
    var v := Cast(pk, VoteType.Prevote, n.state.round, bid);
    var out := BroadcastVote(sys.envs[pk], p, VoteType.Prevote, bid).1;
    BroadcastCore(sys, sys.envs[pk], p, VoteType.Prevote, bid);
    if v in CastsOf(out) {
      assert Defies(n.state.lockedValue, v) ==> (v.voter, v.round) in Defiance(n, out);
    } else {
      RefusedPrevoted(sys, pk, CoreOf(p), bid);
      var choice: BlockChoice :| Key(sys, VoteType.Prevote, CoreOf(p).round, choice) in CoreOf(p).recorded;
      assert Key(sys, VoteType.Prevote, CoreOf(n).round, choice) in CoreOf(n).recorded;
    }
  }

  /** A prevote is refused only after another one of the round. */
  lemma RefusedPrevoted(sys: Sys, pk: PublicKey, c: Core, bid: BlockChoice)
    requires RecordedOnce(sys, c) && CastVote(sys, pk, c, VoteType.Prevote, bid).1 == {}
    ensures HasPrevoted(sys, c)
  {
    CastPrevoted(sys, pk, c, bid);
  }

  lemma TickProposeGood(sys: Sys, ex: Exempt, sent: set<Cast>, pk: PublicKey, n: Node, firstTick: bool, built: Block)
    requires Acting(sys, ex, sent, pk, n, 2) && n.state.step == Step.Propose
    requires Defiance(n, TickPropose(sys.envs[pk], n, firstTick, built).1) <= ex
    ensures var (after, out) := TickPropose(sys.envs[pk], n, firstTick, built);
            GoodStep(sys, ex, sent, pk, after, out)
  {
    var env := sys.envs[pk];
    var propose := firstTick && n.state.proposal.None?;
    if propose {
      MaybeProposeGood(sys, ex, sent, pk, n, built);
    }
    var (n1, out1) := if propose then MaybePropose(env, n, built) else (n, []);
    QuietStep(sys, ex, sent, pk, n1, out1);
    var complete := env.cfg.fastQuorum && n1.state.proposal.Some? && n1.state.proposalBlock.Some?;
    if complete || n1.elapsed >= env.cfg.proposeTimeout {
      LeaveProposeGood(sys, ex, sent, pk, n, n1, out1);
    }
  }

  /** The prevote at the end of the propose step, after effects that send no vote. */
  lemma LeaveProposeGood(sys: Sys, ex: Exempt, sent: set<Cast>, pk: PublicKey, n: Node, n1: Node, out1: seq<Effect>)
    requires Acting(sys, ex, sent, pk, n1, 1) && n1.state.step == Step.Propose && Quiet(sys, pk, out1)
    requires n1.state.lockedValue == n.state.lockedValue
    requires var n2 := n1.(state := n1.state.(step := Step.Prevote), elapsed := 0);
             Defiance(n, out1 + BroadcastVote(sys.envs[pk], n2, VoteType.Prevote, OwnPrevote(n2.state)).1) <= ex
    ensures var n2 := n1.(state := n1.state.(step := Step.Prevote), elapsed := 0);
            var (n3, out3) := BroadcastVote(sys.envs[pk], n2, VoteType.Prevote, OwnPrevote(n2.state));
            GoodStep(sys, ex, sent, pk, n3, out1 + out3)
  {
    var n2 := n1.(state := n1.state.(step := Step.Prevote), elapsed := 0);
    var (n3, out3) := BroadcastVote(sys.envs[pk], n2, VoteType.Prevote, OwnPrevote(n2.state));
    QuietEffects(sys, sent, pk, out1);
    EffectsConcat(pk, out1, out3);
    assert CastsOf(out1 + out3) == CastsOf(out3);
    SameDefiance(n, n1, out1 + out3, out3);
    OwnPrevoteGood(sys, ex, sent, pk, n1);
    JoinEffects(sys, sent, pk, out1, out3);
  }

  lemma SameDefiance(n: Node, n': Node, out: seq<Effect>, out': seq<Effect>)
    requires n.state.lockedValue == n'.state.lockedValue && CastsOf(out) == CastsOf(out')
    ensures Defiance(n, out) == Defiance(n', out')
  {
  }

  lemma AdvanceGood(sys: Sys, ex: Exempt, sent: set<Cast>, pk: PublicKey, n: Node, built: Block)
    requires Acting(sys, ex, sent, pk, n, 1)
    ensures var (after, out) := AdvanceRound(sys.envs[pk], n, built);
            GoodStep(sys, ex, sent, pk, after, out)
  {
    var (after, out) := AdvanceRound(sys.envs[pk], n, built);
    AdvanceCore(sys, ex, sent, sys.envs[pk], n, built);
    QuietStep(sys, ex, sent, pk, after, out);
  }

  lemma TickGood(sys: Sys, ex: Exempt, sent: set<Cast>, pk: PublicKey, n: Node, dt: nat, built: Block)
    requires Acting(sys, ex, sent, pk, n, 2) && Defiance(n, Tick(sys.envs[pk], n, dt, built).1) <= ex
    ensures var (after, out) := Tick(sys.envs[pk], n, dt, built);
            GoodStep(sys, ex, sent, pk, after, out)
  {
    var env := sys.envs[pk];
    var n1 := n.(elapsed := SaturatingAdd(n.elapsed, dt));
    assert CoreOf(n1) == CoreOf(n);
    QuietStep(sys, ex, sent, pk, n, []);
    QuietStep(sys, ex, sent, pk, n1, []);
    if n.state.decided.None? {
      if n.state.step == Step.Propose {
        var out := TickPropose(env, n1, n1.elapsed == dt, built).1;
        SameDefiance(n, n1, out, out);
        TickProposeGood(sys, ex, sent, pk, n1, n1.elapsed == dt, built);
      } else if n.state.step != Step.Commit {
        AdvanceGood(sys, ex, sent, pk, n1, built);
      }
    }
  }

  // ---------------------------------------------------------------------------
  // Proposals and blocks
  // ---------------------------------------------------------------------------

  /** `prevote_choice` respects the lock, and before a round's first prevote the lock is older. */
  lemma ChoiceMayPrevote(sys: Sys, ex: Exempt, sent: set<Cast>, pk: PublicKey, n: Node, id: Hash32)
    requires Acting(sys, ex, sent, pk, n, 1)
    ensures MayPrevote(sys, ex, pk, CoreOf(n), PrevoteChoice(n.state, id))
  {
  }

  lemma OnProposalGood(sys: Sys, ex: Exempt, sent: set<Cast>, pk: PublicKey, n: Node, p: Proposal)
    requires Acting(sys, ex, sent, pk, n, 1)
    ensures var o := OnProposal(sys.envs[pk], n, p);
            GoodStep(sys, ex, sent, pk, o.node, o.effects)
  {
    var env := sys.envs[pk];
    QuietStep(sys, ex, sent, pk, n, []);
    if n.state.decided.None? && VerifyProposal(env, n.state, p).None? {
      var store := if p.block.Some? then n.store[p.block.value.id := p.block.value] else n.store;
      var prevoting := n.(store := store, elapsed := 0, state := n.state.(step := Step.Prevote));
      if p.blockId !in store {
        PrevoteGood(sys, ex, sent, pk, n, prevoting, None);
        var (n1, out) := BroadcastVote(env, prevoting, VoteType.Prevote, None);
        var n2 := n1.(state := n1.state.(proposal := Some(p), proposalBlock := None));
        RequestKeeps(sys, ex, sent, pk, n1, n2, out, p.blockId);
      } else if !env.executes(store[p.blockId], p.proposer, p.proposer) {
        PrevoteGood(sys, ex, sent, pk, n, prevoting, None);
      } else {
        var s := prevoting.state.(proposal := Some(p), proposalBlock := Some(store[p.blockId]));
        var ready := prevoting.(state := s);
        ChoiceMayPrevote(sys, ex, sent, pk, n, p.blockId);
        PrevoteGood(sys, ex, sent, pk, n, ready, PrevoteChoice(n.state, p.blockId));
      }
    }
  }

  /** Asking for a block and setting the proposal outside the propose step changes nothing else. */
  lemma RequestKeeps(sys: Sys, ex: Exempt, sent: set<Cast>, pk: PublicKey, n: Node, n': Node, out: seq<Effect>,
                     id: Hash32)
    requires sys.vset.validators != [] && pk in sys.envs && GoodStep(sys, ex, sent, pk, n, out)
    requires n.state.step == Step.Prevote && n' == n.(state := n'.state)
    requires n'.state == n.state.(proposal := n'.state.proposal, proposalBlock := n'.state.proposalBlock)
    ensures GoodStep(sys, ex, sent, pk, n', [RequestBlock(id)] + out)
  {
    var ask := [RequestBlock(id)];
    QuietEffects(sys, sent, pk, ask);
    JoinEffects(sys, sent, pk, ask, out);
    assert CastsOf(ask + out) == CastsOf(out);
    ProposalKeeps(sys, ex, sent + CastsOf(out), pk, CoreOf(n), n'.state.proposal.Some?);
  }

  lemma ProposalKeeps(sys: Sys, ex: Exempt, sent: set<Cast>, pk: PublicKey, c: Core, proposed: bool)
    requires sys.vset.validators != [] && CoreInv(sys, ex, sent, pk, c) && c.step != Step.Propose
    ensures CoreInv(sys, ex, sent, pk, c.(proposed := proposed))
  {
    var choice: BlockChoice :| Key(sys, VoteType.Prevote, c.round, choice) in c.recorded;
    assert Key(sys, VoteType.Prevote, c.(proposed := proposed).round, choice) in c.(proposed := proposed).recorded;
  }

  lemma OnBlockGood(sys: Sys, ex: Exempt, sent: set<Cast>, pk: PublicKey, n: Node, block: Block)
    requires Acting(sys, ex, sent, pk, n, 1)
    ensures var (after, out) := OnBlockReceived(sys.envs[pk], n, block);
            GoodStep(sys, ex, sent, pk, after, out)
  {
    var s := n.state;
    var n1 := n.(store := n.store[block.id := block]);
    var n2 := n1.(state := s.(proposalBlock := Some(block)));
    assert CoreOf(n1) == CoreOf(n) && CoreOf(n2) == CoreOf(n);
    QuietStep(sys, ex, sent, pk, n1, []);
    QuietStep(sys, ex, sent, pk, n2, []);
    if s.proposal.Some? && s.proposal.value.blockId == block.id && s.proposalBlock.None? && s.step == Step.Prevote {
      ChoiceMayPrevote(sys, ex, sent, pk, n, block.id);
      PrevoteGood(sys, ex, sent, pk, n, n2, PrevoteChoice(s, block.id));
    }
  }

  // ---------------------------------------------------------------------------
  // Votes
  // ---------------------------------------------------------------------------

  /** Storing a good vote keeps the ballots and the index good, and accuses no correct voter. */
  lemma StoreGood(sys: Sys, ex: Exempt, sent: set<Cast>, pk: PublicKey, n: Node, v: Vote)
    requires Acting(sys, ex, sent, pk, n, 1) && SentOnce(sent)
    requires GoodVote(sys, sent, sys.envs[pk], v)
    ensures var (s1, ev) := RecordVote(n.state, v);
            && HeldInv(sys, sent, sys.envs[pk], StoreVote(s1, v))
            && (ev.Some? ==> ev.value.voter !in sys.envs)
  {
    var env := sys.envs[pk];
    var (s1, ev) := RecordVote(n.state, v);
    var s2 := StoreVote(s1, v);
    assert IndexInv(sys, sent, env, s1);
    forall slot, k | slot in s2.votes && k in s2.votes[slot]
      ensures var w := s2.votes[slot][k];
              w.voter == k && Slot(w.round, w.voteType) == slot && GoodVote(sys, sent, env, w)
    {
      var w := s2.votes[slot][k];
      if w != v {
        assert slot in n.state.votes && k in n.state.votes[slot] && n.state.votes[slot][k] == w;
      }
    }
  }

  /** A quorum in an engine's ballots is a quorum of the network. */
  lemma BallotQuorum(sys: Sys, sent: set<Cast>, env: Env, s: ConsensusState, slot: Slot, bid: BlockChoice)
    requires sys.Valid() && BallotInv(sys, sent, env, s)
    requires ReachesQuorum(sys.vset, BallotsAt(s, slot), bid)
    ensures HasQuorum(sys, sent, slot.voteType, slot.round, bid)
  {
    var backers := Backers(BallotsAt(s, slot), bid);
    var backing := Backing(sys, sent, slot.voteType, slot.round, bid);
    forall pk | pk in backers ensures pk in backing {
      var v := s.votes[slot][pk];
      assert v.voter == pk && GoodVote(sys, sent, env, v) && Slot(v.round, v.voteType) == slot;
    }
    SumMonotone(backers, backing, (pk: PublicKey) => sys.vset.Power(pk));
  }

  lemma LockGood(sys: Sys, ex: Exempt, sent: set<Cast>, pk: PublicKey, n: Node, bid: Hash32)
    requires Acting(sys, ex, sent, pk, n, 1) && SentOnce(sent)
    requires n.state.step == Step.Prevote && HasQuorum(sys, sent, VoteType.Prevote, n.state.round, Some(bid))
    ensures var (after, out) := LockAndPrecommit(sys.envs[pk], n, bid);
            GoodStep(sys, ex, sent, pk, after, out)
  {
    var env := sys.envs[pk];
    var s := n.state.(validRound := Some(n.state.round), validValue := Some(bid),
                      lockedRound := Some(n.state.round), lockedValue := Some(bid), step := Step.Precommit);
    var l := n.(state := s, elapsed := 0);
    LockStep(sys, ex, sent, pk, CoreOf(n), bid);
    BroadcastCore(sys, env, l, VoteType.Precommit, Some(bid));
    VoteEffects(sys, sent, env, l, VoteType.Precommit, Some(bid));
    var out := BroadcastVote(env, l, VoteType.Precommit, Some(bid)).1;
    HeldGrows(sys, sent, sent + CastsOf(out), env, n.state);
  }

  /** The certificate made on a precommit quorum is good. */
  lemma DecisionCertified(sys: Sys, sent: set<Cast>, env: Env, s: ConsensusState, round: Round, bid: Hash32)
    requires sys.Valid() && HeldInv(sys, sent, env, s)
    requires ReachesQuorum(sys.vset, BallotsAt(s, Slot(round, VoteType.Precommit)), Some(bid))
    ensures var ballots := BallotsAt(s, Slot(round, VoteType.Precommit));
            var cert := CommitCertificate(s.height, bid, Collect(ballots, ballots.Keys, bid));
            GoodCertificate(sys, sent, env, cert, round)
  {
    var slot := Slot(round, VoteType.Precommit);
    var ballots := BallotsAt(s, slot);
    var cert := CommitCertificate(s.height, bid, Collect(ballots, ballots.Keys, bid));
    forall pk | pk in ballots
      ensures ballots[pk].voter == pk && GoodVote(sys, sent, env, ballots[pk])
      ensures Slot(ballots[pk].round, ballots[pk].voteType) == slot
    {
      assert pk in s.votes[slot];
    }
    CollectedCertificate(sys.vset, env.verify, ballots, s.height, bid);
    CertificateSound(cert, sys.vset, env.verify);
    BallotQuorum(sys, sent, env, s, slot, Some(bid));
  }

  lemma DecideGood(sys: Sys, ex: Exempt, sent: set<Cast>, pk: PublicKey, n: Node, round: Round, bid: Hash32)
    requires Acting(sys, ex, sent, pk, n, 1) && n.state.step == Step.Precommit
    requires ReachesQuorum(sys.vset, BallotsAt(n.state, Slot(round, VoteType.Precommit)), Some(bid))
    ensures var o := Decide(sys.envs[pk], n, round, bid);
            GoodStep(sys, ex, sent, pk, o.node, o.effects)
  {
    var env := sys.envs[pk];
    var o := Decide(env, n, round, bid);
    if o.node != n {
      DecisionCertified(sys, sent, env, n.state, round, bid);
      CommitStep(sys, ex, sent, pk, CoreOf(n));
      assert CoreOf(o.node) == CoreOf(n).(step := Step.Commit);
    }
    QuietStep(sys, ex, sent, pk, o.node, o.effects);
  }

  lemma ReactGood(sys: Sys, ex: Exempt, sent: set<Cast>, pk: PublicKey, n: Node, v: Vote, built: Block)
    requires Acting(sys, ex, sent, pk, n, 1) && SentOnce(sent) && v.round == n.state.round
    ensures var o := React(sys.envs[pk], n, v, built);
            GoodStep(sys, ex, sent, pk, o.node, o.effects)
  {
    var env := sys.envs[pk];
    var slot := Slot(v.round, v.voteType);
    var quorum := QuorumBid(env.vset, BallotsAt(n.state, slot));
    if quorum.None? || (v.voteType == VoteType.Prevote) != (n.state.step == Step.Prevote)
       || (v.voteType == VoteType.Precommit) != (n.state.step == Step.Precommit) {
      QuietStep(sys, ex, sent, pk, n, []);
    } else if quorum.value.None? {
      AdvanceGood(sys, ex, sent, pk, n, built);
    } else if v.voteType == VoteType.Prevote {
      BallotQuorum(sys, sent, env, n.state, slot, quorum.value);
      LockGood(sys, ex, sent, pk, n, quorum.value.value);
    } else {
      DecideGood(sys, ex, sent, pk, n, v.round, quorum.value.value);
    }
  }

  lemma OnVoteGood(sys: Sys, ex: Exempt, sent: set<Cast>, pk: PublicKey, n: Node, v: Vote, built: Block)
    requires Acting(sys, ex, sent, pk, n, 1) && SentOnce(sent)
    requires n.state.decided.None? && VerifyVote(sys.envs[pk], n.state, v).None? && v.voter in sys.envs
             ==> CastOf(v) in sent
    ensures var o := OnVote(sys.envs[pk], n, v, built);
            GoodStep(sys, ex, sent, pk, o.node, o.effects)
  {
    var env := sys.envs[pk];
    QuietStep(sys, ex, sent, pk, n, []);
    if n.state.decided.None? && VerifyVote(env, n.state, v).None? {
      StoreGood(sys, ex, sent, pk, n, v);
      var (s1, ev) := RecordVote(n.state, v);
      var n1 := n.(state := StoreVote(s1, v));
      assert CoreOf(n1) == CoreOf(n);
      ReactGood(sys, ex, sent, pk, n1, v, built);
      var r := React(env, n1, v, built);
      ReportKeeps(sys, ex, sent, pk, r.node, ev, r.effects);
    }
  }

  /** Reporting a Byzantine voter first changes nothing else. */
  lemma ReportKeeps(sys: Sys, ex: Exempt, sent: set<Cast>, pk: PublicKey, n: Node, ev: Option<DoubleVote>,
                    out: seq<Effect>)
    requires sys.vset.validators != [] && pk in sys.envs && GoodStep(sys, ex, sent, pk, n, out)
    requires ev.Some? ==> ev.value.voter !in sys.envs
    ensures GoodStep(sys, ex, sent, pk, n, (if ev.Some? then [SendEvidence(ev.value)] else []) + out)
  {
    var report := if ev.Some? then [SendEvidence(ev.value)] else [];
    assert Faithful(sys, sent, pk, report);
    JoinEffects(sys, sent, pk, report, out);
    assert CastsOf(report + out) == CastsOf(out);
  }

  // ---------------------------------------------------------------------------
  // Runs
  // ---------------------------------------------------------------------------

  lemma StepGood(sys: Sys, ex: Exempt, net: Network, e: Event)
    requires sys.Valid() && NetInv(sys, ex, net) && Enabled(sys, net, e)
    requires Defiance(net.nodes[e.pk], Next(sys.envs[e.pk], net.nodes[e.pk], e.input).effects) <= ex
    ensures var o := Next(sys.envs[e.pk], net.nodes[e.pk], e.input);
            GoodStep(sys, ex, net.sent, e.pk, o.node, o.effects)
  {
    var n := net.nodes[e.pk];
    SentIsOnce(sys, ex, net);
    match e.input
    case Clock(dt, built) => TickGood(sys, ex, net.sent, e.pk, n, dt, built);
    case GotProposal(p) => OnProposalGood(sys, ex, net.sent, e.pk, n, p);
    case GotBlock(b) => OnBlockGood(sys, ex, net.sent, e.pk, n, b);
    case GotVote(v, built) =>
      if VerifyVote(sys.envs[e.pk], n.state, v).None? && v.voter in sys.envs {
        Authentic(sys, ex, net, v);
      }
      OnVoteGood(sys, ex, net.sent, e.pk, n, v, built);
  }

  lemma StepPreserves(sys: Sys, ex: Exempt, net: Network, e: Event)
    requires sys.Valid() && NetInv(sys, ex, net) && Enabled(sys, net, e)
    requires Defiance(net.nodes[e.pk], Next(sys.envs[e.pk], net.nodes[e.pk], e.input).effects) <= ex
    ensures NetInv(sys, ex, Apply(sys, net, e))
  {
    var o := Next(sys.envs[e.pk], net.nodes[e.pk], e.input);
    var after := Apply(sys, net, e);
    StepGood(sys, ex, net, e);
    forall pk | pk in after.nodes
      ensures NodeInv(sys, ex, after.sent, pk, after.nodes[pk])
    {
      if pk != e.pk {
        NodeGrows(sys, ex, net.sent, after.sent, pk, net.nodes[pk]);
      }
    }
    forall s | s in after.signatures
      ensures Accounted(sys, after.sent, s.0, s.1)
    {
      if s in net.signatures {
        AccountedGrows(sys, net.sent, after.sent, s.0, s.1);
      }
    }
  }

  lemma InitGood(sys: Sys, ex: Exempt, net: Network)
    requires sys.Valid() && Init(sys, net)
    ensures NetInv(sys, ex, net)
  {
    forall pk | pk in net.nodes
      ensures NodeInv(sys, ex, net.sent, pk, net.nodes[pk])
    {
      assert CoreOf(net.nodes[pk]).recorded == {};
    }
  }

  lemma {:induction false} RunGood(sys: Sys, ex: Exempt, net: Network, events: seq<Event>)
    requires sys.Valid() && NetInv(sys, ex, net) && IsRun(sys, net, events) && RunDefiance(sys, net, events) <= ex
    ensures NetInv(sys, ex, After(sys, net, events))
    decreases |events|
  {
    if events != [] {
      StepPreserves(sys, ex, net, events[0]);
      RunGood(sys, ex, Apply(sys, net, events[0]), events[1..]);
    }
  }

  lemma ReachedGood(sys: Sys, start: Network, events: seq<Event>)
    requires sys.Valid() && Init(sys, start) && IsRun(sys, start, events)
    ensures NetInv(sys, RunDefiance(sys, start, events), After(sys, start, events))
  {
    var ex := RunDefiance(sys, start, events);
    InitGood(sys, ex, start);
    RunGood(sys, ex, start, events);
  }

  // ---------------------------------------------------------------------------
  // Who prevotes against a lock
  // ---------------------------------------------------------------------------

  lemma BroadcastDefies(sys: Sys, env: Env, n: Node, p: Node, t: VoteType, bid: BlockChoice, d: (PublicKey, Round))
    requires p.state.height == sys.height && p.guard.Some? && Roomy(p.guard.value, 1)
    requires d in Defiance(n, BroadcastVote(env, p, t, bid).1)
    ensures d == (env.me, p.state.round) && Defies(n.state.lockedValue, Cast(env.me, t, p.state.round, bid))
  {
    BroadcastCore(sys, env, p, t, bid);
  }

  /** Effects without votes before or after make no difference. */
  lemma QuietDefiance(sys: Sys, sent: set<Cast>, pk: PublicKey, n: Node, quiet: seq<Effect>, out: seq<Effect>)
    requires Quiet(sys, pk, quiet)
    ensures Defiance(n, quiet) == {} && Defiance(n, quiet + out) == Defiance(n, out)
  {
    QuietEffects(sys, sent, pk, quiet);
    EffectsConcat(pk, quiet, out);
    assert CastsOf(quiet + out) == CastsOf(out);
    SameDefiance(n, n, quiet + out, out);
  }

  lemma TickDefies(sys: Sys, ex: Exempt, sent: set<Cast>, pk: PublicKey, n: Node, first: bool, built: Block,
                   d: (PublicKey, Round))
    requires Acting(sys, ex, sent, pk, n, 2) && n.state.step == Step.Propose
    requires d in Defiance(n, TickPropose(sys.envs[pk], n, first, built).1)
    ensures d.0 == sys.ProposerOf(d.1)
  {
    var env := sys.envs[pk];
    var propose := first && n.state.proposal.None?;
    if propose {
      MaybeProposeGood(sys, ex, sent, pk, n, built);
    }
    var (n1, out1) := if propose then MaybePropose(env, n, built) else (n, []);
    var n2 := n1.(state := n1.state.(step := Step.Prevote), elapsed := 0);
    var out3 := BroadcastVote(env, n2, VoteType.Prevote, OwnPrevote(n2.state)).1;
    QuietDefiance(sys, sent, pk, n, out1, []);
    QuietDefiance(sys, sent, pk, n, out1, out3);
    BroadcastDefies(sys, env, n, n2, VoteType.Prevote, OwnPrevote(n2.state), d);
    assert StepInv(sys, pk, CoreOf(n1));
  }

  lemma ProposalDefiesNothing(sys: Sys, env: Env, n: Node, p: Proposal)
    requires env.vset.validators != [] && n.state.height == sys.height && n.guard.Some? && Roomy(n.guard.value, 1)
    ensures Defiance(n, OnProposal(env, n, p).effects) == {}
  {
    if n.state.decided.None? && VerifyProposal(env, n.state, p).None? {
      var store := if p.block.Some? then n.store[p.block.value.id := p.block.value] else n.store;
      var prevoting := n.(store := store, elapsed := 0, state := n.state.(step := Step.Prevote));
      if p.blockId !in store || !env.executes(store[p.blockId], p.proposer, p.proposer) {
        NoDefiance(sys, env, n, prevoting, None);
        var out := BroadcastVote(env, prevoting, VoteType.Prevote, None).1;
        QuietDefiance(sys, {}, env.me, n, [RequestBlock(p.blockId)], out);
      } else {
        var s := prevoting.state.(proposal := Some(p), proposalBlock := Some(store[p.blockId]));
        var ready := prevoting.(state := s);
        NoDefiance(sys, env, n, ready, PrevoteChoice(n.state, p.blockId));
      }
    }
  }

  lemma NoDefiance(sys: Sys, env: Env, n: Node, p: Node, bid: BlockChoice)
    requires p.state.height == sys.height && p.guard.Some? && Roomy(p.guard.value, 1)
    requires bid.None? || n.state.lockedValue.None? || n.state.lockedValue == bid
    ensures Defiance(n, BroadcastVote(env, p, VoteType.Prevote, bid).1) == {}
  {
    forall d | d in Defiance(n, BroadcastVote(env, p, VoteType.Prevote, bid).1) ensures false {
      BroadcastDefies(sys, env, n, p, VoteType.Prevote, bid, d);
    }
  }

  lemma BlockDefiesNothing(sys: Sys, env: Env, n: Node, block: Block)
    requires n.state.height == sys.height && n.guard.Some? && Roomy(n.guard.value, 1)
    ensures Defiance(n, OnBlockReceived(env, n, block).1) == {}
  {
    var n1 := n.(store := n.store[block.id := block]);
    var n2 := n1.(state := n.state.(proposalBlock := Some(block)));
    NoDefiance(sys, env, n, n2, PrevoteChoice(n.state, block.id));
  }

  lemma AdvanceDefiesNothing(sys: Sys, ex: Exempt, sent: set<Cast>, pk: PublicKey, n: Node, n': Node, built: Block)
    requires Acting(sys, ex, sent, pk, n', 1)
    ensures Defiance(n, AdvanceRound(sys.envs[pk], n', built).1) == {}
  {
    AdvanceCore(sys, ex, sent, sys.envs[pk], n', built);
    QuietDefiance(sys, sent, pk, n, AdvanceRound(sys.envs[pk], n', built).1, []);
  }

  lemma ReactDefiesNothing(sys: Sys, ex: Exempt, sent: set<Cast>, pk: PublicKey, n: Node, n': Node, v: Vote,
                           built: Block)
    requires Acting(sys, ex, sent, pk, n', 1)
    ensures Defiance(n, React(sys.envs[pk], n', v, built).effects) == {}
  {
    var env := sys.envs[pk];
    AdvanceDefiesNothing(sys, ex, sent, pk, n, n', built);
    var quorum := QuorumBid(env.vset, BallotsAt(n'.state, Slot(v.round, v.voteType)));
    if quorum.Some? && quorum.value.Some? {
      LockDefiesNothing(sys, env, n, n', quorum.value.value);
    }
  }

  lemma LockDefiesNothing(sys: Sys, env: Env, n: Node, n': Node, bid: Hash32)
    requires n'.state.height == sys.height && n'.guard.Some? && Roomy(n'.guard.value, 1)
    ensures Defiance(n, LockAndPrecommit(env, n', bid).1) == {}
  {
    var s := n'.state.(validRound := Some(n'.state.round), validValue := Some(bid),
                       lockedRound := Some(n'.state.round), lockedValue := Some(bid), step := Step.Precommit);
    var l := n'.(state := s, elapsed := 0);
    forall d | d in Defiance(n, LockAndPrecommit(env, n', bid).1) ensures false {
      BroadcastDefies(sys, env, n, l, VoteType.Precommit, Some(bid), d);
    }
  }

  lemma VoteDefiesNothing(sys: Sys, ex: Exempt, net: Network, pk: PublicKey, v: Vote, built: Block)
    requires sys.Valid() && NetInv(sys, ex, net) && Enabled(sys, net, Event(pk, GotVote(v, built)))
    ensures Defiance(net.nodes[pk], OnVote(sys.envs[pk], net.nodes[pk], v, built).effects) == {}
  {
    var env, n, sent := sys.envs[pk], net.nodes[pk], net.sent;
    if n.state.decided.None? && VerifyVote(env, n.state, v).None? {
      SentIsOnce(sys, ex, net);
      if v.voter in sys.envs {
        Authentic(sys, ex, net, v);
      }
      StoreGood(sys, ex, sent, pk, n, v);
      var (s1, ev) := RecordVote(n.state, v);
      var n1 := n.(state := StoreVote(s1, v));
      assert CoreOf(n1) == CoreOf(n);
      ReactDefiesNothing(sys, ex, sent, pk, n, n1, v, built);
      var report := if ev.Some? then [SendEvidence(ev.value)] else [];
      EffectsConcat(pk, report, React(env, n1, v, built).effects);
      assert CastsOf(report) == {};
      SameDefiance(n, n, report + React(env, n1, v, built).effects, React(env, n1, v, built).effects);
    }
  }

  /** Only a proposer prevotes against its lock, and only in its own round. */
  lemma DefiersPropose(sys: Sys, ex: Exempt, net: Network, e: Event, d: (PublicKey, Round))
    requires sys.Valid() && NetInv(sys, ex, net) && Enabled(sys, net, e)
    requires d in Defiance(net.nodes[e.pk], Next(sys.envs[e.pk], net.nodes[e.pk], e.input).effects)
    ensures d.0 == sys.ProposerOf(d.1)
  {
    var env, n := sys.envs[e.pk], net.nodes[e.pk];
    match e.input
    case GotProposal(p) => ProposalDefiesNothing(sys, env, n, p);
    case GotBlock(b) => BlockDefiesNothing(sys, env, n, b);
    case GotVote(v, built) => VoteDefiesNothing(sys, ex, net, e.pk, v, built);
    case Clock(dt, built) =>
      var n1 := n.(elapsed := SaturatingAdd(n.elapsed, dt));
      assert CoreOf(n1) == CoreOf(n);
      if n.state.decided.None? && n.state.step == Step.Propose {
        var out := TickPropose(env, n1, n1.elapsed == dt, built).1;
        SameDefiance(n, n1, out, out);
        TickDefies(sys, ex, net.sent, e.pk, n1, n1.elapsed == dt, built, d);
      } else {
        AdvanceDefiesNothing(sys, ex, net.sent, e.pk, n, n1, built);
      }
  }

  lemma {:induction false} RunDefiersPropose(sys: Sys, ex: Exempt, net: Network, events: seq<Event>)
    requires sys.Valid() && NetInv(sys, ex, net) && IsRun(sys, net, events) && RunDefiance(sys, net, events) <= ex
    ensures forall d :: d in RunDefiance(sys, net, events) ==> d.0 == sys.ProposerOf(d.1)
    decreases |events|
  {
    if events != [] {
      var e := events[0];
      forall d | d in Defiance(net.nodes[e.pk], Next(sys.envs[e.pk], net.nodes[e.pk], e.input).effects)
        ensures d.0 == sys.ProposerOf(d.1)
      {
        DefiersPropose(sys, ex, net, e, d);
      }
      StepPreserves(sys, ex, net, e);
      RunDefiersPropose(sys, ex, Apply(sys, net, e), events[1..]);
    }
  }

  lemma {:induction false} AllCoresGood(sys: Sys, ex: Exempt, net: Network) returns (cores: map<PublicKey, Core>)
    requires sys.Valid() && NetInv(sys, ex, net)
    ensures AllCores(sys, ex, net.sent, cores)
  {
    cores := map pk | pk in net.nodes :: CoreOf(net.nodes[pk]);
  }

  ghost predicate Decided(net: Network, pk: PublicKey, bid: Hash32)
  {
    pk in net.nodes && net.nodes[pk].state.decided.Some? && net.nodes[pk].state.decided.value.blockId == bid
  }

  /** A decision stands on a precommit quorum. */
  lemma DecisionQuorum(sys: Sys, ex: Exempt, net: Network, p: PublicKey, a: Hash32) returns (r: Round)
    requires sys.Valid() && NetInv(sys, ex, net) && Decided(net, p, a)
    ensures HasQuorum(sys, net.sent, VoteType.Precommit, r, Some(a))
  {
    assert NodeInv(sys, ex, net.sent, p, net.nodes[p]);
    r :| GoodCertificate(sys, net.sent, sys.envs[p], net.nodes[p].state.decided.value, r);
  }

  lemma DecisionsAgree(sys: Sys, ex: Exempt, net: Network, p: PublicKey, a: Hash32, q: PublicKey, b: Hash32)
    requires sys.Valid() && Tame(sys, ex) && NetInv(sys, ex, net)
    requires Decided(net, p, a) && Decided(net, q, b)
    ensures a == b
  {
    SentIsOnce(sys, ex, net);
    var r := DecisionQuorum(sys, ex, net, p, a);
    var r' := DecisionQuorum(sys, ex, net, q, b);
    var cores := AllCoresGood(sys, ex, net);
    PrecommitQuorumsAgree(sys, ex, net.sent, cores, r, a, r', b);
  }

  /** Agreement: along every run in which, in every round, the Byzantine validators and the engines that
      prevoted against their lock in that round hold less power than two quorums share, no two correct
      engines decide different blocks, in the same round or in different rounds. */
  lemma EnginesAgree(sys: Sys, start: Network, events: seq<Event>, p: PublicKey, a: Hash32, q: PublicKey, b: Hash32)
    requires sys.Valid() && Init(sys, start) && IsRun(sys, start, events)
    requires Tame(sys, RunDefiance(sys, start, events))
    requires Decided(After(sys, start, events), p, a) && Decided(After(sys, start, events), q, b)
    ensures a == b
  {
    ReachedGood(sys, start, events);
    DecisionsAgree(sys, RunDefiance(sys, start, events), After(sys, start, events), p, a, q, b);
  }

  /** So a minority, a third in particular, may be Byzantine as long as nobody prevotes against its lock. */
  lemma LoyalEnginesAgree(sys: Sys, start: Network, events: seq<Event>,
                          p: PublicKey, a: Hash32, q: PublicKey, b: Hash32)
    requires sys.Valid() && sys.MinorityFaulty() && Init(sys, start) && IsRun(sys, start, events)
    requires RunDefiance(sys, start, events) == {}
    requires Decided(After(sys, start, events), p, a) && Decided(After(sys, start, events), q, b)
    ensures a == b
  {
    forall r: Round ensures sys.Byzantine() + Exempted(sys, {}, r) == sys.Byzantine() {}
    EnginesAgree(sys, start, events, p, a, q, b);
  }

  /** And along every run if the bound counts one validator more: only the proposer of a round prevotes
      against its lock in that round. */
  lemma BoundedEnginesAgree(sys: Sys, start: Network, events: seq<Event>,
                            p: PublicKey, a: Hash32, q: PublicKey, b: Hash32)
    requires sys.Valid() && sys.Bounded() && Init(sys, start) && IsRun(sys, start, events)
    requires Decided(After(sys, start, events), p, a) && Decided(After(sys, start, events), q, b)
    ensures a == b
  {
    InitGood(sys, RunDefiance(sys, start, events), start);
    RunDefiersPropose(sys, RunDefiance(sys, start, events), start, events);
    BoundedIsTame(sys, RunDefiance(sys, start, events));
    EnginesAgree(sys, start, events, p, a, q, b);
  }

  /** A decision whose certificate holds precommits of one round. */
  ghost predicate DecidedIn(net: Network, pk: PublicKey, bid: Hash32, round: Round)
  {
    && Decided(net, pk, bid)
    && forall i :: 0 <= i < |net.nodes[pk].state.decided.value.precommits| ==>
         net.nodes[pk].state.decided.value.precommits[i].round == round
  }

  lemma DecisionRound(sys: Sys, ex: Exempt, net: Network, p: PublicKey, a: Hash32, r: Round)
    requires sys.Valid() && NetInv(sys, ex, net) && DecidedIn(net, p, a, r)
    ensures HasQuorum(sys, net.sent, VoteType.Precommit, r, Some(a))
  {
    assert NodeInv(sys, ex, net.sent, p, net.nodes[p]);
    var cert := net.nodes[p].state.decided.value;
    var r': Round :| GoodCertificate(sys, net.sent, sys.envs[p], cert, r');
    assert cert.precommits != [];
    assert cert.precommits[0].round == r';
  }

  /** Within one round the usual bound is enough: along every run in which a minority is Byzantine,
      decisions of the same round name the same block. */
  lemma RoundAgrees(sys: Sys, start: Network, events: seq<Event>,
                    p: PublicKey, a: Hash32, q: PublicKey, b: Hash32, r: Round)
    requires sys.Valid() && sys.MinorityFaulty() && Init(sys, start) && IsRun(sys, start, events)
    requires DecidedIn(After(sys, start, events), p, a, r) && DecidedIn(After(sys, start, events), q, b, r)
    ensures a == b
  {
    ReachedGood(sys, start, events);
    var net, ex := After(sys, start, events), RunDefiance(sys, start, events);
    SentIsOnce(sys, ex, net);
    DecisionRound(sys, ex, net, p, a, r);
    DecisionRound(sys, ex, net, q, b, r);
    QuorumUnique(sys, net.sent, VoteType.Precommit, r, Some(a), Some(b));
  }

  /** Lock persistence along such a run: once precommits for a block have a quorum, no later round has a
      prevote quorum for another block. */
  lemma RunLockPersists(sys: Sys, start: Network, events: seq<Event>, r: Round, a: Hash32, r': Round, b: Hash32)
    requires sys.Valid() && Init(sys, start) && IsRun(sys, start, events)
    requires Tame(sys, RunDefiance(sys, start, events))
    requires HasQuorum(sys, After(sys, start, events).sent, VoteType.Precommit, r, Some(a))
    requires HasQuorum(sys, After(sys, start, events).sent, VoteType.Prevote, r', Some(b)) && r < r'
    ensures a == b
  {
    ReachedGood(sys, start, events);
    var net, ex := After(sys, start, events), RunDefiance(sys, start, events);
    var cores := AllCoresGood(sys, ex, net);
    LockPersists(sys, ex, net.sent, cores, r, a, r', b);
  }

  /** Every decision along every run carries a certificate of one round, with distinct voters
      that hold a quorum, and the engine's own check accepts it. */
  lemma DecisionsCertified(sys: Sys, start: Network, events: seq<Event>, p: PublicKey)
    requires sys.Valid() && Init(sys, start) && IsRun(sys, start, events)
    requires p in After(sys, start, events).nodes && After(sys, start, events).nodes[p].state.decided.Some?
    ensures var net := After(sys, start, events);
            var cert := net.nodes[p].state.decided.value;
            && p in sys.envs
            && exists r: Round :: GoodCertificate(sys, net.sent, sys.envs[p], cert, r)
  {
    ReachedGood(sys, start, events);
  }

  /** No correct engine is ever named in evidence that a correct engine detects. */
  lemma NoCorrectEngineAccused(sys: Sys, start: Network, events: seq<Event>, p: PublicKey)
    requires sys.Valid() && Init(sys, start) && IsRun(sys, start, events)
    requires p in sys.envs
    ensures p !in After(sys, start, events).accused
  {
    ReachedGood(sys, start, events);
  }
}
