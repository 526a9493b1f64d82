/** The network invariant, and how the engine's building blocks act on it. */
module NodeSteps {
  import opened Common
  import opened Power
  import opened Messages
  import opened Quorum
  import opened DoubleSign
  import opened EngineSpec
  import opened Certificates
  import opened Protocol
  import opened Locking

  // ---------------------------------------------------------------------------
  // What an engine holds
  // ---------------------------------------------------------------------------

  /** A verified vote of this height; if its voter is correct, that voter sent it. */
  ghost predicate GoodVote(sys: Sys, sent: set<Cast>, env: Env, v: Vote)
  {
    && v.height == sys.height
    && VoteFault(sys.vset, env.verify, v).None?
    && (v.voter in sys.envs ==> CastOf(v) in sent)
  }

  ghost predicate BallotInv(sys: Sys, sent: set<Cast>, env: Env, s: ConsensusState)
  {
    forall slot, pk :: slot in s.votes && pk in s.votes[slot] ==>
      var v := s.votes[slot][pk];
      v.voter == pk && Slot(v.round, v.voteType) == slot && GoodVote(sys, sent, env, v)
  }

  ghost predicate IndexInv(sys: Sys, sent: set<Cast>, env: Env, s: ConsensusState)
  {
    forall key :: key in s.voteIndex ==>
      var e := s.voteIndex[key];
      KeyOf(e.vote) == key && e.bid == e.vote.blockId && GoodVote(sys, sent, env, e.vote)
  }

  /** A certificate of one round: distinct voters, all with precommits for its block. */
  ghost predicate GoodCertificate(sys: Sys, sent: set<Cast>, env: Env, cert: CommitCertificate, round: Round)
  {
    && cert.height == sys.height
    && DistinctVoters(cert.precommits)
    && IsQuorum(sys.vset, VotersOf(cert.precommits))
    && (forall i :: 0 <= i < |cert.precommits| ==>
          var v := cert.precommits[i];
          v.voteType == VoteType.Precommit && v.round == round && v.blockId == Some(cert.blockId)
          && GoodVote(sys, sent, env, v))
    && VerifyCertificate(cert, sys.vset, env.verify).None?
    && HasQuorum(sys, sent, VoteType.Precommit, round, Some(cert.blockId))
  }

  ghost predicate DecidedInv(sys: Sys, sent: set<Cast>, env: Env, s: ConsensusState)
  {
    s.decided.Some? ==> exists r: Round :: GoodCertificate(sys, sent, env, s.decided.value, r)
  }

  ghost predicate HeldInv(sys: Sys, sent: set<Cast>, env: Env, s: ConsensusState)
  {
    && s.height == sys.height
    && BallotInv(sys, sent, env, s) && IndexInv(sys, sent, env, s) && DecidedInv(sys, sent, env, s)
  }

  ghost predicate NodeInv(sys: Sys, ex: Exempt, sent: set<Cast>, pk: PublicKey, n: Node)
    requires sys.vset.validators != [] && pk in sys.envs
  {
    && n.guard.Some?
    && CoreInv(sys, ex, sent, pk, CoreOf(n))
    && HeldInv(sys, sent, sys.envs[pk], n.state)
  }

  /** A signature of a correct engine is on a vote it sent or on a proposal of this height. */
  ghost predicate Accounted(sys: Sys, sent: set<Cast>, pk: PublicKey, bytes: seq<byte>)
  {
    || (exists v :: v in sent && v.voter == pk && bytes == VoteSignBytes(v.voteType, sys.height, v.round, v.choice))
    || (exists r: Round, b: Hash32, p: Option<Round> :: bytes == ProposalSignBytes(sys.height, r, b, p))
  }

  ghost predicate NetInv(sys: Sys, ex: Exempt, net: Network)
    requires sys.vset.validators != []
  {
    && net.nodes.Keys == sys.envs.Keys
    && (forall pk :: pk in net.nodes ==> NodeInv(sys, ex, net.sent, pk, net.nodes[pk]))
    && (forall v :: v in net.sent ==> v.voter in sys.envs)
    && (forall s :: s in net.signatures ==> Accounted(sys, net.sent, s.0, s.1))
    && net.accused !! sys.envs.Keys
  }

  // ---------------------------------------------------------------------------
  // More votes keep what is held
  // ---------------------------------------------------------------------------

  lemma HeldGrows(sys: Sys, sent: set<Cast>, more: set<Cast>, env: Env, s: ConsensusState)
    requires sent <= more && HeldInv(sys, sent, env, s)
    ensures HeldInv(sys, more, env, s)
  {
    if s.decided.Some? {
      var r: Round :| GoodCertificate(sys, sent, env, s.decided.value, r);
      QuorumGrows(sys, sent, more, VoteType.Precommit, r, Some(s.decided.value.blockId));
      assert GoodCertificate(sys, more, env, s.decided.value, r);
    }
  }

  lemma NodeGrows(sys: Sys, ex: Exempt, sent: set<Cast>, more: set<Cast>, pk: PublicKey, n: Node)
    requires sys.vset.validators != [] && pk in sys.envs && sent <= more && NodeInv(sys, ex, sent, pk, n)
    requires forall v :: v in more && v.voter == pk ==> v in sent
    ensures NodeInv(sys, ex, more, pk, n)
  {
    CoreInvGrows(sys, ex, sent, more, pk, CoreOf(n));
    HeldGrows(sys, sent, more, sys.envs[pk], n.state);
  }

  /** Votes of one engine are unique because its guard recorded them. */
  lemma SentIsOnce(sys: Sys, ex: Exempt, net: Network)
    requires sys.vset.validators != [] && NetInv(sys, ex, net)
    ensures SentOnce(net.sent)
  {
    forall a, b | a in net.sent && b in net.sent && a.voter == b.voter && a.voteType == b.voteType && a.round == b.round
      ensures a.choice == b.choice
    {
      var c := CoreOf(net.nodes[a.voter]);
      assert Key(sys, a.voteType, a.round, a.choice) in c.recorded;
      assert Key(sys, b.voteType, b.round, b.choice) in c.recorded;
      assert !Conflicting(Key(sys, a.voteType, a.round, a.choice), Key(sys, b.voteType, b.round, b.choice));
    }
  }

  /** A verified vote under a correct key was sent by that engine. */
  lemma Authentic(sys: Sys, ex: Exempt, net: Network, v: Vote)
    requires sys.Valid() && NetInv(sys, ex, net)
    requires v.height == sys.height && (v.voter, v.SignBytes()) in net.signatures
    ensures CastOf(v) in net.sent
  {
    assert Accounted(sys, net.sent, v.voter, v.SignBytes());
    if exists c :: c in net.sent && c.voter == v.voter
                   && v.SignBytes() == VoteSignBytes(c.voteType, sys.height, c.round, c.choice) {
      var c :| c in net.sent && c.voter == v.voter
               && v.SignBytes() == VoteSignBytes(c.voteType, sys.height, c.round, c.choice);
      VoteSignBytesInjective(v.voteType, v.height, v.round, v.blockId, c.voteType, sys.height, c.round, c.choice);
    } else {
      var r: Round, b: Hash32, p: Option<Round> :| v.SignBytes() == ProposalSignBytes(sys.height, r, b, p);
      VoteAndProposalBytesDiffer(v.voteType, sys.height, v.round, v.blockId, r, b, p);
    }
  }

  // ---------------------------------------------------------------------------
  // Guarded signing, as the core sees it
  // ---------------------------------------------------------------------------

  lemma GuardedVotes(g: Guard, key: SignedKey)
    requires Roomy(g, 1)
    ensures var (after, ok) := Guarded(Some(g), key);
            && after.Some? && |after.value.signed| <= |g.signed| + 1 && after.value.config == g.config
            && RecordedVotes(after.value, key.height)
               == RecordedVotes(g, key.height) + (if ok && key.VoteKey? then {key} else {})
            && (key.VoteKey? ==> (ok <==> Allowed(RecordedVotes(g, key.height), key)))
  {
    var seen := Observe(g, key.height);
    ObserveKeeps(g, key.height);
    if Allowed(seen.signed, key) {
      RecordKeeps(seen, key);
    }
    if key.VoteKey? {
      SameConflicts(seen, key);
    }
  }

  lemma RecordKeeps(seen: Guard, key: SignedKey)
    requires Roomy(seen, 1)
    ensures var after := Record(seen, key);
            && after.config == seen.config && |after.signed| <= |seen.signed| + 1
            && RecordedVotes(after, key.height)
               == RecordedVotes(seen, key.height) + (if key.VoteKey? then {key} else {})
  {
    var s := seen.signed + {key};
    assert |s| <= |seen.signed| + 1;
    assert Evict(s, seen.config.maxEntries) == s;
    assert Record(seen, key).signed == s;
  }

  /** A vote conflicts only with votes of its own height. */
  lemma SameConflicts(seen: Guard, key: SignedKey)
    requires key.VoteKey?
    ensures Allowed(seen.signed, key) <==> Allowed(RecordedVotes(seen, key.height), key)
  {
  }

  lemma ObserveKeeps(g: Guard, height: Height)
    ensures var seen := Observe(g, height);
            && seen.signed <= g.signed && |seen.signed| <= |g.signed| && seen.config == g.config
            && RecordedVotes(seen, height) == RecordedVotes(g, height)
  {
    var seen := Observe(g, height);
    SubsetSize(seen.signed, g.signed);
    assert forall k :: k in g.signed && k.height == height ==> k in seen.signed;
  }

  lemma BroadcastCore(sys: Sys, env: Env, n: Node, t: VoteType, bid: BlockChoice)
    requires n.state.height == sys.height && n.guard.Some? && Roomy(n.guard.value, 1)
    ensures var (after, out) := BroadcastVote(env, n, t, bid);
            var (core, cast) := CastVote(sys, env.me, CoreOf(n), t, bid);
            && after == n.(guard := after.guard) && after.guard.Some?
            && CoreOf(after) == core && CastsOf(out) == cast
            && SignedIn(env.me, out)
               == (set c | c in cast :: (env.me, VoteSignBytes(t, sys.height, n.state.round, bid)))
            && AccusedIn(out) == {}
  {
    var key := VoteKey(t, n.state.height, n.state.round, bid);
    GuardedVotes(n.guard.value, key);
    var out := BroadcastVote(env, n, t, bid).1;
    if out != [] {
      assert out == [SendVote(MyVote(env, n.state, t, bid))];
      OneVoteOut(env.me, MyVote(env, n.state, t, bid));
    }
  }

  lemma OneVoteOut(pk: PublicKey, v: Vote)
    ensures CastsOf([SendVote(v)]) == {CastOf(v)}
    ensures SignedIn(pk, [SendVote(v)]) == {(pk, v.SignBytes())}
  {
    var out := [SendVote(v)];
    assert out[0].SendVote?;
    assert CastOf(v) in CastsOf(out);
    assert (pk, v.SignBytes()) in SignedIn(pk, out);
  }

  lemma MaybeProposeCore(sys: Sys, env: Env, n: Node, built: Block)
    requires sys.vset.validators != [] && env.vset == sys.vset
    requires n.state.height == sys.height && n.guard.Some? && Roomy(n.guard.value, 1)
    ensures var (after, out) := MaybePropose(env, n, built);
            && after.guard.Some? && |after.guard.value.signed| <= |n.guard.value.signed| + 1
            && after.guard.value.config == n.guard.value.config
            && after.elapsed == n.elapsed
            && CoreOf(after) == CoreOf(n).(proposed := after.state.proposal.Some?)
            && (n.state.proposal.None? && after.state.proposal.Some? ==> env.me == sys.ProposerOf(n.state.round))
            && (n.state.proposal.Some? ==> after == n)
            && after.state == n.state.(proposal := after.state.proposal, proposalBlock := after.state.proposalBlock)
            && Quiet(sys, env.me, out)
  {
    if n.state.proposal.None? && IsProposer(env, n.state) {
      var key := ProposalKey(n.state.height, n.state.round, built.id);
      GuardedVotes(n.guard.value, key);
      var p := MyProposal(env, n.state, built);
      assert p.SignBytes() == ProposalSignBytes(sys.height, p.round, p.blockId, p.polRound);
    }
  }

  /** Effects that carry no vote and accuse nobody; what is signed is a proposal. */
  ghost predicate Quiet(sys: Sys, pk: PublicKey, out: seq<Effect>)
  {
    forall i :: 0 <= i < |out| ==>
      && !out[i].SendVote? && !out[i].SendEvidence?
      && (out[i].SendProposal? ==> out[i].proposal.height == sys.height)
  }

  /** `after` has taken over from `n` without a vote. */
  ghost predicate TookOver(sys: Sys, ex: Exempt, sent: set<Cast>, pk: PublicKey, n: Node, after: Node, out: seq<Effect>)
    requires sys.vset.validators != []
  {
    && after.guard.Some? && CoreInv(sys, ex, sent, pk, CoreOf(after))
    && SameHeld(n.state, after.state)
    && Quiet(sys, pk, out)
  }

  lemma AdvanceCore(sys: Sys, ex: Exempt, sent: set<Cast>, env: Env, n: Node, built: Block)
    requires sys.vset.validators != [] && env.vset == sys.vset
    requires n.state.height == sys.height && n.guard.Some? && Roomy(n.guard.value, 1)
    requires CoreInv(sys, ex, sent, env.me, CoreOf(n))
    ensures var (after, out) := AdvanceRound(env, n, built);
            TookOver(sys, ex, sent, env.me, n, after, out)
  {
    if n.state.round + 1 < env.cfg.maxRounds {
      var s := n.state.(round := n.state.round + 1, proposal := None, proposalBlock := None, step := Step.Propose);
      var next := n.(state := s, elapsed := 0);
      var (after, out) := MaybePropose(env, next, built);
      assert AdvanceRound(env, n, built) == (after, out);
      NextRoundCore(sys, ex, sent, env, n, next, built, after, out);
    }
  }

  /** The next round begins, perhaps with a proposal. */
  lemma NextRoundCore(sys: Sys, ex: Exempt, sent: set<Cast>, env: Env, n: Node, next: Node, built: Block,
                      after: Node, out: seq<Effect>)
    requires sys.vset.validators != [] && env.vset == sys.vset
    requires n.state.height == sys.height && n.guard.Some? && Roomy(n.guard.value, 1)
    requires CoreInv(sys, ex, sent, env.me, CoreOf(n)) && n.state.round + 1 < U32_LIMIT
    requires next.guard == n.guard && next.state == n.state.(round := n.state.round + 1, proposal := None,
                                                             proposalBlock := None, step := Step.Propose)
    requires MaybePropose(env, next, built) == (after, out)
    ensures TookOver(sys, ex, sent, env.me, n, after, out)
  {
    MaybeProposeCore(sys, env, next, built);
    var proposed := after.state.proposal.Some?;
    assert CoreOf(after) == CoreOf(n).(round := next.state.round, step := Step.Propose, proposed := proposed);
    AdvanceStep(sys, ex, sent, env.me, CoreOf(n), next.state.round, proposed);
  }

  /** The parts that `HeldInv` speaks about. */
  predicate SameHeld(s: ConsensusState, s': ConsensusState)
  {
    s'.height == s.height && s'.votes == s.votes && s'.voteIndex == s.voteIndex && s'.decided == s.decided
  }

  // ---------------------------------------------------------------------------
  // Effects
  // ---------------------------------------------------------------------------

  /** What a step may send: votes of its own, signatures that are accounted for, and no
      accusation of a correct engine. */
  ghost predicate Faithful(sys: Sys, sent: set<Cast>, pk: PublicKey, out: seq<Effect>)
  {
    && (forall v :: v in CastsOf(out) ==> v.voter == pk)
    && (forall s :: s in SignedIn(pk, out) ==> Accounted(sys, sent + CastsOf(out), s.0, s.1))
    && AccusedIn(out) !! sys.envs.Keys
  }

  lemma QuietEffects(sys: Sys, sent: set<Cast>, pk: PublicKey, out: seq<Effect>)
    requires Quiet(sys, pk, out)
    ensures CastsOf(out) == {} && AccusedIn(out) == {} && Faithful(sys, sent, pk, out)
  {
    forall s | s in SignedIn(pk, out) ensures Accounted(sys, sent, s.0, s.1) {
      var i :| 0 <= i < |out| && out[i].SendProposal? && s == (pk, out[i].proposal.SignBytes());
      var p := out[i].proposal;
      assert s.1 == ProposalSignBytes(sys.height, p.round, p.blockId, p.polRound);
    }
  }

  lemma VoteEffects(sys: Sys, sent: set<Cast>, env: Env, n: Node, t: VoteType, bid: BlockChoice)
    requires n.state.height == sys.height && n.guard.Some? && Roomy(n.guard.value, 1)
    ensures Faithful(sys, sent, env.me, BroadcastVote(env, n, t, bid).1)
  {
    BroadcastCore(sys, env, n, t, bid);
    var out := BroadcastVote(env, n, t, bid).1;
    forall s | s in SignedIn(env.me, out) ensures Accounted(sys, sent + CastsOf(out), s.0, s.1) {
      var v := Cast(env.me, t, n.state.round, bid);
      assert v in sent + CastsOf(out);
    }
  }

  lemma JoinEffects(sys: Sys, sent: set<Cast>, pk: PublicKey, a: seq<Effect>, b: seq<Effect>)
    requires Faithful(sys, sent, pk, a) && Faithful(sys, sent, pk, b)
    ensures CastsOf(a + b) == CastsOf(a) + CastsOf(b)
    ensures Faithful(sys, sent, pk, a + b)
  {
    EffectsConcat(pk, a, b);
    forall s | s in SignedIn(pk, a + b) ensures Accounted(sys, sent + CastsOf(a + b), s.0, s.1) {
      if s in SignedIn(pk, a) {
        AccountedGrows(sys, sent + CastsOf(a), sent + CastsOf(a + b), s.0, s.1);
      } else {
        AccountedGrows(sys, sent + CastsOf(b), sent + CastsOf(a + b), s.0, s.1);
      }
    }
  }

  lemma AccountedGrows(sys: Sys, sent: set<Cast>, more: set<Cast>, pk: PublicKey, bytes: seq<byte>)
    requires sent <= more && Accounted(sys, sent, pk, bytes)
    ensures Accounted(sys, more, pk, bytes)
  {
  }

  lemma EffectsConcat(pk: PublicKey, a: seq<Effect>, b: seq<Effect>)
    ensures CastsOf(a + b) == CastsOf(a) + CastsOf(b)
    ensures SignedIn(pk, a + b) == SignedIn(pk, a) + SignedIn(pk, b)
    ensures AccusedIn(a + b) == AccusedIn(a) + AccusedIn(b)
  {
    var c := a + b;
    assert forall i :: 0 <= i < |a| ==> c[i] == a[i];
    assert forall i :: 0 <= i < |b| ==> c[|a| + i] == b[i];
    assert CastsOf(a) <= CastsOf(c) && SignedIn(pk, a) <= SignedIn(pk, c) && AccusedIn(a) <= AccusedIn(c);
    CastsSuffix(a, b);
    SignedSuffix(pk, a, b);
    AccusedSuffix(a, b);
  }

  lemma CastsSuffix(a: seq<Effect>, b: seq<Effect>)
    ensures CastsOf(b) <= CastsOf(a + b)
  {
    forall v | v in CastsOf(b) ensures v in CastsOf(a + b) {
      var i :| 0 <= i < |b| && b[i].SendVote? && v == CastOf(b[i].vote);
      assert (a + b)[|a| + i] == b[i];
    }
  }

  lemma SignedSuffix(pk: PublicKey, a: seq<Effect>, b: seq<Effect>)
    ensures SignedIn(pk, b) <= SignedIn(pk, a + b)
  {
    forall s | s in SignedIn(pk, b) ensures s in SignedIn(pk, a + b) {
      if i :| 0 <= i < |b| && b[i].SendVote? && s == (pk, b[i].vote.SignBytes()) {
        assert (a + b)[|a| + i] == b[i];
      } else {
        var i :| 0 <= i < |b| && b[i].SendProposal? && s == (pk, b[i].proposal.SignBytes());
        assert (a + b)[|a| + i] == b[i];
      }
    }
  }

  lemma AccusedSuffix(a: seq<Effect>, b: seq<Effect>)
    ensures AccusedIn(b) <= AccusedIn(a + b)
  {
    forall pk | pk in AccusedIn(b) ensures pk in AccusedIn(a + b) {
      var i :| 0 <= i < |b| && b[i].SendEvidence? && pk == b[i].evidence.voter;
      assert (a + b)[|a| + i] == b[i];
    }
  }
}
