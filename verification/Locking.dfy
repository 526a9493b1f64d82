/** What every correct engine keeps about its round, its lock and the votes its guard has
    recorded, and why this makes locks safe. */
module Locking {
  import opened Common
  import opened Power
  import opened Messages
  import opened Quorum
  import opened DoubleSign
  import opened EngineSpec
  import opened Protocol

  /** The part of an engine that safety depends on. `proposed` says that a proposal is set;
      `recorded` holds the votes of this height that the guard remembers. */
  datatype Core = Core(round: Round, step: Step, lockedRound: Option<Round>, lockedValue: Option<Hash32>,
                       proposed: bool, recorded: set<SignedKey>)

  function RecordedVotes(g: Guard, height: Height): set<SignedKey>
  {
    set k | k in g.signed && k.VoteKey? && k.height == height
  }

  ghost function CoreOf(n: Node): Core
    requires n.guard.Some?
  {
    Core(n.state.round, n.state.step, n.state.lockedRound, n.state.lockedValue,
         n.state.proposal.Some?, RecordedVotes(n.guard.value, n.state.height))
  }

  function Key(sys: Sys, t: VoteType, r: Round, c: BlockChoice): SignedKey
  {
    VoteKey(t, sys.height, r, c)
  }

  ghost predicate RecordedOnce(sys: Sys, c: Core)
  {
    && (forall k :: k in c.recorded ==> k.VoteKey? && k.height == sys.height && k.round <= c.round)
    && ConflictFree(c.recorded)
  }

  /** Everything sent was recorded. */
  ghost predicate SentRecorded(sys: Sys, sent: set<Cast>, pk: PublicKey, c: Core)
  {
    forall v :: v in sent && v.voter == pk ==> Key(sys, v.voteType, v.round, v.choice) in c.recorded
  }

  ghost predicate HasPrevoted(sys: Sys, c: Core)
  {
    exists choice: BlockChoice :: Key(sys, VoteType.Prevote, c.round, choice) in c.recorded
  }

  ghost predicate StepInv(sys: Sys, pk: PublicKey, c: Core)
    requires sys.vset.validators != []
  {
    && (c.step != Step.Propose ==> HasPrevoted(sys, c))
    && (c.step == Step.Propose && c.proposed ==> pk == sys.ProposerOf(c.round))
  }

  /** The lock is backed by a prevote quorum and is older than a round that is still proposing. */
  ghost predicate LockInv(sys: Sys, sent: set<Cast>, c: Core)
  {
    && (c.lockedRound.Some? <==> c.lockedValue.Some?)
    && (c.lockedRound.Some? ==>
          && c.lockedRound.value <= c.round
          && (c.step == Step.Propose ==> c.lockedRound.value < c.round)
          && HasQuorum(sys, sent, VoteType.Prevote, c.lockedRound.value, c.lockedValue))
  }

  /** Every precommit is for a block that a prevote quorum backs, and the lock never falls
      behind it. If a minority is Byzantine, a lock of the same round is on the same block. */
  ghost predicate PrecommitInv(sys: Sys, sent: set<Cast>, c: Core)
  {
    forall r: Round, a: BlockChoice :: Key(sys, VoteType.Precommit, r, a) in c.recorded ==>
      && a.Some?
      && HasQuorum(sys, sent, VoteType.Prevote, r, a)
      && c.lockedRound.Some? && r <= c.lockedRound.value
      && (sys.MinorityFaulty() && r == c.lockedRound.value ==> c.lockedValue == a)
  }

  /** A later round, before `r'`, in which a prevote quorum backed `b`. */
  ghost predicate Unlocked(sys: Sys, sent: set<Cast>, r: Round, r': Round, b: BlockChoice)
  {
    exists q: Round :: r < q < r' && HasQuorum(sys, sent, VoteType.Prevote, q, b)
  }

  /** If a minority is Byzantine, an engine that precommitted `a` prevotes another block `b` later
      only after a prevote quorum for `b` in between, or where it is exempt. */
  ghost predicate PrevoteInv(sys: Sys, ex: Exempt, sent: set<Cast>, pk: PublicKey, c: Core)
    requires sys.vset.validators != []
  {
    sys.MinorityFaulty() ==>
      forall r: Round, a: BlockChoice, r': Round, b: BlockChoice ::
        Key(sys, VoteType.Precommit, r, a) in c.recorded && Key(sys, VoteType.Prevote, r', b) in c.recorded
        && r < r' && b.Some? && (pk, r') !in ex
        ==> a == b || Unlocked(sys, sent, r, r', b)
  }

  ghost predicate CoreInv(sys: Sys, ex: Exempt, sent: set<Cast>, pk: PublicKey, c: Core)
    requires sys.vset.validators != []
  {
    && RecordedOnce(sys, c) && SentRecorded(sys, sent, pk, c) && StepInv(sys, pk, c)
    && LockInv(sys, sent, c) && PrecommitInv(sys, sent, c) && PrevoteInv(sys, ex, sent, pk, c)
  }

  // ---------------------------------------------------------------------------
  // Other engines' votes only add support
  // ---------------------------------------------------------------------------

  lemma LockInvGrows(sys: Sys, sent: set<Cast>, more: set<Cast>, c: Core)
    requires sent <= more && LockInv(sys, sent, c)
    ensures LockInv(sys, more, c)
  {
    if c.lockedRound.Some? {
      QuorumGrows(sys, sent, more, VoteType.Prevote, c.lockedRound.value, c.lockedValue);
    }
  }

  lemma PrecommitInvGrows(sys: Sys, sent: set<Cast>, more: set<Cast>, c: Core)
    requires sent <= more && PrecommitInv(sys, sent, c)
    ensures PrecommitInv(sys, more, c)
  {
    forall r: Round, a: BlockChoice | Key(sys, VoteType.Precommit, r, a) in c.recorded
      ensures HasQuorum(sys, more, VoteType.Prevote, r, a)
    {
      QuorumGrows(sys, sent, more, VoteType.Prevote, r, a);
    }
  }

  lemma UnlockedGrows(sys: Sys, sent: set<Cast>, more: set<Cast>, r: Round, r': Round, b: BlockChoice)
    requires sent <= more && Unlocked(sys, sent, r, r', b)
    ensures Unlocked(sys, more, r, r', b)
  {
    var q: Round :| r < q < r' && HasQuorum(sys, sent, VoteType.Prevote, q, b);
    QuorumGrows(sys, sent, more, VoteType.Prevote, q, b);
  }

  lemma PrevoteInvGrows(sys: Sys, ex: Exempt, sent: set<Cast>, more: set<Cast>, pk: PublicKey, c: Core)
    requires sys.vset.validators != [] && sent <= more && PrevoteInv(sys, ex, sent, pk, c)
    ensures PrevoteInv(sys, ex, more, pk, c)
  {
    forall r: Round, a: BlockChoice, r': Round, b: BlockChoice |
      && sys.MinorityFaulty() && r < r' && b.Some? && (pk, r') !in ex && a != b
      && Key(sys, VoteType.Precommit, r, a) in c.recorded && Key(sys, VoteType.Prevote, r', b) in c.recorded
      ensures Unlocked(sys, more, r, r', b)
    {
      UnlockedGrows(sys, sent, more, r, r', b);
    }
  }

  lemma CoreInvGrows(sys: Sys, ex: Exempt, sent: set<Cast>, more: set<Cast>, pk: PublicKey, c: Core)
    requires sys.vset.validators != [] && sent <= more && CoreInv(sys, ex, sent, pk, c)
    requires forall v :: v in more && v.voter == pk ==> v in sent
    ensures CoreInv(sys, ex, more, pk, c)
  {
    LockInvGrows(sys, sent, more, c);
    PrecommitInvGrows(sys, sent, more, c);
    PrevoteInvGrows(sys, ex, sent, more, pk, c);
  }

  // ---------------------------------------------------------------------------
  // The steps of one engine
  // ---------------------------------------------------------------------------

  /** Record a vote and send it, unless it conflicts with a recorded one. */
  ghost function CastVote(sys: Sys, pk: PublicKey, c: Core, t: VoteType, bid: BlockChoice): (Core, set<Cast>)
  {
    var key := Key(sys, t, c.round, bid);
    if Allowed(c.recorded, key) then (c.(recorded := c.recorded + {key}), {Cast(pk, t, c.round, bid)}) else (c, {})
  }

  /** When an engine may prevote `bid` in its round. */
  ghost predicate MayPrevote(sys: Sys, ex: Exempt, pk: PublicKey, c: Core, bid: BlockChoice)
    requires sys.vset.validators != []
  {
    || HasPrevoted(sys, c)
    || bid.None?
    || (pk, c.round) in ex
    || (c.lockedValue.None? && c.lockedRound.None?)
    || (c.lockedValue == bid && c.lockedRound.Some? && c.lockedRound.value < c.round)
  }

  /** Casting leaves the once-per-round discipline intact. */
  lemma CastRecorded(sys: Sys, sent: set<Cast>, pk: PublicKey, c: Core, t: VoteType, bid: BlockChoice)
    requires RecordedOnce(sys, c) && SentRecorded(sys, sent, pk, c)
    ensures var (c', cast) := CastVote(sys, pk, c, t, bid);
            RecordedOnce(sys, c') && SentRecorded(sys, sent + cast, pk, c')
  {
    var key := Key(sys, t, c.round, bid);
    assert forall k :: k in c.recorded ==> (Conflicting(k, key) <==> Conflicting(key, k));
  }

  /** After an attempt to prevote, some prevote of the round is recorded. */
  lemma CastPrevoted(sys: Sys, pk: PublicKey, c: Core, bid: BlockChoice)
    requires RecordedOnce(sys, c)
    ensures HasPrevoted(sys, CastVote(sys, pk, c, VoteType.Prevote, bid).0)
  {
    var key := Key(sys, VoteType.Prevote, c.round, bid);
    if Allowed(c.recorded, key) {
      assert key in CastVote(sys, pk, c, VoteType.Prevote, bid).0.recorded;
    } else {
      var k :| k in c.recorded && Conflicting(k, key);
      assert k == Key(sys, VoteType.Prevote, c.round, k.choice);
    }
  }

  /** A second prevote of one round adds nothing. */
  lemma CastAgain(sys: Sys, pk: PublicKey, c: Core, bid: BlockChoice)
    requires RecordedOnce(sys, c) && HasPrevoted(sys, c)
    ensures CastVote(sys, pk, c, VoteType.Prevote, bid).0 == c
  {
    var key := Key(sys, VoteType.Prevote, c.round, bid);
    var choice: BlockChoice :| Key(sys, VoteType.Prevote, c.round, choice) in c.recorded;
    if Allowed(c.recorded, key) {
      assert !Conflicting(Key(sys, VoteType.Prevote, c.round, choice), key);
      assert c.recorded + {key} == c.recorded;
    }
  }

  /** The new prevote is justified by the lock. */
  lemma CastPrevoteInv(sys: Sys, ex: Exempt, sent: set<Cast>, pk: PublicKey, c: Core, bid: BlockChoice)
    requires sys.vset.validators != []
    requires RecordedOnce(sys, c) && LockInv(sys, sent, c) && PrecommitInv(sys, sent, c)
    requires PrevoteInv(sys, ex, sent, pk, c)
    requires MayPrevote(sys, ex, pk, c, bid)
    ensures PrevoteInv(sys, ex, sent, pk, CastVote(sys, pk, c, VoteType.Prevote, bid).0)
  {
    var c' := CastVote(sys, pk, c, VoteType.Prevote, bid).0;
    if HasPrevoted(sys, c) {
      CastAgain(sys, pk, c, bid);
    } else if sys.MinorityFaulty() {
      forall r: Round, a: BlockChoice, r': Round, b: BlockChoice |
        Key(sys, VoteType.Precommit, r, a) in c'.recorded && Key(sys, VoteType.Prevote, r', b) in c'.recorded
        && r < r' && b.Some? && (pk, r') !in ex
        ensures a == b || Unlocked(sys, sent, r, r', b)
      {
        assert Key(sys, VoteType.Precommit, r, a) in c.recorded;
        if Key(sys, VoteType.Prevote, r', b) !in c.recorded {
          assert r' == c.round && b == bid == c.lockedValue;
          if r != c.lockedRound.value {
            assert r < c.lockedRound.value < r';
          }
        }
      }
    }
  }

  lemma PrevoteStep(sys: Sys, ex: Exempt, sent: set<Cast>, pk: PublicKey, c: Core, bid: BlockChoice, proposed: bool)
    requires sys.vset.validators != [] && CoreInv(sys, ex, sent, pk, c) && MayPrevote(sys, ex, pk, c, bid)
    ensures var (c', cast) := CastVote(sys, pk, c.(step := Step.Prevote, proposed := proposed), VoteType.Prevote, bid);
            CoreInv(sys, ex, sent + cast, pk, c')
  {
    var p := c.(step := Step.Prevote, proposed := proposed);
    var (c', cast) := CastVote(sys, pk, p, VoteType.Prevote, bid);
    CastRecorded(sys, sent, pk, p, VoteType.Prevote, bid);
    CastPrevoted(sys, pk, p, bid);
    assert MayPrevote(sys, ex, pk, p, bid) by {
      if HasPrevoted(sys, c) {
        var choice: BlockChoice :| Key(sys, VoteType.Prevote, c.round, choice) in c.recorded;
        assert Key(sys, VoteType.Prevote, p.round, choice) in p.recorded;
      }
    }
    assert PrevoteInv(sys, ex, sent, pk, p) && PrecommitInv(sys, sent, p);
    CastPrevoteInv(sys, ex, sent, pk, p, bid);
    LockInvGrows(sys, sent, sent + cast, c');
    assert PrecommitInv(sys, sent, c') by {
      forall r: Round, a: BlockChoice | Key(sys, VoteType.Precommit, r, a) in c'.recorded
        ensures Key(sys, VoteType.Precommit, r, a) in c.recorded {}
    }
    PrecommitInvGrows(sys, sent, sent + cast, c');
    PrevoteInvGrows(sys, ex, sent, sent + cast, pk, c');
  }

  /** Locking on the block of a prevote quorum, and precommitting it. */
  lemma LockStep(sys: Sys, ex: Exempt, sent: set<Cast>, pk: PublicKey, c: Core, bid: Hash32)
    requires sys.Valid() && SentOnce(sent)
    requires CoreInv(sys, ex, sent, pk, c) && c.step == Step.Prevote
    requires HasQuorum(sys, sent, VoteType.Prevote, c.round, Some(bid))
    ensures var l := c.(step := Step.Precommit, lockedRound := Some(c.round), lockedValue := Some(bid));
            var (c', cast) := CastVote(sys, pk, l, VoteType.Precommit, Some(bid));
            CoreInv(sys, ex, sent + cast, pk, c')
  {
    var l := c.(step := Step.Precommit, lockedRound := Some(c.round), lockedValue := Some(bid));
    var (c', cast) := CastVote(sys, pk, l, VoteType.Precommit, Some(bid));
    CastRecorded(sys, sent, pk, l, VoteType.Precommit, Some(bid));
    assert HasPrevoted(sys, c') by {
      var choice: BlockChoice :| Key(sys, VoteType.Prevote, c.round, choice) in c.recorded;
      assert Key(sys, VoteType.Prevote, c'.round, choice) in c'.recorded;
    }
    LockInvGrows(sys, sent, sent + cast, c');
    LockPrecommitInv(sys, sent, pk, c, bid);
    PrecommitInvGrows(sys, sent, sent + cast, c');
    assert PrevoteInv(sys, ex, sent, pk, c') by {
      forall r: Round, a: BlockChoice, r': Round, b: BlockChoice |
        Key(sys, VoteType.Precommit, r, a) in c'.recorded && Key(sys, VoteType.Prevote, r', b) in c'.recorded && r < r'
        ensures Key(sys, VoteType.Precommit, r, a) in c.recorded && Key(sys, VoteType.Prevote, r', b) in c.recorded
      {
        assert Key(sys, VoteType.Prevote, r', b) in c.recorded;
        assert r' <= c.round;
      }
    }
    PrevoteInvGrows(sys, ex, sent, sent + cast, pk, c');
  }

  lemma LockPrecommitInv(sys: Sys, sent: set<Cast>, pk: PublicKey, c: Core, bid: Hash32)
    requires sys.Valid() && SentOnce(sent)
    requires RecordedOnce(sys, c) && PrecommitInv(sys, sent, c)
    requires HasQuorum(sys, sent, VoteType.Prevote, c.round, Some(bid))
    ensures var l := c.(step := Step.Precommit, lockedRound := Some(c.round), lockedValue := Some(bid));
            PrecommitInv(sys, sent, CastVote(sys, pk, l, VoteType.Precommit, Some(bid)).0)
  {
    var l := c.(step := Step.Precommit, lockedRound := Some(c.round), lockedValue := Some(bid));
    var c' := CastVote(sys, pk, l, VoteType.Precommit, Some(bid)).0;
    forall r: Round, a: BlockChoice | Key(sys, VoteType.Precommit, r, a) in c'.recorded
      ensures a.Some? && HasQuorum(sys, sent, VoteType.Prevote, r, a) && r <= c.round
      ensures sys.MinorityFaulty() && r == c.round ==> Some(bid) == a
    {
      if Key(sys, VoteType.Precommit, r, a) in c.recorded {
        assert Key(sys, VoteType.Precommit, r, a).round <= c.round;
        if sys.MinorityFaulty() && r == c.round {
          QuorumUnique(sys, sent, VoteType.Prevote, r, a, Some(bid));
        }
      }
    }
  }

  lemma AdvanceStep(sys: Sys, ex: Exempt, sent: set<Cast>, pk: PublicKey, c: Core, round: Round, proposed: bool)
    requires sys.vset.validators != [] && CoreInv(sys, ex, sent, pk, c) && round == c.round + 1
    requires proposed ==> pk == sys.ProposerOf(round)
    ensures CoreInv(sys, ex, sent, pk, c.(round := round, step := Step.Propose, proposed := proposed))
  {
  }

  lemma ProposeStep(sys: Sys, ex: Exempt, sent: set<Cast>, pk: PublicKey, c: Core)
    requires sys.vset.validators != [] && CoreInv(sys, ex, sent, pk, c)
    requires pk == sys.ProposerOf(c.round)
    ensures CoreInv(sys, ex, sent, pk, c.(proposed := true))
  {
    var p := c.(proposed := true);
    assert HasPrevoted(sys, c) ==> HasPrevoted(sys, p);
  }

  lemma CommitStep(sys: Sys, ex: Exempt, sent: set<Cast>, pk: PublicKey, c: Core)
    requires sys.vset.validators != [] && CoreInv(sys, ex, sent, pk, c) && c.step == Step.Precommit
    ensures CoreInv(sys, ex, sent, pk, c.(step := Step.Commit))
  {
    var p := c.(step := Step.Commit);
    assert HasPrevoted(sys, c) ==> HasPrevoted(sys, p);
  }

  // ---------------------------------------------------------------------------
  // Safety of locks
  // ---------------------------------------------------------------------------

  ghost predicate AllCores(sys: Sys, ex: Exempt, sent: set<Cast>, cores: map<PublicKey, Core>)
    requires sys.vset.validators != []
  {
    && cores.Keys == sys.envs.Keys
    && forall pk :: pk in cores ==> CoreInv(sys, ex, sent, pk, cores[pk])
  }

  /** Once precommits for `a` have a quorum in round `r`, no later round ever has a prevote
      quorum for another block. */
  lemma {:induction false} LockPersists(sys: Sys, ex: Exempt, sent: set<Cast>, cores: map<PublicKey, Core>,
                                        r: Round, a: Hash32, r': Round, b: Hash32)
    requires sys.Valid() && Tame(sys, ex) && AllCores(sys, ex, sent, cores)
    requires HasQuorum(sys, sent, VoteType.Precommit, r, Some(a))
    requires HasQuorum(sys, sent, VoteType.Prevote, r', Some(b)) && r < r'
    ensures a == b
    decreases r'
  {
    TameIsMinority(sys, ex);
    var pk := SharedLoyalVoter(sys, ex, sent, VoteType.Precommit, r, Some(a), VoteType.Prevote, r', Some(b));
    LockCrossed(sys, ex, sent, pk, cores[pk], r, a, r', b);
    if a != b {
      var q: Round :| r < q < r' && HasQuorum(sys, sent, VoteType.Prevote, q, Some(b));
      LockPersists(sys, ex, sent, cores, r, a, q, b);
    }
  }

  /** What one engine's two votes tell. */
  lemma LockCrossed(sys: Sys, ex: Exempt, sent: set<Cast>, pk: PublicKey, c: Core,
                    r: Round, a: Hash32, r': Round, b: Hash32)
    requires sys.vset.validators != [] && sys.MinorityFaulty()
    requires SentRecorded(sys, sent, pk, c) && PrevoteInv(sys, ex, sent, pk, c)
    requires Cast(pk, VoteType.Precommit, r, Some(a)) in sent && Cast(pk, VoteType.Prevote, r', Some(b)) in sent
    requires r < r' && (pk, r') !in ex
    ensures a == b || Unlocked(sys, sent, r, r', Some(b))
  {
    assert Key(sys, VoteType.Precommit, r, Some(a)) in c.recorded;
    assert Key(sys, VoteType.Prevote, r', Some(b)) in c.recorded;
  }

  /** A quorum of precommits stands on a quorum of prevotes of the same round. */
  lemma PrecommitNeedsPrevotes(sys: Sys, ex: Exempt, sent: set<Cast>, cores: map<PublicKey, Core>, r: Round, a: Hash32)
    requires sys.Valid() && Tame(sys, ex) && AllCores(sys, ex, sent, cores)
    requires HasQuorum(sys, sent, VoteType.Precommit, r, Some(a))
    ensures HasQuorum(sys, sent, VoteType.Prevote, r, Some(a))
  {
    var pk := SharedLoyalVoter(sys, ex, sent, VoteType.Precommit, r, Some(a), VoteType.Precommit, r, Some(a));
    assert Key(sys, VoteType.Precommit, r, Some(a)) in cores[pk].recorded;
  }

  /** Precommit quorums in any two rounds name the same block. */
  lemma PrecommitQuorumsAgree(sys: Sys, ex: Exempt, sent: set<Cast>, cores: map<PublicKey, Core>,
                              r: Round, a: Hash32, r': Round, b: Hash32)
    requires sys.Valid() && Tame(sys, ex) && AllCores(sys, ex, sent, cores) && SentOnce(sent)
    requires HasQuorum(sys, sent, VoteType.Precommit, r, Some(a))
    requires HasQuorum(sys, sent, VoteType.Precommit, r', Some(b))
    ensures a == b
  {
    if r == r' {
      TameIsMinority(sys, ex);
      QuorumUnique(sys, sent, VoteType.Precommit, r, Some(a), Some(b));
    } else if r < r' {
      PrecommitNeedsPrevotes(sys, ex, sent, cores, r', b);
      LockPersists(sys, ex, sent, cores, r, a, r', b);
    } else {
      PrecommitNeedsPrevotes(sys, ex, sent, cores, r, a);
      LockPersists(sys, ex, sent, cores, r', b, r, a);
    }
  }
}
