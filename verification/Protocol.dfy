/** One height of the network: correct engines, everything they have sent, and
    Byzantine validators that may send anything under their own keys. */
module Protocol {
  import opened Common
  import opened Power
  import opened Messages
  import opened Validators
  import opened Quorum
  import opened DoubleSign
  import opened EngineSpec

  /** `envs` holds one environment for each correct engine, under its public key. */
  datatype Sys = Sys(height: Height, vset: VSet, envs: map<PublicKey, Env>) {

    ghost predicate Valid()
    {
      && vset.Valid() && 2 * vset.Total() < U64_LIMIT
      && height != 0 && height != REPEATED_ONE_HEIGHT
      && forall pk :: pk in envs ==> envs[pk].me == pk && envs[pk].vset == vset
    }

    ghost function Byzantine(): set<PublicKey>
    {
      vset.Keys() - envs.Keys
    }

    function ProposerOf(round: nat): PublicKey
      requires vset.validators != []
    {
      vset.ProposerFor(height, round).pk
    }

    /** Byzantine power is less than what two quorums share, as a third of the total is. */
    ghost predicate MinorityFaulty()
    {
      PowerOf(vset, Byzantine()) < Overlap(vset.Total())
    }

    /** And so it is together with any one validator. */
    ghost predicate Bounded()
    {
      forall pk :: pk in vset.Keys() ==> PowerOf(vset, Byzantine()) + vset.Power(pk) < Overlap(vset.Total())
    }
  }

  /** A vote that a correct engine has sent at this height. */
  datatype Cast = Cast(voter: PublicKey, voteType: VoteType, round: Round, choice: BlockChoice)

  function CastOf(v: Vote): Cast
  {
    Cast(v.voter, v.voteType, v.round, v.blockId)
  }

  datatype Network = Network(
    nodes: map<PublicKey, Node>,
    sent: set<Cast>,
    signatures: set<(PublicKey, seq<byte>)>,
    accused: set<PublicKey>)

  ghost function CastsOf(effects: seq<Effect>): set<Cast>
  {
    set i | 0 <= i < |effects| && effects[i].SendVote? :: CastOf(effects[i].vote)
  }

  ghost function SignedIn(pk: PublicKey, effects: seq<Effect>): set<(PublicKey, seq<byte>)>
  {
    (set i | 0 <= i < |effects| && effects[i].SendVote? :: (pk, effects[i].vote.SignBytes())) +
    (set i | 0 <= i < |effects| && effects[i].SendProposal? :: (pk, effects[i].proposal.SignBytes()))
  }

  ghost function AccusedIn(effects: seq<Effect>): set<PublicKey>
  {
    set i | 0 <= i < |effects| && effects[i].SendEvidence? :: effects[i].evidence.voter
  }

  /** A new engine at this height: nothing signed at it yet. */
  ghost predicate FreshNode(sys: Sys, n: Node)
  {
    && n.state == InitialState(sys.height)
    && n.guard.Some?
    && forall k :: k in n.guard.value.signed ==> k.height != sys.height
  }

  ghost predicate Init(sys: Sys, net: Network)
  {
    && net.nodes.Keys == sys.envs.Keys
    && (forall pk :: pk in net.nodes ==> FreshNode(sys, net.nodes[pk]))
    && net.sent == {} && net.signatures == {} && net.accused == {}
  }

  /** The guard has room for the messages of one more step. */
  predicate Roomy(g: Guard, entries: nat)
  {
    g.config.maxEntries == 0 || |g.signed| + entries <= g.config.maxEntries
  }

  /** Signatures of correct engines are not forged: one that verifies was made. */
  ghost predicate Unforged(sys: Sys, net: Network, env: Env, signer: PublicKey, bytes: seq<byte>, sig: Signature)
  {
    signer in sys.envs && env.verify(signer, bytes, sig) ==> (signer, bytes) in net.signatures
  }

  datatype Event = Event(pk: PublicKey, input: Input)

  ghost predicate Enabled(sys: Sys, net: Network, e: Event)
  {
    && e.pk in sys.envs && e.pk in net.nodes
    && net.nodes[e.pk].guard.Some? && Roomy(net.nodes[e.pk].guard.value, 2)
    && (e.input.GotVote? ==>
          Unforged(sys, net, sys.envs[e.pk], e.input.vote.voter, e.input.vote.SignBytes(), e.input.vote.signature))
    && (e.input.GotProposal? ==>
          var p := e.input.proposal;
          Unforged(sys, net, sys.envs[e.pk], p.proposer, p.SignBytes(), p.signature))
  }

  ghost function Apply(sys: Sys, net: Network, e: Event): Network
    requires sys.Valid() && Enabled(sys, net, e)
  {
    var o := Next(sys.envs[e.pk], net.nodes[e.pk], e.input);
    Network(net.nodes[e.pk := o.node],
            net.sent + CastsOf(o.effects),
            net.signatures + SignedIn(e.pk, o.effects),
            net.accused + AccusedIn(o.effects))
  }

  /** The events are enabled one after the other, starting from `net`. */
  ghost predicate IsRun(sys: Sys, net: Network, events: seq<Event>)
    requires sys.Valid()
    decreases |events|
  {
    events != [] ==> Enabled(sys, net, events[0]) && IsRun(sys, Apply(sys, net, events[0]), events[1..])
  }

  ghost function After(sys: Sys, net: Network, events: seq<Event>): Network
    requires sys.Valid() && IsRun(sys, net, events)
    decreases |events|
  {
    if events == [] then net else After(sys, Apply(sys, net, events[0]), events[1..])
  }

  // ---------------------------------------------------------------------------
  // Prevotes against a lock
  // ---------------------------------------------------------------------------

  /** Engines and rounds. */
  type Exempt = set<(PublicKey, Round)>

  /** The engines and rounds in which these effects of `n` prevote another block than the one that `n` is
      locked on. */
  ghost function Defiance(n: Node, effects: seq<Effect>): Exempt
  {
    set v | v in CastsOf(effects) && Defies(n.state.lockedValue, v) :: (v.voter, v.round)
  }

  predicate Defies(locked: Option<Hash32>, v: Cast)
  {
    v.voteType == VoteType.Prevote && v.choice.Some? && locked.Some? && locked != v.choice
  }

  /** All of them along a run. */
  ghost function RunDefiance(sys: Sys, net: Network, events: seq<Event>): Exempt
    requires sys.Valid() && IsRun(sys, net, events)
    decreases |events|
  {
    if events == [] then {}
    else
      var e := events[0];
      Defiance(net.nodes[e.pk], Next(sys.envs[e.pk], net.nodes[e.pk], e.input).effects)
      + RunDefiance(sys, Apply(sys, net, e), events[1..])
  }

  ghost function Exempted(sys: Sys, ex: Exempt, round: Round): set<PublicKey>
  {
    set pk | pk in sys.vset.Keys() && (pk, round) in ex
  }

  /** In every round, the Byzantine and the exempt validators hold less power than two quorums share. */
  ghost predicate Tame(sys: Sys, ex: Exempt)
  {
    forall r: Round :: PowerOf(sys.vset, sys.Byzantine() + Exempted(sys, ex, r)) < Overlap(sys.vset.Total())
  }

  // ---------------------------------------------------------------------------
  // Support for a choice
  // ---------------------------------------------------------------------------

  /** All validators that can be counted for a choice: every Byzantine one, and the
      correct ones that sent that vote. */
  ghost function Backing(sys: Sys, sent: set<Cast>, voteType: VoteType, round: Round, choice: BlockChoice)
    : set<PublicKey>
  {
    sys.Byzantine() + set pk | pk in sys.vset.Keys() && Cast(pk, voteType, round, choice) in sent
  }

  ghost predicate HasQuorum(sys: Sys, sent: set<Cast>, voteType: VoteType, round: Round, choice: BlockChoice)
  {
    IsQuorum(sys.vset, Backing(sys, sent, voteType, round, choice))
  }

  /** No correct engine sent two different votes of one type in one round. */
  ghost predicate SentOnce(sent: set<Cast>)
  {
    forall a, b :: a in sent && b in sent && a.voter == b.voter && a.voteType == b.voteType && a.round == b.round
                   ==> a.choice == b.choice
  }

  lemma QuorumGrows(sys: Sys, sent: set<Cast>, more: set<Cast>, voteType: VoteType, round: Round, choice: BlockChoice)
    requires sent <= more && HasQuorum(sys, sent, voteType, round, choice)
    ensures HasQuorum(sys, more, voteType, round, choice)
  {
    SumMonotone(Backing(sys, sent, voteType, round, choice), Backing(sys, more, voteType, round, choice),
                (pk: PublicKey) => sys.vset.Power(pk));
  }

  /** Two quorums share a validator outside any set with less power than their overlap. */
  lemma SharedVoter(sys: Sys, sent: set<Cast>, t: VoteType, r: Round, a: BlockChoice,
                    t': VoteType, r': Round, b: BlockChoice, excluded: set<PublicKey>) returns (pk: PublicKey)
    requires sys.Valid() && HasQuorum(sys, sent, t, r, a) && HasQuorum(sys, sent, t', r', b)
    requires sys.Byzantine() <= excluded && PowerOf(sys.vset, excluded) < Overlap(sys.vset.Total())
    ensures pk in sys.envs && pk in sys.vset.Keys() && pk !in excluded
    ensures Cast(pk, t, r, a) in sent && Cast(pk, t', r', b) in sent
  {
    var x, y := Backing(sys, sent, t, r, a), Backing(sys, sent, t', r', b);
    QuorumsIntersect(sys.vset, x, y);
    pk := SumExceeds(x * y, excluded, (pk: PublicKey) => sys.vset.Power(pk));
  }

  /** Two quorums share a correct validator that did not prevote against its lock in the given round. */
  lemma SharedLoyalVoter(sys: Sys, ex: Exempt, sent: set<Cast>, t: VoteType, r: Round, a: BlockChoice,
                         t': VoteType, r': Round, b: BlockChoice) returns (pk: PublicKey)
    requires sys.Valid() && Tame(sys, ex)
    requires HasQuorum(sys, sent, t, r, a) && HasQuorum(sys, sent, t', r', b)
    ensures pk in sys.envs && (pk, r') !in ex
    ensures Cast(pk, t, r, a) in sent && Cast(pk, t', r', b) in sent
  {
    pk := SharedVoter(sys, sent, t, r, a, t', r', b, sys.Byzantine() + Exempted(sys, ex, r'));
  }

  lemma TameIsMinority(sys: Sys, ex: Exempt)
    requires Tame(sys, ex)
    ensures sys.MinorityFaulty()
  {
    SumMonotone(sys.Byzantine(), sys.Byzantine() + Exempted(sys, ex, 0), (pk: PublicKey) => sys.vset.Power(pk));
  }

  /** With at most one validator exempt in each round, the proposer, the general bound is enough. */
  lemma BoundedIsTame(sys: Sys, ex: Exempt)
    requires sys.Valid() && sys.Bounded() && forall d :: d in ex ==> d.0 == sys.ProposerOf(d.1)
    ensures Tame(sys, ex)
  {
    var w := (pk: PublicKey) => sys.vset.Power(pk);
    forall r: Round ensures PowerOf(sys.vset, sys.Byzantine() + Exempted(sys, ex, r)) < Overlap(sys.vset.Total()) {
      var pk := sys.ProposerOf(r);
      sys.vset.ProposerIsMember(sys.height, r);
      assert Exempted(sys, ex, r) <= {pk};
      if pk !in sys.Byzantine() {
        SumInsert(sys.Byzantine(), w, pk);
      } else {
        assert sys.Byzantine() + {pk} == sys.Byzantine();
      }
      SumMonotone(sys.Byzantine() + Exempted(sys, ex, r), sys.Byzantine() + {pk}, w);
    }
  }

  lemma ThirdIsMinority(sys: Sys)
    requires sys.Valid() && 3 * PowerOf(sys.vset, sys.Byzantine()) <= sys.vset.Total()
    ensures sys.MinorityFaulty()
  {
    TotalPositive(sys.vset);
    OverlapIsThird(PowerOf(sys.vset, sys.Byzantine()), sys.vset.Total());
  }

  /** At most one choice has a quorum in a round. */
  lemma QuorumUnique(sys: Sys, sent: set<Cast>, t: VoteType, r: Round, a: BlockChoice, b: BlockChoice)
    requires sys.Valid() && sys.MinorityFaulty() && SentOnce(sent)
    requires HasQuorum(sys, sent, t, r, a) && HasQuorum(sys, sent, t, r, b)
    ensures a == b
  {
    var pk := SharedVoter(sys, sent, t, r, a, t, r, b, sys.Byzantine());
  }
}
