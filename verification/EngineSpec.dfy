/** One consensus engine as a state machine (src/consensus/engine.rs): every public
    entry point is a function from a node and an input to the next node and the
    messages it sends. */
module EngineSpec {
  import opened Common
  import opened Power
  import opened Messages
  import opened Validators
  import opened Quorum
  import opened DoubleSign
  import opened Evidence

  datatype Step = Propose | Prevote | Precommit | Commit

  datatype CommitCertificate = CommitCertificate(height: Height, blockId: Hash32, precommits: seq<Vote>)

  datatype Slot = Slot(round: Round, voteType: VoteType)
  datatype IndexKey = IndexKey(voter: PublicKey, height: Height, round: Round, voteType: VoteType)
  datatype Indexed = Indexed(bid: BlockChoice, vote: Vote)

  type Ballots = map<PublicKey, Vote>

  datatype ConsensusState = ConsensusState(
    height: Height,
    round: Round,
    step: Step,
    lockedRound: Option<Round>,
    lockedValue: Option<Hash32>,
    validRound: Option<Round>,
    validValue: Option<Hash32>,
    proposal: Option<Proposal>,
    proposalBlock: Option<Block>,
    votes: map<Slot, Ballots>,
    voteIndex: map<IndexKey, Indexed>,
    decided: Option<CommitCertificate>)

  datatype Config = Config(proposeTimeout: nat, prevoteTimeout: nat, precommitTimeout: nat,
                           maxRounds: Round, includeBlock: bool, fastQuorum: bool)

  /** What an engine is given: the validator set, its configuration and key, and the
      functions it calls. `executes(block, credited, expected)` stands for re-executing a
      block: `credited` is the key whose address receives the fees and `expected` the key
      the header must name. */
  datatype Env = Env(
    vset: VSet,
    cfg: Config,
    me: PublicKey,
    verify: Verifier,
    sign: seq<byte> -> Signature,
    executes: (Block, PublicKey, PublicKey) -> bool)
  {
    ghost predicate Valid()
    {
      vset.Valid() && 2 * vset.Total() < U64_LIMIT
    }
  }

  /** The engine: consensus state, double-sign guard, time spent in the step, block store. */
  datatype Node = Node(state: ConsensusState, guard: Option<Guard>, elapsed: nat, store: map<Hash32, Block>)

  datatype EngineError = BadSignature | UnknownValidator | BadStep | ExecutionFailed | QuorumNotReached

  datatype Effect =
    | SendProposal(proposal: Proposal)
    | SendVote(vote: Vote)
    | SendEvidence(evidence: DoubleVote)
    | RequestBlock(id: Hash32)
    | Committed(cert: CommitCertificate, block: Block)

  datatype Outcome = Outcome(node: Node, effects: seq<Effect>, error: Option<EngineError>)

  function InitialState(height: Height): ConsensusState
  {
    ConsensusState(height, 0, Step.Propose, None, None, None, None, None, None, map[], map[], None)
  }

  // ---------------------------------------------------------------------------
  // Signing through the guard
  // ---------------------------------------------------------------------------

  /** Check, sign, record; `None` when the guard refuses. */
  ghost function Guarded(guard: Option<Guard>, key: SignedKey): (Option<Guard>, bool)
  {
    match guard
    case None => (None, true)
    case Some(g) =>
      var seen := Observe(g, key.height);
      if Allowed(seen.signed, key) then (Some(Record(seen, key)), true) else (Some(seen), false)
  }

  function MyVote(env: Env, s: ConsensusState, voteType: VoteType, bid: BlockChoice): Vote
  {
    Vote(voteType, s.height, s.round, env.me, bid,
         env.sign(VoteSignBytes(voteType, s.height, s.round, bid)))
  }

  /** `broadcast_vote` */
  ghost function BroadcastVote(env: Env, n: Node, voteType: VoteType, bid: BlockChoice): (Node, seq<Effect>)
  {
    var (guard, ok) := Guarded(n.guard, VoteKey(voteType, n.state.height, n.state.round, bid));
    (n.(guard := guard), if ok then [SendVote(MyVote(env, n.state, voteType, bid))] else [])
  }

  function MyProposal(env: Env, s: ConsensusState, built: Block): Proposal
  {
    Proposal(s.height, s.round, env.me, built.id, if env.cfg.includeBlock then Some(built) else None, s.validRound,
             env.sign(ProposalSignBytes(s.height, s.round, built.id, s.validRound)))
  }

  predicate IsProposer(env: Env, s: ConsensusState)
    requires env.vset.validators != []
  {
    env.vset.ProposerFor(s.height, s.round).pk == env.me
  }

  /** `maybe_propose`; `built` is the block made from the drained mempool. */
  ghost function MaybePropose(env: Env, n: Node, built: Block): (Node, seq<Effect>)
    requires env.vset.validators != []
  {
    if n.state.proposal.Some? || !IsProposer(env, n.state) then (n, []) else
      var stored := n.(store := n.store[built.id := built]);
      var (guard, ok) := Guarded(n.guard, ProposalKey(n.state.height, n.state.round, built.id));
      if !ok then (stored.(guard := guard), []) else
        var p := MyProposal(env, n.state, built);
        (stored.(guard := guard, state := n.state.(proposal := Some(p), proposalBlock := Some(built))),
         [SendProposal(p)])
  }

  /** `advance_round` */
  ghost function AdvanceRound(env: Env, n: Node, built: Block): (Node, seq<Effect>)
    requires env.vset.validators != []
  {
    if n.state.round + 1 >= env.cfg.maxRounds then (n, []) else
      var s := n.state.(round := n.state.round + 1, proposal := None, proposalBlock := None, step := Step.Propose);
      MaybePropose(env, n.(state := s, elapsed := 0), built)
  }

  // ---------------------------------------------------------------------------
  // Entry points
  // ---------------------------------------------------------------------------

  /** What a node prevotes when it leaves the propose step on its own. */
  function OwnPrevote(s: ConsensusState): BlockChoice
  {
    if s.proposal.Some? && s.proposalBlock.Some? then Some(s.proposal.value.blockId) else None
  }

  /** The propose step of `tick`: propose at most once, then prevote on a complete proposal
      or on timeout. The lock is not consulted. */
  ghost function TickPropose(env: Env, n: Node, firstTick: bool, built: Block): (Node, seq<Effect>)
    requires env.vset.validators != []
  {
    var (n1, out1) := if firstTick && n.state.proposal.None? then MaybePropose(env, n, built) else (n, []);
    var complete := env.cfg.fastQuorum && n1.state.proposal.Some? && n1.state.proposalBlock.Some?;
    if !complete && n1.elapsed < env.cfg.proposeTimeout then (n1, out1) else
      var n2 := n1.(state := n1.state.(step := Step.Prevote), elapsed := 0);
      var (n3, out3) := BroadcastVote(env, n2, VoteType.Prevote, OwnPrevote(n2.state));
      (n3, out1 + out3)
  }

  ghost function Tick(env: Env, n: Node, dt: nat, built: Block): (Node, seq<Effect>)
    requires env.vset.validators != []
  {
    if n.state.decided.Some? then (n, []) else
      var n1 := n.(elapsed := SaturatingAdd(n.elapsed, dt));
      match n.state.step
      case Propose => TickPropose(env, n1, n1.elapsed == dt, built)
      case Prevote => if n1.elapsed >= env.cfg.prevoteTimeout then AdvanceRound(env, n1, built) else (n1, [])
      case Precommit => if n1.elapsed >= env.cfg.precommitTimeout then AdvanceRound(env, n1, built) else (n1, [])
      case Commit => (n1, [])
  }

  function VerifyProposal(env: Env, s: ConsensusState, p: Proposal): Option<EngineError>
    requires env.vset.validators != []
  {
    if p.proposer !in env.vset.Keys() then Some(UnknownValidator)
    else if env.vset.ProposerFor(p.height, p.round).pk != p.proposer then Some(UnknownValidator)
    else if p.height != s.height || p.round != s.round then Some(BadStep)
    else if !env.verify(p.proposer, p.SignBytes(), p.signature) then Some(BadSignature)
    else None
  }

  function VerifyVote(env: Env, s: ConsensusState, v: Vote): Option<EngineError>
  {
    if v.voter !in env.vset.Keys() then Some(UnknownValidator)
    else if v.height != s.height || v.round != s.round then Some(BadStep)
    else if !env.verify(v.voter, v.SignBytes(), v.signature) then Some(BadSignature)
    else None
  }

  /** `prevote_choice`: a locked node prevotes only for its locked block. */
  function PrevoteChoice(s: ConsensusState, id: Hash32): BlockChoice
  {
    if s.lockedValue.Some? && s.lockedValue.value != id then None else Some(id)
  }

  ghost function OnProposal(env: Env, n: Node, p: Proposal): Outcome
    requires env.vset.validators != []
  {
    if n.state.decided.Some? then Outcome(n, [], None) else
      var error := VerifyProposal(env, n.state, p);
      if error.Some? then Outcome(n, [], error) else
        var store := if p.block.Some? then n.store[p.block.value.id := p.block.value] else n.store;
        var prevoting := n.(store := store, elapsed := 0, state := n.state.(step := Step.Prevote));
        if p.blockId !in store then
          var (n1, out) := BroadcastVote(env, prevoting, VoteType.Prevote, None);
          Outcome(n1.(state := n1.state.(proposal := Some(p), proposalBlock := None)),
                  [RequestBlock(p.blockId)] + out, None)
        else if !env.executes(store[p.blockId], p.proposer, p.proposer) then
          var (n1, out) := BroadcastVote(env, prevoting, VoteType.Prevote, None);
          Outcome(n1, out, None)
        else
          var s := prevoting.state.(proposal := Some(p), proposalBlock := Some(store[p.blockId]));
          var ready := prevoting.(state := s);
          var (n1, out) := BroadcastVote(env, ready, VoteType.Prevote, PrevoteChoice(n.state, p.blockId));
          Outcome(n1, out, None)
  }

  ghost function OnBlockReceived(env: Env, n: Node, block: Block): (Node, seq<Effect>)
  {
    var n1 := n.(store := n.store[block.id := block]);
    var s := n.state;
    if s.proposal.None? || s.proposal.value.blockId != block.id || s.proposalBlock.Some? then (n1, []) else
      var n2 := n1.(state := s.(proposalBlock := Some(block)));
      if s.step == Step.Prevote
      then BroadcastVote(env, n2, VoteType.Prevote, PrevoteChoice(s, block.id))
      else (n2, [])
  }

  // ---------------------------------------------------------------------------
  // Votes
  // ---------------------------------------------------------------------------

  function KeyOf(v: Vote): IndexKey
  {
    IndexKey(v.voter, v.height, v.round, v.voteType)
  }

  /** `record_vote_and_detect_evidence`: the first vote under a key is kept, a different later
      one is reported against it. */
  function RecordVote(s: ConsensusState, v: Vote): (ConsensusState, Option<DoubleVote>)
  {
    var key := KeyOf(v);
    if key in s.voteIndex then
      var prev := s.voteIndex[key];
      (s, if prev.bid != v.blockId
          then Some(DoubleVote(v.voter, v.height, v.round, v.voteType, prev.bid, v.blockId, prev.vote, v))
          else None)
    else
      (s.(voteIndex := s.voteIndex[key := Indexed(v.blockId, v)]), None)
  }

  function BallotsAt(s: ConsensusState, slot: Slot): Ballots
  {
    if slot in s.votes then s.votes[slot] else map[]
  }

  function StoreVote(s: ConsensusState, v: Vote): ConsensusState
  {
    var slot := Slot(v.round, v.voteType);
    s.(votes := s.votes[slot := BallotsAt(s, slot)[v.voter := v]])
  }

  ghost function Backers(ballots: Ballots, bid: BlockChoice): set<PublicKey>
  {
    set pk | pk in ballots && ballots[pk].blockId == bid
  }

  ghost predicate ReachesQuorum(vset: VSet, ballots: Ballots, bid: BlockChoice)
  {
    PowerOf(vset, Backers(ballots, bid)) >= QuorumThreshold(vset.Total())
  }

  /** The choice that the tally reports with a quorum, if any. */
  ghost function QuorumBid(vset: VSet, ballots: Ballots): (r: Option<BlockChoice>)
    ensures r.Some? ==> ReachesQuorum(vset, ballots, r.value)
    ensures r.None? ==> forall bid: BlockChoice :: !ReachesQuorum(vset, ballots, bid)
  {
    if exists bid: BlockChoice :: ReachesQuorum(vset, ballots, bid)
    then var bid: BlockChoice :| ReachesQuorum(vset, ballots, bid); Some(bid)
    else None
  }

  ghost predicate IsMin(keys: set<PublicKey>, k: PublicKey)
  {
    k in keys && forall x :: x in keys ==> k <= x
  }

  lemma {:induction false} MinExists(keys: set<PublicKey>)
    requires keys != {}
    ensures exists k :: IsMin(keys, k)
    decreases |keys|
  {
    var x :| x in keys;
    if keys == {x} {
      assert IsMin(keys, x);
    } else {
      MinExists(keys - {x});
      var k :| IsMin(keys - {x}, k);
      var m := if x <= k then x else k;
      forall y | y in keys ensures m <= y {
        if y != x {
          assert y in keys - {x};
        }
      }
      assert IsMin(keys, m);
    }
  }

  function MinKey(keys: set<PublicKey>): (k: PublicKey)
    requires keys != {}
    ensures k in keys && forall x :: x in keys ==> k <= x
  {
    MinExists(keys);
    assert exists k :: IsMin(keys, k);
    var k :| k in keys && forall x :: x in keys ==> k <= x;
    k
  }

  /** `collect_votes`: the ballots for a block, in key order. */
  function Collect(ballots: Ballots, keys: set<PublicKey>, bid: Hash32): seq<Vote>
    requires keys <= ballots.Keys
    decreases |keys|
  {
    if keys == {} then [] else
      var k := MinKey(keys);
      (if ballots[k].blockId == Some(bid) then [ballots[k]] else []) + Collect(ballots, keys - {k}, bid)
  }

  /** Lock on a block that a quorum prevoted, and precommit it. */
  ghost function LockAndPrecommit(env: Env, n: Node, bid: Hash32): (Node, seq<Effect>)
  {
    var s := n.state.(validRound := Some(n.state.round), validValue := Some(bid),
                      lockedRound := Some(n.state.round), lockedValue := Some(bid), step := Step.Precommit);
    BroadcastVote(env, n.(state := s, elapsed := 0), VoteType.Precommit, Some(bid))
  }

  /** A quorum of precommits for a block: commit it, if it is here and re-executes. */
  ghost function Decide(env: Env, n: Node, round: Round, bid: Hash32): Outcome
    requires env.vset.validators != []
  {
    if bid !in n.store then Outcome(n, [RequestBlock(bid)], None) else
      var block := n.store[bid];
      if !env.executes(block, block.proposerPk, env.vset.ProposerFor(n.state.height, round).pk)
      then Outcome(n, [], Some(ExecutionFailed)) else
        var ballots := BallotsAt(n.state, Slot(round, VoteType.Precommit));
        var cert := CommitCertificate(n.state.height, bid, Collect(ballots, ballots.Keys, bid));
        Outcome(n.(elapsed := 0, state := n.state.(decided := Some(cert), step := Step.Commit)),
                [Committed(cert, block)], None)
  }

  /** What a recorded vote triggers. */
  ghost function React(env: Env, n: Node, v: Vote, built: Block): Outcome
    requires env.vset.validators != []
  {
    var quorum := QuorumBid(env.vset, BallotsAt(n.state, Slot(v.round, v.voteType)));
    match v.voteType
    case Prevote =>
      if n.state.step != Step.Prevote || quorum.None? then Outcome(n, [], None)
      else
        var (n1, out) := if quorum.value.Some? then LockAndPrecommit(env, n, quorum.value.value)
                         else AdvanceRound(env, n, built);
        Outcome(n1, out, None)
    case Precommit =>
      if n.state.step != Step.Precommit || quorum.None? then Outcome(n, [], None)
      else if quorum.value.Some? then Decide(env, n, v.round, quorum.value.value)
      else
        var (n1, out) := AdvanceRound(env, n, built);
        Outcome(n1, out, None)
  }

  ghost function OnVote(env: Env, n: Node, v: Vote, built: Block): Outcome
    requires env.vset.validators != []
  {
    if n.state.decided.Some? then Outcome(n, [], None) else
      var error := VerifyVote(env, n.state, v);
      if error.Some? then Outcome(n, [], error) else
        var (s1, ev) := RecordVote(n.state, v);
        var n1 := n.(state := StoreVote(s1, v));
        var r := React(env, n1, v, built);
        r.(effects := (if ev.Some? then [SendEvidence(ev.value)] else []) + r.effects)
  }

  // ---------------------------------------------------------------------------
  // Certificates
  // ---------------------------------------------------------------------------

  /** The first reason why one vote of a certificate is not accepted. */
  function VoteFault(vset: VSet, verify: Verifier, v: Vote): Option<EngineError>
  {
    if v.voter !in vset.Keys() then Some(UnknownValidator)
    else if !verify(v.voter, v.SignBytes(), v.signature) then Some(BadSignature)
    else None
  }

  function FirstFault(vset: VSet, verify: Verifier, votes: seq<Vote>): Option<EngineError>
  {
    if votes == [] then None else
      var rest := FirstFault(vset, verify, votes[..|votes| - 1]);
      if rest.Some? then rest else VoteFault(vset, verify, votes[|votes| - 1])
  }

  function ListedPower(vset: VSet, votes: seq<Vote>): nat
  {
    if votes == [] then 0 else
      SaturatingAdd(ListedPower(vset, votes[..|votes| - 1]), vset.Power(votes[|votes| - 1].voter))
  }

  /** `CommitCertificate::verify` */
  function VerifyCertificate(cert: CommitCertificate, vset: VSet, verify: Verifier): Option<EngineError>
  {
    var fault := FirstFault(vset, verify, cert.precommits);
    if fault.Some? then fault
    else if ListedPower(vset, cert.precommits) < QuorumThreshold(vset.Total()) then Some(QuorumNotReached)
    else None
  }

  // ---------------------------------------------------------------------------
  // One step of an engine
  // ---------------------------------------------------------------------------

  datatype Input =
    | Clock(dt: nat, built: Block)
    | GotProposal(proposal: Proposal)
    | GotVote(vote: Vote, built: Block)
    | GotBlock(block: Block)

  ghost function Next(env: Env, n: Node, input: Input): Outcome
    requires env.vset.validators != []
  {
    match input
    case Clock(dt, built) => var (n1, out) := Tick(env, n, dt, built); Outcome(n1, out, None)
    case GotProposal(p) => OnProposal(env, n, p)
    case GotVote(v, built) => OnVote(env, n, v, built)
    case GotBlock(b) => var (n1, out) := OnBlockReceived(env, n, b); Outcome(n1, out, None)
  }
}
