/** Why the agreement bound counts a proposer: a run with no faulty validator in which two
    engines decide different blocks. The proposer of round 1 holds half of the power, is
    locked on the block of round 0, and prevotes its own new block as soon as its clock ticks
    (src/consensus/engine.rs). */
module Disagreement {
  import opened Common
  import opened Power
  import opened Messages
  import opened Validators
  import opened Quorum
  import opened DoubleSign
  import opened EngineSpec
  import opened Protocol
  import opened Agreement

  // ---------------------------------------------------------------------------
  // Three validators, with powers 1, 2 and 1
  // ---------------------------------------------------------------------------

  const VALIDATORS := [Validator(1, 1), Validator(2, 2), Validator(3, 1)]

  function Trio(): VSet { VSet(VALIDATORS, RoundRobin) }

  lemma TrioPowers()
    ensures Trio().Keys() == {1, 2, 3}
    ensures Trio().Power(1) == 1 && Trio().Power(2) == 2 && Trio().Power(3) == 1
    ensures Trio().Valid() && Trio().Total() == 4 && QuorumThreshold(4) == 3
  {
    var vs := VALIDATORS;
    assert vs[..2] == [Validator(1, 1), Validator(2, 2)];
    assert vs[..2][..1] == [Validator(1, 1)];
    assert vs[..2][..1][..0] == [];
    assert Lookup(vs[..2][..1]) == map[1 := 1];
    assert Lookup(vs[..2]) == map[1 := 1, 2 := 2];
    assert Lookup(vs) == map[1 := 1, 2 := 2, 3 := 1];
    assert TotalOf(vs[..2][..1]) == 1;
    assert TotalOf(vs[..2]) == 3;
  }

  lemma PairPower(x: PublicKey)
    requires x == 1 || x == 3
    ensures PowerOf(Trio(), {2, x}) == 3
    ensures PowerOf(Trio(), {2}) == 2 && PowerOf(Trio(), {x}) == 1
  {
    TrioPowers();
    var w := (pk: PublicKey) => Trio().Power(pk);
    SumSingleton(2, w);
    SumSingleton(x, w);
    SumInsert({2}, w, x);
    assert {2} + {x} == {2, x};
  }

  /** One ballot is no quorum. */
  lemma OneBallot(pk: PublicKey, v: Vote)
    requires pk == 1 || pk == 2 || pk == 3
    ensures QuorumBid(Trio(), map[pk := v]).None?
  {
    TrioPowers();
    PairPower(1);
    PairPower(3);
    var ballots: Ballots := map[pk := v];
    forall bid: BlockChoice ensures !ReachesQuorum(Trio(), ballots, bid) {
      assert Backers(ballots, bid) == {pk} || Backers(ballots, bid) == {};
    }
  }

  /** The two ballots of validator 2 and another one are. */
  lemma TwoBallots(x: PublicKey, v: Vote, w: Vote)
    requires (x == 1 || x == 3) && v.blockId == w.blockId
    ensures QuorumBid(Trio(), map[2 := v, x := w]) == Some(v.blockId)
  {
    TrioPowers();
    PairPower(x);
    var ballots: Ballots := map[2 := v, x := w];
    assert Backers(ballots, v.blockId) == {2, x};
    assert ReachesQuorum(Trio(), ballots, v.blockId);
    forall bid: BlockChoice | bid != v.blockId ensures !ReachesQuorum(Trio(), ballots, bid) {
      assert Backers(ballots, bid) == {};
    }
  }

  // ---------------------------------------------------------------------------
  // The engines and their messages
  // ---------------------------------------------------------------------------

  const A := Block(10, 1, [])
  const B := Block(20, 2, [])
  const CFG := Config(300, 200, 200, 50, true, true)

  function E(pk: PublicKey): Env
  {
    Env(Trio(), CFG, pk, (k: PublicKey, b: seq<byte>, s: Signature) => true, (b: seq<byte>) => [],
        (b: Block, c: PublicKey, e: PublicKey) => true)
  }

  function System(): Sys { Sys(3, Trio(), map[1 := E(1), 2 := E(2), 3 := E(3)]) }

  lemma SystemValid()
    ensures System().Valid() && System().Byzantine() == {}
  {
    TrioPowers();
  }

  function V(pk: PublicKey, t: VoteType, r: Round, c: BlockChoice): Vote { Vote(t, 3, r, pk, c, []) }

  const PA := Proposal(3, 0, 1, 10, Some(A), None, [])
  const PB := Proposal(3, 1, 2, 20, Some(B), Some(0), [])

  function Pre(pk: PublicKey, r: Round, id: Hash32): Vote { V(pk, VoteType.Prevote, r, Some(id)) }
  function Com(pk: PublicKey, r: Round, id: Hash32): Vote { V(pk, VoteType.Precommit, r, Some(id)) }

  /** The guard after it has signed these messages. */
  function G(keys: set<SignedKey>): Option<Guard> { Some(Guard(GuardConfig(false, 0, 0), keys, 3, None)) }

  function K(t: VoteType, r: Round, c: BlockChoice): SignedKey { VoteKey(t, 3, r, c) }
  function KPre(r: Round, id: Hash32): SignedKey { K(VoteType.Prevote, r, Some(id)) }
  function KCom(r: Round, id: Hash32): SignedKey { K(VoteType.Precommit, r, Some(id)) }

  const FRESH := Node(InitialState(3), Some(Guard(GuardConfig(false, 0, 0), {}, 0, None)), 0, map[])

  // ---------------------------------------------------------------------------
  // What the steps of this run do
  // ---------------------------------------------------------------------------

  /** The guard signs a message that conflicts with nothing. */
  lemma Signs(keys: set<SignedKey>, key: SignedKey, after: set<SignedKey>)
    requires key.height == 3 && Allowed(keys, key) && after == keys + {key}
    ensures Guarded(G(keys), key) == (G(after), true)
  {
  }

  function WithVote(n: Node, v: Vote): Node { n.(state := StoreVote(RecordVote(n.state, v).0, v)) }

  predicate Timely(n: Node, v: Vote)
  {
    && n.state.height == v.height == 3 && n.state.decided.None?
    && v.round == n.state.round && v.voter in {1, 2, 3} && KeyOf(v) !in n.state.voteIndex
  }

  /** The first vote of a slot is only stored. */
  lemma FirstVote(me: PublicKey, n: Node, v: Vote)
    requires Timely(n, v) && Slot(v.round, v.voteType) !in n.state.votes
    ensures Next(E(me), n, GotVote(v, A)) == Outcome(WithVote(n, v), [], None)
  {
    TrioPowers();
    OneBallot(v.voter, v);
    assert BallotsAt(WithVote(n, v).state, Slot(v.round, v.voteType)) == map[v.voter := v];
  }

  /** The slot holds one vote for the block that `v` is for, and `v` completes a quorum. */
  predicate Completes(n: Node, first: Vote, v: Vote)
  {
    var slot := Slot(v.round, v.voteType);
    && Timely(n, v) && slot in n.state.votes && n.state.votes[slot] == map[first.voter := first]
    && v.blockId == first.blockId && v.blockId.Some?
    && ((first.voter == 2 && v.voter in {1, 3}) || (v.voter == 2 && first.voter in {1, 3}))
  }

  lemma SecondVote(me: PublicKey, n: Node, first: Vote, v: Vote)
    requires Completes(n, first, v)
    ensures QuorumBid(Trio(), BallotsAt(WithVote(n, v).state, Slot(v.round, v.voteType))) == Some(v.blockId)
    ensures Next(E(me), n, GotVote(v, A)) == React(E(me), WithVote(n, v), v, A)
  {
    TrioPowers();
    var ballots := BallotsAt(WithVote(n, v).state, Slot(v.round, v.voteType));
    if v.voter == 2 {
      assert ballots == map[2 := v, first.voter := first];
      TwoBallots(first.voter, v, first);
    } else {
      assert ballots == map[2 := first, v.voter := v];
      TwoBallots(v.voter, first, v);
    }
    var r := React(E(me), WithVote(n, v), v, A);
    assert [] + r.effects == r.effects;
  }

  /** A node locked on a block in its round, having signed these messages. */
  function LockedOn(n: Node, id: Hash32, keys: set<SignedKey>): Node
  {
    n.(elapsed := 0, guard := G(keys),
       state := n.state.(validRound := Some(n.state.round), validValue := Some(id),
                         lockedRound := Some(n.state.round), lockedValue := Some(id), step := Step.Precommit))
  }

  lemma LockingVote(me: PublicKey, n: Node, first: Vote, v: Vote, keys: set<SignedKey>, after: set<SignedKey>)
    requires Completes(n, first, v) && v.voteType == VoteType.Prevote && n.state.step == Step.Prevote
    requires var key := KCom(v.round, v.blockId.value);
             n.guard == G(keys) && Allowed(keys, key) && after == keys + {key}
    ensures Next(E(me), n, GotVote(v, A))
         == Outcome(LockedOn(WithVote(n, v), v.blockId.value, after),
                    [SendVote(Com(me, v.round, v.blockId.value))], None)
  {
    SecondVote(me, n, first, v);
    Signs(keys, KCom(v.round, v.blockId.value), after);
  }

  lemma DecidingVote(me: PublicKey, n: Node, first: Vote, v: Vote)
    requires Completes(n, first, v) && v.voteType == VoteType.Precommit && n.state.step == Step.Precommit
    requires v.blockId.value in n.store
    ensures var o := Next(E(me), n, GotVote(v, A));
            o.node.state.decided.Some? && o.node.state.decided.value.blockId == v.blockId.value
  {
    SecondVote(me, n, first, v);
  }

  // ---------------------------------------------------------------------------
  // Round 0: validator 1 proposes A; validators 1 and 2 lock on it; validator 1 decides it
  // ---------------------------------------------------------------------------

  /** A node that has prevoted the block of a proposal. */
  function Prevoted(n: Node, p: Proposal, block: Block, keys: set<SignedKey>): Node
  {
    n.(elapsed := 0, guard := G(keys), store := n.store[block.id := block],
       state := n.state.(proposal := Some(p), proposalBlock := Some(block), step := Step.Prevote))
  }

  function A1(): Node { Prevoted(FRESH, PA, A, {ProposalKey(3, 0, 10), KPre(0, 10)}) }
  function A2(): Node
  {
    LockedOn(WithVote(WithVote(A1(), Pre(2, 0, 10)), Pre(1, 0, 10)), 10,
             {ProposalKey(3, 0, 10), KPre(0, 10), KCom(0, 10)})
  }

  lemma StepA1()
    ensures Next(E(1), FRESH, Clock(0, A)) == Outcome(A1(), [SendProposal(PA), SendVote(Pre(1, 0, 10))], None)
  {
    TrioPowers();
    assert IsProposer(E(1), FRESH.state);
    assert {} + {ProposalKey(3, 0, 10)} == {ProposalKey(3, 0, 10)};
    assert Guarded(FRESH.guard, ProposalKey(3, 0, 10)) == (G({ProposalKey(3, 0, 10)}), true);
    Signs({ProposalKey(3, 0, 10)}, KPre(0, 10), {ProposalKey(3, 0, 10), KPre(0, 10)});
  }

  function P1(): Node { Prevoted(FRESH, PA, A, {KPre(0, 10)}) }
  function P2(): Node
  {
    LockedOn(WithVote(WithVote(P1(), Pre(1, 0, 10)), Pre(2, 0, 10)), 10, {KPre(0, 10), KCom(0, 10)})
  }

  lemma StepP1()
    ensures Next(E(2), FRESH, GotProposal(PA)) == Outcome(P1(), [SendVote(Pre(2, 0, 10))], None)
  {
    TrioPowers();
    assert {} + {KPre(0, 10)} == {KPre(0, 10)};
    assert Guarded(FRESH.guard, KPre(0, 10)) == (G({KPre(0, 10)}), true);
  }

  // ---------------------------------------------------------------------------
  // Round 1: validator 2, locked on A, proposes and prevotes B; validator 3 decides it
  // ---------------------------------------------------------------------------

  function P3(): Node
  {
    P2().(elapsed := 0, guard := G({KPre(0, 10), KCom(0, 10), ProposalKey(3, 1, 20)}), store := P2().store[20 := B],
          state := P2().state.(round := 1, step := Step.Propose, proposal := Some(PB), proposalBlock := Some(B)))
  }

  function P4(): Node { Prevoted(P3(), PB, B, {KPre(0, 10), KCom(0, 10), ProposalKey(3, 1, 20), KPre(1, 20)}) }

  /** After the precommit timeout of round 0, validator 2 proposes B in round 1. */
  lemma ProposesNext(n: Node, keys: set<SignedKey>, after: set<SignedKey>)
    requires n.state.height == 3 && n.state.round == 0 && n.state.step == Step.Precommit && n.state.decided.None?
    requires n.elapsed == 0 && n.state.validRound == Some(0) && n.guard == G(keys)
    requires Allowed(keys, ProposalKey(3, 1, 20)) && after == keys + {ProposalKey(3, 1, 20)}
    ensures Next(E(2), n, Clock(200, B))
         == Outcome(n.(elapsed := 0, guard := G(after), store := n.store[20 := B],
                       state := n.state.(round := 1, step := Step.Propose, proposal := Some(PB),
                                         proposalBlock := Some(B))),
                    [SendProposal(PB)], None)
  {
    TrioPowers();
    Signs(keys, ProposalKey(3, 1, 20), after);
  }

  lemma StepP3()
    ensures Next(E(2), P2(), Clock(200, B)) == Outcome(P3(), [SendProposal(PB)], None)
  {
    ProposesNext(P2(), {KPre(0, 10), KCom(0, 10)}, {KPre(0, 10), KCom(0, 10), ProposalKey(3, 1, 20)});
  }

  /** The lock on A does not stop this prevote for B. */
  lemma StepP4()
    ensures P3().state.lockedValue == Some(10)
    ensures Next(E(2), P3(), Clock(0, B)) == Outcome(P4(), [SendVote(Pre(2, 1, 20))], None)
  {
    Signs({KPre(0, 10), KCom(0, 10), ProposalKey(3, 1, 20)}, KPre(1, 20),
          {KPre(0, 10), KCom(0, 10), ProposalKey(3, 1, 20), KPre(1, 20)});
    assert P4().store == P3().store;
  }

  const NIL0 := K(VoteType.Prevote, 0, None)

  function B1(): Node { FRESH.(guard := G({NIL0}), state := FRESH.state.(step := Step.Prevote)) }
  function B2(): Node { FRESH.(guard := G({NIL0}), state := FRESH.state.(round := 1)) }
  function B3(): Node { Prevoted(B2(), PB, B, {NIL0, KPre(1, 20)}) }
  function B4(): Node
  {
    LockedOn(WithVote(WithVote(B3(), Pre(2, 1, 20)), Pre(3, 1, 20)), 20, {NIL0, KPre(1, 20), KCom(1, 20)})
  }

  lemma StepB1()
    ensures Next(E(3), FRESH, Clock(300, A)) == Outcome(B1(), [SendVote(V(3, VoteType.Prevote, 0, None))], None)
  {
    TrioPowers();
    assert {} + {NIL0} == {NIL0};
    assert Guarded(FRESH.guard, NIL0) == (G({NIL0}), true);
  }

  lemma StepB2()
    ensures Next(E(3), B1(), Clock(200, A)) == Outcome(B2(), [], None)
  {
    TrioPowers();
  }

  lemma StepB3()
    ensures Next(E(3), B2(), GotProposal(PB)) == Outcome(B3(), [SendVote(Pre(3, 1, 20))], None)
  {
    TrioPowers();
    Signs({NIL0}, KPre(1, 20), {NIL0, KPre(1, 20)});
  }

  // ---------------------------------------------------------------------------
  // The run
  // ---------------------------------------------------------------------------

  const START := Network(map[1 := FRESH, 2 := FRESH, 3 := FRESH], {}, {}, {})

  /** `net` is reached from `start` by these events. */
  ghost predicate Reached(sys: Sys, start: Network, events: seq<Event>, net: Network)
  {
    sys.Valid() && IsRun(sys, start, events) && After(sys, start, events) == net
  }

  lemma {:induction false} RunSnoc(sys: Sys, net: Network, events: seq<Event>, e: Event)
    requires sys.Valid() && IsRun(sys, net, events) && Enabled(sys, After(sys, net, events), e)
    ensures IsRun(sys, net, events + [e])
    ensures After(sys, net, events + [e]) == Apply(sys, After(sys, net, events), e)
    decreases |events|
  {
    if events == [] {
      assert events + [e] == [e] && [e][1..] == [];
    } else {
      RunSnoc(sys, Apply(sys, net, events[0]), events[1..], e);
      assert (events + [e])[1..] == events[1..] + [e];
    }
  }

  predicate Carries(input: Input, signer: PublicKey, bytes: seq<byte>)
  {
    match input
    case GotVote(v, _) => signer == v.voter && bytes == v.SignBytes()
    case GotProposal(p) => signer == p.proposer && bytes == p.SignBytes()
    case _ => true
  }

  /** One more event, whose message, if it is one, was signed before. */
  lemma Then(sys: Sys, start: Network, events: seq<Event>, net: Network, pk: PublicKey, n: Node,
             input: Input, signer: PublicKey, bytes: seq<byte>, o: Outcome) returns (events': seq<Event>, net': Network)
    requires Reached(sys, start, events, net)
    requires pk in sys.envs && pk in net.nodes && net.nodes[pk] == n
    requires n.guard.Some? && n.guard.value.config.maxEntries == 0
    requires Carries(input, signer, bytes)
    requires input.GotVote? || input.GotProposal? ==> (signer, bytes) in net.signatures
    requires Next(sys.envs[pk], n, input) == o
    ensures Reached(sys, start, events', net')
    ensures net'.nodes == net.nodes[pk := o.node] && net'.signatures == net.signatures + SignedIn(pk, o.effects)
  {
    var e := Event(pk, input);
    RunSnoc(sys, start, events, e);
    events', net' := events + [e], Apply(sys, net, e);
  }

  /** The network after some events of a run. */
  datatype World = World(sys: Sys, start: Network, events: seq<Event>, net: Network) {

    ghost predicate Valid() { Reached(sys, start, events, net) }

    ghost predicate Runs(pk: PublicKey, n: Node)
    {
      pk in sys.envs && sys.envs[pk] == E(pk) && pk in net.nodes && net.nodes[pk] == n
    }

    ghost predicate Signed(pk: PublicKey, bytes: seq<byte>) { (pk, bytes) in net.signatures }

    /** Only the engine of `pk` has moved since `w`. */
    ghost predicate Follows(w: World, pk: PublicKey)
    {
      && Valid() && sys == w.sys && start == w.start && w.net.signatures <= net.signatures
      && forall q, n :: q != pk && w.Runs(q, n) ==> Runs(q, n)
    }
  }

  lemma Go(w: World, pk: PublicKey, n: Node, input: Input, signer: PublicKey, bytes: seq<byte>, o: Outcome)
    returns (w': World)
    requires w.Valid() && w.Runs(pk, n) && n.guard.Some? && n.guard.value.config.maxEntries == 0
    requires Carries(input, signer, bytes) && (input.GotVote? || input.GotProposal? ==> w.Signed(signer, bytes))
    requires Next(E(pk), n, input) == o
    ensures w'.Follows(w, pk) && w'.Runs(pk, o.node)
    ensures forall e :: e in o.effects && e.SendVote? ==> w'.Signed(pk, e.vote.SignBytes())
    ensures forall e :: e in o.effects && e.SendProposal? ==> w'.Signed(pk, e.proposal.SignBytes())
  {
    var events, net := Then(w.sys, w.start, w.events, w.net, pk, n, input, signer, bytes, o);
    w' := World(w.sys, w.start, events, net);
  }

  lemma GoFirst(w: World, pk: PublicKey, n: Node, v: Vote) returns (w': World)
    requires w.Valid() && w.Runs(pk, n) && n.guard.Some? && n.guard.value.config.maxEntries == 0
    requires w.Signed(v.voter, v.SignBytes())
    requires Timely(n, v) && Slot(v.round, v.voteType) !in n.state.votes
    ensures w'.Follows(w, pk) && w'.Runs(pk, WithVote(n, v))
  {
    FirstVote(pk, n, v);
    w' := Go(w, pk, n, GotVote(v, A), v.voter, v.SignBytes(), Outcome(WithVote(n, v), [], None));
  }

  lemma GoLock(w: World, pk: PublicKey, n: Node, first: Vote, v: Vote, keys: set<SignedKey>, after: set<SignedKey>)
    returns (w': World)
    requires w.Valid() && w.Runs(pk, n) && w.Signed(v.voter, v.SignBytes())
    requires Completes(n, first, v) && v.voteType == VoteType.Prevote && n.state.step == Step.Prevote
    requires var key := KCom(v.round, v.blockId.value);
             n.guard == G(keys) && Allowed(keys, key) && after == keys + {key}
    ensures w'.Follows(w, pk) && w'.Runs(pk, LockedOn(WithVote(n, v), v.blockId.value, after))
    ensures w'.Signed(pk, Com(pk, v.round, v.blockId.value).SignBytes())
  {
    LockingVote(pk, n, first, v, keys, after);
    var out := [SendVote(Com(pk, v.round, v.blockId.value))];
    w' := Go(w, pk, n, GotVote(v, A), v.voter, v.SignBytes(),
             Outcome(LockedOn(WithVote(n, v), v.blockId.value, after), out, None));
    assert out[0] in out;
  }

  lemma GoDecide(w: World, pk: PublicKey, n: Node, first: Vote, v: Vote) returns (w': World, d: Node)
    requires w.Valid() && w.Runs(pk, n) && w.Signed(v.voter, v.SignBytes())
    requires n.guard.Some? && n.guard.value.config.maxEntries == 0
    requires Completes(n, first, v) && v.voteType == VoteType.Precommit && n.state.step == Step.Precommit
    requires v.blockId.value in n.store
    ensures w'.Follows(w, pk) && w'.Runs(pk, d)
    ensures d.state.decided.Some? && d.state.decided.value.blockId == v.blockId.value
  {
    DecidingVote(pk, n, first, v);
    var o := Next(E(pk), n, GotVote(v, A));
    w' := Go(w, pk, n, GotVote(v, A), v.voter, v.SignBytes(), o);
    d := o.node;
  }

  /** Neither vote has been seen, and together they make a quorum of the node's round. */
  predicate Pair(n: Node, first: Vote, v: Vote)
  {
    && Timely(n, first) && Timely(n, v) && first.voteType == v.voteType
    && Slot(v.round, v.voteType) !in n.state.votes && v.blockId == first.blockId && v.blockId.Some?
    && ((first.voter == 2 && v.voter in {1, 3}) || (v.voter == 2 && first.voter in {1, 3}))
  }

  lemma PairCompletes(n: Node, first: Vote, v: Vote)
    requires Pair(n, first, v)
    ensures Completes(WithVote(n, first), first, v)
  {
  }

  lemma GoLockPair(w: World, pk: PublicKey, n: Node, first: Vote, v: Vote, keys: set<SignedKey>, after: set<SignedKey>)
    returns (w': World)
    requires w.Valid() && w.Runs(pk, n) && w.Signed(first.voter, first.SignBytes()) && w.Signed(v.voter, v.SignBytes())
    requires Pair(n, first, v) && v.voteType == VoteType.Prevote && n.state.step == Step.Prevote
    requires var key := KCom(v.round, v.blockId.value);
             n.guard == G(keys) && Allowed(keys, key) && after == keys + {key}
    ensures w'.Follows(w, pk)
    ensures w'.Runs(pk, LockedOn(WithVote(WithVote(n, first), v), v.blockId.value, after))
    ensures w'.Signed(pk, Com(pk, v.round, v.blockId.value).SignBytes())
  {
    PairCompletes(n, first, v);
    var w1 := GoFirst(w, pk, n, first);
    w' := GoLock(w1, pk, WithVote(n, first), first, v, keys, after);
  }

  lemma GoDecidePair(w: World, pk: PublicKey, n: Node, first: Vote, v: Vote) returns (w': World, d: Node)
    requires w.Valid() && w.Runs(pk, n) && w.Signed(first.voter, first.SignBytes()) && w.Signed(v.voter, v.SignBytes())
    requires n.guard.Some? && n.guard.value.config.maxEntries == 0
    requires Pair(n, first, v) && v.voteType == VoteType.Precommit && n.state.step == Step.Precommit
    requires v.blockId.value in n.store
    ensures w'.Follows(w, pk) && w'.Runs(pk, d)
    ensures d.state.decided.Some? && d.state.decided.value.blockId == v.blockId.value
  {
    PairCompletes(n, first, v);
    var w1 := GoFirst(w, pk, n, first);
    w', d := GoDecide(w1, pk, WithVote(n, first), first, v);
  }

  /** Validator 1 proposes A; validator 2 locks on it. */
  lemma Opening(w: World) returns (w': World)
    requires w.Valid() && w.Runs(1, FRESH) && w.Runs(2, FRESH) && w.Runs(3, FRESH)
    ensures w'.Valid() && w'.sys == w.sys && w'.start == w.start
    ensures w'.Runs(1, A1()) && w'.Runs(2, P2()) && w'.Runs(3, FRESH)
    ensures w'.Signed(1, Pre(1, 0, 10).SignBytes()) && w'.Signed(2, Pre(2, 0, 10).SignBytes())
    ensures w'.Signed(2, Com(2, 0, 10).SignBytes())
  {
    var w1 := Proposes(w);
    w' := GoLockPair(w1, 2, P1(), Pre(1, 0, 10), Pre(2, 0, 10), {KPre(0, 10)}, {KPre(0, 10), KCom(0, 10)});
  }

  lemma Proposes(w: World) returns (w': World)
    requires w.Valid() && w.Runs(1, FRESH) && w.Runs(2, FRESH) && w.Runs(3, FRESH)
    ensures w'.Valid() && w'.sys == w.sys && w'.start == w.start
    ensures w'.Runs(1, A1()) && w'.Runs(2, P1()) && w'.Runs(3, FRESH)
    ensures w'.Signed(1, Pre(1, 0, 10).SignBytes()) && w'.Signed(2, Pre(2, 0, 10).SignBytes())
  {
    StepA1();
    var out := [SendProposal(PA), SendVote(Pre(1, 0, 10))];
    var w1 := Go(w, 1, FRESH, Clock(0, A), 0, [], Outcome(A1(), out, None));
    assert out[0] in out && out[1] in out;
    StepP1();
    var vote := [SendVote(Pre(2, 0, 10))];
    w' := Go(w1, 2, FRESH, GotProposal(PA), 1, PA.SignBytes(), Outcome(P1(), vote, None));
    assert vote[0] in vote;
  }

  /** Validator 1 decides A. */
  lemma FirstDecision(w: World) returns (w': World, d: Node)
    requires w.Valid() && w.Runs(1, A1())
    requires w.Signed(1, Pre(1, 0, 10).SignBytes()) && w.Signed(2, Pre(2, 0, 10).SignBytes())
    requires w.Signed(2, Com(2, 0, 10).SignBytes())
    ensures w'.Follows(w, 1) && w'.Runs(1, d)
    ensures d.state.decided.Some? && d.state.decided.value.blockId == 10
  {
    var w1 := GoLockPair(w, 1, A1(), Pre(2, 0, 10), Pre(1, 0, 10), {ProposalKey(3, 0, 10), KPre(0, 10)},
                         {ProposalKey(3, 0, 10), KPre(0, 10), KCom(0, 10)});
    w', d := GoDecidePair(w1, 1, A2(), Com(2, 0, 10), Com(1, 0, 10));
  }

  /** Validator 2, locked on A, proposes and prevotes B. */
  lemma SecondProposal(w: World) returns (w': World)
    requires w.Valid() && w.Runs(2, P2())
    ensures w'.Follows(w, 2) && w'.Runs(2, P4())
    ensures w'.Signed(2, PB.SignBytes()) && w'.Signed(2, Pre(2, 1, 20).SignBytes())
  {
    StepP3();
    var out := [SendProposal(PB)];
    var w1 := Go(w, 2, P2(), Clock(200, B), 0, [], Outcome(P3(), out, None));
    assert out[0] in out;
    StepP4();
    var vote := [SendVote(Pre(2, 1, 20))];
    w' := Go(w1, 2, P3(), Clock(0, B), 0, [], Outcome(P4(), vote, None));
    assert vote[0] in vote;
  }

  /** Validator 3, which saw nothing of round 0, prevotes B. */
  lemma LatePrevote(w: World) returns (w': World)
    requires w.Valid() && w.Runs(3, FRESH) && w.Signed(2, PB.SignBytes())
    ensures w'.Follows(w, 3) && w'.Runs(3, B3())
    ensures w'.Signed(3, Pre(3, 1, 20).SignBytes())
  {
    StepB1();
    var w1 := Go(w, 3, FRESH, Clock(300, A), 0, [],
                 Outcome(B1(), [SendVote(V(3, VoteType.Prevote, 0, None))], None));
    StepB2();
    var w2 := Go(w1, 3, B1(), Clock(200, A), 0, [], Outcome(B2(), [], None));
    StepB3();
    var vote := [SendVote(Pre(3, 1, 20))];
    w' := Go(w2, 3, B2(), GotProposal(PB), 2, PB.SignBytes(), Outcome(B3(), vote, None));
    assert vote[0] in vote;
  }

  /** Validator 2 moves its lock to B. */
  lemma Relocks(w: World) returns (w': World)
    requires w.Valid() && w.Runs(2, P4())
    requires w.Signed(2, Pre(2, 1, 20).SignBytes()) && w.Signed(3, Pre(3, 1, 20).SignBytes())
    ensures w'.Follows(w, 2)
    ensures w'.Signed(2, Com(2, 1, 20).SignBytes())
  {
    w' := GoLockPair(w, 2, P4(), Pre(3, 1, 20), Pre(2, 1, 20),
                     {KPre(0, 10), KCom(0, 10), ProposalKey(3, 1, 20), KPre(1, 20)},
                     {KPre(0, 10), KCom(0, 10), ProposalKey(3, 1, 20), KPre(1, 20), KCom(1, 20)});
  }

  /** Validator 3 decides B. */
  lemma SecondDecision(w: World) returns (w': World, d: Node)
    requires w.Valid() && w.Runs(3, B3())
    requires w.Signed(2, Pre(2, 1, 20).SignBytes()) && w.Signed(3, Pre(3, 1, 20).SignBytes())
    requires w.Signed(2, Com(2, 1, 20).SignBytes())
    ensures w'.Follows(w, 3) && w'.Runs(3, d)
    ensures d.state.decided.Some? && d.state.decided.value.blockId == 20
  {
    var w1 := GoLockPair(w, 3, B3(), Pre(2, 1, 20), Pre(3, 1, 20),
                         {NIL0, KPre(1, 20)}, {NIL0, KPre(1, 20), KCom(1, 20)});
    w', d := GoDecidePair(w1, 3, B4(), Com(2, 1, 20), Com(3, 1, 20));
  }

  lemma WholeRun(w: World) returns (w': World, a: Node, b: Node)
    requires w.Valid() && w.Runs(1, FRESH) && w.Runs(2, FRESH) && w.Runs(3, FRESH)
    ensures w'.Valid() && w'.sys == w.sys && w'.start == w.start && w'.Runs(1, a) && w'.Runs(3, b)
    ensures a.state.decided.Some? && a.state.decided.value.blockId == 10
    ensures b.state.decided.Some? && b.state.decided.value.blockId == 20
  {
    var w1 := Opening(w);
    var w2, a' := FirstDecision(w1);
    var w3 := SecondProposal(w2);
    var w4 := LatePrevote(w3);
    var w5 := Relocks(w4);
    w', b := SecondDecision(w5);
    a := a';
  }

  /** Two of four units of power are what two quorums share, and none is less. */
  lemma TrioUnbounded(sys: Sys)
    requires sys.vset.Total() == 4 && 2 in sys.vset.Keys() && sys.vset.Power(2) == 2 && sys.Byzantine() == {}
    ensures !sys.Bounded() && sys.MinorityFaulty()
  {
    assert Overlap(4) == 2;
    assert PowerOf(sys.vset, {}) == 0;
  }

  lemma SomebodyDefies(sys: Sys, start: Network, events: seq<Event>)
    requires sys.Valid() && sys.MinorityFaulty() && Init(sys, start) && IsRun(sys, start, events)
    requires Decided(After(sys, start, events), 1, 10) && Decided(After(sys, start, events), 3, 20)
    ensures RunDefiance(sys, start, events) != {}
  {
    if RunDefiance(sys, start, events) == {} {
      LoyalEnginesAgree(sys, start, events, 1, 10, 3, 20);
    }
  }

  /** No validator is faulty, and yet two engines decide different blocks; somebody prevotes against its
      lock. */
  lemma DisagreementWithoutFaults() returns (sys: Sys, start: Network, events: seq<Event>)
    ensures sys.Valid() && sys.Byzantine() == {} && !sys.Bounded() && Init(sys, start) && IsRun(sys, start, events)
    ensures Decided(After(sys, start, events), 1, 10) && Decided(After(sys, start, events), 3, 20)
    ensures RunDefiance(sys, start, events) != {}
  {
    SystemValid();
    sys, start := System(), START;
    var w, a, b := WholeRun(World(sys, start, [], start));
    events := w.events;
    assert sys.vset.Power(2) == 2 by { TrioPowers(); }
    assert 2 in sys.vset.Keys() && sys.vset.Total() == 4 by { TrioPowers(); }
    TrioUnbounded(sys);
    SomebodyDefies(sys, start, events);
  }
}
