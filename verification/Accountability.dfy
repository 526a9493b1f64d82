/** Detection of double votes at one engine, over every sequence of inputs
    (src/consensus/engine.rs, src/evidence.rs). */
module Accountability {
  import opened Common
  import opened Messages
  import opened Evidence
  import opened EngineSpec

  /** Everything accepted and everything reported so far. */
  datatype Log = Log(accepted: set<Vote>, reported: set<DoubleVote>)

  ghost predicate Accepts(env: Env, n: Node, input: Input)
  {
    input.GotVote? && n.state.decided.None? && VerifyVote(env, n.state, input.vote).None?
  }

  ghost function Reports(effects: seq<Effect>): set<DoubleVote>
  {
    set i | 0 <= i < |effects| && effects[i].SendEvidence? :: effects[i].evidence
  }

  ghost function LogStep(env: Env, n: Node, log: Log, input: Input): Log
    requires env.vset.validators != []
  {
    Log(log.accepted + (if Accepts(env, n, input) then {input.vote} else {}),
        log.reported + Reports(Next(env, n, input).effects))
  }

  ghost function FinalLog(env: Env, n: Node, log: Log, inputs: seq<Input>): Log
    requires env.vset.validators != []
    decreases |inputs|
  {
    if inputs == [] then log
    else FinalLog(env, Next(env, n, inputs[0]).node, LogStep(env, n, log, inputs[0]), inputs[1..])
  }

  predicate Verified(env: Env, v: Vote)
  {
    env.verify(v.voter, v.SignBytes(), v.signature)
  }

  /** The report convicts the voter under this key, by the rules of evidence. */
  ghost predicate Convicts(env: Env, ev: DoubleVote, key: IndexKey)
  {
    && IndexKey(ev.voter, ev.height, ev.round, ev.voteType) == key
    && KeyOf(ev.voteA) == key && KeyOf(ev.voteB) == key
    && ev.a == ev.voteA.blockId && ev.b == ev.voteB.blockId
    && Validate(ev, EvidenceConfig(true, true), env.verify).None?
  }

  ghost predicate Reported(env: Env, log: Log, key: IndexKey)
  {
    exists ev :: ev in log.reported && Convicts(env, ev, key)
  }

  /** The first accepted vote under each key is indexed; a vote that differs from it was reported. */
  ghost predicate LogInv(env: Env, s: ConsensusState, log: Log)
  {
    && (forall key :: key in s.voteIndex ==>
          var e := s.voteIndex[key];
          KeyOf(e.vote) == key && e.bid == e.vote.blockId && Verified(env, e.vote))
    && (forall v :: v in log.accepted ==>
          KeyOf(v) in s.voteIndex && (s.voteIndex[KeyOf(v)].bid == v.blockId || Reported(env, log, KeyOf(v))))
    && (forall ev :: ev in log.reported ==> Convicts(env, ev, IndexKey(ev.voter, ev.height, ev.round, ev.voteType)))
  }

  // ---------------------------------------------------------------------------
  // Only accepted votes touch the index, and only they cause reports
  // ---------------------------------------------------------------------------

  ghost predicate Silent(effects: seq<Effect>)
  {
    forall i :: 0 <= i < |effects| ==> !effects[i].SendEvidence?
  }

  lemma ProposeSilent(env: Env, n: Node, built: Block)
    requires env.vset.validators != []
    ensures var (after, out) := MaybePropose(env, n, built); after.state.voteIndex == n.state.voteIndex && Silent(out)
    ensures var (after, out) := AdvanceRound(env, n, built); after.state.voteIndex == n.state.voteIndex && Silent(out)
  {
  }

  lemma ReactSilent(env: Env, n: Node, v: Vote, built: Block)
    requires env.vset.validators != []
    ensures var o := React(env, n, v, built); o.node.state.voteIndex == n.state.voteIndex && Silent(o.effects)
  {
    ProposeSilent(env, n, built);
  }

  lemma OtherInputsSilent(env: Env, n: Node, input: Input)
    requires env.vset.validators != [] && !Accepts(env, n, input)
    ensures var o := Next(env, n, input); o.node.state.voteIndex == n.state.voteIndex && Silent(o.effects)
  {
    match input
    case Clock(dt, built) =>
      ProposeSilent(env, n.(elapsed := SaturatingAdd(n.elapsed, dt)), built);
    case GotProposal(_) =>
    case GotVote(_, _) =>
    case GotBlock(_) =>
  }

  lemma SilentReports(effects: seq<Effect>)
    requires Silent(effects)
    ensures Reports(effects) == {}
  {
  }

  /** What an accepted vote does to the index and to the reports. */
  lemma AcceptedVote(env: Env, n: Node, input: Input)
    requires env.vset.validators != [] && Accepts(env, n, input)
    ensures var o := Next(env, n, input);
            var (s, ev) := RecordVote(n.state, input.vote);
            o.node.state.voteIndex == s.voteIndex && Reports(o.effects) == if ev.Some? then {ev.value} else {}
  {
    var (s, ev) := RecordVote(n.state, input.vote);
    var stored := n.(state := StoreVote(s, input.vote));
    var r := React(env, stored, input.vote, input.built);
    ReactSilent(env, stored, input.vote, input.built);
    var report := if ev.Some? then [SendEvidence(ev.value)] else [];
    assert Next(env, n, input).effects == report + r.effects;
    assert ev.Some? ==> (report + r.effects)[0] == SendEvidence(ev.value);
  }

  lemma EvidenceConvicts(env: Env, s: ConsensusState, log: Log, v: Vote)
    requires LogInv(env, s, log) && Verified(env, v)
    ensures var ev := RecordVote(s, v).1; ev.Some? ==> Convicts(env, ev.value, KeyOf(v))
  {
  }

  lemma LogStepKeeps(env: Env, n: Node, log: Log, input: Input)
    requires env.vset.validators != [] && LogInv(env, n.state, log)
    ensures LogInv(env, Next(env, n, input).node.state, LogStep(env, n, log, input))
  {
    var log' := LogStep(env, n, log, input);
    var s' := Next(env, n, input).node.state;
    if Accepts(env, n, input) {
      var v := input.vote;
      AcceptedVote(env, n, input);
      EvidenceConvicts(env, n.state, log, v);
      var ev := RecordVote(n.state, v).1;
      forall w | w in log'.accepted
        ensures KeyOf(w) in s'.voteIndex && (s'.voteIndex[KeyOf(w)].bid == w.blockId || Reported(env, log', KeyOf(w)))
      {
        if w in log.accepted {
          ReportedStays(env, log, log', KeyOf(w));
        } else if ev.Some? {
          assert ev.value in log'.reported && Convicts(env, ev.value, KeyOf(w));
        }
      }
    } else {
      OtherInputsSilent(env, n, input);
      SilentReports(Next(env, n, input).effects);
      assert log' == log;
    }
  }

  lemma ReportedStays(env: Env, log: Log, log': Log, key: IndexKey)
    requires log.reported <= log'.reported
    ensures Reported(env, log, key) ==> Reported(env, log', key)
  {
  }

  lemma {:induction false} RunKeepsLog(env: Env, n: Node, log: Log, inputs: seq<Input>) returns (s: ConsensusState)
    requires env.vset.validators != [] && LogInv(env, n.state, log)
    ensures LogInv(env, s, FinalLog(env, n, log, inputs))
    decreases |inputs|
  {
    if inputs == [] {
      s := n.state;
    } else {
      LogStepKeeps(env, n, log, inputs[0]);
      s := RunKeepsLog(env, Next(env, n, inputs[0]).node, LogStep(env, n, log, inputs[0]), inputs[1..]);
    }
  }

  /** Completeness and accuracy: over every sequence of inputs from a fresh engine, any two
      accepted votes of one voter, type, height and round for different choices lead to a report
      that passes validation, and every report made passes it. */
  lemma DoubleVotesReported(env: Env, n: Node, inputs: seq<Input>, v: Vote, w: Vote)
    requires env.vset.validators != [] && n.state.voteIndex == map[]
    requires var log := FinalLog(env, n, Log({}, {}), inputs); v in log.accepted && w in log.accepted
    requires KeyOf(v) == KeyOf(w) && v.blockId != w.blockId
    ensures var log := FinalLog(env, n, Log({}, {}), inputs);
            && Reported(env, log, KeyOf(v))
            && forall ev :: ev in log.reported ==> Validate(ev, EvidenceConfig(true, true), env.verify).None?
  {
    var s := RunKeepsLog(env, n, Log({}, {}), inputs);
  }
}
