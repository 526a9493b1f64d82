/** Commit certificates: what an engine collects, and what checking one establishes
    (src/consensus/engine.rs). */
module Certificates {
  import opened Common
  import opened Power
  import opened Messages
  import opened Validators
  import opened Quorum
  import opened Evidence
  import opened EngineSpec

  ghost predicate DistinctVoters(votes: seq<Vote>)
  {
    forall i, j :: 0 <= i < j < |votes| ==> votes[i].voter != votes[j].voter
  }

  ghost function VotersOf(votes: seq<Vote>): set<PublicKey>
  {
    set i | 0 <= i < |votes| :: votes[i].voter
  }

  /** A certificate whose votes are by different validators lists their power once each. */
  lemma {:induction false} ListedPowerIsPower(vset: VSet, votes: seq<Vote>)
    requires DistinctVoters(votes) && VotersOf(votes) <= vset.Keys()
    requires Distinct(vset.validators) && vset.Total() < U64_LIMIT
    ensures ListedPower(vset, votes) == PowerOf(vset, VotersOf(votes))
  {
    if votes != [] {
      var n := |votes| - 1;
      var rest := votes[..n];
      assert forall i :: 0 <= i < n ==> votes[i] == rest[i];
      assert VotersOf(votes) == VotersOf(rest) + {votes[n].voter};
      ListedPowerIsPower(vset, rest);
      var w := (pk: PublicKey) => vset.Power(pk);
      SumInsert(VotersOf(rest), w, votes[n].voter);
      TotalIsSum(vset);
      SumMonotone(VotersOf(votes), vset.Keys(), w);
    }
  }

  lemma {:induction false} NoFault(vset: VSet, verify: Verifier, votes: seq<Vote>)
    ensures FirstFault(vset, verify, votes).None?
            <==> forall i :: 0 <= i < |votes| ==> VoteFault(vset, verify, votes[i]).None?
  {
    if votes != [] {
      var n := |votes| - 1;
      NoFault(vset, verify, votes[..n]);
      assert forall i :: 0 <= i < n ==> votes[..n][i] == votes[i];
    }
  }

  /** The fault reported is that of the first vote that has one. */
  lemma {:induction false} FirstFaultIs(vset: VSet, verify: Verifier, votes: seq<Vote>) returns (i: nat)
    requires FirstFault(vset, verify, votes).Some?
    ensures i < |votes| && VoteFault(vset, verify, votes[i]) == FirstFault(vset, verify, votes)
    ensures forall j :: 0 <= j < i ==> VoteFault(vset, verify, votes[j]).None?
  {
    var n := |votes| - 1;
    NoFault(vset, verify, votes[..n]);
    if FirstFault(vset, verify, votes[..n]).Some? {
      i := FirstFaultIs(vset, verify, votes[..n]);
    } else {
      i := n;
      assert forall j :: 0 <= j < n ==> votes[..n][j] == votes[j];
    }
  }

  /** When its votes are by different validators, a certificate is accepted exactly when all of its
      signatures verify and its voters hold a quorum, whatever the votes are for. */
  lemma CertificateSound(cert: CommitCertificate, vset: VSet, verify: Verifier)
    requires vset.Valid() && vset.Total() < U64_LIMIT && DistinctVoters(cert.precommits)
    ensures VerifyCertificate(cert, vset, verify).None? <==>
              && (forall i :: 0 <= i < |cert.precommits| ==>
                    var v := cert.precommits[i];
                    v.voter in vset.Keys() && verify(v.voter, v.SignBytes(), v.signature))
              && IsQuorum(vset, VotersOf(cert.precommits))
  {
    NoFault(vset, verify, cert.precommits);
    if forall i :: 0 <= i < |cert.precommits| ==> VoteFault(vset, verify, cert.precommits[i]).None? {
      ListedPowerIsPower(vset, cert.precommits);
    }
  }

  /** Without that condition acceptance says nothing: one vote, listed often enough, is accepted
      for any block. */
  lemma RepeatedVoteAccepted(vset: VSet, verify: Verifier, v: Vote, height: Height, bid: Hash32, count: nat)
    requires vset.Valid() && v.voter in vset.Keys() && verify(v.voter, v.SignBytes(), v.signature)
    requires QuorumThreshold(vset.Total()) <= count < U64_LIMIT
    ensures VerifyCertificate(CommitCertificate(height, bid, Repeat(v, count)), vset, verify).None?
  {
    var votes := Repeat(v, count);
    NoFault(vset, verify, votes);
    PowerPositive(vset, v.voter);
    RepeatedPower(vset, v, count);
  }

  // ---------------------------------------------------------------------------
  // What an accepted certificate proves
  // ---------------------------------------------------------------------------

  /** A precommit of this round for the block of the certificate. */
  predicate IsCommit(cert: CommitCertificate, v: Vote, round: Round)
  {
    v.voteType == VoteType.Precommit && v.height == cert.height && v.round == round && v.blockId == Some(cert.blockId)
  }

  /** The voters among `votes` that precommitted the block of the certificate in this round. */
  ghost function Committers(cert: CommitCertificate, votes: seq<Vote>, round: Round): set<PublicKey>
  {
    set i | 0 <= i < |votes| && IsCommit(cert, votes[i], round) :: votes[i].voter
  }

  lemma CommittersGrow(cert: CommitCertificate, votes: seq<Vote>, round: Round)
    requires votes != []
    ensures var n := |votes| - 1;
            Committers(cert, votes, round)
            == Committers(cert, votes[..n], round) + if IsCommit(cert, votes[n], round) then {votes[n].voter} else {}
  {
    var n := |votes| - 1;
    assert forall i :: 0 <= i < n ==> votes[..n][i] == votes[i];
  }

  ghost predicate AllCommits(cert: CommitCertificate, votes: seq<Vote>, round: Round)
  {
    DistinctVoters(votes) && forall i :: 0 <= i < |votes| ==> IsCommit(cert, votes[i], round)
  }

  /** A list counts at least the power of its committers, and more unless it lists nothing else. */
  lemma {:induction false} ListedPowerExceeds(vset: VSet, cert: CommitCertificate, votes: seq<Vote>, round: Round)
    requires vset.Valid() && vset.Total() < U64_LIMIT - 1 && VotersOf(votes) <= vset.Keys()
    ensures ListedPower(vset, votes) >= PowerOf(vset, Committers(cert, votes, round))
    ensures ListedPower(vset, votes) == PowerOf(vset, Committers(cert, votes, round)) ==> AllCommits(cert, votes, round)
  {
    if votes != [] {
      var rest := votes[..|votes| - 1];
      assert forall i :: 0 <= i < |rest| ==> votes[i] == rest[i];
      ListedPowerExceeds(vset, cert, rest, round);
      OneMoreListed(vset, cert, votes, rest, round);
    }
  }

  /** The last vote adds its power, and is a commit of a new voter or does not count. */
  lemma OneMoreListed(vset: VSet, cert: CommitCertificate, votes: seq<Vote>, rest: seq<Vote>, round: Round)
    requires vset.Valid() && vset.Total() < U64_LIMIT - 1 && VotersOf(votes) <= vset.Keys()
    requires votes != [] && rest == votes[..|votes| - 1]
    requires ListedPower(vset, rest) >= PowerOf(vset, Committers(cert, rest, round))
    requires ListedPower(vset, rest) == PowerOf(vset, Committers(cert, rest, round)) ==> AllCommits(cert, rest, round)
    ensures ListedPower(vset, votes) >= PowerOf(vset, Committers(cert, votes, round))
    ensures ListedPower(vset, votes) == PowerOf(vset, Committers(cert, votes, round)) ==> AllCommits(cert, votes, round)
  {
    var v := votes[|votes| - 1];
    assert v.voter in VotersOf(votes);
    PowerPositive(vset, v.voter);
    CommittersGrow(cert, votes, round);
    CommitterPower(vset, cert, votes, round);
    if IsCommit(cert, v, round) && v.voter !in Committers(cert, rest, round) {
      SumInsert(Committers(cert, rest, round), (k: PublicKey) => vset.Power(k), v.voter);
      if AllCommits(cert, rest, round) {
        AppendCommit(cert, votes, rest, round);
      }
    } else {
      assert Committers(cert, votes, round) == Committers(cert, rest, round);
    }
  }

  lemma AppendCommit(cert: CommitCertificate, votes: seq<Vote>, rest: seq<Vote>, round: Round)
    requires votes != [] && rest == votes[..|votes| - 1] && AllCommits(cert, rest, round)
    requires IsCommit(cert, votes[|votes| - 1], round) && votes[|votes| - 1].voter !in Committers(cert, rest, round)
    ensures AllCommits(cert, votes, round)
  {
    assert forall i :: 0 <= i < |rest| ==> votes[i] == rest[i];
  }

  lemma PowerPositive(vset: VSet, pk: PublicKey)
    requires vset.Valid() && pk in vset.Keys()
    ensures vset.Power(pk) > 0
  {
    var i := KeyPosition(vset.validators, pk);
    LookupAt(vset.validators, i);
  }

  lemma CommitterPower(vset: VSet, cert: CommitCertificate, votes: seq<Vote>, round: Round)
    requires vset.Valid() && VotersOf(votes) <= vset.Keys()
    ensures Committers(cert, votes, round) <= vset.Keys()
    ensures PowerOf(vset, Committers(cert, votes, round)) <= vset.Total()
  {
    TotalIsSum(vset);
    SumMonotone(Committers(cert, votes, round), vset.Keys(), (pk: PublicKey) => vset.Power(pk));
  }

  /** All power that an accepted certificate counts is that of validators who precommitted its block in
      one round exactly when its voters are distinct and every vote is a precommit of its height, of
      that round and for its block. They are then a quorum. */
  lemma CertificateProvesIff(cert: CommitCertificate, vset: VSet, verify: Verifier, round: Round)
    requires vset.Valid() && 2 * vset.Total() < U64_LIMIT && VerifyCertificate(cert, vset, verify).None?
    ensures ListedPower(vset, cert.precommits) == PowerOf(vset, Committers(cert, cert.precommits, round))
            <==> AllCommits(cert, cert.precommits, round)
    ensures AllCommits(cert, cert.precommits, round) ==> IsQuorum(vset, Committers(cert, cert.precommits, round))
  {
    var votes := cert.precommits;
    NoFault(vset, verify, votes);
    assert forall i :: 0 <= i < |votes| ==> VoteFault(vset, verify, votes[i]).None?;
    ListedPowerExceeds(vset, cert, votes, round);
    CommitterPower(vset, cert, votes, round);
    if AllCommits(cert, votes, round) {
      assert VotersOf(votes) == Committers(cert, votes, round);
      ListedPowerIsPower(vset, votes);
    }
  }

  /** Votes of distinct validators with a quorum are accepted for every height and block. */
  lemma AnyQuorumAccepted(vset: VSet, verify: Verifier, votes: seq<Vote>, height: Height, bid: Hash32)
    requires vset.Valid() && vset.Total() < U64_LIMIT && DistinctVoters(votes) && IsQuorum(vset, VotersOf(votes))
    requires forall i :: 0 <= i < |votes| ==> verify(votes[i].voter, votes[i].SignBytes(), votes[i].signature)
    ensures VerifyCertificate(CommitCertificate(height, bid, votes), vset, verify).None?
  {
    assert forall i :: 0 <= i < |votes| ==> votes[i].voter in VotersOf(votes);
    CertificateSound(CommitCertificate(height, bid, votes), vset, verify);
  }

  /** So nil prevotes of another height pass as a certificate that nobody precommitted. */
  lemma ForeignVotesAccepted(vset: VSet, verify: Verifier, votes: seq<Vote>, height: Height, bid: Hash32, round: Round)
    requires vset.Valid() && vset.Total() < U64_LIMIT && DistinctVoters(votes) && IsQuorum(vset, VotersOf(votes))
    requires forall i :: 0 <= i < |votes| ==> verify(votes[i].voter, votes[i].SignBytes(), votes[i].signature)
    requires forall i :: 0 <= i < |votes| ==>
               votes[i].voteType == VoteType.Prevote && votes[i].blockId == None && votes[i].height != height
    ensures var cert := CommitCertificate(height, bid, votes);
            VerifyCertificate(cert, vset, verify).None? && Committers(cert, votes, round) == {}
  {
    AnyQuorumAccepted(vset, verify, votes, height, bid);
  }

  /** A vote too many does no harm: with any valid vote appended, a certificate that proves its block
      is still accepted and its committers are still a quorum. */
  lemma SpareVoteHarmless(cert: CommitCertificate, vset: VSet, verify: Verifier, round: Round, v: Vote)
    requires vset.Valid() && 2 * vset.Total() < U64_LIMIT && VerifyCertificate(cert, vset, verify).None?
    requires AllCommits(cert, cert.precommits, round) && VoteFault(vset, verify, v).None?
    ensures var more := cert.(precommits := cert.precommits + [v]);
            && VerifyCertificate(more, vset, verify).None?
            && IsQuorum(vset, Committers(more, more.precommits, round))
  {
    var votes := cert.precommits + [v];
    var more := cert.(precommits := votes);
    assert votes[..|votes| - 1] == cert.precommits;
    CertificateProvesIff(cert, vset, verify, round);
    NoFault(vset, verify, votes);
    NoFault(vset, verify, cert.precommits);
    assert forall i :: 0 <= i < |votes| ==> VoteFault(vset, verify, votes[i]).None?;
    CommittersGrow(more, votes, round);
    assert Committers(more, cert.precommits, round) == Committers(cert, cert.precommits, round);
    CommitterPower(vset, more, votes, round);
    SumMonotone(Committers(cert, cert.precommits, round), Committers(more, votes, round),
                (pk: PublicKey) => vset.Power(pk));
    ListedPowerExceeds(vset, more, votes, round);
  }

  function Repeat(v: Vote, count: nat): (votes: seq<Vote>)
    ensures |votes| == count && forall i :: 0 <= i < count ==> votes[i] == v
  {
    seq(count, _ => v)
  }

  lemma {:induction false} RepeatedPower(vset: VSet, v: Vote, count: nat)
    requires vset.Power(v.voter) > 0 && count < U64_LIMIT
    ensures ListedPower(vset, Repeat(v, count)) >= count
  {
    if count > 0 {
      RepeatedPower(vset, v, count - 1);
      assert Repeat(v, count)[..count - 1] == Repeat(v, count - 1);
    }
  }

  // ---------------------------------------------------------------------------
  // Collected votes
  // ---------------------------------------------------------------------------

  ghost function Among(ballots: Ballots, keys: set<PublicKey>, bid: Hash32): set<PublicKey>
    requires keys <= ballots.Keys
  {
    set pk | pk in keys && ballots[pk].blockId == Some(bid)
  }

  /** `votes` lists the ballots of `keys` for the block, each once. */
  ghost predicate Lists(ballots: Ballots, keys: set<PublicKey>, bid: Hash32, votes: seq<Vote>)
    requires keys <= ballots.Keys
  {
    && DistinctVoters(votes)
    && VotersOf(votes) == Among(ballots, keys, bid)
    && forall i :: 0 <= i < |votes| ==> votes[i].voter in keys && votes[i] == ballots[votes[i].voter]
  }

  lemma ListsOneMore(ballots: Ballots, keys: set<PublicKey>, k: PublicKey, bid: Hash32, rest: seq<Vote>)
    requires keys <= ballots.Keys && k in keys && ballots[k].voter == k && ballots[k].blockId == Some(bid)
    requires Lists(ballots, keys - {k}, bid, rest)
    ensures Lists(ballots, keys, bid, [ballots[k]] + rest)
  {
    var votes := [ballots[k]] + rest;
    VotersOfCons(ballots[k], rest);
    assert Among(ballots, keys, bid) == {k} + Among(ballots, keys - {k}, bid);
  }

  lemma VotersOfCons(v: Vote, rest: seq<Vote>)
    ensures VotersOf([v] + rest) == {v.voter} + VotersOf(rest)
  {
    var votes := [v] + rest;
    assert votes[0].voter == v.voter;
    forall pk | pk in VotersOf(rest) ensures pk in VotersOf(votes) {
      var i :| 0 <= i < |rest| && rest[i].voter == pk;
      assert votes[i + 1].voter == pk;
    }
  }

  lemma {:induction false} CollectCorrect(ballots: Ballots, keys: set<PublicKey>, bid: Hash32)
    requires keys <= ballots.Keys && forall pk :: pk in ballots ==> ballots[pk].voter == pk
    ensures Lists(ballots, keys, bid, Collect(ballots, keys, bid))
    decreases |keys|
  {
    if keys != {} {
      var k := MinKey(keys);
      CollectCorrect(ballots, keys - {k}, bid);
      if ballots[k].blockId == Some(bid) {
        ListsOneMore(ballots, keys, k, bid, Collect(ballots, keys - {k}, bid));
      } else {
        assert Among(ballots, keys, bid) == Among(ballots, keys - {k}, bid);
        assert Collect(ballots, keys, bid) == Collect(ballots, keys - {k}, bid);
      }
    }
  }

  /** The ballots are listed in the order of their voters. */
  lemma {:induction false} CollectSorted(ballots: Ballots, keys: set<PublicKey>, bid: Hash32, i: nat, j: nat)
    requires keys <= ballots.Keys && forall pk :: pk in ballots ==> ballots[pk].voter == pk
    requires i < j < |Collect(ballots, keys, bid)|
    ensures Collect(ballots, keys, bid)[i].voter < Collect(ballots, keys, bid)[j].voter
    decreases |keys|
  {
    var k := MinKey(keys);
    var rest := Collect(ballots, keys - {k}, bid);
    CollectCorrect(ballots, keys - {k}, bid);
    if ballots[k].blockId != Some(bid) {
      assert Collect(ballots, keys, bid) == rest;
      CollectSorted(ballots, keys - {k}, bid, i, j);
    } else {
      assert Collect(ballots, keys, bid) == [ballots[k]] + rest;
      if i > 0 {
        CollectSorted(ballots, keys - {k}, bid, i - 1, j - 1);
      } else {
        assert rest[j - 1].voter in keys - {k};
      }
    }
  }

  /** The certificate an engine makes from a quorum of ballots is accepted, and holds one
      precommit of each backer. */
  lemma CollectedCertificate(vset: VSet, verify: Verifier, ballots: Ballots, height: Height, bid: Hash32)
    requires vset.Valid() && vset.Total() < U64_LIMIT
    requires forall pk :: pk in ballots ==> ballots[pk].voter == pk && VoteFault(vset, verify, ballots[pk]).None?
    requires ReachesQuorum(vset, ballots, Some(bid))
    ensures var cert := CommitCertificate(height, bid, Collect(ballots, ballots.Keys, bid));
            && VerifyCertificate(cert, vset, verify).None?
            && DistinctVoters(cert.precommits)
            && VotersOf(cert.precommits) == Backers(ballots, Some(bid))
            && forall i :: 0 <= i < |cert.precommits| ==>
                 cert.precommits[i].voter in ballots && cert.precommits[i] == ballots[cert.precommits[i].voter]
                 && cert.precommits[i].blockId == Some(bid)
  {
    var cert := CommitCertificate(height, bid, Collect(ballots, ballots.Keys, bid));
    CollectCorrect(ballots, ballots.Keys, bid);
    assert Among(ballots, ballots.Keys, bid) == Backers(ballots, Some(bid));
    forall i | 0 <= i < |cert.precommits|
      ensures cert.precommits[i].blockId == Some(bid)
    {
      assert cert.precommits[i].voter in VotersOf(cert.precommits);
    }
    CertificateSound(cert, vset, verify);
  }
}
