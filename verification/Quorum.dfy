/** Quorum arithmetic and the vote tally (src/consensus/quorum.rs). */
module Quorum {
  import opened Common
  import opened Power
  import opened Messages
  import opened Validators

  /** `quorum_threshold`, with the 64-bit product written out. */
  function QuorumThreshold(total: nat): nat
  {
    if total == 0 then 0 else total * 2 % U64_LIMIT / 3 + 1
  }

  /** Power at or above the threshold is strictly more than two thirds of the total. */
  lemma QuorumIsTwoThirds(power: nat, total: nat)
    requires 0 < total && 2 * total < U64_LIMIT
    ensures power >= QuorumThreshold(total) <==> 3 * power > 2 * total
  {
  }

  /** The doubled total wraps exactly from 2^63 on, and from there the threshold is too low:
      half of the power, or less, already meets it. */
  lemma QuorumWraps(total: nat)
    requires 0 < total < U64_LIMIT
    ensures QuorumThreshold(total) == 2 * total / 3 + 1 <==> 2 * total < U64_LIMIT
    ensures 2 * total >= U64_LIMIT ==> 3 * QuorumThreshold(total) <= 2 * total - U64_LIMIT + 3
  {
    if 2 * total >= U64_LIMIT {
      assert total * 2 % U64_LIMIT == 2 * total - U64_LIMIT;
    }
  }

  ghost predicate IsQuorum(vset: VSet, s: set<PublicKey>)
  {
    s <= vset.Keys() && PowerOf(vset, s) >= QuorumThreshold(vset.Total())
  }

  ghost function PowerOf(vset: VSet, s: set<PublicKey>): nat
  {
    Sum(s, (pk: PublicKey) => vset.Power(pk))
  }

  /** The power that any two quorums share at least. */
  function Overlap(total: nat): int { 2 * QuorumThreshold(total) - total }

  /** A third of the power is always less, and less is never more than a unit above a third. */
  lemma OverlapIsThird(power: nat, total: nat)
    requires 0 < total && 2 * total < U64_LIMIT
    ensures 3 * power <= total ==> power < Overlap(total)
    ensures power < Overlap(total) ==> 3 * power <= total + 3
  {
  }

  lemma QuorumsIntersect(vset: VSet, a: set<PublicKey>, b: set<PublicKey>)
    requires vset.Valid() && 2 * vset.Total() < U64_LIMIT
    requires IsQuorum(vset, a) && IsQuorum(vset, b)
    ensures PowerOf(vset, a * b) >= Overlap(vset.Total()) && 3 * PowerOf(vset, a * b) > vset.Total()
  {
    TotalIsSum(vset);
    TotalPositive(vset);
    SumIntersection(a, b, vset.Keys(), (pk: PublicKey) => vset.Power(pk));
    OverlapIsThird(PowerOf(vset, a * b), vset.Total());
  }

  lemma TotalPositive(vset: VSet)
    requires vset.Valid()
    ensures vset.Total() > 0
  {
    TotalOfAtLeast(vset.validators, 0);
  }

  // ---------------------------------------------------------------------------
  // Vote tally
  // ---------------------------------------------------------------------------

  type BlockChoice = Option<Hash32>

  datatype Assigned = Assigned(bid: BlockChoice, power: nat)

  type Voters = map<PublicKey, Assigned>
  type Buckets = map<BlockChoice, nat>

  datatype TallyError = DuplicateVote | UnknownVoter | NoVotes

  /** The order of a `BTreeMap<Option<Hash32>, _>`: nil first, then by hash. */
  predicate BidLess(a: BlockChoice, b: BlockChoice)
  {
    match (a, b)
    case (_, None) => false
    case (None, Some(_)) => true
    case (Some(x), Some(y)) => x < y
  }

  ghost function Share(voters: Voters, bid: BlockChoice): PublicKey -> nat
  {
    (pk: PublicKey) => if pk in voters && voters[pk].bid == bid then voters[pk].power else 0
  }

  /** The power of all voters currently assigned to `bid`, counted afresh. */
  ghost function Recount(voters: Voters, bid: BlockChoice): nat
  {
    Sum(voters.Keys, Share(voters, bid))
  }

  ghost function Recorded(voters: Voters): PublicKey -> nat
  {
    (pk: PublicKey) => if pk in voters then voters[pk].power else 0
  }

  ghost function TotalRecorded(voters: Voters): nat
  {
    Sum(voters.Keys, Recorded(voters))
  }

  function PowerFor(buckets: Buckets, bid: BlockChoice): nat
  {
    if bid in buckets then buckets[bid] else 0
  }

  ghost predicate Consistent(buckets: Buckets, voters: Voters)
  {
    && (forall bid: BlockChoice :: PowerFor(buckets, bid) == Recount(voters, bid))
    && (forall bid: BlockChoice :: bid in buckets ==> HasVoter(voters, bid))
    && TotalRecorded(voters) < U64_LIMIT
  }

  ghost predicate HasVoter(voters: Voters, bid: BlockChoice)
  {
    exists pk :: pk in voters && voters[pk].bid == bid
  }

  /** Take a voter's power out of its bucket; an empty bucket disappears. */
  function Withdraw(buckets: Buckets, bid: BlockChoice, power: nat): Buckets
  {
    if bid !in buckets then buckets else
      var rest := SaturatingSub(buckets[bid], power);
      if rest == 0 then buckets - {bid} else buckets[bid := rest]
  }

  function Deposit(buckets: Buckets, bid: BlockChoice, power: nat): Buckets
  {
    buckets[bid := SaturatingAdd(PowerFor(buckets, bid), power)]
  }

  lemma RecountInsert(voters: Voters, pk: PublicKey, a: Assigned, bid: BlockChoice)
    requires pk !in voters
    ensures Recount(voters[pk := a], bid) == Recount(voters, bid) + if a.bid == bid then a.power else 0
    ensures TotalRecorded(voters[pk := a]) == TotalRecorded(voters) + a.power
  {
    var after := voters[pk := a];
    assert after.Keys == voters.Keys + {pk};
    SumInsert(voters.Keys, Share(after, bid), pk);
    SumCongruent(voters.Keys, Share(after, bid), Share(voters, bid));
    SumInsert(voters.Keys, Recorded(after), pk);
    SumCongruent(voters.Keys, Recorded(after), Recorded(voters));
  }

  lemma RecountRemove(voters: Voters, pk: PublicKey, bid: BlockChoice)
    requires pk in voters
    ensures Recount(voters, bid) == Recount(voters - {pk}, bid) + if voters[pk].bid == bid then voters[pk].power else 0
    ensures TotalRecorded(voters) == TotalRecorded(voters - {pk}) + voters[pk].power
  {
    var rest := voters - {pk};
    RecountInsert(rest, pk, voters[pk], bid);
    assert rest[pk := voters[pk]] == voters;
  }

  lemma RecountBelowTotal(voters: Voters, bid: BlockChoice)
    ensures Recount(voters, bid) <= TotalRecorded(voters)
  {
    SumBelow(voters.Keys, Share(voters, bid), Recorded(voters));
  }

  /** One bucket after a voter's power is withdrawn. */
  lemma WithdrawPower(buckets: Buckets, voters: Voters, pk: PublicKey, bid: BlockChoice)
    requires pk in voters && PowerFor(buckets, bid) == Recount(voters, bid)
    ensures PowerFor(Withdraw(buckets, voters[pk].bid, voters[pk].power), bid) == Recount(voters - {pk}, bid)
  {
    RecountRemove(voters, pk, bid);
  }

  /** A bucket that survives a withdrawal still has a voter. */
  lemma WithdrawVoted(buckets: Buckets, voters: Voters, pk: PublicKey, bid: BlockChoice)
    requires pk in voters && PowerFor(buckets, bid) == Recount(voters, bid)
    requires bid in Withdraw(buckets, voters[pk].bid, voters[pk].power)
    requires HasVoter(voters, bid)
    ensures HasVoter(voters - {pk}, bid)
  {
    if bid == voters[pk].bid {
      WithdrawPower(buckets, voters, pk, bid);
      PositiveHasVoter(voters - {pk}, bid);
    } else {
      var v :| v in voters && voters[v].bid == bid;
      assert v in voters - {pk} && (voters - {pk})[v].bid == bid;
    }
  }

  lemma WithdrawConsistent(buckets: Buckets, voters: Voters, pk: PublicKey)
    requires Consistent(buckets, voters) && pk in voters
    ensures Consistent(Withdraw(buckets, voters[pk].bid, voters[pk].power), voters - {pk})
  {
    var after := Withdraw(buckets, voters[pk].bid, voters[pk].power);
    forall bid: BlockChoice
      ensures PowerFor(after, bid) == Recount(voters - {pk}, bid)
      ensures bid in after ==> HasVoter(voters - {pk}, bid)
    {
      WithdrawPower(buckets, voters, pk, bid);
      if bid in after {
        WithdrawVoted(buckets, voters, pk, bid);
      }
    }
    RecountRemove(voters, pk, voters[pk].bid);
  }

  lemma PositiveHasVoter(voters: Voters, bid: BlockChoice)
    requires Recount(voters, bid) > 0
    ensures HasVoter(voters, bid)
  {
    if !HasVoter(voters, bid) {
      SumZero(voters.Keys, Share(voters, bid));
      assert false;
    }
  }

  lemma DepositConsistent(buckets: Buckets, voters: Voters, pk: PublicKey, a: Assigned)
    requires Consistent(buckets, voters) && pk !in voters
    requires TotalRecorded(voters) + a.power < U64_LIMIT
    ensures Consistent(Deposit(buckets, a.bid, a.power), voters[pk := a])
  {
    var after := Deposit(buckets, a.bid, a.power);
    var more := voters[pk := a];
    forall bid: BlockChoice
      ensures PowerFor(after, bid) == Recount(more, bid)
    {
      RecountInsert(voters, pk, a, bid);
      RecountBelowTotal(voters, bid);
    }
    forall bid: BlockChoice | bid in after
      ensures HasVoter(more, bid)
    {
      if bid == a.bid {
        assert more[pk].bid == bid;
      } else {
        var v :| v in voters && voters[v].bid == bid;
        assert more[v].bid == bid;
      }
    }
    RecountInsert(voters, pk, a, a.bid);
  }

  /** The buckets after `pk` is assigned to `a`, whether or not it had voted before. */
  function Reassign(buckets: Buckets, voters: Voters, pk: PublicKey, a: Assigned): Buckets
  {
    Deposit(if pk in voters then Withdraw(buckets, voters[pk].bid, voters[pk].power) else buckets, a.bid, a.power)
  }

  lemma ReassignConsistent(buckets: Buckets, voters: Voters, pk: PublicKey, a: Assigned)
    requires Consistent(buckets, voters)
    requires TotalRecorded(voters[pk := a]) < U64_LIMIT
    ensures Consistent(Reassign(buckets, voters, pk, a), voters[pk := a])
  {
    ReassignTotal(voters, pk, a);
    if pk in voters {
      ReplaceConsistent(buckets, voters, voters - {pk}, pk, a);
    } else {
      DepositConsistent(buckets, voters, pk, a);
    }
  }

  lemma ReplaceConsistent(buckets: Buckets, voters: Voters, rest: Voters, pk: PublicKey, a: Assigned)
    requires Consistent(buckets, voters) && pk in voters && rest == voters - {pk}
    requires TotalRecorded(rest) + a.power < U64_LIMIT
    ensures Consistent(Deposit(Withdraw(buckets, voters[pk].bid, voters[pk].power), a.bid, a.power), voters[pk := a])
  {
    assert rest[pk := a] == voters[pk := a];
    var mid := Withdraw(buckets, voters[pk].bid, voters[pk].power);
    assert Consistent(mid, rest) by {
      WithdrawConsistent(buckets, voters, pk);
    }
    DepositConsistent(mid, rest, pk, a);
  }

  /** What is still to be merged keeps the recorded powers within 64 bits. */
  ghost predicate Mergeable(buckets: Buckets, voters: Voters, left: Voters, bound: nat)
  {
    Consistent(buckets, voters) && TotalRecorded(voters) + TotalRecorded(left) <= bound
  }

  lemma MergeStep(buckets: Buckets, voters: Voters, left: Voters, pk: PublicKey, bound: nat)
    requires Mergeable(buckets, voters, left, bound) && bound < U64_LIMIT && pk in left
    ensures Mergeable(Reassign(buckets, voters, pk, left[pk]), voters[pk := left[pk]], left - {pk}, bound)
  {
    ReassignTotal(voters, pk, left[pk]);
    RecountRemove(left, pk, left[pk].bid);
    ReassignConsistent(buckets, voters, pk, left[pk]);
  }

  lemma ReassignTotal(voters: Voters, pk: PublicKey, a: Assigned)
    ensures TotalRecorded(voters[pk := a]) <= TotalRecorded(voters) + a.power
    ensures TotalRecorded(voters[pk := a]) == TotalRecorded(voters - {pk}) + a.power
    ensures pk !in voters ==> TotalRecorded(voters[pk := a]) == TotalRecorded(voters) + a.power
  {
    var rest := voters - {pk};
    RecountInsert(rest, pk, a, a.bid);
    assert rest[pk := a] == voters[pk := a];
    if pk in voters {
      RecountRemove(voters, pk, a.bid);
    } else {
      assert rest == voters;
    }
  }

  /** The bucket `best` reports: the most power, and the last in key order among equals. */
  ghost predicate IsBest(buckets: Buckets, bid: BlockChoice)
  {
    && bid in buckets
    && forall b: BlockChoice :: b in buckets && b != bid ==>
         buckets[b] < buckets[bid] || (buckets[b] == buckets[bid] && BidLess(b, bid))
  }

  /** The bucket `quorum_candidate` reports: the first in key order at the threshold. */
  ghost predicate IsCandidate(buckets: Buckets, threshold: nat, bid: BlockChoice)
  {
    && bid in buckets && buckets[bid] >= threshold
    && forall b: BlockChoice :: b in buckets && BidLess(b, bid) ==> buckets[b] < threshold
  }

  class VoteTally {
    var buckets: Buckets
    var voters: Voters
    const allowDuplicates: bool

    ghost predicate Valid()
      reads this
    {
      Consistent(buckets, voters)
    }

    constructor (allowDuplicates: bool)
      ensures Valid() && voters == map[] && this.allowDuplicates == allowDuplicates
    {
      buckets, voters := map[], map[];
      this.allowDuplicates := allowDuplicates;
      new;
      EmptyConsistent();
    }

    method AddVote(vset: VSet, voter: PublicKey, bid: BlockChoice) returns (err: Option<TallyError>)
      requires Valid()
      modifies this
      ensures err.None? <==> voter in vset.Keys() && (voter in old(voters) ==> allowDuplicates)
      ensures err.Some? ==> unchanged(this)
      ensures err.None? ==> voters == old(voters)[voter := Assigned(bid, vset.Power(voter))]
      ensures TotalRecorded(voters) < U64_LIMIT ==> Valid()
    {
      var lookup := Lookup(vset.validators);
      if voter !in lookup {
        return Some(UnknownVoter);
      }
      var power := lookup[voter];
      var a := Assigned(bid, power);
      if voter in voters && !allowDuplicates {
        return Some(DuplicateVote);
      }
      ghost var b0, v0 := buckets, voters;
      if voter in voters {
        buckets := Withdraw(buckets, voters[voter].bid, voters[voter].power);
      }
      voters := voters[voter := a];
      buckets := Deposit(buckets, bid, power);
      if TotalRecorded(voters) < U64_LIMIT {
        ReassignConsistent(b0, v0, voter, a);
      }
      err := None;
    }

    /** The other tally's assignments override this one's, voter by voter. */
    method Merge(other: VoteTally)
      requires Valid() && other.Valid() && other != this
      modifies this
      ensures voters == old(voters) + other.voters
      ensures TotalRecorded(old(voters)) + TotalRecorded(other.voters) < U64_LIMIT ==> Valid()
    {
      var theirs := other.voters;
      ghost var all := voters + theirs;
      ghost var bound := TotalRecorded(voters) + TotalRecorded(theirs);
      var left := theirs;
      while left != map[]
        invariant voters + left == all
        invariant bound < U64_LIMIT ==> Mergeable(buckets, voters, left, bound)
        decreases |left|
      {
        var voter :| voter in left;
        if bound < U64_LIMIT {
          MergeStep(buckets, voters, left, voter, bound);
        }
        MergeUnion(voters, left, voter);
        if voter in voters {
          buckets := Withdraw(buckets, voters[voter].bid, voters[voter].power);
        }
        voters := voters[voter := left[voter]];
        buckets := Deposit(buckets, left[voter].bid, left[voter].power);
        left := left - {voter};
      }
    }

    method Clear()
      modifies this
      ensures Valid() && voters == map[]
    {
      buckets, voters := map[], map[];
      EmptyConsistent();
    }

    method Best() returns (best: Option<BlockChoice>)
      ensures best.None? <==> buckets == map[]
      ensures best.Some? ==> IsBest(buckets, best.value)
    {
      best := None;
      var todo := buckets.Keys;
      while todo != {}
        invariant todo <= buckets.Keys
        invariant best.None? <==> todo == buckets.Keys
        invariant best.Some? ==> best.value in buckets && best.value !in todo
        invariant best.Some? ==> forall b: BlockChoice :: b in buckets && b !in todo && b != best.value ==>
                      buckets[b] < buckets[best.value]
                      || (buckets[b] == buckets[best.value] && BidLess(b, best.value))
        decreases |todo|
      {
        var b: BlockChoice :| b in todo;
        todo := todo - {b};
        if best.None? || buckets[best.value] < buckets[b]
           || (buckets[best.value] == buckets[b] && BidLess(best.value, b)) {
          best := Some(b);
        }
      }
    }

    method QuorumCandidate(total: nat) returns (found: Option<BlockChoice>)
      ensures found.None? <==> forall b: BlockChoice :: b in buckets ==> buckets[b] < QuorumThreshold(total)
      ensures found.Some? ==> IsCandidate(buckets, QuorumThreshold(total), found.value)
    {
      var threshold := QuorumThreshold(total);
      found := None;
      var todo := buckets.Keys;
      while todo != {}
        invariant todo <= buckets.Keys
        invariant found.None? ==> forall b: BlockChoice :: b in buckets && b !in todo ==> buckets[b] < threshold
        invariant found.Some? ==> found.value in buckets && found.value !in todo && buckets[found.value] >= threshold
        invariant found.Some? ==> forall b: BlockChoice ::
                      b in buckets && b !in todo && BidLess(b, found.value) ==> buckets[b] < threshold
        decreases |todo|
      {
        var b: BlockChoice :| b in todo;
        todo := todo - {b};
        if buckets[b] >= threshold && (found.None? || BidLess(b, found.value)) {
          found := Some(b);
        }
      }
    }
  }

  lemma MergeUnion(voters: Voters, left: Voters, pk: PublicKey)
    requires pk in left
    ensures voters[pk := left[pk]] + (left - {pk}) == voters + left
    ensures |left - {pk}| < |left|
  {
    var rest := left - {pk};
    assert rest.Keys == left.Keys - {pk};
  }

  lemma EmptyConsistent()
    ensures Consistent(map[], map[])
  {
    forall bid: BlockChoice ensures Recount(map[], bid) == 0 {
    }
  }

  // ---------------------------------------------------------------------------
  // Tallies whose powers come from one validator set
  // ---------------------------------------------------------------------------

  ghost predicate FromSet(voters: Voters, vset: VSet)
  {
    forall pk :: pk in voters ==> pk in vset.Keys() && voters[pk].power == vset.Power(pk)
  }

  ghost function Supporters(voters: Voters, bid: BlockChoice): set<PublicKey>
  {
    set pk | pk in voters && voters[pk].bid == bid
  }

  /** A bucket is the power of its supporters as the validator set knows it. */
  lemma RecountIsPower(voters: Voters, vset: VSet, bid: BlockChoice)
    requires FromSet(voters, vset)
    ensures Recount(voters, bid) == PowerOf(vset, Supporters(voters, bid))
  {
    var s := Supporters(voters, bid);
    SumDisjoint(s, voters.Keys - s, Share(voters, bid));
    assert s + (voters.Keys - s) == voters.Keys;
    SumZero(voters.Keys - s, Share(voters, bid));
    SumCongruent(s, Share(voters, bid), (pk: PublicKey) => vset.Power(pk));
  }

  lemma FromSetFits(voters: Voters, vset: VSet)
    requires FromSet(voters, vset) && Distinct(vset.validators)
    ensures TotalRecorded(voters) <= vset.Total()
  {
    TotalIsSum(vset);
    var w := (pk: PublicKey) => vset.Power(pk);
    SumCongruent(voters.Keys, Recorded(voters), w);
    SumMonotone(voters.Keys, vset.Keys(), w);
  }

  /** At most one choice of one tally reaches the threshold. */
  lemma OneQuorumBucket(buckets: Buckets, voters: Voters, vset: VSet, a: BlockChoice, b: BlockChoice)
    requires Consistent(buckets, voters) && FromSet(voters, vset)
    requires vset.Valid() && 2 * vset.Total() < U64_LIMIT
    requires PowerFor(buckets, a) >= QuorumThreshold(vset.Total())
    requires PowerFor(buckets, b) >= QuorumThreshold(vset.Total())
    ensures a == b
  {
    if a != b {
      var sa, sb := Supporters(voters, a), Supporters(voters, b);
      RecountIsPower(voters, vset, a);
      RecountIsPower(voters, vset, b);
      assert sa * sb == {};
      assert PowerOf(vset, sa * sb) == 0;
      QuorumsIntersect(vset, sa, sb);
      assert false;
    }
  }

  /** When some bucket reaches the threshold, `best` and `quorum_candidate` name the same one. */
  lemma BestIsCandidate(buckets: Buckets, voters: Voters, vset: VSet, best: BlockChoice)
    requires Consistent(buckets, voters) && FromSet(voters, vset)
    requires vset.Valid() && 2 * vset.Total() < U64_LIMIT
    requires IsBest(buckets, best)
    ensures (exists b: BlockChoice :: b in buckets && buckets[b] >= QuorumThreshold(vset.Total()))
            <==> buckets[best] >= QuorumThreshold(vset.Total())
    ensures forall c: BlockChoice :: IsCandidate(buckets, QuorumThreshold(vset.Total()), c) ==> c == best
  {
    var q := QuorumThreshold(vset.Total());
    forall c: BlockChoice | c in buckets && buckets[c] >= q
      ensures buckets[best] >= q && c == best
    {
      assert buckets[best] >= q;
      OneQuorumBucket(buckets, voters, vset, best, c);
    }
  }
}
