/** The stake ledger (src/slashing.rs): where slashed stake goes, over every run. */
module StakeLedger {
  import opened Common
  import opened Power

  datatype SlashingConfig = SlashingConfig(
    slashDoubleVote: nat,
    slashDoubleProposal: nat,
    slashDowntime: nat,
    minStakeAfterSlash: nat,
    unjailDelay: nat,
    tombstoneAfterRepeated: bool)
  {
    predicate Valid()
    {
      slashDoubleVote > 0 && slashDoubleProposal > 0 && slashDowntime > 0 && minStakeAfterSlash > 0 && unjailDelay > 0
    }
  }

  datatype Status = Active | Jailed(sinceHeight: nat, slashCount: nat) | Tombstoned

  datatype Record = Record(stake: nat, slashedTotal: nat, status: Status, jailedAt: Option<nat>)

  datatype Offence = DoubleVote | DoubleProposal

  datatype Error =
    | AlreadyExists
    | ValidatorNotFound
    | IsTombstoned
    | AlreadyActive
    | NotActive
    | UnjailDelayNotElapsed(remaining: nat)

  datatype Result = Done | Refused(error: Error)

  datatype Ledger = Ledger(validators: map<PublicKey, Record>, communityPool: nat, height: nat)

  const EMPTY_LEDGER := Ledger(map[], 0, 0)

  // ---------------------------------------------------------------------------
  // The operations on values
  // ---------------------------------------------------------------------------

  function SlashAmount(stake: nat, fraction: nat): (r: nat)
    requires fraction > 0
    ensures r >= 1 && (stake >= 1 ==> r <= stake)
  {
    QuotientAtMost(stake, fraction);
    Max(stake / fraction, 1)
  }

  lemma QuotientAtMost(n: nat, d: nat)
    requires d > 0
    ensures n / d <= n
  {
    FactorAtMost(d, n / d, n % d);
  }

  lemma FactorAtMost(d: nat, q: nat, r: nat)
    requires d > 0
    ensures q <= d * q + r
  {
    assert (d - 1) * q >= 0;
  }

  function NewRecord(stake: nat): Record { Record(stake, 0, Active, None) }

  /** A record after a slash: tombstoned when repeated or too poor, else jailed. */
  function Punished(cfg: SlashingConfig, r: Record, amount: nat, count: nat, repeated: bool, height: nat): Record
  {
    var left := SaturatingSub(r.stake, amount);
    var slashed := r.(slashedTotal := r.slashedTotal + amount);
    if repeated || left < cfg.minStakeAfterSlash then slashed.(status := Tombstoned, stake := 0)
    else slashed.(status := Jailed(height, count), stake := left, jailedAt := Some(height))
  }

  function Slashed(ledger: Ledger, pk: PublicKey, record: Record, amount: nat): Ledger
  {
    ledger.(validators := ledger.validators[pk := record], communityPool := ledger.communityPool + amount)
  }

  function ApplyEvidence(cfg: SlashingConfig, ledger: Ledger, pk: PublicKey, offence: Offence): (Ledger, Result)
    requires cfg.Valid()
  {
    if pk !in ledger.validators then (ledger, Refused(ValidatorNotFound))
    else
      var r := ledger.validators[pk];
      if r.status.Tombstoned? then (ledger, Refused(IsTombstoned))
      else
        var fraction := if offence.DoubleVote? then cfg.slashDoubleVote else cfg.slashDoubleProposal;
        var count := if r.status.Jailed? then r.status.slashCount + 1 else 1;
        (SlashBy(cfg, ledger, pk, fraction, count, cfg.tombstoneAfterRepeated && count >= 2), Done)
  }

  /** A fraction of the stake, at least one, goes to the pool. */
  function SlashBy(cfg: SlashingConfig, ledger: Ledger, pk: PublicKey, fraction: nat, count: nat, repeated: bool)
    : Ledger
    requires pk in ledger.validators && fraction > 0
  {
    var r := ledger.validators[pk];
    var amount := SlashAmount(r.stake, fraction);
    Slashed(ledger, pk, Punished(cfg, r, amount, count, repeated, ledger.height), amount)
  }

  function SlashDowntime(cfg: SlashingConfig, ledger: Ledger, pk: PublicKey): (Ledger, Result)
    requires cfg.Valid()
  {
    if pk !in ledger.validators then (ledger, Refused(ValidatorNotFound))
    else
      var r := ledger.validators[pk];
      if !r.status.Active? then (ledger, Refused(NotActive))
      else (SlashBy(cfg, ledger, pk, cfg.slashDowntime, 1, false), Done)
  }

  function Unjail(cfg: SlashingConfig, ledger: Ledger, pk: PublicKey): (Ledger, Result)
  {
    if pk !in ledger.validators then (ledger, Refused(ValidatorNotFound))
    else
      var r := ledger.validators[pk];
      match r.status
      case Tombstoned => (ledger, Refused(IsTombstoned))
      case Active => (ledger, Refused(AlreadyActive))
      case Jailed(since, _) =>
        var remaining := SaturatingSub(since + cfg.unjailDelay, ledger.height);
        if remaining > 0 then (ledger, Refused(UnjailDelayNotElapsed(remaining)))
        else (ledger.(validators := ledger.validators[pk := r.(status := Active, jailedAt := None)]), Done)
  }

  datatype Op =
    | Add(pk: PublicKey, stake: nat)
    | Remove(pk: PublicKey)
    | SetHeight(height: nat)
    | Evidence(pk: PublicKey, offence: Offence)
    | Downtime(pk: PublicKey)
    | Release(pk: PublicKey)

  function Step(cfg: SlashingConfig, ledger: Ledger, op: Op): (Ledger, Result)
    requires cfg.Valid()
  {
    match op
    case Add(pk, stake) =>
      if pk in ledger.validators then (ledger, Refused(AlreadyExists))
      else (ledger.(validators := ledger.validators[pk := NewRecord(stake)]), Done)
    case Remove(pk) => (ledger.(validators := ledger.validators - {pk}), Done)
    case SetHeight(h) => (ledger.(height := h), Done)
    case Evidence(pk, offence) => ApplyEvidence(cfg, ledger, pk, offence)
    case Downtime(pk) => SlashDowntime(cfg, ledger, pk)
    case Release(pk) => Unjail(cfg, ledger, pk)
  }

  function After(cfg: SlashingConfig, ledger: Ledger, ops: seq<Op>): Ledger
    requires cfg.Valid()
    decreases |ops|
  {
    if ops == [] then ledger else After(cfg, Step(cfg, ledger, ops[0]).0, ops[1..])
  }

  // ---------------------------------------------------------------------------
  // An account of the stake
  // ---------------------------------------------------------------------------

  /** For the validators in the ledger, the stake they were added with; and the stake that
      removed validators had lost to the pool. */
  datatype Account = Account(putIn: map<PublicKey, nat>, lostByRemoved: nat)

  function Accounted(account: Account, ledger: Ledger, op: Op): Account
  {
    match op
    case Add(pk, stake) =>
      if pk in ledger.validators then account else account.(putIn := account.putIn[pk := stake])
    case Remove(pk) =>
      Account(account.putIn - {pk},
              account.lostByRemoved + if pk in ledger.validators then ledger.validators[pk].slashedTotal else 0)
    case _ => account
  }

  function AccountAfter(cfg: SlashingConfig, account: Account, ledger: Ledger, ops: seq<Op>): Account
    requires cfg.Valid()
    decreases |ops|
  {
    if ops == [] then account
    else AccountAfter(cfg, Accounted(account, ledger, ops[0]), Step(cfg, ledger, ops[0]).0, ops[1..])
  }

  const NOTHING := Account(map[], 0)

  ghost function Lost(ledger: Ledger): PublicKey -> nat
  {
    (pk: PublicKey) => if pk in ledger.validators then ledger.validators[pk].slashedTotal else 0
  }

  /** Until it is tombstoned, a validator has what it put in less what it lost; afterwards nothing. */
  predicate RecordOk(r: Record, putIn: nat)
  {
    if r.status.Tombstoned? then r.stake == 0 && r.slashedTotal <= putIn
    else r.stake >= 1 && r.stake + r.slashedTotal == putIn
  }

  ghost predicate LedgerOk(ledger: Ledger, account: Account)
  {
    && account.putIn.Keys == ledger.validators.Keys
    && (forall pk :: pk in ledger.validators ==> RecordOk(ledger.validators[pk], account.putIn[pk]))
    && ledger.communityPool == Sum(ledger.validators.Keys, Lost(ledger)) + account.lostByRemoved
  }

  lemma PunishedOk(cfg: SlashingConfig, r: Record, putIn: nat, amount: nat, count: nat, repeated: bool, height: nat)
    requires cfg.Valid() && RecordOk(r, putIn) && !r.status.Tombstoned? && 1 <= amount <= r.stake
    ensures RecordOk(Punished(cfg, r, amount, count, repeated, height), putIn)
    ensures Punished(cfg, r, amount, count, repeated, height).slashedTotal == r.slashedTotal + amount
  {
  }

  /** A slash moves its amount to the pool. */
  lemma SlashedOk(ledger: Ledger, account: Account, pk: PublicKey, record: Record, amount: nat)
    requires LedgerOk(ledger, account) && pk in ledger.validators && RecordOk(record, account.putIn[pk])
    requires record.slashedTotal == ledger.validators[pk].slashedTotal + amount
    ensures LedgerOk(Slashed(ledger, pk, record, amount), account)
  {
    var ledger' := Slashed(ledger, pk, record, amount);
    var keys := ledger.validators.Keys;
    assert ledger'.validators.Keys == keys;
    SumSplit(keys, Lost(ledger), pk);
    SumSplit(keys, Lost(ledger'), pk);
    SumCongruent(keys - {pk}, Lost(ledger), Lost(ledger'));
  }

  lemma StepOk(cfg: SlashingConfig, ledger: Ledger, account: Account, op: Op)
    requires cfg.Valid() && LedgerOk(ledger, account) && (op.Add? ==> op.stake >= 1)
    ensures LedgerOk(Step(cfg, ledger, op).0, Accounted(account, ledger, op))
  {
    match op
    case Add(pk, stake) => AddOk(cfg, ledger, account, pk, stake);
    case Remove(pk) => RemoveOk(ledger, account, pk);
    case SetHeight(h) => SumCongruent(ledger.validators.Keys, Lost(ledger), Lost(ledger.(height := h)));
    case Evidence(pk, offence) => EvidenceOk(cfg, ledger, account, pk, offence);
    case Downtime(pk) => DowntimeOk(cfg, ledger, account, pk);
    case Release(pk) => ReleaseOk(cfg, ledger, account, pk);
  }

  /** A slash by some fraction, whatever becomes of the record. */
  lemma SlashOk(cfg: SlashingConfig, ledger: Ledger, account: Account, pk: PublicKey, fraction: nat, count: nat,
                repeated: bool)
    requires cfg.Valid() && LedgerOk(ledger, account) && fraction > 0
    requires pk in ledger.validators && !ledger.validators[pk].status.Tombstoned?
    ensures LedgerOk(SlashBy(cfg, ledger, pk, fraction, count, repeated), account)
  {
    var r := ledger.validators[pk];
    var amount := SlashAmount(r.stake, fraction);
    PunishedOk(cfg, r, account.putIn[pk], amount, count, repeated, ledger.height);
    SlashedOk(ledger, account, pk, Punished(cfg, r, amount, count, repeated, ledger.height), amount);
  }

  lemma SlashGives(cfg: SlashingConfig, ledger: Ledger, account: Account, pk: PublicKey, fraction: nat, count: nat,
                   repeated: bool, next: Ledger)
    requires cfg.Valid() && LedgerOk(ledger, account) && fraction > 0
    requires pk in ledger.validators && !ledger.validators[pk].status.Tombstoned?
    requires next == SlashBy(cfg, ledger, pk, fraction, count, repeated)
    ensures LedgerOk(next, account)
  {
    SlashOk(cfg, ledger, account, pk, fraction, count, repeated);
  }

  lemma EvidenceOk(cfg: SlashingConfig, ledger: Ledger, account: Account, pk: PublicKey, offence: Offence)
    requires cfg.Valid() && LedgerOk(ledger, account)
    ensures LedgerOk(ApplyEvidence(cfg, ledger, pk, offence).0, account)
  {
    if pk in ledger.validators && !ledger.validators[pk].status.Tombstoned? {
      var fraction := if offence.DoubleVote? then cfg.slashDoubleVote else cfg.slashDoubleProposal;
      var status := ledger.validators[pk].status;
      var count := if status.Jailed? then status.slashCount + 1 else 1;
      var repeated := cfg.tombstoneAfterRepeated && count >= 2;
      var next := ApplyEvidence(cfg, ledger, pk, offence).0;
      assert next == SlashBy(cfg, ledger, pk, fraction, count, repeated);
      SlashGives(cfg, ledger, account, pk, fraction, count, repeated, next);
    }
  }

  lemma DowntimeOk(cfg: SlashingConfig, ledger: Ledger, account: Account, pk: PublicKey)
    requires cfg.Valid() && LedgerOk(ledger, account)
    ensures LedgerOk(SlashDowntime(cfg, ledger, pk).0, account)
  {
    if pk in ledger.validators && ledger.validators[pk].status.Active? {
      SlashOk(cfg, ledger, account, pk, cfg.slashDowntime, 1, false);
    }
  }

  lemma ReleaseOk(cfg: SlashingConfig, ledger: Ledger, account: Account, pk: PublicKey)
    requires LedgerOk(ledger, account)
    ensures LedgerOk(Unjail(cfg, ledger, pk).0, account)
  {
    if Unjail(cfg, ledger, pk).1.Done? {
      var r := ledger.validators[pk].(status := Active, jailedAt := None);
      SlashedOk(ledger, account, pk, r, 0);
    }
  }

  lemma AddOk(cfg: SlashingConfig, ledger: Ledger, account: Account, pk: PublicKey, stake: nat)
    requires cfg.Valid() && LedgerOk(ledger, account) && stake >= 1
    ensures LedgerOk(Step(cfg, ledger, Add(pk, stake)).0, Accounted(account, ledger, Add(pk, stake)))
  {
    if pk !in ledger.validators {
      AddedSum(ledger, pk, stake);
    }
  }

  lemma AddedSum(ledger: Ledger, pk: PublicKey, stake: nat)
    requires pk !in ledger.validators
    ensures var ledger' := ledger.(validators := ledger.validators[pk := NewRecord(stake)]);
            Sum(ledger'.validators.Keys, Lost(ledger')) == Sum(ledger.validators.Keys, Lost(ledger))
  {
    var ledger' := ledger.(validators := ledger.validators[pk := NewRecord(stake)]);
    var keys := ledger.validators.Keys;
    assert ledger'.validators.Keys == keys + {pk};
    SumInsert(keys, Lost(ledger'), pk);
    SumCongruent(keys, Lost(ledger), Lost(ledger'));
  }

  lemma RemoveOk(ledger: Ledger, account: Account, pk: PublicKey)
    requires LedgerOk(ledger, account)
    ensures LedgerOk(ledger.(validators := ledger.validators - {pk}), Accounted(account, ledger, Remove(pk)))
  {
    var ledger' := ledger.(validators := ledger.validators - {pk});
    var keys := ledger.validators.Keys;
    assert ledger'.validators.Keys == keys - {pk};
    if pk in keys {
      SumSplit(keys, Lost(ledger), pk);
    } else {
      assert keys - {pk} == keys;
    }
    SumCongruent(keys - {pk}, Lost(ledger), Lost(ledger'));
  }

  /** Over every run, the pool holds exactly what the validators lost, and every validator has what
      it put in less what it lost, until it is tombstoned. */
  lemma {:induction false} RunOk(cfg: SlashingConfig, ledger: Ledger, account: Account, ops: seq<Op>)
    requires cfg.Valid() && LedgerOk(ledger, account)
    requires forall i :: 0 <= i < |ops| && ops[i].Add? ==> ops[i].stake >= 1
    ensures LedgerOk(After(cfg, ledger, ops), AccountAfter(cfg, account, ledger, ops))
    decreases |ops|
  {
    if ops != [] {
      StepOk(cfg, ledger, account, ops[0]);
      RunOk(cfg, Step(cfg, ledger, ops[0]).0, Accounted(account, ledger, ops[0]), ops[1..]);
    }
  }

  /** The ledger that the code starts with, at whatever height, and what was put into it. */
  predicate Starts(ledger: Ledger, account: Account)
  {
    ledger.validators == map[] && ledger.communityPool == 0 && account.putIn == map[] && account.lostByRemoved == 0
  }

  lemma StartOk(ledger: Ledger, account: Account)
    requires Starts(ledger, account)
    ensures LedgerOk(ledger, account) && Held(account) == 0
  {
  }

  /** From there, over every run. */
  lemma RunOkFromStart(cfg: SlashingConfig, ledger: Ledger, account: Account, ops: seq<Op>)
    requires cfg.Valid() && Starts(ledger, account)
    requires forall i :: 0 <= i < |ops| && ops[i].Add? ==> ops[i].stake >= 1
    ensures LedgerOk(After(cfg, ledger, ops), AccountAfter(cfg, account, ledger, ops))
  {
    StartOk(ledger, account);
    RunOk(cfg, ledger, account, ops);
  }

  /** The case without removals. */
  lemma PoolIsLostStake(cfg: SlashingConfig, ledger: Ledger, account: Account, ops: seq<Op>)
    requires cfg.Valid() && LedgerOk(ledger, account) && account.lostByRemoved == 0
    requires forall i :: 0 <= i < |ops| ==> !ops[i].Remove? && (ops[i].Add? ==> ops[i].stake >= 1)
    ensures var ledger' := After(cfg, ledger, ops);
            ledger'.communityPool == Sum(ledger'.validators.Keys, Lost(ledger'))
  {
    RunOk(cfg, ledger, account, ops);
    NoneRemoved(cfg, account, ledger, ops);
  }

  lemma {:induction false} NoneRemoved(cfg: SlashingConfig, account: Account, ledger: Ledger, ops: seq<Op>)
    requires cfg.Valid() && forall i :: 0 <= i < |ops| ==> !ops[i].Remove?
    ensures AccountAfter(cfg, account, ledger, ops).lostByRemoved == account.lostByRemoved
    decreases |ops|
  {
    if ops != [] {
      assert !ops[0].Remove?;
      NoneRemoved(cfg, Accounted(account, ledger, ops[0]), Step(cfg, ledger, ops[0]).0, ops[1..]);
    }
  }

  /** A validator that put in nothing loses more than it had. */
  lemma ZeroStakeOverdrawn(cfg: SlashingConfig, pk: PublicKey)
    requires cfg.Valid()
    ensures var ledger := Step(cfg, Step(cfg, EMPTY_LEDGER, Add(pk, 0)).0, Downtime(pk)).0;
            ledger.validators[pk].slashedTotal == 1 && ledger.communityPool == 1
  {
  }

  lemma RecordStep(cfg: SlashingConfig, ledger: Ledger, op: Op, pk: PublicKey, putIn: nat)
    requires cfg.Valid() && op != Remove(pk) && pk in ledger.validators && RecordOk(ledger.validators[pk], putIn)
    ensures var ledger' := Step(cfg, ledger, op).0;
            pk in ledger'.validators && RecordOk(ledger'.validators[pk], putIn)
  {
  }

  /** One validator keeps its account along every run that does not remove it, whatever the others put in. */
  lemma {:induction false} RecordRun(cfg: SlashingConfig, ledger: Ledger, ops: seq<Op>, pk: PublicKey, putIn: nat)
    requires cfg.Valid() && Remove(pk) !in ops
    requires pk in ledger.validators && RecordOk(ledger.validators[pk], putIn)
    ensures var ledger' := After(cfg, ledger, ops);
            pk in ledger'.validators && RecordOk(ledger'.validators[pk], putIn)
    decreases |ops|
  {
    if ops != [] {
      RecordStep(cfg, ledger, ops[0], pk, putIn);
      RecordRun(cfg, Step(cfg, ledger, ops[0]).0, ops[1..], pk, putIn);
    }
  }

  /** This validator has lost no more than the given stake. */
  predicate LostAtMost(ledger: Ledger, pk: PublicKey, stake: nat)
  {
    pk in ledger.validators && ledger.validators[pk].slashedTotal <= stake
  }

  /** No run takes more from a newly added validator than its stake exactly when the stake is at least one. */
  lemma OverdrawnIff(cfg: SlashingConfig, ledger: Ledger, pk: PublicKey, stake: nat, added: Ledger)
    requires cfg.Valid() && pk !in ledger.validators && added == Step(cfg, ledger, Add(pk, stake)).0
    ensures (forall ops: seq<Op> :: Remove(pk) !in ops ==> LostAtMost(After(cfg, added, ops), pk, stake))
            <==> stake >= 1
  {
    if stake >= 1 {
      forall ops: seq<Op> | Remove(pk) !in ops ensures LostAtMost(After(cfg, added, ops), pk, stake) {
        RecordRun(cfg, added, ops, pk, stake);
      }
    } else {
      DowntimeOverdraws(cfg, added, pk);
      assert Remove(pk) !in [Downtime(pk)];
    }
  }

  lemma DowntimeOverdraws(cfg: SlashingConfig, ledger: Ledger, pk: PublicKey)
    requires cfg.Valid() && pk in ledger.validators && ledger.validators[pk] == NewRecord(0)
    ensures !LostAtMost(After(cfg, ledger, [Downtime(pk)]), pk, 0)
  {
    var ops := [Downtime(pk)];
    var next := Step(cfg, ledger, ops[0]).0;
    assert ops[1..] == [] && After(cfg, ledger, ops) == After(cfg, next, ops[1..]) == next;
  }

  // ---------------------------------------------------------------------------
  // Status
  // ---------------------------------------------------------------------------

  /** Once tombstoned, always tombstoned, unless the validator is removed. */
  lemma {:induction false} TombstonedForEver(cfg: SlashingConfig, ledger: Ledger, ops: seq<Op>, pk: PublicKey)
    requires cfg.Valid() && pk in ledger.validators && ledger.validators[pk].status.Tombstoned?
    requires forall i :: 0 <= i < |ops| ==> ops[i] != Remove(pk)
    ensures var ledger' := After(cfg, ledger, ops);
            pk in ledger'.validators && ledger'.validators[pk] == ledger.validators[pk]
    decreases |ops|
  {
    if ops != [] {
      assert ops[0] != Remove(pk);
      TombstonedForEver(cfg, Step(cfg, ledger, ops[0]).0, ops[1..], pk);
    }
  }

  /** A jailed validator gets back to work only by a release, and only after the delay. */
  lemma ReleasedAfterDelay(cfg: SlashingConfig, ledger: Ledger, op: Op, pk: PublicKey)
    requires cfg.Valid() && pk in ledger.validators && ledger.validators[pk].status.Jailed?
    requires var ledger' := Step(cfg, ledger, op).0; pk in ledger'.validators && ledger'.validators[pk].status.Active?
    ensures op == Release(pk) && ledger.height >= ledger.validators[pk].status.sinceHeight + cfg.unjailDelay
  {
  }

  /** Seen over a run: between being jailed and being active again, some step finds the chain at
      least the delay above the height at which the validator was last jailed. */
  lemma {:induction false} ActiveAgainAfterDelay(cfg: SlashingConfig, ledger: Ledger, ops: seq<Op>, pk: PublicKey)
    returns (k: nat)
    requires cfg.Valid() && pk in ledger.validators && ledger.validators[pk].status.Jailed?
    requires forall i :: 0 <= i < |ops| ==> ops[i] != Remove(pk)
    requires var ledger' := After(cfg, ledger, ops); pk in ledger'.validators && ledger'.validators[pk].status.Active?
    ensures k < |ops| && ops[k] == Release(pk)
    ensures var before := After(cfg, ledger, ops[..k]);
            && pk in before.validators && before.validators[pk].status.Jailed?
            && before.height >= before.validators[pk].status.sinceHeight + cfg.unjailDelay
    decreases |ops|
  {
    var next := Step(cfg, ledger, ops[0]).0;
    assert ops[0] != Remove(pk);
    match next.validators[pk].status
    case Active =>
      ReleasedAfterDelay(cfg, ledger, ops[0], pk);
      assert ops[..0] == [];
      k := 0;
    case Tombstoned =>
      TombstonedForEver(cfg, next, ops[1..], pk);
      assert false;
    case Jailed(_, _) =>
      var j := ActiveAgainAfterDelay(cfg, next, ops[1..], pk);
      k := j + 1;
      assert ops[..k][1..] == ops[1..][..j];
  }

  // ---------------------------------------------------------------------------
  // What an offence costs
  // ---------------------------------------------------------------------------

  /** Evidence is heard against every known validator that is not tombstoned, downtime only against an
      active one; otherwise nothing happens. */
  lemma HeardIff(cfg: SlashingConfig, ledger: Ledger, op: Op)
    requires cfg.Valid() && (op.Evidence? || op.Downtime?)
    ensures var known := op.pk in ledger.validators;
            Step(cfg, ledger, op).1 == Done
            <==> known && (ledger.validators[op.pk].status.Active?
                           || (op.Evidence? && ledger.validators[op.pk].status.Jailed?))
    ensures Step(cfg, ledger, op).1 != Done ==> Step(cfg, ledger, op).0 == ledger
    ensures op.pk !in ledger.validators ==> Step(cfg, ledger, op).1 == Refused(ValidatorNotFound)
  {
  }

  /** A validator is added once, active and with its whole stake; adding, removing and a new height change
      nothing else. */
  lemma MembershipLaw(cfg: SlashingConfig, ledger: Ledger, op: Op)
    requires cfg.Valid() && (op.Add? || op.Remove? || op.SetHeight?)
    ensures var (next, r) := Step(cfg, ledger, op);
            && next.communityPool == ledger.communityPool && (r == Done <==> !(op.Add? && op.pk in ledger.validators))
            && next.height == (if op.SetHeight? then op.height else ledger.height)
            && (op.SetHeight? || r != Done ==> next.validators == ledger.validators)
            && (op.Add? && r == Done ==>
                  && next.validators == ledger.validators[op.pk := next.validators[op.pk]]
                  && next.validators[op.pk].status == Active && next.validators[op.pk].stake == op.stake
                  && next.validators[op.pk].slashedTotal == 0 && next.validators[op.pk].jailedAt == None)
            && (op.Remove? ==> forall pk :: pk in next.validators <==> pk in ledger.validators && pk != op.pk)
            && (op.Remove? ==> forall pk :: pk in next.validators ==> next.validators[pk] == ledger.validators[pk])
  {
  }

  /** The part of a stake that is one part in `fraction`, rounded down, but at least one. */
  ghost predicate IsPart(amount: nat, stake: nat, fraction: nat)
  {
    if stake >= fraction then amount * fraction <= stake < (amount + 1) * fraction else amount == 1
  }

  lemma SlashAmountIsPart(stake: nat, fraction: nat)
    requires fraction > 0
    ensures IsPart(SlashAmount(stake, fraction), stake, fraction)
  {
    var q := stake / fraction;
    assert stake == fraction * q + stake % fraction;
    assert (q + 1) * fraction == q * fraction + fraction;
    if stake < fraction && q >= 1 {
      FactorAtLeast(fraction, q);
    }
  }

  lemma FactorAtLeast(d: nat, q: nat)
    requires q >= 1
    ensures d * q >= d
  {
    assert d * (q - 1) >= 0;
  }

  /** The part of the stake goes to the pool. The validator is tombstoned exactly when it was jailed before
      and that counts, or too little is left; otherwise it is jailed from this height on, counted once
      more. Nobody else is touched. */
  lemma OffenceCosts(cfg: SlashingConfig, ledger: Ledger, op: Op, next: Ledger) returns (amount: nat)
    requires cfg.Valid() && (op.Evidence? || op.Downtime?) && Step(cfg, ledger, op) == (next, Done)
    ensures op.pk in ledger.validators && op.pk in next.validators
    ensures next.communityPool == ledger.communityPool + amount && next.height == ledger.height
    ensures next.validators == ledger.validators[op.pk := next.validators[op.pk]]
    ensures var was, now := ledger.validators[op.pk], next.validators[op.pk];
            && IsPart(amount, was.stake, if op.Downtime? then cfg.slashDowntime
                                         else if op.offence.DoubleVote? then cfg.slashDoubleVote
                                         else cfg.slashDoubleProposal)
            && now.slashedTotal == was.slashedTotal + amount
    ensures var was, now := ledger.validators[op.pk], next.validators[op.pk];
            var before := if was.status.Jailed? then was.status.slashCount else 0;
            if (cfg.tombstoneAfterRepeated && before >= 1) || was.stake - amount < cfg.minStakeAfterSlash
            then now.status == Tombstoned && now.stake == 0 && now.jailedAt == was.jailedAt
            else && now.status == Jailed(ledger.height, before + 1) && now.jailedAt == Some(ledger.height)
                 && now.stake == was.stake - amount
  {
    var fraction := if op.Downtime? then cfg.slashDowntime
                    else if op.offence.DoubleVote? then cfg.slashDoubleVote else cfg.slashDoubleProposal;
    amount := SlashAmount(ledger.validators[op.pk].stake, fraction);
    SlashAmountIsPart(ledger.validators[op.pk].stake, fraction);
  }

  /** A release succeeds exactly for a jailed validator whose delay has passed, and changes its status and
      nothing else. Before that it says how long is left. */
  lemma ReleaseIff(cfg: SlashingConfig, ledger: Ledger, pk: PublicKey)
    requires cfg.Valid()
    ensures var (next, r) := Step(cfg, ledger, Release(pk));
            var jailed := pk in ledger.validators && ledger.validators[pk].status.Jailed?;
            && (r == Done <==> jailed && ledger.validators[pk].status.sinceHeight + cfg.unjailDelay <= ledger.height)
            && (r == Done ==> next == ledger.(validators := ledger.validators[
                                pk := ledger.validators[pk].(status := Active, jailedAt := None)]))
            && (r != Done ==> next == ledger)
            && (jailed && r != Done ==>
                  r == Refused(UnjailDelayNotElapsed(
                         ledger.validators[pk].status.sinceHeight + cfg.unjailDelay - ledger.height)))
  {
  }

  // ---------------------------------------------------------------------------
  // The ledger object
  // ---------------------------------------------------------------------------

  ghost function ActiveStake(ledger: Ledger): PublicKey -> nat
  {
    (pk: PublicKey) =>
      if pk in ledger.validators && ledger.validators[pk].status.Active? then ledger.validators[pk].stake else 0
  }

  class StakeLedger {
    var validators: map<PublicKey, Record>
    var communityPool: nat
    var currentHeight: nat
    const config: SlashingConfig

    function View(): Ledger
      reads this
    {
      Ledger(validators, communityPool, currentHeight)
    }

    constructor (config: SlashingConfig)
      ensures View() == EMPTY_LEDGER && Starts(View(), NOTHING) && this.config == config
    {
      validators, communityPool, currentHeight := map[], 0, 0;
      this.config := config;
    }

    method AddValidator(pk: PublicKey, stake: nat) returns (r: Result)
      requires config.Valid()
      modifies this
      ensures (View(), r) == Step(config, old(View()), Add(pk, stake))
    {
      if pk in validators {
        return Refused(AlreadyExists);
      }
      validators := validators[pk := NewRecord(stake)];
      return Done;
    }

    method DoApplyEvidence(pk: PublicKey, offence: Offence) returns (r: Result)
      requires config.Valid()
      modifies this
      ensures (View(), r) == ApplyEvidence(config, old(View()), pk, offence)
    {
      if pk !in validators {
        return Refused(ValidatorNotFound);
      }
      var record := validators[pk];
      if record.status.Tombstoned? {
        return Refused(IsTombstoned);
      }
      var fraction := if offence.DoubleVote? then config.slashDoubleVote else config.slashDoubleProposal;
      var amount := Max(record.stake / fraction, 1);
      var newStake := SaturatingSub(record.stake, amount);
      record := record.(slashedTotal := record.slashedTotal + amount);
      communityPool := communityPool + amount;
      var count := if record.status.Jailed? then record.status.slashCount + 1 else 1;
      if config.tombstoneAfterRepeated && count >= 2 {
        record := record.(status := Tombstoned, stake := 0);
      } else if newStake < config.minStakeAfterSlash {
        record := record.(status := Tombstoned, stake := 0);
      } else {
        record := record.(status := Jailed(currentHeight, count), stake := newStake, jailedAt := Some(currentHeight));
      }
      validators := validators[pk := record];
      return Done;
    }

    method DoSlashDowntime(pk: PublicKey) returns (r: Result)
      requires config.Valid()
      modifies this
      ensures (View(), r) == SlashDowntime(config, old(View()), pk)
    {
      if pk !in validators {
        return Refused(ValidatorNotFound);
      }
      var record := validators[pk];
      if !record.status.Active? {
        return Refused(NotActive);
      }
      var amount := Max(record.stake / config.slashDowntime, 1);
      var newStake := SaturatingSub(record.stake, amount);
      record := record.(slashedTotal := record.slashedTotal + amount);
      communityPool := communityPool + amount;
      if newStake < config.minStakeAfterSlash {
        record := record.(status := Tombstoned, stake := 0);
      } else {
        record := record.(status := Jailed(currentHeight, 1), stake := newStake, jailedAt := Some(currentHeight));
      }
      validators := validators[pk := record];
      return Done;
    }

    method DoUnjail(pk: PublicKey) returns (r: Result)
      modifies this
      ensures (View(), r) == Unjail(config, old(View()), pk)
    {
      if pk !in validators {
        return Refused(ValidatorNotFound);
      }
      var record := validators[pk];
      match record.status
      case Tombstoned =>
        return Refused(IsTombstoned);
      case Active =>
        return Refused(AlreadyActive);
      case Jailed(since, _) =>
        var remaining := SaturatingSub(since + config.unjailDelay, currentHeight);
        if remaining > 0 {
          return Refused(UnjailDelayNotElapsed(remaining));
        }
        validators := validators[pk := record.(status := Active, jailedAt := None)];
        return Done;
    }

    /** The stake of the active validators. */
    method TotalPower() returns (total: nat)
      ensures total == Sum(validators.Keys, ActiveStake(View()))
    {
      total := 0;
      var todo := validators.Keys;
      ghost var w := ActiveStake(View());
      while todo != {}
        invariant todo <= validators.Keys && total + Sum(todo, w) == Sum(validators.Keys, w)
        decreases |todo|
      {
        var pk :| pk in todo;
        SumSplit(todo, w, pk);
        if validators[pk].status.Active? {
          total := total + validators[pk].stake;
        }
        todo := todo - {pk};
      }
    }
  }

  ghost function PutIn(account: Account): PublicKey -> nat
  {
    (pk: PublicKey) => if pk in account.putIn then account.putIn[pk] else 0
  }

  /** The power in use and the pool together never exceed the stake that was put in. */
  lemma PowerWithinStake(ledger: Ledger, account: Account)
    requires LedgerOk(ledger, account)
    ensures var keys := ledger.validators.Keys;
            Sum(keys, ActiveStake(ledger)) + ledger.communityPool <= Sum(keys, PutIn(account)) + account.lostByRemoved
  {
    SumPairs(ledger.validators.Keys, ActiveStake(ledger), Lost(ledger), PutIn(account));
  }

  lemma {:induction false} SumPairs(s: set<PublicKey>, u: PublicKey -> nat, v: PublicKey -> nat, w: PublicKey -> nat)
    requires forall x :: x in s ==> u(x) + v(x) <= w(x)
    ensures Sum(s, u) + Sum(s, v) <= Sum(s, w)
    decreases |s|
  {
    if s != {} {
      var x :| x in s;
      SumSplit(s, u, x);
      SumSplit(s, v, x);
      SumSplit(s, w, x);
      SumPairs(s - {x}, u, v, w);
    }
  }

  // ---------------------------------------------------------------------------
  // Amounts fit
  // ---------------------------------------------------------------------------

  /** All stake that is ever added. */
  function EverAdded(ops: seq<Op>): nat
  {
    if ops == [] then 0 else (if ops[0].Add? then ops[0].stake else 0) + EverAdded(ops[1..])
  }

  ghost function Held(account: Account): nat { Sum(account.putIn.Keys, PutIn(account)) + account.lostByRemoved }

  lemma HeldAdd(account: Account, pk: PublicKey, stake: nat)
    requires pk !in account.putIn
    ensures Held(account.(putIn := account.putIn[pk := stake])) == Held(account) + stake
  {
    var after := account.(putIn := account.putIn[pk := stake]);
    assert after.putIn.Keys == account.putIn.Keys + {pk};
    SumInsert(account.putIn.Keys, PutIn(after), pk);
    SumCongruent(account.putIn.Keys, PutIn(account), PutIn(after));
  }

  lemma HeldRemove(account: Account, pk: PublicKey, lost: nat)
    requires if pk in account.putIn then lost <= account.putIn[pk] else lost == 0
    ensures Held(Account(account.putIn - {pk}, account.lostByRemoved + lost)) <= Held(account)
  {
    var after := Account(account.putIn - {pk}, account.lostByRemoved + lost);
    assert after.putIn.Keys == account.putIn.Keys - {pk};
    if pk in account.putIn {
      SumSplit(account.putIn.Keys, PutIn(account), pk);
    } else {
      assert account.putIn.Keys - {pk} == account.putIn.Keys;
    }
    SumCongruent(account.putIn.Keys - {pk}, PutIn(account), PutIn(after));
  }

  lemma {:induction false} HeldRun(cfg: SlashingConfig, ledger: Ledger, account: Account, ops: seq<Op>)
    requires cfg.Valid() && LedgerOk(ledger, account)
    requires forall i :: 0 <= i < |ops| && ops[i].Add? ==> ops[i].stake >= 1
    ensures Held(AccountAfter(cfg, account, ledger, ops)) <= Held(account) + EverAdded(ops)
    decreases |ops|
  {
    if ops != [] {
      var op := ops[0];
      if op.Add? && op.pk !in ledger.validators {
        HeldAdd(account, op.pk, op.stake);
      } else if op.Remove? {
        HeldRemove(account, op.pk, if op.pk in ledger.validators then ledger.validators[op.pk].slashedTotal else 0);
      }
      StepOk(cfg, ledger, account, op);
      HeldRun(cfg, Step(cfg, ledger, op).0, Accounted(account, ledger, op), ops[1..]);
    }
  }

  /** Every amount of the ledger, and every sum that it takes, is within the limit. */
  ghost predicate Within(ledger: Ledger, limit: nat)
  {
    && Sum(ledger.validators.Keys, ActiveStake(ledger)) + ledger.communityPool <= limit
    && forall pk :: pk in ledger.validators ==>
         ledger.validators[pk].stake + ledger.validators[pk].slashedTotal <= limit
  }

  lemma WithinHeld(ledger: Ledger, account: Account, limit: nat)
    requires LedgerOk(ledger, account) && Held(account) <= limit
    ensures Within(ledger, limit)
  {
    PowerWithinStake(ledger, account);
    forall pk | pk in ledger.validators
      ensures ledger.validators[pk].stake + ledger.validators[pk].slashedTotal <= limit
    {
      SumSplit(account.putIn.Keys, PutIn(account), pk);
    }
  }

  /** Over every run, no amount ever exceeds the stake that was put in: as long as that fits 64 bits,
      nothing overflows. */
  lemma AmountsFit(cfg: SlashingConfig, ledger: Ledger, account: Account, ops: seq<Op>)
    requires cfg.Valid() && forall i :: 0 <= i < |ops| && ops[i].Add? ==> ops[i].stake >= 1
    requires LedgerOk(ledger, account)
    ensures Within(After(cfg, ledger, ops), Held(account) + EverAdded(ops))
  {
    RunOk(cfg, ledger, account, ops);
    HeldRun(cfg, ledger, account, ops);
    WithinHeld(After(cfg, ledger, ops), AccountAfter(cfg, account, ledger, ops), Held(account) + EverAdded(ops));
  }

  /** From the ledger that the code starts with, the limit is all stake that is ever added. */
  lemma AmountsFitFromStart(cfg: SlashingConfig, ledger: Ledger, account: Account, ops: seq<Op>, limit: nat)
    requires cfg.Valid() && Starts(ledger, account) && limit == EverAdded(ops)
    requires forall i :: 0 <= i < |ops| && ops[i].Add? ==> ops[i].stake >= 1
    ensures Within(After(cfg, ledger, ops), limit)
  {
    StartOk(ledger, account);
    AmountsFit(cfg, ledger, account, ops);
  }
}
