/** The validator set: powers by public key, cached total power and proposer
    selection (src/consensus/validator_set.rs). */
module Validators {
  import opened Common
  import opened Power

  datatype Validator = Validator(pk: PublicKey, power: nat)

  datatype Strategy = RoundRobin | Weighted | HeightOnly | Fixed(idx: nat)

  datatype SetError = EmptySet | DuplicateValidator | ValidatorNotFound | ZeroPower

  predicate Distinct(vs: seq<Validator>)
  {
    forall i, j :: 0 <= i < j < |vs| ==> vs[i].pk != vs[j].pk
  }

  predicate Positive(vs: seq<Validator>)
  {
    forall i :: 0 <= i < |vs| ==> 0 < vs[i].power < U64_LIMIT
  }

  /** The powers by key. */
  function Lookup(vs: seq<Validator>): map<PublicKey, nat>
  {
    if vs == [] then map[] else Lookup(vs[..|vs| - 1])[vs[|vs| - 1].pk := vs[|vs| - 1].power]
  }

  /** The position of a listed key. */
  lemma {:induction false} KeyPosition(vs: seq<Validator>, pk: PublicKey) returns (i: nat)
    requires pk in Lookup(vs)
    ensures i < |vs| && vs[i].pk == pk
  {
    var n := |vs| - 1;
    if vs[n].pk == pk {
      i := n;
    } else {
      i := KeyPosition(vs[..n], pk);
    }
  }

  lemma {:induction false} KeyListed(vs: seq<Validator>, i: nat)
    requires i < |vs|
    ensures vs[i].pk in Lookup(vs)
  {
    var n := |vs| - 1;
    if i < n {
      KeyListed(vs[..n], i);
    }
  }

  function TotalOf(vs: seq<Validator>): nat
  {
    if vs == [] then 0 else TotalOf(vs[..|vs| - 1]) + vs[|vs| - 1].power
  }

  /** A validator set as a value: the list that fixes the proposer order, and the
      strategy that picks from it. */
  datatype VSet = VSet(validators: seq<Validator>, strategy: Strategy) {

    ghost predicate Valid()
    {
      validators != [] && Distinct(validators) && Positive(validators)
    }

    function Keys(): set<PublicKey> { Lookup(validators).Keys }

    function Power(pk: PublicKey): nat {
      var m := Lookup(validators);
      if pk in m then m[pk] else 0
    }

    function Total(): nat { TotalOf(validators) }

    /** `proposer_for`: the index is computed on 64-bit words. */
    function ProposerFor(height: nat, round: nat): Validator
      requires validators != []
    {
      var n := |validators|;
      match strategy
      case RoundRobin => validators[(height + round) % U64_LIMIT % n]
      case Weighted => validators[(height + round) % U64_LIMIT % n]
      case HeightOnly => validators[height % n]
      case Fixed(idx) => validators[idx % n]
    }

    lemma ProposerIsMember(height: nat, round: nat)
      requires Valid()
      ensures ProposerFor(height, round).pk in Keys()
    {
      var n := |validators|;
      match strategy {
        case RoundRobin => KeyListed(validators, (height + round) % U64_LIMIT % n);
        case Weighted => KeyListed(validators, (height + round) % U64_LIMIT % n);
        case HeightOnly => KeyListed(validators, height % n);
        case Fixed(idx) => KeyListed(validators, idx % n);
      }
    }
  }

  // ---------------------------------------------------------------------------
  // Who proposes
  // ---------------------------------------------------------------------------

  lemma MultipleBound(n: int, d: int)
    requires n >= 0
    ensures d >= 1 ==> n * d >= n
    ensures d <= -1 ==> n * d <= -n
  {
    if d >= 1 {
      assert n * (d - 1) >= 0;
    } else if d <= -1 {
      assert n * (-1 - d) >= 0;
    }
  }

  lemma DifferentRemainders(a: nat, b: nat, n: nat)
    requires n > 0 && a < b < a + n
    ensures a % n != b % n
  {
    var d := b / n - a / n;
    MultipleBound(n, d);
    assert b - a == n * (b / n) - n * (a / n) + b % n - a % n;
    assert n * (b / n) - n * (a / n) == n * d;
  }

  lemma SomeRemainder(a: nat, n: nat, i: nat) returns (k: nat)
    requires i < n
    ensures k < n && (a + k) % n == i
  {
    var r := a % n;
    k := if r <= i then i - r else n + i - r;
    RemainderIs(a + k, n, if r <= i then a / n else a / n + 1, i);
  }

  lemma RemainderIs(a: nat, n: nat, q: nat, i: nat)
    requires i < n && a == n * q + i
    ensures a % n == i
  {
    var d := a / n - q;
    MultipleBound(n, d);
    assert n * d == n * (a / n) - n * q;
  }

  /** Round robin: in as many consecutive rounds as there are validators, no two have the same proposer. The
      weighted strategy is the same. */
  lemma ProposersDiffer(vset: VSet, height: nat, round: nat, round': nat)
    requires vset.Valid() && (vset.strategy.RoundRobin? || vset.strategy.Weighted?)
    requires round < round' < round + |vset.validators| && height + round' < U64_LIMIT
    ensures vset.ProposerFor(height, round).pk != vset.ProposerFor(height, round').pk
  {
    var n := |vset.validators|;
    RoundRobinIs(vset, height, round);
    RoundRobinIs(vset, height, round');
    DifferentRemainders(height + round, height + round', n);
    DifferentKeys(vset.validators, (height + round) % n, (height + round') % n);
  }

  lemma RoundRobinIs(vset: VSet, height: nat, round: nat)
    requires vset.Valid() && (vset.strategy.RoundRobin? || vset.strategy.Weighted?) && height + round < U64_LIMIT
    ensures vset.ProposerFor(height, round) == vset.validators[(height + round) % |vset.validators|]
  {
  }

  lemma DifferentKeys(vs: seq<Validator>, i: nat, j: nat)
    requires Distinct(vs) && i < |vs| && j < |vs| && i != j
    ensures vs[i].pk != vs[j].pk
  {
  }

  /** And everyone is the proposer of one of them. */
  lemma EveryoneProposes(vset: VSet, height: nat, round: nat, i: nat) returns (k: nat)
    requires vset.Valid() && (vset.strategy.RoundRobin? || vset.strategy.Weighted?) && i < |vset.validators|
    requires height + round + |vset.validators| <= U64_LIMIT
    ensures k < |vset.validators| && vset.ProposerFor(height, round + k) == vset.validators[i]
  {
    k := SomeRemainder(height + round, |vset.validators|, i);
    assert (height + (round + k)) % U64_LIMIT == height + round + k;
  }

  /** By height: the same proposer in every round, another at each of as many consecutive heights as there
      are validators, and everyone at one of them. */
  lemma HeightDecides(vset: VSet, height: nat, height': nat, round: nat, round': nat, i: nat) returns (k: nat)
    requires vset.Valid() && vset.strategy.HeightOnly? && i < |vset.validators|
    requires height < height' < height + |vset.validators|
    ensures vset.ProposerFor(height, round) == vset.ProposerFor(height, round')
    ensures vset.ProposerFor(height, round).pk != vset.ProposerFor(height', round).pk
    ensures k < |vset.validators| && vset.ProposerFor(height + k, round) == vset.validators[i]
  {
    var n := |vset.validators|;
    k := SomeRemainder(height, n, i);
    DifferentRemainders(height, height', n);
    DifferentKeys(vset.validators, height % n, height' % n);
  }

  /** Fixed: always the validator at the index, counted around the list. */
  lemma FixedProposer(vset: VSet, height: nat, round: nat, turns: nat, i: nat)
    requires vset.Valid() && vset.strategy.Fixed? && i < |vset.validators|
    requires vset.strategy.idx == |vset.validators| * turns + i
    ensures vset.ProposerFor(height, round) == vset.validators[i]
  {
    RemainderIs(vset.strategy.idx, |vset.validators|, turns, i);
  }

  lemma {:induction false} LookupAt(vs: seq<Validator>, i: nat)
    requires Distinct(vs) && i < |vs|
    ensures vs[i].pk in Lookup(vs) && Lookup(vs)[vs[i].pk] == vs[i].power
  {
    var n := |vs| - 1;
    if i < n {
      LookupAt(vs[..n], i);
      assert vs[..n][i] == vs[i];
    }
  }

  /** The list total is the sum of the powers of the distinct keys. */
  lemma {:induction false} TotalIsSum(vset: VSet)
    requires Distinct(vset.validators)
    ensures vset.Total() == Sum(vset.Keys(), (pk: PublicKey) => vset.Power(pk))
    decreases |vset.validators|
  {
    var vs := vset.validators;
    if vs != [] {
      var n := |vs| - 1;
      var rest := vset.(validators := vs[..n]);
      var v := vs[n];
      TotalIsSum(rest);
      assert v.pk !in rest.Keys() by {
        if v.pk in rest.Keys() {
          var i := KeyPosition(vs[..n], v.pk);
          assert false;
        }
      }
      assert vset.Keys() == rest.Keys() + {v.pk};
      var w := (pk: PublicKey) => vset.Power(pk);
      var w' := (pk: PublicKey) => rest.Power(pk);
      SumInsert(rest.Keys(), w, v.pk);
      SumCongruent(rest.Keys(), w, w');
    }
  }

  function WithPower(vs: seq<Validator>, i: nat, power: nat): (r: seq<Validator>)
    requires i < |vs|
    ensures |r| == |vs|
  {
    vs[i := Validator(vs[i].pk, power)]
  }

  lemma {:induction false} TotalOfUpdate(vs: seq<Validator>, i: nat, power: nat)
    requires i < |vs|
    ensures TotalOf(WithPower(vs, i, power)) + vs[i].power == TotalOf(vs) + power
  {
    var n := |vs| - 1;
    var us := WithPower(vs, i, power);
    if i < n {
      TotalOfUpdate(vs[..n], i, power);
      assert us[..n] == WithPower(vs[..n], i, power);
    } else {
      assert us[..n] == vs[..n];
    }
  }

  /** The list without its element at `i`. */
  function Without(vs: seq<Validator>, i: nat): (r: seq<Validator>)
    requires i < |vs|
    ensures |r| == |vs| - 1
    ensures forall j :: 0 <= j < |r| ==> r[j] == vs[Skip(i, j)]
  {
    vs[..i] + vs[i + 1..]
  }

  function Skip(i: nat, j: nat): nat { if j < i then j else j + 1 }

  lemma {:induction false} TotalOfRemove(vs: seq<Validator>, i: nat)
    requires i < |vs|
    ensures TotalOf(Without(vs, i)) + vs[i].power == TotalOf(vs)
  {
    var n := |vs| - 1;
    var us := Without(vs, i);
    if i < n {
      TotalOfRemove(vs[..n], i);
      assert us[..|us| - 1] == Without(vs[..n], i);
      assert us[|us| - 1] == vs[n];
    } else {
      assert us == vs[..n];
    }
  }

  lemma {:induction false} TotalOfAtLeast(vs: seq<Validator>, i: nat)
    requires i < |vs|
    ensures vs[i].power <= TotalOf(vs)
  {
    TotalOfRemove(vs, i);
  }

  /** Two lists with the same distinct (key, power) pairs have the same lookup. */
  lemma LookupExtensional(vs: seq<Validator>, m: map<PublicKey, nat>)
    requires Distinct(vs)
    requires forall pk :: pk in m ==> pk in Lookup(vs)
    requires forall i :: 0 <= i < |vs| ==> vs[i].pk in m && m[vs[i].pk] == vs[i].power
    ensures Lookup(vs) == m
  {
    forall pk | pk in Lookup(vs)
      ensures pk in m && Lookup(vs)[pk] == m[pk]
    {
      var i := KeyPosition(vs, pk);
      LookupAt(vs, i);
    }
  }

  lemma FreshKey(vs: seq<Validator>, pk: PublicKey)
    requires pk !in Lookup(vs)
    ensures forall i :: 0 <= i < |vs| ==> vs[i].pk != pk
  {
    forall i | 0 <= i < |vs| ensures vs[i].pk != pk {
      KeyListed(vs, i);
    }
  }

  /** The stored set, with its key index and its cached total. */
  class ValidatorSet {
    var validators: seq<Validator>
    var lookup: map<PublicKey, nat>
    var totalPower: nat
    var strategy: Strategy
    var generation: nat

    ghost function View(): VSet
      reads this
    {
      VSet(validators, strategy)
    }

    ghost predicate Valid()
      reads this
    {
      View().Valid() && lookup == Lookup(validators)
    }

    /** The cache is exact. Additions saturate at the largest 64-bit word, so this
        holds as long as no addition has reached that limit. */
    ghost predicate TotalExact()
      reads this
    {
      totalPower == View().Total() < U64_LIMIT
    }

    constructor Build(vs: seq<Validator>, m: map<PublicKey, nat>, total: nat, s: Strategy)
      ensures validators == vs && lookup == m && totalPower == total && strategy == s && generation == 0
    {
      validators, lookup, totalPower, strategy, generation := vs, m, total, s, 0;
    }

    /** `new_with_config`: the whole list is checked before a set is made. */
    static method New(vs: seq<Validator>, s: Strategy) returns (err: Option<SetError>, vset: ValidatorSet?)
      requires forall i :: 0 <= i < |vs| ==> vs[i].power < U64_LIMIT
      ensures err.None? <==> vset != null
      ensures err.None? <==> VSet(vs, s).Valid()
      ensures vset != null ==> fresh(vset) && vset.Valid() && vset.View() == VSet(vs, s)
      ensures vset != null && TotalOf(vs) < U64_LIMIT ==> vset.TotalExact()
    {
      if vs == [] {
        return Some(EmptySet), null;
      }
      var m: map<PublicKey, nat> := map[];
      var total: nat := 0;
      for i := 0 to |vs|
        invariant Distinct(vs[..i]) && Positive(vs[..i])
        invariant m == Lookup(vs[..i])
        invariant TotalOf(vs[..i]) < U64_LIMIT ==> total == TotalOf(vs[..i])
        invariant total < U64_LIMIT
      {
        assert vs[..i + 1][..i] == vs[..i];
        if vs[i].power == 0 {
          return Some(ZeroPower), null;
        }
        if vs[i].pk in m {
          ghost var j := KeyPosition(vs[..i], vs[i].pk);
          assert vs[j].pk == vs[i].pk;
          return Some(DuplicateValidator), null;
        }
        FreshKey(vs[..i], vs[i].pk);
        m := m[vs[i].pk := vs[i].power];
        total := SaturatingAdd(total, vs[i].power);
      }
      assert vs[..|vs|] == vs;
      err := None;
      vset := new ValidatorSet.Build(vs, m, total, s);
    }

    method Add(v: Validator) returns (err: Option<SetError>)
      requires Valid() && v.power < U64_LIMIT
      modifies this
      ensures err.None? <==> v.power != 0 && v.pk !in old(lookup)
      ensures err.Some? ==> unchanged(this)
      ensures err.None? ==> validators == old(validators) + [v] && strategy == old(strategy)
      ensures Valid()
      ensures old(TotalExact()) && View().Total() < U64_LIMIT ==> TotalExact()
    {
      if v.power == 0 {
        return Some(ZeroPower);
      }
      if v.pk in lookup {
        return Some(DuplicateValidator);
      }
      FreshKey(validators, v.pk);
      ghost var was := validators;
      validators := validators + [v];
      assert validators[..|was|] == was;
      lookup := lookup[v.pk := v.power];
      totalPower := SaturatingAdd(totalPower, v.power);
      generation := SaturatingAdd(generation, 1);
      err := None;
    }

    /** The list position of a key. */
    method Position(pk: PublicKey) returns (i: nat)
      requires Valid()
      ensures i <= |validators|
      ensures i < |validators| ==> validators[i].pk == pk
      ensures i == |validators| <==> pk !in lookup
    {
      i := 0;
      while i < |validators| && validators[i].pk != pk
        invariant i <= |validators|
        invariant forall j :: 0 <= j < i ==> validators[j].pk != pk
      {
        i := i + 1;
      }
      if i < |validators| {
        KeyListed(validators, i);
      } else if pk in lookup {
        ghost var j := KeyPosition(validators, pk);
        assert false;
      }
    }

    method Remove(pk: PublicKey) returns (err: Option<SetError>)
      requires Valid()
      modifies this
      ensures err.None? <==> |old(validators)| > 1 && pk in old(lookup)
      ensures err.Some? ==> unchanged(this)
      ensures err.None? ==> lookup == old(lookup) - {pk} && strategy == old(strategy)
      ensures err.None? ==> exists i ::
                  && 0 <= i < |old(validators)| && old(validators)[i].pk == pk
                  && validators == Without(old(validators), i)
      ensures Valid()
      ensures old(TotalExact()) ==> TotalExact()
    {
      if |validators| <= 1 {
        return Some(EmptySet);
      }
      var i := Position(pk);
      if i == |validators| {
        return Some(ValidatorNotFound);
      }
      TotalOfRemove(validators, i);
      ghost var was := validators;
      var removed := validators[i];
      validators := Without(validators, i);
      lookup := lookup - {removed.pk};
      totalPower := SaturatingSub(totalPower, removed.power);
      generation := SaturatingAdd(generation, 1);
      RemovedLookup(was, i);
      assert was[i].pk == pk && validators == Without(was, i);
      err := None;
    }

    method UpdatePower(pk: PublicKey, power: nat) returns (err: Option<SetError>)
      requires Valid() && power < U64_LIMIT
      modifies this
      ensures err.None? <==> power != 0 && pk in old(lookup)
      ensures err.Some? ==> unchanged(this)
      ensures err.None? ==> lookup == old(lookup)[pk := power] && strategy == old(strategy)
      ensures err.None? ==> |validators| == |old(validators)|
                            && forall i :: 0 <= i < |validators| ==> validators[i].pk == old(validators)[i].pk
      ensures Valid()
      ensures old(TotalExact()) && View().Total() < U64_LIMIT ==> TotalExact()
    {
      if power == 0 {
        return Some(ZeroPower);
      }
      var i := Position(pk);
      if i == |validators| {
        return Some(ValidatorNotFound);
      }
      ghost var was := validators;
      TotalOfUpdate(validators, i, power);
      TotalOfAtLeast(validators, i);
      var oldPower := validators[i].power;
      validators := WithPower(validators, i, power);
      lookup := lookup[pk := power];
      totalPower := SaturatingAdd(SaturatingSub(totalPower, oldPower), power);
      generation := SaturatingAdd(generation, 1);
      UpdatedLookup(was, i, power);
      err := None;
    }
  }

  lemma RemovedDistinct(vs: seq<Validator>, i: nat)
    requires Distinct(vs) && Positive(vs) && i < |vs|
    ensures Distinct(Without(vs, i)) && Positive(Without(vs, i))
  {
    var us := Without(vs, i);
    forall j, k | 0 <= j < k < |us| ensures us[j].pk != us[k].pk {
      assert us[j] == vs[Skip(i, j)] && us[k] == vs[Skip(i, k)];
    }
  }

  lemma RemovedEntry(vs: seq<Validator>, i: nat, j: nat)
    requires Distinct(vs) && Positive(vs) && i < |vs| && j < |vs| - 1
    ensures var m := Lookup(vs) - {vs[i].pk};
            Without(vs, i)[j].pk in m && m[Without(vs, i)[j].pk] == Without(vs, i)[j].power
  {
    LookupAt(vs, Skip(i, j));
    assert vs[Skip(i, j)].pk != vs[i].pk;
  }

  lemma RemovedKey(vs: seq<Validator>, i: nat, pk: PublicKey)
    requires Distinct(vs) && Positive(vs) && i < |vs| && pk in Lookup(vs) && pk != vs[i].pk
    ensures pk in Lookup(Without(vs, i))
  {
    var k := KeyPosition(vs, pk);
    KeyListed(Without(vs, i), if k < i then k else k - 1);
  }

  lemma RemovedLookup(vs: seq<Validator>, i: nat)
    requires Distinct(vs) && Positive(vs) && i < |vs|
    ensures Distinct(Without(vs, i)) && Positive(Without(vs, i))
    ensures Lookup(Without(vs, i)) == Lookup(vs) - {vs[i].pk}
  {
    RemovedDistinct(vs, i);
    var us := Without(vs, i);
    var m := Lookup(vs) - {vs[i].pk};
    forall j | 0 <= j < |us| ensures us[j].pk in m && m[us[j].pk] == us[j].power {
      RemovedEntry(vs, i, j);
    }
    forall pk | pk in m ensures pk in Lookup(us) {
      RemovedKey(vs, i, pk);
    }
    LookupExtensional(us, m);
  }

  lemma UpdatedLookup(vs: seq<Validator>, i: nat, power: nat)
    requires Distinct(vs) && Positive(vs) && i < |vs| && 0 < power < U64_LIMIT
    ensures Distinct(WithPower(vs, i, power)) && Positive(WithPower(vs, i, power))
    ensures Lookup(WithPower(vs, i, power)) == Lookup(vs)[vs[i].pk := power]
  {
    var us := WithPower(vs, i, power);
    var m := Lookup(vs)[vs[i].pk := power];
    assert forall j :: 0 <= j < |us| ==> us[j].pk == vs[j].pk;
    forall j | 0 <= j < |us|
      ensures us[j].pk in m && m[us[j].pk] == us[j].power
    {
      LookupAt(vs, j);
    }
    forall pk | pk in m
      ensures pk in Lookup(us)
    {
      LookupAt(vs, i);
      var k := KeyPosition(vs, pk);
      KeyListed(us, k);
    }
    LookupExtensional(us, m);
  }
}
