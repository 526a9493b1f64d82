/** The double-sign guard: a persisted set of everything that was signed
    (src/consensus/double_sign.rs). */
module DoubleSign {
  import opened Common
  import opened Messages

  datatype SignedKey =
    | ProposalKey(height: Height, round: Round, blockId: Hash32)
    | VoteKey(voteType: VoteType, height: Height, round: Round, choice: Option<Hash32>)

  /** Two different messages of one kind for the same height and round. */
  predicate Conflicting(a: SignedKey, b: SignedKey)
  {
    match (a, b)
    case (ProposalKey(h, r, x), ProposalKey(h', r', y)) => h == h' && r == r' && x != y
    case (VoteKey(t, h, r, x), VoteKey(t', h', r', y)) => t == t' && h == h' && r == r' && x != y
    case _ => false
  }

  ghost predicate ConflictFree(s: set<SignedKey>)
  {
    forall a, b :: a in s && b in s ==> !Conflicting(a, b)
  }

  // ---------------------------------------------------------------------------
  // The order in which the set is kept
  // ---------------------------------------------------------------------------

  function ChoiceRank(c: Option<Hash32>): nat
  {
    match c case None => 0 case Some(h) => h + 1
  }

  /** The fields in the order in which the derived comparison looks at them. */
  function Rank(k: SignedKey): (nat, nat, nat, nat, nat)
  {
    match k
    case ProposalKey(h, r, b) => (0, 0, h, r, b)
    case VoteKey(t, h, r, c) => (1, t.AsByte(), h, r, ChoiceRank(c))
  }

  predicate KeyLess(a: SignedKey, b: SignedKey)
  {
    var (x, y) := (Rank(a), Rank(b));
    || x.0 < y.0
    || (x.0 == y.0 && x.1 < y.1)
    || (x.0 == y.0 && x.1 == y.1 && x.2 < y.2)
    || (x.0 == y.0 && x.1 == y.1 && x.2 == y.2 && x.3 < y.3)
    || (x.0 == y.0 && x.1 == y.1 && x.2 == y.2 && x.3 == y.3 && x.4 < y.4)
  }

  lemma KeyOrderTotal(a: SignedKey, b: SignedKey)
    ensures a == b || KeyLess(a, b) || KeyLess(b, a)
  {
  }

  lemma KeyOrderTransitive(a: SignedKey, b: SignedKey, c: SignedKey)
    requires KeyLess(a, b) && KeyLess(b, c)
    ensures KeyLess(a, c)
  {
  }

  lemma KeyOrderAsymmetric(a: SignedKey, b: SignedKey)
    requires KeyLess(a, b)
    ensures !KeyLess(b, a) && a != b
  {
  }

  ghost predicate IsLeast(s: set<SignedKey>, k: SignedKey)
  {
    k in s && forall x :: x in s ==> x == k || KeyLess(k, x)
  }

  ghost predicate IsGreatest(s: set<SignedKey>, k: SignedKey)
  {
    k in s && forall x :: x in s ==> x == k || KeyLess(x, k)
  }

  lemma {:induction false} LeastExists(s: set<SignedKey>)
    requires s != {}
    ensures exists k :: IsLeast(s, k)
    decreases |s|
  {
    var x :| x in s;
    if s == {x} {
      assert IsLeast(s, x);
    } else {
      LeastExists(s - {x});
      var k :| IsLeast(s - {x}, k);
      KeyOrderTotal(x, k);
      forall y | y in s && KeyLess(x, k) && y != x && y != k ensures KeyLess(x, y) {
        KeyOrderTransitive(x, k, y);
      }
      assert IsLeast(s, if KeyLess(x, k) then x else k);
    }
  }

  lemma {:induction false} GreatestExists(s: set<SignedKey>)
    requires s != {}
    ensures exists k :: IsGreatest(s, k)
    decreases |s|
  {
    var x :| x in s;
    if s == {x} {
      assert IsGreatest(s, x);
    } else {
      GreatestExists(s - {x});
      var k :| IsGreatest(s - {x}, k);
      KeyOrderTotal(x, k);
      forall y | y in s && KeyLess(k, x) && y != x && y != k ensures KeyLess(y, x) {
        KeyOrderTransitive(y, k, x);
      }
      assert IsGreatest(s, if KeyLess(x, k) then k else x);
    }
  }

  /** The first key of the set. */
  ghost function Least(s: set<SignedKey>): (k: SignedKey)
    requires s != {}
    ensures IsLeast(s, k)
  {
    LeastExists(s);
    var k :| IsLeast(s, k);
    k
  }

  /** The last key of the set. */
  ghost function Greatest(s: set<SignedKey>): (k: SignedKey)
    requires s != {}
    ensures IsGreatest(s, k)
  {
    GreatestExists(s);
    var k :| IsGreatest(s, k);
    k
  }

  // ---------------------------------------------------------------------------
  // The guard as a value
  // ---------------------------------------------------------------------------

  datatype GuardConfig = GuardConfig(persist: bool, maxEntries: nat, pruneBelow: nat)

  /** `disk` is the content of the guard's file, if it exists. */
  datatype Guard = Guard(config: GuardConfig, signed: set<SignedKey>, highest: nat, disk: Option<set<SignedKey>>)

  function Persist(g: Guard): Guard
  {
    if g.config.persist then g.(disk := Some(g.signed)) else g
  }

  function Kept(s: set<SignedKey>, threshold: nat): set<SignedKey>
  {
    set k | k in s && k.height >= threshold
  }

  /** `prune`: the file is rewritten only when something was dropped. */
  function Prune(g: Guard, height: nat): Guard
  {
    if g.config.pruneBelow == 0 then g else
      var kept := Kept(g.signed, SaturatingSub(height, g.config.pruneBelow));
      if kept == g.signed then g else Persist(g.(signed := kept))
  }

  /** A check at a new highest height prunes first. */
  function Observe(g: Guard, height: nat): Guard
  {
    if height > g.highest then Prune(g.(highest := height), height) else g
  }

  predicate Allowed(s: set<SignedKey>, key: SignedKey)
  {
    forall k :: k in s ==> !Conflicting(k, key)
  }

  ghost function Evict(s: set<SignedKey>, maxEntries: nat): set<SignedKey>
    decreases |s|
  {
    if maxEntries == 0 || |s| <= maxEntries then s else Evict(s - {Least(s)}, maxEntries)
  }

  ghost function Record(g: Guard, key: SignedKey): Guard
  {
    Persist(g.(signed := Evict(g.signed + {key}, g.config.maxEntries)))
  }

  /** `load`: without a file nothing changes; from an empty set no highest height is taken. */
  ghost function Reloaded(g: Guard): Guard
  {
    match g.disk
    case None => g
    case Some(signed) => g.(signed := signed, highest := if signed == {} then g.highest else Greatest(signed).height)
  }

  /** A process that starts with this configuration and finds this file. */
  ghost function Start(config: GuardConfig, disk: Option<set<SignedKey>>): Guard
  {
    var empty := Guard(config, {}, 0, disk);
    if config.persist then Reloaded(empty) else empty
  }

  /** The guard still has room for one more entry, so that recording evicts nothing. */
  predicate HasRoom(g: Guard, key: SignedKey)
  {
    g.config.maxEntries == 0 || |g.signed + {key}| <= g.config.maxEntries
  }

  // ---------------------------------------------------------------------------
  // The stored guard
  // ---------------------------------------------------------------------------

  method FindLeast(s: set<SignedKey>) returns (first: SignedKey)
    requires s != {}
    ensures first == Least(s)
  {
    first :| first in s;
    var todo := s - {first};
    while todo != {}
      invariant todo <= s && first in s && first !in todo
      invariant forall k :: k in s && k !in todo ==> k == first || KeyLess(first, k)
      decreases |todo|
    {
      var k :| k in todo;
      KeyOrderTotal(k, first);
      if KeyLess(k, first) {
        forall y | y in s && KeyLess(first, y) ensures KeyLess(k, y) {
          KeyOrderTransitive(k, first, y);
        }
        first := k;
      }
      todo := todo - {k};
    }
    if first != Least(s) {
      KeyOrderAsymmetric(first, Least(s));
    }
  }

  method FindGreatest(s: set<SignedKey>) returns (last: SignedKey)
    requires s != {}
    ensures last == Greatest(s)
  {
    last :| last in s;
    var todo := s - {last};
    while todo != {}
      invariant todo <= s && last in s && last !in todo
      invariant forall k :: k in s && k !in todo ==> k == last || KeyLess(k, last)
      decreases |todo|
    {
      var k :| k in todo;
      KeyOrderTotal(k, last);
      if KeyLess(last, k) {
        forall y | y in s && KeyLess(y, last) ensures KeyLess(y, k) {
          KeyOrderTransitive(y, last, k);
        }
        last := k;
      }
      todo := todo - {k};
    }
    if last != Greatest(s) {
      KeyOrderAsymmetric(last, Greatest(s));
    }
  }

  class DoubleSignGuard {
    const config: GuardConfig
    var signed: set<SignedKey>
    var highestHeight: nat
    var disk: Option<set<SignedKey>>

    ghost function View(): Guard
      reads this
    {
      Guard(config, signed, highestHeight, disk)
    }

    constructor (config: GuardConfig, disk: Option<set<SignedKey>>)
      ensures View() == Start(config, disk)
    {
      this.config := config;
      this.disk := disk;
      signed := {};
      highestHeight := 0;
      new;
      if config.persist {
        Load();
      }
    }

    /** `load` and `reload`. */
    method Load()
      modifies this
      ensures View() == Reloaded(old(View()))
    {
      if disk.None? {
        return;
      }
      signed := disk.value;
      if signed != {} {
        var last := FindGreatest(signed);
        highestHeight := last.height;
      }
    }

    method DoPersist()
      modifies this
      ensures View() == Persist(old(View()))
    {
      if config.persist {
        disk := Some(signed);
      }
    }

    method DoPrune(height: nat)
      modifies this
      ensures View() == Prune(old(View()), height)
    {
      if config.pruneBelow == 0 {
        return;
      }
      var threshold := SaturatingSub(height, config.pruneBelow);
      var kept := {};
      var todo := signed;
      while todo != {}
        invariant todo <= signed
        invariant kept == Kept(signed - todo, threshold)
        decreases |todo|
      {
        var k :| k in todo;
        if k.height >= threshold {
          kept := kept + {k};
        }
        todo := todo - {k};
      }
      assert signed - todo == signed;
      if kept != signed {
        signed := kept;
        DoPersist();
      }
    }

    /** `check_proposal` and `check_vote`. */
    method Check(key: SignedKey) returns (ok: bool)
      modifies this
      ensures View() == Observe(old(View()), key.height)
      ensures ok <==> Allowed(signed, key)
    {
      if key.height > highestHeight {
        highestHeight := key.height;
        DoPrune(key.height);
      }
      var todo := signed;
      while todo != {}
        invariant todo <= signed
        invariant forall k :: k in signed && k !in todo ==> !Conflicting(k, key)
        decreases |todo|
      {
        var k :| k in todo;
        if Conflicting(k, key) {
          return false;
        }
        todo := todo - {k};
      }
      ok := true;
    }

    method EnforceMaxEntries()
      modifies this`signed
      ensures signed == Evict(old(signed), config.maxEntries)
    {
      if config.maxEntries == 0 {
        return;
      }
      while |signed| > config.maxEntries
        invariant Evict(signed, config.maxEntries) == Evict(old(signed), config.maxEntries)
        decreases |signed|
      {
        var first := FindLeast(signed);
        signed := signed - {first};
      }
    }

    /** `record_proposal` and `record_vote`. */
    method DoRecord(key: SignedKey)
      modifies this
      ensures View() == Record(old(View()), key)
    {
      signed := signed + {key};
      EnforceMaxEntries();
      DoPersist();
    }
  }

  // ---------------------------------------------------------------------------
  // Runs of a signer that checks, records and only then releases
  // ---------------------------------------------------------------------------

  /** `Sign`: check, sign, record, and release the message unless something stops it after
      recording. `Crash`: the process dies and a new one loads the file. `Reload`: the same process
      loads the file again. `FileLost`: writes that failed, unnoticed, leave another content in the file. */
  datatype Op =
    | Sign(key: SignedKey, released: bool)
    | PruneTo(height: nat)
    | Crash
    | Reload
    | FileLost(content: Option<set<SignedKey>>)

  ghost function Step(g: Guard, op: Op): Guard
  {
    match op
    case Sign(key, _) =>
      var seen := Observe(g, key.height);
      if Allowed(seen.signed, key) then Record(seen, key) else seen
    case PruneTo(height) => Prune(g, height)
    case Crash => Start(g.config, g.disk)
    case Reload => Reloaded(g)
    case FileLost(content) => g.(disk := content)
  }

  ghost function Output(g: Guard, op: Op): set<SignedKey>
  {
    match op
    case Sign(key, released) =>
      if released && Allowed(Observe(g, key.height).signed, key) then {key} else {}
    case _ => {}
  }

  /** Everything released along a run. */
  ghost function Released(g: Guard, ops: seq<Op>): set<SignedKey>
    decreases |ops|
  {
    if ops == [] then {} else Output(g, ops[0]) + Released(Step(g, ops[0]), ops[1..])
  }

  function OpHeight(op: Op): nat
  {
    match op
    case Sign(key, _) => key.height
    case PruneTo(height) => height
    case _ => 0
  }

  /** No message is signed so far below the highest height until then that pruning may have forgotten it. */
  predicate InWindow(config: GuardConfig, ops: seq<Op>, top: nat)
    decreases |ops|
  {
    ops != [] ==>
      && (ops[0].Sign? ==> ops[0].key.height >= Floor(config, top))
      && InWindow(config, ops[1..], Max(top, OpHeight(ops[0])))
  }

  /** The lowest height that is still remembered when the highest one was `top`. */
  function Floor(config: GuardConfig, top: nat): nat
  {
    if config.pruneBelow == 0 then 0 else SaturatingSub(top, config.pruneBelow)
  }

  ghost predicate NeverEvicts(g: Guard, ops: seq<Op>)
    decreases |ops|
  {
    ops != [] ==>
      && (ops[0].Sign? ==> HasRoom(Observe(g, ops[0].key.height), ops[0].key))
      && NeverEvicts(Step(g, ops[0]), ops[1..])
  }

  /** What was released at `floor` or above is remembered in memory and, if the file is `durable`, on disk. */
  ghost predicate Remembers(g: Guard, released: set<SignedKey>, floor: nat, durable: bool)
  {
    && ConflictFree(released) && (durable ==> g.config.persist)
    && forall k :: k in released && k.height >= floor ==>
         k in g.signed && (durable ==> g.disk.Some? && k in g.disk.value)
  }

  lemma PruneRemembers(g: Guard, released: set<SignedKey>, top: nat, height: nat, durable: bool)
    requires Remembers(g, released, Floor(g.config, top), durable)
    ensures Remembers(Prune(g, height), released, Floor(g.config, Max(top, height)), durable)
  {
  }

  lemma ObserveRemembers(g: Guard, released: set<SignedKey>, top: nat, height: nat, durable: bool)
    requires Remembers(g, released, Floor(g.config, top), durable)
    ensures Remembers(Observe(g, height), released, Floor(g.config, Max(top, height)), durable)
  {
    if height > g.highest {
      PruneRemembers(g.(highest := height), released, top, height, durable);
    }
  }

  /** A durable file is never lost; without one, nothing is read back from it. */
  predicate Suits(op: Op, durable: bool)
  {
    if durable then !op.FileLost? else !op.Crash? && !op.Reload?
  }

  lemma StepRemembers(g: Guard, released: set<SignedKey>, top: nat, op: Op, durable: bool)
    requires Remembers(g, released, Floor(g.config, top), durable) && Suits(op, durable)
    requires op.Sign? ==> HasRoom(Observe(g, op.key.height), op.key) && op.key.height >= Floor(g.config, top)
    ensures Remembers(Step(g, op), released + Output(g, op), Floor(g.config, Max(top, OpHeight(op))), durable)
    ensures Step(g, op).config == g.config
  {
    match op
    case Sign(key, _) =>
      ObserveRemembers(g, released, top, key.height, durable);
    case PruneTo(height) =>
      PruneRemembers(g, released, top, height, durable);
    case Crash =>
    case Reload =>
    case FileLost(_) =>
  }

  lemma {:induction false} RunRemembers(g: Guard, released: set<SignedKey>, top: nat, ops: seq<Op>, durable: bool)
    requires Remembers(g, released, Floor(g.config, top), durable)
    requires InWindow(g.config, ops, top) && NeverEvicts(g, ops)
    requires forall i :: 0 <= i < |ops| ==> Suits(ops[i], durable)
    ensures ConflictFree(released + Released(g, ops))
    decreases |ops|
  {
    if ops == [] {
      assert released + Released(g, ops) == released;
    } else {
      StepRemembers(g, released, top, ops[0], durable);
      RunRemembers(Step(g, ops[0]), released + Output(g, ops[0]), Max(top, OpHeight(ops[0])), ops[1..], durable);
      assert released + Released(g, ops)
          == released + Output(g, ops[0]) + Released(Step(g, ops[0]), ops[1..]);
    }
  }

  /** Whatever a guarded signer releases never contains two conflicting messages: over any run whose heights
      go back no further than pruning remembers, with restarts and reloads as long as the file is persisted
      and no write to it is lost, or with lost writes as long as the file is never read back. */
  lemma NoDoubleSign(config: GuardConfig, disk: Option<set<SignedKey>>, ops: seq<Op>)
    requires InWindow(config, ops, 0) && NeverEvicts(Start(config, disk), ops)
    requires (config.persist && forall i :: 0 <= i < |ops| ==> Suits(ops[i], true))
             || forall i :: 0 <= i < |ops| ==> Suits(ops[i], false)
    ensures ConflictFree(Released(Start(config, disk), ops))
  {
    var durable := config.persist && forall i :: 0 <= i < |ops| ==> Suits(ops[i], true);
    RunRemembers(Start(config, disk), {}, 0, ops, durable);
    assert {} + Released(Start(config, disk), ops) == Released(Start(config, disk), ops);
  }

  /** Proposals of one height and round, or votes of one type, height and round. */
  predicate SameSlot(a: SignedKey, b: SignedKey)
  {
    || (a.ProposalKey? && b.ProposalKey? && a.height == b.height && a.round == b.round)
    || (a.VoteKey? && b.VoteKey? && a.voteType == b.voteType && a.height == b.height && a.round == b.round)
  }

  /** The guard refuses to sign exactly when it remembers another message for the same slot. */
  lemma RefusesIff(g: Guard, key: SignedKey)
    ensures key !in Output(g, Sign(key, true))
            <==> exists k :: k in Observe(g, key.height).signed && SameSlot(k, key) && k != key
  {
  }

  /** What is still remembered when a height is seen: all of it, or what is within the window below a new
      highest height. The file follows if it is used and something was dropped. */
  lemma ObserveIff(g: Guard, height: nat, k: SignedKey)
    ensures var seen := Observe(g, height);
            && (k in seen.signed <==>
                  k in g.signed && (height <= g.highest || g.config.pruneBelow == 0
                                    || k.height + g.config.pruneBelow >= height))
            && seen.disk == (if g.config.persist && seen.signed != g.signed then Some(seen.signed) else g.disk)
            && seen.highest == Max(g.highest, height) && seen.config == g.config
  {
  }

  ghost function AfterOps(g: Guard, ops: seq<Op>): Guard
    decreases |ops|
  {
    if ops == [] then g else AfterOps(Step(g, ops[0]), ops[1..])
  }

  /** The key was in the file at some time, or was offered for signing. */
  ghost predicate Met(disk: Option<set<SignedKey>>, ops: seq<Op>, k: SignedKey)
  {
    || (disk.Some? && k in disk.value)
    || exists op :: op in ops && ((op.Sign? && op.key == k)
                                  || (op.FileLost? && op.content.Some? && k in op.content.value))
  }

  lemma {:induction false} EvictTakes(s: set<SignedKey>, maxEntries: nat)
    ensures Evict(s, maxEntries) <= s
    decreases |s|
  {
    if maxEntries != 0 && |s| > maxEntries {
      EvictTakes(s - {Least(s)}, maxEntries);
    }
  }

  lemma StepMet(g: Guard, op: Op, all: iset<SignedKey>)
    requires forall k :: k in g.signed || (g.disk.Some? && k in g.disk.value) ==> k in all
    requires op.Sign? ==> op.key in all
    requires op.FileLost? && op.content.Some? ==> forall k :: k in op.content.value ==> k in all
    ensures var next := Step(g, op);
            forall k :: k in next.signed || (next.disk.Some? && k in next.disk.value) ==> k in all
  {
    if op.Sign? {
      EvictTakes(Observe(g, op.key.height).signed + {op.key}, g.config.maxEntries);
    }
  }

  lemma {:induction false} RunMet(g: Guard, ops: seq<Op>, all: iset<SignedKey>)
    requires forall k :: k in g.signed || (g.disk.Some? && k in g.disk.value) ==> k in all
    requires forall op :: op in ops && op.Sign? ==> op.key in all
    requires forall op, k :: op in ops && op.FileLost? && op.content.Some? && k in op.content.value ==> k in all
    ensures forall k :: k in AfterOps(g, ops).signed ==> k in all
    decreases |ops|
  {
    if ops != [] {
      StepMet(g, ops[0], all);
      RunMet(Step(g, ops[0]), ops[1..], all);
    }
  }

  /** After any run: a message that is refused clashes with another one that was in the file at the start, was
      put into it, or was offered for signing before. */
  lemma RefusedForConflict(config: GuardConfig, disk: Option<set<SignedKey>>, ops: seq<Op>, key: SignedKey)
    returns (k: SignedKey)
    requires key !in Output(AfterOps(Start(config, disk), ops), Sign(key, true))
    ensures SameSlot(k, key) && k != key && Met(disk, ops, k)
  {
    var g := AfterOps(Start(config, disk), ops);
    RefusesIff(g, key);
    k :| k in Observe(g, key.height).signed && SameSlot(k, key) && k != key;
    RunMet(Start(config, disk), ops, iset k: SignedKey | Met(disk, ops, k));
  }

  /** A write that is lost before a restart is enough to sign twice. */
  lemma LostWriteForgets(h: Height, r: Round, a: Hash32, b: Hash32)
    requires a != b
    ensures var g := Start(GuardConfig(true, 0, 0), None);
            var ops := [Sign(ProposalKey(h, r, a), true), FileLost(None), Crash, Sign(ProposalKey(h, r, b), true)];
            !ConflictFree(Released(g, ops))
  {
    var g := Start(GuardConfig(true, 0, 0), None);
    var pa, pb := ProposalKey(h, r, a), ProposalKey(h, r, b);
    var ops := [Sign(pa, true), FileLost(None), Crash, Sign(pb, true)];
    assert pa in Output(g, ops[0]);
    var g1 := Step(g, ops[0]);
    var g2 := Step(g1, ops[1]);
    var g3 := Step(g2, Crash);
    assert g3.signed == {};
    assert pb in Output(g3, ops[3]);
    assert ops[1..][1..] == ops[2..] && ops[2..][1..] == [ops[3]] && ops[1..][0] == ops[1] && ops[2..][0] == ops[2];
    assert Released(g1, ops[1..]) == Output(g1, ops[1]) + Released(g2, ops[2..]);
    assert Released(g2, ops[2..]) == Output(g2, ops[2]) + Released(g3, [ops[3]]);
    assert pb in Released(g3, [ops[3]]);
    assert Conflicting(pa, pb);
  }

  /** The capacity limit drops the first key of the set, and a proposal sorts before every
      vote: a guard filled by votes forgets a proposal as it records it. */
  lemma EvictionForgets(vote: SignedKey, h: Height, r: Round, a: Hash32, b: Hash32)
    requires vote.VoteKey? && a != b && h <= vote.height
    ensures var g := Start(GuardConfig(true, 1, 0), Some({vote}));
            !ConflictFree(Released(g, [Sign(ProposalKey(h, r, a), true), Sign(ProposalKey(h, r, b), true)]))
  {
    var g := Start(GuardConfig(true, 1, 0), Some({vote}));
    var pa, pb := ProposalKey(h, r, a), ProposalKey(h, r, b);
    var ops := [Sign(pa, true), Sign(pb, true)];
    assert Greatest({vote}) == vote;
    assert Observe(g, h) == g && Allowed(g.signed, pa);
    var both := g.signed + {pa};
    assert both == {vote, pa} && |both| == 2;
    assert Least(both) == pa by {
      assert KeyLess(pa, vote);
    }
    assert both - {pa} == {vote};
    assert |{vote}| == 1;
    assert Evict(both, 1) == Evict({vote}, 1) == {vote};
    assert Step(g, ops[0]) == g;
    assert pa in Output(g, ops[0]) && pb in Output(g, ops[1]);
    assert ops[1..] == [ops[1]];
    assert Released(g, ops) == Output(g, ops[0]) + Released(g, ops[1..]);
    assert pb in Released(g, ops[1..]);
    assert Conflicting(pa, pb);
  }

  /** Pruning forgets old heights, so a signer that goes back to one can be made to sign twice. */
  lemma GoingBackForgets(r: Round, a: Hash32, b: Hash32, other: SignedKey)
    requires a != b && other.ProposalKey? && other.height == 7
    ensures var g := Start(GuardConfig(true, 0, 1), None);
            var ops := [Sign(ProposalKey(5, r, a), true), Sign(other, true), Sign(ProposalKey(5, r, b), true)];
            !ConflictFree(Released(g, ops))
  {
    var g := Start(GuardConfig(true, 0, 1), None);
    var pa, pb := ProposalKey(5, r, a), ProposalKey(5, r, b);
    var ops := [Sign(pa, true), Sign(other, true), Sign(pb, true)];
    var g1 := Step(g, ops[0]);
    assert g1.signed == {pa} && g1.highest == 5 && pa in Output(g, ops[0]);
    var g2 := Step(g1, ops[1]);
    assert Observe(g1, 7).signed == {};
    assert g2.signed == {other} && g2.highest == 7;
    assert pb in Output(g2, ops[2]);
    assert ops[1..][1..] == [ops[2]] && ops[1..][0] == ops[1];
    assert Released(g, ops) == Output(g, ops[0]) + (Output(g1, ops[1]) + Released(g2, [ops[2]]));
    assert Conflicting(pa, pb);
  }

  /** Without persistence a restart forgets everything. */
  lemma UnpersistedForgets(h: Height, r: Round, a: Hash32, b: Hash32)
    requires a != b
    ensures var g := Start(GuardConfig(false, 0, 0), None);
            !ConflictFree(Released(g, [Sign(ProposalKey(h, r, a), true), Crash, Sign(ProposalKey(h, r, b), true)]))
  {
    var g := Start(GuardConfig(false, 0, 0), None);
    var pa, pb := ProposalKey(h, r, a), ProposalKey(h, r, b);
    var ops := [Sign(pa, true), Crash, Sign(pb, true)];
    assert pa in Output(g, ops[0]);
    var g1 := Step(g, ops[0]);
    var g2 := Step(g1, Crash);
    assert g2.signed == {};
    assert pb in Output(g2, ops[2]);
    assert ops[1..][1..] == [ops[2]] && ops[1..][0] == ops[1];
    assert Released(g, ops) == Output(g, ops[0]) + (Output(g1, ops[1]) + Released(g2, [ops[2]]));
    assert Conflicting(pa, pb);
  }
}
