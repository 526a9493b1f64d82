/** The state database of the virtual machine (src/blockchain/revm_port.rs): uncommitted accounts
    over committed ones over account files. */
module EvmState {
  import opened Common
  import opened Power

  type Addr = nat
  const WORD_LIMIT: nat := 0x1_0000_0000_0000_0000_0000_0000_0000_0000_0000_0000_0000_0000_0000_0000_0000_0000
  const U128_LIMIT: nat := 0x1_0000_0000_0000_0000_0000_0000_0000_0000

  type Word = w: nat | w < WORD_LIMIT
  type U128 = n: nat | n < U128_LIMIT
  type U64 = n: nat | n < U64_LIMIT

  datatype Account = Account(balance: U128, nonce: U64, code: seq<byte>, storage: map<Word, Word>)

  const DEFAULT_ACCOUNT := Account(0, 0, [], map[])

  type Accounts = map<Addr, Account>

  /** `Panicked` is the overflow check of the balance arithmetic. */
  datatype Transferred = Moved(db: Db) | Insufficient(need: nat, have: nat) | Panicked

  // ---------------------------------------------------------------------------
  // Account files
  // ---------------------------------------------------------------------------

  function Save(acc: Account): (r: seq<byte>)
    ensures |r| == 32 + |acc.code|
  {
    ToLe(acc.balance, 16) + ToLe(acc.nonce, 8) + Zeros(8) + acc.code
  }

  function Load(data: seq<byte>): (r: Option<Account>)
  {
    if |data| < 32 then None
    else
      FileWidths();
      Some(Account(FromLe(data[0..16]), FromLe(data[16..24]), data[32..], map[]))
  }

  lemma FileWidths()
    ensures Pow256(8) == U64_LIMIT && Pow256(16) == U128_LIMIT
  {
    WidthValues();
    Pow256Add(8, 8);
  }

  function WithoutStorage(acc: Account): Account { acc.(storage := map[]) }

  /** An account file keeps everything but the storage. */
  lemma SaveLoad(acc: Account)
    ensures Load(Save(acc)) == Some(WithoutStorage(acc))
  {
    FileWidths();
    var data := Save(acc);
    LeRoundTrip(acc.balance, 16);
    LeRoundTrip(acc.nonce, 8);
    assert data[0..16] == ToLe(acc.balance, 16);
    assert data[16..24] == ToLe(acc.nonce, 8);
    assert data[32..] == acc.code;
  }

  // ---------------------------------------------------------------------------
  // The database
  // ---------------------------------------------------------------------------

  datatype Db = Db(accounts: Accounts, dirty: Accounts, files: Option<map<Addr, seq<byte>>>,
                   snapshots: seq<Accounts>, isStatic: bool)

  const EMPTY_DB := Db(map[], map[], None, [], false)

  function FromFile(db: Db, a: Addr): Option<Account>
  {
    if db.files.Some? && a in db.files.value then Load(db.files.value[a]) else None
  }

  /** What every read of an account returns. */
  function Look(db: Db, a: Addr): Account
  {
    if a in db.dirty then db.dirty[a]
    else if a in db.accounts then db.accounts[a]
    else match FromFile(db, a) case Some(acc) => acc case None => DEFAULT_ACCOUNT
  }

  function SetAccount(db: Db, a: Addr, acc: Account): (r: Db)
    ensures forall b :: Look(r, b) == if b == a && !db.isStatic then acc else Look(db, b)
  {
    if db.isStatic then db else db.(dirty := db.dirty[a := acc])
  }

  function GetStorage(db: Db, a: Addr, slot: Word): Word
  {
    var s := Look(db, a).storage;
    if slot in s then s[slot] else 0
  }

  function SetStorage(db: Db, a: Addr, slot: Word, value: Word): (r: Db)
  {
    var acc := Look(db, a);
    SetAccount(db, a, acc.(storage := if value == 0 then acc.storage - {slot} else acc.storage[slot := value]))
  }

  /** A stored word is read back, and no other word or account changes. */
  lemma StorageRoundTrip(db: Db, a: Addr, slot: Word, value: Word, b: Addr, other: Word)
    requires !db.isStatic
    ensures GetStorage(SetStorage(db, a, slot, value), b, other)
         == if a == b && slot == other then value else GetStorage(db, b, other)
    ensures Look(SetStorage(db, a, slot, value), b).(storage := map[]) == Look(db, b).(storage := map[])
  {
  }

  function Snapshot(db: Db): Db { db.(snapshots := db.snapshots + [db.dirty]) }

  function Revert(db: Db): Db
  {
    if db.snapshots == [] then db
    else db.(dirty := db.snapshots[|db.snapshots| - 1], snapshots := db.snapshots[..|db.snapshots| - 1])
  }

  function Saved(dirty: Accounts): map<Addr, seq<byte>> { map a | a in dirty :: Save(dirty[a]) }

  function Commit(db: Db): Db
  {
    Db(db.accounts + db.dirty, map[],
       match db.files case None => None case Some(files) => Some(files + Saved(db.dirty)), [], db.isStatic)
  }

  /** Committing never changes what a read returns. */
  lemma CommitTransparent(db: Db, a: Addr)
    ensures Look(Commit(db), a) == Look(db, a)
  {
  }

  /** Between a snapshot and its revert, writes leave no trace. */
  lemma RevertUndoes(before: Db, after: Db)
    requires after.accounts == before.accounts && after.files == before.files
    requires after.snapshots == Snapshot(before).snapshots && after.isStatic == before.isStatic
    ensures Revert(after) == before
  {
  }

  function Debited(db: Db, from: Addr, value: U128): Db
    requires value <= Look(db, from).balance
  {
    SetAccount(db, from, Look(db, from).(balance := Look(db, from).balance - value))
  }

  function Credited(db: Db, to: Addr, value: U128): Db
    requires Look(db, to).balance + value < U128_LIMIT
  {
    SetAccount(db, to, Look(db, to).(balance := Look(db, to).balance + value))
  }

  function Transfer(db: Db, from: Addr, to: Addr, value: U128): (r: Transferred)
  {
    if value == 0 then Moved(db)
    else if Look(db, from).balance < value then Insufficient(value, Look(db, from).balance)
    else
      var paid := Debited(db, from, value);
      if Look(paid, to).balance + value >= U128_LIMIT then Panicked else Moved(Credited(paid, to, value))
  }

  /** What a transfer changes: two balances, or nothing when an account pays itself. */
  lemma TransferEffect(db: Db, from: Addr, to: Addr, value: U128, a: Addr)
    requires Transfer(db, from, to, value).Moved? && !db.isStatic
    ensures var db' := Transfer(db, from, to, value).db;
            && WithoutBalance(Look(db', a)) == WithoutBalance(Look(db, a))
            && Look(db', a).balance as int
               == Look(db, a).balance + (if a == to then value else 0) - (if a == from then value else 0)
  {
  }

  /** A transfer happens exactly when there is nothing to move, or the sender has the value and the receiver's
      balance does not overflow; a sender that has less is told so. */
  lemma TransferIff(db: Db, from: Addr, to: Addr, value: U128)
    requires !db.isStatic
    ensures Transfer(db, from, to, value).Moved?
            <==> value == 0 || (Look(db, from).balance >= value
                                && (to == from || Look(db, to).balance + value < U128_LIMIT))
    ensures Transfer(db, from, to, value).Insufficient? <==> Look(db, from).balance < value
    ensures Look(db, from).balance < value ==>
              Transfer(db, from, to, value) == Insufficient(value, Look(db, from).balance)
  {
  }

  function WithoutBalance(acc: Account): Account { acc.(balance := 0) }

  ghost function Balances(db: Db): Addr -> nat { (a: Addr) => Look(db, a).balance }

  /** Every transfer keeps the sum of the balances over any accounts that include both parties. */
  lemma TransferConserves(db: Db, from: Addr, to: Addr, value: U128, all: set<Addr>)
    requires Transfer(db, from, to, value).Moved? && from in all && to in all
    ensures Sum(all, Balances(Transfer(db, from, to, value).db)) == Sum(all, Balances(db))
  {
    var db' := Transfer(db, from, to, value).db;
    if db.isStatic || value == 0 {
      assert db' == db;
    } else {
      forall a | a in all
        ensures Balances(db')(a) as int
             == Balances(db)(a) + (if a == to then value else 0) - (if a == from then value else 0)
      {
        TransferEffect(db, from, to, value, a);
      }
      SumMoved(all, Balances(db), Balances(db'), from, to, value);
    }
  }

  lemma SumMoved(all: set<Addr>, v: Addr -> nat, w: Addr -> nat, from: Addr, to: Addr, value: nat)
    requires from in all && to in all
    requires forall a :: a in all ==>
               w(a) as int == v(a) + (if a == to then value else 0) - (if a == from then value else 0)
    ensures Sum(all, w) == Sum(all, v)
  {
    SumSplit(all, v, from);
    SumSplit(all, w, from);
    if from == to {
      SumCongruent(all - {from}, v, w);
    } else {
      SumSplit(all - {from}, v, to);
      SumSplit(all - {from}, w, to);
      SumCongruent(all - {from} - {to}, v, w);
    }
  }

  // ---------------------------------------------------------------------------
  // No balance from nothing
  // ---------------------------------------------------------------------------

  ghost function Known(db: Db): set<Addr> { db.dirty.Keys + db.accounts.Keys }

  ghost function Total(all: set<Addr>, db: Db): nat { Sum(all, Balances(db)) }

  /** Over any accounts that include all that `db'` knows, the balances did not grow. */
  ghost predicate NoMint(db: Db, db': Db)
  {
    Known(db) <= Known(db') && forall all :: Known(db') <= all ==> Total(all, db') <= Total(all, db)
  }

  lemma NoMintTrans(db: Db, db': Db, db'': Db)
    requires NoMint(db, db') && NoMint(db', db'')
    ensures NoMint(db, db'')
  {
  }

  lemma SetAccountNoMint(db: Db, a: Addr, acc: Account)
    requires acc.balance <= Look(db, a).balance
    ensures NoMint(db, SetAccount(db, a, acc))
  {
    var db' := SetAccount(db, a, acc);
    forall all | Known(db') <= all ensures Total(all, db') <= Total(all, db) {
      SumBelow(all, Balances(db'), Balances(db));
    }
  }

  lemma CommitNoMint(db: Db)
    ensures NoMint(db, Commit(db))
  {
    forall all | Known(Commit(db)) <= all ensures Total(all, Commit(db)) <= Total(all, db) {
      forall a | a in all ensures Balances(Commit(db))(a) == Balances(db)(a) {
        CommitTransparent(db, a);
      }
      SumBelow(all, Balances(Commit(db)), Balances(db));
    }
  }

  lemma TransferNoMint(db: Db, from: Addr, to: Addr, value: U128)
    requires Transfer(db, from, to, value).Moved?
    ensures NoMint(db, Transfer(db, from, to, value).db)
  {
    var db' := Transfer(db, from, to, value).db;
    if !db.isStatic && value != 0 {
      assert from in Known(db') && to in Known(db');
      forall all | Known(db') <= all ensures Total(all, db') <= Total(all, db) {
        TransferConserves(db, from, to, value, all);
      }
    }
  }

  // ---------------------------------------------------------------------------
  // Restarting
  // ---------------------------------------------------------------------------

  /** Committed accounts agree with their files, but for the storage. */
  ghost predicate Synced(db: Db)
  {
    db.files.Some? ==> forall a :: a in db.accounts ==> FromFile(db, a) == Some(WithoutStorage(db.accounts[a]))
  }

  lemma CommitSynced(db: Db)
    requires Synced(db)
    ensures Synced(Commit(db))
  {
    var db' := Commit(db);
    if db.files.Some? {
      forall a | a in db'.accounts ensures FromFile(db', a) == Some(WithoutStorage(db'.accounts[a])) {
        if a in db.dirty {
          SaveLoad(db.dirty[a]);
        }
      }
    }
  }

  /** A database opened on the same account files. */
  function Reopened(db: Db): Db { EMPTY_DB.(files := db.files) }

  /** After a commit and a restart, balance, nonce and code of every account are as before. The
      storage is gone unless it was empty. */
  lemma RestartLosesStorage(db: Db, a: Addr)
    requires Synced(db) && db.files.Some?
    ensures Look(Reopened(Commit(db)), a) == WithoutStorage(Look(db, a))
    ensures Look(Reopened(Commit(db)), a) == Look(db, a) <==> Look(db, a).storage == map[]
  {
    CommitSynced(db);
    CommitTransparent(db, a);
    var db' := Commit(db);
    if a !in db'.accounts && FromFile(db', a).Some? {
      assert FromFile(db', a).value.storage == map[];
    }
  }

  // ---------------------------------------------------------------------------
  // The object
  // ---------------------------------------------------------------------------

  lemma NothingPut<K, V>(base: map<K, V>, over: map<K, V>)
    ensures base + (over - over.Keys) == base
  {
  }

  lemma PutOne<K, V>(base: map<K, V>, over: map<K, V>, todo: set<K>, k: K)
    requires k in todo && todo <= over.Keys
    ensures (base + (over - todo))[k := over[k]] == base + (over - (todo - {k}))
  {
  }

  /** Databases that no read tells apart. */
  ghost predicate SameReads(db: Db, db': Db)
  {
    db.isStatic == db'.isStatic && forall a :: Look(db', a) == Look(db, a)
  }

  lemma SameAfterCredit(db: Db, db': Db, to: Addr, value: U128)
    requires SameReads(db, db') && Look(db, to).balance + value < U128_LIMIT
    ensures SameReads(Credited(db, to, value), Credited(db', to, value))
  {
  }

  class EvmStateDb {
    var accounts: Accounts
    var dirty: Accounts
    var files: Option<map<Addr, seq<byte>>>
    var snapshots: seq<Accounts>
    var isStatic: bool

    function View(): Db
      reads this
    {
      Db(accounts, dirty, files, snapshots, isStatic)
    }

    constructor (files: Option<map<Addr, seq<byte>>>)
      ensures View() == EMPTY_DB.(files := files)
    {
      accounts, dirty, snapshots, isStatic := map[], map[], [], false;
      this.files := files;
    }

    /** Reading may fill the cache of committed accounts; no read can tell. */
    method GetAccount(a: Addr) returns (acc: Account)
      modifies `accounts
      ensures acc == old(Look(View(), a))
      ensures SameReads(old(View()), View())
      ensures old(Synced(View())) ==> Synced(View())
      ensures accounts == old(accounts) || (a !in old(accounts) && accounts == old(accounts)[a := acc])
    {
      if a in dirty {
        return dirty[a];
      }
      if a in accounts {
        return accounts[a];
      }
      if files.Some? && a in files.value {
        var loaded := Load(files.value[a]);
        if loaded.Some? {
          accounts := accounts[a := loaded.value];
          return loaded.value;
        }
      }
      return DEFAULT_ACCOUNT;
    }

    method DoSetAccount(a: Addr, acc: Account)
      modifies `dirty
      ensures View() == SetAccount(old(View()), a, acc)
    {
      if isStatic {
        return;
      }
      dirty := dirty[a := acc];
    }

    method DoSnapshot()
      modifies `snapshots
      ensures View() == Snapshot(old(View()))
    {
      snapshots := snapshots + [dirty];
    }

    method DoRevert()
      modifies this
      ensures View() == Revert(old(View()))
    {
      if |snapshots| > 0 {
        dirty := snapshots[|snapshots| - 1];
        snapshots := snapshots[..|snapshots| - 1];
      }
    }

    method DoCommit()
      modifies this
      ensures View() == Commit(old(View()))
    {
      accounts := PutAll(accounts, dirty);
      if files.Some? {
        var written := PutAll(files.value, Saved(dirty));
        files := Some(written);
      }
      dirty := map[];
      snapshots := [];
    }

    /** One insertion after another. */
    static method PutAll<V>(base: map<Addr, V>, over: map<Addr, V>) returns (r: map<Addr, V>)
      ensures r == base + over
    {
      r := base;
      var todo := over.Keys;
      NothingPut(base, over);
      while todo != {}
        invariant todo <= over.Keys && r == base + (over - todo)
        decreases |todo|
      {
        var a :| a in todo;
        PutOne(base, over, todo, a);
        r := r[a := over[a]];
        todo := todo - {a};
      }
      assert over - todo == over;
    }

    method Debit(from: Addr, value: U128) returns (have: nat)
      modifies `accounts, `dirty
      ensures have == old(Look(View(), from).balance)
      ensures have < value ==> SameReads(old(View()), View())
      ensures have >= value ==> SameReads(Debited(old(View()), from, value), View())
    {
      var sender := GetAccount(from);
      if sender.balance >= value {
        DoSetAccount(from, sender.(balance := sender.balance - value));
      }
      return sender.balance;
    }

    method Credit(to: Addr, value: U128) returns (ok: bool)
      modifies `accounts, `dirty
      ensures ok <==> old(Look(View(), to).balance) + value < U128_LIMIT
      ensures ok ==> SameReads(Credited(old(View()), to, value), View())
    {
      var receiver := GetAccount(to);
      ok := receiver.balance + value < U128_LIMIT;
      if ok {
        DoSetAccount(to, receiver.(balance := receiver.balance + value));
      }
    }

    method DoTransfer(from: Addr, to: Addr, value: U128) returns (r: Transferred)
      modifies `accounts, `dirty
      ensures r.Moved? <==> Transfer(old(View()), from, to, value).Moved?
      ensures r.Insufficient? ==> r == Transfer(old(View()), from, to, value)
      ensures r.Moved? ==> r.db == View() && SameReads(Transfer(old(View()), from, to, value).db, View())
    {
      if value == 0 {
        return Moved(View());
      }
      ghost var start := View();
      var have := Debit(from, value);
      if have < value {
        return Insufficient(value, have);
      }
      ghost var paid, mid := Debited(start, from, value), View();
      var ok := Credit(to, value);
      if !ok {
        return Panicked;
      }
      SameAfterCredit(paid, mid, to, value);
      return Moved(View());
    }
  }
}
