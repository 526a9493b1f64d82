/** Transactions: what a failed one leaves behind (src/blockchain/revm_port.rs). */
module EvmTransact {
  import opened Common
  import opened Messages
  import Power
  import opened EvmState
  import opened EvmFrame
  import opened EvmRun

  datatype TxConfig = TxConfig(intrinsicGas: nat, gasPerZeroByte: nat, gasPerNonzeroByte: nat)

  datatype Tx = Tx(from: Addr, to: Option<Addr>, value: U128, calldata: seq<byte>, gasLimit: nat)

  datatype TxError = OutOfGas(limit: nat, needed: nat) | PoorSender(need: nat, have: nat)

  /** `Rejected` transactions never ran; `Crashed` is a panic. */
  datatype TxOutcome =
    | Executed(success: bool, gasUsed: nat, refund: nat, output: seq<byte>, logs: seq<Log>, creates: nat)
    | Rejected(error: TxError)
    | Crashed

  function CalldataGas(cfg: TxConfig, calldata: seq<byte>): nat
  {
    if calldata == [] then 0
    else (if calldata[0] == 0 then cfg.gasPerZeroByte else cfg.gasPerNonzeroByte) + CalldataGas(cfg, calldata[1..])
  }

  method SumCalldataGas(cfg: TxConfig, calldata: seq<byte>) returns (sum: nat)
    ensures sum == CalldataGas(cfg, calldata)
  {
    sum := 0;
    var i := 0;
    assert calldata[0..] == calldata;
    while i < |calldata|
      invariant 0 <= i <= |calldata| && sum + CalldataGas(cfg, calldata[i..]) == CalldataGas(cfg, calldata)
    {
      assert calldata[i..][1..] == calldata[i + 1..];
      sum := sum + if calldata[i] == 0 then cfg.gasPerZeroByte else cfg.gasPerNonzeroByte;
      i := i + 1;
    }
  }

  function Intrinsic(cfg: TxConfig, tx: Tx): nat { cfg.intrinsicGas + CalldataGas(cfg, tx.calldata) }

  /** The database with the nonce of the sender raised, which even a failed transaction leaves. */
  function Charged(db: Db, from: Addr): Db
    requires Look(db, from).nonce + 1 < U64_LIMIT
  {
    SetAccount(db, from, Look(db, from).(nonce := Look(db, from).nonce + 1))
  }

  function CallFrame(db: Db, tx: Tx, gas: nat): Frame
    requires tx.to.Some?
  {
    NewFrame(Look(db, tx.to.value).code, tx.from, tx.to.value, tx.value, tx.calldata, gas)
  }

  function CreateFrame(env: Env, db: Db, tx: Tx, gas: nat): Frame
  {
    NewFrame(tx.calldata, tx.from, env.createAddr(tx.from, Look(db, tx.from).nonce), tx.value, [], gas)
  }

  function Settle(db: Db, success: bool): Db { if success then Commit(db) else Revert(db) }

  function Report(r: RunResult, gas: nat, output: seq<byte>, creates: nat): TxOutcome
    requires r.frame.gas <= gas
  {
    Executed(r.exit == Finished, gas - r.frame.gas, r.frame.refund, output, r.frame.logs, creates)
  }

  function Transact(env: Env, cfg: TxConfig, db: Db, tx: Tx): (Db, TxOutcome)
  {
    var intrinsic := Intrinsic(cfg, tx);
    var sender := Look(db, tx.from);
    if tx.gasLimit < intrinsic then (db, Rejected(OutOfGas(tx.gasLimit, intrinsic)))
    else if sender.balance < tx.value then (db, Rejected(PoorSender(tx.value, sender.balance)))
    else if sender.nonce + 1 >= U64_LIMIT then (db, Crashed)
    else
      var gas := tx.gasLimit - intrinsic;
      if tx.to.Some? then AfterCallTx(db, TxRun(env, cfg, db, tx), gas)
      else AfterCreateTx(db, tx, CreateFrame(env, db, tx, gas).address, TxRun(env, cfg, db, tx), gas)
  }

  /** The run of a transaction: a call runs on the database, a creation on an empty one. */
  function TxRun(env: Env, cfg: TxConfig, db: Db, tx: Tx): (r: RunResult)
    requires Intrinsic(cfg, tx) <= tx.gasLimit && Look(db, tx.from).nonce + 1 < U64_LIMIT
    ensures r.frame.gas <= tx.gasLimit - Intrinsic(cfg, tx)
    ensures tx.to.Some? ==>
              if r.creates == 0 then SameBelow(Snapshot(Charged(db, tx.from)), r.db) else r.db.snapshots == []
  {
    var gas := tx.gasLimit - Intrinsic(cfg, tx);
    if tx.to.Some? then CallRun(env, Snapshot(Charged(db, tx.from)), tx, gas)
    else Run(env, CreateFrame(env, db, tx, gas), EMPTY_DB)
  }

  function CallRun(env: Env, ready: Db, tx: Tx, gas: nat): (r: RunResult)
    requires tx.to.Some?
    ensures r.frame.gas <= gas
    ensures if r.creates == 0 then SameBelow(ready, r.db) else r.db.snapshots == []
    ensures NoMint(ready, r.db)
  {
    RunKeeps(env, CallFrame(ready, tx, gas), ready);
    Run(env, CallFrame(ready, tx, gas), ready)
  }

  lemma TxRunIs(env: Env, cfg: TxConfig, db: Db, tx: Tx, ready: Db, f: Frame)
    requires Intrinsic(cfg, tx) <= tx.gasLimit && Look(db, tx.from).nonce + 1 < U64_LIMIT && tx.to.Some?
    requires ready == Snapshot(Charged(db, tx.from)) && f == CallFrame(ready, tx, tx.gasLimit - Intrinsic(cfg, tx))
    ensures TxRun(env, cfg, db, tx) == Run(env, f, ready)
  {
    CallRunIs(env, ready, tx, tx.gasLimit - Intrinsic(cfg, tx), f);
  }

  lemma CallRunIs(env: Env, ready: Db, tx: Tx, gas: nat, f: Frame)
    requires tx.to.Some? && f == CallFrame(ready, tx, gas)
    ensures CallRun(env, ready, tx, gas) == Run(env, f, ready)
  {
  }

  function AfterCallTx(db: Db, r: RunResult, gas: nat): (Db, TxOutcome)
    requires r.frame.gas <= gas
  {
    if r.exit == Aborted then (db, Crashed)
    else (Settle(r.db, r.exit == Finished), Report(r, gas, r.frame.output, r.creates))
  }

  /** The answer of a creation is the 20 bytes of the new address. */
  function AddressBytes(addr: Addr): seq<byte> { ToBe(addr, 20) }

  function AfterCreateTx(db: Db, tx: Tx, addr: Addr, r: RunResult, gas: nat): (Db, TxOutcome)
    requires r.frame.gas <= gas && Look(db, tx.from).nonce + 1 < U64_LIMIT
  {
    if r.exit == Aborted then (db, Crashed)
    else
      var ready := Snapshot(Charged(db, tx.from));
      var deployed := if r.exit == Finished && r.frame.output != []
                      then SetAccount(ready, addr, Account(tx.value, 0, r.frame.output, map[])) else ready;
      (Settle(deployed, r.exit == Finished), Report(r, gas, AddressBytes(addr), 0))
  }

  // ---------------------------------------------------------------------------
  // Failed transactions
  // ---------------------------------------------------------------------------

  /** A failed transaction whose run deployed no contract leaves the database exactly as it was, but
      for the nonce of the sender. */
  lemma FailedWithoutDeploy(env: Env, cfg: TxConfig, db: Db, tx: Tx)
    requires Transact(env, cfg, db, tx).1.Executed? && !Transact(env, cfg, db, tx).1.success
    requires Transact(env, cfg, db, tx).1.creates == 0
    ensures Look(db, tx.from).nonce + 1 < U64_LIMIT
    ensures Transact(env, cfg, db, tx).0 == Charged(db, tx.from)
  {
    if tx.to.Some? {
      RevertUndoes(Charged(db, tx.from), TxRun(env, cfg, db, tx).db);
    } else {
      RevertUndoes(Charged(db, tx.from), Snapshot(Charged(db, tx.from)));
    }
  }

  /** The transaction creates a contract, or calls code that contains neither CREATE nor CREATE2. */
  predicate CallsNoCreate(db: Db, tx: Tx)
  {
    tx.to.Some? ==> NoCreate(Look(db, tx.to.value).code)
  }

  lemma CallDeploysNothing(env: Env, ready: Db, tx: Tx, gas: nat)
    requires tx.to.Some? && NoCreate(Look(ready, tx.to.value).code)
    ensures CallRun(env, ready, tx, gas).creates == 0
  {
    RunWithoutCreate(env, CallFrame(ready, tx, gas), ready);
  }

  lemma ChargedCode(db: Db, from: Addr, a: Addr)
    requires Look(db, from).nonce + 1 < U64_LIMIT
    ensures Look(Snapshot(Charged(db, from)), a).code == Look(db, a).code
  {
    assert Look(Snapshot(Charged(db, from)), a) == Look(Charged(db, from), a);
  }

  lemma RunDeploysNothing(env: Env, cfg: TxConfig, db: Db, tx: Tx)
    requires tx.to.Some? && NoCreate(Look(db, tx.to.value).code)
    requires Intrinsic(cfg, tx) <= tx.gasLimit && Look(db, tx.from).nonce + 1 < U64_LIMIT
    ensures TxRun(env, cfg, db, tx).creates == 0
  {
    ChargedCode(db, tx.from, tx.to.value);
    CallDeploysNothing(env, Snapshot(Charged(db, tx.from)), tx, tx.gasLimit - Intrinsic(cfg, tx));
  }

  lemma NothingDeployed(env: Env, cfg: TxConfig, db: Db, tx: Tx)
    requires CallsNoCreate(db, tx) && Transact(env, cfg, db, tx).1.Executed?
    ensures Transact(env, cfg, db, tx).1.creates == 0
  {
    if tx.to.Some? {
      RunDeploysNothing(env, cfg, db, tx);
    }
  }

  /** A failed transaction that calls such code leaves the database exactly as it was, but for the nonce
      of the sender. */
  lemma FailedRollsBack(env: Env, cfg: TxConfig, db: Db, tx: Tx)
    requires CallsNoCreate(db, tx)
    requires Transact(env, cfg, db, tx).1.Executed? && !Transact(env, cfg, db, tx).1.success
    ensures Look(db, tx.from).nonce + 1 < U64_LIMIT
    ensures Transact(env, cfg, db, tx).0 == Charged(db, tx.from)
  {
    NothingDeployed(env, cfg, db, tx);
    FailedWithoutDeploy(env, cfg, db, tx);
  }

  /** Seen through every read: all accounts are as before, with one nonce more. */
  lemma FailedObservably(env: Env, cfg: TxConfig, db: Db, tx: Tx, a: Addr)
    requires CallsNoCreate(db, tx) && !db.isStatic
    requires Transact(env, cfg, db, tx).1.Executed? && !Transact(env, cfg, db, tx).1.success
    ensures var acc := Look(Transact(env, cfg, db, tx).0, a);
            if a == tx.from then acc.nonce == Look(db, a).nonce + 1 && acc.(nonce := 0) == Look(db, a).(nonce := 0)
            else acc == Look(db, a)
  {
    FailedRollsBack(env, cfg, db, tx);
  }

  /** A contract that was deployed on the way commits everything done so far: the rollback of a
      failed transaction finds no snapshot and keeps all that the run did. */
  lemma FailedAfterCreate(env: Env, cfg: TxConfig, db: Db, tx: Tx)
    requires Transact(env, cfg, db, tx).1.Executed? && !Transact(env, cfg, db, tx).1.success
    requires Transact(env, cfg, db, tx).1.creates > 0
    ensures tx.to.Some? && Intrinsic(cfg, tx) <= tx.gasLimit && Look(db, tx.from).nonce + 1 < U64_LIMIT
    ensures Transact(env, cfg, db, tx).0 == TxRun(env, cfg, db, tx).db
  {
  }

  /** The gas used is never more than the gas bought, and a transaction that does not run
      changes nothing. */
  lemma GasWithinLimit(env: Env, cfg: TxConfig, db: Db, tx: Tx)
    ensures var (db', r) := Transact(env, cfg, db, tx);
            (r.Executed? ==> r.gasUsed + Intrinsic(cfg, tx) <= tx.gasLimit) && (!r.Executed? ==> db' == db)
  {
  }

  /** A finished transaction reads the same before and after its commit. */
  lemma SuccessCommits(env: Env, cfg: TxConfig, db: Db, tx: Tx, a: Addr)
    requires Transact(env, cfg, db, tx).1.Executed? && Transact(env, cfg, db, tx).1.success && tx.to.Some?
    ensures Intrinsic(cfg, tx) <= tx.gasLimit && Look(db, tx.from).nonce + 1 < U64_LIMIT
    ensures Look(Transact(env, cfg, db, tx).0, a) == Look(TxRun(env, cfg, db, tx).db, a)
  {
    CommitTransparent(TxRun(env, cfg, db, tx).db, a);
  }

  // ---------------------------------------------------------------------------
  // Balances
  // ---------------------------------------------------------------------------

  lemma ChargedNoMint(db: Db, from: Addr)
    requires Look(db, from).nonce + 1 < U64_LIMIT
    ensures NoMint(db, Charged(db, from)) && NoMint(db, Snapshot(Charged(db, from)))
  {
    SetAccountNoMint(db, from, Look(db, from).(nonce := Look(db, from).nonce + 1));
    SnapshotNoMint(Charged(db, from));
    NoMintTrans(db, Charged(db, from), Snapshot(Charged(db, from)));
  }

  lemma SnapshotNoMint(db: Db)
    ensures NoMint(db, Snapshot(db))
  {
    forall all | Known(Snapshot(db)) <= all ensures Total(all, Snapshot(db)) <= Total(all, db) {
      Power.SumCongruent(all, Balances(Snapshot(db)), Balances(db));
    }
  }

  /** A call transaction, whatever becomes of it, makes no balance from nothing. */
  lemma CallNeverMints(env: Env, cfg: TxConfig, db: Db, tx: Tx)
    requires tx.to.Some?
    ensures NoMint(db, Transact(env, cfg, db, tx).0)
  {
    if Transact(env, cfg, db, tx).1.Executed? {
      ChargedNoMint(db, tx.from);
      var ready := Snapshot(Charged(db, tx.from));
      var r := TxRun(env, cfg, db, tx);
      NoMintTrans(db, ready, r.db);
      if Transact(env, cfg, db, tx).1.success {
        CommitNoMint(r.db);
        NoMintTrans(db, r.db, Commit(r.db));
      } else if r.creates == 0 {
        FailedWithoutDeploy(env, cfg, db, tx);
      } else {
        FailedAfterCreate(env, cfg, db, tx);
      }
    }
  }

  /** A creation gives the new contract the value without taking it from the sender. */
  lemma CreationBalances(env: Env, cfg: TxConfig, db: Db, tx: Tx, a: Addr)
    requires tx.to.None? && Transact(env, cfg, db, tx).1.Executed? && !db.isStatic
    ensures Intrinsic(cfg, tx) <= tx.gasLimit && Look(db, tx.from).nonce + 1 < U64_LIMIT
    ensures var deployed := TxRun(env, cfg, db, tx).exit == Finished && TxRun(env, cfg, db, tx).frame.output != [];
            Look(Transact(env, cfg, db, tx).0, a).balance
            == if deployed && a == env.createAddr(tx.from, Look(db, tx.from).nonce) then tx.value
               else Look(db, a).balance
  {
    var gas := tx.gasLimit - Intrinsic(cfg, tx);
    CreationAfter(db, tx, CreateFrame(env, db, tx, gas).address, TxRun(env, cfg, db, tx), gas, a);
  }

  lemma CreationAfter(db: Db, tx: Tx, addr: Addr, r: RunResult, gas: nat, a: Addr)
    requires r.frame.gas <= gas && Look(db, tx.from).nonce + 1 < U64_LIMIT && !db.isStatic && r.exit != Aborted
    ensures Look(AfterCreateTx(db, tx, addr, r, gas).0, a).balance
         == if r.exit == Finished && r.frame.output != [] && a == addr then tx.value else Look(db, a).balance
  {
    var ready := Snapshot(Charged(db, tx.from));
    if r.exit == Finished {
      CommitTransparent(SetAccount(ready, addr, Account(tx.value, 0, r.frame.output, map[])), a);
      CommitTransparent(ready, a);
    } else {
      RevertUndoes(Charged(db, tx.from), ready);
    }
  }

  function AfterAll(env: Env, cfg: TxConfig, db: Db, txs: seq<Tx>): Db
    decreases |txs|
  {
    if txs == [] then db else AfterAll(env, cfg, Transact(env, cfg, db, txs[0]).0, txs[1..])
  }

  /** Nor does any sequence of calls. */
  lemma {:induction false} CallsNeverMint(env: Env, cfg: TxConfig, db: Db, txs: seq<Tx>)
    requires forall i :: 0 <= i < |txs| ==> txs[i].to.Some?
    ensures NoMint(db, AfterAll(env, cfg, db, txs))
    decreases |txs|
  {
    if txs != [] {
      var next := Transact(env, cfg, db, txs[0]).0;
      CallNeverMints(env, cfg, db, txs[0]);
      CallsNeverMint(env, cfg, next, txs[1..]);
      NoMintTrans(db, next, AfterAll(env, cfg, next, txs[1..]));
    }
  }

  /** The same, as the executor computes it. */
  method DoTransact(env: Env, cfg: TxConfig, db: Db, tx: Tx) returns (db': Db, r: TxOutcome)
    ensures (db', r) == Transact(env, cfg, db, tx)
  {
    var dataGas := SumCalldataGas(cfg, tx.calldata);
    var intrinsic := cfg.intrinsicGas + dataGas;
    if tx.gasLimit < intrinsic {
      return db, Rejected(OutOfGas(tx.gasLimit, intrinsic));
    }
    var gas := tx.gasLimit - intrinsic;
    var sender := Look(db, tx.from);
    if sender.balance < tx.value {
      return db, Rejected(PoorSender(tx.value, sender.balance));
    }
    if sender.nonce + 1 >= U64_LIMIT {
      return db, Crashed;
    }
    var run := DoRun(env, cfg, db, tx, gas);
    if tx.to.Some? {
      var after := AfterCallTx(db, run, gas);
      return after.0, after.1;
    } else {
      var after := AfterCreateTx(db, tx, CreateFrame(env, db, tx, gas).address, run, gas);
      return after.0, after.1;
    }
  }

  method DoRun(env: Env, cfg: TxConfig, db: Db, tx: Tx, gas: nat) returns (r: RunResult)
    requires tx.gasLimit == gas + Intrinsic(cfg, tx) && Look(db, tx.from).nonce + 1 < U64_LIMIT
    ensures r == TxRun(env, cfg, db, tx)
  {
    if tx.to.Some? {
      var ready := Snapshot(Charged(db, tx.from));
      r := RunVm(env, CallFrame(ready, tx, gas), ready);
    } else {
      r := RunVm(env, CreateFrame(env, db, tx, gas), EMPTY_DB);
    }
  }
}
