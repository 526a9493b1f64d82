/** Why the rollback of a failed transaction excludes contract creation: a program that deploys a
    contract and then fails leaves the contract behind. */
module EvmExample {
  import opened Common
  import opened EvmState
  import opened EvmFrame
  import opened EvmSteps
  import opened EvmRun
  import opened EvmTransact
  import opened EvmPrograms

  // ---------------------------------------------------------------------------
  // The steps of the program, on any frame
  // ---------------------------------------------------------------------------

  lemma DispatchCodeCopy(env: Env, f: Frame, db: Db)
    requires f.pc > 0
    ensures Execute(env, f, db, 0x39) == CopyOp(f, db, 0, f.code, 3)
  {
  }

  lemma DispatchHigh(env: Env, f: Frame, db: Db, op: byte)
    requires f.pc > 0 && op > 0xa4 && Plain(op).None?
    ensures Execute(env, f, db, op) == HighOp(env, f, db, op)
  {
  }

  lemma DispatchCreate(env: Env, f: Frame, db: Db)
    requires f.pc > 0
    ensures Execute(env, f, db, 0xf0) == CreateOp(env, f, db, 0xf0)
  {
    DispatchHigh(env, f, db, 0xf0);
  }

  lemma DispatchReturn(env: Env, f: Frame, db: Db)
    requires f.pc > 0
    ensures Execute(env, f, db, 0xf3) == EndOp(f, db, false)
  {
  }

  /** INVALID. */
  lemma RunInvalid(env: Env, f: Frame, db: Db)
    requires f.Active() && f.code[f.pc] == 0xfe
    ensures Run(env, f, db) == RunResult(Failed(InvalidOpcode(0xfe)), f.(pc := f.pc + 1), db, 0)
  {
    ExecuteOk(env, f.(pc := f.pc + 1), db, 0xfe);
  }

  /** Five bytes stored at the start of a fresh word. */
  lemma StoreFive(g: Frame, data: seq<byte>)
    requires g.memory == Zeros(32) && |data| == 5
    ensures Store(g, 0, data) == g.(memory := data + Zeros(27))
  {
    assert g.memory[5..] == Zeros(27);
  }

  lemma ExpandFive(h: Frame) returns (wide: Frame)
    requires h.memory == []
    ensures wide == h.(memory := Zeros(32)) && Expand(h, 0, 5) == Some(wide)
  {
    wide := h.(memory := Zeros(32));
    assert [] + Zeros(32) == Zeros(32);
  }

  /** A copy that lies within its source. */
  lemma CopyWithin(f: Frame, db: Db, source: seq<byte>, base: nat, src: nat, len: nat, g: Frame)
    requires Low64(Arg(f, 0)) == 0 && Low64(Arg(f, 1)) == src && Low64(Arg(f, 2)) == len
    requires 0 < len && src + len <= |source| && Expand(Pop(f, 3), 0, len) == Some(g) && len <= |g.memory|
    ensures CopyOp(f, db, 0, source, base)
         == Next(UseGas(Store(g, 0, source[src..src + len]), base + 3 * Words(len)), db)
  {
  }

  /** CODECOPY of five bytes to the start of an empty memory. */
  lemma CopyFive(f: Frame, db: Db, src: nat)
    requires f.memory == [] && f.gas >= 6 && src + 5 <= |f.code| && src < 256 && f.stack == [5, src, 0]
    ensures CopyOp(f, db, 0, f.code, 3)
         == Next(f.(stack := [], memory := f.code[src..src + 5] + Zeros(27), gas := f.gas - 6), db)
  {
    var h := Pop(f, 3);
    assert h == f.(stack := []);
    assert Arg(f, 0) == 0 && Arg(f, 1) == src && Arg(f, 2) == 5;
    var wide := ExpandFive(h);
    CopyWithin(f, db, f.code, 3, src, 5, wide);
    StoreFive(wide, f.code[src..src + 5]);
  }

  lemma RunCodeCopy(env: Env, f: Frame, db: Db, src: nat, g: Frame)
    requires f.Active() && f.code[f.pc] == 0x39 && f.memory == [] && f.gas >= 6
    requires src + 5 <= |f.code| && src < 256 && f.stack == [5, src, 0]
    requires g == f.(pc := f.pc + 1, stack := [], memory := f.code[src..src + 5] + Zeros(27), gas := f.gas - 6)
    ensures Run(env, f, db) == Run(env, g, db)
  {
    var fetched := f.(pc := f.pc + 1);
    CopyFive(fetched, db, src);
    DispatchCodeCopy(env, fetched, db);
    RunNext(env, f, db, g, db);
  }

  /** RETURN of one byte of an empty memory. */
  lemma ReturnOne(f: Frame, db: Db)
    requires f.memory == [] && f.stack == [1, 0] && !f.reverted
    ensures EndOp(f, db, false) == Next(f.(stack := [], memory := Zeros(32), output := [0], stopped := true), db)
  {
    var h := Pop(f, 2);
    assert h == f.(stack := []);
    assert Arg(f, 0) == 0 && Arg(f, 1) == 1;
    var wide := h.(memory := [] + Zeros(32));
    assert [] + Zeros(32) == Zeros(32);
    assert Expand(h, 0, 1) == Some(wide);
    assert wide.memory[0..1] == [0];
  }

  lemma RunReturn(env: Env, f: Frame, db: Db)
    requires f.Active() && f.code[f.pc] == 0xf3 && f.memory == [] && f.stack == [1, 0]
    ensures Run(env, f, db)
         == RunResult(Finished, f.(pc := f.pc + 1, stack := [], memory := Zeros(32), output := [0], stopped := true),
                      db, 0)
  {
    var g := f.(pc := f.pc + 1);
    ReturnOne(g, db);
    DispatchReturn(env, g, db);
    var end := g.(stack := [], memory := Zeros(32), output := [0], stopped := true);
    RunNext(env, f, db, end, db);
    RunEnded(env, end, db);
  }

  lemma RunEnded(env: Env, f: Frame, db: Db)
    requires f.stopped && !f.reverted
    ensures Run(env, f, db) == RunResult(Finished, f, db, 0)
  {
  }

  /** CREATE without value, of the five bytes at the start of memory. */
  lemma CreateFive(env: Env, f: Frame, db: Db)
    requires f.stack == [5, 0, 0] && |f.memory| == 32 && f.gas >= 32000 && !f.isStatic && !f.reverted
    ensures var gas := f.gas - 32000;
            var addr := env.createAddr(f.caller, Look(db, f.caller).nonce);
            Share(gas) <= gas &&
            CreateOp(env, f, db, 0xf0)
            == Enter(NewFrame(f.memory[0..5], f.caller, addr, 0, [], Share(gas)),
                     f.(stack := [], gas := gas - Share(gas)), db, AfterCreate(addr, 0))
  {
    ShareBelow(f.gas - 32000);
    var g := UseGas(f, 32000);
    var h := Pop(g, 3);
    assert h == f.(stack := [], gas := f.gas - 32000);
    assert Arg(f, 0) == 0 && Arg(f, 1) == 0 && Arg(f, 2) == 5;
    assert Region(h, 0, 5) == Some((h, f.memory[0..5]));
  }

  /** Three times PUSH1, on an empty stack. */
  lemma RunPush3(env: Env, f: Frame, db: Db, a: byte, b: byte, c: byte, f1: Frame, f2: Frame, f3: Frame)
    requires f.Active() && f.pc + 6 < |f.code| && f.stack == [] && env.maxStack >= 3 && f.gas >= 9
    requires f.code[f.pc] == 0x60 && f.code[f.pc + 1] == a && f.code[f.pc + 2] == 0x60 && f.code[f.pc + 3] == b
    requires f.code[f.pc + 4] == 0x60 && f.code[f.pc + 5] == c
    requires f1 == f.(pc := f.pc + 2, stack := [a], gas := f.gas - 3)
    requires f2 == f.(pc := f.pc + 4, stack := [a, b], gas := f.gas - 6)
    requires f3 == f.(pc := f.pc + 6, stack := [a, b, c], gas := f.gas - 9)
    ensures Run(env, f, db) == Run(env, f3, db)
  {
    assert f.stack + [a] == [a] && [a] + [b] == [a, b] && [a, b] + [c] == [a, b, c];
    PushRuns(env, f, db, a, f1);
    PushRuns(env, f1, db, b, f2);
    PushRuns(env, f2, db, c, f3);
  }

  lemma ResumeCreate(env: Env, g: Frame, db: Db, addr: Addr, end: Frame)
    requires end.output == [0] && end.logs == [] && |g.stack| < env.maxStack
    ensures Resume(env, g, db, AfterCreate(addr, 0), Finished, end)
         == Resumed(g.(gas := g.gas + end.gas, stack := g.stack + [WordOf(addr)]),
                    Commit(SetAccount(db, addr, Account(0, 0, [0], map[]))), true)
  {
    assert g.logs + end.logs == g.logs;
  }

  lemma ContinueCreate(env: Env, f: Frame, db: Db, sub: Frame, g: Frame, addr: Addr, end: Frame, g': Frame, db': Db)
    requires f.Active() && OpOk(env, f.(pc := f.pc + 1), db, Enter(sub, g, db, AfterCreate(addr, 0)))
    requires Run(env, sub, EMPTY_DB) == RunResult(Finished, end, EMPTY_DB, 0)
    requires Resume(env, g, db, AfterCreate(addr, 0), Finished, end) == Resumed(g', db', true)
    ensures Continue(env, f, db, Enter(sub, g, db, AfterCreate(addr, 0)))
         == Run(env, g', db').(creates := Run(env, g', db').creates + 1)
  {
  }

  // ---------------------------------------------------------------------------
  // The program
  // ---------------------------------------------------------------------------

  /** Returns one zero byte as the code of the new contract. */
  const INIT: seq<byte> := [0x60, 1, 0x60, 0, 0xf3]

  /** Copies INIT to memory, creates a contract with it, and fails. */
  const PROGRAM: seq<byte> := [0x60, 5, 0x60, 15, 0x60, 0, 0x39, 0x60, 5, 0x60, 0, 0x60, 0, 0xf0, 0xfe] + INIT

  lemma InitRuns(env: Env, f: Frame) returns (end: Frame)
    requires env.maxStack >= 3 && f == NewFrame(INIT, f.caller, f.address, 0, [], f.gas) && f.gas >= 6
    ensures Run(env, f, EMPTY_DB) == RunResult(Finished, end, EMPTY_DB, 0) && end.output == [0] && end.logs == []
  {
    var f1 := f.(pc := 2, stack := [] + [1], gas := f.gas - 3);
    PushRuns(env, f, EMPTY_DB, 1, f1);
    var f2 := f1.(pc := 4, stack := f1.stack + [0], gas := f1.gas - 3);
    PushRuns(env, f1, EMPTY_DB, 0, f2);
    assert f2.stack == [1, 0];
    RunReturn(env, f2, EMPTY_DB);
    end := f2.(pc := 5, stack := [], memory := Zeros(32), output := [0], stopped := true);
  }

  /** What the program has at which place. */
  predicate IsProgram(code: seq<byte>)
  {
    && |code| == 20 && code[6] == 0x39 && code[13] == 0xf0 && code[14] == 0xfe && code[15..20] == INIT
    && code[0] == 0x60 && code[1] == 5 && code[2] == 0x60 && code[3] == 15 && code[4] == 0x60 && code[5] == 0
    && code[7] == 0x60 && code[8] == 5 && code[9] == 0x60 && code[10] == 0 && code[11] == 0x60 && code[12] == 0
  }

  lemma CopyPart(env: Env, f: Frame, db: Db, g: Frame)
    requires env.maxStack >= 3 && IsProgram(f.code) && f.pc == 0 && f.Active() && f.stack == [] && f.memory == []
    requires f.gas >= 15 && g == f.(pc := 7, memory := f.code[15..20] + Zeros(27), gas := f.gas - 15)
    ensures Run(env, f, db) == Run(env, g, db)
  {
    var f3 := f.(pc := 6, stack := [5, 15, 0], gas := f.gas - 9);
    PushPart(env, f, db, f3);
    CopyLast(env, f3, db, g);
  }

  lemma CopyLast(env: Env, f: Frame, db: Db, g: Frame)
    requires IsProgram(f.code) && f.pc == 6 && f.Active() && f.stack == [5, 15, 0] && f.memory == [] && f.gas >= 6
    requires g == f.(pc := 7, stack := [], memory := f.code[15..20] + Zeros(27), gas := f.gas - 6)
    ensures Run(env, f, db) == Run(env, g, db)
  {
    RunCodeCopy(env, f, db, 15, g);
  }

  lemma PushPart(env: Env, f: Frame, db: Db, f3: Frame)
    requires env.maxStack >= 3 && IsProgram(f.code) && f.pc == 0 && f.Active() && f.stack == [] && f.gas >= 9
    requires f3 == f.(pc := 6, stack := [5, 15, 0], gas := f.gas - 9)
    ensures Run(env, f, db) == Run(env, f3, db)
  {
    var f1 := f.(pc := 2, stack := [5], gas := f.gas - 3);
    var f2 := f.(pc := 4, stack := [5, 15], gas := f.gas - 6);
    RunPush3(env, f, db, 5, 15, 0, f1, f2, f3);
  }

  /** The contract is deployed and committed; then the run fails. */
  lemma CreatePart(env: Env, f: Frame, db: Db) returns (end: Frame)
    requires env.maxStack >= 3 && IsProgram(f.code) && f.pc == 7 && f.Active() && f.stack == [] && !f.isStatic
    requires f.memory == f.code[15..20] + Zeros(27) && 39000 <= f.gas <= 1000000
    ensures var addr := env.createAddr(f.caller, Look(db, f.caller).nonce);
            Run(env, f, db) == RunResult(Failed(InvalidOpcode(0xfe)), end,
                                         Commit(SetAccount(db, addr, Account(0, 0, [0], map[]))), 1)
  {
    var f1 := f.(pc := 9, stack := [5], gas := f.gas - 3);
    var f2 := f.(pc := 11, stack := [5, 0], gas := f.gas - 6);
    var f3 := f.(pc := 13, stack := [5, 0, 0], gas := f.gas - 9);
    RunPush3(env, f, db, 5, 0, 0, f1, f2, f3);
    end := CreateStep(env, f3, db);
  }

  lemma CreateStep(env: Env, f: Frame, db: Db) returns (end: Frame)
    requires env.maxStack >= 3 && IsProgram(f.code) && f.pc == 13 && f.Active() && f.stack == [5, 0, 0] && !f.isStatic
    requires f.memory == f.code[15..20] + Zeros(27) && 38000 <= f.gas <= 1000000
    ensures var addr := env.createAddr(f.caller, Look(db, f.caller).nonce);
            Run(env, f, db) == RunResult(Failed(InvalidOpcode(0xfe)), end,
                                         Commit(SetAccount(db, addr, Account(0, 0, [0], map[]))), 1)
  {
    var sub, g, done := EnterInit(env, f, db);
    end := AfterEnter(env, f, db, sub, g, env.createAddr(f.caller, Look(db, f.caller).nonce), done);
  }

  lemma EnterInit(env: Env, f: Frame, db: Db) returns (sub: Frame, g: Frame, done: Frame)
    requires env.maxStack >= 3 && IsProgram(f.code) && f.pc == 13 && f.Active() && f.stack == [5, 0, 0] && !f.isStatic
    requires f.memory == f.code[15..20] + Zeros(27) && 38000 <= f.gas <= 1000000
    ensures var step := Enter(sub, g, db, AfterCreate(env.createAddr(f.caller, Look(db, f.caller).nonce), 0));
            OpOk(env, f.(pc := f.pc + 1), db, step) && Run(env, f, db) == Continue(env, f, db, step)
    ensures Run(env, sub, EMPTY_DB) == RunResult(Finished, done, EMPTY_DB, 0) && done.output == [0] && done.logs == []
    ensures |g.stack| < env.maxStack && g.Active() && g.code[g.pc] == 0xfe
  {
    var addr := env.createAddr(f.caller, Look(db, f.caller).nonce);
    var share := Share(f.gas - 32000);
    ShareEnough(f.gas - 32000);
    sub := NewFrame(INIT, f.caller, addr, 0, [], share);
    g := f.(pc := 14, stack := [], gas := f.gas - 32000 - share);
    CreateEnters(env, f, db, sub, g, addr);
    done := InitRuns(env, sub);
  }

  lemma ShareEnough(gas: nat)
    requires 6000 <= gas <= 1000000
    ensures 6 <= Share(gas) <= gas
  {
    ShareBelow(gas);
  }

  lemma AfterEnter(env: Env, f: Frame, db: Db, sub: Frame, g: Frame, addr: Addr, done: Frame) returns (end: Frame)
    requires f.Active() && OpOk(env, f.(pc := f.pc + 1), db, Enter(sub, g, db, AfterCreate(addr, 0)))
    requires Run(env, f, db) == Continue(env, f, db, Enter(sub, g, db, AfterCreate(addr, 0)))
    requires Run(env, sub, EMPTY_DB) == RunResult(Finished, done, EMPTY_DB, 0) && done.output == [0] && done.logs == []
    requires |g.stack| < env.maxStack && g.Active() && g.code[g.pc] == 0xfe
    ensures Run(env, f, db) == RunResult(Failed(InvalidOpcode(0xfe)), end,
                                         Commit(SetAccount(db, addr, Account(0, 0, [0], map[]))), 1)
  {
    var g' := g.(gas := g.gas + done.gas, stack := g.stack + [WordOf(addr)]);
    var db' := Commit(SetAccount(db, addr, Account(0, 0, [0], map[])));
    ResumeCreate(env, g, db, addr, done);
    ContinueCreate(env, f, db, sub, g, addr, done, g', db');
    RunInvalid(env, g', db');
    end := g'.(pc := g'.pc + 1);
  }

  lemma CreateEnters(env: Env, f: Frame, db: Db, sub: Frame, g: Frame, addr: Addr)
    requires IsProgram(f.code) && f.pc == 13 && f.Active() && f.stack == [5, 0, 0] && !f.isStatic
    requires f.memory == f.code[15..20] + Zeros(27) && f.gas >= 38000
    requires addr == env.createAddr(f.caller, Look(db, f.caller).nonce) && Share(f.gas - 32000) <= f.gas - 32000
    requires sub == NewFrame(INIT, f.caller, addr, 0, [], Share(f.gas - 32000))
    requires g == f.(pc := 14, stack := [], gas := f.gas - 32000 - Share(f.gas - 32000))
    ensures var step := Enter(sub, g, db, AfterCreate(addr, 0));
            OpOk(env, f.(pc := f.pc + 1), db, step) && Run(env, f, db) == Continue(env, f, db, step)
  {
    var fetched := f.(pc := 14);
    CreateFive(env, fetched, db);
    DispatchCreate(env, fetched, db);
    assert f.memory[0..5] == INIT;
    RunIs(env, f, db, Enter(sub, g, db, AfterCreate(addr, 0)));
  }

  lemma ProgramRuns(env: Env, f: Frame, db: Db) returns (end: Frame)
    requires env.maxStack >= 3 && IsProgram(f.code) && f == NewFrame(f.code, f.caller, f.address, 0, [], f.gas)
    requires 40000 <= f.gas <= 1000000
    ensures var addr := env.createAddr(f.caller, Look(db, f.caller).nonce);
            Run(env, f, db) == RunResult(Failed(InvalidOpcode(0xfe)), end,
                                         Commit(SetAccount(db, addr, Account(0, 0, [0], map[]))), 1)
  {
    var g := f.(pc := 7, memory := f.code[15..20] + Zeros(27), gas := f.gas - 15);
    CopyPart(env, f, db, g);
    end := CreatePart(env, g, db);
  }

  lemma ProgramIs()
    ensures IsProgram(PROGRAM)
  {
    assert PROGRAM[15..20] == INIT;
  }

  /** A call of the program, in whatever database. */
  ghost predicate CallsProgram(cfg: TxConfig, db: Db, tx: Tx)
  {
    && tx.to.Some? && tx.value == 0 && tx.calldata == [] && tx.gasLimit == Intrinsic(cfg, tx) + 100000
    && !db.isStatic && Look(db, tx.from).nonce + 1 < U64_LIMIT
    && IsProgram(Look(Charged(db, tx.from), tx.to.value).code)
  }

  lemma ReadyForProgram(cfg: TxConfig, db: Db, tx: Tx, ready: Db)
    requires CallsProgram(cfg, db, tx) && ready == Snapshot(Charged(db, tx.from))
    ensures Look(ready, tx.to.value) == Look(Charged(db, tx.from), tx.to.value)
    ensures Look(ready, tx.from).nonce == Look(db, tx.from).nonce + 1
  {
  }

  lemma ProgramTxRun(env: Env, cfg: TxConfig, db: Db, tx: Tx, ready: Db, f: Frame) returns (end: Frame)
    requires env.maxStack >= 3 && CallsProgram(cfg, db, tx)
    requires ready == Snapshot(Charged(db, tx.from)) && f == CallFrame(ready, tx, 100000)
    ensures var addr := env.createAddr(tx.from, Look(db, tx.from).nonce + 1);
            TxRun(env, cfg, db, tx)
            == RunResult(Failed(InvalidOpcode(0xfe)), end,
                         Commit(SetAccount(ready, addr, Account(0, 0, [0], map[]))), 1)
  {
    ReadyForProgram(cfg, db, tx, ready);
    TxRunIs(env, cfg, db, tx, ready, f);
    end := ProgramRuns(env, f, ready);
  }

  lemma CallFails(env: Env, cfg: TxConfig, db: Db, tx: Tx, r: RunResult)
    requires Intrinsic(cfg, tx) <= tx.gasLimit && Look(db, tx.from).nonce + 1 < U64_LIMIT
    requires tx.to.Some? && tx.value == 0
    requires TxRun(env, cfg, db, tx) == r && r.exit.Failed?
    ensures Transact(env, cfg, db, tx).0 == Revert(r.db)
    ensures var o := Transact(env, cfg, db, tx).1; o.Executed? && !o.success && o.creates == r.creates
  {
  }

  /** The transaction fails, and yet there is a new contract. */
  ghost predicate LeavesContract(env: Env, cfg: TxConfig, db: Db, tx: Tx)
  {
    var (db', r) := Transact(env, cfg, db, tx);
    && r.Executed? && !r.success && r.creates == 1
    && Look(db', env.createAddr(tx.from, Look(db, tx.from).nonce + 1)) == Account(0, 0, [0], map[])
  }

  lemma LostRollback(env: Env, cfg: TxConfig, db: Db, tx: Tx)
    requires env.maxStack >= 3 && CallsProgram(cfg, db, tx)
    ensures LeavesContract(env, cfg, db, tx)
  {
    var ready := Snapshot(Charged(db, tx.from));
    var end := ProgramTxRun(env, cfg, db, tx, ready, CallFrame(ready, tx, 100000));
    var addr := env.createAddr(tx.from, Look(db, tx.from).nonce + 1);
    var deployed := SetAccount(ready, addr, Account(0, 0, [0], map[]));
    CallFails(env, cfg, db, tx, RunResult(Failed(InvalidOpcode(0xfe)), end, Commit(deployed), 1));
    CommitTransparent(deployed, addr);
  }

  /** A database that holds the program, and a call of it. */
  lemma ProgramCalled(cfg: TxConfig, from: Addr, to: Addr) returns (db: Db, tx: Tx)
    ensures Look(db, to).code == PROGRAM && tx.from == from && tx.to == Some(to) && CallsProgram(cfg, db, tx)
  {
    ProgramIs();
    db := SetAccount(EMPTY_DB, to, Account(0, 0, PROGRAM, map[]));
    tx := Tx(from, Some(to), 0, [], 0);
    tx := tx.(gasLimit := Intrinsic(cfg, tx) + 100000);
    assert Look(Charged(db, from), to).code == PROGRAM;
  }

  /** So there is a call of the program that fails and leaves a contract behind. */
  lemma RollbackIsLost(env: Env, cfg: TxConfig, from: Addr, to: Addr) returns (db: Db, tx: Tx)
    requires env.maxStack >= 3
    ensures Look(db, to).code == PROGRAM && tx.from == from && tx.to == Some(to)
    ensures LeavesContract(env, cfg, db, tx)
  {
    db, tx := ProgramCalled(cfg, from, to);
    LostRollback(env, cfg, db, tx);
  }
}
