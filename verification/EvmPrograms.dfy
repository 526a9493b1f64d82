/** Whole programs: what a run of them does, for every frame and database. */
module EvmPrograms {
  import opened Common
  import opened Messages
  import opened EvmState
  import opened EvmFrame
  import opened U256
  import opened EvmArith
  import opened EvmLaws
  import opened EvmNested
  import opened EvmRun
  import opened EvmTransact

  // ---------------------------------------------------------------------------
  // Single steps
  // ---------------------------------------------------------------------------

  /** PUSH1. */
  lemma PushRuns(env: Env, f: Frame, db: Db, v: byte, g: Frame)
    requires f.Active() && f.code[f.pc] == 0x60 && f.pc + 1 < |f.code| && f.code[f.pc + 1] == v
    requires |f.stack| < env.maxStack && f.gas >= 3
    requires g == f.(pc := f.pc + 2, stack := f.stack + [v], gas := f.gas - 3)
    ensures Run(env, f, db) == Run(env, g, db)
  {
    var fetched := f.(pc := f.pc + 1);
    assert BeVal([v]) == v by { assert [v][1..] == []; }
    PushLaw(env, fetched, db, 1, [v], v);
    RunNext(env, f, db, g, db);
  }

  lemma JumpRuns(env: Env, f: Frame, db: Db, rest: seq<Word>, cond: Word, dest: nat, g: Frame)
    requires f.Active() && f.code[f.pc] == 0x57 && f.stack == rest + [cond, dest] && f.gas >= 10
    requires dest < U64_LIMIT && IsJumpDest(f.code, dest)
    requires g == f.(pc := if cond != 0 then dest + 1 else f.pc + 1, stack := rest, gas := f.gas - 10)
    ensures Run(env, f, db) == Run(env, g, db)
  {
    if cond != 0 {
      JumpTaken(env, f.(pc := f.pc + 1), db, rest, cond, dest, g);
    } else {
      JumpPassed(env, f.(pc := f.pc + 1), db, rest, dest, g);
    }
    RunNext(env, f, db, g, db);
  }

  lemma JumpTaken(env: Env, f: Frame, db: Db, rest: seq<Word>, cond: Word, dest: nat, g: Frame)
    requires f.pc > 0 && f.stack == rest + [cond, dest] && f.gas >= 10 && dest < U64_LIMIT && IsJumpDest(f.code, dest)
    requires cond != 0 && g == f.(pc := dest + 1, stack := rest, gas := f.gas - 10)
    ensures Execute(env, f, db, 0x57) == Next(g, db)
  {
    assert dest % U64_LIMIT == dest;
    JumpiLaw(env, f, db, rest, cond, dest);
  }

  lemma JumpPassed(env: Env, f: Frame, db: Db, rest: seq<Word>, dest: Word, g: Frame)
    requires f.pc > 0 && f.stack == rest + [0, dest] && f.gas >= 10
    requires g == f.(stack := rest, gas := f.gas - 10)
    ensures Execute(env, f, db, 0x57) == Next(g, db)
  {
    JumpiLaw(env, f, db, rest, 0, dest);
  }

  // ---------------------------------------------------------------------------
  // A conditional jump
  // ---------------------------------------------------------------------------

  /** A block that is jumped over if `c` is not zero. */
  function Skip(pre: seq<byte>, c: byte, d: byte, block: seq<byte>, after: seq<byte>): seq<byte>
  {
    pre + [0x60, c, 0x60, d, 0x57] + block + [0x5b] + after
  }

  lemma SkipAt(pre: seq<byte>, c: byte, d: byte, block: seq<byte>, after: seq<byte>, code: seq<byte>)
    requires code == Skip(pre, c, d, block, after) && d == |pre| + 5 + |block|
    ensures var p := |pre|;
            && p + 5 < |code| && code[p] == 0x60 && code[p + 1] == c && code[p + 2] == 0x60 && code[p + 3] == d
            && code[p + 4] == 0x57 && IsJumpDest(code, d)
            && code[p + 5..p + 5 + |block|] == block && code[d + 1..] == after
  {
  }

  /** With a condition other than zero the run goes on with what follows the block, and with zero it
      goes on with the block. */
  lemma SkipRuns(env: Env, f: Frame, db: Db, pre: seq<byte>, c: byte, d: byte, block: seq<byte>, after: seq<byte>)
    requires f.code == Skip(pre, c, d, block, after) && d == |pre| + 5 + |block| && f.pc == |pre|
    requires !f.stopped && !f.reverted && |f.stack| + 2 <= env.maxStack && f.gas >= 16
    ensures f.code[d + 1..] == after && f.code[|pre| + 5..|pre| + 5 + |block|] == block
    ensures c != 0 ==> Run(env, f, db) == Run(env, f.(pc := d + 1, gas := f.gas - 16), db)
    ensures c == 0 ==> Run(env, f, db) == Run(env, f.(pc := |pre| + 5, gas := f.gas - 16), db)
  {
    SkipAt(pre, c, d, block, after, f.code);
    var f1 := f.(pc := f.pc + 2, stack := f.stack + [c], gas := f.gas - 3);
    PushRuns(env, f, db, c, f1);
    var f2 := f.(pc := f.pc + 4, stack := f.stack + [c, d], gas := f.gas - 6);
    assert f1.stack + [d] == f2.stack;
    PushRuns(env, f1, db, d, f2);
    JumpRuns(env, f2, db, f.stack, c, d, f.(pc := if c != 0 then d + 1 else f.pc + 5, gas := f.gas - 16));
  }

  // ---------------------------------------------------------------------------
  // A program that stores its context
  // ---------------------------------------------------------------------------

  /** A word on the stack, stored in slot `slot`. */
  lemma StoreRuns(env: Env, f: Frame, db: Db, w: Word, slot: byte, g: Frame)
    requires f.Active() && f.pc + 2 < |f.code| && f.stack == [w] && f.gas >= 103 && env.maxStack >= 2 && !f.isStatic
    requires f.code[f.pc] == 0x60 && f.code[f.pc + 1] == slot && f.code[f.pc + 2] == 0x55
    requires g == f.(pc := f.pc + 3, stack := [], gas := f.gas - 103, refund := g.refund)
    requires g.refund == f.refund + if GetStorage(db, f.address, slot) == 0 && w != 0 then 4800 else 0
    ensures Run(env, f, db) == Run(env, g, SetStorage(db, f.address, slot, w))
  {
    var f1 := f.(pc := f.pc + 2, stack := [w, slot], gas := f.gas - 3);
    assert f.stack + [slot] == f1.stack;
    PushRuns(env, f, db, slot, f1);
    SstoreRuns(env, f1, db, w, slot, g);
  }

  lemma SstoreRuns(env: Env, f: Frame, db: Db, w: Word, slot: Word, g: Frame)
    requires f.Active() && f.code[f.pc] == 0x55 && f.stack == [w, slot] && f.gas >= 100 && !f.isStatic
    requires g == f.(pc := f.pc + 1, stack := [], gas := f.gas - 100, refund := g.refund)
    requires g.refund == f.refund + if GetStorage(db, f.address, slot) == 0 && w != 0 then 4800 else 0
    ensures Run(env, f, db) == Run(env, g, SetStorage(db, f.address, slot, w))
  {
    assert [w, slot] == [] + [w, slot];
    SstoreLaw(env, f.(pc := f.pc + 1), db, [], w, slot);
    RunNext(env, f, db, g, SetStorage(db, f.address, slot, w));
  }

  /** A word of the context, stored in slot `slot`. */
  lemma StoreContextRuns(env: Env, f: Frame, db: Db, op: byte, w: Word, slot: byte, g: Frame)
    requires f.Active() && f.pc + 3 < |f.code| && f.stack == [] && f.gas >= 105 && env.maxStack >= 2 && !f.isStatic
    requires f.code[f.pc] == op && f.code[f.pc + 1] == 0x60 && f.code[f.pc + 2] == slot && f.code[f.pc + 3] == 0x55
    requires IsContext(f.(pc := f.pc + 1), db, op, w, 2)
    requires g == f.(pc := f.pc + 4, gas := f.gas - 105, refund := g.refund)
    requires g.refund == f.refund + if GetStorage(db, f.address, slot) == 0 && w != 0 then 4800 else 0
    ensures Run(env, f, db) == Run(env, g, SetStorage(db, f.address, slot, w))
  {
    var f1 := f.(pc := f.pc + 1, stack := [w], gas := f.gas - 2);
    assert [] + [w] == [w];
    ContextLaw(env, f.(pc := f.pc + 1), db, op, w, 2);
    RunNext(env, f, db, f1, db);
    StoreRuns(env, f1, db, w, slot, g);
  }

  /** The first 32 bytes of the calldata, with zeros behind its end. */
  predicate FirstWord(data: seq<byte>, bytes: seq<byte>)
  {
    |bytes| == 32 && forall i :: 0 <= i < 32 ==> bytes[i] == if i < |data| then data[i] else 0
  }

  /** PUSH1 0, CALLDATALOAD, stored in slot `slot`. */
  lemma StoreDataRuns(env: Env, f: Frame, db: Db, bytes: seq<byte>, w: Word, slot: byte, g: Frame)
    requires f.Active() && f.pc + 5 < |f.code| && f.stack == [] && f.gas >= 109 && env.maxStack >= 2 && !f.isStatic
    requires f.code[f.pc] == 0x60 && f.code[f.pc + 1] == 0 && f.code[f.pc + 2] == 0x35
    requires f.code[f.pc + 3] == 0x60 && f.code[f.pc + 4] == slot && f.code[f.pc + 5] == 0x55
    requires FirstWord(f.calldata, bytes) && w == BeVal(bytes)
    requires g == f.(pc := f.pc + 6, gas := f.gas - 109, refund := g.refund)
    requires g.refund == f.refund + if GetStorage(db, f.address, slot) == 0 && w != 0 then 4800 else 0
    ensures Run(env, f, db) == Run(env, g, SetStorage(db, f.address, slot, w))
  {
    var f1 := f.(pc := f.pc + 2, stack := [0], gas := f.gas - 3);
    assert f.stack + [0] == [0];
    PushRuns(env, f, db, 0, f1);
    var f2 := f.(pc := f.pc + 3, stack := [w], gas := f.gas - 6);
    LoadRuns(env, f1, db, bytes, w, f2);
    StoreRuns(env, f2, db, w, slot, g);
  }

  lemma LoadRuns(env: Env, f: Frame, db: Db, bytes: seq<byte>, w: Word, g: Frame)
    requires f.Active() && f.code[f.pc] == 0x35 && f.stack == [0] && f.gas >= 3 && env.maxStack >= 1
    requires FirstWord(f.calldata, bytes) && w == BeVal(bytes)
    requires g == f.(pc := f.pc + 1, stack := [w], gas := f.gas - 3)
    ensures Run(env, f, db) == Run(env, g, db)
  {
    assert [0] == [] + [0] && [] + [w] == [w];
    CalldataLaw(env, f.(pc := f.pc + 1), db, [], 0, bytes);
    RunNext(env, f, db, g, db);
  }

  /** CALLER, ADDRESS, CALLVALUE and CALLDATALOAD(0), stored in the slots 0 to 3. */
  predicate StoresContext(code: seq<byte>)
  {
    code == [0x33, 0x60, 0, 0x55, 0x30, 0x60, 1, 0x55, 0x34, 0x60, 2, 0x55, 0x60, 0, 0x35, 0x60, 3, 0x55, 0x00]
  }

  /** `op`, stored in slot `slot`, is at place `p`. */
  predicate StoresAt(code: seq<byte>, p: nat, op: byte, slot: byte)
  {
    p + 4 < |code| && code[p] == op && code[p + 1] == 0x60 && code[p + 2] == slot && code[p + 3] == 0x55
  }

  predicate StoresDataAt(code: seq<byte>, p: nat, slot: byte)
  {
    && p + 6 < |code| && code[p] == 0x60 && code[p + 1] == 0 && code[p + 2] == 0x35
    && code[p + 3] == 0x60 && code[p + 4] == slot && code[p + 5] == 0x55
  }

  lemma ContextParts(code: seq<byte>)
    requires StoresContext(code)
    ensures StoresAt(code, 0, 0x33, 0) && StoresAt(code, 4, 0x30, 1) && StoresAt(code, 8, 0x34, 2)
    ensures StoresDataAt(code, 12, 3) && |code| == 19 && code[18] == 0x00
  {
  }

  /** Those words in those slots, with every other slot and account as before. */
  ghost predicate Stored(db: Db, db': Db, a: Addr, words: seq<Word>)
    requires |words| <= 256
  {
    && (forall k :: 0 <= k < |words| ==> GetStorage(db', a, k) == words[k])
    && (forall b, slot: Word :: (b == a ==> slot >= |words|) ==> GetStorage(db', b, slot) == GetStorage(db, b, slot))
    && (forall b :: WithoutStorage(Look(db', b)) == WithoutStorage(Look(db, b)))
  }

  lemma StoresNext(db: Db, db': Db, a: Addr, words: seq<Word>, w: Word)
    requires |words| < 256 && Stored(db, db', a, words) && !db'.isStatic
    ensures Stored(db, SetStorage(db', a, |words|, w), a, words + [w])
    ensures !SetStorage(db', a, |words|, w).isStatic
  {
    var next := SetStorage(db', a, |words|, w);
    forall b: Addr, slot: Word
      ensures GetStorage(next, b, slot) == if a == b && slot == |words| then w else GetStorage(db', b, slot)
      ensures WithoutStorage(Look(next, b)) == WithoutStorage(Look(db', b))
    {
      StorageRoundTrip(db', a, |words|, w, b, slot);
    }
  }

  /** How much an SSTORE adds to the refund. */
  function Earned(db: Db, a: Addr, slot: Word, w: Word): nat
  {
    if GetStorage(db, a, slot) == 0 && w != 0 then 4800 else 0
  }

  lemma StopRuns(env: Env, f: Frame, db: Db)
    requires f.Active() && f.code[f.pc] == 0x00
    ensures Run(env, f, db) == RunResult(Finished, f.(pc := f.pc + 1, stopped := true), db, 0)
  {
    var g := f.(pc := f.pc + 1, stopped := true);
    StopLaw(env, f.(pc := f.pc + 1), db);
    RunNext(env, f, db, g, db);
  }

  /** A frame between two of the parts. */
  predicate Between(env: Env, f: Frame, p: nat, gas: nat)
  {
    && f.pc == p && !f.stopped && !f.reverted && f.stack == [] && !f.isStatic
    && f.gas >= gas && env.maxStack >= 2
  }

  lemma PartRuns(env: Env, f: Frame, db: Db, p: nat, op: byte, slot: byte, w: Word, gas: nat) returns (g: Frame)
    requires StoresAt(f.code, p, op, slot) && Between(env, f, p, gas + 105) && IsContext(f.(pc := p + 1), db, op, w, 2)
    ensures Run(env, f, db) == Run(env, g, SetStorage(db, f.address, slot, w)) && Between(env, g, p + 4, gas)
    ensures g == f.(pc := p + 4, gas := f.gas - 105, refund := g.refund)
  {
    g := f.(pc := p + 4, gas := f.gas - 105, refund := f.refund + Earned(db, f.address, slot, w));
    StoreContextRuns(env, f, db, op, w, slot, g);
  }

  lemma DataRuns(env: Env, f: Frame, db: Db, p: nat, slot: byte, bytes: seq<byte>, w: Word, gas: nat)
    returns (g: Frame)
    requires StoresDataAt(f.code, p, slot) && Between(env, f, p, gas + 109)
    requires FirstWord(f.calldata, bytes) && w == BeVal(bytes)
    ensures Run(env, f, db) == Run(env, g, SetStorage(db, f.address, slot, w)) && Between(env, g, p + 6, gas)
    ensures g == f.(pc := p + 6, gas := f.gas - 109, refund := g.refund)
  {
    g := f.(pc := p + 6, gas := f.gas - 109, refund := f.refund + Earned(db, f.address, slot, w));
    StoreDataRuns(env, f, db, bytes, w, slot, g);
  }

  /** The frame has moved on, and otherwise only its gas and its refund differ. */
  predicate Moved(f: Frame, g: Frame, p: nat, gas: nat)
  {
    f.gas >= gas && g == f.(pc := p, gas := f.gas - gas, refund := g.refund)
  }

  /** The first half: CALLER and ADDRESS. */
  lemma ContextFirst(env: Env, f: Frame, db: Db, x: Word, y: Word, db1: Db, db2: Db) returns (g: Frame)
    requires StoresAt(f.code, 0, 0x33, 0) && StoresAt(f.code, 4, 0x30, 1) && Between(env, f, 0, 424)
    requires x == f.caller % WORD_LIMIT && y == f.address % WORD_LIMIT
    requires db1 == SetStorage(db, f.address, 0, x) && db2 == SetStorage(db1, f.address, 1, y)
    ensures Run(env, f, db) == Run(env, g, db2) && Between(env, g, 8, 214) && Moved(f, g, 8, 210)
  {
    var f1 := PartRuns(env, f, db, 0, 0x33, 0, x, 319);
    g := PartRuns(env, f1, db1, 4, 0x30, 1, y, 214);
  }

  /** The second half: CALLVALUE and the first word of the calldata. */
  lemma ContextSecond(env: Env, f: Frame, db: Db, bytes: seq<byte>, w: Word, db1: Db, db2: Db) returns (g: Frame)
    requires StoresAt(f.code, 8, 0x34, 2) && StoresDataAt(f.code, 12, 3) && Between(env, f, 8, 214)
    requires FirstWord(f.calldata, bytes) && w == BeVal(bytes)
    requires db1 == SetStorage(db, f.address, 2, f.value) && db2 == SetStorage(db1, f.address, 3, w)
    ensures Run(env, f, db) == Run(env, g, db2) && Between(env, g, 18, 0) && Moved(f, g, 18, 214)
  {
    var f1 := PartRuns(env, f, db, 8, 0x34, 2, f.value, 109);
    g := DataRuns(env, f1, db1, 12, 3, bytes, w, 0);
  }

  lemma StoresTwo(db: Db, db': Db, a: Addr, words: seq<Word>, x: Word, y: Word, db1: Db, db2: Db, all: seq<Word>)
    requires |words| < 255 && Stored(db, db', a, words) && !db'.isStatic && all == words + [x, y]
    requires db1 == SetStorage(db', a, |words|, x) && db2 == SetStorage(db1, a, |words| + 1, y)
    ensures Stored(db, db2, a, all) && !db2.isStatic
  {
    StoresNext(db, db', a, words, x);
    StoresNext(db, db1, a, words + [x], y);
    assert words + [x] + [y] == words + [x, y];
  }

  lemma StoresFour(db: Db, a: Addr, x: Word, y: Word, v: Word, w: Word, db1: Db, db2: Db, db3: Db, db4: Db)
    requires !db.isStatic && db1 == SetStorage(db, a, 0, x) && db2 == SetStorage(db1, a, 1, y)
    requires db3 == SetStorage(db2, a, 2, v) && db4 == SetStorage(db3, a, 3, w)
    ensures Stored(db, db4, a, [x, y, v, w])
  {
    NothingStored(db, a);
    StoresTwo(db, db, a, [], x, y, db1, db2, [x, y]);
    StoresTwo(db, db2, a, [x, y], v, w, db3, db4, [x, y, v, w]);
  }

  lemma NothingStored(db: Db, a: Addr)
    ensures Stored(db, db, a, [])
  {
  }

  /** The whole program. */
  lemma ContextRuns(env: Env, f: Frame, db: Db, bytes: seq<byte>, x: Word, y: Word, w: Word)
    returns (end: Frame, db': Db)
    requires StoresContext(f.code) && Between(env, f, 0, 424) && !db.isStatic
    requires FirstWord(f.calldata, bytes) && w == BeVal(bytes)
    requires x == f.caller % WORD_LIMIT && y == f.address % WORD_LIMIT
    ensures Run(env, f, db) == RunResult(Finished, end, db', 0) && end.gas == f.gas - 424 && end.logs == f.logs
    ensures Stored(db, db', f.address, [x, y, f.value, w])
  {
    ContextParts(f.code);
    var a := f.address;
    var db1 := SetStorage(db, a, 0, x);
    var db2 := SetStorage(db1, a, 1, y);
    var g := ContextFirst(env, f, db, x, y, db1, db2);
    var db3 := SetStorage(db2, a, 2, f.value);
    db' := SetStorage(db3, a, 3, w);
    var h := ContextSecond(env, g, db2, bytes, w, db3, db');
    StopRuns(env, h, db');
    end := h.(pc := h.pc + 1, stopped := true);
    StoresFour(db, a, x, y, f.value, w, db1, db2, db3, db');
  }

  // ---------------------------------------------------------------------------
  // A transaction that calls it
  // ---------------------------------------------------------------------------

  /** The sender can pay, and there is the gas for the calldata and for the program. */
  predicate Runs(cfg: TxConfig, db: Db, tx: Tx, gas: nat)
  {
    && Look(db, tx.from).balance >= tx.value && Look(db, tx.from).nonce + 1 < U64_LIMIT
    && tx.gasLimit >= Intrinsic(cfg, tx) + gas
  }

  /** What a committed call leaves in storage, with the nonce of the sender raised. */
  ghost predicate Left(db: Db, db': Db, from: Addr, a: Addr, words: seq<Word>)
    requires |words| <= 256
  {
    && (forall k :: 0 <= k < |words| ==> GetStorage(db', a, k) == words[k])
    && forall b :: Look(db', b).balance == Look(db, b).balance && Look(db', b).code == Look(db, b).code
                   && Look(db', b).nonce == Look(db, b).nonce + if b == from then 1 else 0
  }

  /** The call succeeds, and its context is in the storage of the contract. */
  ghost predicate KeepsContext(env: Env, cfg: TxConfig, db: Db, tx: Tx, w: Word)
    requires tx.to.Some?
  {
    var (db', r) := Transact(env, cfg, db, tx);
    && r.Executed? && r.success && r.gasUsed == 424 && r.creates == 0 && r.logs == []
    && Left(db, db', tx.from, tx.to.value, [tx.from % WORD_LIMIT, tx.to.value % WORD_LIMIT, tx.value, w])
  }

  /** The sender, the contract, the value and the first word of the calldata reach the code that is called. */
  lemma CallSeesContext(env: Env, cfg: TxConfig, db: Db, tx: Tx, bytes: seq<byte>, w: Word)
    requires tx.to.Some? && StoresContext(Look(db, tx.to.value).code) && env.maxStack >= 2 && !db.isStatic
    requires Runs(cfg, db, tx, 424) && FirstWord(tx.calldata, bytes) && w == BeVal(bytes)
    ensures KeepsContext(env, cfg, db, tx, w)
  {
    var words := [tx.from % WORD_LIMIT, tx.to.value % WORD_LIMIT, tx.value, w];
    var ready := Snapshot(Charged(db, tx.from));
    var end, db1 := ContextTx(env, cfg, db, tx, ready, bytes, w, words);
    StoredCommits(db, tx.from, ready, db1, tx.to.value, words);
    ContextKept(env, cfg, db, tx, w, words, Commit(db1), end.refund, end.output);
  }

  lemma ContextTx(env: Env, cfg: TxConfig, db: Db, tx: Tx, ready: Db, bytes: seq<byte>, w: Word, words: seq<Word>)
    returns (end: Frame, db1: Db)
    requires tx.to.Some? && StoresContext(Look(db, tx.to.value).code) && env.maxStack >= 2 && !db.isStatic
    requires Runs(cfg, db, tx, 424) && FirstWord(tx.calldata, bytes) && w == BeVal(bytes)
    requires ready == Snapshot(Charged(db, tx.from))
    requires words == [tx.from % WORD_LIMIT, tx.to.value % WORD_LIMIT, tx.value, w]
    ensures Transact(env, cfg, db, tx) == (Commit(db1), Executed(true, 424, end.refund, end.output, [], 0))
    ensures Stored(ready, db1, tx.to.value, words)
  {
    end, db1 := ContextTxRun(env, cfg, db, tx, ready, bytes, w, words);
    CallSettles(env, cfg, db, tx, RunResult(Finished, end, db1, 0), 424);
  }

  lemma ContextTxRun(env: Env, cfg: TxConfig, db: Db, tx: Tx, ready: Db, bytes: seq<byte>, w: Word, words: seq<Word>)
    returns (end: Frame, db1: Db)
    requires tx.to.Some? && StoresContext(Look(db, tx.to.value).code) && env.maxStack >= 2 && !db.isStatic
    requires Runs(cfg, db, tx, 424) && FirstWord(tx.calldata, bytes) && w == BeVal(bytes)
    requires ready == Snapshot(Charged(db, tx.from))
    requires words == [tx.from % WORD_LIMIT, tx.to.value % WORD_LIMIT, tx.value, w]
    ensures TxRun(env, cfg, db, tx) == RunResult(Finished, end, db1, 0) && end.logs == []
    ensures Intrinsic(cfg, tx) + 424 + end.gas == tx.gasLimit && Stored(ready, db1, tx.to.value, words)
  {
    var f := CallFrame(ready, tx, tx.gasLimit - Intrinsic(cfg, tx));
    end, db1 := ContextCalled(env, cfg, db, tx, ready, f, bytes, w, words);
    TxRunIs(env, cfg, db, tx, ready, f);
  }

  lemma ContextCalled(env: Env, cfg: TxConfig, db: Db, tx: Tx, ready: Db, f: Frame, bytes: seq<byte>, w: Word,
                      words: seq<Word>) returns (end: Frame, db1: Db)
    requires tx.to.Some? && StoresContext(Look(db, tx.to.value).code) && env.maxStack >= 2 && !db.isStatic
    requires Runs(cfg, db, tx, 424) && FirstWord(tx.calldata, bytes) && w == BeVal(bytes)
    requires ready == Snapshot(Charged(db, tx.from)) && f == CallFrame(ready, tx, tx.gasLimit - Intrinsic(cfg, tx))
    requires words == [tx.from % WORD_LIMIT, tx.to.value % WORD_LIMIT, tx.value, w]
    ensures Run(env, f, ready) == RunResult(Finished, end, db1, 0) && end.gas == f.gas - 424 && end.logs == []
    ensures Stored(ready, db1, tx.to.value, words)
  {
    ChargedCode(db, tx.from, tx.to.value);
    end, db1 := ContextRuns(env, f, ready, bytes, words[0], words[1], w);
  }

  lemma ContextKept(env: Env, cfg: TxConfig, db: Db, tx: Tx, w: Word, words: seq<Word>, db': Db, refund: nat,
                    output: seq<byte>)
    requires tx.to.Some? && words == [tx.from % WORD_LIMIT, tx.to.value % WORD_LIMIT, tx.value, w]
    requires Transact(env, cfg, db, tx) == (db', Executed(true, 424, refund, output, [], 0))
    requires Left(db, db', tx.from, tx.to.value, words)
    ensures KeepsContext(env, cfg, db, tx, w)
  {
  }

  lemma StoredCommits(db: Db, from: Addr, ready: Db, db1: Db, a: Addr, words: seq<Word>)
    requires |words| <= 256 && !db.isStatic && Look(db, from).nonce + 1 < U64_LIMIT
    requires ready == Snapshot(Charged(db, from)) && Stored(ready, db1, a, words)
    ensures Left(db, Commit(db1), from, a, words)
  {
    CommitReads(db1);
    forall b: Addr ensures Look(ready, b) == Look(Charged(db, from), b)
      ensures WithoutStorage(Look(db1, b)) == WithoutStorage(Look(ready, b))
    {
    }
  }

  lemma CallSettles(env: Env, cfg: TxConfig, db: Db, tx: Tx, r: RunResult, used: nat)
    requires tx.to.Some? && Runs(cfg, db, tx, used) && TxRun(env, cfg, db, tx) == r && r.exit == Finished
    requires Intrinsic(cfg, tx) + used + r.frame.gas == tx.gasLimit
    ensures Transact(env, cfg, db, tx)
         == (Commit(r.db), Executed(true, used, r.frame.refund, r.frame.output, r.frame.logs, r.creates))
  {
    TransactCalls(env, cfg, db, tx, r, used + r.frame.gas);
  }

  lemma TransactCalls(env: Env, cfg: TxConfig, db: Db, tx: Tx, r: RunResult, gas: nat)
    requires tx.to.Some? && Runs(cfg, db, tx, 0) && TxRun(env, cfg, db, tx) == r
    requires gas == tx.gasLimit - Intrinsic(cfg, tx)
    ensures Transact(env, cfg, db, tx) == AfterCallTx(db, r, gas)
  {
  }

  // ---------------------------------------------------------------------------
  // Any transaction
  // ---------------------------------------------------------------------------

  /** The account with one nonce more. */
  function Raised(acc: Account): Account
    requires acc.nonce + 1 < U64_LIMIT
  {
    acc.(nonce := acc.nonce + 1)
  }

  /** A call runs the code of its target, for the sender, with the value, the calldata and the gas that is
      left; what it did is kept if it finished and rolled back otherwise. */
  lemma CallTxLaw(env: Env, cfg: TxConfig, db: Db, tx: Tx, ready: Db, f: Frame, r: RunResult)
    requires tx.to.Some? && Runs(cfg, db, tx, 0)
    requires ready == Snapshot(SetAccount(db, tx.from, Raised(Look(db, tx.from))))
    requires Fresh(f, Look(db, tx.to.value).code, tx.from, tx.to.value, tx.value, tx.calldata,
                   tx.gasLimit - Intrinsic(cfg, tx))
    requires r == Run(env, f, ready)
    ensures r.frame.gas <= f.gas
    ensures Transact(env, cfg, db, tx)
         == if r.exit == Aborted then (db, Crashed)
            else (if r.exit == Finished then Commit(r.db) else Revert(r.db),
                  Executed(r.exit == Finished, f.gas - r.frame.gas, r.frame.refund, r.frame.output, r.frame.logs,
                           r.creates))
  {
    FreshCall(db, tx, ready, f, f.gas);
    TxRunIs(env, cfg, db, tx, ready, f);
    TransactCalls(env, cfg, db, tx, r, f.gas);
    CallSettled(db, r, f.gas);
  }

  lemma FreshCall(db: Db, tx: Tx, ready: Db, f: Frame, gas: nat)
    requires tx.to.Some? && Look(db, tx.from).nonce + 1 < U64_LIMIT
    requires ready == Snapshot(SetAccount(db, tx.from, Raised(Look(db, tx.from))))
    requires Fresh(f, Look(db, tx.to.value).code, tx.from, tx.to.value, tx.value, tx.calldata, gas)
    ensures f == CallFrame(ready, tx, gas) && ready == Snapshot(Charged(db, tx.from))
  {
    ChargedCode(db, tx.from, tx.to.value);
  }

  lemma CallSettled(db: Db, r: RunResult, gas: nat)
    requires r.frame.gas <= gas
    ensures AfterCallTx(db, r, gas)
         == if r.exit == Aborted then (db, Crashed)
            else (if r.exit == Finished then Commit(r.db) else Revert(r.db),
                  Executed(r.exit == Finished, gas - r.frame.gas, r.frame.refund, r.frame.output, r.frame.logs,
                           r.creates))
  {
  }

  /** What a creation leaves: the new contract, if the init code returned one, and one nonce more. */
  ghost predicate Deployed(db: Db, db': Db, tx: Tx, addr: Addr, code: seq<byte>)
    requires Look(db, tx.from).nonce + 1 < U64_LIMIT
  {
    forall b :: Look(db', b) == if b == addr && code != [] then Account(tx.value, 0, code, map[])
                                else if b == tx.from then Raised(Look(db, b)) else Look(db, b)
  }

  /** A creation runs its calldata, on an empty database, for the address made of the sender and its nonce. */
  lemma CreateTxLaw(env: Env, cfg: TxConfig, db: Db, tx: Tx, addr: Addr, f: Frame, r: RunResult)
    requires tx.to.None? && Runs(cfg, db, tx, 0) && !db.isStatic
    requires addr == env.createAddr(tx.from, Look(db, tx.from).nonce)
    requires Fresh(f, tx.calldata, tx.from, addr, tx.value, [], tx.gasLimit - Intrinsic(cfg, tx))
    requires r == Run(env, f, EMPTY_DB)
    ensures r.frame.gas <= f.gas
    ensures r.exit == Aborted ==> Transact(env, cfg, db, tx) == (db, Crashed)
    ensures r.exit != Aborted ==>
              && Transact(env, cfg, db, tx).1
                 == Executed(r.exit == Finished, f.gas - r.frame.gas, r.frame.refund, ToBe(addr, 20), r.frame.logs, 0)
              && Deployed(db, Transact(env, cfg, db, tx).0, tx, addr, if r.exit == Finished then r.frame.output else [])
  {
    assert f == CreateFrame(env, db, tx, f.gas);
    TxRunCreates(env, cfg, db, tx, f);
    TransactCreates(env, cfg, db, tx, addr, f, r);
    if r.exit != Aborted {
      CreationLeaves(db, tx, addr, r, f.gas);
    }
  }

  lemma TransactCreates(env: Env, cfg: TxConfig, db: Db, tx: Tx, addr: Addr, f: Frame, r: RunResult)
    requires tx.to.None? && Runs(cfg, db, tx, 0) && f == CreateFrame(env, db, tx, tx.gasLimit - Intrinsic(cfg, tx))
    requires addr == f.address && r == TxRun(env, cfg, db, tx)
    ensures Transact(env, cfg, db, tx) == AfterCreateTx(db, tx, addr, r, f.gas)
  {
  }

  lemma TxRunCreates(env: Env, cfg: TxConfig, db: Db, tx: Tx, f: Frame)
    requires tx.to.None? && Runs(cfg, db, tx, 0) && f == CreateFrame(env, db, tx, tx.gasLimit - Intrinsic(cfg, tx))
    ensures TxRun(env, cfg, db, tx) == Run(env, f, EMPTY_DB)
  {
  }

  lemma CreationLeaves(db: Db, tx: Tx, addr: Addr, r: RunResult, gas: nat)
    requires r.frame.gas <= gas && Look(db, tx.from).nonce + 1 < U64_LIMIT && !db.isStatic && r.exit != Aborted
    ensures Deployed(db, AfterCreateTx(db, tx, addr, r, gas).0, tx, addr,
                     if r.exit == Finished then r.frame.output else [])
  {
    var ready := Snapshot(Charged(db, tx.from));
    var deployed := SetAccount(ready, addr, Account(tx.value, 0, r.frame.output, map[]));
    assert forall b :: Look(ready, b) == Look(Charged(db, tx.from), b);
    if r.exit == Finished {
      CommitReads(if r.frame.output != [] then deployed else ready);
    } else {
      RevertUndoes(Charged(db, tx.from), ready);
    }
  }

  lemma CommitReads(db: Db)
    ensures forall b :: Look(Commit(db), b) == Look(db, b)
  {
    forall b: Addr ensures Look(Commit(db), b) == Look(db, b) {
      CommitTransparent(db, b);
    }
  }

  /** Why a transaction does not run: it buys too little gas, its sender is too poor, or the nonce is used up. */
  lemma RefusedTxLaw(env: Env, cfg: TxConfig, db: Db, tx: Tx)
    requires !Runs(cfg, db, tx, 0)
    ensures Transact(env, cfg, db, tx)
         == (db, if tx.gasLimit < Intrinsic(cfg, tx) then Rejected(OutOfGas(tx.gasLimit, Intrinsic(cfg, tx)))
                 else if Look(db, tx.from).balance < tx.value
                 then Rejected(PoorSender(tx.value, Look(db, tx.from).balance))
                 else Crashed)
  {
  }

  /** The gas of the calldata: one price for zeros, another for every other byte. */
  lemma IntrinsicIs(cfg: TxConfig, tx: Tx)
    ensures var zeros := multiset(tx.calldata)[0];
            zeros <= |tx.calldata| &&
            Intrinsic(cfg, tx)
            == cfg.intrinsicGas + zeros * cfg.gasPerZeroByte + (|tx.calldata| - zeros) * cfg.gasPerNonzeroByte
  {
    CalldataGasIs(cfg, tx.calldata);
  }

  lemma {:induction false} CalldataGasIs(cfg: TxConfig, data: seq<byte>)
    ensures var zeros := multiset(data)[0];
            zeros <= |data| &&
            CalldataGas(cfg, data) == zeros * cfg.gasPerZeroByte + (|data| - zeros) * cfg.gasPerNonzeroByte
  {
    if data != [] {
      CalldataGasIs(cfg, data[1..]);
      assert data == [data[0]] + data[1..];
      assert multiset(data) == multiset{data[0]} + multiset(data[1..]);
      var zeros := multiset(data[1..])[0];
      OneMore(zeros, cfg.gasPerZeroByte);
      OneMore(|data| - 1 - zeros, cfg.gasPerNonzeroByte);
    }
  }

  lemma OneMore(n: nat, price: nat)
    ensures (n + 1) * price == n * price + price
  {
  }
}
