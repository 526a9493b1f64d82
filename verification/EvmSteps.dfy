/** What every opcode keeps, and what makes a run end. */
module EvmSteps {
  import opened Common
  import opened EvmState
  import opened EvmFrame
  import opened Messages

  ghost predicate HasCode(db: Db) { exists a :: Look(db, a).code != [] }

  lemma EmptyHasNoCode()
    ensures !HasCode(EMPTY_DB)
  {
  }

  /** The stack is within its depth, and memory is a whole number of words. */
  predicate FrameOk(env: Env, f: Frame) { |f.stack| <= env.maxStack && |f.memory| % 32 == 0 }

  /** Gas does not rise, and the bounds are kept. */
  ghost predicate Kept(env: Env, f: Frame, g: Frame)
  {
    g.code == f.code && g.gas <= f.gas && (FrameOk(env, f) ==> FrameOk(env, g))
  }

  /** Only uncommitted accounts changed, none of them gained code, and no balance came from nothing. */
  ghost predicate DbKept(db: Db, db': Db)
  {
    && db'.accounts == db.accounts && db'.files == db.files
    && db'.snapshots == db.snapshots && db'.isStatic == db.isStatic
    && NoMint(db, db')
    && forall a :: Look(db', a).code == [] || Look(db', a).code == Look(db, a).code
  }

  /** `f` is the frame after the opcode was fetched. */
  ghost predicate OpOk(env: Env, f: Frame, db: Db, r: StepResult)
  {
    match r
    case Next(g, db') => Kept(env, f, g) && DbKept(db, db') && (f.pc <= g.pc || g.gas < f.gas || g.reverted)
    case Fail(_, g, db') => Kept(env, f, g) && DbKept(db, db')
    case Crash => true
    case Enter(sub, g, db', pending) =>
      && Kept(env, f, g) && DbKept(db, db') && f.pc <= g.pc && EnterOk(env, f, db, sub, g, pending)
      && (pending.AfterCreate? ==> pending.value <= Look(db', pending.addr).balance || db'.isStatic)
  }

  /** A nested run starts with part of the gas: less than all of it, or nothing. With nothing
      it runs code of this database. */
  ghost predicate EnterOk(env: Env, f: Frame, db: Db, sub: Frame, g: Frame, pending: Pending)
  {
    && sub.gas + g.gas <= f.gas && FrameOk(env, sub)
    && (sub.gas < f.gas || (f.gas == 0 && (sub.code != [] ==> HasCode(db))))
    && (pending.AfterCreate? ==> sub.gas + g.gas < f.gas)
  }

  // ---------------------------------------------------------------------------
  // Building blocks
  // ---------------------------------------------------------------------------

  lemma ExpandKeeps(env: Env, f: Frame, off: nat, size: nat)
    requires Expand(f, off, size).Some?
    ensures var g := Expand(f, off, size).value;
            Kept(env, f, g) && g.stack == f.stack && g.pc == f.pc && g.gas == f.gas && g.reverted == f.reverted
  {
  }

  lemma TransferKeeps(db: Db, from: Addr, to: Addr, value: U128)
    requires Transfer(db, from, to, value).Moved?
    ensures DbKept(db, Transfer(db, from, to, value).db)
  {
    var db' := Transfer(db, from, to, value).db;
    TransferNoMint(db, from, to, value);
    forall a ensures Look(db', a).code == Look(db, a).code {
      if !db.isStatic {
        TransferEffect(db, from, to, value, a);
      }
    }
  }

  lemma KeptCode(db: Db, db': Db)
    requires DbKept(db, db') && HasCode(db')
    ensures HasCode(db)
  {
    var a :| Look(db', a).code != [];
    assert Look(db, a).code != [];
  }

  // ---------------------------------------------------------------------------
  // Every opcode
  // ---------------------------------------------------------------------------

  lemma PlainOk(env: Env, f: Frame, db: Db, op: byte, n: nat, cost: nat)
    requires f.pc > 0
    ensures OpOk(env, f, db, PlainOp(env, f, db, op, n, cost))
  {
  }

  lemma RegionOk(env: Env, f: Frame, n: nat, off: nat, len: nat)
    ensures var r := Region(Pop(f, n), off, len);
            r.Some? ==> Kept(env, f, r.value.0) && r.value.0.pc == f.pc && r.value.0.gas == f.gas
                        && |r.value.0.stack| <= |f.stack|
  {
    if Expand(Pop(f, n), off, len).Some? {
      ExpandKeeps(env, Pop(f, n), off, len);
    }
  }

  lemma ExpOk(env: Env, f: Frame, db: Db)
    ensures OpOk(env, f, db, ExpOp(env, f, db))
  {
  }

  lemma Sha3Ok(env: Env, f: Frame, db: Db)
    ensures OpOk(env, f, db, Sha3Op(env, f, db))
  {
    RegionOk(env, f, 2, Low64(Arg(f, 0)), Low64(Arg(f, 1)));
  }

  lemma CopyOk(env: Env, f: Frame, db: Db, k: nat, source: seq<byte>, base: nat)
    ensures OpOk(env, f, db, CopyOp(f, db, k, source, base))
  {
    var dest, len := Low64(Arg(f, k)), Low64(Arg(f, k + 2));
    if Expand(Pop(f, k + 3), dest, len).Some? {
      ExpandKeeps(env, Pop(f, k + 3), dest, len);
    }
  }

  lemma LowOk(env: Env, f: Frame, db: Db, op: byte)
    ensures OpOk(env, f, db, LowOp(env, f, db, op))
  {
    if op == 0x0a {
      ExpOk(env, f, db);
    } else if op == 0x20 {
      Sha3Ok(env, f, db);
    } else if op == 0x3c {
      CopyOk(env, f, db, 1, Look(db, ToAddr(Arg(f, 0))).code, 100);
    } else if op in {0x37, 0x39, 0x3e} {
      CopyOk(env, f, db, 0, Source(f, op), 3);
    }
  }

  lemma MloadOk(env: Env, f: Frame, db: Db)
    ensures OpOk(env, f, db, MloadOp(env, f, db))
  {
    RegionOk(env, f, 1, Low64(Arg(f, 0)), 32);
  }

  lemma MstoreOk(env: Env, f: Frame, db: Db, data: seq<byte>)
    ensures OpOk(env, f, db, MstoreOp(f, db, data))
  {
    var off := Low64(Arg(f, 0));
    if Expand(Pop(f, 2), off, |data|).Some? {
      ExpandKeeps(env, Pop(f, 2), off, |data|);
    }
  }

  lemma SstoreOk(env: Env, f: Frame, db: Db)
    ensures OpOk(env, f, db, SstoreOp(f, db))
  {
    SetStorageKeeps(db, f.address, Arg(f, 0), Arg(f, 1));
  }

  lemma SetStorageKeeps(db: Db, a: Addr, slot: Word, value: Word)
    ensures DbKept(db, SetStorage(db, a, slot, value))
  {
    var acc := Look(db, a);
    SetAccountNoMint(db, a, acc.(storage := if value == 0 then acc.storage - {slot} else acc.storage[slot := value]));
  }

  /** A jump that is taken pays for it, or is the last step. */
  lemma JumpOk(env: Env, f: Frame, db: Db, n: nat, dest: nat, cost: nat)
    requires cost > 0
    ensures OpOk(env, f, db, JumpTo(Pop(f, n), db, dest, cost))
    ensures OpOk(env, f, db, Next(UseGas(Pop(f, n), cost), db))
  {
  }

  lemma ControlOk(env: Env, f: Frame, db: Db, op: byte)
    ensures OpOk(env, f, db, ControlOp(env, f, db, op))
  {
    match op
    case 0x50 => JumpOk(env, f, db, 1, 0, 2);
    case 0x56 => JumpOk(env, f, db, 1, Low64(Arg(f, 0)), 8);
    case 0x57 => JumpOk(env, f, db, 2, Low64(Arg(f, 0)), 10);
    case _ =>
  }

  lemma MidOk(env: Env, f: Frame, db: Db, op: byte)
    ensures OpOk(env, f, db, MidOp(env, f, db, op))
  {
    if op == 0x51 {
      MloadOk(env, f, db);
    } else if op in {0x52, 0x53} {
      MstoreOk(env, f, db, StoredBytes(op, Arg(f, 1)));
    } else if op == 0x55 {
      SstoreOk(env, f, db);
    } else {
      ControlOk(env, f, db, op);
    }
  }

  lemma PushOk(env: Env, f: Frame, db: Db, n: nat)
    ensures OpOk(env, f, db, PushOp(env, f, db, n))
  {
  }

  lemma DupOk(env: Env, f: Frame, db: Db, n: nat)
    requires n > 0
    ensures OpOk(env, f, db, DupOp(env, f, db, n))
  {
  }

  lemma SwapOk(env: Env, f: Frame, db: Db, n: nat)
    ensures OpOk(env, f, db, SwapOp(f, db, n))
  {
  }

  lemma PushesOk(env: Env, f: Frame, db: Db, op: byte)
    requires 0x60 <= op <= 0x7f
    ensures OpOk(env, f, db, StackOp(env, f, db, op))
  {
    PushOk(env, f, db, op - 0x5f);
  }

  lemma DupsOk(env: Env, f: Frame, db: Db, op: byte)
    requires 0x80 <= op <= 0x8f
    ensures OpOk(env, f, db, StackOp(env, f, db, op))
  {
    DupOk(env, f, db, op - 0x7f);
  }

  lemma SwapsOk(env: Env, f: Frame, db: Db, op: byte)
    requires 0x90 <= op <= 0x9f
    ensures OpOk(env, f, db, StackOp(env, f, db, op))
  {
    SwapOk(env, f, db, op - 0x8f);
  }

  lemma StackOk(env: Env, f: Frame, db: Db, op: byte)
    requires 0x60 <= op < 0xa0
    ensures OpOk(env, f, db, StackOp(env, f, db, op))
  {
    if op <= 0x7f {
      PushesOk(env, f, db, op);
    } else if op <= 0x8f {
      DupsOk(env, f, db, op);
    } else {
      SwapsOk(env, f, db, op);
    }
  }

  lemma LogOk(env: Env, f: Frame, db: Db, topics: nat)
    ensures OpOk(env, f, db, LogOp(f, db, topics))
  {
    RegionOk(env, f, 2 + topics, Low64(Arg(f, 0)), Low64(Arg(f, 1)));
  }

  lemma EndOk(env: Env, f: Frame, db: Db, reverted: bool)
    ensures OpOk(env, f, db, EndOp(f, db, reverted))
  {
    RegionOk(env, f, 2, Low64(Arg(f, 0)), Low64(Arg(f, 1)));
  }

  lemma SelfDestructOk(env: Env, f: Frame, db: Db)
    ensures OpOk(env, f, db, SelfDestructOp(f, db))
  {
    var to, value := ToAddr(Arg(f, 0)), Look(db, f.address).balance;
    if Transfer(db, f.address, to, value).Moved? {
      TransferKeeps(db, f.address, to, value);
      var paid := Transfer(db, f.address, to, value).db;
      SetAccountNoMint(paid, f.address, DEFAULT_ACCOUNT);
      NoMintTrans(db, paid, SetAccount(paid, f.address, DEFAULT_ACCOUNT));
    }
  }

  lemma CallAtOk(env: Env, f: Frame, g: Frame, db: Db, op: byte, gas: nat, addr: Addr, value: U128,
                 calldata: seq<byte>, pending: Pending)
    requires Kept(env, f, g) && g.pc == f.pc && g.gas == f.gas && pending.AfterCall?
    ensures OpOk(env, f, db, CallAt(g, db, op, gas, addr, value, calldata, pending))
  {
    var target := if op == 0xf1 then addr else g.address;
    if Transfer(db, g.caller, target, value).Moved? {
      TransferKeeps(db, g.caller, target, value);
      ShareBelow(g.gas);
      var paid := Transfer(db, g.caller, target, value).db;
      if Look(paid, addr).code != [] {
        KeptCode(db, paid);
      }
    }
  }

  lemma CallOk(env: Env, f: Frame, db: Db, op: byte)
    ensures OpOk(env, f, db, CallOp(f, db, op))
  {
    var n := if op == 0xf4 then 2 else 3;
    var value := if op == 0xf4 then 0 else ToValue(Arg(f, 2));
    RegionOk(env, f, n + 4, Low64(Arg(f, n)), Low64(Arg(f, n + 1)));
    var r := Region(Pop(f, n + 4), Low64(Arg(f, n)), Low64(Arg(f, n + 1)));
    if r.Some? {
      CallAtOk(env, f, r.value.0, db, op, Low64(Arg(f, 0)), ToAddr(Arg(f, 1)), value, r.value.1,
               AfterCall(Low64(Arg(f, n + 2)), Low64(Arg(f, n + 3))));
    }
  }

  lemma CreateAtOk(env: Env, f: Frame, g: Frame, db: Db, addr: Addr, value: U128, init: seq<byte>)
    requires Kept(env, f, g) && g.pc == f.pc && g.gas < f.gas
    ensures OpOk(env, f, db, CreateAt(g, db, addr, value, init))
  {
    if Transfer(db, g.caller, addr, value).Moved? {
      TransferKeeps(db, g.caller, addr, value);
      ShareBelow(g.gas);
      if !db.isStatic {
        TransferEffect(db, g.caller, addr, value, addr);
      }
    }
  }

  lemma CreateOk(env: Env, f: Frame, db: Db, op: byte)
    ensures OpOk(env, f, db, CreateOp(env, f, db, op))
  {
    var g := UseGas(f, 32000);
    var n := if op == 0xf5 then 4 else 3;
    RegionOk(env, g, n, Low64(Arg(f, 1)), Low64(Arg(f, 2)));
    var r := Region(Pop(g, n), Low64(Arg(f, 1)), Low64(Arg(f, 2)));
    if !f.isStatic && !g.reverted && r.Some? {
      var addr := if op == 0xf5 then env.create2Addr(f.caller, Arg(f, 3), r.value.1)
                  else env.createAddr(f.caller, Look(db, f.caller).nonce);
      CreateAtOk(env, f, r.value.0, db, addr, ToValue(Arg(f, 0)), r.value.1);
    }
  }

  lemma HighOk(env: Env, f: Frame, db: Db, op: byte)
    ensures OpOk(env, f, db, HighOp(env, f, db, op))
  {
    if op in {0xf0, 0xf5} {
      CreateOk(env, f, db, op);
    } else if op in {0xf1, 0xf2, 0xf4} {
      CallOk(env, f, db, op);
    } else if op in {0xf3, 0xfd} {
      EndOk(env, f, db, op == 0xfd);
    } else if op == 0xf7 {
      SelfDestructOk(env, f, db);
    }
  }

  /** Every opcode keeps the bounds, and every opcode makes progress. */
  lemma ExecuteOk(env: Env, f: Frame, db: Db, op: byte)
    requires f.pc > 0
    ensures OpOk(env, f, db, Execute(env, f, db, op))
  {
    var plain := Plain(op);
    if plain.Some? {
      PlainOk(env, f, db, op, plain.value.0, plain.value.1);
    } else if op == 0x00 {
    } else if op < 0x50 {
      LowOk(env, f, db, op);
    } else if op < 0x60 {
      MidOk(env, f, db, op);
    } else if op < 0xa0 {
      StackOk(env, f, db, op);
    } else if op <= 0xa4 {
      LogOk(env, f, db, op - 0xa0);
    } else {
      HighOk(env, f, db, op);
    }
  }
}
