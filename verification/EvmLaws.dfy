/** What the opcodes compute (src/blockchain/revm_port.rs), each stated on the frame before and after. */
module EvmLaws {
  import opened Common
  import opened Messages
  import opened EvmState
  import opened EvmFrame
  import opened U256
  import opened EvmArith

  // ---------------------------------------------------------------------------
  // Operands, results and gas
  // ---------------------------------------------------------------------------

  /** The stack ends in these operands, the first to be popped last; below an empty stack there are zeros. */
  predicate OnTop(stack: seq<Word>, rest: seq<Word>, args: seq<Word>)
  {
    || stack == rest + args
    || (&& rest == [] && |stack| < |args| && args[|args| - |stack|..] == stack
        && forall k :: 0 <= k < |args| - |stack| ==> args[k] == 0)
  }

  lemma Popped(f: Frame, rest: seq<Word>, args: seq<Word>)
    requires OnTop(f.stack, rest, args)
    ensures Pop(f, |args|) == f.(stack := rest)
    ensures forall k :: 0 <= k < |args| ==> Arg(f, k) == args[|args| - 1 - k]
  {
    if f.stack == rest + args {
      assert f.stack[..|rest|] == rest;
    }
    forall k | 0 <= k < |args| ensures Arg(f, k) == args[|args| - 1 - k] {
      if k < |f.stack| && f.stack != rest + args {
        assert args[|args| - |f.stack|..][|f.stack| - 1 - k] == args[|args| - 1 - k];
      }
    }
  }

  /** Gas is taken in full, or else nothing but the end of the run comes of it. */
  lemma GasTaken(f: Frame, amount: nat)
    ensures var g := UseGas(f, amount);
            && g == f.(gas := g.gas, reverted := g.reverted)
            && (f.gas >= amount ==> g.gas == f.gas - amount && g.reverted == f.reverted)
            && (f.gas < amount ==> g.gas == f.gas && g.reverted)
  {
  }

  /** A word on a stack that has room; a full stack ends the run. */
  lemma WordPushed(env: Env, f: Frame, w: Word)
    ensures var g := Push(env, f, w);
            && g == f.(stack := g.stack, reverted := g.reverted)
            && (|f.stack| < env.maxStack ==> g.stack == f.stack + [w] && g.reverted == f.reverted)
            && (|f.stack| >= env.maxStack ==> g.stack == f.stack && g.reverted)
  {
  }

  /** The frame with its operands replaced by a word. */
  function Gave(env: Env, f: Frame, rest: seq<Word>, w: Word, cost: nat): Frame
  {
    UseGas(Push(env, f.(stack := rest), w), cost)
  }

  /** The frame without its operands. */
  function Took(f: Frame, rest: seq<Word>, cost: nat): Frame { UseGas(f.(stack := rest), cost) }

  // ---------------------------------------------------------------------------
  // The dispatch
  // ---------------------------------------------------------------------------

  lemma NotPlain(op: byte)
    requires op in {0x00, 0x0a, 0x20, 0x37, 0x39, 0x3c, 0x3e, 0x50, 0x51, 0x52, 0x53, 0x55, 0x56, 0x57, 0x5b, 0x5c}
             || op >= 0x60
    ensures Plain(op) == None
  {
  }

  lemma LowStep(env: Env, f: Frame, db: Db, op: byte)
    requires f.pc > 0 && op in {0x0a, 0x20, 0x37, 0x39, 0x3c, 0x3e}
    ensures Execute(env, f, db, op) == LowOp(env, f, db, op)
  {
    NotPlain(op);
  }

  lemma MidStep(env: Env, f: Frame, db: Db, op: byte)
    requires f.pc > 0 && op in {0x51, 0x52, 0x53, 0x55}
    ensures Execute(env, f, db, op) == MidOp(env, f, db, op)
  {
    NotPlain(op);
  }

  lemma ControlStep(env: Env, f: Frame, db: Db, op: byte)
    requires f.pc > 0 && op in {0x50, 0x56, 0x57, 0x5b, 0x5c}
    ensures Execute(env, f, db, op) == ControlOp(env, f, db, op)
  {
    NotPlain(op);
    ControlPart(env, f, db, op);
  }

  lemma ControlPart(env: Env, f: Frame, db: Db, op: byte)
    requires op in {0x50, 0x56, 0x57, 0x5b, 0x5c}
    ensures MidOp(env, f, db, op) == ControlOp(env, f, db, op)
  {
  }

  lemma StackStep(env: Env, f: Frame, db: Db, op: byte)
    requires f.pc > 0 && 0x60 <= op < 0xa0
    ensures Execute(env, f, db, op) == StackOp(env, f, db, op)
  {
    NotPlain(op);
  }

  lemma LogStep(env: Env, f: Frame, db: Db, n: nat)
    requires f.pc > 0 && n <= 4
    ensures Execute(env, f, db, 0xa0 + n) == LogOp(f, db, n)
  {
    NotPlain(0xa0 + n);
  }

  lemma HighStep(env: Env, f: Frame, db: Db, op: byte)
    requires f.pc > 0 && op > 0xa4
    ensures Execute(env, f, db, op) == HighOp(env, f, db, op)
  {
    NotPlain(op);
  }

  // ---------------------------------------------------------------------------
  // Jumps and the stack
  // ---------------------------------------------------------------------------

  predicate IsJumpDest(code: seq<byte>, dest: nat) { dest < |code| && code[dest] == 0x5b }

  lemma StopLaw(env: Env, f: Frame, db: Db)
    requires f.pc > 0
    ensures Execute(env, f, db, 0x00) == Next(f.(stopped := true), db)
  {
    NotPlain(0x00);
  }

  lemma JumpLaw(env: Env, f: Frame, db: Db, rest: seq<Word>, dest: Word)
    requires f.pc > 0 && OnTop(f.stack, rest, [dest])
    ensures var to := dest % U64_LIMIT;
            Execute(env, f, db, 0x56)
            == if IsJumpDest(f.code, to) then Next(Took(f.(pc := to + 1), rest, 8), db)
               else Fail(InvalidJumpDest(to), f.(stack := rest), db)
  {
    Popped(f, rest, [dest]);
    ControlStep(env, f, db, 0x56);
  }

  /** JUMPI goes on behind the destination if the condition is not zero, and at the next opcode if it is. */
  lemma JumpiLaw(env: Env, f: Frame, db: Db, rest: seq<Word>, cond: Word, dest: Word)
    requires f.pc > 0 && OnTop(f.stack, rest, [cond, dest])
    ensures cond == 0 ==> Execute(env, f, db, 0x57) == Next(Took(f, rest, 10), db)
    ensures cond != 0 ==>
              var to := dest % U64_LIMIT;
              Execute(env, f, db, 0x57)
              == if IsJumpDest(f.code, to) then Next(Took(f.(pc := to + 1), rest, 10), db)
                 else Fail(InvalidJumpDest(to), f.(stack := rest), db)
  {
    Popped(f, rest, [cond, dest]);
    assert Arg(f, 0) == dest && Arg(f, 1) == cond;
    ControlStep(env, f, db, 0x57);
  }

  lemma JumpdestLaw(env: Env, f: Frame, db: Db)
    requires f.pc > 0
    ensures Execute(env, f, db, 0x5b) == Next(UseGas(f, 1), db)
  {
    ControlStep(env, f, db, 0x5b);
  }

  lemma PopLaw(env: Env, f: Frame, db: Db, rest: seq<Word>, w: Word)
    requires f.pc > 0 && OnTop(f.stack, rest, [w])
    ensures Execute(env, f, db, 0x50) == Next(Took(f, rest, 2), db)
  {
    Popped(f, rest, [w]);
    ControlStep(env, f, db, 0x50);
  }

  lemma Push0Law(env: Env, f: Frame, db: Db)
    requires f.pc > 0
    ensures Execute(env, f, db, 0x5c)
         == if env.push0 then Next(Gave(env, f, f.stack, 0, 2), db) else Fail(InvalidOpcode(0x5c), f, db)
  {
    ControlStep(env, f, db, 0x5c);
  }

  /** The bytes behind an opcode, with zeros behind the end of the code. */
  predicate Follow(f: Frame, bytes: seq<byte>)
  {
    forall i :: 0 <= i < |bytes| ==> bytes[i] == if f.pc + i < |f.code| then f.code[f.pc + i] else 0
  }

  lemma ImmediateIs(f: Frame, n: nat, bytes: seq<byte>, w: nat)
    requires Follow(f, bytes) && n == |bytes| <= 32 && w == BeVal(bytes)
    ensures w < WORD_LIMIT && w == BeVal(Immediate(f, n))
  {
    ShortBytes(bytes);
    assert Immediate(f, |bytes|) == bytes;
  }

  /** PUSHn pushes the n bytes behind it and goes on behind them. */
  lemma PushLaw(env: Env, f: Frame, db: Db, n: nat, bytes: seq<byte>, w: nat)
    requires f.pc > 0 && 1 <= n <= 32 && n == |bytes| && Follow(f, bytes) && w == BeVal(bytes)
    ensures w < WORD_LIMIT
    ensures Execute(env, f, db, 0x5f + n) == Next(Gave(env, f.(pc := f.pc + n), f.stack, w, 3), db)
  {
    ImmediateIs(f, n, bytes, w);
    PushedIs(env, f, db, n, w);
  }

  lemma PushedIs(env: Env, f: Frame, db: Db, n: nat, w: Word)
    requires f.pc > 0 && 1 <= n <= 32 && w == BeVal(Immediate(f, n))
    ensures Execute(env, f, db, 0x5f + n) == Next(Gave(env, f.(pc := f.pc + n), f.stack, w, 3), db)
  {
    StackStep(env, f, db, 0x5f + n);
    PushOpIs(env, f, db, n, w);
  }

  lemma PushOpIs(env: Env, f: Frame, db: Db, n: nat, w: Word)
    requires w == BeVal(Immediate(f, n))
    ensures PushOp(env, f, db, n) == Next(Gave(env, f.(pc := f.pc + n), f.stack, w, 3), db)
  {
    assert w % WORD_LIMIT == w;
  }

  lemma ShortBytes(bytes: seq<byte>)
    requires |bytes| <= 32
    ensures BeVal(bytes) < WORD_LIMIT
  {
    BeBound(bytes);
    WordWidth();
    Pow256Add(|bytes|, 32 - |bytes|);
    Factor(Pow256(|bytes|), Pow256(32 - |bytes|));
  }

  lemma Factor(p: nat, q: nat)
    requires q >= 1
    ensures p <= p * q
  {
  }

  /** DUPn pushes the n-th word from the top; with fewer words it changes nothing. */
  lemma DupLaw(env: Env, f: Frame, db: Db, n: nat)
    requires f.pc > 0 && 1 <= n <= 16
    ensures Execute(env, f, db, 0x7f + n)
         == Next(if n <= |f.stack| then Gave(env, f, f.stack, f.stack[|f.stack| - n], 3) else UseGas(f, 3), db)
  {
    StackStep(env, f, db, 0x7f + n);
  }

  /** SWAPn exchanges the top word and the one n below it. */
  lemma SwapLaw(env: Env, f: Frame, db: Db, rest: seq<Word>, x: Word, mid: seq<Word>, y: Word)
    requires f.pc > 0 && |mid| < 16 && f.stack == rest + [x] + mid + [y]
    ensures Execute(env, f, db, 0x90 + |mid|) == Next(Took(f, rest + [y] + mid + [x], 3), db)
  {
    var n := |mid| + 1;
    var top := |f.stack| - 1;
    assert f.stack[top] == y && f.stack[top - n] == x;
    assert f.stack[top := x][top - n := y] == rest + [y] + mid + [x];
    StackStep(env, f, db, 0x8f + n);
  }

  lemma ShortSwapLaw(env: Env, f: Frame, db: Db, n: nat)
    requires f.pc > 0 && 1 <= n <= 16 && |f.stack| <= n
    ensures Execute(env, f, db, 0x8f + n) == Next(UseGas(f, 3), db)
  {
    StackStep(env, f, db, 0x8f + n);
  }

  // ---------------------------------------------------------------------------
  // Opcodes that give one word for their operands
  // ---------------------------------------------------------------------------

  lemma Gives(env: Env, f: Frame, db: Db, op: byte, rest: seq<Word>, args: seq<Word>, cost: nat, w: Word)
    requires f.pc > 0 && Plain(op) == Some((|args|, cost)) && OnTop(f.stack, rest, args)
    requires Operand(env, f, db, op, |args|) == Some(w)
    ensures Execute(env, f, db, op) == Next(Gave(env, f, rest, w, cost), db)
  {
    Popped(f, rest, args);
  }

  /** The number of operands and the gas of the opcodes whose words the environment computes. */
  predicate IsAlu(op: byte, n: nat, cost: nat)
  {
    || (n == 1 && cost == 3 && op in {0x15, 0x19})
    || (n == 2 && cost == 3 && (op in {0x01, 0x03} || 0x10 <= op <= 0x1d) && op !in {0x15, 0x19})
    || (n == 2 && cost == 5 && op in {0x02, 0x04, 0x05, 0x06, 0x07, 0x0b})
    || (n == 3 && cost == 8 && op in {0x08, 0x09})
    || (n == 1 && cost == 20 && op == 0x40)
    || (n == 0 && cost == 2 && op in {0x3a, 0x41, 0x42, 0x43, 0x44, 0x46, 0x48})
  }

  lemma AluLaw(env: Env, f: Frame, db: Db, op: byte, rest: seq<Word>, args: seq<Word>, cost: nat, operands: seq<Word>)
    requires f.pc > 0 && IsAlu(op, |args|, cost) && OnTop(f.stack, rest, args)
    requires |operands| == |args| && forall k :: 0 <= k < |args| ==> operands[k] == args[|args| - 1 - k]
    ensures Execute(env, f, db, op)
         == match env.alu(op, operands) case None => Crash case Some(w) => Next(Gave(env, f, rest, w, cost), db)
  {
    Popped(f, rest, args);
    assert Args(f, |args|) == operands;
    AluTable(op, |args|, cost);
    AluOperand(env, f, db, op, |args|, cost);
  }

  lemma AluTable(op: byte, n: nat, cost: nat)
    requires IsAlu(op, n, cost)
    ensures Plain(op) == Some((n, cost))
  {
  }

  lemma AluOperand(env: Env, f: Frame, db: Db, op: byte, n: nat, cost: nat)
    requires f.pc > 0 && IsAlu(op, n, cost)
    ensures Operand(env, f, db, op, n) == env.alu(op, Args(f, n))
  {
  }

  lemma NoOperands(f: Frame)
    ensures OnTop(f.stack, f.stack, [])
  {
    assert f.stack == f.stack + [];
  }

  /** Who runs, for whom, with what, and how much there is of it; RETURNDATASIZE is always zero. */
  predicate IsContext(f: Frame, db: Db, op: byte, w: Word, cost: nat)
    requires f.pc > 0
  {
    || (op == 0x30 && w == f.address % WORD_LIMIT && cost == 2)
    || (op == 0x32 && w == f.caller % WORD_LIMIT && cost == 2)
    || (op == 0x33 && w == f.caller % WORD_LIMIT && cost == 2)
    || (op == 0x34 && w == f.value && cost == 2)
    || (op == 0x36 && w == |f.calldata| % WORD_LIMIT && cost == 2)
    || (op == 0x38 && w == |f.code| % WORD_LIMIT && cost == 2)
    || (op == 0x3d && w == 0 && cost == 2)
    || (op == 0x45 && w == f.gasLimit % WORD_LIMIT && cost == 2)
    || (op == 0x47 && w == Look(db, f.address).balance && cost == 5)
    || (op == 0x58 && w == (f.pc - 1) % WORD_LIMIT && cost == 2)
    || (op == 0x59 && w == |f.memory| % WORD_LIMIT && cost == 2)
    || (op == 0x5a && w == f.gas % WORD_LIMIT && cost == 2)
  }

  lemma ContextLaw(env: Env, f: Frame, db: Db, op: byte, w: Word, cost: nat)
    requires f.pc > 0 && IsContext(f, db, op, w, cost)
    ensures Execute(env, f, db, op) == Next(Gave(env, f, f.stack, w, cost), db)
  {
    NoOperands(f);
    ContextTable(op, cost);
    ContextOperand(env, f, db, op, w, cost);
    Gives(env, f, db, op, f.stack, [], cost, w);
  }

  lemma ContextOperand(env: Env, f: Frame, db: Db, op: byte, w: Word, cost: nat)
    requires f.pc > 0 && IsContext(f, db, op, w, cost)
    ensures Operand(env, f, db, op, 0) == Some(w)
  {
  }

  lemma ContextTable(op: byte, cost: nat)
    requires (cost == 2 && op in {0x30, 0x32, 0x33, 0x34, 0x36, 0x38, 0x3d, 0x45, 0x58, 0x59, 0x5a})
             || (cost == 5 && op == 0x47)
    ensures Plain(op) == Some((0, cost))
  {
  }

  /** The low 20 bytes of the operand name an account. */
  predicate IsAccountWord(env: Env, acc: Account, op: byte, w: Word)
  {
    || (op == 0x31 && w == acc.balance)
    || (op == 0x3b && w == |acc.code| % WORD_LIMIT)
    || (op == 0x3f && w == if acc.code == [] then 0 else env.keccak(acc.code))
  }

  lemma AccountLaw(env: Env, f: Frame, db: Db, op: byte, rest: seq<Word>, a: Word, addr: Addr, w: Word)
    requires f.pc > 0 && OnTop(f.stack, rest, [a])
    requires addr == a % ADDR_LIMIT && IsAccountWord(env, Look(db, addr), op, w)
    ensures Execute(env, f, db, op) == Next(Gave(env, f, rest, w, 100), db)
  {
    Popped(f, rest, [a]);
    AccountTable(op);
    AccountOperand(env, f, db, op, addr, w);
    Gives(env, f, db, op, rest, [a], 100, w);
  }

  lemma AccountOperand(env: Env, f: Frame, db: Db, op: byte, addr: Addr, w: Word)
    requires f.pc > 0 && addr == ToAddr(Arg(f, 0)) && IsAccountWord(env, Look(db, addr), op, w)
    ensures Operand(env, f, db, op, 1) == Some(w)
  {
  }

  lemma AccountTable(op: byte)
    requires op in {0x31, 0x3b, 0x3f}
    ensures Plain(op) == Some((1, 100))
  {
  }

  /** CALLDATALOAD gives the 32 bytes from an offset, with zeros behind the end; an offset whose bytes
      have no 64-bit index panics. */
  lemma CalldataLaw(env: Env, f: Frame, db: Db, rest: seq<Word>, at: Word, bytes: seq<byte>)
    requires f.pc > 0 && OnTop(f.stack, rest, [at]) && |bytes| == 32
    requires var off := at % U64_LIMIT;
             forall i :: 0 <= i < 32 ==> bytes[i] == if off + i < |f.calldata| then f.calldata[off + i] else 0
    ensures BeVal(bytes) < WORD_LIMIT
    ensures Execute(env, f, db, 0x35)
         == if at % U64_LIMIT + 32 <= U64_LIMIT then Next(Gave(env, f, rest, BeVal(bytes), 3), db) else Crash
  {
    Popped(f, rest, [at]);
    assert Arg(f, 0) == at;
    ShortBytes(bytes);
    CalldataIs(f.calldata, at % U64_LIMIT, bytes);
    if at % U64_LIMIT + 32 <= U64_LIMIT {
      Gives(env, f, db, 0x35, rest, [at], 3, BeVal(bytes));
    }
  }

  lemma CalldataIs(data: seq<byte>, off: nat, bytes: seq<byte>)
    requires |bytes| == 32 && BeVal(bytes) < WORD_LIMIT
    requires forall i :: 0 <= i < 32 ==> bytes[i] == if off + i < |data| then data[off + i] else 0
    ensures LoadCalldata(data, off) == if off + 32 <= U64_LIMIT then Some(BeVal(bytes)) else None
  {
    assert bytes == seq(32, i requires 0 <= i => if off + i < |data| then data[off + i] else 0);
  }

  // ---------------------------------------------------------------------------
  // Storage
  // ---------------------------------------------------------------------------

  /** SSTORE puts the word in the slot of the running account, and only there; a slot that was empty
      and no longer is earns a refund. */
  lemma SstoreLaw(env: Env, f: Frame, db: Db, rest: seq<Word>, value: Word, slot: Word)
    requires f.pc > 0 && OnTop(f.stack, rest, [value, slot])
    ensures f.isStatic ==> Execute(env, f, db, 0x55) == Fail(StaticCallViolation, f.(stack := rest), db)
    ensures !f.isStatic ==>
              var r := Execute(env, f, db, 0x55);
              var earns := GetStorage(db, f.address, slot) == 0 && value != 0 && f.gas >= 100 && !f.reverted;
              r == Next(Took(f, rest, 100).(refund := f.refund + if earns then 4800 else 0),
                        SetStorage(db, f.address, slot, value))
  {
    RangeOperands(f, rest, value, slot);
    SstoreOpIs(f, db, rest, value, slot);
    SstoreStep(env, f, db);
  }

  lemma SstoreStep(env: Env, f: Frame, db: Db)
    requires f.pc > 0
    ensures Execute(env, f, db, 0x55) == SstoreOp(f, db)
  {
    MidStep(env, f, db, 0x55);
  }

  lemma SstoreOpIs(f: Frame, db: Db, rest: seq<Word>, value: Word, slot: Word)
    requires Pop(f, 2) == f.(stack := rest) && Arg(f, 0) == slot && Arg(f, 1) == value
    ensures f.isStatic ==> SstoreOp(f, db) == Fail(StaticCallViolation, f.(stack := rest), db)
    ensures !f.isStatic ==>
              var earns := GetStorage(db, f.address, slot) == 0 && value != 0 && f.gas >= 100 && !f.reverted;
              SstoreOp(f, db) == Next(Took(f, rest, 100).(refund := f.refund + if earns then 4800 else 0),
                                      SetStorage(db, f.address, slot, value))
  {
  }

  lemma SloadLaw(env: Env, f: Frame, db: Db, rest: seq<Word>, slot: Word)
    requires f.pc > 0 && OnTop(f.stack, rest, [slot])
    ensures Execute(env, f, db, 0x54) == Next(Gave(env, f, rest, GetStorage(db, f.address, slot), 100), db)
  {
    Popped(f, rest, [slot]);
    SloadOperand(env, f, db, slot, GetStorage(db, f.address, slot));
    Gives(env, f, db, 0x54, rest, [slot], 100, GetStorage(db, f.address, slot));
  }

  lemma SloadOperand(env: Env, f: Frame, db: Db, slot: Word, w: Word)
    requires f.pc > 0 && Arg(f, 0) == slot && w == GetStorage(db, f.address, slot)
    ensures Operand(env, f, db, 0x54, 1) == Some(w) && Plain(0x54) == Some((1, 100))
  {
  }

  /** SLOAD gives the word that SSTORE put there last, and what was there before for every other slot
      or account. */
  lemma SloadAfterSstore(env: Env, f: Frame, db: Db, rest: seq<Word>, value: Word, slot: Word, db': Db,
                         g: Frame, rest': seq<Word>, slot': Word)
    requires f.pc > 0 && OnTop(f.stack, rest, [value, slot]) && !f.isStatic && !db.isStatic
    requires Execute(env, f, db, 0x55).Next? && db' == Execute(env, f, db, 0x55).db
    requires g.pc > 0 && OnTop(g.stack, rest', [slot'])
    ensures var w := if g.address == f.address && slot' == slot then value else GetStorage(db, g.address, slot');
            Execute(env, g, db', 0x54) == Next(Gave(env, g, rest', w, 100), db')
  {
    SstoreLaw(env, f, db, rest, value, slot);
    StorageRoundTrip(db, f.address, slot, value, g.address, slot');
    SloadLaw(env, g, db', rest', slot');
  }

  // ---------------------------------------------------------------------------
  // Memory
  // ---------------------------------------------------------------------------

  /** Memory reads as zeros behind its end. */
  function ByteAt(m: seq<byte>, i: nat): byte { if i < |m| then m[i] else 0 }

  predicate Reads(m: seq<byte>, off: nat, len: nat, data: seq<byte>)
  {
    |data| == len && forall i :: 0 <= i < len ==> data[i] == ByteAt(m, off + i)
  }

  /** Memory that has grown, in words of 32 bytes, to cover the range, with the data at its start. */
  predicate Written(m: seq<byte>, m': seq<byte>, off: nat, len: nat, data: seq<byte>)
  {
    && (if len == 0 || off + len <= |m| then |m'| == |m| else |m'| % 32 == 0 && off + len <= |m'| < off + len + 32)
    && forall i :: 0 <= i < |m'| ==> m'[i] == if off <= i < off + |data| then data[i - off] else ByteAt(m, i)
  }

  /** The range is in memory or can be; an empty range behind the end cannot. */
  predicate Reachable(m: seq<byte>, off: nat, len: nat)
  {
    if len == 0 then off <= |m| else off + len <= |m| || off + len <= MEMORY_LIMIT - 32
  }

  lemma ExpandLaw(f: Frame, off: nat, len: nat) returns (m: seq<byte>)
    ensures Expand(f, off, len) == if len == 0 || Reachable(f.memory, off, len) then Some(f.(memory := m)) else None
    ensures len == 0 || Reachable(f.memory, off, len) ==> Written(f.memory, m, off, len, [])
  {
    var size := RoundUp(off + len);
    m := if len == 0 || off + len <= |f.memory| then f.memory else f.memory + Zeros(size - |f.memory|);
  }

  lemma RegionLaw(f: Frame, off: nat, len: nat, data: seq<byte>) returns (m: seq<byte>)
    requires Reads(f.memory, off, len, data)
    ensures Region(f, off, len) == if Reachable(f.memory, off, len) then Some((f.(memory := m), data)) else None
    ensures Reachable(f.memory, off, len) ==> Written(f.memory, m, off, len, [])
  {
    m := ExpandLaw(f, off, len);
    if Reachable(f.memory, off, len) {
      assert off + len <= |m|;
      forall i | 0 <= i < len ensures m[off..off + len][i] == data[i] {
        assert m[off + i] == ByteAt(f.memory, off + i);
      }
      assert m[off..off + len] == data;
    }
  }

  lemma WriteLaw(f: Frame, off: nat, data: seq<byte>) returns (m: seq<byte>)
    requires data != []
    ensures Write(f, off, data) == if Reachable(f.memory, off, |data|) then Some(f.(memory := m)) else None
    ensures Reachable(f.memory, off, |data|) ==> Written(f.memory, m, off, |data|, data)
  {
    var grown := ExpandLaw(f, off, |data|);
    m := grown;
    if Reachable(f.memory, off, |data|) {
      m := grown[..off] + data + grown[off + |data|..];
    }
  }

  lemma MstoreOpIs(f: Frame, db: Db, rest: seq<Word>, off: nat, data: seq<byte>) returns (m: seq<byte>)
    requires Pop(f, 2) == f.(stack := rest) && off == Low64(Arg(f, 0)) && data != []
    ensures MstoreOp(f, db, data)
         == if Reachable(f.memory, off, |data|) then Next(Took(f.(memory := m), rest, 3), db) else Crash
    ensures Reachable(f.memory, off, |data|) ==> Written(f.memory, m, off, |data|, data)
  {
    m := WriteLaw(f.(stack := rest), off, data);
  }

  lemma MstoreDispatched(env: Env, f: Frame, db: Db, w: Word)
    requires f.pc > 0 && Arg(f, 1) == w
    ensures Execute(env, f, db, 0x52) == MstoreOp(f, db, ToBe(w, 32))
    ensures Execute(env, f, db, 0x53) == MstoreOp(f, db, [w % 256])
  {
    MidStep(env, f, db, 0x52);
    MidStep(env, f, db, 0x53);
  }

  /** MSTORE writes the 32 big-endian bytes of the word, MSTORE8 its low byte. */
  lemma MstoreLaw(env: Env, f: Frame, db: Db, op: byte, rest: seq<Word>, w: Word, at: Word, off: nat,
                  data: seq<byte>) returns (m: seq<byte>)
    requires f.pc > 0 && OnTop(f.stack, rest, [w, at]) && off == at % U64_LIMIT
    requires (op == 0x52 && |data| == 32 && BeVal(data) == w) || (op == 0x53 && data == [w % 256])
    ensures Execute(env, f, db, op)
         == if Reachable(f.memory, off, |data|) then Next(Took(f.(memory := m), rest, 3), db) else Crash
    ensures Reachable(f.memory, off, |data|) ==> Written(f.memory, m, off, |data|, data)
  {
    Popped(f, rest, [w, at]);
    assert Arg(f, 0) == at && Arg(f, 1) == w;
    m := MstoreOpIs(f, db, rest, off, data);
    MstoreDispatched(env, f, db, w);
    if op == 0x52 {
      OneEncoding(w, data);
    }
  }

  /** Only these 32 bytes have that value. */
  lemma OneEncoding(w: Word, data: seq<byte>)
    requires |data| == 32 && BeVal(data) == w
    ensures data == ToBe(w, 32)
  {
    OperandBytes(w);
    SameBytes(data, ToBe(w, 32));
  }

  lemma {:induction false} SameBytes(x: seq<byte>, y: seq<byte>)
    requires |x| == |y| && BeVal(x) == BeVal(y)
    ensures x == y
  {
    if x != [] {
      BeBound(x[1..]);
      BeBound(y[1..]);
      var p := Pow256(|x| - 1);
      assert x[0] * p + BeVal(x[1..]) == y[0] * p + BeVal(y[1..]);
      SameDigit(x[0], y[0], p, BeVal(x[1..]), BeVal(y[1..]));
      SameBytes(x[1..], y[1..]);
      assert x == [x[0]] + x[1..] && y == [y[0]] + y[1..];
    }
  }

  lemma SameDigit(a: nat, b: nat, p: nat, r: nat, t: nat)
    requires r < p && t < p && a * p + r == b * p + t
    ensures a == b && r == t
  {
    if a < b {
      OtherDigit(a, b - a, p);
    } else if b < a {
      OtherDigit(b, a - b, p);
    }
  }

  lemma OtherDigit(a: nat, k: nat, p: nat)
    requires k > 0
    ensures (a + k) * p >= a * p + p
  {
    assert (a + k) * p == a * p + p + (k - 1) * p;
  }

  lemma MloadOpIs(env: Env, f: Frame, db: Db, rest: seq<Word>, off: nat, data: seq<byte>, w: Word)
    returns (m: seq<byte>)
    requires Pop(f, 1) == f.(stack := rest) && off == Low64(Arg(f, 0))
    requires Reads(f.memory, off, 32, data) && w == BeVal(data)
    ensures MloadOp(env, f, db)
         == if Reachable(f.memory, off, 32) then Next(Gave(env, f.(memory := m), rest, w, 3 + (off / 32 + 1) * 3), db)
            else Crash
    ensures Reachable(f.memory, off, 32) ==> Written(f.memory, m, off, 32, [])
  {
    m := RegionLaw(f.(stack := rest), off, 32, data);
    assert w % WORD_LIMIT == w;
  }

  lemma MloadLaw(env: Env, f: Frame, db: Db, rest: seq<Word>, at: Word, off: nat, data: seq<byte>, w: nat)
    returns (m: seq<byte>)
    requires f.pc > 0 && OnTop(f.stack, rest, [at]) && off == at % U64_LIMIT
    requires Reads(f.memory, off, 32, data) && w == BeVal(data)
    ensures w < WORD_LIMIT
    ensures Execute(env, f, db, 0x51)
         == if Reachable(f.memory, off, 32) then Next(Gave(env, f.(memory := m), rest, w, 3 + (off / 32 + 1) * 3), db)
            else Crash
    ensures Reachable(f.memory, off, 32) ==> Written(f.memory, m, off, 32, [])
  {
    Popped(f, rest, [at]);
    assert Arg(f, 0) == at;
    ShortBytes(data);
    m := MloadOpIs(env, f, db, rest, off, data, w);
    MidStep(env, f, db, 0x51);
  }

  /** MLOAD gives the word that MSTORE wrote at the same place. */
  lemma MloadAfterMstore(env: Env, f: Frame, db: Db, rest: seq<Word>, w: Word, at: Word, off: nat,
                         g: Frame, rest': seq<Word>)
    requires f.pc > 0 && OnTop(f.stack, rest, [w, at]) && off == at % U64_LIMIT && Reachable(f.memory, off, 32)
    requires g.pc > 0 && OnTop(g.stack, rest', [at])
    requires Execute(env, f, db, 0x52).Next? && g.memory == Execute(env, f, db, 0x52).f.memory
    ensures Execute(env, g, db, 0x51) == Next(Gave(env, g, rest', w, 3 + (off / 32 + 1) * 3), db)
  {
    var data := ToBe(w, 32);
    OperandBytes(w);
    var m := MstoreLaw(env, f, db, 0x52, rest, w, at, off, data);
    assert g.memory == m;
    WrittenReads(f.memory, m, off, data);
    var m' := MloadLaw(env, g, db, rest', at, off, data, w);
    SameMemory(m, m', off, 32);
    assert g.(memory := m') == g;
  }

  lemma WrittenReads(m: seq<byte>, m': seq<byte>, off: nat, data: seq<byte>)
    requires Written(m, m', off, |data|, data) && Reachable(m, off, |data|) && data != []
    ensures Reads(m', off, |data|, data) && off + |data| <= |m'|
  {
    forall i | 0 <= i < |data| ensures data[i] == ByteAt(m', off + i) {
      assert m'[off + i] == data[i];
    }
  }

  lemma SameMemory(m: seq<byte>, m': seq<byte>, off: nat, len: nat)
    requires Written(m, m', off, len, []) && off + len <= |m|
    ensures m' == m
  {
    forall i | 0 <= i < |m| ensures m'[i] == m[i] {
      assert m'[i] == ByteAt(m, i);
    }
  }

  /** Pops the operands and reads the range that two of them name. */
  lemma RangeOf(f: Frame, rest: seq<Word>, off: nat, len: nat, data: seq<byte>) returns (m: seq<byte>)
    requires Reads(f.memory, off, len, data)
    ensures Region(f.(stack := rest), off, len)
         == if Reachable(f.memory, off, len) then Some((f.(stack := rest, memory := m), data)) else None
    ensures Reachable(f.memory, off, len) ==> Written(f.memory, m, off, len, [])
  {
    m := RegionLaw(f.(stack := rest), off, len, data);
  }

  lemma Sha3Law(env: Env, f: Frame, db: Db, rest: seq<Word>, size: Word, at: Word, off: nat, len: nat, data: seq<byte>)
    returns (m: seq<byte>)
    requires f.pc > 0 && OnTop(f.stack, rest, [size, at]) && off == at % U64_LIMIT && len == size % U64_LIMIT
    requires Reads(f.memory, off, len, data)
    ensures Execute(env, f, db, 0x20)
         == if Reachable(f.memory, off, len)
            then Next(Gave(env, f.(memory := m), rest, env.keccak(data), 30 + 6 * ((len + 31) / 32)), db) else Crash
    ensures Reachable(f.memory, off, len) ==> Written(f.memory, m, off, len, [])
  {
    RangeOperands(f, rest, size, at);
    m := Sha3OpIs(env, f, db, rest, off, len, data);
    LowStep(env, f, db, 0x20);
  }

  lemma RangeOperands(f: Frame, rest: seq<Word>, size: Word, at: Word)
    requires OnTop(f.stack, rest, [size, at])
    ensures Pop(f, 2) == f.(stack := rest) && Arg(f, 0) == at && Arg(f, 1) == size
  {
    Popped(f, rest, [size, at]);
  }

  lemma Sha3OpIs(env: Env, f: Frame, db: Db, rest: seq<Word>, off: nat, len: nat, data: seq<byte>)
    returns (m: seq<byte>)
    requires Pop(f, 2) == f.(stack := rest) && off == Low64(Arg(f, 0)) && len == Low64(Arg(f, 1))
    requires Reads(f.memory, off, len, data)
    ensures Sha3Op(env, f, db)
         == if Reachable(f.memory, off, len)
            then Next(Gave(env, f.(memory := m), rest, env.keccak(data), 30 + 6 * ((len + 31) / 32)), db) else Crash
    ensures Reachable(f.memory, off, len) ==> Written(f.memory, m, off, len, [])
  {
    m := RangeOf(f, rest, off, len, data);
  }

  /** RETURN and REVERT end the run with a range of memory as its output. */
  lemma EndLaw(env: Env, f: Frame, db: Db, op: byte, rest: seq<Word>, size: Word, at: Word, off: nat, len: nat,
               data: seq<byte>) returns (m: seq<byte>)
    requires f.pc > 0 && OnTop(f.stack, rest, [size, at]) && off == at % U64_LIMIT && len == size % U64_LIMIT
    requires Reads(f.memory, off, len, data) && op in {0xf3, 0xfd} && !f.reverted
    ensures Execute(env, f, db, op)
         == if Reachable(f.memory, off, len)
            then Next(f.(stack := rest, memory := m, output := data, stopped := true, reverted := op == 0xfd), db)
            else Crash
    ensures Reachable(f.memory, off, len) ==> Written(f.memory, m, off, len, [])
  {
    RangeOperands(f, rest, size, at);
    m := RangeOf(f, rest, off, len, data);
    HighStep(env, f, db, op);
  }

  /** LOGn appends one entry, with the topics in the order in which they are popped. */
  lemma LogLaw(env: Env, f: Frame, db: Db, rest: seq<Word>, args: seq<Word>, topics: seq<Word>, off: nat, len: nat,
               data: seq<byte>) returns (m: seq<byte>)
    requires f.pc > 0 && |topics| <= 4 && |args| == |topics| + 2 && OnTop(f.stack, rest, args)
    requires off == args[|topics| + 1] % U64_LIMIT && len == args[|topics|] % U64_LIMIT
    requires forall k :: 0 <= k < |topics| ==> topics[k] == args[|topics| - 1 - k]
    requires Reads(f.memory, off, len, data)
    ensures var cost := 375 + 375 * |topics| + 8 * len;
            Execute(env, f, db, 0xa0 + |topics|)
            == if f.isStatic then Fail(StaticCallViolation, f, db)
               else if Reachable(f.memory, off, len) && cost < U64_LIMIT
               then Next(Took(f.(memory := m, logs := f.logs + [Log(f.address, topics, data)]), rest, cost), db)
               else Crash
    ensures Reachable(f.memory, off, len) ==> Written(f.memory, m, off, len, [])
  {
    LogOperands(f, rest, args, topics, off, len);
    m := LogOpIs(f, db, rest, topics, off, len, data);
    LogStep(env, f, db, |topics|);
  }

  lemma LogOperands(f: Frame, rest: seq<Word>, args: seq<Word>, topics: seq<Word>, off: nat, len: nat)
    requires |args| == |topics| + 2 && OnTop(f.stack, rest, args)
    requires off == args[|topics| + 1] % U64_LIMIT && len == args[|topics|] % U64_LIMIT
    requires forall k :: 0 <= k < |topics| ==> topics[k] == args[|topics| - 1 - k]
    ensures Pop(f, 2 + |topics|) == f.(stack := rest) && off == Low64(Arg(f, 0)) && len == Low64(Arg(f, 1))
    ensures Topics(f, |topics|) == topics
  {
    Popped(f, rest, args);
    assert Arg(f, 0) == args[|topics| + 1] && Arg(f, 1) == args[|topics|];
    TopicsAre(f, topics);
  }

  lemma LogOpIs(f: Frame, db: Db, rest: seq<Word>, topics: seq<Word>, off: nat, len: nat, data: seq<byte>)
    returns (m: seq<byte>)
    requires Pop(f, 2 + |topics|) == f.(stack := rest) && off == Low64(Arg(f, 0)) && len == Low64(Arg(f, 1))
    requires Topics(f, |topics|) == topics && Reads(f.memory, off, len, data)
    ensures var cost := 375 + 375 * |topics| + 8 * len;
            LogOp(f, db, |topics|)
            == if f.isStatic then Fail(StaticCallViolation, f, db)
               else if Reachable(f.memory, off, len) && cost < U64_LIMIT
               then Next(Took(f.(memory := m, logs := f.logs + [Log(f.address, topics, data)]), rest, cost), db)
               else Crash
    ensures Reachable(f.memory, off, len) ==> Written(f.memory, m, off, len, [])
  {
    m := RangeOf(f, rest, off, len, data);
  }

  lemma TopicsAre(f: Frame, topics: seq<Word>)
    requires forall k :: 0 <= k < |topics| ==> topics[k] == Arg(f, 2 + k)
    ensures Topics(f, |topics|) == topics
  {
  }

  // ---------------------------------------------------------------------------
  // Copies
  // ---------------------------------------------------------------------------

  /** What a copying opcode copies, and the gas on top of the words. */
  predicate IsSource(f: Frame, op: byte, source: seq<byte>, base: nat)
  {
    || (op == 0x37 && source == f.calldata && base == 3)
    || (op == 0x39 && source == f.code && base == 3)
    || (op == 0x3e && source == f.output && base == 3)
  }

  /** The part of the source that the range covers. */
  function Part(source: seq<byte>, src: nat, len: nat): seq<byte>
  {
    if src >= |source| then [] else if src + len <= |source| then source[src..src + len] else source[src..]
  }

  /** A copy writes the part of the source in the range; memory grows to the whole range. */
  ghost predicate Copied(m: seq<byte>, m': seq<byte>, source: seq<byte>, dest: nat, src: nat, len: nat)
  {
    Written(m, m', dest, len, Part(source, src, len))
  }

  predicate Coverable(m: seq<byte>, off: nat, len: nat) { len == 0 || Reachable(m, off, len) }

  /** A copy whose destination is the frame `g`. */
  lemma CopyInto(f: Frame, db: Db, k: nat, source: seq<byte>, base: nat, dest: nat, src: nat, len: nat, g: Frame,
                 part: seq<byte>)
    requires dest == Low64(Arg(f, k)) && src == Low64(Arg(f, k + 1)) && len == Low64(Arg(f, k + 2))
    requires Expand(Pop(f, k + 3), dest, len) == Some(g) && part == Part(source, src, len)
    ensures part == [] ==> CopyOp(f, db, k, source, base) == Next(UseGas(g, base + 3 * Words(len)), db)
    ensures part != [] ==>
              && dest + len <= |g.memory|
              && CopyOp(f, db, k, source, base) == Next(UseGas(Store(g, dest, part), base + 3 * Words(len)), db)
  {
    PartIs(source, src, len);
    if part != [] {
      CopyFits(f, k, dest, len);
    }
  }

  lemma PartIs(source: seq<byte>, src: nat, len: nat)
    ensures var n := Min(len, SaturatingSub(|source|, src));
            |Part(source, src, len)| == n && (n > 0 ==> Part(source, src, len) == source[src..src + n])
  {
  }

  lemma CopyNowhere(f: Frame, db: Db, k: nat, source: seq<byte>, base: nat, dest: nat, len: nat)
    requires dest == Low64(Arg(f, k)) && len == Low64(Arg(f, k + 2)) && Expand(Pop(f, k + 3), dest, len) == None
    ensures CopyOp(f, db, k, source, base) == Crash
  {
  }

  lemma CopyOpIs(f: Frame, db: Db, k: nat, rest: seq<Word>, source: seq<byte>, base: nat, dest: nat, src: nat, len: nat)
    returns (m: seq<byte>)
    requires Pop(f, k + 3) == f.(stack := rest)
    requires dest == Low64(Arg(f, k)) && src == Low64(Arg(f, k + 1)) && len == Low64(Arg(f, k + 2))
    ensures CopyOp(f, db, k, source, base)
         == if Coverable(f.memory, dest, len) then Next(Took(f.(memory := m), rest, base + 3 * ((len + 31) / 32)), db)
            else Crash
    ensures Coverable(f.memory, dest, len) ==> Copied(f.memory, m, source, dest, src, len)
  {
    m := ExpandLaw(f.(stack := rest), dest, len);
    if !Coverable(f.memory, dest, len) {
      CopyNowhere(f, db, k, source, base, dest, len);
    } else if Part(source, src, len) == [] {
      CopyInto(f, db, k, source, base, dest, src, len, f.(stack := rest, memory := m), []);
    } else {
      m := CopyPart(f, db, k, rest, source, base, dest, src, len, m, Part(source, src, len));
    }
  }

  lemma CopyPart(f: Frame, db: Db, k: nat, rest: seq<Word>, source: seq<byte>, base: nat, dest: nat, src: nat, len: nat,
                 grown: seq<byte>, part: seq<byte>) returns (m: seq<byte>)
    requires dest == Low64(Arg(f, k)) && src == Low64(Arg(f, k + 1)) && len == Low64(Arg(f, k + 2))
    requires Expand(Pop(f, k + 3), dest, len) == Some(f.(stack := rest, memory := grown))
    requires Written(f.memory, grown, dest, len, []) && part == Part(source, src, len) && part != []
    ensures CopyOp(f, db, k, source, base) == Next(Took(f.(memory := m), rest, base + 3 * ((len + 31) / 32)), db)
    ensures Written(f.memory, m, dest, len, part)
  {
    var g := f.(stack := rest, memory := grown);
    CopyInto(f, db, k, source, base, dest, src, len, g, part);
    PutInto(f.memory, grown, dest, len, part);
    m := grown[..dest] + part + grown[dest + |part|..];
    assert Store(g, dest, part) == f.(stack := rest, memory := m);
  }

  lemma PutInto(m: seq<byte>, grown: seq<byte>, dest: nat, len: nat, part: seq<byte>)
    requires Written(m, grown, dest, len, []) && |part| <= len && dest + len <= |grown|
    ensures Written(m, grown[..dest] + part + grown[dest + |part|..], dest, len, part)
  {
  }

  lemma CopyLaw(env: Env, f: Frame, db: Db, op: byte, rest: seq<Word>, size: Word, from: Word, at: Word,
                source: seq<byte>, base: nat, dest: nat, src: nat, len: nat) returns (m: seq<byte>)
    requires f.pc > 0 && OnTop(f.stack, rest, [size, from, at]) && IsSource(f, op, source, base)
    requires dest == at % U64_LIMIT && src == from % U64_LIMIT && len == size % U64_LIMIT
    ensures Execute(env, f, db, op)
         == if Coverable(f.memory, dest, len) then Next(Took(f.(memory := m), rest, base + 3 * ((len + 31) / 32)), db)
            else Crash
    ensures Coverable(f.memory, dest, len) ==> Copied(f.memory, m, source, dest, src, len)
  {
    CopyOperands(f, rest, size, from, at);
    m := CopyOpIs(f, db, 0, rest, source, base, dest, src, len);
    CopyDispatched(env, f, db, op, source, base);
  }

  lemma CopyOperands(f: Frame, rest: seq<Word>, size: Word, from: Word, at: Word)
    requires OnTop(f.stack, rest, [size, from, at])
    ensures Pop(f, 3) == f.(stack := rest) && Arg(f, 0) == at && Arg(f, 1) == from && Arg(f, 2) == size
  {
    Popped(f, rest, [size, from, at]);
  }

  lemma CopyDispatched(env: Env, f: Frame, db: Db, op: byte, source: seq<byte>, base: nat)
    requires f.pc > 0 && IsSource(f, op, source, base)
    ensures Execute(env, f, db, op) == CopyOp(f, db, 0, source, base)
  {
    LowStep(env, f, db, op);
  }

  /** EXTCODECOPY copies the code of the account that the topmost operand names. */
  lemma ExtCopyLaw(env: Env, f: Frame, db: Db, rest: seq<Word>, size: Word, from: Word, at: Word, a: Word,
                   addr: Addr, dest: nat, src: nat, len: nat) returns (m: seq<byte>)
    requires f.pc > 0 && OnTop(f.stack, rest, [size, from, at, a]) && addr == a % ADDR_LIMIT
    requires dest == at % U64_LIMIT && src == from % U64_LIMIT && len == size % U64_LIMIT
    ensures Execute(env, f, db, 0x3c)
         == if Coverable(f.memory, dest, len) then Next(Took(f.(memory := m), rest, 100 + 3 * ((len + 31) / 32)), db)
            else Crash
    ensures Coverable(f.memory, dest, len) ==> Copied(f.memory, m, Look(db, addr).code, dest, src, len)
  {
    ExtCopyOperands(f, rest, size, from, at, a);
    m := CopyOpIs(f, db, 1, rest, Look(db, addr).code, 100, dest, src, len);
    ExtCopyDispatched(env, f, db, addr, Look(db, addr).code);
  }

  lemma ExtCopyOperands(f: Frame, rest: seq<Word>, size: Word, from: Word, at: Word, a: Word)
    requires OnTop(f.stack, rest, [size, from, at, a])
    ensures Pop(f, 4) == f.(stack := rest) && Arg(f, 0) == a && Arg(f, 1) == at
    ensures Arg(f, 2) == from && Arg(f, 3) == size
  {
    Popped(f, rest, [size, from, at, a]);
  }

  lemma ExtCopyDispatched(env: Env, f: Frame, db: Db, addr: Addr, code: seq<byte>)
    requires f.pc > 0 && addr == ToAddr(Arg(f, 0)) && code == Look(db, addr).code
    ensures Execute(env, f, db, 0x3c) == CopyOp(f, db, 1, code, 100)
  {
    LowStep(env, f, db, 0x3c);
  }

  // ---------------------------------------------------------------------------
  // EXP, SELFDESTRUCT and INVALID
  // ---------------------------------------------------------------------------

  function Doubled(n: nat): nat { if n == 0 then 1 else 2 * Doubled(n - 1) }

  lemma {:induction false} BitLengthIs(e: nat, n: nat)
    requires if n == 0 then e == 0 else Doubled(n - 1) <= e < Doubled(n)
    ensures BitLength(e) == n
  {
    if n > 1 {
      assert Doubled(n - 2) <= e / 2 < Doubled(n - 1);
      BitLengthIs(e / 2, n - 1);
    } else if n == 1 {
      assert e == 1 && BitLength(0) == 0;
    }
  }

  /** EXP pays for every started byte of its exponent, with one byte more where the bits fill their bytes. */
  lemma ExpLaw(env: Env, f: Frame, db: Db, rest: seq<Word>, exponent: Word, base: Word, e: nat, bits: nat)
    requires f.pc > 0 && OnTop(f.stack, rest, [exponent, base]) && e == exponent % U64_LIMIT && !f.reverted
    requires if bits == 0 then e == 0 else Doubled(bits - 1) <= e < Doubled(bits)
    ensures var cost := 10 + if bits == 0 then 0 else 50 * (bits / 8 + 1);
            Execute(env, f, db, 0x0a)
            == if f.gas < cost then Next(f.(stack := rest, reverted := true), db)
               else match env.alu(0x0a, [base, exponent])
                    case None => Crash
                    case Some(w) => Next(Push(env, f.(stack := rest, gas := f.gas - cost), w), db)
  {
    RangeOperands(f, rest, exponent, base);
    BitLengthIs(e, bits);
    LowStep(env, f, db, 0x0a);
    ExpOpIs(env, f, db, rest, exponent, base, e, bits);
  }

  lemma ExpOpIs(env: Env, f: Frame, db: Db, rest: seq<Word>, exponent: Word, base: Word, e: nat, bits: nat)
    requires Pop(f, 2) == f.(stack := rest) && Arg(f, 0) == base && Arg(f, 1) == exponent && !f.reverted
    requires e == Low64(exponent) && BitLength(e) == bits && (e == 0 <==> bits == 0)
    ensures var cost := 10 + if bits == 0 then 0 else 50 * (bits / 8 + 1);
            ExpOp(env, f, db)
            == if f.gas < cost then Next(f.(stack := rest, reverted := true), db)
               else match env.alu(0x0a, [base, exponent])
                    case None => Crash
                    case Some(w) => Next(Push(env, f.(stack := rest, gas := f.gas - cost), w), db)
  {
    assert Args(f, 2) == [base, exponent];
  }

  /** What is left when account `self` is destroyed for the benefit of `to`. */
  ghost predicate Destroyed(db: Db, db': Db, self: Addr, to: Addr)
  {
    && Look(db', self) == DEFAULT_ACCOUNT
    && (to != self ==>
          && WithoutBalance(Look(db', to)) == WithoutBalance(Look(db, to))
          && Look(db', to).balance == Look(db, to).balance + Look(db, self).balance)
    && forall b :: b != self && b != to ==> Look(db', b) == Look(db, b)
  }

  /** SELFDESTRUCT empties its account, pays the balance to the beneficiary and stops; an account that
      pays itself loses the balance. */
  lemma SelfDestructLaw(env: Env, f: Frame, db: Db, rest: seq<Word>, a: Word, to: Addr) returns (db': Db)
    requires f.pc > 0 && OnTop(f.stack, rest, [a]) && to == a % ADDR_LIMIT && !db.isStatic
    ensures var overflows := to != f.address && Look(db, to).balance + Look(db, f.address).balance >= U128_LIMIT;
            Execute(env, f, db, 0xf7)
            == if f.isStatic then Fail(StaticCallViolation, f, db)
               else if overflows then Crash
               else Next(Took(f.(stopped := true), rest, 5000), db')
    ensures to == f.address || Look(db, to).balance + Look(db, f.address).balance < U128_LIMIT ==>
              Destroyed(db, db', f.address, to)
  {
    Popped(f, rest, [a]);
    assert Arg(f, 0) == a;
    HighStep(env, f, db, 0xf7);
    var self, value := f.address, Look(db, f.address).balance;
    if Transfer(db, self, to, value).Moved? {
      db' := SetAccount(Transfer(db, self, to, value).db, self, DEFAULT_ACCOUNT);
      PaidOut(db, self, to, value);
    } else {
      db' := db;
    }
  }

  lemma PaidOut(db: Db, self: Addr, to: Addr, value: U128)
    requires !db.isStatic && value == Look(db, self).balance && Transfer(db, self, to, value).Moved?
    ensures Destroyed(db, SetAccount(Transfer(db, self, to, value).db, self, DEFAULT_ACCOUNT), self, to)
  {
    forall b ensures var db' := Transfer(db, self, to, value).db;
                     && WithoutBalance(Look(db', b)) == WithoutBalance(Look(db, b))
                     && Look(db', b).balance as int
                        == Look(db, b).balance + (if b == to then value else 0) - (if b == self then value else 0)
    {
      TransferEffect(db, self, to, value, b);
    }
  }

  /** No other byte is an opcode. */
  lemma InvalidLaw(env: Env, f: Frame, db: Db, op: byte)
    requires f.pc > 0 && (0x0c <= op <= 0x0f || 0x1e <= op <= 0x1f || 0x21 <= op <= 0x2f || 0x49 <= op <= 0x4f
                          || 0x5d <= op <= 0x5f || 0xa5 <= op <= 0xef || op == 0xf6
                          || 0xf8 <= op <= 0xfc || op >= 0xfe)
    ensures Execute(env, f, db, op) == Fail(InvalidOpcode(op), f, db)
  {
  }
}
