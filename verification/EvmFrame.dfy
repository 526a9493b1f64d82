/** One opcode of the virtual machine (src/blockchain/revm_port.rs). The values that arithmetic
    opcodes and hashes compute are parameters: nothing proved about a run depends on them. */
module EvmFrame {
  import opened Common
  import opened EvmState
  import opened Messages

  const MEMORY_LIMIT: nat := 0x8000_0000_0000_0000
  const ADDR_LIMIT: nat := 0x1_0000_0000_0000_0000_0000_0000_0000_0000_0000_0000

  /** `alu` gives the result of a pure opcode on its operands, or `None` where the
      machine arithmetic panics. */
  datatype Env = Env(
    maxStack: nat,
    push0: bool,
    alu: (byte, seq<Word>) -> Option<Word>,
    keccak: seq<byte> -> Word,
    createAddr: (Addr, nat) -> Addr,
    create2Addr: (Addr, Word, seq<byte>) -> Addr)

  datatype Log = Log(address: Addr, topics: seq<Word>, data: seq<byte>)

  datatype Frame = Frame(
    code: seq<byte>,
    pc: nat,
    stack: seq<Word>,
    memory: seq<byte>,
    gas: nat,
    gasLimit: nat,
    caller: Addr,
    address: Addr,
    value: U128,
    calldata: seq<byte>,
    output: seq<byte>,
    logs: seq<Log>,
    stopped: bool,
    reverted: bool,
    refund: nat,
    isStatic: bool)
  {
    predicate Active() { !stopped && !reverted && pc < |code| }
  }

  function NewFrame(code: seq<byte>, caller: Addr, address: Addr, value: U128, calldata: seq<byte>, gas: nat): Frame
  {
    Frame(code, 0, [], [], gas, gas, caller, address, value, calldata, [], [], false, false, 0, false)
  }

  datatype VmError =
    | StaticCallViolation
    | InvalidJumpDest(dest: nat)
    | InvalidOpcode(op: byte)
    | InsufficientBalance(need: nat, have: nat)
    | Reverted(data: seq<byte>)

  /** What happens when a nested run has ended. */
  datatype Pending = AfterCall(retOff: nat, retLen: nat) | AfterCreate(addr: Addr, value: U128)

  datatype StepResult =
    | Next(f: Frame, db: Db)
    | Fail(error: VmError, f: Frame, db: Db)
    | Crash
    | Enter(sub: Frame, f: Frame, db: Db, pending: Pending)

  // ---------------------------------------------------------------------------
  // Gas, stack and memory
  // ---------------------------------------------------------------------------

  function UseGas(f: Frame, amount: nat): Frame
  {
    if f.gas < amount then f.(reverted := true) else f.(gas := f.gas - amount)
  }

  function Push(env: Env, f: Frame, w: Word): Frame
  {
    if |f.stack| >= env.maxStack then f.(reverted := true) else f.(stack := f.stack + [w])
  }

  /** The `k`-th word from the top; an empty stack gives zeros. */
  function Arg(f: Frame, k: nat): Word { if k < |f.stack| then f.stack[|f.stack| - 1 - k] else 0 }

  function Pop(f: Frame, n: nat): Frame { f.(stack := f.stack[..|f.stack| - Min(n, |f.stack|)]) }

  function Low64(w: Word): nat { w % U64_LIMIT }

  function ToAddr(w: Word): Addr { w % ADDR_LIMIT }

  function ToValue(w: Word): U128 { w % U128_LIMIT }

  function WordOf(n: nat): Word { n % WORD_LIMIT }

  function RoundUp(n: nat): nat { (n + 31) / 32 * 32 }

  /** Memory that covers the range, in words of 32 bytes, unless that is too much memory. */
  function Expand(f: Frame, off: nat, size: nat): Option<Frame>
  {
    if size == 0 || off + size <= |f.memory| then Some(f)
    else if RoundUp(off + size) >= MEMORY_LIMIT then None
    else Some(f.(memory := f.memory + Zeros(RoundUp(off + size) - |f.memory|)))
  }

  /** The bytes of the range; slicing past the end panics, even for an empty range. */
  function Region(f: Frame, off: nat, len: nat): Option<(Frame, seq<byte>)>
  {
    match Expand(f, off, len)
    case None => None
    case Some(g) => if off + len <= |g.memory| then Some((g, g.memory[off..off + len])) else None
  }

  function Store(f: Frame, off: nat, data: seq<byte>): (r: Frame)
    requires off + |data| <= |f.memory|
    ensures |r.memory| == |f.memory|
  {
    f.(memory := f.memory[..off] + data + f.memory[off + |data|..])
  }

  function Write(f: Frame, off: nat, data: seq<byte>): Option<Frame>
  {
    match Expand(f, off, |data|)
    case None => None
    case Some(g) => if data == [] then Some(g) else ExpandCovers(f, off, |data|); Some(Store(g, off, data))
  }

  lemma ExpandCovers(f: Frame, off: nat, size: nat)
    requires Expand(f, off, size).Some? && size > 0
    ensures off + size <= |Expand(f, off, size).value.memory|
  {
  }

  // ---------------------------------------------------------------------------
  // Opcodes that pop operands, push one word and cost a constant
  // ---------------------------------------------------------------------------

  /** The number of operands and the gas of these opcodes. */
  function Plain(op: byte): Option<(nat, nat)>
  {
    match op
    case 0x01 => Some((2, 3)) case 0x02 => Some((2, 5)) case 0x03 => Some((2, 3)) case 0x04 => Some((2, 5))
    case 0x05 => Some((2, 5)) case 0x06 => Some((2, 5)) case 0x07 => Some((2, 5)) case 0x08 => Some((3, 8))
    case 0x09 => Some((3, 8)) case 0x0b => Some((2, 5))
    case 0x15 => Some((1, 3)) case 0x19 => Some((1, 3))
    case 0x31 => Some((1, 100)) case 0x35 => Some((1, 3)) case 0x3b => Some((1, 100)) case 0x3f => Some((1, 100))
    case 0x40 => Some((1, 20)) case 0x47 => Some((0, 5)) case 0x54 => Some((1, 100))
    case _ =>
      if 0x10 <= op <= 0x1d then Some((2, 3))
      else if op in {0x30, 0x32, 0x33, 0x34, 0x36, 0x38, 0x3a, 0x3d, 0x41, 0x42, 0x43, 0x44, 0x45, 0x46, 0x48, 0x58,
                     0x59, 0x5a}
      then Some((0, 2))
      else None
  }

  function Args(f: Frame, n: nat): (r: seq<Word>)
    ensures |r| == n
  {
    seq(n, k requires 0 <= k => Arg(f, k))
  }

  /** The word that is pushed; `f` is the frame after the opcode was fetched. */
  function Operand(env: Env, f: Frame, db: Db, op: byte, n: nat): Option<Word>
    requires f.pc > 0
  {
    match op
    case 0x30 => Some(WordOf(f.address))
    case 0x31 => Some(Look(db, ToAddr(Arg(f, 0))).balance)
    case 0x32 => Some(WordOf(f.caller))
    case 0x33 => Some(WordOf(f.caller))
    case 0x34 => Some(f.value)
    case 0x35 => LoadCalldata(f.calldata, Low64(Arg(f, 0)))
    case 0x36 => Some(WordOf(|f.calldata|))
    case 0x38 => Some(WordOf(|f.code|))
    case 0x3b => Some(WordOf(|Look(db, ToAddr(Arg(f, 0))).code|))
    case 0x3d => Some(0)
    case 0x3f => var code := Look(db, ToAddr(Arg(f, 0))).code; Some(if code == [] then 0 else env.keccak(code))
    case 0x45 => Some(WordOf(f.gasLimit))
    case 0x47 => Some(Look(db, f.address).balance)
    case 0x54 => Some(GetStorage(db, f.address, Arg(f, 0)))
    case 0x58 => Some(WordOf(f.pc - 1))
    case 0x59 => Some(WordOf(|f.memory|))
    case 0x5a => Some(WordOf(f.gas))
    case _ => env.alu(op, Args(f, n))
  }

  function LoadCalldata(data: seq<byte>, idx: nat): Option<Word>
  {
    if idx + 31 >= U64_LIMIT then None
    else Some(BeVal(seq(32, i requires 0 <= i => if idx + i < |data| then data[idx + i] else 0)) % WORD_LIMIT)
  }

  function PlainOp(env: Env, f: Frame, db: Db, op: byte, n: nat, cost: nat): StepResult
    requires f.pc > 0
  {
    match Operand(env, f, db, op, n)
    case None => Crash
    case Some(w) => Next(UseGas(Push(env, Pop(f, n), w), cost), db)
  }

  // ---------------------------------------------------------------------------
  // Memory
  // ---------------------------------------------------------------------------

  function Words(len: nat): nat { (len + 31) / 32 }

  function Sha3Op(env: Env, f: Frame, db: Db): StepResult
  {
    var len := Low64(Arg(f, 1));
    match Region(Pop(f, 2), Low64(Arg(f, 0)), len)
    case None => Crash
    case Some((g, data)) => Next(UseGas(Push(env, g, env.keccak(data)), 30 + 6 * Words(len)), db)
  }

  /** The copying opcodes, from operand `k` on. */
  function CopyOp(f: Frame, db: Db, k: nat, source: seq<byte>, base: nat): StepResult
  {
    var dest, src, len := Low64(Arg(f, k)), Low64(Arg(f, k + 1)), Low64(Arg(f, k + 2));
    match Expand(Pop(f, k + 3), dest, len)
    case None => Crash
    case Some(g) =>
      var n := Min(len, SaturatingSub(|source|, src));
      var h := if n == 0 then g else (CopyFits(f, k, dest, len); Store(g, dest, source[src..src + n]));
      Next(UseGas(h, base + 3 * Words(len)), db)
  }

  lemma CopyFits(f: Frame, k: nat, dest: nat, len: nat)
    requires Expand(Pop(f, k + 3), dest, len).Some?
    ensures len > 0 ==> dest + len <= |Expand(Pop(f, k + 3), dest, len).value.memory|
  {
    if len > 0 {
      ExpandCovers(Pop(f, k + 3), dest, len);
    }
  }

  function MloadOp(env: Env, f: Frame, db: Db): StepResult
  {
    var off := Low64(Arg(f, 0));
    match Region(Pop(f, 1), off, 32)
    case None => Crash
    case Some((g, data)) => Next(UseGas(Push(env, g, BeVal(data) % WORD_LIMIT), 3 + (off / 32 + 1) * 3), db)
  }

  function MstoreOp(f: Frame, db: Db, data: seq<byte>): StepResult
  {
    match Write(Pop(f, 2), Low64(Arg(f, 0)), data)
    case None => Crash
    case Some(g) => Next(UseGas(g, 3), db)
  }

  function Topics(f: Frame, n: nat): seq<Word> { seq(n, i requires 0 <= i => Arg(f, 2 + i)) }

  function LogOp(f: Frame, db: Db, topics: nat): StepResult
  {
    if f.isStatic then Fail(StaticCallViolation, f, db)
    else
      var off, len := Low64(Arg(f, 0)), Low64(Arg(f, 1));
      var cost := 375 + 375 * topics + 8 * len;
      match Region(Pop(f, 2 + topics), off, len)
      case None => Crash
      case Some((g, data)) =>
        if cost >= U64_LIMIT then Crash
        else
          var log := Log(f.address, Topics(f, topics), data);
          Next(UseGas(g.(logs := g.logs + [log]), cost), db)
  }

  /** RETURN and REVERT. */
  function EndOp(f: Frame, db: Db, reverted: bool): StepResult
  {
    match Region(Pop(f, 2), Low64(Arg(f, 0)), Low64(Arg(f, 1)))
    case None => Crash
    case Some((g, data)) => Next(g.(output := data, stopped := true, reverted := g.reverted || reverted), db)
  }

  // ---------------------------------------------------------------------------
  // Control, stack and state
  // ---------------------------------------------------------------------------

  function BitLength(n: nat): nat { if n == 0 then 0 else 1 + BitLength(n / 2) }

  function ExpOp(env: Env, f: Frame, db: Db): StepResult
  {
    var e := Low64(Arg(f, 1));
    var cost := 10 + 50 * (if e == 0 then 0 else BitLength(e) / 8 + 1);
    var g := UseGas(Pop(f, 2), cost);
    if g.reverted then Next(g, db)
    else match env.alu(0x0a, Args(f, 2)) case None => Crash case Some(w) => Next(Push(env, g, w), db)
  }

  function JumpTo(f: Frame, db: Db, dest: nat, cost: nat): StepResult
  {
    if dest < |f.code| && f.code[dest] == 0x5b then Next(UseGas(f.(pc := dest + 1), cost), db)
    else Fail(InvalidJumpDest(dest), f, db)
  }

  function JumpiOp(f: Frame, db: Db): StepResult
  {
    if Arg(f, 1) != 0 then JumpTo(Pop(f, 2), db, Low64(Arg(f, 0)), 10) else Next(UseGas(Pop(f, 2), 10), db)
  }

  /** The bytes behind an opcode. */
  function Immediate(f: Frame, n: nat): (r: seq<byte>)
    ensures |r| == n
  {
    seq(n, i requires 0 <= i => if f.pc + i < |f.code| then f.code[f.pc + i] else 0)
  }

  function PushOp(env: Env, f: Frame, db: Db, n: nat): StepResult
  {
    Next(UseGas(Push(env, f.(pc := f.pc + n), BeVal(Immediate(f, n)) % WORD_LIMIT), 3), db)
  }

  function DupOp(env: Env, f: Frame, db: Db, n: nat): StepResult
    requires n > 0
  {
    Next(UseGas(if |f.stack| >= n then Push(env, f, f.stack[|f.stack| - n]) else f, 3), db)
  }

  function SwapOp(f: Frame, db: Db, n: nat): StepResult
  {
    var top := |f.stack| - 1;
    var g := if |f.stack| > n then f.(stack := f.stack[top := f.stack[top - n]][top - n := f.stack[top]]) else f;
    Next(UseGas(g, 3), db)
  }

  function SstoreOp(f: Frame, db: Db): StepResult
  {
    var slot, val, g := Arg(f, 0), Arg(f, 1), Pop(f, 2);
    if f.isStatic then Fail(StaticCallViolation, g, db)
    else
      var h := UseGas(g, 100);
      var fill := GetStorage(db, f.address, slot) == 0 && val != 0 && !h.reverted;
      Next(if fill then h.(refund := h.refund + 4800) else h, SetStorage(db, f.address, slot, val))
  }

  function SelfDestructOp(f: Frame, db: Db): StepResult
  {
    if f.isStatic then Fail(StaticCallViolation, f, db)
    else
      match Transfer(db, f.address, ToAddr(Arg(f, 0)), Look(db, f.address).balance)
      case Insufficient(need, have) => Fail(InsufficientBalance(need, have), Pop(f, 1), db)
      case Panicked => Crash
      case Moved(paid) =>
        Next(UseGas(Pop(f, 1).(stopped := true), 5000), SetAccount(paid, f.address, DEFAULT_ACCOUNT))
  }

  // ---------------------------------------------------------------------------
  // Nested runs
  // ---------------------------------------------------------------------------

  /** 63/64 of the gas, computed modulo 2^64. */
  function Share(gas: nat): nat { gas * 63 % U64_LIMIT / 64 }

  /** Enters a nested run on a database of its own. */
  function EnterSub(f: Frame, db: Db, code: seq<byte>, address: Addr, value: U128, calldata: seq<byte>, gas: nat,
                    pending: Pending): StepResult
    requires gas <= f.gas
  {
    Enter(NewFrame(code, f.caller, address, value, calldata, gas), f.(gas := f.gas - gas), db, pending)
  }

  lemma ShareBelow(gas: nat)
    ensures Share(gas) <= gas && (gas > 0 ==> Share(gas) < gas)
  {
    assert gas * 63 % U64_LIMIT <= gas * 63;
  }

  /** CALL, CALLCODE and, without a value of its own, DELEGATECALL. */
  function CallOp(f: Frame, db: Db, op: byte): StepResult
  {
    var n := if op == 0xf4 then 2 else 3;
    var value := if op == 0xf4 then 0 else ToValue(Arg(f, 2));
    if f.isStatic && value > 0 then Fail(StaticCallViolation, Pop(f, n + 4), db)
    else
      match Region(Pop(f, n + 4), Low64(Arg(f, n)), Low64(Arg(f, n + 1)))
      case None => Crash
      case Some((g, calldata)) =>
        CallAt(g, db, op, Low64(Arg(f, 0)), ToAddr(Arg(f, 1)), value, calldata,
               AfterCall(Low64(Arg(f, n + 2)), Low64(Arg(f, n + 3))))
  }

  function CallAt(f: Frame, db: Db, op: byte, gas: nat, addr: Addr, value: U128, calldata: seq<byte>,
                  pending: Pending): StepResult
  {
    var target := if op == 0xf1 then addr else f.address;
    match Transfer(db, f.caller, target, value)
    case Insufficient(need, have) => Fail(InsufficientBalance(need, have), f, db)
    case Panicked => Crash
    case Moved(paid) =>
      ShareBelow(f.gas);
      EnterSub(f, paid, Look(paid, addr).code, target, if op == 0xf4 then f.value else value, calldata,
               Min(gas, Share(f.gas)), pending)
  }

  /** CREATE and, with a salt, CREATE2. */
  function CreateOp(env: Env, f: Frame, db: Db, op: byte): StepResult
  {
    var g := UseGas(f, 32000);
    if f.isStatic then Fail(StaticCallViolation, f, db)
    else if g.reverted then Next(g, db)
    else
      match Region(Pop(g, if op == 0xf5 then 4 else 3), Low64(Arg(f, 1)), Low64(Arg(f, 2)))
      case None => Crash
      case Some((h, init)) =>
        var addr := if op == 0xf5 then env.create2Addr(f.caller, Arg(f, 3), init)
                    else env.createAddr(f.caller, Look(db, f.caller).nonce);
        CreateAt(h, db, addr, ToValue(Arg(f, 0)), init)
  }

  function CreateAt(f: Frame, db: Db, addr: Addr, value: U128, init: seq<byte>): StepResult
  {
    match Transfer(db, f.caller, addr, value)
    case Insufficient(need, have) => Fail(InsufficientBalance(need, have), f, db)
    case Panicked => Crash
    case Moved(paid) =>
      ShareBelow(f.gas);
      EnterSub(f, paid, init, addr, value, [], Share(f.gas), AfterCreate(addr, value))
  }

  // ---------------------------------------------------------------------------
  // The dispatch
  // ---------------------------------------------------------------------------

  /** `f` is the frame after the opcode was fetched. */
  function Execute(env: Env, f: Frame, db: Db, op: byte): StepResult
    requires f.pc > 0
  {
    var plain := Plain(op);
    if plain.Some? then PlainOp(env, f, db, op, plain.value.0, plain.value.1)
    else if op == 0x00 then Next(f.(stopped := true), db)
    else if op < 0x50 then LowOp(env, f, db, op)
    else if op < 0x60 then MidOp(env, f, db, op)
    else if op < 0xa0 then StackOp(env, f, db, op)
    else if op <= 0xa4 then LogOp(f, db, op - 0xa0)
    else HighOp(env, f, db, op)
  }

  /** PUSH, DUP and SWAP. */
  function StackOp(env: Env, f: Frame, db: Db, op: byte): StepResult
    requires 0x60 <= op < 0xa0
  {
    if op <= 0x7f then PushOp(env, f, db, op - 0x5f)
    else if op <= 0x8f then DupOp(env, f, db, op - 0x7f)
    else SwapOp(f, db, op - 0x8f)
  }

  function LowOp(env: Env, f: Frame, db: Db, op: byte): StepResult
  {
    if op == 0x0a then ExpOp(env, f, db)
    else if op == 0x20 then Sha3Op(env, f, db)
    else if op == 0x3c then CopyOp(f, db, 1, Look(db, ToAddr(Arg(f, 0))).code, 100)
    else if op in {0x37, 0x39, 0x3e} then CopyOp(f, db, 0, Source(f, op), 3)
    else Fail(InvalidOpcode(op), f, db)
  }

  /** What CALLDATACOPY, CODECOPY and RETURNDATACOPY copy. */
  function Source(f: Frame, op: byte): seq<byte>
  {
    if op == 0x37 then f.calldata else if op == 0x39 then f.code else f.output
  }

  function MidOp(env: Env, f: Frame, db: Db, op: byte): StepResult
  {
    if op == 0x51 then MloadOp(env, f, db)
    else if op in {0x52, 0x53} then MstoreOp(f, db, StoredBytes(op, Arg(f, 1)))
    else if op == 0x55 then SstoreOp(f, db)
    else ControlOp(env, f, db, op)
  }

  /** What MSTORE and MSTORE8 store. */
  function StoredBytes(op: byte, w: Word): (r: seq<byte>)
    ensures r != []
  {
    if op == 0x52 then ToBe(w, 32) else [w % 256]
  }

  function ControlOp(env: Env, f: Frame, db: Db, op: byte): StepResult
  {
    match op
    case 0x50 => Next(UseGas(Pop(f, 1), 2), db)
    case 0x56 => JumpTo(Pop(f, 1), db, Low64(Arg(f, 0)), 8)
    case 0x57 => JumpiOp(f, db)
    case 0x5b => Next(UseGas(f, 1), db)
    case 0x5c => if env.push0 then Next(UseGas(Push(env, f, 0), 2), db) else Fail(InvalidOpcode(op), f, db)
    case _ => Fail(InvalidOpcode(op), f, db)
  }

  function HighOp(env: Env, f: Frame, db: Db, op: byte): StepResult
  {
    if op in {0xf0, 0xf5} then CreateOp(env, f, db, op)
    else if op in {0xf1, 0xf2, 0xf4} then CallOp(f, db, op)
    else if op in {0xf3, 0xfd} then EndOp(f, db, op == 0xfd)
    else if op == 0xf7 then SelfDestructOp(f, db)
    else Fail(InvalidOpcode(op), f, db)
  }
}
