/** What the opcodes that start a nested run hand to it, and what comes back (src/blockchain/revm_port.rs). */
module EvmNested {
  import opened Common
  import opened Messages
  import opened EvmState
  import opened EvmFrame
  import opened EvmLaws
  import opened EvmSteps
  import opened EvmRun

  /** A frame at the start of its code, with nothing on the stack or in memory. */
  predicate Fresh(f: Frame, code: seq<byte>, caller: Addr, address: Addr, value: U128, calldata: seq<byte>, gas: nat)
  {
    && f.code == code && f.pc == 0 && f.stack == [] && f.memory == [] && f.gas == gas && f.gasLimit == gas
    && f.caller == caller && f.address == address && f.value == value && f.calldata == calldata
    && f.output == [] && f.logs == [] && !f.stopped && !f.reverted && f.refund == 0 && !f.isStatic
  }

  // ---------------------------------------------------------------------------
  // Calls
  // ---------------------------------------------------------------------------

  /** The operands of a call, by their names. */
  datatype Call = Call(gas: nat, addr: Addr, value: U128, off: nat, len: nat, retOff: nat, retLen: nat)

  /** The operands of CALL and CALLCODE; DELEGATECALL has no value. */
  predicate CallArgs(op: byte, args: seq<Word>, call: Call)
  {
    && |args| == (if op == 0xf4 then 6 else 7)
    && call.retLen == args[0] % U64_LIMIT && call.retOff == args[1] % U64_LIMIT
    && call.len == args[2] % U64_LIMIT && call.off == args[3] % U64_LIMIT
    && call.value == (if op == 0xf4 then 0 else args[4] % U128_LIMIT)
    && call.addr == args[|args| - 2] % ADDR_LIMIT && call.gas == args[|args| - 1] % U64_LIMIT
  }

  lemma CallOperands(f: Frame, op: byte, rest: seq<Word>, args: seq<Word>, call: Call)
    requires OnTop(f.stack, rest, args) && CallArgs(op, args, call)
    ensures var n := if op == 0xf4 then 2 else 3;
            && Pop(f, n + 4) == f.(stack := rest) && call.gas == Low64(Arg(f, 0)) && call.addr == ToAddr(Arg(f, 1))
            && call.value == (if op == 0xf4 then 0 else ToValue(Arg(f, 2)))
            && call.off == Low64(Arg(f, n)) && call.len == Low64(Arg(f, n + 1))
            && call.retOff == Low64(Arg(f, n + 2)) && call.retLen == Low64(Arg(f, n + 3))
  {
    Popped(f, rest, args);
  }

  /** The gas asked for, but no more than 63/64 of what there is, computed modulo 2^64. */
  function Granted(asked: nat, gas: nat): nat { Min(asked, gas * 63 % U64_LIMIT / 64) }

  /** The account whose storage and balance the nested run has: for CALL the one that is called, otherwise
      the running one. */
  function Target(f: Frame, op: byte, call: Call): Addr { if op == 0xf1 then call.addr else f.address }

  /** What a call does. The value comes from the caller of the running code, which is also the caller of
      the nested run; DELEGATECALL keeps the value. */
  ghost predicate Calls(f: Frame, db: Db, op: byte, rest: seq<Word>, call: Call, data: seq<byte>, m: seq<byte>,
                        r: StepResult)
  {
    if f.isStatic && call.value > 0 then r == Fail(StaticCallViolation, f.(stack := rest), db)
    else if !Reachable(f.memory, call.off, call.len) then r == Crash
    else CallsAt(f.(stack := rest, memory := m), db, op, call, data, r)
  }

  ghost predicate CallsAt(f: Frame, db: Db, op: byte, call: Call, data: seq<byte>, r: StepResult)
  {
    match Transfer(db, f.caller, Target(f, op, call), call.value)
    case Insufficient(need, have) => r == Fail(InsufficientBalance(need, have), f, db)
    case Panicked => r == Crash
    case Moved(paid) =>
      var gas := Granted(call.gas, f.gas);
      && r.Enter? && r.db == paid && r.pending == AfterCall(call.retOff, call.retLen)
      && gas <= f.gas && r.f == f.(gas := f.gas - gas)
      && Fresh(r.sub, Look(paid, call.addr).code, f.caller, Target(f, op, call),
               if op == 0xf4 then f.value else call.value, data, gas)
  }

  lemma EnterSubIs(f: Frame, db: Db, code: seq<byte>, address: Addr, value: U128, calldata: seq<byte>, gas: nat,
                   pending: Pending)
    requires gas <= f.gas
    ensures var r := EnterSub(f, db, code, address, value, calldata, gas, pending);
            && r == Enter(r.sub, f.(gas := f.gas - gas), db, pending)
            && Fresh(r.sub, code, f.caller, address, value, calldata, gas)
  {
  }

  lemma CallAtIs(f: Frame, db: Db, op: byte, call: Call, data: seq<byte>)
    requires op in {0xf1, 0xf2, 0xf4}
    ensures CallsAt(f, db, op, call, data, CallAt(f, db, op, call.gas, call.addr, call.value, data,
                                                  AfterCall(call.retOff, call.retLen)))
  {
    var paid := Transfer(db, f.caller, Target(f, op, call), call.value);
    if paid.Moved? {
      var gas := Min(call.gas, Share(f.gas));
      ShareBelow(f.gas);
      assert gas == Granted(call.gas, f.gas);
      EnterSubIs(f, paid.db, Look(paid.db, call.addr).code, Target(f, op, call),
                 if op == 0xf4 then f.value else call.value, data, gas, AfterCall(call.retOff, call.retLen));
    }
  }

  lemma CallLaw(env: Env, f: Frame, db: Db, op: byte, rest: seq<Word>, args: seq<Word>, call: Call, data: seq<byte>)
    returns (m: seq<byte>)
    requires f.pc > 0 && op in {0xf1, 0xf2, 0xf4} && OnTop(f.stack, rest, args) && CallArgs(op, args, call)
    requires Reads(f.memory, call.off, call.len, data)
    ensures Calls(f, db, op, rest, call, data, m, Execute(env, f, db, op))
    ensures Reachable(f.memory, call.off, call.len) ==> Written(f.memory, m, call.off, call.len, [])
  {
    CallOperands(f, op, rest, args, call);
    m := CallOpIs(f, db, op, rest, call, data);
    HighStep(env, f, db, op);
  }

  lemma CallOpIs(f: Frame, db: Db, op: byte, rest: seq<Word>, call: Call, data: seq<byte>) returns (m: seq<byte>)
    requires op in {0xf1, 0xf2, 0xf4} && Reads(f.memory, call.off, call.len, data)
    requires var n := if op == 0xf4 then 2 else 3;
             && Pop(f, n + 4) == f.(stack := rest) && call.gas == Low64(Arg(f, 0)) && call.addr == ToAddr(Arg(f, 1))
             && call.value == (if op == 0xf4 then 0 else ToValue(Arg(f, 2)))
             && call.off == Low64(Arg(f, n)) && call.len == Low64(Arg(f, n + 1))
             && call.retOff == Low64(Arg(f, n + 2)) && call.retLen == Low64(Arg(f, n + 3))
    ensures Calls(f, db, op, rest, call, data, m, CallOp(f, db, op))
    ensures Reachable(f.memory, call.off, call.len) ==> Written(f.memory, m, call.off, call.len, [])
  {
    m := RangeOf(f, rest, call.off, call.len, data);
    CallAtIs(f.(stack := rest, memory := m), db, op, call, data);
  }

  // ---------------------------------------------------------------------------
  // Creations
  // ---------------------------------------------------------------------------

  /** The address of the new contract: from the caller of the running code and its nonce, or from the salt. */
  function NewAddress(env: Env, f: Frame, db: Db, op: byte, args: seq<Word>, init: seq<byte>): Addr
    requires |args| == if op == 0xf5 then 4 else 3
  {
    if op == 0xf5 then env.create2Addr(f.caller, args[0], init) else env.createAddr(f.caller, Look(db, f.caller).nonce)
  }

  /** What a creation does: the init code runs with 63/64 of the gas that is left. */
  ghost predicate Creates(f: Frame, db: Db, addr: Addr, value: U128, init: seq<byte>, r: StepResult)
  {
    match Transfer(db, f.caller, addr, value)
    case Insufficient(need, have) => r == Fail(InsufficientBalance(need, have), f, db)
    case Panicked => r == Crash
    case Moved(paid) =>
      var gas := f.gas * 63 % U64_LIMIT / 64;
      && r.Enter? && r.db == paid && r.pending == AfterCreate(addr, value)
      && gas <= f.gas && r.f == f.(gas := f.gas - gas)
      && Fresh(r.sub, init, f.caller, addr, value, [], gas)
  }

  lemma CreateAtIs(f: Frame, db: Db, addr: Addr, value: U128, init: seq<byte>)
    ensures Creates(f, db, addr, value, init, CreateAt(f, db, addr, value, init))
  {
    ShareBelow(f.gas);
  }

  lemma CreateOperands(f: Frame, op: byte, rest: seq<Word>, args: seq<Word>)
    requires |args| == (if op == 0xf5 then 4 else 3) && OnTop(f.stack, rest, args)
    ensures Pop(f, |args|) == f.(stack := rest) && Arg(f, 0) == args[|args| - 1] && Arg(f, 1) == args[|args| - 2]
    ensures Arg(f, 2) == args[|args| - 3] && (op == 0xf5 ==> Arg(f, 3) == args[0])
  {
    Popped(f, rest, args);
  }

  lemma CreateLaw(env: Env, f: Frame, db: Db, op: byte, rest: seq<Word>, args: seq<Word>, value: U128, off: nat,
                  len: nat, init: seq<byte>) returns (m: seq<byte>)
    requires f.pc > 0 && op in {0xf0, 0xf5} && |args| == (if op == 0xf5 then 4 else 3) && OnTop(f.stack, rest, args)
    requires value == args[|args| - 1] % U128_LIMIT
    requires off == args[|args| - 2] % U64_LIMIT && len == args[|args| - 3] % U64_LIMIT
    requires Reads(f.memory, off, len, init) && !f.reverted
    ensures var r := Execute(env, f, db, op);
            if f.isStatic then r == Fail(StaticCallViolation, f, db)
            else if f.gas < 32000 then r == Next(f.(reverted := true), db)
            else if !Reachable(f.memory, off, len) then r == Crash
            else Creates(f.(stack := rest, memory := m, gas := f.gas - 32000), db,
                         NewAddress(env, f, db, op, args, init), value, init, r)
    ensures Reachable(f.memory, off, len) ==> Written(f.memory, m, off, len, [])
  {
    CreateOperands(f, op, rest, args);
    m := CreateOpIs(env, f, db, op, rest, args, value, off, len, init);
    HighStep(env, f, db, op);
  }

  lemma CreateOpIs(env: Env, f: Frame, db: Db, op: byte, rest: seq<Word>, args: seq<Word>, value: U128, off: nat,
                   len: nat, init: seq<byte>) returns (m: seq<byte>)
    requires op in {0xf0, 0xf5} && |args| == (if op == 0xf5 then 4 else 3) && Pop(f, |args|) == f.(stack := rest)
    requires value == ToValue(Arg(f, 0)) && off == Low64(Arg(f, 1)) && len == Low64(Arg(f, 2))
    requires (op == 0xf5 ==> Arg(f, 3) == args[0]) && Reads(f.memory, off, len, init) && !f.reverted
    ensures var r := CreateOp(env, f, db, op);
            if f.isStatic then r == Fail(StaticCallViolation, f, db)
            else if f.gas < 32000 then r == Next(f.(reverted := true), db)
            else if !Reachable(f.memory, off, len) then r == Crash
            else Creates(f.(stack := rest, memory := m, gas := f.gas - 32000), db,
                         NewAddress(env, f, db, op, args, init), value, init, r)
    ensures Reachable(f.memory, off, len) ==> Written(f.memory, m, off, len, [])
  {
    var gas := if f.gas < 32000 then 0 else f.gas - 32000;
    var g := f.(gas := gas);
    m := RangeOf(g, rest, off, len, init);
    if !f.isStatic && f.gas >= 32000 && Reachable(f.memory, off, len) {
      var addr := NewAddress(env, f, db, op, args, init);
      CreateAtIs(g.(stack := rest, memory := m), db, addr, value, init);
      CreateOpRuns(env, f, db, op, g, rest, m, off, len, init, addr, value);
    }
  }

  lemma CreateOpRuns(env: Env, f: Frame, db: Db, op: byte, g: Frame, rest: seq<Word>, m: seq<byte>, off: nat, len: nat,
                     init: seq<byte>, addr: Addr, value: U128)
    requires op in {0xf0, 0xf5} && !f.isStatic && !f.reverted && f.gas >= 32000 && g == f.(gas := f.gas - 32000)
    requires Pop(f, if op == 0xf5 then 4 else 3) == f.(stack := rest)
    requires value == ToValue(Arg(f, 0)) && off == Low64(Arg(f, 1)) && len == Low64(Arg(f, 2))
    requires Region(g.(stack := rest), off, len) == Some((g.(stack := rest, memory := m), init))
    requires addr == if op == 0xf5 then env.create2Addr(f.caller, Arg(f, 3), init)
                     else env.createAddr(f.caller, Look(db, f.caller).nonce)
    ensures CreateOp(env, f, db, op) == CreateAt(g.(stack := rest, memory := m), db, addr, value, init)
  {
    assert UseGas(f, 32000) == g;
  }

  // ---------------------------------------------------------------------------
  // Back in the caller
  // ---------------------------------------------------------------------------

  /** The caller with what is left of the gas and the entries logged. */
  function Rejoined(f: Frame, sub: Frame): Frame { f.(gas := f.gas + sub.gas, logs := f.logs + sub.logs) }

  /** After a call: one and the output in memory, cut to the length asked for; zero if it failed. */
  lemma CallResumes(env: Env, f: Frame, db: Db, retOff: nat, retLen: nat, exit: Exit, sub: Frame, data: seq<byte>)
    returns (m: seq<byte>)
    requires data == if |sub.output| <= retLen then sub.output else sub.output[..retLen]
    ensures exit != Finished ==>
              Resume(env, f, db, AfterCall(retOff, retLen), exit, sub)
              == Resumed(Push(env, Rejoined(f, sub), 0), db, false)
    ensures exit == Finished ==>
              Resume(env, f, db, AfterCall(retOff, retLen), exit, sub)
              == if Coverable(f.memory, retOff, |data|)
                 then Resumed(Push(env, Rejoined(f, sub).(memory := m), 1), db, false) else Broken
    ensures Coverable(f.memory, retOff, |data|) ==> Written(f.memory, m, retOff, |data|, data)
  {
    m := f.memory;
    if data != [] {
      m := WriteLaw(Rejoined(f, sub), retOff, data);
    }
  }

  /** After a creation: the address, with the output as the code of the new account, all of it committed;
      zero if the init code failed or returned nothing. */
  lemma CreateResumes(env: Env, f: Frame, db: Db, addr: Addr, value: U128, exit: Exit, sub: Frame)
    ensures Resume(env, f, db, AfterCreate(addr, value), exit, sub)
         == if exit == Finished && |sub.output| > 0
            then Resumed(Push(env, Rejoined(f, sub), addr % WORD_LIMIT),
                         Commit(SetAccount(db, addr, Account(value, 0, sub.output, map[]))), true)
            else Resumed(Push(env, Rejoined(f, sub), 0), db, false)
  {
  }

  /** The run goes on where the nested one left off, with one more contract if one was deployed. */
  ghost predicate GoesOn(env: Env, f: Frame, db: Db, back: Resumed, r: RunResult)
  {
    if back.Broken? then r == RunResult(Aborted, f, db, 0)
    else
      var rest := Run(env, back.frame, back.db);
      r == rest.(creates := rest.creates + if back.created then 1 else 0)
  }

  /** A nested run happens on an empty database; what it stores is lost. */
  lemma NestedRun(env: Env, f: Frame, db: Db, sub: Frame, g: Frame, db': Db, pending: Pending, inner: RunResult)
    requires f.Active() && Execute(env, f.(pc := f.pc + 1), db, f.code[f.pc]) == Enter(sub, g, db', pending)
    requires inner == Run(env, sub, EMPTY_DB)
    ensures var r := Run(env, f, db);
            if inner.exit == Aborted then r == RunResult(Aborted, f, db, 0)
            else GoesOn(env, f, db, Resume(env, g, db', pending, inner.exit, inner.frame), r)
  {
    RunIs(env, f, db, Enter(sub, g, db', pending));
    NestedContinues(env, f, db, sub, g, db', pending, inner);
  }

  lemma NestedContinues(env: Env, f: Frame, db: Db, sub: Frame, g: Frame, db': Db, pending: Pending, inner: RunResult)
    requires f.Active() && OpOk(env, f.(pc := f.pc + 1), db, Enter(sub, g, db', pending))
    requires inner == Run(env, sub, EMPTY_DB)
    ensures var r := Continue(env, f, db, Enter(sub, g, db', pending));
            if inner.exit == Aborted then r == RunResult(Aborted, f, db, 0)
            else GoesOn(env, f, db, Resume(env, g, db', pending, inner.exit, inner.frame), r)
  {
  }

  // ---------------------------------------------------------------------------
  // How a run ends
  // ---------------------------------------------------------------------------

  /** A step after which the frame is no longer active ends the run: with success, unless it was reverted or
      the gas or the stack did not suffice. */
  lemma StepEnds(env: Env, f: Frame, db: Db, g: Frame, db': Db)
    requires f.Active() && Execute(env, f.(pc := f.pc + 1), db, f.code[f.pc]) == Next(g, db') && !g.Active()
    ensures Run(env, f, db) == RunResult(if g.reverted then Failed(Reverted(g.output)) else Finished, g, db', 0)
  {
    RunNext(env, f, db, g, db');
  }

  /** A step that fails ends the run with its error, and one that panics aborts it. */
  lemma StepFails(env: Env, f: Frame, db: Db, r: StepResult)
    requires f.Active() && Execute(env, f.(pc := f.pc + 1), db, f.code[f.pc]) == r && (r.Fail? || r.Crash?)
    ensures Run(env, f, db)
         == if r.Crash? then RunResult(Aborted, f, db, 0) else RunResult(Failed(r.error), r.f, r.db, 0)
  {
    RunIs(env, f, db, r);
  }

  /** A run that comes to RETURN finishes with a range of memory as output, and one that comes to REVERT fails
      with it, without loss of gas. */
  lemma EndRuns(env: Env, f: Frame, db: Db, op: byte, rest: seq<Word>, size: Word, at: Word, off: nat, len: nat,
                data: seq<byte>) returns (end: Frame)
    requires f.Active() && f.code[f.pc] == op && op in {0xf3, 0xfd} && OnTop(f.stack, rest, [size, at])
    requires off == at % U64_LIMIT && len == size % U64_LIMIT
    requires Reads(f.memory, off, len, data) && Reachable(f.memory, off, len)
    ensures Run(env, f, db) == RunResult(if op == 0xfd then Failed(Reverted(data)) else Finished, end, db, 0)
    ensures end.output == data && end.gas == f.gas && end.logs == f.logs
  {
    var m := EndLaw(env, f.(pc := f.pc + 1), db, op, rest, size, at, off, len, data);
    end := f.(pc := f.pc + 1, stack := rest, memory := m, output := data, stopped := true, reverted := op == 0xfd);
    StepEnds(env, f, db, end, db);
  }
}
