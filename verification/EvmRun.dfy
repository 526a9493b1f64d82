/** Whole runs of the virtual machine, with nested runs to any depth, and transactions
    (src/blockchain/revm_port.rs). */
module EvmRun {
  import opened Common
  import opened EvmState
  import opened EvmFrame
  import opened EvmSteps

  datatype Exit = Finished | Failed(error: VmError) | Aborted

  /** `creates` counts the contracts that this run, not its nested runs, has deployed. */
  datatype RunResult = RunResult(exit: Exit, frame: Frame, db: Db, creates: nat)

  datatype Resumed = Resumed(frame: Frame, db: Db, created: bool) | Broken

  /** Back in the caller after a nested run. */
  function Resume(env: Env, f: Frame, db: Db, pending: Pending, exit: Exit, sub: Frame): Resumed
  {
    var g := f.(gas := f.gas + sub.gas, logs := f.logs + sub.logs);
    match pending
    case AfterCall(retOff, retLen) =>
      if exit == Finished then
        match Write(g, retOff, sub.output[..Min(retLen, |sub.output|)])
        case None => Broken
        case Some(h) => Resumed(Push(env, h, 1), db, false)
      else Resumed(Push(env, g, 0), db, false)
    case AfterCreate(addr, value) =>
      if exit == Finished && sub.output != [] then
        Resumed(Push(env, g, WordOf(addr)), Commit(SetAccount(db, addr, Account(value, 0, sub.output, map[]))), true)
      else Resumed(Push(env, g, 0), db, false)
  }

  lemma ResumeOk(env: Env, f: Frame, db: Db, pending: Pending, exit: Exit, sub: Frame)
    requires Resume(env, f, db, pending, exit, sub).Resumed?
    ensures var r := Resume(env, f, db, pending, exit, sub);
            && r.frame.gas == f.gas + sub.gas && r.frame.code == f.code && r.frame.pc == f.pc
            && (FrameOk(env, f) ==> FrameOk(env, r.frame))
            && (!r.created ==> r.db == db) && (r.created ==> pending.AfterCreate? && r.db.snapshots == [])
  {
    var g := f.(gas := f.gas + sub.gas, logs := f.logs + sub.logs);
    if pending.AfterCall? && exit == Finished {
      WriteKeeps(env, g, pending.retOff, sub.output[..Min(pending.retLen, |sub.output|)]);
    }
  }

  lemma WriteKeeps(env: Env, f: Frame, off: nat, data: seq<byte>)
    requires Write(f, off, data).Some?
    ensures var g := Write(f, off, data).value;
            g == f.(memory := g.memory) && (FrameOk(env, f) ==> FrameOk(env, g))
  {
    ExpandKeeps(env, f, off, |data|);
  }

  /** A new contract gets no more than what was paid to its address before. */
  lemma ResumeNoMint(env: Env, f: Frame, db: Db, pending: Pending, exit: Exit, sub: Frame)
    requires Resume(env, f, db, pending, exit, sub).Resumed?
    requires pending.AfterCreate? ==> pending.value <= Look(db, pending.addr).balance || db.isStatic
    ensures NoMint(db, Resume(env, f, db, pending, exit, sub).db)
  {
    if pending.AfterCreate? && exit == Finished && sub.output != [] {
      var acc := Account(pending.value, 0, sub.output, map[]);
      var paid := SetAccount(db, pending.addr, acc);
      if !db.isStatic {
        SetAccountNoMint(db, pending.addr, acc);
      }
      CommitNoMint(paid);
      NoMintTrans(db, paid, Commit(paid));
    }
  }

  /** The measure of a run: gas first, then whether the database holds any code to call, then the
      length of the code, then what is left of it. */
  ghost predicate Smaller(f: Frame, db: Db, f': Frame, db': Db)
  {
    f'.gas < f.gas ||
    (f'.gas == f.gas && (HasCode(db') ==> HasCode(db)) &&
      ((!HasCode(db') && HasCode(db)) ||
       |f'.code| < |f.code| ||
       (f'.code == f.code && Left(f') < Left(f))))
  }

  function Left(f: Frame): nat { if f.Active() then |f.code| - f.pc else 0 }

  lemma NextSmaller(env: Env, f: Frame, db: Db, g: Frame, db': Db)
    requires f.Active() && OpOk(env, f.(pc := f.pc + 1), db, Next(g, db'))
    ensures Smaller(f, db, g, db')
  {
    if HasCode(db') {
      KeptCode(db, db');
    }
  }

  lemma SubSmaller(env: Env, f: Frame, db: Db, sub: Frame, g: Frame, db': Db, pending: Pending)
    requires f.Active() && OpOk(env, f.(pc := f.pc + 1), db, Enter(sub, g, db', pending))
    ensures Smaller(f, db, sub, EMPTY_DB)
  {
    EmptyHasNoCode();
    var fetched := f.(pc := f.pc + 1);
    assert EnterOk(env, fetched, db, sub, g, pending);
    if sub.gas == f.gas && sub.code != [] {
      assert HasCode(db);
    }
  }

  lemma ResumedSmaller(env: Env, f: Frame, db: Db, sub: Frame, g: Frame, db': Db, pending: Pending, exit: Exit,
                       end: Frame)
    requires f.Active() && OpOk(env, f.(pc := f.pc + 1), db, Enter(sub, g, db', pending))
    requires end.gas <= sub.gas && Resume(env, g, db', pending, exit, end).Resumed?
    ensures var r := Resume(env, g, db', pending, exit, end);
            Smaller(f, db, r.frame, r.db) && r.frame.gas <= f.gas
  {
    ResumeOk(env, g, db', pending, exit, end);
    if HasCode(db') {
      KeptCode(db, db');
    }
  }

  function Ended(f: Frame, db: Db): RunResult
  {
    RunResult(if f.reverted then Failed(Reverted(f.output)) else Finished, f, db, 0)
  }

  /** A run always ends, and with no more gas than it started with. */
  function Run(env: Env, f: Frame, db: Db): (r: RunResult)
    ensures r.frame.gas <= f.gas
    decreases f.gas, HasCode(db), |f.code|, Left(f)
  {
    if !f.Active() then Ended(f, db)
    else
      ExecuteOk(env, f.(pc := f.pc + 1), db, f.code[f.pc]);
      Continue(env, f, db, Execute(env, f.(pc := f.pc + 1), db, f.code[f.pc]))
  }

  function Continue(env: Env, f: Frame, db: Db, step: StepResult): (r: RunResult)
    requires f.Active() && OpOk(env, f.(pc := f.pc + 1), db, step)
    ensures r.frame.gas <= f.gas
    decreases f.gas, HasCode(db), |f.code|, Left(f), 0
  {
    match step
    case Next(g, db') =>
      NextSmaller(env, f, db, g, db');
      Run(env, g, db')
    case Fail(error, g, db') => RunResult(Failed(error), g, db', 0)
    case Crash => RunResult(Aborted, f, db, 0)
    case Enter(sub, g, db', pending) =>
      SubSmaller(env, f, db, sub, g, db', pending);
      var inner := Run(env, sub, EMPTY_DB);
      if inner.exit == Aborted then RunResult(Aborted, f, db, 0)
      else
        match Resume(env, g, db', pending, inner.exit, inner.frame)
        case Broken => RunResult(Aborted, f, db, 0)
        case Resumed(h, db'', created) =>
          ResumedSmaller(env, f, db, sub, g, db', pending, inner.exit, inner.frame);
          var rest := Run(env, h, db'');
          rest.(creates := rest.creates + if created then 1 else 0)
  }

  // ---------------------------------------------------------------------------
  // One step of a run
  // ---------------------------------------------------------------------------

  lemma RunIs(env: Env, f: Frame, db: Db, step: StepResult)
    requires f.Active() && Execute(env, f.(pc := f.pc + 1), db, f.code[f.pc]) == step
    ensures OpOk(env, f.(pc := f.pc + 1), db, step) && Run(env, f, db) == Continue(env, f, db, step)
  {
    var fetched, op := f.(pc := f.pc + 1), f.code[f.pc];
    ExecuteOk(env, fetched, db, op);
    RunUnfolds(env, f, db, fetched, op, step);
  }

  lemma RunUnfolds(env: Env, f: Frame, db: Db, fetched: Frame, op: byte, step: StepResult)
    requires f.Active() && fetched == f.(pc := f.pc + 1) && op == f.code[f.pc]
    requires Execute(env, fetched, db, op) == step && OpOk(env, fetched, db, step)
    ensures Run(env, f, db) == Continue(env, f, db, step)
  {
    assert Run(env, f, db) == Continue(env, f, db, Execute(env, fetched, db, op));
  }

  lemma ContinueNext(env: Env, f: Frame, db: Db, g: Frame, db': Db)
    requires f.Active() && OpOk(env, f.(pc := f.pc + 1), db, Next(g, db'))
    ensures Continue(env, f, db, Next(g, db')) == Run(env, g, db')
  {
  }

  lemma RunNext(env: Env, f: Frame, db: Db, g: Frame, db': Db)
    requires f.Active() && Execute(env, f.(pc := f.pc + 1), db, f.code[f.pc]) == Next(g, db')
    ensures Run(env, f, db) == Run(env, g, db')
  {
    RunIs(env, f, db, Next(g, db'));
    ContinueNext(env, f, db, g, db');
  }

  // ---------------------------------------------------------------------------
  // What a run keeps
  // ---------------------------------------------------------------------------

  /** Only uncommitted accounts differ. */
  predicate SameBelow(db: Db, db': Db)
  {
    db'.accounts == db.accounts && db'.files == db.files && db'.snapshots == db.snapshots && db'.isStatic == db.isStatic
  }

  /** The bounds hold at the end, and no balance came from nothing; without a deployed contract
      nothing was committed, and with one the snapshots are gone. */
  ghost predicate RunOk(env: Env, f: Frame, db: Db, r: RunResult)
  {
    && (FrameOk(env, f) ==> FrameOk(env, r.frame)) && NoMint(db, r.db)
    && (if r.creates == 0 then SameBelow(db, r.db) else r.db.snapshots == [])
  }

  lemma RunKeeps(env: Env, f: Frame, db: Db)
    ensures RunOk(env, f, db, Run(env, f, db))
    decreases f.gas, HasCode(db), |f.code|, Left(f)
  {
    if f.Active() {
      ExecuteOk(env, f.(pc := f.pc + 1), db, f.code[f.pc]);
      ContinueKeeps(env, f, db, Execute(env, f.(pc := f.pc + 1), db, f.code[f.pc]));
    }
  }

  lemma ContinueKeeps(env: Env, f: Frame, db: Db, step: StepResult)
    requires f.Active() && OpOk(env, f.(pc := f.pc + 1), db, step)
    ensures RunOk(env, f, db, Continue(env, f, db, step))
    decreases f.gas, HasCode(db), |f.code|, Left(f), 0
  {
    match step
    case Next(g, db') =>
      NextSmaller(env, f, db, g, db');
      RunKeeps(env, g, db');
      NoMintTrans(db, db', Run(env, g, db').db);
    case Fail(_, _, _) =>
    case Crash =>
    case Enter(sub, g, db', pending) =>
      SubSmaller(env, f, db, sub, g, db', pending);
      var inner := Run(env, sub, EMPTY_DB);
      if inner.exit != Aborted && Resume(env, g, db', pending, inner.exit, inner.frame).Resumed? {
        var r := Resume(env, g, db', pending, inner.exit, inner.frame);
        ResumedSmaller(env, f, db, sub, g, db', pending, inner.exit, inner.frame);
        ResumeOk(env, g, db', pending, inner.exit, inner.frame);
        ResumeNoMint(env, g, db', pending, inner.exit, inner.frame);
        RunKeeps(env, r.frame, r.db);
        NoMintTrans(db, db', r.db);
        NoMintTrans(db, r.db, Run(env, r.frame, r.db).db);
      }
  }

  // ---------------------------------------------------------------------------
  // Code that deploys nothing
  // ---------------------------------------------------------------------------

  /** Neither CREATE nor CREATE2 occurs, as an opcode or otherwise. */
  predicate NoCreate(code: seq<byte>) { 0xf0 !in code && 0xf5 !in code }

  lemma OnlyCreateDeploys(env: Env, f: Frame, db: Db, op: byte)
    requires f.pc > 0 && op != 0xf0 && op != 0xf5
    ensures var r := Execute(env, f, db, op); r.Enter? ==> r.pending.AfterCall?
  {
  }

  /** Such code deploys nothing itself, whatever it calls. */
  lemma RunWithoutCreate(env: Env, f: Frame, db: Db)
    requires NoCreate(f.code)
    ensures Run(env, f, db).creates == 0
    decreases f.gas, HasCode(db), |f.code|, Left(f)
  {
    if f.Active() {
      var op := f.code[f.pc];
      ExecuteOk(env, f.(pc := f.pc + 1), db, op);
      OnlyCreateDeploys(env, f.(pc := f.pc + 1), db, op);
      ContinueWithoutCreate(env, f, db, Execute(env, f.(pc := f.pc + 1), db, op));
    }
  }

  lemma ContinueWithoutCreate(env: Env, f: Frame, db: Db, step: StepResult)
    requires NoCreate(f.code) && f.Active() && OpOk(env, f.(pc := f.pc + 1), db, step)
    requires step.Enter? ==> step.pending.AfterCall?
    ensures Continue(env, f, db, step).creates == 0
    decreases f.gas, HasCode(db), |f.code|, Left(f), 0
  {
    match step
    case Next(g, db') =>
      NextSmaller(env, f, db, g, db');
      RunWithoutCreate(env, g, db');
    case Fail(_, _, _) =>
    case Crash =>
    case Enter(sub, g, db', pending) =>
      SubSmaller(env, f, db, sub, g, db', pending);
      var inner := Run(env, sub, EMPTY_DB);
      if inner.exit != Aborted && Resume(env, g, db', pending, inner.exit, inner.frame).Resumed? {
        var r := Resume(env, g, db', pending, inner.exit, inner.frame);
        ResumedSmaller(env, f, db, sub, g, db', pending, inner.exit, inner.frame);
        ResumeOk(env, g, db', pending, inner.exit, inner.frame);
        RunWithoutCreate(env, r.frame, r.db);
      }
  }

  // ---------------------------------------------------------------------------
  // The loop
  // ---------------------------------------------------------------------------

  lemma SmallerTrans(f: Frame, db: Db, g: Frame, db': Db, h: Frame, db'': Db)
    requires Smaller(f, db, g, db') && Smaller(g, db', h, db'')
    ensures Smaller(f, db, h, db'')
  {
  }

  /** The interpreter loop, which calls itself for nested runs. */
  method RunVm(env: Env, f0: Frame, db0: Db) returns (r: RunResult)
    ensures r == Run(env, f0, db0)
    decreases f0.gas, HasCode(db0), |f0.code|, Left(f0)
  {
    var f, db, creates := f0, db0, 0;
    while f.Active()
      invariant (f == f0 && db == db0) || Smaller(f0, db0, f, db)
      invariant Run(env, f0, db0) == Run(env, f, db).(creates := Run(env, f, db).creates + creates)
      decreases f.gas, HasCode(db), |f.code|, Left(f)
    {
      var op := f.code[f.pc];
      var fetched := f.(pc := f.pc + 1);
      ExecuteOk(env, fetched, db, op);
      var step := Execute(env, fetched, db, op);
      match step
      case Next(g, db') =>
        NextSmaller(env, f, db, g, db');
        Descend(f0, db0, f, db, g, db');
        f, db := g, db';
      case Fail(error, g, db') =>
        return RunResult(Failed(error), g, db', creates);
      case Crash =>
        return RunResult(Aborted, f, db, creates);
      case Enter(sub, g, db', pending) =>
        SubSmaller(env, f, db, sub, g, db', pending);
        Descend(f0, db0, f, db, sub, EMPTY_DB);
        var inner := RunVm(env, sub, EMPTY_DB);
        if inner.exit == Aborted {
          return RunResult(Aborted, f, db, creates);
        }
        var back := Resume(env, g, db', pending, inner.exit, inner.frame);
        if back.Broken? {
          return RunResult(Aborted, f, db, creates);
        }
        ResumedSmaller(env, f, db, sub, g, db', pending, inner.exit, inner.frame);
        Descend(f0, db0, f, db, back.frame, back.db);
        f, db := back.frame, back.db;
        creates := creates + if back.created then 1 else 0;
    }
    r := Ended(f, db).(creates := creates);
  }

  lemma Descend(f0: Frame, db0: Db, f: Frame, db: Db, g: Frame, db': Db)
    requires (f == f0 && db == db0) || Smaller(f0, db0, f, db)
    requires Smaller(f, db, g, db')
    ensures Smaller(f0, db0, g, db')
  {
    if !(f == f0 && db == db0) {
      SmallerTrans(f0, db0, f, db, g, db');
    }
  }
}
