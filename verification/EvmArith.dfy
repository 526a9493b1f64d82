/** The opcodes ADD, MUL and SUB with the 256-bit routines behind them (src/blockchain/revm_port.rs). */
module EvmArith {
  import opened Common
  import opened Messages
  import opened EvmState
  import opened EvmFrame
  import opened U256

  predicate IsArith(op: byte) { 0x01 <= op <= 0x03 }

  lemma WordWidth()
    ensures Pow256(32) == WORD_LIMIT
  {
    LimbPowers();
  }

  function Sum(a: Word, b: Word): Word { (a + b) % WORD_LIMIT }

  function Difference(a: Word, b: Word): Word { (a - b) % WORD_LIMIT }

  predicate Loses(a: Word, b: Word) { LosesCarry(LimbsOf(ToBe(a, 32)), LimbsOf(ToBe(b, 32))) }

  /** The product, short by 2^192 where the routine loses a carry. */
  function Product(a: Word, b: Word): Word { Short(a * b, Loses(a, b)) }

  function Short(n: nat, lost: bool): Word { (n - if lost then L3 else 0) % WORD_LIMIT }

  /** What the routines compute, the top of the stack first. */
  function Computed(op: byte, a: Word, b: Word): Word
    requires IsArith(op)
  {
    if op == 0x01 then Sum(a, b) else if op == 0x02 then Product(a, b) else Difference(a, b)
  }

  lemma OperandBytes(a: Word)
    ensures |ToBe(a, 32)| == 32 && BeVal(ToBe(a, 32)) == a
  {
    WordWidth();
    BeToBe(a, 32);
  }

  method AddWords(a: Word, b: Word) returns (w: Word)
    ensures w == Sum(a, b)
  {
    OperandBytes(a);
    OperandBytes(b);
    var r := Add(ToBe(a, 32), ToBe(b, 32));
    WordWidth();
    w := BeVal(r);
  }

  method SubWords(a: Word, b: Word) returns (w: Word)
    ensures w == Difference(a, b)
  {
    OperandBytes(a);
    OperandBytes(b);
    var r := Sub(ToBe(a, 32), ToBe(b, 32));
    WordWidth();
    w := BeVal(r);
  }

  method MulWords(a: Word, b: Word) returns (w: Word)
    ensures w == Product(a, b)
  {
    OperandBytes(a);
    OperandBytes(b);
    var x, y := ToBe(a, 32), ToBe(b, 32);
    w := MulBytes(x, y, a, b);
  }

  method MulBytes(x: seq<byte>, y: seq<byte>, ghost a: nat, ghost b: nat) returns (w: Word)
    requires |x| == 32 && |y| == 32 && BeVal(x) == a && BeVal(y) == b
    ensures w == Short(a * b, LosesCarry(LimbsOf(x), LimbsOf(y)))
  {
    var r := Mul(x, y);
    WordWidth();
    w := BeVal(r);
  }

  method Compute(op: byte, a: Word, b: Word) returns (w: Word)
    requires IsArith(op)
    ensures w == Computed(op, a, b)
  {
    if op == 0x01 {
      w := AddWords(a, b);
    } else if op == 0x02 {
      w := MulWords(a, b);
    } else {
      w := SubWords(a, b);
    }
  }

  /** The machine with these routines in place. */
  function WithArith(env: Env): Env
  {
    env.(alu := (op: byte, args: seq<Word>) =>
           if IsArith(op) && |args| == 2 then Some(Computed(op, args[0], args[1])) else env.alu(op, args))
  }

  lemma AluComputes(env: Env, op: byte, args: seq<Word>)
    requires IsArith(op) && |args| == 2
    ensures WithArith(env).alu(op, args) == Some(Computed(op, args[0], args[1]))
  {
  }

  lemma AluPushes(env: Env, f: Frame, db: Db, op: byte, w: Word)
    requires f.pc > 0 && IsArith(op) && env.alu(op, Args(f, 2)) == Some(w)
    ensures Execute(env, f, db, op) == Next(UseGas(Push(env, Pop(f, 2), w), if op == 0x02 then 5 else 3), db)
  {
  }

  /** The opcode replaces its two operands by the sum, product or difference. */
  lemma ArithPushes(env: Env, f: Frame, db: Db, op: byte, env': Env)
    requires f.pc > 0 && IsArith(op) && env' == WithArith(env)
    ensures Execute(env', f, db, op)
         == Next(UseGas(Push(env', Pop(f, 2), Computed(op, Arg(f, 0), Arg(f, 1))), if op == 0x02 then 5 else 3), db)
  {
    AluComputes(env, op, Args(f, 2));
    AluPushes(env', f, db, op, Computed(op, Arg(f, 0), Arg(f, 1)));
  }

  /** MUL gives the product modulo 2^256 exactly when the routine loses no carry. */
  lemma MulOpcodeExactIff(a: Word, b: Word)
    ensures Computed(0x02, a, b) == (a * b) % WORD_LIMIT <==> !Loses(a, b)
  {
    ShortIff(a * b, Loses(a, b));
  }

  lemma ShortIff(n: nat, lost: bool)
    ensures Short(n, lost) == n % WORD_LIMIT <==> !lost
  {
    NotCongruent(n);
  }
}
