/** Building and verifying blocks (src/execution.rs). Hashes, signature checks and the payload
    interpreters are parameters. */
module Execution {
  import opened Common
  import opened BaseFee

  type Address = seq<byte>
  type Hash = nat

  const INTRINSIC_GAS: nat := 21000
  const GAS_PER_BYTE: nat := 10

  datatype Tx = Tx(
    from: Address,
    pubkey: seq<byte>,
    nonce: nat,
    chainId: nat,
    gasLimit: nat,
    maxFeePerGas: nat,
    maxPriorityFeePerGas: nat,
    payload: seq<byte>,
    signature: seq<byte>)

  datatype State = State(
    kv: map<seq<byte>, seq<byte>>, balances: map<Address, nat>, nonces: map<Address, nat>, burned: nat)

  datatype Receipt = Receipt(
    txHash: Hash, success: bool, gasUsed: nat, intrinsicGasUsed: nat, execGasUsed: nat, vmGasUsed: nat,
    evmGasUsed: nat, effectiveGasPrice: nat, burned: nat, tip: nat, data: seq<byte>)

  datatype Config = Config(
    chainId: nat, verifySignatures: bool, verifyStateRoots: bool, verifyTxRoots: bool, maxPayloadSize: nat)

  /** What a payload does to the state, and the gas beyond the intrinsic gas. */
  datatype Payload = Payload(success: bool, output: seq<byte>, extraGas: nat, kv: map<seq<byte>, seq<byte>>,
                             balances: map<Address, nat>)

  /** `execute` runs the EVM or the key-value command; it sees the whole state and the base fee and
      may change balances and keys, but not nonces. */
  datatype Env = Env(
    deriveAddress: seq<byte> -> Address,
    verifySignature: Tx -> bool,
    execute: (State, Tx, nat) -> Payload,
    txHash: Tx -> Hash,
    stateRoot: State -> Hash,
    txRoot: seq<Tx> -> Hash,
    receiptsRoot: seq<Receipt> -> Hash,
    protocolVersion: nat)

  datatype Error =
    | AddressMismatch
    | InvalidSignature
    | ChainIdMismatch
    | NonceMismatch(expected: nat, actual: nat)
    | PayloadTooLarge
    | GasLimitTooLow
    | FeeTooLow
    | InsufficientBalance(needed: nat, available: nat)
    | ProposerMismatch
    | GasUsedMismatch
    | TxRootMismatch
    | ReceiptsRootMismatch
    | StateRootMismatch

  /** `Panicked` is the overflow check of 64-bit arithmetic. */
  datatype Result<+T> = Ok(value: T) | Err(error: Error) | Panicked

  // ---------------------------------------------------------------------------
  // One transaction
  // ---------------------------------------------------------------------------

  function Get(m: map<Address, nat>, a: Address): nat { if a in m then m[a] else 0 }

  function IntrinsicGas(tx: Tx): nat { INTRINSIC_GAS + |tx.payload| * GAS_PER_BYTE }

  function SenderOf(env: Env, tx: Tx): Address { env.deriveAddress(tx.pubkey) }

  /** The first check that the transaction fails. */
  function FirstFault(env: Env, cfg: Config, st: State, tx: Tx, baseFee: nat): Option<Error>
  {
    var sender := SenderOf(env, tx);
    if cfg.verifySignatures && tx.from != sender then Some(AddressMismatch)
    else if cfg.verifySignatures && !env.verifySignature(tx) then Some(InvalidSignature)
    else if cfg.chainId != tx.chainId then Some(ChainIdMismatch)
    else if tx.nonce != Get(st.nonces, sender) then Some(NonceMismatch(Get(st.nonces, sender), tx.nonce))
    else if |tx.payload| > cfg.maxPayloadSize then Some(PayloadTooLarge)
    else if tx.gasLimit < IntrinsicGas(tx) then Some(GasLimitTooLow)
    else if tx.maxFeePerGas < baseFee then Some(FeeTooLow)
    else None
  }

  /** Gas is paid, the tip goes to the proposer and the nonce moves on. */
  function Charge(st: State, sender: Address, proposer: Address, cost: nat, burned: nat, tip: nat, nonce: nat)
    : Option<State>
    requires cost <= Get(st.balances, sender)
  {
    var paid := st.balances[sender := Get(st.balances, sender) - cost];
    if st.burned + burned >= U64_LIMIT || Get(paid, proposer) + tip >= U64_LIMIT || nonce + 1 >= U64_LIMIT then None
    else
      var tipped := paid[proposer := Get(paid, proposer) + tip];
      Some(State(st.kv, tipped, st.nonces[sender := nonce + 1], st.burned + burned))
  }

  /** The payload runs and unused gas is given back. */
  function Settle(env: Env, st: State, tx: Tx, baseFee: nat, prices: (nat, nat, nat)): Result<(Receipt, State)>
  {
    var sender, intrinsic := SenderOf(env, tx), IntrinsicGas(tx);
    var p := env.execute(st, tx, baseFee);
    var gasUsed := intrinsic + p.extraGas;
    var refund := SaturatingSub(tx.gasLimit, gasUsed) * prices.0;
    var given := Get(p.balances, sender) + refund;
    if gasUsed >= U64_LIMIT || refund >= U64_LIMIT || given >= U64_LIMIT then Panicked
    else
      var balances := if tx.gasLimit > gasUsed then p.balances[sender := given] else p.balances;
      var receipt := Receipt(env.txHash(tx), p.success, gasUsed, intrinsic, p.extraGas, 0,
                             if p.success then p.extraGas else 0, prices.0,
                             intrinsic * prices.1, intrinsic * prices.2, p.output);
      Ok((receipt, State(p.kv, balances, st.nonces, st.burned)))
  }

  function ApplyTx(env: Env, cfg: Config, st: State, tx: Tx, baseFee: nat, proposer: Address): Result<(Receipt, State)>
  {
    match FirstFault(env, cfg, st, tx, baseFee)
    case Some(e) => Err(e)
    case None =>
      var sender, intrinsic := SenderOf(env, tx), IntrinsicGas(tx);
      var prices := EffectivePrices(baseFee, tx.maxFeePerGas, tx.maxPriorityFeePerGas);
      var cost := intrinsic * prices.0;
      if cost >= U64_LIMIT then Panicked
      else if Get(st.balances, sender) < cost then Err(InsufficientBalance(cost, Get(st.balances, sender)))
      else
        match Charge(st, sender, proposer, cost, intrinsic * prices.1, intrinsic * prices.2, tx.nonce)
        case None => Panicked
        case Some(charged) => Settle(env, charged, tx, baseFee, prices)
  }

  // ---------------------------------------------------------------------------
  // Which transactions are applied, and to what effect
  // ---------------------------------------------------------------------------

  /** The transaction is by the owner of its key, as far as that is checked. */
  predicate Signed(env: Env, cfg: Config, tx: Tx)
  {
    cfg.verifySignatures ==> tx.from == env.deriveAddress(tx.pubkey) && env.verifySignature(tx)
  }

  /** The price of a unit of gas: base fee and tip, within the maximum. */
  function Price(tx: Tx, baseFee: nat): nat { Min(tx.maxFeePerGas, baseFee + tx.maxPriorityFeePerGas) }

  /** Signed, of this chain, next in line, small enough, with gas and fees, and paid for. */
  predicate Admissible(env: Env, cfg: Config, st: State, tx: Tx, baseFee: nat)
  {
    var sender, gas := env.deriveAddress(tx.pubkey), 21000 + 10 * |tx.payload|;
    && Signed(env, cfg, tx)
    && tx.chainId == cfg.chainId
    && tx.nonce == Get(st.nonces, sender)
    && |tx.payload| <= cfg.maxPayloadSize
    && gas <= tx.gasLimit
    && baseFee <= tx.maxFeePerGas
    && gas * Price(tx, baseFee) <= Get(st.balances, sender)
  }

  lemma PriceIs(tx: Tx, baseFee: nat)
    requires baseFee <= tx.maxFeePerGas
    ensures var prices := EffectivePrices(baseFee, tx.maxFeePerGas, tx.maxPriorityFeePerGas);
            prices.0 == Price(tx, baseFee) && prices.1 == baseFee && prices.2 == Price(tx, baseFee) - baseFee
  {
  }

  /** The state after the gas was paid: the sender pays the price, the base fee is burned and the proposer
      gets the rest; the sender's nonce is one higher. */
  ghost predicate IsPaid(st: State, sender: Address, proposer: Address, gas: nat, price: nat, baseFee: nat, paid: State)
  {
    && (forall a :: Get(paid.balances, a) == Get(st.balances, a) - (if a == sender then gas * price else 0)
                                             + (if a == proposer then gas * (price - baseFee) else 0))
    && paid.burned == st.burned + gas * baseFee
    && paid.kv == st.kv
    && forall a :: Get(paid.nonces, a) == Get(st.nonces, a) + if a == sender then 1 else 0
  }

  /** The 64-bit sums of the payment fit. */
  predicate PaymentFits(env: Env, st: State, tx: Tx, baseFee: nat, proposer: Address)
  {
    var sender, gas, price := env.deriveAddress(tx.pubkey), 21000 + 10 * |tx.payload|, Price(tx, baseFee);
    && gas * price < U64_LIMIT && st.burned + gas * baseFee < U64_LIMIT && tx.nonce + 1 < U64_LIMIT
    && Get(st.balances, proposer) - (if proposer == sender then gas * price else 0) + gas * (price - baseFee)
       < U64_LIMIT
  }

  /** And those after the payload: gas used, refund, and the balance that gets it. */
  predicate SettlementFits(env: Env, tx: Tx, baseFee: nat, paid: State)
  {
    var p := env.execute(paid, tx, baseFee);
    var used := 21000 + 10 * |tx.payload| + p.extraGas;
    var refund := (if used < tx.gasLimit then tx.gasLimit - used else 0) * Price(tx, baseFee);
    used < U64_LIMIT && refund < U64_LIMIT && Get(p.balances, env.deriveAddress(tx.pubkey)) + refund < U64_LIMIT
  }

  lemma PaymentMade(env: Env, cfg: Config, st: State, tx: Tx, baseFee: nat, proposer: Address)
    requires Admissible(env, cfg, st, tx, baseFee)
    ensures ChargedFor(env, st, tx, baseFee, proposer).Some?
            <==> st.burned + (21000 + 10 * |tx.payload|) * baseFee < U64_LIMIT && tx.nonce + 1 < U64_LIMIT
                 && Get(st.balances, proposer)
                    - (if proposer == env.deriveAddress(tx.pubkey)
                       then (21000 + 10 * |tx.payload|) * Price(tx, baseFee) else 0)
                    + (21000 + 10 * |tx.payload|) * (Price(tx, baseFee) - baseFee) < U64_LIMIT
    ensures ChargedFor(env, st, tx, baseFee, proposer).Some? ==>
              IsPaid(st, env.deriveAddress(tx.pubkey), proposer, 21000 + 10 * |tx.payload|, Price(tx, baseFee), baseFee,
                     ChargedFor(env, st, tx, baseFee, proposer).value)
  {
    PriceIs(tx, baseFee);
  }

  /** A transaction is applied exactly when it is admissible and nothing overflows. */
  lemma AppliedIff(env: Env, cfg: Config, st: State, tx: Tx, baseFee: nat, proposer: Address)
    ensures ApplyTx(env, cfg, st, tx, baseFee, proposer).Ok?
            <==> && Admissible(env, cfg, st, tx, baseFee) && PaymentFits(env, st, tx, baseFee, proposer)
                 && var paid := ChargedFor(env, st, tx, baseFee, proposer);
                    paid.Some? && SettlementFits(env, tx, baseFee, paid.value)
  {
    if baseFee <= tx.maxFeePerGas {
      PriceIs(tx, baseFee);
    }
    if Admissible(env, cfg, st, tx, baseFee) {
      PaymentMade(env, cfg, st, tx, baseFee, proposer);
    }
  }

  /** What an applied transaction does: it pays, its payload runs on the paid state, and the sender gets the
      price of the gas that was left back. */
  lemma AppliedEffect(env: Env, cfg: Config, st: State, tx: Tx, baseFee: nat, proposer: Address)
    requires ApplyTx(env, cfg, st, tx, baseFee, proposer).Ok?
    ensures ChargedFor(env, st, tx, baseFee, proposer).Some?
    ensures var paid := ChargedFor(env, st, tx, baseFee, proposer).value;
            IsPaid(st, env.deriveAddress(tx.pubkey), proposer, 21000 + 10 * |tx.payload|, Price(tx, baseFee), baseFee,
                   paid)
    ensures var paid := ChargedFor(env, st, tx, baseFee, proposer).value;
            var (receipt, st') := ApplyTx(env, cfg, st, tx, baseFee, proposer).value;
            var p := env.execute(paid, tx, baseFee);
            var gas, price := 21000 + 10 * |tx.payload|, Price(tx, baseFee);
            var left := if gas + p.extraGas < tx.gasLimit then tx.gasLimit - gas - p.extraGas else 0;
            && (forall a :: Get(st'.balances, a)
                            == Get(p.balances, a) + if a == env.deriveAddress(tx.pubkey) then left * price else 0)
            && st'.kv == p.kv && st'.nonces == paid.nonces && st'.burned == paid.burned
            && receipt == Receipt(env.txHash(tx), p.success, gas + p.extraGas, gas, p.extraGas, 0,
                                  if p.success then p.extraGas else 0, price, gas * baseFee, gas * (price - baseFee),
                                  p.output)
  {
    AppliedIff(env, cfg, st, tx, baseFee, proposer);
    PaymentMade(env, cfg, st, tx, baseFee, proposer);
    PriceIs(tx, baseFee);
  }

  /** Which error a refused transaction gets: the first thing wrong with it, in this order. */
  lemma RefusedBecause(env: Env, cfg: Config, st: State, tx: Tx, baseFee: nat, proposer: Address)
    ensures var r := ApplyTx(env, cfg, st, tx, baseFee, proposer);
            var sender, gas := env.deriveAddress(tx.pubkey), 21000 + 10 * |tx.payload|;
            var byOwner := cfg.verifySignatures ==> tx.from == sender;
            var signed := Signed(env, cfg, tx);
            var here := signed && tx.chainId == cfg.chainId;
            var next := here && tx.nonce == Get(st.nonces, sender);
            var small := next && |tx.payload| <= cfg.maxPayloadSize;
            var fuelled := small && gas <= tx.gasLimit;
            var willing := fuelled && baseFee <= tx.maxFeePerGas;
            && (r == Err(AddressMismatch) <==> !byOwner)
            && (r == Err(InvalidSignature) <==> byOwner && !signed)
            && (r == Err(ChainIdMismatch) <==> signed && !here)
            && (r == Err(NonceMismatch(Get(st.nonces, sender), tx.nonce)) <==> here && !next)
            && (r == Err(PayloadTooLarge) <==> next && !small)
            && (r == Err(GasLimitTooLow) <==> small && !fuelled)
            && (r == Err(FeeTooLow) <==> fuelled && !willing)
            && (willing && gas * Price(tx, baseFee) < U64_LIMIT && Get(st.balances, sender) < gas * Price(tx, baseFee)
                <==> r == Err(InsufficientBalance(gas * Price(tx, baseFee), Get(st.balances, sender))))
  {
    if baseFee <= tx.maxFeePerGas {
      PriceIs(tx, baseFee);
    }
  }

  /** An applied transaction carries the nonce of its sender and raises it by one; no other nonce moves. */
  lemma NonceAdvances(env: Env, cfg: Config, st: State, tx: Tx, baseFee: nat, proposer: Address)
    requires ApplyTx(env, cfg, st, tx, baseFee, proposer).Ok?
    ensures var st' := ApplyTx(env, cfg, st, tx, baseFee, proposer).value.1;
            && tx.nonce == Get(st.nonces, SenderOf(env, tx))
            && st'.nonces == st.nonces[SenderOf(env, tx) := tx.nonce + 1]
            && tx.chainId == cfg.chainId
  {
  }

  // ---------------------------------------------------------------------------
  // The supply
  // ---------------------------------------------------------------------------

  ghost function Sum(m: map<Address, nat>): nat
  {
    if m == map[] then 0 else
      var a :| a in m;
      m[a] + Sum(m - {a})
  }

  lemma {:induction false} SumSplit(m: map<Address, nat>, a: Address)
    requires a in m
    ensures Sum(m) == m[a] + Sum(m - {a})
    decreases |m|
  {
    var b :| b in m && Sum(m) == m[b] + Sum(m - {b});
    if a != b {
      SumSplit(m - {b}, a);
      SumSplit(m - {a}, b);
      assert m - {b} - {a} == m - {a} - {b};
    }
  }

  lemma SumUpdate(m: map<Address, nat>, a: Address, v: nat)
    ensures Sum(m[a := v]) == Sum(m) - Get(m, a) + v
  {
    SumSplit(m[a := v], a);
    if a in m {
      SumSplit(m, a);
      assert m[a := v] - {a} == m - {a};
    } else {
      assert m[a := v] - {a} == m;
    }
  }

  /** All balances and what was burned. */
  ghost function Supply(st: State): nat { Sum(st.balances) + st.burned }

  lemma ChargeConserves(st: State, sender: Address, proposer: Address, cost: nat, burned: nat, tip: nat, nonce: nat)
    requires cost <= Get(st.balances, sender) && cost == burned + tip
    requires Charge(st, sender, proposer, cost, burned, tip, nonce).Some?
    ensures Supply(Charge(st, sender, proposer, cost, burned, tip, nonce).value) == Supply(st)
  {
    var paid := st.balances[sender := Get(st.balances, sender) - cost];
    SumUpdate(st.balances, sender, Get(st.balances, sender) - cost);
    SumUpdate(paid, proposer, Get(paid, proposer) + tip);
  }

  /** The state in which the payload of an applied transaction runs. */
  function ChargedFor(env: Env, st: State, tx: Tx, baseFee: nat, proposer: Address): Option<State>
  {
    var prices := EffectivePrices(baseFee, tx.maxFeePerGas, tx.maxPriorityFeePerGas);
    var intrinsic := IntrinsicGas(tx);
    if Get(st.balances, SenderOf(env, tx)) < intrinsic * prices.0 then None
    else
      Charge(st, SenderOf(env, tx), proposer, intrinsic * prices.0, intrinsic * prices.1, intrinsic * prices.2,
             tx.nonce)
  }

  /** What an applied transaction is paid for gas that it did not use. */
  function Refund(tx: Tx, receipt: Receipt): nat
  {
    SaturatingSub(tx.gasLimit, receipt.gasUsed) * receipt.effectiveGasPrice
  }

  lemma Distributes(n: nat, a: nat, b: nat)
    ensures n * (a + b) == n * a + n * b
  {
  }

  lemma SettleSupply(env: Env, st: State, tx: Tx, baseFee: nat, prices: (nat, nat, nat))
    requires Settle(env, st, tx, baseFee, prices).Ok?
    ensures var (receipt, st') := Settle(env, st, tx, baseFee, prices).value;
            Supply(st') == Sum(env.execute(st, tx, baseFee).balances) + Refund(tx, receipt) + st.burned
  {
    var p := env.execute(st, tx, baseFee);
    var (receipt, _) := Settle(env, st, tx, baseFee, prices).value;
    SumUpdate(p.balances, SenderOf(env, tx), Get(p.balances, SenderOf(env, tx)) + Refund(tx, receipt));
  }

  /** The supply changes by what the payload does to the balances and by the refund, which gives back
      gas that was never charged. */
  lemma SupplyChange(env: Env, cfg: Config, st: State, tx: Tx, baseFee: nat, proposer: Address)
    requires ApplyTx(env, cfg, st, tx, baseFee, proposer).Ok?
    ensures ChargedFor(env, st, tx, baseFee, proposer).Some?
    ensures var (receipt, st') := ApplyTx(env, cfg, st, tx, baseFee, proposer).value;
            var charged := ChargedFor(env, st, tx, baseFee, proposer).value;
            Supply(st') - Supply(st)
            == Refund(tx, receipt) + Sum(env.execute(charged, tx, baseFee).balances) - Sum(charged.balances)
  {
    var prices := EffectivePrices(baseFee, tx.maxFeePerGas, tx.maxPriorityFeePerGas);
    var intrinsic := IntrinsicGas(tx);
    Distributes(intrinsic, prices.1, prices.2);
    var charged := ChargedFor(env, st, tx, baseFee, proposer).value;
    ChargeConserves(st, SenderOf(env, tx), proposer, intrinsic * prices.0, intrinsic * prices.1, intrinsic * prices.2,
                    tx.nonce);
    SettleSupply(env, charged, tx, baseFee, prices);
  }

  /** The payload leaves the balances alone, as the key-value commands do. */
  ghost predicate LeavesBalances(env: Env, st: State, tx: Tx, baseFee: nat)
  {
    env.execute(st, tx, baseFee).balances == st.balances
  }

  /** What the receipt of an applied transaction says about gas, from what goes in. */
  lemma ReceiptGas(env: Env, cfg: Config, st: State, tx: Tx, baseFee: nat, proposer: Address)
    requires ApplyTx(env, cfg, st, tx, baseFee, proposer).Ok?
    ensures ChargedFor(env, st, tx, baseFee, proposer).Some?
    ensures var receipt := ApplyTx(env, cfg, st, tx, baseFee, proposer).value.0;
            var charged := ChargedFor(env, st, tx, baseFee, proposer).value;
            && receipt.gasUsed == IntrinsicGas(tx) + env.execute(charged, tx, baseFee).extraGas
            && receipt.effectiveGasPrice == EffectivePrices(baseFee, tx.maxFeePerGas, tx.maxPriorityFeePerGas).0
            && IntrinsicGas(tx) <= tx.gasLimit
  {
  }

  /** When its payload leaves the balances alone, an applied transaction keeps the supply exactly when its
      gas limit is no more than the gas that it uses, or gas is free. */
  lemma SupplyKeptIff(env: Env, cfg: Config, st: State, tx: Tx, baseFee: nat, proposer: Address, charged: State)
    requires ApplyTx(env, cfg, st, tx, baseFee, proposer).Ok?
    requires ChargedFor(env, st, tx, baseFee, proposer) == Some(charged) && LeavesBalances(env, charged, tx, baseFee)
    ensures Supply(ApplyTx(env, cfg, st, tx, baseFee, proposer).value.1) == Supply(st)
            <==> || tx.gasLimit <= IntrinsicGas(tx) + env.execute(charged, tx, baseFee).extraGas
                 || EffectivePrices(baseFee, tx.maxFeePerGas, tx.maxPriorityFeePerGas).0 == 0
  {
    SupplyChange(env, cfg, st, tx, baseFee, proposer);
    ReceiptGas(env, cfg, st, tx, baseFee, proposer);
    var (receipt, _) := ApplyTx(env, cfg, st, tx, baseFee, proposer).value;
    ProductZero(SaturatingSub(tx.gasLimit, receipt.gasUsed), receipt.effectiveGasPrice);
  }

  /** A key-value payload uses no gas beyond the intrinsic gas: the supply is kept exactly when the gas
      limit is the intrinsic gas, or gas is free. */
  lemma KeyValueSupplyKeptIff(env: Env, cfg: Config, st: State, tx: Tx, baseFee: nat, proposer: Address, charged: State)
    requires ApplyTx(env, cfg, st, tx, baseFee, proposer).Ok?
    requires ChargedFor(env, st, tx, baseFee, proposer) == Some(charged) && LeavesBalances(env, charged, tx, baseFee)
    requires env.execute(charged, tx, baseFee).extraGas == 0
    ensures Supply(ApplyTx(env, cfg, st, tx, baseFee, proposer).value.1) == Supply(st)
            <==> || tx.gasLimit == IntrinsicGas(tx)
                 || EffectivePrices(baseFee, tx.maxFeePerGas, tx.maxPriorityFeePerGas).0 == 0
  {
    SupplyKeptIff(env, cfg, st, tx, baseFee, proposer, charged);
    ReceiptGas(env, cfg, st, tx, baseFee, proposer);
  }

  /** One unit of gas more than the intrinsic gas, at a price of one, makes one unit from nothing. */
  lemma SupplyGrows(env: Env, cfg: Config, tx: Tx, proposer: Address, st: State, charged: State)
    requires cfg.verifySignatures ==> tx.from == SenderOf(env, tx) && env.verifySignature(tx)
    requires tx.chainId == cfg.chainId && tx.nonce == 0 && tx.payload == []
    requires tx.gasLimit == 21001 && tx.maxFeePerGas == 1 && tx.maxPriorityFeePerGas == 0
    requires st == State(map[], map[SenderOf(env, tx) := 21000], map[], 0)
    requires ChargedFor(env, st, tx, 1, proposer) == Some(charged) && LeavesBalances(env, charged, tx, 1)
    requires env.execute(charged, tx, 1).extraGas == 0
    ensures var r := ApplyTx(env, cfg, st, tx, 1, proposer);
            r.Ok? && Supply(st) == 21000 && Supply(r.value.1) == 21001
  {
    var r := ApplyTx(env, cfg, st, tx, 1, proposer);
    assert r.Ok?;
    SupplyChange(env, cfg, st, tx, 1, proposer);
    SumSplit(st.balances, SenderOf(env, tx));
    assert st.balances - {SenderOf(env, tx)} == map[];
    assert Sum(st.balances) == 21000;
  }

  lemma ProductZero(a: nat, b: nat)
    ensures a * b == 0 <==> a == 0 || b == 0
  {
  }

  // ---------------------------------------------------------------------------
  // The transactions of a block
  // ---------------------------------------------------------------------------

  datatype Applied = Applied(state: State, receipts: seq<Receipt>, gasUsed: nat) {
    function Add(receipt: Receipt, next: State): Applied
    {
      Applied(next, receipts + [receipt], gasUsed + receipt.gasUsed)
    }
  }

  function ApplyAll(env: Env, cfg: Config, acc: Applied, txs: seq<Tx>, baseFee: nat, proposer: Address): Result<Applied>
    decreases |txs|
  {
    if txs == [] then Ok(acc)
    else
      match ApplyTx(env, cfg, acc.state, txs[0], baseFee, proposer)
      case Err(e) => Err(e)
      case Panicked => Panicked
      case Ok((receipt, next)) =>
        if acc.gasUsed + receipt.gasUsed >= U64_LIMIT then Panicked
        else ApplyAll(env, cfg, acc.Add(receipt, next), txs[1..], baseFee, proposer)
  }

  /** One turn of the loop. */
  method ApplyNext(env: Env, cfg: Config, acc: Applied, txs: seq<Tx>, i: nat, baseFee: nat, proposer: Address)
    returns (r: Result<Applied>)
    requires i < |txs|
    ensures ApplyAll(env, cfg, acc, txs[i..], baseFee, proposer)
         == if r.Ok? then ApplyAll(env, cfg, r.value, txs[i + 1..], baseFee, proposer) else r
  {
    assert txs[i..][0] == txs[i] && txs[i..][1..] == txs[i + 1..];
    var one := ApplyTx(env, cfg, acc.state, txs[i], baseFee, proposer);
    match one
    case Err(e) => return Err(e);
    case Panicked => return Panicked;
    case Ok((receipt, next)) =>
      if acc.gasUsed + receipt.gasUsed >= U64_LIMIT {
        return Panicked;
      }
      return Ok(acc.Add(receipt, next));
  }

  method ApplyLoop(env: Env, cfg: Config, st: State, txs: seq<Tx>, baseFee: nat, proposer: Address)
    returns (r: Result<Applied>)
    ensures r == ApplyAll(env, cfg, Applied(st, [], 0), txs, baseFee, proposer)
  {
    var acc := Applied(st, [], 0);
    assert txs[0..] == txs;
    ghost var goal := ApplyAll(env, cfg, acc, txs, baseFee, proposer);
    for i := 0 to |txs|
      invariant ApplyAll(env, cfg, acc, txs[i..], baseFee, proposer) == goal
    {
      var next := ApplyNext(env, cfg, acc, txs, i, baseFee, proposer);
      if !next.Ok? {
        return next;
      }
      acc := next.value;
    }
    return Ok(acc);
  }

  /** Gas over the receipts of a block, in all and by kind. */
  datatype GasSums = GasSums(used: nat, intrinsic: nat, exec: nat, vm: nat, evm: nat)

  function SumGas(receipts: seq<Receipt>): GasSums
  {
    if receipts == [] then GasSums(0, 0, 0, 0, 0)
    else
      var n := |receipts| - 1;
      var sums, r := SumGas(receipts[..n]), receipts[n];
      GasSums(sums.used + r.gasUsed, sums.intrinsic + r.intrinsicGasUsed, sums.exec + r.execGasUsed,
              sums.vm + r.vmGasUsed, sums.evm + r.evmGasUsed)
  }

  /** The gas counted in the loop is the gas of the receipts, split into intrinsic and execution gas; so
      no sum over receipts overflows when that one does not. */
  ghost predicate Counted(acc: Applied)
  {
    var gas := SumGas(acc.receipts);
    acc.gasUsed == gas.used == gas.intrinsic + gas.exec && gas.vm == 0 && gas.evm <= gas.exec && acc.gasUsed < U64_LIMIT
  }

  lemma OneCounted(env: Env, cfg: Config, acc: Applied, tx: Tx, baseFee: nat, proposer: Address)
    requires Counted(acc) && ApplyTx(env, cfg, acc.state, tx, baseFee, proposer).Ok?
    ensures var (receipt, next) := ApplyTx(env, cfg, acc.state, tx, baseFee, proposer).value;
            acc.gasUsed + receipt.gasUsed < U64_LIMIT ==> Counted(acc.Add(receipt, next))
  {
    var (receipt, next) := ApplyTx(env, cfg, acc.state, tx, baseFee, proposer).value;
    assert receipt.gasUsed == receipt.intrinsicGasUsed + receipt.execGasUsed;
    var all := acc.receipts + [receipt];
    assert all[..|all| - 1] == acc.receipts;
  }

  lemma {:induction false} AllCounted(env: Env, cfg: Config, acc: Applied, txs: seq<Tx>, baseFee: nat,
                                      proposer: Address)
    requires Counted(acc) && ApplyAll(env, cfg, acc, txs, baseFee, proposer).Ok?
    ensures Counted(ApplyAll(env, cfg, acc, txs, baseFee, proposer).value)
    decreases |txs|
  {
    if txs != [] {
      OneCounted(env, cfg, acc, txs[0], baseFee, proposer);
      var (receipt, next) := ApplyTx(env, cfg, acc.state, txs[0], baseFee, proposer).value;
      AllCounted(env, cfg, acc.Add(receipt, next), txs[1..], baseFee, proposer);
    }
  }

  // ---------------------------------------------------------------------------
  // Blocks
  // ---------------------------------------------------------------------------

  datatype Header = Header(
    height: nat, round: nat, prev: Hash, proposerPk: seq<byte>, proposerAddr: Address,
    txRoot: Hash, receiptsRoot: Hash, stateRoot: Hash, baseFee: nat, gasUsed: nat,
    intrinsicGasUsed: nat, execGasUsed: nat, vmGasUsed: nat, evmGasUsed: nat,
    chainId: nat, timestamp: nat, protocolVersion: nat)

  datatype Block = Block(header: Header, txs: seq<Tx>)

  method BuildBlock(env: Env, cfg: Config, height: nat, round: nat, prev: Hash, proposerPk: seq<byte>,
                    proposerAddr: Address, st: State, baseFee: nat, txs: seq<Tx>, timestamp: nat)
    returns (r: Result<(Block, State, seq<Receipt>)>)
    ensures r == Built(env, cfg, height, round, prev, proposerPk, proposerAddr, st, baseFee, txs, timestamp)
  {
    var all := ApplyLoop(env, cfg, st, txs, baseFee, proposerAddr);
    match all
    case Err(e) => return Err(e);
    case Panicked => return Panicked;
    case Ok(done) =>
      var gas := SumGas(done.receipts);
      var header := Header(height, round, prev, proposerPk, proposerAddr, env.txRoot(txs),
                           env.receiptsRoot(done.receipts), env.stateRoot(done.state), baseFee, done.gasUsed,
                           gas.intrinsic, gas.exec, gas.vm, gas.evm, cfg.chainId, timestamp, env.protocolVersion);
      return Ok((Block(header, txs), done.state, done.receipts));
  }

  function Built(env: Env, cfg: Config, height: nat, round: nat, prev: Hash, proposerPk: seq<byte>,
                 proposerAddr: Address, st: State, baseFee: nat, txs: seq<Tx>, timestamp: nat)
    : Result<(Block, State, seq<Receipt>)>
  {
    match ApplyAll(env, cfg, Applied(st, [], 0), txs, baseFee, proposerAddr)
    case Err(e) => Err(e)
    case Panicked => Panicked
    case Ok(done) =>
      var gas := SumGas(done.receipts);
      Ok((Block(Header(height, round, prev, proposerPk, proposerAddr, env.txRoot(txs),
                       env.receiptsRoot(done.receipts), env.stateRoot(done.state), baseFee, done.gasUsed,
                       gas.intrinsic, gas.exec, gas.vm, gas.evm, cfg.chainId, timestamp, env.protocolVersion), txs),
          done.state, done.receipts))
  }

  /** The first thing wrong with a block whose transactions were applied again. */
  function RootFault(env: Env, cfg: Config, block: Block, done: Applied): Option<Error>
  {
    if cfg.verifyStateRoots && done.gasUsed != block.header.gasUsed then Some(GasUsedMismatch)
    else if cfg.verifyTxRoots && env.txRoot(block.txs) != block.header.txRoot then Some(TxRootMismatch)
    else if env.receiptsRoot(done.receipts) != block.header.receiptsRoot then Some(ReceiptsRootMismatch)
    else if cfg.verifyStateRoots && env.stateRoot(done.state) != block.header.stateRoot then Some(StateRootMismatch)
    else None
  }

  function Verified(env: Env, cfg: Config, st: State, block: Block, expectedPk: seq<byte>, proposerAddr: Address)
    : Result<(State, seq<Receipt>)>
  {
    if block.header.proposerPk != expectedPk || block.header.proposerAddr != proposerAddr then Err(ProposerMismatch)
    else if block.header.chainId != cfg.chainId then Err(ChainIdMismatch)
    else
      match ApplyAll(env, cfg, Applied(st, [], 0), block.txs, block.header.baseFee, proposerAddr)
      case Err(e) => Err(e)
      case Panicked => Panicked
      case Ok(done) =>
        match RootFault(env, cfg, block, done)
        case Some(e) => Err(e)
        case None => Ok((done.state, done.receipts))
  }

  method VerifyBlock(env: Env, cfg: Config, st: State, block: Block, expectedPk: seq<byte>, proposerAddr: Address)
    returns (r: Result<(State, seq<Receipt>)>)
    ensures r == Verified(env, cfg, st, block, expectedPk, proposerAddr)
  {
    if block.header.proposerPk != expectedPk {
      return Err(ProposerMismatch);
    }
    if block.header.proposerAddr != proposerAddr {
      return Err(ProposerMismatch);
    }
    if block.header.chainId != cfg.chainId {
      return Err(ChainIdMismatch);
    }
    var all := ApplyLoop(env, cfg, st, block.txs, block.header.baseFee, proposerAddr);
    match all
    case Err(e) => return Err(e);
    case Panicked => return Panicked;
    case Ok(done) =>
      var fault := RootFault(env, cfg, block, done);
      if fault.Some? {
        return Err(fault.value);
      }
      return Ok((done.state, done.receipts));
  }

  /** A block that was built is accepted, with the same state and receipts, whatever checks are on. */
  lemma BuiltIsVerified(env: Env, cfg: Config, height: nat, round: nat, prev: Hash, proposerPk: seq<byte>,
                        proposerAddr: Address, st: State, baseFee: nat, txs: seq<Tx>, timestamp: nat)
    requires Built(env, cfg, height, round, prev, proposerPk, proposerAddr, st, baseFee, txs, timestamp).Ok?
    ensures var (block, st', receipts) :=
              Built(env, cfg, height, round, prev, proposerPk, proposerAddr, st, baseFee, txs, timestamp).value;
            Verified(env, cfg, st, block, proposerPk, proposerAddr) == Ok((st', receipts))
  {
  }

  /** What a built block says: where it stands, who proposed it, what it holds and what came of it. */
  lemma BuiltSays(env: Env, cfg: Config, height: nat, round: nat, prev: Hash, proposerPk: seq<byte>,
                  proposerAddr: Address, st: State, baseFee: nat, txs: seq<Tx>, timestamp: nat)
    requires Built(env, cfg, height, round, prev, proposerPk, proposerAddr, st, baseFee, txs, timestamp).Ok?
    ensures var (block, st', receipts) :=
              Built(env, cfg, height, round, prev, proposerPk, proposerAddr, st, baseFee, txs, timestamp).value;
            var h := block.header;
            && h.height == height && h.round == round && h.prev == prev && h.timestamp == timestamp
            && h.proposerPk == proposerPk && h.proposerAddr == proposerAddr && h.baseFee == baseFee
            && h.chainId == cfg.chainId && block.txs == txs && h.txRoot == env.txRoot(txs)
            && h.receiptsRoot == env.receiptsRoot(receipts) && h.stateRoot == env.stateRoot(st')
            && h.gasUsed == h.intrinsicGasUsed + h.execGasUsed && |receipts| == |txs|
  {
    AllCounted(env, cfg, Applied(st, [], 0), txs, baseFee, proposerAddr);
    if txs != [] {
      ApplyAllSigned(env, cfg, Applied(st, [], 0), txs, baseFee, proposerAddr, 0);
    }
  }

  /** Which verdict a block gets that is not accepted: the first thing wrong with it, in this order. */
  lemma VerdictBecause(env: Env, cfg: Config, st: State, block: Block, expectedPk: seq<byte>, proposerAddr: Address,
                       done: Result<Applied>)
    requires done == ApplyAll(env, cfg, Applied(st, [], 0), block.txs, block.header.baseFee, proposerAddr)
    ensures var r, h := Verified(env, cfg, st, block, expectedPk, proposerAddr), block.header;
            if h.proposerPk != expectedPk || h.proposerAddr != proposerAddr then r == Err(ProposerMismatch)
            else if h.chainId != cfg.chainId then r == Err(ChainIdMismatch)
            else if done.Err? then r == Err(done.error)
            else if done.Panicked? then r == Panicked
            else if cfg.verifyStateRoots && h.gasUsed != done.value.gasUsed then r == Err(GasUsedMismatch)
            else if cfg.verifyTxRoots && h.txRoot != env.txRoot(block.txs) then r == Err(TxRootMismatch)
            else if h.receiptsRoot != env.receiptsRoot(done.value.receipts) then r == Err(ReceiptsRootMismatch)
            else if cfg.verifyStateRoots && h.stateRoot != env.stateRoot(done.value.state)
            then r == Err(StateRootMismatch)
            else r == Ok((done.value.state, done.value.receipts))
  {
  }

  /** The fields that verification does not compare are as the builder fills them in: the gas sums by
      kind and the protocol version always, and the roots and the total whose checks are off. */
  predicate FilledIn(env: Env, cfg: Config, block: Block, st': State, receipts: seq<Receipt>)
  {
    var h, gas := block.header, SumGas(receipts);
    && h.intrinsicGasUsed == gas.intrinsic && h.execGasUsed == gas.exec
    && h.vmGasUsed == gas.vm && h.evmGasUsed == gas.evm && h.protocolVersion == env.protocolVersion
    && (cfg.verifyStateRoots || (h.gasUsed == gas.used && h.stateRoot == env.stateRoot(st')))
    && (cfg.verifyTxRoots || h.txRoot == env.txRoot(block.txs))
  }

  /** A block is the one that its proposer would have built exactly when it is accepted and the fields
      that verification does not compare are filled in as the builder does. */
  lemma BuiltIffVerified(env: Env, cfg: Config, st: State, block: Block, expectedPk: seq<byte>, proposerAddr: Address,
                         st': State, receipts: seq<Receipt>)
    ensures var h := block.header;
            Built(env, cfg, h.height, h.round, h.prev, expectedPk, proposerAddr, st, h.baseFee, block.txs, h.timestamp)
            == Ok((block, st', receipts))
            <==> Verified(env, cfg, st, block, expectedPk, proposerAddr) == Ok((st', receipts))
                 && FilledIn(env, cfg, block, st', receipts)
  {
    var h := block.header;
    if ApplyAll(env, cfg, Applied(st, [], 0), block.txs, h.baseFee, proposerAddr).Ok? {
      AllCounted(env, cfg, Applied(st, [], 0), block.txs, h.baseFee, proposerAddr);
    }
  }

  /** With both root checks on, an accepted block differs from the built one in no field but the four
      gas sums by kind and the protocol version. */
  lemma VerifiedIsBuilt(env: Env, cfg: Config, st: State, block: Block, expectedPk: seq<byte>, proposerAddr: Address)
    requires cfg.verifyStateRoots && cfg.verifyTxRoots
    requires Verified(env, cfg, st, block, expectedPk, proposerAddr).Ok?
    ensures var h := block.header;
            var (st', receipts) := Verified(env, cfg, st, block, expectedPk, proposerAddr).value;
            var gas := SumGas(receipts);
            var filled := h.(intrinsicGasUsed := gas.intrinsic, execGasUsed := gas.exec, vmGasUsed := gas.vm,
                             evmGasUsed := gas.evm, protocolVersion := env.protocolVersion);
            Built(env, cfg, h.height, h.round, h.prev, expectedPk, proposerAddr, st, h.baseFee, block.txs, h.timestamp)
            == Ok((block.(header := filled), st', receipts))
  {
    var (st', receipts) := Verified(env, cfg, st, block, expectedPk, proposerAddr).value;
    var gas := SumGas(receipts);
    var filled := block.header.(intrinsicGasUsed := gas.intrinsic, execGasUsed := gas.exec, vmGasUsed := gas.vm,
                                evmGasUsed := gas.evm, protocolVersion := env.protocolVersion);
    BuiltIffVerified(env, cfg, st, block.(header := filled), expectedPk, proposerAddr, st', receipts);
  }

  /** Whatever these five fields say, verification answers the same. */
  lemma UncheckedFields(env: Env, cfg: Config, st: State, block: Block, expectedPk: seq<byte>, proposerAddr: Address,
                        gas: GasSums, version: nat)
    ensures var h := block.header.(intrinsicGasUsed := gas.intrinsic, execGasUsed := gas.exec, vmGasUsed := gas.vm,
                                   evmGasUsed := gas.evm, protocolVersion := version);
            Verified(env, cfg, st, block.(header := h), expectedPk, proposerAddr)
            == Verified(env, cfg, st, block, expectedPk, proposerAddr)
  {
  }

  /** So a built block with another execution gas in its header is accepted, though nobody builds it. */
  lemma AlteredBlockAccepted(env: Env, cfg: Config, height: nat, round: nat, prev: Hash, proposerPk: seq<byte>,
                             proposerAddr: Address, st: State, baseFee: nat, txs: seq<Tx>, timestamp: nat, exec: nat)
    requires Built(env, cfg, height, round, prev, proposerPk, proposerAddr, st, baseFee, txs, timestamp).Ok?
    requires var r := Built(env, cfg, height, round, prev, proposerPk, proposerAddr, st, baseFee, txs, timestamp);
             exec != r.value.0.header.execGasUsed
    ensures var (block, st', receipts) :=
              Built(env, cfg, height, round, prev, proposerPk, proposerAddr, st, baseFee, txs, timestamp).value;
            var altered := block.(header := block.header.(execGasUsed := exec));
            && Verified(env, cfg, st, altered, proposerPk, proposerAddr) == Ok((st', receipts))
            && Built(env, cfg, height, round, prev, proposerPk, proposerAddr, st, baseFee, txs, timestamp)
               != Ok((altered, st', receipts))
  {
    BuiltIsVerified(env, cfg, height, round, prev, proposerPk, proposerAddr, st, baseFee, txs, timestamp);
  }

  // ---------------------------------------------------------------------------
  // Chains
  // ---------------------------------------------------------------------------

  /** A chain of accepted blocks, each with the proposer it names. */
  ghost predicate IsChain(env: Env, cfg: Config, st: State, blocks: seq<Block>)
    decreases |blocks|
  {
    blocks != [] ==>
      var h := blocks[0].header;
      var r := Verified(env, cfg, st, blocks[0], h.proposerPk, h.proposerAddr);
      r.Ok? && IsChain(env, cfg, r.value.0, blocks[1..])
  }

  function AllTxs(blocks: seq<Block>): seq<Tx>
  {
    if blocks == [] then [] else blocks[0].txs + AllTxs(blocks[1..])
  }

  /** How many of the transactions are from this sender. */
  function CountFrom(env: Env, txs: seq<Tx>, sender: Address): nat
  {
    if txs == [] then 0
    else CountFrom(env, txs[..|txs| - 1], sender) + if SenderOf(env, txs[|txs| - 1]) == sender then 1 else 0
  }

  /** Each transaction carries the start nonce of its sender plus the number of earlier ones. */
  ghost predicate Consecutive(env: Env, nonces: map<Address, nat>, txs: seq<Tx>)
  {
    forall k :: 0 <= k < |txs| ==>
      txs[k].nonce == Get(nonces, SenderOf(env, txs[k])) + CountFrom(env, txs[..k], SenderOf(env, txs[k]))
  }

  ghost predicate CountsOn(env: Env, nonces: map<Address, nat>, txs: seq<Tx>, after: map<Address, nat>)
  {
    Consecutive(env, nonces, txs) && forall a :: Get(after, a) == Get(nonces, a) + CountFrom(env, txs, a)
  }

  lemma {:induction false} CountConcat(env: Env, a: seq<Tx>, b: seq<Tx>, sender: Address)
    ensures CountFrom(env, a + b, sender) == CountFrom(env, a, sender) + CountFrom(env, b, sender)
    decreases |b|
  {
    if b == [] {
      assert a + b == a;
    } else {
      CountConcat(env, a, b[..|b| - 1], sender);
      assert (a + b)[..|a + b| - 1] == a + b[..|b| - 1];
    }
  }

  lemma CountsJoin(env: Env, nonces: map<Address, nat>, a: seq<Tx>, mid: map<Address, nat>, b: seq<Tx>,
                   after: map<Address, nat>)
    requires CountsOn(env, nonces, a, mid) && CountsOn(env, mid, b, after)
    ensures CountsOn(env, nonces, a + b, after)
  {
    forall k | 0 <= k < |a + b|
      ensures var tx := (a + b)[k];
              tx.nonce == Get(nonces, SenderOf(env, tx)) + CountFrom(env, (a + b)[..k], SenderOf(env, tx))
    {
      var tx := (a + b)[k];
      if k < |a| {
        assert (a + b)[..k] == a[..k];
      } else {
        assert (a + b)[..k] == a + b[..k - |a|];
        CountConcat(env, a, b[..k - |a|], SenderOf(env, tx));
      }
    }
    forall x ensures Get(after, x) == Get(nonces, x) + CountFrom(env, a + b, x) {
      CountConcat(env, a, b, x);
    }
  }

  lemma {:induction false} ApplyAllCounts(env: Env, cfg: Config, acc: Applied, txs: seq<Tx>, baseFee: nat,
                                          proposer: Address)
    requires ApplyAll(env, cfg, acc, txs, baseFee, proposer).Ok?
    ensures CountsOn(env, acc.state.nonces, txs, ApplyAll(env, cfg, acc, txs, baseFee, proposer).value.state.nonces)
    decreases |txs|
  {
    if txs != [] {
      var tx := txs[0];
      NonceAdvances(env, cfg, acc.state, tx, baseFee, proposer);
      var (receipt, next) := ApplyTx(env, cfg, acc.state, tx, baseFee, proposer).value;
      ApplyAllCounts(env, cfg, acc.Add(receipt, next), txs[1..], baseFee, proposer);
      OneCounts(env, acc.state.nonces, tx);
      var after := ApplyAll(env, cfg, acc, txs, baseFee, proposer).value.state.nonces;
      CountsJoin(env, acc.state.nonces, [tx], next.nonces, txs[1..], after);
      assert [tx] + txs[1..] == txs;
    }
  }

  lemma OneCounts(env: Env, nonces: map<Address, nat>, tx: Tx)
    requires tx.nonce == Get(nonces, SenderOf(env, tx))
    ensures CountsOn(env, nonces, [tx], nonces[SenderOf(env, tx) := tx.nonce + 1])
  {
    assert [tx][..0] == [];
    var after := nonces[SenderOf(env, tx) := tx.nonce + 1];
    forall a ensures Get(after, a) == Get(nonces, a) + CountFrom(env, [tx], a) {
      assert CountFrom(env, [tx], a) == CountFrom(env, [tx][..0], a) + if SenderOf(env, [tx][0]) == a then 1 else 0;
    }
  }

  function ChainState(env: Env, cfg: Config, st: State, blocks: seq<Block>): State
    requires IsChain(env, cfg, st, blocks)
    decreases |blocks|
  {
    if blocks == [] then st
    else
      var h := blocks[0].header;
      ChainState(env, cfg, Verified(env, cfg, st, blocks[0], h.proposerPk, h.proposerAddr).value.0, blocks[1..])
  }

  /** Over any chain of accepted blocks, the nonces of every sender are consecutive. */
  lemma {:induction false} ChainCounts(env: Env, cfg: Config, st: State, blocks: seq<Block>)
    requires IsChain(env, cfg, st, blocks)
    ensures CountsOn(env, st.nonces, AllTxs(blocks), ChainState(env, cfg, st, blocks).nonces)
    decreases |blocks|
  {
    if blocks != [] {
      var h := blocks[0].header;
      var next := Verified(env, cfg, st, blocks[0], h.proposerPk, h.proposerAddr).value.0;
      ApplyAllCounts(env, cfg, Applied(st, [], 0), blocks[0].txs, h.baseFee, h.proposerAddr);
      ChainCounts(env, cfg, next, blocks[1..]);
      CountsJoin(env, st.nonces, blocks[0].txs, next.nonces, AllTxs(blocks[1..]),
                 ChainState(env, cfg, st, blocks).nonces);
    }
  }

  // ---------------------------------------------------------------------------
  // The supply over chains
  // ---------------------------------------------------------------------------

  ghost predicate AllLeaveBalances(env: Env)
  {
    forall st: State, tx: Tx, baseFee: nat :: LeavesBalances(env, st, tx, baseFee)
  }

  function Refunds(txs: seq<Tx>, receipts: seq<Receipt>): nat
  {
    if txs == [] || receipts == [] then 0 else Refund(txs[0], receipts[0]) + Refunds(txs[1..], receipts[1..])
  }

  lemma {:induction false} ApplyAllSupply(env: Env, cfg: Config, acc: Applied, txs: seq<Tx>, baseFee: nat,
                                          proposer: Address)
    requires ApplyAll(env, cfg, acc, txs, baseFee, proposer).Ok? && AllLeaveBalances(env)
    ensures var done := ApplyAll(env, cfg, acc, txs, baseFee, proposer).value;
            && |done.receipts| == |acc.receipts| + |txs|
            && Supply(done.state) == Supply(acc.state) + Refunds(txs, done.receipts[|acc.receipts|..])
    ensures acc.receipts <= ApplyAll(env, cfg, acc, txs, baseFee, proposer).value.receipts
    decreases |txs|
  {
    if txs != [] {
      var (receipt, next) := ApplyTx(env, cfg, acc.state, txs[0], baseFee, proposer).value;
      SupplyChange(env, cfg, acc.state, txs[0], baseFee, proposer);
      assert LeavesBalances(env, ChargedFor(env, acc.state, txs[0], baseFee, proposer).value, txs[0], baseFee);
      ApplyAllSupply(env, cfg, acc.Add(receipt, next), txs[1..], baseFee, proposer);
      var done := ApplyAll(env, cfg, acc, txs, baseFee, proposer).value;
      var mine := done.receipts[|acc.receipts|..];
      assert mine[0] == receipt && mine[1..] == done.receipts[|acc.receipts| + 1..];
    }
  }

  /** The refunds of a chain of blocks, from the receipts of their verification. */
  ghost function ChainRefunds(env: Env, cfg: Config, st: State, blocks: seq<Block>): nat
    requires IsChain(env, cfg, st, blocks)
    decreases |blocks|
  {
    if blocks == [] then 0
    else
      var h := blocks[0].header;
      var (next, receipts) := Verified(env, cfg, st, blocks[0], h.proposerPk, h.proposerAddr).value;
      Refunds(blocks[0].txs, receipts) + ChainRefunds(env, cfg, next, blocks[1..])
  }

  /** Over any chain of accepted blocks whose payloads leave the balances alone, the supply grows by
      exactly the refunds. */
  lemma {:induction false} ChainSupply(env: Env, cfg: Config, st: State, blocks: seq<Block>)
    requires IsChain(env, cfg, st, blocks) && AllLeaveBalances(env)
    ensures Supply(ChainState(env, cfg, st, blocks)) == Supply(st) + ChainRefunds(env, cfg, st, blocks)
    decreases |blocks|
  {
    if blocks != [] {
      var h := blocks[0].header;
      var (next, receipts) := Verified(env, cfg, st, blocks[0], h.proposerPk, h.proposerAddr).value;
      ApplyAllSupply(env, cfg, Applied(st, [], 0), blocks[0].txs, h.baseFee, h.proposerAddr);
      assert receipts[0..] == receipts;
      ChainSupply(env, cfg, next, blocks[1..]);
    }
  }

  // ---------------------------------------------------------------------------
  // Signatures and receipts over chains
  // ---------------------------------------------------------------------------

  /** Applied transactions are signed and of this chain, and their receipts are in their order. */
  lemma {:induction false} ApplyAllSigned(env: Env, cfg: Config, acc: Applied, txs: seq<Tx>, baseFee: nat,
                                          proposer: Address, k: nat)
    requires ApplyAll(env, cfg, acc, txs, baseFee, proposer).Ok? && k < |txs|
    ensures Signed(env, cfg, txs[k]) && txs[k].chainId == cfg.chainId
    ensures var receipts := ApplyAll(env, cfg, acc, txs, baseFee, proposer).value.receipts;
            |receipts| == |acc.receipts| + |txs| && acc.receipts <= receipts
            && receipts[|acc.receipts| + k].txHash == env.txHash(txs[k])
    decreases |txs|
  {
    AppliedIff(env, cfg, acc.state, txs[0], baseFee, proposer);
    AppliedEffect(env, cfg, acc.state, txs[0], baseFee, proposer);
    var (receipt, next) := ApplyTx(env, cfg, acc.state, txs[0], baseFee, proposer).value;
    if |txs| > 1 {
      ApplyAllSigned(env, cfg, acc.Add(receipt, next), txs[1..], baseFee, proposer, if k == 0 then 0 else k - 1);
    } else {
      assert txs[1..] == [];
    }
  }

  /** Every transaction of a chain of accepted blocks is signed by the sender whose nonce it raises. */
  lemma {:induction false} ChainSigned(env: Env, cfg: Config, st: State, blocks: seq<Block>, k: nat)
    requires IsChain(env, cfg, st, blocks) && k < |AllTxs(blocks)|
    ensures Signed(env, cfg, AllTxs(blocks)[k]) && AllTxs(blocks)[k].chainId == cfg.chainId
    decreases |blocks|
  {
    var h, txs := blocks[0].header, blocks[0].txs;
    if k < |txs| {
      ApplyAllSigned(env, cfg, Applied(st, [], 0), txs, h.baseFee, h.proposerAddr, k);
    } else {
      var next := Verified(env, cfg, st, blocks[0], h.proposerPk, h.proposerAddr).value.0;
      ChainSigned(env, cfg, next, blocks[1..], k - |txs|);
    }
  }

  lemma {:induction false} CountGrows(env: Env, txs: seq<Tx>, i: nat, j: nat, sender: Address)
    requires i <= j <= |txs|
    ensures CountFrom(env, txs[..i], sender) <= CountFrom(env, txs[..j], sender)
    decreases j - i
  {
    if i < j {
      CountGrows(env, txs, i, j - 1, sender);
      assert txs[..j][..j - 1] == txs[..j - 1];
    }
  }

  /** No transaction is applied twice, in the same block or in different ones. */
  lemma AppliedOnce(env: Env, cfg: Config, st: State, blocks: seq<Block>, i: nat, j: nat)
    requires IsChain(env, cfg, st, blocks) && i < j < |AllTxs(blocks)|
    ensures AllTxs(blocks)[i] != AllTxs(blocks)[j]
    ensures SenderOf(env, AllTxs(blocks)[i]) == SenderOf(env, AllTxs(blocks)[j]) ==>
              AllTxs(blocks)[i].nonce < AllTxs(blocks)[j].nonce
  {
    ChainCounts(env, cfg, st, blocks);
    var txs := AllTxs(blocks);
    var sender := SenderOf(env, txs[i]);
    if SenderOf(env, txs[j]) == sender {
      CountGrows(env, txs, i + 1, j, sender);
      assert txs[..i + 1][..i] == txs[..i];
    }
  }
}
