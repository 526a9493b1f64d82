/** 256-bit words of the virtual machine (src/blockchain/revm_port.rs): addition and subtraction
    byte by byte, multiplication on four 64-bit limbs. */
module U256 {
  import opened Common
  import opened Messages

  lemma ByteTimes(b: byte, p: nat)
    ensures b * p <= 255 * p
  {
    assert (255 - b) * p >= 0;
  }

  lemma {:induction false} BeBound(s: seq<byte>)
    ensures BeVal(s) < Pow256(|s|)
  {
    if s != [] {
      BeBound(s[1..]);
      ByteTimes(s[0], Pow256(|s| - 1));
    }
  }

  // ---------------------------------------------------------------------------
  // Addition and subtraction
  // ---------------------------------------------------------------------------

  lemma AddStep(x: nat, y: nat, carry: nat, p: nat, low: nat, lowSum: nat)
    requires low + carry * p == lowSum
    ensures var s := x + y + carry;
            (s % 256) * p + low + (s / 256) * (256 * p) == (x + y) * p + lowSum
  {
    var s := x + y + carry;
    assert s == 256 * (s / 256) + s % 256;
    assert s * p == (s / 256) * (256 * p) + (s % 256) * p by {
      assert (256 * (s / 256) + s % 256) * p == (256 * (s / 256)) * p + (s % 256) * p;
    }
    assert s * p == (x + y) * p + carry * p;
  }

  lemma Wrapped(sum: nat, carry: nat, p: nat, low: nat)
    requires low < p && low + carry * p == sum
    ensures low == sum % p
  {
    assert sum == p * carry + low;
    DivModUnique(sum, p, carry, low);
  }

  lemma MulAtLeast(p: int, d: int)
    requires p > 0 && d >= 1
    ensures p * d >= p
  {
    assert p * (d - 1) >= 0;
  }

  lemma DivModUnique(n: int, p: int, q: int, r: int)
    requires p > 0 && 0 <= r < p && n == p * q + r
    ensures n % p == r
  {
    var d := n / p - q;
    assert n == p * (n / p) + n % p;
    assert p * d == p * (n / p) - p * q;
    if d >= 1 {
      MulAtLeast(p, d);
      assert false;
    } else if d <= -1 {
      MulAtLeast(p, -d);
      assert false;
    }
  }

  /** The sum of the low bytes and the carry out of them. */
  ghost predicate Summed(a: seq<byte>, b: seq<byte>, r: seq<byte>, carry: nat)
  {
    BeVal(r) + carry * Pow256(|r|) == BeVal(a) + BeVal(b)
  }

  lemma SumFront(a: seq<byte>, b: seq<byte>, r: seq<byte>, carry: nat)
    requires |a| == |b| == |r| > 0 && Summed(a[1..], b[1..], r[1..], carry)
    requires r[0] == (a[0] + b[0] + carry) % 256
    ensures Summed(a, b, r, (a[0] + b[0] + carry) / 256)
  {
    var p := Pow256(|r| - 1);
    AddStep(a[0], b[0], carry, p, BeVal(r[1..]), BeVal(a[1..]) + BeVal(b[1..]));
    assert (a[0] as int + b[0] as int) * p == a[0] * p + b[0] * p;
  }

  /** Addition modulo 2^(8n), for words of any number of bytes. */
  method Add(a: seq<byte>, b: seq<byte>) returns (sum: seq<byte>)
    requires |a| == |b|
    ensures |sum| == |a| && BeVal(sum) == (BeVal(a) + BeVal(b)) % Pow256(|a|)
  {
    var n := |a|;
    var r := new byte[n](_ => 0);
    var carry: nat := 0;
    var i := n;
    while i > 0
      invariant 0 <= i <= n && Summed(a[i..], b[i..], r[i..], carry)
    {
      i := i - 1;
      var s := a[i] + b[i] + carry;
      ghost var low := r[i + 1..];
      r[i] := s % 256;
      assert a[i..][1..] == a[i + 1..] && b[i..][1..] == b[i + 1..] && r[i..][1..] == low;
      SumFront(a[i..], b[i..], r[i..], carry);
      carry := s / 256;
    }
    assert r[0..] == r[..] && a[0..] == a && b[0..] == b;
    BeBound(r[..]);
    Wrapped(BeVal(a) + BeVal(b), carry, Pow256(n), BeVal(r[..]));
    return r[..];
  }

  lemma Borrowed(diff: int, borrow: int, p: nat, low: nat)
    requires low < p && low - borrow * p == diff
    ensures low == diff % p
  {
    assert p * (-borrow) == -(borrow * p);
    DivModUnique(diff, p, -borrow, low);
  }

  lemma SubStep(x: int, y: int, borrow: nat, p: nat, low: nat, lowDiff: int)
    requires low - borrow * p == lowDiff && borrow <= 1 && 0 <= x < 256 && 0 <= y < 256
    ensures var s := x - y - borrow;
            (s % 256) * p + low - (if s < 0 then 256 * p else 0) == (x - y) * p + lowDiff
  {
    var s := x - y - borrow;
    assert s % 256 == if s < 0 then s + 256 else s;
    assert s * p == (x - y) * p - borrow * p;
    assert (s + 256) * p == s * p + 256 * p;
  }

  ghost predicate Subtracted(a: seq<byte>, b: seq<byte>, r: seq<byte>, borrow: nat)
  {
    BeVal(r) - borrow * Pow256(|r|) == BeVal(a) - BeVal(b)
  }

  lemma SubFront(a: seq<byte>, b: seq<byte>, r: seq<byte>, borrow: nat)
    requires |a| == |b| == |r| > 0 && Subtracted(a[1..], b[1..], r[1..], borrow) && borrow <= 1
    requires r[0] == (a[0] as int - b[0] as int - borrow) % 256
    ensures Subtracted(a, b, r, if a[0] as int - b[0] as int - borrow < 0 then 1 else 0)
  {
    var p := Pow256(|r| - 1);
    SubStep(a[0], b[0], borrow, p, BeVal(r[1..]), BeVal(a[1..]) - BeVal(b[1..]));
    assert (a[0] as int - b[0] as int) * p == a[0] * p - b[0] * p;
  }

  /** Subtraction modulo 2^(8n). */
  method Sub(a: seq<byte>, b: seq<byte>) returns (diff: seq<byte>)
    requires |a| == |b|
    ensures |diff| == |a| && BeVal(diff) == (BeVal(a) - BeVal(b)) % Pow256(|a|)
  {
    var n := |a|;
    var r := new byte[n](_ => 0);
    var borrow: nat := 0;
    var i := n;
    while i > 0
      invariant 0 <= i <= n && borrow <= 1 && Subtracted(a[i..], b[i..], r[i..], borrow)
    {
      i := i - 1;
      var s := a[i] as int - b[i] as int - borrow;
      ghost var low := r[i + 1..];
      r[i] := s % 256;
      assert a[i..][1..] == a[i + 1..] && b[i..][1..] == b[i + 1..] && r[i..][1..] == low;
      SubFront(a[i..], b[i..], r[i..], borrow);
      borrow := if s < 0 then 1 else 0;
    }
    assert r[0..] == r[..] && a[0..] == a && b[0..] == b;
    BeBound(r[..]);
    Borrowed(BeVal(a) - BeVal(b), borrow, Pow256(n), BeVal(r[..]));
    return r[..];
  }

  // ---------------------------------------------------------------------------
  // Multiplication
  // ---------------------------------------------------------------------------

  /** The base of the limbs, and its powers. */
  const L: nat := 0x1_0000_0000_0000_0000
  const L2: nat := 0x1_0000_0000_0000_0000_0000_0000_0000_0000
  const L3: nat := 0x1_0000_0000_0000_0000_0000_0000_0000_0000_0000_0000_0000_0000
  const L4: nat := 0x1_0000_0000_0000_0000_0000_0000_0000_0000_0000_0000_0000_0000_0000_0000_0000_0000

  type Limb = n: nat | n < L

  /** Four limbs, least significant first. */
  datatype Limbs = Limbs(w0: Limb, w1: Limb, w2: Limb, w3: Limb) {
    function Value(): nat { w0 + w1 * L + w2 * L2 + w3 * L3 }
  }

  const ZERO := Limbs(0, 0, 0, 0)

  /** Adds a product at position `d`; the carry is added to the next limb without a carry of its own. */
  function Accumulate(r: Limbs, p: nat, d: nat): Limbs
    requires d < 4 && p <= (L - 1) * (L - 1)
  {
    var t := (match d case 0 => r.w0 case 1 => r.w1 case 2 => r.w2 case _ => r.w3) + p;
    var low, carry := t % L, t / L;
    match d
    case 0 => r.(w0 := low, w1 := (r.w1 + carry) % L)
    case 1 => r.(w1 := low, w2 := (r.w2 + carry) % L)
    case 2 => r.(w2 := low, w3 := (r.w3 + carry) % L)
    case _ => r.(w3 := low)
  }

  lemma Accumulate0(r: Limbs, p: nat)
    requires p <= (L - 1) * (L - 1) && r.w1 == 0
    ensures Accumulate(r, p, 0).Value() == r.Value() + p
  {
  }

  lemma Accumulate1(r: Limbs, p: nat)
    requires p <= (L - 1) * (L - 1)
    ensures Accumulate(r, p, 1).Value() == r.Value() + p * L - (if r.w2 + (r.w1 + p) / L >= L then L3 else 0)
  {
  }

  lemma Accumulate1Empty(r: Limbs, p: nat)
    requires p <= (L - 1) * (L - 1) && r.w2 == 0
    ensures Accumulate(r, p, 1).Value() == r.Value() + p * L
  {
  }

  lemma Accumulate2(r: Limbs, p: nat) returns (m: nat)
    requires p <= (L - 1) * (L - 1)
    ensures Accumulate(r, p, 2).Value() == r.Value() + p * L2 - m * L4
  {
    m := if r.w3 + (r.w2 + p) / L >= L then 1 else 0;
  }

  lemma Accumulate3(r: Limbs, p: nat) returns (m: nat)
    requires p <= (L - 1) * (L - 1)
    ensures Accumulate(r, p, 3).Value() == r.Value() + p * L3 - m * L4
  {
    m := (r.w3 + p) / L;
  }

  lemma ProductBound(x: nat, y: nat, m: nat)
    requires x <= m && y <= m
    ensures 0 <= x * y <= m * m
  {
    assert x * (m - y) >= 0;
    assert (m - x) * m >= 0;
  }

  function P(x: Limb, y: Limb): (p: nat)
    ensures p == x * y && p <= (L - 1) * (L - 1)
  {
    ProductBound(x, y, L - 1);
    x * y
  }

  type Prod = p: nat | p <= (L - 1) * (L - 1)

  /** The products of limbs that reach the low four limbs, row by row. */
  datatype Prods = Prods(p00: Prod, p01: Prod, p02: Prod, p03: Prod, p10: Prod, p11: Prod, p12: Prod,
                         p20: Prod, p21: Prod, p30: Prod)
  {
    function Sum(): nat
    {
      p00 + p01 * L + p02 * L2 + p03 * L3 + (p10 * L + p11 * L2 + p12 * L3) + (p20 * L2 + p21 * L3) + p30 * L3
    }
  }

  function ProdsOf(a: Limbs, b: Limbs): Prods
  {
    Prods(P(a.w0, b.w0), P(a.w0, b.w1), P(a.w0, b.w2), P(a.w0, b.w3), P(a.w1, b.w0), P(a.w1, b.w1), P(a.w1, b.w2),
          P(a.w2, b.w0), P(a.w2, b.w1), P(a.w3, b.w0))
  }

  /** The rows, in the order in which the loops visit them. */
  function FirstRow(p: Prods): Limbs
  {
    Accumulate(Accumulate(Accumulate(Accumulate(ZERO, p.p00, 0), p.p01, 1), p.p02, 2), p.p03, 3)
  }

  function SecondRow(r: Limbs, p: Prods): Limbs
  {
    Accumulate(Accumulate(Accumulate(r, p.p10, 1), p.p11, 2), p.p12, 3)
  }

  function LastRows(r: Limbs, p: Prods): Limbs
  {
    Accumulate(Accumulate(Accumulate(r, p.p20, 2), p.p21, 3), p.p30, 3)
  }

  function MulLimbs(a: Limbs, b: Limbs): Limbs
  {
    var p := ProdsOf(a, b);
    LastRows(SecondRow(FirstRow(p), p), p)
  }

  /** Adding `p` to `low` carries more into `high` than it can hold. */
  predicate Overflows(low: nat, high: nat, p: nat) { high + (low + p) / L >= L }

  /** The one carry that can be lost: out of the third limb, when the second row starts. */
  predicate LosesCarryOf(p: Prods)
  {
    var t1 := p.p00 / L + p.p01;
    Overflows(t1 % L, (t1 / L + p.p02) % L, p.p10)
  }

  predicate LosesCarry(a: Limbs, b: Limbs) { LosesCarryOf(ProdsOf(a, b)) }

  lemma FirstRowValue(p: Prods) returns (m: nat)
    ensures FirstRow(p).Value() + m * L4 == p.p00 + p.p01 * L + p.p02 * L2 + p.p03 * L3
  {
    var r0 := Accumulate(ZERO, p.p00, 0);
    Accumulate0(ZERO, p.p00);
    var r1 := Accumulate(r0, p.p01, 1);
    Accumulate1Empty(r0, p.p01);
    var r2 := Accumulate(r1, p.p02, 2);
    var m2 := Accumulate2(r1, p.p02);
    var m3 := Accumulate3(r2, p.p03);
    m := m2 + m3;
  }

  lemma CarryLimb(t: nat)
    requires t < L * L
    ensures t / L < L && (t / L) % L == t / L
  {
  }

  lemma FirstProductLimbs(p: Prod)
    ensures Accumulate(ZERO, p, 0) == Limbs(p % L, p / L, 0, 0)
  {
    CarryLimb(p);
  }

  lemma SecondProductLimbs(r: Limbs, p: Prod)
    requires r.w2 == 0
    ensures Accumulate(r, p, 1) == r.(w1 := (r.w1 + p) % L, w2 := (r.w1 + p) / L)
  {
    CarryLimb(r.w1 + p);
  }

  lemma FirstRowCarry(p: Prods)
    ensures Overflows(FirstRow(p).w1, FirstRow(p).w2, p.p10) <==> LosesCarryOf(p)
  {
    FirstProductLimbs(p.p00);
    var r0 := Accumulate(ZERO, p.p00, 0);
    SecondProductLimbs(r0, p.p01);
    var r1 := Accumulate(r0, p.p01, 1);
    ThirdProductLimbs(r1, p.p02, p.p03);
  }

  lemma ThirdProductLimbs(r: Limbs, p: Prod, q: Prod)
    ensures var r' := Accumulate(Accumulate(r, p, 2), q, 3);
            r'.w1 == r.w1 && r'.w2 == (r.w2 + p) % L
  {
  }

  lemma SecondRowValue(r: Limbs, p: Prods) returns (m: nat)
    ensures SecondRow(r, p).Value() + m * L4
         == r.Value() + (p.p10 * L + p.p11 * L2 + p.p12 * L3) - (if Overflows(r.w1, r.w2, p.p10) then L3 else 0)
  {
    var r0 := Accumulate(r, p.p10, 1);
    Accumulate1(r, p.p10);
    var r1 := Accumulate(r0, p.p11, 2);
    var m1 := Accumulate2(r0, p.p11);
    var m2 := Accumulate3(r1, p.p12);
    m := m1 + m2;
  }

  lemma LastRowsValue(r: Limbs, p: Prods) returns (m: nat)
    ensures LastRows(r, p).Value() + m * L4 == r.Value() + (p.p20 * L2 + p.p21 * L3) + p.p30 * L3
  {
    var r0 := Accumulate(r, p.p20, 2);
    var m1 := Accumulate2(r, p.p20);
    var r1 := Accumulate(r0, p.p21, 3);
    var m2 := Accumulate3(r0, p.p21);
    var m3 := Accumulate3(r1, p.p30);
    m := m1 + m2 + m3;
  }

  /** All rows together: the sum of the products, less what was lost, modulo 2^256. */
  lemma RowsValue(p: Prods) returns (m: nat)
    ensures LastRows(SecondRow(FirstRow(p), p), p).Value() + m * L4 == p.Sum() - if LosesCarryOf(p) then L3 else 0
  {
    var r1 := FirstRow(p);
    var m1 := FirstRowValue(p);
    FirstRowCarry(p);
    var r2 := SecondRow(r1, p);
    var m2 := SecondRowValue(r1, p);
    var r3 := LastRows(r2, p);
    var m3 := LastRowsValue(r2, p);
    m := m1 + m2 + m3;
    AddUp(r1.Value(), r2.Value(), r3.Value(), p.p00 + p.p01 * L + p.p02 * L2 + p.p03 * L3,
          p.p10 * L + p.p11 * L2 + p.p12 * L3, (p.p20 * L2 + p.p21 * L3) + p.p30 * L3,
          if LosesCarryOf(p) then L3 else 0, m1, m2, m3);
  }

  lemma AddUp(v1: nat, v2: nat, v3: nat, s1: nat, s2: nat, s3: nat, lost: nat, m1: nat, m2: nat, m3: nat)
    requires v1 + m1 * L4 == s1 && v2 + m2 * L4 == v1 + s2 - lost && v3 + m3 * L4 == v2 + s3
    ensures v3 + (m1 + m2 + m3) * L4 == s1 + s2 + s3 - lost
  {
  }

  lemma RowProduct(x: Limb, b: Limbs)
    ensures x * b.Value() == P(x, b.w0) + P(x, b.w1) * L + P(x, b.w2) * L2 + P(x, b.w3) * L3
  {
  }

  lemma Spread(x0: nat, x1: nat, x2: nat, x3: nat, v: nat)
    ensures (x0 + x1 * L + x2 * L2 + x3 * L3) * v == x0 * v + (x1 * v) * L + (x2 * v) * L2 + (x3 * v) * L3
  {
  }

  /** The product of the values, its low limbs apart from the rest. */
  lemma FullProduct(a: Limbs, b: Limbs) returns (m: nat)
    ensures a.Value() * b.Value() == ProdsOf(a, b).Sum() + m * L4
  {
    var v := b.Value();
    Spread(a.w0, a.w1, a.w2, a.w3, v);
    RowProduct(a.w0, b);
    RowProduct(a.w1, b);
    RowProduct(a.w2, b);
    RowProduct(a.w3, b);
    m := Assemble(a.w1 * v, a.w2 * v, a.w3 * v,
                  P(a.w1, b.w0), P(a.w1, b.w1), P(a.w1, b.w2), P(a.w1, b.w3),
                  P(a.w2, b.w0), P(a.w2, b.w1), P(a.w2, b.w2), P(a.w2, b.w3),
                  P(a.w3, b.w0), P(a.w3, b.w1), P(a.w3, b.w2), P(a.w3, b.w3));
  }

  lemma Assemble(row1: nat, row2: nat, row3: nat, p10: nat, p11: nat, p12: nat, p13: nat,
                 p20: nat, p21: nat, p22: nat, p23: nat, p30: nat, p31: nat, p32: nat, p33: nat)
    returns (m: nat)
    requires row1 == p10 + p11 * L + p12 * L2 + p13 * L3
    requires row2 == p20 + p21 * L + p22 * L2 + p23 * L3
    requires row3 == p30 + p31 * L + p32 * L2 + p33 * L3
    ensures row1 * L + row2 * L2 + row3 * L3
         == (p10 * L + p11 * L2 + p12 * L3) + (p20 * L2 + p21 * L3) + p30 * L3 + m * L4
  {
    m := p13 + p22 + p23 * L + p31 + p32 * L + p33 * L2;
  }

  lemma ValueBound(r: Limbs)
    ensures r.Value() < L4
  {
  }

  /** The product modulo 2^256, short by 2^192 when the carry is lost. */
  lemma MulValue(a: Limbs, b: Limbs)
    ensures MulLimbs(a, b).Value() == (a.Value() * b.Value() - if LosesCarry(a, b) then L3 else 0) % L4
  {
    var m := FullProduct(a, b);
    MulOf(a, b, ProdsOf(a, b), a.Value() * b.Value(), m);
  }

  lemma MulOf(a: Limbs, b: Limbs, p: Prods, product: nat, m: nat)
    requires p == ProdsOf(a, b) && product == p.Sum() + m * L4
    ensures MulLimbs(a, b).Value() == (product - if LosesCarry(a, b) then L3 else 0) % L4
  {
    MulValueOf(p, product, m);
  }

  lemma MulValueOf(p: Prods, product: nat, m: nat)
    requires product == p.Sum() + m * L4
    ensures LastRows(SecondRow(FirstRow(p), p), p).Value() == (product - if LosesCarryOf(p) then L3 else 0) % L4
  {
    var m1 := RowsValue(p);
    var final := LastRows(SecondRow(FirstRow(p), p), p);
    ValueBound(final);
    Settle(product, final.Value(), p.Sum(), if LosesCarryOf(p) then L3 else 0, m1, m);
  }

  lemma Settle(product: nat, final: nat, sum: nat, lost: nat, m1: int, m2: int)
    requires final + m1 * L4 == sum - lost && product == sum + m2 * L4 && final < L4
    ensures final == (product - lost) % L4
  {
    DivModUnique(product - lost, L4, m1 + m2, final);
  }

  /** The routine multiplies modulo 2^256 exactly when no carry is lost. */
  lemma MulExactIff(a: Limbs, b: Limbs)
    ensures MulLimbs(a, b).Value() == (a.Value() * b.Value()) % L4 <==> !LosesCarry(a, b)
  {
    MulValue(a, b);
    if LosesCarry(a, b) {
      NotCongruent(a.Value() * b.Value());
    }
  }

  lemma NotCongruent(n: int)
    ensures n % L4 != (n - L3) % L4
  {
  }

  /** In particular when one operand fits in one limb. */
  lemma MulSmallOperand(a: Limbs, b: Limbs)
    requires a.Value() < L || b.Value() < L
    ensures !LosesCarry(a, b)
  {
    var p := ProdsOf(a, b);
    if a.Value() < L {
      assert p.p10 == 0 by { assert a.w1 == 0; }
      NoSecondRow(p);
    } else {
      assert p.p01 == 0 && p.p02 == 0 by { assert b.w1 == 0 && b.w2 == 0; }
      NoFirstRow(p);
    }
  }

  lemma NoSecondRow(p: Prods)
    requires p.p10 == 0
    ensures !LosesCarryOf(p)
  {
  }

  lemma NoFirstRow(p: Prods)
    requires p.p01 == 0 && p.p02 == 0
    ensures !LosesCarryOf(p)
  {
    CarryLimb(p.p00);
  }

  /** 2^128 - 1 times 2^128 + 2^64 - 1 loses the carry. */
  lemma LosesCarryExample()
    ensures LosesCarry(Limbs(L - 1, L - 1, 0, 0), Limbs(L - 1, 0, 1, 0))
  {
  }

  // ---------------------------------------------------------------------------
  // The loops
  // ---------------------------------------------------------------------------

  function LimbAt(x: Limbs, i: nat): Limb
    requires i < 4
  {
    match i case 0 => x.w0 case 1 => x.w1 case 2 => x.w2 case _ => x.w3
  }

  /** The visit of limbs `i` and `j`. */
  function Visit(a: Limbs, b: Limbs, r: Limbs, i: nat, j: nat): Limbs
    requires i < 4 && j < 4
  {
    if i + j < 4 then Accumulate(r, P(LimbAt(a, i), LimbAt(b, j)), i + j) else r
  }

  function VisitFrom(a: Limbs, b: Limbs, r: Limbs, i: nat, j: nat): Limbs
    requires i <= 4 && j <= 4
    decreases 4 - i, 4 - j
  {
    if i == 4 then r
    else if j == 4 then VisitFrom(a, b, r, i + 1, 0)
    else VisitFrom(a, b, Visit(a, b, r, i, j), i, j + 1)
  }

  lemma VisitRow(a: Limbs, b: Limbs, r: Limbs, i: nat)
    requires i < 4
    ensures VisitFrom(a, b, r, i, 0)
         == VisitFrom(a, b, Visit(a, b, Visit(a, b, Visit(a, b, Visit(a, b, r, i, 0), i, 1), i, 2), i, 3), i + 1, 0)
  {
    var r1 := Visit(a, b, r, i, 0);
    var r2 := Visit(a, b, r1, i, 1);
    var r3 := Visit(a, b, r2, i, 2);
    var r4 := Visit(a, b, r3, i, 3);
    assert VisitFrom(a, b, r1, i, 1) == VisitFrom(a, b, r2, i, 2);
    assert VisitFrom(a, b, r3, i, 3) == VisitFrom(a, b, r4, i, 4) == VisitFrom(a, b, r4, i + 1, 0);
  }

  lemma VisitAll(a: Limbs, b: Limbs, i: nat)
    requires i == 0
    ensures VisitFrom(a, b, ZERO, i, 0) == MulLimbs(a, b)
  {
    var r1 := FirstRow(ProdsOf(a, b));
    VisitRow(a, b, ZERO, i);
    assert VisitFrom(a, b, ZERO, i, 0) == VisitFrom(a, b, r1, i + 1, 0);
    VisitRest(a, b, r1);
  }

  lemma VisitRest(a: Limbs, b: Limbs, r: Limbs)
    ensures VisitFrom(a, b, r, 1, 0) == LastRows(SecondRow(r, ProdsOf(a, b)), ProdsOf(a, b))
  {
    var p := ProdsOf(a, b);
    VisitRow(a, b, r, 1);
    var r1 := SecondRow(r, p);
    VisitRow(a, b, r1, 2);
    var r2 := Accumulate(Accumulate(r1, p.p20, 2), p.p21, 3);
    VisitRow(a, b, r2, 3);
  }

  lemma Distribute(x: nat, q: nat, v: nat, p: nat)
    ensures (x * q + v) * p == x * (q * p) + v * p
  {
  }

  lemma {:induction false} BeConcat(x: seq<byte>, y: seq<byte>)
    ensures BeVal(x + y) == BeVal(x) * Pow256(|y|) + BeVal(y)
  {
    if x == [] {
      assert x + y == y;
    } else {
      BeConcat(x[1..], y);
      assert (x + y)[1..] == x[1..] + y;
      Pow256Add(|x| - 1, |y|);
      Distribute(x[0], Pow256(|x| - 1), BeVal(x[1..]), Pow256(|y|));
    }
  }

  lemma {:induction false} BeToBe(n: nat, w: nat)
    requires n < Pow256(w)
    ensures BeVal(ToBe(n, w)) == n
    decreases w, n
  {
    if w > 0 {
      BeToBe(n / 256, w - 1);
      BeConcat(ToBe(n / 256, w - 1), [n % 256]);
      assert BeVal([n % 256]) == n % 256 by { assert [n % 256][1..] == []; }
      assert Pow256(1) == 256;
    }
  }

  lemma LimbPowers()
    ensures Pow256(8) == L && Pow256(16) == L2 && Pow256(24) == L3 && Pow256(32) == L4
  {
    WidthValues();
    Pow256Add(8, 8);
    Pow256Add(8, 16);
    Pow256Add(8, 24);
  }

  function LimbOf(a: seq<byte>): (r: Limb)
    requires |a| == 8
  {
    BeBound(a);
    LimbPowers();
    BeVal(a)
  }

  function LimbsOf(a: seq<byte>): Limbs
    requires |a| == 32
  {
    Limbs(LimbOf(a[24..32]), LimbOf(a[16..24]), LimbOf(a[8..16]), LimbOf(a[0..8]))
  }

  lemma BeConcatLimb(x: seq<byte>, y: seq<byte>)
    requires |y| == 8
    ensures BeVal(x + y) == BeVal(x) * L + BeVal(y)
  {
    LimbPowers();
    BeConcat(x, y);
  }

  lemma FourLimbs(x3: seq<byte>, x2: seq<byte>, x1: seq<byte>, x0: seq<byte>)
    requires |x2| == 8 && |x1| == 8 && |x0| == 8
    ensures BeVal(x3 + x2 + x1 + x0) == BeVal(x0) + BeVal(x1) * L + BeVal(x2) * L2 + BeVal(x3) * L3
  {
    BeConcatLimb(x3, x2);
    BeConcatLimb(x3 + x2, x1);
    BeConcatLimb(x3 + x2 + x1, x0);
  }

  lemma LimbsValue(a: seq<byte>)
    requires |a| == 32
    ensures LimbsOf(a).Value() == BeVal(a)
  {
    assert a == a[0..8] + a[8..16] + a[16..24] + a[24..32];
    FourLimbs(a[0..8], a[8..16], a[16..24], a[24..32]);
  }

  /** Four limbs, most significant first, as the routine keeps them. */
  ghost function View(r: seq<Limb>): Limbs
    requires |r| == 4
  {
    Limbs(r[3], r[2], r[1], r[0])
  }

  function BytesOf(r: seq<Limb>): (out: seq<byte>)
    requires |r| == 4
    ensures |out| == 32
  {
    ToBe(r[0], 8) + ToBe(r[1], 8) + ToBe(r[2], 8) + ToBe(r[3], 8)
  }

  lemma BytesValue(r: seq<Limb>)
    requires |r| == 4
    ensures BeVal(BytesOf(r)) == View(r).Value()
  {
    LimbPowers();
    BeToBe(r[0], 8);
    BeToBe(r[1], 8);
    BeToBe(r[2], 8);
    BeToBe(r[3], 8);
    FourLimbs(ToBe(r[0], 8), ToBe(r[1], 8), ToBe(r[2], 8), ToBe(r[3], 8));
  }

  /** Multiplication of 32-byte words: modulo 2^256 unless the carry is lost, and then short by 2^192. */
  method Mul(a: seq<byte>, b: seq<byte>) returns (out: seq<byte>)
    requires |a| == 32 && |b| == 32
    ensures |out| == 32
    ensures BeVal(out) == (BeVal(a) * BeVal(b) - if LosesCarry(LimbsOf(a), LimbsOf(b)) then L3 else 0) % Pow256(32)
  {
    var al := [LimbOf(a[0..8]), LimbOf(a[8..16]), LimbOf(a[16..24]), LimbOf(a[24..32])];
    var bl := [LimbOf(b[0..8]), LimbOf(b[8..16]), LimbOf(b[16..24]), LimbOf(b[24..32])];
    var r := MulLoops(al, bl);
    out := BytesOf(r);
    BytesValue(r);
    LimbsValue(a);
    LimbsValue(b);
    assert View(al) == LimbsOf(a) && View(bl) == LimbsOf(b);
    MulValue(LimbsOf(a), LimbsOf(b));
    LimbPowers();
  }

  method MulLoops(al: seq<Limb>, bl: seq<Limb>) returns (limbs: seq<Limb>)
    requires |al| == 4 && |bl| == 4
    ensures |limbs| == 4 && View(limbs) == MulLimbs(View(al), View(bl))
  {
    ghost var a, b := View(al), View(bl);
    var r := new Limb[4](_ => 0);
    assert View(r[..]) == ZERO;
    var i := 0;
    VisitAll(a, b, i);
    while i < 4
      invariant 0 <= i <= 4 && VisitFrom(a, b, View(r[..]), i, 0) == MulLimbs(a, b)
    {
      for j := 0 to 4
        invariant VisitFrom(a, b, View(r[..]), i, j) == MulLimbs(a, b)
      {
        if i + j < 4 {
          AddProduct(r, P(al[3 - i], bl[3 - j]), i + j);
        }
      }
      i := i + 1;
    }
    return r[..];
  }

  method AddProduct(r: array<Limb>, prod: nat, dest: nat)
    requires r.Length == 4 && dest < 4 && prod <= (L - 1) * (L - 1)
    modifies r
    ensures View(r[..]) == Accumulate(old(View(r[..])), prod, dest)
  {
    var t := r[3 - dest] + prod;
    r[3 - dest] := t % L;
    if dest + 1 < 4 {
      r[3 - dest - 1] := (r[3 - dest - 1] + t / L) % L;
    }
  }
}
