/** Definitions shared by every component: options, bytes, machine-word limits and
    the fixed-width little-endian integer encoding used by all of the on-disk and
    on-wire formats. */
module Common {

  datatype Option<+T> = None | Some(value: T)

  type byte = b: int | 0 <= b < 256

  const U16_LIMIT: nat := 0x1_0000
  const U32_LIMIT: nat := 0x1_0000_0000
  const U64_LIMIT: nat := 0x1_0000_0000_0000_0000

  /** `u64::saturating_add`. */
  function SaturatingAdd(a: nat, b: nat): (r: nat)
    ensures r <= a + b
    ensures a + b < U64_LIMIT ==> r == a + b
    ensures a < U64_LIMIT ==> r < U64_LIMIT
  {
    if a + b < U64_LIMIT then a + b else U64_LIMIT - 1
  }

  /** `u64::saturating_sub`. */
  function SaturatingSub(a: nat, b: nat): (r: nat)
    ensures b <= a ==> r + b == a
    ensures a < b ==> r == 0
  {
    if b <= a then a - b else 0
  }

  function Min(a: nat, b: nat): (r: nat)
    ensures r <= a && r <= b && (r == a || r == b)
  {
    if a <= b then a else b
  }

  function Max(a: nat, b: nat): (r: nat)
    ensures a <= r && b <= r && (r == a || r == b)
  {
    if a <= b then b else a
  }

  function Zeros(n: nat): (z: seq<byte>)
    ensures |z| == n && forall i :: 0 <= i < n ==> z[i] == 0
  {
    seq(n, _ => 0)
  }

  lemma SubsetSize<T>(a: set<T>, b: set<T>)
    requires a <= b
    ensures |a| <= |b|
  {
    assert b == a + (b - a);
  }

  // ---------------------------------------------------------------------------
  // Little-endian integers
  // ---------------------------------------------------------------------------

  function Pow256(w: nat): (p: nat)
    ensures p >= 1
  {
    if w == 0 then 1 else 256 * Pow256(w - 1)
  }

  /** The `w` low-order bytes of `n`, least significant first (`to_le_bytes`). */
  function ToLe(n: nat, w: nat): (bytes: seq<byte>)
    ensures |bytes| == w
    decreases w, n
  {
    if w == 0 then [] else [n % 256] + ToLe(n / 256, w - 1)
  }

  /** The integer whose little-endian bytes are `bytes` (`from_le_bytes`). */
  function FromLe(bytes: seq<byte>): (n: nat)
    ensures n < Pow256(|bytes|)
  {
    if bytes == [] then 0 else bytes[0] + 256 * FromLe(bytes[1..])
  }

  /** The integer with these big-endian bytes. */
  function BeVal(s: seq<byte>): (n: nat)
  {
    if s == [] then 0 else s[0] * Pow256(|s| - 1) + BeVal(s[1..])
  }

  /** Decoding inverts encoding for every integer that fits the width. */
  lemma {:induction false} LeRoundTrip(n: nat, w: nat)
    requires n < Pow256(w)
    ensures FromLe(ToLe(n, w)) == n
    decreases w, n
  {
    if w > 0 {
      LeRoundTrip(n / 256, w - 1);
      assert ToLe(n, w)[1..] == ToLe(n / 256, w - 1);
    }
  }

  /** Encoding inverts decoding for every byte string. */
  lemma {:induction false} LeRoundTripBytes(bytes: seq<byte>)
    ensures ToLe(FromLe(bytes), |bytes|) == bytes
  {
    if bytes != [] {
      LeRoundTripBytes(bytes[1..]);
      var n := FromLe(bytes);
      assert n % 256 == bytes[0] && n / 256 == FromLe(bytes[1..]);
    }
  }

  lemma {:induction false} Pow256Add(a: nat, b: nat)
    ensures Pow256(a + b) == Pow256(a) * Pow256(b)
    decreases a
  {
    if a > 0 {
      Pow256Add(a - 1, b);
      assert Pow256(a + b) == 256 * (Pow256(a - 1) * Pow256(b));
    }
  }

  lemma WidthValues()
    ensures Pow256(1) == 256
    ensures Pow256(2) == U16_LIMIT
    ensures Pow256(4) == U32_LIMIT
    ensures Pow256(8) == U64_LIMIT
  {
    assert Pow256(4) == 256 * Pow256(3) && Pow256(3) == 256 * Pow256(2) && Pow256(2) == 256 * Pow256(1);
    assert Pow256(8) == 256 * Pow256(7) && Pow256(7) == 256 * Pow256(6) && Pow256(6) == 256 * Pow256(5);
    assert Pow256(5) == 256 * Pow256(4);
  }

  /** Two integers that fit the width and have the same bytes are equal. */
  lemma LeInjective(m: nat, n: nat, w: nat)
    requires m < Pow256(w) && n < Pow256(w)
    requires ToLe(m, w) == ToLe(n, w)
    ensures m == n
  {
    LeRoundTrip(m, w);
    LeRoundTrip(n, w);
  }
}
