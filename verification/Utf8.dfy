/** UTF-8, and decoding that puts U+FFFD in place of what is not UTF-8: `errors='replace'` in Python,
    `from_utf8_lossy` in Rust. A text is its UTF-8 bytes. */
module Utf8 {
  import opened Common

  const REPLACEMENT: seq<byte> := [0xEF, 0xBF, 0xBD]

  predicate IsTail(b: byte) { 0x80 <= b <= 0xBF }

  /** The length of a character with this first byte; 0 when there is none. */
  function Width(lead: byte): nat
  {
    if lead < 0x80 then 1
    else if lead < 0xC2 then 0
    else if lead < 0xE0 then 2
    else if lead < 0xF0 then 3
    else if lead < 0xF5 then 4
    else 0
  }

  /** A second byte that is neither overlong, nor a surrogate, nor beyond U+10FFFF. */
  predicate IsSecond(lead: byte, b: byte)
  {
    && IsTail(b)
    && (lead == 0xE0 ==> b >= 0xA0) && (lead == 0xED ==> b < 0xA0)
    && (lead == 0xF0 ==> b >= 0x90) && (lead == 0xF4 ==> b < 0x90)
  }

  /** How far a character, or the beginning of one, goes at the front; at least one byte. */
  function Reach(s: seq<byte>): (n: nat)
    requires s != []
    ensures 1 <= n <= |s| && n <= Max(Width(s[0]), 1)
  {
    var width := Width(s[0]);
    if width < 2 || |s| < 2 || !IsSecond(s[0], s[1]) then 1
    else if width < 3 || |s| < 3 || !IsTail(s[2]) then 2
    else if width < 4 || |s| < 4 || !IsTail(s[3]) then 3
    else 4
  }

  predicate StartsWithChar(s: seq<byte>)
  {
    s != [] && Reach(s) == Width(s[0])
  }

  predicate IsText(s: seq<byte>)
  {
    s == [] || (StartsWithChar(s) && IsText(s[Reach(s)..]))
  }

  /** Each character stays, and each maximal piece that begins none or ends early becomes U+FFFD. */
  function Decoded(s: seq<byte>): (r: seq<byte>)
  {
    if s == [] then []
    else (if StartsWithChar(s) then s[..Reach(s)] else REPLACEMENT) + Decoded(s[Reach(s)..])
  }

  predicate IsChar(c: seq<byte>) { StartsWithChar(c) && Reach(c) == |c| }

  /** The code points that have an encoding: all but the surrogates. */
  predicate IsScalar(u: nat) { u < 0x110000 && !(0xD800 <= u < 0xE000) }

  /** The encoding of a code point, as RFC 3629 gives it in section 3. */
  function Encode(u: nat): (c: seq<byte>)
    requires u < 0x110000
  {
    if u < 0x80 then [u]
    else if u < 0x800 then [0xC0 + u / 64, 0x80 + u % 64]
    else if u < 0x10000 then [0xE0 + u / 4096, 0x80 + u / 64 % 64, 0x80 + u % 64]
    else [0xF0 + u / 262144, 0x80 + u / 4096 % 64, 0x80 + u / 64 % 64, 0x80 + u % 64]
  }

  lemma EncodingIsChar(u: nat)
    requires IsScalar(u)
    ensures IsChar(Encode(u))
  {
  }

  lemma TwoByteChar(x: int, y: int) returns (u: nat)
    requires 0xC2 <= x < 0xE0 && 0x80 <= y < 0xC0
    ensures IsScalar(u) && Encode(u) == [x, y]
  {
    u := (x - 0xC0) * 64 + (y - 0x80);
  }

  lemma ThreeByteChar(x: int, y: int, z: int) returns (u: nat)
    requires 0xE0 <= x < 0xF0 && 0x80 <= y < 0xC0 && 0x80 <= z < 0xC0
    requires (x == 0xE0 ==> y >= 0xA0) && (x == 0xED ==> y < 0xA0)
    ensures IsScalar(u) && Encode(u) == [x, y, z]
  {
    u := (x - 0xE0) * 4096 + (y - 0x80) * 64 + (z - 0x80);
  }

  lemma LowDigits(high: nat, z: nat, t: nat)
    requires z < 64 && t < 64
    ensures var u := high * 4096 + z * 64 + t; u / 4096 == high && u / 64 % 64 == z && u % 64 == t
  {
    var u := high * 4096 + z * 64 + t;
    assert u / 64 == high * 64 + z;
  }

  lemma FourByteChar(x: int, y: int, z: int, t: int) returns (u: nat)
    requires 0xF0 <= x < 0xF5 && 0x80 <= y < 0xC0 && 0x80 <= z < 0xC0 && 0x80 <= t < 0xC0
    requires (x == 0xF0 ==> y >= 0x90) && (x == 0xF4 ==> y < 0x90)
    ensures IsScalar(u) && Encode(u) == [x, y, z, t]
  {
    var high := (x - 0xF0) * 64 + (y - 0x80);
    u := high * 4096 + (z - 0x80) * 64 + (t - 0x80);
    LowDigits(high, z - 0x80, t - 0x80);
    assert u / 262144 == x - 0xF0 && high % 64 == y - 0x80;
  }

  lemma CharDecodes(c: seq<byte>) returns (u: nat)
    requires IsChar(c)
    ensures IsScalar(u) && Encode(u) == c
  {
    if |c| == 1 {
      u := c[0];
    } else if |c| == 2 {
      u := TwoByteChar(c[0], c[1]);
    } else if |c| == 3 {
      u := ThreeByteChar(c[0], c[1], c[2]);
    } else {
      u := FourByteChar(c[0], c[1], c[2], c[3]);
    }
  }

  /** The characters are exactly the encodings of code points. */
  lemma CharIffEncoding(c: seq<byte>)
    ensures IsChar(c) <==> exists u :: IsScalar(u) && c == Encode(u)
  {
    if IsChar(c) {
      var u := CharDecodes(c);
    }
    forall u | IsScalar(u) && c == Encode(u) ensures IsChar(c) {
      EncodingIsChar(u);
    }
  }

  /** A character is recognised whatever follows it. */
  lemma CharInFront(c: seq<byte>, s: seq<byte>)
    requires IsChar(c)
    ensures StartsWithChar(c + s) && Reach(c + s) == |c| && (c + s)[..|c|] == c && (c + s)[|c|..] == s
  {
    var t := c + s;
    assert forall i :: 0 <= i < |c| ==> t[i] == c[i];
  }

  lemma FirstChar(s: seq<byte>)
    requires StartsWithChar(s)
    ensures IsChar(s[..Reach(s)])
  {
    var c := s[..Reach(s)];
    assert forall i :: 0 <= i < |c| ==> c[i] == s[i];
  }

  lemma DecodedCons(c: seq<byte>, s: seq<byte>)
    requires IsChar(c)
    ensures Decoded(c + s) == c + Decoded(s)
  {
    CharInFront(c, s);
  }

  lemma {:induction false} DecodedConcat(a: seq<byte>, b: seq<byte>)
    requires IsText(a)
    ensures Decoded(a + b) == a + Decoded(b)
  {
    if a == [] {
      assert a + b == b;
    } else {
      var c, rest := a[..Reach(a)], a[Reach(a)..];
      FirstChar(a);
      DecodedConcat(rest, b);
      ConcatCons(a, c, rest, b);
    }
  }

  lemma ConcatCons(a: seq<byte>, c: seq<byte>, rest: seq<byte>, b: seq<byte>)
    requires a == c + rest && IsChar(c) && Decoded(rest + b) == rest + Decoded(b)
    ensures Decoded(a + b) == a + Decoded(b)
  {
    Associative(c, rest, b);
    DecodedCons(c, rest + b);
    Associative(c, rest, Decoded(b));
  }

  lemma Associative(a: seq<byte>, b: seq<byte>, c: seq<byte>)
    ensures (a + b) + c == a + (b + c)
  {
  }

  lemma {:induction false} TextConcat(c: seq<byte>, s: seq<byte>)
    requires IsChar(c) && IsText(s)
    ensures IsText(c + s)
  {
    CharInFront(c, s);
  }

  lemma {:induction false} DecodedIsText(s: seq<byte>)
    ensures IsText(Decoded(s))
  {
    if s != [] {
      DecodedIsText(s[Reach(s)..]);
      if StartsWithChar(s) {
        FirstChar(s);
        TextConcat(s[..Reach(s)], Decoded(s[Reach(s)..]));
      } else {
        TextConcat(REPLACEMENT, Decoded(s[Reach(s)..]));
      }
    }
  }

  /** Decoding leaves exactly the texts alone. */
  lemma DecodedSameIff(s: seq<byte>)
    ensures Decoded(s) == s <==> IsText(s)
  {
    DecodedIsText(s);
    if IsText(s) {
      DecodedConcat(s, []);
      assert s + [] == s;
    }
  }

  lemma {:induction false} DecodedKeepsNul(s: seq<byte>)
    ensures 0 in Decoded(s) <==> 0 in s
  {
    if s != [] {
      var n := Reach(s);
      DecodedKeepsNul(s[n..]);
      assert s == s[..n] + s[n..];
      if !StartsWithChar(s) {
        BadReach(s);
      }
    }
  }

  lemma BadReach(s: seq<byte>)
    requires s != [] && !StartsWithChar(s)
    ensures 0 !in s[..Reach(s)]
  {
    var c := s[..Reach(s)];
    forall i | 0 <= i < |c| ensures c[i] != 0 {
      assert c[i] == s[i];
    }
  }

  /** A character that is cut short becomes one U+FFFD. */
  lemma CutChar(c: seq<byte>, m: nat)
    requires IsChar(c) && 0 < m < |c|
    ensures Decoded(c[..m]) == REPLACEMENT
  {
    var p := c[..m];
    assert forall i :: 0 <= i < m ==> p[i] == c[i];
    assert Reach(p) == m && !StartsWithChar(p);
    assert p[m..] == [];
  }

  /** A text in two parts, the first with the characters that end within the first `n` bytes. */
  lemma {:induction false} LastBoundary(s: seq<byte>, n: nat) returns (a: seq<byte>, b: seq<byte>)
    requires IsText(s) && n <= |s|
    ensures s == a + b && IsText(a) && IsText(b) && |a| <= n
    ensures |a| < n ==> |a| + Reach(b) > n
  {
    if n == 0 || Reach(s) > n {
      a, b := [], s;
    } else {
      var c, rest := s[..Reach(s)], s[Reach(s)..];
      FirstChar(s);
      var a';
      a', b := LastBoundary(rest, n - |c|);
      a := c + a';
      TextConcat(c, a');
      Associative(c, a', b);
    }
  }

  lemma CutTail(s: seq<byte>, n: nat)
    requires StartsWithChar(s) && 0 < n < Reach(s)
    ensures Decoded(s[..n]) == REPLACEMENT
  {
    var c := s[..Reach(s)];
    FirstChar(s);
    CutChar(c, n);
    assert c[..n] == s[..n];
  }

  lemma PrefixOfConcat(a: seq<byte>, b: seq<byte>, n: nat)
    requires |a| <= n <= |a + b|
    ensures (a + b)[..n] == a + b[..n - |a|]
  {
  }

  /** Decoding the first `n` bytes of a text gives its characters up to there, and U+FFFD for a
      character that is cut. */
  lemma DecodedPrefix(s: seq<byte>, n: nat) returns (a: seq<byte>)
    requires IsText(s) && n <= |s|
    ensures |a| <= n && IsText(a) && a <= s
    ensures Decoded(s[..n]) == a + if |a| < n then REPLACEMENT else []
  {
    var b;
    a, b := LastBoundary(s, n);
    PrefixOfConcat(a, b, n);
    DecodedConcat(a, b[..n - |a|]);
    if |a| < n {
      CutTail(b, n - |a|);
    }
  }

  lemma InnerByte(s: seq<byte>, m: nat)
    requires StartsWithChar(s) && 0 < m < Reach(s)
    ensures IsTail(s[m])
  {
  }

  lemma TextBeforeReplacement(x: seq<byte>)
    requires IsText(x + REPLACEMENT)
    ensures IsText(x)
  {
    var s := x + REPLACEMENT;
    var a, b := LastBoundary(s, |x|);
    assert s[|x|] == 0xEF;
    if |a| < |x| {
      InnerByte(b, |x| - |a|);
      assert false;
    }
    assert a == s[..|x|] == x;
  }
}
