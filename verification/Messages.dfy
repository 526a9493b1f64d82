/** Consensus messages and the canonical byte strings that are signed
    (src/consensus/messages.rs). */
module Messages {
  import opened Common
  import opened Power

  const HASH_LIMIT: nat := 0x1_0000_0000_0000_0000_0000_0000_0000_0000_0000_0000_0000_0000_0000_0000_0000_0000

  /** A 32-byte hash, read as a big-endian integer. */
  type Hash32 = h: nat | h < HASH_LIMIT witness 0

  type Signature = seq<byte>
  type Height = h: nat | h < U64_LIMIT
  type Round = r: nat | r < U32_LIMIT

  datatype VoteType = Prevote | Precommit {
    function AsByte(): (b: byte)
    {
      if Prevote? then 0 else 1
    }
  }

  /** A block; `id` stands for the hash of its header. */
  datatype Block = Block(id: Hash32, proposerPk: PublicKey, body: seq<byte>)

  datatype Vote = Vote(voteType: VoteType, height: Height, round: Round, voter: PublicKey,
                       blockId: Option<Hash32>, signature: Signature)
  {
    function SignBytes(): seq<byte> {
      VoteSignBytes(voteType, height, round, blockId)
    }
  }

  datatype Proposal = Proposal(height: Height, round: Round, proposer: PublicKey, blockId: Hash32,
                               block: Option<Block>, polRound: Option<Round>, signature: Signature)
  {
    function SignBytes(): seq<byte> {
      ProposalSignBytes(height, round, blockId, polRound)
    }
  }

  /** The `w` low-order bytes of `n`, most significant first. */
  function ToBe(n: nat, w: nat): (bytes: seq<byte>)
    ensures |bytes| == w
    decreases w, n
  {
    if w == 0 then [] else ToBe(n / 256, w - 1) + [n % 256]
  }

  lemma {:induction false} BeInjective(m: nat, n: nat, w: nat)
    requires m < Pow256(w) && n < Pow256(w)
    requires ToBe(m, w) == ToBe(n, w)
    ensures m == n
    decreases w, n
  {
    if w > 0 {
      var a, b := ToBe(m, w), ToBe(n, w);
      assert a[..w - 1] == ToBe(m / 256, w - 1) && b[..w - 1] == ToBe(n / 256, w - 1);
      assert a[w - 1] == m % 256 && b[w - 1] == n % 256;
      BeInjective(m / 256, n / 256, w - 1);
    }
  }

  lemma HashWidth()
    ensures Pow256(32) == HASH_LIMIT
  {
    WidthValues();
    Pow256Add(8, 8);
    Pow256Add(16, 16);
  }

  function VoteSignBytes(voteType: VoteType, height: Height, round: Round, blockId: Option<Hash32>): seq<byte>
  {
    [voteType.AsByte()] + ToLe(height, 8) + ToLe(round, 4) +
    match blockId { case None => [] case Some(h) => ToBe(h, 32) }
  }

  function ProposalSignBytes(height: Height, round: Round, blockId: Hash32, polRound: Option<Round>): seq<byte>
  {
    ToLe(height, 8) + ToLe(round, 4) + ToBe(blockId, 32) +
    match polRound { case None => [0] case Some(r) => [1] + ToLe(r, 4) }
  }

  /** Equal concatenations with equally long heads have equal parts. */
  lemma SplitEqual(a: seq<byte>, b: seq<byte>, a': seq<byte>, b': seq<byte>)
    requires |a| == |a'| && a + b == a' + b'
    ensures a == a' && b == b'
  {
    assert (a + b)[..|a|] == a && (a' + b')[..|a|] == a';
    assert (a + b)[|a|..] == b && (a' + b')[|a|..] == b';
  }

  /** Every field of a vote can be read back from the bytes that are signed. */
  lemma VoteSignBytesInjective(t: VoteType, h: Height, r: Round, b: Option<Hash32>,
                               t': VoteType, h': Height, r': Round, b': Option<Hash32>)
    requires VoteSignBytes(t, h, r, b) == VoteSignBytes(t', h', r', b')
    ensures t == t' && h == h' && r == r' && b == b'
  {
    var x := match b { case None => [] case Some(v) => ToBe(v, 32) };
    var x' := match b' { case None => [] case Some(v) => ToBe(v, 32) };
    SplitEqual([t.AsByte()] + ToLe(h, 8) + ToLe(r, 4), x, [t'.AsByte()] + ToLe(h', 8) + ToLe(r', 4), x');
    SplitEqual([t.AsByte()] + ToLe(h, 8), ToLe(r, 4), [t'.AsByte()] + ToLe(h', 8), ToLe(r', 4));
    SplitEqual([t.AsByte()], ToLe(h, 8), [t'.AsByte()], ToLe(h', 8));
    WidthValues();
    HashWidth();
    LeInjective(h, h', 8);
    LeInjective(r, r', 4);
    if b.Some? && b'.Some? {
      BeInjective(b.value, b'.value, 32);
    }
  }

  lemma ProposalSignBytesInjective(h: Height, r: Round, b: Hash32, p: Option<Round>,
                                   h': Height, r': Round, b': Hash32, p': Option<Round>)
    requires ProposalSignBytes(h, r, b, p) == ProposalSignBytes(h', r', b', p')
    ensures h == h' && r == r' && b == b' && p == p'
  {
    var x := match p { case None => [0] case Some(q) => [1] + ToLe(q, 4) };
    var x' := match p' { case None => [0] case Some(q) => [1] + ToLe(q, 4) };
    SplitEqual(ToLe(h, 8) + ToLe(r, 4) + ToBe(b, 32), x, ToLe(h', 8) + ToLe(r', 4) + ToBe(b', 32), x');
    SplitEqual(ToLe(h, 8) + ToLe(r, 4), ToBe(b, 32), ToLe(h', 8) + ToLe(r', 4), ToBe(b', 32));
    SplitEqual(ToLe(h, 8), ToLe(r, 4), ToLe(h', 8), ToLe(r', 4));
    WidthValues();
    HashWidth();
    LeInjective(h, h', 8);
    LeInjective(r, r', 4);
    BeInjective(b, b', 32);
    PolInjective(p, p');
  }

  lemma PolInjective(p: Option<Round>, p': Option<Round>)
    requires (match p { case None => [0] case Some(q) => [1] + ToLe(q, 4) })
          == (match p' { case None => [0] case Some(q) => [1] + ToLe(q, 4) })
    ensures p == p'
  {
    if p.Some? && p'.Some? {
      SplitEqual([1], ToLe(p.value, 4), [1], ToLe(p'.value, 4));
      WidthValues();
      LeInjective(p.value, p'.value, 4);
    }
  }

  /** The one height, apart from 0, at which a vote and a proposal can have the same
      sign bytes: all of its eight bytes equal the byte that encodes a precommit. */
  const REPEATED_ONE_HEIGHT: nat := 0x0101_0101_0101_0101

  /** Votes and proposals carry no tag that tells the two kinds apart, and a vote for a
      block is as long as a proposal without a proof-of-lock round. At one height they
      are nevertheless different byte strings. */
  lemma VoteAndProposalBytesDiffer(t: VoteType, h: Height, r: Round, b: Option<Hash32>,
                                   r': Round, b': Hash32, p: Option<Round>)
    requires h != 0 && h != REPEATED_ONE_HEIGHT
    ensures VoteSignBytes(t, h, r, b) != ProposalSignBytes(h, r', b', p)
  {
    var x, y := VoteSignBytes(t, h, r, b), ProposalSignBytes(h, r', b', p);
    if x == y {
      var le := ToLe(h, 8);
      assert x[1..9] == le && y[..8] == le;
      assert le[0] == y[0] == x[0] == t.AsByte();
      assert le[1] == y[1] == x[1] == le[0] && le[2] == y[2] == x[2] == le[1];
      assert le[3] == y[3] == x[3] == le[2] && le[4] == y[4] == x[4] == le[3];
      assert le[5] == y[5] == x[5] == le[4] && le[6] == y[6] == x[6] == le[5];
      assert le[7] == y[7] == x[7] == le[6];
      RepeatedByteHeight(h, t.AsByte());
      assert false;
    }
  }

  ghost predicate Collide(t: VoteType, h: Height, r: Round, b: Option<Hash32>, r': Round, b': Hash32, p: Option<Round>)
  {
    VoteSignBytes(t, h, r, b) == ProposalSignBytes(h, r', b', p)
  }

  lemma {:induction false} ZeroBytes(w: nat)
    ensures ToLe(0, w) == ToBe(0, w) == Zeros(w)
  {
    if w > 0 {
      ZeroBytes(w - 1);
    }
  }

  /** A height of eight equal bytes `c` starts a vote for the zero block in round 0 and a proposal of the
      zero block in round `c` with the same bytes. */
  lemma RepeatedCollides(t: VoteType, h: Height, round: Round)
    requires ToLe(h, 8) == [round, round, round, round, round, round, round, round]
    requires round == t.AsByte() && ToLe(round, 4) == [round] + Zeros(3)
    ensures Collide(t, h, 0, Some(0), round, 0, None)
  {
    ZeroBytes(4);
    ZeroBytes(32);
    var c: byte := round;
    assert VoteSignBytes(t, h, 0, Some(0)) == [c, c, c, c, c, c, c, c, c] + Zeros(36);
    assert ProposalSignBytes(h, round, 0, None) == [c, c, c, c, c, c, c, c, c] + Zeros(36);
  }

  /** At height 0, a prevote and a proposal with the same sign bytes. */
  lemma ZeroHeightCollides()
    ensures Collide(VoteType.Prevote, 0, 0, Some(0), 0, 0, None)
  {
    ZeroBytes(8);
    ZeroBytes(4);
    RepeatedCollides(VoteType.Prevote, 0, 0);
  }

  /** At the other height, a precommit and a proposal with the same sign bytes. */
  lemma RepeatedHeightCollides()
    ensures Collide(VoteType.Precommit, REPEATED_ONE_HEIGHT, 0, Some(0), 1, 0, None)
  {
    var ones: seq<byte> := [1, 1, 1, 1, 1, 1, 1, 1];
    RepeatedByte(ones, 1);
    RepunitOfHeight();
    LeRoundTripBytes(ones);
    ZeroBytes(3);
    RepeatedCollides(VoteType.Precommit, REPEATED_ONE_HEIGHT, 1);
  }

  /** Some vote and some proposal of a height have the same sign bytes exactly at these two heights. */
  lemma CollideIff(h: Height)
    ensures (exists t: VoteType, r: Round, b: Option<Hash32>, r': Round, b': Hash32, p: Option<Round> ::
               Collide(t, h, r, b, r', b', p)) <==> h == 0 || h == REPEATED_ONE_HEIGHT
  {
    ZeroHeightCollides();
    RepeatedHeightCollides();
    forall t: VoteType, r: Round, b: Option<Hash32>, r': Round, b': Hash32, p: Option<Round>
      | h != 0 && h != REPEATED_ONE_HEIGHT
      ensures !Collide(t, h, r, b, r', b', p)
    {
      VoteAndProposalBytesDiffer(t, h, r, b, r', b', p);
    }
  }

  lemma RepeatedByteHeight(h: Height, c: byte)
    requires ToLe(h, 8) == [c, c, c, c, c, c, c, c] && c <= 1
    ensures h == c * REPEATED_ONE_HEIGHT
  {
    WidthValues();
    LeRoundTrip(h, 8);
    RepeatedByte(ToLe(h, 8), c);
    RepunitOfHeight();
  }

  function Repunit(n: nat): nat { if n == 0 then 0 else 1 + 256 * Repunit(n - 1) }

  lemma {:induction false} RepeatedByte(le: seq<byte>, c: byte)
    requires forall i :: 0 <= i < |le| ==> le[i] == c
    ensures FromLe(le) == c * Repunit(|le|)
  {
    if le != [] {
      RepeatedByte(le[1..], c);
      assert FromLe(le) == c + 256 * (c * Repunit(|le| - 1));
    }
  }

  lemma RepunitOfHeight()
    ensures Repunit(8) == REPEATED_ONE_HEIGHT
  {
    assert Repunit(4) == 1 + 256 * Repunit(3) && Repunit(3) == 1 + 256 * Repunit(2);
    assert Repunit(8) == 1 + 256 * Repunit(7) && Repunit(7) == 1 + 256 * Repunit(6);
    assert Repunit(6) == 1 + 256 * Repunit(5);
  }
}
