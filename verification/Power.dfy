/** Sums of voting power over finite sets of validators. */
module Power {

  /** Public keys are 32 bytes; a key is read as a big-endian integer, so that the
      numeric order is the byte-wise order in which a `BTreeMap` iterates. */
  type PublicKey = nat

  ghost function Sum(s: set<PublicKey>, w: PublicKey -> nat): nat
  {
    if s == {} then 0 else
      var x :| x in s;
      w(x) + Sum(s - {x}, w)
  }

  /** Any element may be split off. */
  lemma {:induction false} SumSplit(s: set<PublicKey>, w: PublicKey -> nat, x: PublicKey)
    requires x in s
    ensures Sum(s, w) == w(x) + Sum(s - {x}, w)
    decreases |s|
  {
    var y :| y in s && Sum(s, w) == w(y) + Sum(s - {y}, w);
    if x != y {
      SumSplit(s - {y}, w, x);
      SumSplit(s - {x}, w, y);
      assert s - {y} - {x} == s - {x} - {y};
    }
  }

  lemma SumInsert(s: set<PublicKey>, w: PublicKey -> nat, x: PublicKey)
    requires x !in s
    ensures Sum(s + {x}, w) == w(x) + Sum(s, w)
  {
    SumSplit(s + {x}, w, x);
    assert s + {x} - {x} == s;
  }

  lemma {:induction false} SumDisjoint(a: set<PublicKey>, b: set<PublicKey>, w: PublicKey -> nat)
    requires a !! b
    ensures Sum(a + b, w) == Sum(a, w) + Sum(b, w)
    decreases |b|
  {
    if b == {} {
      assert a + b == a;
    } else {
      var x :| x in b;
      SumSplit(b, w, x);
      SumDisjoint(a + {x}, b - {x}, w);
      SumInsert(a, w, x);
      assert a + {x} + (b - {x}) == a + b;
    }
  }

  lemma SumMonotone(a: set<PublicKey>, b: set<PublicKey>, w: PublicKey -> nat)
    requires a <= b
    ensures Sum(a, w) <= Sum(b, w)
  {
    SumDisjoint(a, b - a, w);
    assert a + (b - a) == b;
  }

  /** Inclusion and exclusion: two subsets of `u` overlap in at least the excess of
      their powers over the power of `u`. */
  lemma SumIntersection(a: set<PublicKey>, b: set<PublicKey>, u: set<PublicKey>, w: PublicKey -> nat)
    requires a <= u && b <= u
    ensures Sum(a, w) + Sum(b, w) <= Sum(u, w) + Sum(a * b, w)
  {
    SumDisjoint(a - b, a * b, w);
    assert (a - b) + (a * b) == a;
    SumDisjoint(a - b, b, w);
    SumMonotone((a - b) + b, u, w);
  }

  lemma {:induction false} SumCongruent(s: set<PublicKey>, v: PublicKey -> nat, w: PublicKey -> nat)
    requires forall x :: x in s ==> v(x) == w(x)
    ensures Sum(s, v) == Sum(s, w)
    decreases |s|
  {
    if s != {} {
      var x :| x in s;
      SumSplit(s, v, x);
      SumSplit(s, w, x);
      SumCongruent(s - {x}, v, w);
    }
  }

  lemma {:induction false} SumBelow(s: set<PublicKey>, v: PublicKey -> nat, w: PublicKey -> nat)
    requires forall x :: x in s ==> v(x) <= w(x)
    ensures Sum(s, v) <= Sum(s, w)
    decreases |s|
  {
    if s != {} {
      var x :| x in s;
      SumSplit(s, v, x);
      SumSplit(s, w, x);
      SumBelow(s - {x}, v, w);
    }
  }

  lemma {:induction false} SumZero(s: set<PublicKey>, w: PublicKey -> nat)
    requires forall x :: x in s ==> w(x) == 0
    ensures Sum(s, w) == 0
    decreases |s|
  {
    if s != {} {
      var x :| x in s;
      SumSplit(s, w, x);
      SumZero(s - {x}, w);
    }
  }

  /** A set with more power than `limit` contains an element outside any set whose
      power is at most `limit`. */
  lemma SumExceeds(a: set<PublicKey>, b: set<PublicKey>, w: PublicKey -> nat) returns (x: PublicKey)
    requires Sum(a, w) > Sum(b, w)
    ensures x in a && x !in b
  {
    if a <= b {
      SumMonotone(a, b, w);
      assert false;
    }
    x :| x in a && x !in b;
  }

  lemma SumSingleton(x: PublicKey, w: PublicKey -> nat)
    ensures Sum({x}, w) == w(x)
  {
    SumSplit({x}, w, x);
    assert {x} - {x} == {};
  }
}
