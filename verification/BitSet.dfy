/** Sets of small numbers packed into 64-bit words, as `BitSet` in `cleanup.rs`. */
module BitSets {

  /* ----- words ----- */

  function Pow2(k: nat): (r: nat)
    ensures r > 0
  {
    if k == 0 then 1 else 2 * Pow2(k - 1)
  }

  /** A `u64`. */
  type Word = w: nat | w < 0x1_0000_0000_0000_0000

  predicate BitAt(w: nat, i: nat) {
    if i == 0 then w % 2 == 1 else BitAt(w / 2, i - 1)
  }

  function BitOr(w: nat, v: nat): nat {
    if w == 0 then v
    else (if w % 2 == 1 || v % 2 == 1 then 1 else 0) + 2 * BitOr(w / 2, v / 2)
  }

  function BitAnd(w: nat, v: nat): nat {
    if w == 0 then 0
    else (if w % 2 == 1 && v % 2 == 1 then 1 else 0) + 2 * BitAnd(w / 2, v / 2)
  }

  /** `w & !v`. */
  function BitAndNot(w: nat, v: nat): nat {
    if w == 0 then 0
    else (if w % 2 == 1 && v % 2 == 0 then 1 else 0) + 2 * BitAndNot(w / 2, v / 2)
  }

  lemma {:induction false} ZeroBits(i: nat)
    ensures !BitAt(0, i)
  {
    if i > 0 { ZeroBits(i - 1); }
  }

  lemma {:induction false} OrBits(w: nat, v: nat, i: nat)
    ensures BitAt(BitOr(w, v), i) <==> BitAt(w, i) || BitAt(v, i)
    decreases i
  {
    if w == 0 { ZeroBits(i); } else if i > 0 { OrBits(w / 2, v / 2, i - 1); }
  }

  lemma {:induction false} AndBits(w: nat, v: nat, i: nat)
    ensures BitAt(BitAnd(w, v), i) <==> BitAt(w, i) && BitAt(v, i)
    decreases i
  {
    if w == 0 { ZeroBits(i); } else if i > 0 { AndBits(w / 2, v / 2, i - 1); }
  }

  lemma {:induction false} AndNotBits(w: nat, v: nat, i: nat)
    ensures BitAt(BitAndNot(w, v), i) <==> BitAt(w, i) && !BitAt(v, i)
    decreases i
  {
    if w == 0 { ZeroBits(i); } else if i > 0 { AndNotBits(w / 2, v / 2, i - 1); }
  }

  /** A shifted one is the word with that bit alone. */
  lemma {:induction false} Pow2Bits(k: nat, i: nat)
    ensures BitAt(Pow2(k), i) <==> i == k
    decreases k
  {
    if k == 0 {
      if i > 0 { ZeroBits(i - 1); }
    } else if i > 0 {
      Pow2Bits(k - 1, i - 1);
    }
  }

  lemma {:induction false} OrBound(w: nat, v: nat, n: nat)
    requires w < Pow2(n) && v < Pow2(n)
    ensures BitOr(w, v) < Pow2(n)
  {
    if w != 0 && n > 0 { OrBound(w / 2, v / 2, n - 1); }
  }

  lemma {:induction false} AndBound(w: nat, v: nat)
    ensures BitAnd(w, v) <= w && BitAndNot(w, v) <= w
  {
    if w != 0 { AndBound(w / 2, v / 2); }
  }

  lemma {:induction false} Pow2Grows(k: nat, n: nat)
    requires k < n
    ensures 2 * Pow2(k) <= Pow2(n)
  {
    if k < n - 1 { Pow2Grows(k, n - 1); }
  }

  lemma WordWidth()
    ensures Pow2(64) == 0x1_0000_0000_0000_0000
  {
    assert Pow2(8) == 256;
    assert Pow2(16) == 65536 by { assert Pow2(12) == 4096; }
    assert Pow2(32) == 0x1_0000_0000 by {
      assert Pow2(24) == 0x100_0000 by { assert Pow2(20) == 0x10_0000; }
      assert Pow2(28) == 0x1000_0000;
    }
    assert Pow2(48) == 0x1_0000_0000_0000 by {
      assert Pow2(36) == 0x10_0000_0000; assert Pow2(40) == 0x100_0000_0000; assert Pow2(44) == 0x1000_0000_0000;
    }
    assert Pow2(52) == 0x10_0000_0000_0000;
    assert Pow2(56) == 0x100_0000_0000_0000;
    assert Pow2(60) == 0x1000_0000_0000_0000;
  }

  lemma {:induction false} SameBits(w: nat, v: nat, n: nat)
    requires w < Pow2(n) && v < Pow2(n) && forall i: nat | i < n :: BitAt(w, i) == BitAt(v, i)
    ensures w == v
    decreases n
  {
    if n > 0 {
      assert BitAt(w, 0) == BitAt(v, 0);
      forall i: nat | i < n - 1 ensures BitAt(w / 2, i) == BitAt(v / 2, i) {
        assert BitAt(w, i + 1) == BitAt(v, i + 1);
      }
      SameBits(w / 2, v / 2, n - 1);
    }
  }

  lemma {:induction false} TestBit(w: nat, k: nat)
    ensures BitAnd(w, Pow2(k)) != 0 <==> BitAt(w, k)
    decreases k
  {
    if k == 0 {
      if w != 0 { AndZero(w / 2); }
    } else if w == 0 {
      ZeroBits(k);
    } else {
      TestBit(w / 2, k - 1);
    }
  }

  lemma {:induction false} AndZero(w: nat)
    ensures BitAnd(w, 0) == 0
  {
    if w != 0 { AndZero(w / 2); }
  }

  function Mask(i: nat): Word
    requires i < 64
  {
    WordWidth();
    Pow2Grows(i, 64);
    Pow2(i)
  }

  function Or(w: Word, v: Word): Word {
    WordWidth();
    OrBound(w, v, 64);
    BitOr(w, v)
  }

  function And(w: Word, v: Word): Word {
    AndBound(w, v);
    BitAnd(w, v)
  }

  function AndNot(w: Word, v: Word): Word {
    AndBound(w, v);
    BitAndNot(w, v)
  }

  /* ----- sets ----- */

  predicate Has(words: seq<Word>, b: nat) {
    b / 64 < |words| && BitAt(words[b / 64], b % 64)
  }

  ghost function BitsBelow(words: seq<Word>, n: nat): set<nat> {
    if n == 0 then {} else BitsBelow(words, n - 1) + (if Has(words, n - 1) then {n - 1} else {})
  }

  ghost function BitsOf(words: seq<Word>): set<nat> {
    BitsBelow(words, 64 * |words|)
  }

  lemma {:induction false} InBitsBelow(words: seq<Word>, n: nat, b: nat)
    ensures b in BitsBelow(words, n) <==> b < n && Has(words, b)
  {
    if n > 0 { InBitsBelow(words, n - 1, b); }
  }

  lemma InBits(words: seq<Word>, b: nat)
    ensures b in BitsOf(words) <==> Has(words, b)
  {
    InBitsBelow(words, 64 * |words|, b);
  }

  lemma InsertBits(words: seq<Word>, bit: nat)
    requires bit / 64 < |words|
    ensures BitsOf(words[bit / 64 := Or(words[bit / 64], Mask(bit % 64))]) == BitsOf(words) + {bit}
  {
    var i := bit / 64;
    var after := words[i := Or(words[i], Mask(bit % 64))];
    forall b: nat ensures b in BitsOf(after) <==> b in BitsOf(words) || b == bit {
      InBits(after, b);
      InBits(words, b);
      if b / 64 == i {
        OrBits(words[i], Mask(bit % 64), b % 64);
        Pow2Bits(bit % 64, b % 64);
      }
    }
  }

  lemma RemoveBits(words: seq<Word>, bit: nat)
    requires bit / 64 < |words|
    ensures BitsOf(words[bit / 64 := AndNot(words[bit / 64], Mask(bit % 64))]) == BitsOf(words) - {bit}
  {
    var i := bit / 64;
    var after := words[i := AndNot(words[i], Mask(bit % 64))];
    forall b: nat ensures b in BitsOf(after) <==> b in BitsOf(words) && b != bit {
      InBits(after, b);
      InBits(words, b);
      if b / 64 == i {
        AndNotBits(words[i], Mask(bit % 64), b % 64);
        Pow2Bits(bit % 64, b % 64);
      }
    }
  }

  /** Equal word vectors are equal sets. */
  lemma EqualBits(a: seq<Word>, b: seq<Word>)
    requires |a| == |b|
    ensures a == b <==> BitsOf(a) == BitsOf(b)
  {
    if BitsOf(a) == BitsOf(b) {
      forall i | 0 <= i < |a| ensures a[i] == b[i] {
        forall j: nat | j < 64 ensures BitAt(a[i], j) == BitAt(b[i], j) {
          InBits(a, 64 * i + j);
          InBits(b, 64 * i + j);
        }
        WordWidth();
        SameBits(a[i], b[i], 64);
      }
    }
  }

  class BitSet {
    var words: seq<Word>

    ghost function Bits(): set<nat>
      reads this
    {
      BitsOf(words)
    }

    constructor (bitCount: nat)
      ensures Bits() == {} && |words| == (bitCount + 63) / 64
    {
      words := seq((bitCount + 63) / 64, _ => 0);
      new;
      forall b: nat ensures b !in BitsOf(words) { InBits(words, b); ZeroBits(b % 64); }
    }

    constructor Copy(other: BitSet)
      ensures Bits() == other.Bits() && words == other.words
    {
      words := other.words;
    }

    method Contains(bit: nat) returns (r: bool)
      ensures r <==> bit in Bits()
    {
      InBits(words, bit);
      if bit / 64 < |words| {
        TestBit(words[bit / 64], bit % 64);
        r := And(words[bit / 64], Mask(bit % 64)) != 0;
      } else {
        r := false;
      }
    }

    method Insert(bit: nat)
      requires bit / 64 < |words|
      modifies this
      ensures Bits() == old(Bits()) + {bit} && |words| == old(|words|)
    {
      InsertBits(words, bit);
      words := words[bit / 64 := Or(words[bit / 64], Mask(bit % 64))];
    }

    method Remove(bit: nat)
      requires bit / 64 < |words|
      modifies this
      ensures Bits() == old(Bits()) - {bit} && |words| == old(|words|)
    {
      RemoveBits(words, bit);
      words := words[bit / 64 := AndNot(words[bit / 64], Mask(bit % 64))];
    }

    method UnionWith(other: BitSet)
      requires |words| == |other.words| && this != other
      modifies this
      ensures Bits() == old(Bits()) + other.Bits() && |words| == old(|words|)
    {
      ghost var before := words;
      for i := 0 to |words|
        invariant |words| == |before| && other.words == old(other.words)
        invariant forall j | 0 <= j < i :: words[j] == Or(before[j], other.words[j])
        invariant forall j | i <= j < |words| :: words[j] == before[j]
      {
        words := words[i := Or(words[i], other.words[i])];
      }
      forall b: nat ensures b in BitsOf(words) <==> b in BitsOf(before) || b in BitsOf(other.words) {
        InBits(words, b);
        InBits(before, b);
        InBits(other.words, b);
        if b / 64 < |words| { OrBits(before[b / 64], other.words[b / 64], b % 64); }
      }
    }

    method IntersectWith(other: BitSet)
      requires |words| == |other.words| && this != other
      modifies this
      ensures Bits() == old(Bits()) * other.Bits() && |words| == old(|words|)
    {
      ghost var before := words;
      for i := 0 to |words|
        invariant |words| == |before| && other.words == old(other.words)
        invariant forall j | 0 <= j < i :: words[j] == And(before[j], other.words[j])
        invariant forall j | i <= j < |words| :: words[j] == before[j]
      {
        words := words[i := And(words[i], other.words[i])];
      }
      forall b: nat ensures b in BitsOf(words) <==> b in BitsOf(before) && b in BitsOf(other.words) {
        InBits(words, b);
        InBits(before, b);
        InBits(other.words, b);
        if b / 64 < |words| { AndBits(before[b / 64], other.words[b / 64], b % 64); }
      }
    }

    method Equals(other: seq<Word>) returns (r: bool)
      requires |words| == |other|
      ensures r <==> Bits() == BitsOf(other)
    {
      EqualBits(words, other);
      r := words == other;
    }
  }
}
