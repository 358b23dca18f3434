/** Go's `uint32` words as `bv32`, and the bit-level vocabulary every test of
    the candidate-vetting code is written in: single bits, population count,
    logical shifts and rotations. */
module Words {

  /** Bit `b` of `v`, least significant first: Go's `(v >> b) & 1 == 1`. */
  function BitAt(v: bv32, b: bv5): bool
  {
    (v >> b) & 1 == 1
  }

  /** Bit `i` of `v` for a loop counter `i` in 0..31. */
  function Bit(v: bv32, i: nat): bool
    requires i < 32
  {
    BitAt(v, i as bv5)
  }

  /** Number of set bits among positions 0..k-1: the counting loop
      `for i := 0; i < k; i++ { if v&(1<<i) != 0 { ones++ } }`. */
  function OnesBelow(v: bv32, k: nat): (r: nat)
    requires k <= 32
    ensures r <= k
  {
    if k == 0 then 0 else OnesBelow(v, k - 1) + (if Bit(v, k - 1) then 1 else 0)
  }

  /** `bits.OnesCount32`: the Hamming weight of a word. */
  function PopCount(v: bv32): (r: nat)
    ensures r <= 32
  {
    OnesBelow(v, 32)
  }

  /** Go's `a << i` for a shift amount in 0..31; bits shifted out are lost. */
  function Shl(a: bv32, b: bv5): bv32
  {
    a << b
  }

  /** Go's `a >> i` on `uint32`: a logical shift, zeros come in at the top. */
  function Shr(a: bv32, b: bv5): bv32
  {
    a >> b
  }

  /** `b << i`, with the shift amount a loop counter. */
  function ShlBy(b: bv32, i: nat): bv32
    requires i < 32
  {
    Shl(b, i as bv5)
  }

  /** `b >> i` (logical), with the shift amount a loop counter. */
  function ShrBy(b: bv32, i: nat): bv32
    requires i < 32
  {
    Shr(b, i as bv5)
  }

  /** Rotation left by `b`, written `(x << b) | (x >> (32 - b))` in Go. */
  function RotateLeft(a: bv32, b: bv5): bv32
  {
    if b == 0 then a else (a << b) | (a >> (32 - b as bv6) as bv5)
  }

  lemma ComplementBitAt(v: bv32, b: bv5)
    ensures BitAt(!v, b) == !BitAt(v, b)
  {
  }

  lemma ComplementBit(v: bv32, i: nat)
    requires i < 32
    ensures Bit(!v, i) == !Bit(v, i)
  {
    ComplementBitAt(v, i as bv5);
  }

  lemma ZeroBitAt(b: bv5)
    ensures !BitAt(0, b)
  {
  }

  /** Complementing a word complements every counted bit. */
  lemma {:induction false} ComplementOnesBelow(v: bv32, k: nat)
    requires k <= 32
    ensures OnesBelow(!v, k) == k - OnesBelow(v, k)
  {
    if k > 0 {
      ComplementOnesBelow(v, k - 1);
      ComplementBitAt(v, (k - 1) as bv5);
    }
  }

  lemma PopCountComplement(v: bv32)
    ensures PopCount(!v) == 32 - PopCount(v)
  {
    ComplementOnesBelow(v, 32);
  }

  /** A count of zero means every counted bit is clear. */
  lemma {:induction false} NoOnesBelow(v: bv32, k: nat)
    requires k <= 32
    ensures OnesBelow(v, k) == 0 <==> forall i :: 0 <= i < k ==> !Bit(v, i)
  {
    if k > 0 {
      NoOnesBelow(v, k - 1);
    }
  }

  /** A word with no set bit is zero (the 32 bits are checked one by one). */
  lemma NoBitsSetIsZero(v: bv32)
    requires forall i :: 0 <= i < 32 ==> !Bit(v, i)
    ensures v == 0
  {
    forall b: bv5
      ensures !BitAt(v, b)
    {
      assert !Bit(v, b as int);
    }
    assert !BitAt(v, 0) && !BitAt(v, 1) && !BitAt(v, 2) && !BitAt(v, 3)
      && !BitAt(v, 4) && !BitAt(v, 5) && !BitAt(v, 6) && !BitAt(v, 7)
      && !BitAt(v, 8) && !BitAt(v, 9) && !BitAt(v, 10) && !BitAt(v, 11)
      && !BitAt(v, 12) && !BitAt(v, 13) && !BitAt(v, 14) && !BitAt(v, 15)
      && !BitAt(v, 16) && !BitAt(v, 17) && !BitAt(v, 18) && !BitAt(v, 19)
      && !BitAt(v, 20) && !BitAt(v, 21) && !BitAt(v, 22) && !BitAt(v, 23)
      && !BitAt(v, 24) && !BitAt(v, 25) && !BitAt(v, 26) && !BitAt(v, 27)
      && !BitAt(v, 28) && !BitAt(v, 29) && !BitAt(v, 30) && !BitAt(v, 31);
  }

  /** The zero word is the only word of Hamming weight 0, and all-ones the
      only one of weight 32. */
  lemma PopCountExtremes(v: bv32)
    ensures PopCount(v) == 0 <==> v == 0
    ensures PopCount(v) == 32 <==> v == 0xFFFF_FFFF
  {
    NoOnesBelow(v, 32);
    if PopCount(v) == 0 {
      NoBitsSetIsZero(v);
    }
    if v == 0 {
      forall i | 0 <= i < 32
        ensures !Bit(v, i)
      {
        ZeroBitAt(i as bv5);
      }
    }
    var w := !v;
    PopCountComplement(v);
    NoOnesBelow(w, 32);
    if PopCount(v) == 32 {
      NoBitsSetIsZero(w);
    }
    if v == 0xFFFF_FFFF {
      forall i | 0 <= i < 32
        ensures !Bit(w, i)
      {
        ZeroBitAt(i as bv5);
      }
    }
  }

  /** The alternating word has exactly half its bits set. */
  lemma PopCountAlternating()
    ensures PopCount(0xAAAA_AAAA) == 16
    ensures PopCount(0x5555_5555) == 16
  {
    assert OnesBelow(0xAAAA_AAAA, 8) == 4;
    assert OnesBelow(0xAAAA_AAAA, 16) == 8;
    assert OnesBelow(0xAAAA_AAAA, 24) == 12;
    PopCountComplement(0xAAAA_AAAA);
  }
}
