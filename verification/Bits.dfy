/** 32-bit words as sequences of bits, most significant bit first, and C's operators on them. */
module Bits {
  type Bits = seq<bool>

  type Word = w: Bits | |w| == 32 witness Zeros(32)

  function Zeros(n: nat): Bits {
    seq(n, _ => false)
  }

  /** At most 32 bits at the low end of a word. */
  function Pad(b: Bits): Word
    requires |b| <= 32
  {
    Zeros(32 - |b|) + b
  }

  const ONE: Word := Zeros(31) + [true]

  function Shl(w: Word, n: nat): Word
    requires n <= 32
  {
    w[n..] + Zeros(n)
  }

  function Shr(w: Word, n: nat): Word
    requires n <= 32
  {
    Zeros(n) + w[..32 - n]
  }

  function Or(a: Bits, b: Bits): (r: Bits)
    requires |a| == |b|
  {
    seq(|a|, i requires 0 <= i < |a| => a[i] || b[i])
  }

  function Xor(a: Bits, b: Bits): (r: Bits)
    requires |a| == |b|
  {
    seq(|a|, i requires 0 <= i < |a| => a[i] != b[i])
  }

  function And(a: Bits, b: Bits): (r: Bits)
    requires |a| == |b|
  {
    seq(|a|, i requires 0 <= i < |a| => a[i] && b[i])
  }

  /** w & (1 << bitPos) is not 0. */
  predicate IsSet(w: Word, bitPos: nat)
    requires bitPos < 32
  {
    w[31 - bitPos]
  }

  /** Addition modulo 2^|a|: the carry into the lowest bit is 0, and bit i is a + b + carry. */
  function Plus(a: Bits, b: Bits): (r: Bits)
    requires |a| == |b|
    ensures |r| == |a|
    decreases |a|
  {
    if a == [] then [] else [(a[0] != b[0]) != Carry(a[1..], b[1..])] + Plus(a[1..], b[1..])
  }

  predicate Carry(a: Bits, b: Bits)
    requires |a| == |b|
    decreases |a|
  {
    a != [] && ((a[0] && b[0]) || (a[0] != b[0] && Carry(a[1..], b[1..])))
  }

  /** Adding words that share no bit is or. */
  lemma {:induction false} PlusDisjoint(a: Bits, b: Bits)
    requires |a| == |b|
    requires forall i :: 0 <= i < |a| ==> !(a[i] && b[i])
    ensures Plus(a, b) == Or(a, b) && !Carry(a, b)
    decreases |a|
  {
    if a != [] {
      PlusDisjoint(a[1..], b[1..]);
      assert Or(a, b) == [a[0] || b[0]] + Or(a[1..], b[1..]);
    }
  }

  /** Both halves of a word brought together by two shifts. */
  lemma Joined(a: Word, b: Word, n: nat)
    requires n <= 32
    ensures Or(Shl(a, n), Shr(b, 32 - n)) == a[n..] + b[..n]
    ensures Or(Shr(b, 32 - n), Shl(a, n)) == a[n..] + b[..n]
    ensures Plus(Shl(a, n), Shr(b, 32 - n)) == a[n..] + b[..n]
    ensures Plus(Shr(b, 32 - n), Shl(a, n)) == a[n..] + b[..n]
  {
    PlusDisjoint(Shl(a, n), Shr(b, 32 - n));
    PlusDisjoint(Shr(b, 32 - n), Shl(a, n));
  }

  lemma Shifted(w: Word, n: nat, m: nat)
    requires n + m <= 32
    ensures Shl(Shl(w, n), m) == Shl(w, n + m)
  {
    assert Zeros(n + m) == Zeros(n) + Zeros(m);
  }

  /** permutedHi <<= 1; permutedHi |= bit */
  lemma Appended(b: Bits, bit: bool)
    requires |b| < 32
    ensures Or(Shl(Pad(b), 1), if bit then ONE else Zeros(32)) == Pad(b + [bit])
  {
  }

  lemma XorTwice(a: Bits, b: Bits)
    requires |a| == |b|
    ensures Xor(Xor(a, b), b) == a
  {
  }
}
