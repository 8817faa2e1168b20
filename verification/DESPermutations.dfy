/** The permutations of DES as the code does them: words of 32 bits, bit numbers that count from 0
    at the right, tables whose parts end in 64 and 128, and an initial permutation without a table. */
module DESPermutations {
  import opened Bits
  import opened FIPS46

  datatype Nonce = Nonce(hi: Word, lo: Word)

  // ---------- the tables ----------

  const PC1_HI: Part :=
    [7, 15, 23, 31, 39, 47, 55] +
    [63, 6, 14, 22, 30, 38, 46] +
    [54, 62, 5, 13, 21, 29, 37] +
    [45, 53, 61, 4, 12, 20, 28]

  const PC1_LO: Part :=
    [1, 9, 17, 25, 33, 41, 49] +
    [57, 2, 10, 18, 26, 34, 42] +
    [50, 58, 3, 11, 19, 27, 35] +
    [43, 51, 59, 36, 44, 52, 60]

  const PC2_HI: Part :=
    [50, 47, 53, 40, 63, 59, 61, 36] +
    [49, 58, 43, 54, 41, 45, 52, 60]

  const PC2_LO: Part :=
    [38, 56, 48, 57, 37, 44, 51, 62] +
    [19, 8, 29, 23, 13, 5, 30, 20] +
    [9, 15, 27, 12, 16, 11, 21, 4] +
    [26, 7, 14, 18, 10, 24, 31, 28]

  const IP_INV_HI: Part :=
    [24, 56, 16, 48, 8, 40, 0, 32] +
    [25, 57, 17, 49, 9, 41, 1, 33] +
    [26, 58, 18, 50, 10, 42, 2, 34] +
    [27, 59, 19, 51, 11, 43, 3, 35]

  const IP_INV_LO: Part :=
    [28, 60, 20, 52, 12, 44, 4, 36] +
    [29, 61, 21, 53, 13, 45, 5, 37] +
    [30, 62, 22, 54, 14, 46, 6, 38] +
    [31, 63, 23, 55, 15, 47, 7, 39]

  const P_LO: Part :=
    [16, 25, 12, 11, 3, 20, 4, 15] +
    [31, 17, 9, 6, 27, 14, 1, 22] +
    [30, 24, 8, 18, 0, 5, 29, 23] +
    [13, 19, 2, 26, 10, 21, 28, 7]

  const PC1_TABLE := Table([PC1_HI, PC1_LO])
  const PC2_TABLE := Table([PC2_HI, PC2_LO])
  const IP_INV_TABLE := Table([IP_INV_HI, IP_INV_LO])
  const P_TABLE := Table([P_LO])

  function DESSBox0(): (r: seq<Nibble>)
    ensures |r| == 64
  {
    [13, 1, 2, 15, 8, 13, 4, 8, 6, 10, 15, 3, 11, 7, 1, 4] +
    [10, 12, 9, 5, 3, 6, 14, 11, 5, 0, 0, 14, 12, 9, 7, 2] +
    [7, 2, 11, 1, 4, 14, 1, 7, 9, 4, 12, 10, 14, 8, 2, 13] +
    [0, 15, 6, 12, 10, 9, 13, 0, 15, 3, 3, 5, 5, 6, 8, 11]
  }

  function DESSBox1(): (r: seq<Nibble>)
    ensures |r| == 64
  {
    [4, 13, 11, 0, 2, 11, 14, 7, 15, 4, 0, 9, 8, 1, 13, 10] +
    [3, 14, 12, 3, 9, 5, 7, 12, 5, 2, 10, 15, 6, 8, 1, 6] +
    [1, 6, 4, 11, 11, 13, 13, 8, 12, 1, 3, 4, 7, 10, 14, 7] +
    [10, 9, 15, 5, 6, 0, 8, 15, 0, 14, 5, 2, 9, 3, 2, 12]
  }

  function DESSBox2(): (r: seq<Nibble>)
    ensures |r| == 64
  {
    [12, 10, 1, 15, 10, 4, 15, 2, 9, 7, 2, 12, 6, 9, 8, 5] +
    [0, 6, 13, 1, 3, 13, 4, 14, 14, 0, 7, 11, 5, 3, 11, 8] +
    [9, 4, 14, 3, 15, 2, 5, 12, 2, 9, 8, 5, 12, 15, 3, 10] +
    [7, 11, 0, 14, 4, 1, 10, 7, 1, 6, 13, 0, 11, 8, 6, 13]
  }

  function DESSBox3(): (r: seq<Nibble>)
    ensures |r| == 64
  {
    [2, 14, 12, 11, 4, 2, 1, 12, 7, 4, 10, 7, 11, 13, 6, 1] +
    [8, 5, 5, 0, 3, 15, 15, 10, 13, 3, 0, 9, 14, 8, 9, 6] +
    [4, 11, 2, 8, 1, 12, 11, 7, 10, 1, 13, 14, 7, 2, 8, 13] +
    [15, 6, 9, 15, 12, 0, 5, 9, 6, 10, 3, 4, 0, 5, 14, 3]
  }

  function DESSBox4(): (r: seq<Nibble>)
    ensures |r| == 64
  {
    [7, 13, 13, 8, 14, 11, 3, 5, 0, 6, 6, 15, 9, 0, 10, 3] +
    [1, 4, 2, 7, 8, 2, 5, 12, 11, 1, 12, 10, 4, 14, 15, 9] +
    [10, 3, 6, 15, 9, 0, 0, 6, 12, 10, 11, 1, 7, 13, 13, 8] +
    [15, 9, 1, 4, 3, 5, 14, 11, 5, 12, 2, 7, 8, 2, 4, 14]
  }

  function DESSBox5(): (r: seq<Nibble>)
    ensures |r| == 64
  {
    [10, 13, 0, 7, 9, 0, 14, 9, 6, 3, 3, 4, 15, 6, 5, 10] +
    [1, 2, 13, 8, 12, 5, 7, 14, 11, 12, 4, 11, 2, 15, 8, 1] +
    [13, 1, 6, 10, 4, 13, 9, 0, 8, 6, 15, 9, 3, 8, 0, 7] +
    [11, 4, 1, 15, 2, 14, 12, 3, 5, 11, 10, 5, 14, 2, 7, 12]
  }

  function DESSBox6(): (r: seq<Nibble>)
    ensures |r| == 64
  {
    [15, 3, 1, 13, 8, 4, 14, 7, 6, 15, 11, 2, 3, 8, 4, 14] +
    [9, 12, 7, 0, 2, 1, 13, 10, 12, 6, 0, 9, 5, 11, 10, 5] +
    [0, 13, 14, 8, 7, 10, 11, 1, 10, 3, 4, 15, 13, 4, 1, 2] +
    [5, 11, 8, 6, 12, 7, 6, 12, 9, 0, 3, 5, 2, 14, 15, 9]
  }

  function DESSBox7(): (r: seq<Nibble>)
    ensures |r| == 64
  {
    [14, 0, 4, 15, 13, 7, 1, 4, 2, 14, 15, 2, 11, 13, 8, 1] +
    [3, 10, 10, 6, 6, 12, 12, 11, 5, 9, 9, 5, 0, 3, 7, 8] +
    [4, 15, 1, 12, 14, 8, 8, 2, 13, 4, 6, 9, 2, 1, 11, 7] +
    [15, 5, 12, 11, 9, 3, 7, 14, 3, 10, 10, 0, 5, 6, 0, 13]
  }

  const DES_S_BOXES: seq<seq<Nibble>> :=
    [DESSBox0(), DESSBox1(), DESSBox2(), DESSBox3(), DESSBox4(), DESSBox5(), DESSBox6(), DESSBox7()]

  // ---------- permuting by a table ----------

  type Part = s: seq<nat> | |s| <= 32 && forall i :: 0 <= i < |s| ==> s[i] < 64 witness []

  function Table(parts: seq<seq<nat>>): (table: seq<nat>)
    requires parts != []
  {
    if |parts| == 1 then parts[0] + [128] else parts[0] + [64] + Table(parts[1..])
  }

  /** The bits a part names, counted from 0 at the right end of the 64. */
  function Chosen(hi: Word, lo: Word, part: Part): (r: Bits)
    ensures |r| == |part|
  {
    seq(|part|, i requires 0 <= i < |part| => (hi + lo)[63 - part[i]])
  }

  /** What DESPermute leaves in a word after n parts; junk is what it held before. */
  function AfterParts(hi: Word, lo: Word, parts: seq<Part>, n: int, junk: Word): Word
    requires n <= |parts|
  {
    if n <= 0 then junk else Pad(Chosen(hi, lo, parts[n - 1]))
  }

  /** The word after one more bit of a part. */
  lemma BitTaken(hi: Word, lo: Word, part: Part, i: nat, bit: bool)
    requires i < |part| && bit == (hi + lo)[63 - part[i]]
    ensures Or(Shl(Pad(Chosen(hi, lo, part[..i])), 1), if bit then ONE else Zeros(32)) == Pad(Chosen(hi, lo, part[..i + 1]))
  {
    assert Chosen(hi, lo, part[..i + 1]) == Chosen(hi, lo, part[..i]) + [bit];
    Appended(Chosen(hi, lo, part[..i]), bit);
  }

  lemma PartAt(table: seq<nat>, at: nat, parts: seq<Part>, n: nat)
    requires at <= |table| && n < |parts| && table[at..] == Table(parts[n..])
    ensures var end := at + |parts[n]|;
            && end < |table|
            && table[at..end] == parts[n]
            && (n + 1 < |parts| ==> table[end] == 64 && table[end + 1..] == Table(parts[n + 1..]))
            && (n + 1 == |parts| ==> table[end] == 128)
  {
    assert parts[n..][1..] == parts[n + 1..];
    var end := at + |parts[n]|;
    assert table[at..][..|parts[n]|] == parts[n];
    assert table[end] == table[at..][|parts[n]|];
    assert n + 1 < |parts| ==> table[end + 1..] == table[at..][|parts[n]| + 1..];
  }

  /** The inner loop: the bits of one part, shifted into a word from the right. */
  method PermutePart(inPermuteTable: seq<nat>, start: nat, inKeyHi: Word, inKeyLo: Word, ghost part: Part)
    returns (permuted: Word, at: nat, bitPos: nat)
    requires start + |part| < |inPermuteTable| && inPermuteTable[start..start + |part|] == part
    requires inPermuteTable[start + |part|] >= 64
    ensures permuted == Pad(Chosen(inKeyHi, inKeyLo, part))
    ensures at == start + |part| + 1 && bitPos == inPermuteTable[start + |part|]
  {
    permuted, at, bitPos := Zeros(32), start + 1, inPermuteTable[start];
    while bitPos < 64
      invariant start < at <= start + |part| + 1 && bitPos == inPermuteTable[at - 1]
      invariant permuted == Pad(Chosen(inKeyHi, inKeyLo, part[..at - 1 - start]))
      decreases start + |part| + 1 - at
    {
      assert bitPos == part[at - 1 - start];
      permuted := Shl(permuted, 1);
      var srcBits := inKeyLo;
      if bitPos >= 32 {
        srcBits := inKeyHi;
        bitPos := bitPos - 32;
      }
      BitTaken(inKeyHi, inKeyLo, part, at - 1 - start, IsSet(srcBits, bitPos));
      permuted := Or(permuted, if IsSet(srcBits, bitPos) then ONE else Zeros(32));
      bitPos := inPermuteTable[at];
      at := at + 1;
    }
    assert part[..|part|] == part;
  }

  method DESPermute(inPermuteTable: seq<nat>, inKeyHi: Word, inKeyLo: Word, junk: Word, ghost parts: seq<Part>)
    returns (outKey: Nonce)
    requires parts != [] && inPermuteTable == Table(parts)
    ensures outKey.hi == AfterParts(inKeyHi, inKeyLo, parts, |parts| - 1, junk)
    ensures outKey.lo == AfterParts(inKeyHi, inKeyLo, parts, |parts|, junk)
  {
    var permutedHi, permutedLo: Word := junk, junk;
    var at: nat, bitPos: nat := 0, 64;
    ghost var n := 0;
    while bitPos < 128
      invariant n <= |parts| && at <= |inPermuteTable|
      invariant bitPos == if n < |parts| then 64 else 128
      invariant n < |parts| ==> inPermuteTable[at..] == Table(parts[n..])
      invariant permutedHi == AfterParts(inKeyHi, inKeyLo, parts, n - 1, junk)
      invariant permutedLo == AfterParts(inKeyHi, inKeyLo, parts, n, junk)
      decreases |parts| - n
    {
      PartAt(inPermuteTable, at, parts, n);
      permutedHi, at, bitPos := PermutePart(inPermuteTable, at, inKeyHi, inKeyLo, parts[n]);
      permutedHi, permutedLo := permutedLo, permutedHi;
      n := n + 1;
    }
    outKey := Nonce(permutedHi, permutedLo);
  }

  // ---------- DESip ----------

  /** (a >> 31) | (r << 1) */
  function Push(a: Word, r: Word): Word {
    Or(Shr(a, 31), Shl(r, 1))
  }

  method DESip(inKeyHi: Word, inKeyLo: Word) returns (outKey: Nonce)
    ensures outKey.hi + outKey.lo == Select(inKeyHi + inKeyLo, IP)
  {
    var d6, d7, a1, a3 := inKeyHi, Shl(inKeyHi, 16), inKeyLo, Shl(inKeyLo, 16);
    var resultHi, resultLo := Zeros(32), Zeros(32);
    ghost var s := Sources(a3, a1, d7, d6);
    for j := 0 to 2
      invariant s.Shifted(8 * j, a3, a1, d7, d6)
      invariant j == 0 ==> resultHi == resultLo == Zeros(32)
      invariant j == 1 ==> (resultHi, resultLo) == Once(s)
      invariant j == 2 ==> (resultHi, resultLo) == Twice(s)
    {
      Rotated(resultHi);
      Rotated(resultLo);
      resultHi := Or(Shr(resultHi, 1), Shl(resultHi, 31));
      resultLo := Or(Shr(resultLo, 1), Shl(resultLo, 31));
      ghost var hi, lo := resultHi, resultLo;
      for i := 0 to 8
        invariant s.Shifted(8 * j + i, a3, a1, d7, d6)
        invariant (resultHi, resultLo) == Pass(hi, lo, s, 8 * j, i)
      {
        Turned(resultLo, s, 8 * j + i, a3, a1, d7, d6);
        resultLo := Push(a3, resultLo);
        a3 := Shl(a3, 1);
        resultLo := Push(resultLo, resultLo);
        resultLo := Push(a1, resultLo);
        a1 := Shl(a1, 1);
        resultLo := Push(resultLo, resultLo);
        resultLo := Push(d7, resultLo);
        d7 := Shl(d7, 1);
        resultLo := Push(resultLo, resultLo);
        resultLo := Push(d6, resultLo);
        d6 := Shl(d6, 1);
        resultLo := Push(resultLo, resultLo);
        resultHi, resultLo := resultLo, resultHi;
      }
    }
    TwiceIsIP(inKeyHi, inKeyLo);
    outKey := Nonce(resultHi, resultLo);
  }

  /** The words DESip feeds from, as they are at the start. */
  datatype Sources = Sources(a3: Word, a1: Word, d7: Word, d6: Word) {
    ghost predicate Shifted(n: nat, a3: Word, a1: Word, d7: Word, d6: Word) {
      n <= 32 && a3 == Shl(this.a3, n) && a1 == Shl(this.a1, n) && d7 == Shl(this.d7, n) && d6 == Shl(this.d6, n)
    }
  }

  /** Eight pushes: the first eight bits leave, and come back at the end with bit t of each source in
      the place of every other one. */
  function Row(w: Word, s: Sources, t: nat, m: nat): Bits
    requires t < 32 && m < 4
  {
    [s.a3[t], w[8 * m + 1], s.a1[t], w[8 * m + 3], s.d7[t], w[8 * m + 5], s.d6[t], w[8 * m + 7]]
  }

  function Weave(w: Word, s: Sources, t: nat): Word
    requires t < 32
  {
    w[8..] + Row(w, s, t, 0)
  }

  lemma PushIs(a: Word, r: Word)
    ensures Push(a, r) == r[1..] + [a[0]]
  {
    Joined(r, a, 1);
  }

  lemma PushTwice(a: Word, r: Word)
    ensures Push(Push(a, r), Push(a, r)) == r[2..] + [a[0], r[1]]
  {
    PushIs(a, r);
    PushIs(Push(a, r), Push(a, r));
  }

  lemma Woven(r: Word, a3: Word, a1: Word, d7: Word, d6: Word)
    ensures var r2 := Push(Push(a3, r), Push(a3, r));
            var r4 := Push(Push(a1, r2), Push(a1, r2));
            var r6 := Push(Push(d7, r4), Push(d7, r4));
            var r8 := Push(Push(d6, r6), Push(d6, r6));
            r8 == r[8..] + [a3[0], r[1], a1[0], r[3], d7[0], r[5], d6[0], r[7]]
  {
    PushTwice(a3, r);
    var r2 := r[2..] + [a3[0], r[1]];
    PushTwice(a1, r2);
    var r4 := r[4..] + [a3[0], r[1], a1[0], r[3]];
    assert r4 == r2[2..] + [a1[0], r2[1]];
    PushTwice(d7, r4);
    var r6 := r[6..] + [a3[0], r[1], a1[0], r[3], d7[0], r[5]];
    assert r6 == r4[2..] + [d7[0], r4[1]];
    PushTwice(d6, r6);
  }

  lemma Turned(r: Word, s: Sources, n: nat, a3: Word, a1: Word, d7: Word, d6: Word)
    requires n < 32 && s.Shifted(n, a3, a1, d7, d6)
    ensures var r2 := Push(Push(a3, r), Push(a3, r));
            var r4 := Push(Push(a1, r2), Push(a1, r2));
            var r6 := Push(Push(d7, r4), Push(d7, r4));
            var r8 := Push(Push(d6, r6), Push(d6, r6));
            r8 == Weave(r, s, n)
    ensures s.Shifted(n + 1, Shl(a3, 1), Shl(a1, 1), Shl(d7, 1), Shl(d6, 1))
  {
    Woven(r, a3, a1, d7, d6);
    Shifted(s.a3, n, 1); Shifted(s.a1, n, 1); Shifted(s.d7, n, 1); Shifted(s.d6, n, 1);
  }

  /** resultHi and resultLo after i turns of the inner loop. */
  function Pass(hi: Word, lo: Word, s: Sources, base: nat, i: nat): (Word, Word)
    requires base + i <= 32
  {
    if i == 0 then (hi, lo)
    else
      var p := Pass(hi, lo, s, base, i - 1);
      (Weave(p.1, s, base + i - 1), p.0)
  }

  function RotateRight(w: Word): Word {
    w[31..] + w[..31]
  }

  function Once(s: Sources): (Word, Word) {
    Pass(Zeros(32), Zeros(32), s, 0, 8)
  }

  function Twice(s: Sources): (Word, Word) {
    Pass(RotateRight(Once(s).0), RotateRight(Once(s).1), s, 8, 8)
  }

  /** A word after four weaves: all its even bits replaced. */
  function Braid(w: Word, s: Sources, t: nat): Word
    requires t + 6 < 32
  {
    Row(w, s, t, 0) + Row(w, s, t + 2, 1) + Row(w, s, t + 4, 2) + Row(w, s, t + 6, 3)
  }

  lemma FourWeaves(w: Word, s: Sources, t: nat)
    requires t + 6 < 32
    ensures Weave(Weave(Weave(Weave(w, s, t), s, t + 2), s, t + 4), s, t + 6) == Braid(w, s, t)
  {
    var w1 := w[8..] + Row(w, s, t, 0);
    var w2 := w[16..] + Row(w, s, t, 0) + Row(w, s, t + 2, 1);
    var w3 := w[24..] + Row(w, s, t, 0) + Row(w, s, t + 2, 1) + Row(w, s, t + 4, 2);
    assert w2 == Weave(w1, s, t + 2);
    assert w3 == Weave(w2, s, t + 4);
  }

  lemma PassTwo(hi: Word, lo: Word, s: Sources, base: nat, i: nat)
    requires base + i + 2 <= 32
    ensures var p := Pass(hi, lo, s, base, i);
            Pass(hi, lo, s, base, i + 2) == (Weave(p.0, s, base + i + 1), Weave(p.1, s, base + i))
  {
    assert Pass(hi, lo, s, base, i + 1) == (Weave(Pass(hi, lo, s, base, i).1, s, base + i), Pass(hi, lo, s, base, i).0);
  }

  lemma PassIs(hi: Word, lo: Word, s: Sources, base: nat)
    requires base <= 8
    ensures Pass(hi, lo, s, base, 8) == (Braid(hi, s, base + 1), Braid(lo, s, base))
  {
    FourWeaves(hi, s, base + 1);
    FourWeaves(lo, s, base);
    PassTwo(hi, lo, s, base, 0);
    PassTwo(hi, lo, s, base, 2);
    PassTwo(hi, lo, s, base, 4);
    PassTwo(hi, lo, s, base, 6);
  }

  lemma Rotated(w: Word)
    ensures Or(Shr(w, 1), Shl(w, 31)) == RotateRight(w)
    ensures RotateRight(Zeros(32)) == Zeros(32)
  {
    Joined(w, w, 31);
  }

  /** Row m of either half in the end: the bits of the second pass at even places, those of the first
      pass, which the rotation has moved, at odd ones. */
  function LastRow(s: Sources, t: nat): Bits
    requires t + 8 < 32
  {
    [s.a3[t + 8], s.a3[t], s.a1[t + 8], s.a1[t], s.d7[t + 8], s.d7[t], s.d6[t + 8], s.d6[t]]
  }

  function LastRows(s: Sources, t: nat): Word
    requires t <= 1
  {
    LastRow(s, t) + LastRow(s, t + 2) + LastRow(s, t + 4) + LastRow(s, t + 6)
  }

  lemma BraidTwice(s: Sources, t: nat)
    requires t <= 1
    ensures Braid(RotateRight(Braid(Zeros(32), s, t)), s, t + 8) == LastRows(s, t)
  {
    var w := RotateRight(Braid(Zeros(32), s, t));
    assert Row(w, s, t + 8, 0) == LastRow(s, t);
    assert Row(w, s, t + 10, 1) == LastRow(s, t + 2);
    assert Row(w, s, t + 12, 2) == LastRow(s, t + 4);
    assert Row(w, s, t + 14, 3) == LastRow(s, t + 6);
  }

  /** A row of IP: every eighth bit, from the n-th down. */
  function Eights(n: nat): seq<nat>
    requires 57 <= n <= 64
  {
    [n, n - 8, n - 16, n - 24, n - 32, n - 40, n - 48, n - 56]
  }

  lemma IPIsEights()
    ensures IP == (Eights(58) + Eights(60) + Eights(62) + Eights(64)) + (Eights(57) + Eights(59) + Eights(61) + Eights(63))
  {
  }

  lemma LastRowIsEights(hi: Word, lo: Word, t: nat)
    requires t < 8
    ensures LastRow(Sources(Shl(lo, 16), lo, Shl(hi, 16), hi), t) == Select(hi + lo, Eights(57 + t))
  {
    var b := hi + lo;
    assert Select(b, Eights(57 + t)) == [b[56 + t], b[48 + t], b[40 + t], b[32 + t], b[24 + t], b[16 + t], b[8 + t], b[t]];
  }

  lemma SelectFour(b: Bits, p: seq<nat>, q: seq<nat>, r: seq<nat>, s: seq<nat>, w: Bits, x: Bits, y: Bits, z: Bits)
    requires w == Select(b, p) && x == Select(b, q) && y == Select(b, r) && z == Select(b, s)
    ensures w + x + y + z == Select(b, p + q + r + s)
  {
    SelectSplits(b, p + q + r, s);
    SelectSplits(b, p + q, r);
    SelectSplits(b, p, q);
  }

  lemma TwiceIs(s: Sources)
    ensures Twice(s) == (LastRows(s, 1), LastRows(s, 0))
  {
    PassIs(Zeros(32), Zeros(32), s, 0);
    PassIs(RotateRight(Once(s).0), RotateRight(Once(s).1), s, 8);
    BraidTwice(s, 0);
    BraidTwice(s, 1);
  }

  lemma TwiceIsIP(hi: Word, lo: Word)
    ensures var s := Sources(Shl(lo, 16), lo, Shl(hi, 16), hi);
            Twice(s).0 + Twice(s).1 == Select(hi + lo, IP)
  {
    var s := Sources(Shl(lo, 16), lo, Shl(hi, 16), hi);
    TwiceIs(s);
    LastRowsAreIP(hi, lo);
  }

  lemma OddRowsAreEights(hi: Word, lo: Word)
    ensures LastRows(Sources(Shl(lo, 16), lo, Shl(hi, 16), hi), 1)
         == Select(hi + lo, Eights(58) + Eights(60) + Eights(62) + Eights(64))
  {
    var s := Sources(Shl(lo, 16), lo, Shl(hi, 16), hi);
    LastRowIsEights(hi, lo, 1); LastRowIsEights(hi, lo, 3); LastRowIsEights(hi, lo, 5); LastRowIsEights(hi, lo, 7);
    SelectFour(hi + lo, Eights(58), Eights(60), Eights(62), Eights(64), LastRow(s, 1), LastRow(s, 3), LastRow(s, 5), LastRow(s, 7));
  }

  lemma EvenRowsAreEights(hi: Word, lo: Word)
    ensures LastRows(Sources(Shl(lo, 16), lo, Shl(hi, 16), hi), 0)
         == Select(hi + lo, Eights(57) + Eights(59) + Eights(61) + Eights(63))
  {
    var s := Sources(Shl(lo, 16), lo, Shl(hi, 16), hi);
    LastRowIsEights(hi, lo, 0); LastRowIsEights(hi, lo, 2); LastRowIsEights(hi, lo, 4); LastRowIsEights(hi, lo, 6);
    SelectFour(hi + lo, Eights(57), Eights(59), Eights(61), Eights(63), LastRow(s, 0), LastRow(s, 2), LastRow(s, 4), LastRow(s, 6));
  }

  lemma LastRowsAreIP(hi: Word, lo: Word)
    ensures var s := Sources(Shl(lo, 16), lo, Shl(hi, 16), hi);
            LastRows(s, 1) + LastRows(s, 0) == Select(hi + lo, IP)
  {
    OddRowsAreEights(hi, lo);
    EvenRowsAreEights(hi, lo);
    IPIsEights();
    SelectSplits(hi + lo, Eights(58) + Eights(60) + Eights(62) + Eights(64), Eights(57) + Eights(59) + Eights(61) + Eights(63));
  }
}
