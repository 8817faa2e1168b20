/** The Data Encryption Standard as FIPS PUB 46-3 states it: blocks and keys are 64 bits, numbered
    from 1 on the left. */
module FIPS46 {
  import opened Bits

  type Block = b: Bits | |b| == 64 witness Zeros(64)

  /** Bit n of b, counting from 1. */
  predicate Bit(b: Bits, n: nat) {
    1 <= n <= |b| && b[n - 1]
  }

  /** The bits of b that a table names, in the table's order. */
  function Select(b: Bits, table: seq<nat>): Bits {
    seq(|table|, i requires 0 <= i < |table| => Bit(b, table[i]))
  }

  lemma SelectSplits(b: Bits, left: seq<nat>, right: seq<nat>)
    ensures Select(b, left + right) == Select(b, left) + Select(b, right)
  {
  }

  // ---------- tables: IP and its inverse, PC-1 and PC-2, E, P ----------

  const IP: seq<nat> :=
    [58, 50, 42, 34, 26, 18, 10, 2] +
    [60, 52, 44, 36, 28, 20, 12, 4] +
    [62, 54, 46, 38, 30, 22, 14, 6] +
    [64, 56, 48, 40, 32, 24, 16, 8] +
    [57, 49, 41, 33, 25, 17, 9, 1] +
    [59, 51, 43, 35, 27, 19, 11, 3] +
    [61, 53, 45, 37, 29, 21, 13, 5] +
    [63, 55, 47, 39, 31, 23, 15, 7]

  const IP_INV_LEFT: seq<nat> :=
    [40, 8, 48, 16, 56, 24, 64, 32] +
    [39, 7, 47, 15, 55, 23, 63, 31] +
    [38, 6, 46, 14, 54, 22, 62, 30] +
    [37, 5, 45, 13, 53, 21, 61, 29]

  const IP_INV_RIGHT: seq<nat> :=
    [36, 4, 44, 12, 52, 20, 60, 28] +
    [35, 3, 43, 11, 51, 19, 59, 27] +
    [34, 2, 42, 10, 50, 18, 58, 26] +
    [33, 1, 41, 9, 49, 17, 57, 25]

  const IP_INV: seq<nat> := IP_INV_LEFT + IP_INV_RIGHT

  const PC1_C: seq<nat> :=
    [57, 49, 41, 33, 25, 17, 9] +
    [1, 58, 50, 42, 34, 26, 18] +
    [10, 2, 59, 51, 43, 35, 27] +
    [19, 11, 3, 60, 52, 44, 36]

  const PC1_D: seq<nat> :=
    [63, 55, 47, 39, 31, 23, 15] +
    [7, 62, 54, 46, 38, 30, 22] +
    [14, 6, 61, 53, 45, 37, 29] +
    [21, 13, 5, 28, 20, 12, 4]

  const PC2_LEFT: seq<nat> :=
    [14, 17, 11, 24, 1, 5, 3, 28] +
    [15, 6, 21, 10, 23, 19, 12, 4]

  const PC2_RIGHT: seq<nat> :=
    [26, 8, 16, 7, 27, 20, 13, 2] +
    [41, 52, 31, 37, 47, 55, 30, 40] +
    [51, 45, 33, 48, 44, 49, 39, 56] +
    [34, 53, 46, 42, 50, 36, 29, 32]

  const PC2: seq<nat> := PC2_LEFT + PC2_RIGHT

  const E: seq<nat> :=
    [32, 1, 2, 3, 4, 5] +
    [4, 5, 6, 7, 8, 9] +
    [8, 9, 10, 11, 12, 13] +
    [12, 13, 14, 15, 16, 17] +
    [16, 17, 18, 19, 20, 21] +
    [20, 21, 22, 23, 24, 25] +
    [24, 25, 26, 27, 28, 29] +
    [28, 29, 30, 31, 32, 1]

  const P: seq<nat> :=
    [16, 7, 20, 21, 29, 12, 28, 17] +
    [1, 15, 23, 26, 5, 18, 31, 10] +
    [2, 8, 24, 14, 32, 27, 3, 9] +
    [19, 13, 30, 6, 22, 11, 4, 25]

  // ---------- the S boxes, each of the four rows of 16 in two halves ----------

  type Nibble = n: nat | n < 16

  type Half = h: seq<Nibble> | |h| == 8 witness seq(8, _ => 0)

  const BOXES: seq<seq<Half>> := [S1(), S2(), S3(), S4(), S5(), S6(), S7(), S8()]

  function S1(): (r: seq<Half>)
    ensures |r| == 8
  {
    [ [14, 4, 13, 1, 2, 15, 11, 8], [3, 10, 6, 12, 5, 9, 0, 7],
      [0, 15, 7, 4, 14, 2, 13, 1], [10, 6, 12, 11, 9, 5, 3, 8],
      [4, 1, 14, 8, 13, 6, 2, 11], [15, 12, 9, 7, 3, 10, 5, 0],
      [15, 12, 8, 2, 4, 9, 1, 7], [5, 11, 3, 14, 10, 0, 6, 13] ]
  }

  function S2(): (r: seq<Half>)
    ensures |r| == 8
  {
    [ [15, 1, 8, 14, 6, 11, 3, 4], [9, 7, 2, 13, 12, 0, 5, 10],
      [3, 13, 4, 7, 15, 2, 8, 14], [12, 0, 1, 10, 6, 9, 11, 5],
      [0, 14, 7, 11, 10, 4, 13, 1], [5, 8, 12, 6, 9, 3, 2, 15],
      [13, 8, 10, 1, 3, 15, 4, 2], [11, 6, 7, 12, 0, 5, 14, 9] ]
  }

  function S3(): (r: seq<Half>)
    ensures |r| == 8
  {
    [ [10, 0, 9, 14, 6, 3, 15, 5], [1, 13, 12, 7, 11, 4, 2, 8],
      [13, 7, 0, 9, 3, 4, 6, 10], [2, 8, 5, 14, 12, 11, 15, 1],
      [13, 6, 4, 9, 8, 15, 3, 0], [11, 1, 2, 12, 5, 10, 14, 7],
      [1, 10, 13, 0, 6, 9, 8, 7], [4, 15, 14, 3, 11, 5, 2, 12] ]
  }

  function S4(): (r: seq<Half>)
    ensures |r| == 8
  {
    [ [7, 13, 14, 3, 0, 6, 9, 10], [1, 2, 8, 5, 11, 12, 4, 15],
      [13, 8, 11, 5, 6, 15, 0, 3], [4, 7, 2, 12, 1, 10, 14, 9],
      [10, 6, 9, 0, 12, 11, 7, 13], [15, 1, 3, 14, 5, 2, 8, 4],
      [3, 15, 0, 6, 10, 1, 13, 8], [9, 4, 5, 11, 12, 7, 2, 14] ]
  }

  function S5(): (r: seq<Half>)
    ensures |r| == 8
  {
    [ [2, 12, 4, 1, 7, 10, 11, 6], [8, 5, 3, 15, 13, 0, 14, 9],
      [14, 11, 2, 12, 4, 7, 13, 1], [5, 0, 15, 10, 3, 9, 8, 6],
      [4, 2, 1, 11, 10, 13, 7, 8], [15, 9, 12, 5, 6, 3, 0, 14],
      [11, 8, 12, 7, 1, 14, 2, 13], [6, 15, 0, 9, 10, 4, 5, 3] ]
  }

  function S6(): (r: seq<Half>)
    ensures |r| == 8
  {
    [ [12, 1, 10, 15, 9, 2, 6, 8], [0, 13, 3, 4, 14, 7, 5, 11],
      [10, 15, 4, 2, 7, 12, 9, 5], [6, 1, 13, 14, 0, 11, 3, 8],
      [9, 14, 15, 5, 2, 8, 12, 3], [7, 0, 4, 10, 1, 13, 11, 6],
      [4, 3, 2, 12, 9, 5, 15, 10], [11, 14, 1, 7, 6, 0, 8, 13] ]
  }

  function S7(): (r: seq<Half>)
    ensures |r| == 8
  {
    [ [4, 11, 2, 14, 15, 0, 8, 13], [3, 12, 9, 7, 5, 10, 6, 1],
      [13, 0, 11, 7, 4, 9, 1, 10], [14, 3, 5, 12, 2, 15, 8, 6],
      [1, 4, 11, 13, 12, 3, 7, 14], [10, 15, 6, 8, 0, 5, 9, 2],
      [6, 11, 13, 8, 1, 4, 10, 7], [9, 5, 0, 15, 14, 2, 3, 12] ]
  }

  function S8(): (r: seq<Half>)
    ensures |r| == 8
  {
    [ [13, 2, 8, 4, 6, 15, 11, 1], [10, 9, 3, 14, 5, 0, 12, 7],
      [1, 15, 13, 8, 10, 3, 7, 4], [12, 5, 6, 11, 0, 14, 9, 2],
      [7, 11, 4, 1, 9, 12, 14, 2], [0, 6, 10, 13, 15, 3, 5, 8],
      [2, 1, 14, 7, 4, 10, 8, 13], [15, 12, 9, 0, 3, 5, 6, 11] ]
  }

  function One(b: bool): nat { if b then 1 else 0 }

  /** An entry of a box: the outer bits choose the row, the inner four the column. */
  function Substitute(box: seq<Half>, b: Bits): Nibble
    requires |box| == 8 && |b| == 6
  {
    box[4 * One(b[0]) + 2 * One(b[5]) + One(b[1])][4 * One(b[2]) + 2 * One(b[3]) + One(b[4])]
  }

  ghost predicate AreBoxes(boxes: seq<seq<Half>>) {
    |boxes| == 8 && forall g :: 0 <= g < 8 ==> |boxes[g]| == 8
  }

  function NibbleBits(n: Nibble): Bits {
    [n >= 8, n % 8 >= 4, n % 4 >= 2, n % 2 == 1]
  }

  /** The outputs of the boxes from S_g to S_8, side by side. */
  function SubstituteFrom(boxes: seq<seq<Half>>, g: nat, b: Bits): (r: Bits)
    requires AreBoxes(boxes) && 1 <= g <= 9 && |b| == 48
    ensures |r| == 36 - 4 * g
    decreases 9 - g
  {
    if g == 9 then []
    else NibbleBits(Substitute(boxes[g - 1], b[6 * g - 6..6 * g])) + SubstituteFrom(boxes, g + 1, b)
  }

  type Key = k: Bits | |k| == 48 witness Zeros(48)

  // ---------- the cipher function, the key schedule, enciphering ----------

  /** f(R, K) */
  function F(r: Word, k: Key): Word {
    Select(SubstituteFrom(BOXES, 1, Xor(Select(r, E), k)), P)
  }

  function RotateLeft(b: Bits, n: nat): Bits
    requires n <= |b|
  {
    b[n..] + b[..n]
  }

  /** The left shifts of iteration n. */
  function LeftShifts(n: nat): nat {
    if n == 1 || n == 2 || n == 9 || n == 16 then 1 else 2
  }

  /** C_n from C_0, and D_n from D_0 */
  function Turn(half: Bits, n: nat): (r: Bits)
    requires |half| == 28
    ensures |r| == 28
  {
    if n == 0 then half else RotateLeft(Turn(half, n - 1), LeftShifts(n))
  }

  /** K_n = KS(n, KEY) */
  function KS(n: nat, key: Block): (k: Key) {
    Select(Turn(Select(key, PC1_C), n) + Turn(Select(key, PC1_D), n), PC2)
  }

  datatype Halves = Halves(l: Word, r: Word)

  /** A cipher function f */
  type Mix = (Word, Key) -> Word

  /** L_n and R_n */
  function Iterated(f: Mix, keys: seq<Key>, n: nat, start: Halves): Halves
    requires n <= |keys|
  {
    if n == 0 then start
    else
      var h := Iterated(f, keys, n - 1, start);
      Halves(h.r, Xor(h.l, f(h.r, keys[n - 1])))
  }

  /** Enciphering, for any cipher function; the standard's is F. */
  function EncipherBy(f: Mix, keys: seq<Key>, input: Block): (output: Block) {
    var x := Select(input, IP);
    var h := Iterated(f, keys, |keys|, Halves(x[..32], x[32..]));
    Select(h.r + h.l, IP_INV)
  }

  function Reversed<T>(s: seq<T>): (r: seq<T>)
    ensures |r| == |s|
  {
    seq(|s|, i requires 0 <= i < |s| => s[|s| - 1 - i])
  }

  // ---------- IP and its inverse ----------

  /** Entry i of IP and of its inverse, by row and column. */
  function IPEntry(i: nat): int {
    (if i < 32 then 58 + 2 * (i / 8) else 49 + 2 * (i / 8)) - 8 * (i % 8)
  }

  function InverseEntry(i: nat): int {
    (if i % 2 == 0 then 40 else 0) + 4 * (i % 8) + (if i % 2 == 0 then 0 else 4) - i / 8
  }

  ghost predicate IsIP(table: seq<nat>) {
    |table| == 64 && forall i :: 0 <= i < 64 ==> table[i] == IPEntry(i)
  }

  ghost predicate IsInverse(table: seq<nat>) {
    |table| == 64 && forall i :: 0 <= i < 64 ==> table[i] == InverseEntry(i)
  }

  lemma IPAt(i: nat, r: nat, c: nat)
    requires r < 8 && c < 8 && i == 8 * r + c
    ensures IP[i] == IPEntry(i)
  {
    assert r == 0 || r == 1 || r == 2 || r == 3 || r == 4 || r == 5 || r == 6 || r == 7;
    assert c == 0 || c == 1 || c == 2 || c == 3 || c == 4 || c == 5 || c == 6 || c == 7;
  }

  lemma InverseAt(i: nat, r: nat, c: nat)
    requires r < 8 && c < 8 && i == 8 * r + c
    ensures IP_INV[i] == InverseEntry(i)
  {
    assert r == 0 || r == 1 || r == 2 || r == 3 || r == 4 || r == 5 || r == 6 || r == 7;
    assert c == 0 || c == 1 || c == 2 || c == 3 || c == 4 || c == 5 || c == 6 || c == 7;
  }

  lemma IPIs()
    ensures IsIP(IP)
  {
    forall i | 0 <= i < 64 ensures IP[i] == IPEntry(i) { IPAt(i, i / 8, i % 8); }
  }

  lemma InverseIs()
    ensures IsInverse(IP_INV)
  {
    forall i | 0 <= i < 64 ensures IP_INV[i] == InverseEntry(i) { InverseAt(i, i / 8, i % 8); }
  }

  lemma RowAndColumn(i: int, r: int, c: int)
    requires 0 <= c < 8 && i == 8 * r + c
    ensures i / 8 == r && i % 8 == c
  {
  }

  lemma InverseOfIP(i: nat)
    requires i < 64
    ensures 1 <= IPEntry(i) <= 64 && InverseEntry(IPEntry(i) - 1) == i + 1
  {
    var r, c := i / 8, i % 8;
    RowAndColumn(IPEntry(i) - 1, 7 - c, if r < 4 then 2 * r + 1 else 2 * r - 8);
  }

  lemma IPOfInverse(i: nat)
    requires i < 64
    ensures 1 <= InverseEntry(i) <= 64 && IPEntry(InverseEntry(i) - 1) == i + 1
  {
    var r, c := i / 8, i % 8;
    RowAndColumn(InverseEntry(i) - 1, if c % 2 == 0 then 4 + c / 2 else c / 2, 7 - r);
  }

  lemma TablesInvert(ip: seq<nat>, inverse: seq<nat>, i: nat)
    requires IsIP(ip) && IsInverse(inverse) && i < 64
    ensures 1 <= ip[i] <= 64 && inverse[ip[i] - 1] == i + 1
    ensures 1 <= inverse[i] <= 64 && ip[inverse[i] - 1] == i + 1
  {
    InverseOfIP(i);
    IPOfInverse(i);
  }

  lemma PermutationInverts(b: Block)
    ensures Select(Select(b, IP), IP_INV) == b
    ensures Select(Select(b, IP_INV), IP) == b
  {
    IPIs();
    InverseIs();
    InvertingTables(b, IP, IP_INV);
  }

  lemma InvertingTables(b: Block, ip: seq<nat>, inverse: seq<nat>)
    requires IsIP(ip) && IsInverse(inverse)
    ensures Select(Select(b, ip), inverse) == b
    ensures Select(Select(b, inverse), ip) == b
  {
    forall i | 0 <= i < 64
      ensures Select(Select(b, ip), inverse)[i] == b[i]
      ensures Select(Select(b, inverse), ip)[i] == b[i]
    {
      TablesInvert(ip, inverse, i);
    }
  }

  // ---------- deciphering ----------

  /** Whatever the cipher function, the iterations undo themselves when the halves are exchanged and
      the keys come in reverse order. */
  lemma {:induction false} IterationsUndone(f: Mix, keys: seq<Key>, n: nat, start: Halves)
    requires n <= |keys|
    ensures var last := Iterated(f, keys, |keys|, start);
            var here := Iterated(f, keys, |keys| - n, start);
            Iterated(f, Reversed(keys), n, Halves(last.r, last.l)) == Halves(here.r, here.l)
  {
    if n > 0 {
      IterationsUndone(f, keys, n - 1, start);
      var m := |keys| - n;
      var before := Iterated(f, keys, m, start);
      XorTwice(before.l, f(before.r, keys[m]));
      assert Reversed(keys)[n - 1] == keys[m];
    }
  }

  /** Enciphering with the keys in reverse order deciphers. */
  lemma Deciphers(f: Mix, keys: seq<Key>, input: Block)
    ensures EncipherBy(f, Reversed(keys), EncipherBy(f, keys, input)) == input
  {
    var x := Select(input, IP);
    var start := Halves(x[..32], x[32..]);
    var last := Iterated(f, keys, |keys|, start);
    PermutationInverts(last.r + last.l);
    IterationsUndone(f, keys, |keys|, start);
    assert x[..32] + x[32..] == x;
    PermutationInverts(input);
  }

  // ---------- the other tables ----------

  /** Permuted choice 1 goes up the columns of the key, left and right, and leaves out the last one. */
  function LeftEntry(i: nat): int { 57 - 8 * (i % 8) + i / 8 }

  function RightEntry(i: nat): int { if i < 24 then 63 - 8 * (i % 8) - i / 8 else 28 - 8 * (i % 8) }

  lemma LeftAt(i: nat, r: nat, c: nat)
    requires r < 4 && c < 8 && i == 8 * r + c < 28
    ensures PC1_C[i] == LeftEntry(i)
  {
    assert r == 0 || r == 1 || r == 2 || r == 3;
    assert c == 0 || c == 1 || c == 2 || c == 3 || c == 4 || c == 5 || c == 6 || c == 7;
  }

  lemma RightAt(i: nat, r: nat, c: nat)
    requires r < 4 && c < 8 && i == 8 * r + c < 28
    ensures PC1_D[i] == RightEntry(i)
  {
    assert r == 0 || r == 1 || r == 2 || r == 3;
    assert c == 0 || c == 1 || c == 2 || c == 3 || c == 4 || c == 5 || c == 6 || c == 7;
  }

  lemma PC1Is()
    ensures forall i :: 0 <= i < 28 ==> PC1_C[i] == LeftEntry(i) && PC1_D[i] == RightEntry(i)
  {
    forall i | 0 <= i < 28 ensures PC1_C[i] == LeftEntry(i) && PC1_D[i] == RightEntry(i) {
      LeftAt(i, i / 8, i % 8);
      RightAt(i, i / 8, i % 8);
    }
  }

  /** A row of a box, given as its two halves, holds every number below 16. */
  ghost predicate HoldsAll(a: Half, b: Half) {
    forall n: Nibble :: n in a || n in b
  }

  ghost predicate RowsHoldAll(s: seq<Half>)
    requires |s| == 8
  {
    HoldsAll(s[0], s[1]) && HoldsAll(s[2], s[3]) && HoldsAll(s[4], s[5]) && HoldsAll(s[6], s[7])
  }

  lemma RowsOfS1()
    ensures RowsHoldAll(S1())
  {
  }

  lemma RowsOfS2()
    ensures RowsHoldAll(S2())
  {
  }

  lemma RowsOfS3()
    ensures RowsHoldAll(S3())
  {
  }

  lemma RowsOfS4()
    ensures RowsHoldAll(S4())
  {
  }

  lemma RowsOfS5()
    ensures RowsHoldAll(S5())
  {
  }

  lemma RowsOfS6()
    ensures RowsHoldAll(S6())
  {
  }

  lemma RowsOfS7()
    ensures RowsHoldAll(S7())
  {
  }

  lemma RowsOfS8()
    ensures RowsHoldAll(S8())
  {
  }

  /** And P moves every bit. */
  lemma PMovesAll(bit: nat)
    requires 1 <= bit <= 32
    ensures bit in P
  {
  }
}
