/** The cipher function, the key schedule, and encoding and decoding in place. */
module DES {
  import opened Bits
  import opened FIPS46
  import opened DESPermutations

  /** The bits of a pair of words. */
  function Joint(n: Nonce): Block {
    n.hi + n.lo
  }

  /** The 48 bits of a scheduled key: 16 in one word, 32 in the other. */
  function KeyBits(n: Nonce): Key {
    n.hi[16..] + n.lo
  }

  // ---------- the cipher function ----------

  /** w & 0x3F, as an index */
  function LowSix(w: Word): (six: nat)
    ensures six < 64
  {
    32 * One(w[26]) + 16 * One(w[27]) + 8 * One(w[28]) + 4 * One(w[29]) + 2 * One(w[30]) + One(w[31])
  }

  /** The loop of DESfrk: eight lookups, each in a word that has turned to bring the next six bits of
      R and of the key to its end. */
  method Looked(boxes: seq<seq<Nibble>>, khi: Word, klo: Word, r: Word, ghost standard: seq<seq<Half>>, ghost x: Key)
    returns (L: Word)
    requires AreBoxes(standard) && |boxes| == 8
    requires forall i :: 0 <= i < 8 ==> IsWoven(boxes[i], standard[7 - i])
    requires Grouped(x, r, khi + klo)
    ensures L == SubstituteFrom(standard, 1, x)
  {
    var Khi: Word, Klo: Word, R: Word := khi, klo, r;
    L := Zeros(32);
    ghost var k := khi + klo;
    Joined(R, R, 1);
    R := Plus(Shr(R, 31), Shl(R, 1));
    for i := 0 to 8
      invariant R == Turned(r, i)
      invariant KeyTurned(k, i, Khi, Klo)
      invariant L == Gathered(standard, x, i)
    {
      NextNibble(boxes[i], standard, x, r, k, i, Khi, Klo, L);
      L := Or(L, Pad(NibbleBits(boxes[i][LowSix(Xor(R, Klo))])));
      L := Or(Shl(L, 28), Shr(L, 4));
      TurnedStep(r, i);
      R := Or(Shl(R, 28), Shr(R, 4));
      KeyStep(k, i, Khi, Klo);
      Klo := Plus(Shl(Khi, 26), Shr(Klo, 6));
      Khi := Shr(Khi, 6);
    }
  }

  method DESfrk(khi: Word, klo: Word, r: Word, junk: Word) returns (result: Word)
    ensures result == F(r, khi[16..] + klo)
  {
    BoxesAreWoven();
    EOverlaps();
    GroupedBy(E, r, khi + klo);
    assert (khi + klo)[16..] == khi[16..] + klo;
    var L := Looked(DES_S_BOXES, khi, klo, r, BOXES, Xor(Select(r, E), khi[16..] + klo));
    var permutedR := DESPermute(P_TABLE, Zeros(32), L, junk, [P_LO]);
    PIsP(L);
    result := permutedR.lo;
  }

  /** R rotated left by one bit and then right by 4 * i. */
  function Turned(r: Word, i: nat): Word
    requires i <= 8
  {
    var once := r[1..] + r[..1];
    once[32 - 4 * i..] + once[..32 - 4 * i]
  }

  lemma TurnedStep(r: Word, i: nat)
    requires i < 8
    ensures Or(Shl(Turned(r, i), 28), Shr(Turned(r, i), 4)) == Turned(r, i + 1)
  {
    Joined(Turned(r, i), Turned(r, i), 28);
  }

  /** The words of the key k, moved right by 6 * i. */
  ghost predicate KeyTurned(k: Block, i: nat, hi: Word, lo: Word) {
    i <= 8 && hi + lo == Zeros(6 * i) + k[..64 - 6 * i]
  }

  lemma KeyStep(k: Block, i: nat, hi: Word, lo: Word)
    requires i < 8 && KeyTurned(k, i, hi, lo)
    ensures KeyTurned(k, i + 1, Shr(hi, 6), Plus(Shl(hi, 26), Shr(lo, 6)))
  {
    Joined(hi, lo, 26);
    var was := Zeros(6 * i) + k[..64 - 6 * i];
    assert Shr(hi, 6) + (hi[26..] + lo[..26]) == Zeros(6) + (hi + lo)[..58] == Zeros(6) + was[..58];
    assert was[..58] == Zeros(6 * i) + k[..64 - 6 * (i + 1)];
    assert Zeros(6) + Zeros(6 * i) == Zeros(6 * (i + 1));
  }

  lemma NibbleIn(l: Word, i: nat, done: Bits, nibble: Bits)
    requires i < 8 && |done| == 4 * i && |nibble| == 4 && l == done + Zeros(32 - 4 * i)
    ensures var m := Or(l, Pad(nibble)); Or(Shl(m, 28), Shr(m, 4)) == nibble + done + Zeros(28 - 4 * i)
  {
    var m := Or(l, Pad(nibble));
    assert m == done + Zeros(28 - 4 * i) + nibble;
    Joined(m, m, 28);
  }

  /** Groups of six overlap by two, and the outermost wrap around. */
  ghost predicate Overlaps(e: seq<nat>) {
    |e| == 48 && forall g, k :: 0 <= g < 8 && 0 <= k < 6 ==> OverlapsAt(e, g, k)
  }

  ghost predicate OverlapsAt(e: seq<nat>, g: int, k: int)
    requires |e| == 48 && 0 <= g < 8 && 0 <= k < 6
  {
    e[6 * g + k] == if g == 0 && k == 0 then 32 else if g == 7 && k == 5 then 1 else 4 * g + k
  }

  lemma EOverlaps()
    ensures Overlaps(E)
  {
    forall g, k | 0 <= g < 8 && 0 <= k < 6 ensures OverlapsAt(E, g, k) {
      assert g == 0 || g == 1 || g == 2 || g == 3 || g == 4 || g == 5 || g == 6 || g == 7;
      assert k == 0 || k == 1 || k == 2 || k == 3 || k == 4 || k == 5;
    }
  }

  /** The low six bits of R in turn i, as bits of r, which wraps around. */
  lemma TurnedBit(r: Word, i: nat, k: nat)
    requires i < 8 && k < 6
    ensures Turned(r, i)[26 + k] == var m := 27 - 4 * i + k; r[if m < 0 then m + 32 else if m >= 32 then m - 32 else m]
  {
    var once := r[1..] + r[..1];
    var m := 26 - 4 * i + k;
    assert Turned(r, i)[26 + k] == once[if m < 0 then m + 32 else m];
  }

  /** They are the group that e selects last but i. */
  lemma GroupBit(e: seq<nat>, r: Word, i: nat, k: nat)
    requires Overlaps(e) && i < 8 && k < 6
    ensures Turned(r, i)[26 + k] == Select(r, e)[42 - 6 * i + k]
  {
    TurnedBit(r, i, k);
    assert OverlapsAt(e, 7 - i, k);
  }

  /** Turn after turn, the low six bits of the key and of R make the next group of x. */
  ghost predicate Grouped(x: Key, r: Word, k: Block) {
    forall i :: 0 <= i < 8 ==> x[42 - 6 * i..48 - 6 * i] == Xor(Turned(r, i)[26..], k[58 - 6 * i..64 - 6 * i])
  }

  lemma Group(e: seq<nat>, r: Word, k: Block, i: nat)
    requires Overlaps(e) && i < 8
    ensures Xor(Select(r, e), k[16..])[42 - 6 * i..48 - 6 * i] == Xor(Turned(r, i)[26..], k[58 - 6 * i..64 - 6 * i])
  {
    var group := Xor(Select(r, e), k[16..])[42 - 6 * i..48 - 6 * i];
    var low := Xor(Turned(r, i)[26..], k[58 - 6 * i..64 - 6 * i]);
    forall j | 0 <= j < 6 ensures group[j] == low[j] {
      GroupBit(e, r, i, j);
    }
  }

  lemma GroupedBy(e: seq<nat>, r: Word, k: Block)
    requires Overlaps(e)
    ensures Grouped(Xor(Select(r, e), k[16..]), r, k)
  {
    forall i | 0 <= i < 8
      ensures Xor(Select(r, e), k[16..])[42 - 6 * i..48 - 6 * i] == Xor(Turned(r, i)[26..], k[58 - 6 * i..64 - 6 * i])
    {
      Group(e, r, k, i);
    }
  }

  /** L after i turns. */
  ghost function Gathered(standard: seq<seq<Half>>, x: Key, i: nat): Word
    requires AreBoxes(standard) && i <= 8
  {
    SubstituteFrom(standard, 9 - i, x) + Zeros(32 - 4 * i)
  }

  lemma GatheredStep(standard: seq<seq<Half>>, x: Key, i: nat, nibble: Bits)
    requires AreBoxes(standard) && i < 8
    requires nibble == NibbleBits(Substitute(standard[7 - i], x[42 - 6 * i..48 - 6 * i]))
    ensures Gathered(standard, x, i + 1) == nibble + SubstituteFrom(standard, 9 - i, x) + Zeros(28 - 4 * i)
  {
    var g := 8 - i;
    assert x[6 * g - 6..6 * g] == x[42 - 6 * i..48 - 6 * i];
  }

  lemma NextNibble(box: seq<Nibble>, standard: seq<seq<Half>>, x: Key, r: Word, k: Block, i: nat,
                   khi: Word, klo: Word, l: Word)
    requires AreBoxes(standard) && i < 8 && IsWoven(box, standard[7 - i])
    requires Grouped(x, r, k) && KeyTurned(k, i, khi, klo)
    requires l == Gathered(standard, x, i)
    ensures var m := Or(l, Pad(NibbleBits(box[LowSix(Xor(Turned(r, i), klo))])));
            Or(Shl(m, 28), Shr(m, 4)) == Gathered(standard, x, i + 1)
  {
    var w := Xor(Turned(r, i), klo);
    assert klo[26..] == (khi + klo)[58..] == k[58 - 6 * i..64 - 6 * i];
    assert w[26..] == Xor(Turned(r, i)[26..], klo[26..]);
    WovenAt(box, standard[7 - i], w);
    var nibble := NibbleBits(Substitute(standard[7 - i], w[26..]));
    GatheredStep(standard, x, i, nibble);
    NibbleIn(l, i, SubstituteFrom(standard, 9 - i, x), nibble);
  }

  /** A row of 16 of the code's box: two half rows, entry by entry. */
  function Interleave(a: Half, b: Half): (r: seq<Nibble>) {
    [a[0], b[0], a[1], b[1], a[2], b[2], a[3], b[3], a[4], b[4], a[5], b[5], a[6], b[6], a[7], b[7]]
  }

  lemma InterleavedAt(a: Half, b: Half, col: nat, other: bool)
    requires col < 8
    ensures Interleave(a, b)[2 * col + One(other)] == (if other then b else a)[col]
  {
  }

  /** The code's box holds a box of the standard, arranged to be indexed by all six bits at once. */
  ghost predicate IsWoven(box: seq<Nibble>, s: seq<Half>) {
    && |s| == 8
    && |box| == 64
    && box == Interleave(s[0], s[2]) + Interleave(s[1], s[3]) + Interleave(s[4], s[6]) + Interleave(s[5], s[7])
  }

  lemma InRow(r0: seq<Nibble>, r1: seq<Nibble>, r2: seq<Nibble>, r3: seq<Nibble>, row: nat, at: nat)
    requires |r0| == |r1| == |r2| == |r3| == 16 && row < 4 && at < 16
    ensures (r0 + r1 + r2 + r3)[16 * row + at] == (if row == 0 then r0 else if row == 1 then r1 else if row == 2 then r2 else r3)[at]
  {
  }

  lemma RowWoven(box: seq<Nibble>, s: seq<Half>, first: bool, second: bool, at: nat)
    requires IsWoven(box, s) && at < 16
    ensures var half := 4 * One(first) + One(second);
            box[32 * One(first) + 16 * One(second) + at] == Interleave(s[half], s[half + 2])[at]
  {
    var row := 2 * One(first) + One(second);
    InRow(Interleave(s[0], s[2]), Interleave(s[1], s[3]), Interleave(s[4], s[6]), Interleave(s[5], s[7]), row, at);
  }

  lemma WovenAt(box: seq<Nibble>, s: seq<Half>, w: Word)
    requires IsWoven(box, s)
    ensures box[LowSix(w)] == Substitute(s, w[26..])
  {
    var half, col := 4 * One(w[26]) + One(w[27]), 4 * One(w[28]) + 2 * One(w[29]) + One(w[30]);
    RowWoven(box, s, w[26], w[27], 2 * col + One(w[31]));
    InterleavedAt(s[half], s[half + 2], col, w[31]);
  }

  lemma BoxesShaped()
    ensures AreBoxes(BOXES) && |DES_S_BOXES| == 8
  {
  }

  /** The code counts the boxes backwards. */
  lemma BoxesAreWoven()
    ensures AreBoxes(BOXES) && |DES_S_BOXES| == 8
    ensures forall i :: 0 <= i < 8 ==> IsWoven(DES_S_BOXES[i], BOXES[7 - i])
  {
    BoxesShaped();
    forall i | 0 <= i < 8 ensures IsWoven(DES_S_BOXES[i], BOXES[7 - i]) {
      if i < 4 { FirstBoxesAreWoven(i); } else { LastBoxesAreWoven(i); }
    }
  }

  lemma FirstBoxesAreWoven(i: nat)
    requires i < 4
    ensures IsWoven(DES_S_BOXES[i], BOXES[7 - i])
  {
  }

  lemma LastBoxesAreWoven(i: nat)
    requires 4 <= i < 8
    ensures IsWoven(DES_S_BOXES[i], BOXES[7 - i])
  {
  }

  lemma PIsP(l: Word)
    ensures Pad(Chosen(Zeros(32), l, P_LO)) == Select(l, P)
  {
    PTable();
  }

  lemma PTableAt(i: nat, r: nat, c: nat)
    requires r < 4 && c < 8 && i == 8 * r + c
    ensures P_LO[i] == 32 - P[i]
  {
    assert r == 0 || r == 1 || r == 2 || r == 3;
    assert c == 0 || c == 1 || c == 2 || c == 3 || c == 4 || c == 5 || c == 6 || c == 7;
  }

  lemma PTable()
    ensures forall i :: 0 <= i < 32 ==> P_LO[i] == 32 - P[i]
  {
    forall i | 0 <= i < 32 ensures P_LO[i] == 32 - P[i] {
      PTableAt(i, i / 8, i % 8);
    }
  }

  // ---------- the key schedule ----------

  /** The key the schedule is made from: the code drops the top bit of either word. */
  function Dropped(key: Nonce): Block {
    Shl(key.hi, 1) + Shl(key.lo, 1)
  }

  lemma PC1LeftTable()
    ensures forall i :: 0 <= i < 28 ==> PC1_HI[i] == 64 - PC1_C[i]
  {
  }

  lemma PC1RightTable()
    ensures forall i :: 0 <= i < 28 ==> PC1_LO[i] == 64 - PC1_D[i]
  {
  }

  lemma PC1IsPC1(hi: Word, lo: Word)
    ensures Chosen(hi, lo, PC1_HI) == Select(hi + lo, PC1_C)
    ensures Chosen(hi, lo, PC1_LO) == Select(hi + lo, PC1_D)
  {
    PC1LeftTable();
    PC1RightTable();
  }

  lemma PC2Table()
    ensures forall i :: 0 <= i < 16 ==> PC2_HI[i] == (if PC2_LEFT[i] <= 28 then 64 else 60) - PC2_LEFT[i]
    ensures forall i :: 0 <= i < 32 ==> PC2_LO[i] == (if PC2_RIGHT[i] <= 28 then 64 else 60) - PC2_RIGHT[i]
  {
  }

  /** Both parts of a table name the bits that pc2 names, where the code keeps each half at the top of
      a word. */
  ghost predicate Chooses(hiPart: Part, loPart: Part, pc2: seq<nat>) {
    forall c: Bits, d: Bits {:trigger Select(c + d, pc2)} :: |c| == |d| == 28 ==>
      Chosen(c + Zeros(4), d + Zeros(4), hiPart) + Chosen(c + Zeros(4), d + Zeros(4), loPart) == Select(c + d, pc2)
  }

  lemma PC2IsPC2()
    ensures Chooses(PC2_HI, PC2_LO, PC2)
  {
    forall c: Bits, d: Bits | |c| == |d| == 28
      ensures Chosen(c + Zeros(4), d + Zeros(4), PC2_HI) + Chosen(c + Zeros(4), d + Zeros(4), PC2_LO) == Select(c + d, PC2)
    {
      PC2Halves(c, d);
      SelectSplits(c + d, PC2_LEFT, PC2_RIGHT);
    }
  }

  lemma PC2Halves(c: Bits, d: Bits)
    requires |c| == |d| == 28
    ensures Chosen(c + Zeros(4), d + Zeros(4), PC2_HI) == Select(c + d, PC2_LEFT)
    ensures Chosen(c + Zeros(4), d + Zeros(4), PC2_LO) == Select(c + d, PC2_RIGHT)
  {
    PC2Table();
  }

  /** 0xC0810000: a 1 for every iteration that shifts by one place. */
  const SCHEDULE: Word :=
    [true, true, false, false, false, false, false, false] +
    [true, false, false, false, false, false, false, true] + Zeros(16)

  const MASK_10: Word := Zeros(27) + [true] + Zeros(4)
  const MASK_30: Word := Zeros(26) + [true, true] + Zeros(4)

  /** The schedule before iteration n + 1. */
  ghost predicate ScheduleAt(w: Word, n: nat) {
    && n <= 16
    && w == Shl(SCHEDULE, n)
    && (w == Zeros(32) <==> n == 16)
  }

  lemma FirstSchedule()
    ensures ScheduleAt(SCHEDULE, 0)
  {
    assert SCHEDULE[0];
    assert Shl(SCHEDULE, 0) == SCHEDULE;
  }

  lemma NextSchedule(w: Word, n: nat)
    requires ScheduleAt(w, n) && w != Zeros(32)
    ensures w[0] <==> LeftShifts(n + 1) == 1
    ensures ScheduleAt(Shl(w, 1), n + 1)
  {
    Shifted(SCHEDULE, n, 1);
    if n < 15 {
      assert Shl(SCHEDULE, n + 1)[14 - n] == SCHEDULE[15];
    }
  }

  /** Rotating the 28 bits at the top of a word. */
  lemma HalfTurned(half: Bits)
    requires |half| == 28
    ensures var w := half + Zeros(4);
            && Or(Shl(w, 1), And(Shr(w, 27), MASK_10)) == RotateLeft(half, 1) + Zeros(4)
            && Or(Shl(w, 2), And(Shr(w, 26), MASK_30)) == RotateLeft(half, 2) + Zeros(4)
  {
  }

  type Half28 = h: Bits | |h| == 28 witness Zeros(28)

  /** The two words after n iterations: 28 bits and four zeros each. */
  ghost predicate HalvesAt(c: Half28, d: Half28, n: nat, hi: Word, lo: Word) {
    hi == Turn(c, n) + Zeros(4) && lo == Turn(d, n) + Zeros(4)
  }

  /** Either half turned by one place or two, as the first bit of the schedule says. */
  method TurnHalves(rotateSchedule: Word, hi: Word, lo: Word, ghost c: Half28, ghost d: Half28, ghost n: nat)
    returns (permuteKeyHi: Word, permuteKeyLo: Word)
    requires HalvesAt(c, d, n, hi, lo)
    requires rotateSchedule[0] <==> LeftShifts(n + 1) == 1
    ensures HalvesAt(c, d, n + 1, permuteKeyHi, permuteKeyLo)
  {
    HalfTurned(Turn(c, n));
    HalfTurned(Turn(d, n));
    if rotateSchedule[0] {
      permuteKeyHi := Or(Shl(hi, 1), And(Shr(hi, 27), MASK_10));
      permuteKeyLo := Or(Shl(lo, 1), And(Shr(lo, 27), MASK_10));
    } else {
      permuteKeyHi := Or(Shl(hi, 2), And(Shr(hi, 26), MASK_30));
      permuteKeyLo := Or(Shl(lo, 2), And(Shr(lo, 26), MASK_30));
    }
  }

  /** The n-th key of c and d, in its two words. */
  ghost predicate IsScheduled(k: Nonce, c: Half28, d: Half28, pc2: seq<nat>, n: nat) {
    k.hi[16..] + k.lo == Select(Turn(c, n) + Turn(d, n), pc2)
  }

  ghost predicate AreScheduled(keys: seq<Nonce>, c: Half28, d: Half28, pc2: seq<nat>) {
    forall i :: 0 <= i < |keys| ==> IsScheduled(keys[i], c, d, pc2, i + 1)
  }

  lemma OneMore(keys: seq<Nonce>, k: Nonce, c: Half28, d: Half28, pc2: seq<nat>)
    requires AreScheduled(keys, c, d, pc2) && IsScheduled(k, c, d, pc2, |keys| + 1)
    ensures AreScheduled(keys + [k], c, d, pc2)
  {
  }

  /** The body of DESKeySched's loop, for whatever choice the table makes. */
  method NextKey(inPermuteTable: seq<nat>, rotateSchedule: Word, hi: Word, lo: Word, junk: Word, ghost c: Half28,
                 ghost d: Half28, ghost n: nat, ghost hiPart: Part, ghost loPart: Part, ghost pc2: seq<nat>)
    returns (permuteKeyHi: Word, permuteKeyLo: Word, outKey: Nonce)
    requires inPermuteTable == Table([hiPart, loPart]) && |hiPart| == 16 && |loPart| == 32 && Chooses(hiPart, loPart, pc2)
    requires HalvesAt(c, d, n, hi, lo)
    requires rotateSchedule[0] <==> LeftShifts(n + 1) == 1
    ensures HalvesAt(c, d, n + 1, permuteKeyHi, permuteKeyLo)
    ensures IsScheduled(outKey, c, d, pc2, n + 1)
  {
    permuteKeyHi, permuteKeyLo := TurnHalves(rotateSchedule, hi, lo, c, d, n);
    outKey := DESPermute(inPermuteTable, permuteKeyHi, permuteKeyLo, junk, [hiPart, loPart]);
  }

  /** The loop of DESKeySched. */
  method Schedule(inPermuteTable: seq<nat>, keyHi: Word, keyLo: Word, outKeys: array<Nonce>, junk: Word,
                  ghost c: Half28, ghost d: Half28, ghost hiPart: Part, ghost loPart: Part, ghost pc2: seq<nat>)
    requires inPermuteTable == Table([hiPart, loPart]) && |hiPart| == 16 && |loPart| == 32 && Chooses(hiPart, loPart, pc2)
    requires HalvesAt(c, d, 0, keyHi, keyLo) && outKeys.Length >= 16
    modifies outKeys
    ensures AreScheduled(outKeys[..16], c, d, pc2)
    ensures outKeys[16..] == old(outKeys[16..])
  {
    var permuteKeyHi: Word, permuteKeyLo: Word := keyHi, keyLo;
    var rotateSchedule: Word, n: nat := SCHEDULE, 0;
    FirstSchedule();
    while rotateSchedule != Zeros(32)
      invariant ScheduleAt(rotateSchedule, n)
      invariant HalvesAt(c, d, n, permuteKeyHi, permuteKeyLo)
      invariant AreScheduled(outKeys[..n], c, d, pc2)
      invariant outKeys[16..] == old(outKeys[16..])
      decreases 16 - n
    {
      NextSchedule(rotateSchedule, n);
      var outKey: Nonce;
      permuteKeyHi, permuteKeyLo, outKey :=
        NextKey(inPermuteTable, rotateSchedule, permuteKeyHi, permuteKeyLo, junk, c, d, n, hiPart, loPart, pc2);
      OneMore(outKeys[..n], outKey, c, d, pc2);
      outKeys[n] := outKey;
      n := n + 1;
      assert outKeys[..n] == outKeys[..n - 1] + [outKey];
      rotateSchedule := Shl(rotateSchedule, 1);
    }
  }

  method DESKeySched(inKey: Nonce, outKeys: array<Nonce>, junk: Word)
    requires outKeys.Length >= 16
    modifies outKeys
    ensures forall n :: 1 <= n <= 16 ==> KeyBits(outKeys[n - 1]) == KS(n, Dropped(inKey))
    ensures outKeys[16..] == old(outKeys[16..])
  {
    ghost var key := Dropped(inKey);
    var permutedKey := DESPermute(PC1_TABLE, Shl(inKey.hi, 1), Shl(inKey.lo, 1), junk, [PC1_HI, PC1_LO]);
    PC1IsPC1(Shl(inKey.hi, 1), Shl(inKey.lo, 1));
    PC2IsPC2();
    Schedule(PC2_TABLE, Shl(permutedKey.hi, 4), Shl(permutedKey.lo, 4), outKeys, junk,
             Select(key, PC1_C), Select(key, PC1_D), PC2_HI, PC2_LO, PC2);
    forall n | 1 <= n <= 16 ensures KeyBits(outKeys[n - 1]) == KS(n, key) {
      assert outKeys[..16][n - 1] == outKeys[n - 1];
    }
  }

  /** The places by which a half has turned after n iterations. */
  function TotalShifts(n: nat): nat {
    if n == 0 then 0 else TotalShifts(n - 1) + LeftShifts(n)
  }

  lemma TotalIs(n: nat)
    requires n <= 16
    ensures TotalShifts(n) == 2 * n - (if n == 0 then 0 else if n == 1 then 1 else if n < 9 then 2 else if n < 16 then 3 else 4)
  {
  }

  lemma RotateTwice(b: Bits, n: nat, m: nat)
    requires n + m <= |b|
    ensures RotateLeft(RotateLeft(b, n), m) == RotateLeft(b, n + m)
  {
  }

  /** Sixteen iterations turn a half once round. */
  lemma {:induction false} TurnIs(half: Half28, n: nat)
    requires n <= 16
    ensures TotalShifts(n) <= 28 && Turn(half, n) == RotateLeft(half, TotalShifts(n))
    ensures n == 16 ==> Turn(half, n) == half
  {
    TotalIs(n);
    if n > 0 {
      TurnIs(half, n - 1);
      RotateTwice(half, TotalShifts(n - 1), LeftShifts(n));
    }
  }

  /** A block that differs from another in no bit but the first of each byte. */
  ghost predicate SameButTops(a: Block, b: Block) {
    forall i :: 0 <= i < 64 && i % 8 != 0 ==> a[i] == b[i]
  }

  /** The first bits of the bytes of a key do not matter. */
  lemma TopBitsIgnored(a: Nonce, b: Nonce, n: nat)
    requires SameButTops(Joint(a), Joint(b))
    ensures KS(n, Dropped(a)) == KS(n, Dropped(b))
  {
    PC1SkipsParity();
    forall i | 0 <= i < 28
      ensures Bit(Dropped(a), PC1_C[i]) == Bit(Dropped(b), PC1_C[i])
      ensures Bit(Dropped(a), PC1_D[i]) == Bit(Dropped(b), PC1_D[i])
    {
      BitKept(a, b, PC1_C[i]);
      BitKept(a, b, PC1_D[i]);
    }
    assert Select(Dropped(a), PC1_C) == Select(Dropped(b), PC1_C);
    assert Select(Dropped(a), PC1_D) == Select(Dropped(b), PC1_D);
  }

  lemma PC1SkipsParity()
    ensures forall i :: 0 <= i < 28 ==> PC1_C[i] % 8 != 0 && PC1_D[i] % 8 != 0
  {
  }

  lemma BitKept(a: Nonce, b: Nonce, n: nat)
    requires SameButTops(Joint(a), Joint(b)) && n % 8 != 0
    ensures Bit(Dropped(a), n) == Bit(Dropped(b), n)
  {
    if 1 <= n <= 64 {
      assert Dropped(a)[n - 1] == Joint(a)[n];
      assert Dropped(b)[n - 1] == Joint(b)[n];
    }
  }
}
