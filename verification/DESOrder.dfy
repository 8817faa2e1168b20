/** When the order of the keys does not matter, so that DESDecode undoes DESEncode although both walk the
    keys forwards. */
module DESOrder {
  import opened Bits
  import opened FIPS46
  import opened DESPermutations
  import opened DES
  import opened DESBlocks

  // ---------- keys that read the same both ways ----------

  /** Enciphering twice with the same keys, in the same order. */
  function Twice(f: Mix, ks: seq<Key>, b: Block): Block {
    EncipherBy(f, ks, EncipherBy(f, ks, b))
  }

  lemma SameOrderUndoes(f: Mix, ks: seq<Key>, b: Block)
    requires ks == Reversed(ks)
    ensures Twice(f, ks, b) == b
  {
    Deciphers(f, ks, b);
  }

  /** What is coded twice with such keys comes back. */
  lemma CodedTwice(f: Mix, keys: seq<Nonce>, was: seq<Nonce>, start: nat, end: nat)
    requires start <= end <= |was| && keys == Reversed(keys)
    ensures CodedBetween(f, KeysOf(keys), CodedBetween(f, KeysOf(keys), was, start, end), start, end) == was
  {
    CodingUndone(f, keys, was, start, end);
  }

  // ---------- other keys, and a cipher function that remembers them ----------

  /** A word that tells a history of at most 31 bits: the bits, then a one, then zeros. */
  function Told(h: Bits): Word
    requires |h| <= 31
  {
    h + [true] + Zeros(31 - |h|)
  }

  /** The history that a word tells. */
  function History(w: Bits): (h: Bits)
    ensures |h| <= |w| && (w != [] ==> |h| < |w|)
  {
    if w == [] then []
    else if w[|w| - 1] then w[..|w| - 1]
    else History(w[..|w| - 1])
  }

  lemma {:induction false} HistoryTold(h: Bits, n: nat)
    ensures History(h + [true] + Zeros(n)) == h
  {
    var w := h + [true] + Zeros(n);
    if n > 0 {
      assert Zeros(n)[..n - 1] == Zeros(n - 1);
      assert w[..|w| - 1] == h + [true] + Zeros(n - 1);
      HistoryTold(h, n - 1);
    } else {
      assert w[..|w| - 1] == h;
    }
  }

  /** What the left half tells when the right one tells h: the history one round before. */
  function Earlier(h: Bits): Word
    requires |h| <= 31
  {
    if h == [] then Zeros(32) else Told(h[..|h| - 1])
  }

  /** A cipher function that makes the right half tell of every round whether its key was a. */
  function Memory(a: Key, r: Word, k: Key): Word {
    var h := History(r);
    if |h| >= 31 then Zeros(32) else Xor(Earlier(h), Told(h + [k == a]))
  }

  function Remembering(a: Key): Mix {
    (r: Word, k: Key) => Memory(a, r, k)
  }

  /** Which of the first n keys were a. */
  function Marks(ks: seq<Key>, a: Key, n: nat): (h: Bits)
    requires n <= |ks|
    ensures |h| == n
  {
    seq(n, i requires 0 <= i < n => ks[i] == a)
  }

  lemma XorInto(a: Bits, b: Bits)
    requires |a| == |b|
    ensures Xor(a, Xor(a, b)) == b
  {
  }

  /** A round adds to the history whether its key was a. */
  lemma RemembersOne(a: Key, h: Bits, k: Key)
    requires |h| < 31
    ensures Xor(Earlier(h), Memory(a, Told(h), k)) == Told(h + [k == a]) && Earlier(h + [k == a]) == Told(h)
  {
    HistoryTold(h, 31 - |h|);
    XorInto(Earlier(h), Told(h + [k == a]));
    assert (h + [k == a])[..|h|] == h;
  }

  lemma MarksMore(ks: seq<Key>, a: Key, n: nat)
    requires 0 < n <= |ks|
    ensures Marks(ks, a, n) == Marks(ks, a, n - 1) + [ks[n - 1] == a]
  {
  }

  lemma {:induction false} Remembers(ks: seq<Key>, a: Key, n: nat)
    requires n <= |ks| <= 31
    ensures Iterated(Remembering(a), ks, n, Halves(Zeros(32), Told([]))) == Halves(Earlier(Marks(ks, a, n)), Told(Marks(ks, a, n)))
  {
    if n > 0 {
      Remembers(ks, a, n - 1);
      RemembersOne(a, Marks(ks, a, n - 1), ks[n - 1]);
      MarksMore(ks, a, n);
    }
  }

  /** The block that begins the history. */
  function Beginning(): Block {
    Select(Zeros(32) + Told([]), IP_INV)
  }

  lemma RememberedBlock(ks: seq<Key>, a: Key)
    requires |ks| <= 31
    ensures EncipherBy(Remembering(a), ks, Beginning())
         == Select(Told(Marks(ks, a, |ks|)) + Earlier(Marks(ks, a, |ks|)), IP_INV)
  {
    PermutationInverts(Zeros(32) + Told([]));
    var x: Block := Zeros(32) + Told([]);
    assert Select(Beginning(), IP) == x && x[..32] == Zeros(32) && x[32..] == Told([]);
    Remembers(ks, a, |ks|);
  }

  lemma ToldApart(g: Bits, h: Bits, i: nat)
    requires |g| == |h| <= 31 && i < |g| && g[i] != h[i]
    ensures Select(Told(g) + Earlier(g), IP_INV) != Select(Told(h) + Earlier(h), IP_INV)
  {
    PermutationInverts(Told(g) + Earlier(g));
    PermutationInverts(Told(h) + Earlier(h));
    assert (Told(g) + Earlier(g))[i] == g[i] && (Told(h) + Earlier(h))[i] == h[i];
  }

  /** With keys that read differently backwards there are a cipher function and a block that coding twice
      does not give back. */
  lemma OrderMatters(ks: seq<Key>) returns (f: Mix, b: Block)
    requires |ks| <= 31 && ks != Reversed(ks)
    ensures Twice(f, ks, b) != b
  {
    var i :| 0 <= i < |ks| && ks[i] != Reversed(ks)[i];
    var a := ks[i];
    f, b := Remembering(a), Beginning();
    RememberedBlock(ks, a);
    RememberedBlock(Reversed(ks), a);
    ToldApart(Marks(ks, a, |ks|), Marks(Reversed(ks), a, |ks|), i);
    Deciphers(f, ks, EncipherBy(f, ks, b));
  }

  /** Coding twice gives every block back, whatever the cipher function, exactly when the keys read the
      same both ways. */
  lemma SameOrder(ks: seq<Key>)
    requires |ks| <= 31
    ensures (forall f: Mix, b: Block :: Twice(f, ks, b) == b) <==> ks == Reversed(ks)
  {
    if ks == Reversed(ks) {
      forall f: Mix, b: Block ensures Twice(f, ks, b) == b {
        SameOrderUndoes(f, ks, b);
      }
    } else {
      var f, b := OrderMatters(ks);
    }
  }

  // ---------- the cipher function of the standard ----------

  type Six = b: Bits | |b| == 6 witness Zeros(6)

  function Flat(groups: seq<Six>): (b: Bits)
    ensures |b| == 6 * |groups|
  {
    if groups == [] then [] else groups[0] + Flat(groups[1..])
  }

  lemma {:induction false} FlatGroup(groups: seq<Six>, g: nat)
    requires g < |groups|
    ensures Flat(groups)[6 * g..6 * g + 6] == groups[g]
  {
    if g > 0 {
      FlatGroup(groups[1..], g - 1);
      assert Flat(groups)[6 * g..6 * g + 6] == Flat(groups[1..])[6 * (g - 1)..6 * (g - 1) + 6];
    }
  }

  function NibblesFrom(ns: seq<Nibble>, g: nat): (b: Bits)
    requires g <= |ns|
    ensures |b| == 4 * (|ns| - g)
    decreases |ns| - g
  {
    if g == |ns| then [] else NibbleBits(ns[g]) + NibblesFrom(ns, g + 1)
  }

  /** The boxes turn the groups into the numbers. */
  ghost predicate BoxesGive(boxes: seq<seq<Half>>, groups: seq<Six>, ns: seq<Nibble>) {
    AreBoxes(boxes) && |groups| == |ns| == 8 && forall g :: 0 <= g < 8 ==> Substitute(boxes[g], groups[g]) == ns[g]
  }

  lemma {:induction false} SubstitutedGroups(boxes: seq<seq<Half>>, groups: seq<Six>, ns: seq<Nibble>, b: Bits, g: nat)
    requires BoxesGive(boxes, groups, ns) && 1 <= g <= 9 && b == Flat(groups)
    ensures SubstituteFrom(boxes, g, b) == NibblesFrom(ns, g - 1)
    decreases 9 - g
  {
    if g < 9 {
      FlatGroup(groups, g - 1);
      assert b[6 * g - 6..6 * g] == groups[g - 1];
      SubstitutedGroups(boxes, groups, ns, b, g + 1);
    }
  }

  lemma MixedGroups(r: Word, k: Key, groups: seq<Six>, ns: seq<Nibble>)
    requires BoxesGive(BOXES, groups, ns) && Xor(Select(r, E), k) == Flat(groups)
    ensures F(r, k) == Select(NibblesFrom(ns, 0), P)
  {
    SubstitutedGroups(BOXES, groups, ns, Flat(groups), 1);
  }

  const NONE: seq<Nibble> := [0, 0, 0, 0, 0, 0, 0, 0]
  const DIFFERENCE_NIBBLES: seq<Nibble> := [0, 2, 1, 3, 8, 10, 8, 0]

  const QUIET_GROUPS: seq<Six> :=
    [ [false, false, false, false, false, true], [false, true, false, false, true, true],
      [false, false, false, false, true, false], [false, false, true, false, false, false],
      [false, true, false, false, true, true], [false, true, false, false, false, false],
      [false, false, false, false, true, true], [false, true, true, false, false, true] ]

  const ODD_GROUPS: seq<Six> :=
    [ [false, false, false, false, false, true], [false, false, true, false, true, true],
      [false, true, false, false, false, false], [false, false, false, true, true, false],
      [false, true, false, false, false, false], [false, false, false, false, false, true],
      [false, false, true, true, false, false], [false, true, true, false, false, true] ]

  const OTHER_GROUPS: seq<Six> :=
    [ [true, true, true, false, true, true], [true, true, true, false, false, true],
      [true, false, true, true, true, false], [false, false, true, false, false, false],
      [false, true, false, false, true, true], [false, true, false, false, false, false],
      [false, false, false, false, true, true], [false, true, true, false, true, false] ]

  const DIFFERENCE: Word :=
    [true, true, false, true, false, true, false, true, false, true, true, false, false, false, false, false,
     false, false, false, false, false, false, false, false, false, false, false, false, false, false, false, true]

  const QUIET: Key := Flat(QUIET_GROUPS)
  const ODD: Key := Flat(ODD_GROUPS)

  lemma QuietBoxes()
    ensures BoxesGive(BOXES, QUIET_GROUPS, NONE)
  {
  }

  lemma OtherBoxes()
    ensures BoxesGive(BOXES, OTHER_GROUPS, NONE)
  {
  }

  lemma OddBoxes()
    ensures BoxesGive(BOXES, ODD_GROUPS, DIFFERENCE_NIBBLES)
  {
  }

  lemma NothingExpanded(k: Key)
    ensures Xor(Select(Zeros(32), E), k) == k
  {
    NothingSelected(E);
  }

  lemma NothingSelected(table: seq<nat>)
    ensures Select(Zeros(32), table) == Zeros(|table|)
  {
  }

  lemma {:induction false} FlatAt(groups: seq<Six>, g: nat, j: nat)
    requires g < |groups| && j < 6
    ensures Flat(groups)[6 * g + j] == groups[g][j]
  {
    if g > 0 {
      FlatAt(groups[1..], g - 1, j);
      assert Flat(groups)[6 * g + j] == Flat(groups[1..])[6 * (g - 1) + j];
    }
  }

  lemma XorAt(d: Word, table: seq<nat>, ks: seq<Six>, xs: seq<Six>, i: nat, g: nat, j: nat)
    requires |table| == 48 && |ks| == |xs| == 8 && g < 8 && j < 6 && i == 6 * g + j
    requires (Bit(d, table[i]) != ks[g][j]) == xs[g][j]
    ensures Xor(Select(d, table), Flat(ks))[i] == Flat(xs)[i]
  {
    FlatAt(ks, g, j);
    FlatAt(xs, g, j);
  }

  lemma OtherInputLeft(i: nat, g: nat, j: nat)
    requires g < 4 && j < 6 && i == 6 * g + j
    ensures (Bit(DIFFERENCE, E[i]) != QUIET_GROUPS[g][j]) == OTHER_GROUPS[g][j]
  {
    assert g == 0 || g == 1 || g == 2 || g == 3;
    assert j == 0 || j == 1 || j == 2 || j == 3 || j == 4 || j == 5;
  }

  lemma OtherInputRight(i: nat, g: nat, j: nat)
    requires 4 <= g < 8 && j < 6 && i == 6 * g + j
    ensures (Bit(DIFFERENCE, E[i]) != QUIET_GROUPS[g][j]) == OTHER_GROUPS[g][j]
  {
    assert g == 4 || g == 5 || g == 6 || g == 7;
    assert j == 0 || j == 1 || j == 2 || j == 3 || j == 4 || j == 5;
  }

  lemma OtherInputAt(i: nat, g: nat, j: nat)
    requires g < 8 && j < 6 && i == 6 * g + j
    ensures Xor(Select(DIFFERENCE, E), QUIET)[i] == Flat(OTHER_GROUPS)[i]
  {
    if g < 4 { OtherInputLeft(i, g, j); } else { OtherInputRight(i, g, j); }
    XorAt(DIFFERENCE, E, QUIET_GROUPS, OTHER_GROUPS, i, g, j);
  }

  lemma OtherInput()
    ensures Xor(Select(DIFFERENCE, E), QUIET) == Flat(OTHER_GROUPS)
  {
    var x, y := Xor(Select(DIFFERENCE, E), QUIET), Flat(OTHER_GROUPS);
    forall i: nat | i < 48 ensures x[i] == y[i] {
      OtherInputAt(i, i / 6, i % 6);
    }
  }

  lemma {:induction false} NibblesAt(ns: seq<Nibble>, from: nat, g: nat, j: nat)
    requires from <= g < |ns| && j < 4
    ensures NibblesFrom(ns, from)[4 * (g - from) + j] == NibbleBits(ns[g])[j]
    decreases g - from
  {
    if from < g {
      NibblesAt(ns, from + 1, g, j);
    }
  }

  lemma MixedAt(ns: seq<Nibble>, i: nat, g: nat, j: nat)
    requires |ns| == 8 && i < 32 && g < 8 && j < 4 && P[i] == 4 * g + j + 1
    ensures Select(NibblesFrom(ns, 0), P)[i] == NibbleBits(ns[g])[j]
  {
    NibblesAt(ns, 0, g, j);
  }

  lemma PInRange(i: nat)
    requires i < 32
    ensures 1 <= P[i] <= 32
  {
  }

  lemma NoneAt(g: nat, j: nat)
    requires g < 8 && j < 4
    ensures !NibbleBits(NONE[g])[j]
  {
    assert NONE[g] == 0;
  }

  lemma NoneMixed()
    ensures Select(NibblesFrom(NONE, 0), P) == Zeros(32)
  {
    forall i: nat | i < 32 ensures Select(NibblesFrom(NONE, 0), P)[i] == false {
      PInRange(i);
      MixedAt(NONE, i, (P[i] - 1) / 4, (P[i] - 1) % 4);
      NoneAt((P[i] - 1) / 4, (P[i] - 1) % 4);
    }
  }

  /** The bits of the difference before P moves them. */
  function Unmixed(g: nat, j: nat): bool
    requires g < 8 && j < 4
  {
    NibbleBits(DIFFERENCE_NIBBLES[g])[j]
  }

  lemma UnmixedIs(g: nat, j: nat)
    requires g < 8 && j < 4
    ensures Unmixed(g, j) <==> 4 * g + j in {6, 11, 14, 15, 16, 20, 22, 24}
  {
    assert g == 0 || g == 1 || g == 2 || g == 3 || g == 4 || g == 5 || g == 6 || g == 7;
    assert j == 0 || j == 1 || j == 2 || j == 3;
  }

  lemma DifferenceIs(i: nat)
    requires i < 32
    ensures DIFFERENCE[i] <==> P[i] - 1 in {6, 11, 14, 15, 16, 20, 22, 24}
  {
  }

  lemma DifferenceAt(i: nat, g: nat, j: nat)
    requires g < 8 && j < 4 && i < 32 && P[i] == 4 * g + j + 1
    ensures NibbleBits(DIFFERENCE_NIBBLES[g])[j] == DIFFERENCE[i]
  {
    UnmixedIs(g, j);
    DifferenceIs(i);
    assert Unmixed(g, j) == NibbleBits(DIFFERENCE_NIBBLES[g])[j];
  }

  lemma DifferenceMixed()
    ensures Select(NibblesFrom(DIFFERENCE_NIBBLES, 0), P) == DIFFERENCE
  {
    forall i: nat | i < 32 ensures Select(NibblesFrom(DIFFERENCE_NIBBLES, 0), P)[i] == DIFFERENCE[i] {
      PInRange(i);
      MixedAt(DIFFERENCE_NIBBLES, i, (P[i] - 1) / 4, (P[i] - 1) % 4);
      DifferenceAt(i, (P[i] - 1) / 4, (P[i] - 1) % 4);
    }
  }

  lemma QuietOnNothing()
    ensures F(Zeros(32), QUIET) == Zeros(32)
  {
    QuietBoxes();
    NoneMixed();
    NothingExpanded(QUIET);
    MixedGroups(Zeros(32), QUIET, QUIET_GROUPS, NONE);
  }

  lemma QuietOnDifference()
    ensures F(DIFFERENCE, QUIET) == Zeros(32)
  {
    OtherBoxes();
    NoneMixed();
    OtherInput();
    MixedGroups(DIFFERENCE, QUIET, OTHER_GROUPS, NONE);
  }

  lemma OddOnNothing()
    ensures F(Zeros(32), ODD) == DIFFERENCE
  {
    OddBoxes();
    DifferenceMixed();
    NothingExpanded(ODD);
    MixedGroups(Zeros(32), ODD, ODD_GROUPS, DIFFERENCE_NIBBLES);
  }

  /** A cipher function that a key keeps quiet on 0 and on d, while another key turns 0 into d. */
  ghost predicate Quiets(f: Mix, quiet: Key, odd: Key, d: Word) {
    f(Zeros(32), quiet) == Zeros(32) && f(d, quiet) == Zeros(32) && f(Zeros(32), odd) == d && d != Zeros(32)
  }

  /** One odd key and then quiet ones. */
  function OddFirst(quiet: Key, odd: Key): (ks: seq<Key>)
    ensures |ks| == 16
  {
    seq(16, i => if i == 0 then odd else quiet)
  }

  lemma {:induction false} OddFirstRounds(f: Mix, quiet: Key, odd: Key, d: Word, n: nat)
    requires Quiets(f, quiet, odd, d) && 1 <= n <= 16
    ensures Iterated(f, OddFirst(quiet, odd), n, Halves(Zeros(32), Zeros(32)))
         == if n % 2 == 1 then Halves(Zeros(32), d) else Halves(d, Zeros(32))
  {
    assert Xor(Zeros(32), d) == d && Xor(d, Zeros(32)) == d && Xor(Zeros(32), Zeros(32)) == Zeros(32);
    if n > 1 {
      OddFirstRounds(f, quiet, odd, d, n - 1);
    } else {
      assert Iterated(f, OddFirst(quiet, odd), 0, Halves(Zeros(32), Zeros(32))) == Halves(Zeros(32), Zeros(32));
    }
  }

  lemma {:induction false} OddLastRounds(f: Mix, quiet: Key, odd: Key, d: Word, n: nat)
    requires Quiets(f, quiet, odd, d) && n <= 16
    ensures Iterated(f, Reversed(OddFirst(quiet, odd)), n, Halves(Zeros(32), Zeros(32)))
         == if n < 16 then Halves(Zeros(32), Zeros(32)) else Halves(Zeros(32), d)
  {
    if n > 0 {
      OddLastRounds(f, quiet, odd, d, n - 1);
      assert Xor(Zeros(32), d) == d && Xor(Zeros(32), Zeros(32)) == Zeros(32);
    }
  }

  const NOTHING: Block := Zeros(64)

  lemma NothingPermuted()
    ensures Select(NOTHING, IP) == NOTHING && NOTHING[..32] == Zeros(32) && NOTHING[32..] == Zeros(32)
  {
  }

  lemma HalvesApart(d: Word)
    requires d != Zeros(32)
    ensures Select(Zeros(32) + d, IP_INV) != Select(d + Zeros(32), IP_INV)
  {
    PermutationInverts(Zeros(32) + d);
    PermutationInverts(d + Zeros(32));
    assert (Zeros(32) + d)[32..] == d && (d + Zeros(32))[32..] == Zeros(32);
  }

  lemma OddApart(f: Mix, quiet: Key, odd: Key, d: Word)
    requires Quiets(f, quiet, odd, d)
    ensures EncipherBy(f, OddFirst(quiet, odd), NOTHING) != EncipherBy(f, Reversed(OddFirst(quiet, odd)), NOTHING)
  {
    NothingPermuted();
    OddFirstRounds(f, quiet, odd, d, 16);
    OddLastRounds(f, quiet, odd, d, 16);
    HalvesApart(d);
  }

  /** So it can go in the standard itself: with these keys DESDecode does not give a block of zeros back
      that DESEncode was given, when both get the keys in the same order. */
  lemma NotUndone()
    ensures Twice(F, OddFirst(QUIET, ODD), NOTHING) != NOTHING
  {
    QuietOnNothing();
    QuietOnDifference();
    OddOnNothing();
    assert DIFFERENCE[0] && !Zeros(32)[0];
    OddApart(F, QUIET, ODD, DIFFERENCE);
    Deciphers(F, OddFirst(QUIET, ODD), EncipherBy(F, OddFirst(QUIET, ODD), NOTHING));
  }

  // ---------- weak keys ----------

  /** The sixteen keys that the standard schedules. */
  function Schedule(key: Block): seq<Key> {
    seq(16, i requires 0 <= i < 16 => KS(i + 1, key))
  }

  /** With a key whose halves are all zeros or all ones the order is no matter. */
  lemma WeakKeysUndo(key: Block, b: Block)
    requires forall i, j :: 0 <= i < j < 28 ==> Select(key, PC1_C)[i] == Select(key, PC1_C)[j]
    requires forall i, j :: 0 <= i < j < 28 ==> Select(key, PC1_D)[i] == Select(key, PC1_D)[j]
    ensures Twice(F, Schedule(key), b) == b
  {
    forall i: nat | i < 16 ensures Schedule(key)[i] == Reversed(Schedule(key))[i] {
      WeakKeys(key, i + 1);
      WeakKeys(key, 16 - i);
    }
    SameOrderUndoes(F, Schedule(key), b);
  }

  /** A key whose halves are all zeros or all ones has sixteen equal scheduled keys. */
  lemma WeakKeys(key: Block, n: nat)
    requires forall i, j :: 0 <= i < j < 28 ==> Select(key, PC1_C)[i] == Select(key, PC1_C)[j]
    requires forall i, j :: 0 <= i < j < 28 ==> Select(key, PC1_D)[i] == Select(key, PC1_D)[j]
    ensures KS(n, key) == KS(0, key)
  {
    EvenTurn(Select(key, PC1_C), n);
    EvenTurn(Select(key, PC1_D), n);
  }

  lemma {:induction false} EvenTurn(half: Half28, n: nat)
    requires forall i, j :: 0 <= i < j < 28 ==> half[i] == half[j]
    ensures Turn(half, n) == half
  {
    if n > 0 {
      EvenTurn(half, n - 1);
      assert RotateLeft(half, LeftShifts(n)) == half;
    }
  }
}
