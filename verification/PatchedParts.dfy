/** Parts for which the conversion does not give what one would expect. */
module PatchedParts {
  import opened Memory
  import opened Refs
  import opened ObjectGraph
  import opened Payload
  import opened GraphCopy
  import opened ThirdPass
  import opened NewtonPackage

  /** A word of the package, in the order of bytes it has there. */
  function Raw(word: bv32): Ref32 {
    Swap32(Ref32(word))
  }

  lemma RawBack(word: bv32)
    ensures Swap32(Raw(word)) == Ref32(word)
  {
    SwapLongInvolutive(word);
  }

  const NO_CLASS: Ref32 := Raw(2)

  function ArrayOf(elements: seq<Ref32>): SrcObject {
    SrcObject(HEADER_32 + 4 * |elements|, K_OBJ_SLOTTED, NO_CLASS, elements, [])
  }

  // ---------- visiting arrays ----------

  lemma NoClassVisited(part: Part, seen: set<Ref32>)
    ensures Visit(part, NO_CLASS, seen) == []
  {
    RawBack(2);
  }

  lemma VisitArray(part: Part, word: bv32, elements: seq<Ref32>, seen: set<Ref32>)
    requires word & 3 == 1 && Ref32(word) in part && part[Ref32(word)] == ArrayOf(elements) && Ref32(word) !in seen
    ensures Visit(part, Raw(word), seen) == [Ref32(word)] + VisitAll(part, elements, seen + {Ref32(word)})
  {
    RawBack(word);
    var now := seen + {Ref32(word)};
    NoClassVisited(part, now);
    assert part[Ref32(word)].Targets() == [NO_CLASS] + elements;
    assert ([NO_CLASS] + elements)[1..] == elements && now + Elems([]) == now;
    assert VisitAll(part, [NO_CLASS] + elements, now) == VisitAll(part, elements, now);
  }

  lemma VisitSeen(part: Part, word: bv32, seen: set<Ref32>)
    requires Ref32(word) in seen
    ensures Visit(part, Raw(word), seen) == []
  {
    RawBack(word);
  }

  lemma VisitOne(part: Part, raw: Ref32, seen: set<Ref32>)
    ensures VisitAll(part, [raw], seen) == Visit(part, raw, seen)
  {
    assert [raw][1..] == [];
  }

  lemma VisitTwo(part: Part, first: Ref32, second: Ref32, seen: set<Ref32>)
    ensures VisitAll(part, [first, second], seen)
         == Visit(part, first, seen) + Visit(part, second, seen + Elems(Visit(part, first, seen)))
  {
    assert [first, second][1..] == [second];
    VisitOne(part, second, seen + Elems(Visit(part, first, seen)));
  }

  lemma ArrayFormed(elements: seq<Ref32>)
    ensures ArrayOf(elements).Slotted() && ArrayOf(elements).Valid()
    ensures ArrayOf(elements).NewSize() == HEADER_64 + 8 * |elements|
    ensures ArrayOf(elements).Targets() == [NO_CLASS] + elements
  {
  }

  lemma AlreadyAligned(n: nat)
    ensures LongAlign(HEADER_64 + 8 * n) == HEADER_64 + 8 * n
  {
  }

  lemma ArrayRoom(part: Part, r: Ref32, elements: seq<Ref32>)
    requires r in part && part[r] == ArrayOf(elements)
    ensures Room(part, r) == HEADER_64 + 8 * |elements|
  {
    ArrayFormed(elements);
    AlreadyAligned(|elements|);
  }

  // ---------- an array in an array ----------

  function Pair(): Part {
    map[Ref32(45) := ArrayOf([Raw(61)]), Ref32(61) := ArrayOf([])]
  }

  const PAIR_AT: int := 0x1_0000_0010

  lemma PairVisited()
    ensures Visit(Pair(), Raw(45), {}) == [Ref32(45), Ref32(61)]
  {
    var none: set<Ref32> := {};
    VisitArray(Pair(), 45, [Raw(61)], none);
    VisitOne(Pair(), Raw(61), none + {Ref32(45)});
    VisitArray(Pair(), 61, [], none + {Ref32(45)});
  }

  lemma PairFormed()
    ensures WellFormed(Pair()) && IsRoot(Pair(), Raw(45))
  {
    RawBack(45);
    RawBack(61);
    RawBack(2);
    assert ArrayOf([Raw(61)]).Targets() == [NO_CLASS, Raw(61)] && ArrayOf([]).Targets() == [NO_CLASS];
    assert ClosedObject(Pair(), ArrayOf([Raw(61)])) && ClosedObject(Pair(), ArrayOf([]));
    assert Convertible(Pair(), ArrayOf([Raw(61)])) && Convertible(Pair(), ArrayOf([]));
  }

  lemma PairPlaces()
    ensures NewPlaces(Pair(), Raw(45), PAIR_AT) == map[Ref32(45) := 0x1_0000_0011, Ref32(61) := 0x1_0000_002D]
  {
    PairVisited();
    var order := [Ref32(45), Ref32(61)];
    ArrayRoom(Pair(), Ref32(45), [Raw(61)]);
    assert ExtentTo(Pair(), order, 0) == 0 && ExtentTo(Pair(), order, 1) == 28;
    assert IndexOf(order, Ref32(45)) == 0 && IndexOf(order, Ref32(61)) == 1;
  }

  // ---------- steps of the third pass ----------

  lemma Stays(f: RefMap, m: map<int, DstObject>, a: int, k: nat, depth: nat)
    requires a in m && k < Fields(m[a]) && !IsKey(f, Field(m[a], k))
    ensures UpdateField(f, m, a, k, depth) == Outcome(m, true, false)
  {
  }

  /** A field with a key is patched and what it refers to then is updated. */
  lemma Enters(f: RefMap, m: map<int, DstObject>, a: int, k: nat, ref: Ref, depth: nat)
    requires a in m && k < Fields(m[a]) && IsKey(f, Field(m[a], k)) && f[Truncate(Field(m[a], k))] == ref && depth > 0
    ensures var m' := m[a := SetField(m[a], k, ref)];
            var o := UpdateFields(f, m', Address(ref), 0, if Address(ref) in m' then Fields(m'[Address(ref)]) else 0, depth - 1);
            UpdateField(f, m, a, k, depth) == o.(redirected := o.redirected || ref != Field(m[a], k))
  {
  }

  lemma NextField(f: RefMap, m: map<int, DstObject>, a: int, k: nat, n: nat, depth: nat)
    requires n > 0 && UpdateField(f, m, a, k, depth).ended
    ensures var o := UpdateField(f, m, a, k, depth);
            UpdateFields(f, m, a, k, n, depth) == Joined(UpdateFields(f, o.memory, a, k + 1, n - 1, depth), o.redirected)
  {
  }

  /** An array in memory: its class, which is none, and its elements. */
  ghost predicate HoldsArray(f: RefMap, m: map<int, DstObject>, a: int, elements: seq<Ref>) {
    && a in m && m[a].flags & K_OBJ_SLOTTED != 0 && m[a].slots == elements
    && !IsKey(f, m[a].objClass)
  }

  /** What the copying pass leaves of an array. */
  lemma ArrayCopied(part: Part, f: RefMap, m: map<int, DstObject>, r: Ref32, elements: seq<Ref32>)
    requires AllCopied(part, f, m) && r in f && r in part && part[r] == ArrayOf(elements)
    ensures forall k :: 0 <= k < |elements| ==> Forwarded(f, elements[k])
    ensures HoldsArray(f, m, Address(f[r]), seq(|elements|, k requires 0 <= k < |elements| => Translate(f, elements[k])))
  {
    assert Copied(part, f, m, r);
    FieldsOfCopy(part, f, m, r);
    ArrayFormed(elements);
    RawBack(2);
    var a := Address(f[r]);
    assert Holds(f, m, a, 0, part[r].Targets()[0]);
    ImmediateExtended(Ref32(2));
    forall k | 0 <= k < |elements| ensures Forwarded(f, elements[k]) && m[a].slots[k] == Translate(f, elements[k]) {
      assert part[r].Targets()[k + 1] == elements[k];
      assert Holds(f, m, a, k + 1, part[r].Targets()[k + 1]);
    }
    assert Fields(m[a]) == 1 + |elements|;
  }

  lemma OneStays(f: RefMap, m: map<int, DstObject>, a: int, x: Ref, depth: nat)
    requires HoldsArray(f, m, a, [x]) && !IsKey(f, x)
    ensures Fields(m[a]) == 2 && UpdateFields(f, m, a, 0, 2, depth) == Outcome(m, true, false)
  {
    Stays(f, m, a, 0, depth);
    Stays(f, m, a, 1, depth);
    NextField(f, m, a, 0, 2, depth);
    NextField(f, m, a, 1, 1, depth);
  }

  // ---------- redirected ----------

  /** The low 32 bits of an address above 4 GB. */
  lemma LowBits(ref: Ref, word: bv32)
    requires ref == 0x1_0000_0000 + word as int
    ensures Truncate(ref) == Ref32(word)
  {
    assert ref % 0x1_0000_0000 == word as int;
  }

  lemma PairKeys(f: RefMap)
    requires f == map[Ref32(45) := 0x1_0000_0011, Ref32(61) := 0x1_0000_002D]
    ensures IsKey(f, 0x1_0000_002D) && f[Truncate(0x1_0000_002D)] == 0x1_0000_0011 && Truncate(0x1_0000_002D) != Ref32(61)
    ensures !IsKey(f, 0x1_0000_0011)
  {
    LowBits(0x1_0000_002D, 45);
    LowBits(0x1_0000_0011, 17);
  }

  lemma PairPatched(f: RefMap, m: map<int, DstObject>, depth: nat)
    requires f == map[Ref32(45) := 0x1_0000_0011, Ref32(61) := 0x1_0000_002D] && depth > 0
    requires HoldsArray(f, m, PAIR_AT, [0x1_0000_002D])
    ensures var o := UpdateField(f, m, PAIR_AT, 1, depth);
            o.ended && PAIR_AT in o.memory && o.memory[PAIR_AT].slots == [0x1_0000_0011]
  {
    PairKeys(f);
    Enters(f, m, PAIR_AT, 1, 0x1_0000_0011, depth);
    var m' := m[PAIR_AT := SetField(m[PAIR_AT], 1, 0x1_0000_0011)];
    assert HoldsArray(f, m', PAIR_AT, [0x1_0000_0011]);
    OneStays(f, m', PAIR_AT, 0x1_0000_0011, depth - 1);
  }

  /** The block begins where the new reference to the empty array looks like the old one to the root: the
      root comes to hold itself. */
  lemma Redirected(m: map<int, DstObject>, depth: nat)
    requires AllCopied(Pair(), NewPlaces(Pair(), Raw(45), PAIR_AT), m) && depth > 0
    ensures var f := NewPlaces(Pair(), Raw(45), PAIR_AT);
            && f == map[Ref32(45) := 0x1_0000_0011, Ref32(61) := 0x1_0000_002D]
            && !LeftAlone(Pair(), f, Raw(61), depth)
            && var o := UpdateField(f, m, PAIR_AT, 1, depth);
               o.ended && PAIR_AT in o.memory && o.memory[PAIR_AT].slots == [f[Ref32(45)]]
  {
    var f := NewPlaces(Pair(), Raw(45), PAIR_AT);
    PairPlaces();
    RawBack(61);
    ArrayCopied(Pair(), f, m, Ref32(45), [Raw(61)]);
    assert m[PAIR_AT].slots == [0x1_0000_002D];
    PairKeys(f);
    PairPatched(f, m, depth);
  }

  /** What partRef gives then is the root itself. */
  method WrongObject(depth: nat) returns (ref: Ref)
    requires depth > 0
    ensures Ref32(61) in NewPlaces(Pair(), Raw(45), PAIR_AT)
    ensures ref == MakePtr(PAIR_AT) != NewPlaces(Pair(), Raw(45), PAIR_AT)[Ref32(61)]
  {
    PairFormed();
    PairPlaces();
    RawBack(45);
    var c := new Converter(Pair());
    var ended: bool;
    ghost var redirected, copied;
    ref, ended, redirected, copied := c.PartRef(Raw(45), PAIR_AT, depth);
    Redirected(copied, depth);
  }

  // ---------- endless ----------

  function Loop(): Part {
    map[Ref32(33) := ArrayOf([Raw(33)])]
  }

  const LOOP_AT: int := 0x1_0000_0020

  lemma LoopPlaces()
    ensures NewPlaces(Loop(), Raw(33), LOOP_AT) == map[Ref32(33) := 0x1_0000_0021]
  {
    var none: set<Ref32> := {};
    VisitArray(Loop(), 33, [Raw(33)], none);
    VisitOne(Loop(), Raw(33), none + {Ref32(33)});
    VisitSeen(Loop(), 33, none + {Ref32(33)});
    var order := [Ref32(33)];
    assert ExtentTo(Loop(), order, 0) == 0 && IndexOf(order, Ref32(33)) == 0;
  }

  lemma LoopFormed()
    ensures WellFormed(Loop()) && IsRoot(Loop(), Raw(33))
  {
    RawBack(33);
    RawBack(2);
    assert ArrayOf([Raw(33)]).Targets() == [NO_CLASS, Raw(33)];
    assert ClosedObject(Loop(), ArrayOf([Raw(33)])) && Convertible(Loop(), ArrayOf([Raw(33)]));
  }

  lemma LoopKey(f: RefMap)
    requires f == map[Ref32(33) := 0x1_0000_0021]
    ensures IsKey(f, 0x1_0000_0021) && f[Truncate(0x1_0000_0021)] == 0x1_0000_0021
  {
    LowBits(0x1_0000_0021, 33);
  }

  lemma RoundOnce(f: RefMap, m: map<int, DstObject>, depth: nat)
    requires f == map[Ref32(33) := 0x1_0000_0021] && HoldsArray(f, m, LOOP_AT, [0x1_0000_0021]) && depth > 0
    ensures UpdateField(f, m, LOOP_AT, 1, depth).ended ==> UpdateField(f, m, LOOP_AT, 1, depth - 1).ended
  {
    LoopKey(f);
    Enters(f, m, LOOP_AT, 1, 0x1_0000_0021, depth);
    SetSame(m, LOOP_AT, 1);
    Stays(f, m, LOOP_AT, 0, depth - 1);
    NextField(f, m, LOOP_AT, 0, 2, depth - 1);
  }

  lemma {:induction false} GoesRound(f: RefMap, m: map<int, DstObject>, depth: nat)
    requires f == map[Ref32(33) := 0x1_0000_0021] && HoldsArray(f, m, LOOP_AT, [0x1_0000_0021])
    ensures !UpdateField(f, m, LOOP_AT, 1, depth).ended
  {
    if depth > 0 {
      RoundOnce(f, m, depth);
      GoesRound(f, m, depth - 1);
    } else {
      LoopKey(f);
    }
  }

  /** An array that holds itself, copied to where the new reference looks like the old: the pass does not
      end at any depth. */
  lemma Endless(m: map<int, DstObject>, depth: nat)
    requires AllCopied(Loop(), NewPlaces(Loop(), Raw(33), LOOP_AT), m)
    ensures !UpdateField(NewPlaces(Loop(), Raw(33), LOOP_AT), m, LOOP_AT, 1, depth).ended
  {
    var f := NewPlaces(Loop(), Raw(33), LOOP_AT);
    LoopPlaces();
    RawBack(33);
    ArrayCopied(Loop(), f, m, Ref32(33), [Raw(33)]);
    assert m[LOOP_AT].slots == [0x1_0000_0021];
    GoesRound(f, m, depth);
  }

  method NeverDone(depth: nat) returns (ended: bool)
    ensures !ended
  {
    LoopFormed();
    var c := new Converter(Loop());
    var ref: Ref;
    ghost var redirected, copied;
    ref, ended, redirected, copied := c.PartRef(Raw(33), LOOP_AT, depth);
    Endless(copied, depth);
  }

  // ---------- redirected and back ----------

  function Four(): Part {
    map[Ref32(65) := ArrayOf([Raw(149), Raw(189)]), Ref32(149) := ArrayOf([]),
        Ref32(189) := ArrayOf([Raw(101)]), Ref32(101) := ArrayOf([Raw(65)])]
  }

  const FOUR_AT: int := 0x1_0000_0040

  const FOUR_ORDER: seq<Ref32> := [Ref32(65), Ref32(149), Ref32(189), Ref32(101)]

  lemma OneElem(word: bv32)
    ensures Elems([Ref32(word)]) == {Ref32(word)}
  {
  }

  lemma FourVisitedRight(seen: set<Ref32>)
    requires seen == {Ref32(65), Ref32(149)}
    ensures Visit(Four(), Raw(189), seen) == [Ref32(189), Ref32(101)]
  {
    VisitArray(Four(), 189, [Raw(101)], seen);
    VisitOne(Four(), Raw(101), seen + {Ref32(189)});
    VisitArray(Four(), 101, [Raw(65)], seen + {Ref32(189)});
    VisitOne(Four(), Raw(65), seen + {Ref32(189)} + {Ref32(101)});
    VisitSeen(Four(), 65, seen + {Ref32(189)} + {Ref32(101)});
  }

  lemma FourVisited()
    ensures Visit(Four(), Raw(65), {}) == FOUR_ORDER
  {
    var none: set<Ref32> := {};
    var seen := none + {Ref32(65)};
    VisitArray(Four(), 65, [Raw(149), Raw(189)], none);
    VisitTwo(Four(), Raw(149), Raw(189), seen);
    VisitArray(Four(), 149, [], seen);
    assert Visit(Four(), Raw(149), seen) == [Ref32(149)];
    OneElem(149);
    FourVisitedRight(seen + Elems([Ref32(149)]));
  }

  lemma FourRooms()
    ensures Room(Four(), Ref32(65)) == 36 && Room(Four(), Ref32(149)) == 20 && Room(Four(), Ref32(189)) == 28
  {
    ArrayRoom(Four(), Ref32(65), [Raw(149), Raw(189)]);
    ArrayRoom(Four(), Ref32(149), []);
    ArrayRoom(Four(), Ref32(189), [Raw(101)]);
  }

  function FourPlaces(): RefMap {
    map[Ref32(65) := 0x1_0000_0041, Ref32(149) := 0x1_0000_0065, Ref32(189) := 0x1_0000_0079, Ref32(101) := 0x1_0000_0095]
  }

  lemma FourPlaced()
    ensures NewPlaces(Four(), Raw(65), FOUR_AT) == FourPlaces()
  {
    FourVisited();
    FourRooms();
    assert ExtentTo(Four(), FOUR_ORDER, 0) == 0;
    assert ExtentTo(Four(), FOUR_ORDER, 1) == 36;
    assert ExtentTo(Four(), FOUR_ORDER, 2) == 56;
    assert ExtentTo(Four(), FOUR_ORDER, 3) == 84;
    assert IndexOf(FOUR_ORDER, Ref32(65)) == 0 && IndexOf(FOUR_ORDER, Ref32(149)) == 1;
    assert IndexOf(FOUR_ORDER, Ref32(189)) == 2 && IndexOf(FOUR_ORDER, Ref32(101)) == 3;
  }

  /** The root looks like itself, the empty array like the last one and the last one like the empty array. */
  lemma FourKeys(f: RefMap)
    requires f == FourPlaces()
    ensures IsKey(f, 0x1_0000_0041) && f[Truncate(0x1_0000_0041)] == 0x1_0000_0041
    ensures IsKey(f, 0x1_0000_0065) && f[Truncate(0x1_0000_0065)] == 0x1_0000_0095 && Truncate(0x1_0000_0065) != Ref32(149)
    ensures IsKey(f, 0x1_0000_0095) && f[Truncate(0x1_0000_0095)] == 0x1_0000_0065
    ensures !IsKey(f, 0x1_0000_0079)
  {
    LowBits(0x1_0000_0041, 65);
    LowBits(0x1_0000_0065, 101);
    LowBits(0x1_0000_0095, 149);
    LowBits(0x1_0000_0079, 121);
  }

  ghost predicate HoldsFour(f: RefMap, m: map<int, DstObject>, first: Ref) {
    && HoldsArray(f, m, FOUR_AT, [first, 0x1_0000_0079]) && HoldsArray(f, m, 0x1_0000_0064, [])
    && HoldsArray(f, m, 0x1_0000_0094, [0x1_0000_0041])
  }

  /** The root met again: its first element is redirected back. */
  lemma FourBack(f: RefMap, m: map<int, DstObject>, depth: nat)
    requires f == FourPlaces() && HoldsFour(f, m, 0x1_0000_0095) && depth > 0
    ensures UpdateFields(f, m, FOUR_AT, 0, 3, depth)
         == Outcome(m[FOUR_AT := SetField(m[FOUR_AT], 1, 0x1_0000_0065)], true, true)
  {
    FourKeys(f);
    var m' := m[FOUR_AT := SetField(m[FOUR_AT], 1, 0x1_0000_0065)];
    assert HoldsFour(f, m', 0x1_0000_0065);
    Enters(f, m, FOUR_AT, 1, 0x1_0000_0065, depth);
    Stays(f, m', 0x1_0000_0064, 0, depth - 1);
    NextField(f, m', 0x1_0000_0064, 0, 1, depth - 1);
    assert UpdateField(f, m, FOUR_AT, 1, depth) == Outcome(m', true, true);
    Stays(f, m', FOUR_AT, 2, depth);
    NextField(f, m', FOUR_AT, 2, 1, depth);
    NextField(f, m, FOUR_AT, 1, 2, depth);
    Stays(f, m, FOUR_AT, 0, depth);
    NextField(f, m, FOUR_AT, 0, 3, depth);
  }

  /** The last array is met in place of the empty one; it leads to the root again. */
  lemma FourOn(f: RefMap, m: map<int, DstObject>, depth: nat)
    requires f == FourPlaces() && HoldsFour(f, m, 0x1_0000_0095) && depth > 1
    ensures UpdateFields(f, m, 0x1_0000_0094, 0, 2, depth)
         == Outcome(m[FOUR_AT := SetField(m[FOUR_AT], 1, 0x1_0000_0065)], true, true)
  {
    FourKeys(f);
    FourBack(f, m, depth - 1);
    Enters(f, m, 0x1_0000_0094, 1, 0x1_0000_0041, depth);
    SetSame(m, 0x1_0000_0094, 1);
    Stays(f, m, 0x1_0000_0094, 0, depth);
    NextField(f, m, 0x1_0000_0094, 1, 1, depth);
    NextField(f, m, 0x1_0000_0094, 0, 2, depth);
  }

  lemma SetBack(m: map<int, DstObject>, a: int, k: nat, ref: Ref)
    requires a in m && k < Fields(m[a])
    ensures var m' := m[a := SetField(m[a], k, ref)]; m'[a := SetField(m'[a], k, Field(m[a], k))] == m
  {
    var m' := m[a := SetField(m[a], k, ref)];
    var back := SetField(m'[a], k, Field(m[a], k));
    assert back.slots == m[a].slots;
    assert m'[a := back] == m;
  }

  lemma FourPatched(f: RefMap, m: map<int, DstObject>, depth: nat)
    requires f == FourPlaces() && HoldsFour(f, m, 0x1_0000_0065) && depth > 2
    ensures UpdateField(f, m, FOUR_AT, 1, depth) == Outcome(m, true, true)
  {
    FourKeys(f);
    var m' := m[FOUR_AT := SetField(m[FOUR_AT], 1, 0x1_0000_0095)];
    assert HoldsFour(f, m', 0x1_0000_0095);
    Enters(f, m, FOUR_AT, 1, 0x1_0000_0095, depth);
    FourOn(f, m', depth - 1);
    SetBack(m, FOUR_AT, 1, 0x1_0000_0095);
  }

  lemma FourNotAlone(f: RefMap, depth: nat)
    requires f == FourPlaces()
    ensures !LeftAlone(Four(), f, Raw(149), depth)
  {
    RawBack(149);
    FourKeys(f);
  }

  lemma FourHeld(f: RefMap, m: map<int, DstObject>)
    requires f == FourPlaces() && AllCopied(Four(), f, m)
    ensures HoldsFour(f, m, 0x1_0000_0065)
  {
    RawBack(65);
    RawBack(149);
    RawBack(189);
    ArrayCopied(Four(), f, m, Ref32(65), [Raw(149), Raw(189)]);
    ArrayCopied(Four(), f, m, Ref32(149), []);
    ArrayCopied(Four(), f, m, Ref32(101), [Raw(65)]);
  }

  /** References can come back: here the pass redirects one and redirects it back, and leaves the memory as
      it was although it does not leave it alone. */
  lemma RedirectedBack(m: map<int, DstObject>, depth: nat)
    requires AllCopied(Four(), NewPlaces(Four(), Raw(65), FOUR_AT), m) && depth > 2
    ensures var f := NewPlaces(Four(), Raw(65), FOUR_AT);
            UpdateField(f, m, FOUR_AT, 1, depth) == Outcome(m, true, true) && !LeftAlone(Four(), f, Raw(149), depth)
  {
    var f := NewPlaces(Four(), Raw(65), FOUR_AT);
    FourPlaced();
    FourHeld(f, m);
    FourPatched(f, m, depth);
    FourNotAlone(f, depth);
  }

  // ---------- a class that is neither kSymbolClass nor a pointer ----------

  /** An array of one binary object whose class is the integer 0: the converter reads through a pointer that
      nothing has set, and what becomes of the object's bytes depends on where it points. */
  lemma ClassUnread()
    ensures var part := map[Ref32(33) := ArrayOf([Raw(49)]), Ref32(49) := SrcObject(14, 0, Raw(0), [], [1, 2])];
            && Closed(part) && IsRoot(part, Raw(33)) && !WellFormed(part)
            && !SameWith(part, part[Ref32(49)], StringSymbol(), NO_SYMBOL)
  {
    var binary := SrcObject(14, 0, Raw(0), [], [1, 2]);
    var part := map[Ref32(33) := ArrayOf([Raw(49)]), Ref32(49) := binary];
    RawBack(0);
    RawBack(2);
    RawBack(33);
    RawBack(49);
    ArrayFormed([Raw(49)]);
    assert ClosedObject(part, ArrayOf([Raw(49)]));
    assert binary.Targets() == [Raw(0)] && ClosedObject(part, binary);
    UnknownDiffers(part, binary);
    assert !Convertible(part, part[Ref32(49)]);
  }
}
