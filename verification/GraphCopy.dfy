/** What the copy of a part of big-endian 32-bit objects in one block of 64-bit objects should be: an
    isomorphic graph, laid out object behind object. */
module GraphCopy {
  import opened Memory
  import opened Refs
  import opened ObjectGraph
  import opened Payload

  /** One 64-bit object in the block. */
  datatype DstObject = DstObject(size: nat, flags: bv8, gc: Ref, objClass: Ref, slots: seq<Ref>, data: seq<Byte>)

  type RefMap = map<Ref32, Ref>

  ghost predicate Convertible(part: Part, obj: SrcObject) {
    !obj.Slotted() ==> PayloadReadable(part, obj)
  }

  ghost predicate WellFormed(part: Part) {
    Closed(part) && forall r {:trigger Convertible(part, part[r])} :: r in part ==> Convertible(part, part[r])
  }

  // ---------- what the copy should be ----------

  ghost predicate Forwarded(forwarding: RefMap, raw: Ref32) {
    IsRealPtr(Swap32(raw)) ==> Swap32(raw) in forwarding
  }

  /** A reference in the new graph: the forwarding pointer, or the immediate itself. */
  ghost function Translate(forwarding: RefMap, raw: Ref32): Ref
    requires Forwarded(forwarding, raw)
  {
    if IsRealPtr(Swap32(raw)) then forwarding[Swap32(raw)] else Extend(Swap32(raw))
  }

  lemma TranslateMonotone(f: RefMap, f': RefMap, raw: Ref32)
    requires Forwarded(f, raw) && forall x :: x in f ==> x in f' && f'[x] == f[x]
    ensures Forwarded(f', raw) && Translate(f', raw) == Translate(f, raw)
  {
  }

  /** slots are the translations of as many of raws. */
  ghost predicate Translated(forwarding: RefMap, raws: seq<Ref32>, slots: seq<Ref>) {
    |slots| <= |raws| && forall k :: 0 <= k < |slots| ==> Forwarded(forwarding, raws[k]) && slots[k] == Translate(forwarding, raws[k])
  }

  lemma TranslatedStep(f: RefMap, f': RefMap, raws: seq<Ref32>, slots: seq<Ref>, slot: Ref)
    requires Translated(f, raws, slots) && |slots| < |raws|
    requires forall x :: x in f ==> x in f' && f'[x] == f[x]
    requires Forwarded(f', raws[|slots|]) && slot == Translate(f', raws[|slots|])
    ensures Translated(f', raws, slots + [slot])
  {
    forall k | 0 <= k < |slots| ensures Forwarded(f', raws[k]) && slots[k] == Translate(f', raws[k]) {
      TranslateMonotone(f, f', raws[k]);
    }
  }

  /** What is written when an object is allocated: its size, which has a 24-bit field, and its flags. */
  function Header(obj: SrcObject): DstObject
    requires obj.Valid()
  {
    DstObject(obj.NewSize() % 0x100_0000, K_OBJ_READ_ONLY | (obj.flags & K_OBJ_MASK), 0, 0, [], [])
  }

  ghost function Image(part: Part, forwarding: RefMap, obj: SrcObject): DstObject
    requires obj.Valid() && Convertible(part, obj)
    requires forall raw :: raw in obj.Targets() ==> Forwarded(forwarding, raw)
  {
    assert obj.Targets()[0] in obj.Targets();
    Header(obj).(
      objClass := Translate(forwarding, obj.Targets()[0]),
      slots :=
        if obj.Slotted() then
          seq(|obj.slots|, i requires 0 <= i < |obj.slots| =>
            assert obj.Targets()[i + 1] in obj.Targets(); Translate(forwarding, obj.slots[i]))
        else [],
      data := if obj.Slotted() then [] else NewPayload(part, obj))
  }

  /** The image of a slotted object, field by field. */
  lemma ImageOfSlotted(part: Part, forwarding: RefMap, obj: SrcObject, newClass: Ref, newSlots: seq<Ref>)
    requires obj.Valid() && obj.Slotted() && |newSlots| == |obj.slots|
    requires Forwarded(forwarding, obj.objClass) && newClass == Translate(forwarding, obj.objClass)
    requires Translated(forwarding, obj.slots, newSlots)
    ensures forall raw :: raw in obj.Targets() ==> Forwarded(forwarding, raw)
    ensures Image(part, forwarding, obj) == Header(obj).(objClass := newClass, slots := newSlots)
  {
    forall raw | raw in obj.Targets() ensures Forwarded(forwarding, raw) {
      var i :| 0 <= i < |obj.Targets()| && obj.Targets()[i] == raw;
      assert i > 0 ==> raw == obj.slots[i - 1];
    }
    assert Image(part, forwarding, obj).slots == newSlots;
  }

  lemma ImageOfBinary(part: Part, forwarding: RefMap, obj: SrcObject, newClass: Ref)
    requires obj.Valid() && !obj.Slotted() && Convertible(part, obj)
    requires Forwarded(forwarding, obj.objClass) && newClass == Translate(forwarding, obj.objClass)
    ensures forall raw :: raw in obj.Targets() ==> Forwarded(forwarding, raw)
    ensures Image(part, forwarding, obj) == Header(obj).(objClass := newClass, data := NewPayload(part, obj))
  {
    assert obj.Targets() == [obj.objClass];
  }

  /** r has been copied, completely, to where it is forwarded. */
  ghost predicate Copied(part: Part, forwarding: RefMap, memory: map<int, DstObject>, r: Ref32)
  {
    && r in part && r in forwarding && part[r].Valid() && Convertible(part, part[r])
    && (forall raw :: raw in part[r].Targets() ==> Forwarded(forwarding, raw))
    && Address(forwarding[r]) in memory
    && memory[Address(forwarding[r])] == Image(part, forwarding, part[r])
  }

  /** Growing the forwarding map and the memory never spoils a finished copy. */
  lemma CopiedMonotone(part: Part, f: RefMap, f': RefMap, m: map<int, DstObject>, m': map<int, DstObject>, r: Ref32)
    requires Copied(part, f, m, r)
    requires forall x :: x in f ==> x in f' && f'[x] == f[x]
    requires Address(f[r]) in m' && m'[Address(f[r])] == m[Address(f[r])]
    ensures Copied(part, f', m', r)
  {
    var o := part[r];
    forall raw | raw in o.Targets() ensures Forwarded(f', raw) && Translate(f', raw) == Translate(f, raw) {
      assert Forwarded(f, raw);
    }
    if o.Slotted() {
      forall i | 0 <= i < |o.slots| ensures Image(part, f', o).slots[i] == Image(part, f, o).slots[i] {
        assert o.Targets()[i + 1] in o.Targets();
      }
      assert Image(part, f', o).slots == Image(part, f, o).slots;
    }
    assert o.Targets()[0] in o.Targets();
  }

  /** The objects in order lie one behind the other from start on. */
  ghost predicate LaidOut(part: Part, order: seq<Ref32>, start: int, forwarding: RefMap) {
    forall i {:trigger ExtentTo(part, order, i)} :: 0 <= i < |order| ==>
      order[i] in forwarding && forwarding[order[i]] == MakePtr(start + ExtentTo(part, order, i))
  }

  /** The addresses a copy occupies. */
  ghost predicate InRegion(part: Part, forwarding: RefMap, r: Ref32, a: int) {
    r in forwarding && Address(forwarding[r]) <= a < Address(forwarding[r]) + Room(part, r)
  }

  /** Later in the order means in a later region, and no region passes the end. */
  lemma LayoutAscends(part: Part, order: seq<Ref32>, start: int, forwarding: RefMap, i: nat)
    requires LaidOut(part, order, start, forwarding) && i < |order|
    ensures order[i] in forwarding && start <= Address(forwarding[order[i]])
    ensures Address(forwarding[order[i]]) + Room(part, order[i]) <= start + Extent(part, order)
    ensures Address(forwarding[order[i]]) % 4 == start % 4
    ensures forall j :: i < j < |order| ==>
              order[j] in forwarding && Address(forwarding[order[i]]) + Room(part, order[i]) <= Address(forwarding[order[j]])
  {
    assert ExtentTo(part, order, i + 1) == ExtentTo(part, order, i) + Room(part, order[i]);
    ExtentMonotone(part, order, i + 1, |order|);
    ExtentAligned(part, order, i);
    forall j | i < j < |order|
      ensures order[j] in forwarding && Address(forwarding[order[i]]) + Room(part, order[i]) <= Address(forwarding[order[j]])
    {
      ExtentMonotone(part, order, i + 1, j);
    }
  }

  /** A layout keeps every region inside the block and no two of them meet. */
  lemma LayoutSeparates(part: Part, order: seq<Ref32>, start: int, forwarding: RefMap)
    requires LaidOut(part, order, start, forwarding)
    ensures forall r, a :: r in order && InRegion(part, forwarding, r, a) ==> start <= a < start + Extent(part, order)
    ensures forall r, s, a :: r in order && s in order && InRegion(part, forwarding, r, a) && InRegion(part, forwarding, s, a) ==> r == s
  {
    forall r, a | r in order && InRegion(part, forwarding, r, a) ensures start <= a < start + Extent(part, order) {
      var i :| 0 <= i < |order| && order[i] == r;
      LayoutAscends(part, order, start, forwarding, i);
    }
    forall r, s, a | r in order && s in order && InRegion(part, forwarding, r, a) && InRegion(part, forwarding, s, a)
      ensures r == s
    {
      var i :| 0 <= i < |order| && order[i] == r;
      var j :| 0 <= j < |order| && order[j] == s;
      LayoutAscends(part, order, start, forwarding, i);
      LayoutAscends(part, order, start, forwarding, j);
    }
  }

  /** The state of the copying pass.  order lists what has been forwarded, in the order it was
      met; the objects in gray are those whose class and slots are still being followed. */
  datatype Progress = Progress(order: seq<Ref32>, start: int, bump: int, forwarding: RefMap, memory: map<int, DstObject>) {
    ghost predicate Valid(part: Part, gray: set<Ref32>) {
      && forwarding.Keys == Elems(order) <= part.Keys
      && LaidOut(part, order, start, forwarding)
      && bump == start + Extent(part, order)
      && forall r {:trigger Copied(part, forwarding, memory, r)} :: r in order && r !in gray ==> Copied(part, forwarding, memory, r)
    }

    /** An object is forwarded to where the bump pointer stands, and becomes gray. */
    function Allocate(part: Part, r: Ref32, obj: DstObject): Progress {
      Progress(order + [r], start, bump + Room(part, r), forwarding[r := MakePtr(bump)], memory[bump := obj])
    }
  }

  lemma LaidOutSnoc(part: Part, order: seq<Ref32>, start: int, f: RefMap, r: Ref32)
    requires LaidOut(part, order, start, f) && r !in order
    ensures Extent(part, order + [r]) == Extent(part, order) + Room(part, r)
    ensures LaidOut(part, order + [r], start, f[r := MakePtr(start + Extent(part, order))])
  {
    var f' := f[r := MakePtr(start + Extent(part, order))];
    ExtentAppend(part, order, [r]);
    assert Extent(part, [r]) == ExtentTo(part, [r], 0) + Room(part, r);
    forall i | 0 <= i < |order + [r]|
      ensures (order + [r])[i] in f' && f'[(order + [r])[i]] == MakePtr(start + ExtentTo(part, order + [r], i))
    {
      ExtentToAppend(part, order, [r], i);
      if i < |order| { assert order[i] in f && f[order[i]] == MakePtr(start + ExtentTo(part, order, i)); }
    }
  }

  lemma AllocateValid(part: Part, p: Progress, r: Ref32, obj: DstObject, gray: set<Ref32>)
    requires p.Valid(part, gray) && r in part && r !in p.forwarding
    requires forall x :: x in p.order ==> 0 < Room(part, x)
    ensures p.Allocate(part, r, obj).Valid(part, gray + {r})
  {
    var q := p.Allocate(part, r, obj);
    ElemsAppend(p.order, [r]);
    assert Elems([r]) == {r};
    assert r in p.order ==> r in Elems(p.order);
    LaidOutSnoc(part, p.order, p.start, p.forwarding, r);
    forall x | x in q.order && x !in gray + {r} ensures Copied(part, q.forwarding, q.memory, x) {
      var i :| 0 <= i < |p.order| && p.order[i] == x;
      LayoutAscends(part, p.order, p.start, p.forwarding, i);
      CopiedMonotone(part, p.forwarding, q.forwarding, p.memory, q.memory, x);
    }
  }

  /** Writing the finished object over its place makes it black and disturbs no other copy. */
  lemma FinishValid(part: Part, p: Progress, r: Ref32, gray: set<Ref32>)
    requires p.Valid(part, gray + {r}) && r in p.forwarding && r in part
    requires part[r].Valid() && Convertible(part, part[r])
    requires forall raw :: raw in part[r].Targets() ==> Forwarded(p.forwarding, raw)
    requires forall x :: x in p.order ==> 0 < Room(part, x)
    ensures p.(memory := p.memory[Address(p.forwarding[r]) := Image(part, p.forwarding, part[r])]).Valid(part, gray)
  {
    var q := p.(memory := p.memory[Address(p.forwarding[r]) := Image(part, p.forwarding, part[r])]);
    assert r in Elems(p.order);
    forall x | x in p.order && x !in gray ensures Copied(part, q.forwarding, q.memory, x) {
      if x != r {
        PlacesDiffer(part, p, gray + {r}, r, x);
        CopiedMonotone(part, p.forwarding, q.forwarding, p.memory, q.memory, x);
      }
    }
  }

  /** No two objects are forwarded to one place. */
  lemma PlacesDiffer(part: Part, p: Progress, gray: set<Ref32>, r: Ref32, s: Ref32)
    requires p.Valid(part, gray) && r in p.order && s in p.order && r != s
    requires 0 < Room(part, r) && 0 < Room(part, s)
    ensures r in p.forwarding && s in p.forwarding && p.forwarding[r] != p.forwarding[s]
  {
    var i :| 0 <= i < |p.order| && p.order[i] == r;
    var j :| 0 <= j < |p.order| && p.order[j] == s;
    LayoutAscends(part, p.order, p.start, p.forwarding, i);
    LayoutAscends(part, p.order, p.start, p.forwarding, j);
  }

  lemma RoomPositive(part: Part, order: seq<Ref32>)
    requires Closed(part) && Elems(order) <= part.Keys
    ensures forall x :: x in order ==> 0 < Room(part, x)
  {
    forall x | x in order ensures 0 < Room(part, x) {
      assert x in Elems(order) && ClosedObject(part, part[x]);
      LongAlignRounds(part[x].NewSize());
    }
  }

  ghost predicate IsRoot(part: Part, rootRef: Ref32) {
    IsRealPtr(Swap32(rootRef)) && Swap32(rootRef) in part && part[Swap32(rootRef)].Slotted() && part[Swap32(rootRef)].slots != []
  }

  ghost predicate SamePlace(forwarding: RefMap, r: Ref32, s: Ref32) {
    r in forwarding && s in forwarding && forwarding[r] == forwarding[s]
  }

  /** forwarding is an isomorphism from what root reaches onto the copies: one copy for every
      reachable object and for no other, and every copy refers to the copies of what its original
      refers to, with the same flags and rearranged bytes. */
  ghost predicate IsGraphCopy(part: Part, root: Ref32, forwarding: RefMap, memory: map<int, DstObject>) {
    && (forall r {:trigger Reaches(part, root, r)} :: r in forwarding <==> Reaches(part, root, r))
    && (forall r, s :: SamePlace(forwarding, r, s) ==> r == s)
    && forall r {:trigger Copied(part, forwarding, memory, r)} :: r in forwarding ==> Copied(part, forwarding, memory, r)
  }

  /** Every copy is an aligned pointer to a region of the block, and no two regions meet. */
  ghost predicate FillsBlock(part: Part, forwarding: RefMap, newRoot: int, size: nat) {
    && (forall r {:trigger IsRealPtr64(forwarding[r])} :: r in forwarding ==> IsRealPtr64(forwarding[r]))
    && (forall r, a :: InRegion(part, forwarding, r, a) ==> newRoot <= a < newRoot + size)
    && forall r, s, a :: InRegion(part, forwarding, r, a) && InRegion(part, forwarding, s, a) ==> r == s
  }

  lemma GraphCopied(part: Part, rootRef: Ref32, p: Progress)
    requires WellFormed(part) && IsRealPtr(Swap32(rootRef)) && Swap32(rootRef) in part
    requires p.Valid(part, {}) && p.order == Visit(part, rootRef, {})
    ensures IsGraphCopy(part, Swap32(rootRef), p.forwarding, p.memory)
  {
    VisitMeetsExactlyReachable(part, rootRef);
    RoomPositive(part, p.order);
    forall r ensures r in p.forwarding <==> Reaches(part, Swap32(rootRef), r) {
      assert r in Elems(p.order) <==> r in p.order;
    }
    forall r, s | SamePlace(p.forwarding, r, s) ensures r == s {
      assert r in Elems(p.order) && s in Elems(p.order);
      if r != s { PlacesDiffer(part, p, {}, r, s); }
    }
    forall r | r in p.forwarding ensures Copied(part, p.forwarding, p.memory, r) {
      assert r in Elems(p.order);
    }
  }

  /** What conversion is for: the block at newRoot holds a copy of the graph below root, the root's
      own copy first, and nothing overlaps. */
  ghost predicate Converted(part: Part, root: Ref32, forwarding: RefMap, memory: map<int, DstObject>, newRoot: int, size: nat) {
    && IsGraphCopy(part, root, forwarding, memory)
    && FillsBlock(part, forwarding, newRoot, size)
    && root in forwarding && forwarding[root] == MakePtr(newRoot)
  }

  lemma ConversionDone(part: Part, rootRef: Ref32, p: Progress, size: nat)
    requires WellFormed(part) && IsRealPtr(Swap32(rootRef)) && Swap32(rootRef) in part
    requires p.Valid(part, {}) && p.order == Visit(part, rootRef, {}) && p.start % 4 == 0
    requires size == Extent(part, Visit(part, rootRef, {}))
    ensures Converted(part, Swap32(rootRef), p.forwarding, p.memory, p.start, size)
  {
    GraphCopied(part, rootRef, p);
    BlockFilled(part, rootRef, p, size);
  }

  lemma BlockFilled(part: Part, rootRef: Ref32, p: Progress, size: nat)
    requires WellFormed(part) && IsRealPtr(Swap32(rootRef)) && Swap32(rootRef) in part
    requires p.Valid(part, {}) && p.order == Visit(part, rootRef, {}) && p.start % 4 == 0
    requires p.bump == p.start + size
    ensures FillsBlock(part, p.forwarding, p.start, size)
    ensures Swap32(rootRef) in p.forwarding && p.forwarding[Swap32(rootRef)] == MakePtr(p.start)
  {
    forall r | r in p.forwarding ensures r in p.order && IsRealPtr64(p.forwarding[r]) {
      assert r in Elems(p.order);
      ForwardedAligned(part, p.order, p.start, p.forwarding, r);
    }
    LayoutSeparates(part, p.order, p.start, p.forwarding);
    assert p.order[0] == Swap32(rootRef);
    assert ExtentTo(part, p.order, 0) == 0;
  }

  lemma ForwardedAligned(part: Part, order: seq<Ref32>, start: int, forwarding: RefMap, r: Ref32)
    requires LaidOut(part, order, start, forwarding) && r in order && start % 4 == 0
    ensures r in forwarding && IsRealPtr64(forwarding[r])
  {
    var i :| 0 <= i < |order| && order[i] == r;
    LayoutAscends(part, order, start, forwarding, i);
  }

  function IndexOf(s: seq<Ref32>, x: Ref32): (i: nat)
    requires x in s
    ensures i < |s| && s[i] == x
  {
    if s[0] == x then 0 else IndexOf(s[1..], x) + 1
  }

  /** Where objects go that are laid out in order. */
  ghost function PlacesOf(part: Part, order: seq<Ref32>, start: int): RefMap {
    map r | r in order :: MakePtr(start + ExtentTo(part, order, IndexOf(order, r)))
  }

  /** Where the copies go, by the part alone: in the order of the walk, from newRoot on. */
  ghost function NewPlaces(part: Part, rootRef: Ref32, newRoot: int): RefMap {
    PlacesOf(part, Visit(part, rootRef, {}), newRoot)
  }

  lemma ForwardedToPlaces(part: Part, order: seq<Ref32>, start: int, f: RefMap)
    requires f.Keys == Elems(order) && LaidOut(part, order, start, f)
    ensures f == PlacesOf(part, order, start)
  {
    forall r ensures r in f <==> r in order {
      assert r in f.Keys <==> r in Elems(order);
    }
    forall r | r in order ensures f[r] == MakePtr(start + ExtentTo(part, order, IndexOf(order, r))) {
      var i := IndexOf(order, r);
      assert f[order[i]] == MakePtr(start + ExtentTo(part, order, i));
    }
  }
}
