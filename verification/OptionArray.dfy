/** The option array and the iterators that watch it.  Live iterators form a circular doubly linked
    list that hangs on the array; every edit of the array is told round the ring. */
module OptionArray {
  import opened Memory
  import opened Options

  type ULong = n: nat | n < 0x1_0000_0000

  /** kIndexNotFound as an unsigned index */
  const NOT_FOUND: ULong := 0xFFFF_FFFF

  /** An address inside the block, as an offset from its start. */
  datatype Pointer = Null | At(offset: nat)

  datatype Result = Ok | OutOfMemory

  /** ++ and -- on an unsigned index wrap around at kIndexNotFound. */
  function Up(i: ULong, index: nat): ULong {
    if i < index then i else if i == NOT_FOUND then 0 else i + 1
  }

  function Down(i: ULong, index: nat): ULong {
    if i < index then i else if i == 0 then NOT_FOUND else i - 1
  }

  /** ring, read as a circle from its first element. */
  ghost predicate Linked(ring: seq<COptionIterator>)
    reads ring`fNextLink, ring`fPreviousLink
  {
    && (forall i, j :: 0 <= i < j < |ring| ==> ring[i] != ring[j])
    && (forall i {:trigger ring[i].fNextLink} :: 0 <= i < |ring| - 1 ==> ring[i].fNextLink == ring[i + 1])
    && (forall i {:trigger ring[i].fPreviousLink} :: 0 < i < |ring| ==> ring[i].fPreviousLink == ring[i - 1])
    && (ring != [] ==> ring[|ring| - 1].fNextLink == ring[0] && ring[0].fPreviousLink == ring[|ring| - 1])
  }

  class COptionArray {
    var fCount: nat
    var fArrayBlock: seq<Byte>
    var fIterator: COptionIterator?
    /** The options the block encodes. */
    ghost var records: seq<seq<Byte>>
    /** The live iterators, from fIterator on along the next links. */
    ghost var ring: seq<COptionIterator>

    ghost predicate Valid()
      reads this, ring`fNextLink, ring`fPreviousLink, ring`fOptionArray
    {
      BlockValid() && RingValid()
    }

    ghost predicate BlockValid()
      reads `records, `fArrayBlock, `fCount
    {
      AreRecords(records) && fArrayBlock == Packed(records) && fCount == |records| < NOT_FOUND
    }

    ghost predicate RingValid()
      reads `fIterator, `ring, ring`fNextLink, ring`fPreviousLink, ring`fOptionArray
    {
      && (fIterator == null <==> ring == [])
      && (ring != [] ==> fIterator == ring[0])
      && Linked(ring)
      && forall it :: it in ring ==> it.fOptionArray == this
    }

    /** An index is an option's, or says that there is none. */
    ghost predicate CanWalk(index: ULong)
      reads `records
    {
      index == NOT_FOUND || index < |records|
    }

    /** The iterator's option pointer points at the option its index names. */
    ghost predicate Aimed(it: COptionIterator)
      reads `records, it`fCurrentIndex, it`fCurrentOption
    {
      it.fCurrentIndex != NOT_FOUND ==>
        it.fCurrentIndex < |records| && it.fCurrentOption == At(Offset(records, it.fCurrentIndex))
    }

    /** The pointer is on the p-th option. */
    ghost predicate PointsAt(it: COptionIterator, p: nat)
      reads `records, `fArrayBlock, `fCount, it`fCurrentOption
    {
      BlockValid() && p < |records| && it.fCurrentOption == At(Offset(records, p))
    }

    constructor ()
      ensures Valid() && records == [] && ring == []
    {
      fCount, fArrayBlock, fIterator := 0, [], null;
      records, ring := [], [];
    }

    /** The walk over the records in front of an option.  The block may have been enlarged already. */
    method OptionAt(index: nat) returns (option: nat)
      requires AreRecords(records) && Packed(records) <= fArrayBlock && index <= |records|
      ensures option == Offset(records, index) <= |Packed(records)| && option % 4 == 0
      ensures index < |records| ==> Laid(fArrayBlock, option, records[index])
    {
      OffsetAligned(records, index);
      if index < |records| {
        RecordLaid(records, index);
        LaidInLonger(Packed(records), fArrayBlock, Offset(records, index), records[index]);
      }
      option := 0;
      for i := 0 to index
        invariant option == Offset(records, i) <= |Packed(records)|
      {
        SizeAt(records, i);
        assert fArrayBlock[option..][..HEADER] == Packed(records)[option..][..HEADER];
        SizeFromHeader(fArrayBlock[option..], Packed(records)[option..]);
        option := option + RecordSize(fArrayBlock[option..]);
      }
    }

    /** Insert an option, or append it when the index is past the end.  inOption is the memory the
        option is copied from; granted says whether the block could be enlarged. */
    method InsertOptionAt(index: nat, inOption: seq<Byte>, granted: bool) returns (err: Result)
      requires Valid() && fCount + 1 < NOT_FOUND
      requires HEADER <= |inOption| && RecordSize(inOption) <= |inOption|
      requires forall j :: 0 <= j < |ring| ==> CanWalk(ring[j].fCurrentIndex)
      modifies this`fCount, this`fArrayBlock, this`records
      modifies ring`fLowBound, ring`fHighBound, ring`fCurrentIndex, ring`fCurrentOption
      ensures Valid() && ring == old(ring) && fIterator == old(fIterator)
      ensures forall j :: 0 <= j < |ring| ==> CanWalk(ring[j].fCurrentIndex)
      ensures !granted ==> err == OutOfMemory && records == old(records) && forall j :: 0 <= j < |ring| ==> old(ring[j]).Stayed()
      ensures granted ==>
        var at := if index > |old(records)| then |old(records)| else index;
        && err == Ok
        && records == Inserted(old(records), at, inOption[..RecordSize(inOption)])
        && Padded(records[at], Announced(inOption)) && |fArrayBlock| == |old(fArrayBlock)| + |records[at]|
        && forall j :: 0 <= j < |ring| ==> ring[j].Shifted(Up, at)
      ensures granted ==> forall j :: 0 <= j < |ring| && old(ring[j].fCurrentIndex) != NOT_FOUND ==> ring[j].SameOption()
      ensures AllLaid(fArrayBlock, records)
    {
      PackedLaid(records);
      if !granted {
        return OutOfMemory;
      }
      var at := index;
      if at > fCount {
        at := fCount;
      }
      InsertAndTell(at, inOption);
      err := Ok;
    }

    ghost function Indices(): (s: seq<ULong>)
      reads this, ring
      ensures |s| == |ring| && forall j :: 0 <= j < |ring| ==> s[j] == ring[j].fCurrentIndex
    {
      seq(|ring|, j requires 0 <= j < |ring| reads this, ring => ring[j].fCurrentIndex)
    }

    method InsertAndTell(at: nat, inOption: seq<Byte>)
      requires Valid() && at <= fCount && fCount + 1 < NOT_FOUND
      requires HEADER <= |inOption| && RecordSize(inOption) <= |inOption|
      requires forall j :: 0 <= j < |ring| ==> CanWalk(ring[j].fCurrentIndex)
      modifies this`fCount, this`fArrayBlock, this`records
      modifies ring`fLowBound, ring`fHighBound, ring`fCurrentIndex, ring`fCurrentOption
      ensures Valid() && records == Inserted(old(records), at, inOption[..RecordSize(inOption)])
      ensures Padded(records[at], Announced(inOption)) && |fArrayBlock| == |old(fArrayBlock)| + |records[at]|
      ensures forall j :: 0 <= j < |ring| ==> ring[j].Shifted(Up, at)
      ensures forall j :: 0 <= j < |ring| && old(ring[j].fCurrentIndex) != NOT_FOUND ==> ring[j].SameOption()
      ensures AllLaid(fArrayBlock, records)
    {
      ghost var indices := Indices();
      InsertRecord(at, inOption);
      TellInserted(at);
      AllKept(old(records), at, inOption[..RecordSize(inOption)], indices);
    }

    method InsertRecord(at: nat, inOption: seq<Byte>)
      requires BlockValid() && at <= fCount && fCount + 1 < NOT_FOUND
      requires HEADER <= |inOption| && RecordSize(inOption) <= |inOption|
      modifies this`fCount, this`fArrayBlock, this`records
      ensures BlockValid() && records == Inserted(old(records), at, inOption[..RecordSize(inOption)])
      ensures Padded(records[at], Announced(inOption)) && |fArrayBlock| == |old(fArrayBlock)| + |records[at]|
      ensures AllLaid(fArrayBlock, records)
    {
      InsertedIsPadded(records, at, inOption);
      InsertBytes(at, inOption);
      PackedLaid(records);
    }

    /** The part of insertOptionAt that edits the block: enlarge it, move what follows up, copy the
        option in. */
    method InsertBytes(at: nat, inOption: seq<Byte>)
      requires BlockValid() && at <= fCount && fCount + 1 < NOT_FOUND
      requires HEADER <= |inOption| && RecordSize(inOption) <= |inOption|
      modifies this`fCount, this`fArrayBlock, this`records
      ensures BlockValid() && records == Inserted(old(records), at, inOption[..RecordSize(inOption)])
    {
      var optionSize := RecordSize(inOption);
      var arrayBlockSize := |fArrayBlock|;
      var r := inOption[..optionSize];
      SizeFromHeader(inOption, r);
      GapFilled(records, at, r, fArrayBlock, Offset(records, at));
      ghost var larger := Resized(fArrayBlock, arrayBlockSize + optionSize, 0);
      fArrayBlock := Resized(fArrayBlock, arrayBlockSize + optionSize, 0);
      var insertionPtr;
      if at < fCount {
        insertionPtr := OptionAt(at);
        assert fArrayBlock == larger;
        assert Blit(Blit(larger, insertionPtr + optionSize, larger[insertionPtr..arrayBlockSize]), insertionPtr, r)
            == Packed(Inserted(records, at, r));
        fArrayBlock := Blit(fArrayBlock, insertionPtr + optionSize, fArrayBlock[insertionPtr..arrayBlockSize]);
      } else {
        insertionPtr := arrayBlockSize;
      }
      fArrayBlock := Blit(fArrayBlock, insertionPtr, r);
      fCount := fCount + 1;
      records := Inserted(records, at, r);
    }

    /** Tell the live iterators of an edit. */
    method TellInserted(index: nat)
      requires Valid()
      requires forall j :: 0 <= j < |ring| ==> CanWalk(Up(ring[j].fCurrentIndex, index))
      modifies ring`fLowBound, ring`fHighBound, ring`fCurrentIndex, ring`fCurrentOption
      ensures Valid()
      ensures forall j :: 0 <= j < |ring| ==> ring[j].Shifted(Up, index)
    {
      if fIterator != null {
        assert fIterator == ring[0] && fIterator.fOptionArray == this;
        fIterator.InsertOptionAt(index, 0);
        assert Linked(ring) && RingValid();
      }
    }

    method TellRemoved(index: nat) returns (inside: bool, ghost bad: nat)
      requires Valid()
      modifies ring`fLowBound, ring`fHighBound, ring`fCurrentIndex, ring`fCurrentOption
      ensures Valid()
      ensures inside ==> forall j :: 0 <= j < |ring| ==> ring[j].Shifted(Down, index)
      ensures !inside ==> bad < |ring| && !CanWalk(Down(old(ring[bad].fCurrentIndex), index))
    {
      inside, bad := true, 0;
      if fIterator != null {
        inside, bad := fIterator.RemoveOptionAt(index, 0);
        assert Linked(ring) && RingValid();
      }
    }

    /** Remove an option; nothing happens to an empty array.  inside says whether every walk over the
        records ends inside the block: it does exactly when the index is an option's and every live
        iterator stands on an option, because the index of one that has run out wraps around. */
    method RemoveOptionAt(index: nat) returns (inside: bool)
      requires Valid() && forall j :: 0 <= j < |ring| ==> CanWalk(ring[j].fCurrentIndex)
      modifies this`fCount, this`fArrayBlock, this`records
      modifies ring`fLowBound, ring`fHighBound, ring`fCurrentIndex, ring`fCurrentOption
      ensures Valid() && ring == old(ring) && fIterator == old(fIterator)
      ensures inside <==>
        old(fCount) == 0 || (index < old(fCount) && forall j :: 0 <= j < |ring| ==> old(ring[j].fCurrentIndex) != NOT_FOUND)
      ensures old(fCount) == 0 ==> records == [] && forall j :: 0 <= j < |ring| ==> old(ring[j]).Stayed()
      ensures index < old(fCount) ==> records == Removed(old(records), index)
      ensures inside && old(fCount) != 0 ==>
        forall j :: 0 <= j < |ring| ==>
          ring[j].Shifted(Down, index) && (old(ring[j].fCurrentIndex) != index ==> ring[j].SameOption())
      ensures AllLaid(fArrayBlock, records)
    {
      PackedLaid(records);
      if fCount == 0 {
        return true;
      }
      if index >= fCount {
        return false;
      }
      ghost var indices, bad := Indices(), 0;
      inside, bad := RemoveAndTell(index);
      if inside {
        forall j | 0 <= j < |ring| ensures indices[j] != NOT_FOUND && (indices[j] != index ==> ring[j].SameOption()) {
          WalksOn(old(fCount), index, indices[j]);
          if indices[j] != index {
            OptionLeft(old(records), index, indices[j]);
          }
        }
      } else {
        WalksOn(old(fCount), index, indices[bad]);
      }
      PackedLaid(records);
    }

    method RemoveAndTell(index: nat) returns (inside: bool, ghost bad: nat)
      requires Valid() && index < fCount
      modifies this`fCount, this`fArrayBlock, this`records
      modifies ring`fLowBound, ring`fHighBound, ring`fCurrentIndex, ring`fCurrentOption
      ensures Valid() && records == Removed(old(records), index)
      ensures inside ==> forall j :: 0 <= j < |ring| ==> ring[j].Shifted(Down, index)
      ensures !inside ==> bad < |ring| && !CanWalk(Down(old(ring[bad].fCurrentIndex), index))
    {
      RemoveBytes(index);
      inside, bad := TellRemoved(index);
    }

    /** The part of removeOptionAt that edits the block: move what follows down, cut the end off. */
    method RemoveBytes(index: nat)
      requires BlockValid() && index < fCount
      modifies this`fCount, this`fArrayBlock, this`records
      ensures BlockValid() && records == Removed(old(records), index)
    {
      var thisOption := OptionAt(index);
      SizeAt(records, index);
      var thisOptionSize := RecordSize(fArrayBlock[thisOption..]);
      var nextOption := thisOption + thisOptionSize;
      var arrayBlockSize := |fArrayBlock|;
      RemovedAreRecords(records, index);
      PackedRemoved(records, index);
      ghost var r := Packed(Removed(records, index));
      if arrayBlockSize > nextOption {
        fArrayBlock := Blit(fArrayBlock, thisOption, fArrayBlock[nextOption..]);
      }
      assert fArrayBlock[..|r|] == r;
      fArrayBlock := Resized(fArrayBlock, arrayBlockSize - thisOptionSize, 0);
      fCount := fCount - 1;
      records := Removed(records, index);
    }

    /** The destructor: every live iterator forgets the array. */
    method Destroy()
      requires Valid()
      modifies this, ring
      ensures forall j :: 0 <= j < |old(ring)| ==> old(ring)[j].fOptionArray == null && old(ring)[j].fCurrentOption == Null
    {
      if fIterator != null {
        fIterator.DeleteArray(0);
      }
      fArrayBlock := [];
    }
  }

  lemma OffsetPositive(records: seq<seq<Byte>>, index: nat)
    requires AreRecords(records) && 0 < index <= |records|
    ensures 0 < Offset(records, index)
  {
    assert IsRecord(records[0]);
  }

  /** An index that has followed an edit names the option it named before. */
  lemma OptionKept<T>(s: seq<T>, at: nat, x: T, i: ULong)
    requires i < |s| < NOT_FOUND && at <= |s|
    ensures Up(i, at) <= |s| && Inserted(s, at, x)[Up(i, at)] == s[i]
  {
  }

  lemma AllKept<T>(s: seq<T>, at: nat, x: T, indices: seq<ULong>)
    requires |s| < NOT_FOUND && at <= |s| && forall j :: 0 <= j < |indices| ==> indices[j] == NOT_FOUND || indices[j] < |s|
    ensures forall j :: 0 <= j < |indices| && indices[j] != NOT_FOUND ==>
      Up(indices[j], at) <= |s| && Inserted(s, at, x)[Up(indices[j], at)] == s[indices[j]]
  {
    forall j | 0 <= j < |indices| && indices[j] != NOT_FOUND
      ensures Up(indices[j], at) <= |s| && Inserted(s, at, x)[Up(indices[j], at)] == s[indices[j]]
    {
      OptionKept(s, at, x, indices[j]);
    }
  }

  lemma OptionLeft<T>(s: seq<T>, at: nat, i: ULong)
    requires i < |s| < NOT_FOUND && at < |s| && i != at
    ensures Down(i, at) < |s| - 1 && Removed(s, at)[Down(i, at)] == s[i]
  {
  }

  /** After a removal a walk to the index stays inside exactly when there was an option at it. */
  lemma WalksOn(count: nat, at: nat, i: ULong)
    requires at < count < NOT_FOUND && (i == NOT_FOUND || i < count)
    ensures (Down(i, at) == NOT_FOUND || Down(i, at) < count - 1) <==> i != NOT_FOUND
  {
  }

  /** An iterator over all options still is one after an insertion exactly when that was inside, or
      into an empty array; after a removal exactly when that was not of the first, or of the only
      option. */
  lemma FullRangeKept(count: nat, at: nat)
    requires count < NOT_FOUND - 1
    ensures var low, high := if count == 0 then NOT_FOUND else 0, Down(count, 0);
            && (at <= count ==> (Up(low, at) == 0 && Up(high, at) == count <==> count == 0 || 0 < at < count))
            && (at < count ==> (Down(low, at) == (if count == 1 then NOT_FOUND else 0) && Down(high, at) == Down(count - 1, 0)
                                <==> count == 1 || 0 < at))
  {
  }

  /** Inserting an option moves the indices of iterators that stand on options. */
  method InsertAgain(a: COptionArray, index: nat, inOption: seq<Byte>)
    requires a.Valid() && a.fCount + 1 < NOT_FOUND && index <= a.fCount
    requires HEADER <= |inOption| && RecordSize(inOption) <= |inOption|
    requires forall j :: 0 <= j < |a.ring| ==> a.ring[j].fCurrentIndex < |a.records|
    modifies a, a.ring
    ensures a.Valid() && a.ring == old(a.ring) && index < a.fCount && Removed(a.records, index) == old(a.records)
    ensures forall j :: 0 <= j < |a.ring| ==>
              a.ring[j].fCurrentIndex == Up(old(a.ring[j].fCurrentIndex), index) < |a.records|
  {
    ghost var records := a.records;
    var err := a.InsertOptionAt(index, inOption, true);
    assert Removed(a.records, index) == records;
  }

  /** And removing it moves them back. */
  method RemoveAgain(a: COptionArray, index: nat)
    requires a.Valid() && index < a.fCount
    requires forall j :: 0 <= j < |a.ring| ==> a.ring[j].fCurrentIndex < |a.records|
    modifies a, a.ring
    ensures a.Valid() && a.ring == old(a.ring) && a.records == Removed(old(a.records), index)
    ensures forall j :: 0 <= j < |a.ring| ==>
              a.ring[j].fCurrentIndex == Down(old(a.ring[j].fCurrentIndex), index) && a.Aimed(a.ring[j])
  {
    var inside := a.RemoveOptionAt(index);
    assert inside;
  }

  /** An option put in and taken out again leaves the block and every iterator that stands on an
      option as they were. */
  method InsertThenRemove(a: COptionArray, index: nat, inOption: seq<Byte>)
    requires a.Valid() && a.fCount + 1 < NOT_FOUND && index <= a.fCount
    requires HEADER <= |inOption| && RecordSize(inOption) <= |inOption|
    requires forall j :: 0 <= j < |a.ring| ==> a.ring[j].fCurrentIndex < |a.records|
    modifies a, a.ring
    ensures a.Valid() && a.ring == old(a.ring) && a.records == old(a.records) && a.fArrayBlock == old(a.fArrayBlock)
    ensures forall j :: 0 <= j < |a.ring| ==> a.ring[j].fCurrentIndex == old(a.ring[j].fCurrentIndex) && a.Aimed(a.ring[j])
  {
    InsertAgain(a, index, inOption);
    RemoveAgain(a, index);
  }

  /** An iterator on the first option runs out when that is removed, and the next removal sends it out of
      the block. */
  method RemovedUnderfoot(a: COptionArray, it: COptionIterator) returns (inside: bool)
    requires a.Valid() && a.fCount >= 2 && it in a.ring && it.fCurrentIndex == 0
    requires forall j :: 0 <= j < |a.ring| ==> a.ring[j].fCurrentIndex < |a.records|
    modifies a, a.ring
    ensures !inside
  {
    ghost var j :| 0 <= j < |a.ring| && a.ring[j] == it;
    inside := a.RemoveOptionAt(0);
    assert inside && a.ring[j].Shifted(Down, 0);
    inside := a.RemoveOptionAt(0);
  }

  /** An iterator over the second option alone starts with its pointer on the first. */
  method PointsElsewhere(a: COptionArray) returns (it: COptionIterator)
    requires a.Valid() && a.fCount >= 2
    modifies a, a.ring
    ensures it.fCurrentIndex == 1 && it.fCurrentOption == At(0) && !a.Aimed(it)
  {
    it := new COptionIterator.Over(a, 1, 1);
  }

  /** An iterator over all options no longer is one when an option is put in front of them, or the first
      of several is removed. */
  method RangeLost(a: COptionArray, inOption: seq<Byte>, front: bool) returns (it: COptionIterator)
    requires a.Valid() && a.ring == [] && 2 <= a.fCount && a.fCount + 1 < NOT_FOUND
    requires HEADER <= |inOption| && RecordSize(inOption) <= |inOption|
    modifies a
    ensures it.fOptionArray == a && !it.FullRange()
  {
    it := new COptionIterator.On(a);
    assert a.ring == [it];
    FullRangeKept(a.fCount, 0);
    if front {
      var err := a.InsertOptionAt(0, inOption, true);
      assert a.ring[0] == it;
    } else {
      var inside := a.RemoveOptionAt(0);
      assert a.ring[0] == it;
    }
  }

  /** Resetting its bounds, it does again, and it starts where it should. */
  method RangeRegained(it: COptionIterator)
    requires it.fOptionArray != null && it.fOptionArray.BlockValid()
    modifies it`fLowBound, it`fHighBound, it`fCurrentIndex, it`fCurrentOption
    ensures it.FullRange() && it.fOptionArray.Aimed(it) && (it.More() <==> it.fOptionArray.fCount > 0)
  {
    it.ResetBounds();
    it.Reset();
  }

  /** The ring with a newcomer at its head, and with one iterator gone. */
  ghost function Joined(ring: seq<COptionIterator>, it: COptionIterator): seq<COptionIterator> {
    if ring == [] then [it] else [it] + ring[1..] + [ring[0]]
  }

  ghost function Left(ring: seq<COptionIterator>, k: nat): seq<COptionIterator>
    requires k < |ring|
  {
    ring[k + 1..] + ring[..k]
  }

  class COptionIterator {
    var fOptionArray: COptionArray?
    var fCurrentIndex: ULong
    var fLowBound: ULong
    var fHighBound: ULong
    var fCurrentOption: Pointer
    var fPreviousLink: COptionIterator
    var fNextLink: COptionIterator

    /** An iterator that belongs to no array. */
    constructor Detached()
      ensures fOptionArray == null && fPreviousLink == this && fNextLink == this
      ensures fCurrentIndex == fLowBound == fHighBound == NOT_FOUND && fCurrentOption == Null
    {
      fPreviousLink, fNextLink := this, this;
      fHighBound, fLowBound, fCurrentIndex := NOT_FOUND, NOT_FOUND, NOT_FOUND;
      fOptionArray, fCurrentOption := null, Null;
    }

    /** An iterator over some of an array's options. */
    constructor Over(itsOptionArray: COptionArray, itsLowBound: ULong, itsHighBound: ULong)
      requires itsOptionArray.Valid()
      modifies itsOptionArray`fIterator, itsOptionArray`ring, itsOptionArray.ring`fNextLink, itsOptionArray.ring`fPreviousLink
      ensures itsOptionArray.Valid() && itsOptionArray.ring == Joined(old(itsOptionArray.ring), this)
      ensures Bounded(itsOptionArray.fCount, itsLowBound, itsHighBound)
      ensures fCurrentIndex == fLowBound && itsOptionArray.CanWalk(fCurrentIndex)
      ensures fCurrentOption == if fLowBound == NOT_FOUND then Null else At(0)
      ensures itsOptionArray.Aimed(this) <==> fLowBound == 0 || fLowBound == NOT_FOUND
    {
      fPreviousLink, fNextLink := this, this;
      fHighBound, fLowBound, fCurrentIndex := NOT_FOUND, NOT_FOUND, NOT_FOUND;
      fOptionArray, fCurrentOption := itsOptionArray, Null;
      new;
      Init(itsOptionArray, itsLowBound, itsHighBound);
    }

    /** An iterator over all of an array's options. */
    constructor On(itsOptionArray: COptionArray)
      requires itsOptionArray.Valid()
      modifies itsOptionArray`fIterator, itsOptionArray`ring, itsOptionArray.ring`fNextLink, itsOptionArray.ring`fPreviousLink
      ensures itsOptionArray.Valid() && itsOptionArray.ring == Joined(old(itsOptionArray.ring), this)
      ensures FullRange() && itsOptionArray.Aimed(this)
      ensures fCurrentIndex == if itsOptionArray.fCount == 0 then NOT_FOUND else 0
    {
      fPreviousLink, fNextLink := this, this;
      fHighBound, fLowBound, fCurrentIndex := NOT_FOUND, NOT_FOUND, NOT_FOUND;
      fOptionArray, fCurrentOption := itsOptionArray, Null;
      new;
      Init(itsOptionArray, 0, Down(itsOptionArray.fCount, 0));
    }

    method Init(itsOptionArray: COptionArray, itsLowBound: ULong, itsHighBound: ULong)
      requires itsOptionArray.Valid() && this !in itsOptionArray.ring
      modifies this, itsOptionArray`fIterator, itsOptionArray`ring, itsOptionArray.ring`fNextLink, itsOptionArray.ring`fPreviousLink
      ensures itsOptionArray.Valid() && itsOptionArray.ring == Joined(old(itsOptionArray.ring), this)
      ensures fOptionArray == itsOptionArray && Bounded(itsOptionArray.fCount, itsLowBound, itsHighBound)
      ensures fCurrentIndex == fLowBound && fCurrentOption == if fLowBound == NOT_FOUND then Null else At(0)
      ensures itsOptionArray.Aimed(this) <==> fLowBound == 0 || fLowBound == NOT_FOUND
    {
      fPreviousLink, fNextLink := this, this;
      fCurrentOption := Null;
      fOptionArray := itsOptionArray;
      Join(itsOptionArray);
      InitBounds(itsLowBound, itsHighBound);
    }

    method Join(a: COptionArray)
      requires a.Valid() && this !in a.ring && fOptionArray == a && fPreviousLink == this && fNextLink == this
      modifies this`fPreviousLink, this`fNextLink, a`fIterator, a`ring, a.ring`fNextLink, a.ring`fPreviousLink
      ensures a.Valid() && a.ring == Joined(old(a.ring), this)
    {
      ghost var ring := a.ring;
      a.fIterator := AppendToList(a.fIterator, ring);
      a.ring := Joined(ring, this);
    }

    /** The destructor: leave the ring. */
    method Destroy() returns (ghost k: nat)
      requires fOptionArray != null ==> fOptionArray.Valid() && this in fOptionArray.ring
      modifies if fOptionArray != null then {fOptionArray as object} + (set it | it in fOptionArray.ring) else {}
      ensures fOptionArray == old(fOptionArray)
      ensures fOptionArray != null ==>
        && k < |old(fOptionArray.ring)| && old(fOptionArray.ring)[k] == this
        && fOptionArray.ring == Left(old(fOptionArray.ring), k)
        && fOptionArray.Valid() && this !in fOptionArray.ring
        && fOptionArray.records == old(fOptionArray.records) && fOptionArray.fArrayBlock == old(fOptionArray.fArrayBlock)
    {
      k := 0;
      if fOptionArray != null {
        k :| 0 <= k < |fOptionArray.ring| && fOptionArray.ring[k] == this;
        Leave(fOptionArray, k);
      }
    }

    method Leave(a: COptionArray, ghost k: nat)
      requires a.Valid() && k < |a.ring| && a.ring[k] == this
      modifies a`fIterator, a`ring, a.ring`fNextLink, a.ring`fPreviousLink
      ensures a.Valid() && a.ring == Left(old(a.ring), k) && this !in a.ring
    {
      ghost var ring := a.ring;
      a.fIterator := RemoveFromList(ring, k);
      a.ring := Left(ring, k);
    }

    /** What itsLowBound and itsHighBound are taken for: held within the array, and ordered. */
    ghost predicate Bounded(count: nat, itsLowBound: ULong, itsHighBound: ULong)
      reads this
    {
      if count == 0 then fLowBound == fHighBound == NOT_FOUND else
        && fHighBound == (if itsHighBound == NOT_FOUND then 0 else if itsHighBound < count then itsHighBound else count - 1)
        && fLowBound == (if itsLowBound == NOT_FOUND then 0 else if itsLowBound < fHighBound then itsLowBound else fHighBound)
    }

    ghost predicate FullRange()
      reads this, fOptionArray
    {
      fOptionArray != null &&
      if fOptionArray.fCount == 0 then fLowBound == fHighBound == NOT_FOUND
      else fLowBound == 0 && fHighBound == fOptionArray.fCount - 1
    }

    method InitBounds(itsLowBound: ULong, itsHighBound: ULong)
      requires fOptionArray != null && fOptionArray.BlockValid()
      modifies this`fLowBound, this`fHighBound, this`fCurrentIndex, this`fCurrentOption
      ensures Bounded(fOptionArray.fCount, itsLowBound, itsHighBound)
      ensures fCurrentIndex == fLowBound && fCurrentOption == if fLowBound == NOT_FOUND then Null else At(0)
      ensures fOptionArray.Aimed(this) <==> fLowBound == 0 || fLowBound == NOT_FOUND
    {
      var low, high := itsLowBound, itsHighBound;
      var limit := fOptionArray.fCount;
      if limit > 0 {
        limit := limit - 1;
        if high == NOT_FOUND { high := 0; }
        if high > limit { high := limit; }
      } else {
        high := NOT_FOUND;
      }
      fHighBound := high;
      if high != NOT_FOUND {
        if low == NOT_FOUND { low := 0; }
        if low > high { low := high; }
      } else {
        low := NOT_FOUND;
      }
      fLowBound := low;
      Reset();
    }

    /** Back to the low bound.  The option pointer goes to the first option of all, which is the one
        meant exactly when the low bound is 0 or there is nothing to iterate over. */
    method Reset()
      requires fOptionArray != null && fOptionArray.BlockValid()
      modifies this`fCurrentIndex, this`fCurrentOption
      ensures fCurrentIndex == fLowBound
      ensures fCurrentOption == if fLowBound == NOT_FOUND then Null else At(0)
      ensures fOptionArray.Aimed(this) <==> (fLowBound == 0 && fOptionArray.fCount > 0) || fLowBound == NOT_FOUND
    {
      fCurrentIndex := fLowBound;
      fCurrentOption := if fCurrentIndex == NOT_FOUND then Null else At(0);
      if 0 < fLowBound < fOptionArray.fCount {
        OffsetPositive(fOptionArray.records, fLowBound);
      }
    }

    method ResetBounds()
      requires fOptionArray != null && fOptionArray.BlockValid()
      modifies this`fLowBound, this`fHighBound
      ensures FullRange()
    {
      if fOptionArray.fCount == 0 {
        fLowBound, fHighBound := NOT_FOUND, NOT_FOUND;
      } else {
        fLowBound, fHighBound := 0, fOptionArray.fCount - 1;
      }
    }

    predicate More()
      reads this
    {
      fOptionArray != null && fCurrentIndex != NOT_FOUND
    }

    /** On to the next option, or to none after the last.  p is the option that the pointer is on, which
        need not be the one that the index names. */
    method Advance(ghost p: nat)
      requires fCurrentIndex < fHighBound ==> fOptionArray != null && fOptionArray.PointsAt(this, p)
      modifies this`fCurrentIndex, this`fCurrentOption
      ensures old(fCurrentIndex) < fHighBound ==>
        && fCurrentIndex == old(fCurrentIndex) + 1
        && p + 1 <= |fOptionArray.records| && fCurrentOption == At(Offset(fOptionArray.records, p + 1))
      ensures old(fCurrentIndex) >= fHighBound ==> fCurrentIndex == NOT_FOUND && fCurrentOption == Null
    {
      if fCurrentIndex < fHighBound {
        SizeAt(fOptionArray.records, p);
        fCurrentIndex := fCurrentIndex + 1;
        fCurrentOption := At(fCurrentOption.offset + RecordSize(fOptionArray.fArrayBlock[fCurrentOption.offset..]));
      } else {
        fCurrentIndex, fCurrentOption := NOT_FOUND, Null;
      }
    }

    /** How many options a loop over the iterator looks at. */
    function Span(): nat
      reads this
    {
      if fLowBound == NOT_FOUND then 0
      else if fLowBound > fHighBound then 1
      else if fHighBound == NOT_FOUND then fHighBound - fLowBound
      else fHighBound - fLowBound + 1
    }

    /** The first option with a label among as many as the bounds are apart, from the first of all on
        whatever the low bound: where it is, and the iterator left standing on it if it ranges over all. */
    method FindOption(inLabel: nat) returns (option: Pointer)
      requires fOptionArray != null && fOptionArray.BlockValid() && Span() <= |fOptionArray.records|
      modifies this`fCurrentIndex, this`fCurrentOption
      ensures option == Null ==> forall i :: 0 <= i < Span() ==> !HasLabel(fOptionArray.records[i], inLabel)
      ensures option != Null ==>
        && fLowBound <= fCurrentIndex < fLowBound + Span()
        && var i := fCurrentIndex - fLowBound;
           && option == fCurrentOption == At(Offset(fOptionArray.records, i))
           && HasLabel(fOptionArray.records[i], inLabel)
           && forall j :: 0 <= j < i ==> !HasLabel(fOptionArray.records[j], inLabel)
    {
      ghost var records := fOptionArray.records;
      Reset();
      ghost var p := 0;
      while More()
        invariant p <= Span()
        invariant More() ==> p < Span() && fCurrentIndex == fLowBound + p && fOptionArray.PointsAt(this, p)
        invariant !More() ==> p == Span()
        invariant forall i :: 0 <= i < p ==> !HasLabel(records[i], inLabel)
        decreases Span() - p
      {
        SizeAt(records, p);
        if Label(fOptionArray.fArrayBlock[fCurrentOption.offset..]) == inLabel {
          return fCurrentOption;
        }
        Advance(p);
        p := p + 1;
      }
      return Null;
    }

    /** Go in behind the head of the ring, to become its head. */
    method AppendToList(inList: COptionIterator?, ghost ring: seq<COptionIterator>) returns (head: COptionIterator)
      requires (inList == null <==> ring == []) && (ring != [] ==> inList == ring[0])
      requires Linked(ring) && this !in ring && fPreviousLink == this && fNextLink == this
      modifies this`fPreviousLink, this`fNextLink, ring`fNextLink, ring`fPreviousLink
      ensures head == this && Linked(Joined(ring, this))
    {
      ghost var joined := Joined(ring, this);
      assert forall i :: 0 < i < |ring| ==> joined[i] == ring[i];
      if inList != null {
        fPreviousLink := inList;
        fNextLink := inList.fNextLink;
        inList.fNextLink.fPreviousLink := this;
        inList.fNextLink := this;
      }
      head := this;
    }

    /** Close the ring over an iterator; the next one is the new head. */
    method RemoveFromList(ghost ring: seq<COptionIterator>, ghost k: nat) returns (next: COptionIterator?)
      requires Linked(ring) && k < |ring| && ring[k] == this
      modifies ring`fNextLink, ring`fPreviousLink
      ensures (next == null <==> Left(ring, k) == []) && (Left(ring, k) != [] ==> next == Left(ring, k)[0])
      ensures Linked(Left(ring, k)) && fPreviousLink == this && fNextLink == this
    {
      ghost var left, m, n := Left(ring, k), |ring| - k - 1, |ring| - 1;
      assert forall i :: 0 <= i < n ==> left[i] == if i < m then ring[k + 1 + i] else ring[i - m];
      assert fNextLink == (if k < n then ring[k + 1] else ring[0]) && fPreviousLink == (if k > 0 then ring[k - 1] else ring[n]);
      next := if fNextLink != this then fNextLink else null;
      fNextLink.fPreviousLink := fPreviousLink;
      fPreviousLink.fNextLink := fNextLink;
      fPreviousLink, fNextLink := this, this;
      forall i | 0 <= i < n - 1 ensures left[i].fNextLink == left[i + 1] && left[i + 1].fPreviousLink == left[i] {
        if i < m - 1 {
          assert ring[k + 1 + i].fNextLink == ring[k + 2 + i];
        } else if i >= m {
          assert ring[i - m].fNextLink == ring[i - m + 1];
        }
      }
    }

    /** The option that the index names now is the one it named before. */
    twostate predicate SameOption()
      reads this, fOptionArray
    {
      && fOptionArray != null && fOptionArray == old(fOptionArray)
      && fCurrentIndex < |fOptionArray.records| && old(fCurrentIndex) < |old(fOptionArray.records)|
      && fOptionArray.records[fCurrentIndex] == old(fOptionArray.records)[old(fCurrentIndex)]
    }

    twostate predicate Stayed()
      reads this
    {
      && fLowBound == old(fLowBound) && fHighBound == old(fHighBound)
      && fCurrentIndex == old(fCurrentIndex) && fCurrentOption == old(fCurrentOption)
    }

    /** The bounds and the index have followed an edit, and the option pointer the index. */
    twostate predicate Shifted(step: (ULong, nat) -> ULong, index: nat)
      reads this, fOptionArray
    {
      && fOptionArray != null
      && fLowBound == step(old(fLowBound), index) && fHighBound == step(old(fHighBound), index)
      && fCurrentIndex == step(old(fCurrentIndex), index) && fOptionArray.Aimed(this)
    }

    /** An iterator's own part of following an edit. */
    method Shift(step: (ULong, nat) -> ULong, index: nat)
      requires fOptionArray != null && fOptionArray.BlockValid()
      requires fOptionArray.CanWalk(step(fCurrentIndex, index))
      modifies this`fLowBound, this`fHighBound, this`fCurrentIndex, this`fCurrentOption
      ensures Shifted(step, index)
    {
      fLowBound := step(fLowBound, index);
      fHighBound := step(fHighBound, index);
      fCurrentIndex := step(fCurrentIndex, index);
      if fCurrentIndex != NOT_FOUND {
        var option := fOptionArray.OptionAt(fCurrentIndex);
        fCurrentOption := At(option);
      }
    }

    /** insertOptionAt, told round the ring from the k-th iterator on. */
    method InsertOptionAt(index: nat, ghost k: nat)
      requires fOptionArray != null && fOptionArray.BlockValid() && fOptionArray.RingValid()
      requires k < |fOptionArray.ring| && fOptionArray.ring[k] == this
      requires forall j :: k <= j < |fOptionArray.ring| ==> fOptionArray.CanWalk(Up(fOptionArray.ring[j].fCurrentIndex, index))
      modifies fOptionArray.ring`fLowBound, fOptionArray.ring`fHighBound
      modifies fOptionArray.ring`fCurrentIndex, fOptionArray.ring`fCurrentOption
      ensures forall j :: 0 <= j < k ==> old(fOptionArray.ring[j]).Stayed()
      ensures forall j :: k <= j < |fOptionArray.ring| ==> fOptionArray.ring[j].Shifted(Up, index)
      decreases |fOptionArray.ring| - k
    {
      Shift(Up, index);
      if fOptionArray != null && fNextLink != fOptionArray.fIterator {
        fNextLink.InsertOptionAt(index, k + 1);
      }
    }

    /** removeOptionAt, told round the ring from the k-th iterator on; until a walk leaves the block. */
    method RemoveOptionAt(index: nat, ghost k: nat) returns (inside: bool, ghost bad: nat)
      requires fOptionArray != null && fOptionArray.BlockValid() && fOptionArray.RingValid()
      requires k < |fOptionArray.ring| && fOptionArray.ring[k] == this
      modifies fOptionArray.ring`fLowBound, fOptionArray.ring`fHighBound
      modifies fOptionArray.ring`fCurrentIndex, fOptionArray.ring`fCurrentOption
      ensures forall j :: 0 <= j < k ==> old(fOptionArray.ring[j]).Stayed()
      ensures inside ==> forall j :: k <= j < |fOptionArray.ring| ==> fOptionArray.ring[j].Shifted(Down, index)
      ensures !inside ==>
        k <= bad < |fOptionArray.ring| && !fOptionArray.CanWalk(Down(old(fOptionArray.ring[bad].fCurrentIndex), index))
      decreases |fOptionArray.ring| - k
    {
      var next := Down(fCurrentIndex, index);
      inside, bad := next == NOT_FOUND || next < fOptionArray.fCount, k;
      if !inside {
        return;
      }
      Shift(Down, index);
      if fOptionArray != null && fNextLink != fOptionArray.fIterator {
        inside, bad := fNextLink.RemoveOptionAt(index, k + 1);
      }
    }

    /** Tell the rest of the ring first, then forget the array. */
    method DeleteArray(ghost k: nat)
      requires fOptionArray != null && fOptionArray.Valid()
      requires k < |fOptionArray.ring| && fOptionArray.ring[k] == this
      modifies set j | k <= j < |fOptionArray.ring| :: fOptionArray.ring[j]
      ensures var ring := old(fOptionArray.ring);
              forall j :: k <= j < |ring| ==> ring[j].fOptionArray == null && ring[j].fCurrentOption == Null
      decreases |fOptionArray.ring| - k
    {
      if fOptionArray != null && fNextLink != fOptionArray.fIterator {
        fNextLink.DeleteArray(k + 1);
      }
      fOptionArray := null;
      fCurrentOption := Null;
    }
  }

  /** An iterator is made, or the k-th of those alive is destroyed. */
  datatype Life = Born(low: ULong, high: ULong) | Dies(k: nat)

  ghost predicate Distinct(live: seq<COptionIterator>) {
    forall i, j :: 0 <= i < j < |live| ==> live[i] != live[j]
  }

  /** The ring of a holds exactly the iterators that are alive. */
  ghost predicate Alive(a: COptionArray, live: seq<COptionIterator>)
    reads a, a.ring
  {
    && a.Valid() && Distinct(live)
    && (forall it :: it in live ==> it in a.ring)
    && forall it :: it in a.ring ==> it in live
  }

  method Bear(a: COptionArray, live: seq<COptionIterator>, low: ULong, high: ULong) returns (it: COptionIterator)
    requires Alive(a, live)
    modifies a, a.ring
    ensures Alive(a, live + [it]) && fresh(it)
    ensures forall j :: 0 <= j < |a.ring| ==> a.ring[j] in live + [it]
  {
    ghost var ring := a.ring;
    it := new COptionIterator.Over(a, low, high);
    JoinedHolds(ring, it);
  }

  method Bury(a: COptionArray, live: seq<COptionIterator>, k: nat)
    requires Alive(a, live) && k < |live|
    modifies a, a.ring
    ensures Alive(a, live[..k] + live[k + 1..])
    ensures forall j :: 0 <= j < |a.ring| ==> a.ring[j] in live
  {
    ghost var ring := a.ring;
    ghost var at: nat;
    at := live[k].Destroy();
    LeftHolds(ring, at);
    Without(live, k);
  }

  /** However iterators come and go, the links are a circle of exactly those that are alive. */
  method Churn(a: COptionArray, lives: seq<Life>) returns (live: seq<COptionIterator>)
    requires a.Valid() && a.ring == []
    modifies a
    ensures Alive(a, live)
  {
    live := [];
    for i := 0 to |lives|
      invariant Alive(a, live)
      invariant forall j :: 0 <= j < |live| ==> fresh(live[j])
      invariant forall j :: 0 <= j < |a.ring| ==> fresh(a.ring[j])
    {
      if lives[i].Born? {
        var it := Bear(a, live, lives[i].low, lives[i].high);
        live := live + [it];
      } else if lives[i].k < |live| {
        Bury(a, live, lives[i].k);
        live := live[..lives[i].k] + live[lives[i].k + 1..];
      }
    }
  }

  lemma Without(live: seq<COptionIterator>, k: nat)
    requires Distinct(live) && k < |live|
    ensures Distinct(live[..k] + live[k + 1..])
    ensures forall it :: it in live[..k] + live[k + 1..] <==> it in live && it != live[k]
  {
    var rest := live[..k] + live[k + 1..];
    forall it | it in live && it != live[k] ensures it in rest {
      var i :| 0 <= i < |live| && live[i] == it;
      assert rest[if i < k then i else i - 1] == it;
    }
  }

  lemma JoinedHolds(ring: seq<COptionIterator>, it: COptionIterator)
    ensures forall x :: x in Joined(ring, it) <==> x == it || x in ring
  {
    if ring != [] {
      assert ring == [ring[0]] + ring[1..];
    }
  }

  lemma LeftHolds(ring: seq<COptionIterator>, k: nat)
    requires k < |ring| && Distinct(ring)
    ensures forall x :: x in Left(ring, k) <==> x in ring && x != ring[k]
  {
  }
}
