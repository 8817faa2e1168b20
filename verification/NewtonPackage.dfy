/** The three passes that turn a part of big-endian 32-bit objects into one block of 64-bit
    objects: measure, copy with a forwarding map, patch. */
module NewtonPackage {
  import opened Memory
  import opened Refs
  import opened ObjectGraph
  import opened Payload
  import opened GraphCopy
  import opened CopyMeaning
  import opened ThirdPass

  class Converter {
    const part: Part
    /** ScanRef's map of references it has met. */
    var scanned: set<Ref32>
    /** Where the next copy goes. */
    var ioDstPtr: int
    /** CopyRef's map from package references to new pointers. */
    var ioMap: RefMap
    /** The objects written so far, by address. */
    var memory: map<int, DstObject>
    /** The block allocated for them. */
    var part64Data: int
    /** What ioMap has been given, oldest first. */
    ghost var order: seq<Ref32>

    constructor (part: Part)
      ensures this.part == part && scanned == {} && ioMap == map[] && memory == map[] && order == []
    {
      this.part := part;
      scanned, part64Data, ioDstPtr, ioMap, memory, order := {}, 0, 0, map[], map[], [];
    }

    /** Pass 1: the bytes needed for what inRef reaches and has not been met before. */
    method ScanRef(inRef: Ref32) returns (size: nat)
      requires WellFormed(part) && Resolves(part, inRef)
      modifies this`scanned
      ensures Elems(Visit(part, inRef, old(scanned))) <= part.Keys
      ensures size == Extent(part, Visit(part, inRef, old(scanned)))
      ensures scanned == old(scanned) + Elems(Visit(part, inRef, old(scanned)))
      decreases part.Keys - scanned, 2
    {
      VisitFresh(part, inRef, scanned);
      var ref := Swap32(inRef);
      if IsRealPtr(ref) {
        if ref in scanned {
          return 0;
        }
        size := ScanObject(ref);
      } else {
        size := 0;
      }
    }

    /** ScanRef's work on an object met for the first time. */
    method ScanObject(ref: Ref32) returns (size: nat)
      requires WellFormed(part) && ref in part && ref !in scanned
      modifies this`scanned
      ensures var order := [ref] + VisitAll(part, part[ref].Targets(), old(scanned) + {ref});
              && Elems(order) <= part.Keys
              && size == Extent(part, order)
              && scanned == old(scanned) + Elems(order)
      decreases part.Keys - scanned, 0
    {
      assert ClosedObject(part, part[ref]);
      VisitObject(part, ref, scanned);
      scanned := scanned + {ref};
      ghost var below := VisitAll(part, part[ref].Targets(), scanned);
      var refSize := ScanBelow(part[ref]);
      AlignSum(part, part[ref].NewSize(), below);
      size := LongAlign(refSize);
    }

    /** The object's own size, then its class, then its slots or its data. */
    method ScanBelow(obj: SrcObject) returns (refSize: nat)
      requires WellFormed(part) && ClosedObject(part, obj)
      modifies this`scanned
      ensures var below := VisitAll(part, obj.Targets(), old(scanned));
              && Elems(below) <= part.Keys
              && refSize == obj.NewSize() + Extent(part, below)
              && scanned == old(scanned) + Elems(below)
      decreases part.Keys - scanned, 4
    {
      ghost var was, first := scanned, Visit(part, obj.objClass, scanned);
      VisitTargets(part, obj, scanned);
      assert obj.objClass == obj.Targets()[0];
      refSize := HEADER_64;
      var n := ScanRef(obj.objClass);
      assert scanned == was + Elems(first);
      refSize := refSize + n;
      if obj.Slotted() {
        assert forall raw :: raw in obj.slots ==> raw in obj.Targets();
        ghost var rest := VisitAll(part, obj.slots, scanned);
        ElemsAppend(first, rest);
        n := ScanSlots(obj.slots);
        assert scanned == was + Elems(first + rest);
        refSize := refSize + n;
      } else {
        refSize := refSize + (obj.size - HEADER_32);
      }
    }

    /** The loop over the slots: eight bytes each, and whatever they reach. */
    method ScanSlots(slots: seq<Ref32>) returns (size: nat)
      requires WellFormed(part) && forall raw :: raw in slots ==> Resolves(part, raw)
      modifies this`scanned
      ensures var order := VisitAll(part, slots, old(scanned));
              && Elems(order) <= part.Keys
              && size == 8 * |slots| + Extent(part, order)
              && scanned == old(scanned) + Elems(order)
      decreases part.Keys - scanned, 3
    {
      VisitAllFresh(part, slots, scanned);
      assert slots[0..] == slots;
      size := 0;
      var i := 0;
      ghost var was, all := scanned, VisitAll(part, slots, scanned);
      ghost var rest := all;
      while i < |slots|
        invariant i <= |slots| && rest == VisitAll(part, slots[i..], scanned)
        invariant scanned >= was && scanned + Elems(rest) == was + Elems(all)
        invariant size + Extent(part, rest) == 8 * i + Extent(part, all)
      {
        VisitSuffix(part, slots, i, scanned);
        ghost var first := Visit(part, slots[i], scanned);
        rest := VisitAll(part, slots[i + 1..], scanned + Elems(first));
        var n := ScanRef(slots[i]);
        size := size + 8 + n;
        i := i + 1;
      }
      assert rest == [];
    }

    ghost function Pass(): Progress
      reads this
    {
      Progress(order, part64Data, ioDstPtr, ioMap, memory)
    }

    ghost predicate Extends(was: RefMap)
      reads this
    {
      forall r :: r in was ==> r in ioMap && ioMap[r] == was[r]
    }

    /** Pass 2: copy what inRef reaches and has not been copied before; return the new reference. */
    method CopyRef(inRef: Ref32, ghost gray: set<Ref32>) returns (newRef: Ref)
      requires WellFormed(part) && Resolves(part, inRef)
      requires Pass().Valid(part, gray)
      modifies this`ioDstPtr, this`ioMap, this`memory, this`order
      ensures Pass().Valid(part, gray) && Extends(old(ioMap))
      ensures Forwarded(ioMap, inRef) && newRef == Translate(ioMap, inRef)
      ensures order == old(order) + Visit(part, inRef, Elems(old(order)))
      decreases part.Keys - ioMap.Keys, 2
    {
      var srcRef := Swap32(inRef);
      if IsRealPtr(srcRef) {
        if srcRef in ioMap {
          assert order == order + [];
          return ioMap[srcRef];
        }
        newRef := CopyObject(srcRef, gray);
      } else {
        assert order == order + [];
        newRef := Extend(srcRef);
      }
    }

    /** CopyRef's work on an object met for the first time. */
    method CopyObject(srcRef: Ref32, ghost gray: set<Ref32>) returns (ref: Ref)
      requires WellFormed(part) && srcRef in part && srcRef !in ioMap
      requires Pass().Valid(part, gray)
      modifies this`ioDstPtr, this`ioMap, this`memory, this`order
      ensures Pass().Valid(part, gray) && Extends(old(ioMap))
      ensures srcRef in ioMap && ref == ioMap[srcRef]
      ensures order == old(order) + ([srcRef] + VisitAll(part, part[srcRef].Targets(), Elems(old(order)) + {srcRef}))
      decreases part.Keys - ioMap.Keys, 0
    {
      var dstPtr := ioDstPtr;
      var obj := AllocateObject(srcRef, gray);
      ref := MakePtr(dstPtr);
      ghost var rest := VisitAll(part, part[srcRef].Targets(), Elems(order));
      assert Elems(order) == Elems(old(order)) + {srcRef};
      assert old(order) + [srcRef] + rest == old(order) + ([srcRef] + rest);
      obj := FollowTargets(srcRef, obj, gray + {srcRef});
      FinishObject(srcRef, obj, gray);
    }

    /** Map the reference, write the header, advance the bump pointer past the object. */
    method AllocateObject(srcRef: Ref32, ghost gray: set<Ref32>) returns (obj: DstObject)
      requires WellFormed(part) && srcRef in part && srcRef !in ioMap
      requires Pass().Valid(part, gray)
      modifies this`ioDstPtr, this`ioMap, this`memory, this`order
      ensures Pass().Valid(part, gray + {srcRef})
      ensures ioMap == old(ioMap)[srcRef := MakePtr(old(ioDstPtr))]
      ensures ioMap.Keys == old(ioMap).Keys + {srcRef}
      ensures order == old(order) + [srcRef]
      ensures part[srcRef].Valid() && obj == Header(part[srcRef])
    {
      var srcPtr := part[srcRef];
      assert ClosedObject(part, part[srcRef]);
      RoomPositive(part, order);
      var dstPtr := ioDstPtr;
      var count, dstSize := 0, 0;
      if srcPtr.Slotted() {
        count := (srcPtr.size - HEADER_32) / 4;
        dstSize := HEADER_64 + count * 8;
      } else {
        dstSize := srcPtr.size - HEADER_32 + HEADER_64;
      }
      obj := DstObject(dstSize % 0x100_0000, K_OBJ_READ_ONLY | (srcPtr.flags & K_OBJ_MASK), 0, 0, [], []);
      assert dstSize == srcPtr.NewSize();
      ghost var p := Pass();
      AllocateValid(part, p, srcRef, obj, gray);
      ioMap := ioMap[srcRef := MakePtr(dstPtr)];
      memory := memory[dstPtr := obj];
      ioDstPtr := ioDstPtr + LongAlign(dstSize);
      order := order + [srcRef];
      assert Pass() == p.Allocate(part, srcRef, obj);
    }

    /** Write the finished object over its header. */
    method FinishObject(srcRef: Ref32, obj: DstObject, ghost gray: set<Ref32>)
      requires WellFormed(part) && srcRef in part && srcRef in ioMap
      requires Pass().Valid(part, gray + {srcRef})
      requires part[srcRef].Valid() && Convertible(part, part[srcRef])
      requires forall raw :: raw in part[srcRef].Targets() ==> Forwarded(ioMap, raw)
      requires obj == Image(part, ioMap, part[srcRef])
      modifies this`memory
      ensures Pass().Valid(part, gray)
    {
      RoomPositive(part, order);
      ghost var p := Pass();
      FinishValid(part, p, srcRef, gray);
      memory := memory[Address(ioMap[srcRef]) := obj];
      assert Pass() == p.(memory := p.memory[Address(p.forwarding[srcRef]) := Image(part, p.forwarding, part[srcRef])]);
    }

    /** Follow the class, then the slots, of an object already forwarded; fill them in, or the bytes. */
    method FollowTargets(srcRef: Ref32, header: DstObject, ghost gray: set<Ref32>) returns (obj: DstObject)
      requires WellFormed(part) && srcRef in ioMap && srcRef in part
      requires part[srcRef].Valid() && header == Header(part[srcRef])
      requires Pass().Valid(part, gray)
      modifies this`ioDstPtr, this`ioMap, this`memory, this`order
      ensures Pass().Valid(part, gray) && Extends(old(ioMap))
      ensures Convertible(part, part[srcRef])
      ensures forall raw :: raw in part[srcRef].Targets() ==> Forwarded(ioMap, raw)
      ensures obj == Image(part, ioMap, part[srcRef])
      ensures order == old(order) + VisitAll(part, part[srcRef].Targets(), Elems(old(order)))
      decreases part.Keys - ioMap.Keys, 4
    {
      var srcPtr := part[srcRef];
      assert ClosedObject(part, srcPtr) && Convertible(part, srcPtr);
      assert srcPtr.objClass == srcPtr.Targets()[0];
      ExtendOrderTargets(part, order, srcPtr);
      var newClass := CopyRef(srcPtr.objClass, gray);
      if srcPtr.Slotted() {
        assert forall raw :: raw in srcPtr.slots ==> raw in srcPtr.Targets();
        ghost var f := ioMap;
        var slots := CopySlots(srcPtr.slots, gray);
        TranslateMonotone(f, ioMap, srcPtr.objClass);
        obj := header.(objClass := newClass, slots := slots);
        ImageOfSlotted(part, ioMap, srcPtr, newClass, slots);
      } else {
        var data := ConvertPayload(srcPtr);
        obj := header.(objClass := newClass, data := data);
        ImageOfBinary(part, ioMap, srcPtr, newClass);
      }
    }

    /** The loop over the slots: copy what each reaches, collect the new references. */
    method CopySlots(raws: seq<Ref32>, ghost gray: set<Ref32>) returns (slots: seq<Ref>)
      requires WellFormed(part) && forall raw :: raw in raws ==> Resolves(part, raw)
      requires Pass().Valid(part, gray)
      modifies this`ioDstPtr, this`ioMap, this`memory, this`order
      ensures Pass().Valid(part, gray) && Extends(old(ioMap))
      ensures |slots| == |raws| && Translated(ioMap, raws, slots)
      ensures order == old(order) + VisitAll(part, raws, Elems(old(order)))
      decreases part.Keys - ioMap.Keys, 3
    {
      assert raws[0..] == raws;
      slots := [];
      var i := 0;
      while i < |raws|
        invariant i <= |raws|
        invariant Pass().Valid(part, gray) && Extends(old(ioMap))
        invariant |slots| == i && Translated(ioMap, raws, slots)
        invariant order + VisitAll(part, raws[i..], Elems(order)) == old(order) + VisitAll(part, raws, Elems(old(order)))
      {
        ghost var f := ioMap;
        ExtendOrder(part, order, raws, i);
        var slot := CopyRef(raws[i], gray);
        TranslatedStep(f, ioMap, raws, slots, slot);
        slots := slots + [slot];
        i := i + 1;
      }
      assert VisitAll(part, raws[i..], Elems(order)) == [];
    }

    /** The class-directed rearrangement of a binary object's bytes.  sym is set only if the class is a
        pointer, but read whenever it is not kSymbolClass. */
    method ConvertPayload(srcPtr: SrcObject) returns (data: seq<Byte>)
      requires WellFormed(part) && PayloadReadable(part, srcPtr)
      ensures data == NewPayload(part, srcPtr)
    {
      data := srcPtr.data;
      var sym: SrcObject := *;
      var srcClass := Swap32(srcPtr.objClass);
      if srcClass == K_SYMBOL_CLASS {
        data := SwapHash(data);
      } else {
        if IsPtr(srcClass) {
          sym := part[srcClass];
        }
        if sym.objClass == Swap32(K_SYMBOL_CLASS) {
          data := ConvertNamed(sym, data);
        }
      }
    }

    /** The rearrangement that a class symbol's name asks for. */
    method ConvertNamed(sym: SrcObject, was: seq<Byte>) returns (data: seq<Byte>)
      requires IsSymbol(sym) && SymReadable(sym, was)
      ensures data == BySymbol(sym, was)
    {
      data := was;
      var name := sym.data[4..];
      var isString := IsSymClass(name, STRING_NAME);
      if isString {
        data := SwapString(data);
      } else {
        var isReal := IsSymClass(name, REAL_NAME);
        if isReal {
          data := SwapReal(data);
        } else {
          var isUniC := IsSymClass(name, UNIC_NAME);
          if isUniC {
            data := SwapEncodingMap(data);
          }
        }
      }
    }

    /** Measure, allocate, copy.  newRoot is where malloc put the block. */
    method ConvertPart(rootRef: Ref32, newRoot: int) returns (part64Size: nat)
      requires WellFormed(part) && scanned == {} && ioMap == map[] && memory == map[] && order == []
      requires IsRealPtr(Swap32(rootRef)) && Swap32(rootRef) in part && newRoot % 4 == 0
      modifies this
      ensures Converted(part, Swap32(rootRef), ioMap, memory, newRoot, part64Size)
      // every copy is of the kind, the size, the references and the values of its original; the root's is at newRoot
      ensures AllCopiesAre(part, ioMap, memory) && ioMap[Swap32(rootRef)] == newRoot + 1
      // the sizing pass met what the copying pass met, and asked for exactly what it used
      ensures scanned == ioMap.Keys && ioDstPtr == newRoot + part64Size
      ensures order == Visit(part, rootRef, {}) && part64Data == newRoot && Pass().Valid(part, {})
    {
      part64Size := ScanRef(rootRef);
      assert scanned == Elems(Visit(part, rootRef, {}));
      part64Data, ioDstPtr := newRoot, newRoot;
      WalkFromNothing(part, rootRef);
      var newRef := CopyRef(rootRef, {});
      assert Pass() == Progress(order, newRoot, ioDstPtr, ioMap, memory);
      ConversionDone(part, rootRef, Pass(), part64Size);
      GraphCopyMeans(part, Swap32(rootRef), ioMap, memory);
    }

    /** Every copy is in memory. */
    ghost predicate Placed()
      reads this`ioMap, this`memory
    {
      forall r :: r in ioMap ==> Address(ioMap[r]) in memory
    }

    /** Pass 3: look a field of an object up once more, as if it still were a reference of the package;
        if it is found, patch it, and what the object that is found refers to.  depth is the depth of
        recursion that there is room for. */
    method UpdateRef(a: int, k: nat, depth: nat) returns (ended: bool, ghost redirected: bool)
      requires Placed() && a in memory && k < Fields(memory[a])
      modifies this`memory
      ensures Outcome(memory, ended, redirected) == UpdateField(ioMap, old(memory), a, k, depth)
      ensures SameShape(old(memory), memory)
      decreases depth, 0
    {
      var ref := Field(memory[a], k);
      if !IsKey(ioMap, ref) { return true, false; }
      if depth == 0 { return false, false; }
      var newRef := ioMap[Truncate(ref)];
      memory := memory[a := SetField(memory[a], k, newRef)];
      ended, redirected := UpdateObject(Address(newRef), depth - 1);
      redirected := redirected || newRef != ref;
    }

    /** UpdateRef's work on an object: its class and, if it is slotted, its slots. */
    method UpdateObject(a: int, depth: nat) returns (ended: bool, ghost redirected: bool)
      requires Placed() && a in memory
      modifies this`memory
      ensures Outcome(memory, ended, redirected) == UpdateFields(ioMap, old(memory), a, 0, Fields(old(memory)[a]), depth)
      ensures SameShape(old(memory), memory)
      decreases depth, 1
    {
      var n, k := Fields(memory[a]), 0;
      ended, redirected := true, false;
      while k < n && ended
        invariant k <= n && SameShape(old(memory), memory)
        invariant ended ==>
          UpdateFields(ioMap, old(memory), a, 0, n, depth) == Joined(UpdateFields(ioMap, memory, a, k, n - k, depth), redirected)
        invariant !ended ==> UpdateFields(ioMap, old(memory), a, 0, n, depth) == Outcome(memory, false, redirected)
      {
        ghost var before := redirected;
        ended, redirected := UpdateRef(a, k, depth);
        redirected := redirected || before;
        k := k + 1;
      }
    }

    /** The tail of partRef.  copied is the memory before the third pass.  The pass ends and redirects no
        reference exactly when it leaves alone what slot 0 of the root refers to, and then the memory is
        as it was copied.  The converse holds where no reference comes back once it is redirected; then
        the result is right exactly when the new reference in slot 0 is not redirected itself. */
    method PartRef(rootRef: Ref32, newRoot: int, depth: nat)
      returns (ref: Ref, ended: bool, ghost redirected: bool, ghost copied: map<int, DstObject>)
      requires WellFormed(part) && scanned == {} && ioMap == map[] && memory == map[] && order == []
      requires IsRoot(part, rootRef) && newRoot % 4 == 0
      modifies this
      ensures ioMap == NewPlaces(part, rootRef, newRoot)
      ensures IsGraphCopy(part, Swap32(rootRef), ioMap, copied) && AllCopied(part, ioMap, copied)
      ensures Holds(ioMap, copied, newRoot, 1, part[Swap32(rootRef)].slots[0])
      ensures Outcome(memory, ended, redirected) == UpdateField(ioMap, copied, newRoot, 1, depth)
      ensures newRoot in memory && memory[newRoot].slots != [] && ref == memory[newRoot].slots[0]
      ensures ended && !redirected <==> LeftAlone(part, ioMap, part[Swap32(rootRef)].slots[0], depth)
      ensures ended && !redirected ==> memory == copied && ref == Translate(ioMap, part[Swap32(rootRef)].slots[0])
      ensures NoReturn(Following(ioMap)) ==>
        (ended && memory == copied <==> LeftAlone(part, ioMap, part[Swap32(rootRef)].slots[0], depth))
      ensures NoReturn(Following(ioMap)) && depth > 0 ==>
        var right := Translate(ioMap, part[Swap32(rootRef)].slots[0]);
        ref == right <==> Following(ioMap)(right) == right
    {
      var size := ConvertPart(rootRef, newRoot);
      RootCopied(rootRef, newRoot);
      copied := memory;
      PassKnown(part[Swap32(rootRef)].slots[0], newRoot, depth);
      ended, redirected := UpdateRef(newRoot, 1, depth);
      ref := memory[newRoot].slots[0];
    }

    lemma RootCopied(rootRef: Ref32, newRoot: int)
      requires IsRoot(part, rootRef) && AllCopied(part, ioMap, memory)
      requires Swap32(rootRef) in ioMap && ioMap[Swap32(rootRef)] == MakePtr(newRoot)
      requires order == Visit(part, rootRef, {}) && ioMap.Keys == Elems(order) && LaidOut(part, order, newRoot, ioMap)
      ensures Placed() && Holds(ioMap, memory, newRoot, 1, part[Swap32(rootRef)].slots[0])
      ensures ioMap == NewPlaces(part, rootRef, newRoot)
    {
      ForwardedToPlaces(part, order, newRoot, ioMap);
      var root := Swap32(rootRef);
      assert Copied(part, ioMap, memory, root);
      FieldsOfCopy(part, ioMap, memory, root);
      assert part[root].Targets()[1] == part[root].slots[0];
      forall r | r in ioMap ensures Address(ioMap[r]) in memory {
        assert Copied(part, ioMap, memory, r);
      }
    }

    /** What is known of the third pass before it begins. */
    lemma PassKnown(raw: Ref32, newRoot: int, depth: nat)
      requires AllCopied(part, ioMap, memory) && Holds(ioMap, memory, newRoot, 1, raw)
      ensures var o := UpdateField(ioMap, memory, newRoot, 1, depth);
              && (o.ended && !o.redirected <==> LeftAlone(part, ioMap, raw, depth))
              && (o.ended && !o.redirected ==> o.memory == memory)
              && (NoReturn(Following(ioMap)) ==> (o.ended && o.memory == memory <==> LeftAlone(part, ioMap, raw, depth)))
              && (NoReturn(Following(ioMap)) && depth > 0 ==>
                   var right := Translate(ioMap, raw);
                   && SameShape(memory, o.memory)
                   && (Field(o.memory[newRoot], 1) == right <==> Following(ioMap)(right) == right))
    {
      FieldLeftAlone(part, ioMap, memory, newRoot, 1, raw, depth);
      if NoReturn(Following(ioMap)) {
        UpdateHarmless(part, ioMap, memory, newRoot, 1, raw, depth);
        if depth > 0 {
          FieldHarmless(ioMap, memory, newRoot, 1, depth);
        }
      }
    }
  }
}
