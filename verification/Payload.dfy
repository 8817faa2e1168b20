/** Class-directed byte swapping of binary objects: symbol hashes, UniChar strings, reals and
    encoding maps. */
module Payload {
  import opened Memory
  import opened Refs
  import opened ObjectGraph

  const STRING_NAME: seq<Byte> := [0x73, 0x74, 0x72, 0x69, 0x6E, 0x67, 0]
  const REAL_NAME: seq<Byte> := [0x72, 0x65, 0x61, 0x6C, 0]
  const UNIC_NAME: seq<Byte> := [0x55, 0x6E, 0x69, 0x43, 0]

  function ToLower(c: Byte): Byte {
    if 0x41 <= c <= 0x5A then c + 0x20 else c
  }

  /** Where a C string ends. */
  function Terminator(s: seq<Byte>): (k: nat)
    requires 0 in s
    ensures k < |s| && s[k] == 0 && forall i :: 0 <= i < k ==> s[i] != 0
  {
    if s[0] == 0 then 0 else 1 + Terminator(s[1..])
  }

  function CString(s: seq<Byte>): seq<Byte>
    requires 0 in s
  {
    s[..Terminator(s)]
  }

  /** name is className, or className followed by a dot and anything, without regard to case. */
  ghost predicate SubclassName(name: seq<Byte>, className: seq<Byte>) {
    && |className| <= |name|
    && (forall i :: 0 <= i < |className| ==> ToLower(name[i]) == ToLower(className[i]))
    && (|name| == |className| || name[|className|] == 0x2E)
  }

  /** The loop over both C strings. */
  method IsSymClass(name: seq<Byte>, className: seq<Byte>) returns (matches: bool)
    requires 0 in name && 0 in className
    ensures matches == SubclassName(CString(name), CString(className))
  {
    var i := 0;
    while name[i] != 0 && className[i] != 0
      invariant i <= Terminator(name) && i <= Terminator(className)
      invariant forall k :: 0 <= k < i ==> ToLower(name[k]) == ToLower(className[k])
      decreases |name| - i
    {
      if ToLower(name[i]) != ToLower(className[i]) {
        return false;
      }
      i := i + 1;
    }
    return className[i] == 0 && (name[i] == 0 || name[i] == 0x2E);
  }

  // ---------- 16-bit units ----------

  /** The value a 16-bit unit has once it is in host order. */
  function UnitValue(data: seq<Byte>, unit: nat): nat
    requires 2 * unit + 1 < |data|
  {
    data[2 * unit] as nat * 256 + data[2 * unit + 1] as nat
  }

  /** The value a little-endian host reads from a 16-bit unit. */
  function HostUnit(data: seq<Byte>, unit: nat): nat
    requires 2 * unit + 1 < |data|
  {
    data[2 * unit + 1] as nat * 256 + data[2 * unit] as nat
  }

  /** BYTE_SWAP_SHORT of one unit in place. */
  function SwapUnit(data: seq<Byte>, unit: nat): seq<Byte>
    requires 2 * unit + 1 < |data|
  {
    data[2 * unit := data[2 * unit + 1]][2 * unit + 1 := data[2 * unit]]
  }

  /** The first count units swapped, the rest as it was. */
  ghost function SwapUnits(data: seq<Byte>, count: nat): seq<Byte>
    requires 2 * count <= |data|
  {
    seq(|data|, i requires 0 <= i < |data| =>
      if 2 * count <= i then data[i] else if i % 2 == 0 then data[i + 1] else data[i - 1])
  }

  lemma SwapUnitsStep(data: seq<Byte>, count: nat)
    requires 2 * count + 1 < |data|
    ensures SwapUnits(data, count + 1) == SwapUnit(SwapUnits(data, count), count)
  {
  }

  lemma SwapUnitsInvolutive(data: seq<Byte>, count: nat)
    requires 2 * count <= |data|
    ensures SwapUnits(SwapUnits(data, count), count) == data
  {
  }

  method SwapString(data: seq<Byte>) returns (r: seq<Byte>)
    ensures r == SwapUnits(data, |data| / 2)
  {
    r := data;
    var count := |data| / 2;
    assert data == SwapUnits(data, 0);
    for s := 0 to count
      invariant r == SwapUnits(data, s)
    {
      SwapUnitsStep(data, s);
      r := SwapUnit(r, s);
    }
  }

  /** How many 16-bit units an encoding map has: a header of four and its table, or just the
      format word when the format is neither 8-bit to Unicode (0) nor Unicode to 8-bit (4). */
  ghost function EncodingUnits(data: seq<Byte>): nat
    requires 2 <= |data| && (UnitValue(data, 0) == 0 || UnitValue(data, 0) == 4 ==> 8 <= |data|)
  {
    if UnitValue(data, 0) == 0 then 4 + UnitValue(data, 1)
    else if UnitValue(data, 0) == 4 then 4 + 3 * UnitValue(data, 3)
    else 1
  }

  /** The whole table is there. */
  ghost predicate EncodingReadable(data: seq<Byte>) {
    && 2 <= |data|
    && (UnitValue(data, 0) == 0 || UnitValue(data, 0) == 4 ==> 8 <= |data|)
    && 2 * EncodingUnits(data) <= |data|
  }

  method SwapEncodingMap(data: seq<Byte>) returns (r: seq<Byte>)
    requires EncodingReadable(data)
    ensures r == SwapUnits(data, EncodingUnits(data))
  {
    assert data == SwapUnits(data, 0);
    SwapUnitsStep(data, 0);
    r := SwapUnit(data, 0);
    var formatId := HostUnit(r, 0);
    if formatId == 0 {
      r := SwapUnit(r, 1);
      var unicodeTableSize := HostUnit(r, 1);
      r := SwapUnit(r, 2);
      r := SwapUnit(r, 3);
      HeaderSwapped(data);
      for i := 0 to unicodeTableSize
        invariant r == SwapUnits(data, 4 + i)
      {
        SwapUnitsStep(data, 4 + i);
        r := SwapUnit(r, 4 + i);
      }
    } else if formatId == 4 {
      r := SwapUnit(r, 1);
      r := SwapUnit(r, 2);
      r := SwapUnit(r, 3);
      HeaderSwapped(data);
      var unicodeTableSize := HostUnit(r, 3);
      for i := 0 to 3 * unicodeTableSize
        invariant r == SwapUnits(data, 4 + i)
      {
        SwapUnitsStep(data, 4 + i);
        r := SwapUnit(r, 4 + i);
      }
    }
  }

  lemma HeaderSwapped(data: seq<Byte>)
    requires 8 <= |data|
    ensures SwapUnit(SwapUnit(SwapUnit(SwapUnit(data, 0), 1), 2), 3) == SwapUnits(data, 4)
  {
    SwapUnitsStep(data, 1);
    SwapUnitsStep(data, 2);
    SwapUnitsStep(data, 3);
    assert SwapUnit(data, 0) == SwapUnits(data, 1);
  }

  // ---------- longs ----------

  function ReverseLong(word: seq<Byte>): seq<Byte>
    requires |word| == 4
  {
    [word[3], word[2], word[1], word[0]]
  }

  /** The first count bytes in the opposite order, the rest as it was. */
  ghost function ReverseFirst(data: seq<Byte>, count: nat): seq<Byte>
    requires count <= |data|
  {
    seq(|data|, i requires 0 <= i < |data| => if i < count then data[count - 1 - i] else data[i])
  }

  method SwapHash(data: seq<Byte>) returns (r: seq<Byte>)
    requires 4 <= |data|
    ensures r == ReverseFirst(data, 4)
  {
    r := ReverseLong(data[..4]) + data[4..];
  }

  /** Two swapped words that also change places. */
  method SwapReal(data: seq<Byte>) returns (r: seq<Byte>)
    requires 8 <= |data|
    ensures r == ReverseFirst(data, 8)
  {
    var tmp := ReverseLong(data[4..8]);
    r := data[..4] + ReverseLong(data[..4]) + data[8..];
    r := tmp + r[4..];
  }

  // ---------- which of them applies ----------

  predicate IsSymbol(sym: SrcObject) { sym.objClass == Swap32(K_SYMBOL_CLASS) }

  predicate NameReadable(sym: SrcObject) { 4 <= |sym.data| && 0 in sym.data[4..] }

  ghost predicate Names(sym: SrcObject, className: seq<Byte>)
    requires 0 in className
  {
    IsSymbol(sym) && NameReadable(sym) && SubclassName(CString(sym.data[4..]), CString(className))
  }

  /** The name of a class symbol is there, and the fixed parts of the binaries it makes the converter
      rearrange. */
  ghost predicate SymReadable(sym: SrcObject, data: seq<Byte>) {
    && (IsSymbol(sym) ==> NameReadable(sym))
    && (Names(sym, REAL_NAME) ==> 8 <= |data|)
    && (Names(sym, UNIC_NAME) ==> EncodingReadable(data))
  }

  /** What the bytes of an object become whose class sym is said to be. */
  ghost function BySymbol(sym: SrcObject, data: seq<Byte>): seq<Byte>
    requires SymReadable(sym, data)
  {
    if Names(sym, STRING_NAME) then SwapUnits(data, |data| / 2)
    else if Names(sym, REAL_NAME) then ReverseFirst(data, 8)
    else if Names(sym, UNIC_NAME) then SwapUnits(data, EncodingUnits(data))
    else data
  }

  /** What the local variable sym points to when it is read: the class, if that is a pointer; otherwise
      nothing has set it, and it points wherever it did. */
  function SymbolOf(part: Part, obj: SrcObject, unset: SrcObject): SrcObject {
    var c := Swap32(obj.objClass);
    if IsPtr(c) && c in part then part[c] else unset
  }

  ghost predicate ReadableWith(part: Part, obj: SrcObject, unset: SrcObject) {
    var c := Swap32(obj.objClass);
    if c == K_SYMBOL_CLASS then 4 <= |obj.data|
    else (IsPtr(c) ==> c in part) && SymReadable(SymbolOf(part, obj, unset), obj.data)
  }

  /** What a binary object's bytes become. */
  ghost function PayloadWith(part: Part, obj: SrcObject, unset: SrcObject): seq<Byte>
    requires ReadableWith(part, obj, unset)
  {
    if Swap32(obj.objClass) == K_SYMBOL_CLASS then ReverseFirst(obj.data, 4)
    else BySymbol(SymbolOf(part, obj, unset), obj.data)
  }

  const NO_SYMBOL: SrcObject := SrcObject(0, 0, Ref32(0), [], [])

  /** The class of a binary object is kSymbolClass or a pointer, so that sym is set before it is read; and
      what the converter reads is there. */
  ghost predicate PayloadReadable(part: Part, obj: SrcObject) {
    ClassKnown(Swap32(obj.objClass)) && ReadableWith(part, obj, NO_SYMBOL)
  }

  predicate ClassKnown(c: Ref32) { c == K_SYMBOL_CLASS || IsPtr(c) }

  /** What the bytes become then, whatever sym pointed to before. */
  ghost function NewPayload(part: Part, obj: SrcObject): seq<Byte>
    requires PayloadReadable(part, obj)
  {
    PayloadWith(part, obj, NO_SYMBOL)
  }

  lemma UnsetUnread(part: Part, obj: SrcObject, unset: SrcObject)
    requires PayloadReadable(part, obj)
    ensures ReadableWith(part, obj, unset) && PayloadWith(part, obj, unset) == NewPayload(part, obj)
  {
  }

  /** Wherever sym pointed before, the bytes become the same. */
  ghost predicate SameWith(part: Part, obj: SrcObject, x: SrcObject, y: SrcObject) {
    ReadableWith(part, obj, x) && ReadableWith(part, obj, y) ==> PayloadWith(part, obj, x) == PayloadWith(part, obj, y)
  }

  /** Of a class that is neither kSymbolClass nor a pointer there are objects whose bytes depend on it. */
  lemma UnsetRead(part: Part, objClass: Ref32)
    ensures ClassKnown(Swap32(objClass)) <==>
      forall obj: SrcObject, x: SrcObject, y: SrcObject :: obj.objClass == objClass ==> SameWith(part, obj, x, y)
  {
    if ClassKnown(Swap32(objClass)) {
      forall obj: SrcObject, x: SrcObject, y: SrcObject | obj.objClass == objClass ensures SameWith(part, obj, x, y) {
        KnownSame(part, obj, x, y);
      }
    } else {
      var obj := SrcObject(14, 0, objClass, [], [1, 2]);
      UnknownDiffers(part, obj);
      assert !SameWith(part, obj, StringSymbol(), NO_SYMBOL);
    }
  }

  lemma KnownSame(part: Part, obj: SrcObject, x: SrcObject, y: SrcObject)
    requires ClassKnown(Swap32(obj.objClass))
    ensures SameWith(part, obj, x, y)
  {
  }

  /** The symbol 'string. */
  function StringSymbol(): SrcObject {
    SrcObject(HEADER_32 + 11, 0, Swap32(K_SYMBOL_CLASS), [], [0, 0, 0, 0] + STRING_NAME)
  }

  lemma StringSymbolNames()
    ensures NameReadable(StringSymbol()) && Names(StringSymbol(), STRING_NAME)
    ensures !Names(StringSymbol(), REAL_NAME) && !Names(StringSymbol(), UNIC_NAME)
  {
    var name := StringSymbol().data[4..];
    assert name == STRING_NAME && name[6] == 0;
    FirstDiffers(name, REAL_NAME);
    FirstDiffers(name, UNIC_NAME);
  }

  lemma FirstDiffers(name: seq<Byte>, className: seq<Byte>)
    requires 0 in name && 0 in className && className[0] != 0 && (name[0] != 0 ==> ToLower(name[0]) != ToLower(className[0]))
    ensures !SubclassName(CString(name), CString(className))
  {
    assert Terminator(className) > 0;
  }

  lemma SwapTwo()
    ensures SwapUnits([1, 2], 1) == [2, 1]
  {
  }

  lemma BySymbolOfTwo(data: seq<Byte>)
    requires data == [1, 2]
    ensures SymReadable(StringSymbol(), data) && BySymbol(StringSymbol(), data) == [2, 1]
    ensures SymReadable(NO_SYMBOL, data) && BySymbol(NO_SYMBOL, data) == data
  {
    StringSymbolNames();
    SwapTwo();
    NoSymbol();
  }

  lemma NoSymbol()
    ensures !IsSymbol(NO_SYMBOL)
  {
  }

  lemma UnknownDiffers(part: Part, obj: SrcObject)
    requires !ClassKnown(Swap32(obj.objClass)) && obj.data == [1, 2]
    ensures ReadableWith(part, obj, StringSymbol()) && PayloadWith(part, obj, StringSymbol()) == [2, 1]
    ensures ReadableWith(part, obj, NO_SYMBOL) && PayloadWith(part, obj, NO_SYMBOL) == [1, 2]
  {
    BySymbolOfTwo(obj.data);
  }

  /** Conversion moves bytes and neither loses nor invents any. */
  lemma NewPayloadPermutes(part: Part, obj: SrcObject)
    requires PayloadReadable(part, obj)
    ensures |NewPayload(part, obj)| == |obj.data|
    ensures multiset(NewPayload(part, obj)) == multiset(obj.data)
  {
    if Swap32(obj.objClass) == K_SYMBOL_CLASS {
      ReverseFirstPermutes(obj.data, 4);
    } else {
      BySymbolPermutes(SymbolOf(part, obj, NO_SYMBOL), obj.data);
    }
  }

  lemma BySymbolPermutes(sym: SrcObject, data: seq<Byte>)
    requires SymReadable(sym, data)
    ensures |BySymbol(sym, data)| == |data| && multiset(BySymbol(sym, data)) == multiset(data)
  {
    if Names(sym, STRING_NAME) {
      SwapUnitsPermutes(data, |data| / 2);
    } else if Names(sym, REAL_NAME) {
      ReverseFirstPermutes(data, 8);
    } else if Names(sym, UNIC_NAME) {
      SwapUnitsPermutes(data, EncodingUnits(data));
    }
  }

  lemma {:induction false} SwapUnitsPermutes(data: seq<Byte>, count: nat)
    requires 2 * count <= |data|
    ensures multiset(SwapUnits(data, count)) == multiset(data)
    decreases count
  {
    if count == 0 {
      assert SwapUnits(data, 0) == data;
    } else {
      SwapUnitsPermutes(data, count - 1);
      SwapUnitsStep(data, count - 1);
      SwapUnitPermutes(SwapUnits(data, count - 1), count - 1);
    }
  }

  lemma SwapUnitPermutes(s: seq<Byte>, unit: nat)
    requires 2 * unit + 1 < |s|
    ensures multiset(SwapUnit(s, unit)) == multiset(s)
  {
    SwapPermutes(s, 2 * unit, 2 * unit + 1);
  }

  lemma SwapPermutes(s: seq<Byte>, i: nat, j: nat)
    requires i < j < |s|
    ensures multiset(s[i := s[j]][j := s[i]]) == multiset(s)
  {
  }

  lemma {:induction false} ReverseFirstPermutes(data: seq<Byte>, count: nat)
    requires count <= |data|
    ensures multiset(ReverseFirst(data, count)) == multiset(data)
    decreases count
  {
    if count < 2 {
      assert ReverseFirst(data, count) == data;
    } else {
      var inner := data[1..count - 1];
      ReverseFirstPermutes(inner, count - 2);
      assert data == [data[0]] + inner + [data[count - 1]] + data[count..];
      assert ReverseFirst(data, count)
          == [data[count - 1]] + ReverseFirst(inner, count - 2) + [data[0]] + data[count..];
    }
  }
}
