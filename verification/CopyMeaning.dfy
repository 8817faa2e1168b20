/** What the copy of an object says to the host: its kind, its size, what it refers to, and the values in
    its bytes; all told in terms of the original's bytes. */
module CopyMeaning {
  import opened Memory
  import opened Refs
  import opened ObjectGraph
  import opened Payload
  import opened GraphCopy

  // ---------- references ----------

  /** The last digits of a number in base two are the bits of the word. */
  predicate SameDigits(w: bv32, n: int, digits: nat)
    decreases digits
  {
    digits == 0 || ((n % 2 == 1 <==> w & 1 == 1) && SameDigits(w >> 1, n / 2, digits - 1))
  }

  /** The signed number that a word of 32 bits stands for. */
  predicate SignedWord(w: bv32, n: int) {
    -0x8000_0000 <= n < 0x8000_0000 && SameDigits(w, n, 32)
  }

  /** The new reference is the forwarding pointer, or the immediate with its sign extended. */
  ghost predicate RefIs(f: RefMap, raw: Ref32, ref: Ref) {
    var r := Ref32(SwapLong(raw.word));
    if r.word & 3 == 1 then r in f && ref == f[r] else SignedWord(r.word, ref)
  }

  function TwoTo(n: nat): nat {
    if n == 0 then 1 else 2 * TwoTo(n - 1)
  }

  lemma {:induction false} DigitsOfNumber(w: bv32, bits: nat, more: int)
    ensures SameDigits(w, Number(w, bits) + TwoTo(bits) * more, bits) && Number(w, bits) < TwoTo(bits)
  {
    if bits > 0 {
      DigitsOfNumber(w >> 1, bits - 1, more);
      Halved(if w & 1 == 1 then 1 else 0, Number(w >> 1, bits - 1), TwoTo(bits - 1), more);
    }
  }

  lemma Halved(bit: nat, rest: nat, place: nat, more: int)
    requires bit < 2
    ensures var n := bit + 2 * rest + 2 * place * more; n % 2 == bit && n / 2 == rest + place * more
  {
    assert 2 * place * more == 2 * (place * more);
  }

  lemma TwoTo32()
    ensures TwoTo(32) == 0x1_0000_0000
  {
    assert TwoTo(8) == 0x100;
    assert TwoTo(16) == 0x1_0000;
    assert TwoTo(24) == 0x100_0000;
  }

  lemma TranslateMeans(f: RefMap, raw: Ref32)
    requires Forwarded(f, raw)
    ensures RefIs(f, raw, Translate(f, raw))
  {
    var w := SwapLong(raw.word);
    TwoTo32();
    DigitsOfNumber(w, 32, 0);
    DigitsOfNumber(w, 32, -1);
  }

  // ---------- values ----------

  function BigEndian(b: seq<Byte>): nat {
    if b == [] then 0 else BigEndian(b[..|b| - 1]) * 256 + b[|b| - 1] as nat
  }

  function LittleEndian(b: seq<Byte>): nat {
    if b == [] then 0 else b[0] as nat + 256 * LittleEndian(b[1..])
  }

  lemma {:induction false} TurnedRound(b: seq<Byte>, c: seq<Byte>)
    requires |c| == |b| && forall i :: 0 <= i < |b| ==> c[i] == b[|b| - 1 - i]
    ensures LittleEndian(c) == BigEndian(b)
  {
    if b != [] {
      TurnedRound(b[..|b| - 1], c[1..]);
    }
  }

  /** The value in the first n bytes is the one that the original had in the other order of bytes, and the
      rest is the same. */
  ghost predicate ValueKept(data: seq<Byte>, copy: seq<Byte>, n: nat) {
    && n <= |data| == |copy|
    && LittleEndian(copy[..n]) == BigEndian(data[..n]) && copy[n..] == data[n..]
  }

  /** So it is with each of the first n 16-bit units. */
  ghost predicate UnitsKept(data: seq<Byte>, copy: seq<Byte>, n: nat) {
    && 2 * n <= |data| == |copy|
    && (forall u :: 0 <= u < n ==> HostUnit(copy, u) == UnitValue(data, u)) && copy[2 * n..] == data[2 * n..]
  }

  /** The value of a 16-bit unit is that of its two bytes. */
  lemma UnitIs(data: seq<Byte>, unit: nat)
    requires 2 * unit + 1 < |data|
    ensures UnitValue(data, unit) == BigEndian(data[2 * unit..2 * unit + 2])
    ensures HostUnit(data, unit) == LittleEndian(data[2 * unit..2 * unit + 2])
  {
    var b := data[2 * unit..2 * unit + 2];
    assert b[..1][..0] == [] && b[..1] == [b[0]] && b[1..] == [b[1]] && b[1..][1..] == [];
    assert BigEndian(b[..1]) == b[0] as nat && LittleEndian(b[1..]) == b[1] as nat;
  }

  lemma ReverseKeeps(data: seq<Byte>, n: nat)
    requires n <= |data|
    ensures ValueKept(data, ReverseFirst(data, n), n)
  {
    TurnedRound(data[..n], ReverseFirst(data, n)[..n]);
  }

  lemma SwapKeeps(data: seq<Byte>, n: nat)
    requires 2 * n <= |data|
    ensures UnitsKept(data, SwapUnits(data, n), n)
  {
  }

  // ---------- names ----------

  function Lower(c: char): char {
    if 'A' <= c <= 'Z' then (c as int + 32) as char else c
  }

  /** The symbol's name is the class name, or that and a dot and more; upper and lower case are the same. */
  ghost predicate Called(name: seq<Byte>, className: string) {
    && |className| <= |name|
    && (forall i :: 0 <= i < |className| ==> Lower(name[i] as char) == Lower(className[i]))
    && (|name| == |className| || name[|className|] as char == '.')
  }

  lemma LowerIs(c: Byte)
    ensures ToLower(c) as char == Lower(c as char)
  {
  }

  lemma LowerSame(c: Byte, d: Byte)
    ensures ToLower(c) == ToLower(d) <==> Lower(c as char) == Lower(d as char)
  {
    LowerIs(c);
    LowerIs(d);
  }

  /** The bytes spell the string and end it. */
  ghost predicate Spells(b: seq<Byte>, s: string) {
    && |b| == |s| + 1 && b[|s|] == 0
    && forall i :: 0 <= i < |s| ==> b[i] != 0 && b[i] as char == s[i]
  }

  lemma NamesSpelled()
    ensures Spells(STRING_NAME, "string") && Spells(REAL_NAME, "real") && Spells(UNIC_NAME, "UniC")
  {
  }

  lemma SubclassCalled(name: seq<Byte>, className: seq<Byte>, s: string)
    requires Spells(className, s)
    ensures SubclassName(name, CString(className)) <==> Called(name, s)
  {
    assert Terminator(className) == |s|;
    forall i | 0 <= i < |s| && i < |name|
      ensures ToLower(name[i]) == ToLower(className[i]) <==> Lower(name[i] as char) == Lower(s[i])
    {
      LowerSame(name[i], className[i]);
    }
  }

  // ---------- objects ----------

  /** What becomes of the bytes of an object whose class is the symbol sym. */
  ghost predicate NamedPayloadIs(sym: SrcObject, data: seq<Byte>, copy: seq<Byte>) {
    if SwapLong(sym.objClass.word) != 0x55552 then copy == data
    else
      && 4 <= |sym.data| && 0 in sym.data[4..]
      && var name := CString(sym.data[4..]);
         if Called(name, "string") then UnitsKept(data, copy, |data| / 2)
         else if Called(name, "real") then ValueKept(data, copy, 8)
         else if Called(name, "UniC") then EncodingKept(data, copy)
         else copy == data
  }

  /** An encoding map: four units and its table if it is from 8-bit characters to Unicode, format 0; four units
      and three tables the other way, format 4; and otherwise nothing but the format. */
  ghost predicate EncodingKept(data: seq<Byte>, copy: seq<Byte>) {
    && 2 <= |data|
    && var format := UnitValue(data, 0);
       if format == 0 then 8 <= |data| && UnitsKept(data, copy, 4 + UnitValue(data, 1))
       else if format == 4 then 8 <= |data| && UnitsKept(data, copy, 4 + 3 * UnitValue(data, 3))
       else UnitsKept(data, copy, 1)
  }

  ghost predicate PayloadIs(part: Part, obj: SrcObject, copy: seq<Byte>) {
    var c := SwapLong(obj.objClass.word);
    if c == 0x55552 then ValueKept(obj.data, copy, 4)
    else c & 1 == 1 && Ref32(c) in part && NamedPayloadIs(part[Ref32(c)], obj.data, copy)
  }

  /** The copy of an object: a read-only object of the same kind, its size that of its header of 20 bytes
      and of its slots or bytes, as far as 24 bits tell. */
  ghost predicate CopyIs(part: Part, f: RefMap, obj: SrcObject, copy: DstObject) {
    && copy.flags & 0x03 == obj.flags & 0x03 && copy.flags & 0xFC == 0x40 && copy.gc == 0
    && RefIs(f, obj.objClass, copy.objClass)
    && if obj.flags & 0x01 == 0x01 then
         && |copy.slots| == |obj.slots| == (obj.size - 12) / 4 && copy.data == []
         && copy.size == (20 + 8 * |obj.slots|) % 0x100_0000
         && forall k :: 0 <= k < |obj.slots| ==> RefIs(f, obj.slots[k], copy.slots[k])
       else
         && |copy.data| == |obj.data| == obj.size - 12 && copy.slots == []
         && copy.size == (20 + |obj.data|) % 0x100_0000
         && PayloadIs(part, obj, copy.data)
  }

  lemma FlagsMean(flags: bv8)
    ensures var g := K_OBJ_READ_ONLY | (flags & K_OBJ_MASK); g & 0x03 == flags & 0x03 && g & 0xFC == 0x40
    ensures flags & K_OBJ_SLOTTED != 0 <==> flags & 0x01 == 0x01
  {
  }

  lemma SymbolIs(sym: SrcObject)
    ensures IsSymbol(sym) <==> SwapLong(sym.objClass.word) == 0x55552
  {
    SwapLongInvolutive(sym.objClass.word);
    SwapLongInvolutive(0x55552);
  }

  lemma BySymbolMeans(sym: SrcObject, data: seq<Byte>)
    requires SymReadable(sym, data)
    ensures NamedPayloadIs(sym, data, BySymbol(sym, data))
  {
    SymbolIs(sym);
    if IsSymbol(sym) {
      NamesSpelled();
      var name := CString(sym.data[4..]);
      SubclassCalled(name, STRING_NAME, "string");
      SubclassCalled(name, REAL_NAME, "real");
      SubclassCalled(name, UNIC_NAME, "UniC");
      NamedMeans(sym, data);
    }
  }

  lemma NamedMeans(sym: SrcObject, data: seq<Byte>)
    requires SymReadable(sym, data)
    ensures Names(sym, STRING_NAME) ==> UnitsKept(data, BySymbol(sym, data), |data| / 2)
    ensures !Names(sym, STRING_NAME) && Names(sym, REAL_NAME) ==> ValueKept(data, BySymbol(sym, data), 8)
    ensures !Names(sym, STRING_NAME) && !Names(sym, REAL_NAME) && Names(sym, UNIC_NAME) ==> EncodingKept(data, BySymbol(sym, data))
  {
    if Names(sym, STRING_NAME) {
      SwapKeeps(data, |data| / 2);
    } else if Names(sym, REAL_NAME) {
      ReverseKeeps(data, 8);
    } else if Names(sym, UNIC_NAME) {
      SwapKeeps(data, EncodingUnits(data));
    }
  }

  lemma PayloadMeans(part: Part, obj: SrcObject)
    requires PayloadReadable(part, obj)
    ensures PayloadIs(part, obj, NewPayload(part, obj)) && |NewPayload(part, obj)| == |obj.data|
  {
    NewPayloadPermutes(part, obj);
    var c := Swap32(obj.objClass);
    if c == K_SYMBOL_CLASS {
      ReverseKeeps(obj.data, 4);
    } else {
      BySymbolMeans(SymbolOf(part, obj, NO_SYMBOL), obj.data);
    }
  }

  /** A finished copy is what it should be. */
  lemma CopiedMeans(part: Part, f: RefMap, memory: map<int, DstObject>, r: Ref32)
    requires Copied(part, f, memory, r)
    ensures CopyIs(part, f, part[r], memory[Address(f[r])])
  {
    var obj, copy := part[r], memory[Address(f[r])];
    FlagsMean(obj.flags);
    assert obj.Targets()[0] in obj.Targets();
    TranslateMeans(f, obj.objClass);
    if obj.Slotted() {
      forall k | 0 <= k < |obj.slots| ensures RefIs(f, obj.slots[k], copy.slots[k]) {
        assert obj.Targets()[k + 1] in obj.Targets();
        TranslateMeans(f, obj.slots[k]);
      }
    } else {
      PayloadMeans(part, obj);
    }
  }

  /** Every copy in memory is. */
  ghost predicate AllCopiesAre(part: Part, f: RefMap, memory: map<int, DstObject>) {
    forall r {:trigger Address(f[r])} :: r in f ==>
      r in part && Address(f[r]) in memory && CopyIs(part, f, part[r], memory[Address(f[r])])
  }

  lemma GraphCopyMeans(part: Part, root: Ref32, f: RefMap, memory: map<int, DstObject>)
    requires IsGraphCopy(part, root, f, memory)
    ensures AllCopiesAre(part, f, memory)
  {
    forall r | r in f ensures r in part && Address(f[r]) in memory && CopyIs(part, f, part[r], memory[Address(f[r])]) {
      assert Copied(part, f, memory, r);
      CopiedMeans(part, f, memory, r);
    }
  }

  // ---------- and nothing else is ----------

  lemma {:induction false} DigitsTell(w: bv32, n: int, m: int, digits: nat) returns (q: int)
    requires SameDigits(w, n, digits) && SameDigits(w, m, digits)
    ensures n == m + TwoTo(digits) * q
    decreases digits
  {
    if digits == 0 {
      q := n - m;
    } else {
      q := DigitsTell(w >> 1, n / 2, m / 2, digits - 1);
      assert 2 * (TwoTo(digits - 1) * q) == TwoTo(digits) * q;
    }
  }

  lemma RefTold(f: RefMap, raw: Ref32, x: Ref, y: Ref)
    requires RefIs(f, raw, x) && RefIs(f, raw, y)
    ensures x == y
  {
    var w := SwapLong(raw.word);
    if w & 3 != 1 {
      TwoTo32();
      var q := DigitsTell(w, x, y, 32);
    }
  }

  lemma {:induction false} ValueTold(a: seq<Byte>, b: seq<Byte>)
    requires |a| == |b| && LittleEndian(a) == LittleEndian(b)
    ensures a == b
  {
    if a != [] {
      ValueTold(a[1..], b[1..]);
    }
  }

  lemma SameValues(data: seq<Byte>, x: seq<Byte>, y: seq<Byte>, n: nat)
    requires ValueKept(data, x, n) && ValueKept(data, y, n)
    ensures x == y
  {
    ValueTold(x[..n], y[..n]);
    assert x == x[..n] + x[n..] && y == y[..n] + y[n..];
  }

  lemma ByteTold(a: Byte, b: Byte)
    requires a as nat == b as nat
    ensures a == b
  {
  }

  lemma TwoTold(a: nat, b: nat, c: nat, d: nat)
    requires a < 256 && c < 256 && b * 256 + a == d * 256 + c
    ensures a == c && b == d
  {
  }

  lemma UnitTold(x: seq<Byte>, y: seq<Byte>, unit: nat)
    requires 2 * unit + 1 < |x| == |y| && HostUnit(x, unit) == HostUnit(y, unit)
    ensures x[2 * unit] == y[2 * unit] && x[2 * unit + 1] == y[2 * unit + 1]
  {
    TwoTold(x[2 * unit] as nat, x[2 * unit + 1] as nat, y[2 * unit] as nat, y[2 * unit + 1] as nat);
    ByteTold(x[2 * unit], y[2 * unit]);
    ByteTold(x[2 * unit + 1], y[2 * unit + 1]);
  }

  lemma SameUnits(data: seq<Byte>, x: seq<Byte>, y: seq<Byte>, n: nat)
    requires UnitsKept(data, x, n) && UnitsKept(data, y, n)
    ensures x == y
  {
    forall i | 0 <= i < |x| ensures x[i] == y[i] {
      if i < 2 * n {
        UnitTold(x, y, i / 2);
      } else {
        assert x[i] == x[2 * n..][i - 2 * n] && y[i] == y[2 * n..][i - 2 * n];
      }
    }
  }

  lemma SamePayload(part: Part, obj: SrcObject, x: seq<Byte>, y: seq<Byte>)
    requires PayloadIs(part, obj, x) && PayloadIs(part, obj, y)
    ensures x == y
  {
    var c := SwapLong(obj.objClass.word);
    if c == 0x55552 {
      SameValues(obj.data, x, y, 4);
    } else {
      SameNamed(part[Ref32(c)], obj.data, x, y);
    }
  }

  lemma SameNamed(sym: SrcObject, data: seq<Byte>, x: seq<Byte>, y: seq<Byte>)
    requires NamedPayloadIs(sym, data, x) && NamedPayloadIs(sym, data, y)
    ensures x == y
  {
    if SwapLong(sym.objClass.word) == 0x55552 {
      var name := CString(sym.data[4..]);
      if Called(name, "string") {
        SameUnits(data, x, y, |data| / 2);
      } else if Called(name, "real") {
        SameValues(data, x, y, 8);
      } else if Called(name, "UniC") {
        SameUnits(data, x, y,
          if UnitValue(data, 0) == 0 then 4 + UnitValue(data, 1) else if UnitValue(data, 0) == 4 then 4 + 3 * UnitValue(data, 3) else 1);
      }
    }
  }

  lemma FlagsTold(x: bv8, y: bv8)
    requires x & 0x03 == y & 0x03 && x & 0xFC == y & 0xFC
    ensures x == y
  {
  }

  /** There is but one object that the copy can be. */
  lemma CopyTold(part: Part, f: RefMap, obj: SrcObject, x: DstObject, y: DstObject)
    requires CopyIs(part, f, obj, x) && CopyIs(part, f, obj, y)
    ensures x == y
  {
    FlagsTold(x.flags, y.flags);
    RefTold(f, obj.objClass, x.objClass, y.objClass);
    if obj.flags & 0x01 == 0x01 {
      forall k | 0 <= k < |obj.slots| ensures x.slots[k] == y.slots[k] {
        RefTold(f, obj.slots[k], x.slots[k], y.slots[k]);
      }
      assert x.slots == y.slots;
    } else {
      SamePayload(part, obj, x.data, y.data);
    }
  }
}
