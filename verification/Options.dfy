/** Option records packed one behind the other in a block of bytes. */
module Options {
  import opened Memory

  /** sizeof(COption): a 32-bit label, 32 bits of flags and a 64-bit length, then the data. */
  const HEADER: nat := 16

  /** A little-endian number. */
  function Number(bytes: seq<Byte>): nat {
    if bytes == [] then 0 else bytes[0] as nat + 256 * Number(bytes[1..])
  }

  /** label() and length() of the option whose header starts the bytes. */
  function Label(option: seq<Byte>): nat
    requires HEADER <= |option|
  {
    Number(option[..4])
  }

  function Length(option: seq<Byte>): nat
    requires HEADER <= |option|
  {
    Number(option[8..16])
  }

  /** The bytes an option takes in the block. */
  function RecordSize(option: seq<Byte>): nat
    requires HEADER <= |option|
  {
    LongAlign(HEADER + Length(option))
  }

  /** A record is one option with its padding. */
  predicate IsRecord(r: seq<Byte>) { HEADER <= |r| && |r| == RecordSize(r) }

  ghost predicate AreRecords(records: seq<seq<Byte>>) {
    forall i {:trigger IsRecord(records[i])} :: 0 <= i < |records| ==> IsRecord(records[i])
  }

  predicate HasLabel(r: seq<Byte>, wanted: nat) { HEADER <= |r| && Label(r) == wanted }

  /** Only the header says how long an option is. */
  lemma SizeFromHeader(a: seq<Byte>, b: seq<Byte>)
    requires HEADER <= |a| && HEADER <= |b| && a[..HEADER] == b[..HEADER]
    ensures RecordSize(a) == RecordSize(b) && Label(a) == Label(b)
  {
    assert a[8..16] == a[..HEADER][8..16] == b[8..16];
    assert a[..4] == a[..HEADER][..4] == b[..4];
  }

  // ---------- sizes, written out ----------

  function Four(b: seq<Byte>): nat
    requires |b| == 4
  {
    b[0] as nat + 0x100 * b[1] as nat + 0x1_0000 * b[2] as nat + 0x100_0000 * b[3] as nat
  }

  lemma FourBytes(b: seq<Byte>)
    requires |b| == 4
    ensures Number(b) == Four(b)
  {
    assert b[1..][1..] == b[2..] && b[2..][1..] == b[3..] && b[3..][1..] == [];
    assert Number(b[3..]) == b[3] as nat;
    assert Number(b[2..]) == b[2] as nat + 256 * Number(b[3..]);
    assert Number(b[1..]) == b[1] as nat + 256 * Number(b[2..]);
  }

  lemma {:induction false} NumberAppend(a: seq<Byte>, b: seq<Byte>, place: nat)
    requires place == Places(|a|)
    ensures Number(a + b) == Number(a) + place * Number(b)
  {
    if a == [] {
      assert a + b == b;
    } else {
      NumberAppend(a[1..], b, Places(|a| - 1));
      assert (a + b)[1..] == a[1..] + b;
      Regroup(Places(|a| - 1), Number(b));
    }
  }

  lemma Regroup(place: nat, n: nat)
    ensures 256 * (place * n) == 256 * place * n
  {
  }

  function Places(n: nat): nat {
    if n == 0 then 1 else 256 * Places(n - 1)
  }

  /** The 64-bit length that an option's header announces. */
  function Announced(option: seq<Byte>): nat
    requires 16 <= |option|
  {
    Four(option[8..12]) + 0x1_0000_0000 * Four(option[12..16])
  }

  /** The option's header and its data, and no more than what brings them to a multiple of four bytes. */
  predicate Padded(r: seq<Byte>, length: nat) {
    |r| % 4 == 0 && 16 + length <= |r| < 16 + length + 4
  }

  lemma HeaderIs(option: seq<Byte>)
    requires 16 <= |option|
    ensures Label(option) == Four(option[..4]) && Length(option) == Announced(option)
  {
    FourBytes(option[..4]);
    FourBytes(option[8..12]);
    FourBytes(option[12..16]);
    assert option[8..16] == option[8..12] + option[12..16];
    assert Places(4) == 0x1_0000_0000 by {
      assert Places(2) == 0x1_0000;
    }
    NumberAppend(option[8..12], option[12..16], 0x1_0000_0000);
  }

  /** A record is what its header says, padded. */
  lemma RecordIsPadded(r: seq<Byte>)
    requires 16 <= |r|
    ensures IsRecord(r) <==> Padded(r, Announced(r))
  {
    var length := Announced(r);
    HeaderIs(r);
    AlignedIs(16 + length, |r|);
  }

  lemma AlignedIs(n: nat, m: nat)
    ensures m == LongAlign(n) <==> m % 4 == 0 && n <= m < n + 4
  {
  }

  /** What is taken of the memory an option is copied from. */
  lemma TakenIsPadded(option: seq<Byte>)
    requires 16 <= |option| && RecordSize(option) <= |option|
    ensures Padded(option[..RecordSize(option)], Announced(option))
  {
    var length := Announced(option);
    HeaderIs(option);
    AlignedIs(16 + length, LongAlign(16 + length));
  }

  // ---------- packing ----------

  /** What the block holds for a list of records, and where each starts. */
  function Packed(records: seq<seq<Byte>>): seq<Byte> {
    if records == [] then [] else records[0] + Packed(records[1..])
  }

  function Offset(records: seq<seq<Byte>>, index: nat): nat
    requires index <= |records|
  {
    if index == 0 then 0 else |records[0]| + Offset(records[1..], index - 1)
  }

  lemma {:induction false} PackedSplit(records: seq<seq<Byte>>, index: nat)
    requires index <= |records|
    ensures Packed(records) == Packed(records[..index]) + Packed(records[index..])
    ensures |Packed(records[..index])| == Offset(records, index)
  {
    if index == 0 {
      assert records[..0] == [] && records[0..] == records;
    } else {
      PackedSplit(records[1..], index - 1);
      assert records[..index][0] == records[0] && records[..index][1..] == records[1..][..index - 1];
      assert records[1..][index - 1..] == records[index..];
    }
  }

  lemma PackedAppend(a: seq<seq<Byte>>, b: seq<seq<Byte>>)
    ensures Packed(a + b) == Packed(a) + Packed(b)
  {
    PackedSplit(a + b, |a|);
    assert (a + b)[..|a|] == a && (a + b)[|a|..] == b;
  }

  /** The block around one record. */
  lemma PackedAround(records: seq<seq<Byte>>, index: nat)
    requires index < |records|
    ensures Packed(records) == Packed(records[..index]) + records[index] + Packed(records[index + 1..])
    ensures |Packed(records[..index])| == Offset(records, index)
    ensures Offset(records, index + 1) == Offset(records, index) + |records[index]| <= |Packed(records)|
    ensures Packed(records)[Offset(records, index)..Offset(records, index + 1)] == records[index]
  {
    PackedSplit(records, index);
    assert records[index..][0] == records[index] && records[index..][1..] == records[index + 1..];
    OffsetStep(records, index);
  }

  lemma {:induction false} OffsetStep(records: seq<seq<Byte>>, index: nat)
    requires index < |records|
    ensures Offset(records, index + 1) == Offset(records, index) + |records[index]|
  {
    if index > 0 {
      OffsetStep(records[1..], index - 1);
    } else {
      assert Offset(records[1..], 0) == 0;
    }
  }

  /** What a walk reads at the start of a record is that record's size. */
  lemma SizeAt(records: seq<seq<Byte>>, index: nat)
    requires AreRecords(records) && index < |records|
    ensures Offset(records, index) + HEADER <= |Packed(records)|
    ensures RecordSize(Packed(records)[Offset(records, index)..]) == |records[index]|
    ensures Label(Packed(records)[Offset(records, index)..]) == Label(records[index])
    ensures Offset(records, index + 1) == Offset(records, index) + |records[index]| <= |Packed(records)|
  {
    PackedAround(records, index);
    assert IsRecord(records[index]);
    var rest := Packed(records)[Offset(records, index)..];
    assert rest == records[index] + Packed(records[index + 1..]);
    SizeFromHeader(rest, records[index]);
  }

  /** Every record starts at a multiple of four bytes. */
  lemma {:induction false} OffsetAligned(records: seq<seq<Byte>>, index: nat)
    requires AreRecords(records) && index <= |records|
    ensures Offset(records, index) % 4 == 0
  {
    if index > 0 {
      OffsetAligned(records, index - 1);
      OffsetStep(records, index - 1);
      assert IsRecord(records[index - 1]);
      LongAlignRounds(HEADER + Length(records[index - 1]));
      SumAligned(Offset(records, index - 1), |records[index - 1]|);
    }
  }

  lemma SumAligned(a: nat, b: nat)
    requires a % 4 == 0 && b % 4 == 0
    ensures (a + b) % 4 == 0
  {
  }

  /** The record is at a multiple of four bytes in the block, and is what its header says, padded. */
  ghost predicate Laid(block: seq<Byte>, at: nat, r: seq<Byte>) {
    && at % 4 == 0 && at + |r| <= |block| && block[at..at + |r|] == r
    && 16 <= |r| && Padded(r, Announced(r))
  }

  /** Every record is in the block where the walk finds it. */
  ghost predicate AllLaid(block: seq<Byte>, records: seq<seq<Byte>>) {
    && |block| % 4 == 0
    && forall i {:trigger Laid(block, Offset(records, i), records[i])} ::
         0 <= i < |records| ==> Laid(block, Offset(records, i), records[i])
  }

  lemma PackedLaid(records: seq<seq<Byte>>)
    requires AreRecords(records)
    ensures AllLaid(Packed(records), records)
  {
    PackedAligned(records);
    forall i | 0 <= i < |records| ensures Laid(Packed(records), Offset(records, i), records[i]) {
      RecordLaid(records, i);
    }
  }

  lemma RecordLaid(records: seq<seq<Byte>>, index: nat)
    requires AreRecords(records) && index < |records|
    ensures Laid(Packed(records), Offset(records, index), records[index])
  {
    PackedAround(records, index);
    OffsetAligned(records, index);
    assert IsRecord(records[index]);
    RecordIsPadded(records[index]);
  }

  lemma LaidInLonger(block: seq<Byte>, longer: seq<Byte>, at: nat, r: seq<Byte>)
    requires Laid(block, at, r) && block <= longer
    ensures Laid(longer, at, r)
  {
    assert longer[at..at + |r|] == longer[..|block|][at..at + |r|];
  }

  lemma PackedAligned(records: seq<seq<Byte>>)
    requires AreRecords(records)
    ensures |Packed(records)| % 4 == 0
  {
    OffsetEnd(records);
    OffsetAligned(records, |records|);
  }

  lemma OffsetEnd(records: seq<seq<Byte>>)
    ensures Offset(records, |records|) == |Packed(records)|
  {
    PackedSplit(records, |records|);
    assert records[..|records|] == records;
  }

  /** Decoding has one answer: a block is the packing of at most one list of records. */
  lemma {:induction false} DecodingUnique(a: seq<seq<Byte>>, b: seq<seq<Byte>>)
    requires AreRecords(a) && AreRecords(b) && Packed(a) == Packed(b)
    ensures a == b
    decreases |a|
  {
    if a != [] { assert IsRecord(a[0]); }
    if b != [] { assert IsRecord(b[0]); }
    if a != [] && b != [] {
      assert IsRecord(a[0]) && IsRecord(b[0]);
      forall i | 0 <= i < |a| - 1 ensures IsRecord(a[1..][i]) { assert IsRecord(a[i + 1]); }
      forall i | 0 <= i < |b| - 1 ensures IsRecord(b[1..][i]) { assert IsRecord(b[i + 1]); }
      SizeFromHeader(Packed(a), a[0]);
      SizeFromHeader(Packed(b), b[0]);
      assert a[0] == Packed(a)[..|a[0]|] == b[0];
      assert Packed(a[1..]) == Packed(a)[|a[0]|..];
      assert Packed(b[1..]) == Packed(b)[|b[0]|..];
      DecodingUnique(a[1..], b[1..]);
    }
  }

  function Inserted<T>(s: seq<T>, index: nat, x: T): seq<T>
    requires index <= |s|
  {
    s[..index] + [x] + s[index..]
  }

  function Removed<T>(s: seq<T>, index: nat): seq<T>
    requires index < |s|
  {
    s[..index] + s[index + 1..]
  }

  /** Moving bytes up and writing a record into the gap packs the longer list. */
  lemma PackedInserted(records: seq<seq<Byte>>, index: nat, r: seq<Byte>)
    requires index <= |records|
    ensures var at := Offset(records, index);
            && at <= |Packed(records)|
            && Packed(Inserted(records, index, r)) == Packed(records)[..at] + r + Packed(records)[at..]
  {
    PackedSplit(records, index);
    PackedAppend(records[..index] + [r], records[index..]);
    PackedAppend(records[..index], [r]);
    assert Packed([r]) == r;
  }

  /** What is inserted of the memory an option is copied from is the option, padded. */
  lemma InsertedIsPadded(records: seq<seq<Byte>>, index: nat, option: seq<Byte>)
    requires index <= |records| && 16 <= |option| && RecordSize(option) <= |option|
    ensures var s := Inserted(records, index, option[..RecordSize(option)]);
            Padded(s[index], Announced(option)) && |Packed(s)| == |Packed(records)| + |s[index]|
  {
    TakenIsPadded(option);
    PackedInserted(records, index, option[..RecordSize(option)]);
  }

  lemma InsertedAreRecords(records: seq<seq<Byte>>, index: nat, r: seq<Byte>)
    requires index <= |records| && AreRecords(records) && IsRecord(r)
    ensures AreRecords(Inserted(records, index, r))
  {
    var s := Inserted(records, index, r);
    forall i | 0 <= i < |s| ensures IsRecord(s[i]) {
      assert i < index ==> s[i] == records[i] && IsRecord(records[i]);
      assert i > index ==> s[i] == records[i - 1] && IsRecord(records[i - 1]);
    }
  }

  lemma RemovedAreRecords(records: seq<seq<Byte>>, index: nat)
    requires index < |records| && AreRecords(records)
    ensures AreRecords(Removed(records, index))
  {
    var s := Removed(records, index);
    forall i | 0 <= i < |s| ensures IsRecord(s[i]) {
      assert i < index ==> s[i] == records[i] && IsRecord(records[i]);
      assert i >= index ==> s[i] == records[i + 1] && IsRecord(records[i + 1]);
    }
  }

  lemma PackedRemoved(records: seq<seq<Byte>>, index: nat)
    requires index < |records|
    ensures var at, next := Offset(records, index), Offset(records, index + 1);
            && at <= next <= |Packed(records)|
            && Packed(Removed(records, index)) == Packed(records)[..at] + Packed(records)[next..]
  {
    PackedAround(records, index);
    PackedAppend(records[..index], records[index + 1..]);
  }

  /** The bytes at a place replaced: memmove into a block. */
  function Blit(block: seq<Byte>, at: nat, bytes: seq<Byte>): seq<Byte>
    requires at + |bytes| <= |block|
  {
    block[..at] + bytes + block[at + |bytes|..]
  }

  /** ReallocPtr: the same bytes, cut off or followed by others. */
  function Resized(block: seq<Byte>, size: nat, fill: Byte): (r: seq<Byte>)
    ensures |r| == size
  {
    if size <= |block| then block[..size] else block + seq(size - |block|, _ => fill)
  }

  /** Enlarging a block, moving its end up and writing into the gap. */
  lemma OpenGap(block: seq<Byte>, at: nat, r: seq<Byte>, fill: Byte)
    requires at <= |block|
    ensures var larger := Resized(block, |block| + |r|, fill);
            && block <= larger
            && Blit(Blit(larger, at + |r|, larger[at..|block|]), at, r) == block[..at] + r + block[at..]
            && (at == |block| ==> Blit(larger, at, r) == block[..at] + r + block[at..])
  {
    var larger := Resized(block, |block| + |r|, fill);
    assert larger[..at] == block[..at] && larger[at..|block|] == block[at..];
    var moved := Blit(larger, at + |r|, block[at..]);
    assert moved[..at] == block[..at] && moved[at + |r|..] == block[at..];
    assert at == |block| ==> larger[at + |r|..] == [] == block[at..];
  }

  /** The block enlarged, its end moved up and a record copied in. */
  lemma GapFilled(records: seq<seq<Byte>>, at: nat, r: seq<Byte>, block: seq<Byte>, o: nat)
    requires AreRecords(records) && at <= |records| && IsRecord(r)
    requires block == Packed(records) && o == Offset(records, at)
    ensures var larger := Resized(block, |block| + |r|, 0);
            && AreRecords(Inserted(records, at, r))
            && o <= |block| && block <= larger
            && Blit(Blit(larger, o + |r|, larger[o..|block|]), o, r) == Packed(Inserted(records, at, r))
            && (at == |records| ==> Blit(larger, |block|, r) == Packed(Inserted(records, at, r)))
  {
    InsertedAreRecords(records, at, r);
    PackedInserted(records, at, r);
    OpenGap(block, o, r, 0);
    if at == |records| {
      OffsetEnd(records);
    }
  }
}
