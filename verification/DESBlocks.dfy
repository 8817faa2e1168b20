/** Encoding and decoding blocks in place. */
module DESBlocks {
  import opened Bits
  import opened FIPS46
  import opened DESPermutations
  import opened DES

  function KeysOf(keys: seq<Nonce>): (ks: seq<Key>)
    ensures |ks| == |keys|
  {
    seq(|keys|, i requires 0 <= i < |keys| => KeyBits(keys[i]))
  }

  function Split(b: Block): Nonce {
    Nonce(b[..32], b[32..])
  }

  lemma IPInverseLeftTable()
    ensures forall i :: 0 <= i < 32 ==> IP_INV_HI[i] == 64 - IP_INV_LEFT[i]
  {
  }

  lemma IPInverseRightTable()
    ensures forall i :: 0 <= i < 32 ==> IP_INV_LO[i] == 64 - IP_INV_RIGHT[i]
  {
  }

  lemma IPInverseIs(hi: Word, lo: Word)
    ensures Chosen(hi, lo, IP_INV_HI) + Chosen(hi, lo, IP_INV_LO) == Select(hi + lo, IP_INV)
  {
    IPInverseLeftTable();
    IPInverseRightTable();
    SelectSplits(hi + lo, IP_INV_LEFT, IP_INV_RIGHT);
  }

  /** f is the cipher function of the standard. */
  ghost predicate IsF(f: Mix) {
    forall r: Word, k: Key {:trigger F(r, k)} :: f(r, k) == F(r, k)
  }

  /** hi ^= DESfrk(k->hi, k->lo, lo) */
  method Round(k: Nonce, hi: Word, lo: Word, junk: Word, ghost f: Mix) returns (result: Word)
    requires IsF(f)
    ensures result == Xor(hi, f(lo, KeyBits(k)))
  {
    var mixed := DESfrk(k.hi, k.lo, lo, junk);
    result := Xor(hi, mixed);
  }

  method Rounds(keys: seq<Nonce>, hi: Word, lo: Word, junk: Word, ghost f: Mix) returns (keyHi: Word, keyLo: Word)
    requires |keys| == 16 && IsF(f)
    ensures Halves(keyHi, keyLo) == Iterated(f, KeysOf(keys), 16, Halves(hi, lo))
  {
    keyHi, keyLo := hi, lo;
    var kPtr := 0;
    for i := 0 to 8
      invariant kPtr == 2 * i
      invariant Halves(keyHi, keyLo) == Iterated(f, KeysOf(keys), 2 * i, Halves(hi, lo))
    {
      keyHi := Round(keys[kPtr], keyHi, keyLo, junk, f);
      kPtr := kPtr + 1;
      keyLo := Round(keys[kPtr], keyLo, keyHi, junk, f);
      kPtr := kPtr + 1;
    }
  }

  method PermuteBack(hi: Word, lo: Word, junk: Word) returns (permuted: Nonce)
    ensures Joint(permuted) == Select(hi + lo, IP_INV)
  {
    permuted := DESPermute(IP_INV_TABLE, hi, lo, junk, [IP_INV_HI, IP_INV_LO]);
    IPInverseIs(hi, lo);
  }

  method CipherBlock(keys: seq<Nonce>, block: Nonce, junk: Word, ghost f: Mix) returns (ciphered: Nonce)
    requires |keys| == 16 && IsF(f)
    ensures Joint(ciphered) == EncipherBy(f, KeysOf(keys), Joint(block))
  {
    var permutedData := DESip(block.hi, block.lo);
    var keyHi, keyLo := Rounds(keys, permutedData.hi, permutedData.lo, junk, f);
    assert Joint(permutedData)[..32] == permutedData.hi && Joint(permutedData)[32..] == permutedData.lo;
    ciphered := PermuteBack(keyLo, keyHi, junk);
  }

  // ---------- buffers ----------

  /** The whole blocks in a count of bytes. */
  function BlocksIn(byteCount: int): nat {
    if byteCount < 8 then 0 else byteCount / 8
  }

  /** Every block enciphered on its own. */
  function Coded(f: Mix, ks: seq<Key>, blocks: seq<Nonce>): (coded: seq<Nonce>)
    ensures |coded| == |blocks|
  {
    seq(|blocks|, i requires 0 <= i < |blocks| => Split(EncipherBy(f, ks, Joint(blocks[i]))))
  }

  /** A buffer in which the blocks between two places have been enciphered. */
  function CodedBetween(f: Mix, ks: seq<Key>, was: seq<Nonce>, start: nat, end: nat): (now: seq<Nonce>)
    requires start <= end <= |was|
    ensures |now| == |was|
  {
    was[..start] + Coded(f, ks, was[start..end]) + was[end..]
  }

  lemma CodedStep(f: Mix, ks: seq<Key>, was: seq<Nonce>, start: nat, end: nat, block: Nonce)
    requires start <= end < |was|
    requires Joint(block) == EncipherBy(f, ks, Joint(was[end]))
    ensures CodedBetween(f, ks, was, start, end)[end] == was[end]
    ensures CodedBetween(f, ks, was, start, end)[end := block] == CodedBetween(f, ks, was, start, end + 1)
  {
    assert block == Split(Joint(block));
    assert was[start..end + 1] == was[start..end] + [was[end]];
    assert Coded(f, ks, was[start..end + 1]) == Coded(f, ks, was[start..end]) + [block];
  }

  /** The loop of DESEncode and of DESDecode; they have the same one. */
  method CodeBlocks(keys: seq<Nonce>, byteCount: int, mem: array<Nonce>, memPtr: nat, junk: Word, ghost f: Mix)
    returns (next: nat)
    requires |keys| == 16 && memPtr + BlocksIn(byteCount) <= mem.Length && IsF(f)
    modifies mem
    ensures next == memPtr + BlocksIn(byteCount)
    ensures mem[..] == CodedBetween(f, KeysOf(keys), old(mem[..]), memPtr, next)
  {
    ghost var was, ks := mem[..], KeysOf(keys);
    var keyPtr, left := memPtr, byteCount - 8;
    while left >= 0
      invariant memPtr <= keyPtr <= mem.Length && keyPtr + BlocksIn(left + 8) == memPtr + BlocksIn(byteCount)
      invariant mem[..] == CodedBetween(f, ks, was, memPtr, keyPtr)
      decreases left
    {
      assert mem[keyPtr] == mem[..][keyPtr] == was[keyPtr];
      var permutedData := CipherBlock(keys, mem[keyPtr], junk, f);
      CodedStep(f, ks, was, memPtr, keyPtr, permutedData);
      mem[keyPtr] := permutedData;
      keyPtr := keyPtr + 1;
      left := left - 8;
    }
    next := keyPtr;
  }

  method DESEncode(keys: seq<Nonce>, byteCount: int, mem: array<Nonce>, memPtr: nat, junk: Word) returns (next: nat)
    requires |keys| == 16 && memPtr + BlocksIn(byteCount) <= mem.Length
    modifies mem
    ensures next == memPtr + BlocksIn(byteCount)
    ensures mem[..] == CodedBetween(F, KeysOf(keys), old(mem[..]), memPtr, next)
  {
    next := CodeBlocks(keys, byteCount, mem, memPtr, junk, F);
  }

  /** Decoding walks the keys forwards too; it is for the caller to bring them in reverse order. */
  method DESDecode(keys: seq<Nonce>, byteCount: int, mem: array<Nonce>, memPtr: nat, junk: Word) returns (next: nat)
    requires |keys| == 16 && memPtr + BlocksIn(byteCount) <= mem.Length
    modifies mem
    ensures next == memPtr + BlocksIn(byteCount)
    ensures mem[..] == CodedBetween(F, KeysOf(keys), old(mem[..]), memPtr, next)
  {
    next := CodeBlocks(keys, byteCount, mem, memPtr, junk, F);
  }

  /** With the schedule in reverse order, what was coded comes back; the rest was never touched. */
  lemma CodingUndone(f: Mix, keys: seq<Nonce>, was: seq<Nonce>, start: nat, end: nat)
    requires start <= end <= |was|
    ensures CodedBetween(f, KeysOf(Reversed(keys)), CodedBetween(f, KeysOf(keys), was, start, end), start, end) == was
  {
    var ks := KeysOf(keys);
    var now := CodedBetween(f, ks, was, start, end);
    assert KeysOf(Reversed(keys)) == Reversed(ks);
    assert now[start..end] == Coded(f, ks, was[start..end]);
    assert now[..start] == was[..start] && now[end..] == was[end..];
    BlocksUndone(f, ks, was[start..end]);
    assert was == was[..start] + was[start..end] + was[end..];
  }

  lemma BlocksUndone(f: Mix, ks: seq<Key>, blocks: seq<Nonce>)
    ensures Coded(f, Reversed(ks), Coded(f, ks, blocks)) == blocks
  {
    forall i | 0 <= i < |blocks|
      ensures Coded(f, Reversed(ks), Coded(f, ks, blocks))[i] == blocks[i]
    {
      BlockUndone(f, ks, blocks[i]);
    }
  }

  lemma BlockUndone(f: Mix, ks: seq<Key>, block: Nonce)
    ensures Split(EncipherBy(f, Reversed(ks), Joint(Split(EncipherBy(f, ks, Joint(block)))))) == block
  {
    var coded := EncipherBy(f, ks, Joint(block));
    assert Joint(Split(coded)) == coded;
    Deciphers(f, ks, Joint(block));
    assert Split(Joint(block)) == block;
  }

  /** Decode after encode, over any buffer and any count of bytes. */
  method EncodeThenDecode(keys: seq<Nonce>, byteCount: int, mem: array<Nonce>, memPtr: nat, junk: Word)
    requires |keys| == 16 && memPtr + BlocksIn(byteCount) <= mem.Length
    modifies mem
    ensures mem[..] == old(mem[..])
  {
    var next := DESEncode(keys, byteCount, mem, memPtr, junk);
    next := DESDecode(Reversed(keys), byteCount, mem, memPtr, junk);
    CodingUndone(F, keys, old(mem[..]), memPtr, next);
  }
}
