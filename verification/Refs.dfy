/** Tagged references, object header sizes and byte order, as the package converter uses them. */
module Refs {
  /** A 32-bit word. */
  datatype Ref32 = Ref32(word: bv32)

  /** A 64-bit value, kept as an integer because only its tag and its low 32 bits are looked at. */
  type Ref = int

  /** 12 bytes of 64-bit object header followed by an 8-byte class. */
  const HEADER_64: nat := 20

  /** 8 bytes of 32-bit object header followed by a 4-byte class. */
  const HEADER_32: nat := 12

  const K_OBJ_SLOTTED: bv8 := 0x01
  const K_OBJ_MASK: bv8 := 0x03
  const K_OBJ_READ_ONLY: bv8 := 0x40

  /** MAKEIMMED(kImmedSpecial, 0x5555) */
  const K_SYMBOL_CLASS := Ref32(0x55552)

  /** BYTE_SWAP_LONG */
  function SwapLong(n: bv32): bv32 {
    ((n << 24) & 0xFF000000) | ((n << 8) & 0x00FF0000) | ((n >> 8) & 0x0000FF00) | ((n >> 24) & 0x000000FF)
  }

  lemma SwapLongInvolutive(n: bv32)
    ensures SwapLong(SwapLong(n)) == n
  {
  }

  /** The bytes of the swapped word are those of the word, last first. */
  lemma SwapLongBytes(n: bv32)
    ensures SwapLong(n) & 0xFF == n >> 24 && (SwapLong(n) >> 8) & 0xFF == (n >> 16) & 0xFF
    ensures (SwapLong(n) >> 16) & 0xFF == (n >> 8) & 0xFF && SwapLong(n) >> 24 == n & 0xFF
  {
  }

  /** CANONICAL_LONG on a little-endian host. */
  function Swap32(n: Ref32): Ref32 {
    Ref32(SwapLong(n.word))
  }

  predicate IsRealPtr(r: Ref32) { r.word & 3 == 1 }

  /** ISPTR also holds of magic pointers. */
  predicate IsPtr(r: Ref32) { r.word & 1 == 1 }

  predicate IsRealPtr64(r: Ref) { r % 4 == 1 }

  /** The number that the low bits of a word make. */
  function Number(w: bv32, bits: nat): nat {
    if bits == 0 then 0 else (if w & 1 == 1 then 1 else 0) + 2 * Number(w >> 1, bits - 1)
  }

  /** The conversion of a signed 32-bit word to a 64-bit Ref. */
  function Extend(r: Ref32): Ref {
    var n := Number(r.word, 32);
    if n < 0x8000_0000 then n else n - 0x1_0000_0000
  }

  /** The low two bits tell a word's tag. */
  lemma NumberTag(w: bv32, bits: nat)
    requires bits >= 2
    ensures Number(w, bits) % 4 == 1 <==> w & 3 == 1
  {
    var rest := Number(w >> 1 >> 1, bits - 2);
    assert Number(w >> 1, bits - 1) == (if (w >> 1) & 1 == 1 then 1 else 0) + 2 * rest;
  }

  /** REF and PTR */
  function MakePtr(address: int): Ref { address + 1 }
  function Address(r: Ref): int { r - 1 }

  /** The low 32 bits of a Ref: the key a RefMap is searched with. */
  function Truncate(r: Ref): Ref32 {
    Ref32((r % 0x1_0000_0000) as bv32)
  }
}
