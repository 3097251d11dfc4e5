/**
  The 64-bit word that packs an 8-byte aligned 48-bit address with a 19-bit version: the low three
  version bits sit in the alignment gap, the other sixteen above the address.
 */
module VersionedPointer {
  const PTR_MASK: bv64 := 0x0000_FFFF_FFFF_FFF8
  const LOW: bv64 := 0x7
  const VERSION_MASK: bv64 := 0x7_FFFF

  predicate Aligned(p: bv64) {
    p & !PTR_MASK == 0
  }

  /** The version is a 32-bit number, widened before the shift. */
  function Pack(pointer: bv64, version: bv64): bv64
    requires version <= 0xFFFF_FFFF
  {
    pointer | (version & LOW) | ((version & !LOW) << 45)
  }

  function Get(value: bv64): bv64 {
    value & PTR_MASK
  }

  /** The result is narrowed to 32 bits by the return type. */
  function Version(value: bv64): bv64 {
    ((value & LOW) | (!LOW & (value >> 45))) & 0xFFFF_FFFF
  }

  /** Unpacking gives back the pointer, and the version modulo 2^19. */
  lemma PackRoundTrip(pointer: bv64, version: bv64)
    requires Aligned(pointer) && version <= 0xFFFF_FFFF
    ensures Get(Pack(pointer, version)) == pointer
    ensures Version(Pack(pointer, version)) == version & VERSION_MASK
  {
  }

  lemma ShiftDropsHighBits(x: bv64)
    ensures x << 45 == (x & VERSION_MASK) << 45
  {
  }

  lemma MasksCommute(x: bv64)
    ensures (x & !LOW) & VERSION_MASK == (x & VERSION_MASK) & !LOW
    ensures x & LOW == (x & VERSION_MASK) & LOW
    ensures (x & VERSION_MASK) & VERSION_MASK == x & VERSION_MASK
    ensures ((x & VERSION_MASK) & !LOW) & VERSION_MASK == (x & VERSION_MASK) & !LOW
    ensures x & VERSION_MASK <= 0xFFFF_FFFF
  {
  }

  lemma PackTruncates(pointer: bv64, version: bv64)
    requires version <= 0xFFFF_FFFF
    ensures version & VERSION_MASK <= 0xFFFF_FFFF
    ensures Pack(pointer, version) == Pack(pointer, version & VERSION_MASK)
  {
    MasksCommute(version);
    ShiftDropsHighBits(version & !LOW);
    ShiftDropsHighBits((version & VERSION_MASK) & !LOW);
  }

  /** Comparing packed words compares the pointer and the version modulo 2^19, nothing else. */
  lemma PackedEquality(p: bv64, v: bv64, q: bv64, w: bv64)
    requires Aligned(p) && Aligned(q) && v <= 0xFFFF_FFFF && w <= 0xFFFF_FFFF
    ensures Pack(p, v) == Pack(q, w) <==> p == q && v & VERSION_MASK == w & VERSION_MASK
  {
    hide Pack, Version, Get;
    PackRoundTrip(p, v);
    PackRoundTrip(q, w);
    PackTruncates(p, v);
    PackTruncates(q, w);
  }
}
