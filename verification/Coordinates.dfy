// The 32-bit words a cache row hands compiled code: slot coordinates and mega-table keys.
module Coordinates {
  import opened Wrappers

  /** The slot coordinate of a guarded-chain row that proved the property missing. */
  const ABSENT: nat := 0xFFFF_FFFF

  /** The byte offset of a slot from its base; bit 0 says the base is the out-of-line vector. The
      product is a multiple of 8, so setting the bit is adding one. */
  function SlotEnc(isDynamic: bool, idx: nat): nat {
    if isDynamic then (idx * 8) % U32 + 1 else (16 + idx * 8) % U32
  }

  predicate SlotEncIsDynamic(enc: nat) {
    enc % 2 == 1
  }

  function SlotEncIndex(enc: nat): nat {
    if SlotEncIsDynamic(enc) then (enc - 1) / 8 else ((enc - 16) % U32) / 8
  }

  /** The coordinate of an absolute slot number, given how many slots sit inside the object. */
  function SlotCoordinate(slot: nat, nfixed: nat): nat {
    if slot >= nfixed then SlotEnc(true, slot - nfixed) else SlotEnc(false, slot)
  }

  lemma EightTimesMod(idx: nat)
    ensures (idx * 8) % U32 == (idx % 0x2000_0000) * 8
  {
    var q, r := idx / 0x2000_0000, idx % 0x2000_0000;
    assert idx * 8 == q * U32 + r * 8;
    assert 0 <= r * 8 < U32;
  }

  lemma SixteenPlusMod(idx: nat)
    ensures ((16 + idx * 8) % U32 - 16) % U32 == (idx * 8) % U32
    ensures (16 + idx * 8) % U32 == ((idx + 2) % 0x2000_0000) * 8
  {
    EightTimesMod(idx + 2);
    assert 16 + idx * 8 == (idx + 2) * 8;
    var w := (16 + idx * 8) % U32;
    var q := (16 + idx * 8) / U32;
    assert idx * 8 == q * U32 + (w - 16);
    assert (q * U32 + (w - 16)) % U32 == (w - 16) % U32;
  }

  /** What compiled code decodes: the base bit, and what is left without it, the byte offset of the slot from the
      vector, or from the object, whose header is 16 bytes. */
  lemma SlotEncAddress(isDynamic: bool, idx: nat)
    requires 16 + idx * 8 < U32
    ensures SlotEnc(isDynamic, idx) % 2 == (if isDynamic then 1 else 0)
    ensures SlotEnc(isDynamic, idx) - SlotEnc(isDynamic, idx) % 2 == if isDynamic then idx * 8 else 16 + idx * 8
  {
    assert 16 + idx * 8 == 2 * (8 + idx * 4);
  }

  /** The base bit always decodes; the index decodes exactly when its byte offset fits the word. No
      coordinate is the ABSENT word, and the only in-object coordinate that reads as "no fast offset"
      is the one whose offset wraps to zero. */
  lemma SlotEncRoundTrip(isDynamic: bool, idx: nat)
    ensures SlotEncIsDynamic(SlotEnc(isDynamic, idx)) == isDynamic
    ensures SlotEncIndex(SlotEnc(isDynamic, idx)) == idx <==> idx * 8 < U32
    ensures SlotEnc(isDynamic, idx) != ABSENT
    ensures SlotEnc(isDynamic, idx) == 0 <==> !isDynamic && (idx + 2) % 0x2000_0000 == 0
  {
    EightTimesMod(idx);
    SixteenPlusMod(idx);
  }

  /** Two coordinates over non-overflowing indices are equal only when they name the same slot. */
  lemma SlotEncInjective(d1: bool, i1: nat, d2: bool, i2: nat)
    requires i1 * 8 < U32 && i2 * 8 < U32
    requires SlotEnc(d1, i1) == SlotEnc(d2, i2)
    ensures d1 == d2 && i1 == i2
  {
    SlotEncRoundTrip(d1, i1);
    SlotEncRoundTrip(d2, i2);
  }

  /** What a mega-table row is keyed on beside the shape: a property name's atom id, or the address of the
      atom an element access converted to. Cells are 8-byte aligned. */
  datatype MegaKey = Named(atomId: nat) | Element(atomPtr: nat)

  function KeyWord(k: MegaKey): nat {
    match k
    case Named(id) => id
    case Element(ptr) => ptr + 1
  }

  /** Named ids come from a table of `numAtoms` names; an element key is used only above that bound. */
  predicate Admitted(k: MegaKey, numAtoms: nat) {
    match k
    case Named(id) => id < numAtoms
    case Element(ptr) => ptr % 8 == 0 && KeyWord(k) > numAtoms
  }

  /** The two key spaces sharing the mega tables are disjoint and injective under the guard. Without the guard an
      element key has the word of some name if and only if its word is a valid atom id. */
  lemma KeySpacesDisjoint(k1: MegaKey, k2: MegaKey, numAtoms: nat)
    ensures Admitted(k1, numAtoms) && Admitted(k2, numAtoms) ==> (KeyWord(k1) == KeyWord(k2) <==> k1 == k2)
    ensures Admitted(k1, numAtoms) && k1.Element? ==> KeyWord(k1) % 2 == 1 && KeyWord(k1) - KeyWord(k1) % 2 == k1.atomPtr
    ensures k1.Element? ==>
      ((exists k: MegaKey :: k.Named? && Admitted(k, numAtoms) && KeyWord(k) == KeyWord(k1)) <==> KeyWord(k1) < numAtoms)
  {
    if KeyWord(k1) < numAtoms {
      assert Admitted(Named(KeyWord(k1)), numAtoms);
    }
  }
}
