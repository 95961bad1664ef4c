/**
 * The 64-bit word behind a SteamID and its shift-and-mask indexer
 * (class BitVector64 of SteamKit3/SteamKit3/Types/SteamID.cs).
 *
 * `Get` and `Put` are the indexer's getter and setter as functions on the
 * raw word; the class BitVector64 holds the mutable word and its setter is
 * proved against `Put`. What the indexer promises at the four offsets and
 * masks a SteamID uses is proved in module SteamIDs.
 */
module BitVectors {

  /** The indexer casts its offset to `ushort`, and a shift of a 64-bit
      value uses only the low six bits of its count: together the shift
      amount is the offset modulo 64: below 64 it is the offset itself. */
  function ShiftCount(offset: bv32): (r: bv64)
    ensures r < 64
    ensures offset < 64 ==> r == offset as bv64
  {
    (offset & 0x3F) as bv64
  }

  /** Indexer getter: `(data >> offset) & mask`. The value read has no bit
      outside the mask. */
  function Get(data: bv64, offset: bv32, mask: bv64): (r: bv64)
    ensures r & !mask == 0
  {
    (data >> ShiftCount(offset)) & mask
  }

  /** Indexer setter: clears the field's bits and ORs in the masked value
      shifted into place. */
  function Put(data: bv64, offset: bv32, mask: bv64, value: bv64): bv64 {
    (data & !(mask << ShiftCount(offset))) | ((value & mask) << ShiftCount(offset))
  }

  /** Set-then-get gives back `value & mask` only when `mask << offset`
      drops none of the mask's bits: an all-ones mask written and read at
      offset 32 reads back only 32 bits. */
  lemma SetThenGetDropsShiftedOutBits()
    ensures Get(Put(0, 32, 0xFFFF_FFFF_FFFF_FFFF, 0xFFFF_FFFF_FFFF_FFFF), 32, 0xFFFF_FFFF_FFFF_FFFF) == 0xFFFF_FFFF
  {
  }

  /** The indexer's backing store: one mutable unsigned 64-bit word. */
  class BitVector64 {
    var data: bv64

    /** `new BitVector64()`: the word starts as zero. */
    constructor ()
      ensures data == 0
    {
      data := 0;
    }

    /** `new BitVector64(value)`. */
    constructor FromValue(value: bv64)
      ensures data == value
    {
      data := value;
    }

    /** Indexer getter on the current word: `Get` of the word, so no bit
        outside the mask. */
    function Item(offset: bv32, mask: bv64): (r: bv64)
      reads this
      ensures r == Get(data, offset, mask)
      ensures r & !mask == 0
    {
      Get(data, offset, mask)
    }

    /** Indexer setter: rewrites the word in place. */
    method SetItem(offset: bv32, mask: bv64, value: bv64)
      modifies this
      ensures data == Put(old(data), offset, mask, value)
    {
      data := Put(data, offset, mask, value);
    }
  }
}
