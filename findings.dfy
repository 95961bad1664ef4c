/**
 * `SteamID(ulong id)` as written (SteamKit3/SteamKit3/Types/SteamID.cs,
 * lines 89-92). Unlike every other constructor it does not chain to the
 * default constructor with `: this()`, so the object's `steamid` reference
 * keeps its default value, null, when `SetFromUint64` writes through it.
 * The implicit conversion from UInt64 (lines 331-334) is this constructor.
 *
 * The object under construction is reduced to its one reference field;
 * the corrected constructor is SteamIDObject.SteamID.FromUint64.
 */
module UInt64Construction {

  /** The `steamid` field of an object under construction: null, or a
      BitVector64 holding a word. */
  datatype WordRef = Null | Word(data: bv64)

  /** How a constructor ends: it throws NullReferenceException, or it
      returns an object with the given raw value. */
  datatype Construction = NullReference | Constructed(raw: bv64)

  /** `SetFromUint64` (`steamid.Data = ulSteamID`) inside a constructor:
      writing through a null reference throws; otherwise the raw value is
      the argument. */
  function WriteData(steamid: WordRef, ulSteamID: bv64): (r: Construction)
    ensures r.Constructed? <==> steamid.Word?
    ensures r.Constructed? ==> r.raw == ulSteamID
  {
    match steamid
    case Null => NullReference
    case Word(_) => Constructed(ulSteamID)
  }

  /** The constructor as written: nothing has allocated the word. */
  function AsWrittenFromUint64(id: bv64): Construction {
    WriteData(Null, id)
  }

  /** The constructor chained to `this()`: the default constructor has
      allocated a zero word before `SetFromUint64` runs. */
  function ChainedFromUint64(id: bv64): Construction {
    WriteData(Word(0), id)
  }

  /** As written, constructing from any 64-bit value throws, so the
      conversion from UInt64 never yields a SteamID. */
  lemma AsWrittenAlwaysThrows(id: bv64)
    ensures AsWrittenFromUint64(id) == NullReference
  {
  }

  /** Chained, the constructor yields an object whose raw value is the
      argument, as SteamIDObject.SteamID.FromUint64 does. */
  lemma ChainedKeepsValue(id: bv64)
    ensures ChainedFromUint64(id) == Constructed(id)
  {
  }
}
