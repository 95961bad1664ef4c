/**
 * The SteamID object (class SteamID of SteamKit3/SteamKit3/Types/SteamID.cs):
 * a reference to a BitVector64 holding the raw 64-bit value, properties
 * that read and write its four fields through the indexer, and the
 * methods that write several fields at once.
 *
 * Every method is proved against the functions on raw values in modules
 * SteamIDs and SteamIDText: its postcondition gives the new raw value as
 * one of those functions of the old one, and what the source promises
 * about that value is proved there.
 */
module SteamIDObject {
  import opened BitVectors
  import SteamIDs
  import SteamIDText
  import LegacyText
  import EAccountType
  import EUniverse

  class SteamID {
    /** The backing word. Only the default constructor and the constructors
        that chain to it allocate it. */
    const steamid: BitVector64

    /** `SteamID()`: a fresh word with every field written to zero. */
    constructor ()
      ensures fresh(steamid)
      ensures ConvertToUint64() == 0
    {
      steamid := new BitVector64();
      new;
      ResetFields();
    }

    /** `SteamID(unAccountID, eUniverse, eAccountType)`: the default
        constructor, then `Set`. */
    constructor FromParts(unAccountID: bv32, eUniverse: bv64, eAccountType: bv64)
      ensures fresh(steamid)
      ensures ConvertToUint64() ==
              SteamIDs.Compose(unAccountID as bv64, SteamIDs.DefaultInstance(eAccountType) as bv64, eAccountType, eUniverse)
    {
      steamid := new BitVector64();
      new;
      ResetFields();
      Set(unAccountID, eUniverse, eAccountType);
    }

    /** `SteamID(unAccountID, unInstance, eUniverse, eAccountType)`: the
        default constructor, then `InstancedSet`. */
    constructor FromPartsWithInstance(unAccountID: bv32, unInstance: bv32, eUniverse: bv64, eAccountType: bv64)
      ensures fresh(steamid)
      ensures ConvertToUint64() == SteamIDs.Compose(unAccountID as bv64, unInstance as bv64, eAccountType, eUniverse)
    {
      steamid := new BitVector64();
      new;
      ResetFields();
      InstancedSet(unAccountID, unInstance, eUniverse, eAccountType);
    }

    /** `SteamID(ulong id)` with the word allocated, as the other
        constructors do: the raw value is the argument. (As written the
        source constructor does not chain to the default constructor; see
        module UInt64Construction.) */
    constructor FromUint64(id: bv64)
      ensures fresh(steamid)
      ensures ConvertToUint64() == id
    {
      steamid := new BitVector64();
      new;
      SetFromUint64(id);
    }

    /** `SteamID(string steamId)`: the text in the public universe. An
        account number of 2^32 or more makes `uint.Parse` throw, so the
        source constructor yields no object for such a text. */
    constructor FromString(steamId: string)
      requires SteamIDText.FromLegacyText(0, steamId, EUniverse.Public).0 != SteamIDText.Overflow
      ensures fresh(steamid)
      ensures ConvertToUint64() == SteamIDText.FromLegacyText(0, steamId, EUniverse.Public).1
    {
      steamid := new BitVector64();
      new;
      ResetFields();
      var _ := SetFromString(steamId, EUniverse.Public);
    }

    /** `SteamID(string steamId, EUniverse eUniverse)`: the default
        constructor, then `SetFromString`; text that does not match leaves
        the zero value, and an account number of 2^32 or more makes the
        constructor throw. */
    constructor FromStringInUniverse(steamId: string, eUniverse: bv64)
      requires SteamIDText.FromLegacyText(0, steamId, eUniverse).0 != SteamIDText.Overflow
      ensures fresh(steamid)
      ensures ConvertToUint64() == SteamIDText.FromLegacyText(0, steamId, eUniverse).1
    {
      steamid := new BitVector64();
      new;
      ResetFields();
      var _ := SetFromString(steamId, eUniverse);
    }

    /** The body of the default constructor, which the constructors that
        chain to it with `: this()` run first. */
    method ResetFields()
      modifies steamid
      ensures steamid.data == 0
    {
      SetAccountID(0);
      SetAccountType(EAccountType.Invalid);
      SetAccountUniverse(EUniverse.Invalid);
      SetAccountInstance(0);
      SteamIDs.BlankOrder(old(steamid.data), 0, 0, EAccountType.Invalid, EUniverse.Invalid);
    }

    // ------------------------------------------------------------ properties

    /* The four properties read and write their fields through the
       indexer; what a write does to every field is proved in SteamIDs
       (SetAccountIDIsolated and its siblings). */

    function AccountID(): (r: bv32)
      reads steamid
      ensures r as bv64 == SteamIDs.AccountID(steamid.data)
    {
      SteamIDs.AccountIDFits(steamid.data);
      steamid.Item(0, SteamIDs.AccountIDMask) as bv32
    }

    function AccountInstance(): (r: bv32)
      reads steamid
      ensures r as bv64 == SteamIDs.AccountInstance(steamid.data)
    {
      steamid.Item(32, SteamIDs.AccountInstanceMask) as bv32
    }

    function AccountType(): (r: bv64)
      reads steamid
      ensures r == SteamIDs.AccountType(steamid.data)
    {
      steamid.Item(52, SteamIDs.AccountTypeMask)
    }

    function AccountUniverse(): (r: bv64)
      reads steamid
      ensures r == SteamIDs.AccountUniverse(steamid.data)
    {
      steamid.Item(56, SteamIDs.AccountUniverseMask)
    }

    /** The `AccountID` setter: the account number becomes the value, the
        other properties keep theirs. */
    method SetAccountID(value: bv32)
      modifies steamid
      ensures steamid.data == SteamIDs.WithAccountID(old(steamid.data), value)
    {
      steamid.SetItem(0, SteamIDs.AccountIDMask, value as bv64);
    }

    /** The `AccountInstance` setter: the instance becomes the value's low
        20 bits, the other properties keep theirs. */
    method SetAccountInstance(value: bv32)
      modifies steamid
      ensures steamid.data == SteamIDs.WithAccountInstance(old(steamid.data), value)
    {
      steamid.SetItem(32, SteamIDs.AccountInstanceMask, value as bv64);
    }

    /** The `AccountType` setter: the type becomes the code's low 4 bits,
        the other properties keep theirs. */
    method SetAccountType(value: bv64)
      modifies steamid
      ensures steamid.data == SteamIDs.WithAccountType(old(steamid.data), value)
    {
      steamid.SetItem(52, SteamIDs.AccountTypeMask, value);
    }

    /** The `AccountUniverse` setter: the universe becomes the code's low 8
        bits, the other properties keep theirs. */
    method SetAccountUniverse(value: bv64)
      modifies steamid
      ensures steamid.data == SteamIDs.WithAccountUniverse(old(steamid.data), value)
    {
      steamid.SetItem(56, SteamIDs.AccountUniverseMask, value);
    }

    // ---------------------------------------------------- setting whole values

    /** `Set`: the account number, universe and type as given, and the
        instance by `Set`'s rule; nothing of the old value survives. */
    method Set(unAccountID: bv32, eUniverse: bv64, eAccountType: bv64)
      modifies steamid
      ensures steamid.data ==
              SteamIDs.Compose(unAccountID as bv64, SteamIDs.DefaultInstance(eAccountType) as bv64, eAccountType, eUniverse)
    {
      SteamIDs.SetOrder(steamid.data, unAccountID, SteamIDs.DefaultInstance(eAccountType), eAccountType, eUniverse);
      SetAccountID(unAccountID);
      SetAccountUniverse(eUniverse);
      SetAccountType(eAccountType);
      if eAccountType == EAccountType.Clan {
        SetAccountInstance(0);
      } else {
        SetAccountInstance(SteamIDs.DesktopInstance);
      }
    }

    /** `InstancedSet`: all four fields as given. */
    method InstancedSet(unAccountID: bv32, unInstance: bv32, eUniverse: bv64, eAccountType: bv64)
      modifies steamid
      ensures steamid.data == SteamIDs.Compose(unAccountID as bv64, unInstance as bv64, eAccountType, eUniverse)
    {
      SteamIDs.SetOrder(steamid.data, unAccountID, unInstance, eAccountType, eUniverse);
      SetAccountID(unAccountID);
      SetAccountUniverse(eUniverse);
      SetAccountType(eAccountType);
      SetAccountInstance(unInstance);
    }

    /** `FullSet`: account number and instance from the identifier's low 52
        bits, universe and type as given. */
    method FullSet(identifier: bv64, eUniverse: bv64, eAccountType: bv64)
      modifies steamid
      ensures steamid.data ==
              SteamIDs.Compose(identifier & 0xFFFF_FFFF, (identifier >> 32) & 0xF_FFFF, eAccountType, eUniverse)
    {
      var id := (identifier & SteamIDs.AccountIDMask) as bv32;
      var instance := ((identifier >> 32) & SteamIDs.AccountInstanceMask) as bv32;
      SteamIDs.FullSetOrder(steamid.data, id, instance, eAccountType, eUniverse);
      SetAccountID(id);
      SetAccountInstance(instance);
      SetAccountUniverse(eUniverse);
      SetAccountType(eAccountType);
    }

    /** `SetFromUint64`: the raw value becomes the argument. */
    method SetFromUint64(ulSteamID: bv64)
      modifies steamid
      ensures steamid.data == ulSteamID
    {
      steamid.data := ulSteamID;
    }

    /** `SetFromString`: on a match with an account number that fits in 32
        bits, the four fields of the legacy form; otherwise the value is
        unchanged, and `outcome` tells why (no match: the method returns;
        overflow: `uint.Parse` throws before any field is written). */
    method SetFromString(steamId: string, eUniverse: bv64) returns (outcome: SteamIDText.TextOutcome)
      modifies steamid
      ensures (outcome, steamid.data) == SteamIDText.FromLegacyText(old(steamid.data), steamId, eUniverse)
    {
      var m := LegacyText.Match(steamId);
      if m.None? {
        return SteamIDText.NoMatch;
      }
      var parsed := LegacyText.ParseUInt32(m.value.accountId);
      if parsed.None? {
        return SteamIDText.Overflow;
      }
      var authServer := SteamIDText.AuthServerBit(m.value.authServer);
      SetAccountUniverse(eUniverse);
      SetAccountInstance(1);
      SetAccountType(EAccountType.Individual);
      SetAccountID(SteamIDText.LegacyAccountID(parsed.value, authServer));
      outcome := SteamIDText.Applied;
    }

    /** `ConvertToUint64` (and the implicit conversion to UInt64): the raw
        value. SteamIDs.ComposeOfFields shows it is exactly the four
        properties put together. */
    function ConvertToUint64(): (r: bv64)
      reads steamid
      ensures r == SteamIDs.Compose(SteamIDs.AccountID(steamid.data), SteamIDs.AccountInstance(steamid.data),
                                    SteamIDs.AccountType(steamid.data), SteamIDs.AccountUniverse(steamid.data))
    {
      SteamIDs.ComposeOfFields(steamid.data);
      steamid.data
    }

    /** `CreateBlankAnonLogon`: the blank anonymous game server of the
        universe. */
    method CreateBlankAnonLogon(eUniverse: bv64)
      modifies steamid
      ensures steamid.data == SteamIDs.Compose(0, 0, EAccountType.AnonGameServer, eUniverse)
    {
      SteamIDs.BlankOrder(steamid.data, 0, 0, EAccountType.AnonGameServer, eUniverse);
      SetAccountID(0);
      SetAccountType(EAccountType.AnonGameServer);
      SetAccountUniverse(eUniverse);
      SetAccountInstance(0);
    }

    /** `CreateBlankAnonUserLogon`: the blank anonymous user of the
        universe. */
    method CreateBlankAnonUserLogon(eUniverse: bv64)
      modifies steamid
      ensures steamid.data == SteamIDs.Compose(0, 0, EAccountType.AnonUser, eUniverse)
    {
      SteamIDs.BlankOrder(steamid.data, 0, 0, EAccountType.AnonUser, eUniverse);
      SetAccountID(0);
      SetAccountType(EAccountType.AnonUser);
      SetAccountUniverse(eUniverse);
      SetAccountInstance(0);
    }

    /** `ClearIndividualInstance`: an individual's instance becomes 0; any
        other account returns at once. */
    method ClearIndividualInstance()
      modifies steamid
      ensures steamid.data == SteamIDs.ClearedIndividualInstance(old(steamid.data))
    {
      if !SteamIDs.BIndividualAccount(steamid.data) {
        return;
      }
      SetAccountInstance(0);
    }

    // -------------------------------------------------------------- equality

    /** `Equals(SteamID)`: false for null, otherwise true exactly when the
        two identifiers agree in all four properties. */
    function Equals(sid: SteamID?): (r: bool)
      reads steamid, if sid == null then {} else {sid.steamid}
      ensures r <==> sid != null &&
                     SteamIDs.AccountID(steamid.data) == SteamIDs.AccountID(sid.steamid.data) &&
                     SteamIDs.AccountInstance(steamid.data) == SteamIDs.AccountInstance(sid.steamid.data) &&
                     SteamIDs.AccountType(steamid.data) == SteamIDs.AccountType(sid.steamid.data) &&
                     SteamIDs.AccountUniverse(steamid.data) == SteamIDs.AccountUniverse(sid.steamid.data)
    {
      if sid == null then false
      else
        SteamIDs.FieldsDetermineValue(steamid.data, sid.steamid.data);
        steamid.data == sid.steamid.data
    }

    /** `operator ==`: true for the same reference (two nulls included),
        false when only one side is null, otherwise `Equals`. */
    static function Same(a: SteamID?, b: SteamID?): (r: bool)
      reads if a == null then {} else {a.steamid}, if b == null then {} else {b.steamid}
      ensures a == b ==> r
      ensures a == null || b == null ==> (r <==> a == b)
      ensures a != null ==> (r <==> a.Equals(b))
    {
      if a == b then true
      else if a == null || b == null then false
      else a.steamid.data == b.steamid.data
    }
  }
}
