/**
 * A SteamID as its raw 64-bit value: the four fields the class SteamID of
 * SteamKit3/SteamKit3/Types/SteamID.cs lays over a BitVector64, their
 * setters, the account-kind predicates, IsValid and the static account
 * key.
 *
 * Layout, low bits first: AccountID bits 0-31, AccountInstance bits 32-51,
 * AccountType bits 52-55, AccountUniverse bits 56-63. A field's value is
 * held as the 64-bit word the indexer returns; the source narrows it to
 * `uint` or to the enumeration, which loses nothing because the mask
 * already bounds it.
 */
module SteamIDs {
  import opened BitVectors
  import EAccountType
  import EUniverse

  const DesktopInstance: bv32 := 1
  const ConsoleInstance: bv32 := 2

  const AccountIDMask: bv64 := 0xFFFF_FFFF
  const AccountInstanceMask: bv64 := 0xF_FFFF
  const AccountTypeMask: bv64 := 0xF
  const AccountUniverseMask: bv64 := 0xFF

  /** InstanceFlags: the top three bits of the instance field,
      `(AccountInstanceMask + 1) >> 1`, `>> 2` and `>> 3`. */
  const ClanFlag: bv64 := 0x8_0000
  const LobbyFlag: bv64 := 0x4_0000
  const MMSLobbyFlag: bv64 := 0x2_0000

  /** The bits each field occupies in the raw value. */
  const AccountIDBits: bv64 := 0x0000_0000_FFFF_FFFF
  const InstanceBits: bv64 := 0x000F_FFFF_0000_0000
  const TypeBits: bv64 := 0x00F0_0000_0000_0000
  const UniverseBits: bv64 := 0xFF00_0000_0000_0000

  // ---------------------------------------------------------------- getters

  /** `AccountID`: the indexer at offset 0 under mask 0xFFFFFFFF reads
      bits 0-31. */
  function AccountID(raw: bv64): (r: bv64)
    ensures r == raw & 0xFFFF_FFFF
  {
    Get(raw, 0, AccountIDMask)
  }

  /** The account number fits the `uint` the source narrows it to. */
  lemma AccountIDFits(raw: bv64)
    ensures (AccountID(raw) as bv32) as bv64 == AccountID(raw)
  {
  }

  /** `AccountInstance`: offset 32, mask 0xFFFFF, bits 32-51. */
  function AccountInstance(raw: bv64): (r: bv64)
    ensures r == (raw >> 32) & 0xF_FFFF
  {
    Get(raw, 32, AccountInstanceMask)
  }

  /** `AccountType`: offset 52, mask 0xF, bits 52-55. */
  function AccountType(raw: bv64): (r: bv64)
    ensures r == (raw >> 52) & 0xF
  {
    Get(raw, 52, AccountTypeMask)
  }

  /** `AccountUniverse`: offset 56, mask 0xFF, bits 56-63. */
  function AccountUniverse(raw: bv64): (r: bv64)
    ensures r == raw >> 56
  {
    Get(raw, 56, AccountUniverseMask)
  }

  // ---------------------------------------------------------------- setters

  /** The `AccountID` setter: bits 0-31 become the value, every other bit
      is kept. */
  function WithAccountID(raw: bv64, value: bv32): (r: bv64)
    ensures r == (raw & 0xFFFF_FFFF_0000_0000) | value as bv64
  {
    Put(raw, 0, AccountIDMask, value as bv64)
  }

  /** The `AccountInstance` setter: bits 32-51 become the value's low 20
      bits, every other bit is kept. */
  function WithAccountInstance(raw: bv64, value: bv32): (r: bv64)
    ensures r == (raw & 0xFFF0_0000_FFFF_FFFF) | ((value as bv64 & 0xF_FFFF) << 32)
  {
    Put(raw, 32, AccountInstanceMask, value as bv64)
  }

  /** The `AccountType` setter: bits 52-55 become the code's low 4 bits. */
  function WithAccountType(raw: bv64, value: bv64): (r: bv64)
    ensures r == (raw & 0xFF0F_FFFF_FFFF_FFFF) | ((value & 0xF) << 52)
  {
    Put(raw, 52, AccountTypeMask, value)
  }

  /** The `AccountUniverse` setter: bits 56-63 become the code's low 8 bits. */
  function WithAccountUniverse(raw: bv64, value: bv64): (r: bv64)
    ensures r == (raw & 0x00FF_FFFF_FFFF_FFFF) | ((value & 0xFF) << 56)
  {
    Put(raw, 56, AccountUniverseMask, value)
  }

  /** Set-then-get through the indexer at each field returns the masked
      value, and a write to one field leaves the other three as they were. */
  lemma SetAccountIDIsolated(raw: bv64, value: bv32)
    ensures AccountID(WithAccountID(raw, value)) == value as bv64
    ensures AccountInstance(WithAccountID(raw, value)) == AccountInstance(raw)
    ensures AccountType(WithAccountID(raw, value)) == AccountType(raw)
    ensures AccountUniverse(WithAccountID(raw, value)) == AccountUniverse(raw)
  {
  }

  lemma SetAccountInstanceIsolated(raw: bv64, value: bv32)
    ensures AccountInstance(WithAccountInstance(raw, value)) == value as bv64 & 0xF_FFFF
    ensures AccountID(WithAccountInstance(raw, value)) == AccountID(raw)
    ensures AccountType(WithAccountInstance(raw, value)) == AccountType(raw)
    ensures AccountUniverse(WithAccountInstance(raw, value)) == AccountUniverse(raw)
  {
  }

  lemma SetAccountTypeIsolated(raw: bv64, value: bv64)
    ensures AccountType(WithAccountType(raw, value)) == value & 0xF
    ensures AccountID(WithAccountType(raw, value)) == AccountID(raw)
    ensures AccountInstance(WithAccountType(raw, value)) == AccountInstance(raw)
    ensures AccountUniverse(WithAccountType(raw, value)) == AccountUniverse(raw)
  {
  }

  lemma SetAccountUniverseIsolated(raw: bv64, value: bv64)
    ensures AccountUniverse(WithAccountUniverse(raw, value)) == value & 0xFF
    ensures AccountID(WithAccountUniverse(raw, value)) == AccountID(raw)
    ensures AccountInstance(WithAccountUniverse(raw, value)) == AccountInstance(raw)
    ensures AccountType(WithAccountUniverse(raw, value)) == AccountType(raw)
  {
  }

  /** Writing a field twice keeps the second value, and writing back what
      a field holds changes nothing. */
  lemma AccountIDOverwrite(raw: bv64, v1: bv32, v2: bv32)
    ensures WithAccountID(WithAccountID(raw, v1), v2) == WithAccountID(raw, v2)
    ensures WithAccountID(raw, AccountID(raw) as bv32) == raw
  {
  }

  lemma AccountInstanceOverwrite(raw: bv64, v1: bv32, v2: bv32)
    ensures WithAccountInstance(WithAccountInstance(raw, v1), v2) == WithAccountInstance(raw, v2)
    ensures WithAccountInstance(raw, AccountInstance(raw) as bv32) == raw
  {
  }

  lemma AccountTypeOverwrite(raw: bv64, c1: bv64, c2: bv64)
    ensures WithAccountType(WithAccountType(raw, c1), c2) == WithAccountType(raw, c2)
    ensures WithAccountType(raw, AccountType(raw)) == raw
  {
  }

  lemma AccountUniverseOverwrite(raw: bv64, c1: bv64, c2: bv64)
    ensures WithAccountUniverse(WithAccountUniverse(raw, c1), c2) == WithAccountUniverse(raw, c2)
    ensures WithAccountUniverse(raw, AccountUniverse(raw)) == raw
  {
  }

  // ------------------------------------------------------------ whole values

  /** The raw value with the given fields, each cut to its width. */
  function Compose(id: bv64, instance: bv64, accountType: bv64, universe: bv64): (r: bv64)
    ensures AccountID(r) == id & 0xFFFF_FFFF
    ensures AccountInstance(r) == instance & 0xF_FFFF
    ensures AccountType(r) == accountType & 0xF
    ensures AccountUniverse(r) == universe & 0xFF
  {
    ((universe & 0xFF) << 56) | ((accountType & 0xF) << 52) | ((instance & 0xF_FFFF) << 32) | (id & 0xFFFF_FFFF)
  }

  /** The bit ranges of the four fields are disjoint and together cover
      all 64 bits. The lemmas after it show that each getter reads only its
      range and each setter writes only its range. */
  lemma FieldsPartitionWord()
    ensures AccountIDBits & InstanceBits == 0 && AccountIDBits & TypeBits == 0
    ensures AccountIDBits & UniverseBits == 0 && InstanceBits & TypeBits == 0
    ensures InstanceBits & UniverseBits == 0 && TypeBits & UniverseBits == 0
    ensures AccountIDBits | InstanceBits | TypeBits | UniverseBits == 0xFFFF_FFFF_FFFF_FFFF
  {
  }

  /** The account number is read from bits 0-31 only, and writing it
      changes no bit outside them. */
  lemma AccountIDBitsOnly(raw: bv64, value: bv32)
    ensures AccountID(raw) == AccountID(raw & AccountIDBits)
    ensures WithAccountID(raw, value) & !AccountIDBits == raw & !AccountIDBits
  {
  }

  /** The same for the instance and bits 32-51. */
  lemma InstanceBitsOnly(raw: bv64, value: bv32)
    ensures AccountInstance(raw) == AccountInstance(raw & InstanceBits)
    ensures WithAccountInstance(raw, value) & !InstanceBits == raw & !InstanceBits
  {
  }

  /** The same for the type and bits 52-55. */
  lemma TypeBitsOnly(raw: bv64, value: bv64)
    ensures AccountType(raw) == AccountType(raw & TypeBits)
    ensures WithAccountType(raw, value) & !TypeBits == raw & !TypeBits
  {
  }

  /** The same for the universe and bits 56-63. */
  lemma UniverseBitsOnly(raw: bv64, value: bv64)
    ensures AccountUniverse(raw) == AccountUniverse(raw & UniverseBits)
    ensures WithAccountUniverse(raw, value) & !UniverseBits == raw & !UniverseBits
  {
  }

  lemma ComposeOfFields(raw: bv64)
    ensures Compose(AccountID(raw), AccountInstance(raw), AccountType(raw), AccountUniverse(raw)) == raw
  {
    Recompose(raw);
  }

  lemma Recompose(raw: bv64)
    ensures (((raw >> 56) & 0xFF) << 56) | (((raw >> 52) & 0xF) << 52) | (((raw >> 32) & 0xF_FFFF) << 32) |
            (raw & 0xFFFF_FFFF) == raw
  {
  }

  /** Two raw values are the same value exactly when their four fields
      are the same. */
  lemma FieldsDetermineValue(a: bv64, b: bv64)
    ensures a == b <==> AccountID(a) == AccountID(b) && AccountInstance(a) == AccountInstance(b) &&
                        AccountType(a) == AccountType(b) && AccountUniverse(a) == AccountUniverse(b)
  {
    ComposeOfFields(a);
    ComposeOfFields(b);
  }

  /** `Set`'s instance rule: a clan gets instance 0, every other type the
      desktop instance. */
  function DefaultInstance(accountType: bv64): (r: bv32)
    ensures r == 0 <==> accountType == EAccountType.Clan
    ensures r != 0 ==> r == DesktopInstance
  {
    if accountType == EAccountType.Clan then 0 else DesktopInstance
  }

  // ---------------------------------------------------------- write orders

  /* Each method that writes all four properties does so in its own order.
     Whatever the order and whatever the word held before, the result is
     the composition of the values written. */

  /** `Set` and `InstancedSet`: account number, universe, type, instance. */
  lemma SetOrder(raw: bv64, id: bv32, instance: bv32, accountType: bv64, universe: bv64)
    ensures WithAccountInstance(WithAccountType(WithAccountUniverse(WithAccountID(raw, id), universe), accountType), instance)
         == Compose(id as bv64, instance as bv64, accountType, universe)
  {
    var r1 := WithAccountID(raw, id);
    var r2 := WithAccountUniverse(r1, universe);
    var r3 := WithAccountType(r2, accountType);
    SetAccountIDIsolated(raw, id);
    SetAccountUniverseIsolated(r1, universe);
    SetAccountTypeIsolated(r2, accountType);
    SetAccountInstanceIsolated(r3, instance);
    FieldsDetermineValue(WithAccountInstance(r3, instance), Compose(id as bv64, instance as bv64, accountType, universe));
  }

  /** `FullSet`: account number, instance, universe, type. */
  lemma FullSetOrder(raw: bv64, id: bv32, instance: bv32, accountType: bv64, universe: bv64)
    ensures WithAccountType(WithAccountUniverse(WithAccountInstance(WithAccountID(raw, id), instance), universe), accountType)
         == Compose(id as bv64, instance as bv64, accountType, universe)
  {
    var r1 := WithAccountID(raw, id);
    var r2 := WithAccountInstance(r1, instance);
    var r3 := WithAccountUniverse(r2, universe);
    SetAccountIDIsolated(raw, id);
    SetAccountInstanceIsolated(r1, instance);
    SetAccountUniverseIsolated(r2, universe);
    SetAccountTypeIsolated(r3, accountType);
    FieldsDetermineValue(WithAccountType(r3, accountType), Compose(id as bv64, instance as bv64, accountType, universe));
  }

  /** The constructor and `CreateBlankAnon*Logon`: account number, type,
      universe, instance. */
  lemma BlankOrder(raw: bv64, id: bv32, instance: bv32, accountType: bv64, universe: bv64)
    ensures WithAccountInstance(WithAccountUniverse(WithAccountType(WithAccountID(raw, id), accountType), universe), instance)
         == Compose(id as bv64, instance as bv64, accountType, universe)
  {
    var r1 := WithAccountID(raw, id);
    var r2 := WithAccountType(r1, accountType);
    var r3 := WithAccountUniverse(r2, universe);
    SetAccountIDIsolated(raw, id);
    SetAccountTypeIsolated(r1, accountType);
    SetAccountUniverseIsolated(r2, universe);
    SetAccountInstanceIsolated(r3, instance);
    FieldsDetermineValue(WithAccountInstance(r3, instance), Compose(id as bv64, instance as bv64, accountType, universe));
  }

  /** `SetFromString`: universe, instance, type, account number. */
  lemma TextOrder(raw: bv64, id: bv32, instance: bv32, accountType: bv64, universe: bv64)
    ensures WithAccountID(WithAccountType(WithAccountInstance(WithAccountUniverse(raw, universe), instance), accountType), id)
         == Compose(id as bv64, instance as bv64, accountType, universe)
  {
    var r1 := WithAccountUniverse(raw, universe);
    var r2 := WithAccountInstance(r1, instance);
    var r3 := WithAccountType(r2, accountType);
    SetAccountUniverseIsolated(raw, universe);
    SetAccountInstanceIsolated(r1, instance);
    SetAccountTypeIsolated(r2, accountType);
    SetAccountIDIsolated(r3, id);
    FieldsDetermineValue(WithAccountID(r3, id), Compose(id as bv64, instance as bv64, accountType, universe));
  }

  /** `FullSet` keeps the low 52 bits of its identifier (account number and
      instance) and takes type and universe from its arguments; given an
      identifier's own type and universe it rebuilds the identifier. */
  lemma FullSetFromIdentifier(identifier: bv64, universe: bv64, accountType: bv64)
    ensures var r := Compose(identifier & 0xFFFF_FFFF, (identifier >> 32) & 0xF_FFFF, accountType, universe);
            r & 0x000F_FFFF_FFFF_FFFF == identifier & 0x000F_FFFF_FFFF_FFFF &&
            AccountType(r) == accountType & 0xF &&
            AccountUniverse(r) == universe & 0xFF
    ensures Compose(identifier & 0xFFFF_FFFF, (identifier >> 32) & 0xF_FFFF,
                    AccountType(identifier), AccountUniverse(identifier)) == identifier
  {
    LowBitsKept(identifier, accountType, universe);
    ComposeOfFields(identifier);
  }

  lemma LowBitsKept(identifier: bv64, accountType: bv64, universe: bv64)
    ensures (((universe & 0xFF) << 56) | ((accountType & 0xF) << 52) | (((identifier >> 32) & 0xF_FFFF) << 32) |
             (identifier & 0xFFFF_FFFF)) & 0x000F_FFFF_FFFF_FFFF == identifier & 0x000F_FFFF_FFFF_FFFF
  {
  }

  /** `GetStaticAccountKey`: universe, type and account number added at
      their positions. Because the fields are disjoint the sum is their
      union: the raw value with the instance bits cleared. */
  function StaticAccountKey(raw: bv64): (r: bv64)
    ensures r == raw & 0xFFF0_0000_FFFF_FFFF
  {
    (AccountUniverse(raw) << 56) + (AccountType(raw) << 52) + AccountID(raw)
  }

  /** The static account key is the identifier with instance 0, and it
      ignores the instance. */
  lemma StaticAccountKeyIgnoresInstance(raw: bv64, instance: bv32)
    ensures StaticAccountKey(raw) == Compose(AccountID(raw), 0, AccountType(raw), AccountUniverse(raw))
    ensures StaticAccountKey(WithAccountInstance(raw, instance)) == StaticAccountKey(raw)
  {
  }

  // ---------------------------------------------------- account-kind tests

  predicate BBlankAnonAccount(raw: bv64) {
    AccountID(raw) == 0 && BAnonAccount(raw) && AccountInstance(raw) == 0
  }

  predicate BGameServerAccount(raw: bv64) {
    AccountType(raw) == EAccountType.GameServer || AccountType(raw) == EAccountType.AnonGameServer
  }

  predicate BContentServerAccount(raw: bv64) {
    AccountType(raw) == EAccountType.ContentServer
  }

  predicate BClanAccount(raw: bv64) {
    AccountType(raw) == EAccountType.Clan
  }

  predicate BChatAccount(raw: bv64) {
    AccountType(raw) == EAccountType.Chat
  }

  predicate IsLobby(raw: bv64) {
    AccountType(raw) == EAccountType.Chat && AccountInstance(raw) & LobbyFlag != 0
  }

  predicate BIndividualAccount(raw: bv64) {
    AccountType(raw) == EAccountType.Individual || AccountType(raw) == EAccountType.ConsoleUser
  }

  predicate BAnonAccount(raw: bv64) {
    AccountType(raw) == EAccountType.AnonUser || AccountType(raw) == EAccountType.AnonGameServer
  }

  predicate BAnonUserAccount(raw: bv64) {
    AccountType(raw) == EAccountType.AnonUser
  }

  predicate BConsoleUserAccount(raw: bv64) {
    AccountType(raw) == EAccountType.ConsoleUser
  }

  /** How the account-kind tests relate: the special kinds imply the general
      ones, an anonymous game server is the one kind that is both anonymous
      and a game server, and individual, clan, chat, content-server and
      game-server accounts exclude each other. */
  lemma AccountKindRelations(raw: bv64)
    ensures BBlankAnonAccount(raw) ==> BAnonAccount(raw)
    ensures BAnonUserAccount(raw) ==> BAnonAccount(raw) && !BGameServerAccount(raw)
    ensures BConsoleUserAccount(raw) ==> BIndividualAccount(raw)
    ensures IsLobby(raw) ==> BChatAccount(raw) && AccountInstance(raw) >= LobbyFlag
    ensures BAnonAccount(raw) && BGameServerAccount(raw) <==> AccountType(raw) == EAccountType.AnonGameServer
    ensures BIndividualAccount(raw) ==> !BClanAccount(raw) && !BChatAccount(raw) &&
                                        !BContentServerAccount(raw) && !BGameServerAccount(raw) && !BAnonAccount(raw)
    ensures BClanAccount(raw) ==> !BChatAccount(raw) && !BContentServerAccount(raw) && !BGameServerAccount(raw)
    ensures BChatAccount(raw) ==> !BContentServerAccount(raw) && !BGameServerAccount(raw)
    ensures BContentServerAccount(raw) ==> !BGameServerAccount(raw)
  {
  }

  /** `ClearIndividualInstance`: an individual account loses its instance,
      any other account is left as it is. */
  function ClearedIndividualInstance(raw: bv64): (r: bv64)
    ensures BIndividualAccount(raw) ==> AccountInstance(r) == 0 && AccountID(r) == AccountID(raw) &&
                                        AccountType(r) == AccountType(raw) &&
                                        AccountUniverse(r) == AccountUniverse(raw)
    ensures !BIndividualAccount(raw) ==> r == raw
  {
    if BIndividualAccount(raw) then WithAccountInstance(raw, 0) else raw
  }

  // ---------------------------------------------------------------- validity

  /** `IsValid`: a known type and universe, and for individuals and clans a
      nonzero account number and the instances their kind allows. */
  function IsValid(raw: bv64): (r: bool)
    ensures r <==>
      && EAccountType.Invalid < AccountType(raw) < EAccountType.Max
      && EUniverse.Invalid < AccountUniverse(raw) < EUniverse.Max
      && (AccountType(raw) == EAccountType.Individual ==>
            AccountID(raw) != 0 && AccountInstance(raw) <= ConsoleInstance as bv64)
      && (AccountType(raw) == EAccountType.Clan ==>
            AccountID(raw) != 0 && AccountInstance(raw) == 0)
  {
    var accountType, universe := AccountType(raw), AccountUniverse(raw);
    if accountType <= EAccountType.Invalid || accountType >= EAccountType.Max then false
    else if universe <= EUniverse.Invalid || universe >= EUniverse.Max then false
    else if accountType == EAccountType.Individual &&
            (AccountID(raw) == 0 || AccountInstance(raw) > ConsoleInstance as bv64) then false
    else if accountType == EAccountType.Clan &&
            (AccountID(raw) == 0 || AccountInstance(raw) != 0) then false
    else true
  }

  /** `Set` with a nonzero account number, a known type and a known
      universe always yields a valid identifier: its instance rule gives
      clans and individuals the instances IsValid demands. */
  lemma SetYieldsValid(id: bv32, universe: bv64, accountType: bv64)
    requires id != 0
    requires EAccountType.Invalid < accountType < EAccountType.Max
    requires EUniverse.Invalid < universe < EUniverse.Max
    ensures IsValid(Compose(id as bv64, DefaultInstance(accountType) as bv64, accountType, universe))
  {
  }

  /** An individual with account number 0, and a clan with a nonzero
      instance, are never valid, whatever their other fields. */
  lemma IsValidRejects(raw: bv64)
    ensures AccountType(raw) == EAccountType.Individual && AccountID(raw) == 0 ==> !IsValid(raw)
    ensures AccountType(raw) == EAccountType.Clan && AccountInstance(raw) != 0 ==> !IsValid(raw)
  {
  }

  /** `ClearIndividualInstance` keeps a valid identifier valid. */
  lemma ClearKeepsValid(raw: bv64)
    requires IsValid(raw)
    ensures IsValid(ClearedIndividualInstance(raw))
  {
  }

  /** The blank anonymous logons are blank anonymous accounts of their
      kind, valid exactly when their universe is. */
  lemma BlankAnonLogons(universe: bv64)
    ensures var r := Compose(0, 0, EAccountType.AnonGameServer, universe);
            BBlankAnonAccount(r) && BGameServerAccount(r) &&
            (IsValid(r) <==> EUniverse.Invalid < universe & AccountUniverseMask < EUniverse.Max)
    ensures var r := Compose(0, 0, EAccountType.AnonUser, universe);
            BBlankAnonAccount(r) && BAnonUserAccount(r) &&
            (IsValid(r) <==> EUniverse.Invalid < universe & AccountUniverseMask < EUniverse.Max)
  {
  }
}
