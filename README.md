# SteamID: the packed 64-bit Steam account identifier

This project models the `SteamID` type of SteamKit3
(`SteamKit3/SteamKit3/Types/SteamID.cs`) and proves its properties in Dafny.
A SteamID is one unsigned 64-bit word. The class `BitVector64` holds the word
and reads and writes it through a shift-and-mask indexer. The class `SteamID`
lays four fields over that word:

| field | bits | mask |
|---|---|---|
| AccountID | 0-31 | 0xFFFFFFFF |
| AccountInstance | 32-51 | 0xFFFFF |
| AccountType | 52-55 | 0xF |
| AccountUniverse | 56-63 | 0xFF |

The methods that write several fields at once are built on those fields, and
so are the account-kind tests, `IsValid`, the static account key, the legacy
text form `STEAM_<universe>:<auth server>:<account>` (rendered and parsed),
and equality.

The model has nine modules:

- `Wrappers` (`wrappers.dfy`) holds the `Option` type.
- `BitVectors` (`bitvector.dfy`) holds the indexer as the functions `Get` and
  `Put` on a word, and BitVector64 as a class with a mutable `bv64` field.
- `EAccountType` and `EUniverse` (`account_codes.dfy`) hold the enumeration
  codes as 64-bit words. The enumerations themselves are not part of this
  model. Their numeric values matter: the setters store a code's low bits
  in the raw value, and `Render` prints the universe's number. The values
  used are Invalid 0, Individual 1, Multiseat 2,
  GameServer 3, AnonGameServer 4, Pending 5, ContentServer 6, Clan 7, Chat 8,
  ConsoleUser 9, AnonUser 10, Max 11. For universes: Invalid 0, Public 1,
  Beta 2, Internal 3, Dev 4, Max 5.
- `SteamIDs` (`steamid_fields.dfy`) works on the raw value. It holds the
  field getters and setters and proves that the fields are disjoint and cover
  the word. It also holds each method's write order, the account-kind tests,
  `IsValid` and the static account key.
- `LegacyText` (`legacy_text.dfy`) holds decimal text and `uint.Parse`. It
  also holds the matcher for the pattern
  `STEAM_(?<universe>[0-5]):(?<authserver>[0-1]):(?<accountid>\d+)`, which
  ignores letter case and finds the leftmost match.
- `SteamIDText` (`steamid_text.dfy`) holds `Render` and `SetFromString` on the
  raw value, and the round trips between them in both directions.
- `SteamIDObject` (`steamid.dfy`) holds the `SteamID` class itself: a `const`
  reference to a `BitVector64`, the constructors, the property setters and
  the mutating methods. The setters and mutating methods have
  `modifies steamid`, and each one's postcondition gives the new raw value
  as a `SteamIDs` or `SteamIDText` function of the old one. The
  constructors allocate a fresh word and give its raw value.
- `UInt64Construction` (`findings.dfy`) covers the `SteamID(ulong)`
  constructor as written (see Findings).

## Model

All source paths are in `SteamKit3/SteamKit3/Types/SteamID.cs`.

| member | source | states |
|---|---|---|
| BitVectors.ShiftCount | SteamKit3/SteamKit3/Types/SteamID.cs:35-39 | the shift amount the indexer uses is below 64, and it is the offset itself for an offset below 64 |
| BitVectors.Get | SteamKit3/SteamKit3/Types/SteamID.cs:35 | the indexer getter's result has no bit outside the mask |
| BitVectors.Put | SteamKit3/SteamKit3/Types/SteamID.cs:39 | the indexer setter's formula; no contract of its own (see "## Left out"), its meaning at the four fields is stated by the `SteamIDs.With*` functions and the `*BitsOnly` lemmas |
| BitVectors.BitVector64.Item | SteamKit3/SteamKit3/Types/SteamID.cs:33-36 | the indexer getter on the current word is `Get` of that word, so it has no bit outside the mask |
| BitVectors.SetThenGetDropsShiftedOutBits | SteamKit3/SteamKit3/Types/SteamID.cs:31-41 | set-then-get through the indexer is not `value & mask` in general: an all-ones mask written and read at offset 32 reads back only 32 bits |
| BitVectors.BitVector64.constructor | SteamKit3/SteamKit3/Types/SteamID.cs:17-19 | a new vector holds the word 0 |
| BitVectors.BitVector64.FromValue | SteamKit3/SteamKit3/Types/SteamID.cs:20-23 | a vector built from a value holds that value |
| BitVectors.BitVector64.SetItem | SteamKit3/SteamKit3/Types/SteamID.cs:37-40 | the indexer setter rewrites the word in place to `Put` of the old word; the shift count is the offset modulo 64, as (ushort) and a 64-bit shift make it |
| SteamIDs.AccountID | SteamKit3/SteamKit3/Types/SteamID.cs:258-263 | the account number is exactly bits 0-31 of the raw value |
| SteamIDs.AccountInstance | SteamKit3/SteamKit3/Types/SteamID.cs:270-275 | the instance is exactly bits 32-51 |
| SteamIDs.AccountType | SteamKit3/SteamKit3/Types/SteamID.cs:282-287 | the type is exactly bits 52-55 |
| SteamIDs.AccountUniverse | SteamKit3/SteamKit3/Types/SteamID.cs:294-299 | the universe is exactly bits 56-63 |
| SteamIDs.WithAccountID | SteamKit3/SteamKit3/Types/SteamID.cs:264-267 | writing the account number replaces bits 0-31 with the value and keeps every other bit |
| SteamIDs.WithAccountInstance | SteamKit3/SteamKit3/Types/SteamID.cs:276-279 | writing the instance replaces bits 32-51 with the value's low 20 bits and keeps every other bit |
| SteamIDs.WithAccountType | SteamKit3/SteamKit3/Types/SteamID.cs:288-291 | writing the type replaces bits 52-55 with the code's low 4 bits and keeps every other bit |
| SteamIDs.WithAccountUniverse | SteamKit3/SteamKit3/Types/SteamID.cs:300-303 | writing the universe replaces bits 56-63 with the code's low 8 bits and keeps every other bit |
| SteamIDs.SetAccountIDIsolated | SteamKit3/SteamKit3/Types/SteamID.cs:258-268 | reading the account number back after a write gives the value, and the other three properties keep their values |
| SteamIDs.SetAccountInstanceIsolated | SteamKit3/SteamKit3/Types/SteamID.cs:270-280 | reading the instance back gives `value & 0xFFFFF`, and the other three properties are unchanged |
| SteamIDs.SetAccountTypeIsolated | SteamKit3/SteamKit3/Types/SteamID.cs:282-292 | reading the type back gives `value & 0xF`, and the other three properties are unchanged |
| SteamIDs.SetAccountUniverseIsolated | SteamKit3/SteamKit3/Types/SteamID.cs:294-304 | reading the universe back gives `value & 0xFF`, and the other three properties are unchanged |
| SteamIDs.AccountIDOverwrite | SteamKit3/SteamKit3/Types/SteamID.cs:264-267 | of two writes to the account number the second wins; writing back the current value changes nothing |
| SteamIDs.AccountInstanceOverwrite | SteamKit3/SteamKit3/Types/SteamID.cs:276-279 | the same for the instance |
| SteamIDs.AccountTypeOverwrite | SteamKit3/SteamKit3/Types/SteamID.cs:288-291 | the same for the type |
| SteamIDs.AccountUniverseOverwrite | SteamKit3/SteamKit3/Types/SteamID.cs:300-303 | the same for the universe |
| SteamIDs.Compose | SteamKit3/SteamKit3/Types/SteamID.cs:122-128 | the value with four given fields reads back each field cut to its width (`id`, `instance & 0xFFFFF`, `type & 0xF`, `universe & 0xFF`) |
| SteamIDs.FieldsPartitionWord | SteamKit3/SteamKit3/Types/SteamID.cs:258-304 | the four fields' bit ranges are pairwise disjoint and together cover all 64 bits; with the `*BitsOnly` lemmas, each getter and setter touches exactly its range |
| SteamIDs.AccountIDBitsOnly | SteamKit3/SteamKit3/Types/SteamID.cs:258-268 | the account number is read from bits 0-31 only, and writing it changes no bit outside them |
| SteamIDs.InstanceBitsOnly | SteamKit3/SteamKit3/Types/SteamID.cs:270-280 | the instance is read from bits 32-51 only, and writing it changes no bit outside them |
| SteamIDs.TypeBitsOnly | SteamKit3/SteamKit3/Types/SteamID.cs:282-292 | the type is read from bits 52-55 only, and writing it changes no bit outside them |
| SteamIDs.UniverseBitsOnly | SteamKit3/SteamKit3/Types/SteamID.cs:294-304 | the universe is read from bits 56-63 only, and writing it changes no bit outside them |
| SteamIDs.ComposeOfFields | SteamKit3/SteamKit3/Types/SteamID.cs:258-304 | every raw value is the composition of its own four fields |
| SteamIDs.FieldsDetermineValue | SteamKit3/SteamKit3/Types/SteamID.cs:345-353 | two raw values are equal exactly when all four fields are equal |
| SteamIDs.DefaultInstance | SteamKit3/SteamKit3/Types/SteamID.cs:112-119 | `Set`'s instance is 0 exactly for a clan, and the desktop instance 1 for every other type |
| SteamIDs.SetOrder | SteamKit3/SteamKit3/Types/SteamID.cs:106-128 | the write order of `Set` and `InstancedSet` (account, universe, type, instance) yields the composition of the values written, whatever the word held before |
| SteamIDs.FullSetOrder | SteamKit3/SteamKit3/Types/SteamID.cs:130-136 | the same for `FullSet`'s order (account, instance, universe, type) |
| SteamIDs.BlankOrder | SteamKit3/SteamKit3/Types/SteamID.cs:170-184 | the same for the order of the default constructor and `CreateBlankAnon*Logon` (account, type, universe, instance) |
| SteamIDs.TextOrder | SteamKit3/SteamKit3/Types/SteamID.cs:154-157 | the same for `SetFromString`'s order (universe, instance, type, account) |
| SteamIDs.FullSetFromIdentifier | SteamKit3/SteamKit3/Types/SteamID.cs:130-136 | `FullSet` keeps the identifier's low 52 bits (account number and instance) and takes type and universe from its arguments; given the identifier's own type and universe it rebuilds the identifier exactly |
| SteamIDs.StaticAccountKey | SteamKit3/SteamKit3/Types/SteamID.cs:165-168 | the sum of universe, type and account number at their positions equals the raw value with the instance bits cleared (the `+` adds disjoint bits) |
| SteamIDs.StaticAccountKeyIgnoresInstance | SteamKit3/SteamKit3/Types/SteamID.cs:165-168 | the static key is the identifier with instance 0, and writing any instance leaves the key unchanged |
| SteamIDs.BBlankAnonAccount | SteamKit3/SteamKit3/Types/SteamID.cs:186-189 | the test for account number 0, an anonymous type and instance 0 (no contract of its own; related to the other tests by `AccountKindRelations`) |
| SteamIDs.BGameServerAccount | SteamKit3/SteamKit3/Types/SteamID.cs:190-193 | the test for type GameServer or AnonGameServer (no contract of its own; see `AccountKindRelations`) |
| SteamIDs.BContentServerAccount | SteamKit3/SteamKit3/Types/SteamID.cs:194-197 | the test for type ContentServer (no contract of its own; see `AccountKindRelations`) |
| SteamIDs.BClanAccount | SteamKit3/SteamKit3/Types/SteamID.cs:198-201 | the test for type Clan (no contract of its own; see `AccountKindRelations`) |
| SteamIDs.BChatAccount | SteamKit3/SteamKit3/Types/SteamID.cs:202-205 | the test for type Chat (no contract of its own; see `AccountKindRelations`) |
| SteamIDs.IsLobby | SteamKit3/SteamKit3/Types/SteamID.cs:206-209 | the test for type Chat with the lobby flag 0x40000 set in the instance (no contract of its own; see `AccountKindRelations`) |
| SteamIDs.BIndividualAccount | SteamKit3/SteamKit3/Types/SteamID.cs:210-213 | the test for type Individual or ConsoleUser (no contract of its own; see `AccountKindRelations`) |
| SteamIDs.BAnonAccount | SteamKit3/SteamKit3/Types/SteamID.cs:214-217 | the test for type AnonUser or AnonGameServer (no contract of its own; see `AccountKindRelations`) |
| SteamIDs.BAnonUserAccount | SteamKit3/SteamKit3/Types/SteamID.cs:218-221 | the test for type AnonUser (no contract of its own; see `AccountKindRelations`) |
| SteamIDs.BConsoleUserAccount | SteamKit3/SteamKit3/Types/SteamID.cs:222-225 | the test for type ConsoleUser (no contract of its own; see `AccountKindRelations`) |
| SteamIDs.AccountKindRelations | SteamKit3/SteamKit3/Types/SteamID.cs:186-225 | how the account-kind tests relate: blank anonymous implies anonymous, anonymous user implies anonymous and not game server, console user implies individual, lobby implies chat with an instance at least the lobby flag, anonymous game server is the only type both anonymous and game server, and the individual, clan, chat, content-server and game-server kinds exclude each other |
| SteamIDs.ClearedIndividualInstance | SteamKit3/SteamKit3/Types/SteamID.cs:227-233 | an individual's instance becomes 0 with the other fields kept; any other account is left exactly as it was |
| SteamIDs.IsValid | SteamKit3/SteamKit3/Types/SteamID.cs:235-256 | valid exactly when Invalid < type < Max, Invalid < universe < Max, an Individual has a nonzero account number and instance at most 2, and a Clan has a nonzero account number and instance 0 |
| SteamIDs.SetYieldsValid | SteamKit3/SteamKit3/Types/SteamID.cs:106-120 | `Set` with a nonzero account number, a known type and a known universe always yields a valid identifier |
| SteamIDs.IsValidRejects | SteamKit3/SteamKit3/Types/SteamID.cs:243-253 | an individual with account number 0 and a clan with a nonzero instance are never valid |
| SteamIDs.ClearKeepsValid | SteamKit3/SteamKit3/Types/SteamID.cs:227-233 | `ClearIndividualInstance` keeps a valid identifier valid |
| SteamIDs.BlankAnonLogons | SteamKit3/SteamKit3/Types/SteamID.cs:170-184 | the blank anonymous logons are blank anonymous accounts of their kind, and are valid exactly when their universe is known |
| LegacyText.Decimal | SteamKit3/SteamKit3/Types/SteamID.cs:313 | an integer's decimal text as `String.Format` writes it is canonical (digits only, no leading zero) and starts with '0' only for zero |
| LegacyText.ValueOfDecimal | SteamKit3/SteamKit3/Types/SteamID.cs:313 | reading back the decimal text of a number gives the number |
| LegacyText.DecimalOfValue | SteamKit3/SteamKit3/Types/SteamID.cs:151 | formatting the number a canonical digit run denotes gives back the run |
| LegacyText.ParseUInt32 | SteamKit3/SteamKit3/Types/SteamID.cs:151 | `uint.Parse` of a digit run succeeds exactly when the number is below 2^32, and then gives that number |
| LegacyText.ParseOfDecimal | SteamKit3/SteamKit3/Types/SteamID.cs:151 | parsing the decimal text of a number below 2^32 gives the number |
| LegacyText.DigitRunIsLongest | SteamKit3/SteamKit3/Types/SteamID.cs:49 | `\d+` captures the text from its start up to the first character that is not a digit |
| LegacyText.LowerAscii | SteamKit3/SteamKit3/Types/SteamID.cs:50 | `RegexOptions.IgnoreCase` in ASCII: no upper-case letter is left, an upper-case letter becomes its lower-case partner, and every other character is unchanged |
| LegacyText.DigitRun | SteamKit3/SteamKit3/Types/SteamID.cs:49 | the greedy `\d+` starting at a position: a run of digits that lies within the text (that it is the longest is stated by `DigitRunIsLongest`) |
| LegacyText.MatchAt | SteamKit3/SteamKit3/Types/SteamID.cs:48-50 | a match at a position lies within the text and its groups are well formed (universe 0-5, auth server 0-1, at least one digit) |
| LegacyText.SearchFindsFirst | SteamKit3/SteamKit3/Types/SteamID.cs:48-50 | the search from a position finds nothing exactly when the pattern matches at no later position, and otherwise finds the match at the first such position |
| LegacyText.Search | SteamKit3/SteamKit3/Types/SteamID.cs:146 | a match found from a position has well-formed groups; which position it finds is stated by `SearchFindsFirst` |
| LegacyText.Match | SteamKit3/SteamKit3/Types/SteamID.cs:146 | `Regex.Match` on the whole text: a match has well-formed groups; that it is the leftmost is stated by `MatchFindsFirst` |
| LegacyText.MatchFindsFirst | SteamKit3/SteamKit3/Types/SteamID.cs:146-149 | `Regex.Match` fails exactly when the pattern matches nowhere, and otherwise returns the leftmost match |
| LegacyText.MatchOfLegacyForm | SteamKit3/SteamKit3/Types/SteamID.cs:48-50 | the legacy form, with its tag in any letter case, matches with its three parts as the groups |
| SteamIDText.WordText | SteamKit3/SteamKit3/Types/SteamID.cs:313 | a word is written as canonical decimal text |
| SteamIDText.UniverseWord | SteamKit3/SteamKit3/Types/SteamID.cs:312-315 | the universe is written as 0 exactly when it is at most Public, and otherwise as itself |
| SteamIDText.Render | SteamKit3/SteamKit3/Types/SteamID.cs:306-319 | rendering gives text exactly for Invalid and Individual accounts |
| SteamIDText.RenderedText | SteamKit3/SteamKit3/Types/SteamID.cs:310-315 | the rendered text is `STEAM_0:<id & 1>:<id >> 1>` when the universe is at most Public, and otherwise has the universe's own number in place of 0 |
| SteamIDText.AuthServerBit | SteamKit3/SteamKit3/Types/SteamID.cs:152 | parsing the auth-server group gives 1 exactly for '1' and 0 for '0' |
| SteamIDText.LegacyAccountID | SteamKit3/SteamKit3/Types/SteamID.cs:157 | `(accId << 1) \| authServer` on 32 bits has the auth-server bit as its low bit and, above it, the account number with its top bit shifted out |
| SteamIDText.LegacyAccountIDSplit | SteamKit3/SteamKit3/Types/SteamID.cs:157 | for an account number below 2^31 the combined number splits back into the bit and the number |
| SteamIDText.SetLegacyFields | SteamKit3/SteamKit3/Types/SteamID.cs:154-157 | after the four writes of a successful parse, the account number is the combined number, the instance is 1, the type is Individual and the universe is the caller's |
| SteamIDText.FromLegacyText | SteamKit3/SteamKit3/Types/SteamID.cs:144-158 | there is no match exactly when the pattern is found nowhere, and an overflow exactly when the matched number is 2^32 or more. In both cases the value is unchanged. Otherwise the fields are the legacy combination in the caller's universe, and the universe digit in the text is ignored |
| SteamIDText.ParseOfLegacyForm | SteamKit3/SteamKit3/Types/SteamID.cs:144-158 | the legacy form with a number below 2^32 is applied with its own auth-server bit and number |
| SteamIDText.WordTextOfParsed | SteamKit3/SteamKit3/Types/SteamID.cs:151 | writing back a parsed canonical number gives the digits that were parsed |
| SteamIDText.AuthServerText | SteamKit3/SteamKit3/Types/SteamID.cs:152 | the parsed auth-server bit is rendered as the character it was parsed from |
| SteamIDText.RenderOfLegacyFields | SteamKit3/SteamKit3/Types/SteamID.cs:306-315 | an individual set from the legacy form in a universe up to Public renders as `STEAM_0:<bit>:<number>` |
| SteamIDText.RenderAfterParse | SteamKit3/SteamKit3/Types/SteamID.cs:306-315 | rendering the fields a parse sets writes the parsed auth-server character and number again (number below 2^31, universe up to Public) |
| SteamIDText.ParseThenRender | SteamKit3/SteamKit3/Types/SteamID.cs:144-158 | parsing `STEAM_<u>:<a>:<n>` with any canonical n below 2^31, in a universe up to Public, and then rendering gives `STEAM_0:<a>:<n>` |
| SteamIDText.RenderOfParsedExample | SteamKit3/SteamKit3/Types/SteamID.cs:306-315 | `STEAM_0:1:123` parsed in the public universe renders as itself |
| SteamIDText.RenderOfLegacyFieldsAbove | SteamKit3/SteamKit3/Types/SteamID.cs:314-315 | an individual set from the legacy form in a universe above Public renders as `STEAM_<universe>:<bit>:<number>`, with the universe's own number |
| SteamIDText.RenderAfterParseAbove | SteamKit3/SteamKit3/Types/SteamID.cs:314-315 | rendering the fields a parse sets in a universe above Public writes the universe's number, the parsed auth-server character and the parsed digits |
| SteamIDText.ParseThenRenderInOwnUniverse | SteamKit3/SteamKit3/Types/SteamID.cs:144-158 | parsing `STEAM_<u>:<a>:<n>` in the universe whose number is the digit `u`, above Public, with a canonical n < 2^31, and rendering the result gives back the same text |
| SteamIDText.RenderOfParsedBetaExample | SteamKit3/SteamKit3/Types/SteamID.cs:306-315 | `STEAM_2:0:7` parsed in the beta universe renders as itself |
| SteamIDText.UniverseDigit | SteamKit3/SteamKit3/Types/SteamID.cs:310-315 | for a universe up to Max, `Render` writes the universe as one digit from 0 to 5, which the pattern's universe group accepts |
| SteamIDText.RenderedBit | SteamKit3/SteamKit3/Types/SteamID.cs:313-315 | the auth-server bit `Render` writes is the digit '0' or '1' that `uint.Parse` reads back as the account number's low bit |
| SteamIDText.RenderedNumber | SteamKit3/SteamKit3/Types/SteamID.cs:313-315 | the number `Render` writes above the auth-server bit is canonical digits that `uint.Parse` reads back as that number |
| SteamIDText.RenderFromParts | SteamKit3/SteamKit3/Types/SteamID.cs:311-315 | an individual is rendered as `STEAM_` followed by the texts of its universe, its auth-server bit and its number, separated by colons |
| SteamIDText.LegacyOfParts | SteamKit3/SteamKit3/Types/SteamID.cs:157 | `accId << 1` ORed with `authServer` rebuilds an account number from its number above the low bit and its low bit |
| SteamIDText.LegacyFieldsOfIndividual | SteamKit3/SteamKit3/Types/SteamID.cs:154-157 | an individual with instance 1 is exactly what the four writes of `SetFromString` make of its own account number in its own universe, whatever the value before |
| SteamIDText.ParseOfParts | SteamKit3/SteamKit3/Types/SteamID.cs:144-158 | the legacy form built from an account number's two parts parses back to the value the legacy writes make of that number |
| SteamIDText.RenderThenParse | SteamKit3/SteamKit3/Types/SteamID.cs:144-158 | rendering an individual whose instance is 1 and whose universe is at most Max, then parsing the text in that universe, gives back the identifier exactly, whatever the value before the parse |
| SteamIDObject.SteamID.constructor | SteamKit3/SteamKit3/Types/SteamID.cs:67-75 | the default constructor allocates a fresh word whose raw value is 0 |
| SteamIDObject.SteamID.FromParts | SteamKit3/SteamKit3/Types/SteamID.cs:77-81 | the raw value is that of `Set` with the arguments |
| SteamIDObject.SteamID.FromPartsWithInstance | SteamKit3/SteamKit3/Types/SteamID.cs:83-87 | the raw value is the composition of the four arguments |
| SteamIDObject.SteamID.FromUint64 | SteamKit3/SteamKit3/Types/SteamID.cs:89-92 | corrected constructor: the raw value is the argument, so the conversion from UInt64 followed by ConvertToUint64 gives the number back |
| SteamIDObject.SteamID.FromString | SteamKit3/SteamKit3/Types/SteamID.cs:94-97 | for a text whose account number does not overflow 32 bits (the source throws otherwise), the raw value is the parse of the text in the public universe, starting from 0 |
| SteamIDObject.SteamID.FromStringInUniverse | SteamKit3/SteamKit3/Types/SteamID.cs:99-103 | for a text whose account number does not overflow 32 bits (the source throws otherwise), the raw value is the parse of the text in the given universe, starting from 0, so text that does not match leaves 0 |
| SteamIDObject.SteamID.ResetFields | SteamKit3/SteamKit3/Types/SteamID.cs:71-74 | the default constructor's four writes leave the raw value 0 |
| SteamIDObject.SteamID.AccountID | SteamKit3/SteamKit3/Types/SteamID.cs:260-263 | the account number property, read through the indexer, is `SteamIDs.AccountID` of the word |
| SteamIDObject.SteamID.AccountInstance | SteamKit3/SteamKit3/Types/SteamID.cs:272-275 | the instance property is `SteamIDs.AccountInstance` of the word |
| SteamIDObject.SteamID.AccountType | SteamKit3/SteamKit3/Types/SteamID.cs:284-287 | the type property is `SteamIDs.AccountType` of the word |
| SteamIDObject.SteamID.AccountUniverse | SteamKit3/SteamKit3/Types/SteamID.cs:296-299 | the universe property is `SteamIDs.AccountUniverse` of the word |
| SteamIDObject.SteamID.ConvertToUint64 | SteamKit3/SteamKit3/Types/SteamID.cs:160-163 | the raw value, which is the composition of the object's four fields |
| SteamIDObject.SteamID.SetAccountID | SteamKit3/SteamKit3/Types/SteamID.cs:264-267 | the word becomes `WithAccountID` of the old word |
| SteamIDObject.SteamID.SetAccountInstance | SteamKit3/SteamKit3/Types/SteamID.cs:276-279 | the word becomes `WithAccountInstance` of the old word |
| SteamIDObject.SteamID.SetAccountType | SteamKit3/SteamKit3/Types/SteamID.cs:288-291 | the word becomes `WithAccountType` of the old word |
| SteamIDObject.SteamID.SetAccountUniverse | SteamKit3/SteamKit3/Types/SteamID.cs:300-303 | the word becomes `WithAccountUniverse` of the old word |
| SteamIDObject.SteamID.Set | SteamKit3/SteamKit3/Types/SteamID.cs:106-120 | the new raw value has the given account number, universe and type, with instance 0 for a clan and 1 (desktop) otherwise; nothing of the old value survives |
| SteamIDObject.SteamID.InstancedSet | SteamKit3/SteamKit3/Types/SteamID.cs:122-128 | the new raw value is the composition of the four arguments |
| SteamIDObject.SteamID.FullSet | SteamKit3/SteamKit3/Types/SteamID.cs:130-136 | the account number comes from the identifier's low 32 bits, the instance from its bits 32-51, and the universe and type from the arguments |
| SteamIDObject.SteamID.SetFromUint64 | SteamKit3/SteamKit3/Types/SteamID.cs:138-141 | the raw value becomes the argument |
| SteamIDObject.SteamID.SetFromString | SteamKit3/SteamKit3/Types/SteamID.cs:144-158 | the outcome and the new raw value are `FromLegacyText` of the old value |
| SteamIDObject.SteamID.CreateBlankAnonLogon | SteamKit3/SteamKit3/Types/SteamID.cs:170-176 | the raw value becomes the blank anonymous game server of the universe |
| SteamIDObject.SteamID.CreateBlankAnonUserLogon | SteamKit3/SteamKit3/Types/SteamID.cs:178-184 | the raw value becomes the blank anonymous user of the universe |
| SteamIDObject.SteamID.ClearIndividualInstance | SteamKit3/SteamKit3/Types/SteamID.cs:227-233 | the raw value becomes `ClearedIndividualInstance` of the old one |
| SteamIDObject.SteamID.Equals | SteamKit3/SteamKit3/Types/SteamID.cs:348-354 | false for null, otherwise true exactly when the two identifiers agree in all four fields |
| SteamIDObject.SteamID.Same | SteamKit3/SteamKit3/Types/SteamID.cs:356-365 | `==` is true for the same reference (two nulls included), false when exactly one side is null, and otherwise agrees with `Equals` |
| UInt64Construction.WriteData | SteamKit3/SteamKit3/Types/SteamID.cs:138-141 | writing through the word reference succeeds exactly when the reference is not null, and then the raw value is the argument |
| UInt64Construction.AsWrittenFromUint64 | SteamKit3/SteamKit3/Types/SteamID.cs:89-92 | the `SteamID(ulong)` constructor as written, writing through the word reference before anything allocated it; no contract of its own, what it does is stated by `AsWrittenAlwaysThrows` |
| UInt64Construction.ChainedFromUint64 | SteamKit3/SteamKit3/Types/SteamID.cs:89-92 | the same constructor chained to `this()`, which allocates a zero word first; no contract of its own, what it does is stated by `ChainedKeepsValue` |
| UInt64Construction.AsWrittenAlwaysThrows | SteamKit3/SteamKit3/Types/SteamID.cs:89-92 | as written, constructing from any 64-bit value throws NullReferenceException |
| UInt64Construction.ChainedKeepsValue | SteamKit3/SteamKit3/Types/SteamID.cs:89-92 | chained to the default constructor, construction from a value yields that value |

## Left out

- SteamIDObject.SteamID.FromString: a text whose account number is 2^32 or more makes the source constructor throw OverflowException, so no object exists. The model makes such a text a precondition violation and promises nothing for it.
- SteamIDObject.SteamID.FromStringInUniverse: the same overflow case is a precondition violation, for the same reason.
- The `B*Account` and `IsLobby` tests, `IsValid`, `Render` and `GetStaticAccountKey` are functions of the raw value in `SteamIDs` and `SteamIDText`. The object's own methods of those names apply them to its word and are not repeated on the class.
- BitVectors.Put: it has no contract of its own. "Every bit outside `mask << offset` is kept" is proved at the four offsets and masks a SteamID uses (the `With*` functions and the `*BitsOnly` lemmas), not for an arbitrary offset and mask. The general statement needs more solver resources than this project allows itself. General set-then-get is false without the condition that `mask << offset` drops no bit of the mask (`SetThenGetDropsShiftedOutBits`). At the four fields it holds (`SetAccount*Isolated`).
- SteamIDText.Render: the `default:` branch has no value. `Convert.ToString(this)` calls `ToString()`, which calls `Render()` again without end, so the model gives no text (None) for every type other than Invalid and Individual.
- SteamIDText.ParseThenRender: proved for account numbers below 2^31 and universes up to Public. Such a text is normalised to `STEAM_0:<a>:<n>`: its universe digit, from 0 to 5, is not kept, because the parse ignores it and `Render` writes 0 up to Public. Above Public the text comes back unchanged when its digit names the caller's universe (`ParseThenRenderInOwnUniverse`). A number of 2^31 or more loses its top bit in `accId << 1`.
- SteamIDText.RenderThenParse: stated only for an individual with instance 1 and a universe up to Max. Parsing always sets instance 1 and type Individual, so no other identifier comes back. A universe above Max is written with a number the pattern's `[0-5]` does not match.
- The regular expression is modelled for the exact ASCII form. Letter case is folded in ASCII only. `\d` and digits are ASCII '0'-'9'. In the source, `\d` also matches other Unicode decimal digits. `uint.Parse` rejects those, so such a text makes `SetFromString` throw FormatException. That case is not modelled.
- A `FormatException` cannot occur in this model, whose `\d` is ASCII. An `OverflowException` in `SetFromString` is modelled as the outcome `Overflow`, with the value unchanged.
- `Equals(object)` for an object of another type (false) is not modelled. A `SteamID?` argument covers the null and SteamID cases.
- `operator !=` is the negation of `==` and is not modelled separately.
- `GetHashCode` delegates to the framework's `UInt64.GetHashCode`, which is not part of this model.
- The enumeration codes are 64-bit words. A negative code, whose `(UInt64)` cast sign-extends, is covered as that word.
- `SteamKit2/Tests/CMClientFacts.cs` tests classes that are not part of this model.

## Findings

| source | as written | input that shows it | evidently intended | confidence | as-written member | corrected member |
|---|---|---|---|---|---|---|
| SteamKit3/SteamKit3/Types/SteamID.cs:89-92 | `SteamID(ulong id)` does not chain to `this()`, so its `steamid` reference is still null when `SetFromUint64` writes `steamid.Data`; the implicit conversion from UInt64 (lines 331-334) calls this constructor | any id, e.g. `new SteamID(76561197960265729UL)` throws NullReferenceException | allocate the word as the other constructors do, so the raw value becomes `id` | not executed | UInt64Construction.AsWrittenAlwaysThrows | SteamIDObject.SteamID.FromUint64 |
