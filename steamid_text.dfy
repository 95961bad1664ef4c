/**
 * The legacy text form of a SteamID (`STEAM_<u>:<a>:<n>`) on the raw
 * value: `Render` for individual and invalid accounts, the state change
 * `SetFromString` makes once its pattern has matched, and the round trips
 * between the two.
 */
module SteamIDText {
  import opened Wrappers
  import opened LegacyText
  import opened SteamIDs
  import EAccountType
  import EUniverse

  // ---------------------------------------------------------------- Render

  /** The decimal text of a 64-bit word, as String.Format writes it. */
  function WordText(x: bv64): (s: string)
    ensures Canonical(s)
  {
    Decimal(x as nat)
  }

  /** The universe as `Render` writes it: 0 for universes up to Public,
      otherwise the universe itself. */
  function UniverseWord(universe: bv64): (w: bv64)
    ensures w <= universe
    ensures w == 0 <==> universe <= EUniverse.Public
    ensures universe > EUniverse.Public ==> w == universe
  {
    if universe <= EUniverse.Public then 0 else universe
  }

  /** `Render`: individual and invalid accounts render as
      `STEAM_<universe>:<AccountID & 1>:<AccountID >> 1>`. There is no value
      for any other account type: the source's `default:` branch calls
      `Convert.ToString(this)`, which calls `ToString()`, which calls
      `Render()` again, without end. */
  function Render(raw: bv64): (r: Option<string>)
    ensures r.Some? <==> AccountType(raw) == EAccountType.Invalid || AccountType(raw) == EAccountType.Individual
  {
    var accountType := AccountType(raw);
    if accountType == EAccountType.Invalid || accountType == EAccountType.Individual then
      var id := AccountID(raw);
      Some("STEAM_" + WordText(UniverseWord(AccountUniverse(raw))) + ":" + WordText(id & 1) + ":" + WordText(id >> AuthServerWidth))
    else
      None
  }

  /** The text `Render` writes: the universe as 0 up to Public and as its
      own number above, then the account number's low bit, then the
      account number above that bit. */
  lemma {:induction false} RenderedText(raw: bv64)
    requires AccountType(raw) == EAccountType.Invalid || AccountType(raw) == EAccountType.Individual
    ensures AccountUniverse(raw) <= EUniverse.Public ==>
              Render(raw) == Some("STEAM_" + "0" + ":" + WordText(AccountID(raw) & 1) + ":" +
                                  WordText(AccountID(raw) >> AuthServerWidth))
    ensures AccountUniverse(raw) > EUniverse.Public ==>
              Render(raw) == Some("STEAM_" + WordText(AccountUniverse(raw)) + ":" + WordText(AccountID(raw) & 1) + ":" +
                                  WordText(AccountID(raw) >> AuthServerWidth))
  {
    BitText(0);
  }

  // --------------------------------------------------------- SetFromString

  /** `uint.Parse` of the `authserver` group, which is '0' or '1'. */
  function AuthServerBit(c: char): (b: bv32)
    requires '0' <= c <= '1'
    ensures b <= 1
    ensures b == 1 <==> c == '1'
  {
    if c == '0' then 0 else 1
  }

  /** The legacy text keeps the auth-server bit as the lowest bit of the
      account number. */
  const AuthServerWidth: bv8 := 1

  /** `(accId << 1) | authServer` on 32 bits: the account number above the
      auth-server bit, its top bit shifted out. */
  function LegacyAccountID(accId: bv32, authServer: bv32): (r: bv32)
    requires authServer <= 1
    ensures r & 1 == authServer
    ensures r >> AuthServerWidth == accId & 0x7FFF_FFFF
  {
    (accId << AuthServerWidth) | authServer
  }

  /** How `SetFromString` ended. */
  datatype TextOutcome =
    | NoMatch   // the pattern is found nowhere; the method returns early
    | Overflow  // the account number exceeds 32 bits; `uint.Parse` throws
    | Applied   // the four fields were set

  /** The four property writes `SetFromString` makes after a match. They
      overwrite every field, so the result does not depend on the value
      before. */
  function SetLegacyFields(raw: bv64, accountId: bv32, universe: bv64): (r: bv64)
    ensures AccountID(r) == accountId as bv64
    ensures AccountInstance(r) == 1
    ensures AccountType(r) == EAccountType.Individual
    ensures AccountUniverse(r) == universe & 0xFF
  {
    var r1 := WithAccountUniverse(raw, universe);
    var r2 := WithAccountInstance(r1, 1);
    var r3 := WithAccountType(r2, EAccountType.Individual);
    SetAccountIDIsolated(r3, accountId);
    SetAccountTypeIsolated(r2, EAccountType.Individual);
    SetAccountInstanceIsolated(r1, 1);
    SetAccountUniverseIsolated(raw, universe);
    WithAccountID(r3, accountId)
  }

  /** `SetFromString(steamId, eUniverse)` on the raw value: find the
      pattern; on a match set the universe to the caller's (the universe in
      the text is ignored), the instance to 1, the type to Individual and
      the account number to the legacy combination, in that order. */
  function FromLegacyText(raw: bv64, text: string, universe: bv64): (r: (TextOutcome, bv64))
    ensures r.0 == NoMatch <==> Match(text).None?
    ensures r.0 == Overflow <==> Match(text).Some? && Value(Match(text).value.accountId) >= UInt32Limit
    ensures r.0 != Applied ==> r.1 == raw
    ensures r.0 == Applied ==>
              && Match(text).Some?
              && ParseUInt32(Match(text).value.accountId).Some?
              && r.1 == SetLegacyFields(raw, LegacyAccountID(ParseUInt32(Match(text).value.accountId).value,
                                                             AuthServerBit(Match(text).value.authServer)), universe)
  {
    match Match(text)
    case None => (NoMatch, raw)
    case Some(g) =>
      match ParseUInt32(g.accountId)
      case None => (Overflow, raw)
      case Some(accId) =>
        (Applied, SetLegacyFields(raw, LegacyAccountID(accId, AuthServerBit(g.authServer)), universe))
  }

  // ----------------------------------------------------------- round trips

  /** The legacy form with an account number that fits in 32 bits is
      applied with its own auth-server bit and number. */
  lemma {:induction false} ParseOfLegacyForm(raw: bv64, universeDigit: char, authServer: char, digits: string, universe: bv64)
    requires '0' <= universeDigit <= '5' && '0' <= authServer <= '1'
    requires |digits| > 0 && AllDigits(digits) && Value(digits) < UInt32Limit
    ensures FromLegacyText(raw, "STEAM_" + [universeDigit] + ":" + [authServer] + ":" + digits, universe)
         == (Applied, SetLegacyFields(raw, LegacyAccountID(ParseUInt32(digits).value, AuthServerBit(authServer)), universe))
  {
    MatchOfLegacyForm("STEAM_", universeDigit, authServer, digits);
  }

  /** The text of the words 0 and 1, and of a parsed number widened to 64
      bits. */
  lemma {:induction false} BitText(b: bv64)
    requires b <= 1
    ensures WordText(b) == if b == 0 then "0" else "1"
  {
    if b == 0 { assert Decimal(0) == "0"; } else { assert Decimal(1) == "1"; }
  }

  lemma {:induction false} WordTextOfParsed(digits: string)
    requires Canonical(digits) && Value(digits) < UInt32Limit
    ensures WordText(ParseUInt32(digits).value as bv64) == digits
  {
    WidenNumber(ParseUInt32(digits).value);
    DecimalOfValue(digits);
  }

  /** What `Render` writes for an individual set from the legacy form in a
      universe up to Public: the universe as 0, then the auth-server bit,
      then the account number. */
  lemma {:induction false} RenderOfLegacyFields(raw: bv64, accId: bv32, bit: bv32, universe: bv64)
    requires accId < 0x8000_0000 && bit <= 1 && universe <= EUniverse.Public
    ensures Render(SetLegacyFields(raw, LegacyAccountID(accId, bit), universe))
         == Some("STEAM_" + "0" + ":" + WordText(bit as bv64) + ":" + WordText(accId as bv64))
  {
    LegacyAccountIDSplit(accId, bit);
    BitText(0);
  }

  /** The legacy account number, widened to 64 bits, splits back into its
      auth-server bit and its number when the number is below 2^31. */
  lemma {:induction false} LegacyAccountIDSplit(accId: bv32, bit: bv32)
    requires accId < 0x8000_0000 && bit <= 1
    ensures (LegacyAccountID(accId, bit) as bv64) & 1 == bit as bv64
    ensures (LegacyAccountID(accId, bit) as bv64) >> AuthServerWidth == accId as bv64
  {
    Widen(LegacyAccountID(accId, bit));
  }

  /** The auth-server text the parse reads is rendered back unchanged. */
  lemma {:induction false} AuthServerText(c: char)
    requires '0' <= c <= '1'
    ensures WordText(AuthServerBit(c) as bv64) == [c]
  {
    BitText(AuthServerBit(c) as bv64);
  }

  /** Rendering the fields the legacy form sets, for a canonical account
      number below 2^31 and a universe up to Public, writes the form again
      with the universe as 0. */
  lemma {:induction false} RenderAfterParse(raw: bv64, authServer: char, digits: string, universe: bv64)
    requires '0' <= authServer <= '1'
    requires Canonical(digits) && Value(digits) < 0x8000_0000
    requires universe <= EUniverse.Public
    ensures ParseUInt32(digits).Some?
    ensures Render(SetLegacyFields(raw, LegacyAccountID(ParseUInt32(digits).value, AuthServerBit(authServer)), universe))
         == Some("STEAM_" + "0" + ":" + [authServer] + ":" + digits)
  {
    ParsedBelowHalf(digits);
    RenderOfLegacyFields(raw, ParseUInt32(digits).value, AuthServerBit(authServer), universe);
    AuthServerText(authServer);
    WordTextOfParsed(digits);
  }

  /** Parsing `STEAM_<u>:<a>:<n>` with a universe up to Public, for any
      canonical account number below 2^31, and rendering the result gives
      back the text with the universe written as 0. */
  lemma {:induction false} ParseThenRender(raw: bv64, universeDigit: char, authServer: char, digits: string, universe: bv64)
    requires '0' <= universeDigit <= '5' && '0' <= authServer <= '1'
    requires Canonical(digits) && Value(digits) < 0x8000_0000
    requires universe <= EUniverse.Public
    ensures var r := FromLegacyText(raw, "STEAM_" + [universeDigit] + ":" + [authServer] + ":" + digits, universe);
            r.0 == Applied && Render(r.1) == Some("STEAM_" + "0" + ":" + [authServer] + ":" + digits)
  {
    ParseOfLegacyForm(raw, universeDigit, authServer, digits, universe);
    RenderAfterParse(raw, authServer, digits, universe);
  }

  /** What `Render` writes for an individual set from the legacy form in a
      universe above Public: the universe as its own number, then the
      auth-server bit, then the account number. */
  lemma {:induction false} RenderOfLegacyFieldsAbove(raw: bv64, accId: bv32, bit: bv32, universe: bv64)
    requires accId < 0x8000_0000 && bit <= 1 && EUniverse.Public < universe <= 0xFF
    ensures Render(SetLegacyFields(raw, LegacyAccountID(accId, bit), universe))
         == Some("STEAM_" + WordText(universe) + ":" + WordText(bit as bv64) + ":" + WordText(accId as bv64))
  {
    LegacyAccountIDSplit(accId, bit);
  }

  /** Rendering the fields the legacy form sets, for a canonical account
      number below 2^31 and a universe above Public, writes the form again
      with the universe's own number. */
  lemma {:induction false} RenderAfterParseAbove(raw: bv64, authServer: char, digits: string, universe: bv64)
    requires '0' <= authServer <= '1'
    requires Canonical(digits) && Value(digits) < 0x8000_0000
    requires EUniverse.Public < universe <= 0xFF
    ensures ParseUInt32(digits).Some?
    ensures Render(SetLegacyFields(raw, LegacyAccountID(ParseUInt32(digits).value, AuthServerBit(authServer)), universe))
         == Some("STEAM_" + WordText(universe) + ":" + [authServer] + ":" + digits)
  {
    ParsedBelowHalf(digits);
    RenderOfLegacyFieldsAbove(raw, ParseUInt32(digits).value, AuthServerBit(authServer), universe);
    AuthServerText(authServer);
    WordTextOfParsed(digits);
  }

  /** Parsing `STEAM_<u>:<a>:<n>` in a universe above Public whose number
      is the digit `u`, for any canonical account number below 2^31, and
      rendering the result gives back the same text. */
  lemma {:induction false} ParseThenRenderInOwnUniverse(raw: bv64, universeDigit: char, authServer: char, digits: string, universe: bv64)
    requires '0' <= universeDigit <= '5' && '0' <= authServer <= '1'
    requires Canonical(digits) && Value(digits) < 0x8000_0000
    requires EUniverse.Public < universe <= EUniverse.Max && WordText(universe) == [universeDigit]
    ensures var text := "STEAM_" + [universeDigit] + ":" + [authServer] + ":" + digits;
            var r := FromLegacyText(raw, text, universe);
            r.0 == Applied && Render(r.1) == Some(text)
  {
    ParseOfLegacyForm(raw, universeDigit, authServer, digits, universe);
    RenderAfterParseAbove(raw, authServer, digits, universe);
  }

  /** The concrete case: `STEAM_2:0:7` parsed in the beta universe renders
      as itself. */
  lemma {:induction false} RenderOfParsedBetaExample(raw: bv64)
    ensures var r := FromLegacyText(raw, "STEAM_2:0:7", EUniverse.Beta);
            r.0 == Applied && Render(r.1) == Some("STEAM_2:0:7")
  {
    assert Decimal(2) == "2";
    assert Decimal(7) == "7";
    ValueOfDecimal(7);
    assert "STEAM_" + ['2'] + ":" + ['0'] + ":" + "7" == "STEAM_2:0:7";
    ParseThenRenderInOwnUniverse(raw, '2', '0', "7", EUniverse.Beta);
  }

  /** The concrete case: `STEAM_0:1:123` parsed in the public universe
      renders as itself. */
  lemma {:induction false} RenderOfParsedExample(raw: bv64)
    ensures var r := FromLegacyText(raw, "STEAM_0:1:123", EUniverse.Public);
            r.0 == Applied && Render(r.1) == Some("STEAM_0:1:123")
  {
    ExampleParts();
    ParseThenRender(raw, '0', '1', "123", EUniverse.Public);
  }

  /** `STEAM_0:1:123` in its three parts. */
  lemma {:induction false} ExampleParts()
    ensures Canonical("123") && Value("123") == 123
    ensures "STEAM_" + ['0'] + ":" + ['1'] + ":" + "123" == "STEAM_0:1:123"
    ensures "STEAM_" + "0" + ":" + ['1'] + ":" + "123" == "STEAM_0:1:123"
  {
    assert Decimal(123) == "123";
    ValueOfDecimal(123);
  }

  // ----------------------------------------------- render, then parse

  /** The universe `Render` writes, for a universe up to Max, is one digit
      the pattern's universe group accepts. */
  lemma {:induction false} UniverseDigit(universe: bv64) returns (d: char)
    requires universe <= EUniverse.Max
    ensures '0' <= d <= '5' && WordText(UniverseWord(universe)) == [d]
  {
    if universe <= EUniverse.Public { d := '0'; assert Decimal(0) == "0"; }
    else if universe == 2 { d := '2'; assert Decimal(2) == "2"; }
    else if universe == 3 { d := '3'; assert Decimal(3) == "3"; }
    else if universe == 4 { d := '4'; assert Decimal(4) == "4"; }
    else { d := '5'; assert Decimal(5) == "5"; }
  }

  /** The auth-server bit `Render` writes, as the one digit it is. */
  lemma {:induction false} RenderedBit(a: bv32) returns (c: char)
    ensures '0' <= c <= '1' && WordText((a as bv64) & 1) == [c]
    ensures AuthServerBit(c) == a & 1
  {
    assert (a as bv64) & 1 == (a & 1) as bv64 by { Widen(a); }
    BitText((a & 1) as bv64);
    c := if a & 1 == 0 then '0' else '1';
  }

  /** The account number `Render` writes above the auth-server bit: canonical
      digits that `uint.Parse` reads back as that number. */
  lemma {:induction false} RenderedNumber(a: bv32) returns (digits: string)
    ensures Canonical(digits) && WordText((a as bv64) >> AuthServerWidth) == digits
    ensures ParseUInt32(digits) == Some(a >> AuthServerWidth)
  {
    var h := a >> AuthServerWidth;
    assert (a as bv64) >> AuthServerWidth == h as bv64 by { Widen(a); }
    digits := Decimal(h as nat);
    assert WordText(h as bv64) == digits by { WidenNumber(h); }
    assert ParseUInt32(digits) == Some(h) by {
      WordBound(h);
      ParseOfDecimal(h as nat);
      SameNumber(ParseUInt32(digits).value, h);
    }
  }

  /** `Render` of an individual from the texts of its three parts. */
  lemma {:induction false} RenderFromParts(raw: bv64, u: string, bit: string, digits: string)
    requires AccountType(raw) == EAccountType.Individual
    requires WordText(UniverseWord(AccountUniverse(raw))) == u
    requires WordText(AccountID(raw) & 1) == bit
    requires WordText(AccountID(raw) >> AuthServerWidth) == digits
    ensures Render(raw) == Some("STEAM_" + u + ":" + bit + ":" + digits)
  {
  }

  /** The legacy combination of an account number's two parts is the
      account number. */
  lemma {:induction false} LegacyOfParts(a: bv32)
    ensures LegacyAccountID(a >> AuthServerWidth, a & 1) == a
  {
  }

  /** An individual with instance 1 is what the legacy writes make of its
      own account number in its own universe. */
  lemma {:induction false} LegacyFieldsOfIndividual(raw: bv64, prior: bv64)
    requires AccountType(raw) == EAccountType.Individual && AccountInstance(raw) == 1
    ensures SetLegacyFields(prior, AccountID(raw) as bv32, AccountUniverse(raw)) == raw
  {
    AccountIDFits(raw);
    FieldsDetermineValue(SetLegacyFields(prior, AccountID(raw) as bv32, AccountUniverse(raw)), raw);
  }

  /** The legacy form built from an account number's two parts is parsed
      back into the value the legacy writes make of that number. */
  lemma {:induction false} ParseOfParts(prior: bv64, raw: bv64, a: bv32, d: char, c: char, digits: string, universe: bv64)
    requires '0' <= d <= '5' && '0' <= c <= '1' && Canonical(digits)
    requires ParseUInt32(digits) == Some(a >> AuthServerWidth) && AuthServerBit(c) == a & 1
    requires SetLegacyFields(prior, a, universe) == raw
    ensures FromLegacyText(prior, "STEAM_" + [d] + ":" + [c] + ":" + digits, universe) == (Applied, raw)
  {
    ParseOfLegacyForm(prior, d, c, digits, universe);
    LegacyOfParts(a);
  }

  /** Rendering an individual with instance 1 in a universe up to Max and
      parsing the text in that universe gives the identifier back. */
  lemma {:induction false} RenderThenParse(raw: bv64, prior: bv64)
    requires AccountType(raw) == EAccountType.Individual && AccountInstance(raw) == 1
    requires AccountUniverse(raw) <= EUniverse.Max
    ensures Render(raw).Some?
    ensures FromLegacyText(prior, Render(raw).value, AccountUniverse(raw)) == (Applied, raw)
  {
    var a := AccountID(raw) as bv32;
    var d := UniverseDigit(AccountUniverse(raw));
    var c := RenderedBit(a);
    var digits := RenderedNumber(a);
    assert Render(raw) == Some("STEAM_" + [d] + ":" + [c] + ":" + digits) by {
      AccountIDFits(raw);
      RenderFromParts(raw, [d], [c], digits);
    }
    LegacyFieldsOfIndividual(raw, prior);
    ParseOfParts(prior, raw, a, d, c, digits, AccountUniverse(raw));
  }

  // ------------------------------------------ 32- and 64-bit words, numbers

  lemma {:induction false} Widen(a: bv32)
    ensures (a as bv64) & 1 == (a & 1) as bv64
    ensures (a as bv64) >> AuthServerWidth == (a >> AuthServerWidth) as bv64
  {
  }

  lemma {:induction false} WidenNumber(a: bv32)
    ensures (a as bv64) as nat == a as nat
  {
  }

  lemma {:induction false} NarrowBound(a: bv32, n: nat)
    requires a as nat == n && n < 0x8000_0000
    ensures a < 0x8000_0000
  {
  }

  /** An account number below 2^31 parses to a word below 2^31. */
  lemma {:induction false} ParsedBelowHalf(digits: string)
    requires |digits| > 0 && AllDigits(digits) && Value(digits) < 0x8000_0000
    ensures ParseUInt32(digits).Some? && ParseUInt32(digits).value < 0x8000_0000
  {
    NarrowBound(ParseUInt32(digits).value, Value(digits));
  }

  /** Two 32-bit words with the same number are equal. */
  lemma {:induction false} SameNumber(a: bv32, b: bv32)
    requires a as nat == b as nat
    ensures a == b
  {
    assert (a as nat) as bv32 == a;
    assert (b as nat) as bv32 == b;
  }

  /** Every 32-bit word's number is below 2^32. */
  lemma {:induction false} WordBound(x: bv32)
    ensures x as nat < UInt32Limit
  {
  }
}
