/**
 * The legacy text form of an individual SteamID, `STEAM_<u>:<a>:<n>`:
 * decimal rendering and parsing of numbers, and the pattern match that
 * SteamID.SetFromString performs with its regular expression
 * `STEAM_(?<universe>[0-5]):(?<authserver>[0-1]):(?<accountid>\d+)`
 * (case-insensitive, found anywhere in the text).
 */
module LegacyText {
  import opened Wrappers

  predicate IsDigit(c: char) {
    '0' <= c <= '9'
  }

  predicate AllDigits(s: string) {
    forall i :: 0 <= i < |s| ==> IsDigit(s[i])
  }

  /** Decimal text without a leading zero, as a number is formatted. */
  predicate Canonical(s: string) {
    |s| > 0 && AllDigits(s) && (s[0] == '0' ==> |s| == 1)
  }

  function DigitChar(d: nat): (c: char)
    requires d < 10
    ensures IsDigit(c)
  {
    ('0' as int + d) as char
  }

  function DigitValue(c: char): (d: nat)
    requires IsDigit(c)
    ensures d < 10
  {
    c as int - '0' as int
  }

  /** The decimal text of a number, as String.Format writes an integer:
      canonical, and starting with '0' only for zero itself. */
  function Decimal(n: nat): (s: string)
    ensures Canonical(s)
    ensures s[0] == '0' <==> n == 0
  {
    if n < 10 then [DigitChar(n)] else Decimal(n / 10) + [DigitChar(n % 10)]
  }

  /** The number a run of decimal digits denotes. */
  function Value(s: string): nat
    requires AllDigits(s)
  {
    if s == [] then 0 else 10 * Value(s[..|s| - 1]) + DigitValue(s[|s| - 1])
  }

  /** Reading back the decimal text of a number gives the number. */
  lemma {:induction false} ValueOfDecimal(n: nat)
    ensures Value(Decimal(n)) == n
  {
    var s := Decimal(n);
    if n >= 10 {
      assert s[..|s| - 1] == Decimal(n / 10);
      ValueOfDecimal(n / 10);
    }
  }

  /** A digit run that does not start with '0' denotes a positive number. */
  lemma {:induction false} ValueOfNonZeroLead(s: string)
    requires |s| > 0 && AllDigits(s) && s[0] != '0'
    ensures Value(s) >= 1
  {
    if |s| > 1 {
      ValueOfNonZeroLead(s[..|s| - 1]);
    }
  }

  /** Formatting the number a canonical digit run denotes gives back the run. */
  lemma {:induction false} DecimalOfValue(s: string)
    requires Canonical(s)
    ensures Decimal(Value(s)) == s
  {
    if |s| > 1 {
      var p := s[..|s| - 1];
      ValueOfNonZeroLead(p);
      DecimalOfValue(p);
      assert s == p + [s[|s| - 1]];
    }
  }

  const UInt32Limit: nat := 0x1_0000_0000

  /** The 32-bit word holding a number below 2^32, assembled from its bytes
      (which keeps the solver's integer/bit-vector reasoning small). */
  function ToUInt32(n: nat): (x: bv32)
    requires n < UInt32Limit
    ensures x as nat == n
  {
    var hi, lo := ToUInt16(n / 0x1_0000), ToUInt16(n % 0x1_0000);
    JoinHalves(hi, lo);
    ((hi as bv32) << 16) | (lo as bv32)
  }

  function ToUInt16(n: nat): (x: bv16)
    requires n < 0x1_0000
    ensures x as nat == n
  {
    var hi, lo := ToByte(n / 0x100), ToByte(n % 0x100);
    JoinBytes(hi, lo);
    ((hi as bv16) << 8) | (lo as bv16)
  }

  function ToByte(n: nat): (x: bv8)
    requires n < 0x100
    ensures x as nat == n
  {
    var hi, lo := ToNibble(n / 0x10), ToNibble(n % 0x10);
    ((hi as bv8) << 4) | (lo as bv8)
  }

  function ToNibble(n: nat): (x: bv4)
    requires n < 0x10
    ensures x as nat == n
  {
    n as bv4
  }

  lemma {:induction false} JoinHalves(hi: bv16, lo: bv16)
    ensures (((hi as bv32) << 16) | (lo as bv32)) as nat == hi as nat * 0x1_0000 + lo as nat
  {
  }

  lemma {:induction false} JoinBytes(hi: bv8, lo: bv8)
    ensures (((hi as bv16) << 8) | (lo as bv16)) as nat == hi as nat * 0x100 + lo as nat
  {
  }

  /** `uint.Parse` on a run of digits: the value when it fits in 32 bits;
      no value when it does not (the parse throws OverflowException). */
  function ParseUInt32(digits: string): (r: Option<bv32>)
    requires |digits| > 0 && AllDigits(digits)
    ensures r.Some? <==> Value(digits) < UInt32Limit
    ensures r.Some? ==> r.value as nat == Value(digits)
  {
    if Value(digits) < UInt32Limit then Some(ToUInt32(Value(digits))) else None
  }

  /** Parsing the decimal text of a number below 2^32 gives the number. */
  lemma {:induction false} ParseOfDecimal(n: nat)
    requires n < UInt32Limit
    ensures ParseUInt32(Decimal(n)).Some? && ParseUInt32(Decimal(n)).value as nat == n
  {
    ValueOfDecimal(n);
  }

  /** The three named groups of a successful match. */
  datatype Groups = Groups(universe: char, authServer: char, accountId: string)

  predicate WellFormed(g: Groups) {
    '0' <= g.universe <= '5' && '0' <= g.authServer <= '1' &&
    |g.accountId| > 0 && AllDigits(g.accountId)
  }

  /** ASCII case folding, the only case-insensitivity this model covers. */
  function LowerAscii(c: char): (r: char)
    ensures !('A' <= r <= 'Z')
    ensures 'A' <= c <= 'Z' ==> 'a' <= r <= 'z' && r as int - 'a' as int == c as int - 'A' as int
    ensures !('A' <= c <= 'Z') ==> r == c
  {
    if 'A' <= c <= 'Z' then (c as int + 32) as char else c
  }

  /** `\d+`, greedy: the longest run of digits starting at `j`. */
  function DigitRun(text: string, j: nat): (run: string)
    requires j <= |text|
    ensures j + |run| <= |text| && AllDigits(run)
    decreases |text| - j
  {
    if j < |text| && IsDigit(text[j]) then [text[j]] + DigitRun(text, j + 1) else []
  }

  /** The run is the text from `j` on, up to the first character that is
      not a digit. */
  lemma {:induction false} DigitRunIsLongest(text: string, j: nat)
    requires j <= |text|
    ensures var run := DigitRun(text, j);
            run == text[j..j + |run|] && (j + |run| == |text| || !IsDigit(text[j + |run|]))
    decreases |text| - j
  {
    if j < |text| && IsDigit(text[j]) {
      DigitRunIsLongest(text, j + 1);
    }
  }

  /** The pattern matched at position `i` exactly. */
  function MatchAt(text: string, i: nat): (r: Option<Groups>)
    requires i <= |text|
    ensures r.Some? ==> i + 11 <= |text| && WellFormed(r.value)
  {
    if i + 11 <= |text|
       && LowerAscii(text[i]) == 's' && LowerAscii(text[i + 1]) == 't'
       && LowerAscii(text[i + 2]) == 'e' && LowerAscii(text[i + 3]) == 'a'
       && LowerAscii(text[i + 4]) == 'm' && text[i + 5] == '_'
       && '0' <= text[i + 6] <= '5' && text[i + 7] == ':'
       && '0' <= text[i + 8] <= '1' && text[i + 9] == ':'
       && IsDigit(text[i + 10])
    then Some(Groups(text[i + 6], text[i + 8], DigitRun(text, i + 10)))
    else None
  }

  /** The leftmost match at or after position `i`. */
  function Search(text: string, i: nat): (r: Option<Groups>)
    requires i <= |text|
    ensures r.Some? ==> WellFormed(r.value)
    decreases |text| - i
  {
    if i == |text| then None
    else if MatchAt(text, i).Some? then MatchAt(text, i)
    else Search(text, i + 1)
  }

  /** `Regex.Match`: the match at the leftmost position where the pattern
      matches. */
  function Match(text: string): (r: Option<Groups>)
    ensures r.Some? ==> WellFormed(r.value)
  {
    Search(text, 0)
  }

  /** The search finds nothing exactly when the pattern matches at no
      position from `i` on, and what it finds is the match at the first
      position where the pattern matches. */
  lemma {:induction false} SearchFindsFirst(text: string, i: nat)
    requires i <= |text|
    ensures Search(text, i).None? <==> forall k :: i <= k < |text| ==> MatchAt(text, k).None?
    ensures Search(text, i).Some? ==>
              exists k :: i <= k < |text| && MatchAt(text, k) == Search(text, i) &&
                          forall j :: i <= j < k ==> MatchAt(text, j).None?
    decreases |text| - i
  {
    if i < |text| && MatchAt(text, i).None? {
      SearchFindsFirst(text, i + 1);
    }
  }

  /** No match exactly when the pattern matches nowhere; otherwise the
      match is the one at the leftmost position where the pattern matches. */
  lemma {:induction false} MatchFindsFirst(text: string)
    ensures Match(text).None? <==> forall k :: 0 <= k < |text| ==> MatchAt(text, k).None?
    ensures Match(text).Some? ==>
              exists k :: 0 <= k < |text| && MatchAt(text, k) == Match(text) &&
                          forall j :: 0 <= j < k ==> MatchAt(text, j).None?
  {
    SearchFindsFirst(text, 0);
  }

  /** A digit run that reaches the end of the text is all of the rest. */
  lemma {:induction false} DigitRunToEnd(text: string, j: nat)
    requires j <= |text| && AllDigits(text[j..])
    ensures DigitRun(text, j) == text[j..]
    decreases |text| - j
  {
    if j < |text| {
      assert IsDigit(text[j..][0]);
      assert text[j + 1..] == text[j..][1..];
      DigitRunToEnd(text, j + 1);
    }
  }

  /** The legacy form, with its tag `STEAM_` in any letter case, matches
      with its three parts as the groups. */
  lemma {:induction false} MatchOfLegacyForm(tag: string, universe: char, authServer: char, accountId: string)
    requires |tag| == 6 && LowerAscii(tag[0]) == 's' && LowerAscii(tag[1]) == 't'
    requires LowerAscii(tag[2]) == 'e' && LowerAscii(tag[3]) == 'a'
    requires LowerAscii(tag[4]) == 'm' && tag[5] == '_'
    requires '0' <= universe <= '5' && '0' <= authServer <= '1'
    requires |accountId| > 0 && AllDigits(accountId)
    ensures Match(tag + [universe] + ":" + [authServer] + ":" + accountId)
         == Some(Groups(universe, authServer, accountId))
  {
    var text := tag + [universe] + ":" + [authServer] + ":" + accountId;
    assert text[10..] == accountId;
    DigitRunToEnd(text, 10);
  }
}
