/** The two client-order-id formats: printing, parsing, and how the two languages relate. */
module OrderIds {
  import opened Wrappers
  import opened Json
  import opened Powers

  const PREFIX := "tg-"
  const MAX_LEN: nat := 36
  const U32_MAX: nat := 0xFFFF_FFFF

  // ------------------------------------------------------------------ numbers

  /** Rust's `u32::from_str`: an optional plus sign, then digits, leading zeros allowed. */
  function ParseU32(s: string): Option<nat> {
    var n := ReadDigits(if s != [] && s[0] == '+' then s[1..] else s);
    if n.Some? && n.value <= U32_MAX then n else None
  }

  lemma ParseUndoesDigits(n: nat)
    requires n <= U32_MAX
    ensures ParseU32(Digits(n)) == Some(n)
  {
    ReadDigitsUndoes(n);
    assert IsDigit(Digits(n)[0]);
  }

  /** A number text prints back as itself exactly when it is plain. */
  lemma ReprintsIffPlain(s: string)
    requires ParseU32(s).Some?
    ensures Digits(ParseU32(s).value) == s <==> Plain(s)
  {
    if Plain(s) {
      PlainReadsBack(s);
    } else {
      DigitsArePlain(ParseU32(s).value);
    }
  }

  // ------------------------------------------------------------------ splitting at dashes

  function FirstDash(s: string): (r: nat)
    ensures r <= |s| && (r < |s| ==> s[r] == '-')
    ensures forall k | 0 <= k < r :: s[k] != '-'
  {
    if s == [] || s[0] == '-' then 0 else 1 + FirstDash(s[1..])
  }

  function Split(s: string): (r: seq<string>)
    ensures r != []
  {
    var p := FirstDash(s);
    if p == |s| then [s] else [s[..p]] + Split(s[p + 1..])
  }

  predicate NoDash(s: string) {
    forall k | 0 <= k < |s| :: s[k] != '-'
  }

  lemma SplitFirst(a: string, rest: string)
    requires NoDash(a)
    ensures Split(a + "-" + rest) == [a] + Split(rest)
  {
    var s := a + "-" + rest;
    var p := FirstDash(s);
    assert s[|a|] == '-' && forall k | 0 <= k < |a| :: s[k] == a[k];
    assert p == |a|;
    assert s[..p] == a && s[p + 1..] == rest;
  }

  function Three(a: string, b: string, c: string): string {
    a + "-" + b + "-" + c
  }

  lemma SplitThree(a: string, b: string, c: string)
    requires NoDash(a) && NoDash(b) && NoDash(c)
    ensures Split(Three(a, b, c)) == [a, b, c]
  {
    ThreeIsNested(a, b, c);
    SplitFirst(a, b + "-" + c);
    SplitFirst(b, c);
    SplitNone(c);
  }

  lemma ThreeIsNested(a: string, b: string, c: string)
    ensures Three(a, b, c) == a + "-" + (b + "-" + c)
  {
  }

  lemma SplitNone(s: string)
    requires NoDash(s)
    ensures Split(s) == [s]
  {
    assert FirstDash(s) == |s|;
  }

  function Join(parts: seq<string>): string
    requires parts != []
  {
    if |parts| == 1 then parts[0] else parts[0] + "-" + Join(parts[1..])
  }

  lemma JoinFirst(first: string, parts: seq<string>)
    requires parts != []
    ensures Join([first] + parts) == first + "-" + Join(parts)
  {
    assert ([first] + parts)[1..] == parts;
  }

  lemma CutAtDash(s: string, p: nat)
    requires p < |s| && s[p] == '-'
    ensures s == s[..p] + "-" + s[p + 1..]
  {
  }

  /** Joining the parts gives the text back. */
  lemma {:induction false} JoinOfSplit(s: string)
    ensures Join(Split(s)) == s
    decreases |s|
  {
    var p := FirstDash(s);
    if p < |s| {
      JoinOfSplit(s[p + 1..]);
      JoinFirst(s[..p], Split(s[p + 1..]));
      CutAtDash(s, p);
    }
  }

  lemma JoinThree(parts: seq<string>)
    requires |parts| == 3
    ensures Join(parts) == Three(parts[0], parts[1], parts[2])
  {
    assert Join(parts[1..]) == parts[1] + "-" + Join(parts[1..][1..]);
    assert Join(parts[1..][1..]) == parts[2];
  }

  // ------------------------------------------------------------------ the intent prefix

  predicate IsHex(c: char) {
    IsDigit(c) || 'a' <= c <= 'f'
  }

  predicate IsIntent12(s: string) {
    |s| == 12 && forall k | 0 <= k < |s| :: IsHex(s[k])
  }

  // ------------------------------------------------------------------ the contract's format

  datatype ContractLeg = Entry | Stop | TakeProfit | Cancel | Close | Transfer

  function ContractCode(leg: ContractLeg): char {
    match leg case Entry => 'e' case Stop => 's' case TakeProfit => 't' case Cancel => 'c' case Close => 'x' case Transfer => 'f'
  }

  function ContractLegOf(c: char): Option<ContractLeg> {
    if c == 'e' then Some(Entry) else if c == 's' then Some(Stop) else if c == 't' then Some(TakeProfit)
    else if c == 'c' then Some(Cancel) else if c == 'x' then Some(Close) else if c == 'f' then Some(Transfer) else None
  }

  datatype ContractId = ContractId(intent12: string, leg: ContractLeg, index: nat, attempt: nat)

  predicate ValidContractId(id: ContractId) {
    IsIntent12(id.intent12) && id.index <= U32_MAX && id.attempt <= U32_MAX
  }

  function LegText(id: ContractId): string {
    [ContractCode(id.leg)] + Digits(id.index)
  }

  function ContractText(id: ContractId): string {
    PREFIX + Three(id.intent12, LegText(id), Digits(id.attempt))
  }

  predicate AllowedChar(c: char) {
    IsDigit(c) || 'A' <= c <= 'Z' || 'a' <= c <= 'z' || c == '.' || c == ':' || c == '/' || c == '_' || c == '-'
  }

  predicate AllowedText(s: string) {
    1 <= |s| <= MAX_LEN && forall k | 0 <= k < |s| :: AllowedChar(s[k])
  }

  /** The id, absent where the scalar refuses the text. */
  function NewContractId(id: ContractId): Option<string> {
    if AllowedText(ContractText(id)) then Some(ContractText(id)) else None
  }

  function ParseContract(s: string): Option<ContractId> {
    if !(PREFIX <= s) then None
    else
      var parts := Split(s[|PREFIX|..]);
      if |parts| != 3 || !IsIntent12(parts[0]) || parts[1] == [] then None
      else
        var leg, index, attempt := ContractLegOf(parts[1][0]), ParseU32(parts[1][1..]), ParseU32(parts[2]);
        if leg.None? || index.None? || attempt.None? then None
        else Some(ContractId(parts[0], leg.value, index.value, attempt.value))
  }

  lemma DigitsHaveNoDash(s: string)
    requires AllDigits(s)
    ensures NoDash(s)
  {
  }

  lemma AfterPrefix(rest: string)
    ensures PREFIX <= PREFIX + rest && (PREFIX + rest)[|PREFIX|..] == rest
  {
  }

  lemma LegTextHasNoDash(id: ContractId)
    ensures NoDash(LegText(id)) && LegText(id) != [] && LegText(id)[0] == ContractCode(id.leg)
    ensures LegText(id)[1..] == Digits(id.index)
  {
    DigitsHaveNoDash(Digits(id.index));
  }

  /** Parsing undoes printing, for every number the format can carry. */
  lemma ParseUndoesContractText(id: ContractId)
    requires ValidContractId(id)
    ensures ParseContract(ContractText(id)) == Some(id)
  {
    DigitsHaveNoDash(Digits(id.attempt));
    LegTextHasNoDash(id);
    SplitThree(id.intent12, LegText(id), Digits(id.attempt));
    AfterPrefix(Three(id.intent12, LegText(id), Digits(id.attempt)));
    ParseUndoesDigits(id.index);
    ParseUndoesDigits(id.attempt);
  }

  /** So different parts give different ids. */
  lemma ContractTextsDiffer(a: ContractId, b: ContractId)
    requires ValidContractId(a) && ValidContractId(b) && ContractText(a) == ContractText(b)
    ensures a == b
  {
    ParseUndoesContractText(a);
    ParseUndoesContractText(b);
  }

  lemma ContractTextIsAllowed(id: ContractId)
    requires ValidContractId(id)
    ensures |ContractText(id)| == 18 + |Digits(id.index)| + |Digits(id.attempt)|
    ensures forall k | 0 <= k < |ContractText(id)| :: AllowedChar(ContractText(id)[k])
  {
    var i, a := Digits(id.index), Digits(id.attempt);
    assert forall k | 0 <= k < |i| :: IsDigit(i[k]);
    assert forall k | 0 <= k < |a| :: IsDigit(a[k]);
    assert forall k | 0 <= k < |id.intent12| :: IsHex(id.intent12[k]);
  }

  /** An id comes out exactly when the two numbers have at most 18 digits together. */
  lemma ContractIdFitsIff(id: ContractId)
    requires ValidContractId(id)
    ensures NewContractId(id).Some? <==> |Digits(id.index)| + |Digits(id.attempt)| <= 18
  {
    ContractTextIsAllowed(id);
  }

  /** Two texts of three parts agree when their parts do, and only then. */
  lemma ThreePartsAgree(parts: seq<string>, a: string, b: string, c: string)
    requires |parts| == 3 && NoDash(a) && NoDash(b) && NoDash(c) && Split(Join(parts)) == parts
    ensures Three(a, b, c) == Join(parts) <==> parts == [a, b, c]
  {
    SplitThree(a, b, c);
    JoinThree(parts);
  }

  lemma TailsAgree(a: char, s: string, t: string)
    ensures [a] + s == [a] + t <==> s == t
  {
    assert ([a] + s)[1..] == s && ([a] + t)[1..] == t;
  }

  /** An accepted text is the print of what it parses to exactly when both numbers are written plainly. */
  lemma ContractReprintsIff(s: string)
    requires ParseContract(s).Some?
    ensures ContractText(ParseContract(s).value) == s
      <==> Plain(Split(s[|PREFIX|..])[1][1..]) && Plain(Split(s[|PREFIX|..])[2])
  {
    var parts, id := Split(s[|PREFIX|..]), ParseContract(s).value;
    JoinOfSplit(s[|PREFIX|..]);
    LegTextHasNoDash(id);
    DigitsHaveNoDash(Digits(id.attempt));
    ThreePartsAgree(parts, id.intent12, LegText(id), Digits(id.attempt));
    PrintsAs(s, id);
    LegCodesInverse(parts[1][0]);
    LegAgrees(parts[1], id);
    ReprintsIffPlain(parts[1][1..]);
    ReprintsIffPlain(parts[2]);
  }

  lemma LegAgrees(part: string, id: ContractId)
    requires part != [] && part[0] == ContractCode(id.leg)
    ensures LegText(id) == part <==> Digits(id.index) == part[1..]
  {
    assert part == [part[0]] + part[1..];
    TailsAgree(part[0], Digits(id.index), part[1..]);
  }

  lemma PrintsAs(s: string, id: ContractId)
    requires PREFIX <= s
    ensures ContractText(id) == s <==> Three(id.intent12, LegText(id), Digits(id.attempt)) == s[|PREFIX|..]
  {
    AfterPrefix(Three(id.intent12, LegText(id), Digits(id.attempt)));
    assert s == PREFIX + s[|PREFIX|..];
  }

  lemma LegCodesInverse(c: char)
    ensures ContractLegOf(c).Some? ==> ContractCode(ContractLegOf(c).value) == c
  {
  }

  // ------------------------------------------------------------------ the execution core's format

  datatype CoreLeg = CoreEntry | CoreStop | CoreTakeProfit | CoreClose | CoreExtra

  function CoreCode(leg: CoreLeg): char {
    match leg case CoreEntry => 'e' case CoreStop => 's' case CoreTakeProfit => 't' case CoreClose => 'c' case CoreExtra => 'x'
  }

  function CoreLegOf(c: char): Option<CoreLeg> {
    if c == 'e' then Some(CoreEntry) else if c == 's' then Some(CoreStop) else if c == 't' then Some(CoreTakeProfit)
    else if c == 'c' then Some(CoreClose) else if c == 'x' then Some(CoreExtra) else None
  }

  datatype CoreId = CoreId(intentPrefix: string, leg: CoreLeg, attempt: nat)

  datatype IdError = NoHexInIntentId | AttemptTooLarge(attempt: nat)

  datatype NewResult = Made(id: CoreId) | Failed(error: IdError)

  function Lower(c: char): char {
    if 'A' <= c <= 'F' then (c as int + 32) as char else c
  }

  predicate IsHexDigit(c: char) {
    IsHex(c) || 'A' <= c <= 'F'
  }

  /** The hex digits of the text, in lower case. */
  function HexOf(s: string): (r: string)
    ensures forall k | 0 <= k < |r| :: IsHex(r[k])
  {
    if s == [] then []
    else
      var before := HexOf(s[..|s| - 1]);
      if IsHexDigit(s[|s| - 1]) then before + [Lower(s[|s| - 1])] else before
  }

  function Take(s: string, n: nat): string {
    if |s| <= n then s else s[..n]
  }

  function ZeroPadded(s: string): (r: string)
    ensures |s| <= 12 ==> |r| == 12
    ensures s <= r && forall k | |s| <= k < |r| :: r[k] == '0'
    decreases 12 - |s|
  {
    if |s| < 12 then ZeroPadded(s + "0") else s
  }

  method NewCoreId(intentId: string, leg: CoreLeg, attempt: nat) returns (r: NewResult)
    ensures HexOf(intentId) == [] <==> r == Failed(NoHexInIntentId)
    ensures HexOf(intentId) != [] && attempt > 999_999 <==> r == Failed(AttemptTooLarge(attempt))
    ensures HexOf(intentId) != [] && attempt <= 999_999 ==>
      r == Made(CoreId(ZeroPadded(Take(HexOf(intentId), 12)), leg, attempt)) && IsIntent12(r.id.intentPrefix)
  {
    var hex := Take(HexOf(intentId), 12);
    if hex == [] {
      return Failed(NoHexInIntentId);
    }
    if attempt > 999_999 {
      return Failed(AttemptTooLarge(attempt));
    }
    var prefix := hex;
    while |prefix| < 12
      invariant |prefix| <= 12 && ZeroPadded(prefix) == ZeroPadded(hex)
      invariant forall k | 0 <= k < |prefix| :: IsHex(prefix[k])
    {
      prefix := prefix + "0";
    }
    return Made(CoreId(prefix, leg, attempt));
  }

  function CoreText(id: CoreId): string {
    PREFIX + Three(id.intentPrefix, [CoreCode(id.leg)], Digits(id.attempt))
  }

  function ParseCore(s: string): Option<CoreId> {
    if !(PREFIX <= s) then None
    else
      var parts := Split(s[|PREFIX|..]);
      if |parts| != 3 || !IsIntent12(parts[0]) || |parts[1]| != 1 then None
      else
        var leg, attempt := CoreLegOf(parts[1][0]), ParseU32(parts[2]);
        if leg.None? || attempt.None? then None else Some(CoreId(parts[0], leg.value, attempt.value))
  }

  predicate ValidCoreId(id: CoreId) {
    IsIntent12(id.intentPrefix) && id.attempt <= U32_MAX
  }

  lemma ParseUndoesCoreText(id: CoreId)
    requires ValidCoreId(id)
    ensures ParseCore(CoreText(id)) == Some(id)
  {
    DigitsHaveNoDash(Digits(id.attempt));
    SplitThree(id.intentPrefix, [CoreCode(id.leg)], Digits(id.attempt));
    AfterPrefix(Three(id.intentPrefix, [CoreCode(id.leg)], Digits(id.attempt)));
    ParseUndoesDigits(id.attempt);
  }

  lemma CoreTextsDiffer(a: CoreId, b: CoreId)
    requires ValidCoreId(a) && ValidCoreId(b) && CoreText(a) == CoreText(b)
    ensures a == b
  {
    ParseUndoesCoreText(a);
    ParseUndoesCoreText(b);
  }

  lemma {:induction false} DigitsLength(n: nat, digits: nat, bound: nat)
    requires digits > 0 && n < bound && (digits == 1 ==> bound <= 10) && bound <= Pow10(digits)
    ensures |Digits(n)| <= digits
    decreases digits
  {
    if n >= 10 {
      DigitsLength(n / 10, digits - 1, Pow10(digits - 1));
    }
  }

  /** Every id that the constructor makes is one the exchange takes. */
  lemma CoreIdsFit(id: CoreId)
    requires IsIntent12(id.intentPrefix) && id.attempt <= 999_999
    ensures AllowedText(CoreText(id)) && |CoreText(id)| <= 24
  {
    assert Pow10(3) == 1000 && Pow10(6) == 1_000_000;
    DigitsLength(id.attempt, 6, 1_000_000);
    var a := Digits(id.attempt);
    assert forall k | 0 <= k < |a| :: IsDigit(a[k]);
    assert forall k | 0 <= k < |id.intentPrefix| :: IsHex(id.intentPrefix[k]);
  }

  // ------------------------------------------------------------------ the two languages

  /** No text belongs to both: one writes a number after the leg, the other nothing. */
  lemma LanguagesAreDisjoint(s: string)
    ensures !(ParseContract(s).Some? && ParseCore(s).Some?)
  {
  }

  /** A UUID's hex digits and dashes: what `short12` and the filter see is the same. */
  predicate UuidChars(s: string) {
    forall k | 0 <= k < |s| :: IsHex(s[k]) || s[k] == '-'
  }

  function WithoutDashes(s: string): string {
    if s == [] then []
    else
      var before := WithoutDashes(s[..|s| - 1]);
      if s[|s| - 1] == '-' then before else before + [s[|s| - 1]]
  }

  lemma {:induction false} HexOfUuid(s: string)
    requires UuidChars(s)
    ensures HexOf(s) == WithoutDashes(s)
  {
    if s != [] {
      HexOfUuid(s[..|s| - 1]);
      assert IsHex(s[|s| - 1]) || s[|s| - 1] == '-';
    }
  }

  /** Both sides derive the same twelve characters from an intent's UUID. */
  lemma IntentPrefixesAgree(uuid: string)
    requires UuidChars(uuid) && |WithoutDashes(uuid)| >= 12
    ensures ZeroPadded(Take(HexOf(uuid), 12)) == Take(WithoutDashes(uuid), 12)
    ensures IsIntent12(Take(WithoutDashes(uuid), 12))
  {
    HexOfUuid(uuid);
  }
}
