/** JSON values, their compact text, and the reader that undoes it (sections 4 to 7 of RFC 8259). */
module Json {
  import opened Wrappers

  /** A number is an integer, or a float kept as its printed text. */
  datatype Json =
    | Null
    | Bool(b: bool)
    | Int(n: int)
    | Float(text: string)
    | Str(s: string)
    | Arr(items: seq<Json>)
    | Obj(members: seq<Member>)

  datatype Member = Member(key: string, value: Json)

  // ------------------------------------------------------------------ numbers

  predicate IsDigit(c: char) { '0' <= c <= '9' }

  predicate IsFloatMark(c: char) { c == '.' || c == 'e' || c == 'E' }

  predicate IsNumberChar(c: char) { IsDigit(c) || IsFloatMark(c) || c == '+' || c == '-' }

  predicate AllDigits(s: string) {
    forall k | 0 <= k < |s| :: IsDigit(s[k])
  }

  /** Digits without a needless zero: the integer part of a number. */
  predicate Plain(s: string) {
    s != [] && AllDigits(s) && (s[0] == '0' ==> |s| == 1)
  }

  /** The longest prefix of digits. */
  function DigitRun(s: string): (r: string)
    ensures |r| <= |s| && r == s[..|r|] && AllDigits(r)
  {
    if s == [] || !IsDigit(s[0]) then [] else [s[0]] + DigitRun(s[1..])
  }

  predicate IsExponent(s: string) {
    && |s| > 1 && (s[0] == 'e' || s[0] == 'E')
    && var digits := if s[1] == '+' || s[1] == '-' then s[2..] else s[1..];
       digits != [] && AllDigits(digits)
  }

  /** What follows the integer part of a float: a fraction, an exponent, or both. */
  predicate IsFloatTail(s: string) {
    if s != [] && s[0] == '.' then
      var fraction := DigitRun(s[1..]);
      var rest := s[1 + |fraction|..];
      fraction != [] && (rest == [] || IsExponent(rest))
    else IsExponent(s)
  }

  /** A number of section 6 of RFC 8259 that has a fraction or an exponent. */
  predicate IsFloatText(text: string) {
    var unsigned := if text != [] && text[0] == '-' then text[1..] else text;
    var whole := DigitRun(unsigned);
    Plain(whole) && IsFloatTail(unsigned[|whole|..])
  }

  lemma ExponentChars(s: string)
    requires IsExponent(s)
    ensures forall k | 0 <= k < |s| :: IsNumberChar(s[k])
  {
    var sign := if s[1] == '+' || s[1] == '-' then 1 else 0;
    var digits := s[1 + sign..];
    assert AllDigits(digits);
    forall k | 0 <= k < |s| ensures IsNumberChar(s[k]) {
      if k > sign {
        assert s[k] == digits[k - 1 - sign];
      }
    }
  }

  lemma FloatTailChars(s: string)
    requires IsFloatTail(s)
    ensures s != [] && IsFloatMark(s[0]) && forall k | 0 <= k < |s| :: IsNumberChar(s[k])
  {
    if s[0] == '.' {
      var fraction := DigitRun(s[1..]);
      var rest := s[1 + |fraction|..];
      if rest != [] {
        ExponentChars(rest);
      }
      forall k | 0 <= k < |s| ensures IsNumberChar(s[k]) {
        if 0 < k <= |fraction| {
          assert s[k] == fraction[k - 1];
        } else if k > |fraction| {
          assert s[k] == rest[k - 1 - |fraction|];
        }
      }
    } else {
      ExponentChars(s);
    }
  }

  /** Such a text holds number characters only, starts with a digit or minus, and has a point or exponent. */
  lemma FloatTextChars(text: string)
    requires IsFloatText(text)
    ensures text != [] && (IsDigit(text[0]) || text[0] == '-')
    ensures forall k | 0 <= k < |text| :: IsNumberChar(text[k])
    ensures exists k | 0 <= k < |text| :: IsFloatMark(text[k])
  {
    var sign := if text[0] == '-' then 1 else 0;
    var unsigned := text[sign..];
    var whole := DigitRun(unsigned);
    var tail := unsigned[|whole|..];
    FloatTailChars(tail);
    assert IsFloatMark(text[sign + |whole|]);
    forall k | 0 <= k < |text| ensures IsNumberChar(text[k]) {
      if sign <= k < sign + |whole| {
        assert text[k] == whole[k - sign];
      } else if k >= sign + |whole| {
        assert text[k] == tail[k - sign - |whole|];
      }
    }
    assert whole[0] == text[sign];
  }

  function Digits(n: nat): (r: string)
    ensures r != [] && forall k | 0 <= k < |r| :: IsDigit(r[k])
  {
    if n < 10 then [('0' as int + n) as char] else Digits(n / 10) + [('0' as int + n % 10) as char]
  }

  function IntText(n: int): string {
    if n < 0 then "-" + Digits(-n) else Digits(n)
  }

  function ReadDigits(s: string): Option<nat> {
    if s == [] || !IsDigit(s[|s| - 1]) then None
    else
      var d := s[|s| - 1] as int - '0' as int;
      if |s| == 1 then Some(d)
      else match ReadDigits(s[..|s| - 1]) case None => None case Some(n) => Some(10 * n + d)
  }

  lemma {:induction false} DigitsArePlain(n: nat)
    ensures Plain(Digits(n)) && (n > 0 ==> Digits(n)[0] != '0')
  {
    if n >= 10 {
      DigitsArePlain(n / 10);
    }
  }

  lemma {:induction false} PlainReadsBack(s: string)
    requires Plain(s)
    ensures ReadDigits(s).Some? && Digits(ReadDigits(s).value) == s
    ensures s != "0" ==> ReadDigits(s).value > 0
  {
    if |s| > 1 {
      var init := s[..|s| - 1];
      PlainReadsBack(init);
      assert init != "0" by { assert init[0] == s[0]; }
      assert s == init + [s[|s| - 1]];
    }
  }

  /** The longest prefix of number characters. */
  function NumberRun(s: string): (r: string)
    ensures |r| <= |s| && r == s[..|r|]
  {
    if s == [] || !IsNumberChar(s[0]) then [] else [s[0]] + NumberRun(s[1..])
  }

  predicate IsNumber(v: Json) {
    v.Int? || v.Float?
  }

  function ReadNumber(run: string): (r: Option<Json>)
    ensures r.Some? ==> IsNumber(r.value)
  {
    if exists k | 0 <= k < |run| :: IsFloatMark(run[k]) then (if IsFloatText(run) then Some(Float(run)) else None)
    else if run != [] && run[0] == '-' then
      if !Plain(run[1..]) then None
      else match ReadDigits(run[1..]) case None => None case Some(n) => Some(Int(0 - n))
    else if !Plain(run) then None
    else match ReadDigits(run) case None => None case Some(n) => Some(Int(n))
  }

  // ------------------------------------------------------------------ strings

  function Hex(d: nat): char
    requires d < 16
  {
    if d < 10 then ('0' as int + d) as char else ('a' as int + (d - 10)) as char
  }

  function UnHex(c: char): Option<nat> {
    if IsDigit(c) then Some(c as int - '0' as int)
    else if 'a' <= c <= 'f' then Some(c as int - 'a' as int + 10)
    else if 'A' <= c <= 'F' then Some(c as int - 'A' as int + 10)
    else None
  }

  function EscapeChar(c: char): string {
    if c == '\"' then "\\\""
    else if c == '\\' then "\\\\"
    else if c == '\n' then "\\n"
    else if c == '\r' then "\\r"
    else if c == '\t' then "\\t"
    else if c as int == 8 then "\\b"
    else if c as int == 12 then "\\f"
    else if c < ' ' then "\\u00" + [Hex(c as int / 16), Hex(c as int % 16)]
    else [c]
  }

  function Escape(s: string): string {
    if s == [] then [] else EscapeChar(s[0]) + Escape(s[1..])
  }

  function Quote(s: string): string {
    "\"" + Escape(s) + "\""
  }

  /** One character of a string body, and what follows it. */
  function ReadChar(s: string): (r: Option<(char, string)>)
    ensures r.Some? ==> |r.value.1| < |s|
  {
    if s == [] || s[0] < ' ' || s[0] == '\"' then None
    else if s[0] != '\\' then Some((s[0], s[1..]))
    else if |s| < 2 then None
    else if s[1] == '\"' || s[1] == '\\' || s[1] == '/' then Some((s[1], s[2..]))
    else if s[1] == 'n' then Some(('\n', s[2..]))
    else if s[1] == 'r' then Some(('\r', s[2..]))
    else if s[1] == 't' then Some(('\t', s[2..]))
    else if s[1] == 'b' then Some((8 as char, s[2..]))
    else if s[1] == 'f' then Some((12 as char, s[2..]))
    else if s[1] == 'u' && |s| >= 6 && (forall k | 2 <= k < 6 :: UnHex(s[k]).Some?) then
      var code := ((UnHex(s[2]).value * 16 + UnHex(s[3]).value) * 16 + UnHex(s[4]).value) * 16 + UnHex(s[5]).value;
      if 0xD800 <= code < 0xE000 || code > 0xFFFF then None else Some((code as char, s[6..]))
    else None
  }

  /** A string body up to and including its closing quote. */
  function ReadString(s: string): (r: Option<(string, string)>)
    ensures r.Some? ==> |r.value.1| < |s|
    decreases |s|
  {
    if s == [] then None
    else if s[0] == '\"' then Some(("", s[1..]))
    else
      match ReadChar(s)
      case None => None
      case Some((c, rest)) =>
        match ReadString(rest) case None => None case Some((t, tail)) => Some(([c] + t, tail))
  }

  // ------------------------------------------------------------------ values

  function Print(v: Json): string
    decreases v, 1
  {
    match v
    case Null => "null"
    case Bool(b) => if b then "true" else "false"
    case Int(n) => IntText(n)
    case Float(text) => text
    case Str(s) => Quote(s)
    case Arr(items) => "[" + PrintItems(items) + "]"
    case Obj(members) => "{" + PrintMembers(members) + "}"
  }

  function PrintItems(items: seq<Json>): string
    decreases items, 0
  {
    if items == [] then ""
    else Print(items[0]) + (if |items| == 1 then "" else "," + PrintItems(items[1..]))
  }

  function PrintMembers(ms: seq<Member>): string
    decreases ms, 0
  {
    if ms == [] then ""
    else Quote(ms[0].key) + ":" + Print(ms[0].value) + (if |ms| == 1 then "" else "," + PrintMembers(ms[1..]))
  }

  predicate StartsWith(s: string, c: char) { s != [] && s[0] == c }

  /** The number that the longest run of number characters makes. */
  function ReadNumberAt(s: string): (r: Option<(Json, string)>)
    ensures r.Some? ==> IsNumber(r.value.0) && |r.value.1| < |s|
  {
    var run := NumberRun(s);
    if run == [] then None
    else match ReadNumber(run) case None => None case Some(v) => Some((v, s[|run|..]))
  }

  /** One of the three literal names. */
  function ReadWord(s: string, word: string, v: Json): (r: Option<(Json, string)>)
    ensures r.Some? ==> r.value.0 == v && |r.value.1| + |word| == |s|
  {
    if |s| >= |word| && s[..|word|] == word then Some((v, s[|word|..])) else None
  }

  /** A literal name, a string or a number. */
  function ReadScalar(s: string): (r: Option<(Json, string)>)
    ensures r.Some? ==> |r.value.1| < |s| && !r.value.0.Arr? && !r.value.0.Obj?
  {
    if s == [] then None
    else if s[0] == 'n' then ReadWord(s, "null", Null)
    else if s[0] == 't' then ReadWord(s, "true", Bool(true))
    else if s[0] == 'f' then ReadWord(s, "false", Bool(false))
    else if s[0] == '\"' then
      match ReadString(s[1..]) case None => None case Some((t, rest)) => Some((Str(t), rest))
    else ReadNumberAt(s)
  }

  function ReadValue(s: string): (r: Option<(Json, string)>)
    ensures r.Some? ==> |r.value.1| < |s|
    decreases |s|, 0
  {
    if s == [] then None
    else if s[0] == '[' then ReadArray(s[1..])
    else if s[0] == '{' then ReadObject(s[1..])
    else ReadScalar(s)
  }

  /** What follows an opening bracket. */
  function ReadArray(s: string): (r: Option<(Json, string)>)
    ensures r.Some? ==> |r.value.1| < |s| && r.value.0.Arr?
    decreases |s|, 3
  {
    if StartsWith(s, ']') then Some((Arr([]), s[1..]))
    else match ReadItems(s) case None => None case Some((items, rest)) => Some((Arr(items), rest))
  }

  /** What follows an opening brace. */
  function ReadObject(s: string): (r: Option<(Json, string)>)
    ensures r.Some? ==> |r.value.1| < |s| && r.value.0.Obj?
    decreases |s|, 3
  {
    if StartsWith(s, '}') then Some((Obj([]), s[1..]))
    else match ReadMembers(s) case None => None case Some((ms, rest)) => Some((Obj(ms), rest))
  }

  /** Items up to and including the closing bracket. */
  function ReadItems(s: string): (r: Option<(seq<Json>, string)>)
    ensures r.Some? ==> |r.value.1| < |s|
    decreases |s|, 1
  {
    match ReadValue(s)
    case None => None
    case Some((v, rest)) =>
      match ReadMoreItems(rest) case None => None case Some((vs, tail)) => Some(([v] + vs, tail))
  }

  /** What follows an item: the closing bracket, or a comma and the other items. */
  function ReadMoreItems(s: string): (r: Option<(seq<Json>, string)>)
    ensures r.Some? ==> |r.value.1| < |s|
    decreases |s|, 2
  {
    if StartsWith(s, ']') then Some(([], s[1..]))
    else if StartsWith(s, ',') then ReadItems(s[1..])
    else None
  }

  /** A member's key and colon. */
  function ReadKey(s: string): (r: Option<(string, string)>)
    ensures r.Some? ==> |r.value.1| < |s|
  {
    if !StartsWith(s, '\"') then None
    else match ReadString(s[1..])
      case None => None
      case Some((key, rest)) => if StartsWith(rest, ':') then Some((key, rest[1..])) else None
  }

  /** Members up to and including the closing brace. */
  function ReadMembers(s: string): (r: Option<(seq<Member>, string)>)
    ensures r.Some? ==> |r.value.1| < |s|
    decreases |s|, 1
  {
    match ReadKey(s)
    case None => None
    case Some((key, afterKey)) =>
      match ReadValue(afterKey)
      case None => None
      case Some((v, rest)) =>
        match ReadMoreMembers(rest) case None => None case Some((ms, tail)) => Some(([Member(key, v)] + ms, tail))
  }

  /** What follows a member: the closing brace, or a comma and the other members. */
  function ReadMoreMembers(s: string): (r: Option<(seq<Member>, string)>)
    ensures r.Some? ==> |r.value.1| < |s|
    decreases |s|, 2
  {
    if StartsWith(s, '}') then Some(([], s[1..]))
    else if StartsWith(s, ',') then ReadMembers(s[1..])
    else None
  }

  /** Every float in the value carries a float's text. */
  ghost predicate Printable(v: Json) {
    match v
    case Float(text) => IsFloatText(text)
    case Arr(items) => forall i | 0 <= i < |items| :: Printable(items[i])
    case Obj(ms) => forall i | 0 <= i < |ms| :: Printable(ms[i].value)
    case _ => true
  }

  /** The text that may follow a value without being read as part of it. */
  predicate Stops(rest: string) {
    rest == [] || !IsNumberChar(rest[0])
  }

  // ------------------------------------------------------------------ reading undoes printing

  lemma {:induction false} ReadDigitsUndoes(n: nat)
    ensures ReadDigits(Digits(n)) == Some(n)
  {
    if n >= 10 {
      ReadDigitsUndoes(n / 10);
      assert Digits(n)[..|Digits(n)| - 1] == Digits(n / 10);
    }
  }

  lemma {:induction false} NumberRunStops(run: string, rest: string)
    requires (forall k | 0 <= k < |run| :: IsNumberChar(run[k])) && Stops(rest)
    ensures NumberRun(run + rest) == run
  {
    if run != [] {
      assert (run + rest)[1..] == run[1..] + rest;
      NumberRunStops(run[1..], rest);
    } else {
      assert run + rest == rest;
    }
  }

  lemma SignedDigits(digits: string, n: nat)
    requires Plain(digits) && ReadDigits(digits) == Some(n)
    ensures ReadNumber("-" + digits) == Some(Int(0 - n))
    ensures forall k | 0 <= k < |"-" + digits| :: IsNumberChar(("-" + digits)[k])
  {
    var text := "-" + digits;
    assert text[0] == '-' && text[1..] == digits;
    forall k | 0 <= k < |text| ensures IsNumberChar(text[k]) && !IsFloatMark(text[k]) {
      assert k == 0 || text[k] == digits[k - 1];
    }
  }

  lemma PlainDigits(digits: string, n: nat)
    requires Plain(digits) && ReadDigits(digits) == Some(n)
    ensures ReadNumber(digits) == Some(Int(n))
    ensures forall k | 0 <= k < |digits| :: IsNumberChar(digits[k])
  {
    assert digits != [] && IsDigit(digits[0]);
  }

  lemma ReadNumberUndoes(n: int)
    ensures ReadNumber(IntText(n)) == Some(Int(n))
    ensures forall k | 0 <= k < |IntText(n)| :: IsNumberChar(IntText(n)[k])
  {
    if n < 0 {
      DigitsArePlain(-n);
      ReadDigitsUndoes(-n);
      SignedDigits(Digits(-n), -n);
    } else {
      DigitsArePlain(n);
      ReadDigitsUndoes(n);
      PlainDigits(Digits(n), n);
    }
  }

  lemma ReadCharUndoes(c: char, rest: string)
    ensures EscapeChar(c) != [] && EscapeChar(c)[0] != '\"' && ReadChar(EscapeChar(c) + rest) == Some((c, rest))
  {
    var s := EscapeChar(c) + rest;
    assert s[|EscapeChar(c)|..] == rest;
    if c < ' ' && |EscapeChar(c)| == 6 {
      assert UnHex(s[2]) == Some(0) && UnHex(s[3]) == Some(0);
      assert UnHex(s[4]) == Some(c as int / 16) && UnHex(s[5]) == Some(c as int % 16);
    }
  }

  lemma {:induction false} ReadStringUndoes(t: string, rest: string)
    ensures ReadString(Escape(t) + "\"" + rest) == Some((t, rest))
  {
    if t != [] {
      var tail := Escape(t[1..]) + "\"" + rest;
      ReadCharUndoes(t[0], tail);
      assert Escape(t) + "\"" + rest == EscapeChar(t[0]) + tail;
      ReadStringUndoes(t[1..], rest);
      assert [t[0]] + t[1..] == t;
    } else {
      assert Escape(t) + "\"" + rest == "\"" + rest;
    }
  }

  /** The first character of a value's text, which tells the reader what is coming. */
  lemma PrintStart(v: Json)
    requires Printable(v)
    ensures Print(v) != []
    ensures var c := Print(v)[0];
      match v
      case Null => c == 'n'
      case Bool(b) => c == if b then 't' else 'f'
      case Int(_) => IsDigit(c) || c == '-'
      case Float(_) => IsDigit(c) || c == '-'
      case Str(_) => c == '\"'
      case Arr(_) => c == '['
      case Obj(_) => c == '{'
  {
    if v.Float? {
      FloatTextChars(v.text);
    }
  }

  lemma ReadNumberText(text: string, v: Json, rest: string)
    requires text != [] && (IsDigit(text[0]) || text[0] == '-')
    requires forall k | 0 <= k < |text| :: IsNumberChar(text[k])
    requires ReadNumber(text) == Some(v) && Stops(rest)
    ensures ReadValue(text + rest) == Some((v, rest))
  {
    NumberRunStops(text, rest);
    assert (text + rest)[0] == text[0] && (text + rest)[|text|..] == rest;
    ReadValueIsNumber(text + rest, text, v);
  }

  lemma ReadValueIsNumber(s: string, run: string, v: Json)
    requires s != [] && (IsDigit(s[0]) || s[0] == '-')
    requires run != [] && NumberRun(s) == run && ReadNumber(run) == Some(v)
    ensures ReadValue(s) == Some((v, s[|run|..]))
  {
    assert ReadScalar(s) == ReadNumberAt(s) == Some((v, s[|run|..]));
  }

  lemma ReadLiteral(v: Json, rest: string)
    requires v.Null? || v.Bool?
    ensures ReadValue(Print(v) + rest) == Some((v, rest))
  {
    var s := Print(v) + rest;
    assert s[..|Print(v)|] == Print(v) && s[|Print(v)|..] == rest;
  }

  /** Reading the text of a value gives the value back and stops right after it. */
  lemma {:induction false} ReadUndoesPrint(v: Json, rest: string)
    requires Printable(v) && Stops(rest)
    ensures ReadValue(Print(v) + rest) == Some((v, rest))
    decreases v, 2
  {
    match v
    case Int(n) =>
      ReadNumberUndoes(n);
      ReadNumberText(IntText(n), v, rest);
    case Float(text) =>
      FloatTextChars(text);
      ReadNumberText(text, v, rest);
    case Str(t) =>
      assert (Print(v) + rest)[1..] == Escape(t) + "\"" + rest;
      ReadStringUndoes(t, rest);
      assert ReadScalar(Print(v) + rest) == Some((v, rest));
    case Arr(items) => ReadArrayUndoes(items, rest);
    case Obj(ms) => ReadObjectUndoes(ms, rest);
    case _ => ReadLiteral(v, rest);
  }

  lemma {:induction false} ReadArrayUndoes(items: seq<Json>, rest: string)
    requires Printable(Arr(items))
    ensures ReadValue(Print(Arr(items)) + rest) == Some((Arr(items), rest))
    decreases Arr(items), 1
  {
    var s := PrintItems(items) + "]" + rest;
    assert (Print(Arr(items)) + rest)[1..] == s;
    if items == [] {
      assert s == "]" + rest && s[1..] == rest;
    } else {
      PrintStart(items[0]);
      assert s[0] == Print(items[0])[0];
      ReadItemsUndoes(items, rest);
    }
    assert ReadArray(s) == Some((Arr(items), rest));
  }

  lemma {:induction false} ReadObjectUndoes(ms: seq<Member>, rest: string)
    requires Printable(Obj(ms))
    ensures ReadValue(Print(Obj(ms)) + rest) == Some((Obj(ms), rest))
    decreases Obj(ms), 1
  {
    var s := PrintMembers(ms) + "}" + rest;
    assert (Print(Obj(ms)) + rest)[1..] == s;
    if ms == [] {
      assert s == "}" + rest && s[1..] == rest;
    } else {
      assert s[0] == '\"';
      ReadMembersUndoes(ms, rest);
    }
    assert ReadObject(s) == Some((Obj(ms), rest));
  }

  /** What PrintItems and PrintMembers put after the first element. */
  function MoreItems(items: seq<Json>): string {
    if items == [] then "" else "," + PrintItems(items)
  }

  function MoreMembers(ms: seq<Member>): string {
    if ms == [] then "" else "," + PrintMembers(ms)
  }

  lemma {:induction false} ReadItemsUndoes(items: seq<Json>, rest: string)
    requires items != [] && (forall i | 0 <= i < |items| :: Printable(items[i]))
    ensures ReadItems(PrintItems(items) + "]" + rest) == Some((items, rest))
    decreases items, 0
  {
    var after := MoreItems(items[1..]) + "]" + rest;
    assert PrintItems(items) + "]" + rest == Print(items[0]) + after;
    ReadUndoesPrint(items[0], after);
    ReadMoreItemsUndoes(items[1..], rest);
    assert [items[0]] + items[1..] == items;
  }

  lemma {:induction false} ReadMoreItemsUndoes(items: seq<Json>, rest: string)
    requires forall i | 0 <= i < |items| :: Printable(items[i])
    ensures ReadMoreItems(MoreItems(items) + "]" + rest) == Some((items, rest))
    decreases items, 1
  {
    if items != [] {
      var body := PrintItems(items);
      ReadItemsUndoes(items, rest);
      AfterComma(body, "]", rest);
      MoreItemsFollow(MoreItems(items) + "]" + rest, body + "]" + rest, items, rest);
    } else {
      assert MoreItems(items) + "]" + rest == "]" + rest && ("]" + rest)[1..] == rest;
    }
  }

  lemma MoreItemsFollow(after: string, next: string, items: seq<Json>, rest: string)
    requires after != [] && after[0] == ',' && after[1..] == next && ReadItems(next) == Some((items, rest))
    ensures ReadMoreItems(after) == Some((items, rest))
  {
  }

  lemma ReadKeyUndoes(key: string, rest: string)
    ensures ReadKey(Quote(key) + ":" + rest) == Some((key, rest))
  {
    var s := Quote(key) + ":" + rest;
    assert s[1..] == Escape(key) + "\"" + (":" + rest);
    ReadStringUndoes(key, ":" + rest);
    assert (":" + rest)[1..] == rest;
  }

  lemma MembersFollow(text: string, key: string, a: string, v: Json, b: string, more: seq<Member>, rest: string)
    requires ReadKey(text) == Some((key, a)) && ReadValue(a) == Some((v, b)) && ReadMoreMembers(b) == Some((more, rest))
    ensures ReadMembers(text) == Some(([Member(key, v)] + more, rest))
  {
  }

  lemma MembersText(ms: seq<Member>)
    requires ms != []
    ensures PrintMembers(ms) == Quote(ms[0].key) + ":" + Print(ms[0].value) + MoreMembers(ms[1..])
  {
  }

  lemma RegroupText(a: string, b: string, c: string, d: string, e: string, f: string)
    ensures a + b + c + d + e + f == a + b + (c + (d + e + f))
  {
  }

  lemma {:induction false} ReadMembersUndoes(ms: seq<Member>, rest: string)
    requires ms != [] && (forall i | 0 <= i < |ms| :: Printable(ms[i].value))
    ensures ReadMembers(PrintMembers(ms) + "}" + rest) == Some((ms, rest))
    decreases ms, 0
  {
    var m, more := ms[0], ms[1..];
    var after := MoreMembers(more) + "}" + rest;
    var value := Print(m.value) + after;
    MembersText(ms);
    RegroupText(Quote(m.key), ":", Print(m.value), MoreMembers(more), "}", rest);
    ReadKeyUndoes(m.key, value);
    ReadUndoesPrint(m.value, after);
    ReadMoreMembersUndoes(more, rest);
    MembersFollow(PrintMembers(ms) + "}" + rest, m.key, value, m.value, after, more, rest);
    assert [Member(m.key, m.value)] + more == ms;
  }

  lemma MoreMembersFollow(after: string, next: string, ms: seq<Member>, rest: string)
    requires after != [] && after[0] == ',' && after[1..] == next && ReadMembers(next) == Some((ms, rest))
    ensures ReadMoreMembers(after) == Some((ms, rest))
  {
  }

  lemma AfterComma(body: string, close: string, rest: string)
    ensures ("," + body + close + rest)[0] == ',' && ("," + body + close + rest)[1..] == body + close + rest
  {
  }

  lemma {:induction false} ReadMoreMembersUndoes(ms: seq<Member>, rest: string)
    requires forall i | 0 <= i < |ms| :: Printable(ms[i].value)
    ensures ReadMoreMembers(MoreMembers(ms) + "}" + rest) == Some((ms, rest))
    decreases ms, 1
  {
    if ms != [] {
      var body := PrintMembers(ms);
      ReadMembersUndoes(ms, rest);
      AfterComma(body, "}", rest);
      MoreMembersFollow(MoreMembers(ms) + "}" + rest, body + "}" + rest, ms, rest);
    } else {
      assert MoreMembers(ms) + "}" + rest == "}" + rest && ("}" + rest)[1..] == rest;
    }
  }

  /** Reading a whole text: one value and nothing after it. */
  function Read(s: string): Option<Json> {
    match ReadValue(s) case None => None case Some((v, rest)) => if rest == [] then Some(v) else None
  }

  /** The text of a value determines the value. */
  lemma PrintIsInjective(v: Json, w: Json)
    requires Printable(v) && Printable(w) && Print(v) == Print(w)
    ensures v == w && Read(Print(v)) == Some(v)
  {
    ReadUndoesPrint(v, []);
    ReadUndoesPrint(w, []);
    assert Print(v) + [] == Print(v);
  }

  // ------------------------------------------------------------------ no control characters

  ghost predicate NoControl(s: string) {
    forall k | 0 <= k < |s| :: s[k] >= ' '
  }

  lemma NoControlConcat(a: string, b: string)
    requires NoControl(a) && NoControl(b)
    ensures NoControl(a + b)
  {
  }

  lemma {:induction false} EscapeHasNoControl(s: string)
    ensures NoControl(Escape(s))
  {
    if s != [] {
      EscapeHasNoControl(s[1..]);
      NoControlConcat(EscapeChar(s[0]), Escape(s[1..]));
    }
  }

  lemma NumberHasNoControl(n: int)
    ensures NoControl(IntText(n))
  {
    ReadNumberUndoes(n);
    var text := IntText(n);
    forall k | 0 <= k < |text| ensures text[k] >= ' ' {
      assert IsNumberChar(text[k]);
    }
  }

  lemma BetweenHasNoControl(open: string, body: string, close: string)
    requires NoControl(open) && NoControl(body) && NoControl(close)
    ensures NoControl(open + body + close)
  {
  }

  /** A printed value fits on one line: it holds no control character, so no LF and no CR. */
  lemma {:induction false} PrintHasNoControl(v: Json)
    requires Printable(v)
    ensures NoControl(Print(v))
    decreases v, 1
  {
    match v
    case Str(s) => QuoteHasNoControl(s);
    case Arr(items) => ItemsHaveNoControl(items);
    case Obj(ms) => MembersHaveNoControl(ms);
    case _ => ScalarHasNoControl(v);
  }

  lemma FloatHasNoControl(text: string)
    requires IsFloatText(text)
    ensures NoControl(text)
  {
    FloatTextChars(text);
    forall k | 0 <= k < |text| ensures text[k] >= ' ' {
      assert IsNumberChar(text[k]);
    }
  }

  lemma ScalarHasNoControl(v: Json)
    requires Printable(v) && !v.Str? && !v.Arr? && !v.Obj?
    ensures NoControl(Print(v))
  {
    match v
    case Int(n) => NumberHasNoControl(n);
    case Float(text) => FloatHasNoControl(text);
    case _ =>
  }

  lemma QuoteHasNoControl(s: string)
    ensures NoControl(Quote(s))
  {
    EscapeHasNoControl(s);
    BetweenHasNoControl("\"", Escape(s), "\"");
  }

  lemma {:induction false} ItemsHaveNoControl(items: seq<Json>)
    requires forall i | 0 <= i < |items| :: Printable(items[i])
    ensures NoControl(PrintItems(items)) && NoControl("[" + PrintItems(items) + "]")
    decreases items, 0
  {
    if items != [] {
      PrintHasNoControl(items[0]);
      ItemsHaveNoControl(items[1..]);
    }
    BetweenHasNoControl("[", PrintItems(items), "]");
  }

  lemma {:induction false} MembersHaveNoControl(ms: seq<Member>)
    requires forall i | 0 <= i < |ms| :: Printable(ms[i].value)
    ensures NoControl(PrintMembers(ms)) && NoControl("{" + PrintMembers(ms) + "}")
    decreases ms, 0
  {
    if ms != [] {
      QuoteHasNoControl(ms[0].key);
      PrintHasNoControl(ms[0].value);
      MembersHaveNoControl(ms[1..]);
    }
    BetweenHasNoControl("{", PrintMembers(ms), "}");
  }
}
