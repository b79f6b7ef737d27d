/** What pins the compact text: of all texts that read as a value it is the shortest, escapes included. */
module JsonText {
  import opened Wrappers
  import opened Json

  // ------------------------------------------------------------------ one character

  /** The text in front of what is left of it. */
  function Front(text: string, rest: string): string {
    if |rest| <= |text| then text[..|text| - |rest|] else []
  }

  predicate IsUpperHex(c: char) {
    'A' <= c <= 'F'
  }

  /** No letter among the digits of a six-character escape is a capital. */
  predicate LowerHex(chunk: string) {
    |chunk| == 6 ==> forall k | 2 <= k < 6 :: !IsUpperHex(chunk[k])
  }

  /**
   * A character that needs no escape stands for itself, the seven with a short escape take two characters,
   * and the other control characters take six with lower-case digits.
   */
  lemma EscapesExactly(c: char)
    ensures c >= ' ' && c != '\"' && c != '\\' ==> Escape([c]) == [c]
    ensures c as int in {8, 9, 10, 12, 13, 34, 92} ==> |Escape([c])| == 2
    ensures c < ' ' && c as int !in {8, 9, 10, 12, 13} ==> |Escape([c])| == 6 && LowerHex(Escape([c]))
  {
    assert [c][1..] == [] && Escape([c]) == EscapeChar(c) + [] == EscapeChar(c);
  }

  lemma ReadCharSplits(text: string, c: char, rest: string)
    requires ReadChar(text) == Some((c, rest))
    ensures |rest| < |text| && text == Front(text, rest) + rest && Front(text, rest) != []
    ensures ReadChar(Front(text, rest)) == Some((c, []))
  {
  }

  /** A spelling of one character is never shorter than the escape, and one as short, in lower case, is the escape. */
  lemma CharIsShortest(text: string, c: char, rest: string)
    requires ReadChar(text) == Some((c, rest))
    ensures |EscapeChar(c)| + |rest| <= |text|
    ensures |EscapeChar(c)| + |rest| == |text| && LowerHex(Front(text, rest)) ==> text == EscapeChar(c) + rest
  {
    ReadCharSplits(text, c, rest);
    var chunk := Front(text, rest);
    if |chunk| == 6 {
      SixIsShortest(chunk, c);
    } else {
      FewIsShortest(chunk, c);
    }
  }

  lemma FewIsShortest(chunk: string, c: char)
    requires ReadChar(chunk) == Some((c, [])) && |chunk| != 6
    ensures |EscapeChar(c)| <= |chunk| && (|EscapeChar(c)| == |chunk| ==> chunk == EscapeChar(c))
  {
    if |chunk| == 1 {
      assert chunk == [chunk[0]];
    } else {
      assert chunk == [chunk[0], chunk[1]];
    }
  }

  lemma HexIsUnHex(d: char, n: nat)
    requires UnHex(d) == Some(n)
    ensures n < 16 && (!IsUpperHex(d) ==> d == Hex(n))
  {
  }

  lemma SixIsShortest(chunk: string, c: char)
    requires ReadChar(chunk) == Some((c, [])) && |chunk| == 6
    ensures |EscapeChar(c)| <= 6 && (|EscapeChar(c)| == 6 && LowerHex(chunk) ==> chunk == EscapeChar(c))
  {
    var a, b, d, e := UnHex(chunk[2]).value, UnHex(chunk[3]).value, UnHex(chunk[4]).value, UnHex(chunk[5]).value;
    HexIsUnHex(chunk[2], a);
    HexIsUnHex(chunk[3], b);
    HexIsUnHex(chunk[4], d);
    HexIsUnHex(chunk[5], e);
    if |EscapeChar(c)| == 6 && LowerHex(chunk) {
      assert c as int == ((a * 16 + b) * 16 + d) * 16 + e < 32;
      assert a == b == 0 && c as int / 16 == d && c as int % 16 == e;
      assert chunk == [chunk[0], chunk[1], chunk[2], chunk[3], chunk[4], chunk[5]];
    }
  }

  // ------------------------------------------------------------------ strings

  /** Every six-character escape of a string body is in lower case. */
  predicate LowerBody(text: string)
    decreases |text|
  {
    match ReadChar(text)
    case None => true
    case Some((c, rest)) => LowerHex(Front(text, rest)) && LowerBody(rest)
  }

  lemma Regroup(a: string, b: string, c: string, d: string)
    ensures a + (b + c + d) == a + b + c + d
  {
  }

  /**
   * No text that reads as a string is shorter than its escaped text with the closing quote, and one that is
   * as short, its escapes in lower case, is that text.
   */
  lemma {:induction false} EscapeIsShortest(text: string, s: string, rest: string)
    requires ReadString(text) == Some((s, rest))
    ensures |Escape(s)| + 1 + |rest| <= |text|
    ensures |Escape(s)| + 1 + |rest| == |text| && LowerBody(text) ==> text == Escape(s) + "\"" + rest
    decreases |text|
  {
    if text[0] == '\"' {
      assert s == "" && text == "\"" + rest && Escape(s) + "\"" + rest == "\"" + rest;
    } else {
      var (c, tail) := ReadChar(text).value;
      var more := s[1..];
      assert s == [c] + more && ReadString(tail) == Some((more, rest));
      CharIsShortest(text, c, tail);
      EscapeIsShortest(tail, more, rest);
      assert Escape(s) == EscapeChar(c) + Escape(more);
      Regroup(EscapeChar(c), Escape(more), "\"", rest);
    }
  }

  lemma QuoteIsShortest(text: string, s: string, rest: string)
    requires StartsWith(text, '\"') && ReadString(text[1..]) == Some((s, rest))
    ensures |Quote(s)| + |rest| <= |text|
  {
    EscapeIsShortest(text[1..], s, rest);
  }

  // ------------------------------------------------------------------ values

  /** The text of a number is the only one that reads as it, but for the minus zero. */
  lemma NumberIsShortest(run: string, v: Json)
    requires ReadNumber(run) == Some(v)
    ensures |Print(v)| <= |run|
  {
    if v.Int? {
      if run[0] == '-' {
        PlainReadsBack(run[1..]);
      } else {
        PlainReadsBack(run);
      }
    }
  }

  /** No text that reads as a value is shorter than its printed text. */
  lemma {:induction false} PrintIsShortest(text: string, v: Json, rest: string)
    requires ReadValue(text) == Some((v, rest))
    ensures |Print(v)| + |rest| <= |text|
    decreases |text|, 3
  {
    if text[0] == '[' {
      ArrayIsShortest(text[1..], v.items, rest);
    } else if text[0] == '{' {
      ObjectIsShortest(text[1..], v.members, rest);
    } else if v.Str? {
      StringIsRead(text, v.s, rest);
      QuoteIsShortest(text, v.s, rest);
    } else {
      ScalarIsShortest(text, v, rest);
    }
  }

  lemma StringIsRead(text: string, s: string, rest: string)
    requires ReadScalar(text) == Some((Str(s), rest))
    ensures StartsWith(text, '\"') && ReadString(text[1..]) == Some((s, rest))
  {
  }

  /** Where a value that is no array or object is read. */
  lemma ScalarIsRead(text: string, v: Json, rest: string)
    requires ReadScalar(text) == Some((v, rest)) && !v.Str?
    ensures IsNumber(v) ==> ReadNumberAt(text) == Some((v, rest))
    ensures !IsNumber(v) ==> (v.Null? || v.Bool?) && |text| - |rest| == if v.Null? || v.b then 4 else 5
  {
  }

  lemma LiteralLength(v: Json)
    requires v.Null? || v.Bool?
    ensures |Print(v)| == if v.Null? || v.b then 4 else 5
  {
    match v
    case Null => assert Print(v) == "null";
    case Bool(b) => assert Print(v) == if b then "true" else "false";
  }

  lemma ScalarIsShortest(text: string, v: Json, rest: string)
    requires ReadScalar(text) == Some((v, rest)) && !v.Str?
    ensures |Print(v)| + |rest| <= |text|
  {
    ScalarIsRead(text, v, rest);
    if IsNumber(v) {
      NumberIsShortest(NumberRun(text), v);
    } else {
      LiteralLength(v);
    }
  }

  lemma {:induction false} ArrayIsShortest(text: string, items: seq<Json>, rest: string)
    requires ReadArray(text) == Some((Arr(items), rest))
    ensures |Print(Arr(items))| + |rest| <= 1 + |text|
    decreases |text|, 5
  {
    if !StartsWith(text, ']') {
      ItemsAreShortest(text, items, rest);
    }
  }

  lemma {:induction false} ObjectIsShortest(text: string, ms: seq<Member>, rest: string)
    requires ReadObject(text) == Some((Obj(ms), rest))
    ensures |Print(Obj(ms))| + |rest| <= 1 + |text|
    decreases |text|, 5
  {
    if !StartsWith(text, '}') {
      MembersAreShortest(text, ms, rest);
    }
  }

  lemma {:induction false} ItemsAreShortest(text: string, items: seq<Json>, rest: string)
    requires ReadItems(text) == Some((items, rest))
    ensures items != [] && |PrintItems(items)| + 1 + |rest| <= |text|
    decreases |text|, 4
  {
    var (v, after) := ReadValue(text).value;
    PrintIsShortest(text, v, after);
    var more := items[1..];
    assert items == [v] + more && ReadMoreItems(after) == Some((more, rest));
    if !StartsWith(after, ']') {
      ItemsAreShortest(after[1..], more, rest);
    }
  }

  lemma {:induction false} MembersAreShortest(text: string, ms: seq<Member>, rest: string)
    requires ReadMembers(text) == Some((ms, rest))
    ensures ms != [] && |PrintMembers(ms)| + 1 + |rest| <= |text|
    decreases |text|, 4
  {
    var (key, afterKey) := ReadKey(text).value;
    var (v, after) := ReadValue(afterKey).value;
    KeyIsShortest(text, key, afterKey);
    PrintIsShortest(afterKey, v, after);
    var more := ms[1..];
    assert ms == [Member(key, v)] + more && ReadMoreMembers(after) == Some((more, rest));
    if !StartsWith(after, '}') {
      MembersAreShortest(after[1..], more, rest);
    }
  }

  lemma KeyIsShortest(text: string, key: string, rest: string)
    requires ReadKey(text) == Some((key, rest))
    ensures |Quote(key)| + 1 + |rest| <= |text|
  {
    var afterQuote := ReadString(text[1..]).value.1;
    QuoteIsShortest(text, key, afterQuote);
  }
}
