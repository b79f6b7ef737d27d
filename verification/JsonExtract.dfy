/** `lastJsonObject`: the last complete top-level object in a text that mixes prose and JSON. */
module JsonExtract {
  import opened Wrappers
  import opened Json

  /** `JSON.parse`, absent when it throws. */
  type Parser = string -> Option<Json>

  function AsObject(parse: Parser, text: string): Option<Json> {
    match parse(text) case Some(Obj(ms)) => Some(Obj(ms)) case _ => None
  }

  // ------------------------------------------------------------------ pass 1 as an automaton

  /** `span` is the text since the brace that opened the current top-level object. */
  datatype Scan = Scan(depth: nat, span: Option<string>, inStr: bool, esc: bool, best: Option<Json>)

  const START := Scan(0, None, false, false, None)

  function Extend(st: Scan, c: char): Scan {
    if st.span.Some? then st.(span := Some(st.span.value + [c])) else st
  }

  function Step(parse: Parser, st: Scan, c: char): Scan {
    if st.inStr then
      var r := Extend(st, c);
      if st.esc then r.(esc := false)
      else if c == '\\' then r.(esc := true)
      else if c == '\"' then r.(inStr := false)
      else r
    else if c == '\"' then Extend(st, c).(inStr := true)
    else if c == '{' then
      if st.depth == 0 then st.(depth := 1, span := Some("{")) else Extend(st, c).(depth := st.depth + 1)
    else if c == '}' then
      if st.depth <= 1 then
        var r := Extend(st, c);
        var found := if r.span.Some? then AsObject(parse, r.span.value) else None;
        st.(depth := 0, span := None, best := if found.Some? then found else st.best)
      else Extend(st, c).(depth := st.depth - 1)
    else Extend(st, c)
  }

  function Feed(parse: Parser, st: Scan, s: string): Scan {
    if s == [] then st else Step(parse, Feed(parse, st, s[..|s| - 1]), s[|s| - 1])
  }

  // ------------------------------------------------------------------ pass 2

  const LIMIT: nat := 40

  function Positions(text: string, c: char): (r: seq<nat>)
    ensures forall k | 0 <= k < |r| :: r[k] < |text| && text[r[k]] == c
  {
    if text == [] then []
    else Positions(text[..|text| - 1], c) + (if text[|text| - 1] == c then [|text| - 1] else [])
  }

  function LastFew(ps: seq<nat>): (r: seq<nat>)
    ensures forall k | 0 <= k < |r| :: r[k] in ps
  {
    if |ps| <= LIMIT then ps else ps[|ps| - LIMIT..]
  }

  /** The first opening brace before `close` from which the text up to `close` parses as an object. */
  function FirstOpen(parse: Parser, text: string, opens: seq<nat>, close: nat): Option<Json>
    requires close < |text|
  {
    if opens == [] || opens[0] >= close then None
    else
      var v := AsObject(parse, text[opens[0]..close + 1]);
      if v.Some? then v else FirstOpen(parse, text, opens[1..], close)
  }

  /** Closing braces from the last to the first. */
  function LastClose(parse: Parser, text: string, opens: seq<nat>, closes: seq<nat>): Option<Json>
    requires forall k | 0 <= k < |closes| :: closes[k] < |text|
  {
    if closes == [] then None
    else
      var v := FirstOpen(parse, text, opens, closes[|closes| - 1]);
      if v.Some? then v else LastClose(parse, text, opens, closes[..|closes| - 1])
  }

  function LastObject(parse: Parser, text: string): Option<Json> {
    var first := Feed(parse, START, text).best;
    if first.Some? then first
    else LastClose(parse, text, LastFew(Positions(text, '{')), LastFew(Positions(text, '}')))
  }

  // ------------------------------------------------------------------ the implementation

  method LastJsonObject(parse: Parser, text: string) returns (r: Option<Json>)
    ensures r == LastObject(parse, text)
  {
    var depth: int, openedAt: int, inStr, esc := 0, -1, false, false;
    var best: Option<Json> := None;
    for i := 0 to |text|
      invariant depth >= 0 && -1 <= openedAt <= i
      invariant Feed(parse, START, text[..i])
             == Scan(depth, if openedAt >= 0 then Some(text[openedAt..i]) else None, inStr, esc, best)
    {
      var c := text[i];
      assert text[..i + 1][..i] == text[..i];
      assert openedAt >= 0 ==> text[openedAt..i + 1] == text[openedAt..i] + [c];
      assert text[i..i + 1] == [c];
      if inStr {
        if esc {
          esc := false;
        } else if c == '\\' {
          esc := true;
        } else if c == '\"' {
          inStr := false;
        }
      } else if c == '\"' {
        inStr := true;
      } else if c == '{' {
        if depth == 0 {
          openedAt := i;
        }
        depth := depth + 1;
      } else if c == '}' {
        depth := depth - 1;
        if depth <= 0 {
          if openedAt >= 0 {
            var found := AsObject(parse, text[openedAt..i + 1]);
            best := if found.Some? then found else best;
          }
          depth := 0;
          openedAt := -1;
        }
      }
    }
    assert text[..|text|] == text;
    if best.Some? {
      return best;
    }
    r := BruteForce(parse, text);
  }

  method Collect(text: string, c: char) returns (r: seq<nat>)
    ensures r == Positions(text, c)
  {
    r := [];
    for i := 0 to |text|
      invariant r == Positions(text[..i], c)
    {
      assert text[..i + 1][..i] == text[..i];
      if text[i] == c {
        r := r + [i];
      }
    }
    assert text[..|text|] == text;
  }

  method TryOpens(parse: Parser, text: string, opens: seq<nat>, close: nat) returns (r: Option<Json>)
    requires close < |text|
    ensures r == FirstOpen(parse, text, opens, close)
  {
    var k := 0;
    while k < |opens| && opens[k] < close
      invariant k <= |opens|
      invariant FirstOpen(parse, text, opens, close) == FirstOpen(parse, text, opens[k..], close)
    {
      var v := AsObject(parse, text[opens[k]..close + 1]);
      if v.Some? {
        return v;
      }
      assert opens[k..][1..] == opens[k + 1..];
      k := k + 1;
    }
    r := None;
  }

  method BruteForce(parse: Parser, text: string) returns (r: Option<Json>)
    ensures r == LastClose(parse, text, LastFew(Positions(text, '{')), LastFew(Positions(text, '}')))
  {
    var starts := Collect(text, '{');
    var closes := Collect(text, '}');
    var opens, ends := LastFew(starts), LastFew(closes);
    var n := |ends|;
    assert ends[..n] == ends;
    while n > 0
      invariant 0 <= n <= |ends|
      invariant LastClose(parse, text, opens, ends) == LastClose(parse, text, opens, ends[..n])
    {
      assert ends[..n][..n - 1] == ends[..n - 1];
      r := TryOpens(parse, text, opens, ends[n - 1]);
      if r.Some? {
        return;
      }
      n := n - 1;
    }
    r := None;
  }

  // ------------------------------------------------------------------ texts of prose and objects

  datatype Piece = Prose(text: string) | Object(members: seq<Member>)

  /** No quote and no brace. */
  ghost predicate NoMarks(s: string) {
    forall k | 0 <= k < |s| :: s[k] != '\"' && s[k] != '{' && s[k] != '}'
  }

  function PieceText(p: Piece): string {
    match p case Prose(text) => text case Object(ms) => Print(Obj(ms))
  }

  function Assemble(pieces: seq<Piece>): string {
    if pieces == [] then "" else Assemble(pieces[..|pieces| - 1]) + PieceText(pieces[|pieces| - 1])
  }

  function LastOf(pieces: seq<Piece>): Option<Json> {
    if pieces == [] then None
    else if pieces[|pieces| - 1].Object? then Some(Obj(pieces[|pieces| - 1].members))
    else LastOf(pieces[..|pieces| - 1])
  }

  lemma {:induction false} FeedConcat(parse: Parser, st: Scan, a: string, b: string)
    ensures Feed(parse, st, a + b) == Feed(parse, Feed(parse, st, a), b)
  {
    if b == [] {
      assert a + b == a;
    } else {
      FeedConcat(parse, st, a, b[..|b| - 1]);
      assert (a + b)[..|a + b| - 1] == a + b[..|b| - 1];
    }
  }

  /** `st` after passing over text that changes nothing but the current span. */
  function Passed(st: Scan, s: string): Scan {
    if st.span.Some? then st.(span := Some(st.span.value + s)) else st
  }

  lemma {:induction false} PlainPasses(parse: Parser, st: Scan, s: string)
    requires !st.inStr && NoMarks(s)
    ensures Feed(parse, st, s) == Passed(st, s)
  {
    if s != [] {
      PlainPasses(parse, st, s[..|s| - 1]);
      assert st.span.Some? ==> st.span.value + s == st.span.value + s[..|s| - 1] + [s[|s| - 1]];
    } else if st.span.Some? {
      assert st.span.value + [] == st.span.value;
    }
  }

  lemma PassedTwice(st: Scan, a: string, b: string)
    ensures Passed(Passed(st, a), b) == Passed(st, a + b)
  {
    assert st.span.Some? ==> st.span.value + (a + b) == st.span.value + a + b;
  }

  /** Feeding two stretches that each only pass. */
  lemma BothPass(parse: Parser, st: Scan, a: string, b: string)
    requires Feed(parse, st, a) == Passed(st, a)
    requires Feed(parse, Passed(st, a), b) == Passed(Passed(st, a), b)
    ensures Feed(parse, st, a + b) == Passed(st, a + b)
  {
    FeedConcat(parse, st, a, b);
    PassedTwice(st, a, b);
  }

  lemma FeedOne(parse: Parser, st: Scan, c: char)
    ensures Feed(parse, st, [c]) == Step(parse, st, c)
  {
    assert [c][..0] == [];
  }

  /** Inside a string, one escaped character passes and leaves the scan inside the string. */
  lemma EscapedCharPasses(parse: Parser, st: Scan, c: char)
    requires st.inStr && !st.esc
    ensures Feed(parse, st, EscapeChar(c)) == Passed(st, EscapeChar(c))
  {
    var e := EscapeChar(c);
    FeedOne(parse, st, e[0]);
    if |e| > 1 {
      var mid := Step(parse, st, e[0]);
      FeedOne(parse, mid, e[1]);
      var after := Step(parse, mid, e[1]);
      FeedConcat(parse, st, [e[0]], [e[1]]);
      PassedTwice(st, [e[0]], [e[1]]);
      if |e| == 6 {
        InStringPasses(parse, after, e[2..]);
        assert e == [e[0]] + [e[1]] + e[2..];
        BothPass(parse, st, [e[0]] + [e[1]], e[2..]);
      } else {
        assert e == [e[0]] + [e[1]];
      }
    } else {
      assert e == [e[0]];
    }
  }

  lemma {:induction false} InStringPasses(parse: Parser, st: Scan, s: string)
    requires st.inStr && !st.esc && forall k | 0 <= k < |s| :: s[k] != '\\' && s[k] != '\"'
    ensures Feed(parse, st, s) == Passed(st, s)
  {
    if s != [] {
      InStringPasses(parse, st, s[..|s| - 1]);
      assert st.span.Some? ==> st.span.value + s == st.span.value + s[..|s| - 1] + [s[|s| - 1]];
    } else if st.span.Some? {
      assert st.span.value + [] == st.span.value;
    }
  }

  lemma {:induction false} EscapePasses(parse: Parser, st: Scan, t: string)
    requires st.inStr && !st.esc
    ensures Feed(parse, st, Escape(t)) == Passed(st, Escape(t))
    decreases |t|
  {
    if t == [] {
      assert st.span.Some? ==> st.span.value + [] == st.span.value;
    } else {
      EscapedCharPasses(parse, st, t[0]);
      EscapePasses(parse, Passed(st, EscapeChar(t[0])), t[1..]);
      BothPass(parse, st, EscapeChar(t[0]), Escape(t[1..]));
    }
  }

  /** A quoted string passes whatever quotes, braces and escapes it holds. */
  lemma QuotePasses(parse: Parser, st: Scan, t: string)
    requires !st.inStr && !st.esc
    ensures Feed(parse, st, Quote(t)) == Passed(st, Quote(t))
  {
    FeedOne(parse, st, '\"');
    var inside := Step(parse, st, '\"');
    EscapePasses(parse, inside, t);
    var end := Passed(inside, Escape(t));
    FeedOne(parse, end, '\"');
    FeedConcat(parse, inside, Escape(t), "\"");
    FeedConcat(parse, st, "\"", Escape(t) + "\"");
    assert Quote(t) == "\"" + (Escape(t) + "\"");
    PassedTwice(st, "\"", Escape(t));
    PassedTwice(st, "\"" + Escape(t), "\"");
  }

  /** A printed value nested in an object passes: its braces and brackets balance. */
  lemma {:induction false} ValuePasses(parse: Parser, st: Scan, v: Json)
    requires Printable(v) && !st.inStr && !st.esc && st.depth > 0
    ensures Feed(parse, st, Print(v)) == Passed(st, Print(v))
    decreases v, 2
  {
    match v
    case Str(t) => QuotePasses(parse, st, t);
    case Arr(items) => ArrayPasses(parse, st, items);
    case Obj(ms) => ObjectPasses(parse, st, ms);
    case _ =>
      ScalarHasNoMarks(v);
      PlainPasses(parse, st, Print(v));
  }

  lemma ScalarHasNoMarks(v: Json)
    requires Printable(v) && !v.Str? && !v.Arr? && !v.Obj?
    ensures NoMarks(Print(v))
  {
    match v
    case Int(n) =>
      ReadNumberUndoes(n);
      NumberHasNoMarks(IntText(n));
    case Float(text) =>
      FloatTextChars(text);
      NumberHasNoMarks(text);
    case _ =>
  }

  lemma NumberHasNoMarks(text: string)
    requires forall k | 0 <= k < |text| :: IsNumberChar(text[k])
    ensures NoMarks(text)
  {
  }

  lemma {:induction false} ArrayPasses(parse: Parser, st: Scan, items: seq<Json>)
    requires Printable(Arr(items)) && !st.inStr && !st.esc && st.depth > 0
    ensures Feed(parse, st, Print(Arr(items))) == Passed(st, Print(Arr(items)))
    decreases Arr(items), 1
  {
    PlainPasses(parse, st, "[");
    ItemsPass(parse, Passed(st, "["), items);
    BothPass(parse, st, "[", PrintItems(items));
    PlainPasses(parse, Passed(st, "[" + PrintItems(items)), "]");
    BothPass(parse, st, "[" + PrintItems(items), "]");
  }

  lemma {:induction false} ObjectPasses(parse: Parser, st: Scan, ms: seq<Member>)
    requires Printable(Obj(ms)) && !st.inStr && !st.esc && st.depth > 0
    ensures Feed(parse, st, Print(Obj(ms))) == Passed(st, Print(Obj(ms)))
    decreases Obj(ms), 1
  {
    var inside := Step(parse, st, '{');
    MembersPass(parse, inside, ms);
    Braced(parse, st, PrintMembers(ms));
    BracesPass(parse, st, PrintMembers(ms));
  }

  /** Inside an object the braces around a stretch only pass. */
  lemma BracesPass(parse: Parser, st: Scan, body: string)
    requires !st.inStr && !st.esc && st.depth > 0
    ensures Step(parse, Passed(Step(parse, st, '{'), body), '}') == Passed(st, "{" + body + "}")
  {
    PassedTwice(st, "{", body);
    PassedTwice(st, "{" + body, "}");
  }

  /** A stretch that passes between the braces is fed brace by brace. */
  lemma Braced(parse: Parser, st: Scan, body: string)
    requires var inside := Step(parse, st, '{'); Feed(parse, inside, body) == Passed(inside, body)
    ensures Feed(parse, st, "{" + body + "}") == Step(parse, Passed(Step(parse, st, '{'), body), '}')
  {
    var inside := Step(parse, st, '{');
    FeedOne(parse, st, '{');
    FeedOne(parse, Passed(inside, body), '}');
    FeedConcat(parse, inside, body, "}");
    FeedConcat(parse, st, "{", body + "}");
    assert "{" + body + "}" == "{" + (body + "}");
  }

  lemma {:induction false} ItemsPass(parse: Parser, st: Scan, items: seq<Json>)
    requires !st.inStr && !st.esc && st.depth > 0 && forall i | 0 <= i < |items| :: Printable(items[i])
    ensures Feed(parse, st, PrintItems(items)) == Passed(st, PrintItems(items))
    decreases items, 0
  {
    if items == [] {
      PlainPasses(parse, st, "");
    } else {
      ValuePasses(parse, st, items[0]);
      if |items| > 1 {
        var a := Passed(st, Print(items[0]));
        PlainPasses(parse, a, ",");
        ItemsPass(parse, Passed(a, ","), items[1..]);
        BothPass(parse, a, ",", PrintItems(items[1..]));
        BothPass(parse, st, Print(items[0]), "," + PrintItems(items[1..]));
      } else {
        assert Print(items[0]) + "" == Print(items[0]);
      }
    }
  }

  lemma {:induction false} MembersPass(parse: Parser, st: Scan, ms: seq<Member>)
    requires !st.inStr && !st.esc && st.depth > 0 && forall i | 0 <= i < |ms| :: Printable(ms[i].value)
    ensures Feed(parse, st, PrintMembers(ms)) == Passed(st, PrintMembers(ms))
    decreases ms, 0
  {
    if ms == [] {
      PlainPasses(parse, st, "");
    } else {
      MemberPasses(parse, st, ms[0]);
      var text := Quote(ms[0].key) + ":" + Print(ms[0].value);
      if |ms| > 1 {
        var a := Passed(st, text);
        PlainPasses(parse, a, ",");
        MembersPass(parse, Passed(a, ","), ms[1..]);
        BothPass(parse, a, ",", PrintMembers(ms[1..]));
        BothPass(parse, st, text, "," + PrintMembers(ms[1..]));
      } else {
        assert text + "" == text;
      }
    }
  }

  lemma {:induction false} MemberPasses(parse: Parser, st: Scan, m: Member)
    requires !st.inStr && !st.esc && st.depth > 0 && Printable(m.value)
    ensures var text := Quote(m.key) + ":" + Print(m.value); Feed(parse, st, text) == Passed(st, text)
    decreases m, 0
  {
    QuotePasses(parse, st, m.key);
    PlainPasses(parse, Passed(st, Quote(m.key)), ":");
    BothPass(parse, st, Quote(m.key), ":");
    ValuePasses(parse, Passed(st, Quote(m.key) + ":"), m.value);
    BothPass(parse, st, Quote(m.key) + ":", Print(m.value));
  }

  /** A top-level object that the parser accepts ends as the best found so far, with nothing open. */
  lemma TopLevelObjectIsTried(parse: Parser, st: Scan, ms: seq<Member>)
    requires Printable(Obj(ms))
    requires st.depth == 0 && st.span.None? && !st.inStr && !st.esc
    ensures
      (var found := AsObject(parse, Print(Obj(ms)));
        Feed(parse, st, Print(Obj(ms))) == if found.Some? then st.(best := found) else st)
  {
    MembersPass(parse, Step(parse, st, '{'), ms);
    Braced(parse, st, PrintMembers(ms));
  }

  /** Nothing that opens a string or an object. */
  ghost predicate NoOpening(s: string) {
    forall k | 0 <= k < |s| :: s[k] != '\"' && s[k] != '{'
  }

  /** Prose without quotes and opening braces, and objects that can be printed. */
  ghost predicate Mixed(pieces: seq<Piece>) {
    forall k | 0 <= k < |pieces| ::
      if pieces[k].Prose? then NoOpening(pieces[k].text) else Printable(Obj(pieces[k].members))
  }

  /** Outside an object such prose changes nothing, stray closing braces included. */
  lemma {:induction false} ProseChangesNothing(parse: Parser, st: Scan, s: string)
    requires st.depth == 0 && st.span.None? && !st.inStr && NoOpening(s)
    ensures Feed(parse, st, s) == st
  {
    if s != [] {
      ProseChangesNothing(parse, st, s[..|s| - 1]);
    }
  }

  /** What the parser makes of the last object that it accepts. */
  function LastAccepted(parse: Parser, pieces: seq<Piece>): Option<Json> {
    if pieces == [] then None
    else
      var p := pieces[|pieces| - 1];
      var found := if p.Object? then AsObject(parse, PieceText(p)) else None;
      if found.Some? then found else LastAccepted(parse, pieces[..|pieces| - 1])
  }

  lemma {:induction false} PiecesScan(parse: Parser, pieces: seq<Piece>)
    requires Mixed(pieces)
    ensures Feed(parse, START, Assemble(pieces)) == START.(best := LastAccepted(parse, pieces))
  {
    if pieces != [] {
      var init := pieces[..|pieces| - 1];
      var p := pieces[|pieces| - 1];
      PiecesScan(parse, init);
      FeedConcat(parse, START, Assemble(init), PieceText(p));
      var st := START.(best := LastAccepted(parse, init));
      match p
      case Prose(text) => ProseChangesNothing(parse, st, text);
      case Object(ms) => TopLevelObjectIsTried(parse, st, ms);
    }
  }

  lemma {:induction false} NoneStands(s: string, c: char)
    requires forall k | 0 <= k < |s| :: s[k] != c
    ensures Positions(s, c) == []
  {
    if s != [] {
      NoneStands(s[..|s| - 1], c);
    }
  }

  lemma {:induction false} ProseOnly(pieces: seq<Piece>)
    requires LastOf(pieces).None? && forall k | 0 <= k < |pieces| && pieces[k].Prose? :: NoOpening(pieces[k].text)
    ensures NoOpening(Assemble(pieces))
  {
    if pieces != [] {
      ProseOnly(pieces[..|pieces| - 1]);
    }
  }

  lemma {:induction false} NoOpensNoObject(parse: Parser, text: string, closes: seq<nat>)
    requires forall k | 0 <= k < |closes| :: closes[k] < |text|
    ensures LastClose(parse, text, [], closes).None?
  {
    if closes != [] {
      NoOpensNoObject(parse, text, closes[..|closes| - 1]);
    }
  }

  /**
   * For any sequence of printed objects and of prose without quotes and opening braces, whatever their
   * strings hold and however they nest, and for any parser: the result is the last top-level object that the parser
   * accepts, as it reads it; and nothing if there is no object.
   */
  lemma LastTopLevelObjectWins(parse: Parser, pieces: seq<Piece>)
    requires Mixed(pieces)
    ensures LastAccepted(parse, pieces).Some? ==> LastObject(parse, Assemble(pieces)) == LastAccepted(parse, pieces)
    ensures LastOf(pieces).None? ==> LastObject(parse, Assemble(pieces)).None?
  {
    PiecesScan(parse, pieces);
    if LastOf(pieces).None? {
      ProseOnly(pieces);
      var text := Assemble(pieces);
      NoneStands(text, '{');
      NoOpensNoObject(parse, text, LastFew(Positions(text, '}')));
      NoneAccepted(parse, pieces);
    }
  }

  lemma {:induction false} NoneAccepted(parse: Parser, pieces: seq<Piece>)
    requires LastOf(pieces).None?
    ensures LastAccepted(parse, pieces).None?
  {
    if pieces != [] {
      NoneAccepted(parse, pieces[..|pieces| - 1]);
    }
  }

  lemma {:induction false} LastOneAccepted(parse: Parser, pieces: seq<Piece>)
    requires LastOf(pieces).Some? && parse(Print(LastOf(pieces).value)) == LastOf(pieces)
    ensures LastAccepted(parse, pieces) == LastOf(pieces)
  {
    if !pieces[|pieces| - 1].Object? {
      LastOneAccepted(parse, pieces[..|pieces| - 1]);
    }
  }

  /** A parser that reads the last object's text back gives exactly that object. */
  lemma LastObjectComesBack(parse: Parser, pieces: seq<Piece>)
    requires Mixed(pieces)
    requires LastOf(pieces).Some? ==> parse(Print(LastOf(pieces).value)) == LastOf(pieces)
    ensures LastObject(parse, Assemble(pieces)) == LastOf(pieces)
  {
    LastTopLevelObjectWins(parse, pieces);
    if LastOf(pieces).Some? {
      LastOneAccepted(parse, pieces);
    }
  }

  /** The strict reader of compact texts is such a parser for every object. */
  lemma StrictReaderFindsTheLast(pieces: seq<Piece>)
    requires Mixed(pieces)
    ensures LastObject(s => Read(s), Assemble(pieces)) == LastOf(pieces)
  {
    if LastOf(pieces).Some? {
      LastIsPrintable(pieces);
      PrintIsInjective(LastOf(pieces).value, LastOf(pieces).value);
    }
    LastObjectComesBack(s => Read(s), pieces);
  }

  lemma {:induction false} LastIsPrintable(pieces: seq<Piece>)
    requires Mixed(pieces) && LastOf(pieces).Some?
    ensures Printable(LastOf(pieces).value)
  {
    if !pieces[|pieces| - 1].Object? {
      LastIsPrintable(pieces[..|pieces| - 1]);
    }
  }

  // ------------------------------------------------------------------ on every text

  /** The text from `i` to `j` runs from an opening to a closing brace and parses as this object. */
  ghost predicate ReadsAs(parse: Parser, text: string, i: nat, j: nat, v: Json) {
    i < j <= |text| && text[i] == '{' && text[j - 1] == '}' && AsObject(parse, text[i..j]) == Some(v)
  }

  ghost predicate OccursIn(parse: Parser, text: string, v: Json) {
    exists i: nat, j: nat :: ReadsAs(parse, text, i, j, v)
  }

  lemma OccursInLonger(parse: Parser, text: string, more: string, v: Json)
    requires OccursIn(parse, text, v)
    ensures OccursIn(parse, text + more, v)
  {
    var i: nat, j: nat :| ReadsAs(parse, text, i, j, v);
    assert (text + more)[i..j] == text[i..j];
    assert ReadsAs(parse, text + more, i, j, v);
  }

  /** The open span is the end of the text read so far, from a brace on. */
  ghost predicate SpanIsSuffix(st: Scan, text: string) {
    st.span.Some? ==>
      0 < |st.span.value| <= |text| && text[|text| - |st.span.value|..] == st.span.value && st.span.value[0] == '{'
  }

  /** One character on: the span is still a suffix. */
  lemma StepKeepsSuffix(parse: Parser, st: Scan, init: string, c: char)
    requires SpanIsSuffix(st, init)
    ensures SpanIsSuffix(Step(parse, st, c), init + [c])
  {
    var text := init + [c];
    if st.span.Some? {
      var i := |init| - |st.span.value|;
      assert text[i..] == init[i..] + [c] == st.span.value + [c];
    }
    assert text[|init|..] == [c];
  }

  /** One character on: a new best is the span up to this closing brace. */
  lemma StepFindsWhatOccurs(parse: Parser, st: Scan, init: string, c: char)
    requires SpanIsSuffix(st, init) && Step(parse, st, c).best != st.best
    ensures Step(parse, st, c).best.Some? && OccursIn(parse, init + [c], Step(parse, st, c).best.value)
  {
    var text := init + [c];
    assert c == '}' && !st.inStr && st.span.Some?;
    var i := |init| - |st.span.value|;
    assert text[i..|text|] == init[i..] + [c] == st.span.value + [c];
    assert text[i] == st.span.value[0];
    assert ReadsAs(parse, text, i, |text|, Step(parse, st, c).best.value);
  }

  lemma {:induction false} ScanFindsWhatOccurs(parse: Parser, text: string)
    ensures SpanIsSuffix(Feed(parse, START, text), text)
    ensures var best := Feed(parse, START, text).best; best.Some? ==> OccursIn(parse, text, best.value)
  {
    if text != [] {
      var init, c := text[..|text| - 1], text[|text| - 1];
      ScanFindsWhatOccurs(parse, init);
      var st := Feed(parse, START, init);
      assert text == init + [c];
      StepKeepsSuffix(parse, st, init, c);
      if Step(parse, st, c).best != st.best {
        StepFindsWhatOccurs(parse, st, init, c);
      } else if st.best.Some? {
        OccursInLonger(parse, init, [c], st.best.value);
      }
    }
  }

  lemma {:induction false} FirstOpenOccurs(parse: Parser, text: string, opens: seq<nat>, close: nat)
    requires close < |text| && text[close] == '}'
    requires forall k | 0 <= k < |opens| :: opens[k] < |text| && text[opens[k]] == '{'
    ensures var v := FirstOpen(parse, text, opens, close); v.Some? ==> OccursIn(parse, text, v.value)
  {
    if opens != [] && opens[0] < close {
      var v := AsObject(parse, text[opens[0]..close + 1]);
      if v.Some? {
        assert ReadsAs(parse, text, opens[0], close + 1, v.value);
      } else {
        FirstOpenOccurs(parse, text, opens[1..], close);
      }
    }
  }

  lemma {:induction false} LastCloseOccurs(parse: Parser, text: string, opens: seq<nat>, closes: seq<nat>)
    requires forall k | 0 <= k < |opens| :: opens[k] < |text| && text[opens[k]] == '{'
    requires forall k | 0 <= k < |closes| :: closes[k] < |text| && text[closes[k]] == '}'
    ensures var v := LastClose(parse, text, opens, closes); v.Some? ==> OccursIn(parse, text, v.value)
  {
    if closes != [] {
      FirstOpenOccurs(parse, text, opens, closes[|closes| - 1]);
      LastCloseOccurs(parse, text, opens, closes[..|closes| - 1]);
    }
  }

  /** On any text and with any parser, what is returned stands in the text, between two braces. */
  lemma OnlyWhatOccursIsReturned(parse: Parser, text: string)
    ensures var v := LastObject(parse, text); v.Some? ==> OccursIn(parse, text, v.value)
  {
    ScanFindsWhatOccurs(parse, text);
    LastCloseOccurs(parse, text, LastFew(Positions(text, '{')), LastFew(Positions(text, '}')));
  }
}
