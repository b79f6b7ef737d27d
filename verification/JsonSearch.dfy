/** When the search for the last object cannot miss one: exactly while neither kind of brace is cut off. */
module JsonSearch {
  import opened Wrappers
  import opened Json
  import opened JsonExtract

  ghost predicate Ascending(ps: seq<nat>) {
    forall i, j | 0 <= i < j < |ps| :: ps[i] < ps[j]
  }

  /** The positions of a character are all of them, in order. */
  lemma {:induction false} PositionsAreAll(text: string, c: char)
    ensures Ascending(Positions(text, c))
    ensures forall i | 0 <= i < |text| && text[i] == c :: i in Positions(text, c)
  {
    if text != [] {
      var init, n := text[..|text| - 1], |text| - 1;
      var before := Positions(init, c);
      PositionsAreAll(init, c);
      forall i | 0 <= i < |text| && text[i] == c ensures i in Positions(text, c) {
        if i < n {
          assert init[i] == c;
        } else {
          assert Positions(text, c)[|before|] == n;
        }
      }
    }
  }

  lemma {:induction false} FirstOpenFinds(parse: Parser, text: string, opens: seq<nat>, close: nat, open: nat)
    requires Ascending(opens) && open in opens && open < close < |text|
    requires AsObject(parse, text[open..close + 1]).Some?
    ensures FirstOpen(parse, text, opens, close).Some?
  {
    if opens[0] != open {
      var rest := opens[1..];
      assert opens == [opens[0]] + rest;
      var k :| 0 <= k < |rest| && rest[k] == open;
      assert opens[0] < opens[k + 1];
      FirstOpenFinds(parse, text, rest, close, open);
    }
  }

  lemma {:induction false} LastCloseFinds(
    parse: Parser, text: string, opens: seq<nat>, closes: seq<nat>, open: nat, close: nat)
    requires Ascending(opens) && open in opens && close in closes && open < close < |text|
    requires forall k | 0 <= k < |closes| :: closes[k] < |text|
    requires AsObject(parse, text[open..close + 1]).Some?
    ensures LastClose(parse, text, opens, closes).Some?
  {
    var init, last := closes[..|closes| - 1], closes[|closes| - 1];
    if last == close {
      FirstOpenFinds(parse, text, opens, close, open);
    } else {
      assert closes == init + [last];
      LastCloseFinds(parse, text, opens, init, open, close);
    }
  }

  ghost predicate Occurs(parse: Parser, text: string) {
    exists v: Json :: OccursIn(parse, text, v)
  }

  lemma PartIsFound(parse: Parser, text: string, i: nat, j: nat, v: Json)
    requires |Positions(text, '{')| <= LIMIT && |Positions(text, '}')| <= LIMIT && ReadsAs(parse, text, i, j, v)
    ensures LastObject(parse, text).Some?
  {
    PositionsAreAll(text, '{');
    PositionsAreAll(text, '}');
    assert text[j - 1] == '}' && text[i] == '{';
    assert i != j - 1;
    LastCloseFinds(parse, text, Positions(text, '{'), Positions(text, '}'), i, j - 1);
  }

  /** With no more braces of either kind than the search looks at, an object that occurs is not missed. */
  lemma FewBracesAreSearched(parse: Parser, text: string)
    requires |Positions(text, '{')| <= LIMIT && |Positions(text, '}')| <= LIMIT
    ensures LastObject(parse, text).Some? <==> Occurs(parse, text)
  {
    OnlyWhatOccursIsReturned(parse, text);
    var found := LastObject(parse, text);
    assert found.Some? ==> OccursIn(parse, text, found.value);
    if Occurs(parse, text) {
      var v: Json :| OccursIn(parse, text, v);
      var i: nat, j: nat :| ReadsAs(parse, text, i, j, v);
      PartIsFound(parse, text, i, j, v);
    }
  }

  // ------------------------------------------------------------------ which part is chosen

  /** Fewer than the limit of braces like this one follow it. */
  predicate InReach(text: string, c: char, i: nat) {
    i < |text| && text[i] == c && |Positions(text[i + 1..], c)| < LIMIT
  }

  /** How many stand before, at and after a position. */
  lemma {:induction false} PositionsAround(text: string, c: char, i: nat)
    requires i < |text| && text[i] == c
    ensures
      (var ps, m := Positions(text, c), |Positions(text[..i], c)|;
        m < |ps| && ps[m] == i && |ps| == m + 1 + |Positions(text[i + 1..], c)|)
    decreases |text|
  {
    var init := text[..|text| - 1];
    if i == |init| {
      assert text[i + 1..] == [] && text[..i] == init;
    } else {
      PositionsAround(init, c, i);
      var tail := text[i + 1..];
      assert init[..i] == text[..i] && init[i + 1..] == tail[..|tail| - 1];
    }
  }

  lemma {:induction false} AscendingBefore(ps: seq<nat>, a: nat, b: nat)
    requires Ascending(ps) && a < |ps| && b < |ps|
    ensures ps[a] == ps[b] ==> a == b
  {
  }

  /** The positions the search looks at are those in reach. */
  lemma LastFewAreInReach(text: string, c: char, i: nat)
    ensures i in LastFew(Positions(text, c)) <==> InReach(text, c, i)
  {
    var ps := Positions(text, c);
    var few := LastFew(ps);
    var from := |ps| - |few|;
    PositionsAreAll(text, c);
    assert forall k | 0 <= k < |few| :: few[k] == ps[from + k];
    if i < |text| && text[i] == c {
      PositionsAround(text, c, i);
      var m := |Positions(text[..i], c)|;
      if m >= from {
        assert few[m - from] == i;
      }
      if i in few {
        var k :| 0 <= k < |few| && few[k] == i;
        AscendingBefore(ps, from + k, m);
      }
    }
  }

  /** A part between two braces in reach that parses as an object. */
  predicate Part(parse: Parser, text: string, i: nat, j: nat) {
    i < j <= |text| && InReach(text, '{', i) && InReach(text, '}', j - 1) && AsObject(parse, text[i..j]).Some?
  }

  /** It ends at the last closing brace that ends such a part, and starts at the first opening brace for it. */
  ghost predicate Chosen(parse: Parser, text: string, i: nat, j: nat) {
    && Part(parse, text, i, j)
    && forall i2: nat, j2: nat | Part(parse, text, i2, j2) :: j2 < j || (j2 == j && i <= i2)
  }

  /** The first `a` opening braces come before this closing one and none of them works for it. */
  ghost predicate NoneWorks(parse: Parser, text: string, opens: seq<nat>, a: nat, close: nat) {
    && a <= |opens| && close < |text|
    && forall b | 0 <= b < a :: opens[b] < close && AsObject(parse, text[opens[b]..close + 1]).None?
  }

  lemma {:induction false} FirstOpenIsFirst(parse: Parser, text: string, opens: seq<nat>, close: nat) returns (a: nat)
    requires close < |text| && FirstOpen(parse, text, opens, close).Some?
    ensures NoneWorks(parse, text, opens, a, close) && a < |opens| && opens[a] < close
    ensures AsObject(parse, text[opens[a]..close + 1]) == FirstOpen(parse, text, opens, close)
  {
    if AsObject(parse, text[opens[0]..close + 1]).Some? {
      a := 0;
    } else {
      var rest := opens[1..];
      var c := FirstOpenIsFirst(parse, text, rest, close);
      a := c + 1;
      forall b | 0 <= b < a ensures opens[b] < close && AsObject(parse, text[opens[b]..close + 1]).None? {
        assert b > 0 ==> opens[b] == rest[b - 1];
      }
    }
  }

  /** No part ends at this brace. */
  ghost predicate NoneEnds(parse: Parser, text: string, opens: seq<nat>, close: nat) {
    close < |text| && FirstOpen(parse, text, opens, close).None?
  }

  lemma {:induction false} LastCloseIsLast(parse: Parser, text: string, opens: seq<nat>, closes: seq<nat>)
    returns (k: nat)
    requires forall m | 0 <= m < |closes| :: closes[m] < |text|
    requires LastClose(parse, text, opens, closes).Some?
    ensures k < |closes| && FirstOpen(parse, text, opens, closes[k]) == LastClose(parse, text, opens, closes)
    ensures forall m | k < m < |closes| :: NoneEnds(parse, text, opens, closes[m])
  {
    var n := |closes| - 1;
    if FirstOpen(parse, text, opens, closes[n]).Some? {
      k := n;
    } else {
      k := LastCloseIsLast(parse, text, opens, closes[..n]);
    }
  }

  lemma FewAscend(text: string, c: char)
    ensures Ascending(LastFew(Positions(text, c)))
  {
    PositionsAreAll(text, c);
  }

  lemma NoneEndsNoPart(parse: Parser, text: string, opens: seq<nat>, close: nat, b: nat)
    requires NoneEnds(parse, text, opens, close) && Ascending(opens) && b < |opens| && opens[b] < close
    ensures AsObject(parse, text[opens[b]..close + 1]).None?
  {
    if AsObject(parse, text[opens[b]..close + 1]).Some? {
      FirstOpenFinds(parse, text, opens, close, opens[b]);
    }
  }

  /** Part `b`, `m` of the braces listed against the one the search settles on. */
  lemma OthersAreEarlierOrInside(
    parse: Parser, text: string, opens: seq<nat>, closes: seq<nat>, a: nat, k: nat, b: nat, m: nat)
    requires Ascending(opens) && Ascending(closes) && a < |opens| && k < |closes|
    requires b < |opens| && m < |closes| && opens[b] < closes[m] < |text|
    requires AsObject(parse, text[opens[b]..closes[m] + 1]).Some?
    requires forall m | k < m < |closes| :: NoneEnds(parse, text, opens, closes[m])
    requires NoneWorks(parse, text, opens, a, closes[k])
    ensures closes[m] < closes[k] || (closes[m] == closes[k] && opens[a] <= opens[b])
  {
    if m > k {
      NoneEndsNoPart(parse, text, opens, closes[m], b);
    } else if m == k {
      assert b >= a;
    }
  }

  lemma TriedIsPart(parse: Parser, text: string, i: nat, close: nat)
    requires InReach(text, '{', i) && InReach(text, '}', close) && i < close
    ensures Part(parse, text, i, close + 1) <==> AsObject(parse, text[i..close + 1]).Some?
  {
  }

  lemma PartEndsLater(parse: Parser, text: string, i: nat, j: nat)
    requires Part(parse, text, i, j)
    ensures i < j - 1 < |text| && text[i..j - 1 + 1] == text[i..j]
  {
    assert text[i] != text[j - 1];
  }

  /** These are the positions the search looks at. */
  ghost predicate Listed(text: string, c: char, few: seq<nat>) {
    Ascending(few) && forall i: nat :: i in few <==> InReach(text, c, i)
  }

  lemma FewAreListed(text: string, c: char)
    ensures Listed(text, c, LastFew(Positions(text, c)))
  {
    FewAscend(text, c);
    forall i: nat ensures i in LastFew(Positions(text, c)) <==> InReach(text, c, i) {
      LastFewAreInReach(text, c, i);
    }
  }

  lemma NoneIsChosenBefore(
    parse: Parser, text: string, opens: seq<nat>, closes: seq<nat>, a: nat, k: nat, i: nat, j: nat)
    requires Listed(text, '{', opens) && Listed(text, '}', closes) && a < |opens| && k < |closes|
    requires forall m | k < m < |closes| :: NoneEnds(parse, text, opens, closes[m])
    requires NoneWorks(parse, text, opens, a, closes[k]) && Part(parse, text, i, j)
    ensures j < closes[k] + 1 || (j == closes[k] + 1 && opens[a] <= i)
  {
    PartEndsLater(parse, text, i, j);
    var b :| 0 <= b < |opens| && opens[b] == i;
    var m :| 0 <= m < |closes| && closes[m] == j - 1;
    OthersAreEarlierOrInside(parse, text, opens, closes, a, k, b, m);
  }

  lemma SettledIsChosen(parse: Parser, text: string, opens: seq<nat>, closes: seq<nat>, a: nat, k: nat)
    requires Listed(text, '{', opens) && Listed(text, '}', closes) && a < |opens| && k < |closes|
    requires forall m | k < m < |closes| :: NoneEnds(parse, text, opens, closes[m])
    requires NoneWorks(parse, text, opens, a, closes[k]) && opens[a] < closes[k]
    requires AsObject(parse, text[opens[a]..closes[k] + 1]).Some?
    ensures Chosen(parse, text, opens[a], closes[k] + 1)
  {
    TriedIsPart(parse, text, opens[a], closes[k]);
    forall i: nat, j: nat | Part(parse, text, i, j) ensures j < closes[k] + 1 || (j == closes[k] + 1 && opens[a] <= i) {
      NoneIsChosenBefore(parse, text, opens, closes, a, k, i, j);
    }
  }

  lemma FoundIsChosen(parse: Parser, text: string, opens: seq<nat>, closes: seq<nat>) returns (i: nat, j: nat)
    requires Listed(text, '{', opens) && Listed(text, '}', closes)
    requires forall m | 0 <= m < |closes| :: closes[m] < |text|
    requires LastClose(parse, text, opens, closes).Some?
    ensures Chosen(parse, text, i, j) && AsObject(parse, text[i..j]) == LastClose(parse, text, opens, closes)
  {
    var k := LastCloseIsLast(parse, text, opens, closes);
    var a := FirstOpenIsFirst(parse, text, opens, closes[k]);
    SettledIsChosen(parse, text, opens, closes, a, k);
    i, j := opens[a], closes[k] + 1;
  }

  lemma ChosenIsFound(parse: Parser, text: string, opens: seq<nat>, closes: seq<nat>, i: nat, j: nat)
    requires Listed(text, '{', opens) && Listed(text, '}', closes)
    requires forall m | 0 <= m < |closes| :: closes[m] < |text|
    requires Chosen(parse, text, i, j)
    ensures LastClose(parse, text, opens, closes) == AsObject(parse, text[i..j])
  {
    PartEndsLater(parse, text, i, j);
    LastCloseFinds(parse, text, opens, closes, i, j - 1);
    var i2, j2 := FoundIsChosen(parse, text, opens, closes);
    assert Part(parse, text, i2, j2) && Part(parse, text, i, j);
  }

  /**
   * When the first pass finds nothing, the result is the parse of the part that ends at the last closing
   * brace and starts at the first opening brace for it, of all that parse as objects with both braces in
   * reach; and there is a result if and only if there is such a part.
   */
  lemma SecondPassChoosesTheLast(parse: Parser, text: string, v: Json)
    requires Feed(parse, START, text).best.None?
    ensures LastObject(parse, text) == Some(v)
      <==> exists i: nat, j: nat :: Chosen(parse, text, i, j) && AsObject(parse, text[i..j]) == Some(v)
  {
    var opens, closes := LastFew(Positions(text, '{')), LastFew(Positions(text, '}'));
    FewAreListed(text, '{');
    FewAreListed(text, '}');
    if LastObject(parse, text) == Some(v) {
      var i, j := FoundIsChosen(parse, text, opens, closes);
      assert Chosen(parse, text, i, j) && AsObject(parse, text[i..j]) == Some(v);
    }
    if i: nat, j: nat :| Chosen(parse, text, i, j) && AsObject(parse, text[i..j]) == Some(v) {
      ChosenIsFound(parse, text, opens, closes, i, j);
    }
  }

  // ------------------------------------------------------------------ the limit is exact

  function Repeat(c: char, n: nat): (r: string)
    ensures |r| == n && forall k | 0 <= k < n :: r[k] == c
  {
    seq(n, _ => c)
  }

  /** Where a character repeated at the end of a text stands. */
  lemma {:induction false} RepeatedPositions(head: string, c: char, n: nat)
    ensures var ps, m := Positions(head + Repeat(c, n), c), |Positions(head, c)|;
      |ps| == m + n && forall k | m <= k < |ps| :: ps[k] == |head| + k - m
  {
    var text := head + Repeat(c, n);
    if n == 0 {
      assert text == head;
    } else {
      RepeatedPositions(head, c, n - 1);
      assert text[..|text| - 1] == head + Repeat(c, n - 1);
    }
  }

  lemma {:induction false} OtherPositions(head: string, c: char, tail: string)
    requires forall k | 0 <= k < |tail| :: tail[k] != c
    ensures Positions(head + tail, c) == Positions(head, c)
  {
    if tail == [] {
      assert head + tail == head;
    } else {
      OtherPositions(head, c, tail[..|tail| - 1]);
      assert (head + tail)[..|head + tail| - 1] == head + tail[..|tail| - 1];
    }
  }

  /** After an unclosed quote the first pass finds nothing. */
  lemma QuotedFindsNothing(parse: Parser, s: string)
    requires forall k | 0 <= k < |s| :: s[k] != '\\' && s[k] != '\"'
    ensures Feed(parse, START, "\"" + s).best.None?
  {
    FeedOne(parse, START, '\"');
    FeedConcat(parse, START, "\"", s);
    InStringPasses(parse, Step(parse, START, '\"'), s);
  }

  /** No part between these braces parses as an object. */
  ghost predicate NonePart(parse: Parser, text: string, opens: seq<nat>, close: nat) {
    close < |text|
    && forall k | 0 <= k < |opens| && opens[k] < close :: AsObject(parse, text[opens[k]..close + 1]).None?
  }

  lemma {:induction false} FirstOpenMisses(parse: Parser, text: string, opens: seq<nat>, close: nat)
    requires NonePart(parse, text, opens, close)
    ensures FirstOpen(parse, text, opens, close).None?
  {
    if opens != [] && opens[0] < close {
      FirstOpenMisses(parse, text, opens[1..], close);
    }
  }

  lemma {:induction false} LastCloseMisses(parse: Parser, text: string, opens: seq<nat>, closes: seq<nat>)
    requires forall k | 0 <= k < |closes| :: closes[k] < |text| && NonePart(parse, text, opens, closes[k])
    ensures LastClose(parse, text, opens, closes).None?
  {
    if closes != [] {
      FirstOpenMisses(parse, text, opens, closes[|closes| - 1]);
      LastCloseMisses(parse, text, opens, closes[..|closes| - 1]);
    }
  }

  /** A parser that takes texts of one length for the empty object. */
  function OfLength(n: nat): Parser {
    text => if |text| == n then Some(Obj([])) else None
  }

  lemma OtherLengths(n: nat, text: string, opens: seq<nat>, close: nat)
    requires close < |text| && forall k | 0 <= k < |opens| :: close + 1 - opens[k] != n
    ensures NonePart(OfLength(n), text, opens, close)
  {
  }

  /** With one position more than the search looks at, the first is left out. */
  lemma FirstIsLeftOut(ps: seq<nat>, base: nat)
    requires |ps| > LIMIT && forall k | 0 <= k < |ps| :: ps[k] == k + base
    ensures forall k | 0 <= k < |LastFew(ps)| :: base < LastFew(ps)[k] < |ps| + base
  {
  }

  lemma StretchOccurs(text: string, i: nat, j: nat)
    requires i < j <= |text| && text[i] == '{' && text[j - 1] == '}'
    ensures Occurs(OfLength(j - i), text)
  {
    assert ReadsAs(OfLength(j - i), text, i, j, Obj([]));
    assert OccursIn(OfLength(j - i), text, Obj([]));
  }

  /** A quote, one opening brace and `n` closing ones: only the first pair would parse. */
  function ManyCloses(n: nat): string {
    "\"{" + Repeat('}', n)
  }

  lemma ManyClosesPositions(n: nat)
    ensures Positions(ManyCloses(n), '{') == [1]
    ensures var ps := Positions(ManyCloses(n), '}'); |ps| == n && forall k | 0 <= k < n :: ps[k] == k + 2
  {
    RepeatedPositions("\"{", '}', n);
    OtherPositions("\"{", '{', Repeat('}', n));
    assert "\"{"[..1] == "\"" && "\""[..0] == "";
    assert Positions("\"", '{') == [] && Positions("\"{", '{') == [1];
    assert Positions("\"", '}') == [] && Positions("\"{", '}') == [];
  }

  lemma ManyClosesMissed(n: nat)
    requires n > LIMIT
    ensures |Positions(ManyCloses(n), '{')| == 1 && |Positions(ManyCloses(n), '}')| == n
    ensures Occurs(OfLength(2), ManyCloses(n)) && LastObject(OfLength(2), ManyCloses(n)).None?
  {
    var text := ManyCloses(n);
    ManyClosesPositions(n);
    FirstIsLeftOut(Positions(text, '}'), 2);
    LateClosesMissed(text, LastFew(Positions(text, '}')));
    assert text == "\"" + ("{" + Repeat('}', n));
    QuotedFindsNothing(OfLength(2), "{" + Repeat('}', n));
    assert LastFew([1]) == [1];
    StretchOccurs(text, 1, 3);
  }

  lemma LateClosesMissed(text: string, closes: seq<nat>)
    requires forall k | 0 <= k < |closes| :: 2 < closes[k] < |text|
    ensures LastClose(OfLength(2), text, [1], closes).None?
  {
    forall k | 0 <= k < |closes| ensures NonePart(OfLength(2), text, [1], closes[k]) {
      OtherLengths(2, text, [1], closes[k]);
    }
    LastCloseMisses(OfLength(2), text, [1], closes);
  }

  /** A quote, `n` opening braces and a closing one: only the whole stretch would parse. */
  function ManyOpens(n: nat): string {
    "\"" + Repeat('{', n) + "}"
  }

  lemma ManyOpensPositions(n: nat)
    ensures var ps := Positions(ManyOpens(n), '{'); |ps| == n && forall k | 0 <= k < n :: ps[k] == k + 1
    ensures Positions(ManyOpens(n), '}') == [n + 1]
  {
    var body := "\"" + Repeat('{', n);
    RepeatedPositions("\"", '{', n);
    OtherPositions(body, '{', "}");
    OtherPositions("\"", '}', Repeat('{', n));
    assert "\""[..0] == "";
    assert Positions("\"", '{') == [] && Positions("\"", '}') == [];
    assert ManyOpens(n)[..n + 1] == body;
  }

  lemma ManyOpensMissed(n: nat)
    requires n > LIMIT
    ensures LastObject(OfLength(n + 1), ManyOpens(n)).None?
  {
    var text, parse := ManyOpens(n), OfLength(n + 1);
    ManyOpensPositions(n);
    var opens := Positions(text, '{');
    FirstIsLeftOut(opens, 1);
    LateOpensMissed(text, LastFew(opens), n);
    ManyOpensQuoted(parse, n);
    BothPassesMiss(parse, text);
  }

  lemma ManyOpensQuoted(parse: Parser, n: nat)
    requires n > 0
    ensures Feed(parse, START, ManyOpens(n)).best.None?
  {
    ManyOpensText(n);
    QuotedFindsNothing(parse, Repeat('{', n) + "}");
  }

  lemma BothPassesMiss(parse: Parser, text: string)
    requires Feed(parse, START, text).best.None?
    requires LastClose(parse, text, LastFew(Positions(text, '{')), LastFew(Positions(text, '}'))).None?
    ensures LastObject(parse, text).None?
  {
  }

  lemma ManyOpensText(n: nat)
    requires n > 0
    ensures ManyOpens(n) == "\"" + (Repeat('{', n) + "}")
    ensures Occurs(OfLength(n + 1), ManyOpens(n))
  {
    StretchOccurs(ManyOpens(n), 1, n + 2);
  }

  lemma LateOpensMissed(text: string, opens: seq<nat>, n: nat)
    requires n + 1 < |text| && forall k | 0 <= k < |opens| :: opens[k] > 1
    ensures LastClose(OfLength(n + 1), text, opens, [n + 1]).None?
  {
    OtherLengths(n + 1, text, opens, n + 1);
    LastCloseMisses(OfLength(n + 1), text, opens, [n + 1]);
  }

  /** Whatever the parser, an object that occurs in a text with so many braces of each kind at most is found. */
  ghost predicate AlwaysFinds(opens: nat, closes: nat) {
    forall parse: Parser, text: string
      | |Positions(text, '{')| <= opens && |Positions(text, '}')| <= closes && Occurs(parse, text) ::
      LastObject(parse, text).Some?
  }

  /** The limit of the second pass is exact, in both kinds of brace. */
  lemma FindsIffFewBraces(opens: nat, closes: nat)
    requires opens > 0 && closes > 0
    ensures AlwaysFinds(opens, closes) <==> opens <= LIMIT && closes <= LIMIT
  {
    if opens <= LIMIT && closes <= LIMIT {
      forall parse: Parser, text: string
        | |Positions(text, '{')| <= opens && |Positions(text, '}')| <= closes && Occurs(parse, text)
        ensures LastObject(parse, text).Some?
      {
        FewBracesAreSearched(parse, text);
      }
    } else if closes > LIMIT {
      ManyClosesMissed(closes);
    } else {
      ManyOpensMissed(opens);
      ManyOpensPositions(opens);
      ManyOpensText(opens);
    }
  }
}
