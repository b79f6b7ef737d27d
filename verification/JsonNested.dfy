/** `lastJsonObject` on texts of prose, quotations and braced stretches, however these are laid out and nested. */
module JsonNested {
  import opened Wrappers
  import opened Json
  import opened JsonExtract

  /** `inner` is what stands between the quotes, with its escapes. */
  datatype Nest = Plain(text: string) | Quoted(inner: string) | Braces(body: seq<Nest>)

  function NestText(n: Nest): string
    decreases n, 1
  {
    match n
    case Plain(text) => text
    case Quoted(inner) => "\"" + inner + "\""
    case Braces(body) => "{" + NestsText(body) + "}"
  }

  function NestsText(ns: seq<Nest>): string
    decreases ns, 0
  {
    if ns == [] then "" else NestsText(ns[..|ns| - 1]) + NestText(ns[|ns| - 1])
  }

  /** Every quote in it is escaped, and no escape is left open at its end. */
  predicate Closed(inner: string) {
    || inner == []
    || (inner[0] == '\\' && |inner| >= 2 && Closed(inner[2..]))
    || (inner[0] != '\\' && inner[0] != '\"' && Closed(inner[1..]))
  }

  /** Inside braces: plain text has neither quote nor brace. */
  ghost predicate Inside(n: Nest) {
    match n
    case Plain(text) => NoMarks(text)
    case Quoted(inner) => Closed(inner)
    case Braces(body) => forall k | 0 <= k < |body| :: Inside(body[k])
  }

  /** Outside braces: plain text may also hold closing braces. */
  ghost predicate Outside(n: Nest) {
    if n.Plain? then NoOpening(n.text) else Inside(n)
  }

  ghost predicate AllInside(ns: seq<Nest>) {
    forall k | 0 <= k < |ns| :: Inside(ns[k])
  }

  // ------------------------------------------------------------------ what passes

  lemma NothingPasses(parse: Parser, st: Scan)
    ensures Feed(parse, st, "") == Passed(st, "")
  {
    assert st.span.Some? ==> st.span.value + "" == st.span.value;
  }

  lemma {:induction false} ClosedPasses(parse: Parser, st: Scan, inner: string)
    requires st.inStr && !st.esc && Closed(inner)
    ensures Feed(parse, st, inner) == Passed(st, inner)
    decreases |inner|
  {
    if inner == [] {
      NothingPasses(parse, st);
    } else if inner[0] == '\\' {
      var a, b := [inner[0]], [inner[1]];
      var mid := Step(parse, st, inner[0]);
      FeedOne(parse, st, inner[0]);
      FeedOne(parse, mid, inner[1]);
      FeedConcat(parse, st, a, b);
      PassedTwice(st, a, b);
      ClosedPasses(parse, Passed(st, a + b), inner[2..]);
      BothPass(parse, st, a + b, inner[2..]);
      assert inner == a + b + inner[2..];
    } else {
      FeedOne(parse, st, inner[0]);
      ClosedPasses(parse, Passed(st, [inner[0]]), inner[1..]);
      BothPass(parse, st, [inner[0]], inner[1..]);
      assert inner == [inner[0]] + inner[1..];
    }
  }

  lemma QuotedPasses(parse: Parser, st: Scan, inner: string)
    requires !st.inStr && !st.esc && Closed(inner)
    ensures Feed(parse, st, "\"" + inner + "\"") == Passed(st, "\"" + inner + "\"")
  {
    var inside := Step(parse, st, '\"');
    FeedOne(parse, st, '\"');
    ClosedPasses(parse, inside, inner);
    FeedOne(parse, Passed(inside, inner), '\"');
    FeedConcat(parse, inside, inner, "\"");
    FeedConcat(parse, st, "\"", inner + "\"");
    assert "\"" + inner + "\"" == "\"" + (inner + "\"");
    PassedTwice(st, "\"", inner);
    PassedTwice(st, "\"" + inner, "\"");
  }

  lemma {:induction false} NestPasses(parse: Parser, st: Scan, n: Nest)
    requires Inside(n) && !st.inStr && !st.esc && st.depth > 0
    ensures Feed(parse, st, NestText(n)) == Passed(st, NestText(n))
    decreases n, 1
  {
    match n
    case Plain(text) => PlainPasses(parse, st, text);
    case Quoted(inner) => QuotedPasses(parse, st, inner);
    case Braces(body) =>
      NestsPass(parse, Step(parse, st, '{'), body);
      Braced(parse, st, NestsText(body));
      BracesPass(parse, st, NestsText(body));
  }

  lemma {:induction false} NestsPass(parse: Parser, st: Scan, ns: seq<Nest>)
    requires AllInside(ns) && !st.inStr && !st.esc && st.depth > 0
    ensures Feed(parse, st, NestsText(ns)) == Passed(st, NestsText(ns))
    decreases ns, 0
  {
    if ns == [] {
      NothingPasses(parse, st);
    } else {
      var before, last := ns[..|ns| - 1], ns[|ns| - 1];
      NestsPass(parse, st, before);
      NestPasses(parse, Passed(st, NestsText(before)), last);
      BothPass(parse, st, NestsText(before), NestText(last));
    }
  }

  // ------------------------------------------------------------------ what is found

  /** What the parser makes of the last outermost braced stretch that it reads as an object. */
  function LastRead(parse: Parser, ns: seq<Nest>): Option<Json> {
    if ns == [] then None
    else
      var last := ns[|ns| - 1];
      var found := if last.Braces? then AsObject(parse, NestText(last)) else None;
      if found.Some? then found else LastRead(parse, ns[..|ns| - 1])
  }

  lemma OutermostIsTried(parse: Parser, st: Scan, n: Nest)
    requires Outside(n) && st.depth == 0 && st.span.None? && !st.inStr && !st.esc
    ensures
      (var found := if n.Braces? then AsObject(parse, NestText(n)) else None;
        Feed(parse, st, NestText(n)) == if found.Some? then st.(best := found) else st)
  {
    match n
    case Plain(text) => ProseChangesNothing(parse, st, text);
    case Quoted(inner) => QuotedPasses(parse, st, inner);
    case Braces(body) =>
      NestsPass(parse, Step(parse, st, '{'), body);
      Braced(parse, st, NestsText(body));
  }

  /**
   * For any text of prose, quotations and braced stretches, with any layout, any quotations in them and any
   * braces in those, and for any parser: the first pass finds the last outermost braced stretch that the parser
   * reads as an object, and nothing if it reads none; and what it finds is the result.
   */
  lemma {:induction false} LastBracedObjectWins(parse: Parser, ns: seq<Nest>)
    requires forall k | 0 <= k < |ns| :: Outside(ns[k])
    ensures Feed(parse, START, NestsText(ns)) == START.(best := LastRead(parse, ns))
    ensures LastRead(parse, ns).Some? ==> LastObject(parse, NestsText(ns)) == LastRead(parse, ns)
  {
    if ns != [] {
      var before, last := ns[..|ns| - 1], ns[|ns| - 1];
      LastBracedObjectWins(parse, before);
      FeedConcat(parse, START, NestsText(before), NestText(last));
      OutermostIsTried(parse, START.(best := LastRead(parse, before)), last);
    }
  }

  /** The later of two stretches that both read as objects wins, however it is laid out, and whatever is quoted after it. */
  lemma SupersededIsNotReturned(parse: Parser, ns: seq<Nest>, k: nat, v: Json)
    requires forall i | 0 <= i < |ns| :: Outside(ns[i])
    requires k < |ns| && ns[k].Braces? && AsObject(parse, NestText(ns[k])) == Some(v)
    requires forall i | k < i < |ns| && ns[i].Braces? :: AsObject(parse, NestText(ns[i])).None?
    ensures LastObject(parse, NestsText(ns)) == Some(v)
  {
    LastBracedObjectWins(parse, ns);
    LastReadIs(parse, ns, k);
  }

  lemma {:induction false} LastReadIs(parse: Parser, ns: seq<Nest>, k: nat)
    requires k < |ns| && ns[k].Braces? && AsObject(parse, NestText(ns[k])).Some?
    requires forall i | k < i < |ns| && ns[i].Braces? :: AsObject(parse, NestText(ns[i])).None?
    ensures LastRead(parse, ns) == AsObject(parse, NestText(ns[k]))
  {
    if k < |ns| - 1 {
      LastReadIs(parse, ns[..|ns| - 1], k);
    }
  }
}
