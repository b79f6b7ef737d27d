/** Newline-delimited frames: the daemon's decoder, the gateway's decoder, and cuts of a byte stream. */
module Ndjson {
  import opened Wrappers
  import opened Json

  type Byte = b: int | 0 <= b < 256

  const LF: Byte := 10
  const CR: Byte := 13
  const MAX_FRAME_BYTES: nat := 4 * 1024 * 1024

  /** A JSON parser on the bytes of one line, absent on malformed text. */
  type Parser = seq<Byte> -> Option<Json>

  // ------------------------------------------------------------------ the stream as lines

  function FindLf(s: seq<Byte>, i: nat): (r: nat)
    requires i <= |s|
    ensures i <= r <= |s| && (r < |s| ==> s[r] == LF)
    ensures forall k | i <= k < r :: s[k] != LF
    decreases |s| - i
  {
    if i == |s| || s[i] == LF then i else FindLf(s, i + 1)
  }

  /** The position of the first LF, the length when there is none. */
  function FirstLf(s: seq<Byte>): (r: nat)
    ensures r <= |s| && (r < |s| ==> s[r] == LF)
    ensures forall k | 0 <= k < r :: s[k] != LF
  {
    FindLf(s, 0)
  }

  /** The complete lines, without their LF. */
  function Lines(s: seq<Byte>): seq<seq<Byte>> {
    var p := FirstLf(s);
    if p == |s| then [] else [s[..p]] + Lines(s[p + 1..])
  }

  /** What follows the last LF. */
  function Tail(s: seq<Byte>): (r: seq<Byte>)
    ensures |r| <= |s|
  {
    var p := FirstLf(s);
    if p == |s| then s else Tail(s[p + 1..])
  }

  lemma {:induction false} TailIsAfterLastLf(s: seq<Byte>)
    ensures
      (var r := Tail(s);
        && r == s[|s| - |r|..]
        && (forall k | 0 <= k < |r| :: r[k] != LF)
        && (|r| < |s| ==> s[|s| - |r| - 1] == LF))
    decreases |s|
  {
    var p := FirstLf(s);
    if p < |s| {
      TailIsAfterLastLf(s[p + 1..]);
    }
  }

  function Join(chunks: seq<seq<Byte>>): seq<Byte> {
    if chunks == [] then [] else Join(chunks[..|chunks| - 1]) + chunks[|chunks| - 1]
  }

  // ------------------------------------------------------------------ what one line yields

  datatype Outcome = Frame(value: Json) | TooLarge(bytes: nat) | Invalid

  /** What a decoder makes of one raw line; absent when the line is blank. */
  type LineReader = seq<Byte> -> Option<Outcome>

  function Outcomes(read: LineReader, lines: seq<seq<Byte>>): seq<Outcome> {
    if lines == [] then []
    else
      var rest := Outcomes(read, lines[1..]);
      match read(lines[0]) case Some(o) => [o] + rest case None => rest
  }

  function Parsed(parse: Parser, line: seq<Byte>): Outcome {
    match parse(line) case Some(v) => Frame(v) case None => Invalid
  }

  function StripCr(line: seq<Byte>): seq<Byte> {
    if line != [] && line[|line| - 1] == CR then line[..|line| - 1] else line
  }

  /** ASCII whitespace only. */
  predicate Blank(line: seq<Byte>) {
    forall k | 0 <= k < |line| :: line[k] in {9, 10, 12, 13, 32}
  }

  function RustLine(max: nat, parse: Parser, raw: seq<Byte>): Option<Outcome> {
    var line := StripCr(raw);
    if Blank(line) then None
    else if |line| > max then Some(TooLarge(|line|))
    else Some(Parsed(parse, line))
  }

  function RustReader(max: nat, parse: Parser): LineReader {
    raw => RustLine(max, parse, raw)
  }

  /** `blank` is `trim().length === 0` on the decoded line. */
  function TsLine(max: nat, blank: seq<Byte> -> bool, parse: Parser, raw: seq<Byte>): Option<Outcome> {
    if |raw| > max then Some(TooLarge(|raw|))
    else if blank(raw) then None
    else Some(Parsed(parse, raw))
  }

  function TsReader(max: nat, blank: seq<Byte> -> bool, parse: Parser): LineReader {
    raw => TsLine(max, blank, parse, raw)
  }

  // ------------------------------------------------------------------ all frames or the first fault

  datatype Drained = Frames(frames: seq<Json>) | Fault(outcome: Outcome)

  function Prepend(values: seq<Json>, d: Drained): Drained {
    if d.Frames? then Frames(values + d.frames) else d
  }

  function Drain(outs: seq<Outcome>): Drained {
    if outs == [] then Frames([])
    else if outs[0].Frame? then Prepend([outs[0].value], Drain(outs[1..]))
    else Fault(outs[0])
  }

  /** The outcomes behind the first fault. */
  function AfterFault(outs: seq<Outcome>): seq<Outcome> {
    if outs == [] then [] else if outs[0].Frame? then AfterFault(outs[1..]) else outs[1..]
  }

  function Wrapped(values: seq<Json>): seq<Outcome> {
    if values == [] then [] else [Frame(values[0])] + Wrapped(values[1..])
  }

  lemma {:induction false} DrainIsFramesOnly(outs: seq<Outcome>, values: seq<Json>)
    ensures Drain(outs) == Frames(values) <==> outs == Wrapped(values)
  {
    if outs != [] && values != [] {
      DrainIsFramesOnly(outs[1..], values[1..]);
      assert outs == [outs[0]] + outs[1..] && values == [values[0]] + values[1..];
    }
  }

  function AsSeq<T>(o: Option<T>): seq<T> {
    match o case Some(x) => [x] case None => []
  }

  /** What a whole stream yields, line by line. */
  function Yield(read: LineReader, s: seq<Byte>): seq<Outcome> {
    var p := FirstLf(s);
    if p == |s| then [] else AsSeq(read(s[..p])) + Yield(read, s[p + 1..])
  }

  /** Taking the first line off a stream. */
  lemma YieldStep(read: LineReader, s: seq<Byte>, line: seq<Byte>, rest: seq<Byte>)
    requires FirstLf(s) < |s| && line == s[..FirstLf(s)] && rest == s[FirstLf(s) + 1..]
    ensures Yield(read, s) == AsSeq(read(line)) + Yield(read, rest)
    ensures Lines(s) == [line] + Lines(rest) && Tail(s) == Tail(rest)
  {
  }

  lemma OutcomesStep(read: LineReader, line: seq<Byte>, rest: seq<seq<Byte>>)
    ensures Outcomes(read, [line] + rest) == AsSeq(read(line)) + Outcomes(read, rest)
  {
    var all := [line] + rest;
    assert all[0] == line && all[1..] == rest;
  }

  /** The same by splitting into lines first. */
  lemma {:induction false} YieldIsByLine(read: LineReader, s: seq<Byte>)
    ensures Yield(read, s) == Outcomes(read, Lines(s))
    decreases |s|
  {
    if FirstLf(s) < |s| {
      var line, rest := s[..FirstLf(s)], s[FirstLf(s) + 1..];
      YieldIsByLine(read, rest);
      YieldStep(read, s, line, rest);
      OutcomesStep(read, line, Lines(rest));
    }
  }

  // ------------------------------------------------------------------ the daemon's decoder

  class FrameDecoder {
    var buf: seq<Byte>
    const max: nat

    constructor (max: nat)
      ensures buf == [] && this.max == max
    {
      buf, this.max := [], max;
    }

    method Push(chunk: seq<Byte>) returns (ok: bool)
      modifies this`buf
      ensures buf == old(buf) + chunk
      ensures ok <==> |Tail(buf)| <= max
    {
      buf := buf + chunk;
      var pending := |Tail(buf)|;
      ok := pending <= max;
    }

    /** The first outcome of the buffered lines is taken off; the unfinished line stays. */
    method NextFrame(parse: Parser) returns (r: Option<Outcome>)
      modifies this`buf
      ensures Tail(buf) == Tail(old(buf))
      ensures r.None? ==> buf == Tail(old(buf))
      ensures Yield(RustReader(max, parse), old(buf)) == AsSeq(r) + Yield(RustReader(max, parse), buf)
      ensures r.Some? ==> |buf| < |old(buf)|
      ensures r.None? ==> Yield(RustReader(max, parse), buf) == []
    {
      ghost var read := RustReader(max, parse);
      ghost var outs := Yield(read, buf);
      while true
        invariant Tail(buf) == Tail(old(buf)) && |buf| <= |old(buf)|
        invariant Yield(read, buf) == outs
        decreases |buf|
      {
        var pos := FirstLf(buf);
        if pos == |buf| {
          return None;
        }
        var raw := buf[..pos];
        YieldStep(read, buf, raw, buf[pos + 1..]);
        buf := buf[pos + 1..];
        assert read(raw) == RustLine(max, parse, raw);
        var line := StripCr(raw);
        if Blank(line) {
          continue;
        }
        if |line| > max {
          return Some(TooLarge(|line|));
        }
        return Some(Parsed(parse, line));
      }
    }

    /** All buffered frames, or the first fault; frames before a fault are lost, lines after it stay. */
    method DrainFrames(parse: Parser) returns (r: Drained)
      modifies this`buf
      ensures Tail(buf) == Tail(old(buf))
      ensures
        (var outs := Yield(RustReader(max, parse), old(buf));
          && r == Drain(outs)
          && Yield(RustReader(max, parse), buf) == AfterFault(outs))
    {
      ghost var read := RustReader(max, parse);
      ghost var outs := Yield(read, buf);
      var out: seq<Json> := [];
      while true
        invariant Tail(buf) == Tail(old(buf))
        invariant Drain(outs) == Prepend(out, Drain(Yield(read, buf)))
        invariant AfterFault(outs) == AfterFault(Yield(read, buf))
        decreases |buf|
      {
        var next := NextFrame(parse);
        DrainFirst(out, next, Yield(read, buf));
        if next.None? {
          return Frames(out);
        }
        if !next.value.Frame? {
          return Fault(next.value);
        }
        out := out + [next.value.value];
      }
    }
  }

  /** How the first outcome moves the frames collected so far. */
  lemma DrainFirst(values: seq<Json>, o: Option<Outcome>, rest: seq<Outcome>)
    ensures
      (var outs := AsSeq(o) + rest;
        if o.None? then outs == rest
        else if o.value.Frame? then
          && Prepend(values, Drain(outs)) == Prepend(values + [o.value.value], Drain(rest))
          && AfterFault(outs) == AfterFault(rest)
        else Prepend(values, Drain(outs)) == Fault(o.value) && AfterFault(outs) == rest)
  {
    var outs := AsSeq(o) + rest;
    if o.Some? {
      assert outs[0] == o.value && outs[1..] == rest;
      if o.value.Frame? && Drain(rest).Frames? {
        assert values + ([o.value.value] + Drain(rest).frames) == values + [o.value.value] + Drain(rest).frames;
      }
    }
  }

  // ------------------------------------------------------------------ the daemon's connection loop

  /**
   * One connection: every chunk read is pushed and its lines are handled one by one, a malformed or
   * oversized line being answered and skipped; a refused push ends the connection. `served` counts the
   * chunks handled; the stream ends with the last chunk.
   */
  method HandleConnection(max: nat, parse: Parser, chunks: seq<seq<Byte>>)
    returns (outcomes: seq<Outcome>, served: nat)
    ensures served <= |chunks| && SafeCut(max, chunks[..served])
    ensures served < |chunks| ==> !SafeCut(max, chunks[..served + 1])
    ensures outcomes == Yield(RustReader(max, parse), Join(chunks[..served]))
  {
    ghost var read := RustReader(max, parse);
    var decoder := new FrameDecoder(max);
    outcomes, served := [], 0;
    while served < |chunks|
      invariant served <= |chunks| && SafeCut(max, chunks[..served])
      invariant fresh(decoder) && decoder.max == max
      invariant decoder.buf == Tail(Join(chunks[..served])) && FirstLf(decoder.buf) == |decoder.buf|
      invariant outcomes == Yield(read, Join(chunks[..served]))
    {
      OneMoreChunk(max, read, chunks, served);
      var ok := decoder.Push(chunks[served]);
      if !ok {
        return;
      }
      outcomes := ServeLines(decoder, parse, outcomes);
      served := served + 1;
    }
  }

  /** What one more chunk adds to the unfinished line before it. */
  lemma OneMoreChunk(max: nat, read: LineReader, chunks: seq<seq<Byte>>, n: nat)
    requires n < |chunks| && SafeCut(max, chunks[..n])
    ensures
      (var before, after := Join(chunks[..n]), Join(chunks[..n + 1]);
        var buffered := Tail(before) + chunks[n];
        && Tail(after) == Tail(buffered)
        && Yield(read, after) == Yield(read, before) + Yield(read, buffered)
        && (SafeCut(max, chunks[..n + 1]) <==> |Tail(buffered)| <= max))
  {
    var before := Join(chunks[..n]);
    assert chunks[..n + 1][..n] == chunks[..n];
    assert Join(chunks[..n + 1]) == before + chunks[n];
    AppendTail(before, chunks[n]);
    AppendYield(read, before, chunks[n]);
    SafeCutStep(max, chunks, n);
  }

  method ServeLines(decoder: FrameDecoder, parse: Parser, before: seq<Outcome>) returns (r: seq<Outcome>)
    modifies decoder`buf
    ensures decoder.buf == Tail(old(decoder.buf)) && FirstLf(decoder.buf) == |decoder.buf|
    ensures r == before + Yield(RustReader(decoder.max, parse), old(decoder.buf))
  {
    ghost var read := RustReader(decoder.max, parse);
    ghost var start := decoder.buf;
    r := before;
    while true
      invariant Tail(decoder.buf) == Tail(start)
      invariant r + Yield(read, decoder.buf) == before + Yield(read, start)
      decreases |decoder.buf|
    {
      var next := decoder.NextFrame(parse);
      if next.None? {
        return;
      }
      r := r + [next.value];
    }
  }

  /** No push is refused: at every cut point the unfinished line is at most `max` bytes. */
  ghost predicate SafeCut(max: nat, chunks: seq<seq<Byte>>) {
    forall k | 0 <= k <= |chunks| :: |Tail(Join(chunks[..k]))| <= max
  }

  lemma SafeCutStep(max: nat, chunks: seq<seq<Byte>>, n: nat)
    requires n < |chunks| && SafeCut(max, chunks[..n])
    ensures SafeCut(max, chunks[..n + 1]) <==> |Tail(Join(chunks[..n + 1]))| <= max
  {
    var more := chunks[..n + 1];
    forall k | 0 <= k <= n ensures more[..k] == chunks[..n][..k] {}
    assert more[..n + 1] == more;
  }

  // ------------------------------------------------------------------ appending to a stream

  lemma AppendLine(a: seq<Byte>, b: seq<Byte>)
    requires FirstLf(a) < |a|
    ensures
      (var p := FirstLf(a);
        && FirstLf(a + b) == p
        && (a + b)[..p] == a[..p]
        && (a + b)[p + 1..] == a[p + 1..] + b)
  {
    FirstLfIs(a + b, FirstLf(a));
  }

  lemma {:induction false} AppendTail(a: seq<Byte>, b: seq<Byte>)
    ensures Tail(a + b) == Tail(Tail(a) + b)
    decreases |a|
  {
    if FirstLf(a) < |a| {
      AppendLine(a, b);
      var rest := a[FirstLf(a) + 1..];
      AppendTail(rest, b);
      assert Tail(a + b) == Tail(rest + b);
      assert Tail(a) == Tail(rest);
    }
  }

  lemma Regroup(head: seq<Outcome>, x: seq<Outcome>, y: seq<Outcome>)
    ensures head + (x + y) == (head + x) + y
  {
  }

  lemma {:induction false} AppendYield(read: LineReader, a: seq<Byte>, b: seq<Byte>)
    ensures Yield(read, a + b) == Yield(read, a) + Yield(read, Tail(a) + b)
    decreases |a|
  {
    if FirstLf(a) < |a| {
      var line, rest := a[..FirstLf(a)], a[FirstLf(a) + 1..];
      AppendLine(a, b);
      AppendYield(read, rest, b);
      YieldStep(read, a, line, rest);
      YieldStep(read, a + b, line, rest + b);
      Regroup(AsSeq(read(line)), Yield(read, rest), Yield(read, Tail(rest) + b));
    } else {
      assert Tail(a) == a && Yield(read, a) == [];
    }
  }

  lemma FirstLfIs(s: seq<Byte>, p: nat)
    requires p < |s| && s[p] == LF && forall k | 0 <= k < p :: s[k] != LF
    ensures FirstLf(s) == p
  {
  }

  lemma NoLfIsTail(s: seq<Byte>)
    requires forall k | 0 <= k < |s| :: s[k] != LF
    ensures FirstLf(s) == |s| && Lines(s) == [] && Tail(s) == s
  {
    assert FirstLf(s) == |s|;
  }

  // ------------------------------------------------------------------ the gateway's decoder

  class NdjsonDecoder {
    var buffer: seq<Byte>
    const max: nat

    constructor (max: nat)
      ensures buffer == [] && this.max == max
    {
      buffer, this.max := [], max;
    }

    /** A throw leaves every frame of this push undelivered and its lines in the buffer. */
    method Push(blank: seq<Byte> -> bool, parse: Parser, chunk: seq<Byte>) returns (r: Drained)
      modifies this`buffer
      ensures (r, buffer) == TsPush(max, blank, parse, old(buffer) + chunk)
    {
      buffer := buffer + chunk;
      var frames, start, fault := ReadLines(max, blank, parse, buffer);
      if fault.Some? {
        return Fault(fault.value);
      }
      buffer := buffer[start..];
      if |buffer| > max {
        return Fault(TooLarge(|buffer|));
      }
      return Frames(frames);
    }
  }

  /** The loop of `push`: the frames of the complete lines and where the unfinished one starts, or a throw. */
  method ReadLines(max: nat, blank: seq<Byte> -> bool, parse: Parser, data: seq<Byte>)
    returns (frames: seq<Json>, start: nat, fault: Option<Outcome>)
    ensures start <= |data|
    ensures fault.Some? ==> TsPush(max, blank, parse, data) == (Fault(fault.value), data)
    ensures fault.None? ==>
      TsPush(max, blank, parse, data)
        == (if |data[start..]| > max then Fault(TooLarge(|data[start..]|)) else Frames(frames), data[start..])
  {
    frames, start, fault := [], 0, None;
    NoProgress(TsReader(max, blank, parse), data);
    while true
      invariant fault.None? && start <= |data|
      invariant Progress(TsReader(max, blank, parse), data, start, frames)
      decreases |data| - start
    {
      var newline := start + FirstLf(data[start..]);
      TsStep(max, blank, parse, data, start, newline, frames);
      if newline == |data| {
        return;
      }
      var line := data[start..newline];
      if |line| > max {
        fault := Some(TooLarge(|line|));
        return;
      }
      start := newline + 1;
      if blank(line) {
        continue;
      }
      var frame := Parsed(parse, line);
      if frame.Invalid? {
        fault := Some(frame);
        return;
      }
      frames := frames + [frame.value];
    }
  }

  /** One turn of the loop: what each branch of it leads to. */
  lemma TsStep(
    max: nat, blank: seq<Byte> -> bool, parse: Parser, data: seq<Byte>, start: nat, q: nat, frames: seq<Json>)
    requires Progress(TsReader(max, blank, parse), data, start, frames) && q == start + FirstLf(data[start..])
    ensures start <= q <= |data|
    ensures q == |data| ==>
      TsPush(max, blank, parse, data)
        == (if |data[start..]| > max then Fault(TooLarge(|data[start..]|)) else Frames(frames), data[start..])
    ensures q < |data| ==>
      (var line := data[start..q];
        if |line| > max then TsPush(max, blank, parse, data) == (Fault(TooLarge(|line|)), data)
        else if blank(line) then Progress(TsReader(max, blank, parse), data, q + 1, frames)
        else if parse(line).None? then TsPush(max, blank, parse, data) == (Fault(Invalid), data)
        else Progress(TsReader(max, blank, parse), data, q + 1, frames + [parse(line).value]))
  {
    var read := TsReader(max, blank, parse);
    ProgressStep(read, data, start, q, frames);
    if q < |data| {
      assert read(data[start..q]) == TsLine(max, blank, parse, data[start..q]);
    }
  }

  lemma NoProgress(read: LineReader, data: seq<Byte>)
    ensures Progress(read, data, 0, [])
  {
    assert data[0..] == data;
  }

  /** What these frames and then the rest of the data make. */
  ghost function Continued(read: LineReader, frames: seq<Json>, rest: seq<Byte>): (Drained, seq<Byte>) {
    (Prepend(frames, Drain(Yield(read, rest))), Tail(rest))
  }

  /** The lines before `start` have given these frames. */
  ghost predicate Progress(read: LineReader, data: seq<Byte>, start: nat, frames: seq<Json>) {
    start <= |data| && Continued(read, frames, data[start..]) == Continued(read, [], data)
  }

  lemma FromTheStart(read: LineReader, data: seq<Byte>)
    ensures Continued(read, [], data) == (Drain(Yield(read, data)), Tail(data))
  {
    var d := Drain(Yield(read, data));
    assert d.Frames? ==> [] + d.frames == d.frames;
  }

  lemma ProgressStep(read: LineReader, data: seq<Byte>, start: nat, q: nat, frames: seq<Json>)
    requires Progress(read, data, start, frames) && q == start + FirstLf(data[start..])
    ensures q == |data| ==> Tail(data) == data[start..] && Drain(Yield(read, data)) == Frames(frames)
    ensures q < |data| ==>
      (var o := read(data[start..q]);
        if o.None? then Progress(read, data, q + 1, frames)
        else if o.value.Frame? then Progress(read, data, q + 1, frames + [o.value.value])
        else Drain(Yield(read, data)) == Fault(o.value))
  {
    LineAt(read, data, start, q);
    FromTheStart(read, data);
    if q < |data| {
      DrainFirst(frames, read(data[start..q]), Yield(read, data[q + 1..]));
    } else {
      assert frames + [] == frames;
    }
  }

  lemma LineAt(read: LineReader, data: seq<Byte>, start: nat, q: nat)
    requires start <= |data| && q == start + FirstLf(data[start..])
    ensures q == |data| ==> Yield(read, data[start..]) == [] && Tail(data[start..]) == data[start..]
    ensures q < |data| ==>
      && Yield(read, data[start..]) == AsSeq(read(data[start..q])) + Yield(read, data[q + 1..])
      && Tail(data[start..]) == Tail(data[q + 1..])
  {
    var left := data[start..];
    if q < |data| {
      assert left[..q - start] == data[start..q];
      assert left[q - start + 1..] == data[q + 1..];
      assert Tail(left) == Tail(left[q - start + 1..]);
    }
  }

  /** What a push makes of the bytes buffered so far, the new chunk included: its result and the new buffer. */
  function TsPush(max: nat, blank: seq<Byte> -> bool, parse: Parser, data: seq<Byte>): (Drained, seq<Byte>) {
    var drained := Drain(Yield(TsReader(max, blank, parse), data));
    if drained.Fault? then (drained, data)
    else if |Tail(data)| > max then (Fault(TooLarge(|Tail(data)|)), Tail(data))
    else (drained, Tail(data))
  }

  /** Pushing chunk after chunk: the frames delivered and the bytes left buffered, absent after a throw. */
  function TsRun(max: nat, blank: seq<Byte> -> bool, parse: Parser, chunks: seq<seq<Byte>>)
    : Option<(seq<Json>, seq<Byte>)>
  {
    if chunks == [] then Some(([], []))
    else
      match TsRun(max, blank, parse, chunks[..|chunks| - 1])
      case None => None
      case Some((frames, buffer)) =>
        var (drained, left) := TsPush(max, blank, parse, buffer + chunks[|chunks| - 1]);
        if drained.Fault? then None else Some((frames + drained.frames, left))
  }

  // ------------------------------------------------------------------ the gateway: no cut ever matters

  function TsWhole(max: nat, blank: seq<Byte> -> bool, parse: Parser, s: seq<Byte>): Option<(seq<Json>, seq<Byte>)> {
    var drained := Drain(Yield(TsReader(max, blank, parse), s));
    if drained.Fault? || |Tail(s)| > max then None else Some((drained.frames, Tail(s)))
  }

  lemma {:induction false} DrainConcat(a: seq<Outcome>, b: seq<Outcome>)
    ensures Drain(a + b) == if Drain(a).Fault? then Drain(a) else Prepend(Drain(a).frames, Drain(b))
  {
    if a == [] {
      assert a + b == b;
      assert Drain(b).Frames? ==> [] + Drain(b).frames == Drain(b).frames;
    } else {
      assert (a + b)[1..] == a[1..] + b;
      DrainConcat(a[1..], b);
      if a[0].Frame? && Drain(a[1..]).Frames? && Drain(b).Frames? {
        assert [a[0].value] + (Drain(a[1..]).frames + Drain(b).frames)
            == [a[0].value] + Drain(a[1..]).frames + Drain(b).frames;
      }
    }
  }

  /** An overlong unfinished line stays a fault whatever follows. */
  lemma OverlongStays(max: nat, blank: seq<Byte> -> bool, parse: Parser, t: seq<Byte>, more: seq<Byte>)
    requires |t| > max && Tail(t) == t && FirstLf(t) == |t|
    ensures TsWhole(max, blank, parse, t + more).None?
  {
    var s := t + more;
    var p := FirstLf(s);
    assert forall k | 0 <= k < |t| :: s[k] == t[k] != LF;
    if p < |s| {
      var read := TsReader(max, blank, parse);
      assert read(s[..p]) == TsLine(max, blank, parse, s[..p]) == Some(TooLarge(p));
      DrainFirst([], Some(TooLarge(p)), Yield(read, s[p + 1..]));
    }
  }

  lemma TailHasNoLf(s: seq<Byte>)
    ensures FirstLf(Tail(s)) == |Tail(s)| && Tail(Tail(s)) == Tail(s)
  {
    TailIsAfterLastLf(s);
  }

  /** The same stream in one chunk more. */
  lemma TsWholeAppend(max: nat, blank: seq<Byte> -> bool, parse: Parser, a: seq<Byte>, b: seq<Byte>)
    ensures
      (var whole := TsWhole(max, blank, parse, a);
        var more := TsWhole(max, blank, parse, Tail(a) + b);
        TsWhole(max, blank, parse, a + b)
          == if whole.None? || more.None? then None else Some((whole.value.0 + more.value.0, more.value.1)))
  {
    var read := TsReader(max, blank, parse);
    AppendTail(a, b);
    AppendYield(read, a, b);
    DrainConcat(Yield(read, a), Yield(read, Tail(a) + b));
    if |Tail(a)| > max {
      TailHasNoLf(a);
      OverlongStays(max, blank, parse, Tail(a), b);
    }
  }

  /**
   * The gateway's decoder gives the same result for every cut of a stream: the frames and the tail of
   * the whole stream, or a throw, in the same cases.
   */
  lemma {:induction false} TsCutNeverMatters(
    max: nat, blank: seq<Byte> -> bool, parse: Parser, chunks: seq<seq<Byte>>)
    ensures TsRun(max, blank, parse, chunks) == TsWhole(max, blank, parse, Join(chunks))
  {
    if chunks != [] {
      var init, last := chunks[..|chunks| - 1], chunks[|chunks| - 1];
      TsCutNeverMatters(max, blank, parse, init);
      TsWholeAppend(max, blank, parse, Join(init), last);
    }
  }

  // ------------------------------------------------------------------ streams within the bound

  ghost predicate AllOk(ok: seq<Byte> -> bool, lines: seq<seq<Byte>>) {
    forall k | 0 <= k < |lines| :: ok(lines[k])
  }

  lemma AllOkByLine(ok: seq<Byte> -> bool, line: seq<Byte>, rest: seq<seq<Byte>>)
    ensures AllOk(ok, [line] + rest) <==> ok(line) && AllOk(ok, rest)
  {
    var all := [line] + rest;
    assert all[0] == line;
    assert forall k | 0 <= k < |rest| :: rest[k] == all[k + 1];
  }

  function AtMost(max: nat): seq<Byte> -> bool {
    line => |line| <= max
  }

  /** Every raw line, a trailing CR included, and the unfinished line are at most `max` bytes. */
  ghost predicate Fits(max: nat, s: seq<Byte>) {
    AllOk(AtMost(max), Lines(s)) && |Tail(s)| <= max
  }

  lemma FitsByLine(max: nat, s: seq<Byte>, rest: seq<Byte>)
    requires FirstLf(s) < |s| && rest == s[FirstLf(s) + 1..]
    ensures Lines(s) == [s[..FirstLf(s)]] + Lines(rest) && Tail(s) == Tail(rest)
    ensures Fits(max, s) <==> FirstLf(s) <= max && Fits(max, rest)
  {
    AllOkByLine(AtMost(max), s[..FirstLf(s)], Lines(rest));
  }

  /** A line the gateway skips or decodes, whatever its length. */
  function TsReads(blank: seq<Byte> -> bool, parse: Parser): seq<Byte> -> bool {
    line => blank(line) || parse(line).Some?
  }

  /** Whether the first line and the rest drain without a fault. */
  lemma DrainsByLine(read: LineReader, s: seq<Byte>, line: seq<Byte>, rest: seq<Byte>)
    requires FirstLf(s) < |s| && line == s[..FirstLf(s)] && rest == s[FirstLf(s) + 1..]
    ensures Lines(s) == [line] + Lines(rest) && Tail(s) == Tail(rest)
    ensures Drain(Yield(read, s)).Frames?
      <==> (read(line).None? || read(line).value.Frame?) && Drain(Yield(read, rest)).Frames?
  {
    YieldStep(read, s, line, rest);
    DrainFirst([], read(line), Yield(read, rest));
  }

  /** A stream is accepted, in any cut, exactly when it fits and its non-blank lines parse. */
  lemma {:induction false} TsAcceptsExactly(max: nat, blank: seq<Byte> -> bool, parse: Parser, s: seq<Byte>)
    ensures TsWhole(max, blank, parse, s).Some? <==> Fits(max, s) && AllOk(TsReads(blank, parse), Lines(s))
    decreases |s|
  {
    var p := FirstLf(s);
    if p < |s| {
      var line, rest := s[..p], s[p + 1..];
      var read := TsReader(max, blank, parse);
      TsAcceptsExactly(max, blank, parse, rest);
      DrainsByLine(read, s, line, rest);
      AllOkByLine(AtMost(max), line, Lines(rest));
      AllOkByLine(TsReads(blank, parse), line, Lines(rest));
      assert read(line) == TsLine(max, blank, parse, line);
    }
  }

  // ------------------------------------------------------------------ the daemon: when a cut matters

  /** `chunks` are the reads of a connection that sends `s`; a read of nothing would end it. */
  ghost predicate IsCut(chunks: seq<seq<Byte>>, s: seq<Byte>) {
    Join(chunks) == s && forall k | 0 <= k < |chunks| :: chunks[k] != []
  }

  lemma {:induction false} JoinOfFirst(chunks: seq<seq<Byte>>, k: nat)
    requires k <= |chunks|
    ensures var n := |Join(chunks[..k])|; n <= |Join(chunks)| && Join(chunks[..k]) == Join(chunks)[..n]
    decreases |chunks|
  {
    if k == |chunks| {
      assert chunks[..k] == chunks;
    } else {
      JoinOfFirst(chunks[..|chunks| - 1], k);
      assert chunks[..|chunks| - 1][..k] == chunks[..k];
    }
  }

  /** A prefix past the first line ends where the same prefix of the rest ends. */
  lemma PrefixTail(s: seq<Byte>, rest: seq<Byte>, n: nat)
    requires FirstLf(s) < n <= |s| && rest == s[FirstLf(s) + 1..]
    ensures Tail(s[..n]) == Tail(rest[..n - FirstLf(s) - 1])
  {
    FirstLfIs(s[..n], FirstLf(s));
    assert s[..n][FirstLf(s) + 1..] == rest[..n - FirstLf(s) - 1];
  }

  /** Up to its first LF a fitting stream holds a line or the tail, so no prefix of that is longer than allowed. */
  lemma FittingStart(max: nat, s: seq<Byte>, n: nat)
    requires Fits(max, s) && n <= FirstLf(s)
    ensures |Tail(s[..n])| <= max
  {
    var p := FirstLf(s);
    if p < |s| {
      FitsByLine(max, s, s[p + 1..]);
    }
    NoLfIsTail(s[..n]);
  }

  lemma FittingRest(max: nat, s: seq<Byte>, p: nat)
    requires Fits(max, s) && p == FirstLf(s) < |s|
    ensures Fits(max, s[p + 1..])
  {
    FitsByLine(max, s, s[p + 1..]);
  }

  /** Within a stream that fits, nothing unfinished is ever overlong. */
  lemma {:induction false} FittingPrefix(max: nat, s: seq<Byte>, n: nat)
    requires Fits(max, s) && n <= |s|
    ensures |Tail(s[..n])| <= max
    decreases |s|
  {
    if n <= FirstLf(s) {
      FittingStart(max, s, n);
    } else {
      var p := FirstLf(s);
      FittingRest(max, s, p);
      FittingPrefix(max, s[p + 1..], n - p - 1);
      PrefixTail(s, s[p + 1..], n);
    }
  }

  /** In a stream that does not fit, some point has an overlong unfinished line before it. */
  lemma {:induction false} OverlongPrefix(max: nat, s: seq<Byte>) returns (n: nat)
    requires !Fits(max, s)
    ensures n <= |s| && |Tail(s[..n])| > max
    decreases |s|
  {
    var p := FirstLf(s);
    if p == |s| {
      n := |s|;
      assert s[..n] == s;
    } else if p > max {
      n := p;
      NoLfIsTail(s[..n]);
    } else {
      FitsByLine(max, s, s[p + 1..]);
      var m := OverlongPrefix(max, s[p + 1..]);
      n := p + 1 + m;
      PrefixTail(s, s[p + 1..], n);
    }
  }

  lemma FittingStreamIsSafe(max: nat, chunks: seq<seq<Byte>>)
    requires Fits(max, Join(chunks))
    ensures SafeCut(max, chunks)
  {
    forall k | 0 <= k <= |chunks| ensures |Tail(Join(chunks[..k]))| <= max {
      JoinOfFirst(chunks, k);
      FittingPrefix(max, Join(chunks), |Join(chunks[..k])|);
    }
  }

  /** The two chunks either side of `n`, or the whole stream at its end. */
  function CutAt(s: seq<Byte>, n: nat): seq<seq<Byte>>
    requires n <= |s|
  {
    if n == |s| then [s] else [s[..n], s[n..]]
  }

  lemma CutAtIsUnsafe(max: nat, s: seq<Byte>, n: nat)
    requires n <= |s| && |Tail(s[..n])| > max
    ensures IsCut(CutAt(s, n), s) && !SafeCut(max, CutAt(s, n))
  {
    var chunks := CutAt(s, n);
    assert chunks[..1] == [s[..n]] by { assert s[..|s|] == s; }
    JoinOne(s[..n]);
    if n < |s| {
      assert chunks[..|chunks| - 1] == [s[..n]];
      assert s[..n] + s[n..] == s;
    }
    assert |Tail(Join(chunks[..1]))| > max;
  }

  lemma JoinOne(chunk: seq<Byte>)
    ensures Join([chunk]) == chunk
  {
    assert Join([chunk]) == Join([]) + chunk;
  }

  /** The daemon refuses no cut of a stream exactly when every raw line and the tail fit. */
  lemma EveryCutIsSafeIffFits(max: nat, s: seq<Byte>)
    ensures (forall chunks | IsCut(chunks, s) :: SafeCut(max, chunks)) <==> Fits(max, s)
  {
    if Fits(max, s) {
      forall chunks | IsCut(chunks, s) ensures SafeCut(max, chunks) {
        FittingStreamIsSafe(max, chunks);
      }
    } else {
      var n := OverlongPrefix(max, s);
      CutAtIsUnsafe(max, s, n);
    }
  }

  /** A line the daemon skips or decodes. */
  function RustReads(max: nat, parse: Parser): seq<Byte> -> bool {
    raw => Blank(StripCr(raw)) || (|StripCr(raw)| <= max && parse(StripCr(raw)).Some?)
  }

  lemma RustReadsLine(max: nat, parse: Parser, raw: seq<Byte>)
    ensures (var o := RustReader(max, parse)(raw); o.None? || o.value.Frame?) <==> RustReads(max, parse)(raw)
  {
    assert RustReader(max, parse)(raw) == RustLine(max, parse, raw);
  }

  /** No line is answered with a fault exactly when each, its CR dropped, is blank or fits and parses. */
  lemma {:induction false} RustAcceptsExactly(max: nat, parse: Parser, s: seq<Byte>)
    ensures Drain(Yield(RustReader(max, parse), s)).Frames? <==> AllOk(RustReads(max, parse), Lines(s))
    decreases |s|
  {
    var p := FirstLf(s);
    if p < |s| {
      var line, rest := s[..p], s[p + 1..];
      RustAcceptsExactly(max, parse, rest);
      DrainsByLine(RustReader(max, parse), s, line, rest);
      AllOkByLine(RustReads(max, parse), line, Lines(rest));
      RustReadsLine(max, parse, line);
    }
  }

  /**
   * What the daemon makes of a line, one CR before its LF not counted: nothing exactly when it is blank, and
   * otherwise a size fault with its size exactly when it is longer than `max`, a syntax fault exactly when it
   * fits and does not parse, and a frame exactly when it fits and parses.
   */
  lemma RustLineExactly(max: nat, parse: Parser, line: seq<Byte>, cr: bool, o: Option<Outcome>)
    requires cr || line == [] || line[|line| - 1] != CR
    requires o == RustReader(max, parse)(line + if cr then [CR] else [])
    ensures o.None? <==> Blank(line)
    ensures !Blank(line) ==> (o.value.TooLarge? <==> |line| > max) && (o.value.TooLarge? ==> o.value.bytes == |line|)
    ensures !Blank(line) ==> (o.value.Invalid? <==> |line| <= max && parse(line).None?)
    ensures !Blank(line) ==> (o.value.Frame? <==> |line| <= max && parse(line).Some?)
    ensures !Blank(line) && o.value.Frame? ==> parse(line) == Some(o.value.value)
  {
    var raw := line + if cr then [CR] else [];
    assert StripCr(raw) == line by {
      if cr {
        assert raw[..|raw| - 1] == line;
      } else {
        assert raw == line;
      }
    }
    assert RustReader(max, parse)(raw) == RustLine(max, parse, raw);
  }

  /** Draining ends at the first outcome that is no frame, and says which it was. */
  lemma {:induction false} DrainStopsAtTheFirst(outs: seq<Outcome>, k: nat)
    requires k < |outs| && !outs[k].Frame? && forall i | 0 <= i < k :: outs[i].Frame?
    ensures Drain(outs) == Fault(outs[k]) && AfterFault(outs) == outs[k + 1..]
  {
    if k > 0 {
      DrainStopsAtTheFirst(outs[1..], k - 1);
    }
  }

  /**
   * A line of exactly `max` bytes ending in CR LF is decoded when it arrives whole and ends the
   * connection when the LF arrives late, so its fate in the daemon depends on the cut. The gateway
   * refuses it in every cut.
   */
  lemma CrAtTheBoundary(max: nat, blank: seq<Byte> -> bool, parse: Parser, line: seq<Byte>)
    requires |line| == max && !Blank(line) && forall k | 0 <= k < |line| :: line[k] != LF
    ensures
      (var s := line + [CR, LF];
        && SafeCut(max, [s])
        && Yield(RustReader(max, parse), s) == [Parsed(parse, line)]
        && IsCut([line + [CR], [LF]], s) && !SafeCut(max, [line + [CR], [LF]])
        && TsWhole(max, blank, parse, s).None?)
  {
    var s, raw := line + [CR, LF], line + [CR];
    assert s == raw + [LF] + [];
    CrLine(max, parse, line);
    FirstLine(raw, []);
    OneChunkIsSafe(max, s);
    CrCut(max, line);
    assert Lines(s)[0] == raw && !AtMost(max)(raw);
    TsAcceptsExactly(max, blank, parse, s);
  }

  lemma CrLine(max: nat, parse: Parser, line: seq<Byte>)
    requires |line| == max && !Blank(line) && forall k | 0 <= k < |line| :: line[k] != LF
    ensures Yield(RustReader(max, parse), line + [CR, LF]) == [Parsed(parse, line)]
  {
    var s, raw := line + [CR, LF], line + [CR];
    FirstLfIs(s, max + 1);
    assert s[..max + 1] == raw && s[max + 2..] == [];
    assert StripCr(raw) == line;
    var read := RustReader(max, parse);
    assert read(raw) == RustLine(max, parse, raw) == Some(Parsed(parse, line));
    YieldStep(read, s, raw, []);
  }

  lemma CrCut(max: nat, line: seq<Byte>)
    requires |line| == max && forall k | 0 <= k < |line| :: line[k] != LF
    ensures IsCut([line + [CR], [LF]], line + [CR, LF]) && !SafeCut(max, [line + [CR], [LF]])
  {
    var s, raw := line + [CR, LF], line + [CR];
    assert s[..max + 1] == raw && s[max + 1..] == [LF];
    NoLfIsTail(raw);
    CutAtIsUnsafe(max, s, max + 1);
    assert CutAt(s, max + 1) == [raw, [LF]];
  }

  lemma OneChunkIsSafe(max: nat, s: seq<Byte>)
    requires Tail(s) == []
    ensures SafeCut(max, [s])
  {
    assert Join([s]) == Join([]) + s == s;
    assert [s][..1] == [s] && [s][..0] == [];
  }

  // ------------------------------------------------------------------ encoded frames come back

  datatype Encoded = Bytes(bytes: seq<Byte>) | FrameTooLarge(size: nat)

  /** The daemon's encoder; the gateway's is the same without the check. */
  function EncodeFrame(text: seq<Byte>): Encoded {
    if |text| + 1 > MAX_FRAME_BYTES then FrameTooLarge(|text| + 1) else Bytes(text + [LF])
  }

  function EncodeAll(texts: seq<seq<Byte>>): seq<Byte> {
    if texts == [] then [] else texts[0] + [LF] + EncodeAll(texts[1..])
  }

  /** Splitting at LF undoes joining with LF, and leaves what follows as the tail. */
  lemma {:induction false} SplitUndoesJoin(texts: seq<seq<Byte>>, rest: seq<Byte>)
    requires forall k | 0 <= k < |texts| :: LF !in texts[k]
    requires LF !in rest
    ensures Lines(EncodeAll(texts) + rest) == texts && Tail(EncodeAll(texts) + rest) == rest
  {
    if texts == [] {
      assert EncodeAll(texts) + rest == rest;
      NoLfIsTail(rest);
    } else {
      var t, more := texts[0], EncodeAll(texts[1..]) + rest;
      SplitUndoesJoin(texts[1..], rest);
      assert EncodeAll(texts) + rest == t + [LF] + more;
      FirstLine(t, more);
      assert texts == [t] + texts[1..];
    }
  }

  lemma FirstLine(t: seq<Byte>, more: seq<Byte>)
    requires LF !in t
    ensures Lines(t + [LF] + more) == [t] + Lines(more) && Tail(t + [LF] + more) == Tail(more)
  {
    var s := t + [LF] + more;
    assert forall k | 0 <= k < |t| :: s[k] == t[k] && t[k] in t;
    FirstLfIs(s, |t|);
    assert s[..|t|] == t && s[|t| + 1..] == more;
  }

  lemma {:induction false} OutcomesOfValues(read: LineReader, texts: seq<seq<Byte>>, values: seq<Json>)
    requires |texts| == |values| && forall k | 0 <= k < |texts| :: read(texts[k]) == Some(Frame(values[k]))
    ensures Outcomes(read, texts) == Wrapped(values)
  {
    if texts != [] {
      OutcomesOfValues(read, texts[1..], values[1..]);
    }
  }

  /** A text that both encoders take, and what each side's parser makes of it. */
  ghost predicate Framed(
    parseRust: Parser, parseTs: Parser, blank: seq<Byte> -> bool, text: seq<Byte>, asRust: Json, asTs: Json)
  {
    && EncodeFrame(text) == Bytes(text + [LF])
    && LF !in text && CR !in text && !Blank(text) && !blank(text)
    && parseRust(text) == Some(asRust) && parseTs(text) == Some(asTs)
  }

  /**
   * Frames that both sides can encode, followed by part of another, come back from every cut of the
   * stream in both decoders: on each side what it reads each text as, in the same order, with nothing
   * refused and the part buffered.
   */
  lemma EncodedFramesComeBack(
    parseRust: Parser, parseTs: Parser, blank: seq<Byte> -> bool,
    texts: seq<seq<Byte>>, asRust: seq<Json>, asTs: seq<Json>, rest: seq<Byte>, chunks: seq<seq<Byte>>)
    requires |asRust| == |asTs| == |texts|
    requires forall k | 0 <= k < |texts| :: Framed(parseRust, parseTs, blank, texts[k], asRust[k], asTs[k])
    requires LF !in rest && |rest| <= MAX_FRAME_BYTES
    requires Join(chunks) == EncodeAll(texts) + rest
    ensures SafeCut(MAX_FRAME_BYTES, chunks)
    ensures Yield(RustReader(MAX_FRAME_BYTES, parseRust), Join(chunks)) == Wrapped(asRust)
    ensures Tail(Join(chunks)) == rest
    ensures TsRun(MAX_FRAME_BYTES, blank, parseTs, chunks) == Some((asTs, rest))
  {
    var max, s := MAX_FRAME_BYTES, Join(chunks);
    var rust, ts := RustReader(max, parseRust), TsReader(max, blank, parseTs);
    forall k | 0 <= k < |texts|
      ensures LF !in texts[k] && |texts[k]| <= max
      ensures rust(texts[k]) == Some(Frame(asRust[k])) && ts(texts[k]) == Some(Frame(asTs[k]))
    {
      var t := texts[k];
      assert Framed(parseRust, parseTs, blank, t, asRust[k], asTs[k]);
      assert StripCr(t) == t;
      assert rust(t) == RustLine(max, parseRust, t);
      assert ts(t) == TsLine(max, blank, parseTs, t);
    }
    SplitUndoesJoin(texts, rest);
    FittingStreamIsSafe(max, chunks);
    OutcomesOfValues(rust, texts, asRust);
    OutcomesOfValues(ts, texts, asTs);
    YieldIsByLine(rust, s);
    YieldIsByLine(ts, s);
    TsCutNeverMatters(max, blank, parseTs, chunks);
    DrainIsFramesOnly(Yield(ts, s), asTs);
  }
}
