/** Printed JSON as the payload of frames: what the framing asks of a serialiser, met. */
module FrameCodec {
  import opened Wrappers
  import opened Json
  import opened Ndjson
  import opened Utf8

  function ToBytes(v: Json): seq<Byte> {
    Encode(Print(v))
  }

  /** What a side keeps of the value it reads: its own arrangement of the members of objects, at least. */
  type View = Json -> Json

  /** Strict UTF-8, then the reader of values, then the side's own view of the value. */
  function FromBytes(view: View, bytes: seq<Byte>): Option<Json> {
    match Decode(bytes)
    case Some(text) => (match Read(text) case Some(v) => Some(view(v)) case None => None)
    case None => None
  }

  function Texts(values: seq<Json>): (r: seq<seq<Byte>>)
    ensures |r| == |values| && forall k | 0 <= k < |r| :: r[k] == ToBytes(values[k])
  {
    if values == [] then [] else [ToBytes(values[0])] + Texts(values[1..])
  }

  function Viewed(view: View, values: seq<Json>): (r: seq<Json>)
    ensures |r| == |values| && forall k | 0 <= k < |r| :: r[k] == view(values[k])
  {
    if values == [] then [] else [view(values[0])] + Viewed(view, values[1..])
  }

  /** A line is never blank once it starts with a visible ASCII character. */
  ghost predicate SeesText(blank: seq<Byte> -> bool) {
    forall t: seq<Byte> | t != [] && 32 < t[0] < 127 :: !blank(t)
  }

  lemma ReadsBack(view: View, v: Json)
    requires Printable(v)
    ensures FromBytes(view, ToBytes(v)) == Some(view(v))
  {
    DecodeUndoesEncode(Print(v));
    PrintIsInjective(v, v);
  }

  lemma PrintedValueIsFramed(blank: seq<Byte> -> bool, rust: View, ts: View, v: Json)
    requires SeesText(blank) && Printable(v) && |ToBytes(v)| < MAX_FRAME_BYTES
    ensures Framed(b => FromBytes(rust, b), b => FromBytes(ts, b), blank, ToBytes(v), rust(v), ts(v))
  {
    var text := Print(v);
    PrintHasNoControl(v);
    AsciiStandsForItself(text, LF);
    AsciiStandsForItself(text, CR);
    ReadsBack(rust, v);
    ReadsBack(ts, v);
    PrintStart(v);
    assert 32 < text[0] as int < 127;
    assert ToBytes(v)[0] == text[0] as int;
  }

  /**
   * Values printed by either side come back from every cut of the byte stream, on both sides, each in
   * that side's view: the two sides may arrange the members of an object differently.
   */
  lemma PrintedValuesComeBack(
    blank: seq<Byte> -> bool, rust: View, ts: View, values: seq<Json>, rest: seq<Byte>, chunks: seq<seq<Byte>>)
    requires SeesText(blank)
    requires forall k | 0 <= k < |values| :: Printable(values[k]) && |ToBytes(values[k])| < MAX_FRAME_BYTES
    requires LF !in rest && |rest| <= MAX_FRAME_BYTES
    requires Join(chunks) == EncodeAll(Texts(values)) + rest
    ensures SafeCut(MAX_FRAME_BYTES, chunks)
    ensures Yield(RustReader(MAX_FRAME_BYTES, b => FromBytes(rust, b)), Join(chunks)) == Wrapped(Viewed(rust, values))
    ensures Tail(Join(chunks)) == rest
    ensures TsRun(MAX_FRAME_BYTES, blank, b => FromBytes(ts, b), chunks) == Some((Viewed(ts, values), rest))
  {
    var parseRust: Parser, parseTs: Parser := b => FromBytes(rust, b), b => FromBytes(ts, b);
    var texts, asRust, asTs := Texts(values), Viewed(rust, values), Viewed(ts, values);
    forall k | 0 <= k < |texts| ensures Framed(parseRust, parseTs, blank, texts[k], asRust[k], asTs[k]) {
      PrintedValueIsFramed(blank, rust, ts, values[k]);
    }
    EncodedFramesComeBack(parseRust, parseTs, blank, texts, asRust, asTs, rest, chunks);
  }
}
