/** UTF-8 (RFC 3629, section 3): strict decoding, and that it undoes encoding. */
module Utf8 {
  import opened Wrappers
  import opened Ndjson

  function EncodeChar(c: char): (r: seq<Byte>)
    ensures r != []
    ensures (c as int) < 128 ==> r == [c as int]
    ensures (c as int) >= 128 ==> forall k | 0 <= k < |r| :: r[k] >= 128
  {
    var u := c as int;
    if u < 0x80 then [u]
    else if u < 0x800 then [0xC0 + u / 64, 0x80 + u % 64]
    else if u < 0x1_0000 then [0xE0 + u / 4096, 0x80 + u / 64 % 64, 0x80 + u % 64]
    else [0xF0 + u / 262144, 0x80 + u / 4096 % 64, 0x80 + u / 64 % 64, 0x80 + u % 64]
  }

  function Encode(s: string): seq<Byte> {
    if s == [] then [] else EncodeChar(s[0]) + Encode(s[1..])
  }

  function Two(a: int, b: int): int {
    (a - 0xC0) * 64 + (b - 0x80)
  }

  function Three(a: int, b: int, c: int): int {
    (a - 0xE0) * 4096 + (b - 0x80) * 64 + (c - 0x80)
  }

  function Four(a: int, b: int, c: int, d: int): int {
    (a - 0xF0) * 262144 + (b - 0x80) * 4096 + (c - 0x80) * 64 + (d - 0x80)
  }

  /** The number that the leading bytes spell, -1 when they spell none. */
  function Spelled(s: seq<Byte>): int
    requires s != []
  {
    if s[0] < 0x80 then s[0]
    else if 0xC0 <= s[0] < 0xE0 && |s| > 1 then Two(s[0], s[1])
    else if 0xE0 <= s[0] < 0xF0 && |s| > 2 then Three(s[0], s[1], s[2])
    else if 0xF0 <= s[0] && |s| > 3 then Four(s[0], s[1], s[2], s[3])
    else -1
  }

  predicate IsScalar(u: int) {
    0 <= u < 0xD800 || 0xE000 <= u < 0x11_0000
  }

  /** The first character; overlong and malformed forms are refused because they are not what it encodes to. */
  function DecodeChar(s: seq<Byte>): Option<char>
    requires s != []
  {
    var u := Spelled(s);
    if IsScalar(u) && EncodeChar(u as char) <= s then Some(u as char) else None
  }

  function Decode(s: seq<Byte>): Option<string> {
    if s == [] then Some([])
    else
      match DecodeChar(s)
      case None => None
      case Some(c) => match Decode(s[|EncodeChar(c)|..]) case Some(rest) => Some([c] + rest) case None => None
  }

  lemma SpelledUndoes(c: char, rest: seq<Byte>)
    ensures Spelled(EncodeChar(c) + rest) == c as int
  {
    var u, e, s := c as int, EncodeChar(c), EncodeChar(c) + rest;
    assert forall k | 0 <= k < |e| :: s[k] == e[k];
    if u < 0x80 {
      assert s[0] == u;
    } else if u < 0x800 {
      assert s[0] == 0xC0 + u / 64;
    } else if u < 0x1_0000 {
      assert s[0] == 0xE0 + u / 4096;
      assert u / 64 / 64 == u / 4096;
    } else {
      assert s[0] == 0xF0 + u / 262144;
      assert u / 64 / 64 == u / 4096 && u / 4096 / 64 == u / 262144;
    }
  }

  lemma DecodeCharUndoes(c: char, rest: seq<Byte>)
    ensures DecodeChar(EncodeChar(c) + rest) == Some(c)
  {
    SpelledUndoes(c, rest);
    assert IsScalar(c as int) && (c as int) as char == c;
    assert EncodeChar(c) <= EncodeChar(c) + rest;
  }

  /** Decoding undoes encoding on every text. */
  lemma {:induction false} DecodeUndoesEncode(s: string)
    ensures Decode(Encode(s)) == Some(s)
  {
    if s != [] {
      DecodeCharUndoes(s[0], Encode(s[1..]));
      DecodeUndoesEncode(s[1..]);
      assert Encode(s) != [] && Encode(s)[|EncodeChar(s[0])|..] == Encode(s[1..]);
      assert s == [s[0]] + s[1..];
    }
  }

  /** A byte below 128 stands only for its own character. */
  lemma {:induction false} AsciiStandsForItself(s: string, b: Byte)
    requires b < 128 && (b as char) !in s
    ensures b !in Encode(s)
  {
    if s != [] {
      AsciiStandsForItself(s[1..], b);
    }
  }
}
