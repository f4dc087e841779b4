/** The UTF-8 encoding (section 3 of RFC 3629), and its inverse. */
module Utf8 {
  import opened Options

  type Byte = b: int | 0 <= b < 256

  function EncodeChar(c: char): seq<Byte> {
    var code := c as int;
    if code < 0x80 then [code]
    else if code < 0x800 then [0xC0 + code / 64, 0x80 + code % 64]
    else if code < 0x1_0000 then [0xE0 + code / 64 / 64, 0x80 + code / 64 % 64, 0x80 + code % 64]
    else [0xF0 + code / 64 / 64 / 64, 0x80 + code / 64 / 64 % 64, 0x80 + code / 64 % 64, 0x80 + code % 64]
  }

  function Encode(text: string): seq<Byte> {
    if text == "" then [] else EncodeChar(text[0]) + Encode(text[1..])
  }

  predicate Continues(b: Byte) {
    0x80 <= b < 0xC0
  }

  predicate IsScalar(code: int) {
    0 <= code < 0xD800 || 0xE000 <= code < 0x11_0000
  }

  /** How many bytes the first one announces. */
  function Announced(first: Byte): Option<nat> {
    if first < 0x80 then Some(1)
    else if 0xC0 <= first < 0xE0 then Some(2)
    else if 0xE0 <= first < 0xF0 then Some(3)
    else if 0xF0 <= first < 0xF8 then Some(4)
    else None
  }

  /** The number spelled by the bytes of one character. */
  function CodeOf(bytes: seq<Byte>): int
    requires 1 <= |bytes| <= 4
  {
    var first: int := bytes[0];
    if |bytes| == 1 then first
    else if |bytes| == 2 then (first - 0xC0) * 64 + Digit(bytes[1])
    else if |bytes| == 3 then (first - 0xE0) * 4096 + Digit(bytes[1]) * 64 + Digit(bytes[2])
    else (first - 0xF0) * 262144 + Digit(bytes[1]) * 4096 + Digit(bytes[2]) * 64 + Digit(bytes[3])
  }

  /** What a continuation byte adds. */
  function Digit(b: Byte): int {
    var value: int := b;
    value - 0x80
  }

  function DecodeChar(bytes: seq<Byte>): Option<char>
    requires 1 <= |bytes| <= 4
  {
    var code := CodeOf(bytes);
    if (forall i | 1 <= i < |bytes| :: Continues(bytes[i])) && IsScalar(code) then Some(code as char) else None
  }

  function Decode(bytes: seq<Byte>): Option<string> {
    if bytes == [] then
      Some("")
    else
      var n := Announced(bytes[0]);
      if n.None? || n.value > |bytes| then None
      else
        var c, rest := DecodeChar(bytes[..n.value]), Decode(bytes[n.value..]);
        if c.Some? && rest.Some? then Some([c.value] + rest.value) else None
  }

  lemma {:induction false} CharRoundTrip(c: char)
    ensures 1 <= |EncodeChar(c)| <= 4 && Announced(EncodeChar(c)[0]) == Some(|EncodeChar(c)|)
    ensures DecodeChar(EncodeChar(c)) == Some(c)
  {
    var code := c as int;
    assert code == code / 64 * 64 + code % 64;
    assert code / 64 == code / 64 / 64 * 64 + code / 64 % 64;
    assert code / 64 / 64 == code / 64 / 64 / 64 * 64 + code / 64 / 64 % 64;
    assert CodeOf(EncodeChar(c)) == code;
  }

  /** No two texts have one encoding: decoding gives the text back. */
  lemma {:induction false} RoundTrip(text: string)
    ensures Decode(Encode(text)) == Some(text)
    decreases |text|
  {
    if text != "" {
      var first, rest := EncodeChar(text[0]), Encode(text[1..]);
      CharRoundTrip(text[0]);
      RoundTrip(text[1..]);
      assert Encode(text) == first + rest;
      assert (first + rest)[..|first|] == first && (first + rest)[|first|..] == rest;
      assert text == [text[0]] + text[1..];
    }
  }
}
