/** The UTF-8 encoding of text (RFC 3629), and decoding as exactly its inverse. */
module Utf8 {
  import opened Basics
  import opened Text

  /** One to four bytes, by the size of the code point. */
  function EncodeChar(c: char): seq<Byte> {
    var n := c as int;
    if n < 0x80 then [n]
    else if n < 0x800 then [0xC0 + n / 0x40, 0x80 + n % 0x40]
    else if n < 0x1_0000 then [0xE0 + n / 0x1000, 0x80 + n / 0x40 % 0x40, 0x80 + n % 0x40]
    else [0xF0 + n / 0x4_0000, 0x80 + n / 0x1000 % 0x40, 0x80 + n / 0x40 % 0x40, 0x80 + n % 0x40]
  }

  function EncodeUtf8(text: string): seq<Byte> {
    if text == "" then [] else EncodeChar(text[0]) + EncodeUtf8(text[1..])
  }

  /** Six bits are split off a number, and put back. */
  lemma SixBits(q: nat, r: nat)
    requires r < 0x40
    ensures (q * 0x40 + r) / 0x40 == q && (q * 0x40 + r) % 0x40 == r
  {
  }

  lemma ThreeRead(c: char, rest: seq<Byte>)
    requires 0x800 <= c as int < 0x1_0000
    ensures var s := EncodeChar(c) + rest; Utf8Len(s) == 3 && FirstChar(s) == c && s[3..] == rest
  {
    var n := c as int;
    var s := EncodeChar(c) + rest;
    assert s[0] == 0xE0 + n / 0x1000 && s[1] == 0x80 + n / 0x40 % 0x40 && s[2] == 0x80 + n % 0x40;
    assert n == n / 0x1000 * 0x1000 + n / 0x40 % 0x40 * 0x40 + n % 0x40;
  }

  /** A code point above the basic plane, by its four groups of bits. */
  lemma FourGroups(n: nat)
    requires 0x1_0000 <= n < 0x11_0000
    ensures n == n / 0x4_0000 * 0x4_0000 + n / 0x1000 % 0x40 * 0x1000 + n / 0x40 % 0x40 * 0x40 + n % 0x40
    ensures n / 0x4_0000 <= 4
    ensures n / 0x4_0000 == 0 ==> n / 0x1000 % 0x40 >= 0x10
    ensures n / 0x4_0000 == 4 ==> n / 0x1000 % 0x40 < 0x10
  {
  }

  lemma FourRead(c: char, rest: seq<Byte>)
    requires 0x1_0000 <= c as int
    ensures var s := EncodeChar(c) + rest; Utf8Len(s) == 4 && FirstChar(s) == c && s[4..] == rest
  {
    var n := c as int;
    var s := EncodeChar(c) + rest;
    FourGroups(n);
    assert s[0] == 0xF0 + n / 0x4_0000 && s[1] == 0x80 + n / 0x1000 % 0x40;
    assert s[2] == 0x80 + n / 0x40 % 0x40 && s[3] == 0x80 + n % 0x40;
  }

  lemma CharIsRead(c: char, rest: seq<Byte>)
    ensures var s := EncodeChar(c) + rest;
            Utf8Len(s) == |EncodeChar(c)| && FirstChar(s) == c && s[Utf8Len(s)..] == rest
  {
    if 0x1_0000 <= c as int {
      FourRead(c, rest);
    } else if 0x800 <= c as int {
      ThreeRead(c, rest);
    }
  }

  lemma TwoEncoded(s: seq<Byte>)
    requires Utf8Len(s) == 2
    ensures EncodeChar(FirstChar(s)) == s[..2]
  {
    SixBits(s[0] - 0xC0, s[1] - 0x80);
  }

  lemma ThreeEncoded(s: seq<Byte>)
    requires Utf8Len(s) == 3
    ensures EncodeChar(FirstChar(s)) == s[..3]
  {
    var b0: int, b1: int := s[0], s[1];
    var high: nat := (b0 - 0xE0) * 0x40 + (b1 - 0x80);
    var n := FirstChar(s) as int;
    assert n == high * 0x40 + (s[2] - 0x80);
    SixBits(high, s[2] - 0x80);
    SixBits(s[0] - 0xE0, s[1] - 0x80);
    assert n / 0x1000 == n / 0x40 / 0x40;
    assert 0x800 <= n < 0x1_0000;
  }

  lemma FourEncoded(s: seq<Byte>)
    requires Utf8Len(s) == 4
    ensures EncodeChar(FirstChar(s)) == s[..4]
  {
    var b0: int, b1: int, b2: int := s[0], s[1], s[2];
    var top: nat := (b0 - 0xF0) * 0x40 + (b1 - 0x80);
    var high: nat := top * 0x40 + (b2 - 0x80);
    var n := FirstChar(s) as int;
    assert n == high * 0x40 + (s[3] - 0x80);
    SixBits(high, s[3] - 0x80);
    SixBits(top, s[2] - 0x80);
    SixBits(s[0] - 0xF0, s[1] - 0x80);
    assert n / 0x1000 == n / 0x40 / 0x40 && n / 0x4_0000 == n / 0x40 / 0x40 / 0x40;
    assert 0x1_0000 <= n;
  }

  lemma ReadIsChar(s: seq<Byte>)
    requires Utf8Len(s) > 0
    ensures EncodeChar(FirstChar(s)) == s[..Utf8Len(s)]
  {
    match Utf8Len(s) {
      case 2 => TwoEncoded(s);
      case 3 => ThreeEncoded(s);
      case 4 => FourEncoded(s);
      case _ =>
    }
  }

  /** One character more in front. */
  lemma EncodeMore(c: char, text: string)
    ensures EncodeUtf8([c] + text) == EncodeChar(c) + EncodeUtf8(text)
  {
    assert ([c] + text)[1..] == text;
  }

  lemma DecodeMore(c: char, bytes: seq<Byte>)
    requires DecodeUtf8(bytes).Some?
    ensures DecodeUtf8(EncodeChar(c) + bytes) == Some([c] + DecodeUtf8(bytes).value)
  {
    CharIsRead(c, bytes);
    DecodeStep(EncodeChar(c) + bytes);
    assert [c] + DecodeUtf8(bytes).value + "" == [c] + DecodeUtf8(bytes).value;
  }

  lemma FirstDecoded(bytes: seq<Byte>) returns (c: char, rest: seq<Byte>)
    requires bytes != [] && DecodeUtf8(bytes).Some?
    ensures bytes == EncodeChar(c) + rest && DecodeUtf8(rest).Some? && |rest| < |bytes|
  {
    DecodeStep(bytes);
    ReadIsChar(bytes);
    c, rest := FirstChar(bytes), bytes[Utf8Len(bytes)..];
    assert bytes == bytes[..Utf8Len(bytes)] + rest;
  }

  /** What was encoded is decoded. */
  lemma {:induction false} DecodeReads(text: string)
    ensures DecodeUtf8(EncodeUtf8(text)) == Some(text)
  {
    if text != "" {
      DecodeReads(text[1..]);
      DecodeMore(text[0], EncodeUtf8(text[1..]));
      assert text == [text[0]] + text[1..];
    }
  }

  /** What is decoded was encoded. */
  lemma {:induction false} DecodedWasEncoded(bytes: seq<Byte>)
    requires DecodeUtf8(bytes).Some?
    ensures EncodeUtf8(DecodeUtf8(bytes).value) == bytes
    decreases |bytes|
  {
    if bytes != [] {
      var c, rest := FirstDecoded(bytes);
      DecodedWasEncoded(rest);
      DecodeMore(c, rest);
      EncodeMore(c, DecodeUtf8(rest).value);
    }
  }

  /** Decoding succeeds with exactly the text whose encoding the bytes are. */
  lemma DecodeIsExact(bytes: seq<Byte>, text: string)
    ensures DecodeUtf8(bytes) == Some(text) <==> EncodeUtf8(text) == bytes
  {
    DecodeReads(text);
    if DecodeUtf8(bytes).Some? {
      DecodedWasEncoded(bytes);
    }
  }
}
