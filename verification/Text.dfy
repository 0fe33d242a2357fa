/**
 The text handling that the tap borrows from its standard library: UTF-8 decoding,
 trimming, ASCII case folding and unsigned number parsing.
 */
module Text {
  import opened Basics

  // ── UTF-8 ────────────────────────────────────────────────────────────────

  predicate IsTail(b: Byte) {
    0x80 <= b <= 0xBF
  }

  /** Length of the well-formed UTF-8 sequence that `s` starts with; 0 when there is none. */
  function Utf8Len(s: seq<Byte>): (n: nat)
    ensures n <= |s| && n <= 4
  {
    if |s| == 0 then 0
    else if s[0] < 0x80 then 1
    else if |s| == 1 || !IsTail(s[1]) then 0
    else if 0xC2 <= s[0] <= 0xDF then 2
    else if |s| == 2 || !IsTail(s[2]) then 0
    else if 0xE0 <= s[0] <= 0xEF then
      if (s[0] == 0xE0 && s[1] < 0xA0) || (s[0] == 0xED && s[1] > 0x9F) then 0 else 3
    else if |s| == 3 || !IsTail(s[3]) then 0
    else if 0xF0 <= s[0] <= 0xF4 then
      if (s[0] == 0xF0 && s[1] < 0x90) || (s[0] == 0xF4 && s[1] > 0x8F) then 0 else 4
    else 0
  }

  /** The character encoded by the first `Utf8Len(s)` bytes. */
  function FirstChar(s: seq<Byte>): char
    requires Utf8Len(s) > 0
  {
    var n := Utf8Len(s);
    var b0: int := s[0];
    var b1: int := if n > 1 then s[1] else 0x80;
    var b2: int := if n > 2 then s[2] else 0x80;
    var b3: int := if n > 3 then s[3] else 0x80;
    match n
    case 1 => b0 as char
    case 2 => ((b0 - 0xC0) * 0x40 + (b1 - 0x80)) as char
    case 3 => ((b0 - 0xE0) * 0x1000 + (b1 - 0x80) * 0x40 + (b2 - 0x80)) as char
    case _ => ((b0 - 0xF0) * 0x40000 + (b1 - 0x80) * 0x1000 + (b2 - 0x80) * 0x40 + (b3 - 0x80)) as char
  }

  /** `prefix + text + suffix`, unless there is no text. */
  function Around(prefix: string, text: Option<string>, suffix: string): Option<string> {
    match text
    case None => None
    case Some(t) => Some(prefix + t + suffix)
  }

  /** `None` when `s` is not valid UTF-8. */
  function DecodeUtf8(s: seq<Byte>): Option<string> {
    if s == [] then Some("")
    else if Utf8Len(s) == 0 then None
    else Around([FirstChar(s)], DecodeUtf8(s[Utf8Len(s)..]), "")
  }

  predicate IsAscii(s: seq<Byte>) {
    forall i :: 0 <= i < |s| ==> s[i] < 0x80
  }

  function AsciiText(s: seq<Byte>): string
    requires IsAscii(s)
  {
    seq(|s|, i requires 0 <= i < |s| => s[i] as char)
  }

  /** ASCII bytes in front decode to themselves and leave the rest alone. */
  lemma {:induction false} DecodeAsciiPrefix(a: seq<Byte>, s: seq<Byte>)
    requires IsAscii(a)
    ensures DecodeUtf8(a + s) == Around(AsciiText(a), DecodeUtf8(s), "")
  {
    if a == [] {
      assert a + s == s;
      AroundNests("", "", DecodeUtf8(s), "");
      assert AsciiText(a) == "";
    } else {
      DecodeAsciiPrefix(a[1..], s);
      assert (a + s)[1..] == a[1..] + s;
      assert AsciiText(a) == [a[0] as char] + AsciiText(a[1..]);
      AroundNests([a[0] as char], AsciiText(a[1..]), DecodeUtf8(s), "");
    }
  }

  lemma AroundNests(outer: string, inner: string, text: Option<string>, end: string)
    ensures Around(outer, Around(inner, text, ""), "") == Around(outer + inner, text, "")
    ensures Around(outer, Around("", text, end), "") == Around("", Around(outer, text, ""), end)
    ensures Around("", text, "") == text
  {
    if text.Some? {
      var t := text.value;
      assert outer + (inner + t + "") + "" == outer + inner + t + "";
      assert outer + ("" + t + end) + "" == "" + (outer + t + "") + end;
      assert "" + t + "" == t;
    }
  }

  /** Bytes after an ASCII byte never become part of the sequence in front of it. */
  lemma Utf8LenSuffix(s: seq<Byte>, a: seq<Byte>)
    requires s != [] && IsAscii(a)
    ensures Utf8Len(s + a) == Utf8Len(s)
    ensures Utf8Len(s) > 0 ==> FirstChar(s + a) == FirstChar(s)
  {
    assert forall i :: 0 <= i < |s| ==> (s + a)[i] == s[i];
    assert a != [] ==> (s + a)[|s|] == a[0] && !IsTail(a[0]);
  }

  lemma DecodeStep(s: seq<Byte>)
    requires s != [] && Utf8Len(s) > 0
    ensures DecodeUtf8(s) == Around([FirstChar(s)], DecodeUtf8(s[Utf8Len(s)..]), "")
  {
  }

  lemma SameRest(s: seq<Byte>, a: seq<Byte>)
    requires IsAscii(a) && s != [] && Utf8Len(s) > 0
    ensures Utf8Len(s + a) == Utf8Len(s) && FirstChar(s + a) == FirstChar(s)
    ensures (s + a)[Utf8Len(s)..] == s[Utf8Len(s)..] + a
  {
    Utf8LenSuffix(s, a);
  }

  /** Appending ASCII can neither complete nor break the text in front of it. */
  lemma {:induction false} DecodeAsciiSuffix(s: seq<Byte>, a: seq<Byte>)
    requires IsAscii(a)
    ensures DecodeUtf8(s + a) == Around("", DecodeUtf8(s), AsciiText(a))
    decreases |s|
  {
    if s == [] {
      DecodeAsciiPrefix(a, []);
      assert s + a == a == a + [];
      assert AsciiText(a) + "" + "" == "" + "" + AsciiText(a);
    } else if Utf8Len(s) > 0 {
      var rest := s[Utf8Len(s)..];
      DecodeAsciiSuffix(rest, a);
      SameRest(s, a);
      DecodeStep(s);
      DecodeStep(s + a);
      AroundNests([FirstChar(s)], "", DecodeUtf8(rest), AsciiText(a));
    } else {
      Utf8LenSuffix(s, a);
    }
  }

  // ── trimming and case folding ────────────────────────────────────────────

  /** Unicode White_Space. */
  predicate IsWhitespace(c: char) {
    var n := c as int;
    9 <= n <= 13 || n in {0x20, 0x85, 0xA0, 0x1680, 0x2028, 0x2029, 0x202F, 0x205F, 0x3000} || 0x2000 <= n <= 0x200A
  }

  predicate IsLineEnd(c: char) {
    c == '\r' || c == '\n'
  }

  function DropLeading(s: string, drop: char -> bool): string {
    if s != "" && drop(s[0]) then DropLeading(s[1..], drop) else s
  }

  function DropTrailing(s: string, drop: char -> bool): string {
    if s != "" && drop(s[|s| - 1]) then DropTrailing(s[..|s| - 1], drop) else s
  }

  function Trim(s: string): string {
    DropTrailing(DropLeading(s, IsWhitespace), IsWhitespace)
  }

  /** The part of `s` before the first `c`. */
  function UpTo(s: string, c: char): string {
    if s == "" || s[0] == c then "" else [s[0]] + UpTo(s[1..], c)
  }

  function LowerChar(c: char): char {
    if 'A' <= c <= 'Z' then (c as int + 32) as char else c
  }

  function AsciiLower(s: string): string {
    seq(|s|, i requires 0 <= i < |s| => LowerChar(s[i]))
  }

  predicate EqIgnoreAsciiCase(a: string, b: string) {
    AsciiLower(a) == AsciiLower(b)
  }

  predicate Contains(s: string, part: string) {
    exists i :: 0 <= i <= |s| - |part| && part <= s[i..]
  }

  // ── unsigned numbers ─────────────────────────────────────────────────────

  const U64_LIMIT := 0x1_0000_0000_0000_0000

  function Digit(c: char): nat {
    if '0' <= c <= '9' then c as int - '0' as int
    else if 'a' <= c <= 'z' then c as int - 'a' as int + 10
    else if 'A' <= c <= 'Z' then c as int - 'A' as int + 10
    else 36
  }

  predicate IsNumeral(s: string, radix: nat) {
    forall i :: 0 <= i < |s| ==> Digit(s[i]) < radix
  }

  function NumeralValue(s: string, radix: nat): nat {
    if s == "" then 0 else NumeralValue(s[..|s| - 1], radix) * radix + Digit(s[|s| - 1])
  }

  /** A u64 in the given radix: an optional plus sign, at least one digit, no overflow. */
  function ParseU64(s: string, radix: nat): Option<nat> {
    var digits := if s != "" && s[0] == '+' then s[1..] else s;
    if digits != "" && IsNumeral(digits, radix) && NumeralValue(digits, radix) < U64_LIMIT
    then Some(NumeralValue(digits, radix))
    else None
  }
}
