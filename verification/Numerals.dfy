/**
 What a numeral means, written out from the alphabet: digits of either case, most significant first.
 The parser of unsigned numbers accepts exactly these, within 64 bits.
 */
module Numerals {
  import opened Basics
  import opened Text
  import opened Letters

  const LOWER := "0123456789abcdef"
  const UPPER := "0123456789ABCDEF"

  /** The character is the digit with value `d`, in either case. */
  predicate Spells(c: char, d: nat) {
    d < 16 && (c == LOWER[d] || c == UPPER[d])
  }

  predicate SpelledBy(text: string, ds: seq<nat>, radix: nat) {
    |text| == |ds| && forall i :: 0 <= i < |ds| ==> ds[i] < radix && Spells(text[i], ds[i])
  }

  function Power(radix: nat, n: nat): nat {
    if n == 0 then 1 else radix * Power(radix, n - 1)
  }

  /** The number that digits stand for, each weighed by its place. */
  function Positional(ds: seq<nat>, radix: nat): nat {
    if ds == [] then 0 else ds[0] * Power(radix, |ds| - 1) + Positional(ds[1..], radix)
  }

  /** `text` is a numeral for `n`. */
  ghost predicate Writes(text: string, n: nat, radix: nat) {
    text != "" && exists ds :: SpelledBy(text, ds, radix) && Positional(ds, radix) == n
  }

  // ── digits ───────────────────────────────────────────────────────────────

  lemma LowerDigit(d: nat)
    requires d < 16
    ensures Digit(LOWER[d]) == d
  {
    if d < 8 {
      assert d == 0 || d == 1 || d == 2 || d == 3 || d == 4 || d == 5 || d == 6 || d == 7;
    } else {
      assert d == 8 || d == 9 || d == 10 || d == 11 || d == 12 || d == 13 || d == 14 || d == 15;
    }
  }

  lemma UpperDigit(d: nat)
    requires d < 16
    ensures Digit(UPPER[d]) == d
  {
    if d < 8 {
      assert d == 0 || d == 1 || d == 2 || d == 3 || d == 4 || d == 5 || d == 6 || d == 7;
    } else {
      assert d == 8 || d == 9 || d == 10 || d == 11 || d == 12 || d == 13 || d == 14 || d == 15;
    }
  }

  /** The parser's digit values are those of the alphabet. */
  lemma DigitIsExact(c: char, d: nat)
    requires d < 16
    ensures Spells(c, d) <==> Digit(c) == d
  {
    LowerDigit(d);
    UpperDigit(d);
    if Digit(c) == d {
      SameDigit(c, LOWER[d], UPPER[d]);
    }
  }

  /** A digit value has one decimal character, or one letter in two cases. */
  lemma SameDigit(c: char, lower: char, upper: char)
    requires Digit(c) == Digit(lower) == Digit(upper) < 16
    requires lower as int <= '9' as int || 'a' <= lower <= 'f'
    requires upper as int <= '9' as int || 'A' <= upper <= 'F'
    ensures c == lower || c == upper
  {
  }

  // ── places ───────────────────────────────────────────────────────────────

  lemma {:induction false} PositionalSnoc(ds: seq<nat>, d: nat, radix: nat)
    ensures Positional(ds + [d], radix) == Positional(ds, radix) * radix + d
    decreases |ds|
  {
    if ds == [] {
      assert ds + [d] == [d] && [d][1..] == [];
      assert Power(radix, 0) == 1;
    } else {
      assert (ds + [d])[1..] == ds[1..] + [d];
      PositionalSnoc(ds[1..], d, radix);
      var p := Power(radix, |ds| - 1);
      assert Power(radix, |ds|) == radix * p;
      assert ds[0] * (radix * p) + Positional(ds[1..], radix) * radix
          == (ds[0] * p + Positional(ds[1..], radix)) * radix;
    }
  }

  /** What the parser computes is the positional value of the digits it reads. */
  lemma {:induction false} ValueIsPositional(text: string, ds: seq<nat>, radix: nat)
    requires SpelledBy(text, ds, radix)
    ensures IsNumeral(text, radix) && NumeralValue(text, radix) == Positional(ds, radix)
    decreases |text|
  {
    forall i | 0 <= i < |text|
      ensures Digit(text[i]) == ds[i]
    {
      DigitIsExact(text[i], ds[i]);
    }
    if text != "" {
      var n := |text| - 1;
      ValueIsPositional(text[..n], ds[..n], radix);
      PositionalSnoc(ds[..n], ds[n], radix);
      assert ds == ds[..n] + [ds[n]];
    }
  }

  function DigitsOf(text: string): seq<nat> {
    seq(|text|, i requires 0 <= i < |text| => Digit(text[i]))
  }

  lemma NumeralIsSpelled(text: string, radix: nat)
    requires IsNumeral(text, radix) && radix <= 16
    ensures SpelledBy(text, DigitsOf(text), radix)
  {
    forall i | 0 <= i < |text|
      ensures Spells(text[i], DigitsOf(text)[i])
    {
      DigitIsExact(text[i], Digit(text[i]));
    }
  }

  lemma WritesIsNumeral(text: string, n: nat, radix: nat)
    requires radix <= 16
    ensures Writes(text, n, radix) <==> text != "" && IsNumeral(text, radix) && NumeralValue(text, radix) == n
  {
    if Writes(text, n, radix) {
      var ds :| SpelledBy(text, ds, radix) && Positional(ds, radix) == n;
      ValueIsPositional(text, ds, radix);
    }
    if IsNumeral(text, radix) {
      NumeralIsSpelled(text, radix);
      ValueIsPositional(text, DigitsOf(text), radix);
    }
  }

  /** A numeral below 2^64, perhaps after a plus sign. */
  ghost predicate IsNumber(text: string, n: nat, radix: nat) {
    && n < 0x1_0000_0000_0000_0000
    && (Writes(text, n, radix) || (text != "" && text[0] == '+' && Writes(text[1..], n, radix)))
  }

  /** Exactly what the parser of unsigned numbers accepts. */
  lemma ParseIsExact(text: string, n: nat, radix: nat)
    requires radix <= 16
    ensures ParseU64(text, radix) == Some(n) <==> IsNumber(text, n, radix)
  {
    WritesIsNumeral(text, n, radix);
    if text != "" && text[0] == '+' {
      WritesIsNumeral(text[1..], n, radix);
      assert Digit(text[0]) == 36;
    }
  }

  // ── writing a number ─────────────────────────────────────────────────────

  /** The two radices that the protocol uses. */
  predicate DecOrHex(radix: nat) {
    radix == 10 || radix == 16
  }

  /** The shortest digits of `n`, most significant first. */
  function Digits(n: nat, radix: nat): seq<nat>
    requires DecOrHex(radix)
  {
    if n < radix then [n]
    else if radix == 10 then Digits(n / 10, radix) + [n % 10]
    else Digits(n / 16, radix) + [n % 16]
  }

  function InLower(ds: seq<nat>): string
    requires forall i :: 0 <= i < |ds| ==> ds[i] < 16
  {
    seq(|ds|, i requires 0 <= i < |ds| => LOWER[ds[i]])
  }

  lemma {:induction false} DigitsStandFor(n: nat, radix: nat)
    requires DecOrHex(radix)
    ensures Positional(Digits(n, radix), radix) == n && Digits(n, radix) != []
    ensures forall i :: 0 <= i < |Digits(n, radix)| ==> Digits(n, radix)[i] < radix
  {
    if n < radix {
      assert Power(radix, 0) == 1;
      assert [n][1..] == [];
    } else if radix == 10 {
      DigitsStandFor(n / 10, radix);
      PositionalSnoc(Digits(n / 10, radix), n % 10, radix);
    } else {
      DigitsStandFor(n / 16, radix);
      PositionalSnoc(Digits(n / 16, radix), n % 16, radix);
    }
  }

  /** Writing and parsing: in either radix, every number below 2^64 is read back from its digits. */
  lemma NumberRoundTrip(n: nat, radix: nat)
    requires DecOrHex(radix)
    ensures (forall i :: 0 <= i < |Digits(n, radix)| ==> Digits(n, radix)[i] < 16)
    ensures Writes(InLower(Digits(n, radix)), n, radix)
    ensures n < 0x1_0000_0000_0000_0000 ==> ParseU64(InLower(Digits(n, radix)), radix) == Some(n)
  {
    DigitsStandFor(n, radix);
    var ds := Digits(n, radix);
    assert SpelledBy(InLower(ds), ds, radix);
    ParseIsExact(InLower(ds), n, radix);
  }

  // ── trimming ─────────────────────────────────────────────────────────────

  predicate AllOf(s: string, drop: char -> bool) {
    forall i :: 0 <= i < |s| ==> drop(s[i])
  }

  lemma {:induction false} DropLeadingIsExact(s: string, drop: char -> bool) returns (cut: string)
    ensures s == cut + DropLeading(s, drop) && AllOf(cut, drop)
    ensures DropLeading(s, drop) == "" || !drop(DropLeading(s, drop)[0])
    decreases |s|
  {
    if s != "" && drop(s[0]) {
      cut := DropLeadingIsExact(s[1..], drop);
      cut := [s[0]] + cut;
    } else {
      cut := "";
    }
  }

  lemma {:induction false} DropTrailingIsExact(s: string, drop: char -> bool) returns (cut: string)
    ensures s == DropTrailing(s, drop) + cut && AllOf(cut, drop)
    ensures var kept := DropTrailing(s, drop); kept == "" || !drop(kept[|kept| - 1])
    decreases |s|
  {
    if s != "" && drop(s[|s| - 1]) {
      cut := DropTrailingIsExact(s[..|s| - 1], drop);
      cut := cut + [s[|s| - 1]];
    } else {
      cut := "";
    }
  }

  /** `text` with white space around it. */
  predicate Padded(v: string, front: string, text: string, back: string) {
    v == front + text + back && AllOf(front, Blank) && AllOf(back, Blank)
  }

  /** A number, perhaps with white space around it. */
  ghost predicate SaysNumber(v: string, n: nat, radix: nat) {
    exists front, text, back :: Padded(v, front, text, back) && IsNumber(text, n, radix)
  }

  lemma BlanksAreWhite(s: string)
    ensures AllOf(s, Blank) <==> AllOf(s, IsWhitespace)
  {
    forall i | 0 <= i < |s|
      ensures Blank(s[i]) <==> IsWhitespace(s[i])
    {
      BlankIsExact(s[i]);
    }
  }

  /** Trimming removes white space from both ends, and nothing else. */
  lemma TrimIsExact(s: string) returns (front: string, back: string)
    ensures s == front + Trim(s) + back && AllOf(front, IsWhitespace) && AllOf(back, IsWhitespace)
    ensures Trim(s) != "" ==> !IsWhitespace(Trim(s)[0]) && !IsWhitespace(Trim(s)[|Trim(s)| - 1])
  {
    front := DropLeadingIsExact(s, IsWhitespace);
    var rest := DropLeading(s, IsWhitespace);
    back := DropTrailingIsExact(rest, IsWhitespace);
    assert Trim(s) != "" ==> Trim(s)[0] == rest[0];
  }

  lemma {:induction false} DropLeadingUndoes(front: string, text: string, drop: char -> bool)
    requires AllOf(front, drop) && text != "" && !drop(text[0])
    ensures DropLeading(front + text, drop) == text
    decreases |front|
  {
    if front == "" {
      assert front + text == text;
    } else {
      DropLeadingUndoes(front[1..], text, drop);
      assert (front + text)[1..] == front[1..] + text;
    }
  }

  lemma {:induction false} DropTrailingUndoes(text: string, back: string, drop: char -> bool)
    requires AllOf(back, drop) && text != "" && !drop(text[|text| - 1])
    ensures DropTrailing(text + back, drop) == text
    decreases |back|
  {
    if back == "" {
      assert text + back == text;
    } else {
      DropTrailingUndoes(text, back[..|back| - 1], drop);
      assert (text + back)[..|text + back| - 1] == text + back[..|back| - 1];
    }
  }

  lemma TrimUndoes(v: string, front: string, text: string, back: string)
    requires Padded(v, front, text, back)
    requires text != "" && !IsWhitespace(text[0]) && !IsWhitespace(text[|text| - 1])
    ensures Trim(v) == text
  {
    BlanksAreWhite(front);
    BlanksAreWhite(back);
    assert v == front + (text + back);
    DropLeadingUndoes(front, text + back, IsWhitespace);
    DropTrailingUndoes(text, back, IsWhitespace);
  }

  lemma NumbersAreNotBlank(text: string, n: nat, radix: nat)
    requires IsNumber(text, n, radix) && radix <= 16
    ensures text != "" && !IsWhitespace(text[0]) && !IsWhitespace(text[|text| - 1])
    ensures ParseU64(text, radix) == Some(n)
  {
    ParseIsExact(text, n, radix);
    assert text[0] == '+' || Digit(text[0]) < 16;
    assert text == "+" || Digit(text[|text| - 1]) < 16;
  }

  lemma SaysNumberIsExact(v: string, n: nat, radix: nat)
    requires radix <= 16
    ensures SaysNumber(v, n, radix) <==> ParseU64(Trim(v), radix) == Some(n)
  {
    if SaysNumber(v, n, radix) {
      var front, text, back :| Padded(v, front, text, back) && IsNumber(text, n, radix);
      NumbersAreNotBlank(text, n, radix);
      TrimUndoes(v, front, text, back);
    }
    if ParseU64(Trim(v), radix) == Some(n) {
      ParseIsExact(Trim(v), n, radix);
      var front, back := TrimIsExact(v);
      BlanksAreWhite(front);
      BlanksAreWhite(back);
      assert Padded(v, front, Trim(v), back);
    }
  }

  /** White space at the end of a number makes no difference. */
  lemma EndsMayBeCut(v: string, cut: string, n: nat, radix: nat)
    requires AllOf(cut, Blank) && radix <= 16
    ensures SaysNumber(v + cut, n, radix) <==> SaysNumber(v, n, radix)
  {
    if SaysNumber(v, n, radix) {
      MoreAtTheEnd(v, cut, n, radix);
    }
    if SaysNumber(v + cut, n, radix) {
      var front, text, back :| Padded(v + cut, front, text, back) && IsNumber(text, n, radix);
      NumbersAreNotBlank(text, n, radix);
      BackHoldsCut(v, cut, front, text, back);
    }
  }

  lemma AllOfBoth(a: string, b: string, drop: char -> bool)
    requires AllOf(a, drop) && AllOf(b, drop)
    ensures AllOf(a + b, drop)
  {
  }

  lemma MoreAtTheEnd(v: string, cut: string, n: nat, radix: nat)
    requires AllOf(cut, Blank) && SaysNumber(v, n, radix)
    ensures SaysNumber(v + cut, n, radix)
  {
    var front, text, back :| Padded(v, front, text, back) && IsNumber(text, n, radix);
    Regroup(front + text, back, cut);
    AllOfBoth(back, cut, Blank);
    assert Padded(v + cut, front, text, back + cut);
  }

  lemma BackHoldsCut(v: string, cut: string, front: string, text: string, back: string)
    requires AllOf(cut, Blank) && Padded(v + cut, front, text, back)
    requires text != "" && !IsWhitespace(text[|text| - 1])
    ensures |cut| <= |back| && Padded(v, front, text, back[..|back| - |cut|])
  {
    var last := |front + text| - 1;
    assert (v + cut)[last] == text[|text| - 1];
    BlankIsExact(text[|text| - 1]);
    assert forall i :: |v| <= i < |v + cut| ==> Blank((v + cut)[i]);
    assert v == (v + cut)[..|v|];
    assert v == front + text + back[..|back| - |cut|];
  }

  /** The part before the first `c`, or all of it. */
  lemma {:induction false} UpToIsExact(s: string, c: char)
    ensures var t := UpTo(s, c); t <= s && c !in t && (t == s || s[|t|] == c)
    decreases |s|
  {
    if s != "" && s[0] != c {
      UpToIsExact(s[1..], c);
    }
  }
}
