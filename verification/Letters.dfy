/** Letters and words by the alphabet, in either case, and the characters of a subdomain label. */
module Letters {
  import opened Basics
  import opened Text

  // ── words in any case ────────────────────────────────────────────────────

  const DIGITS := "0123456789"
  const CAPITALS := "ABCDEFGHIJKLMNOPQRSTUVWXYZ"
  const SMALLS := "abcdefghijklmnopqrstuvwxyz"

  /** The same character, or the same letter in the other case. */
  predicate SameLetter(a: char, b: char) {
    a == b || exists i :: 0 <= i < 26 && (a == CAPITALS[i] || a == SMALLS[i]) && (b == CAPITALS[i] || b == SMALLS[i])
  }

  predicate SameWord(a: string, b: string) {
    |a| == |b| && forall i :: 0 <= i < |a| ==> SameLetter(a[i], b[i])
  }

  lemma Letter(i: nat)
    requires i < 26
    ensures CAPITALS[i] as int == 65 + i && SMALLS[i] as int == 97 + i
  {
    if i < 9 {
      assert i == 0 || i == 1 || i == 2 || i == 3 || i == 4 || i == 5 || i == 6 || i == 7 || i == 8;
    } else if i < 18 {
      assert i == 9 || i == 10 || i == 11 || i == 12 || i == 13 || i == 14 || i == 15 || i == 16 || i == 17;
    } else {
      assert i == 18 || i == 19 || i == 20 || i == 21 || i == 22 || i == 23 || i == 24 || i == 25;
    }
  }

  lemma CasesFold(i: nat, a: char, b: char)
    requires i < 26 && (a == CAPITALS[i] || a == SMALLS[i]) && (b == CAPITALS[i] || b == SMALLS[i])
    ensures LowerChar(a) == LowerChar(b)
  {
    Letter(i);
  }

  lemma FoldedAreCases(a: char, b: char)
    requires LowerChar(a) == LowerChar(b) && a != b
    ensures 0 <= LowerChar(a) as int - 97 < 26
    ensures var i := LowerChar(a) as int - 97;
            (a == CAPITALS[i] || a == SMALLS[i]) && (b == CAPITALS[i] || b == SMALLS[i])
  {
    Letter(LowerChar(a) as int - 97);
  }

  lemma SameLetterIsExact(a: char, b: char)
    ensures SameLetter(a, b) <==> LowerChar(a) == LowerChar(b)
  {
    if SameLetter(a, b) && a != b {
      var i :| 0 <= i < 26 && (a == CAPITALS[i] || a == SMALLS[i]) && (b == CAPITALS[i] || b == SMALLS[i]);
      CasesFold(i, a, b);
    }
    if LowerChar(a) == LowerChar(b) && a != b {
      FoldedAreCases(a, b);
    }
  }

  lemma SameWordIsExact(a: string, b: string)
    ensures SameWord(a, b) <==> EqIgnoreAsciiCase(a, b)
  {
    forall i | 0 <= i < |a| && |a| == |b|
      ensures SameLetter(a[i], b[i]) <==> AsciiLower(a)[i] == AsciiLower(b)[i]
    {
      SameLetterIsExact(a[i], b[i]);
    }
    if EqIgnoreAsciiCase(a, b) {
      assert |AsciiLower(a)| == |AsciiLower(b)|;
    }
  }

  // ── labels ───────────────────────────────────────────────────────────────

  /** A letter, a digit or a hyphen (the letter-digit-hyphen rule of section 2.3.1 of RFC 1035). */
  predicate LetterDigitHyphen(c: char) {
    c in DIGITS || c in SMALLS || c in CAPITALS || c == '-'
  }

  lemma DigitChar(c: char)
    ensures c in DIGITS <==> '0' <= c <= '9'
  {
    if '0' <= c <= '9' {
      var d := c as int - 48;
      assert d == 0 || d == 1 || d == 2 || d == 3 || d == 4 || d == 5 || d == 6 || d == 7 || d == 8 || d == 9;
      assert DIGITS[d] == c;
    }
  }

  lemma LetterChar(c: char)
    ensures c in SMALLS <==> 'a' <= c <= 'z'
    ensures c in CAPITALS <==> 'A' <= c <= 'Z'
  {
    forall i | 0 <= i < 26
      ensures CAPITALS[i] as int == 65 + i && SMALLS[i] as int == 97 + i
    {
      Letter(i);
    }
    if 'a' <= c <= 'z' {
      assert SMALLS[c as int - 97] == c;
    }
    if 'A' <= c <= 'Z' {
      assert CAPITALS[c as int - 65] == c;
    }
  }

  // ── white space ──────────────────────────────────────────────────────────

  /** The characters with the Unicode property White_Space. */
  const BLANKS := "\U{9}\U{A}\U{B}\U{C}\U{D}\U{20}\U{85}\U{A0}\U{1680}" +
                  "\U{2000}\U{2001}\U{2002}\U{2003}\U{2004}\U{2005}\U{2006}\U{2007}\U{2008}\U{2009}\U{200A}" +
                  "\U{2028}\U{2029}\U{202F}\U{205F}\U{3000}"

  predicate Blank(c: char) {
    c in BLANKS
  }

  lemma BlankIsExact(c: char)
    ensures Blank(c) <==> IsWhitespace(c)
  {
  }
}
