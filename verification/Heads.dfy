/** Finding the end of a message head, and when that does not depend on how the bytes arrive. */
module Heads {
  import opened Basics

  const CRLF_CRLF: seq<Byte> := [CR, LF, CR, LF]
  const LF_LF: seq<Byte> := [LF, LF]

  predicate OccursAt(buf: seq<Byte>, pattern: seq<Byte>, i: nat) {
    i + |pattern| <= |buf| && buf[i..i + |pattern|] == pattern
  }

  /** The first occurrence of `pattern` at or after `from`. */
  function FindFrom(buf: seq<Byte>, pattern: seq<Byte>, from: nat): (r: Option<nat>)
    ensures r.Some? ==> from <= r.value && OccursAt(buf, pattern, r.value)
    ensures forall j :: from <= j && (r.Some? ==> j < r.value) ==> !OccursAt(buf, pattern, j)
    decreases |buf| - from
  {
    if from + |pattern| > |buf| then None
    else if OccursAt(buf, pattern, from) then Some(from)
    else FindFrom(buf, pattern, from + 1)
  }

  /** Offset just past the first `pattern`. */
  function EndOf(buf: seq<Byte>, pattern: seq<Byte>): Option<nat> {
    match FindFrom(buf, pattern, 0)
    case None => None
    case Some(i) => Some(i + |pattern|)
  }

  /** Offset just past the blank line that ends the head; CR LF CR LF is preferred wherever it is. */
  function HeadEnd(buf: seq<Byte>): (r: Option<nat>)
    ensures r.Some? ==> 2 <= r.value <= |buf|
  {
    match EndOf(buf, CRLF_CRLF)
    case Some(end) => Some(end)
    case None => EndOf(buf, LF_LF)
  }

  predicate FirstEndsAt(buf: seq<Byte>, pattern: seq<Byte>, end: nat) {
    && |pattern| <= end && OccursAt(buf, pattern, end - |pattern|)
    && forall j :: 0 <= j < end - |pattern| ==> !OccursAt(buf, pattern, j)
  }

  predicate Occurs(buf: seq<Byte>, pattern: seq<Byte>) {
    exists j :: 0 <= j < |buf| && OccursAt(buf, pattern, j)
  }

  lemma EndOfIsFirst(buf: seq<Byte>, pattern: seq<Byte>, end: nat)
    requires pattern != []
    ensures EndOf(buf, pattern) == Some(end) <==> FirstEndsAt(buf, pattern, end)
    ensures EndOf(buf, pattern) == None <==> !Occurs(buf, pattern)
  {
    var r := FindFrom(buf, pattern, 0);
    if r.Some? {
      assert FirstEndsAt(buf, pattern, r.value + |pattern|);
      if FirstEndsAt(buf, pattern, end) {
        assert !(r.value < end - |pattern|) && !(end - |pattern| < r.value);
      }
    }
  }

  /** The head ends after the first CR LF CR LF, or after the first LF LF if there is no CR LF CR LF at all. */
  lemma HeadEndIsExact(buf: seq<Byte>, end: nat)
    ensures HeadEnd(buf) == Some(end) <==>
            FirstEndsAt(buf, CRLF_CRLF, end) || (!Occurs(buf, CRLF_CRLF) && FirstEndsAt(buf, LF_LF, end))
    ensures HeadEnd(buf) == None <==> !Occurs(buf, CRLF_CRLF) && !Occurs(buf, LF_LF)
  {
    EndOfIsFirst(buf, CRLF_CRLF, end);
    EndOfIsFirst(buf, LF_LF, end);
  }

  /** What the parser concludes from a buffer of unread bytes. */
  datatype Verdict = Wait | Found(end: nat) | TooLong

  function Conclude(buf: seq<Byte>): Verdict {
    match HeadEnd(buf)
    case Some(end) => Found(end)
    case None => if |buf| > MAX_HEAD then TooLong else Wait
  }

  /** No proper prefix of the head would have been read differently. */
  predicate SplitSafe(buf: seq<Byte>) {
    HeadEnd(buf).Some? ==>
      && HeadEnd(buf).value <= MAX_HEAD + 1
      && (EndOf(buf, LF_LF).Some? ==> HeadEnd(buf).value <= EndOf(buf, LF_LF).value)
  }

  lemma EndOfPrefix(buf: seq<Byte>, pattern: seq<Byte>, n: nat)
    requires n <= |buf| && pattern != []
    ensures EndOf(buf[..n], pattern)
         == if EndOf(buf, pattern).Some? && EndOf(buf, pattern).value <= n then EndOf(buf, pattern) else None
  {
    forall j: nat
      ensures OccursAt(buf[..n], pattern, j) <==> OccursAt(buf, pattern, j) && j + |pattern| <= n
    {
      if j + |pattern| <= n {
        assert buf[..n][j..j + |pattern|] == buf[j..j + |pattern|];
      }
    }
  }

  /** CR LF CR LF and LF LF never end at the same place. */
  lemma EndsDiffer(buf: seq<Byte>)
    ensures EndOf(buf, CRLF_CRLF).Some? ==> buf[EndOf(buf, CRLF_CRLF).value - 2] == CR
    ensures EndOf(buf, LF_LF).Some? ==> buf[EndOf(buf, LF_LF).value - 2] == LF
  {
    var crlf, lf := EndOf(buf, CRLF_CRLF), EndOf(buf, LF_LF);
    if crlf.Some? {
      assert buf[crlf.value - 4..crlf.value][2] == CR;
    }
    if lf.Some? {
      assert buf[lf.value - 2..lf.value][0] == LF;
    }
  }

  /** A shorter buffer never reads differently, provided the longer one is safe. */
  lemma PrefixAgrees(buf: seq<Byte>, n: nat)
    requires n <= |buf| && SplitSafe(buf)
    ensures Conclude(buf[..n]) == Wait || Conclude(buf[..n]) == Conclude(buf)
  {
    EndOfPrefix(buf, CRLF_CRLF, n);
    EndOfPrefix(buf, LF_LF, n);
    EndsDiffer(buf);
  }

  /** A head is found at the same place however its bytes arrive if and only if it is split safe. */
  lemma SplitSafeIsExact(buf: seq<Byte>)
    ensures SplitSafe(buf) <==>
            forall n :: 0 <= n <= |buf| ==> Conclude(buf[..n]) == Wait || Conclude(buf[..n]) == Conclude(buf)
  {
    if SplitSafe(buf) {
      forall n | 0 <= n <= |buf|
        ensures Conclude(buf[..n]) == Wait || Conclude(buf[..n]) == Conclude(buf)
      {
        PrefixAgrees(buf, n);
      }
    } else {
      var n := UnsafeCut(buf);
    }
  }

  /** An unsafe head comes with a cut at which it is read differently. */
  lemma UnsafeCut(buf: seq<Byte>) returns (n: nat)
    requires !SplitSafe(buf)
    ensures n < HeadEnd(buf).value <= |buf|
    ensures Conclude(buf[..n]) != Wait && Conclude(buf[..n]) != Conclude(buf)
  {
    EndsDiffer(buf);
    var end := HeadEnd(buf).value;
    var lf := EndOf(buf, LF_LF);
    n := if lf.Some? && lf.value < end then lf.value else end - 1;
    EndOfPrefix(buf, CRLF_CRLF, n);
    EndOfPrefix(buf, LF_LF, n);
  }
}
