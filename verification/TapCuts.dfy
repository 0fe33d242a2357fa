/**
 Where slicing matters: from any state between calls, in either direction, a head that is not split safe
 has a cut, and some head parser, that leave a different state.

 The parser gives the whole head a mark that nothing else has; the mark is in the queue or the records
 when the head came at once, and nowhere when it came in the two parts.
 */
module TapCuts {
  import opened Basics
  import opened Heads
  import opened HttpTap
  import opened TapSplit
  import opened TapStreams

  // ── marks ────────────────────────────────────────────────────────────────

  predicate Marked(side: Side, s: Tap, q: RequestHead, r: ResponseHead) {
    match side
    case Request => exists i :: 0 <= i < |s.pending| && s.pending[i].head == q
    case Response =>
      || (exists i :: 0 <= i < |s.records| && s.records[i].response.head == r)
      || (s.current.Some? && s.current.value.head == r)
  }

  /** Nothing shorter than `n` bytes is parsed to the mark. */
  ghost predicate MarksLong(P: Parsers, n: nat, q: RequestHead, r: ResponseHead) {
    forall head :: |head| < n ==> P.request(head) != Some(q) && P.response(head) != Some(r)
  }

  lemma HeadUnmarked(P: Parsers, side: Side, s: Tap, head: seq<Byte>, q: RequestHead, r: ResponseHead)
    requires !Marked(side, s, q, r) && P.request(head) != Some(q) && P.response(head) != Some(r)
    ensures !Marked(side, OnHead(P, side, s, head).0, q, r)
    ensures |OnHead(P, side, s, head).0.At(side).buffer| <= |s.At(side).buffer|
  {
  }

  lemma BodyUnmarked(P: Parsers, side: Side, s: Tap, q: RequestHead, r: ResponseHead)
    requires !Marked(side, s, q, r) && s.At(side).mode.InBody?
    ensures !Marked(side, Step(P, side, s).0, q, r)
    ensures |Step(P, side, s).0.At(side).buffer| <= |s.At(side).buffer|
  {
  }

  lemma StepUnmarked(P: Parsers, side: Side, s: Tap, n: nat, q: RequestHead, r: ResponseHead)
    requires !Marked(side, s, q, r) && |s.At(side).buffer| < n && MarksLong(P, n, q, r)
    ensures !Marked(side, Step(P, side, s).0, q, r)
    ensures |Step(P, side, s).0.At(side).buffer| <= |s.At(side).buffer|
  {
    var buf := s.At(side).buffer;
    if s.At(side).mode == Head && Conclude(buf).Found? {
      var end := Conclude(buf).end;
      HeadUnmarked(P, side, s.With(side, Dir(Head, buf[end..])), buf[..end], q, r);
    } else if s.At(side).mode.InBody? {
      BodyUnmarked(P, side, s, q, r);
    }
  }

  lemma {:induction false} DrainUnmarked(P: Parsers, side: Side, s: Tap, n: nat, q: RequestHead, r: ResponseHead)
    requires !Marked(side, s, q, r) && |s.At(side).buffer| < n && MarksLong(P, n, q, r)
    ensures !Marked(side, Drain(P, side, s), q, r)
    ensures |Drain(P, side, s).At(side).buffer| <= |Step(P, side, s).0.At(side).buffer|
    decreases |s.At(side).buffer|
  {
    StepUnmarked(P, side, s, n, q, r);
    if Step(P, side, s).1 {
      StepUnmarked(P, side, Step(P, side, s).0, n, q, r);
      DrainUnmarked(P, side, Step(P, side, s).0, n, q, r);
    }
  }

  /** The mark is where only later marks could move it away: at the end of the queue, or in the records. */
  predicate Stamped(side: Side, s: Tap, q: RequestHead, r: ResponseHead) {
    match side
    case Request => s.pending != [] && s.pending[|s.pending| - 1].head == q
    case Response => exists i :: 0 <= i < |s.records| && s.records[i].response.head == r
  }

  /** Every request head is parsed to the mark, if at all. */
  ghost predicate MarksAll(P: Parsers, q: RequestHead) {
    forall head :: P.request(head) == None || P.request(head) == Some(q)
  }

  lemma StepKeeps(P: Parsers, side: Side, s: Tap, q: RequestHead, r: ResponseHead)
    requires Stamped(side, s, q, r) && (side == Request ==> MarksAll(P, q))
    ensures Stamped(side, Step(P, side, s).0, q, r)
  {
    if side == Response {
      RecordsGrow(P, s);
      var i :| 0 <= i < |s.records| && s.records[i].response.head == r;
      assert Step(P, side, s).0.records[i] == s.records[i];
    }
  }

  lemma RecordsGrow(P: Parsers, s: Tap)
    ensures s.records <= Step(P, Response, s).0.records
  {
  }

  lemma {:induction false} DrainKeeps(P: Parsers, side: Side, s: Tap, q: RequestHead, r: ResponseHead)
    requires Stamped(side, s, q, r) && (side == Request ==> MarksAll(P, q))
    ensures Stamped(side, Drain(P, side, s), q, r)
    decreases |s.At(side).buffer|
  {
    StepKeeps(P, side, s, q, r);
    if Step(P, side, s).1 {
      DrainKeeps(P, side, Step(P, side, s).0, q, r);
    }
  }

  // ── a mark that nothing else has ─────────────────────────────────────────

  function Volume<T>(xs: seq<T>, size: T -> nat): nat {
    if xs == [] then 0 else size(xs[0]) + Volume(xs[1..], size)
  }

  lemma {:induction false} VolumeBounds<T>(xs: seq<T>, size: T -> nat, i: nat)
    requires i < |xs|
    ensures size(xs[i]) <= Volume(xs, size)
  {
    if i > 0 {
      VolumeBounds(xs[1..], size, i - 1);
    }
  }

  function VerbSize(p: PendingRequest): nat {
    |p.head.verb|
  }

  function HeadersSize(e: Exchange): nat {
    |e.response.head.headers|
  }

  function ParsedVerb(P: Parsers, head: seq<Byte>): nat {
    match P.request(head) case None => 0 case Some(q) => |q.verb|
  }

  function ParsedHeaders(P: Parsers, head: seq<Byte>): nat {
    match P.response(head) case None => 0 case Some(r) => |r.headers|
  }

  function FreshRequest(P: Parsers, s: Tap, known: seq<seq<Byte>>): RequestHead {
    var n := 1 + Volume(s.pending, VerbSize) + Volume(known, head => ParsedVerb(P, head));
    RequestHead(seq(n, i => 'x'), "", [])
  }

  function FreshResponse(P: Parsers, s: Tap, known: seq<seq<Byte>>): ResponseHead {
    var n := 1 + Volume(s.records, HeadersSize) + Volume(known, head => ParsedHeaders(P, head));
    ResponseHead(204, seq(n, i => ("", "")))
  }

  lemma FreshIsUnmarked(P: Parsers, side: Side, s: Tap, known: seq<seq<Byte>>)
    requires side == Response ==> s.current.None?
    ensures !Marked(side, s, FreshRequest(P, s, known), FreshResponse(P, s, known))
  {
    forall i | 0 <= i < |s.pending|
      ensures s.pending[i].head != FreshRequest(P, s, known)
    {
      VolumeBounds(s.pending, VerbSize, i);
    }
    forall i | 0 <= i < |s.records|
      ensures s.records[i].response.head != FreshResponse(P, s, known)
    {
      VolumeBounds(s.records, HeadersSize, i);
    }
  }

  lemma FreshIsUnknown(P: Parsers, s: Tap, known: seq<seq<Byte>>, head: seq<Byte>)
    requires head in known
    ensures P.request(head) != Some(FreshRequest(P, s, known)) && P.response(head) != Some(FreshResponse(P, s, known))
  {
    var i :| 0 <= i < |known| && known[i] == head;
    VolumeBounds(known, h => ParsedVerb(P, h), i);
    VolumeBounds(known, h => ParsedHeaders(P, h), i);
  }

  /** `P` on the known heads, the mark on `whole`, and nothing else. */
  function Marking(P: Parsers, whole: seq<Byte>, known: seq<seq<Byte>>, q: RequestHead, r: ResponseHead): Parsers {
    Parsers(head => if head == whole then Some(q) else if head in known then P.request(head) else None,
            head => if head == whole then Some(r) else if head in known then P.response(head) else None)
  }

  lemma MarkingIsLong(P: Parsers, s: Tap, whole: seq<Byte>, known: seq<seq<Byte>>)
    ensures var q, r := FreshRequest(P, s, known), FreshResponse(P, s, known);
            MarksLong(Marking(P, whole, known, q, r), |whole|, q, r)
  {
    forall head | |head| < |whole| && head in known
      ensures P.request(head) != Some(FreshRequest(P, s, known)) && P.response(head) != Some(FreshResponse(P, s, known))
    {
      FreshIsUnknown(P, s, known, head);
    }
  }

  // ── at once, and in two parts ────────────────────────────────────────────

  lemma AtOnce(P: Parsers, side: Side, s: Tap, b: seq<Byte>, q: RequestHead, r: ResponseHead)
    requires s.At(side).mode == Head && Conclude(s.At(side).buffer + b).Found?
    requires var buf := s.At(side).buffer + b;
             var end := Conclude(buf).end;
             && P.request(buf[..end]) == Some(q) && P.response(buf[..end]) == Some(r)
             && (end == |buf| || MarksAll(P, q))
    requires q.headers == [] && r.status == 204
    ensures Stamped(side, Feed(P, side, s, b), q, r)
  {
    var buf := s.At(side).buffer + b;
    var end := Conclude(buf).end;
    var t := s.Extend(side, b);
    var u := OnHead(P, side, t.With(side, Dir(Head, buf[end..])), buf[..end]).0;
    assert Step(P, side, t) == (u, true);
    assert Stamped(side, u, q, r) && u.At(side) == Dir(Head, buf[end..]) by {
      if side == Response {
        assert u.records[|s.records|].response.head == r;
      }
    }
    if side == Response || end < |buf| {
      DrainKeeps(P, side, u, q, r);
    } else {
      assert buf[end..] == [] && Conclude([]) == Wait;
      assert Drain(P, side, u) == u;
    }
  }

  lemma PrefixWaits(buf: seq<Byte>, b: seq<Byte>, n: nat)
    requires Conclude(buf) == Wait && n <= |buf|
    ensures Conclude((buf + b)[..n]) == Wait
  {
    assert (buf + b)[..n] == buf[..n];
    EndOfPrefix(buf, CRLF_CRLF, n);
    EndOfPrefix(buf, LF_LF, n);
  }

  /** The first part ends the direction, or is read as a shorter head. */
  lemma InTwoParts(P: Parsers, side: Side, s: Tap, first: seq<Byte>, rest: seq<Byte>, n: nat, q: RequestHead,
                   r: ResponseHead)
    requires s.At(side).mode == Head && !Marked(side, s, q, r) && MarksLong(P, n, q, r)
    requires var buf := s.At(side).buffer + first;
             && |buf| < n && Conclude(buf) != Wait
             && (Conclude(buf).Found? ==>
                   |buf| + |rest| <= n
                   || (P.request(buf[..Conclude(buf).end]) == None && P.response(buf[..Conclude(buf).end]) == None))
    ensures !Marked(side, FeedSlices(P, side, s, [first, rest]), q, r)
  {
    var t := s.Extend(side, first);
    var u := Drain(P, side, t);
    DrainUnmarked(P, side, t, n, q, r);
    TwoSlices(P, side, s, first, rest);
    if u.At(side).mode != Passthrough {
      assert |u.At(side).buffer| <= |Step(P, side, t).0.At(side).buffer|;
      assert Step(P, side, t).1;
      DrainUnmarked(P, side, u.Extend(side, rest), n, q, r);
    }
  }

  lemma TwoSlices(P: Parsers, side: Side, s: Tap, first: seq<Byte>, rest: seq<Byte>)
    ensures FeedSlices(P, side, s, [first, rest]) == Feed(P, side, Feed(P, side, s, first), rest)
  {
    var t := Feed(P, side, s, first);
    assert [first, rest][1..] == [rest] && [rest][1..] == [];
    assert FeedSlices(P, side, t, [rest]) == FeedSlices(P, side, Feed(P, side, t, rest), []);
  }

  /** The cut that matters lies in the new bytes. */
  lemma CutBeyond(buf: seq<Byte>, b: seq<Byte>) returns (n: nat)
    requires Conclude(buf) == Wait && !SplitSafe(buf + b)
    ensures n <= |b| && |buf + b[..n]| < HeadEnd(buf + b).value
    ensures buf + b[..n] <= buf + b
    ensures Conclude(buf + b[..n]) != Wait && Conclude(buf + b[..n]) != Conclude(buf + b)
  {
    var cut := UnsafeCut(buf + b);
    if cut <= |buf| {
      PrefixWaits(buf, b, cut);
    }
    n := cut - |buf|;
    assert buf + b[..n] == (buf + b)[..cut];
  }

  /** A parser that marks only the head read at once tells the two apart. */
  lemma ToldApart(P: Parsers, side: Side, s: Tap, b: seq<Byte>, n: nat, q: RequestHead, r: ResponseHead)
    requires s.At(side).mode == Head && !Marked(side, s, q, r) && n <= |b|
    requires q.headers == [] && r.status == 204
    requires var buf := s.At(side).buffer + b;
             && Conclude(buf).Found?
             && var end := Conclude(buf).end;
                && P.request(buf[..end]) == Some(q) && P.response(buf[..end]) == Some(r)
                && (end == |buf| || MarksAll(P, q)) && MarksLong(P, end, q, r)
                && var part := s.At(side).buffer + b[..n];
                   && |part| < end && Conclude(part) != Wait
                   && (Conclude(part).Found? ==>
                         |buf| <= end
                         || (P.request(part[..Conclude(part).end]) == None && P.response(part[..Conclude(part).end]) == None))
    ensures FeedSlices(P, side, s, [b[..n], b[n..]]) != Feed(P, side, s, b)
  {
    AtOnce(P, side, s, b, q, r);
    InTwoParts(P, side, s, b[..n], b[n..], Conclude(s.At(side).buffer + b).end, q, r);
    assert Marked(side, Feed(P, side, s, b), q, r);
  }

  /** A parser and a mark: it reads the head as the mark, known heads as before, and no other head. */
  lemma FreshMark(P0: Parsers, side: Side, s: Tap, whole: seq<Byte>, known: seq<seq<Byte>>)
    returns (P: Parsers, q: RequestHead, r: ResponseHead)
    requires side == Response ==> s.current.None?
    requires whole !in known
    ensures q.headers == [] && r.status == 204 && !Marked(side, s, q, r)
    ensures P.request(whole) == Some(q) && P.response(whole) == Some(r) && MarksLong(P, |whole|, q, r)
    ensures forall head :: head in known ==>
            P.request(head) == P0.request(head) && P.response(head) == P0.response(head)
    ensures known == [] ==> MarksAll(P, q) && forall head :: head != whole ==>
            P.request(head) == None && P.response(head) == None
  {
    q, r := FreshRequest(P0, s, known), FreshResponse(P0, s, known);
    P := Marking(P0, whole, known, q, r);
    FreshIsUnmarked(P0, side, s, known);
    MarkingIsLong(P0, s, whole, known);
  }

  /**
   Slicing matters. In either direction, from any state in which it waits for a head, let what it holds
   and the bytes `b` begin with a head that is not split safe. Then some parser, free to agree with a
   given one on known heads if nothing follows the head, tells two slices of `b` from `b` at once.
   */
  lemma SplitSafeIsNeeded(P0: Parsers, side: Side, s: Tap, b: seq<Byte>, known: seq<seq<Byte>>)
    returns (P: Parsers, n: nat)
    requires s.At(side).mode == Head && Conclude(s.At(side).buffer) == Wait && (side == Response ==> s.current.None?)
    requires var buf := s.At(side).buffer + b;
             && !SplitSafe(buf) && buf[..HeadEnd(buf).value] !in known
             && (known == [] || HeadEnd(buf).value == |buf|)
    ensures forall head :: head in known ==>
            P.request(head) == P0.request(head) && P.response(head) == P0.response(head)
    ensures n <= |b| && FeedSlices(P, side, s, [b[..n], b[n..]]) != Feed(P, side, s, b)
  {
    var buf := s.At(side).buffer + b;
    var q, r;
    P, q, r := FreshMark(P0, side, s, buf[..HeadEnd(buf).value], known);
    n := CutBeyond(s.At(side).buffer, b);
    ToldApart(P, side, s, b, n, q, r);
  }

  function HeadsOf(ms: seq<Sent<RequestHead>>): seq<seq<Byte>> {
    seq(|ms|, i requires 0 <= i < |ms| => ms[i].head)
  }

  lemma HeadsAreClean(P: Parsers, ms: seq<Sent<RequestHead>>, head: seq<Byte>)
    requires (forall i :: 0 <= i < |ms| ==> WellSent(P, ms[i])) && !SplitSafe(head)
    ensures head !in HeadsOf(ms)
  {
    forall i | 0 <= i < |ms|
      ensures HeadsOf(ms)[i] != head
    {
      assert WellSent(P, ms[i]);
    }
  }

  lemma StillSent(P0: Parsers, P: Parsers, ms: seq<Sent<RequestHead>>, known: seq<seq<Byte>>)
    requires known == HeadsOf(ms) && forall i :: 0 <= i < |ms| ==> WellSent(P0, ms[i])
    requires forall head :: head in known ==> P.request(head) == P0.request(head)
    ensures forall i :: 0 <= i < |ms| ==> WellSent(P, ms[i])
  {
    forall i | 0 <= i < |ms|
      ensures WellSent(P, ms[i])
    {
      assert known[i] in known && WellSent(P0, ms[i]);
    }
  }

  /** A later head: after any well-formed requests, a head that is not split safe can still be told apart. */
  lemma LaterHeadsToo(P0: Parsers, ms: seq<Sent<RequestHead>>, head: seq<Byte>) returns (P: Parsers, n: nat)
    requires forall i :: 0 <= i < |ms| ==> WellSent(P0, ms[i])
    requires HeadEnd(head) == Some(|head|) && !SplitSafe(head)
    ensures forall i :: 0 <= i < |ms| ==> WellSent(P, ms[i])
    ensures n <= |head|
    ensures FeedSlices(P, Request, NEW, [WireOf(ms), head[..n], head[n..]])
         != FeedSlices(P, Request, NEW, [WireOf(ms), head])
  {
    var known := HeadsOf(ms);
    var s := AddRequests(NEW, ms).(request := START);
    HeadsAreClean(P0, ms, head);
    assert [] + head == head && head[..|head|] == head;
    P, n := SplitSafeIsNeeded(P0, Request, s, head, known);
    StillSent(P0, P, ms, known);
    AfterRequests(P, ms, [head]);
    AfterRequests(P, ms, [head[..n], head[n..]]);
  }

  lemma AfterRequests(P: Parsers, ms: seq<Sent<RequestHead>>, slices: seq<seq<Byte>>)
    requires forall i :: 0 <= i < |ms| ==> WellSent(P, ms[i])
    ensures FeedSlices(P, Request, NEW, [WireOf(ms)] + slices)
         == FeedSlices(P, Request, AddRequests(NEW, ms).(request := START), slices)
  {
    var t := NEW.Extend(Request, WireOf(ms));
    assert t == NEW.(request := Dir(Head, WireOf(ms)));
    ManyRequests(P, t, ms);
    AddRequestsKeeps(NEW, ms, Dir(Head, WireOf(ms)));
    assert ([WireOf(ms)] + slices)[1..] == slices;
  }
}
