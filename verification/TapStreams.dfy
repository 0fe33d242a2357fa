/**
 Reading back what was sent: whole streams of messages, pipelined on one connection and cut into
 any slices, are recovered message by message.
 */
module TapStreams {
  import opened Basics
  import opened Capture
  import opened ChunkedCoding
  import opened Heads
  import opened HttpTap
  import opened TapHistory
  import opened TapSplit
  import Chunks = ChunkedRoundTrip

  /** A message on the wire: its head, the raw bytes of its body, and the data they carry. */
  datatype Sent<H> = Sent(head: seq<Byte>, parsed: H, raw: seq<Byte>, data: seq<Byte>) {
    function Wire(): seq<Byte> {
      head + raw
    }
  }

  function WireOf<H>(ms: seq<Sent<H>>): seq<Byte> {
    if ms == [] then [] else ms[0].Wire() + WireOf(ms[1..])
  }

  /** Ends in CR LF CR LF, and in no other place could its end be seen. */
  predicate CleanHead(head: seq<Byte>) {
    EndOf(head, CRLF_CRLF) == Some(|head|) && SplitSafe(head)
  }

  predicate WellSent(P: Parsers, m: Sent<RequestHead>) {
    && CleanHead(m.head)
    && P.request(m.head) == Some(m.parsed)
    && Span(RequestFraming(m.parsed.headers), m.raw, m.data).Whole()
  }

  /** A final response, not delimited by the close, to a request with method `verb`. */
  predicate WellReplied(P: Parsers, verb: string, m: Sent<ResponseHead>) {
    var framing := ResponseFraming(m.parsed.status, Some(verb), m.parsed.headers);
    && CleanHead(m.head)
    && P.response(m.head) == Some(m.parsed)
    && !Interim(m.parsed.status) && m.parsed.status != 101
    && framing != Some(UntilEof)
    && Span(framing, m.raw, m.data).Whole()
  }

  /** An accepted chunked body is whole under chunked framing, and so is a sized one under its length. */
  lemma WholeBodies(m: Chunks.Coded, data: seq<Byte>)
    ensures m.Shaped() && m.Accepted() ==> Span(Some(Chunked(FRESH)), m.Wire(), m.Payload()).Whole()
    ensures data != [] ==> Span(Some(Length(|data|)), data, data).Whole()
  {
    if m.Shaped() && m.Accepted() {
      Chunks.ScanCoded(m);
    }
  }

  // ── one message ──────────────────────────────────────────────────────────

  lemma CleanHeadFound(head: seq<Byte>, rest: seq<Byte>)
    requires CleanHead(head)
    ensures Conclude(head + rest) == Found(|head|) && SplitSafe(head + rest)
    ensures (head + rest)[..|head|] == head && (head + rest)[|head|..] == rest
  {
    var buf := head + rest;
    assert buf[..|head|] == head;
    EndOfPrefix(buf, CRLF_CRLF, |head|);
    EndOfPrefix(buf, LF_LF, |head|);
  }

  lemma WholeBodyFed(f: LiveFraming, raw: seq<Byte>, data: seq<Byte>, rest: seq<Byte>)
    requires f != UntilEof && Span(Some(f), raw, data).Whole()
    ensures raw != []
    ensures var r := FeedFraming(f, raw + rest);
            r.used == |raw| && r.data == data && !r.next.Unfinished()
    ensures (raw + rest)[|raw|..] == rest
  {
    FramingSplit(f, raw, rest);
    assert FeedFraming(f, []).next.Unfinished();
    assert FeedFraming(f, raw).next != UntilEof;
  }

  function AddRequest(s: Tap, m: Sent<RequestHead>): Tap {
    var queue := if |s.pending| >= MAX_PENDING then s.pending[1..] else s.pending;
    s.(pending := queue + [PendingRequest(m.parsed, HeaderValue(m.parsed.headers, "host"), Captured(m.data))])
  }

  lemma OneRequest(P: Parsers, s: Tap, m: Sent<RequestHead>, rest: seq<Byte>)
    requires WellSent(P, m)
    requires s.request == Dir(Head, m.Wire() + rest)
    ensures var t := AddRequest(s, m).(request := Dir(Head, rest));
            Drain(P, Request, s) == Drain(P, Request, t) && (SafeRun(P, Request, t) ==> SafeRun(P, Request, s))
  {
    assert m.Wire() + rest == m.head + (m.raw + rest);
    CleanHeadFound(m.head, m.raw + rest);
    var u := OnRequestHead(s.(request := Dir(Head, m.raw + rest)), m.parsed);
    assert Step(P, Request, s) == (u, true);
    RequestDelivered(s, m, Dir(Head, m.raw + rest));
    match RequestFraming(m.parsed.headers) {
      case None =>
        assert m.raw + rest == rest;
      case Some(f) =>
        WholeBodyFed(f, m.raw, m.data, rest);
        OneRequestBody(P, u, f, m, rest);
    }
  }

  lemma RequestDelivered(s: Tap, m: Sent<RequestHead>, d: Dir)
    ensures Deliver(Request, OnRequestHead(s.(request := d), m.parsed), m.data).pending == AddRequest(s, m).pending
    ensures m.data == [] ==> OnRequestHead(s.(request := d), m.parsed).pending == AddRequest(s, m).pending
  {
    PushCaptures([], m.data);
    assert [] + m.data == m.data;
    var u := OnRequestHead(s.(request := d), m.parsed);
    var last := |u.pending| - 1;
    assert Deliver(Request, u, m.data).pending == u.pending[last := AddRequest(s, m).pending[last]];
  }

  lemma OneRequestBody(P: Parsers, u: Tap, f: LiveFraming, m: Sent<RequestHead>, rest: seq<Byte>)
    requires u.request == Dir(InBody(f), m.raw + rest) && m.raw != []
    requires var r := FeedFraming(f, m.raw + rest); r.used == |m.raw| && r.data == m.data && !r.next.Unfinished()
    ensures Step(P, Request, u) == (Deliver(Request, u, m.data).(request := Dir(Head, rest)), true)
  {
    assert (m.raw + rest)[|m.raw|..] == rest;
  }

  function AddReply(s: Tap, m: Sent<ResponseHead>): Tap
    requires s.pending != []
  {
    s.(pending := s.pending[1..],
       records := s.records + [Exchange(s.pending[0], PendingResponse(m.parsed, Captured(m.data)))])
  }

  lemma OneReply(P: Parsers, s: Tap, m: Sent<ResponseHead>, rest: seq<Byte>)
    requires s.pending != [] && s.current.None?
    requires WellReplied(P, s.pending[0].head.verb, m)
    requires s.response == Dir(Head, m.Wire() + rest)
    ensures var t := AddReply(s, m).(response := Dir(Head, rest));
            Drain(P, Response, s) == Drain(P, Response, t) && (SafeRun(P, Response, t) ==> SafeRun(P, Response, s))
  {
    assert m.Wire() + rest == m.head + (m.raw + rest);
    CleanHeadFound(m.head, m.raw + rest);
    var (u, more) := OnResponseHead(s.(response := Dir(Head, m.raw + rest)), m.parsed);
    assert Step(P, Response, s) == (u, true);
    PushCaptures([], m.data);
    match ResponseFraming(m.parsed.status, Some(s.pending[0].head.verb), m.parsed.headers) {
      case None =>
        assert m.raw + rest == rest;
      case Some(f) =>
        WholeBodyFed(f, m.raw, m.data, rest);
        assert [] + m.data == m.data;
        OneReplyBody(P, u, f, m, rest);
    }
  }

  lemma OneReplyBody(P: Parsers, u: Tap, f: LiveFraming, m: Sent<ResponseHead>, rest: seq<Byte>)
    requires u.response == Dir(InBody(f), m.raw + rest) && m.raw != [] && u.current.Some?
    requires var r := FeedFraming(f, m.raw + rest); r.used == |m.raw| && r.data == m.data && !r.next.Unfinished()
    ensures Step(P, Response, u) == (Complete(Deliver(Response, u, m.data).(response := Dir(Head, rest))), true)
  {
    assert (m.raw + rest)[|m.raw|..] == rest;
  }

  // ── streams of messages ──────────────────────────────────────────────────

  function AddRequests(s: Tap, ms: seq<Sent<RequestHead>>): Tap
    decreases |ms|
  {
    if ms == [] then s else AddRequests(AddRequest(s, ms[0]), ms[1..])
  }

  lemma {:induction false} ManyRequests(P: Parsers, s: Tap, ms: seq<Sent<RequestHead>>)
    requires forall i :: 0 <= i < |ms| ==> WellSent(P, ms[i])
    requires s.request == Dir(Head, WireOf(ms))
    ensures Drain(P, Request, s) == AddRequests(s, ms).(request := START)
    ensures SafeRun(P, Request, s)
    decreases |ms|
  {
    if ms != [] {
      var rest := WireOf(ms[1..]);
      OneRequest(P, s, ms[0], rest);
      var t := AddRequest(s, ms[0]).(request := Dir(Head, rest));
      ManyRequests(P, t, ms[1..]);
      AddRequestsKeeps(AddRequest(s, ms[0]), ms[1..], Dir(Head, rest));
    }
  }

  lemma {:induction false} AddRequestsKeeps(s: Tap, ms: seq<Sent<RequestHead>>, d: Dir)
    ensures AddRequests(s.(request := d), ms) == AddRequests(s, ms).(request := d)
    decreases |ms|
  {
    if ms != [] {
      AddRequestsKeeps(AddRequest(s, ms[0]), ms[1..], d);
      assert AddRequest(s.(request := d), ms[0]) == AddRequest(s, ms[0]).(request := d);
    }
  }

  function AddReplies(s: Tap, ms: seq<Sent<ResponseHead>>): Tap
    requires |ms| <= |s.pending|
    decreases |ms|
  {
    if ms == [] then s else AddReplies(AddReply(s, ms[0]), ms[1..])
  }

  predicate AllReplied(P: Parsers, s: Tap, ms: seq<Sent<ResponseHead>>) {
    |ms| <= |s.pending| && forall i :: 0 <= i < |ms| ==> WellReplied(P, s.pending[i].head.verb, ms[i])
  }

  lemma AllRepliedNext(P: Parsers, s: Tap, ms: seq<Sent<ResponseHead>>)
    requires AllReplied(P, s, ms) && ms != []
    ensures AllReplied(P, AddReply(s, ms[0]), ms[1..])
  {
    forall i | 0 <= i < |ms| - 1
      ensures WellReplied(P, AddReply(s, ms[0]).pending[i].head.verb, ms[1..][i])
    {
      assert WellReplied(P, s.pending[i + 1].head.verb, ms[i + 1]);
    }
  }

  lemma {:induction false} ManyReplies(P: Parsers, s: Tap, ms: seq<Sent<ResponseHead>>)
    requires AllReplied(P, s, ms) && s.current.None?
    requires s.response == Dir(Head, WireOf(ms))
    ensures Drain(P, Response, s) == AddReplies(s, ms).(response := START)
    ensures SafeRun(P, Response, s)
    decreases |ms|
  {
    if ms != [] {
      var rest := WireOf(ms[1..]);
      OneReply(P, s, ms[0], rest);
      var t := AddReply(s, ms[0]).(response := Dir(Head, rest));
      AllRepliedNext(P, s, ms);
      ManyReplies(P, t, ms[1..]);
      AddRepliesKeeps(AddReply(s, ms[0]), ms[1..], Dir(Head, rest));
    }
  }

  lemma {:induction false} AddRepliesKeeps(s: Tap, ms: seq<Sent<ResponseHead>>, d: Dir)
    requires |ms| <= |s.pending|
    ensures AddReplies(s.(response := d), ms) == AddReplies(s, ms).(response := d)
    decreases |ms|
  {
    if ms != [] {
      AddRepliesKeeps(AddReply(s, ms[0]), ms[1..], d);
      assert AddReply(s.(response := d), ms[0]) == AddReply(s, ms[0]).(response := d);
    }
  }

  // ── what was sent is what is recorded ────────────────────────────────────

  function Asked(m: Sent<RequestHead>): PendingRequest {
    PendingRequest(m.parsed, HeaderValue(m.parsed.headers, "host"), Captured(m.data))
  }

  function AllAsked(ms: seq<Sent<RequestHead>>): seq<PendingRequest> {
    seq(|ms|, i requires 0 <= i < |ms| => Asked(ms[i]))
  }

  lemma AllAskedFirst(ms: seq<Sent<RequestHead>>)
    requires ms != []
    ensures AllAsked(ms) == [Asked(ms[0])] + AllAsked(ms[1..])
  {
  }

  lemma LastOfPushed<T>(xs: seq<T>, x: T, rest: seq<T>, n: nat)
    requires n > 0 && |xs| <= n
    ensures LastOf((if |xs| < n then xs else xs[1..]) + [x] + rest, n) == LastOf(xs + ([x] + rest), n)
  {
    if |xs| < n {
      assert xs + [x] + rest == xs + ([x] + rest);
    } else {
      assert xs[1..] + [x] + rest == (xs + ([x] + rest))[1..];
    }
  }

  lemma {:induction false} AddedRequests(s: Tap, ms: seq<Sent<RequestHead>>)
    requires |s.pending| <= MAX_PENDING
    ensures AddRequests(s, ms) == s.(pending := LastOf(s.pending + AllAsked(ms), MAX_PENDING))
    decreases |ms|
  {
    if ms == [] {
      assert s.pending + AllAsked(ms) == s.pending;
    } else {
      AddedRequests(AddRequest(s, ms[0]), ms[1..]);
      AllAskedFirst(ms);
      LastOfPushed(s.pending, Asked(ms[0]), AllAsked(ms[1..]), MAX_PENDING);
    }
  }

  lemma {:induction false} AddedReplies(s: Tap, ms: seq<Sent<ResponseHead>>)
    requires |ms| <= |s.pending|
    ensures AddReplies(s, ms)
         == s.(pending := s.pending[|ms|..],
               records := s.records + seq(|ms|, i requires 0 <= i < |ms| =>
                 Exchange(s.pending[i], PendingResponse(ms[i].parsed, Captured(ms[i].data)))))
    decreases |ms|
  {
    var added := seq(|ms|, i requires 0 <= i < |ms| =>
      Exchange(s.pending[i], PendingResponse(ms[i].parsed, Captured(ms[i].data))));
    if ms == [] {
      assert s.records + added == s.records;
    } else {
      var t := AddReply(s, ms[0]);
      AddedReplies(t, ms[1..]);
      assert t.pending[|ms| - 1..] == s.pending[|ms|..];
      assert AddReplies(s, ms).records == s.records + added;
    }
  }

  /** A stream of requests, in any slices, fills the queue with exactly the newest MAX_PENDING of them. */
  lemma RequestStream(P: Parsers, ms: seq<Sent<RequestHead>>, slices: seq<seq<Byte>>)
    requires forall i :: 0 <= i < |ms| ==> WellSent(P, ms[i])
    requires Flatten(slices) == WireOf(ms)
    ensures FeedSlices(P, Request, NEW, slices)
         == NEW.(pending := LastOf(AllAsked(ms), MAX_PENDING))
  {
    var s := NEW.Extend(Request, WireOf(ms));
    assert [] + WireOf(ms) == WireOf(ms);
    ManyRequests(P, s, ms);
    SplitInvariance(P, Request, NEW, slices);
    AddedRequests(s, ms);
    assert s.pending + AllAsked(ms) == AllAsked(ms);
  }

  /** The exchanges that requests and their responses make, pair by pair. */
  function Paired(asked: seq<Sent<RequestHead>>, replied: seq<Sent<ResponseHead>>): seq<Exchange>
    requires |replied| <= |asked|
  {
    seq(|replied|, i requires 0 <= i < |replied| =>
      Exchange(Asked(asked[i]), PendingResponse(replied[i].parsed, Captured(replied[i].data))))
  }

  /**
   Pipelining (section 9.3.2 of RFC 9112): requests sent together, then their responses, each
   direction in any slices, are recorded as exactly those pairs, in order, with exactly those bodies;
   the requests that were not answered are still queued.
   */
  lemma PipelineRoundTrip(P: Parsers, asked: seq<Sent<RequestHead>>, replied: seq<Sent<ResponseHead>>,
                          up: seq<seq<Byte>>, down: seq<seq<Byte>>)
    requires |replied| <= |asked| <= MAX_PENDING
    requires forall i :: 0 <= i < |asked| ==> WellSent(P, asked[i])
    requires forall i :: 0 <= i < |replied| ==> WellReplied(P, asked[i].parsed.verb, replied[i])
    requires Flatten(up) == WireOf(asked) && Flatten(down) == WireOf(replied)
    ensures FeedSlices(P, Response, FeedSlices(P, Request, NEW, up), down)
         == NEW.(pending := AllAsked(asked)[|replied|..], records := Paired(asked, replied))
  {
    RequestStream(P, asked, up);
    ReplyStream(P, NEW.(pending := AllAsked(asked)), asked, replied, down);
  }

  lemma AskedAreReplied(P: Parsers, t: Tap, asked: seq<Sent<RequestHead>>, replied: seq<Sent<ResponseHead>>)
    requires t.pending == AllAsked(asked) && |replied| <= |asked|
    requires forall i :: 0 <= i < |replied| ==> WellReplied(P, asked[i].parsed.verb, replied[i])
    ensures AllReplied(P, t, replied)
  {
    forall i | 0 <= i < |replied|
      ensures WellReplied(P, t.pending[i].head.verb, replied[i])
    {
      assert t.pending[i] == Asked(asked[i]);
    }
  }

  /** A stream of responses, in any slices, empties the queue and records the pairs. */
  lemma ReplyStream(P: Parsers, s: Tap, asked: seq<Sent<RequestHead>>, replied: seq<Sent<ResponseHead>>,
                    slices: seq<seq<Byte>>)
    requires s == NEW.(pending := AllAsked(asked)) && |replied| <= |asked|
    requires forall i :: 0 <= i < |replied| ==> WellReplied(P, asked[i].parsed.verb, replied[i])
    requires Flatten(slices) == WireOf(replied)
    ensures FeedSlices(P, Response, s, slices)
         == s.(pending := s.pending[|replied|..], records := Paired(asked, replied))
  {
    var t := s.Extend(Response, WireOf(replied));
    assert [] + WireOf(replied) == WireOf(replied);
    AskedAreReplied(P, t, asked, replied);
    ManyReplies(P, t, replied);
    assert Drain(P, Response, s) == s;
    SplitInvariance(P, Response, s, slices);
    AddedReplies(t, replied);
    RepliesArePaired(t, asked, replied);
  }

  lemma RepliesArePaired(t: Tap, asked: seq<Sent<RequestHead>>, replied: seq<Sent<ResponseHead>>)
    requires t.pending == AllAsked(asked) && |replied| <= |asked| && t.records == []
    ensures t.records + seq(|replied|, i requires 0 <= i < |replied| =>
              Exchange(t.pending[i], PendingResponse(replied[i].parsed, Captured(replied[i].data))))
         == Paired(asked, replied)
  {
  }
}
