/**
 Whole conversations, in any interleaving: from the messages sent in each direction to the exchanges
 recorded.

 The simulation says, at any moment, which messages a direction has read, and that its buffer with the
 bytes still to come is the rest of what is sent.
 */
module TapConversations {
  import opened Basics
  import opened Capture
  import opened Heads
  import opened HttpTap
  import opened TapHistory
  import opened TapPairing
  import opened TapStreams
  import opened TapBytes
  import opened TapBodies

  // ── a well-formed conversation ───────────────────────────────────────────

  /** The responses that are not interim. */
  function Finals(replied: seq<Sent<ResponseHead>>): seq<Sent<ResponseHead>> {
    if replied == [] then []
    else
      var last := replied[|replied| - 1];
      Finals(replied[..|replied| - 1]) + if Interim(last.parsed.status) then [] else [last]
  }

  predicate WellInterim(P: Parsers, m: Sent<ResponseHead>) {
    CleanHead(m.head) && P.response(m.head) == Some(m.parsed) && Interim(m.parsed.status) && m.raw == [] && m.data == []
  }

  /** A final response to a request of this method; only the last one may run to the close. */
  predicate WellFinal(P: Parsers, verb: string, m: Sent<ResponseHead>, last: bool) {
    var framing := ResponseFraming(m.parsed.status, Some(verb), m.parsed.headers);
    && CleanHead(m.head)
    && P.response(m.head) == Some(m.parsed)
    && !Interim(m.parsed.status) && m.parsed.status != 101
    && (framing == Some(UntilEof) ==> last)
    && Span(framing, m.raw, m.data).Whole()
  }

  predicate WellAt(P: Parsers, asked: seq<Sent<RequestHead>>, replied: seq<Sent<ResponseHead>>, i: nat)
    requires i < |replied|
  {
    WellInterim(P, replied[i])
    || (|Finals(replied[..i])| < |asked|
        && WellFinal(P, asked[|Finals(replied[..i])|].parsed.verb, replied[i], i == |replied| - 1))
  }

  predicate WellConversed(P: Parsers, asked: seq<Sent<RequestHead>>, replied: seq<Sent<ResponseHead>>) {
    && AllSent(P, asked)
    && (forall i :: 0 <= i < |replied| ==> WellAt(P, asked, replied, i))
  }

  // ── heads and bodies in a stream ─────────────────────────────────────────

  /** A buffer that starts a clean head waits for all of it, and then finds exactly that head. */
  lemma CleanBuffer(head: seq<Byte>, rest: seq<Byte>, buffer: seq<Byte>, future: seq<Byte>)
    requires CleanHead(head) && buffer + future == head + rest
    ensures Conclude(buffer) == Wait || Conclude(buffer) == Found(|head|)
    ensures Conclude(buffer) == Wait ==> |buffer| < |head|
    ensures Conclude(buffer) == Found(|head|) ==>
              |head| <= |buffer| && buffer[..|head|] == head && buffer[|head|..] + future == rest
  {
    CleanHeadFound(head, rest);
    assert buffer == (head + rest)[..|buffer|];
    PrefixAgrees(head + rest, |buffer|);
    if |head| <= |buffer| {
      CleanHeadFound(head, buffer[|head|..]);
      assert buffer[..|head|] == (buffer + future)[..|head|] == head;
      assert buffer == head + buffer[|head|..];
      assert buffer[|head|..] + future == (buffer + future)[|head|..] == rest;
    }
  }

  /** A body that ends, ends where the sender's does, with the sender's data. */
  lemma BodyEnds(f0: LiveFraming, span: Span, f: LiveFraming, buffer: seq<Byte>, future: seq<Byte>,
                 raw: seq<Byte>, data: seq<Byte>, rest: seq<Byte>)
    requires f0 != UntilEof && Span(Some(f0), raw, data).Whole()
    requires span.framing == Some(f0) && span.Reached(f)
    requires span.raw + buffer + future == raw + rest
    requires !FeedFraming(f, buffer).next.Unfinished()
    ensures var r := FeedFraming(f, buffer);
            span.raw + buffer[..r.used] == raw && span.data + r.data == data && buffer[r.used..] + future == rest
  {
    var r := FeedFraming(f, buffer);
    var next := span.More(r, buffer[..r.used]);
    SpanMore(span, f, buffer);
    WholeBodyFed(f0, raw, data, rest);
    assert next == Span(Some(f0), next.raw, next.data);
    WholeBodyFed(f0, next.raw, next.data, buffer[r.used..] + future);
    assert next.raw + (buffer[r.used..] + future) == raw + rest;
    assert next.raw == (raw + rest)[..|raw|] == raw;
    assert buffer[r.used..] + future == (raw + rest)[|raw|..] == rest;
  }

  /** A body that has not ended has not been shown all its bytes. */
  lemma BodyIsNotOver(f0: LiveFraming, span: Span, f: LiveFraming, raw: seq<Byte>, data: seq<Byte>, rest: seq<Byte>)
    requires f0 != UntilEof && Span(Some(f0), raw, data).Whole()
    requires span.framing == Some(f0) && span.Reached(f)
    ensures span.raw != raw + rest
  {
    WholeBodyFed(f0, raw, data, rest);
  }

  lemma WireNext<H>(ms: seq<Sent<H>>, n: nat)
    requires n < |ms|
    ensures WireOf(ms[n..]) == ms[n].head + (ms[n].raw + WireOf(ms[n + 1..]))
  {
    assert ms[n..][1..] == ms[n + 1..];
    assert ms[n].Wire() + WireOf(ms[n + 1..]) == ms[n].head + (ms[n].raw + WireOf(ms[n + 1..]));
  }

  // ── the request direction ────────────────────────────────────────────────

  predicate Arrived(o: Opened, m: Sent<RequestHead>) {
    o.head == m.parsed && o.body.raw == m.raw && o.body.data == m.data
  }

  /** The first requests have arrived, the last of them perhaps in part; the rest is still to be read. */
  predicate RequestsFollow(d: Dir, requests: seq<Opened>, asked: seq<Sent<RequestHead>>, future: seq<Byte>) {
    var n := |requests|;
    && n <= |asked|
    && (forall j :: 0 <= j < n - 1 ==> Arrived(requests[j], asked[j]))
    && match d.mode
       case Head => (n > 0 ==> Arrived(requests[n - 1], asked[n - 1])) && d.buffer + future == WireOf(asked[n..])
       case InBody(_) =>
         && n > 0 && requests[n - 1].head == asked[n - 1].parsed
         && requests[n - 1].body.raw + d.buffer + future == asked[n - 1].raw + WireOf(asked[n..])
       case Passthrough => false
  }

  lemma ArrivedPush(requests: seq<Opened>, o: Opened, asked: seq<Sent<RequestHead>>)
    requires |requests| <= |asked| && forall j :: 0 <= j < |requests| - 1 ==> Arrived(requests[j], asked[j])
    requires requests != [] ==> Arrived(requests[|requests| - 1], asked[|requests| - 1])
    ensures forall j :: 0 <= j < |requests| ==> Arrived((requests + [o])[j], asked[j])
  {
  }

  lemma RequestOpens(buf: seq<Byte>, left: seq<Byte>, requests: seq<Opened>, asked: seq<Sent<RequestHead>>,
                     framing: Option<LiveFraming>, future: seq<Byte>)
    requires RequestsFollow(Dir(Head, buf), requests, asked, future) && |requests| < |asked|
    requires left + future == asked[|requests|].raw + WireOf(asked[|requests| + 1..])
    requires framing == None ==> asked[|requests|].raw == [] && asked[|requests|].data == []
    ensures var m := asked[|requests|];
            RequestsFollow(Dir(ModeFor(framing), left), requests + [Opened(m.parsed, m.head, Span(framing, [], []))],
                           asked, future)
  {
    var n := |requests|;
    ArrivedPush(requests, Opened(asked[n].parsed, asked[n].head, Span(framing, [], [])), asked);
    assert [] + left + future == left + future;
    assert [] + WireOf(asked[n + 1..]) == WireOf(asked[n + 1..]);
  }

  lemma RequestHeadStep(P: Parsers, s: Tap, h: History, m: Sent<RequestHead>)
    requires s.request.mode == Head && WellSent(P, m)
    requires Conclude(s.request.buffer) == Found(|m.head|) && |m.head| <= |s.request.buffer|
    requires s.request.buffer[..|m.head|] == m.head
    ensures var framing := RequestFraming(m.parsed.headers);
            && Step(P, Request, s).0.request == Dir(ModeFor(framing), s.request.buffer[|m.head|..])
            && Note(P, Request, s, h).requests == h.requests + [Opened(m.parsed, m.head, Span(framing, [], []))]
  {
  }

  lemma RequestHeadFollows(P: Parsers, s: Tap, h: History, asked: seq<Sent<RequestHead>>, future: seq<Byte>)
    requires |h.requests| < |asked| ==> WellSent(P, asked[|h.requests|])
    requires s.request.mode == Head && RequestsFollow(s.request, h.requests, asked, future)
    ensures RequestsFollow(Step(P, Request, s).0.request, Note(P, Request, s, h).requests, asked, future)
  {
    var buf, n := s.request.buffer, |h.requests|;
    if n == |asked| {
      NothingToCome(buf, future);
    } else {
      var m := asked[n];
      var rest := m.raw + WireOf(asked[n + 1..]);
      assert buf + future == m.head + rest by { WireNext(asked, n); }
      CleanBuffer(m.head, rest, buf, future);
      if Conclude(buf).Found? {
        RequestHeadStep(P, s, h, m);
        RequestOpens(buf, buf[|m.head|..], h.requests, asked, RequestFraming(m.parsed.headers), future);
      }
    }
  }

  lemma NothingToCome(buffer: seq<Byte>, future: seq<Byte>)
    requires buffer + future == []
    ensures buffer == [] && Conclude(buffer) == Wait
  {
  }

  lemma RequestGrows(f: LiveFraming, buf: seq<Byte>, requests: seq<Opened>, asked: seq<Sent<RequestHead>>,
                     future: seq<Byte>)
    requires requests != [] && RequestsFollow(Dir(InBody(f), buf), requests, asked, future)
    requires var o, m := requests[|requests| - 1], asked[|requests| - 1];
             && o.body.framing.Some? && o.body.framing != Some(UntilEof) && o.body.Reached(f)
             && Span(o.body.framing, m.raw, m.data).Whole()
    ensures var r, last := FeedFraming(f, buf), |requests| - 1;
            RequestsFollow(Dir(if r.next.Unfinished() then InBody(r.next) else Head, buf[r.used..]),
                           requests[last := requests[last].(body := requests[last].body.More(r, buf[..r.used]))],
                           asked, future)
  {
    var r, last := FeedFraming(f, buf), |requests| - 1;
    var o, m := requests[last], asked[last];
    if r.next.Unfinished() {
      assert buf[..r.used] == buf && buf[r.used..] == [];
      assert o.body.raw + buf + [] + future == o.body.raw + buf + future;
    } else {
      BodyEnds(o.body.framing.value, o.body, f, buf, future, m.raw, m.data, WireOf(asked[last + 1..]));
    }
  }

  lemma RequestBodyStep(P: Parsers, s: Tap, h: History)
    requires h.requests != [] && s.request.mode.InBody? && s.request.buffer != []
    ensures var buf, last := s.request.buffer, |h.requests| - 1;
            var r := FeedFraming(s.request.mode.framing, buf);
            && Step(P, Request, s).0.request == Dir(if r.next.Unfinished() then InBody(r.next) else Head, buf[r.used..])
            && Note(P, Request, s, h).requests
               == h.requests[last := h.requests[last].(body := h.requests[last].body.More(r, buf[..r.used]))]
  {
  }

  lemma RequestFramingEnds(headers: Headers)
    ensures RequestFraming(headers) != Some(UntilEof)
  {
  }

  lemma RequestBodyFollows(P: Parsers, s: Tap, h: History, asked: seq<Sent<RequestHead>>, future: seq<Byte>)
    requires s.request.mode.InBody? && s.request.buffer != []
    requires RequestsFollow(s.request, h.requests, asked, future)
    requires var o, m := h.requests[|h.requests| - 1], asked[|h.requests| - 1];
             FramedByHead(o) && o.body.Reached(s.request.mode.framing)
               && Span(RequestFraming(m.parsed.headers), m.raw, m.data).Whole()
    ensures RequestsFollow(Step(P, Request, s).0.request, Note(P, Request, s, h).requests, asked, future)
  {
    RequestFramingEnds(h.requests[|h.requests| - 1].head.headers);
    RequestBodyStep(P, s, h);
    RequestGrows(s.request.mode.framing, s.request.buffer, h.requests, asked, future);
  }

  predicate AllSent(P: Parsers, asked: seq<Sent<RequestHead>>) {
    forall j :: 0 <= j < |asked| ==> WellSent(P, asked[j])
  }

  lemma RequestStepFollows(P: Parsers, s: Tap, h: History, asked: seq<Sent<RequestHead>>, future: seq<Byte>)
    requires AllSent(P, asked)
    requires RequestsSpanned(s, h) && RequestsFollow(s.request, h.requests, asked, future)
    ensures RequestsFollow(Step(P, Request, s).0.request, Note(P, Request, s, h).requests, asked, future)
  {
    if s.request.mode == Head {
      RequestHeadFollows(P, s, h, asked, future);
    } else if s.request.buffer != [] {
      assert FramedByHead(h.requests[|h.requests| - 1]) && WellSent(P, asked[|h.requests| - 1]);
      RequestBodyFollows(P, s, h, asked, future);
    }
  }

  lemma RequestHeadsAreRead(d: Dir, requests: seq<Opened>, asked: seq<Sent<RequestHead>>)
    requires d.mode == Head && Settled(d) && RequestsFollow(d, requests, asked, [])
    requires |requests| < |asked| ==> CleanHead(asked[|requests|].head)
    ensures d == START && |requests| == |asked|
  {
    var n := |requests|;
    if n < |asked| {
      HeadArrives(d.buffer, asked[n], WireOf(asked[n + 1..])) by {
        WireNext(asked, n);
      }
    }
    assert d.buffer + [] == d.buffer;
  }

  /** When nothing is left to come, everything has arrived. */
  lemma RequestsArrive(P: Parsers, s: Tap, h: History, asked: seq<Sent<RequestHead>>)
    requires AllSent(P, asked)
    requires RequestsSpanned(s, h) && Settled(s.request) && RequestsFollow(s.request, h.requests, asked, [])
    ensures s.request == START && |h.requests| == |asked|
    ensures forall j :: 0 <= j < |asked| ==> Arrived(h.requests[j], asked[j])
  {
    var n := |h.requests|;
    if s.request.mode == Head {
      assert n < |asked| ==> WellSent(P, asked[n]);
      RequestHeadsAreRead(s.request, h.requests, asked);
      LastArrivedToo(h.requests, asked);
    } else {
      assert FramedByHead(h.requests[n - 1]) && WellSent(P, asked[n - 1]);
      BodyArrives(s, h.requests[n - 1], asked[n - 1], WireOf(asked[n..]));
    }
  }

  lemma LastArrivedToo(requests: seq<Opened>, asked: seq<Sent<RequestHead>>)
    requires |requests| == |asked| && forall j :: 0 <= j < |asked| - 1 ==> Arrived(requests[j], asked[j])
    requires asked != [] ==> Arrived(requests[|asked| - 1], asked[|asked| - 1])
    ensures forall j :: 0 <= j < |asked| ==> Arrived(requests[j], asked[j])
  {
  }

  lemma HeadArrives<H>(buffer: seq<Byte>, m: Sent<H>, rest: seq<Byte>)
    requires CleanHead(m.head) && buffer + [] == m.head + (m.raw + rest)
    ensures HeadEnd(buffer) != None
  {
    assert buffer + [] == buffer;
    CleanHeadFound(m.head, m.raw + rest);
  }

  lemma BodyArrives(s: Tap, o: Opened, m: Sent<RequestHead>, rest: seq<Byte>)
    requires s.request.mode.InBody? && FramedByHead(o) && o.body.Reached(s.request.mode.framing)
    requires o.head == m.parsed && Span(RequestFraming(m.parsed.headers), m.raw, m.data).Whole()
    ensures o.body.raw + [] + [] != m.raw + rest
  {
    assert o.body.raw + [] + [] == o.body.raw;
    RequestFramingEnds(o.head.headers);
    BodyIsNotOver(o.body.framing.value, o.body, s.request.mode.framing, m.raw, m.data, rest);
  }

  // ── the response direction ───────────────────────────────────────────────

  predicate Replied(a: Answer, m: Sent<ResponseHead>) {
    a.head == m.parsed && a.body.raw == m.raw && a.body.data == m.data
  }

  /** All but the last of the final responses have been read whole, and the last at least in part. */
  predicate RepliedBut(answers: seq<Answer>, finals: seq<Sent<ResponseHead>>) {
    |answers| == |finals| && forall k :: 0 <= k < |finals| - 1 ==> Replied(answers[k], finals[k])
  }

  /** With `i` responses read, these are the answers to the final ones among them, and this is the rest. */
  predicate RepliesFollow(d: Dir, answers: seq<Answer>, finals: seq<Sent<ResponseHead>>,
                          replied: seq<Sent<ResponseHead>>,
                          i: nat, future: seq<Byte>)
  {
    var n := |finals|;
    && i <= |replied|
    && RepliedBut(answers, finals)
    && match d.mode
       case Head => (n > 0 ==> Replied(answers[n - 1], finals[n - 1])) && d.buffer + future == WireOf(replied[i..])
       case InBody(_) =>
         && i > 0 && n > 0 && finals[n - 1] == replied[i - 1] && !Interim(replied[i - 1].parsed.status)
         && answers[n - 1].head == replied[i - 1].parsed
         && answers[n - 1].body.raw + d.buffer + future == replied[i - 1].raw + WireOf(replied[i..])
       case Passthrough => false
  }

  /** `i` responses have been read, interim ones included, the last of them perhaps in part. */
  predicate ResponsesFollow(d: Dir, answers: seq<Answer>, replied: seq<Sent<ResponseHead>>, i: nat, future: seq<Byte>) {
    i <= |replied| && RepliesFollow(d, answers, Finals(replied[..i]), replied, i, future)
  }

  lemma FinalsNext(replied: seq<Sent<ResponseHead>>, i: nat)
    requires i < |replied|
    ensures Finals(replied[..i + 1])
         == if Interim(replied[i].parsed.status) then Finals(replied[..i]) else Finals(replied[..i]) + [replied[i]]
  {
    assert replied[..i + 1][..i] == replied[..i];
    assert Finals(replied[..i]) + [] == Finals(replied[..i]);
  }

  /** The requests answered so far have been read, so the framing is chosen for the right one. */
  predicate RightVerb(answers: seq<Answer>, asked: seq<Sent<RequestHead>>) {
    |answers| <= |asked| && forall k :: 0 <= k < |answers| ==> answers[k].verb == Some(asked[k].parsed.verb)
  }

  lemma RepliedPush(answers: seq<Answer>, finals: seq<Sent<ResponseHead>>, a: Answer, m: Sent<ResponseHead>)
    requires RepliedBut(answers, finals) && (finals != [] ==> Replied(answers[|finals| - 1], finals[|finals| - 1]))
    ensures RepliedBut(answers + [a], finals + [m])
  {
  }

  lemma ReplyOpens(buf: seq<Byte>, left: seq<Byte>, answers: seq<Answer>, finals: seq<Sent<ResponseHead>>,
                   replied: seq<Sent<ResponseHead>>, i: nat, a: Answer, framing: Option<LiveFraming>, future: seq<Byte>)
    requires RepliesFollow(Dir(Head, buf), answers, finals, replied, i, future) && i < |replied|
    requires !Interim(replied[i].parsed.status)
    requires a.head == replied[i].parsed && a.body.raw == [] && a.body.data == []
    requires left + future == replied[i].raw + WireOf(replied[i + 1..])
    requires framing == None ==> replied[i].raw == [] && replied[i].data == []
    ensures RepliesFollow(Dir(ModeFor(framing), left), answers + [a], finals + [replied[i]], replied, i + 1, future)
  {
    RepliedPush(answers, finals, a, replied[i]);
    assert [] + left + future == left + future;
    assert [] + WireOf(replied[i + 1..]) == WireOf(replied[i + 1..]);
  }

  lemma ReplyPasses(buf: seq<Byte>, left: seq<Byte>, answers: seq<Answer>, finals: seq<Sent<ResponseHead>>,
                    replied: seq<Sent<ResponseHead>>, i: nat, future: seq<Byte>)
    requires RepliesFollow(Dir(Head, buf), answers, finals, replied, i, future) && i < |replied|
    requires replied[i].raw == []
    requires left + future == replied[i].raw + WireOf(replied[i + 1..])
    ensures RepliesFollow(Dir(Head, left), answers, finals, replied, i + 1, future)
  {
    assert [] + WireOf(replied[i + 1..]) == WireOf(replied[i + 1..]);
  }

  /** The head `m` has just been found. */
  predicate FoundNext(P: Parsers, s: Tap, m: Sent<ResponseHead>) {
    && s.response.mode == Head && s.current.None?
    && P.response(m.head) == Some(m.parsed)
    && Conclude(s.response.buffer) == Found(|m.head|) && |m.head| <= |s.response.buffer|
    && s.response.buffer[..|m.head|] == m.head
  }

  lemma ReplyHeadStep(P: Parsers, s: Tap, h: History, m: Sent<ResponseHead>)
    requires FoundNext(P, s, m) && !Interim(m.parsed.status) && m.parsed.status != 101
    ensures var framing := ResponseFraming(m.parsed.status, FrontMethod(s), m.parsed.headers);
            var t, answers := Step(P, Response, s).0, Note(P, Response, s, h).answers;
            && t.request == s.request
            && t.response == Dir(ModeFor(framing), s.response.buffer[|m.head|..])
            && |answers| == |h.answers| + 1 && answers == h.answers + [answers[|h.answers|]]
            && var a := answers[|h.answers|];
               a.head == m.parsed && a.verb == FrontMethod(s) && a.body == Span(framing, [], [])
  {
  }

  lemma InterimStep(P: Parsers, s: Tap, h: History, m: Sent<ResponseHead>)
    requires FoundNext(P, s, m) && Interim(m.parsed.status)
    ensures Step(P, Response, s).0 == s.(response := Dir(Head, s.response.buffer[|m.head|..]))
    ensures Note(P, Response, s, h).answers == h.answers
  {
  }

  lemma ReplyHeadFollows(P: Parsers, s: Tap, h: History, asked: seq<Sent<RequestHead>>,
                         replied: seq<Sent<ResponseHead>>, i: nat, future: seq<Byte>)
    requires i < |replied| && WellAt(P, asked, replied, i) && FoundNext(P, s, replied[i])
    requires ResponsesFollow(s.response, h.answers, replied, i, future)
    requires s.response.buffer[|replied[i].head|..] + future == replied[i].raw + WireOf(replied[i + 1..])
    requires RightVerb(Note(P, Response, s, h).answers, asked)
    ensures ResponsesFollow(Step(P, Response, s).0.response, Note(P, Response, s, h).answers, replied, i + 1, future)
    ensures Step(P, Response, s).0.request == s.request
  {
    var m, buf, finals := replied[i], s.response.buffer, Finals(replied[..i]);
    FinalsNext(replied, i);
    if Interim(m.parsed.status) {
      InterimStep(P, s, h, m);
      ReplyPasses(buf, buf[|m.head|..], h.answers, finals, replied, i, future);
    } else {
      ReplyHeadStep(P, s, h, m);
      var answers := Note(P, Response, s, h).answers;
      var a := answers[|h.answers|];
      assert a.verb == Some(asked[|h.answers|].parsed.verb);
      ReplyOpens(buf, buf[|m.head|..], h.answers, finals, replied, i, a,
                 ResponseFraming(m.parsed.status, FrontMethod(s), m.parsed.headers), future);
    }
  }

  lemma NextReplyFollows(P: Parsers, s: Tap, h: History, asked: seq<Sent<RequestHead>>,
                         replied: seq<Sent<ResponseHead>>, i: nat, future: seq<Byte>) returns (j: nat)
    requires i < |replied| ==> WellAt(P, asked, replied, i)
    requires s.response.mode == Head && s.current.None? && ResponsesFollow(s.response, h.answers, replied, i, future)
    requires RightVerb(Note(P, Response, s, h).answers, asked)
    ensures ResponsesFollow(Step(P, Response, s).0.response, Note(P, Response, s, h).answers, replied, j, future)
    ensures Step(P, Response, s).0.request == s.request
  {
    j := i;
    var buf := s.response.buffer;
    if i == |replied| {
      NothingToCome(buf, future);
    } else {
      var m := replied[i];
      var rest := m.raw + WireOf(replied[i + 1..]);
      assert buf + future == m.head + rest by { WireNext(replied, i); }
      CleanBuffer(m.head, rest, buf, future);
      if Conclude(buf).Found? {
        j := i + 1;
        ReplyHeadFollows(P, s, h, asked, replied, i, future);
      }
    }
  }

  lemma ReplyGrows(f: LiveFraming, buf: seq<Byte>, answers: seq<Answer>, finals: seq<Sent<ResponseHead>>,
                   replied: seq<Sent<ResponseHead>>, i: nat, future: seq<Byte>)
    requires answers != [] && RepliesFollow(Dir(InBody(f), buf), answers, finals, replied, i, future)
    requires var a, m := answers[|answers| - 1], replied[i - 1];
             a.body.framing.Some? && a.body.Reached(f) && Span(a.body.framing, m.raw, m.data).Whole()
    ensures var r, last := FeedFraming(f, buf), |answers| - 1;
            RepliesFollow(Dir(if r.next.Unfinished() then InBody(r.next) else Head, buf[r.used..]),
                          answers[last := answers[last].(body := answers[last].body.More(r, buf[..r.used]))],
                          finals, replied, i, future)
  {
    var r, last := FeedFraming(f, buf), |answers| - 1;
    var a, m := answers[last], replied[i - 1];
    if r.next.Unfinished() {
      assert buf[..r.used] == buf && buf[r.used..] == [];
      assert a.body.raw + buf + [] + future == a.body.raw + buf + future;
    } else {
      BodyEnds(a.body.framing.value, a.body, f, buf, future, m.raw, m.data, WireOf(replied[i..]));
    }
  }

  lemma ReplyBodyStep(P: Parsers, s: Tap, h: History)
    requires h.answers != [] && s.current.Some? && s.response.mode.InBody? && s.response.buffer != []
    ensures var buf, last := s.response.buffer, |h.answers| - 1;
            var r := FeedFraming(s.response.mode.framing, buf);
            && Step(P, Response, s).0.response
              == Dir(if r.next.Unfinished() then InBody(r.next) else Head, buf[r.used..])
            && Step(P, Response, s).0.request == s.request
            && Note(P, Response, s, h).answers
               == h.answers[last := h.answers[last].(body := h.answers[last].body.More(r, buf[..r.used]))]
  {
  }

  /** The last response's body is the sender's, under the framing that the tap chose. */
  lemma LastIsWhole(P: Parsers, asked: seq<Sent<RequestHead>>, replied: seq<Sent<ResponseHead>>, i: nat,
                    answers: seq<Answer>)
    requires 0 < i <= |replied| && WellAt(P, asked, replied, i - 1) && !Interim(replied[i - 1].parsed.status)
    requires |answers| == |Finals(replied[..i])| && answers != [] && RightVerb(answers, asked)
    requires var a := answers[|answers| - 1]; Framed(a) && a.head == replied[i - 1].parsed
    ensures var a, m := answers[|answers| - 1], replied[i - 1];
            Span(a.body.framing, m.raw, m.data).Whole() && (a.body.framing == Some(UntilEof) ==> i == |replied|)
  {
    assert |Finals(replied[..i - 1])| == |answers| - 1 by { FinalsNext(replied, i - 1); }
    var verb := asked[|answers| - 1].parsed.verb;
    assert answers[|answers| - 1].verb == Some(verb);
    assert WellFinal(P, verb, replied[i - 1], i - 1 == |replied| - 1);
  }

  lemma ReplyBodyFollows(P: Parsers, s: Tap, h: History, replied: seq<Sent<ResponseHead>>, i: nat, future: seq<Byte>)
    requires 0 < i <= |replied| && h.answers != []
    requires s.response.mode.InBody? && s.response.buffer != [] && s.current.Some?
    requires ResponsesFollow(s.response, h.answers, replied, i, future)
    requires var a, m := h.answers[|h.answers| - 1], replied[i - 1];
             a.body.framing.Some? && a.body.Reached(s.response.mode.framing)
               && Span(a.body.framing, m.raw, m.data).Whole()
    ensures ResponsesFollow(Step(P, Response, s).0.response, Note(P, Response, s, h).answers, replied, i, future)
    ensures Step(P, Response, s).0.request == s.request
  {
    ReplyBodyStep(P, s, h);
    ReplyGrows(s.response.mode.framing, s.response.buffer, h.answers, Finals(replied[..i]), replied, i, future);
  }

  // ── both directions at once ──────────────────────────────────────────────

  /** No response head was read before its request's, and no request was evicted. */
  predicate Smooth(h: History) {
    h.orphans == 0 && h.dropped == 0
  }

  predicate NotRougher(h: History, g: History) {
    h.orphans <= g.orphans && h.dropped <= g.dropped
  }

  /** Both directions follow what is sent, `i` responses have been read, and the rest is still to come. */
  ghost predicate Conversing(s: Tap, h: History, asked: seq<Sent<RequestHead>>, replied: seq<Sent<ResponseHead>>,
                             i: nat, toAsk: seq<Byte>, toReply: seq<Byte>) {
    && Kept(s, h)
    && RequestsFollow(s.request, h.requests, asked, toAsk)
    && ResponsesFollow(s.response, h.answers, replied, i, toReply)
    && (s.response.mode.InBody? ==> s.current.Some?)
  }

  lemma HeadsAsked(d: Dir, requests: seq<Opened>, answers: seq<Answer>, asked: seq<Sent<RequestHead>>,
                   future: seq<Byte>)
    requires RequestsFollow(d, requests, asked, future) && |answers| <= |requests|
    requires forall k :: 0 <= k < |answers| ==> answers[k].verb == Some(requests[k].head.verb)
    ensures RightVerb(answers, asked)
  {
    forall k | 0 <= k < |requests|
      ensures requests[k].head == asked[k].parsed
    {
      if k < |requests| - 1 {
        assert Arrived(requests[k], asked[k]);
      }
    }
  }

  lemma SmoothVerbs(s: Tap, h: History, asked: seq<Sent<RequestHead>>, toAsk: seq<Byte>)
    requires Kept(s, h) && Smooth(h) && RequestsFollow(s.request, h.requests, asked, toAsk)
    ensures RightVerb(h.answers, asked)
  {
    HeadsAsked(s.request, h.requests, h.answers, asked, toAsk);
  }

  lemma ReplyStepLeaves(P: Parsers, s: Tap, h: History)
    ensures Note(P, Response, s, h).requests == h.requests
    ensures Step(P, Response, s).0.response.mode.InBody? && s.response.mode == Head ==>
            Step(P, Response, s).0.current.Some?
    ensures Step(P, Response, s).0.response.mode.InBody? && s.response.mode.InBody? && s.current.Some? ==>
              Step(P, Response, s).0.current.Some?
  {
  }

  lemma AskStepLeaves(P: Parsers, s: Tap, h: History)
    ensures var t, g := Step(P, Request, s).0, Note(P, Request, s, h);
            t.response == s.response && t.current == s.current && g.answers == h.answers
  {
  }

  lemma NextBodyFollows(P: Parsers, s: Tap, h: History, asked: seq<Sent<RequestHead>>,
                        replied: seq<Sent<ResponseHead>>, i: nat, future: seq<Byte>)
    requires 0 < i <= |replied| && WellAt(P, asked, replied, i - 1) && RightVerb(h.answers, asked)
    requires AnswersSpanned(s, h) && s.current.Some? && s.response.buffer != []
    requires ResponsesFollow(s.response, h.answers, replied, i, future)
    ensures ResponsesFollow(Step(P, Response, s).0.response, Note(P, Response, s, h).answers, replied, i, future)
    ensures Step(P, Response, s).0.request == s.request
  {
    LastAnswerFramed(s, h);
    assert s.response.mode.InBody?;
    LastIsWhole(P, asked, replied, i, h.answers);
    ReplyBodyFollows(P, s, h, replied, i, future);
  }

  lemma NextVerbs(P: Parsers, s: Tap, h: History, asked: seq<Sent<RequestHead>>, toAsk: seq<Byte>)
    requires InOrder(Step(P, Response, s).0, Note(P, Response, s, h)) && Smooth(Note(P, Response, s, h))
    requires RequestsFollow(s.request, h.requests, asked, toAsk)
    ensures RightVerb(Note(P, Response, s, h).answers, asked)
  {
    var g := Note(P, Response, s, h);
    ReplyStepLeaves(P, s, h);
    assert Matched(g);
    HeadsAsked(s.request, h.requests, g.answers, asked, toAsk);
  }

  lemma ReplyStepFollows(P: Parsers, s: Tap, h: History, asked: seq<Sent<RequestHead>>,
                         replied: seq<Sent<ResponseHead>>,
                         i: nat, toAsk: seq<Byte>, toReply: seq<Byte>) returns (j: nat)
    requires WellConversed(P, asked, replied) && Conversing(s, h, asked, replied, i, toAsk, toReply)
    requires Kept(Step(P, Response, s).0, Note(P, Response, s, h)) && Smooth(Note(P, Response, s, h)) && Smooth(h)
    ensures ResponsesFollow(Step(P, Response, s).0.response, Note(P, Response, s, h).answers, replied, j, toReply)
    ensures Step(P, Response, s).0.request == s.request
  {
    j := i;
    if s.response.mode == Head {
      NextVerbs(P, s, h, asked, toAsk);
      assert i < |replied| ==> WellAt(P, asked, replied, i);
      j := NextReplyFollows(P, s, h, asked, replied, i, toReply);
    } else if s.response.buffer != [] {
      SmoothVerbs(s, h, asked, toAsk);
      assert WellAt(P, asked, replied, i - 1);
      NextBodyFollows(P, s, h, asked, replied, i, toReply);
    }
  }

  lemma ConverseStep(P: Parsers, side: Side, s: Tap, h: History, asked: seq<Sent<RequestHead>>,
                     replied: seq<Sent<ResponseHead>>,
                     i: nat, toAsk: seq<Byte>, toReply: seq<Byte>) returns (j: nat)
    requires WellConversed(P, asked, replied) && Conversing(s, h, asked, replied, i, toAsk, toReply)
    requires Smooth(Note(P, side, s, h)) && Smooth(h)
    ensures Conversing(Step(P, side, s).0, Note(P, side, s, h), asked, replied, j, toAsk, toReply)
  {
    StepKept(P, side, s, h);
    if side == Request {
      j := i;
      AskStepLeaves(P, s, h);
      RequestStepFollows(P, s, h, asked, toAsk);
    } else {
      j := ReplyStepFollows(P, s, h, asked, replied, i, toAsk, toReply);
      ReplyStepLeaves(P, s, h);
    }
  }

  lemma NoteRoughens(P: Parsers, side: Side, s: Tap, h: History)
    ensures NotRougher(h, Note(P, side, s, h))
  {
  }

  lemma {:induction false} DrainRoughens(P: Parsers, side: Side, s: Tap, h: History)
    ensures NotRougher(h, DrainHistory(P, side, s, h))
    decreases |s.At(side).buffer|
  {
    NoteRoughens(P, side, s, h);
    if Step(P, side, s).1 {
      DrainRoughens(P, side, Step(P, side, s).0, Note(P, side, s, h));
    }
  }

  lemma {:induction false} RunRoughens(P: Parsers, s: Tap, h: History, inputs: seq<Input>)
    ensures NotRougher(h, RunHistory(P, s, h, inputs))
    decreases |inputs|
  {
    if inputs != [] {
      if inputs[0].Bytes? {
        DrainRoughens(P, inputs[0].side, s.Extend(inputs[0].side, inputs[0].bytes), h);
      }
      RunRoughens(P, React(P, s, inputs[0]), ReactHistory(P, s, h, inputs[0]), inputs[1..]);
    }
  }

  lemma {:induction false} ConverseDrain(P: Parsers, side: Side, s: Tap, h: History, asked: seq<Sent<RequestHead>>,
                                         replied: seq<Sent<ResponseHead>>, i: nat, toAsk: seq<Byte>, toReply: seq<Byte>)
    returns (j: nat)
    requires WellConversed(P, asked, replied) && Conversing(s, h, asked, replied, i, toAsk, toReply)
    requires Smooth(DrainHistory(P, side, s, h))
    ensures Conversing(Drain(P, side, s), DrainHistory(P, side, s, h), asked, replied, j, toAsk, toReply)
    decreases |s.At(side).buffer|
  {
    var t, g := Step(P, side, s).0, Note(P, side, s, h);
    NoteRoughens(P, side, s, h);
    if Step(P, side, s).1 {
      DrainRoughens(P, side, t, g);
    }
    j := ConverseStep(P, side, s, h, asked, replied, i, toAsk, toReply);
    if Step(P, side, s).1 {
      j := ConverseDrain(P, side, t, g, asked, replied, j, toAsk, toReply);
    }
  }

  lemma MoreToAsk(d: Dir, requests: seq<Opened>, asked: seq<Sent<RequestHead>>, bytes: seq<Byte>, future: seq<Byte>)
    requires RequestsFollow(d, requests, asked, bytes + future)
    ensures RequestsFollow(Dir(d.mode, d.buffer + bytes), requests, asked, future)
  {
    assert d.buffer + (bytes + future) == (d.buffer + bytes) + future;
    if d.mode.InBody? {
      var raw := requests[|requests| - 1].body.raw;
      assert raw + d.buffer + (bytes + future) == raw + (d.buffer + bytes) + future;
    }
  }

  lemma MoreToReply(d: Dir, answers: seq<Answer>, replied: seq<Sent<ResponseHead>>, i: nat, bytes: seq<Byte>,
                    future: seq<Byte>)
    requires ResponsesFollow(d, answers, replied, i, bytes + future)
    ensures ResponsesFollow(Dir(d.mode, d.buffer + bytes), answers, replied, i, future)
  {
    assert d.buffer + (bytes + future) == (d.buffer + bytes) + future;
    if d.mode.InBody? {
      var raw := answers[|answers| - 1].body.raw;
      assert raw + d.buffer + (bytes + future) == raw + (d.buffer + bytes) + future;
    }
  }

  lemma BytesCome(s: Tap, h: History, side: Side, bytes: seq<Byte>, asked: seq<Sent<RequestHead>>,
                  replied: seq<Sent<ResponseHead>>, i: nat, toAsk: seq<Byte>, toReply: seq<Byte>)
    requires Conversing(s, h, asked, replied, i, if side == Request then bytes + toAsk else toAsk,
                        if side == Response then bytes + toReply else toReply)
    ensures s.At(side).mode != Passthrough && Conversing(s.Extend(side, bytes), h, asked, replied, i, toAsk, toReply)
  {
    ExtendKept(s, h, side, bytes);
    if side == Request {
      MoreToAsk(s.request, h.requests, asked, bytes, toAsk);
    } else {
      MoreToReply(s.response, h.answers, replied, i, bytes, toReply);
    }
  }

  lemma ShownNext(inputs: seq<Input>, side: Side)
    requires inputs != [] && inputs[0].Bytes?
    ensures Shown(inputs, side) == if inputs[0].side == side then inputs[0].bytes + Shown(inputs[1..], side)
                                   else Shown(inputs[1..], side)
  {
    assert [] + Shown(inputs[1..], side) == Shown(inputs[1..], side);
  }

  lemma ConverseReact(P: Parsers, s: Tap, h: History, inputs: seq<Input>, asked: seq<Sent<RequestHead>>,
                      replied: seq<Sent<ResponseHead>>, i: nat) returns (j: nat)
    requires WellConversed(P, asked, replied) && inputs != [] && inputs[0].Bytes?
    requires Conversing(s, h, asked, replied, i, Shown(inputs, Request), Shown(inputs, Response))
    requires Smooth(ReactHistory(P, s, h, inputs[0]))
    ensures Conversing(React(P, s, inputs[0]), ReactHistory(P, s, h, inputs[0]), asked, replied, j,
                       Shown(inputs[1..], Request), Shown(inputs[1..], Response))
  {
    var side, bytes := inputs[0].side, inputs[0].bytes;
    var toAsk, toReply := Shown(inputs[1..], Request), Shown(inputs[1..], Response);
    ShownNext(inputs, Request);
    ShownNext(inputs, Response);
    BytesCome(s, h, side, bytes, asked, replied, i, toAsk, toReply);
    j := ConverseDrain(P, side, s.Extend(side, bytes), h, asked, replied, i, toAsk, toReply);
  }

  predicate NoClose(inputs: seq<Input>) {
    inputs != [] ==> inputs[0].Bytes? && NoClose(inputs[1..])
  }

  lemma FirstAndRest(inputs: seq<Input>, n: nat)
    requires 0 < n <= |inputs|
    ensures inputs[..n][0] == inputs[0] && inputs[..n][1..] == inputs[1..][..n - 1]
    ensures inputs[1..][n - 1..] == inputs[n..]
  {
  }

  /** After the first `n` inputs: what they showed has been followed, and the rest is still to come. */
  lemma {:induction false} ConverseRun(P: Parsers, s: Tap, h: History, inputs: seq<Input>, n: nat,
                                       asked: seq<Sent<RequestHead>>, replied: seq<Sent<ResponseHead>>, i: nat)
    returns (j: nat)
    requires WellConversed(P, asked, replied) && NoClose(inputs) && n <= |inputs|
    requires Conversing(s, h, asked, replied, i, Shown(inputs, Request), Shown(inputs, Response))
    requires Smooth(RunHistory(P, s, h, inputs[..n]))
    ensures Conversing(Run(P, s, inputs[..n]), RunHistory(P, s, h, inputs[..n]), asked, replied, j,
                       Shown(inputs[n..], Request), Shown(inputs[n..], Response))
    decreases n
  {
    if n == 0 {
      assert inputs[..0] == [] && inputs[0..] == inputs;
      j := i;
    } else {
      var t, g := React(P, s, inputs[0]), ReactHistory(P, s, h, inputs[0]);
      FirstAndRest(inputs, n);
      RunRoughens(P, t, g, inputs[1..][..n - 1]);
      j := ConverseReact(P, s, h, inputs, asked, replied, i);
      j := ConverseRun(P, t, g, inputs[1..], n - 1, asked, replied, j);
    }
  }

  // ── the round trip ───────────────────────────────────────────────────────

  /** All of the final responses have been read, the last perhaps up to the close. */
  predicate AllAnswered(d: Dir, answers: seq<Answer>, finals: seq<Sent<ResponseHead>>) {
    && |answers| == |finals| && (forall k :: 0 <= k < |finals| ==> Replied(answers[k], finals[k]))
    && d.buffer == [] && (d.mode == Head || d.mode == InBody(UntilEof))
  }

  lemma HeadsAreRead(P: Parsers, d: Dir, answers: seq<Answer>, finals: seq<Sent<ResponseHead>>,
                     replied: seq<Sent<ResponseHead>>, i: nat)
    requires d.mode == Head && Settled(d) && RepliesFollow(d, answers, finals, replied, i, [])
    requires i < |replied| ==> CleanHead(replied[i].head)
    ensures i == |replied| && AllAnswered(d, answers, finals)
  {
    if i < |replied| {
      HeadArrives(d.buffer, replied[i], WireOf(replied[i + 1..])) by {
        WireNext(replied, i);
      }
    }
    assert d.buffer + [] == d.buffer;
    LastToo(answers, finals);
  }

  lemma BodiesAreRead(d: Dir, answers: seq<Answer>, finals: seq<Sent<ResponseHead>>,
                      replied: seq<Sent<ResponseHead>>, i: nat)
    requires d.mode.InBody? && Settled(d) && RepliesFollow(d, answers, finals, replied, i, [])
    requires var a, m := answers[|answers| - 1], replied[i - 1];
             && a.body.framing.Some? && a.body.Reached(d.mode.framing) && Span(a.body.framing, m.raw, m.data).Whole()
             && (a.body.framing == Some(UntilEof) ==> i == |replied|)
    ensures i == |replied| && AllAnswered(d, answers, finals)
  {
    ReplyBodyArrives(d, answers[|answers| - 1], replied[i - 1], WireOf(replied[i..]));
    if i < |replied| {
      WireNext(replied, i);
    }
    LastToo(answers, finals);
  }

  lemma LastAnswerFramed(s: Tap, h: History)
    requires AnswersSpanned(s, h) && s.current.Some?
    ensures var a := h.answers[|h.answers| - 1]; Framed(a) && a.body.Reached(s.response.mode.framing)
  {
  }

  lemma LastReplyArrives(P: Parsers, d: Dir, answers: seq<Answer>, asked: seq<Sent<RequestHead>>,
                         replied: seq<Sent<ResponseHead>>, i: nat)
    requires 0 < i <= |replied| && WellAt(P, asked, replied, i - 1)
    requires d.mode.InBody? && Settled(d) && ResponsesFollow(d, answers, replied, i, []) && RightVerb(answers, asked)
    requires var a := answers[|answers| - 1]; Framed(a) && a.body.Reached(d.mode.framing)
    ensures i == |replied| && AllAnswered(d, answers, Finals(replied[..i]))
  {
    var finals := Finals(replied[..i]);
    LastIsWhole(P, asked, replied, i, answers);
    BodiesAreRead(d, answers, finals, replied, i);
  }

  /** When nothing is left to come, all responses are read. */
  lemma RepliesArrive(P: Parsers, s: Tap, h: History, asked: seq<Sent<RequestHead>>,
                      replied: seq<Sent<ResponseHead>>, i: nat)
    requires i < |replied| ==> WellAt(P, asked, replied, i)
    requires 0 < i <= |replied| ==> WellAt(P, asked, replied, i - 1)
    requires AnswersSpanned(s, h) && RightVerb(h.answers, asked) && Settled(s.response)
    requires ResponsesFollow(s.response, h.answers, replied, i, []) && (s.response.mode.InBody? ==> s.current.Some?)
    ensures i == |replied| && AllAnswered(s.response, h.answers, Finals(replied[..i]))
  {
    var d, answers := s.response, h.answers;
    if d.mode == Head {
      HeadsAreRead(P, d, answers, Finals(replied[..i]), replied, i);
    } else {
      LastAnswerFramed(s, h);
      LastReplyArrives(P, d, answers, asked, replied, i);
    }
  }

  lemma LastToo(answers: seq<Answer>, finals: seq<Sent<ResponseHead>>)
    requires RepliedBut(answers, finals)
    requires finals != [] ==> Replied(answers[|finals| - 1], finals[|finals| - 1])
    ensures forall k :: 0 <= k < |finals| ==> Replied(answers[k], finals[k])
  {
  }

  lemma FinalsOfAll(replied: seq<Sent<ResponseHead>>)
    ensures Finals(replied[..|replied|]) == Finals(replied)
  {
    assert replied[..|replied|] == replied;
  }

  lemma ReplyBodyArrives(d: Dir, a: Answer, m: Sent<ResponseHead>, rest: seq<Byte>)
    requires d.mode.InBody? && d.buffer == [] && a.body.framing.Some? && a.body.Reached(d.mode.framing)
    requires Span(a.body.framing, m.raw, m.data).Whole()
    requires a.body.raw + [] + [] == m.raw + rest && (a.body.framing == Some(UntilEof) ==> rest == [])
    ensures d.mode.framing == UntilEof && a.body.raw == m.raw && a.body.data == m.data && rest == []
  {
    assert a.body.raw + [] + [] == a.body.raw;
    if a.body.framing != Some(UntilEof) {
      BodyIsNotOver(a.body.framing.value, a.body, d.mode.framing, m.raw, m.data, rest);
    }
    assert m.raw + [] == m.raw;
  }

  /** The exchange of a request, recorded when `n` data bytes of its body had been read, and its response. */
  predicate Exchanged(e: Exchange, asked: Sent<RequestHead>, n: nat, replied: Sent<ResponseHead>) {
    && n <= |asked.data| && e.request == Asked(asked.(data := asked.data[..n]))
    && e.response == PendingResponse(replied.parsed, Captured(replied.data))
  }

  lemma StartConverses(P: Parsers, asked: seq<Sent<RequestHead>>, replied: seq<Sent<ResponseHead>>)
    ensures Conversing(NEW, NOTHING, asked, replied, 0, WireOf(asked), WireOf(replied))
  {
    StartKept();
    assert asked[0..] == asked && replied[0..] == replied && replied[..0] == [];
    assert [] + WireOf(asked) == WireOf(asked) && [] + WireOf(replied) == WireOf(replied);
  }

  lemma RecordsExchanged(s: Tap, h: History, asked: seq<Sent<RequestHead>>, finals: seq<Sent<ResponseHead>>)
    requires Linked(s, h) && Smooth(h) && s.current.None?
    requires |h.requests| == |asked| && forall j :: 0 <= j < |asked| ==> Arrived(h.requests[j], asked[j])
    requires |h.answers| == |finals| && forall k :: 0 <= k < |finals| ==> Replied(h.answers[k], finals[k])
    ensures |finals| <= |asked| && |s.records| == |finals| == |h.caught|
    ensures forall k :: 0 <= k < |finals| ==> Exchanged(s.records[k], asked[k], h.caught[k], finals[k])
    ensures s.pending == AllAsked(asked)[|finals|..]
  {
    forall k | 0 <= k < |finals|
      ensures Exchanged(s.records[k], asked[k], h.caught[k], finals[k])
    {
      assert Honoured(s, h, k) && Replied(h.answers[k], finals[k]) && Arrived(h.requests[k], asked[k]);
      CaughtOfSent(s.records[k].request, h.requests[k], asked[k], h.caught[k]);
    }
    forall j | 0 <= j < |s.pending|
      ensures s.pending[j] == AllAsked(asked)[|finals| + j]
    {
      assert Arrived(h.requests[|finals| + j], asked[|finals| + j]);
    }
  }

  lemma CaughtOfSent(p: PendingRequest, o: Opened, m: Sent<RequestHead>, n: nat)
    requires Caught(p, o, n) && Arrived(o, m)
    ensures n <= |m.data| && p == Asked(m.(data := m.data[..n]))
  {
  }

  /**
   The round trip of a whole conversation. However the two directions interleave and are cut, if no
   response head is read before its request's and none is evicted, then after the close the exchanges
   recorded are exactly the k-th request, with the data of its body that had been read by then, and the
   k-th final response with its whole body; the requests that were not answered are still queued, with
   their bodies.
   */
  lemma ConversationRoundTrip(P: Parsers, inputs: seq<Input>, asked: seq<Sent<RequestHead>>,
                              replied: seq<Sent<ResponseHead>>)
    requires WellConversed(P, asked, replied) && NoClose(inputs)
    requires Shown(inputs, Request) == WireOf(asked) && Shown(inputs, Response) == WireOf(replied)
    requires Smooth(RunHistory(P, NEW, NOTHING, inputs))
    ensures var t, g := Run(P, NEW, inputs + [Closed]), RunHistory(P, NEW, NOTHING, inputs + [Closed]);
            var finals := Finals(replied);
            && t.request == START && t.response.buffer == [] && t.current == None
            && |finals| <= |asked| && |t.records| == |finals| == |g.caught|
            && (forall k :: 0 <= k < |finals| ==> Exchanged(t.records[k], asked[k], g.caught[k], finals[k]))
            && t.pending == AllAsked(asked)[|finals|..]
  {
    ConversationEnds(P, inputs, asked, replied);
    ClosedRecords(Run(P, NEW, inputs), RunHistory(P, NEW, NOTHING, inputs), asked, Finals(replied));
    RunClosed(P, inputs);
  }

  lemma ConversationEnds(P: Parsers, inputs: seq<Input>, asked: seq<Sent<RequestHead>>,
                         replied: seq<Sent<ResponseHead>>)
    requires WellConversed(P, asked, replied) && NoClose(inputs)
    requires Shown(inputs, Request) == WireOf(asked) && Shown(inputs, Response) == WireOf(replied)
    requires Smooth(RunHistory(P, NEW, NOTHING, inputs))
    ensures var s, h := Run(P, NEW, inputs), RunHistory(P, NEW, NOTHING, inputs);
            && Kept(s, h) && AllAnswered(s.response, h.answers, Finals(replied)) && s.request == START
            && |h.requests| == |asked| && forall j :: 0 <= j < |asked| ==> Arrived(h.requests[j], asked[j])
  {
    var s, h := Run(P, NEW, inputs), RunHistory(P, NEW, NOTHING, inputs);
    assert inputs[..|inputs|] == inputs && inputs[|inputs|..] == [];
    var i := ConversesUpTo(P, inputs, |inputs|, asked, replied);
    RequestsArrive(P, s, h, asked);
    SmoothVerbs(s, h, asked, []);
    RepliesArrive(P, s, h, asked, replied, i);
    FinalsOfAll(replied);
  }

  lemma SmoothBefore(P: Parsers, inputs: seq<Input>, n: nat)
    requires n <= |inputs| && Smooth(RunHistory(P, NEW, NOTHING, inputs))
    ensures Smooth(RunHistory(P, NEW, NOTHING, inputs[..n]))
  {
    RunSplit(P, NEW, NOTHING, inputs, n);
    RunRoughens(P, Run(P, NEW, inputs[..n]), RunHistory(P, NEW, NOTHING, inputs[..n]), inputs[n..]);
  }

  /** At every moment of the conversation, both directions follow it and rest. */
  lemma ConversesUpTo(P: Parsers, inputs: seq<Input>, n: nat, asked: seq<Sent<RequestHead>>,
                      replied: seq<Sent<ResponseHead>>) returns (i: nat)
    requires WellConversed(P, asked, replied) && NoClose(inputs) && n <= |inputs|
    requires Shown(inputs, Request) == WireOf(asked) && Shown(inputs, Response) == WireOf(replied)
    requires Smooth(RunHistory(P, NEW, NOTHING, inputs))
    ensures var s, h := Run(P, NEW, inputs[..n]), RunHistory(P, NEW, NOTHING, inputs[..n]);
            && Smooth(h) && Between(s)
            && Conversing(s, h, asked, replied, i, Shown(inputs[n..], Request), Shown(inputs[n..], Response))
  {
    SmoothBefore(P, inputs, n);
    StartConverses(P, asked, replied);
    i := ConverseRun(P, NEW, NOTHING, inputs, n, asked, replied, 0);
    RunSettles(P, NEW, inputs[..n]);
  }

  lemma RunClosed(P: Parsers, inputs: seq<Input>)
    ensures Run(P, NEW, inputs + [Closed]) == Finish(Run(P, NEW, inputs))
    ensures RunHistory(P, NEW, NOTHING, inputs + [Closed])
         == ReactHistory(P, Run(P, NEW, inputs), RunHistory(P, NEW, NOTHING, inputs), Closed)
  {
    var all := inputs + [Closed];
    RunNext(P, NEW, NOTHING, all, |inputs|);
    assert all[..|inputs|] == inputs && all[..|inputs| + 1] == all;
  }

  lemma ClosedRecords(s: Tap, h: History, asked: seq<Sent<RequestHead>>, finals: seq<Sent<ResponseHead>>)
    requires Kept(s, h) && Smooth(h) && AllAnswered(s.response, h.answers, finals) && s.request == START
    requires |h.requests| == |asked| && forall j :: 0 <= j < |asked| ==> Arrived(h.requests[j], asked[j])
    ensures var t, g := Finish(s), if s.response.mode == InBody(UntilEof) then NoteComplete(s, h) else h;
            && t.request == START && t.response.buffer == [] && t.current == None
            && |finals| <= |asked| && |t.records| == |finals| == |g.caught|
            && (forall k :: 0 <= k < |finals| ==> Exchanged(t.records[k], asked[k], g.caught[k], finals[k]))
            && t.pending == AllAsked(asked)[|finals|..]
  {
    if s.response.mode == Head {
      RecordsExchanged(s, h, asked, finals);
    } else {
      CompleteLinked(s, h);
      RecordsExchanged(Complete(s), NoteComplete(s, h), asked, finals);
    }
  }
}
