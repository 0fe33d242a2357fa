/**
 How the tap pairs requests with responses, over every interleaving of the two directions.

 `Linked` says that the queue and the records are exactly what the history accounts for; `Spanned`
 says that every body is what its own framing took off the wire. Both hold in every run.
 */
module TapPairing {
  import opened Basics
  import opened Capture
  import opened Heads
  import opened HttpTap
  import opened TapHistory
  import TapSplit

  // ── what is kept ─────────────────────────────────────────────────────────

  function Waiting(o: Opened): PendingRequest {
    PendingRequest(o.head, HeaderValue(o.head.headers, "host"), Captured(o.body.data))
  }

  function Told(a: Answer): PendingResponse {
    PendingResponse(a.head, Captured(a.body.data))
  }

  /** `p` is the request `o`, caught when exactly `n` data bytes of its body had been read. */
  predicate Caught(p: PendingRequest, o: Opened, n: nat) {
    n <= |o.body.data| && p == Waiting(o.(body := o.body.(data := o.body.data[..n])))
  }

  /** The queue holds the newest requests, with the bodies their own framing took. */
  predicate Queued(s: Tap, h: History) {
    && |s.pending| <= |h.requests|
    && |s.pending| <= MAX_PENDING
    && forall i :: 0 <= i < |s.pending| ==> s.pending[i] == Waiting(h.requests[|h.requests| - |s.pending| + i])
  }

  function CountSome(served: seq<Option<nat>>): nat {
    if served == [] then 0 else CountSome(served[..|served| - 1]) + if served[|served| - 1].Some? then 1 else 0
  }

  /** Records pair each request at most once, in the order the requests came; none is lost. */
  predicate Served(s: Tap, h: History) {
    && |s.records| == |h.served| == |h.caught|
    && |h.requests| == |s.pending| + h.dropped + CountSome(h.served)
    && (forall k :: 0 <= k < |h.served| ==> Honoured(s, h, k))
    && (forall a, b :: 0 <= a < b < |h.served| && h.served[a].Some? && h.served[b].Some? ==>
          h.served[a].value < h.served[b].value)
  }

  predicate Honoured(s: Tap, h: History, k: nat)
    requires k < |h.served| == |h.caught| == |s.records|
  {
    match h.served[k]
    case None => s.records[k].request == UNKNOWN
    case Some(j) => j < |h.requests| - |s.pending| && Caught(s.records[k].request, h.requests[j], h.caught[k])
  }

  /** Record k carries response k; the response being read is the last one. */
  predicate Answered(s: Tap, h: History) {
    && |h.answers| == |s.records| + (if s.current.Some? then 1 else 0)
    && (forall k :: 0 <= k < |s.records| ==> s.records[k].response == Told(h.answers[k]))
    && (s.current.Some? ==> s.current.value == Told(h.answers[|s.records|]))
  }

  /** Without orphans and evictions, response k answers request k and was framed for it. */
  predicate InOrder(s: Tap, h: History) {
    && (h.orphans == 0 ==> s.current.Some? ==> s.pending != [])
    && (h.orphans == 0 ==> CountSome(h.served) == |h.served|)
    && (h.orphans == 0 && h.dropped == 0 ==> Matched(h))
  }

  predicate Matched(h: History) {
    && |h.answers| <= |h.requests|
    && (forall k :: 0 <= k < |h.answers| ==> h.answers[k].verb == Some(h.requests[k].head.verb))
    && (forall k :: 0 <= k < |h.served| ==> h.served[k] == Some(k))
  }

  predicate Linked(s: Tap, h: History) {
    Queued(s, h) && Served(s, h) && Answered(s, h) && InOrder(s, h)
  }

  // ── completing an exchange ───────────────────────────────────────────────

  lemma CompleteQueued(s: Tap, h: History)
    requires Queued(s, h) && s.current.Some?
    ensures Queued(Complete(s), NoteComplete(s, h))
  {
    var t := Complete(s);
    forall i | 0 <= i < |t.pending|
      ensures t.pending[i] == Waiting(h.requests[|h.requests| - |t.pending| + i])
    {
      assert t.pending[i] == s.pending[i + 1];
    }
  }

  lemma CompleteAnswered(s: Tap, h: History)
    requires Answered(s, h) && s.current.Some?
    ensures Answered(Complete(s), NoteComplete(s, h))
  {
    var t := Complete(s);
    assert t.records[|s.records|].response == s.current.value;
  }

  lemma CountSomePush(served: seq<Option<nat>>, x: Option<nat>)
    ensures CountSome(served + [x]) == CountSome(served) + if x.Some? then 1 else 0
  {
    assert (served + [x])[..|served|] == served;
  }

  /** A request that is recorded now is recorded with all of its body that has been read. */
  lemma CaughtNow(o: Opened)
    ensures Caught(Waiting(o), o, |o.body.data|)
  {
    assert o.body.data[..|o.body.data|] == o.body.data;
    assert o == o.(body := o.body.(data := o.body.data[..|o.body.data|]));
  }

  lemma CompleteServed(s: Tap, h: History)
    requires Linked(s, h) && s.current.Some?
    ensures Served(Complete(s), NoteComplete(s, h))
  {
    var t, g := Complete(s), NoteComplete(s, h);
    var k := |h.served|;
    CountSomePush(h.served, g.served[k]);
    if s.pending != [] {
      var o := h.requests[|h.requests| - |s.pending|];
      assert s.pending[0] == Waiting(o);
      CaughtNow(o);
    }
    forall i | 0 <= i < |g.served|
      ensures Honoured(t, g, i)
    {
      if i < k {
        assert Honoured(s, h, i);
      }
    }
    forall a | 0 <= a < k && h.served[a].Some?
      ensures g.served[k].Some? ==> h.served[a].value < g.served[k].value
    {
      assert Honoured(s, h, a);
    }
  }

  lemma CompleteInOrder(s: Tap, h: History)
    requires Linked(s, h) && s.current.Some?
    ensures InOrder(Complete(s), NoteComplete(s, h))
  {
    var t, g := Complete(s), NoteComplete(s, h);
    CountSomePush(h.served, g.served[|h.served|]);
    assert g.served == h.served + [g.served[|h.served|]];
    if h.orphans == 0 && h.dropped == 0 {
      assert g.served[|h.served|] == Some(|h.served|);
    }
  }

  lemma CompleteLinked(s: Tap, h: History)
    requires Linked(s, h)
    ensures Linked(Complete(s), NoteComplete(s, h))
  {
    if s.current.Some? {
      CompleteQueued(s, h);
      CompleteAnswered(s, h);
      CompleteServed(s, h);
      CompleteInOrder(s, h);
    }
  }

  // ── heads ────────────────────────────────────────────────────────────────

  lemma RequestHeadQueued(s: Tap, h: History, q: RequestHead, wire: seq<Byte>)
    requires Queued(s, h)
    ensures Queued(OnRequestHead(s, q), NoteRequestHead(s, h, q, wire))
  {
  }

  lemma RequestHeadServed(s: Tap, h: History, q: RequestHead, wire: seq<Byte>)
    requires Queued(s, h) && Served(s, h)
    ensures Served(OnRequestHead(s, q), NoteRequestHead(s, h, q, wire))
  {
    var t, g := OnRequestHead(s, q), NoteRequestHead(s, h, q, wire);
    forall k | 0 <= k < |g.served|
      ensures Honoured(t, g, k)
    {
      assert Honoured(s, h, k);
    }
  }

  lemma RequestHeadLinked(s: Tap, h: History, q: RequestHead, wire: seq<Byte>)
    requires Linked(s, h)
    ensures Linked(OnRequestHead(s, q), NoteRequestHead(s, h, q, wire))
  {
    RequestHeadQueued(s, h, q, wire);
    RequestHeadServed(s, h, q, wire);
  }

  lemma AnswerLinked(s: Tap, h: History, q: ResponseHead, wire: seq<Byte>)
    requires Linked(s, h) && s.current.None?
    ensures Linked(s.(current := Some(PendingResponse(q, EMPTY))), NoteAnswer(s, h, q, wire))
  {
    var t, g := s.(current := Some(PendingResponse(q, EMPTY))), NoteAnswer(s, h, q, wire);
    PushCaptures([], []);
    forall k | 0 <= k < |g.served|
      ensures Honoured(t, g, k)
    {
      assert Honoured(s, h, k);
    }
    if s.pending != [] {
      assert s.pending[0] == Waiting(h.requests[|h.requests| - |s.pending|]);
    }
  }

  lemma InterimLinked(s: Tap, h: History, wire: seq<Byte>)
    requires Linked(s, h)
    ensures Linked(s, h.(interim := h.interim + wire))
  {
    var g := h.(interim := h.interim + wire);
    forall k | 0 <= k < |g.served|
      ensures Honoured(s, g, k)
    {
      assert Honoured(s, h, k);
    }
  }

  lemma ResponseHeadLinked(s: Tap, h: History, q: ResponseHead, wire: seq<Byte>)
    requires Linked(s, h) && s.current.None?
    ensures Linked(OnResponseHead(s, q).0, NoteResponseHead(s, h, q, wire))
  {
    if Interim(q.status) {
      InterimLinked(s, h, wire);
    } else {
      AnswerLinked(s, h, q, wire);
      var t, g := s.(current := Some(PendingResponse(q, EMPTY))), NoteAnswer(s, h, q, wire);
      if FramingOfResponse(s, q).None? {
        CompleteLinked(t, g);
        DirsDoNotMatter(Complete(t), OnResponseHead(s, q).0, NoteComplete(t, g));
      } else {
        DirsDoNotMatter(t, OnResponseHead(s, q).0, g);
      }
    }
  }

  /** The queue and the records say nothing about modes and buffers. */
  lemma DirsDoNotMatter(s: Tap, t: Tap, h: History)
    requires Linked(s, h)
    requires t == s.(request := t.request, response := t.response)
    ensures Linked(t, h)
  {
    forall k | 0 <= k < |h.served|
      ensures Honoured(t, h, k)
    {
      assert Honoured(s, h, k);
    }
  }

  // ── body bytes ───────────────────────────────────────────────────────────

  /** What was caught stays the same part of the body when more of it is read. */
  lemma CaughtEarlier(p: PendingRequest, o: Opened, n: nat, r: Fed, bytes: seq<Byte>)
    requires Caught(p, o, n)
    ensures Caught(p, o.(body := o.body.More(r, bytes)), n)
  {
    var later := o.(body := o.body.More(r, bytes));
    assert later.body.data[..n] == o.body.data[..n];
  }

  lemma RequestDataServed(s: Tap, h: History, r: Fed, bytes: seq<Byte>)
    requires Linked(s, h) && h.requests != []
    ensures Served(Deliver(Request, s, r.data), NoteData(Request, s, h, r, bytes))
  {
    var t, g := Deliver(Request, s, r.data), NoteData(Request, s, h, r, bytes);
    forall k | 0 <= k < |g.served|
      ensures Honoured(t, g, k)
    {
      assert Honoured(s, h, k);
      if h.served[k].Some? && h.served[k].value == |h.requests| - 1 {
        CaughtEarlier(s.records[k].request, h.requests[h.served[k].value], h.caught[k], r, bytes);
      }
    }
  }

  lemma RequestDataQueued(s: Tap, h: History, r: Fed, bytes: seq<Byte>)
    requires Queued(s, h) && h.requests != []
    ensures Queued(Deliver(Request, s, r.data), NoteData(Request, s, h, r, bytes))
  {
    var last := |h.requests| - 1;
    PushCaptures(h.requests[last].body.data, r.data);
    if s.pending != [] {
      assert s.pending[|s.pending| - 1] == Waiting(h.requests[last]);
    }
  }

  lemma RequestDataInOrder(s: Tap, h: History, r: Fed, bytes: seq<Byte>)
    requires InOrder(s, h) && h.requests != []
    ensures InOrder(Deliver(Request, s, r.data), NoteData(Request, s, h, r, bytes))
  {
  }

  lemma ResponseDataLinked(s: Tap, h: History, r: Fed, bytes: seq<Byte>)
    requires Linked(s, h)
    ensures Linked(Deliver(Response, s, r.data), NoteData(Response, s, h, r, bytes))
  {
    var t, g := Deliver(Response, s, r.data), NoteData(Response, s, h, r, bytes);
    if s.current.Some? {
      PushCaptures(h.answers[|h.answers| - 1].body.data, r.data);
    }
    forall k | 0 <= k < |g.served|
      ensures Honoured(t, g, k)
    {
      assert Honoured(s, h, k);
    }
  }

  lemma DataLinked(side: Side, s: Tap, h: History, r: Fed, bytes: seq<Byte>)
    requires Linked(s, h)
    requires side == Request ==> h.requests != []
    ensures Linked(Deliver(side, s, r.data), NoteData(side, s, h, r, bytes))
  {
    if side == Request {
      RequestDataQueued(s, h, r, bytes);
      RequestDataServed(s, h, r, bytes);
      RequestDataInOrder(s, h, r, bytes);
    } else {
      ResponseDataLinked(s, h, r, bytes);
    }
  }

  // ── framings ─────────────────────────────────────────────────────────────

  predicate FramedByHead(o: Opened) {
    o.body.framing == RequestFraming(o.head.headers)
  }

  predicate RequestsSpanned(s: Tap, h: History) {
    && (forall j :: 0 <= j < |h.requests| ==> FramedByHead(h.requests[j]))
    && (forall j :: 0 <= j < |h.requests| - 1 ==> h.requests[j].body.Whole())
    && (s.request.mode == Head && h.requests != [] ==> h.requests[|h.requests| - 1].body.Whole())
    && (s.request.mode.InBody? ==>
          h.requests != [] && h.requests[|h.requests| - 1].body.Reached(s.request.mode.framing))
  }

  predicate Framed(a: Answer) {
    a.body.framing == if a.head.status == 101 then None else ResponseFraming(a.head.status, a.verb, a.head.headers)
  }

  predicate AnswersSpanned(s: Tap, h: History) {
    && (forall k :: 0 <= k < |h.answers| ==> Framed(h.answers[k]) && !Interim(h.answers[k].head.status))
    && (forall k :: 0 <= k < |h.answers| ==> k < |h.answers| - 1 || s.current.None? ==> h.answers[k].body.Whole())
    && (s.current.Some? ==>
          && s.response.mode.InBody? && h.answers != []
          && h.answers[|h.answers| - 1].body.Reached(s.response.mode.framing))
    && (forall k :: 0 <= k < |h.answers| && h.answers[k].head.status == 101 ==>
          s.request == OPAQUE && s.response == OPAQUE)
  }

  predicate Spanned(s: Tap, h: History) {
    RequestsSpanned(s, h) && AnswersSpanned(s, h)
  }

  lemma FreshSpan(f: LiveFraming)
    ensures Span(Some(f), [], []).Reached(f)
    ensures Span(None, [], []).Whole()
  {
    assert FeedFraming(f, []) == Fed(f, 0, []);
  }

  /** Taking more bytes moves a span on, to its end if the framing says so. */
  lemma SpanMore(span: Span, f: LiveFraming, buf: seq<Byte>)
    requires span.Reached(f)
    ensures var r := FeedFraming(f, buf);
            var next := span.More(r, buf[..r.used]);
            if r.next.Unfinished() then next.Reached(r.next) else next.Whole()
    ensures f == UntilEof ==> span.Whole()
  {
    var r := FeedFraming(f, buf);
    var taken := buf[..r.used];
    TapSplit.FramingSplit(f, taken, buf[r.used..]);
    assert taken + buf[r.used..] == buf;
    FedUsed(f, buf);
    TapSplit.FramingSplit(span.framing.value, span.raw, taken);
  }

  /** The bytes a framing takes are all it needs to see. */
  lemma FedUsed(f: LiveFraming, buf: seq<Byte>)
    ensures FeedFraming(f, buf[..FeedFraming(f, buf).used]) == FeedFraming(f, buf)
  {
    var r := FeedFraming(f, buf);
    var taken := buf[..r.used];
    if r.used == |buf| {
      assert taken == buf;
    } else {
      TapSplit.FramingSplit(f, taken, buf[r.used..]);
      assert taken + buf[r.used..] == buf;
      assert !r.next.Unfinished();
    }
  }

  // ── a turn of the loop, a call, a run ────────────────────────────────────

  predicate Kept(s: Tap, h: History) {
    Linked(s, h) && Spanned(s, h)
  }

  lemma LastSpanChanged(s: Tap, h: History, r: Fed, bytes: seq<Byte>)
    requires h.requests != []
    ensures var g := NoteData(Request, s, h, r, bytes);
            var last := |h.requests| - 1;
            && |g.requests| == |h.requests| && g.answers == h.answers
            && g.requests[last] == h.requests[last].(body := h.requests[last].body.More(r, bytes))
            && (forall j :: 0 <= j < last ==> g.requests[j] == h.requests[j])
  {
  }

  lemma RequestBodyLeaves(P: Parsers, s: Tap, h: History)
    requires s.request.mode.InBody? && s.request.buffer != []
    ensures var t, g := Step(P, Request, s).0, Note(P, Request, s, h);
            g.answers == h.answers && t.response == s.response && t.current == s.current
  {
  }

  lemma RequestBodySpanned(P: Parsers, s: Tap, h: History)
    requires Spanned(s, h) && s.request.mode.InBody? && s.request.buffer != []
    ensures Spanned(Step(P, Request, s).0, Note(P, Request, s, h))
  {
    var f, buf := s.request.mode.framing, s.request.buffer;
    var r := FeedFraming(f, buf);
    var t, g := Step(P, Request, s).0, Note(P, Request, s, h);
    assert RequestsSpanned(t, g) by {
      SpanMore(h.requests[|h.requests| - 1].body, f, buf);
      LastSpanChanged(s, h, r, buf[..r.used]);
      RequestsRespanned(t, g, h);
    }
    RequestBodyLeaves(P, s, h);
    AnswersDoNotMove(s, t, g, h);
  }

  lemma RequestsRespanned(t: Tap, g: History, h: History)
    requires h.requests != [] && |g.requests| == |h.requests|
    requires forall j :: 0 <= j < |h.requests| ==> FramedByHead(h.requests[j])
    requires forall j :: 0 <= j < |h.requests| - 1 ==> h.requests[j].body.Whole()
    requires forall j :: 0 <= j < |h.requests| - 1 ==> g.requests[j] == h.requests[j]
    requires var last := |h.requests| - 1;
             && g.requests[last].head == h.requests[last].head
             && g.requests[last].body.framing == h.requests[last].body.framing
             && (t.request.mode == Head ==> g.requests[last].body.Whole())
             && (t.request.mode.InBody? ==> g.requests[last].body.Reached(t.request.mode.framing))
    ensures RequestsSpanned(t, g)
  {
    forall j | 0 <= j < |g.requests|
      ensures FramedByHead(g.requests[j])
    {
      assert FramedByHead(h.requests[j]);
    }
    forall j | 0 <= j < |g.requests| - 1
      ensures g.requests[j].body.Whole()
    {
      assert g.requests[j] == h.requests[j];
    }
  }

  lemma RequestHeadSpanned(s: Tap, h: History, q: RequestHead, wire: seq<Byte>)
    requires Spanned(s, h) && s.request.mode == Head
    ensures Spanned(OnRequestHead(s, q), NoteRequestHead(s, h, q, wire))
  {
    var t, g := OnRequestHead(s, q), NoteRequestHead(s, h, q, wire);
    var framing := RequestFraming(q.headers);
    if framing.Some? {
      FreshSpan(framing.value);
    }
    assert g.requests == h.requests + [Opened(q, wire, Span(framing, [], []))];
    assert RequestsSpanned(t, g);
    AnswersDoNotMove(s, t, g, h);
  }

  lemma RequestsDoNotMove(s: Tap, t: Tap, g: History, h: History)
    requires RequestsSpanned(s, h) && g.requests == h.requests
    requires t.request == s.request || t.request == OPAQUE
    ensures RequestsSpanned(t, g)
  {
  }

  lemma AnswersDoNotMove(s: Tap, t: Tap, g: History, h: History)
    requires AnswersSpanned(s, h) && g.answers == h.answers
    requires s.request != OPAQUE && t.response == s.response && t.current == s.current
    ensures AnswersSpanned(t, g)
  {
  }

  /** What one turn on response body bytes changes: the body being read, and whether it is still read. */
  lemma ResponseBodyTurn(P: Parsers, s: Tap, h: History)
    requires s.response.mode.InBody? && s.response.buffer != []
    requires s.current.Some? && h.answers != []
    ensures var r := FeedFraming(s.response.mode.framing, s.response.buffer);
            var t, g := Step(P, Response, s).0, Note(P, Response, s, h);
            var last := |h.answers| - 1;
            && g.answers
              == h.answers[last := h.answers[last].(body := h.answers[last].body.More(r, s.response.buffer[..r.used]))]
            && if r.next.Unfinished() then t.current.Some? && t.response.mode == InBody(r.next) else t.current.None?
  {
  }

  lemma ResponseBodyLeaves(P: Parsers, s: Tap, h: History)
    requires s.response.mode.InBody? && s.response.buffer != []
    ensures var t, g := Step(P, Response, s).0, Note(P, Response, s, h);
            t.request == s.request && g.requests == h.requests
            && (s.current.None? ==> t.current.None? && g.answers == h.answers)
  {
  }

  lemma ResponseBodySpanned(P: Parsers, s: Tap, h: History)
    requires Spanned(s, h) && s.response.mode.InBody? && s.response.buffer != []
    ensures Spanned(Step(P, Response, s).0, Note(P, Response, s, h))
  {
    var t, g := Step(P, Response, s).0, Note(P, Response, s, h);
    ResponseBodyLeaves(P, s, h);
    RequestsDoNotMove(s, t, g, h);
    if s.current.Some? {
      var last := |h.answers| - 1;
      SpanMore(h.answers[last].body, s.response.mode.framing, s.response.buffer);
      ResponseBodyTurn(P, s, h);
      AnswersRespanned(s, t, g, h);
    } else {
      OrphanBodySpanned(s, t, g, h);
    }
  }

  /** Bytes after the close belong to no answer. */
  lemma OrphanBodySpanned(s: Tap, t: Tap, g: History, h: History)
    requires AnswersSpanned(s, h) && s.current.None? && t.current.None? && g.answers == h.answers
    requires t.request == s.request && s.response != OPAQUE
    ensures AnswersSpanned(t, g)
  {
  }

  lemma AnswersRespanned(s: Tap, t: Tap, g: History, h: History)
    requires AnswersSpanned(s, h) && s.current.Some? && t.request == s.request
    requires var last := |h.answers| - 1;
             && |g.answers| == |h.answers|
             && g.answers == h.answers[last := h.answers[last].(body := g.answers[last].body)]
             && g.answers[last].body.framing == h.answers[last].body.framing
             && (t.current.None? ==> g.answers[last].body.Whole())
             && (t.current.Some? ==> t.response.mode.InBody? && g.answers[last].body.Reached(t.response.mode.framing))
    ensures AnswersSpanned(t, g)
  {
  }

  /** A response head leaves the requests alone; a 101 makes both directions opaque. */
  lemma ResponseHeadLeaves(s: Tap, h: History, q: ResponseHead, wire: seq<Byte>)
    ensures var t, g := OnResponseHead(s, q).0, NoteResponseHead(s, h, q, wire);
            g.requests == h.requests && t.request == if q.status == 101 then OPAQUE else s.request
  {
  }

  lemma NewAnswerSpanned(s: Tap, h: History, q: ResponseHead, wire: seq<Byte>)
    requires AnswersSpanned(s, h) && s.response.mode == Head && s.current.None? && !Interim(q.status)
    ensures AnswersSpanned(OnResponseHead(s, q).0, NoteResponseHead(s, h, q, wire))
  {
    var framing := FramingOfResponse(s, q);
    if framing.Some? {
      FreshSpan(framing.value);
    }
    var g := NoteResponseHead(s, h, q, wire);
    assert g.answers == h.answers + [g.answers[|h.answers|]];
  }

  lemma ResponseHeadSpanned(s: Tap, h: History, q: ResponseHead, wire: seq<Byte>)
    requires Spanned(s, h) && s.response.mode == Head && s.current.None?
    ensures Spanned(OnResponseHead(s, q).0, NoteResponseHead(s, h, q, wire))
  {
    var t, g := OnResponseHead(s, q).0, NoteResponseHead(s, h, q, wire);
    ResponseHeadLeaves(s, h, q, wire);
    RequestsDoNotMove(s, t, g, h);
    if !Interim(q.status) {
      NewAnswerSpanned(s, h, q, wire);
    }
  }

  lemma StepKept(P: Parsers, side: Side, s: Tap, h: History)
    requires Kept(s, h)
    ensures Kept(Step(P, side, s).0, Note(P, side, s, h))
  {
    StepLinked(P, side, s, h);
    StepSpanned(P, side, s, h);
  }

  lemma BufferDoesNotMatter(side: Side, s: Tap, h: History, buffer: seq<Byte>)
    requires Spanned(s, h) && s.At(side).mode != Passthrough
    ensures Spanned(s.With(side, s.At(side).(buffer := buffer)), h)
  {
  }

  lemma StepSpanned(P: Parsers, side: Side, s: Tap, h: History)
    requires Spanned(s, h)
    ensures Spanned(Step(P, side, s).0, Note(P, side, s, h))
  {
    var d := s.At(side);
    match d.mode {
      case Passthrough =>
      case Head => HeadStepSpanned(P, side, s, h);
      case InBody(f) =>
        if d.buffer != [] {
          if side == Request {
            RequestBodySpanned(P, s, h);
          } else {
            ResponseBodySpanned(P, s, h);
          }
        }
    }
  }

  lemma OpaqueSpanned(side: Side, s: Tap, h: History)
    requires Spanned(s, h) && s.At(side).mode == Head
    ensures Spanned(s.With(side, OPAQUE), h)
  {
  }

  lemma HeadStepSpanned(P: Parsers, side: Side, s: Tap, h: History)
    requires Spanned(s, h) && s.At(side).mode == Head
    ensures Spanned(Step(P, side, s).0, Note(P, side, s, h))
  {
    var buf := s.At(side).buffer;
    if Conclude(buf).Found? {
      var end := Conclude(buf).end;
      BufferDoesNotMatter(side, s, h, buf[end..]);
      HeadSpanned(P, side, s.With(side, Dir(Head, buf[end..])), h, buf[..end]);
      assert Step(P, side, s).0 == OnHead(P, side, s.With(side, Dir(Head, buf[end..])), buf[..end]).0;
    } else {
      OpaqueSpanned(side, s, h);
      assert Note(P, side, s, h) == h;
    }
  }

  lemma HeadSpanned(P: Parsers, side: Side, t: Tap, h: History, head: seq<Byte>)
    requires Spanned(t, h) && t.At(side).mode == Head && (side == Response ==> t.current.None?)
    ensures Spanned(OnHead(P, side, t, head).0, NoteHead(P, side, t, h, head))
  {
    if side == Request {
      match P.request(head) {
        case None => OpaqueSpanned(side, t, h);
        case Some(q) => RequestHeadSpanned(t, h, q, head);
      }
    } else {
      match P.response(head) {
        case None => OpaqueSpanned(side, t, h);
        case Some(q) => ResponseHeadSpanned(t, h, q, head);
      }
    }
  }

  lemma HeadLinked(P: Parsers, side: Side, t: Tap, h: History, head: seq<Byte>)
    requires Linked(t, h) && (side == Response ==> t.current.None?)
    ensures Linked(OnHead(P, side, t, head).0, NoteHead(P, side, t, h, head))
  {
    if side == Request {
      if P.request(head).Some? {
        RequestHeadLinked(t, h, P.request(head).value, head);
      } else {
        DirsDoNotMatter(t, t.(request := OPAQUE), h);
      }
    } else if P.response(head).Some? {
      ResponseHeadLinked(t, h, P.response(head).value, head);
    } else {
      DirsDoNotMatter(t, t.(response := OPAQUE), h);
    }
  }

  lemma StepLinked(P: Parsers, side: Side, s: Tap, h: History)
    requires Kept(s, h)
    ensures Linked(Step(P, side, s).0, Note(P, side, s, h))
  {
    var d := s.At(side);
    match d.mode {
      case Passthrough => DirsDoNotMatter(s, s.With(side, OPAQUE), h);
      case Head =>
        match Conclude(d.buffer) {
          case Wait =>
          case TooLong => DirsDoNotMatter(s, s.With(side, OPAQUE), h);
          case Found(end) =>
            var t := s.With(side, Dir(Head, d.buffer[end..]));
            DirsDoNotMatter(s, t, h);
            HeadLinked(P, side, t, h, d.buffer[..end]);
        }
      case InBody(f) =>
        if d.buffer != [] {
          BodyLinked(P, side, s, h);
        }
    }
  }

  lemma BodyLinked(P: Parsers, side: Side, s: Tap, h: History)
    requires Kept(s, h) && s.At(side).mode.InBody? && s.At(side).buffer != []
    ensures Linked(Step(P, side, s).0, Note(P, side, s, h))
  {
    var d := s.At(side);
    var r := FeedFraming(d.mode.framing, d.buffer);
    DataLinked(side, s, h, r, d.buffer[..r.used]);
    BodyStepLinked(side, Deliver(side, s, r.data), NoteData(side, s, h, r, d.buffer[..r.used]),
                   Dir(if r.next.Unfinished() then InBody(r.next) else Head, d.buffer[r.used..]), !r.next.Unfinished());
  }

  lemma BodyStepLinked(side: Side, t: Tap, g: History, d: Dir, ended: bool)
    requires Linked(t, g)
    ensures Linked(if ended then OnBodyEnd(side, t.With(side, d)) else t.With(side, d),
                   if ended && side == Response then NoteComplete(t, g) else g)
  {
    DirsDoNotMatter(t, t.With(side, d), g);
    if ended && side == Response {
      CompleteLinked(t.With(side, d), g);
    }
  }

  lemma {:induction false} DrainKept(P: Parsers, side: Side, s: Tap, h: History)
    requires Kept(s, h)
    ensures Kept(Drain(P, side, s), DrainHistory(P, side, s, h))
    decreases |s.At(side).buffer|
  {
    StepKept(P, side, s, h);
    if Step(P, side, s).1 {
      DrainKept(P, side, Step(P, side, s).0, Note(P, side, s, h));
    }
  }

  lemma ExtendKept(s: Tap, h: History, side: Side, bytes: seq<Byte>)
    requires Kept(s, h) && s.At(side).mode != Passthrough
    ensures Kept(s.Extend(side, bytes), h)
  {
    DirsDoNotMatter(s, s.Extend(side, bytes), h);
    BufferDoesNotMatter(side, s, h, s.At(side).buffer + bytes);
  }

  lemma BytesKept(P: Parsers, s: Tap, h: History, side: Side, bytes: seq<Byte>)
    requires Kept(s, h)
    ensures Kept(Feed(P, side, s, bytes), ReactHistory(P, s, h, Bytes(side, bytes)))
  {
    if s.At(side).mode != Passthrough {
      ExtendKept(s, h, side, bytes);
      DrainKept(P, side, s.Extend(side, bytes), h);
    }
  }

  lemma CloseSpanned(s: Tap, h: History)
    requires Spanned(s, h) && s.response.mode == InBody(UntilEof)
    ensures Spanned(Complete(s), NoteComplete(s, h))
  {
    if s.current.Some? {
      var last := |h.answers| - 1;
      var t, g := Complete(s), NoteComplete(s, h);
      assert t.request == s.request && t.response == s.response;
      assert h.answers[last].body.Whole() by { SpanMore(h.answers[last].body, UntilEof, []); }
      LastAnswerWhole(s, t, g, h);
      assert RequestsSpanned(t, g);
    }
  }

  lemma LastAnswerWhole(s: Tap, t: Tap, g: History, h: History)
    requires AnswersSpanned(s, h) && s.current.Some? && t.current.None?
    requires t.request == s.request && t.response == s.response && g.answers == h.answers
    requires h.answers[|h.answers| - 1].body.Whole()
    ensures AnswersSpanned(t, g)
  {
  }

  lemma ReactKept(P: Parsers, s: Tap, h: History, input: Input)
    requires Kept(s, h)
    ensures Kept(React(P, s, input), ReactHistory(P, s, h, input))
  {
    match input {
      case Bytes(side, bytes) => BytesKept(P, s, h, side, bytes);
      case Closed =>
        CompleteLinked(s, h);
        if s.response.mode == InBody(UntilEof) {
          CloseSpanned(s, h);
        }
    }
  }

  /** Over every run, whatever the interleaving, the bytes and the foreign parser. */
  lemma {:induction false} RunKept(P: Parsers, s: Tap, h: History, inputs: seq<Input>)
    requires Kept(s, h)
    ensures Kept(Run(P, s, inputs), RunHistory(P, s, h, inputs))
    decreases |inputs|
  {
    if inputs != [] {
      ReactKept(P, s, h, inputs[0]);
      RunKept(P, React(P, s, inputs[0]), ReactHistory(P, s, h, inputs[0]), inputs[1..]);
    }
  }

  // ── main results ─────────────────────────────────────────────────────────

  lemma StartKept()
    ensures Kept(NEW, NOTHING)
  {
  }

  /**
   FIFO pairing. In every run in which no response head was read before its request's head and no
   request was evicted, the k-th record joins the k-th request with the k-th response that is not
   interim, and that response's framing was chosen from that request's own method.
   */
  lemma FifoPairing(P: Parsers, inputs: seq<Input>, k: nat)
    requires var h := RunHistory(P, NEW, NOTHING, inputs); h.orphans == 0 && h.dropped == 0
    requires k < |Run(P, NEW, inputs).records|
    ensures var record := Run(P, NEW, inputs).records[k];
            var h := RunHistory(P, NEW, NOTHING, inputs);
            && k < |h.requests| && k < |h.answers| && k < |h.caught|
            && Caught(record.request, h.requests[k], h.caught[k])
            && record.response == Told(h.answers[k])
            && h.answers[k].body.framing
               == (if h.answers[k].head.status == 101 then None
                   else ResponseFraming(h.answers[k].head.status, Some(h.requests[k].head.verb),
                                        h.answers[k].head.headers))
            && h.answers[k].body.Whole()
  {
    StartKept();
    RunKept(P, NEW, NOTHING, inputs);
    var s, h := Run(P, NEW, inputs), RunHistory(P, NEW, NOTHING, inputs);
    assert Honoured(s, h, k);
    assert Framed(h.answers[k]);
  }

  /**
   Body attribution. In every interleaving, with early responses and evictions: each request is in
   the queue, recorded, or evicted; each queue entry carries all that has been read of the body that
   request's own head opened, and each record made for a request exactly what had been read of it when
   the record was made; and no request is recorded twice.
   */
  lemma BodyAttribution(P: Parsers, inputs: seq<Input>)
    ensures var s := Run(P, NEW, inputs);
            var h := RunHistory(P, NEW, NOTHING, inputs);
            && Queued(s, h) && Served(s, h)
            && (forall j :: 0 <= j < |h.requests| - 1 ==> h.requests[j].body.Whole())
  {
    StartKept();
    RunKept(P, NEW, NOTHING, inputs);
  }

  // ── the state between calls ──────────────────────────────────────────────

  predicate Settled(d: Dir) {
    match d.mode
    case Head => HeadEnd(d.buffer) == None && |d.buffer| <= MAX_HEAD
    case InBody(_) => d.buffer == []
    case Passthrough => d.buffer == []
  }

  predicate Between(s: Tap) {
    Settled(s.request) && Settled(s.response) && |s.pending| <= MAX_PENDING
  }

  lemma HeadSettles(P: Parsers, side: Side, s: Tap, head: seq<Byte>)
    requires |s.pending| <= MAX_PENDING
    ensures var (t, more) := OnHead(P, side, s, head);
            && |t.pending| <= MAX_PENDING
            && (!more ==> t.At(side) == OPAQUE)
            && (side == Request ==> t.response == s.response)
            && (side == Response ==> t.request == s.request || t.request == OPAQUE)
  {
  }

  lemma BodySettles(P: Parsers, side: Side, s: Tap)
    requires |s.pending| <= MAX_PENDING && s.At(side).mode.InBody?
    ensures var (t, more) := Step(P, side, s);
            && |t.pending| <= MAX_PENDING
            && (!more ==> Settled(t.At(side)))
            && (side == Request ==> t.response == s.response)
            && (side == Response ==> t.request == s.request)
  {
  }

  lemma StepSettles(P: Parsers, side: Side, s: Tap)
    requires |s.pending| <= MAX_PENDING
    ensures var (t, more) := Step(P, side, s);
            && |t.pending| <= MAX_PENDING
            && (!more ==> Settled(t.At(side)))
            && (side == Request ==> t.response == s.response)
            && (side == Response ==> t.request == s.request || t.request == OPAQUE)
  {
    var buf := s.At(side).buffer;
    if s.At(side).mode.InBody? {
      BodySettles(P, side, s);
    } else if s.At(side).mode == Head && Conclude(buf).Found? {
      var end := Conclude(buf).end;
      HeadSettles(P, side, s.With(side, Dir(Head, buf[end..])), buf[..end]);
    }
  }

  lemma {:induction false} DrainSettles(P: Parsers, side: Side, s: Tap)
    requires |s.pending| <= MAX_PENDING
    requires Settled(s.request) || side == Request
    requires Settled(s.response) || side == Response
    ensures Between(Drain(P, side, s))
    decreases |s.At(side).buffer|
  {
    StepSettles(P, side, s);
    if Step(P, side, s).1 {
      DrainSettles(P, side, Step(P, side, s).0);
    }
  }

  /**
   Between calls a direction is looking for a head with at most MAX_HEAD bytes held, or reading an
   unfinished body with none held, or has given up for good; and the queue is within its cap.
   */
  lemma {:induction false} RunSettles(P: Parsers, s: Tap, inputs: seq<Input>)
    requires Between(s)
    ensures Between(Run(P, s, inputs))
    ensures s.request.mode == Passthrough ==> Run(P, s, inputs).request == OPAQUE
    ensures s.response.mode == Passthrough ==> Run(P, s, inputs).response == OPAQUE
    decreases |inputs|
  {
    if inputs != [] {
      match inputs[0] {
        case Bytes(side, bytes) =>
          if s.At(side).mode != Passthrough {
            DrainSettles(P, side, s.Extend(side, bytes));
            OtherStaysOpaque(P, side, s.Extend(side, bytes));
          }
        case Closed =>
      }
      RunSettles(P, React(P, s, inputs[0]), inputs[1..]);
    }
  }

  lemma SettledIsDrained(P: Parsers, side: Side, s: Tap)
    requires Settled(s.At(side))
    ensures Drain(P, side, s) == s
  {
    assert s.With(side, s.At(side)) == s;
  }

  /** After any run of both directions, the next bytes of one direction may be sliced at will. */
  lemma SlicingNeverMatters(P: Parsers, inputs: seq<Input>, side: Side, slices: seq<seq<Byte>>)
    requires var s := Run(P, NEW, inputs);
             s.At(side).mode != Passthrough ==> TapSplit.SafeRun(P, side, s.Extend(side, Flatten(slices)))
    ensures var s := Run(P, NEW, inputs);
            TapSplit.FeedSlices(P, side, s, slices) == Feed(P, side, s, Flatten(slices))
  {
    RunSettles(P, NEW, inputs);
    SettledIsDrained(P, side, Run(P, NEW, inputs));
    TapSplit.SplitInvariance(P, side, Run(P, NEW, inputs), slices);
  }

  lemma {:induction false} OtherStaysOpaque(P: Parsers, side: Side, s: Tap)
    ensures side == Response && s.request == OPAQUE ==> Drain(P, side, s).request == OPAQUE
    ensures side == Request && s.response == OPAQUE ==> Drain(P, side, s).response == OPAQUE
    decreases |s.At(side).buffer|
  {
    if Step(P, side, s).1 {
      OtherStaysOpaque(P, side, Step(P, side, s).0);
    }
  }

  lemma {:induction false} OpaqueIsFinal(P: Parsers, s: Tap, inputs: seq<Input>)
    requires s.request == OPAQUE && s.response == OPAQUE
    ensures Run(P, s, inputs) == s
    decreases |inputs|
  {
    if inputs != [] {
      OpaqueIsFinal(P, s, inputs[1..]);
    }
  }

  /** Once a 101 has been answered, nothing is ever recorded again. */
  lemma UpgradeIsFinal(P: Parsers, before: seq<Input>, after: seq<Input>)
    ensures var h := RunHistory(P, NEW, NOTHING, before);
            (exists k :: 0 <= k < |h.answers| && h.answers[k].head.status == 101) ==>
              Run(P, Run(P, NEW, before), after) == Run(P, NEW, before)
  {
    StartKept();
    RunKept(P, NEW, NOTHING, before);
    var s, h := Run(P, NEW, before), RunHistory(P, NEW, NOTHING, before);
    if k :| 0 <= k < |h.answers| && h.answers[k].head.status == 101 {
      OpaqueIsFinal(P, s, after);
    }
  }
}
