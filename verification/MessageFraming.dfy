/**
 Framing from the header list alone, and streams of messages whose bodies are what their headers say
 (section 6.3 of RFC 9112).

 Names are compared letter by letter over the two alphabets, and lengths are read as numerals: nothing
 here is said in terms of what the tap computes.
 */
module MessageFraming {
  import opened Basics
  import opened Text
  import opened Numerals
  import opened Letters
  import opened Capture
  import opened ChunkedCoding
  import opened Heads
  import opened HttpTap
  import opened TapHistory
  import opened TapPairing
  import opened TapSplit
  import opened TapStreams
  import opened TapBytes
  import opened TapConversations
  import Chunks = ChunkedRoundTrip

  // ── the first header of a name ───────────────────────────────────────────

  predicate IsFirst(headers: Headers, name: string, i: int) {
    && 0 <= i < |headers|
    && SameWord(headers[i].0, name)
    && forall j :: 0 <= j < i ==> !SameWord(headers[j].0, name)
  }

  predicate Lacks(headers: Headers, name: string) {
    forall i :: 0 <= i < |headers| ==> !SameWord(headers[i].0, name)
  }

  /** The value of the first header of the name, in any case. */
  lemma {:induction false} HeaderValueIsExact(headers: Headers, name: string)
    ensures HeaderValue(headers, name).None? <==> Lacks(headers, name)
    ensures forall i :: IsFirst(headers, name, i) ==> HeaderValue(headers, name) == Some(headers[i].1)
    ensures HeaderValue(headers, name).Some? ==> exists i :: IsFirst(headers, name, i)
    decreases |headers|
  {
    if headers != [] {
      var rest := headers[1..];
      SameWordIsExact(headers[0].0, name);
      HeaderValueIsExact(rest, name);
      if !SameWord(headers[0].0, name) {
        forall i | IsFirst(headers, name, i)
          ensures IsFirst(rest, name, i - 1)
        {
        }
        FirstOfRest(headers, name);
      } else {
        assert IsFirst(headers, name, 0);
      }
    }
  }

  lemma FirstOfRest(headers: Headers, name: string)
    requires headers != [] && !SameWord(headers[0].0, name)
    ensures Lacks(headers[1..], name) <==> Lacks(headers, name)
    ensures forall i :: IsFirst(headers[1..], name, i) ==> IsFirst(headers, name, i + 1)
  {
    if Lacks(headers[1..], name) {
      forall i | 0 <= i < |headers|
        ensures !SameWord(headers[i].0, name)
      {
        assert i > 0 ==> headers[i] == headers[1..][i - 1];
      }
    }
    forall i | IsFirst(headers[1..], name, i)
      ensures IsFirst(headers, name, i + 1)
    {
      assert headers[1..][i] == headers[i + 1];
      forall j | 0 <= j < i + 1
        ensures !SameWord(headers[j].0, name)
      {
        assert j > 0 ==> headers[j] == headers[1..][j - 1];
      }
    }
  }

  // ── what the headers say ─────────────────────────────────────────────────

  predicate HasWordAt(s: string, word: string, k: int) {
    0 <= k <= |s| - |word| && SameWord(s[k..k + |word|], word)
  }

  ghost predicate HasWord(s: string, word: string) {
    exists k :: HasWordAt(s, word, k)
  }

  ghost predicate SaysChunked(headers: Headers) {
    exists i :: IsFirst(headers, "Transfer-Encoding", i) && HasWord(headers[i].1, "chunked")
  }

  ghost predicate Announces(headers: Headers, n: nat) {
    exists i :: IsFirst(headers, "Content-Length", i) && SaysNumber(headers[i].1, n, 10)
  }

  lemma SaysChunkedIsExact(headers: Headers)
    ensures SaysChunked(headers) <==> IsChunked(headers)
  {
    FirstIsNamed(headers, "Transfer-Encoding", "transfer-encoding");
    HeaderValueIsExact(headers, "Transfer-Encoding");
    forall i | IsFirst(headers, "Transfer-Encoding", i)
      ensures HasWord(headers[i].1, "chunked") <==> Contains(AsciiLower(headers[i].1), "chunked")
    {
      HasWordIsExact(headers[i].1, "chunked");
    }
  }

  lemma {:induction false} FirstIsNamed(headers: Headers, name: string, lower: string)
    requires AsciiLower(name) == AsciiLower(lower)
    ensures HeaderValue(headers, name) == HeaderValue(headers, lower)
    decreases |headers|
  {
    if headers != [] {
      FirstIsNamed(headers[1..], name, lower);
    }
  }

  lemma HasWordIsExact(s: string, word: string)
    requires AsciiLower(word) == word
    ensures HasWord(s, word) <==> Contains(AsciiLower(s), word)
  {
    forall k | 0 <= k <= |s| - |word|
      ensures HasWordAt(s, word, k) <==> word <= AsciiLower(s)[k..]
    {
      SameWordIsExact(s[k..k + |word|], word);
      assert AsciiLower(s[k..k + |word|]) == AsciiLower(s)[k..][..|word|];
    }
    if Contains(AsciiLower(s), word) {
      var k :| 0 <= k <= |AsciiLower(s)| - |word| && word <= AsciiLower(s)[k..];
      assert HasWordAt(s, word, k);
    }
    if HasWord(s, word) {
      var k :| HasWordAt(s, word, k);
      assert word <= AsciiLower(s)[k..];
    }
  }

  lemma AnnouncesIsExact(headers: Headers, n: nat)
    ensures Announces(headers, n) <==> ContentLength(headers) == Some(n)
  {
    FirstIsNamed(headers, "Content-Length", "content-length");
    HeaderValueIsExact(headers, "Content-Length");
    forall i | IsFirst(headers, "Content-Length", i)
      ensures SaysNumber(headers[i].1, n, 10) <==> ParseU64(Trim(headers[i].1), 10) == Some(n)
    {
      SaysNumberIsExact(headers[i].1, n, 10);
    }
  }

  lemma AnnouncesOne(headers: Headers)
    ensures (forall n :: !Announces(headers, n)) <==> ContentLength(headers) == None
    ensures forall n: nat :: Announces(headers, n) <==> ContentLength(headers) == Some(n)
  {
    forall n: nat
      ensures Announces(headers, n) <==> ContentLength(headers) == Some(n)
    {
      AnnouncesIsExact(headers, n);
    }
    if ContentLength(headers).Some? {
      assert Announces(headers, ContentLength(headers).value);
    }
  }

  /**
   How a request is framed: chunked when its first `Transfer-Encoding` says so; otherwise by the number
   in its first `Content-Length`, when that is one and not 0; otherwise it has no body.
   */
  lemma RequestFramingIsExact(headers: Headers)
    ensures RequestFraming(headers) == Some(Chunked(FRESH)) <==> SaysChunked(headers)
    ensures forall n: nat :: RequestFraming(headers) == Some(Length(n)) <==>
                             !SaysChunked(headers) && n > 0 && Announces(headers, n)
    ensures RequestFraming(headers) == None <==>
            !SaysChunked(headers) && forall n :: Announces(headers, n) ==> n == 0
  {
    SaysChunkedIsExact(headers);
    AnnouncesOne(headers);
  }

  /** 204, 304, and every answer to HEAD. */
  predicate NeverHasBody(status: nat, verb: Option<string>) {
    status == 204 || status == 304 || (verb.Some? && SameWord(verb.value, "HEAD"))
  }

  /** How a response is framed: as a request is, but without either header it goes on until the close. */
  lemma ResponseFramingIsExact(status: nat, verb: Option<string>, headers: Headers)
    ensures ResponseFraming(status, verb, headers) == Some(Chunked(FRESH)) <==>
            !NeverHasBody(status, verb) && SaysChunked(headers)
    ensures forall n: nat :: ResponseFraming(status, verb, headers) == Some(Length(n)) <==>
                             && !NeverHasBody(status, verb)
                             && !SaysChunked(headers) && n > 0 && Announces(headers, n)
    ensures ResponseFraming(status, verb, headers) == Some(UntilEof) <==>
            !NeverHasBody(status, verb) && !SaysChunked(headers) && forall n :: !Announces(headers, n)
    ensures ResponseFraming(status, verb, headers) == None <==>
            NeverHasBody(status, verb) || (!SaysChunked(headers) && Announces(headers, 0))
  {
    if verb.Some? {
      SameWordIsExact(verb.value, "HEAD");
    }
    SaysChunkedIsExact(headers);
    AnnouncesOne(headers);
  }

  // ── what a head does ─────────────────────────────────────────────────────

  /** 100, and 102 to 199. */
  predicate IsInterim(status: nat) {
    status == 100 || 102 <= status <= 199
  }

  /** The front of the queue, or the placeholder. */
  function Oldest(s: Tap): PendingRequest {
    if s.pending == [] then PendingRequest(RequestHead("?", "?", []), None, EMPTY) else s.pending[0]
  }

  /** The record that a response without a body makes at once. */
  function Answers(s: Tap, q: ResponseHead): Tap {
    s.(pending := s.pending[Min(1, |s.pending|)..],
       records := s.records + [Exchange(Oldest(s), PendingResponse(q, EMPTY))])
  }

  predicate WaitsForAnswer(P: Parsers, s: Tap, end: nat, q: ResponseHead) {
    && s.response.mode == Head && s.current.None?
    && Conclude(s.response.buffer) == Found(end)
    && P.response(s.response.buffer[..end]) == Some(q)
  }

  ghost predicate HasNoBody(s: Tap, q: ResponseHead) {
    NeverHasBody(q.status, FrontMethod(s)) || (!SaysChunked(q.headers) && Announces(q.headers, 0))
  }

  /**
   What a response head does: an interim one is passed over, 101 ends the reading of both directions, a
   response without a body is recorded at once, and any other goes on to its body.
   */
  lemma ResponseHeadIsExact(P: Parsers, s: Tap, end: nat, q: ResponseHead)
    requires WaitsForAnswer(P, s, end, q)
    ensures var (t, more) := Step(P, Response, s);
            var after := s.(response := Dir(Head, s.response.buffer[end..]));
            && (IsInterim(q.status) ==> more && t == after)
            && (q.status == 101 ==>
                  !more && t == Answers(s, q).(request := Dir(Passthrough, []), response := Dir(Passthrough, [])))
            && (!IsInterim(q.status) && q.status != 101 && HasNoBody(s, q) ==> more && t == Answers(after, q))
            && (!IsInterim(q.status) && q.status != 101 && !HasNoBody(s, q) ==>
                  && more && t.response.mode.InBody?
                  && t == s.(response := Dir(t.response.mode, after.response.buffer),
                             current := Some(PendingResponse(q, EMPTY)))
                  && Some(t.response.mode.framing) == ResponseFraming(q.status, FrontMethod(s), q.headers))
  {
    ResponseFramingIsExact(q.status, FrontMethod(s), q.headers);
    assert s.pending == [] ==> s.pending[0..] == [];
  }

  /** No interim response is ever recorded. */
  lemma RecordedStatuses(P: Parsers, inputs: seq<Input>, k: nat)
    requires k < |Run(P, NEW, inputs).records|
    ensures !IsInterim(Run(P, NEW, inputs).records[k].response.head.status)
  {
    var s, h := Run(P, NEW, inputs), RunHistory(P, NEW, NOTHING, inputs);
    StartKept();
    RunKept(P, NEW, NOTHING, inputs);
    assert s.records[k].response == Told(h.answers[k]);
  }

  // ── messages whose bodies are what their headers say ─────────────────────

  predicate CodedAs(c: Chunks.Coded, raw: seq<Byte>, data: seq<Byte>) {
    c.Accepted() && raw == c.Wire() && data == c.Payload()
  }

  ghost predicate IsCoded(raw: seq<Byte>, data: seq<Byte>) {
    exists c: Chunks.Coded :: c.Shaped() && CodedAs(c, raw, data)
  }

  /** The body of a request: chunked, or as long as announced, or none. */
  ghost predicate RequestBody(headers: Headers, raw: seq<Byte>, data: seq<Byte>) {
    if SaysChunked(headers) then IsCoded(raw, data)
    else raw == data && (Announces(headers, |raw|) || (raw == [] && forall n :: !Announces(headers, n)))
  }

  /** The body of a response to `verb`; only the last response of a connection can go on until the close. */
  ghost predicate ResponseBody(status: nat, verb: string, headers: Headers, raw: seq<Byte>, data: seq<Byte>,
                               last: bool)
  {
    if NeverHasBody(status, Some(verb)) then raw == data == []
    else if SaysChunked(headers) then IsCoded(raw, data)
    else raw == data && (Announces(headers, |raw|) || (last && forall n :: !Announces(headers, n)))
  }

  lemma CodedIsWhole(raw: seq<Byte>, data: seq<Byte>)
    requires IsCoded(raw, data)
    ensures Span(Some(Chunked(FRESH)), raw, data).Whole()
  {
    var c: Chunks.Coded :| c.Shaped() && CodedAs(c, raw, data);
    WholeBodies(c, []);
  }

  lemma SizedIsWhole(data: seq<Byte>)
    ensures data != [] ==> Span(Some(Length(|data|)), data, data).Whole()
    ensures Span(None, [], []).Whole()
    ensures Span(Some(UntilEof), data, data).Whole()
  {
  }

  lemma RequestBodyIsWhole(headers: Headers, raw: seq<Byte>, data: seq<Byte>)
    requires RequestBody(headers, raw, data)
    ensures Span(RequestFraming(headers), raw, data).Whole()
  {
    RequestFramingIsExact(headers);
    AnnouncesOne(headers);
    SizedIsWhole(data);
    if SaysChunked(headers) {
      CodedIsWhole(raw, data);
    } else if raw != [] {
      assert RequestFraming(headers) == Some(Length(|raw|));
    }
  }

  lemma ResponseBodyIsWhole(status: nat, verb: string, headers: Headers, raw: seq<Byte>, data: seq<Byte>, last: bool)
    requires ResponseBody(status, verb, headers, raw, data, last)
    ensures Span(ResponseFraming(status, Some(verb), headers), raw, data).Whole()
    ensures ResponseFraming(status, Some(verb), headers) == Some(UntilEof) ==> last
  {
    ResponseFramingIsExact(status, Some(verb), headers);
    AnnouncesOne(headers);
    SizedIsWhole(data);
    if !NeverHasBody(status, Some(verb)) {
      if SaysChunked(headers) {
        CodedIsWhole(raw, data);
      } else if raw != [] && Announces(headers, |raw|) {
        assert ResponseFraming(status, Some(verb), headers) == Some(Length(|raw|));
      }
    }
  }

  /** A request on the wire, by its own headers. */
  ghost predicate RequestOf(P: Parsers, m: Sent<RequestHead>) {
    CleanHead(m.head) && P.request(m.head) == Some(m.parsed) && RequestBody(m.parsed.headers, m.raw, m.data)
  }

  /** A final response on the wire, by its own status and headers. */
  ghost predicate FinalOf(P: Parsers, verb: string, m: Sent<ResponseHead>, last: bool) {
    && CleanHead(m.head) && P.response(m.head) == Some(m.parsed)
    && (m.parsed.status < 100 || m.parsed.status >= 200)
    && ResponseBody(m.parsed.status, verb, m.parsed.headers, m.raw, m.data, last)
  }

  ghost predicate InterimOf(P: Parsers, m: Sent<ResponseHead>) {
    && CleanHead(m.head) && P.response(m.head) == Some(m.parsed)
    && IsInterim(m.parsed.status)
    && m.raw == [] && m.data == []
  }

  ghost predicate ReplyOf(P: Parsers, asked: seq<Sent<RequestHead>>, replied: seq<Sent<ResponseHead>>, i: nat, k: nat)
    requires i < |replied|
  {
    InterimOf(P, replied[i])
    || (k < |asked| && FinalOf(P, asked[k].parsed.verb, replied[i], i == |replied| - 1))
  }

  /** Requests and their responses, with any interim ones in between, each with the body its headers give it. */
  ghost predicate Conversation(P: Parsers, asked: seq<Sent<RequestHead>>, replied: seq<Sent<ResponseHead>>) {
    && (forall i :: 0 <= i < |asked| ==> RequestOf(P, asked[i]))
    && (forall i :: 0 <= i < |replied| ==> ReplyOf(P, asked, replied, i, |Finals(replied[..i])|))
  }

  lemma RequestsAreWell(P: Parsers, asked: seq<Sent<RequestHead>>)
    requires forall i :: 0 <= i < |asked| ==> RequestOf(P, asked[i])
    ensures forall i :: 0 <= i < |asked| ==> WellSent(P, asked[i])
  {
    forall i | 0 <= i < |asked|
      ensures WellSent(P, asked[i])
    {
      assert RequestOf(P, asked[i]);
      RequestBodyIsWhole(asked[i].parsed.headers, asked[i].raw, asked[i].data);
    }
  }

  lemma FinalIsWell(P: Parsers, verb: string, m: Sent<ResponseHead>, last: bool)
    requires FinalOf(P, verb, m, last)
    ensures WellFinal(P, verb, m, last)
  {
    ResponseBodyIsWhole(m.parsed.status, verb, m.parsed.headers, m.raw, m.data, last);
  }

  lemma ReplyIsWell(P: Parsers, asked: seq<Sent<RequestHead>>, replied: seq<Sent<ResponseHead>>, i: nat)
    requires i < |replied| && ReplyOf(P, asked, replied, i, |Finals(replied[..i])|)
    ensures WellAt(P, asked, replied, i)
  {
    var k := |Finals(replied[..i])|;
    if !InterimOf(P, replied[i]) {
      FinalIsWell(P, asked[k].parsed.verb, replied[i], i == |replied| - 1);
    }
  }

  lemma ConversationIsWell(P: Parsers, asked: seq<Sent<RequestHead>>, replied: seq<Sent<ResponseHead>>)
    requires Conversation(P, asked, replied)
    ensures WellConversed(P, asked, replied)
  {
    RequestsAreWell(P, asked);
    forall i | 0 <= i < |replied|
      ensures WellAt(P, asked, replied, i)
    {
      ReplyIsWell(P, asked, replied, i);
    }
  }

  /** Requests with the bodies that their headers give them, in any slices, are queued with exactly those bodies. */
  lemma RequestsByHeaders(P: Parsers, asked: seq<Sent<RequestHead>>, slices: seq<seq<Byte>>)
    requires forall i :: 0 <= i < |asked| ==> RequestOf(P, asked[i])
    requires Flatten(slices) == WireOf(asked)
    ensures FeedSlices(P, Request, NEW, slices) == NEW.(pending := LastOf(AllAsked(asked), MAX_PENDING))
  {
    RequestsAreWell(P, asked);
    RequestStream(P, asked, slices);
  }

  /**
   The round trip of a conversation told by its headers, in any interleaving and slices: after the close
   the exchanges recorded are exactly the k-th request and the k-th final response with its whole body.
   */
  lemma ConversationByHeaders(P: Parsers, inputs: seq<Input>, asked: seq<Sent<RequestHead>>,
                              replied: seq<Sent<ResponseHead>>)
    requires Conversation(P, asked, replied) && NoClose(inputs)
    requires Shown(inputs, Request) == WireOf(asked) && Shown(inputs, Response) == WireOf(replied)
    requires Smooth(RunHistory(P, NEW, NOTHING, inputs))
    ensures var t, g := Run(P, NEW, inputs + [Closed]), RunHistory(P, NEW, NOTHING, inputs + [Closed]);
            var finals := Finals(replied);
            && t.request == START && t.response.buffer == [] && t.current == None
            && |finals| <= |asked| && |t.records| == |finals| == |g.caught|
            && (forall k :: 0 <= k < |finals| ==> Exchanged(t.records[k], asked[k], g.caught[k], finals[k]))
            && t.pending == AllAsked(asked)[|finals|..]
  {
    ConversationIsWell(P, asked, replied);
    ConversationRoundTrip(P, inputs, asked, replied);
  }
}
