/** The history accounts for every byte: what a direction was shown is what it has read, and its buffer. */
module TapBytes {
  import opened Basics
  import opened Heads
  import opened HttpTap
  import opened TapHistory
  import opened TapPairing

  // ── what was shown, and what was read ────────────────────────────────────

  function ShownBy(input: Input, side: Side): seq<Byte> {
    if input.Bytes? && input.side == side then input.bytes else []
  }

  /** The bytes of one direction, in order. */
  function Shown(inputs: seq<Input>, side: Side): seq<Byte> {
    if inputs == [] then [] else ShownBy(inputs[0], side) + Shown(inputs[1..], side)
  }

  function RequestsRead(requests: seq<Opened>): seq<Byte> {
    if requests == [] then []
    else
      var last := requests[|requests| - 1];
      RequestsRead(requests[..|requests| - 1]) + (last.wire + last.body.raw)
  }

  function AnswersRead(answers: seq<Answer>): seq<Byte> {
    if answers == [] then []
    else
      var last := answers[|answers| - 1];
      AnswersRead(answers[..|answers| - 1]) + (last.lead + last.wire + last.body.raw)
  }

  /** Heads and bodies, in the order they came. */
  function Read(h: History, side: Side): seq<Byte> {
    match side
    case Request => RequestsRead(h.requests)
    case Response => AnswersRead(h.answers) + h.interim
  }

  /** The direction has not given up, and no body is read on after the close. */
  predicate Following(s: Tap, side: Side) {
    && s.At(side).mode != Passthrough
    && (side == Response && s.response.mode.InBody? ==> s.current.Some?)
  }

  /** `total` is what the direction has been shown. */
  predicate AllRead(s: Tap, h: History, side: Side, total: seq<Byte>) {
    && (Following(s, side) ==> Read(h, side) + s.At(side).buffer == total)
    && (side == Response && Following(s, side) && s.response.mode.InBody? ==> h.interim == [])
    && (side == Response && !Following(s, side) && s.response.mode.InBody? ==> s.response.mode == InBody(UntilEof))
  }

  /** What the reading needs of the pairing. */
  predicate Based(s: Tap, h: History) {
    && (s.response.mode == Head ==> s.current.None?)
    && (s.request.mode.InBody? ==> h.requests != [])
    && (s.current.Some? ==> h.answers != [])
  }

  lemma KeptIsBased(s: Tap, h: History)
    requires Kept(s, h)
    ensures Based(s, h)
  {
  }

  // ── one turn of the loop ─────────────────────────────────────────────────

  lemma RequestsReadPush(requests: seq<Opened>, o: Opened)
    ensures RequestsRead(requests + [o]) == RequestsRead(requests) + (o.wire + o.body.raw)
  {
    assert (requests + [o])[..|requests|] == requests;
  }

  lemma AnswersReadPush(answers: seq<Answer>, a: Answer)
    ensures AnswersRead(answers + [a]) == AnswersRead(answers) + (a.lead + a.wire + a.body.raw)
  {
    assert (answers + [a])[..|answers|] == answers;
  }

  /** More body bytes for the last message. */
  lemma RequestsReadMore(requests: seq<Opened>, r: Fed, bytes: seq<Byte>)
    requires requests != []
    ensures var last := |requests| - 1;
            RequestsRead(requests[last := requests[last].(body := requests[last].body.More(r, bytes))])
            == RequestsRead(requests) + bytes
  {
    var last := |requests| - 1;
    var o := requests[last];
    var more := requests[last := o.(body := o.body.More(r, bytes))];
    assert more[..last] == requests[..last];
    assert o.wire + (o.body.raw + bytes) == (o.wire + o.body.raw) + bytes;
  }

  lemma AnswersReadMore(answers: seq<Answer>, r: Fed, bytes: seq<Byte>)
    requires answers != []
    ensures var last := |answers| - 1;
            AnswersRead(answers[last := answers[last].(body := answers[last].body.More(r, bytes))])
            == AnswersRead(answers) + bytes
  {
    var last := |answers| - 1;
    var a := answers[last];
    var more := answers[last := a.(body := a.body.More(r, bytes))];
    assert more[..last] == answers[..last];
    assert a.lead + a.wire + (a.body.raw + bytes) == (a.lead + a.wire + a.body.raw) + bytes;
  }

  /** A head moves from the buffer to what has been read. */
  lemma HeadRead(P: Parsers, side: Side, t: Tap, h: History, head: seq<Byte>)
    requires t.At(side).mode == Head && (side == Response ==> t.current.None?)
    ensures var (u, g) := (OnHead(P, side, t, head).0, NoteHead(P, side, t, h, head));
            && (Following(u, side) ==> Read(g, side) == Read(h, side) + head && u.At(side).buffer == t.At(side).buffer)
            && (side == Response && u.response.mode.InBody? ==> u.current.Some? && g.interim == [])
  {
    if side == Request {
      if P.request(head).Some? {
        var q := P.request(head).value;
        RequestsReadPush(h.requests, Opened(q, head, Span(RequestFraming(q.headers), [], [])));
        assert head + [] == head;
      }
    } else if P.response(head).Some? {
      ResponseHeadRead(t, h, P.response(head).value, head);
    }
  }

  lemma ResponseHeadRead(t: Tap, h: History, q: ResponseHead, head: seq<Byte>)
    requires t.response.mode == Head && t.current.None?
    ensures var (u, g) := (OnResponseHead(t, q).0, NoteResponseHead(t, h, q, head));
            && (Following(u, Response) ==>
                  Read(g, Response) == Read(h, Response) + head && u.response.buffer == t.response.buffer)
            && (u.response.mode.InBody? ==> u.current.Some? && g.interim == [])
  {
    if Interim(q.status) {
      assert AnswersRead(h.answers) + (h.interim + head) == (AnswersRead(h.answers) + h.interim) + head;
    } else {
      var a := NoteAnswer(t, h, q, head).answers[|h.answers|];
      AnswersReadPush(h.answers, a);
      assert AnswersRead(h.answers) + (h.interim + head + []) == (AnswersRead(h.answers) + h.interim) + head;
      assert AnswersRead(h.answers + [a]) + [] == AnswersRead(h.answers + [a]);
    }
  }

  /** Body bytes move from the buffer to what has been read. */
  lemma RequestBodyRead(P: Parsers, s: Tap, h: History)
    requires Based(s, h) && s.request.mode.InBody? && s.request.buffer != []
    ensures var t, g := Step(P, Request, s).0, Note(P, Request, s, h);
            RequestsRead(g.requests) + t.request.buffer == RequestsRead(h.requests) + s.request.buffer
  {
    var buf := s.request.buffer;
    var r := FeedFraming(s.request.mode.framing, buf);
    var t, g := Step(P, Request, s).0, Note(P, Request, s, h);
    RequestsReadMore(h.requests, r, buf[..r.used]);
    assert g.requests == NoteData(Request, s, h, r, buf[..r.used]).requests && t.request.buffer == buf[r.used..];
    assert RequestsRead(h.requests) + buf[..r.used] + buf[r.used..] == RequestsRead(h.requests) + buf;
  }

  lemma AnswerBodyRead(P: Parsers, s: Tap, h: History)
    requires Based(s, h) && s.current.Some? && s.response.mode.InBody? && s.response.buffer != []
    ensures var t, g := Step(P, Response, s).0, Note(P, Response, s, h);
            && AnswersRead(g.answers) + t.response.buffer == AnswersRead(h.answers) + s.response.buffer
            && g.interim == h.interim && (t.response.mode.InBody? ==> t.current.Some?)
  {
    var buf := s.response.buffer;
    var r := FeedFraming(s.response.mode.framing, buf);
    var t, g := Step(P, Response, s).0, Note(P, Response, s, h);
    AnswersReadMore(h.answers, r, buf[..r.used]);
    assert g.answers == NoteData(Response, s, h, r, buf[..r.used]).answers && t.response.buffer == buf[r.used..];
    assert AnswersRead(h.answers) + buf[..r.used] + buf[r.used..] == AnswersRead(h.answers) + buf;
  }

  lemma BodyStepRead(P: Parsers, side: Side, s: Tap, h: History, total: seq<Byte>)
    requires Based(s, h) && AllRead(s, h, side, total) && Following(s, side)
    requires s.At(side).mode.InBody? && s.At(side).buffer != []
    ensures AllRead(Step(P, side, s).0, Note(P, side, s, h), side, total)
  {
    if side == Request {
      RequestBodyRead(P, s, h);
    } else {
      AnswerBodyRead(P, s, h);
      var g := Note(P, side, s, h);
      assert AnswersRead(h.answers) + h.interim == AnswersRead(h.answers);
      assert AnswersRead(g.answers) + g.interim == AnswersRead(g.answers);
    }
  }

  lemma AfterClose(P: Parsers, s: Tap)
    requires s.response.mode == InBody(UntilEof) && s.current.None?
    ensures Step(P, Response, s).0.response.mode == InBody(UntilEof) && Step(P, Response, s).0.current.None?
  {
  }

  lemma StepRead(P: Parsers, side: Side, s: Tap, h: History, total: seq<Byte>)
    requires Based(s, h) && AllRead(s, h, side, total)
    ensures AllRead(Step(P, side, s).0, Note(P, side, s, h), side, total)
  {
    var d := s.At(side);
    if d.mode == Head {
      HeadStepRead(P, side, s, h, total);
    } else if d.mode.InBody? && d.buffer != [] {
      if Following(s, side) {
        BodyStepRead(P, side, s, h, total);
      } else {
        AfterClose(P, s);
      }
    }
  }

  lemma HeadStepRead(P: Parsers, side: Side, s: Tap, h: History, total: seq<Byte>)
    requires Based(s, h) && AllRead(s, h, side, total) && s.At(side).mode == Head
    ensures AllRead(Step(P, side, s).0, Note(P, side, s, h), side, total)
  {
    var buf := s.At(side).buffer;
    if Conclude(buf).Found? {
      var end := Conclude(buf).end;
      var t := s.With(side, Dir(Head, buf[end..]));
      HeadRead(P, side, t, h, buf[..end]);
      assert Step(P, side, s).0 == OnHead(P, side, t, buf[..end]).0;
      assert Read(h, side) + buf[..end] + buf[end..] == Read(h, side) + buf;
    }
  }

  /** The other direction reads nothing here, and at most makes this one give up. */
  lemma OtherRead(P: Parsers, side: Side, other: Side, s: Tap, h: History, total: seq<Byte>)
    requires Based(s, h) && AllRead(s, h, side, total) && other != side
    ensures AllRead(Step(P, other, s).0, Note(P, other, s, h), side, total)
  {
    var t, g := Step(P, other, s).0, Note(P, other, s, h);
    if other == Request {
      assert t.response == s.response && t.current == s.current;
      assert g.answers == h.answers && g.interim == h.interim;
    } else {
      assert t.request == s.request || t.request == OPAQUE;
      assert g.requests == h.requests;
    }
  }

  // ── runs ─────────────────────────────────────────────────────────────────

  lemma {:induction false} DrainRead(P: Parsers, side: Side, at: Side, s: Tap, h: History, total: seq<Byte>)
    requires Kept(s, h) && AllRead(s, h, side, total)
    ensures AllRead(Drain(P, at, s), DrainHistory(P, at, s, h), side, total)
    decreases |s.At(at).buffer|
  {
    KeptIsBased(s, h);
    if at == side {
      StepRead(P, side, s, h, total);
    } else {
      OtherRead(P, side, at, s, h, total);
    }
    StepKept(P, at, s, h);
    if Step(P, at, s).1 {
      DrainRead(P, side, at, Step(P, at, s).0, Note(P, at, s, h), total);
    }
  }

  lemma ReactRead(P: Parsers, side: Side, s: Tap, h: History, input: Input, total: seq<Byte>)
    requires Kept(s, h) && AllRead(s, h, side, total)
    ensures AllRead(React(P, s, input), ReactHistory(P, s, h, input), side, total + ShownBy(input, side))
  {
    match input {
      case Bytes(at, bytes) =>
        if s.At(at).mode != Passthrough {
          ExtendKept(s, h, at, bytes);
          assert Read(h, side) + (s.At(side).buffer + bytes) == Read(h, side) + s.At(side).buffer + bytes;
          DrainRead(P, side, at, s.Extend(at, bytes), h, total + ShownBy(input, side));
        }
      case Closed =>
        assert total + [] == total;
    }
  }

  lemma {:induction false} RunRead(P: Parsers, side: Side, s: Tap, h: History, inputs: seq<Input>, total: seq<Byte>,
                                   end: seq<Byte>)
    requires Kept(s, h) && AllRead(s, h, side, total)
    requires end == total + Shown(inputs, side)
    ensures AllRead(Run(P, s, inputs), RunHistory(P, s, h, inputs), side, end)
    decreases |inputs|
  {
    if inputs == [] {
      assert end == total;
    } else {
      ReactRead(P, side, s, h, inputs[0], total);
      ReactKept(P, s, h, inputs[0]);
      ShownOn(inputs, side, total);
      RunRead(P, side, React(P, s, inputs[0]), ReactHistory(P, s, h, inputs[0]), inputs[1..],
              total + ShownBy(inputs[0], side), end);
    }
  }

  lemma ShownOn(inputs: seq<Input>, side: Side, total: seq<Byte>)
    requires inputs != []
    ensures total + Shown(inputs, side) == (total + ShownBy(inputs[0], side)) + Shown(inputs[1..], side)
  {
  }

  /**
   Every byte is accounted for. In every interleaving, until a direction gives up (and a response read to
   the close is closed), the bytes it was shown are its heads and bodies in order, interim heads
   included, and then its buffer.
   */
  lemma EveryByteIsRead(P: Parsers, inputs: seq<Input>, side: Side)
    ensures var s, h := Run(P, NEW, inputs), RunHistory(P, NEW, NOTHING, inputs);
            Following(s, side) ==> Shown(inputs, side) == Read(h, side) + s.At(side).buffer
  {
    StartKept();
    assert [] + Shown(inputs, side) == Shown(inputs, side);
    RunRead(P, side, NEW, NOTHING, inputs, [], Shown(inputs, side));
  }
}
