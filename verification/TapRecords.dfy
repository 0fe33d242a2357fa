/**
 Which request a record joins, record by record, in runs where responses may come before their
 requests and requests may be evicted.

 A response's framing is chosen when its head is read, from the request at the front of the queue; the
 request it is recorded with is taken from the queue when its body ends. `Placed` accounts for both.
 */
module TapRecords {
  import opened Basics
  import opened Capture
  import opened Heads
  import opened Text
  import opened HttpTap
  import opened TapHistory
  import opened TapPairing

  function Method(h: History, j: Option<nat>): Option<string>
    requires j.Some? ==> j.value < |h.requests|
  {
    match j
    case None => None
    case Some(i) => Some(h.requests[i].head.verb)
  }

  /** The request that a response is recorded with, when `upto` request heads have been read by then. */
  function Joined(a: Answer, upto: nat): Option<nat>
    requires a.seen <= upto
  {
    var queued := Min(MAX_PENDING, a.waiting + (upto - a.seen));
    if queued == 0 || upto < queued then None else Some(upto - queued)
  }

  /**
   While the response was being read no request joined an orphan, and no eviction reached the request
   that it answers.
   */
  predicate Undisturbed(a: Answer, upto: nat)
    requires a.seen <= upto
  {
    if a.waiting == 0 then upto == a.seen else a.waiting + (upto - a.seen) <= MAX_PENDING
  }

  lemma JoinedIsAsker(a: Answer, upto: nat)
    requires a.waiting <= a.seen <= upto && a.waiting <= MAX_PENDING
    ensures Joined(a, upto) == a.Asker() <==> Undisturbed(a, upto)
  {
  }

  // ── what is kept ─────────────────────────────────────────────────────────

  predicate AskedOf(h: History, a: Answer) {
    && a.waiting <= a.seen <= |h.requests| && a.waiting <= MAX_PENDING
    && a.verb == Method(h, a.Asker())
  }

  predicate PairedAt(h: History, k: nat)
    requires k < |h.served| && k < |h.completed| && k < |h.answers|
  {
    h.answers[k].seen <= h.completed[k] && h.served[k] == Joined(h.answers[k], h.completed[k])
  }

  predicate Lined(s: Tap, h: History) {
    && |h.completed| == |h.served|
    && |h.answers| == |h.served| + if s.current.Some? then 1 else 0
  }

  predicate Placed(s: Tap, h: History) {
    && Lined(s, h)
    && (forall k :: 0 <= k < |h.answers| ==> AskedOf(h, h.answers[k]))
    && (forall k :: 0 <= k < |h.served| ==> PairedAt(h, k))
    && |s.pending| <= |h.requests| && |s.pending| <= MAX_PENDING
    && (s.current.Some? ==> Counted(s, h, h.answers[|h.answers| - 1]))
  }

  /** The queue has grown by the requests read since, up to its cap. */
  predicate Counted(s: Tap, h: History, a: Answer) {
    a.seen <= |h.requests| && |s.pending| == Min(MAX_PENDING, a.waiting + (|h.requests| - a.seen))
  }

  lemma CompletePlaced(s: Tap, h: History)
    requires Placed(s, h)
    ensures Placed(Complete(s), NoteComplete(s, h))
  {
    if s.current.Some? {
      var g := NoteComplete(s, h);
      forall k | 0 <= k < |g.served|
        ensures PairedAt(g, k)
      {
        if k < |h.served| {
          assert PairedAt(h, k);
        }
      }
      forall k | 0 <= k < |g.answers|
        ensures AskedOf(g, g.answers[k])
      {
        assert AskedOf(h, h.answers[k]);
      }
    }
  }

  lemma RequestHeadPlaced(s: Tap, h: History, q: RequestHead, wire: seq<Byte>)
    requires Placed(s, h)
    ensures Placed(OnRequestHead(s, q), NoteRequestHead(s, h, q, wire))
  {
    var g := NoteRequestHead(s, h, q, wire);
    forall k | 0 <= k < |g.served|
      ensures PairedAt(g, k)
    {
      assert PairedAt(h, k);
    }
    forall k | 0 <= k < |g.answers|
      ensures AskedOf(g, g.answers[k])
    {
      assert AskedOf(h, h.answers[k]);
    }
  }

  lemma AnswerPlaced(s: Tap, h: History, q: ResponseHead, wire: seq<Byte>)
    requires Placed(s, h) && s.current.None? && Queued(s, h)
    ensures Placed(s.(current := Some(PendingResponse(q, EMPTY))), NoteAnswer(s, h, q, wire))
  {
    var g := NoteAnswer(s, h, q, wire);
    forall k | 0 <= k < |g.served|
      ensures PairedAt(g, k)
    {
      assert PairedAt(h, k);
    }
    forall k | 0 <= k < |g.answers|
      ensures AskedOf(g, g.answers[k])
    {
      if k < |h.answers| {
        assert AskedOf(h, h.answers[k]);
      } else if s.pending != [] {
        assert s.pending[0] == Waiting(h.requests[|h.requests| - |s.pending|]);
      }
    }
  }

  /** Only the lengths and the heads matter. */
  lemma SamePlaced(s: Tap, t: Tap, h: History, g: History)
    requires Placed(s, h) && |t.pending| == |s.pending| && t.current.Some? == s.current.Some?
    requires g.served == h.served && g.completed == h.completed
    requires |g.requests| == |h.requests|
    requires forall j :: 0 <= j < |h.requests| ==> g.requests[j].head == h.requests[j].head
    requires |g.answers| == |h.answers|
    requires forall k :: 0 <= k < |h.answers| ==> g.answers[k] == h.answers[k].(body := g.answers[k].body)
    ensures Placed(t, g)
  {
    forall k | 0 <= k < |g.served|
      ensures PairedAt(g, k)
    {
      assert PairedAt(h, k);
    }
    forall k | 0 <= k < |g.answers|
      ensures AskedOf(g, g.answers[k])
    {
      assert AskedOf(h, h.answers[k]);
    }
  }

  lemma ResponseHeadPlaced(s: Tap, h: History, q: ResponseHead, wire: seq<Byte>)
    requires Placed(s, h) && s.current.None? && Queued(s, h)
    ensures Placed(OnResponseHead(s, q).0, NoteResponseHead(s, h, q, wire))
  {
    var t, g := OnResponseHead(s, q).0, NoteResponseHead(s, h, q, wire);
    if Interim(q.status) {
      SamePlaced(s, t, h, g);
    } else {
      AnswerPlaced(s, h, q, wire);
      var u, n := s.(current := Some(PendingResponse(q, EMPTY))), NoteAnswer(s, h, q, wire);
      if FramingOfResponse(s, q).None? {
        CompletePlaced(u, n);
        SamePlaced(Complete(u), t, g, g);
      } else {
        SamePlaced(u, t, n, n);
      }
    }
  }

  lemma HeadPlaced(P: Parsers, side: Side, t: Tap, h: History, head: seq<Byte>)
    requires Placed(t, h) && Queued(t, h) && (side == Response ==> t.current.None?)
    ensures Placed(OnHead(P, side, t, head).0, NoteHead(P, side, t, h, head))
  {
    if side == Request {
      if P.request(head).Some? {
        RequestHeadPlaced(t, h, P.request(head).value, head);
      } else {
        SamePlaced(t, t.(request := OPAQUE), h, h);
      }
    } else if P.response(head).Some? {
      ResponseHeadPlaced(t, h, P.response(head).value, head);
    } else {
      SamePlaced(t, t.(response := OPAQUE), h, h);
    }
  }

  lemma BodyPlaced(P: Parsers, side: Side, s: Tap, h: History)
    requires Placed(s, h) && s.At(side).mode.InBody? && s.At(side).buffer != []
    ensures Placed(Step(P, side, s).0, Note(P, side, s, h))
  {
    var d := s.At(side);
    var r := FeedFraming(d.mode.framing, d.buffer);
    var t, g := Deliver(side, s, r.data), NoteData(side, s, h, r, d.buffer[..r.used]);
    var next := Dir(if r.next.Unfinished() then InBody(r.next) else Head, d.buffer[r.used..]);
    SamePlaced(s, t.With(side, next), h, g);
    if !r.next.Unfinished() && side == Response {
      CompletePlaced(t.With(side, next), g);
    }
  }

  lemma StepPlaced(P: Parsers, side: Side, s: Tap, h: History)
    requires Kept(s, h) && Placed(s, h)
    ensures Placed(Step(P, side, s).0, Note(P, side, s, h))
  {
    var d := s.At(side);
    match d.mode {
      case Passthrough => SamePlaced(s, s.With(side, OPAQUE), h, h);
      case Head => HeadStepPlaced(P, side, s, h);
      case InBody(f) =>
        if d.buffer != [] {
          BodyPlaced(P, side, s, h);
        }
    }
  }

  lemma HeadStepPlaced(P: Parsers, side: Side, s: Tap, h: History)
    requires Kept(s, h) && Placed(s, h) && s.At(side).mode == Head
    ensures Placed(Step(P, side, s).0, Note(P, side, s, h))
  {
    var buf := s.At(side).buffer;
    match Conclude(buf) {
      case Wait =>
      case TooLong => SamePlaced(s, s.With(side, OPAQUE), h, h);
      case Found(end) =>
        var t := s.With(side, Dir(Head, buf[end..]));
        SamePlaced(s, t, h, h);
        assert Queued(t, h) by { DirsDoNotMatter(s, t, h); }
        HeadPlaced(P, side, t, h, buf[..end]);
    }
  }

  lemma {:induction false} DrainPlaced(P: Parsers, side: Side, s: Tap, h: History)
    requires Kept(s, h) && Placed(s, h)
    ensures Placed(Drain(P, side, s), DrainHistory(P, side, s, h))
    decreases |s.At(side).buffer|
  {
    StepPlaced(P, side, s, h);
    StepKept(P, side, s, h);
    if Step(P, side, s).1 {
      DrainPlaced(P, side, Step(P, side, s).0, Note(P, side, s, h));
    }
  }

  lemma ReactPlaced(P: Parsers, s: Tap, h: History, input: Input)
    requires Kept(s, h) && Placed(s, h)
    ensures Placed(React(P, s, input), ReactHistory(P, s, h, input))
  {
    match input {
      case Bytes(side, bytes) =>
        if s.At(side).mode != Passthrough {
          ExtendKept(s, h, side, bytes);
          SamePlaced(s, s.Extend(side, bytes), h, h);
          DrainPlaced(P, side, s.Extend(side, bytes), h);
        }
      case Closed => CompletePlaced(s, h);
    }
  }

  lemma {:induction false} RunPlaced(P: Parsers, s: Tap, h: History, inputs: seq<Input>)
    requires Kept(s, h) && Placed(s, h)
    ensures Placed(Run(P, s, inputs), RunHistory(P, s, h, inputs))
    decreases |inputs|
  {
    if inputs != [] {
      ReactPlaced(P, s, h, inputs[0]);
      ReactKept(P, s, h, inputs[0]);
      RunPlaced(P, React(P, s, inputs[0]), ReactHistory(P, s, h, inputs[0]), inputs[1..]);
    }
  }

  // ── main results ─────────────────────────────────────────────────────────

  /**
   Every record of every run, exactly. It carries response k, whole, and the request its history names.
   The framing was chosen from the method of the request at the front of the queue when the response
   head was read; that is the recorded request if and only if the response was undisturbed.
   */
  lemma RecordIsExact(P: Parsers, inputs: seq<Input>, k: nat)
    requires k < |Run(P, NEW, inputs).records|
    ensures var record := Run(P, NEW, inputs).records[k];
            var h := RunHistory(P, NEW, NOTHING, inputs);
            && k < |h.answers| && k < |h.completed| && k < |h.served| && k < |h.caught|
            && AskedOf(h, h.answers[k]) && Framed(h.answers[k]) && h.answers[k].body.Whole()
            && record.response == Told(h.answers[k])
            && (match h.served[k]
                case None => record.request == UNKNOWN
                case Some(j) => j < |h.requests| && Caught(record.request, h.requests[j], h.caught[k]))
            && PairedAt(h, k)
            && (h.served[k] == h.answers[k].Asker() <==> Undisturbed(h.answers[k], h.completed[k]))
  {
    StartKept();
    RunKept(P, NEW, NOTHING, inputs);
    RunPlaced(P, NEW, NOTHING, inputs);
    var s, h := Run(P, NEW, inputs), RunHistory(P, NEW, NOTHING, inputs);
    assert Honoured(s, h, k);
    assert PairedAt(h, k) && AskedOf(h, h.answers[k]);
    JoinedIsAsker(h.answers[k], h.completed[k]);
  }

  /**
   In every run a 204 or 304 is recorded with no body; and so is the response recorded with a HEAD
   request, if it was undisturbed.
   */
  lemma BodilessResponsesAbsorbNothing(P: Parsers, inputs: seq<Input>, k: nat)
    requires k < |Run(P, NEW, inputs).records|
    ensures var record := Run(P, NEW, inputs).records[k];
            var h := RunHistory(P, NEW, NOTHING, inputs);
            && k < |h.answers| && k < |h.completed| && h.answers[k].seen <= h.completed[k]
            && ((Bodiless(record.response.head.status, None)
                 || Bodiless(record.response.head.status, h.answers[k].verb)
                 || (Undisturbed(h.answers[k], h.completed[k])
                     && Bodiless(record.response.head.status, Some(record.request.head.verb)))) ==>
                  h.answers[k].body.raw == [] && record.response.body == EMPTY)
  {
    RecordIsExact(P, inputs, k);
    var h := RunHistory(P, NEW, NOTHING, inputs);
    PushCaptures([], []);
    QuestionIsNotHead();
  }

  lemma QuestionIsNotHead()
    ensures !EqIgnoreAsciiCase("?", "HEAD")
  {
  }

  /**
   An orphan that a later request joins: the response is framed with no request in sight, and then
   recorded with a HEAD request, body and all.
   */
  lemma EarlyResponseKeepsItsBody() returns (P: Parsers, inputs: seq<Input>)
    ensures var records := Run(P, NEW, inputs).records;
            && |records| == 1
            && records[0].request.head.verb == "HEAD" && records[0].response.head.status == 200
            && records[0].response.body == Captured([7])
  {
    P := Parsers(_ => Some(RequestHead("HEAD", "/", [])), _ => Some(ResponseHead(200, [])));
    inputs := [Bytes(Response, [LF, LF]), Bytes(Request, [LF, LF]), Bytes(Response, [7]), Closed];
    var waiting := PendingRequest(RequestHead("HEAD", "/", []), None, EMPTY);
    var one := Tap(START, Dir(InBody(UntilEof), []), [], Some(PendingResponse(ResponseHead(200, []), EMPTY)), []);
    var two := one.(pending := [waiting]);
    var three := two.(current := Some(PendingResponse(ResponseHead(200, []), Push(EMPTY, [7]))));
    FirstOfThree(P, one);
    SecondOfThree(P, one, two);
    LastOfThree(P, two, three);
    assert inputs[1..] == [Bytes(Request, [LF, LF]), Bytes(Response, [7]), Closed];
    assert inputs[1..][1..] == [Bytes(Response, [7]), Closed];
    assert inputs[1..][1..][1..] == [Closed];
    assert Run(P, three, [Closed]) == Finish(three);
    assert Run(P, two, inputs[1..][1..]) == Run(P, three, [Closed]);
    assert Run(P, one, inputs[1..]) == Run(P, two, inputs[1..][1..]);
    PushCaptures([], [7]);
  }

  lemma OneTurnMore(P: Parsers, side: Side, s: Tap)
    requires Step(P, side, s).1 && !Step(P, side, Step(P, side, s).0).1
    ensures Drain(P, side, s) == Step(P, side, Step(P, side, s).0).0
  {
    var t := Step(P, side, s).0;
    assert Drain(P, side, t) == Step(P, side, t).0;
  }

  lemma FirstOfThree(P: Parsers, one: Tap)
    requires P.response([LF, LF]) == Some(ResponseHead(200, []))
    requires one == Tap(START, Dir(InBody(UntilEof), []), [], Some(PendingResponse(ResponseHead(200, []), EMPTY)), [])
    ensures React(P, NEW, Bytes(Response, [LF, LF])) == one
  {
    ShortestHead();
    assert NEW.Extend(Response, [LF, LF]) == NEW.(response := Dir(Head, [LF, LF]));
    assert Step(P, Response, NEW.(response := Dir(Head, [LF, LF]))) == (one, true);
    assert Step(P, Response, one) == (one, false);
    OneTurnMore(P, Response, NEW.(response := Dir(Head, [LF, LF])));
  }

  lemma SecondOfThree(P: Parsers, one: Tap, two: Tap)
    requires P.request([LF, LF]) == Some(RequestHead("HEAD", "/", []))
    requires one.request == START && one.pending == []
    requires two == one.(pending := [PendingRequest(RequestHead("HEAD", "/", []), None, EMPTY)])
    ensures React(P, one, Bytes(Request, [LF, LF])) == two
  {
    ShortestHead();
    assert one.Extend(Request, [LF, LF]) == one.(request := Dir(Head, [LF, LF]));
    assert RequestFraming([]) == None;
    var whole := [LF, LF];
    assert whole[..2] == whole && whole[2..] == [];
    var head := RequestHead("HEAD", "/", []);
    assert HeaderValue(head.headers, "host") == None;
    assert OnRequestHead(one, head).pending == two.pending;
    assert OnRequestHead(one, head) == two;
    assert one.(request := Dir(Head, whole)).With(Request, START) == one;
    assert Step(P, Request, one.(request := Dir(Head, [LF, LF]))) == (two, true);
    assert Step(P, Request, two) == (two, false);
    OneTurnMore(P, Request, one.(request := Dir(Head, [LF, LF])));
  }

  lemma LastOfThree(P: Parsers, two: Tap, three: Tap)
    requires two.response == Dir(InBody(UntilEof), []) && two.current.Some?
    requires three == two.(current := Some(two.current.value.(body := Push(two.current.value.body, [7]))))
    ensures React(P, two, Bytes(Response, [7])) == three
  {
    assert two.Extend(Response, [7]) == two.(response := Dir(InBody(UntilEof), [7]));
    var seven: seq<Byte> := [7];
    assert FeedFraming(UntilEof, seven) == Fed(UntilEof, 1, seven);
    assert seven[1..] == [];
    assert Deliver(Response, two, seven) == three;
    var fed := Deliver(Response, two.(response := Dir(InBody(UntilEof), seven)), seven);
    assert fed.With(Response, Dir(InBody(UntilEof), [])) == three;
    assert Step(P, Response, two.(response := Dir(InBody(UntilEof), [7]))) == (three, false);
  }

  lemma ShortestHead()
    ensures Conclude([LF, LF]) == Found(2) && Conclude([]) == Wait
  {
    assert OccursAt([LF, LF], LF_LF, 0);
  }
}
