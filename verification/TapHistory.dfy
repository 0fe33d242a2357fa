/**
 What a run of the tap has seen, kept beside the tap and never read by it.

 The history records every request and response head in the order parsed, each with the body bytes
 that its own framing took. The lemmas of `TapPairing` relate it to what the tap queues and records.
 */
module TapHistory {
  import opened Basics
  import opened Capture
  import opened Heads
  import opened HttpTap

  /** The body of one message: the bytes its framing took, and the data among them. */
  datatype Span = Span(framing: Option<LiveFraming>, raw: seq<Byte>, data: seq<Byte>) {
    function More(r: Fed, bytes: seq<Byte>): Span {
      Span(framing, raw + bytes, data + r.data)
    }

    /** The framing has come to `f` by reading `raw`, and found `data` there. */
    predicate Reached(f: Framing) {
      framing.Some? && FeedFraming(framing.value, raw) == Fed(f, |raw|, data)
    }

    /** `raw` is a whole body under this framing, and `data` is its content. */
    predicate Whole() {
      if framing.None? then raw == [] && data == []
      else
        var r := FeedFraming(framing.value, raw);
        r.used == |raw| && r.data == data && (r.next == UntilEof || !r.next.Unfinished())
    }
  }

  /** `wire` is the head as it was sent. */
  datatype Opened = Opened(head: RequestHead, wire: seq<Byte>, body: Span)

  /**
   `wire` is the head as it was sent and `lead` the interim heads before it; `verb` is the request
   method that the framing was chosen for. When the head was read, `seen` request heads had been read
   and `waiting` requests were in the queue.
   */
  datatype Answer = Answer(head: ResponseHead, lead: seq<Byte>, wire: seq<Byte>, verb: Option<string>,
                           seen: nat, waiting: nat, body: Span)
  {
    /** The request that was at the front of the queue, if there was one. */
    function Asker(): Option<nat>
      requires waiting <= seen
    {
      if waiting == 0 then None else Some(seen - waiting)
    }
  }

  datatype History = History(
    requests: seq<Opened>,
    /** Responses other than interim ones. */
    answers: seq<Answer>,
    /** For each record, the position in `requests` of the request it was paired with. */
    served: seq<Option<nat>>,
    /** For each record, how many request heads had been read when it was made. */
    completed: seq<nat>,
    /** For each record, how many data bytes of its request's body had been read when it was made. */
    caught: seq<nat>,
    /** Interim response heads read since the last answer. */
    interim: seq<Byte>,
    /** Requests evicted from a full queue. */
    dropped: nat,
    /** Responses whose head was read while no request was waiting. */
    orphans: nat)

  const NOTHING := History([], [], [], [], [], [], 0, 0)

  /** The position of the oldest waiting request. */
  function Front(s: Tap, h: History): Option<nat> {
    if s.pending == [] then None else Some(Max(0, |h.requests| - |s.pending|))
  }

  /** How much of a request's body has been read. */
  function DataRead(h: History, j: Option<nat>): nat {
    if j.Some? && j.value < |h.requests| then |h.requests[j.value].body.data| else 0
  }

  function NoteComplete(s: Tap, h: History): History {
    if s.current.None? then h
    else h.(served := h.served + [Front(s, h)],
            completed := h.completed + [|h.requests|],
            caught := h.caught + [DataRead(h, Front(s, h))])
  }

  function NoteRequestHead(s: Tap, h: History, q: RequestHead, wire: seq<Byte>): History {
    h.(requests := h.requests + [Opened(q, wire, Span(RequestFraming(q.headers), [], []))],
       dropped := h.dropped + if |s.pending| >= MAX_PENDING then 1 else 0)
  }

  function FramingOfResponse(s: Tap, q: ResponseHead): Option<LiveFraming> {
    if q.status == 101 then None else ResponseFraming(q.status, FrontMethod(s), q.headers)
  }

  function NoteAnswer(s: Tap, h: History, q: ResponseHead, wire: seq<Byte>): History {
    h.(answers := h.answers + [Answer(q, h.interim, wire, FrontMethod(s), |h.requests|, |s.pending|,
                                      Span(FramingOfResponse(s, q), [], []))],
       interim := [],
       orphans := h.orphans + if s.pending == [] then 1 else 0)
  }

  function NoteResponseHead(s: Tap, h: History, q: ResponseHead, wire: seq<Byte>): History {
    if Interim(q.status) then h.(interim := h.interim + wire)
    else
      var h' := NoteAnswer(s, h, q, wire);
      if FramingOfResponse(s, q).None?
      then NoteComplete(s.(current := Some(PendingResponse(q, EMPTY))), h')
      else h'
  }

  function NoteHead(P: Parsers, side: Side, s: Tap, h: History, head: seq<Byte>): History {
    match side
    case Request =>
      (match P.request(head)
       case None => h
       case Some(q) => NoteRequestHead(s, h, q, head))
    case Response =>
      (match P.response(head)
       case None => h
       case Some(q) => NoteResponseHead(s, h, q, head))
  }

  /** Body bytes belong to the message whose head came last in their direction. */
  function NoteData(side: Side, s: Tap, h: History, r: Fed, bytes: seq<Byte>): History {
    match side
    case Request =>
      if h.requests == [] then h
      else
        var last := |h.requests| - 1;
        h.(requests := h.requests[last := h.requests[last].(body := h.requests[last].body.More(r, bytes))])
    case Response =>
      if s.current.None? || h.answers == [] then h
      else
        var last := |h.answers| - 1;
        h.(answers := h.answers[last := h.answers[last].(body := h.answers[last].body.More(r, bytes))])
  }

  /** The history after one turn of the loop. */
  function Note(P: Parsers, side: Side, s: Tap, h: History): History {
    var d := s.At(side);
    match d.mode
    case Passthrough => h
    case Head =>
      (match Conclude(d.buffer)
       case Found(end) => NoteHead(P, side, s.With(side, Dir(Head, d.buffer[end..])), h, d.buffer[..end])
       case _ => h)
    case InBody(f) =>
      if d.buffer == [] then h
      else
        var r := FeedFraming(f, d.buffer);
        var h' := NoteData(side, s, h, r, d.buffer[..r.used]);
        if r.next.Unfinished() || side == Request then h' else NoteComplete(Deliver(side, s, r.data), h')
  }

  function DrainHistory(P: Parsers, side: Side, s: Tap, h: History): History
    decreases |s.At(side).buffer|
  {
    var (t, more) := Step(P, side, s);
    if more then DrainHistory(P, side, t, Note(P, side, s, h)) else Note(P, side, s, h)
  }

  function ReactHistory(P: Parsers, s: Tap, h: History, input: Input): History {
    match input
    case Bytes(side, bytes) =>
      if s.At(side).mode == Passthrough then h else DrainHistory(P, side, s.Extend(side, bytes), h)
    case Closed =>
      if s.response.mode == InBody(UntilEof) then NoteComplete(s, h) else h
  }

  function RunHistory(P: Parsers, s: Tap, h: History, inputs: seq<Input>): History
    decreases |inputs|
  {
    if inputs == [] then h
    else RunHistory(P, React(P, s, inputs[0]), ReactHistory(P, s, h, inputs[0]), inputs[1..])
  }
}
