/**
 The passive HTTP/1.x tap as a state machine on values.

 Both directions of a connection run the same loop (`Drain`), one turn of which is `Step`. The
 header parser is foreign code: `Parsers` carries it as a pair of functions about which nothing is
 assumed.
 */
module HttpTap {
  import opened Basics
  import opened Text
  import opened Capture
  import opened ChunkedCoding
  import opened Heads

  const MAX_PENDING := 64

  type Headers = seq<(string, string)>

  datatype RequestHead = RequestHead(verb: string, path: string, headers: Headers)

  datatype ResponseHead = ResponseHead(status: nat, headers: Headers)

  datatype Parsers = Parsers(
    request: seq<Byte> -> Option<RequestHead>,
    response: seq<Byte> -> Option<ResponseHead>)

  // ── body framing (section 6.3 of RFC 9112) ───────────────────────────────

  datatype Framing =
    | Length(remaining: nat)
    | Chunked(scanner: Scanner)
    | UntilEof
  {
    predicate Unfinished() {
      match this
      case Length(n) => n > 0
      case Chunked(sc) => !sc.phase.Done?
      case UntilEof => true
    }
  }

  type LiveFraming = f: Framing | f.Unfinished() witness UntilEof

  /** What one buffer does to a framing: the framing it leaves, how many bytes it takes, the data among them. */
  datatype Fed = Fed(next: Framing, used: nat, data: seq<Byte>)

  function FeedFraming(f: Framing, buf: seq<Byte>): (r: Fed)
    ensures r.used <= |buf|
    ensures f.Unfinished() && buf != [] ==> r.used > 0
    ensures f.Unfinished() && r.next.Unfinished() ==> r.used == |buf|
  {
    match f
    case Length(remaining) =>
      var take := Min(remaining, |buf|);
      Fed(Length(remaining - take), take, buf[..take])
    case UntilEof => Fed(UntilEof, |buf|, buf)
    case Chunked(sc) =>
      var r := Scan(sc, buf);
      Fed(Chunked(r.scanner), r.used, r.data)
  }

  function HeaderValue(headers: Headers, name: string): Option<string> {
    if headers == [] then None
    else if EqIgnoreAsciiCase(headers[0].0, name) then Some(headers[0].1)
    else HeaderValue(headers[1..], name)
  }

  predicate IsChunked(headers: Headers) {
    match HeaderValue(headers, "transfer-encoding")
    case None => false
    case Some(v) => Contains(AsciiLower(v), "chunked")
  }

  function ContentLength(headers: Headers): Option<nat> {
    match HeaderValue(headers, "content-length")
    case None => None
    case Some(v) => ParseU64(Trim(v), 10)
  }

  function RequestFraming(headers: Headers): Option<LiveFraming> {
    if IsChunked(headers) then Some(Chunked(FRESH))
    else
      match ContentLength(headers)
      case None => None
      case Some(n) => if n == 0 then None else Some(Length(n))
  }

  /** Responses that never have a body, whatever they advertise. */
  predicate Bodiless(status: nat, verb: Option<string>) {
    status == 204 || status == 304 || (verb.Some? && EqIgnoreAsciiCase(verb.value, "HEAD"))
  }

  function ResponseFraming(status: nat, verb: Option<string>, headers: Headers): Option<LiveFraming> {
    if Bodiless(status, verb) then None
    else if IsChunked(headers) then Some(Chunked(FRESH))
    else
      match ContentLength(headers)
      case None => Some(UntilEof)
      case Some(n) => if n == 0 then None else Some(Length(n))
  }

  // ── state ────────────────────────────────────────────────────────────────

  datatype Mode = Head | InBody(framing: LiveFraming) | Passthrough

  datatype Dir = Dir(mode: Mode, buffer: seq<Byte>)

  const START := Dir(Head, [])
  const OPAQUE := Dir(Passthrough, [])

  datatype PendingRequest = PendingRequest(head: RequestHead, host: Option<string>, body: Body)

  datatype PendingResponse = PendingResponse(head: ResponseHead, body: Body)

  datatype Exchange = Exchange(request: PendingRequest, response: PendingResponse)

  /** Stands in for the request of a response that has none. */
  const UNKNOWN := PendingRequest(RequestHead("?", "?", []), None, EMPTY)

  datatype Side = Request | Response

  datatype Tap = Tap(
    request: Dir,
    response: Dir,
    pending: seq<PendingRequest>,
    current: Option<PendingResponse>,
    records: seq<Exchange>)
  {
    function At(side: Side): Dir {
      if side == Request then request else response
    }

    function With(side: Side, d: Dir): Tap {
      if side == Request then this.(request := d) else this.(response := d)
    }

    function Extend(side: Side, bytes: seq<Byte>): Tap {
      With(side, At(side).(buffer := At(side).buffer + bytes))
    }
  }

  const NEW := Tap(START, START, [], None, [])

  function ModeFor(framing: Option<LiveFraming>): Mode {
    match framing
    case None => Head
    case Some(f) => InBody(f)
  }

  // ── one turn of the loop ─────────────────────────────────────────────────

  /** The response has been read: it takes the request at the front of the queue, or `UNKNOWN`, into a record. */
  function Complete(s: Tap): Tap {
    match s.current
    case None => s
    case Some(response) =>
      var request := if s.pending == [] then UNKNOWN else s.pending[0];
      s.(pending := if s.pending == [] then [] else s.pending[1..],
         current := None,
         records := s.records + [Exchange(request, response)])
  }

  function OnRequestHead(s: Tap, h: RequestHead): Tap {
    var queue := if |s.pending| >= MAX_PENDING then s.pending[1..] else s.pending;
    s.(pending := queue + [PendingRequest(h, HeaderValue(h.headers, "host"), EMPTY)],
       request := s.request.(mode := ModeFor(RequestFraming(h.headers))))
  }

  predicate Interim(status: nat) {
    100 <= status < 200 && status != 101
  }

  function FrontMethod(s: Tap): Option<string> {
    if s.pending == [] then None else Some(s.pending[0].head.verb)
  }

  /** The state after a response head, and whether the loop goes on. */
  function OnResponseHead(s: Tap, h: ResponseHead): (Tap, bool) {
    var started := s.(current := Some(PendingResponse(h, EMPTY)));
    if Interim(h.status) then (s, true)
    else if h.status == 101 then (Complete(started).(request := OPAQUE, response := OPAQUE), false)
    else
      match ResponseFraming(h.status, FrontMethod(s), h.headers)
      case None => (Complete(started), true)
      case Some(f) => (started.(response := s.response.(mode := InBody(f))), true)
  }

  /** `s` has had the head taken off its buffer and is back in Head mode. */
  function OnHead(P: Parsers, side: Side, s: Tap, head: seq<Byte>): (Tap, bool) {
    match side
    case Request =>
      (match P.request(head)
       case None => (s.(request := OPAQUE), false)
       case Some(h) => (OnRequestHead(s, h), true))
    case Response =>
      (match P.response(head)
       case None => (s.(response := OPAQUE), false)
       case Some(h) => OnResponseHead(s, h))
  }

  /** Body bytes go to the newest pending request, or to the response being read. */
  function Deliver(side: Side, s: Tap, data: seq<Byte>): Tap {
    match side
    case Request =>
      if s.pending == [] then s
      else
        var last := |s.pending| - 1;
        s.(pending := s.pending[last := s.pending[last].(body := Push(s.pending[last].body, data))])
    case Response =>
      match s.current
      case None => s
      case Some(r) => s.(current := Some(r.(body := Push(r.body, data))))
  }

  function OnBodyEnd(side: Side, s: Tap): Tap {
    if side == Response then Complete(s) else s
  }

  /** One turn of the loop: the next state and whether the loop goes on. */
  function Step(P: Parsers, side: Side, s: Tap): (r: (Tap, bool))
    ensures r.1 ==> |r.0.At(side).buffer| < |s.At(side).buffer|
  {
    var d := s.At(side);
    match d.mode
    case Passthrough => (s.With(side, OPAQUE), false)
    case Head =>
      (match Conclude(d.buffer)
       case Wait => (s, false)
       case TooLong => (s.With(side, OPAQUE), false)
       case Found(end) => OnHead(P, side, s.With(side, Dir(Head, d.buffer[end..])), d.buffer[..end]))
    case InBody(f) =>
      if d.buffer == [] then (s, false)
      else
        var r := FeedFraming(f, d.buffer);
        var t := Deliver(side, s, r.data);
        if r.next.Unfinished()
        then (t.With(side, Dir(InBody(r.next), d.buffer[r.used..])), false)
        else (OnBodyEnd(side, t.With(side, Dir(Head, d.buffer[r.used..]))), true)
  }

  /** The parsing loop of one direction. */
  function Drain(P: Parsers, side: Side, s: Tap): Tap
    decreases |s.At(side).buffer|
  {
    var (t, more) := Step(P, side, s);
    if more then Drain(P, side, t) else t
  }

  function Feed(P: Parsers, side: Side, s: Tap, bytes: seq<Byte>): Tap {
    if s.At(side).mode == Passthrough then s else Drain(P, side, s.Extend(side, bytes))
  }

  /** At the close, only a response that had no other end counts as read. */
  function Finish(s: Tap): Tap {
    if s.response.mode == InBody(UntilEof) then Complete(s) else s
  }

  // ── runs ─────────────────────────────────────────────────────────────────

  /** What the proxy shows the tap: bytes of either direction, in any interleaving, or the close. */
  datatype Input = Bytes(side: Side, bytes: seq<Byte>) | Closed

  function React(P: Parsers, s: Tap, input: Input): Tap {
    match input
    case Bytes(side, bytes) => Feed(P, side, s, bytes)
    case Closed => Finish(s)
  }

  function Run(P: Parsers, s: Tap, inputs: seq<Input>): Tap
    decreases |inputs|
  {
    if inputs == [] then s else Run(P, React(P, s, inputs[0]), inputs[1..])
  }
}
