/** The tap as the client runs it: an object whose methods consume bytes in place. */
module TapConnection {
  import opened Basics
  import opened Capture
  import opened Heads
  import opened HttpTap
  import ChunkedCoding

  /** Feed one buffer to a body framing, capturing into `sink`. */
  method FeedBody(framing: LiveFraming, buf: seq<Byte>, sink: Option<Body>)
    returns (next: Framing, used: nat, done: bool, sink': Option<Body>)
    ensures var r := FeedFraming(framing, buf);
            next == r.next && used == r.used && done == !next.Unfinished()
              && sink' == ChunkedCoding.PushSome(sink, r.data)
  {
    match framing {
      case Length(remaining) =>
        used := Min(remaining, |buf|);
        sink' := ChunkedCoding.PushSome(sink, buf[..used]);
        next, done := Length(remaining - used), remaining == used;
      case UntilEof =>
        sink' := ChunkedCoding.PushSome(sink, buf);
        next, used, done := UntilEof, |buf|, false;
      case Chunked(sc) =>
        var sc'; sc', used, done, sink' := ChunkedCoding.FeedScanner(sc, buf, sink);
        next := Chunked(sc');
    }
  }

  class TapState {
    const parsers: Parsers
    var request: Dir
    var response: Dir
    var pending: seq<PendingRequest>
    var current: Option<PendingResponse>
    /** What has been handed to the inspector, oldest first. */
    var records: seq<Exchange>

    ghost function View(): Tap
      reads this
    {
      Tap(request, response, pending, current, records)
    }

    constructor (parsers: Parsers)
      ensures View() == NEW && this.parsers == parsers
    {
      this.parsers := parsers;
      request, response, pending, current, records := START, START, [], None, [];
    }

    method CompleteExchange()
      modifies this
      ensures View() == Complete(old(View()))
    {
      if current.None? {
        return;
      }
      var popped := UNKNOWN;
      if pending != [] {
        popped, pending := pending[0], pending[1..];
      }
      records := records + [Exchange(popped, current.value)];
      current := None;
    }

    /** One turn of the request loop. */
    method RequestTurn() returns (more: bool)
      modifies this
      ensures (View(), more) == Step(parsers, Request, old(View()))
    {
      match request.mode {
        case Passthrough =>
          request := OPAQUE;
          more := false;
        case Head =>
          match HeadEnd(request.buffer) {
            case None =>
              if |request.buffer| > MAX_HEAD {
                request := OPAQUE;
              }
              more := false;
            case Some(end) =>
              var head := request.buffer[..end];
              request := Dir(Head, request.buffer[end..]);
              match parsers.request(head) {
                case None =>
                  request := OPAQUE;
                  more := false;
                case Some(h) =>
                  if |pending| >= MAX_PENDING {
                    pending := pending[1..];
                  }
                  pending := pending + [PendingRequest(h, HeaderValue(h.headers, "host"), EMPTY)];
                  match RequestFraming(h.headers) {
                    case None => request := Dir(Head, request.buffer);
                    case Some(f) => request := Dir(InBody(f), request.buffer);
                  }
                  more := true;
              }
          }
        case InBody(framing) =>
          if request.buffer == [] {
            return false;
          }
          var sink := if pending == [] then None else Some(pending[|pending| - 1].body);
          var next, used, done, sink' := FeedBody(framing, request.buffer, sink);
          if pending != [] {
            pending := pending[|pending| - 1 := pending[|pending| - 1].(body := sink'.value)];
          }
          request := Dir(if done then Head else InBody(next), request.buffer[used..]);
          more := done;
      }
    }

    /** One turn of the response loop. */
    method ResponseTurn() returns (more: bool)
      modifies this
      ensures (View(), more) == Step(parsers, Response, old(View()))
    {
      match response.mode {
        case Passthrough =>
          response := OPAQUE;
          more := false;
        case Head =>
          match HeadEnd(response.buffer) {
            case None =>
              if |response.buffer| > MAX_HEAD {
                response := OPAQUE;
              }
              more := false;
            case Some(end) =>
              var head := response.buffer[..end];
              response := Dir(Head, response.buffer[end..]);
              more := TakeResponseHead(head);
          }
        case InBody(framing) =>
          if response.buffer == [] {
            return false;
          }
          var sink := if current.None? then None else Some(current.value.body);
          var next, used, done, sink' := FeedBody(framing, response.buffer, sink);
          if current.Some? {
            current := Some(current.value.(body := sink'.value));
          }
          response := Dir(if done then Head else InBody(next), response.buffer[used..]);
          if done {
            CompleteExchange();
          }
          more := done;
      }
    }

    method TakeResponseHead(head: seq<Byte>) returns (more: bool)
      requires response.mode == Head
      modifies this
      ensures (View(), more) == OnHead(parsers, Response, old(View()), head)
    {
      match parsers.response(head) {
        case None =>
          response := OPAQUE;
          more := false;
        case Some(h) =>
          if Interim(h.status) {
            return true;
          }
          if h.status == 101 {
            current := Some(PendingResponse(h, EMPTY));
            CompleteExchange();
            request := OPAQUE;
            response := OPAQUE;
            return false;
          }
          var verb := if pending == [] then None else Some(pending[0].head.verb);
          var framing := ResponseFraming(h.status, verb, h.headers);
          current := Some(PendingResponse(h, EMPTY));
          match framing {
            case Some(f) => response := Dir(InBody(f), response.buffer);
            case None => CompleteExchange();
          }
          more := true;
      }
    }

    method FeedRequest(bytes: seq<Byte>)
      modifies this
      ensures View() == Feed(parsers, Request, old(View()), bytes)
    {
      if request.mode == Passthrough {
        return;
      }
      request := Dir(request.mode, request.buffer + bytes);
      ghost var end := Drain(parsers, Request, View());
      var more := true;
      while more
        invariant if more then Drain(parsers, Request, View()) == end else View() == end
        decreases more, |request.buffer|
      {
        more := RequestTurn();
      }
    }

    method FeedResponse(bytes: seq<Byte>)
      modifies this
      ensures View() == Feed(parsers, Response, old(View()), bytes)
    {
      if response.mode == Passthrough {
        return;
      }
      response := Dir(response.mode, response.buffer + bytes);
      ghost var end := Drain(parsers, Response, View());
      var more := true;
      while more
        invariant if more then Drain(parsers, Response, View()) == end else View() == end
        decreases more, |response.buffer|
      {
        more := ResponseTurn();
      }
    }

    /** At the close, a response that had no other end is recorded. */
    method Close()
      modifies this
      ensures View() == Finish(old(View()))
    {
      if response.mode == InBody(UntilEof) {
        CompleteExchange();
      }
    }
  }
}
