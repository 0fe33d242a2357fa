/**
 The client's rendezvous: a `NewConnection` frame and the data stream with the same connection id
 arrive on different sockets, in either order, and the pair must be proxied once. The part of the
 peer-to-peer subscriber path that shares these maps is modelled too.
 */
module Rendezvous {
  import opened Basics

  type Id = nat
  type Stream = nat
  type Local = nat

  datatype Tunnel = Tunnel(proto: string, localAddr: string, tag: string)

  datatype Meta = Meta(tunnel: Tunnel, protocol: Protocol, client: string)

  // ── the local target ─────────────────────────────────────────────────────

  predicate Serves(tunnel: Tunnel, protocol: Protocol) {
    match protocol
    case Http | Https => tunnel.proto == "http" || tunnel.proto == "https"
    case Tcp => tunnel.proto == "tcp"
    case Udp => tunnel.proto == "udp"
    case P2p => tunnel.proto == "p2p"
  }

  /** By the name in the client's configuration: each protocol its own, and the two web protocols each other. */
  lemma ServesIsExact(tunnel: Tunnel, protocol: Protocol)
    ensures Serves(tunnel, protocol) <==>
            (tunnel.proto, protocol) in {("http", Http), ("http", Https), ("https", Http), ("https", Https),
                                         ("tcp", Tcp), ("udp", Udp), ("p2p", P2p)}
  {
  }

  /** The first registered tunnel that serves the protocol. */
  function Target(registered: seq<Tunnel>, protocol: Protocol): Option<Tunnel> {
    if registered == [] then None
    else if Serves(registered[0], protocol) then Some(registered[0])
    else Target(registered[1..], protocol)
  }

  method FindLocalTarget(registered: seq<Tunnel>, protocol: Protocol) returns (target: Option<Tunnel>)
    ensures target == Target(registered, protocol)
    ensures target.None? <==> forall i :: 0 <= i < |registered| ==> !Serves(registered[i], protocol)
    ensures target.Some? ==>
              exists i :: 0 <= i < |registered| && target.value == registered[i] && Serves(registered[i], protocol)
                && forall j :: 0 <= j < i ==> !Serves(registered[j], protocol)
  {
    for i := 0 to |registered|
      invariant Target(registered, protocol) == Target(registered[i..], protocol)
      invariant forall j :: 0 <= j < i ==> !Serves(registered[j], protocol)
    {
      if Serves(registered[i], protocol) {
        return Some(registered[i]);
      }
    }
    return None;
  }

  // ── the loop's events ────────────────────────────────────────────────────

  datatype Pending = Pending(conns: map<Id, Meta>, streams: map<Id, Stream>,
                             requests: map<string, Local>, locals: map<Id, Local>)

  const NOTHING := Pending(map[], map[], map[], map[])

  datatype Event =
    | NewConnection(id: Id, client: string, protocol: Protocol)
    | StreamOpened(id: Id, stream: Stream)
    | DataDropped
    | LocalAccepted(request: string, local: Local)
    | P2pConnected(request: string, id: Id)

  datatype Started = Proxied(id: Id, meta: Meta, stream: Stream) | Bridged(id: Id, stream: Stream, local: Local)

  function OnNewConnection(p: Pending, registered: seq<Tunnel>, id: Id, client: string, protocol: Protocol)
    : (Pending, seq<Started>)
  {
    if id in p.locals then (p, []) else
      match Target(registered, protocol)
      case None => (p, [])
      case Some(tunnel) =>
        var meta := Meta(tunnel, protocol, client);
        if id in p.streams then (p.(streams := p.streams - {id}), [Proxied(id, meta, p.streams[id])])
        else (p.(conns := p.conns[id := meta]), [])
  }

  function OnStream(p: Pending, id: Id, stream: Stream): (Pending, seq<Started>) {
    if id in p.locals then (p.(locals := p.locals - {id}), [Bridged(id, stream, p.locals[id])])
    else if id in p.conns then (p.(conns := p.conns - {id}), [Proxied(id, p.conns[id], stream)])
    else (p.(streams := p.streams[id := stream]), [])
  }

  function OnP2pConnected(p: Pending, request: string, id: Id): (Pending, seq<Started>) {
    if request !in p.requests then (p, []) else
      var local, q := p.requests[request], p.(requests := p.requests - {request});
      if id in p.streams then (q.(streams := p.streams - {id}), [Bridged(id, p.streams[id], local)])
      else (q.(locals := p.locals[id := local]), [])
  }

  function Step(p: Pending, registered: seq<Tunnel>, event: Event): (Pending, seq<Started>) {
    match event
    case NewConnection(id, client, protocol) => OnNewConnection(p, registered, id, client, protocol)
    case StreamOpened(id, stream) => OnStream(p, id, stream)
    case DataDropped => (p.(conns := map[], streams := map[]), [])
    case LocalAccepted(request, local) => (p.(requests := p.requests[request := local]), [])
    case P2pConnected(request, id) => OnP2pConnected(p, request, id)
  }

  /** The maps of the client's main loop, updated event by event; each arm says which proxies it starts. */
  class MainLoop {
    var pendingConns: map<Id, Meta>
    var pendingStreams: map<Id, Stream>
    var p2pRequestToLocal: map<string, Local>
    var p2pLocalStreams: map<Id, Local>
    const registered: seq<Tunnel>

    function View(): Pending
      reads this
    {
      Pending(pendingConns, pendingStreams, p2pRequestToLocal, p2pLocalStreams)
    }

    constructor (registered: seq<Tunnel>)
      ensures View() == NOTHING && this.registered == registered
    {
      pendingConns, pendingStreams := map[], map[];
      p2pRequestToLocal, p2pLocalStreams := map[], map[];
      this.registered := registered;
    }

    method NewConnectionArm(id: Id, client: string, protocol: Protocol) returns (started: seq<Started>)
      modifies this
      ensures (View(), started) == Step(old(View()), registered, NewConnection(id, client, protocol))
    {
      if id in p2pLocalStreams {
        return [];
      }
      var target := FindLocalTarget(registered, protocol);
      if target.None? {
        return [];
      }
      var meta := Meta(target.value, protocol, client);
      if id in pendingStreams {
        started := [Proxied(id, meta, pendingStreams[id])];
        pendingStreams := pendingStreams - {id};
      } else {
        started := [];
        pendingConns := pendingConns[id := meta];
      }
    }

    method StreamArm(id: Id, stream: Stream) returns (started: seq<Started>)
      modifies this
      ensures (View(), started) == Step(old(View()), registered, StreamOpened(id, stream))
    {
      if id in p2pLocalStreams {
        started := [Bridged(id, stream, p2pLocalStreams[id])];
        p2pLocalStreams := p2pLocalStreams - {id};
      } else if id in pendingConns {
        started := [Proxied(id, pendingConns[id], stream)];
        pendingConns := pendingConns - {id};
      } else {
        started := [];
        pendingStreams := pendingStreams[id := stream];
      }
    }

    method DropArm()
      modifies this
      ensures View() == Step(old(View()), registered, DataDropped).0
    {
      pendingConns := map[];
      pendingStreams := map[];
    }

    method AcceptArm(request: string, local: Local)
      modifies this
      ensures View() == Step(old(View()), registered, LocalAccepted(request, local)).0
    {
      p2pRequestToLocal := p2pRequestToLocal[request := local];
    }

    method P2pConnectedArm(request: string, id: Id) returns (started: seq<Started>)
      modifies this
      ensures (View(), started) == Step(old(View()), registered, P2pConnected(request, id))
    {
      started := [];
      if request in p2pRequestToLocal {
        var local := p2pRequestToLocal[request];
        p2pRequestToLocal := p2pRequestToLocal - {request};
        if id in pendingStreams {
          started := [Bridged(id, pendingStreams[id], local)];
          pendingStreams := pendingStreams - {id};
        } else {
          p2pLocalStreams := p2pLocalStreams[id := local];
        }
      }
    }
  }

  // ── runs ─────────────────────────────────────────────────────────────────

  function After(p: Pending, registered: seq<Tunnel>, events: seq<Event>): Pending {
    if events == [] then p
    else Step(After(p, registered, events[..|events| - 1]), registered, events[|events| - 1]).0
  }

  /** The proxies started over a run for one connection id, in order. */
  function StartedFor(p: Pending, registered: seq<Tunnel>, events: seq<Event>, id: Id): seq<Started> {
    if events == [] then []
    else
      var before := events[..|events| - 1];
      StartedFor(p, registered, before, id)
      + For(Step(After(p, registered, before), registered, events[|events| - 1]).1, id)
  }

  function For(started: seq<Started>, id: Id): seq<Started> {
    if |started| == 1 && started[0].id == id then started else []
  }

  /** An id never waits both as a stream and on the other side: whoever comes second finds the first. */
  ghost predicate OneSideWaits(p: Pending) {
    forall id :: id in p.streams ==> id !in p.conns && id !in p.locals
  }

  lemma StepKeepsOneSide(p: Pending, registered: seq<Tunnel>, event: Event)
    requires OneSideWaits(p)
    ensures OneSideWaits(Step(p, registered, event).0)
  {
  }

  lemma {:induction false} RunKeepsOneSide(p: Pending, registered: seq<Tunnel>, events: seq<Event>)
    requires OneSideWaits(p)
    ensures OneSideWaits(After(p, registered, events))
    decreases |events|
  {
    if events != [] {
      var n := |events| - 1;
      RunKeepsOneSide(p, registered, events[..n]);
      StepKeepsOneSide(After(p, registered, events[..n]), registered, events[n]);
    }
  }

  /** The local connection that waits for a request: accepted for it, and not relayed since. */
  function HeldFor(events: seq<Event>, request: string): Option<Local> {
    if events == [] then None
    else
      var e := events[|events| - 1];
      if e.LocalAccepted? && e.request == request then Some(e.local)
      else if e.P2pConnected? && e.request == request then None
      else HeldFor(events[..|events| - 1], request)
  }

  /** In any run a relay takes the local connection accepted last for its request, and takes it once. */
  lemma {:induction false} RequestsAreExact(registered: seq<Tunnel>, events: seq<Event>, request: string)
    ensures var p := After(NOTHING, registered, events);
            HeldFor(events, request) == if request in p.requests then Some(p.requests[request]) else None
    decreases |events|
  {
    if events != [] {
      var n := |events| - 1;
      RequestsAreExact(registered, events[..n], request);
      StepRequests(After(NOTHING, registered, events[..n]), registered, events[n], request);
    }
  }

  lemma StepRequests(p: Pending, registered: seq<Tunnel>, e: Event, request: string)
    ensures var q := Step(p, registered, e).0;
            if e.LocalAccepted? && e.request == request then request in q.requests && q.requests[request] == e.local
            else if e.P2pConnected? && e.request == request then request !in q.requests
            else
              && (request in q.requests <==> request in p.requests)
              && (request in p.requests ==> q.requests[request] == p.requests[request])
  {
  }

  // ── what one id has been offered ─────────────────────────────────────────

  function Offer(registered: seq<Tunnel>, event: Event, id: Id): seq<Meta> {
    if event.NewConnection? && event.id == id && Target(registered, event.protocol).Some? then
      [Meta(Target(registered, event.protocol).value, event.protocol, event.client)]
    else []
  }

  function Arrival(event: Event, id: Id): seq<Stream> {
    if event.StreamOpened? && event.id == id then [event.stream] else []
  }

  /** The connections with a local target that were announced for the id. */
  function Offers(registered: seq<Tunnel>, events: seq<Event>, id: Id): seq<Meta> {
    if events == [] then []
    else Offers(registered, events[..|events| - 1], id) + Offer(registered, events[|events| - 1], id)
  }

  function Arrivals(events: seq<Event>, id: Id): seq<Stream> {
    if events == [] then []
    else Arrivals(events[..|events| - 1], id) + Arrival(events[|events| - 1], id)
  }

  /** Neither a drop of the data socket nor a peer-to-peer relay for the id. */
  predicate Plain(events: seq<Event>, id: Id) {
    forall e :: e in events ==> !e.DataDropped? && !(e.P2pConnected? && e.id == id)
  }

  /** At most one announcement and at most one stream for the id, and the run is plain. */
  predicate Once(registered: seq<Tunnel>, events: seq<Event>, id: Id) {
    Plain(events, id) && |Offers(registered, events, id)| <= 1 && |Arrivals(events, id)| <= 1
  }

  /** The frames and streams that concern the id. */
  function Seen(events: seq<Event>, id: Id): set<Event> {
    set e | e in events && (e.NewConnection? || e.StreamOpened?) && e.id == id
  }

  predicate Unknown(p: Pending, id: Id) {
    id !in p.conns && id !in p.streams && id !in p.locals
  }

  /** What is left of one id: who waits, and what was started. */
  datatype Fate = Fate(conn: seq<Meta>, stream: seq<Stream>, started: seq<Started>)

  function Waiting(p: Pending, id: Id, started: seq<Started>): Fate {
    Fate(if id in p.conns then [p.conns[id]] else [], if id in p.streams then [p.streams[id]] else [], started)
  }

  /** The rendezvous as it should be: a pair starts one proxy, half a pair waits in its own map. */
  function Met(id: Id, offers: seq<Meta>, arrivals: seq<Stream>): Fate {
    if |offers| == 1 && |arrivals| == 1 then Fate([], [], [Proxied(id, offers[0], arrivals[0])])
    else Fate(offers, arrivals, [])
  }

  lemma AnnouncementMeets(p: Pending, registered: seq<Tunnel>, event: Event, id: Id, arrivals: seq<Stream>)
    requires event.NewConnection? && event.id == id && Offer(registered, event, id) != []
    requires id !in p.locals && Waiting(p, id, []) == Met(id, [], arrivals) && |arrivals| <= 1
    ensures var (q, more) := OnNewConnection(p, registered, id, event.client, event.protocol);
            && id !in q.locals
            && Waiting(q, id, For(more, id)) == Met(id, Offer(registered, event, id), arrivals)
  {
  }

  lemma ArrivalMeets(p: Pending, id: Id, stream: Stream, offers: seq<Meta>)
    requires id !in p.locals && Waiting(p, id, []) == Met(id, offers, []) && |offers| <= 1
    ensures var (q, more) := OnStream(p, id, stream);
            && id !in q.locals
            && Waiting(q, id, For(more, id)) == Met(id, offers, [stream])
  {
  }

  lemma OthersDoNotMeet(p: Pending, registered: seq<Tunnel>, event: Event, id: Id)
    requires !event.DataDropped? && !(event.P2pConnected? && event.id == id) && id !in p.locals
    requires Offer(registered, event, id) == [] && Arrival(event, id) == []
    ensures var (q, more) := Step(p, registered, event);
            && id !in q.locals && For(more, id) == []
            && Waiting(q, id, []) == Waiting(p, id, [])
  {
  }

  lemma StepMeets(p: Pending, registered: seq<Tunnel>, event: Event, id: Id,
                  offers: seq<Meta>, arrivals: seq<Stream>, started: seq<Started>)
    requires !event.DataDropped? && !(event.P2pConnected? && event.id == id)
    requires id !in p.locals && Waiting(p, id, started) == Met(id, offers, arrivals)
    requires |offers + Offer(registered, event, id)| <= 1 && |arrivals + Arrival(event, id)| <= 1
    ensures var (q, more) := Step(p, registered, event);
            && id !in q.locals
            && Waiting(q, id, started + For(more, id))
               == Met(id, offers + Offer(registered, event, id), arrivals + Arrival(event, id))
  {
    var more := Step(p, registered, event).1;
    if Offer(registered, event, id) != [] {
      assert offers == [] && started == [];
      AnnouncementMeets(p, registered, event, id, arrivals);
    } else if Arrival(event, id) != [] {
      assert arrivals == [] && started == [];
      ArrivalMeets(p, id, event.stream, offers);
    } else {
      OthersDoNotMeet(p, registered, event, id);
      assert started + For(more, id) == started;
    }
  }

  /**
   The rendezvous theorem. From any state that does not know the id, with at most one announcement
   and at most one stream for it and whatever happens to other ids in between: if both came, they are
   proxied together exactly once and nothing waits; if one came, it waits in its own map.
   */
  lemma {:induction false} MeetsExactlyOnce(p: Pending, registered: seq<Tunnel>, events: seq<Event>, id: Id)
    requires Unknown(p, id) && Once(registered, events, id)
    ensures id !in After(p, registered, events).locals
    ensures Waiting(After(p, registered, events), id, StartedFor(p, registered, events, id))
         == Met(id, Offers(registered, events, id), Arrivals(events, id))
    decreases |events|
  {
    if events != [] {
      var n := |events| - 1;
      var before, event := events[..n], events[n];
      assert Plain(before, id) && event in events;
      MeetsExactlyOnce(p, registered, before, id);
      StepMeets(After(p, registered, before), registered, event, id,
                Offers(registered, before, id), Arrivals(before, id), StartedFor(p, registered, before, id));
    }
  }

  lemma {:induction false} OffersIn(registered: seq<Tunnel>, events: seq<Event>, id: Id, meta: Meta)
    ensures meta in Offers(registered, events, id)
       <==> Target(registered, meta.protocol) == Some(meta.tunnel)
            && NewConnection(id, meta.client, meta.protocol) in events
    decreases |events|
  {
    if events != [] {
      var n := |events| - 1;
      OffersIn(registered, events[..n], id, meta);
      assert events == events[..n] + [events[n]];
    }
  }

  lemma {:induction false} ArrivalsIn(events: seq<Event>, id: Id, stream: Stream)
    ensures stream in Arrivals(events, id) <==> StreamOpened(id, stream) in events
    decreases |events|
  {
    if events != [] {
      var n := |events| - 1;
      ArrivalsIn(events[..n], id, stream);
      assert events == events[..n] + [events[n]];
    }
  }

  lemma SameSmallSeq<T>(a: seq<T>, b: seq<T>)
    requires |a| <= 1 && |b| <= 1 && forall x :: x in a <==> x in b
    ensures a == b
  {
    assert a != [] ==> a[0] in b;
    assert b != [] ==> b[0] in a;
  }

  /** Confluence: two runs that show the id the same frames and streams, in any order, treat it alike. */
  lemma InterleavingDoesNotMatter(p: Pending, registered: seq<Tunnel>, a: seq<Event>, b: seq<Event>, id: Id)
    requires Unknown(p, id) && Once(registered, a, id) && Once(registered, b, id)
    requires Seen(a, id) == Seen(b, id)
    ensures Waiting(After(p, registered, a), id, StartedFor(p, registered, a, id))
         == Waiting(After(p, registered, b), id, StartedFor(p, registered, b, id))
  {
    MeetsExactlyOnce(p, registered, a, id);
    MeetsExactlyOnce(p, registered, b, id);
    forall meta ensures meta in Offers(registered, a, id) <==> meta in Offers(registered, b, id) {
      OffersIn(registered, a, id, meta);
      OffersIn(registered, b, id, meta);
      var e := NewConnection(id, meta.client, meta.protocol);
      assert e in Seen(a, id) <==> e in a;
      assert e in Seen(b, id) <==> e in b;
    }
    SameSmallSeq(Offers(registered, a, id), Offers(registered, b, id));
    forall stream ensures stream in Arrivals(a, id) <==> stream in Arrivals(b, id) {
      ArrivalsIn(a, id, stream);
      ArrivalsIn(b, id, stream);
      var e := StreamOpened(id, stream);
      assert e in Seen(a, id) <==> e in a;
      assert e in Seen(b, id) <==> e in b;
    }
    SameSmallSeq(Arrivals(a, id), Arrivals(b, id));
  }

  lemma {:induction false} NoRelay(registered: seq<Tunnel>, events: seq<Event>, id: Id)
    requires forall e :: e in events ==> !(e.P2pConnected? && e.id == id)
    ensures id !in After(NOTHING, registered, events).locals
    decreases |events|
  {
    if events != [] {
      var n := |events| - 1;
      assert events[n] in events;
      NoRelay(registered, events[..n], id);
    }
  }

  /** With drops of the data socket: only what came since the last one can meet. */
  lemma MeetsSinceTheLastDrop(registered: seq<Tunnel>, before: seq<Event>, events: seq<Event>, id: Id)
    requires forall e :: e in before ==> !(e.P2pConnected? && e.id == id)
    requires Once(registered, events, id)
    ensures var p := After(NOTHING, registered, before + [DataDropped]);
            Waiting(After(p, registered, events), id, StartedFor(p, registered, events, id))
            == Met(id, Offers(registered, events, id), Arrivals(events, id))
  {
    NoRelay(registered, before, id);
    assert (before + [DataDropped])[..|before|] == before;
    MeetsExactlyOnce(After(NOTHING, registered, before + [DataDropped]), registered, events, id);
  }
}
