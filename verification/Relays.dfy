/**
 The rendezvous of ids that a peer-to-peer relay uses: the local connection was accepted first, and the
 stream for it must be bridged to it. Whether that happens in every order depends on the announcement.
 */
module Relays {
  import opened Basics
  import opened Rendezvous

  // ── what one id has been given ───────────────────────────────────────────

  /** The local connection that a relay announcement hands to the id, if its request is known. */
  function Link(p: Pending, event: Event, id: Id): seq<Local> {
    if event.P2pConnected? && event.id == id && event.request in p.requests then [p.requests[event.request]] else []
  }

  function Links(p: Pending, registered: seq<Tunnel>, events: seq<Event>, id: Id): seq<Local> {
    if events == [] then []
    else
      var before := events[..|events| - 1];
      Links(p, registered, before, id) + Link(After(p, registered, before), events[|events| - 1], id)
  }

  /** What is left of a relayed id: who waits, and what was started. */
  datatype RelayFate = RelayFate(conn: seq<Meta>, stream: seq<Stream>, local: seq<Local>, started: seq<Started>)

  function Left(p: Pending, id: Id, started: seq<Started>): RelayFate {
    RelayFate(if id in p.conns then [p.conns[id]] else [], if id in p.streams then [p.streams[id]] else [],
              if id in p.locals then [p.locals[id]] else [], started)
  }

  /** The relay as it should be: a pair is bridged once, half a pair waits in its own map. */
  function Linked(id: Id, arrivals: seq<Stream>, links: seq<Local>): RelayFate {
    if |arrivals| == 1 && |links| == 1 then RelayFate([], [], [], [Bridged(id, arrivals[0], links[0])])
    else RelayFate([], arrivals, links, [])
  }

  // ── without a local target ───────────────────────────────────────────────

  lemma LinkMeets(p: Pending, registered: seq<Tunnel>, event: Event, id: Id, arrivals: seq<Stream>)
    requires Link(p, event, id) != [] && |arrivals| <= 1
    requires Left(p, id, []) == Linked(id, arrivals, [])
    ensures var (q, more) := Step(p, registered, event);
            Left(q, id, For(more, id)) == Linked(id, arrivals, Link(p, event, id))
  {
  }

  lemma StreamMeets(p: Pending, id: Id, stream: Stream, links: seq<Local>)
    requires |links| <= 1 && Left(p, id, []) == Linked(id, [], links)
    ensures var (q, more) := OnStream(p, id, stream);
            Left(q, id, For(more, id)) == Linked(id, [stream], links)
  {
  }

  lemma NothingMeets(p: Pending, registered: seq<Tunnel>, event: Event, id: Id)
    requires !event.DataDropped? && Offer(registered, event, id) == []
    requires Arrival(event, id) == [] && Link(p, event, id) == []
    ensures var (q, more) := Step(p, registered, event);
            For(more, id) == [] && Left(q, id, []) == Left(p, id, [])
  {
  }

  lemma StepLinks(p: Pending, registered: seq<Tunnel>, event: Event, id: Id,
                  arrivals: seq<Stream>, links: seq<Local>, started: seq<Started>)
    requires !event.DataDropped? && Offer(registered, event, id) == []
    requires Left(p, id, started) == Linked(id, arrivals, links)
    requires |arrivals + Arrival(event, id)| <= 1 && |links + Link(p, event, id)| <= 1
    ensures var (q, more) := Step(p, registered, event);
            Left(q, id, started + For(more, id))
            == Linked(id, arrivals + Arrival(event, id), links + Link(p, event, id))
  {
    var more := Step(p, registered, event).1;
    if Link(p, event, id) != [] {
      assert links == [] && started == [];
      LinkMeets(p, registered, event, id, arrivals);
    } else if Arrival(event, id) != [] {
      assert arrivals == [] && started == [];
      StreamMeets(p, id, event.stream, links);
    } else {
      NothingMeets(p, registered, event, id);
      assert started + For(more, id) == started;
    }
  }

  /** No announcement with a local target, and at most one stream and one known relay for the id. */
  predicate Relayed(p: Pending, registered: seq<Tunnel>, events: seq<Event>, id: Id) {
    && DataDropped !in events && Offers(registered, events, id) == []
    && |Arrivals(events, id)| <= 1 && |Links(p, registered, events, id)| <= 1
  }

  /**
   The relay theorem. From any state that does not know the id, in any run that announces no local
   target for it: if its stream and its local connection both came, in either order, they are bridged
   exactly once and nothing waits; if one came, it waits in its own map.
   */
  lemma {:induction false} BridgesExactlyOnce(p: Pending, registered: seq<Tunnel>, events: seq<Event>, id: Id)
    requires Unknown(p, id) && Relayed(p, registered, events, id)
    ensures Left(After(p, registered, events), id, StartedFor(p, registered, events, id))
         == Linked(id, Arrivals(events, id), Links(p, registered, events, id))
    decreases |events|
  {
    if events != [] {
      var n := |events| - 1;
      var before, event := events[..n], events[n];
      assert DataDropped !in before && event in events;
      BridgesExactlyOnce(p, registered, before, id);
      StepLinks(After(p, registered, before), registered, event, id, Arrivals(before, id),
                Links(p, registered, before, id), StartedFor(p, registered, before, id));
    }
  }

  /** Nothing that takes or replaces the local connection of the id: no stream and no further relay for it. */
  predicate LeftAlone(events: seq<Event>, id: Id) {
    forall e :: e in events ==> !(e.StreamOpened? && e.id == id) && !(e.P2pConnected? && e.id == id)
  }

  /** A local connection that waits for its stream waits through drops of the data socket and all else. */
  lemma {:induction false} LocalsWait(p: Pending, registered: seq<Tunnel>, events: seq<Event>, id: Id)
    requires id in p.locals && LeftAlone(events, id)
    ensures var q := After(p, registered, events); id in q.locals && q.locals[id] == p.locals[id]
    decreases |events|
  {
    if events != [] {
      var n := |events| - 1;
      assert LeftAlone(events[..n], id) && events[n] in events;
      LocalsWait(p, registered, events[..n], id);
      LocalWaits(After(p, registered, events[..n]), registered, events[n], id);
    }
  }

  lemma LocalWaits(p: Pending, registered: seq<Tunnel>, e: Event, id: Id)
    requires id in p.locals && !(e.StreamOpened? && e.id == id) && !(e.P2pConnected? && e.id == id)
    ensures var q := Step(p, registered, e).0; id in q.locals && q.locals[id] == p.locals[id]
  {
  }

  // ── every order, and when the order matters ──────────────────────────────

  /** The three events, which are of different kinds, once each. */
  predicate InSomeOrder(events: seq<Event>, x: Event, y: Event, z: Event) {
    |events| == 3 && x in events && y in events && z in events
  }

  lemma SixOrders(events: seq<Event>, x: Event, y: Event, z: Event)
    requires InSomeOrder(events, x, y, z) && x != y && y != z && x != z
    ensures events == [x, y, z] || events == [x, z, y] || events == [y, x, z]
         || events == [y, z, x] || events == [z, x, y] || events == [z, y, x]
  {
    assert events == [events[0], events[1], events[2]];
  }

  lemma ThreeSteps(p: Pending, registered: seq<Tunnel>, x: Event, y: Event, z: Event, id: Id)
    ensures var (q, one) := Step(p, registered, x);
            var (r, two) := Step(q, registered, y);
            var (s, three) := Step(r, registered, z);
            && After(p, registered, [x, y, z]) == s
            && StartedFor(p, registered, [x, y, z], id) == For(one, id) + For(two, id) + For(three, id)
  {
    assert [x, y, z][..2] == [x, y] && [x, y][..1] == [x] && [x][..0] == [];
    assert After(p, registered, []) == p && StartedFor(p, registered, [], id) == [];
    assert After(p, registered, [x]) == Step(p, registered, x).0;
    assert StartedFor(p, registered, [x], id) == For(Step(p, registered, x).1, id);
    assert After(p, registered, [x, y]) == Step(After(p, registered, [x]), registered, y).0;
  }

  function FateOf(p: Pending, registered: seq<Tunnel>, events: seq<Event>, id: Id): RelayFate {
    Left(After(p, registered, events), id, StartedFor(p, registered, events, id))
  }

  /** The three events of a relayed connection have one outcome, whatever their order. */
  ghost predicate OrderDoesNotMatter(p: Pending, registered: seq<Tunnel>, x: Event, y: Event, z: Event, id: Id) {
    forall a, b :: InSomeOrder(a, x, y, z) && InSomeOrder(b, x, y, z) ==>
      FateOf(p, registered, a, id) == FateOf(p, registered, b, id)
  }

  /** Three events that offer no local target bridge the stream and the local connection among them. */
  lemma ThreeBridge(p: Pending, registered: seq<Tunnel>, id: Id, a: Event, b: Event, c: Event)
    requires Unknown(p, id) && Relayed(p, registered, [a, b, c], id)
    requires |Arrivals([a, b, c], id)| == 1 && |Links(p, registered, [a, b, c], id)| == 1
    ensures FateOf(p, registered, [a, b, c], id)
         == RelayFate([], [], [], [Bridged(id, Arrivals([a, b, c], id)[0], Links(p, registered, [a, b, c], id)[0])])
  {
    BridgesExactlyOnce(p, registered, [a, b, c], id);
  }

  lemma ThreeGive(p: Pending, registered: seq<Tunnel>, id: Id, a: Event, b: Event, c: Event)
    ensures Offers(registered, [a, b, c], id)
         == Offer(registered, a, id) + Offer(registered, b, id) + Offer(registered, c, id)
    ensures Arrivals([a, b, c], id) == Arrival(a, id) + Arrival(b, id) + Arrival(c, id)
    ensures var q := Step(p, registered, a).0;
            Links(p, registered, [a, b, c], id)
            == Link(p, a, id) + Link(q, b, id) + Link(Step(q, registered, b).0, c, id)
  {
    assert [a, b, c][..2] == [a, b] && [a, b][..1] == [a] && [a][..0] == [];
    assert After(p, registered, [a]) == Step(p, registered, a).0;
    assert After(p, registered, [a, b]) == Step(After(p, registered, [a]), registered, b).0;
    assert Offers(registered, [a], id) == Offer(registered, a, id);
    assert Arrivals([a], id) == Arrival(a, id);
    assert Links(p, registered, [a], id) == Link(p, a, id);
    assert Links(p, registered, [a, b], id) == Link(p, a, id) + Link(Step(p, registered, a).0, b, id);
  }

  /** Announcements and streams leave the requests alone. */
  lemma RequestsStay(p: Pending, registered: seq<Tunnel>, event: Event)
    requires event.NewConnection? || event.StreamOpened?
    ensures Step(p, registered, event).0.requests == p.requests
  {
  }

  lemma PickOne<T>(u: seq<T>, v: seq<T>, w: seq<T>, x: T)
    requires (u == [x] && v == [] && w == []) || (u == [] && v == [x] && w == []) || (u == [] && v == [] && w == [x])
    ensures u + v + w == [x]
  {
  }

  /** The relay is among the three, and is the only one. */
  predicate OnlyRelay(a: Event, b: Event, c: Event, relay: Event) {
    || (a == relay && !b.P2pConnected? && !c.P2pConnected?)
    || (b == relay && !a.P2pConnected? && !c.P2pConnected?)
    || (c == relay && !a.P2pConnected? && !b.P2pConnected?)
  }

  predicate OnlyStream(a: Event, b: Event, c: Event, arrival: Event) {
    || (a == arrival && !b.StreamOpened? && !c.StreamOpened?)
    || (b == arrival && !a.StreamOpened? && !c.StreamOpened?)
    || (c == arrival && !a.StreamOpened? && !b.StreamOpened?)
  }

  lemma OneLink(p: Pending, registered: seq<Tunnel>, id: Id, a: Event, b: Event, c: Event, request: string)
    requires request in p.requests
    requires OnlyRelay(a, b, c, P2pConnected(request, id))
    requires (a.P2pConnected? || a.NewConnection? || a.StreamOpened?)
             && (b.P2pConnected? || b.NewConnection? || b.StreamOpened?)
    ensures Links(p, registered, [a, b, c], id) == [p.requests[request]]
  {
    ThreeGive(p, registered, id, a, b, c);
    var q := Step(p, registered, a).0;
    if !a.P2pConnected? {
      RequestsStay(p, registered, a);
      if !b.P2pConnected? {
        RequestsStay(q, registered, b);
      }
    }
    PickOne(Link(p, a, id), Link(q, b, id), Link(Step(q, registered, b).0, c, id), p.requests[request]);
  }

  lemma OneStream(p: Pending, registered: seq<Tunnel>, id: Id, a: Event, b: Event, c: Event, stream: Stream)
    requires OnlyStream(a, b, c, StreamOpened(id, stream))
    ensures Arrivals([a, b, c], id) == [stream]
  {
    ThreeGive(p, registered, id, a, b, c);
    PickOne(Arrival(a, id), Arrival(b, id), Arrival(c, id), stream);
  }

  lemma NoOffer(p: Pending, registered: seq<Tunnel>, id: Id, a: Event, b: Event, c: Event)
    requires Offer(registered, a, id) == [] && Offer(registered, b, id) == [] && Offer(registered, c, id) == []
    ensures Offers(registered, [a, b, c], id) == []
  {
    ThreeGive(p, registered, id, a, b, c);
  }

  lemma EveryOrderBridges(p: Pending, registered: seq<Tunnel>, id: Id, client: string, protocol: Protocol,
                          stream: Stream, request: string, events: seq<Event>)
    requires Unknown(p, id) && request in p.requests && Target(registered, protocol).None?
    requires InSomeOrder(events, NewConnection(id, client, protocol), StreamOpened(id, stream),
                         P2pConnected(request, id))
    ensures FateOf(p, registered, events, id) == RelayFate([], [], [], [Bridged(id, stream, p.requests[request])])
  {
    SixOrders(events, NewConnection(id, client, protocol), StreamOpened(id, stream), P2pConnected(request, id));
    ThreeMeet(p, registered, id, events[0], events[1], events[2], stream, request);
    assert events == [events[0], events[1], events[2]];
  }

  lemma ThreeMeet(p: Pending, registered: seq<Tunnel>, id: Id, a: Event, b: Event, c: Event, stream: Stream,
                  request: string)
    requires Unknown(p, id) && request in p.requests
    requires OnlyRelay(a, b, c, P2pConnected(request, id)) && OnlyStream(a, b, c, StreamOpened(id, stream))
    requires Offer(registered, a, id) == [] && Offer(registered, b, id) == [] && Offer(registered, c, id) == []
    requires forall e :: e in {a, b, c} ==> e.P2pConnected? || e.NewConnection? || e.StreamOpened?
    ensures FateOf(p, registered, [a, b, c], id) == RelayFate([], [], [], [Bridged(id, stream, p.requests[request])])
  {
    OneLink(p, registered, id, a, b, c, request);
    OneStream(p, registered, id, a, b, c, stream);
    NoOffer(p, registered, id, a, b, c);
    OneOfEach(p, registered, id, [a, b, c], stream, p.requests[request]);
  }

  lemma OneOfEach(p: Pending, registered: seq<Tunnel>, id: Id, events: seq<Event>, stream: Stream, local: Local)
    requires Unknown(p, id) && DataDropped !in events && Offers(registered, events, id) == []
    requires Arrivals(events, id) == [stream] && Links(p, registered, events, id) == [local]
    ensures FateOf(p, registered, events, id) == RelayFate([], [], [], [Bridged(id, stream, local)])
  {
    BridgesExactlyOnce(p, registered, events, id);
  }

  lemma RelayFirst(p: Pending, registered: seq<Tunnel>, id: Id, client: string, protocol: Protocol,
                   stream: Stream, request: string)
    requires Unknown(p, id) && request in p.requests
    ensures FateOf(p, registered,
                   [P2pConnected(request, id), NewConnection(id, client, protocol), StreamOpened(id, stream)], id)
         == RelayFate([], [], [], [Bridged(id, stream, p.requests[request])])
  {
    ThreeSteps(p, registered, P2pConnected(request, id), NewConnection(id, client, protocol),
               StreamOpened(id, stream), id);
  }

  /** The relay comes last: the stream has gone to the local target, and the local connection waits for good. */
  lemma RelayLast(p: Pending, registered: seq<Tunnel>, id: Id, client: string, protocol: Protocol,
                  stream: Stream, request: string)
    requires Unknown(p, id) && request in p.requests && Target(registered, protocol).Some?
    ensures FateOf(p, registered,
                   [NewConnection(id, client, protocol), StreamOpened(id, stream), P2pConnected(request, id)], id)
         == RelayFate([], [], [p.requests[request]],
                      [Proxied(id, Meta(Target(registered, protocol).value, protocol, client), stream)])
  {
    ThreeSteps(p, registered, NewConnection(id, client, protocol), StreamOpened(id, stream),
               P2pConnected(request, id), id);
  }

  /**
   For an id with one announcement, one stream and one relay of a known request, the outcome is the
   same in every order if and only if no registered tunnel serves the announced protocol.
   */
  lemma RelayOrderMatters(p: Pending, registered: seq<Tunnel>, id: Id, client: string, protocol: Protocol,
                          stream: Stream, request: string)
    requires Unknown(p, id) && request in p.requests
    ensures OrderDoesNotMatter(p, registered, NewConnection(id, client, protocol), StreamOpened(id, stream),
                               P2pConnected(request, id), id)
       <==> Target(registered, protocol).None?
  {
    if Target(registered, protocol).None? {
      OrdersAgree(p, registered, id, client, protocol, stream, request);
    } else {
      OrdersDiffer(p, registered, id, client, protocol, stream, request);
    }
  }

  lemma OrdersAgree(p: Pending, registered: seq<Tunnel>, id: Id, client: string, protocol: Protocol,
                    stream: Stream, request: string)
    requires Unknown(p, id) && request in p.requests && Target(registered, protocol).None?
    ensures OrderDoesNotMatter(p, registered, NewConnection(id, client, protocol), StreamOpened(id, stream),
                               P2pConnected(request, id), id)
  {
    var x, y, z := NewConnection(id, client, protocol), StreamOpened(id, stream), P2pConnected(request, id);
    forall a, b | InSomeOrder(a, x, y, z) && InSomeOrder(b, x, y, z)
      ensures FateOf(p, registered, a, id) == FateOf(p, registered, b, id)
    {
      EveryOrderBridges(p, registered, id, client, protocol, stream, request, a);
      EveryOrderBridges(p, registered, id, client, protocol, stream, request, b);
    }
  }

  lemma OrdersDiffer(p: Pending, registered: seq<Tunnel>, id: Id, client: string, protocol: Protocol,
                     stream: Stream, request: string)
    requires Unknown(p, id) && request in p.requests && Target(registered, protocol).Some?
    ensures !OrderDoesNotMatter(p, registered, NewConnection(id, client, protocol), StreamOpened(id, stream),
                                P2pConnected(request, id), id)
  {
    var x, y, z := NewConnection(id, client, protocol), StreamOpened(id, stream), P2pConnected(request, id);
    RelayFirst(p, registered, id, client, protocol, stream, request);
    RelayLast(p, registered, id, client, protocol, stream, request);
    Rotated(x, y, z);
    assert FateOf(p, registered, [z, x, y], id).local != FateOf(p, registered, [x, y, z], id).local;
  }

  lemma Rotated(x: Event, y: Event, z: Event)
    ensures InSomeOrder([z, x, y], x, y, z) && InSomeOrder([x, y, z], x, y, z)
  {
  }

  // ── among the events of other ids ────────────────────────────────────────

  /** The announcements, streams and relays of the id. */
  predicate Own(event: Event, id: Id) {
    (event.NewConnection? || event.StreamOpened? || event.P2pConnected?) && event.id == id
  }

  function Mine(events: seq<Event>, id: Id): seq<Event> {
    if events == [] then []
    else Mine(events[..|events| - 1], id) + if Own(events[|events| - 1], id) then [events[|events| - 1]] else []
  }

  /** The data socket stays up, and no other event touches a request that a relay of the id names. */
  predicate Apart(events: seq<Event>, id: Id) {
    && DataDropped !in events
    && forall e :: e in events && (e.LocalAccepted? || (e.P2pConnected? && e.id != id)) ==>
         P2pConnected(e.request, id) !in events
  }

  /** Two states that are the same to the id and to its relays among `all`. */
  ghost predicate Agree(p: Pending, q: Pending, id: Id, all: seq<Event>) {
    && Left(p, id, []) == Left(q, id, [])
    && (forall r :: P2pConnected(r, id) in all ==> (r in p.requests <==> r in q.requests))
    && (forall r :: P2pConnected(r, id) in all && r in p.requests && r in q.requests ==> p.requests[r] == q.requests[r])
  }

  lemma OwnAnnouncement(p: Pending, q: Pending, registered: seq<Tunnel>, event: Event, id: Id, all: seq<Event>)
    requires Agree(p, q, id, all) && event.NewConnection? && event.id == id && event in all
    ensures Agree(Step(p, registered, event).0, Step(q, registered, event).0, id, all)
    ensures For(Step(p, registered, event).1, id) == For(Step(q, registered, event).1, id)
  {
    SameHoldings(p, q, id);
  }

  lemma OwnStream(p: Pending, q: Pending, registered: seq<Tunnel>, event: Event, id: Id, all: seq<Event>)
    requires Agree(p, q, id, all) && event.StreamOpened? && event.id == id && event in all
    ensures Agree(Step(p, registered, event).0, Step(q, registered, event).0, id, all)
    ensures For(Step(p, registered, event).1, id) == For(Step(q, registered, event).1, id)
  {
    SameHoldings(p, q, id);
  }

  lemma OwnRelay(p: Pending, q: Pending, registered: seq<Tunnel>, event: Event, id: Id, all: seq<Event>)
    requires Agree(p, q, id, all) && event.P2pConnected? && event.id == id && event in all
    ensures Agree(Step(p, registered, event).0, Step(q, registered, event).0, id, all)
    ensures For(Step(p, registered, event).1, id) == For(Step(q, registered, event).1, id)
  {
    SameHoldings(p, q, id);
  }

  lemma OwnStep(p: Pending, q: Pending, registered: seq<Tunnel>, event: Event, id: Id, all: seq<Event>)
    requires Agree(p, q, id, all) && Own(event, id) && event in all
    ensures Agree(Step(p, registered, event).0, Step(q, registered, event).0, id, all)
    ensures For(Step(p, registered, event).1, id) == For(Step(q, registered, event).1, id)
  {
    if event.NewConnection? {
      OwnAnnouncement(p, q, registered, event, id, all);
    } else if event.StreamOpened? {
      OwnStream(p, q, registered, event, id, all);
    } else {
      OwnRelay(p, q, registered, event, id, all);
    }
  }

  lemma SameHoldings(p: Pending, q: Pending, id: Id)
    requires Left(p, id, []) == Left(q, id, [])
    ensures id in p.conns <==> id in q.conns
    ensures id in p.streams <==> id in q.streams
    ensures id in p.locals <==> id in q.locals
    ensures id in p.conns && id in q.conns ==> p.conns[id] == q.conns[id]
    ensures id in p.streams && id in q.streams ==> p.streams[id] == q.streams[id]
    ensures id in p.locals && id in q.locals ==> p.locals[id] == q.locals[id]
  {
    assert id in p.conns ==> Left(p, id, []).conn[0] == p.conns[id];
    assert id in q.conns ==> Left(q, id, []).conn[0] == q.conns[id];
    assert id in p.streams ==> Left(p, id, []).stream[0] == p.streams[id];
    assert id in q.streams ==> Left(q, id, []).stream[0] == q.streams[id];
    assert id in p.locals ==> Left(p, id, []).local[0] == p.locals[id];
    assert id in q.locals ==> Left(q, id, []).local[0] == q.locals[id];
  }

  lemma OtherRequests(p: Pending, q: Pending, registered: seq<Tunnel>, event: Event, id: Id, all: seq<Event>)
    requires Agree(p, q, id, all) && (event.LocalAccepted? || (event.P2pConnected? && event.id != id))
    requires P2pConnected(event.request, id) !in all
    ensures Agree(Step(p, registered, event).0, q, id, all)
    ensures For(Step(p, registered, event).1, id) == []
  {
  }

  lemma OtherConnections(p: Pending, q: Pending, registered: seq<Tunnel>, event: Event, id: Id, all: seq<Event>)
    requires Agree(p, q, id, all) && (event.NewConnection? || event.StreamOpened?) && event.id != id
    ensures Agree(Step(p, registered, event).0, q, id, all)
    ensures For(Step(p, registered, event).1, id) == []
  {
  }

  lemma OtherStep(p: Pending, q: Pending, registered: seq<Tunnel>, event: Event, id: Id, all: seq<Event>)
    requires Agree(p, q, id, all) && !Own(event, id) && event in all && Apart(all, id)
    ensures Agree(Step(p, registered, event).0, q, id, all)
    ensures For(Step(p, registered, event).1, id) == []
  {
    if event.LocalAccepted? || event.P2pConnected? {
      OtherRequests(p, q, registered, event, id, all);
    } else {
      OtherConnections(p, q, registered, event, id, all);
    }
  }

  lemma {:induction false} Projects(p: Pending, registered: seq<Tunnel>, events: seq<Event>, id: Id, all: seq<Event>)
    requires Apart(all, id) && forall e :: e in events ==> e in all
    ensures Agree(After(p, registered, events), After(p, registered, Mine(events, id)), id, all)
    ensures StartedFor(p, registered, events, id) == StartedFor(p, registered, Mine(events, id), id)
    decreases |events|
  {
    if events != [] {
      var n := |events| - 1;
      var before, event := events[..n], events[n];
      var mine := Mine(before, id);
      Projects(p, registered, before, id, all);
      var a, b := After(p, registered, before), After(p, registered, mine);
      if Own(event, id) {
        assert (mine + [event])[..|mine|] == mine;
        OwnStep(a, b, registered, event, id, all);
      } else {
        assert mine + [] == mine;
        OtherStep(a, b, registered, event, id, all);
        assert StartedFor(p, registered, before, id) + [] == StartedFor(p, registered, before, id);
      }
    }
  }

  /** What becomes of an id in any run depends only on its own events, in their order. */
  lemma OnlyItsOwnEventsMatter(p: Pending, registered: seq<Tunnel>, events: seq<Event>, id: Id)
    requires Apart(events, id)
    ensures FateOf(p, registered, events, id) == FateOf(p, registered, Mine(events, id), id)
  {
    Projects(p, registered, events, id, events);
  }

  /** In all runs in which these are the id's events, once each, they have one outcome. */
  ghost predicate RunsAgree(p: Pending, registered: seq<Tunnel>, x: Event, y: Event, z: Event, id: Id) {
    forall a, b ::
      && Apart(a, id) && InSomeOrder(Mine(a, id), x, y, z)
      && Apart(b, id) && InSomeOrder(Mine(b, id), x, y, z) ==>
        FateOf(p, registered, a, id) == FateOf(p, registered, b, id)
  }

  lemma {:induction false} AllMine(events: seq<Event>, id: Id)
    requires forall e :: e in events ==> Own(e, id)
    ensures Mine(events, id) == events
    decreases |events|
  {
    if events != [] {
      var n := |events| - 1;
      AllMine(events[..n], id);
      assert events[n] in events && events == events[..n] + [events[n]];
    }
  }

  lemma OwnIsApart(events: seq<Event>, id: Id)
    requires forall e :: e in events ==> Own(e, id)
    ensures Apart(events, id)
  {
  }

  /**
   For an id with one announcement, one stream and one relay of a known request, in any run and among
   any events of other ids, the outcome is the same in every order if and only if no registered tunnel
   serves the announced protocol.
   */
  lemma RelayOrderMattersInRuns(p: Pending, registered: seq<Tunnel>, id: Id, client: string, protocol: Protocol,
                                stream: Stream, request: string)
    requires Unknown(p, id) && request in p.requests
    ensures RunsAgree(p, registered, NewConnection(id, client, protocol), StreamOpened(id, stream),
                      P2pConnected(request, id), id)
       <==> Target(registered, protocol).None?
  {
    var x, y, z := NewConnection(id, client, protocol), StreamOpened(id, stream), P2pConnected(request, id);
    if Target(registered, protocol).None? {
      forall a, b | && Apart(a, id) && InSomeOrder(Mine(a, id), x, y, z)
                    && Apart(b, id) && InSomeOrder(Mine(b, id), x, y, z)
        ensures FateOf(p, registered, a, id) == FateOf(p, registered, b, id)
      {
        OnlyItsOwnEventsMatter(p, registered, a, id);
        OnlyItsOwnEventsMatter(p, registered, b, id);
        EveryOrderBridges(p, registered, id, client, protocol, stream, request, Mine(a, id));
        EveryOrderBridges(p, registered, id, client, protocol, stream, request, Mine(b, id));
      }
    } else {
      RunsDiffer(p, registered, id, client, protocol, stream, request);
    }
  }

  lemma RunsDiffer(p: Pending, registered: seq<Tunnel>, id: Id, client: string, protocol: Protocol,
                   stream: Stream, request: string)
    requires Unknown(p, id) && request in p.requests && Target(registered, protocol).Some?
    ensures !RunsAgree(p, registered, NewConnection(id, client, protocol), StreamOpened(id, stream),
                       P2pConnected(request, id), id)
  {
    var x, y, z := NewConnection(id, client, protocol), StreamOpened(id, stream), P2pConnected(request, id);
    RelayFirst(p, registered, id, client, protocol, stream, request);
    RelayLast(p, registered, id, client, protocol, stream, request);
    AllMine([z, x, y], id);
    AllMine([x, y, z], id);
    OwnIsApart([z, x, y], id);
    OwnIsApart([x, y, z], id);
    Rotated(x, y, z);
    assert FateOf(p, registered, [z, x, y], id).local != FateOf(p, registered, [x, y, z], id).local;
  }
}
