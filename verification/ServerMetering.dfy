/**
 End-to-end metering: the routing core, the counters it hands out and the rows they are written to,
 as one machine. Counters outlive the routing entry; a snapshot is read piece by piece and written
 whenever its writer gets to it.
 */
module ServerMetering {
  import opened Routing
  import opened RoutingInvariant
  import opened RoutingRuns
  import opened RoutingLedger
  import opened Metering
  import opened TunnelCoreObject
  import opened TunnelLogObject

  /** `log` is what has happened so far; nothing reads it. */
  datatype Server = Server(core: Core, books: System, log: seq<Event>)

  datatype Turn =
    | Route(op: Op, region: string)
    | Read(slot: nat, tunnel: Id)
    | ReadOn(slot: nat)
    | FlushRow(slot: nat)
    | CloseRow(slot: nat)
    | CloseStaleRows(region: string)

  /** What an operation on the core does to the counters, and to the table when it registers a tunnel. */
  function Effect(c: Core, op: Op, region: string): seq<Move> {
    if op.Proxied? then [Carry(op.id, op.inbound, op.outbound)]
    else
      match Observe(c, op)
      case Issued(id, _, _) => [Register(id, region)]
      case Resolved(id) => [Serve(id)]
      case _ => []
  }

  function Books(srv: Server, turn: Turn): seq<Move> {
    match turn
    case Route(op, region) => Effect(srv.core, op, region)
    case Read(slot, id) => [Begin(slot, id, id in srv.core.index)]
    case ReadOn(slot) => [Load(slot)]
    case FlushRow(slot) => [WriteFlush(slot)]
    case CloseRow(slot) => [WriteClose(slot)]
    case CloseStaleRows(region) => [Sweep(region)]
  }

  function Take(srv: Server, turn: Turn): Server {
    Server(if turn.Route? then Apply(srv.core, turn.op) else srv.core,
           MoveAll(srv.books, Books(srv, turn)),
           if turn.Route? then srv.log + [Observe(srv.core, turn.op)] else srv.log)
  }

  /** Identifiers are never issued twice, not even after their tunnel has gone. */
  predicate Proper(srv: Server, turn: Turn) {
    turn.Route? ==>
      && Allowed(srv.core, turn.op)
      && (NewId(turn.op).Some? ==> NewId(turn.op).value !in srv.books.live)
  }

  function TakeAll(srv: Server, turns: seq<Turn>): Server
    decreases |turns|
  {
    if turns == [] then srv else TakeAll(Take(srv, turns[0]), turns[1..])
  }

  predicate AllProper(srv: Server, turns: seq<Turn>)
    decreases |turns|
  {
    turns != [] ==> Proper(srv, turns[0]) && AllProper(Take(srv, turns[0]), turns[1..])
  }

  // ── the core's counters are the live counters ────────────────────────────

  predicate LiveAs(sys: System, id: Id, m: Meters) {
    id in sys.live && sys.live[id] == Persisted(m)
  }

  ghost predicate Synced(srv: Server) {
    forall key, id :: Holds(srv.core, key, id) ==> LiveAs(srv.books, id, InfoAt(srv.core, key, id).meters)
  }

  lemma MoveOne(sys: System, m: Move)
    ensures MoveAll(sys, [m]) == Moved(sys, m)
  {
    assert [m][1..] == [];
  }

  lemma EffectCounts(sys: System, c: Core, op: Op, region: string, id: Id, m: Meters)
    requires id in c.index && LiveAs(sys, id, m)
    requires Observe(c, op).Issued? ==> Observe(c, op).id !in sys.live
    ensures LiveAs(MoveAll(sys, Effect(c, op, region)), id, Counted(m, Observe(c, op), id))
  {
    if Effect(c, op, region) != [] {
      MoveOne(sys, Effect(c, op, region)[0]);
    }
  }

  lemma EffectRegisters(sys: System, c: Core, op: Op, region: string, id: Id)
    requires Observe(c, op).Issued? && Observe(c, op).id == id && id !in sys.live
    ensures LiveAs(MoveAll(sys, Effect(c, op, region)), id, ZERO)
  {
    MoveOne(sys, Register(id, region));
  }

  lemma RouteSynced(srv: Server, r: Ranges, op: Op, region: string)
    requires Inv(srv.core, r) && Synced(srv) && Proper(srv, Route(op, region))
    ensures Synced(Take(srv, Route(op, region)))
  {
    var c, d := srv.core, Apply(srv.core, op);
    if Observe(c, op).Issued? {
      IssuedIsNew(c, r, op);
    }
    forall key, id | Holds(d, key, id)
      ensures LiveAs(Take(srv, Route(op, region)).books, id, InfoAt(d, key, id).meters)
    {
      if Holds(c, key, id) {
        assert IndexedAt(c, id, key);
        MetersAfter(c, r, op, key, id);
        EffectCounts(srv.books, c, op, region, id, InfoAt(c, key, id).meters);
      } else {
        StepHolds(c, r, op, key, id);
        EffectRegisters(srv.books, c, op, region, id);
      }
    }
  }

  lemma BooksLeaveLive(sys: System, m: Move)
    requires m.Begin? || m.Load? || m.WriteFlush? || m.WriteClose? || m.Sweep?
    ensures MoveAll(sys, [m]).live == sys.live
  {
    MoveOne(sys, m);
  }

  lemma TurnSynced(srv: Server, r: Ranges, turn: Turn)
    requires Inv(srv.core, r) && Synced(srv) && Proper(srv, turn)
    ensures Synced(Take(srv, turn))
  {
    if turn.Route? {
      RouteSynced(srv, r, turn.op, turn.region);
    } else {
      BooksLeaveLive(srv.books, Books(srv, turn)[0]);
      forall key, id | Holds(srv.core, key, id)
        ensures LiveAs(Take(srv, turn).books, id, InfoAt(srv.core, key, id).meters)
      {
        assert LiveAs(srv.books, id, InfoAt(srv.core, key, id).meters);
      }
    }
  }

  // ── every resolution is counted once, for present and departed tunnels ───

  /** The tunnels ever issued, in order. */
  function Issues(log: seq<Event>): seq<Id> {
    if log == [] then []
    else Issues(log[..|log| - 1]) + if log[|log| - 1].Issued? then [log[|log| - 1].id] else []
  }

  function Resolutions(log: seq<Event>): nat {
    if log == [] then 0 else Resolutions(log[..|log| - 1]) + if log[|log| - 1].Resolved? then 1 else 0
  }

  function RequestsOf(live: map<Id, Snapshot>, id: Id): nat {
    if id in live then live[id].requests else 0
  }

  function TotalRequests(live: map<Id, Snapshot>, ids: seq<Id>): nat {
    if ids == [] then 0
    else TotalRequests(live, ids[..|ids| - 1]) + RequestsOf(live, ids[|ids| - 1])
  }

  ghost predicate Tallied(live: map<Id, Snapshot>, log: seq<Event>) {
    && NoDup(Issues(log))
    && (forall id :: id in Issues(log) <==> id in live)
    && TotalRequests(live, Issues(log)) == Resolutions(log)
  }

  lemma {:induction false} TotalSame(live: map<Id, Snapshot>, next: map<Id, Snapshot>, ids: seq<Id>)
    requires forall id :: id in ids ==> RequestsOf(next, id) == RequestsOf(live, id)
    ensures TotalRequests(next, ids) == TotalRequests(live, ids)
    decreases |ids|
  {
    if ids != [] {
      TotalSame(live, next, ids[..|ids| - 1]);
    }
  }

  /** One more request for one of the tunnels is one more in total. */
  lemma {:induction false} TotalBump(live: map<Id, Snapshot>, next: map<Id, Snapshot>, ids: seq<Id>, id: Id)
    requires NoDup(ids) && id in ids
    requires forall x :: x in ids ==> RequestsOf(next, x) == RequestsOf(live, x) + if x == id then 1 else 0
    ensures TotalRequests(next, ids) == TotalRequests(live, ids) + 1
    decreases |ids|
  {
    var n := |ids| - 1;
    assert ids == ids[..n] + [ids[n]];
    if ids[n] == id {
      TotalSame(live, next, ids[..n]);
    } else {
      TotalBump(live, next, ids[..n], id);
    }
  }

  lemma LogStep(log: seq<Event>, e: Event)
    ensures Issues(log + [e]) == if e.Issued? then Issues(log) + [e.id] else Issues(log)
    ensures Resolutions(log + [e]) == Resolutions(log) + if e.Resolved? then 1 else 0
  {
    assert (log + [e])[..|log|] == log;
    assert Issues(log) + [] == Issues(log);
  }

  lemma TotalPush(live: map<Id, Snapshot>, ids: seq<Id>, id: Id)
    ensures TotalRequests(live, ids + [id]) == TotalRequests(live, ids) + RequestsOf(live, id)
  {
    assert (ids + [id])[..|ids|] == ids;
  }

  lemma NoDupPush(ids: seq<Id>, id: Id)
    requires NoDup(ids) && id !in ids
    ensures NoDup(ids + [id])
  {
  }

  lemma MembersPush(live: map<Id, Snapshot>, ids: seq<Id>, id: Id, s: Snapshot)
    requires forall x :: x in ids <==> x in live
    ensures forall x :: x in ids + [id] <==> x in live[id := s]
  {
  }

  lemma IssueTallied(live: map<Id, Snapshot>, log: seq<Event>, e: Event)
    requires Tallied(live, log) && e.Issued? && e.id !in live
    ensures Tallied(live[e.id := Metering.NOTHING], log + [e])
  {
    var ids, next := Issues(log), live[e.id := Metering.NOTHING];
    LogStep(log, e);
    assert TotalRequests(next, ids + [e.id]) == Resolutions(log) by {
      TotalSame(live, next, ids);
      TotalPush(next, ids, e.id);
    }
    assert NoDup(ids + [e.id]) by { NoDupPush(ids, e.id); }
    MembersPush(live, ids, e.id, Metering.NOTHING);
  }

  lemma ServeTallied(live: map<Id, Snapshot>, log: seq<Event>, e: Event)
    requires Tallied(live, log) && e.Resolved? && e.id in live
    ensures Tallied(live[e.id := live[e.id].(requests := live[e.id].requests + 1)], log + [e])
  {
    LogStep(log, e);
    TotalBump(live, live[e.id := live[e.id].(requests := live[e.id].requests + 1)], Issues(log), e.id);
  }

  lemma QuietTallied(live: map<Id, Snapshot>, next: map<Id, Snapshot>, log: seq<Event>, e: Event)
    requires Tallied(live, log) && !e.Resolved? && !e.Issued?
    requires SameRequests(live, next)
    ensures Tallied(next, log + [e])
  {
    LogStep(log, e);
    TotalSame(live, next, Issues(log));
  }

  lemma ResolvedIsLive(srv: Server, r: Ranges, op: Op)
    requires Inv(srv.core, r) && Synced(srv) && Observe(srv.core, op).Resolved?
    ensures Observe(srv.core, op).id in srv.books.live
  {
    var c := srv.core;
    match op {
      case Dispatch(key, choice) =>
        assert Holds(c, key, choice);
        assert OwnedAs(c, InfoAt(c, key, choice), choice, key);
        assert LiveAs(srv.books, choice, InfoAt(c, key, choice).meters);
      case DispatchP2p(name) =>
        var id := c.p2p[name].info.id;
        assert Holds(c, P2pKey(name), id);
        assert LiveAs(srv.books, id, InfoAt(c, P2pKey(name), id).meters);
    }
  }

  predicate SameRequests(live: map<Id, Snapshot>, next: map<Id, Snapshot>) {
    next.Keys == live.Keys && forall id :: id in live ==> next[id].requests == live[id].requests
  }

  predicate LiveAfter(live: map<Id, Snapshot>, next: map<Id, Snapshot>, e: Event) {
    if e.Issued? then e.id !in live ==> next == live[e.id := Metering.NOTHING]
    else if e.Resolved? then e.id in live ==> next == live[e.id := live[e.id].(requests := live[e.id].requests + 1)]
    else SameRequests(live, next)
  }

  /** What an operation does to the live counters, by the kind of event it is. */
  lemma EffectLive(sys: System, c: Core, op: Op, region: string)
    ensures LiveAfter(sys.live, MoveAll(sys, Effect(c, op, region)).live, Observe(c, op))
  {
    if Effect(c, op, region) != [] {
      MoveOne(sys, Effect(c, op, region)[0]);
    }
  }

  lemma EventTallied(live: map<Id, Snapshot>, next: map<Id, Snapshot>, log: seq<Event>, e: Event)
    requires Tallied(live, log) && LiveAfter(live, next, e)
    requires (e.Issued? ==> e.id !in live) && (e.Resolved? ==> e.id in live)
    ensures Tallied(next, log + [e])
  {
    if e.Issued? {
      IssueTallied(live, log, e);
    } else if e.Resolved? {
      ServeTallied(live, log, e);
    } else {
      QuietTallied(live, next, log, e);
    }
  }

  lemma RouteTallied(srv: Server, r: Ranges, op: Op, region: string)
    requires Inv(srv.core, r) && Synced(srv) && Tallied(srv.books.live, srv.log) && Proper(srv, Route(op, region))
    ensures Tallied(MoveAll(srv.books, Effect(srv.core, op, region)).live, srv.log + [Observe(srv.core, op)])
  {
    var e := Observe(srv.core, op);
    EffectLive(srv.books, srv.core, op, region);
    if e.Issued? {
      IssuedIsNew(srv.core, r, op);
    } else if e.Resolved? {
      ResolvedIsLive(srv, r, op);
    }
    EventTallied(srv.books.live, MoveAll(srv.books, Effect(srv.core, op, region)).live, srv.log, e);
  }

  lemma TurnTallied(srv: Server, r: Ranges, turn: Turn)
    requires Inv(srv.core, r) && Synced(srv) && Tallied(srv.books.live, srv.log) && Proper(srv, turn)
    ensures Tallied(Take(srv, turn).books.live, Take(srv, turn).log)
  {
    if turn.Route? {
      RouteTallied(srv, r, turn.op, turn.region);
    } else {
      BooksLeaveLive(srv.books, Books(srv, turn)[0]);
    }
  }

  // ── whole runs ───────────────────────────────────────────────────────────

  ghost predicate Sound(srv: Server, r: Ranges) {
    Inv(srv.core, r) && Behind(srv.books) && Synced(srv) && Tallied(srv.books.live, srv.log)
  }

  lemma {:induction false} RunSound(srv: Server, r: Ranges, turns: seq<Turn>)
    requires Sound(srv, r) && AllProper(srv, turns)
    ensures Sound(TakeAll(srv, turns), r)
    decreases |turns|
  {
    if turns != [] {
      var turn := turns[0];
      if turn.Route? {
        ApplyKeeps(srv.core, r, turn.op);
      }
      RowsNeverRunAhead(srv.books, Books(srv, turn));
      TurnSynced(srv, r, turn);
      TurnTallied(srv, r, turn);
      RunSound(Take(srv, turn), r, turns[1..]);
    }
  }

  function Start(core: Core): Server {
    Server(core, System(map[], map[], []), [])
  }

  lemma StartSound(core: Core, r: Ranges)
    requires Inv(core, r) && core.routes == map[] && core.p2p == map[]
    ensures Sound(Start(core), r)
  {
  }

  /**
   Request conservation: over every run, the counters of all tunnels ever registered, present or
   departed, sum to the number of successful resolutions.
   */
  lemma RequestsAreConserved(core: Core, r: Ranges, turns: seq<Turn>)
    requires Inv(core, r) && core.routes == map[] && core.p2p == map[] && AllProper(Start(core), turns)
    ensures var srv := TakeAll(Start(core), turns);
            && NoDup(Issues(srv.log)) && (forall id :: id in Issues(srv.log) <==> id in srv.books.live)
            && TotalRequests(srv.books.live, Issues(srv.log)) == Resolutions(srv.log)
  {
    StartSound(core, r);
    RunSound(Start(core), r, turns);
  }

  /**
   After any run of routing, traffic, piecewise snapshots and late writes: no row exceeds its tunnel's
   live counters, and a flush-and-close of the core's own listing closes every row still open for a
   routed tunnel with exactly the counters the core has for it, and touches no other row.
   */
  lemma ShutdownSettlesAll(core: Core, r: Ranges, turns: seq<Turn>, meters: seq<LiveMeter>, k: nat)
    requires Inv(core, r) && core.routes == map[] && core.p2p == map[] && AllProper(Start(core), turns)
    requires var srv := TakeAll(Start(core), turns);
             && k < |srv.books.table|
             && Listing(srv.core, meters, srv.core.index.Keys)
             && forall id :: id in srv.core.index ==> Fits(Persisted(TunnelMeters(srv.core, id)))
    ensures var srv := TakeAll(Start(core), turns);
            var row, (u, ok) := srv.books.table[k], CloseEach(srv.books.table, meters);
            && row.tunnel in srv.books.live && RowBelow(row, srv.books.live[row.tunnel])
            && ok && |u| == |srv.books.table|
            && u[k] == if row.open && row.tunnel in srv.core.index
                       then Settled(row, Persisted(TunnelMeters(srv.core, row.tunnel))) else row
  {
    StartSound(core, r);
    RunSound(Start(core), r, turns);
    var srv := TakeAll(Start(core), turns);
    AllAreRouted(srv.core);
    forall id | id in srv.core.index
      ensures OpenBehind(srv.books.table, id, Persisted(TunnelMeters(srv.core, id)))
    {
      assert LiveAs(srv.books, id, InfoAt(srv.core, srv.core.index[id], id).meters);
    }
    ShutdownIsExact(srv.books.table, srv.core, meters, k);
  }

  /** Rows whose sums the database can hold, and that are sums. */
  predicate Summed(t: Table, id: Id) {
    forall i :: 0 <= i < |t| && t[i].Matches(id) ==> t[i].proxied == t[i].bytesIn + t[i].bytesOut <= I64_MAX
  }

  /** Zeros leave a row's counters as they are. */
  lemma ZerosEnd(t: Table, id: Id)
    requires Summed(t, id)
    ensures !Fails(t, Close(id, Persisted(ZERO)))
    ensures forall i :: 0 <= i < |t| && t[i].Matches(id) ==> Ended(t[i], Persisted(ZERO)) == t[i].(open := false)
  {
  }

  lemma LiveMeters(srv: Server, r: Ranges, id: Id)
    requires Sound(srv, r) && id in srv.core.index
    ensures LiveAs(srv.books, id, TunnelMeters(srv.core, id))
  {
    AllAreRouted(srv.core);
    assert LiveAs(srv.books, id, InfoAt(srv.core, srv.core.index[id], id).meters);
  }

  lemma BehindIsSummed(srv: Server, r: Ranges, id: Id)
    requires Sound(srv, r) && id in srv.books.live && Fits(srv.books.live[id])
    ensures OpenBehind(srv.books.table, id, srv.books.live[id]) && Summed(srv.books.table, id)
  {
  }

  /**
   Teardown, after any run: every row still open for a tunnel that the session lists is closed; with
   exactly the core's counters if the tunnel is still routed, and with the counters it has if it is
   not. No other row is touched.
   */
  lemma TeardownSettlesSession(core: Core, r: Ranges, turns: seq<Turn>, session: Id, k: nat)
    requires Inv(core, r) && core.routes == map[] && core.p2p == map[] && AllProper(Start(core), turns)
    requires var srv := TakeAll(Start(core), turns);
             && session in srv.core.sessions && k < |srv.books.table|
             && forall id :: id in srv.core.sessions[session] && id in srv.books.live ==> Fits(srv.books.live[id])
    ensures var srv := TakeAll(Start(core), turns);
            var ids, row := srv.core.sessions[session], srv.books.table[k];
            var u := CloseListed(srv.books.table, srv.core, ids);
            && |u| == |srv.books.table|
            && u[k] == if !row.open || row.tunnel !in ids then row
                       else if row.tunnel in srv.core.index
                       then Settled(row, Persisted(TunnelMeters(srv.core, row.tunnel)))
                       else row.(open := false)
  {
    StartSound(core, r);
    RunSound(Start(core), r, turns);
    var srv := TakeAll(Start(core), turns);
    var table, id := srv.books.table, srv.books.table[k].tunnel;
    CloseListedExact(table, srv.core, srv.core.sessions[session], k);
    if table[k].open && id in srv.core.sessions[session] {
      assert id in srv.books.live;
      BehindIsSummed(srv, r, id);
      if id in srv.core.index {
        LiveMeters(srv, r, id);
        BehindEndsSettled(table, id, Persisted(TunnelMeters(srv.core, id)));
      } else {
        assert TunnelMeters(srv.core, id) == ZERO;
        ZerosEnd(table, id);
      }
    }
  }
}
