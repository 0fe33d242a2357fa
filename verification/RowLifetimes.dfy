/**
 How long a row lives: only a close of its tunnel or a sweep of its region ends it, flushes leave it
 open, and until it ends it takes what is written; so the row of a tunnel that is still routed is there
 for the shutdown to store its last counters.
 */
module RowLifetimes {
  import opened Basics
  import opened Routing
  import opened RoutingInvariant
  import opened RoutingRuns
  import opened RoutingLedger
  import opened Metering
  import opened TunnelCoreObject
  import opened TunnelLogObject
  import opened ServerMetering

  // ── which statements close a row ─────────────────────────────────────────

  /** A close of the tunnel that does not fail, or a sweep of the region. */
  predicate EndsRow(t: Table, st: Statement, tunnel: Id, region: Option<string>) {
    (st.Close? && st.tunnel == tunnel && !Fails(t, st)) || (st.CloseStale? && region == Some(st.region))
  }

  predicate NeverEnds(t: Table, sts: seq<Statement>, tunnel: Id, region: Option<string>)
    decreases |sts|
  {
    sts != [] ==> !EndsRow(t, sts[0], tunnel, region) && NeverEnds(Execute(t, sts[0]), sts[1..], tunnel, region)
  }

  lemma StepOpen(t: Table, st: Statement, i: nat)
    requires i < |t|
    ensures var row, after := t[i], Execute(t, st)[i];
            && after.tunnel == row.tunnel && after.region == row.region
            && (after.open <==> row.open && !EndsRow(t, st, row.tunnel, row.region))
  {
  }

  /**
   Over any history a row is open at the end exactly when it was open at the start and none of the
   statements was a close of its tunnel that did not fail, or a sweep of its region.
   */
  lemma {:induction false} OpenIsExact(t: Table, sts: seq<Statement>, i: nat)
    requires i < |t|
    ensures var row, after := t[i], ExecuteAll(t, sts)[i];
            && after.tunnel == row.tunnel && after.region == row.region
            && (after.open <==> row.open && NeverEnds(t, sts, row.tunnel, row.region))
    decreases |sts|
  {
    if sts != [] {
      StepOpen(t, sts[0], i);
      OpenIsExact(Execute(t, sts[0]), sts[1..], i);
    }
  }

  // ── which statements fail ────────────────────────────────────────────────

  /** What a column becomes: the greater of what it has and the reading, held to its limit. */
  function Raised(had: nat, read: nat): nat {
    Max(had, Min(read, 0x7FFF_FFFF_FFFF_FFFF))
  }

  predicate TooMuch(row: Row, id: Id, s: Snapshot) {
    && row.open && row.tunnel == id
    && Raised(row.bytesIn, s.bytesIn) + Raised(row.bytesOut, s.bytesOut) > 0x7FFF_FFFF_FFFF_FFFF
  }

  /** A write is refused exactly when some open row of its tunnel would come to hold too great a sum. */
  lemma FailureIsExact(t: Table, st: Statement)
    ensures Fails(t, st) <==>
            (st.Flush? || st.Close?) && exists i :: 0 <= i < |t| && TooMuch(t[i], st.tunnel, st.snapshot)
  {
    if Fails(t, st) {
      var i :| 0 <= i < |t| && t[i].Matches(st.tunnel) && t[i].Overflows(st.snapshot);
      assert TooMuch(t[i], st.tunnel, st.snapshot);
    }
    if (st.Flush? || st.Close?) && exists i :: 0 <= i < |t| && TooMuch(t[i], st.tunnel, st.snapshot) {
      var i :| 0 <= i < |t| && TooMuch(t[i], st.tunnel, st.snapshot);
      assert t[i].Matches(st.tunnel) && t[i].Overflows(st.snapshot);
    }
  }

  /** Every column and the sum fit 64 bits with a sign. */
  predicate Holdable(t: Table) {
    forall i :: 0 <= i < |t| ==>
      t[i].requests <= 0x7FFF_FFFF_FFFF_FFFF && t[i].bytesIn + t[i].bytesOut == t[i].proxied <= 0x7FFF_FFFF_FFFF_FFFF
  }

  lemma StepHoldable(t: Table, st: Statement)
    requires Holdable(t)
    ensures Holdable(Execute(t, st))
  {
    var u := Execute(t, st);
    forall i | 0 <= i < |u|
      ensures u[i].requests <= I64_MAX && u[i].bytesIn + u[i].bytesOut == u[i].proxied <= I64_MAX
    {
      if i < |t| && (st.Flush? || st.Close?) && t[i].Matches(st.tunnel) && !Fails(t, st) {
        assert !t[i].Overflows(st.snapshot);
      }
    }
  }

  /** From an empty table, whatever snapshots are written, no row ever holds more than its columns can. */
  lemma {:induction false} RowsAlwaysFit(t: Table, sts: seq<Statement>)
    requires Holdable(t)
    ensures Holdable(ExecuteAll(t, sts))
    decreases |sts|
  {
    if sts != [] {
      StepHoldable(t, sts[0]);
      RowsAlwaysFit(Execute(t, sts[0]), sts[1..]);
    }
  }

  // ── the periodic flush ───────────────────────────────────────────────────

  /** A row that is up to date, and still open if it was. */
  predicate UpToDate(row: Row, before: Row, m: Meters) {
    && row == before.(requests := m.requests, bytesIn := m.bytesIn, bytesOut := m.bytesOut,
                      proxied := m.bytesIn + m.bytesOut)
    && row.open == before.open
  }

  lemma FlushOne(t: Table, id: Id, s: Snapshot)
    requires OpenBehind(t, id, s) && Fits(s)
    ensures !Fails(t, Flush(id, s))
    ensures var u := Execute(t, Flush(id, s));
            && |u| == |t|
            && forall i :: 0 <= i < |t| ==> u[i] == if t[i].Matches(id) then Settled(t[i], s).(open := true) else t[i]
  {
  }

  lemma FlushedStillBehind(t: Table, u: Table, meters: seq<LiveMeter>)
    requires meters != [] && Distinct(meters) && AllBehind(t, meters)
    requires |u| == |t| && forall i :: 0 <= i < |t| ==> u[i] == t[i] || t[i].tunnel == meters[0].id == u[i].tunnel
    ensures AllBehind(u, meters[1..]) && Distinct(meters[1..])
  {
  }

  lemma {:induction false} FlushEachExact(t: Table, meters: seq<LiveMeter>, k: nat)
    requires Distinct(meters) && AllBehind(t, meters) && k < |t|
    ensures var (u, ok) := FlushEach(t, meters);
            && ok && |u| == |t|
            && u[k] == if t[k].open && MetersFor(meters, t[k].tunnel).Some?
                       then Settled(t[k], MetersFor(meters, t[k].tunnel).value).(open := true) else t[k]
    decreases |meters|
  {
    if meters != [] {
      var id, s := meters[0].id, Persisted(meters[0].meters);
      FlushOne(t, id, s);
      var u := Execute(t, Flush(id, s));
      FlushedStillBehind(t, u, meters);
      FlushEachExact(u, meters[1..], k);
      MetersForIn(meters[1..], id);
    }
  }

  /** After the periodic flush every open row of a live tunnel is up to date and still open. */
  lemma FlushIsExact(t: Table, c: Core, meters: seq<LiveMeter>, k: nat)
    requires Listing(c, meters, c.index.Keys)
    requires forall id :: id in c.index ==>
             OpenBehind(t, id, Persisted(TunnelMeters(c, id))) && Fits(Persisted(TunnelMeters(c, id)))
    requires k < |t|
    ensures var (u, ok) := FlushEach(t, meters);
            && ok && |u| == |t|
            && if t[k].open && t[k].tunnel in c.index then UpToDate(u[k], t[k], TunnelMeters(c, t[k].tunnel))
               else u[k] == t[k]
  {
    forall i | 0 <= i < |meters|
      ensures OpenBehind(t, meters[i].id, Persisted(meters[i].meters)) && Fits(Persisted(meters[i].meters))
    {
      assert meters[i].id in c.index && meters[i].meters == TunnelMeters(c, meters[i].id);
    }
    FlushEachExact(t, meters, k);
    MetersForIn(meters, t[k].tunnel);
  }

  // ── the row of a tunnel, over runs of the whole server ───────────────────

  /** The turn closes the tunnel's row with a reading that is not refused, or sweeps the region. */
  predicate EndsTunnel(srv: Server, turn: Turn, id: Id, region: string) {
    match turn
    case CloseRow(slot) =>
      && Ready(srv.books, slot) && srv.books.flight[slot].tunnel == id
      && !Fails(srv.books.table, Close(id, srv.books.flight[slot].snapshot))
    case CloseStaleRows(swept) => swept == region
    case _ => false
  }

  predicate NeverEnded(srv: Server, turns: seq<Turn>, id: Id, region: string)
    decreases |turns|
  {
    turns != [] ==> !EndsTunnel(srv, turns[0], id, region) && NeverEnded(Take(srv, turns[0]), turns[1..], id, region)
  }

  lemma TurnOpen(srv: Server, turn: Turn, k: nat, id: Id, region: string)
    requires k < |srv.books.table|
    requires srv.books.table[k].tunnel == id && srv.books.table[k].region == Some(region)
    ensures var row, t := srv.books.table[k], Take(srv, turn).books.table;
            && k < |t| && t[k].tunnel == id && t[k].region == Some(region)
            && (t[k].open <==> row.open && !EndsTunnel(srv, turn, id, region))
  {
    if Books(srv, turn) != [] {
      MoveOne(srv.books, Books(srv, turn)[0]);
    }
  }

  lemma {:induction false} RunOpen(srv: Server, turns: seq<Turn>, k: nat, id: Id, region: string)
    requires k < |srv.books.table|
    requires srv.books.table[k].tunnel == id && srv.books.table[k].region == Some(region)
    ensures var row, t := srv.books.table[k], TakeAll(srv, turns).books.table;
            && k < |t| && t[k].tunnel == id && t[k].region == Some(region)
            && (t[k].open <==> row.open && NeverEnded(srv, turns, id, region))
    decreases |turns|
  {
    if turns != [] {
      TurnOpen(srv, turns[0], k, id, region);
      RunOpen(Take(srv, turns[0]), turns[1..], k, id, region);
    }
  }

  /** Registration opens a row of zeros. */
  lemma RegistrationOpensRow(srv: Server, op: Op, region: string, id: Id)
    requires Observe(srv.core, op).Issued? && Observe(srv.core, op).id == id && id !in srv.books.live
    ensures var t, u := srv.books.table, Take(srv, Route(op, region)).books.table;
            && |u| == |t| + 1
            && u[|t|] == Row(id, Some(region), 0, 0, 0, 0, true)
  {
    MoveOne(srv.books, Register(id, region));
  }

  lemma {:induction false} TurnsJoin(srv: Server, a: seq<Turn>, b: seq<Turn>)
    ensures TakeAll(srv, a + b) == TakeAll(TakeAll(srv, a), b)
    ensures AllProper(srv, a + b) <==> AllProper(srv, a) && AllProper(TakeAll(srv, a), b)
    decreases |a|
  {
    if a == [] {
      assert a + b == b;
    } else {
      assert (a + b)[0] == a[0] && (a + b)[1..] == a[1..] + b;
      TurnsJoin(Take(srv, a[0]), a[1..], b);
    }
  }

  /**
   The row that a registration opens, after any further run: it is open exactly when it was neither
   closed nor swept since.
   */
  lemma RowOpenIsExact(core: Core, r: Ranges, before: seq<Turn>, op: Op, region: string, after: seq<Turn>, id: Id)
    requires Inv(core, r) && core.routes == map[] && core.p2p == map[]
    requires AllProper(Start(core), before + ([Route(op, region)] + after))
    requires var e := Observe(TakeAll(Start(core), before).core, op); e.Issued? && e.id == id
    ensures var mid := TakeAll(Start(core), before);
            var srv := TakeAll(Start(core), before + ([Route(op, region)] + after));
            var k := |mid.books.table|;
            && k < |srv.books.table|
            && srv.books.table[k].tunnel == id && srv.books.table[k].region == Some(region)
            && (srv.books.table[k].open <==> NeverEnded(Take(mid, Route(op, region)), after, id, region))
  {
    var mid, turn := TakeAll(Start(core), before), Route(op, region);
    TurnsJoin(Start(core), before, [turn] + after);
    assert ([turn] + after)[1..] == after;
    StartSound(core, r);
    RunSound(Start(core), r, before);
    IssuedIsNew(mid.core, r, op);
    RegistrationOpensRow(mid, op, region, id);
    RunOpen(Take(mid, turn), after, |mid.books.table|, id, region);
  }

  /** A row closed with these counters, column by column. */
  predicate StoredAs(row: Row, m: Meters) {
    && row.requests == m.requests && row.bytesIn == m.bytesIn && row.bytesOut == m.bytesOut
    && row.proxied == m.bytesIn + m.bytesOut && !row.open
  }

  /**
   The shutdown really stores the last counters: after any run, the row that was opened for a tunnel
   that is still routed, and was neither closed nor swept since, ends closed with exactly the counters
   the core has for it.
   */
  lemma LastCountersAreStored(core: Core, r: Ranges, before: seq<Turn>, op: Op, region: string, after: seq<Turn>,
                              id: Id, meters: seq<LiveMeter>)
    requires Inv(core, r) && core.routes == map[] && core.p2p == map[]
    requires AllProper(Start(core), before + ([Route(op, region)] + after))
    requires var e := Observe(TakeAll(Start(core), before).core, op); e.Issued? && e.id == id
    requires var mid := TakeAll(Start(core), before);
             var srv := TakeAll(Start(core), before + ([Route(op, region)] + after));
             && NeverEnded(Take(mid, Route(op, region)), after, id, region)
             && id in srv.core.index
             && Listing(srv.core, meters, srv.core.index.Keys)
             && forall x :: x in srv.core.index ==> Fits(Persisted(TunnelMeters(srv.core, x)))
    ensures var mid := TakeAll(Start(core), before);
            var srv := TakeAll(Start(core), before + ([Route(op, region)] + after));
            var (u, ok) := CloseEach(srv.books.table, meters);
            && ok && |mid.books.table| < |u|
            && u[|mid.books.table|].tunnel == id && StoredAs(u[|mid.books.table|], TunnelMeters(srv.core, id))
  {
    RowOpenIsExact(core, r, before, op, region, after, id);
    var k := |TakeAll(Start(core), before).books.table|;
    ShutdownSettlesAll(core, r, before + ([Route(op, region)] + after), meters, k);
  }

  // ── a reading catches up with what was there when it began ───────────────

  /** What has been loaded is at least what the counters were. */
  predicate LoadedSince(sys: System, slot: nat, id: Id, base: Snapshot) {
    && slot in sys.flight && sys.flight[slot].tunnel == id
    && var r := sys.flight[slot];
       && (r.loaded >= 1 ==> base.requests <= r.snapshot.requests)
       && (r.loaded >= 2 ==> base.bytesIn <= r.snapshot.bytesIn)
       && (r.loaded >= 3 ==> base.bytesOut <= r.snapshot.bytesOut)
  }

  lemma MoveLoads(sys: System, m: Move, slot: nat, id: Id, base: Snapshot)
    requires LoadedSince(sys, slot, id, base) && id in sys.live && Below(base, sys.live[id])
    requires !(m.Begin? && m.slot == slot)
    ensures var t := Moved(sys, m); LoadedSince(t, slot, id, base) && id in t.live && Below(base, t.live[id])
  {
  }

  lemma {:induction false} MovesLoad(sys: System, ms: seq<Move>, slot: nat, id: Id, base: Snapshot)
    requires LoadedSince(sys, slot, id, base) && id in sys.live && Below(base, sys.live[id])
    requires forall m :: m in ms ==> !(m.Begin? && m.slot == slot)
    ensures var t := MoveAll(sys, ms); LoadedSince(t, slot, id, base) && id in t.live && Below(base, t.live[id])
    decreases |ms|
  {
    if ms != [] {
      assert ms[0] in ms;
      MoveLoads(sys, ms[0], slot, id, base);
      MovesLoad(Moved(sys, ms[0]), ms[1..], slot, id, base);
    }
  }

  /** A finished reading of a routed tunnel lies between the counters when it began and the counters now. */
  lemma ReadingsCatchUp(sys: System, slot: nat, id: Id, ms: seq<Move>)
    requires Behind(sys) && id in sys.live
    requires forall m :: m in ms ==> !(m.Begin? && m.slot == slot)
    ensures var t := MoveAll(Moved(sys, Begin(slot, id, true)), ms);
            Ready(t, slot) ==>
              && id in t.live && t.flight[slot].tunnel == id
              && Below(sys.live[id], t.flight[slot].snapshot)
              && Below(t.flight[slot].snapshot, t.live[id])
  {
    var u := Moved(sys, Begin(slot, id, true));
    MoveBehind(sys, Begin(slot, id, true));
    MovesLoad(u, ms, slot, id, sys.live[id]);
    RowsNeverRunAhead(u, ms);
    var t := MoveAll(u, ms);
    assert ReadingBehind(t, t.flight[slot]);
  }
}
