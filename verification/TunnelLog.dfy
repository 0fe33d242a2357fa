/** Flushing and closing the rows of live tunnels, as the server does it. */
module TunnelLogObject {
  import opened Basics
  import opened Routing
  import opened RoutingInvariant
  import opened Metering
  import opened TunnelCoreObject

  function Persisted(m: Meters): Snapshot {
    Snapshot(m.requests, m.bytesIn, m.bytesOut)
  }

  /** Flush, then close, row after row; the first failure ends it. */
  function CloseEach(t: Table, meters: seq<LiveMeter>): (Table, bool)
    decreases |meters|
  {
    if meters == [] then (t, true)
    else
      var id, s := meters[0].id, Persisted(meters[0].meters);
      if Fails(t, Flush(id, s)) then (t, false)
      else
        var u := Execute(t, Flush(id, s));
        if Fails(u, Close(id, s)) then (u, false) else CloseEach(Execute(u, Close(id, s)), meters[1..])
  }

  function FlushEach(t: Table, meters: seq<LiveMeter>): (Table, bool)
    decreases |meters|
  {
    if meters == [] then (t, true)
    else
      var st := Flush(meters[0].id, Persisted(meters[0].meters));
      if Fails(t, st) then (t, false) else FlushEach(Execute(t, st), meters[1..])
  }

  /** Close the rows of the tunnels one after the other; a failure is ignored. */
  function CloseListed(t: Table, c: Core, ids: seq<Id>): Table
    decreases |ids|
  {
    if ids == [] then t
    else CloseListed(Execute(t, Close(ids[0], Persisted(TunnelMeters(c, ids[0])))), c, ids[1..])
  }

  class TunnelLog {
    var rows: Table

    constructor ()
      ensures rows == []
    {
      rows := [];
    }

    method Statement(st: Metering.Statement) returns (ok: bool)
      modifies this
      ensures rows == Execute(old(rows), st) && ok == !Fails(old(rows), st)
    {
      ok := !Fails(rows, st);
      if ok {
        var next := seq(|rows|, i requires 0 <= i < |rows| reads this => OnRow(rows[i], st));
        rows := next + if st.Insert? then [Row(st.tunnel, Some(st.region), 0, 0, 0, 0, true)] else [];
      }
    }

    /** The periodic flush: rows stay open. */
    method FlushLiveMeters(core: TunnelCore) returns (ok: bool, ghost meters: seq<LiveMeter>)
      requires Agree(core.View()) && Owned(core.View())
      modifies this
      ensures Listing(core.View(), meters, core.index.Keys)
      ensures (rows, ok) == FlushEach(old(rows), meters)
    {
      var live := core.LiveTunnelMeters();
      meters := live;
      var i := 0;
      assert live[0..] == live;
      while i < |live|
        invariant i <= |live|
        invariant FlushEach(rows, live[i..]) == FlushEach(old(rows), live)
      {
        assert live[i..][0] == live[i] && live[i..][1..] == live[i + 1..];
        ok := Statement(Flush(live[i].id, Persisted(live[i].meters)));
        if !ok {
          return;
        }
        i := i + 1;
      }
      ok := true;
    }

    /** The shutdown: each listed row is flushed and then closed. */
    method FlushAndCloseLiveMeters(core: TunnelCore) returns (ok: bool, ghost meters: seq<LiveMeter>)
      requires Agree(core.View()) && Owned(core.View())
      modifies this
      ensures Listing(core.View(), meters, core.index.Keys)
      ensures (rows, ok) == CloseEach(old(rows), meters)
    {
      var live := core.LiveTunnelMeters();
      meters := live;
      var i := 0;
      assert live[0..] == live;
      while i < |live|
        invariant i <= |live|
        invariant CloseEach(rows, live[i..]) == CloseEach(old(rows), live)
      {
        assert live[i..][0] == live[i] && live[i..][1..] == live[i + 1..];
        ok := Statement(Flush(live[i].id, Persisted(live[i].meters)));
        if !ok {
          return;
        }
        ok := Statement(Close(live[i].id, Persisted(live[i].meters)));
        if !ok {
          return;
        }
        i := i + 1;
      }
      ok := true;
    }

    /** Counters are read before the routing entry goes. */
    method UnregisterTunnel(core: TunnelCore, id: Id)
      modifies this, core
      ensures rows == Execute(old(rows), Close(id, Persisted(TunnelMeters(old(core.View()), id))))
      ensures core.View() == RemoveTunnel(old(core.View()), id)
    {
      var row := core.Meter(id);
      var _ := Statement(Close(id, Persisted(row.meters)));
      core.RemoveOne(id);
    }

    /** Session teardown: every listed tunnel's row is closed, then the session and its tunnels go. */
    method EndSession(core: TunnelCore, session: Id)
      modifies this, core
      ensures rows == if session in old(core.sessions)
                      then CloseListed(old(rows), old(core.View()), old(core.sessions)[session]) else old(rows)
      ensures core.View() == RemoveSession(old(core.View()), session)
    {
      if session in core.sessions {
        var ids := core.sessions[session];
        var i := 0;
        assert ids[0..] == ids;
        while i < |ids|
          invariant i <= |ids|
          invariant core.View() == old(core.View())
          invariant CloseListed(rows, core.View(), ids[i..]) == CloseListed(old(rows), core.View(), ids)
        {
          assert ids[i..][0] == ids[i] && ids[i..][1..] == ids[i + 1..];
          var row := core.Meter(ids[i]);
          var _ := Statement(Close(ids[i], Persisted(row.meters)));
          i := i + 1;
        }
      }
      core.RemoveSessionAndTunnels(session);
    }
  }

  // ── a quiescent shutdown stores exactly the live counters ────────────────

  /** The counters, and their sum, fit the columns. */
  predicate Fits(s: Snapshot) {
    s.requests <= I64_MAX && s.bytesIn + s.bytesOut <= I64_MAX
  }

  /** A row closed with exactly these counters. */
  function Settled(row: Row, s: Snapshot): Row {
    row.(requests := s.requests, bytesIn := s.bytesIn, bytesOut := s.bytesOut,
         proxied := s.bytesIn + s.bytesOut, open := false)
  }

  /** The open rows of a tunnel are behind its counters. */
  predicate OpenBehind(t: Table, id: Id, s: Snapshot) {
    forall i :: 0 <= i < |t| && t[i].Matches(id) ==> RowBelow(t[i], s)
  }

  lemma CloseOne(t: Table, id: Id, s: Snapshot)
    requires OpenBehind(t, id, s) && Fits(s)
    ensures !Fails(t, Flush(id, s)) && !Fails(Execute(t, Flush(id, s)), Close(id, s))
    ensures var u := Execute(Execute(t, Flush(id, s)), Close(id, s));
            && |u| == |t|
            && forall i :: 0 <= i < |t| ==> u[i] == if t[i].Matches(id) then Settled(t[i], s) else t[i]
  {
  }

  function MetersFor(meters: seq<LiveMeter>, id: Id): Option<Snapshot> {
    if meters == [] then None
    else if meters[0].id == id then Some(Persisted(meters[0].meters))
    else MetersFor(meters[1..], id)
  }

  predicate Distinct(meters: seq<LiveMeter>) {
    forall i, j :: 0 <= i < j < |meters| ==> meters[i].id != meters[j].id
  }

  lemma {:induction false} MetersForIn(meters: seq<LiveMeter>, id: Id)
    ensures MetersFor(meters, id).Some? <==> exists i :: 0 <= i < |meters| && meters[i].id == id
    ensures MetersFor(meters, id).Some? ==>
              exists i :: 0 <= i < |meters| && meters[i].id == id
                && MetersFor(meters, id) == Some(Persisted(meters[i].meters))
  {
    if meters != [] && meters[0].id != id {
      MetersForIn(meters[1..], id);
      if i :| 0 <= i < |meters| && meters[i].id == id {
        assert meters[1..][i - 1].id == id;
      }
      if MetersFor(meters, id).Some? {
        var i :| 0 <= i < |meters[1..]| && meters[1..][i].id == id
          && MetersFor(meters[1..], id) == Some(Persisted(meters[1..][i].meters));
        assert meters[i + 1] == meters[1..][i];
      }
    }
  }

  predicate AllBehind(t: Table, meters: seq<LiveMeter>) {
    forall i :: 0 <= i < |meters| ==>
      OpenBehind(t, meters[i].id, Persisted(meters[i].meters)) && Fits(Persisted(meters[i].meters))
  }

  lemma {:induction false} CloseEachExact(t: Table, meters: seq<LiveMeter>, k: nat)
    requires Distinct(meters) && AllBehind(t, meters) && k < |t|
    ensures var (u, ok) := CloseEach(t, meters);
            && ok && |u| == |t|
            && u[k] == if t[k].open && MetersFor(meters, t[k].tunnel).Some?
                       then Settled(t[k], MetersFor(meters, t[k].tunnel).value) else t[k]
    decreases |meters|
  {
    if meters != [] {
      var id, s := meters[0].id, Persisted(meters[0].meters);
      CloseOne(t, id, s);
      var u := Execute(Execute(t, Flush(id, s)), Close(id, s));
      StillBehind(t, u, meters);
      CloseEachExact(u, meters[1..], k);
      MetersForIn(meters[1..], id);
    }
  }

  lemma StillBehind(t: Table, u: Table, meters: seq<LiveMeter>)
    requires meters != [] && Distinct(meters) && AllBehind(t, meters)
    requires |u| == |t| && forall i :: 0 <= i < |t| ==> u[i] == t[i] || !u[i].open
    ensures AllBehind(u, meters[1..]) && Distinct(meters[1..])
  {
  }

  /**
   After a quiescent flush-and-close, every row that was open for a live tunnel is closed with exactly
   that tunnel's live counters, and every other row is untouched.
   */
  lemma ShutdownIsExact(t: Table, c: Core, meters: seq<LiveMeter>, k: nat)
    requires Listing(c, meters, c.index.Keys)
    requires forall id :: id in c.index ==>
             OpenBehind(t, id, Persisted(TunnelMeters(c, id))) && Fits(Persisted(TunnelMeters(c, id)))
    requires k < |t|
    ensures var (u, ok) := CloseEach(t, meters);
            && ok && |u| == |t|
            && u[k] == if t[k].open && t[k].tunnel in c.index
                       then Settled(t[k], Persisted(TunnelMeters(c, t[k].tunnel))) else t[k]
  {
    forall i | 0 <= i < |meters|
      ensures OpenBehind(t, meters[i].id, Persisted(meters[i].meters)) && Fits(Persisted(meters[i].meters))
    {
      assert meters[i].id in c.index && meters[i].meters == TunnelMeters(c, meters[i].id);
    }
    CloseEachExact(t, meters, k);
    MetersForIn(meters, t[k].tunnel);
  }

  // ── session teardown ─────────────────────────────────────────────────────

  /** A row that has taken a last snapshot and been closed. */
  function Ended(row: Row, s: Snapshot): Row {
    row.Absorb(s).(open := false)
  }

  function ReadingOf(c: Core, id: Id): Snapshot {
    Persisted(TunnelMeters(c, id))
  }

  lemma CloseElsewhere(t: Table, id: Id, s: Snapshot, other: Id, r: Snapshot)
    requires id != other
    ensures var u := Execute(t, Close(id, s));
            && |u| == |t|
            && (Fails(u, Close(other, r)) <==> Fails(t, Close(other, r)))
  {
    var u := Execute(t, Close(id, s));
    assert forall i :: 0 <= i < |t| && t[i].Matches(other) ==> u[i] == t[i];
    assert forall i :: 0 <= i < |t| && u[i].Matches(other) ==> u[i] == t[i];
    if i :| 0 <= i < |u| && u[i].Matches(other) && u[i].Overflows(r) {
      assert t[i].Matches(other) && t[i].Overflows(r);
    }
    if i :| 0 <= i < |t| && t[i].Matches(other) && t[i].Overflows(r) {
      assert u[i].Matches(other) && u[i].Overflows(r);
    }
  }

  /**
   Exactly which rows a teardown closes, and with which counters: the open rows of the listed tunnels,
   each with the greater of what it had and what was read, unless the database refused the sum.
   */
  lemma {:induction false} CloseListedExact(t: Table, c: Core, ids: seq<Id>, k: nat)
    requires k < |t|
    ensures var u, id := CloseListed(t, c, ids), t[k].tunnel;
            && |u| == |t|
            && u[k] == if t[k].open && id in ids && !Fails(t, Close(id, ReadingOf(c, id)))
                       then Ended(t[k], ReadingOf(c, id)) else t[k]
    decreases |ids|
  {
    if ids != [] {
      var st := Close(ids[0], ReadingOf(c, ids[0]));
      var u := Execute(t, st);
      assert |u| == |t| && u[k] == if Fails(t, st) then t[k] else OnRow(t[k], st);
      CloseListedExact(u, c, ids[1..], k);
      if t[k].tunnel != ids[0] {
        CloseElsewhere(t, ids[0], ReadingOf(c, ids[0]), t[k].tunnel, ReadingOf(c, t[k].tunnel));
      }
    }
  }

  /** A row that is behind what is read ends with exactly that. */
  lemma BehindEndsSettled(t: Table, id: Id, s: Snapshot)
    requires OpenBehind(t, id, s) && Fits(s)
    ensures !Fails(t, Close(id, s))
    ensures forall i :: 0 <= i < |t| && t[i].Matches(id) ==> Ended(t[i], s) == Settled(t[i], s)
  {
  }
}
