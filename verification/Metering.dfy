/**
 Persisting tunnel counters: absolute snapshots, possibly stale or reordered, merged into rows that
 close once. A statement is one atomic transition of the table.
 */
module Metering {
  import opened Basics
  import opened Routing

  const I64_MAX := 0x7FFF_FFFF_FFFF_FFFF

  /** A 64-bit counter as the signed column type can hold it. */
  function AsI64(v: nat): nat {
    Min(v, I64_MAX)
  }

  datatype Column = Requests | BytesIn | BytesOut

  /** The persisted part of a tunnel's counters. */
  datatype Snapshot = Snapshot(requests: nat, bytesIn: nat, bytesOut: nat) {
    function Get(col: Column): nat {
      match col
      case Requests => requests
      case BytesIn => bytesIn
      case BytesOut => bytesOut
    }
  }

  datatype Row = Row(
    tunnel: Id, region: Option<string>, requests: nat, bytesIn: nat, bytesOut: nat, proxied: nat, open: bool)
  {
    function Get(col: Column): nat {
      match col
      case Requests => requests
      case BytesIn => bytesIn
      case BytesOut => bytesOut
    }

    predicate Matches(id: Id) {
      open && tunnel == id
    }

    function Absorb(s: Snapshot): Row {
      var bytesIn' := Max(bytesIn, AsI64(s.bytesIn));
      var bytesOut' := Max(bytesOut, AsI64(s.bytesOut));
      this.(requests := Max(requests, AsI64(s.requests)), bytesIn := bytesIn', bytesOut := bytesOut',
            proxied := bytesIn' + bytesOut')
    }

    /** The database refuses a sum that its column cannot hold. */
    predicate Overflows(s: Snapshot) {
      Absorb(s).proxied > I64_MAX
    }
  }

  type Table = seq<Row>

  datatype Statement =
    | Insert(tunnel: Id, region: string)
    | Flush(tunnel: Id, snapshot: Snapshot)
    | Close(tunnel: Id, snapshot: Snapshot)
    | CloseStale(region: string)

  /** A statement that fails changes no row. */
  predicate Fails(t: Table, st: Statement) {
    (st.Flush? || st.Close?) && exists i :: 0 <= i < |t| && t[i].Matches(st.tunnel) && t[i].Overflows(st.snapshot)
  }

  function OnRow(row: Row, st: Statement): Row {
    match st
    case Insert(_, _) => row
    case Flush(id, s) => if row.Matches(id) then row.Absorb(s) else row
    case Close(id, s) => if row.Matches(id) then row.Absorb(s).(open := false) else row
    case CloseStale(region) => if row.open && row.region == Some(region) then row.(open := false) else row
  }

  function Execute(t: Table, st: Statement): (u: Table)
    ensures |u| >= |t|
  {
    if Fails(t, st) then t
    else
      seq(|t|, i requires 0 <= i < |t| => OnRow(t[i], st)) +
      if st.Insert? then [Row(st.tunnel, Some(st.region), 0, 0, 0, 0, true)] else []
  }

  function ExecuteAll(t: Table, sts: seq<Statement>): (u: Table)
    ensures |u| >= |t|
    decreases |sts|
  {
    if sts == [] then t else ExecuteAll(Execute(t, sts[0]), sts[1..])
  }

  // ── one row over any history of statements ───────────────────────────────

  /** The snapshots that statements applied to row `i` while it was open. */
  function Applied(t: Table, sts: seq<Statement>, i: nat): seq<Snapshot>
    requires i < |t|
    decreases |sts|
  {
    if sts == [] then []
    else
      (if (sts[0].Flush? || sts[0].Close?) && t[i].Matches(sts[0].tunnel) && !Fails(t, sts[0])
       then [sts[0].snapshot]
       else [])
      + Applied(Execute(t, sts[0]), sts[1..], i)
  }

  /** `x` is the greatest of `start` and the snapshots' readings of one column, each held to its limit. */
  predicate Greatest(x: nat, start: nat, ss: seq<Snapshot>, col: Column) {
    && start <= x
    && (forall s :: s in ss ==> Min(s.Get(col), I64_MAX) <= x)
    && (x == start || exists s :: s in ss && x == Min(s.Get(col), I64_MAX))
  }

  ghost predicate Merged(before: Row, after: Row, ss: seq<Snapshot>) {
    && (forall col :: Greatest(after.Get(col), before.Get(col), ss, col))
    && after.proxied == (if ss == [] then before.proxied else after.bytesIn + after.bytesOut)
    && after.tunnel == before.tunnel && after.region == before.region
    && (!before.open ==> after == before && ss == [])
  }

  lemma GreatestStep(x: nat, start: nat, s: Snapshot, ss: seq<Snapshot>, col: Column)
    requires Greatest(x, Max(start, AsI64(s.Get(col))), ss, col)
    ensures Greatest(x, start, [s] + ss, col)
  {
  }

  /**
   Row merge. Whatever the order and repetition of flushes, closes, stale-closes and failures: a
   row's counters are the greatest of its start and the snapshots applied to it while it was open,
   its total is the sum of its directions once any counter was written, and closed it never changes.
   */
  lemma {:induction false} RowMerge(t: Table, sts: seq<Statement>, i: nat)
    requires i < |t|
    ensures Merged(t[i], ExecuteAll(t, sts)[i], Applied(t, sts, i))
    decreases |sts|
  {
    if sts != [] {
      var u := Execute(t, sts[0]);
      RowMerge(u, sts[1..], i);
      MergeStep(t, sts[0], i, ExecuteAll(u, sts[1..])[i], Applied(u, sts[1..], i));
    }
  }

  lemma MergeStep(t: Table, st: Statement, i: nat, after: Row, ss: seq<Snapshot>)
    requires i < |t| && Merged(Execute(t, st)[i], after, ss)
    ensures var taken := (st.Flush? || st.Close?) && t[i].Matches(st.tunnel) && !Fails(t, st);
            Merged(t[i], after, (if taken then [st.snapshot] else []) + ss)
  {
    var row, mid := t[i], Execute(t, st)[i];
    assert [] + ss == ss;
    if (st.Flush? || st.Close?) && t[i].Matches(st.tunnel) && !Fails(t, st) {
      forall col
        ensures Greatest(after.Get(col), row.Get(col), [st.snapshot] + ss, col)
      {
        assert mid.Get(col) == Max(row.Get(col), AsI64(st.snapshot.Get(col)));
        GreatestStep(after.Get(col), row.Get(col), st.snapshot, ss, col);
      }
      if ss == [] {
        assert Greatest(after.Get(BytesIn), mid.Get(BytesIn), ss, BytesIn);
        assert Greatest(after.Get(BytesOut), mid.Get(BytesOut), ss, BytesOut);
      }
    } else {
      assert forall col :: mid.Get(col) == row.Get(col);
    }
  }

  /** Only which snapshots were applied matters, not their order or number. */
  lemma OrderDoesNotMatter(before: Row, a: Row, b: Row, ss: seq<Snapshot>, tt: seq<Snapshot>)
    requires Merged(before, a, ss) && Merged(before, b, tt)
    requires forall s :: s in ss <==> s in tt
    ensures a.(open := b.open) == b
  {
    forall col
      ensures a.Get(col) == b.Get(col)
    {
      assert Greatest(a.Get(col), before.Get(col), ss, col) && Greatest(b.Get(col), before.Get(col), tt, col);
    }
    assert a.Get(Requests) == b.Get(Requests) && a.Get(BytesIn) == b.Get(BytesIn) && a.Get(BytesOut) == b.Get(BytesOut);
    assert ss == [] <==> tt == [] by {
      if ss != [] { assert ss[0] in tt; }
      if tt != [] { assert tt[0] in ss; }
    }
  }

  // ── live counters, readings in flight and the table, interleaved ─────────

  /** A snapshot being taken: the three counters are loaded one after the other. */
  datatype Reading = Reading(tunnel: Id, loaded: nat, snapshot: Snapshot)

  /** `live` holds the counters of every tunnel ever registered; they outlive the routing entry. */
  datatype System = System(live: map<Id, Snapshot>, flight: map<nat, Reading>, table: Table)

  datatype Move =
    | Register(tunnel: Id, region: string)
    | Serve(tunnel: Id)
    | Carry(tunnel: Id, inbound: nat, outbound: nat)
    /** Start a snapshot in a slot; a tunnel no longer routed reads as zeros at once. */
    | Begin(slot: nat, tunnel: Id, routed: bool)
    | Load(slot: nat)
    | WriteFlush(slot: nat)
    | WriteClose(slot: nat)
    | Sweep(region: string)

  const NOTHING := Snapshot(0, 0, 0)

  function LoadNext(r: Reading, live: Snapshot): Reading {
    match r.loaded
    case 0 => r.(loaded := 1, snapshot := r.snapshot.(requests := live.requests))
    case 1 => r.(loaded := 2, snapshot := r.snapshot.(bytesIn := live.bytesIn))
    case 2 => r.(loaded := 3, snapshot := r.snapshot.(bytesOut := live.bytesOut))
    case _ => r
  }

  /** A reading is written only once it is complete. */
  function Ready(sys: System, slot: nat): bool {
    slot in sys.flight && sys.flight[slot].loaded >= 3
  }

  function Moved(sys: System, m: Move): System {
    match m
    case Register(id, region) =>
      if id in sys.live then sys
      else sys.(live := sys.live[id := NOTHING], table := Execute(sys.table, Insert(id, region)))
    case Serve(id) =>
      if id !in sys.live then sys
      else sys.(live := sys.live[id := sys.live[id].(requests := sys.live[id].requests + 1)])
    case Carry(id, inbound, outbound) =>
      if id !in sys.live then sys
      else
        var s := sys.live[id];
        sys.(live := sys.live[id := s.(bytesIn := s.bytesIn + inbound, bytesOut := s.bytesOut + outbound)])
    case Begin(slot, id, routed) =>
      sys.(flight := sys.flight[slot := Reading(id, if routed && id in sys.live then 0 else 3, NOTHING)])
    case Load(slot) =>
      if slot !in sys.flight || sys.flight[slot].tunnel !in sys.live then sys
      else sys.(flight := sys.flight[slot := LoadNext(sys.flight[slot], sys.live[sys.flight[slot].tunnel])])
    case WriteFlush(slot) =>
      if !Ready(sys, slot) then sys
      else sys.(table := Execute(sys.table, Flush(sys.flight[slot].tunnel, sys.flight[slot].snapshot)))
    case WriteClose(slot) =>
      if !Ready(sys, slot) then sys
      else sys.(table := Execute(sys.table, Close(sys.flight[slot].tunnel, sys.flight[slot].snapshot)))
    case Sweep(region) => sys.(table := Execute(sys.table, CloseStale(region)))
  }

  function MoveAll(sys: System, ms: seq<Move>): System
    decreases |ms|
  {
    if ms == [] then sys else MoveAll(Moved(sys, ms[0]), ms[1..])
  }

  predicate Below(s: Snapshot, t: Snapshot) {
    s.requests <= t.requests && s.bytesIn <= t.bytesIn && s.bytesOut <= t.bytesOut
  }

  predicate RowBelow(row: Row, t: Snapshot) {
    row.requests <= t.requests && row.bytesIn <= t.bytesIn && row.bytesOut <= t.bytesOut
  }

  /** Neither the rows nor the readings ever run ahead of the live counters. */
  predicate Behind(sys: System) {
    && (forall i :: 0 <= i < |sys.table| ==>
          && sys.table[i].tunnel in sys.live && RowBelow(sys.table[i], sys.live[sys.table[i].tunnel])
          && sys.table[i].proxied == sys.table[i].bytesIn + sys.table[i].bytesOut)
    && (forall slot :: slot in sys.flight ==> ReadingBehind(sys, sys.flight[slot]))
  }

  predicate ReadingBehind(sys: System, r: Reading) {
    if r.tunnel in sys.live then Below(r.snapshot, sys.live[r.tunnel]) else r.snapshot == NOTHING
  }

  lemma ExecuteBehind(sys: System, st: Statement)
    requires Behind(sys)
    requires (st.Flush? || st.Close?) && st.tunnel in sys.live ==> Below(st.snapshot, sys.live[st.tunnel])
    requires st.Insert? ==> st.tunnel in sys.live
    ensures Behind(sys.(table := Execute(sys.table, st)))
  {
    var t, u := sys.table, Execute(sys.table, st);
    forall slot | slot in sys.flight
      ensures ReadingBehind(sys.(table := u), sys.flight[slot])
    {
      assert ReadingBehind(sys, sys.flight[slot]);
    }
  }

  /** Counters only grow, so what was behind stays behind. */
  lemma GrowBehind(sys: System, id: Id, s: Snapshot)
    requires Behind(sys) && id in sys.live && Below(sys.live[id], s)
    ensures Behind(sys.(live := sys.live[id := s]))
  {
  }

  lemma RegisterBehind(sys: System, id: Id)
    requires Behind(sys) && id !in sys.live
    ensures Behind(sys.(live := sys.live[id := NOTHING]))
  {
  }

  lemma FlightBehind(sys: System, slot: nat, r: Reading)
    requires Behind(sys) && ReadingBehind(sys, r)
    ensures Behind(sys.(flight := sys.flight[slot := r]))
  {
  }

  lemma MoveBehind(sys: System, m: Move)
    requires Behind(sys)
    ensures Behind(Moved(sys, m))
  {
    match m {
      case Register(id, region) =>
        if id !in sys.live {
          RegisterBehind(sys, id);
          ExecuteBehind(sys.(live := sys.live[id := NOTHING]), Insert(id, region));
        }
      case Serve(id) =>
        if id in sys.live {
          GrowBehind(sys, id, sys.live[id].(requests := sys.live[id].requests + 1));
        }
      case Carry(id, inbound, outbound) =>
        if id in sys.live {
          var s := sys.live[id];
          GrowBehind(sys, id, s.(bytesIn := s.bytesIn + inbound, bytesOut := s.bytesOut + outbound));
        }
      case Begin(slot, id, routed) =>
        FlightBehind(sys, slot, Reading(id, if routed && id in sys.live then 0 else 3, NOTHING));
      case Load(slot) =>
        if slot in sys.flight && sys.flight[slot].tunnel in sys.live {
          assert ReadingBehind(sys, sys.flight[slot]);
          FlightBehind(sys, slot, LoadNext(sys.flight[slot], sys.live[sys.flight[slot].tunnel]));
        }
      case Sweep(region) => ExecuteBehind(sys, CloseStale(region));
      case _ => WriteBehind(sys, m);
    }
  }

  lemma WriteBehind(sys: System, m: Move)
    requires Behind(sys) && (m.WriteFlush? || m.WriteClose?)
    ensures Behind(Moved(sys, m))
  {
    if Ready(sys, m.slot) {
      var r := sys.flight[m.slot];
      assert ReadingBehind(sys, r);
      ExecuteBehind(sys, if m.WriteFlush? then Flush(r.tunnel, r.snapshot) else Close(r.tunnel, r.snapshot));
    }
  }

  /**
   End to end. In every interleaving of traffic with snapshots taken piece by piece, kept, written
   late, repeated or out of order, no row ever exceeds its tunnel's live counters.
   */
  lemma {:induction false} RowsNeverRunAhead(sys: System, ms: seq<Move>)
    requires Behind(sys)
    ensures Behind(MoveAll(sys, ms))
    decreases |ms|
  {
    if ms != [] {
      MoveBehind(sys, ms[0]);
      RowsNeverRunAhead(Moved(sys, ms[0]), ms[1..]);
    }
  }
}
