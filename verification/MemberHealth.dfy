/**
 The health fields of a group member over whole runs, from the reports that the server accepted for it:
 its bit, its streak, its failure total and its event ring.
 */
module MemberHealth {
  import opened Basics
  import opened Routing
  import opened RoutingInvariant
  import opened RoutingRuns
  import opened RoutingLedger

  // ── what reports amount to ───────────────────────────────────────────────

  datatype Report = Report(up: bool, reason: string)

  /** The failures since the last success. */
  function Trailing(heard: seq<Report>): nat {
    if heard == [] || heard[|heard| - 1].up then 0 else 1 + Trailing(heard[..|heard| - 1])
  }

  function Failures(heard: seq<Report>): nat {
    if heard == [] then 0 else Failures(heard[..|heard| - 1]) + if heard[|heard| - 1].up then 0 else 1
  }

  predicate UpAfter(heard: seq<Report>, first: bool) {
    if heard == [] then first else heard[|heard| - 1].up
  }

  /** The reports that differ from the one before them. */
  function Edges(heard: seq<Report>, first: bool): seq<HealthEvent> {
    if heard == [] then []
    else
      var before, last := heard[..|heard| - 1], heard[|heard| - 1];
      Edges(before, first) + if last.up == UpAfter(before, first) then [] else [HealthEvent(last.up, last.reason)]
  }

  /** A group member's ring starts with its registration. */
  function Opening(spec: Option<HealthSpec>, keyed: bool): seq<HealthEvent> {
    if !keyed then []
    else if spec == None then [HealthEvent(true, "registered")]
    else [HealthEvent(false, "registered (awaiting first probe)")]
  }

  /** The member is what its reports made of it: it started healthy only without probes. */
  predicate Reflects(m: Member, keyed: bool, heard: seq<Report>) {
    && m.healthy == UpAfter(heard, m.spec == None)
    && m.streak == Trailing(heard)
    && m.failures == Failures(heard)
    && m.events == LastOf(Opening(m.spec, keyed) + Edges(heard, m.spec == None), 50)
  }

  lemma RingPush<T>(s: seq<T>, x: T, n: nat)
    requires n > 0
    ensures LastOf(s + [x], n) == (if |LastOf(s, n)| >= n then LastOf(s, n)[1..] else LastOf(s, n)) + [x]
  {
  }

  lemma OneMore(heard: seq<Report>, r: Report)
    ensures (heard + [r])[..|heard|] == heard
  {
  }

  lemma UpReflects(m: Member, keyed: bool, heard: seq<Report>)
    requires Reflects(m, keyed, heard)
    ensures Reflects(m.Up(), keyed, heard + [Report(true, "recovered")])
  {
    OneMore(heard, Report(true, "recovered"));
    RingPush(Opening(m.spec, keyed) + Edges(heard, m.spec == None), HealthEvent(true, "recovered"), 50);
    SumOf(Opening(m.spec, keyed), Edges(heard, m.spec == None), HealthEvent(true, "recovered"));
  }

  lemma DownReflects(m: Member, keyed: bool, heard: seq<Report>, reason: string)
    requires Reflects(m, keyed, heard)
    ensures Reflects(m.Down(reason), keyed, heard + [Report(false, reason)])
  {
    OneMore(heard, Report(false, reason));
    RingPush(Opening(m.spec, keyed) + Edges(heard, m.spec == None), HealthEvent(false, reason), 50);
    SumOf(Opening(m.spec, keyed), Edges(heard, m.spec == None), HealthEvent(false, reason));
  }

  lemma SumOf<T>(a: seq<T>, b: seq<T>, x: T)
    ensures a + (b + [x]) == a + b + [x] && a + (b + []) == a + b
  {
    assert b + [] == b;
  }

  // ── reports in a run ─────────────────────────────────────────────────────

  /** The reports accepted for a tunnel since it was registered. */
  function Hear(c: Core, heard: seq<Report>, op: Op, id: Id): seq<Report> {
    if NewId(op) == Some(id) && Replied(c, op).Accepted? then []
    else
      match op
      case TunnelHealthy(session, x) =>
        if x == id && Reports(c, session, x) then heard + [Report(true, "recovered")] else heard
      case TunnelUnhealthy(session, x, reason) =>
        if x == id && Reports(c, session, x) then heard + [Report(false, reason)] else heard
      case _ => heard
  }

  function RunHeard(c: Core, heard: seq<Report>, ops: seq<Op>, id: Id): seq<Report>
    decreases |ops|
  {
    if ops == [] then heard else RunHeard(Apply(c, ops[0]), Hear(c, heard, ops[0], id), ops[1..], id)
  }

  predicate Told(c: Core, id: Id, heard: seq<Report>) {
    HasMember(c, id) ==> Reflects(MemberOf(c, id), GroupOf(c, id).keyHash.Some?, heard)
  }

  /** The same member, but for its counters. */
  predicate Untouched(c: Core, d: Core, id: Id) {
    HasMember(d, id) ==>
      && HasMember(c, id)
      && MemberOf(d, id) == MemberOf(c, id).(info := MemberOf(d, id).info)
      && GroupOf(d, id).keyHash == GroupOf(c, id).keyHash
  }

  lemma RemovalLeaves(c: Core, x: Id, id: Id)
    ensures Untouched(c, RemoveTunnel(c, x), id)
  {
    if HasMember(RemoveTunnel(c, x), id) {
      RemovedGroup(c, x, RemoveTunnel(c, x).index[id]);
    }
  }

  lemma {:induction false} RemovalsLeave(c: Core, ids: seq<Id>, id: Id)
    ensures Untouched(c, RemoveTunnels(c, ids), id)
    decreases |ids|
  {
    if ids != [] {
      RemovalLeaves(c, ids[0], id);
      RemovalsLeave(RemoveTunnel(c, ids[0]), ids[1..], id);
    }
  }

  lemma GrowthLeaves(c: Core, d: Core, reply: Reply, id: Id)
    requires Grows(c, d, reply) && (reply.Accepted? ==> reply.id != id)
    ensures Untouched(c, d, id)
  {
  }

  lemma TrafficLeaves(c: Core, op: Op, id: Id)
    requires op.Dispatch? || op.DispatchP2p? || op.Proxied? || op.OpenSession?
    ensures Untouched(c, Apply(c, op), id)
  {
  }

  lemma HealthyLeaves(c: Core, session: Id, x: Id, id: Id)
    requires !(x == id && Reports(c, session, x))
    ensures Untouched(c, HealthyFrame(c, session, x), id)
  {
  }

  lemma PopLeaves(c: Core, x: Id, id: Id)
    ensures Untouched(c, PopAlert(c, x).0, id)
    ensures HasMember(c, id) ==> HasMember(PopAlert(c, x).0, id)
  {
  }

  lemma UnhealthyLeaves(c: Core, session: Id, x: Id, reason: string, id: Id)
    requires !(x == id && Reports(c, session, x))
    ensures Untouched(c, UnhealthyFrame(c, session, x, reason).0, id)
  {
    if Reports(c, session, x) {
      var d := MarkDown(c, x, reason);
      assert Untouched(c, d, id);
      PopLeaves(d, x, id);
    }
  }

  lemma ReportTold(c: Core, op: Op, id: Id, heard: seq<Report>)
    requires Told(c, id, heard)
    requires (op.TunnelHealthy? || op.TunnelUnhealthy?) && op.id == id && Reports(c, op.session, id)
    ensures Told(Apply(c, op), id, Hear(c, heard, op, id))
  {
    var m, keyed := MemberOf(c, id), GroupOf(c, id).keyHash.Some?;
    if op.TunnelHealthy? {
      UpReflects(m, keyed, heard);
    } else {
      DownReflects(m, keyed, heard, op.reason);
      var d := MarkDown(c, id, op.reason);
      assert HasMember(d, id) && MemberOf(d, id) == m.Down(op.reason);
      PopLeaves(d, id, id);
    }
  }

  lemma NewcomerTold(c: Core, r: Ranges, op: Op, id: Id)
    requires Inv(c, r) && NewId(op) == Some(id) && Replied(c, op).Accepted?
    ensures Told(Apply(c, op), id, [])
  {
    NextPortsAreFree(c, r);
    match op {
      case RegHttp(session, subdomain, generated, protocol, spec, _) =>
        HttpTold(c, session, subdomain, generated, protocol, spec, id);
      case RegTcp(session, spec, name, _) => TcpTold(c, session, spec, name, id);
      case _ =>
    }
  }

  lemma StartsReflected(info: TunnelInfo, spec: Option<GroupSpec>)
    ensures Reflects(FirstMember(info, spec), spec.Some?, [])
    ensures spec.Some? ==> Reflects(Probed(info, spec.value.health), true, [])
  {
    assert forall events: seq<HealthEvent> :: events + [] == events;
  }

  lemma PlacedTold(c: Core, key: Key, group: Group, m: Member)
    requires !key.P2pKey? && Reflects(m, group.keyHash.Some?, [])
    ensures Told(Place(c, key, group, m), m.info.id, [])
  {
  }

  lemma HttpTold(c: Core, session: Id, subdomain: Option<string>, generated: string, protocol: Protocol,
                 spec: Option<GroupSpec>, id: Id)
    requires RegisterHttp(c, session, subdomain, generated, protocol, spec, id).1.Accepted?
    ensures Told(RegisterHttp(c, session, subdomain, generated, protocol, spec, id).0, id, [])
  {
    var tag := if subdomain.Some? then subdomain.value else generated;
    var key := HttpKey(tag);
    var info := TunnelInfo(session, id, protocol, Some(tag), None, ZERO);
    StartsReflected(info, spec);
    HttpIsPlaced(c, session, subdomain, generated, protocol, spec, id);
    if key !in c.routes {
      PlacedTold(c, key, FirstGroup(tag, spec), FirstMember(info, spec));
    } else {
      assert c.routes[key].keyHash.Some?;
      PlacedTold(c, key, c.routes[key], Probed(info, spec.value.health));
    }
  }

  lemma TcpTold(c: Core, session: Id, spec: Option<GroupSpec>, name: nat -> string, id: Id)
    requires GroupsIndexed(c)
    requires RegisterTcp(c, session, spec, name, id).1.Accepted?
    requires c.tcpFree != [] ==> TcpKey(c.tcpFree[|c.tcpFree| - 1]) !in c.routes
    ensures Told(RegisterTcp(c, session, spec, name, id).0, id, [])
  {
    var key := RegisterTcp(c, session, spec, name, id).1.key;
    var info := TcpInfo(session, id, key.port);
    StartsReflected(info, spec);
    if key in c.routes {
      assert Named(c.routes[key], (spec.value.name, spec.value.keyHash));
      PlacedTold(c, key, c.routes[key], Probed(info, spec.value.health));
    } else {
      PlacedTold(c, key, FirstGroup(name(key.port), spec), FirstMember(info, spec));
    }
  }

  lemma OthersLeave(c: Core, r: Ranges, op: Op, id: Id)
    requires Inv(c, r)
    requires NewId(op) == Some(id) ==> Replied(c, op).Refused?
    requires (op.TunnelHealthy? || op.TunnelUnhealthy?) && op.id == id ==> !Reports(c, op.session, id)
    ensures Untouched(c, Apply(c, op), id)
  {
    if NewId(op).Some? {
      RegistrationGrows(c, r, op);
      GrowthLeaves(c, Apply(c, op), Replied(c, op), id);
    } else {
      match op {
        case Remove(x) => RemovalLeaves(c, x, id);
        case CloseSession(session) =>
          if session in c.sessions {
            RemovalsLeave(c.(sessions := c.sessions - {session}), c.sessions[session], id);
          }
        case TunnelHealthy(session, x) => HealthyLeaves(c, session, x, id);
        case TunnelUnhealthy(session, x, reason) => UnhealthyLeaves(c, session, x, reason, id);
        case _ => TrafficLeaves(c, op, id);
      }
    }
  }

  lemma StepTold(c: Core, r: Ranges, op: Op, id: Id, heard: seq<Report>)
    requires Inv(c, r) && Told(c, id, heard)
    ensures Told(Apply(c, op), id, Hear(c, heard, op, id))
  {
    if NewId(op) == Some(id) && Replied(c, op).Accepted? {
      NewcomerTold(c, r, op, id);
    } else if (op.TunnelHealthy? || op.TunnelUnhealthy?) && op.id == id && Reports(c, op.session, id) {
      ReportTold(c, op, id, heard);
    } else {
      OthersLeave(c, r, op, id);
    }
  }

  lemma {:induction false} RunTold(c: Core, r: Ranges, ops: seq<Op>, id: Id, heard: seq<Report>)
    requires Inv(c, r) && Told(c, id, heard) && AllAllowed(c, ops)
    ensures Told(RunOps(c, ops), id, RunHeard(c, heard, ops, id))
    decreases |ops|
  {
    if ops != [] {
      StepTold(c, r, ops[0], id, heard);
      ApplyKeeps(c, r, ops[0]);
      RunTold(Apply(c, ops[0]), r, ops[1..], id, Hear(c, heard, ops[0], id));
    }
  }

  /**
   After any run of a fresh server, each member is what its own reports since its registration made of
   it: the bit is the last report's, the streak counts the failures since the last success, the total all
   failures, and the ring holds the latest 50 of its registration and its changes of health.
   */
  lemma HealthIsExact(start: Core, r: Ranges, ops: seq<Op>, id: Id)
    requires Inv(start, r) && start.index == map[] && AllAllowed(start, ops)
    requires HasMember(RunOps(start, ops), id)
    ensures var c, heard := RunOps(start, ops), RunHeard(start, [], ops, id);
            var m := MemberOf(c, id);
            && m.healthy == UpAfter(heard, m.spec == None)
            && m.streak == Trailing(heard)
            && m.failures == Failures(heard)
            && m.events == LastOf(Opening(m.spec, GroupOf(c, id).keyHash.Some?) + Edges(heard, m.spec == None), 50)
  {
    RunTold(start, r, ops, id, []);
  }
}
