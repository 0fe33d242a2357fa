/**
 Alerts and request counts over whole runs, accounted for by a log that the core never reads.
 */
module RoutingLedger {
  import opened Basics
  import opened Routing
  import opened RoutingInvariant
  import opened RoutingRuns

  /** What one step did, as far as alerts and counts are concerned. */
  datatype Event =
    | Issued(id: Id, key: Key, created: bool)
    | Recovered(key: Key)
    | Alerted(key: Key)
    | Resolved(id: Id)
    | Carried(id: Id, inbound: nat, outbound: nat)
    | Quiet

  function Registration(c: Core, reply: Reply): Event {
    match reply
    case Accepted(id, key) => Issued(id, key, key !in c.routes)
    case Refused(_) => Quiet
  }

  function Resolution(found: Option<TunnelInfo>): Event {
    if found.Some? then Resolved(found.value.id) else Quiet
  }

  function Observe(c: Core, op: Op): Event {
    match op
    case RegHttp(session, subdomain, generated, protocol, spec, id) =>
      Registration(c, RegisterHttp(c, session, subdomain, generated, protocol, spec, id).1)
    case RegTcp(session, spec, name, id) => Registration(c, RegisterTcp(c, session, spec, name, id).1)
    case RegUdp(session, name, id) => Registration(c, RegisterUdp(c, session, name, id).1)
    case RegP2p(session, name, secretHash, id) => Registration(c, RegisterP2p(c, session, name, secretHash, id).1)
    case TunnelHealthy(session, id) => if Reports(c, session, id) then Recovered(c.index[id]) else Quiet
    case TunnelUnhealthy(session, id, reason) =>
      if UnhealthyFrame(c, session, id, reason).1.Some? then Alerted(c.index[id]) else Quiet
    case Dispatch(key, choice) => Resolution(Resolve(c, key, choice).1)
    case DispatchP2p(name) => Resolution(ResolveP2p(c, name).1)
    case Proxied(id, inbound, outbound) => if id in c.index then Carried(id, inbound, outbound) else Quiet
    case _ => Quiet
  }

  function RunLog(c: Core, log: seq<Event>, ops: seq<Op>): seq<Event>
    decreases |ops|
  {
    if ops == [] then log else RunLog(Apply(c, ops[0]), log + [Observe(c, ops[0])], ops[1..])
  }

  predicate EverIssued(log: seq<Event>, id: Id) {
    exists i :: 0 <= i < |log| && log[i].Issued? && log[i].id == id
  }

  function NewId(op: Op): Option<Id> {
    match op
    case RegHttp(_, _, _, _, _, id) => Some(id)
    case RegTcp(_, _, _, id) => Some(id)
    case RegUdp(_, _, id) => Some(id)
    case RegP2p(_, _, _, id) => Some(id)
    case _ => None
  }

  /** As `AllAllowed`, and no tunnel identifier is ever issued twice. */
  predicate Fair(c: Core, log: seq<Event>, ops: seq<Op>)
    decreases |ops|
  {
    ops != [] ==>
      && Allowed(c, ops[0])
      && (NewId(ops[0]).Some? ==> !EverIssued(log, NewId(ops[0]).value))
      && Fair(Apply(c, ops[0]), log + [Observe(c, ops[0])], ops[1..])
  }

  // ── alerts ───────────────────────────────────────────────────────────────

  predicate Rearms(e: Event, key: Key) {
    e == Recovered(key) || (e.Issued? && e.created && e.key == key)
  }

  /** An alert has been raised for `key` since its group was created or last had a healthy report. */
  predicate AlertedSince(log: seq<Event>, key: Key) {
    log != [] &&
    var e := log[|log| - 1];
    e == Alerted(key) || (!Rearms(e, key) && AlertedSince(log[..|log| - 1], key))
  }

  /** The debounce flags are the log's answer. */
  predicate Debounced(c: Core, log: seq<Event>) {
    forall key :: key in c.routes ==> c.routes[key].alerted == AlertedSince(log, key)
  }

  lemma LogGrows(log: seq<Event>, e: Event, key: Key)
    ensures AlertedSince(log + [e], key) == (e == Alerted(key) || (!Rearms(e, key) && AlertedSince(log, key)))
  {
    assert (log + [e])[..|log|] == log;
  }

  /** What every registration does to the tables: nothing, or one new tunnel with zero counters. */
  predicate Grows(c: Core, d: Core, reply: Reply)
  {
    match reply
    case Refused(_) => d == c
    case Accepted(id, key) =>
      && d.index == c.index[id := key]
      && if key.P2pKey? then
        && d.routes == c.routes && key.name in d.p2p
        && d.p2p == c.p2p[key.name := d.p2p[key.name]]
        && d.p2p[key.name].info.meters == ZERO && d.p2p[key.name].info.id == id
      else
        && d.p2p == c.p2p && key in d.routes && id in d.routes[key].members
        && d.routes == c.routes[key := d.routes[key]]
        && d.routes[key].members[id].info.meters == ZERO
        && (if key in c.routes
            then d.routes[key] == c.routes[key].(members := c.routes[key].members[id := d.routes[key].members[id]])
            else !d.routes[key].alerted && d.routes[key].members == map[id := d.routes[key].members[id]])
  }

  function Replied(c: Core, op: Op): Reply
    requires NewId(op).Some?
  {
    match op
    case RegHttp(session, subdomain, generated, protocol, spec, id) =>
      RegisterHttp(c, session, subdomain, generated, protocol, spec, id).1
    case RegTcp(session, spec, name, id) => RegisterTcp(c, session, spec, name, id).1
    case RegUdp(session, name, id) => RegisterUdp(c, session, name, id).1
    case RegP2p(session, name, secretHash, id) => RegisterP2p(c, session, name, secretHash, id).1
  }

  lemma PlaceGrows(c: Core, key: Key, group: Group, m: Member)
    requires !key.P2pKey? && m.info.meters == ZERO
    requires if key in c.routes then group == c.routes[key] else group.members == map[] && !group.alerted
    ensures Grows(c, Place(c, key, group, m), Accepted(m.info.id, key))
  {
  }

  lemma HttpGrows(c: Core, session: Id, subdomain: Option<string>, generated: string, protocol: Protocol,
                  spec: Option<GroupSpec>, id: Id)
    ensures var (d, reply) := RegisterHttp(c, session, subdomain, generated, protocol, spec, id); Grows(c, d, reply)
  {
    var (d, reply) := RegisterHttp(c, session, subdomain, generated, protocol, spec, id);
    if reply.Accepted? {
      var tag := if subdomain.Some? then subdomain.value else generated;
      var info := TunnelInfo(session, id, protocol, Some(tag), None, ZERO);
      HttpIsPlaced(c, session, subdomain, generated, protocol, spec, id);
      if HttpKey(tag) !in c.routes {
        PlaceGrows(c, HttpKey(tag), FirstGroup(tag, spec), FirstMember(info, spec));
      } else {
        PlaceGrows(c, HttpKey(tag), c.routes[HttpKey(tag)], Probed(info, spec.value.health));
      }
    }
  }

  /** An accepted registration places its member in a new group or in the one that is there. */
  lemma HttpIsPlaced(c: Core, session: Id, subdomain: Option<string>, generated: string, protocol: Protocol,
                     spec: Option<GroupSpec>, id: Id)
    requires RegisterHttp(c, session, subdomain, generated, protocol, spec, id).1.Accepted?
    ensures var tag := if subdomain.Some? then subdomain.value else generated;
            var info := TunnelInfo(session, id, protocol, Some(tag), None, ZERO);
            var (d, reply) := RegisterHttp(c, session, subdomain, generated, protocol, spec, id);
            && reply == Accepted(id, HttpKey(tag))
            && if HttpKey(tag) !in c.routes
               then d == Place(c, HttpKey(tag), FirstGroup(tag, spec), FirstMember(info, spec))
               else spec.Some? && d == Place(c, HttpKey(tag), c.routes[HttpKey(tag)], Probed(info, spec.value.health))
  {
  }

  lemma TcpGrows(c: Core, session: Id, spec: Option<GroupSpec>, name: nat -> string, id: Id)
    requires c.tcpFree != [] ==> TcpKey(c.tcpFree[|c.tcpFree| - 1]) !in c.routes
    ensures var (d, reply) := RegisterTcp(c, session, spec, name, id); Grows(c, d, reply)
  {
    if spec.Some? && (spec.value.name, spec.value.keyHash) in c.tcpIndex {
      var port := c.tcpIndex[(spec.value.name, spec.value.keyHash)];
      if TcpKey(port) in c.routes {
        PlaceGrows(c, TcpKey(port), c.routes[TcpKey(port)], Probed(TcpInfo(session, id, port), spec.value.health));
      }
    } else if c.tcpFree != [] {
      var port := c.tcpFree[|c.tcpFree| - 1];
      PlaceGrows(c, TcpKey(port), FirstGroup(name(port), spec), FirstMember(TcpInfo(session, id, port), spec));
    }
  }

  lemma UdpGrows(c: Core, session: Id, name: nat -> string, id: Id)
    requires c.udpFree != [] ==> UdpKey(c.udpFree[|c.udpFree| - 1]) !in c.routes
    ensures var (d, reply) := RegisterUdp(c, session, name, id); Grows(c, d, reply)
  {
  }

  lemma P2pGrows(c: Core, session: Id, name: string, secretHash: string, id: Id)
    ensures var (d, reply) := RegisterP2p(c, session, name, secretHash, id); Grows(c, d, reply)
  {
  }

  /** The next free ports are not routed. */
  lemma NextPortsAreFree(c: Core, r: Ranges)
    requires Inv(c, r)
    ensures c.tcpFree != [] ==> TcpKey(c.tcpFree[|c.tcpFree| - 1]) !in c.routes
    ensures c.udpFree != [] ==> UdpKey(c.udpFree[|c.udpFree| - 1]) !in c.routes
  {
    if c.tcpFree != [] {
      PortOf(c, c.tcpFree[|c.tcpFree| - 1]);
    }
    if c.udpFree != [] {
      PortOf(c, c.udpFree[|c.udpFree| - 1]);
    }
  }

  lemma RegistrationGrows(c: Core, r: Ranges, op: Op)
    requires Inv(c, r) && NewId(op).Some?
    ensures Grows(c, Apply(c, op), Replied(c, op)) && Observe(c, op) == Registration(c, Replied(c, op))
    ensures Replied(c, op).Accepted? ==> Replied(c, op).id == NewId(op).value
  {
    NextPortsAreFree(c, r);
    match op {
      case RegHttp(session, subdomain, generated, protocol, spec, id) =>
        HttpGrows(c, session, subdomain, generated, protocol, spec, id);
      case RegTcp(session, spec, name, id) => TcpGrows(c, session, spec, name, id);
      case RegUdp(session, name, id) => UdpGrows(c, session, name, id);
      case RegP2p(session, name, secretHash, id) => P2pGrows(c, session, name, secretHash, id);
    }
  }

  lemma GrowsFlag(c: Core, d: Core, reply: Reply, key: Key)
    requires Grows(c, d, reply) && key in d.routes
    ensures var e := Registration(c, reply);
            && d.routes[key].alerted == (!Rearms(e, key) && key in c.routes && c.routes[key].alerted)
            && (key !in c.routes ==> Rearms(e, key))
  {
  }

  lemma GrowsInfo(c: Core, d: Core, reply: Reply, key: Key, id: Id)
    requires Grows(c, d, reply) && Holds(d, key, id)
    ensures if Holds(c, key, id) && reply != Accepted(id, key) then InfoAt(d, key, id) == InfoAt(c, key, id)
            else reply == Accepted(id, key) && InfoAt(d, key, id).meters == ZERO
  {
  }

  /** How one step moves one flag. */
  lemma FlagAfter(c: Core, r: Ranges, op: Op, key: Key)
    requires Inv(c, r) && key in Apply(c, op).routes
    requires !op.CloseSession? && !op.Remove?
    ensures var e := Observe(c, op);
            && Apply(c, op).routes[key].alerted
               == (e == Alerted(key) || (!Rearms(e, key) && key in c.routes && c.routes[key].alerted))
            && (key !in c.routes ==> Rearms(e, key))
  {
    if NewId(op).Some? {
      RegistrationGrows(c, r, op);
      GrowsFlag(c, Apply(c, op), Replied(c, op), key);
    } else if op.TunnelUnhealthy? {
      UnhealthyFlag(c, op.session, op.id, op.reason, key);
    } else {
      ReportFlag(c, op, key);
    }
  }

  lemma ReportFlag(c: Core, op: Op, key: Key)
    requires key in Apply(c, op).routes
    requires op.OpenSession? || op.TunnelHealthy? || op.Dispatch? || op.DispatchP2p? || op.Proxied?
    ensures key in c.routes
    ensures Apply(c, op).routes[key].alerted == (Observe(c, op) != Recovered(key) && c.routes[key].alerted)
  {
    match op {
      case TunnelHealthy(session, id) =>
      case Dispatch(k, choice) =>
      case DispatchP2p(name) =>
      case Proxied(id, inbound, outbound) => TransferFlag(c, id, inbound, outbound, key);
      case OpenSession(session) =>
    }
  }

  lemma TransferFlag(c: Core, id: Id, inbound: nat, outbound: nat, key: Key)
    requires key in Transfer(c, id, inbound, outbound).routes
    ensures key in c.routes && Transfer(c, id, inbound, outbound).routes[key].alerted == c.routes[key].alerted
  {
  }

  lemma UnhealthyFlag(c: Core, session: Id, id: Id, reason: string, key: Key)
    requires key in UnhealthyFrame(c, session, id, reason).0.routes
    ensures key in c.routes
    ensures var (d, alert) := UnhealthyFrame(c, session, id, reason);
            d.routes[key].alerted == ((alert.Some? && c.index[id] == key) || c.routes[key].alerted)
  {
    if Reports(c, session, id) {
      var d := MarkDown(c, id, reason);
      assert GroupOf(d, id).alerted == GroupOf(c, id).alerted;
    }
  }

  lemma {:induction false} FlagAfterRemovals(c: Core, ids: seq<Id>, key: Key)
    requires key in RemoveTunnels(c, ids).routes
    ensures key in c.routes && RemoveTunnels(c, ids).routes[key].alerted == c.routes[key].alerted
    decreases |ids|
  {
    if ids != [] {
      FlagAfterRemovals(RemoveTunnel(c, ids[0]), ids[1..], key);
      RemovedGroup(c, ids[0], key);
    }
  }

  lemma StepDebounced(c: Core, r: Ranges, log: seq<Event>, op: Op)
    requires Inv(c, r) && Debounced(c, log)
    ensures Debounced(Apply(c, op), log + [Observe(c, op)])
  {
    var d, e := Apply(c, op), Observe(c, op);
    forall key | key in d.routes
      ensures d.routes[key].alerted == AlertedSince(log + [e], key)
    {
      LogGrows(log, e, key);
      match op {
        case Remove(id) => RemovedGroup(c, id, key);
        case CloseSession(session) =>
          if session in c.sessions {
            FlagAfterRemovals(c.(sessions := c.sessions - {session}), c.sessions[session], key);
          }
        case _ => FlagAfter(c, r, op, key);
      }
    }
  }

  lemma {:induction false} RunDebounced(c: Core, r: Ranges, log: seq<Event>, ops: seq<Op>)
    requires Inv(c, r) && Debounced(c, log) && AllAllowed(c, ops)
    ensures Debounced(RunOps(c, ops), RunLog(c, log, ops))
    decreases |ops|
  {
    if ops != [] {
      StepDebounced(c, r, log, ops[0]);
      ApplyKeeps(c, r, ops[0]);
      RunDebounced(Apply(c, ops[0]), r, log + [Observe(c, ops[0])], ops[1..]);
    }
  }

  /**
   Alert debounce. After any run of a fresh server, an unhealthy report raises an alert exactly when
   it is the owner's, the group is keyed, no member is left healthy, and no alert has been raised
   since the group was created or last had a healthy report.
   */
  lemma AlertIsExact(start: Core, r: Ranges, ops: seq<Op>, session: Id, id: Id, reason: string)
    requires Inv(start, r) && start.routes == map[] && AllAllowed(start, ops)
    ensures var c := RunOps(start, ops);
            UnhealthyFrame(c, session, id, reason).1.Some? <==>
              && Reports(c, session, id)
              && GroupOf(c, id).keyHash.Some?
              && (forall x :: x in GroupOf(c, id).members && x != id ==> !GroupOf(c, id).members[x].healthy)
              && !AlertedSince(RunLog(start, [], ops), c.index[id])
  {
    RunDebounced(start, r, [], ops);
    var c := RunOps(start, ops);
    if Reports(c, session, id) {
      LeavesNoneHealthy(c, id, reason);
      NoOtherHealthy(GroupOf(c, id), id);
    }
  }

  lemma NoOtherHealthy(g: Group, id: Id)
    ensures g.Healthy() - {id} == {} <==> forall x :: x in g.members && x != id ==> !g.members[x].healthy
  {
    if g.Healthy() - {id} == {} {
      forall x | x in g.members && x != id
        ensures !g.members[x].healthy
      {
        assert x !in g.Healthy() - {id};
      }
    }
  }

  lemma LeavesNoneHealthy(c: Core, id: Id, reason: string)
    requires HasMember(c, id)
    ensures var d := MarkDown(c, id, reason);
            && HasMember(d, id) && d.index == c.index
            && GroupOf(d, id).Healthy() == GroupOf(c, id).Healthy() - {id}
            && GroupOf(d, id).keyHash == GroupOf(c, id).keyHash
            && GroupOf(d, id).alerted == GroupOf(c, id).alerted
  {
  }

  function Count(log: seq<Event>, counted: Event -> bool): nat {
    if log == [] then 0 else Count(log[..|log| - 1], counted) + if counted(log[|log| - 1]) then 1 else 0
  }

  function Alerts(log: seq<Event>, key: Key): nat {
    Count(log, e => e == Alerted(key))
  }

  function Rearmings(log: seq<Event>, key: Key): nat {
    Count(log, e => Rearms(e, key))
  }

  /** Alerts raised never exceed the creations and healthy reports before them, one each. */
  predicate WithinBudget(c: Core, log: seq<Event>, key: Key) {
    Alerts(log, key) + (if key in c.routes && !AlertedSince(log, key) then 1 else 0) <= Rearmings(log, key)
  }

  lemma CountGrows(log: seq<Event>, e: Event, counted: Event -> bool)
    ensures Count(log + [e], counted) == Count(log, counted) + if counted(e) then 1 else 0
  {
    assert (log + [e])[..|log|] == log;
  }

  lemma RoutesAfter(c: Core, r: Ranges, op: Op, key: Key)
    requires Inv(c, r) && key in Apply(c, op).routes
    ensures key in c.routes || Rearms(Observe(c, op), key)
  {
    match op {
      case Remove(id) => RemovedGroup(c, id, key);
      case CloseSession(session) =>
        if session in c.sessions {
          FlagAfterRemovals(c.(sessions := c.sessions - {session}), c.sessions[session], key);
        }
      case _ => FlagAfter(c, r, op, key);
    }
  }

  lemma AlertNeedsRoute(c: Core, op: Op, key: Key)
    requires Observe(c, op) == Alerted(key)
    ensures key in c.routes && !c.routes[key].alerted
  {
  }

  lemma StepWithinBudget(c: Core, r: Ranges, log: seq<Event>, op: Op, key: Key)
    requires Inv(c, r) && Debounced(c, log) && WithinBudget(c, log, key)
    ensures WithinBudget(Apply(c, op), log + [Observe(c, op)], key)
  {
    var d, e := Apply(c, op), Observe(c, op);
    CountGrows(log, e, x => x == Alerted(key));
    CountGrows(log, e, x => Rearms(x, key));
    LogGrows(log, e, key);
    if key in d.routes {
      RoutesAfter(c, r, op, key);
    }
    if e == Alerted(key) {
      AlertNeedsRoute(c, op, key);
    }
  }

  lemma {:induction false} RunWithinBudget(c: Core, r: Ranges, log: seq<Event>, ops: seq<Op>, key: Key)
    requires Inv(c, r) && AllAllowed(c, ops) && Debounced(c, log) && WithinBudget(c, log, key)
    ensures WithinBudget(RunOps(c, ops), RunLog(c, log, ops), key)
    decreases |ops|
  {
    if ops != [] {
      StepDebounced(c, r, log, ops[0]);
      StepWithinBudget(c, r, log, ops[0], key);
      ApplyKeeps(c, r, ops[0]);
      RunWithinBudget(Apply(c, ops[0]), r, log + [Observe(c, ops[0])], ops[1..], key);
    }
  }

  /** Over any run of a fresh server, alerts for a key number at most its group creations plus its healthy reports. */
  lemma AlertsAreBounded(start: Core, r: Ranges, ops: seq<Op>, key: Key)
    requires Inv(start, r) && start.routes == map[] && AllAllowed(start, ops)
    ensures Alerts(RunLog(start, [], ops), key) <= Rearmings(RunLog(start, [], ops), key)
  {
    RunWithinBudget(start, r, [], ops, key);
  }

  // ── request counts ───────────────────────────────────────────────────────

  function Resolves(log: seq<Event>, id: Id): nat {
    Count(log, e => e == Resolved(id))
  }

  /** What an event does to one tunnel's counters. */
  function Counted(m: Meters, e: Event, id: Id): Meters {
    match e
    case Resolved(x) => if x == id then m.AddRequest() else m
    case Carried(x, inbound, outbound) => if x == id then m.AddTransfer(inbound, outbound) else m
    case _ => m
  }

  /** The counters that the log accounts for. */
  function Tally(log: seq<Event>, id: Id): Meters {
    if log == [] then ZERO else Counted(Tally(log[..|log| - 1], id), log[|log| - 1], id)
  }

  lemma TallyGrows(log: seq<Event>, e: Event, id: Id)
    ensures Tally(log + [e], id) == Counted(Tally(log, id), e, id)
  {
    assert (log + [e])[..|log|] == log;
  }

  /** The bytes carried for a tunnel in one direction. */
  function Received(log: seq<Event>, id: Id): nat {
    if log == [] then 0
    else
      var e := log[|log| - 1];
      Received(log[..|log| - 1], id) + if e.Carried? && e.id == id then e.inbound else 0
  }

  function Sent(log: seq<Event>, id: Id): nat {
    if log == [] then 0
    else
      var e := log[|log| - 1];
      Sent(log[..|log| - 1], id) + if e.Carried? && e.id == id then e.outbound else 0
  }

  /** The tally counts resolutions and sums the bytes of each direction, and of both. */
  lemma {:induction false} TallyColumns(log: seq<Event>, id: Id)
    ensures Tally(log, id)
         == Meters(Resolves(log, id), Received(log, id), Sent(log, id), Received(log, id) + Sent(log, id))
  {
    if log != [] {
      TallyColumns(log[..|log| - 1], id);
    }
  }

  /** Every routed tunnel has been issued, and its counters are the tally of all that has happened to it. */
  ghost predicate Accounted(c: Core, log: seq<Event>) {
    && (forall key, id :: Holds(c, key, id) ==> MeteredAs(InfoAt(c, key, id).meters, log, id))
    && (forall id :: !EverIssued(log, id) ==> Tally(log, id) == ZERO)
  }

  predicate MeteredAs(m: Meters, log: seq<Event>, id: Id) {
    EverIssued(log, id) && m == Tally(log, id)
  }

  lemma IssuedGrows(log: seq<Event>, e: Event, id: Id)
    ensures EverIssued(log + [e], id) <==> EverIssued(log, id) || (e.Issued? && e.id == id)
  {
    if EverIssued(log, id) {
      var i :| 0 <= i < |log| && log[i].Issued? && log[i].id == id;
      assert (log + [e])[i] == log[i];
    }
    if e.Issued? && e.id == id {
      assert (log + [e])[|log|] == e;
    }
  }

  ghost predicate StillMetered(c: Core, d: Core, e: Event, key: Key, id: Id)
    requires Holds(c, key, id) && Holds(d, key, id)
  {
    InfoAt(d, key, id).meters == Counted(InfoAt(c, key, id).meters, e, id)
  }

  /** How one step moves one tunnel's counters. */
  lemma MetersAfter(c: Core, r: Ranges, op: Op, key: Key, id: Id)
    requires Inv(c, r) && Allowed(c, op) && Holds(Apply(c, op), key, id) && Holds(c, key, id)
    ensures StillMetered(c, Apply(c, op), Observe(c, op), key, id)
  {
    if NewId(op).Some? {
      assert IndexedAt(c, id, key);
      RegistrationGrows(c, r, op);
      GrowsInfo(c, Apply(c, op), Replied(c, op), key, id);
    } else {
      match op {
        case Remove(x) => RemoveHolds(c, x, key, id);
        case CloseSession(session) =>
          if session in c.sessions {
            TeardownIsExact(c, r, session, key, id);
          }
        case TunnelHealthy(session, x) => HealthyMeters(c, session, x, key, id);
        case TunnelUnhealthy(session, x, reason) => UnhealthyMeters(c, session, x, reason, key, id);
        case Dispatch(k, choice) => ResolveMeters(c, r, k, choice, key, id);
        case DispatchP2p(name) => ResolveP2pMeters(c, r, name, key, id);
        case Proxied(x, inbound, outbound) => TransferMeters(c, r, op, key, id);
        case OpenSession(session) =>
      }
    }
  }

  lemma HealthyMeters(c: Core, session: Id, x: Id, key: Key, id: Id)
    requires Holds(c, key, id) && Holds(HealthyFrame(c, session, x), key, id)
    ensures InfoAt(HealthyFrame(c, session, x), key, id) == InfoAt(c, key, id)
  {
  }

  lemma UnhealthyMeters(c: Core, session: Id, x: Id, reason: string, key: Key, id: Id)
    requires Holds(c, key, id) && Holds(UnhealthyFrame(c, session, x, reason).0, key, id)
    ensures InfoAt(UnhealthyFrame(c, session, x, reason).0, key, id) == InfoAt(c, key, id)
  {
  }

  lemma ResolveMeters(c: Core, r: Ranges, k: Key, choice: Id, key: Key, id: Id)
    requires Inv(c, r) && Holds(c, key, id) && Holds(Resolve(c, k, choice).0, key, id)
    ensures StillMetered(c, Resolve(c, k, choice).0, Resolution(Resolve(c, k, choice).1), key, id)
  {
    if Resolve(c, k, choice).1.Some? && !k.P2pKey? {
      assert Holds(c, k, choice);
      assert OwnedAs(c, InfoAt(c, k, choice), choice, k);
      assert IndexedAt(c, choice, k) && IndexedAt(c, id, key);
    }
  }

  lemma ResolveP2pMeters(c: Core, r: Ranges, name: string, key: Key, id: Id)
    requires Inv(c, r) && Holds(c, key, id) && Holds(ResolveP2p(c, name).0, key, id)
    ensures StillMetered(c, ResolveP2p(c, name).0, Resolution(ResolveP2p(c, name).1), key, id)
  {
    if name in c.p2p {
      assert Holds(c, P2pKey(name), c.p2p[name].info.id);
      assert IndexedAt(c, c.p2p[name].info.id, P2pKey(name)) && IndexedAt(c, id, key);
    }
  }

  lemma TransferMeters(c: Core, r: Ranges, op: Op, key: Key, id: Id)
    requires Inv(c, r) && op.Proxied? && Holds(c, key, id) && Holds(Apply(c, op), key, id)
    ensures StillMetered(c, Apply(c, op), Observe(c, op), key, id)
  {
    assert IndexedAt(c, id, key);
    if op.id in c.index {
      assert Holds(c, c.index[op.id], op.id) <==> IndexedAt(c, op.id, c.index[op.id]);
    }
  }

  predicate NewlyIssued(d: Core, e: Event, key: Key, id: Id)
    requires Holds(d, key, id)
  {
    e.Issued? && e.id == id && InfoAt(d, key, id).meters == ZERO
  }

  /** A tunnel that an operation brings into the tables has just been issued, with its counters at zero. */
  lemma StepHolds(c: Core, r: Ranges, op: Op, key: Key, id: Id)
    requires Inv(c, r) && Holds(Apply(c, op), key, id)
    ensures Holds(c, key, id) || NewlyIssued(Apply(c, op), Observe(c, op), key, id)
  {
    if NewId(op).Some? {
      RegistrationGrows(c, r, op);
      GrowsInfo(c, Apply(c, op), Replied(c, op), key, id);
    } else {
      match op {
        case Remove(x) => RemoveHolds(c, x, key, id);
        case CloseSession(session) =>
          if session in c.sessions {
            TeardownIsExact(c, r, session, key, id);
          }
        case OpenSession(session) =>
        case _ =>
          ReportKeeps(c, r, op);
          SameShapeHolds(c, Apply(c, op), key, id);
      }
    }
  }

  /** Only routed tunnels are counted, and they have been issued. */
  lemma CountedWasIssued(c: Core, r: Ranges, log: seq<Event>, op: Op)
    requires Inv(c, r) && Accounted(c, log)
    ensures var e := Observe(c, op); e.Resolved? || e.Carried? ==> EverIssued(log, e.id)
  {
    match op {
      case Dispatch(key, choice) =>
        if Resolve(c, key, choice).1.Some? && !key.P2pKey? {
          assert Holds(c, key, choice);
          assert OwnedAs(c, InfoAt(c, key, choice), choice, key);
          assert MeteredAs(InfoAt(c, key, choice).meters, log, choice);
        }
      case DispatchP2p(name) =>
        if name in c.p2p {
          var id := c.p2p[name].info.id;
          assert Holds(c, P2pKey(name), id);
          assert MeteredAs(InfoAt(c, P2pKey(name), id).meters, log, id);
        }
      case Proxied(id, _, _) =>
        if id in c.index {
          var key := c.index[id];
          assert Holds(c, key, id) <==> IndexedAt(c, id, key);
          assert MeteredAs(InfoAt(c, key, id).meters, log, id);
        }
      case _ =>
    }
  }

  lemma StepAccounted(c: Core, r: Ranges, log: seq<Event>, op: Op)
    requires Inv(c, r) && Accounted(c, log) && Allowed(c, op)
    requires NewId(op).Some? ==> !EverIssued(log, NewId(op).value)
    ensures Accounted(Apply(c, op), log + [Observe(c, op)])
  {
    var d, e := Apply(c, op), Observe(c, op);
    CountedWasIssued(c, r, log, op);
    forall key, id | Holds(d, key, id)
      ensures MeteredAs(InfoAt(d, key, id).meters, log + [e], id)
    {
      IssuedGrows(log, e, id);
      TallyGrows(log, e, id);
      if Holds(c, key, id) {
        assert MeteredAs(InfoAt(c, key, id).meters, log, id);
        MetersAfter(c, r, op, key, id);
      } else {
        StepHolds(c, r, op, key, id);
        IssuedIsNew(c, r, op);
      }
    }
    forall id | !EverIssued(log + [e], id)
      ensures Tally(log + [e], id) == ZERO
    {
      IssuedGrows(log, e, id);
      TallyGrows(log, e, id);
    }
  }

  lemma IssuedIsNew(c: Core, r: Ranges, op: Op)
    requires Inv(c, r) && Observe(c, op).Issued?
    ensures NewId(op) == Some(Observe(c, op).id)
  {
    if NewId(op).Some? {
      RegistrationGrows(c, r, op);
    }
  }

  lemma {:induction false} RunAccounted(c: Core, r: Ranges, log: seq<Event>, ops: seq<Op>)
    requires Inv(c, r) && Accounted(c, log) && Fair(c, log, ops)
    ensures Accounted(RunOps(c, ops), RunLog(c, log, ops)) && Inv(RunOps(c, ops), r)
    decreases |ops|
  {
    if ops != [] {
      StepAccounted(c, r, log, ops[0]);
      ApplyKeeps(c, r, ops[0]);
      RunAccounted(Apply(c, ops[0]), r, log + [Observe(c, ops[0])], ops[1..]);
    }
  }

  /**
   After any run of a fresh server, each routed tunnel's counters are exactly the successful resolutions
   that returned it, the bytes carried for it in each direction, and their sum.
   */
  lemma CountersAreExact(start: Core, r: Ranges, ops: seq<Op>, key: Key, id: Id)
    requires Inv(start, r) && start.routes == map[] && start.p2p == map[] && Fair(start, [], ops)
    requires Holds(RunOps(start, ops), key, id)
    ensures var m, log := InfoAt(RunOps(start, ops), key, id).meters, RunLog(start, [], ops);
            && m.requests == Resolves(log, id)
            && m.bytesIn == Received(log, id) && m.bytesOut == Sent(log, id)
            && m.proxied == Received(log, id) + Sent(log, id)
  {
    RunAccounted(start, r, [], ops);
    TallyColumns(RunLog(start, [], ops), id);
  }
}
