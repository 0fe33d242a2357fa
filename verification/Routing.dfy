/**
 The server's routing core as a state machine on values; one transition per public method.

 The HTTP, TCP and UDP tables have the same shape, so they are one map here, from a `Key` whose
 constructor names the table. Fresh identifiers, generated labels and the random dispatch choice are
 parameters.
 */
module Routing {
  import opened Basics

  type Id = nat

  /** Which table a route is in, and its entry there. */
  datatype Key = HttpKey(subdomain: string) | TcpKey(port: nat) | UdpKey(port: nat) | P2pKey(name: string)

  // ── tunnels and groups ───────────────────────────────────────────────────

  /** Absolute counters of one tunnel. */
  datatype Meters = Meters(requests: nat, bytesIn: nat, bytesOut: nat, proxied: nat) {
    function AddTransfer(inbound: nat, outbound: nat): Meters {
      Meters(requests, bytesIn + inbound, bytesOut + outbound, proxied + (inbound + outbound))
    }

    function AddRequest(): Meters {
      this.(requests := requests + 1)
    }
  }

  const ZERO := Meters(0, 0, 0, 0)

  datatype TunnelInfo = TunnelInfo(
    session: Id, id: Id, protocol: Protocol, subdomain: Option<string>, port: Option<nat>, meters: Meters)

  datatype HealthSpec = HealthSpec(webhook: Option<string>)

  datatype HealthEvent = HealthEvent(healthy: bool, reason: string)

  const HEALTH_EVENT_RING_SIZE := 50

  datatype Member = Member(
    info: TunnelInfo, healthy: bool, spec: Option<HealthSpec>,
    streak: nat, failures: nat, events: seq<HealthEvent>)
  {
    function Record(up: bool, reason: string): seq<HealthEvent> {
      (if |events| >= HEALTH_EVENT_RING_SIZE then events[1..] else events) + [HealthEvent(up, reason)]
    }

    function Up(): Member {
      this.(healthy := true, streak := 0, events := if healthy then events else Record(true, "recovered"))
    }

    function Down(reason: string): Member {
      this.(healthy := false, streak := streak + 1, failures := failures + 1,
            events := if healthy then Record(false, reason) else events)
    }
  }

  /** No probes asked for: presence is health. */
  function Trusted(info: TunnelInfo): Member {
    Member(info, true, None, 0, 0, [])
  }

  /** With a health spec the member starts unhealthy and waits for its first probe. */
  function Probed(info: TunnelInfo, spec: Option<HealthSpec>): Member {
    Member(info, spec.None?, spec, 0, 0,
           [HealthEvent(spec.None?, if spec.None? then "registered" else "registered (awaiting first probe)")])
  }

  datatype Group = Group(name: string, keyHash: Option<string>, members: map<Id, Member>, alerted: bool) {
    function Healthy(): set<Id> {
      set id | id in members && members[id].healthy
    }

    function Webhooks(): set<string> {
      set id | id in members && members[id].spec.Some? && members[id].spec.value.webhook.Some?
        :: members[id].spec.value.webhook.value
    }
  }

  datatype GroupSpec = GroupSpec(name: string, keyHash: string, health: Option<HealthSpec>)

  datatype Publisher = Publisher(info: TunnelInfo, secretHash: string)

  datatype PortEvent = Registered(id: Id, port: nat) | Unregistered(port: nat)

  // ── the core ─────────────────────────────────────────────────────────────

  datatype Core = Core(
    routes: map<Key, Group>,
    p2p: map<string, Publisher>,
    index: map<Id, Key>,
    /** Tunnel ids of each live session, in registration order; it only grows. */
    sessions: map<Id, seq<Id>>,
    tcpIndex: map<(string, string), nat>,
    tcpFree: seq<nat>,
    udpFree: seq<nat>,
    tcpEvents: seq<PortEvent>,
    udpEvents: seq<PortEvent>,
    limit: nat)

  function PortRange(low: nat, high: nat): seq<nat> {
    seq(Max(0, high + 1 - low), i requires 0 <= i => low + i)
  }

  function NewCore(tcpLow: nat, tcpHigh: nat, udpLow: nat, udpHigh: nat, limit: nat): Core {
    Core(map[], map[], map[], map[], map[],
         PortRange(tcpLow, tcpHigh),
         if udpLow == 0 && udpHigh == 0 then [] else PortRange(udpLow, udpHigh),
         [], [], limit)
  }

  datatype Refusal =
    | SessionNotFound
    | LimitExceeded
    | InvalidSubdomain
    | LabelInUse
    | KeyMismatch
    | ProtocolMismatch
    | NoPorts
    | StaleGroupIndex

  datatype Reply = Accepted(id: Id, key: Key) | Refused(why: Refusal)

  // ── registration ─────────────────────────────────────────────────────────

  function CheckSession(c: Core, session: Id): Option<Refusal> {
    if session !in c.sessions then Some(SessionNotFound)
    else if |c.sessions[session]| >= c.limit then Some(LimitExceeded)
    else None
  }

  predicate IsLabelChar(ch: char) {
    '0' <= ch <= '9' || 'a' <= ch <= 'z' || 'A' <= ch <= 'Z' || ch == '-'
  }

  predicate ValidSubdomain(s: string) {
    3 <= |s| <= 63 && s[0] != '-' && s[|s| - 1] != '-' && forall i :: 0 <= i < |s| ==> IsLabelChar(s[i])
  }

  /** Enter the tunnel in the reverse index and in its session's list. */
  function Enter(c: Core, session: Id, id: Id, key: Key): Core {
    c.(index := c.index[id := key],
       sessions := if session in c.sessions then c.sessions[session := c.sessions[session] + [id]] else c.sessions)
  }

  /** Put `member` into the group at `key`, which `group` becomes. */
  function Place(c: Core, key: Key, group: Group, member: Member): Core {
    Enter(c.(routes := c.routes[key := group.(members := group.members[member.info.id := member])]),
          member.info.session, member.info.id, key)
  }

  function SoloGroup(name: string): Group {
    Group(name, None, map[], false)
  }

  /** A new, empty group for the request, and its first member. */
  function FirstGroup(name: string, spec: Option<GroupSpec>): Group {
    match spec
    case None => SoloGroup(name)
    case Some(g) => Group(g.name, Some(g.keyHash), map[], false)
  }

  function FirstMember(info: TunnelInfo, spec: Option<GroupSpec>): Member {
    match spec
    case None => Trusted(info)
    case Some(g) => Probed(info, g.health)
  }

  predicate Speaks(g: Group, protocol: Protocol) {
    g.members != map[] && forall id :: id in g.members ==> g.members[id].info.protocol == protocol
  }

  function RegisterHttp(c: Core, session: Id, subdomain: Option<string>, generated: string, protocol: Protocol,
                        spec: Option<GroupSpec>, id: Id): (Core, Reply)
  {
    var tag := if subdomain.Some? then subdomain.value else generated;
    var key := HttpKey(tag);
    var info := TunnelInfo(session, id, protocol, Some(tag), None, ZERO);
    if CheckSession(c, session).Some? then (c, Refused(CheckSession(c, session).value))
    else if subdomain.Some? && !ValidSubdomain(tag) then (c, Refused(InvalidSubdomain))
    else if key !in c.routes then
      (Place(c, key, FirstGroup(tag, spec), FirstMember(info, spec)), Accepted(id, key))
    else if spec.None? then (c, Refused(LabelInUse))
    else if c.routes[key].keyHash != Some(spec.value.keyHash) then (c, Refused(KeyMismatch))
    else if !Speaks(c.routes[key], protocol) then (c, Refused(ProtocolMismatch))
    else (Place(c, key, c.routes[key], Probed(info, spec.value.health)), Accepted(id, key))
  }

  function TcpInfo(session: Id, id: Id, port: nat): TunnelInfo {
    TunnelInfo(session, id, Tcp, None, Some(port), ZERO)
  }

  /** `name` renders a port as text. */
  function RegisterTcp(c: Core, session: Id, spec: Option<GroupSpec>, name: nat -> string, id: Id): (Core, Reply) {
    if CheckSession(c, session).Some? then (c, Refused(CheckSession(c, session).value))
    else if spec.Some? && (spec.value.name, spec.value.keyHash) in c.tcpIndex then
      var port := c.tcpIndex[(spec.value.name, spec.value.keyHash)];
      if TcpKey(port) !in c.routes then (c, Refused(StaleGroupIndex))
      else (Place(c, TcpKey(port), c.routes[TcpKey(port)], Probed(TcpInfo(session, id, port), spec.value.health)),
            Accepted(id, TcpKey(port)))
    else if c.tcpFree == [] then (c, Refused(NoPorts))
    else
      var port := c.tcpFree[|c.tcpFree| - 1];
      var placed := Place(c, TcpKey(port), FirstGroup(name(port), spec), FirstMember(TcpInfo(session, id, port), spec));
      (placed.(tcpFree := c.tcpFree[..|c.tcpFree| - 1],
               tcpIndex := if spec.Some? then c.tcpIndex[(spec.value.name, spec.value.keyHash) := port] else c.tcpIndex,
               tcpEvents := c.tcpEvents + [Registered(id, port)]),
       Accepted(id, TcpKey(port)))
  }

  function RegisterUdp(c: Core, session: Id, name: nat -> string, id: Id): (Core, Reply) {
    if CheckSession(c, session).Some? then (c, Refused(CheckSession(c, session).value))
    else if c.udpFree == [] then (c, Refused(NoPorts))
    else
      var port := c.udpFree[|c.udpFree| - 1];
      var info := TunnelInfo(session, id, Udp, None, Some(port), ZERO);
      (Place(c, UdpKey(port), SoloGroup(name(port)), Trusted(info))
       .(udpFree := c.udpFree[..|c.udpFree| - 1], udpEvents := c.udpEvents + [Registered(id, port)]),
       Accepted(id, UdpKey(port)))
  }

  function RegisterP2p(c: Core, session: Id, name: string, secretHash: string, id: Id): (Core, Reply) {
    if CheckSession(c, session).Some? then (c, Refused(CheckSession(c, session).value))
    else if name in c.p2p then (c, Refused(LabelInUse))
    else
      var info := TunnelInfo(session, id, P2p, None, None, ZERO);
      (Enter(c.(p2p := c.p2p[name := Publisher(info, secretHash)]), session, id, P2pKey(name)),
       Accepted(id, P2pKey(name)))
  }

  // ── removal ──────────────────────────────────────────────────────────────

  /** The last member has left `key`: the route goes, and with it the port and the group's index entry. */
  function Retire(c: Core, key: Key): Core {
    var d := c.(routes := c.routes - {key});
    match key
    case TcpKey(port) =>
      d.(tcpFree := c.tcpFree + [port],
         tcpIndex := if key in c.routes && c.routes[key].keyHash.Some?
                     then c.tcpIndex - {(c.routes[key].name, c.routes[key].keyHash.value)} else c.tcpIndex,
         tcpEvents := c.tcpEvents + [Unregistered(port)])
    case UdpKey(port) =>
      d.(udpFree := c.udpFree + [port], udpEvents := c.udpEvents + [Unregistered(port)])
    case _ => d
  }

  function RemoveTunnel(c: Core, id: Id): Core {
    if id !in c.index then c
    else
      var key := c.index[id];
      var d := c.(index := c.index - {id});
      if key.P2pKey? then d.(p2p := c.p2p - {key.name})
      else if key in c.routes && c.routes[key].members - {id} != map[] then
        d.(routes := c.routes[key := c.routes[key].(members := c.routes[key].members - {id})])
      else Retire(d, key)
  }

  function RemoveTunnels(c: Core, ids: seq<Id>): Core
    decreases |ids|
  {
    if ids == [] then c else RemoveTunnels(RemoveTunnel(c, ids[0]), ids[1..])
  }

  function RemoveSession(c: Core, session: Id): Core {
    if session !in c.sessions then c
    else RemoveTunnels(c.(sessions := c.sessions - {session}), c.sessions[session])
  }

  // ── health and alerts ────────────────────────────────────────────────────

  /** The route and member of a tunnel; publishers have none. */
  predicate HasMember(c: Core, id: Id) {
    id in c.index && !c.index[id].P2pKey? && c.index[id] in c.routes && id in c.routes[c.index[id]].members
  }

  function GroupOf(c: Core, id: Id): Group
    requires HasMember(c, id)
  {
    c.routes[c.index[id]]
  }

  function MemberOf(c: Core, id: Id): Member
    requires HasMember(c, id)
  {
    GroupOf(c, id).members[id]
  }

  function WithMember(c: Core, id: Id, m: Member, alerted: bool): Core
    requires HasMember(c, id)
  {
    var g := GroupOf(c, id);
    c.(routes := c.routes[c.index[id] := g.(members := g.members[id := m], alerted := alerted)])
  }

  function SessionOf(c: Core, id: Id): Option<Id> {
    if id !in c.index then None
    else if c.index[id].P2pKey? then
      (if c.index[id].name in c.p2p then Some(c.p2p[c.index[id].name].info.session) else None)
    else if HasMember(c, id) then Some(MemberOf(c, id).info.session)
    else None
  }

  /** A report counts only from the owning session, and only for a group member. */
  predicate Reports(c: Core, session: Id, id: Id) {
    SessionOf(c, id) == Some(session) && HasMember(c, id)
  }

  function HealthyFrame(c: Core, session: Id, id: Id): Core {
    if Reports(c, session, id) then WithMember(c, id, MemberOf(c, id).Up(), false) else c
  }

  datatype Alert = Alert(key: Key, groupName: string, keyHash: string, memberCount: nat, webhooks: set<string>)

  function MarkDown(c: Core, id: Id, reason: string): Core
    requires HasMember(c, id)
  {
    WithMember(c, id, MemberOf(c, id).Down(reason), GroupOf(c, id).alerted)
  }

  /** An alert is due when a keyed group has no healthy member and none has been raised since it last had. */
  predicate AlertDue(c: Core, id: Id) {
    HasMember(c, id) && GroupOf(c, id).keyHash.Some? && GroupOf(c, id).Healthy() == {} && !GroupOf(c, id).alerted
  }

  function PopAlert(c: Core, id: Id): (Core, Option<Alert>) {
    if !AlertDue(c, id) then (c, None)
    else
      var g := GroupOf(c, id);
      (c.(routes := c.routes[c.index[id] := g.(alerted := true)]),
       Some(Alert(c.index[id], g.name, g.keyHash.value, |g.members|, g.Webhooks())))
  }

  function UnhealthyFrame(c: Core, session: Id, id: Id, reason: string): (Core, Option<Alert>) {
    if Reports(c, session, id) then PopAlert(MarkDown(c, id, reason), id) else (c, None)
  }

  // ── resolution ───────────────────────────────────────────────────────────

  function CountRequest(m: Member): Member {
    m.(info := m.info.(meters := m.info.meters.AddRequest()))
  }

  /** `choice` is the healthy member that the dice picked, if there is one. */
  function Resolve(c: Core, key: Key, choice: Id): (Core, Option<TunnelInfo>) {
    if key !in c.routes || choice !in c.routes[key].Healthy() then (c, None)
    else
      var g := c.routes[key];
      var info := g.members[choice].info;
      if info.session !in c.sessions then (c, None)
      else (c.(routes := c.routes[key := g.(members := g.members[choice := CountRequest(g.members[choice])])]),
            Some(info))
  }

  function ResolveP2p(c: Core, name: string): (Core, Option<TunnelInfo>) {
    if name !in c.p2p || c.p2p[name].info.session !in c.sessions then (c, None)
    else
      var info := c.p2p[name].info;
      (c.(p2p := c.p2p[name := c.p2p[name].(info := info.(meters := info.meters.AddRequest()))]), Some(info))
  }

  /** Bytes proxied for a tunnel that is still routed. */
  function Transfer(c: Core, id: Id, inbound: nat, outbound: nat): Core {
    if HasMember(c, id) then
      var m := MemberOf(c, id);
      WithMember(c, id, m.(info := m.info.(meters := m.info.meters.AddTransfer(inbound, outbound))),
                 GroupOf(c, id).alerted)
    else if id in c.index && c.index[id].P2pKey? && c.index[id].name in c.p2p then
      var name := c.index[id].name;
      var info := c.p2p[name].info;
      c.(p2p := c.p2p[name := c.p2p[name].(info := info.(meters := info.meters.AddTransfer(inbound, outbound)))])
    else c
  }

  /** Absolute counters of a tunnel; zeros when it is not routed. */
  function TunnelMeters(c: Core, id: Id): Meters {
    if HasMember(c, id) then MemberOf(c, id).info.meters
    else if id in c.index && c.index[id].P2pKey? && c.index[id].name in c.p2p then c.p2p[c.index[id].name].info.meters
    else ZERO
  }

  // ── runs ─────────────────────────────────────────────────────────────────

  datatype Op =
    | OpenSession(session: Id)
    | CloseSession(session: Id)
    | RegHttp(session: Id, subdomain: Option<string>, generated: string, protocol: Protocol, spec: Option<GroupSpec>,
              id: Id)
    | RegTcp(session: Id, spec: Option<GroupSpec>, name: nat -> string, id: Id)
    | RegUdp(session: Id, name: nat -> string, id: Id)
    | RegP2p(session: Id, tag: string, secretHash: string, id: Id)
    | Remove(id: Id)
    | TunnelHealthy(session: Id, id: Id)
    | TunnelUnhealthy(session: Id, id: Id, reason: string)
    | Dispatch(key: Key, choice: Id)
    | DispatchP2p(tag: string)
    | Proxied(id: Id, inbound: nat, outbound: nat)

  function Apply(c: Core, op: Op): Core {
    match op
    case OpenSession(session) => c.(sessions := c.sessions[session := []])
    case CloseSession(session) => RemoveSession(c, session)
    case RegHttp(session, subdomain, generated, protocol, spec, id) =>
      RegisterHttp(c, session, subdomain, generated, protocol, spec, id).0
    case RegTcp(session, spec, name, id) => RegisterTcp(c, session, spec, name, id).0
    case RegUdp(session, name, id) => RegisterUdp(c, session, name, id).0
    case RegP2p(session, tag, secretHash, id) => RegisterP2p(c, session, tag, secretHash, id).0
    case Remove(id) => RemoveTunnel(c, id)
    case TunnelHealthy(session, id) => HealthyFrame(c, session, id)
    case TunnelUnhealthy(session, id, reason) => UnhealthyFrame(c, session, id, reason).0
    case Dispatch(key, choice) => Resolve(c, key, choice).0
    case DispatchP2p(tag) => ResolveP2p(c, tag).0
    case Proxied(id, inbound, outbound) => Transfer(c, id, inbound, outbound)
  }

  predicate FreshId(c: Core, id: Id) {
    id !in c.index && forall session :: session in c.sessions ==> id !in c.sessions[session]
  }

  /** Identifiers are new, and the dice pick a healthy member whenever there is one. */
  predicate Allowed(c: Core, op: Op) {
    match op
    case OpenSession(session) => session !in c.sessions
    case RegHttp(_, _, _, _, _, id) => FreshId(c, id)
    case RegTcp(_, _, _, id) => FreshId(c, id)
    case RegUdp(_, _, id) => FreshId(c, id)
    case RegP2p(_, _, _, id) => FreshId(c, id)
    case Dispatch(key, choice) =>
      key in c.routes && c.routes[key].Healthy() != {} ==> choice in c.routes[key].Healthy()
    case _ => true
  }

  function RunOps(c: Core, ops: seq<Op>): Core
    decreases |ops|
  {
    if ops == [] then c else RunOps(Apply(c, ops[0]), ops[1..])
  }

  predicate AllAllowed(c: Core, ops: seq<Op>)
    decreases |ops|
  {
    ops != [] ==> Allowed(c, ops[0]) && AllAllowed(Apply(c, ops[0]), ops[1..])
  }
}
