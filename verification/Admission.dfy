/**
 Which registrations are accepted, and why the others are refused, in terms of the state before; and
 over whole runs, that whoever shares a route presented its key.
 */
module Admission {
  import opened Basics
  import opened Text
  import opened Letters
  import opened Routing
  import opened RoutingInvariant
  import opened RoutingRuns
  import opened RoutingLedger

  // ── who may ask, and for what ────────────────────────────────────────────

  /** The session is live and lists fewer tunnels than it may. */
  predicate HasRoom(c: Core, session: Id) {
    session in c.sessions && |c.sessions[session]| < c.limit
  }

  /** Three to 63 letters, digits and hyphens, without a hyphen at either end. */
  predicate IsLabel(s: string) {
    && 3 <= |s| <= 63 && s[0] != '-' && s[|s| - 1] != '-'
    && forall i :: 0 <= i < |s| ==> LetterDigitHyphen(s[i])
  }

  lemma LabelIsExact(s: string)
    ensures ValidSubdomain(s) <==> IsLabel(s)
  {
    forall i | 0 <= i < |s|
      ensures IsLabelChar(s[i]) <==> LetterDigitHyphen(s[i])
    {
      DigitChar(s[i]);
      LetterChar(s[i]);
    }
  }

  predicate Wanted(session: Id, subdomain: Option<string>, c: Core) {
    HasRoom(c, session) && (subdomain.Some? ==> IsLabel(subdomain.value))
  }

  /** Every member of the route speaks the protocol. */
  predicate AllSpeak(g: Group, protocol: Protocol) {
    forall id :: id in g.members ==> g.members[id].info.protocol == protocol
  }

  // ── HTTP ─────────────────────────────────────────────────────────────────

  function LabelOf(subdomain: Option<string>, generated: string): Key {
    HttpKey(if subdomain.Some? then subdomain.value else generated)
  }

  /** The request presents the key of the group. */
  predicate Matches(g: Group, spec: Option<GroupSpec>) {
    spec.Some? && g.keyHash == Some(spec.value.keyHash)
  }

  /**
   An HTTP registration is accepted exactly when the session has room, the label is valid, and the label
   is not routed or its group has this key and speaks this protocol.
   */
  lemma HttpAdmission(c: Core, r: Ranges, session: Id, subdomain: Option<string>, generated: string,
                      protocol: Protocol, spec: Option<GroupSpec>, id: Id)
    requires Inv(c, r)
    ensures var key := LabelOf(subdomain, generated);
            var (d, reply) := RegisterHttp(c, session, subdomain, generated, protocol, spec, id);
            && (reply.Accepted? <==>
                  && Wanted(session, subdomain, c)
                  && (key in c.routes ==> Matches(c.routes[key], spec) && AllSpeak(c.routes[key], protocol)))
            && (reply.Accepted? ==> reply == Accepted(id, key))
            && (reply.Refused? ==> d == c)
  {
    HttpOutcome(c, session, subdomain, generated, protocol, spec, id);
    assert LabelOf(subdomain, generated) in c.routes ==>
             c.routes[LabelOf(subdomain, generated)].members != map[];
  }

  lemma HttpOutcome(c: Core, session: Id, subdomain: Option<string>, generated: string, protocol: Protocol,
                    spec: Option<GroupSpec>, id: Id)
    ensures var key := LabelOf(subdomain, generated);
            var (d, reply) := RegisterHttp(c, session, subdomain, generated, protocol, spec, id);
            && (reply.Accepted? <==>
                  && Wanted(session, subdomain, c)
                  && (key in c.routes ==> Matches(c.routes[key], spec) && Speaks(c.routes[key], protocol)))
            && (reply.Accepted? ==> reply == Accepted(id, key))
            && (reply.Refused? ==> d == c)
  {
    if subdomain.Some? {
      LabelIsExact(subdomain.value);
    }
  }

  /** Each refusal says exactly what stood in the way: first the session and the label, then the group there. */
  lemma HttpRefusals(c: Core, r: Ranges, session: Id, subdomain: Option<string>, generated: string,
                     protocol: Protocol, spec: Option<GroupSpec>, id: Id)
    requires Inv(c, r)
    ensures var key := LabelOf(subdomain, generated);
            var taken := Wanted(session, subdomain, c) && key in c.routes;
            var reply := RegisterHttp(c, session, subdomain, generated, protocol, spec, id).1;
            && (reply == Refused(SessionNotFound) <==> session !in c.sessions)
            && (reply == Refused(LimitExceeded) <==> session in c.sessions && !HasRoom(c, session))
            && (reply == Refused(InvalidSubdomain) <==>
                  HasRoom(c, session) && subdomain.Some? && !IsLabel(subdomain.value))
            && (reply == Refused(LabelInUse) <==> taken && spec.None?)
            && (reply == Refused(KeyMismatch) <==> taken && spec.Some? && !Matches(c.routes[key], spec))
            && (reply == Refused(ProtocolMismatch) <==>
                  taken && Matches(c.routes[key], spec) && !AllSpeak(c.routes[key], protocol))
  {
    var key := LabelOf(subdomain, generated);
    if !Wanted(session, subdomain, c) || key !in c.routes {
      NotTaken(c, session, subdomain, generated, protocol, spec, id);
    } else {
      Taken(c, session, subdomain, generated, protocol, spec, id);
      assert c.routes[key].members != map[];
    }
  }

  lemma NotTaken(c: Core, session: Id, subdomain: Option<string>, generated: string, protocol: Protocol,
                 spec: Option<GroupSpec>, id: Id)
    requires !Wanted(session, subdomain, c) || LabelOf(subdomain, generated) !in c.routes
    ensures RegisterHttp(c, session, subdomain, generated, protocol, spec, id).1
         == if session !in c.sessions then Refused(SessionNotFound)
            else if !HasRoom(c, session) then Refused(LimitExceeded)
            else if !Wanted(session, subdomain, c) then Refused(InvalidSubdomain)
            else Accepted(id, LabelOf(subdomain, generated))
  {
    if subdomain.Some? {
      LabelIsExact(subdomain.value);
    }
  }

  lemma Taken(c: Core, session: Id, subdomain: Option<string>, generated: string, protocol: Protocol,
              spec: Option<GroupSpec>, id: Id)
    requires Wanted(session, subdomain, c) && LabelOf(subdomain, generated) in c.routes
    ensures var g := c.routes[LabelOf(subdomain, generated)];
            var reply := RegisterHttp(c, session, subdomain, generated, protocol, spec, id).1;
            reply ==
            if spec.None? then Refused(LabelInUse)
            else if !Matches(g, spec) then Refused(KeyMismatch)
            else if !Speaks(g, protocol) then Refused(ProtocolMismatch)
            else Accepted(id, LabelOf(subdomain, generated))
  {
    if subdomain.Some? {
      LabelIsExact(subdomain.value);
    }
  }

  // ── TCP and UDP ──────────────────────────────────────────────────────────

  /** A TCP route of that group. */
  predicate GroupAt(c: Core, spec: Option<GroupSpec>, port: nat) {
    && spec.Some? && TcpKey(port) in c.routes
    && c.routes[TcpKey(port)].name == spec.value.name
    && c.routes[TcpKey(port)].keyHash == Some(spec.value.keyHash)
  }

  /**
   A TCP registration joins the route of its group if there is one, whose key it then has. Otherwise it
   takes an unrouted port of the range, and is refused for want of ports exactly when all are routed.
   */
  lemma TcpAdmission(c: Core, r: Ranges, session: Id, spec: Option<GroupSpec>, name: nat -> string, id: Id)
    requires Inv(c, r)
    ensures var (d, reply) := RegisterTcp(c, session, spec, name, id);
            && (reply == Refused(SessionNotFound) <==> session !in c.sessions)
            && (reply == Refused(LimitExceeded) <==> session in c.sessions && !HasRoom(c, session))
            && (reply == Refused(NoPorts) <==>
                  && HasRoom(c, session) && (forall p :: p in r.tcp ==> TcpKey(p) in c.routes)
                  && forall p :: !GroupAt(c, spec, p))
            && (reply.Refused? ==> d == c && reply.why in {SessionNotFound, LimitExceeded, NoPorts})
            && (reply.Accepted? ==> reply.id == id && reply.key.TcpKey? && reply.key.port in r.tcp)
            && (HasRoom(c, session) ==> forall p :: GroupAt(c, spec, p) ==> reply == Accepted(id, TcpKey(p)))
            && (reply.Accepted? ==> (reply.key in c.routes <==> exists p :: GroupAt(c, spec, p)))
  {
    NextPortsAreFree(c, r);
    forall p
      ensures TcpKey(p) in c.routes <==> p in TcpPorts(c)
    {
      PortOf(c, p);
    }
    forall p | GroupAt(c, spec, p)
      ensures (spec.value.name, spec.value.keyHash) in c.tcpIndex
      ensures c.tcpIndex[(spec.value.name, spec.value.keyHash)] == p
    {
      assert Named(c.routes[TcpKey(p)], (spec.value.name, spec.value.keyHash));
      assert TcpKey(p).port == p;
    }
    if spec.Some? && (spec.value.name, spec.value.keyHash) in c.tcpIndex {
      assert GroupAt(c, spec, c.tcpIndex[(spec.value.name, spec.value.keyHash)]);
    }
    assert c.tcpFree != [] ==> c.tcpFree[|c.tcpFree| - 1] in r.tcp;
    assert c.tcpFree == [] ==> forall p :: p in r.tcp ==> p in TcpPorts(c);
  }

  /** A UDP registration takes an unrouted port of the range, and is refused exactly when all are routed. */
  lemma UdpAdmission(c: Core, r: Ranges, session: Id, name: nat -> string, id: Id)
    requires Inv(c, r)
    ensures var (d, reply) := RegisterUdp(c, session, name, id);
            && (reply == Refused(SessionNotFound) <==> session !in c.sessions)
            && (reply == Refused(LimitExceeded) <==> session in c.sessions && !HasRoom(c, session))
            && (reply == Refused(NoPorts) <==>
                  HasRoom(c, session) && forall p :: p in r.udp ==> UdpKey(p) in c.routes)
            && (reply.Refused? ==> d == c && reply.why in {SessionNotFound, LimitExceeded, NoPorts})
            && (reply.Accepted? ==>
                  reply.id == id && reply.key.UdpKey? && reply.key.port in r.udp && reply.key !in c.routes)
  {
    NextPortsAreFree(c, r);
    forall p
      ensures UdpKey(p) in c.routes <==> p in UdpPorts(c)
    {
      PortOf(c, p);
    }
    assert c.udpFree != [] ==> c.udpFree[|c.udpFree| - 1] in r.udp;
    assert c.udpFree == [] ==> forall p :: p in r.udp ==> p in UdpPorts(c);
  }

  /** A name is published exactly when the session has room and nobody else publishes it. */
  lemma P2pAdmission(c: Core, session: Id, name: string, secretHash: string, id: Id)
    ensures var (d, reply) := RegisterP2p(c, session, name, secretHash, id);
            && (reply == Accepted(id, P2pKey(name)) <==> HasRoom(c, session) && name !in c.p2p)
            && (reply == Refused(SessionNotFound) <==> session !in c.sessions)
            && (reply == Refused(LimitExceeded) <==> session in c.sessions && !HasRoom(c, session))
            && (reply == Refused(LabelInUse) <==> HasRoom(c, session) && name in c.p2p)
            && (reply.Refused? ==> d == c)
            && (reply.Accepted? ==>
                  && reply == Accepted(id, P2pKey(name)) && name in d.p2p
                  && d.p2p[name].secretHash == secretHash
                  && d.p2p[name].info == TunnelInfo(session, id, P2p, None, None, Meters(0, 0, 0, 0)))
  {
  }

  // ── what an accepted registration adds ───────────────────────────────────

  /** A member as it starts: counters at zero, no failures, and healthy unless it asked for probes. */
  predicate Starts(m: Member, session: Id, id: Id, protocol: Protocol, key: Key, health: Option<HealthSpec>) {
    && m.info.session == session && m.info.id == id && m.info.protocol == protocol && Labelled(m.info, key)
    && m.info.meters == Meters(0, 0, 0, 0)
    && m.spec == health && (m.healthy <==> health == None)
    && m.streak == 0 && m.failures == 0
  }

  function HealthOf(spec: Option<GroupSpec>): Option<HealthSpec> {
    match spec
    case None => None
    case Some(g) => g.health
  }

  /** A group goes by its own name, a tunnel on its own by its label. */
  function NameOf(spec: Option<GroupSpec>, called: string): string {
    match spec
    case None => called
    case Some(g) => g.name
  }

  function HashOf(spec: Option<GroupSpec>): Option<string> {
    match spec
    case None => None
    case Some(g) => Some(g.keyHash)
  }

  /** The one new tunnel of a registration: indexed, listed, and a member of a new group or of the one there. */
  predicate Adds(c: Core, d: Core, session: Id, id: Id, protocol: Protocol, key: Key, called: string,
                 spec: Option<GroupSpec>) {
    && d.limit == c.limit && d.index == c.index[id := key] && d.p2p == c.p2p
    && session in c.sessions && d.sessions == c.sessions[session := c.sessions[session] + [id]]
    && key in d.routes && id in d.routes[key].members
    && d.routes == c.routes[key := d.routes[key]]
    && Starts(d.routes[key].members[id], session, id, protocol, key, HealthOf(spec))
    && (if key in c.routes
        then d.routes[key] == c.routes[key].(members := c.routes[key].members[id := d.routes[key].members[id]])
        else
          && d.routes[key].members.Keys == {id} && !d.routes[key].alerted
          && d.routes[key].keyHash == HashOf(spec) && d.routes[key].name == NameOf(spec, called))
  }

  lemma PlaceAdds(c: Core, key: Key, group: Group, m: Member, protocol: Protocol, called: string,
                  spec: Option<GroupSpec>)
    requires !key.P2pKey? && m.info.session in c.sessions
    requires if key in c.routes then group == c.routes[key] else StartsGroup(group, called, spec)
    requires Starts(m, m.info.session, m.info.id, protocol, key, HealthOf(spec))
    ensures Adds(c, Place(c, key, group, m), m.info.session, m.info.id, protocol, key, called, spec)
  {
  }

  predicate StartsGroup(g: Group, called: string, spec: Option<GroupSpec>) {
    g.members == map[] && !g.alerted && g.keyHash == HashOf(spec) && g.name == NameOf(spec, called)
  }

  /** A group that a registration makes starts empty, unalerted, and with its key and name. */
  lemma FirstGroupIsNew(called: string, spec: Option<GroupSpec>)
    ensures StartsGroup(FirstGroup(called, spec), called, spec)
  {
  }

  lemma FirstMemberStarts(info: TunnelInfo, spec: Option<GroupSpec>, key: Key)
    requires info.meters == ZERO && Labelled(info, key)
    ensures Starts(FirstMember(info, spec), info.session, info.id, info.protocol, key, HealthOf(spec))
    ensures spec.Some? ==>
              Starts(Probed(info, spec.value.health), info.session, info.id, info.protocol, key, HealthOf(spec))
  {
  }

  lemma HttpAdds(c: Core, session: Id, subdomain: Option<string>, generated: string, protocol: Protocol,
                 spec: Option<GroupSpec>, id: Id)
    ensures var (d, reply) := RegisterHttp(c, session, subdomain, generated, protocol, spec, id);
            reply.Accepted? ==> Adds(c, d, session, id, protocol, reply.key, reply.key.subdomain, spec)
  {
    var (d, reply) := RegisterHttp(c, session, subdomain, generated, protocol, spec, id);
    if reply.Accepted? {
      var tag := if subdomain.Some? then subdomain.value else generated;
      var key := HttpKey(tag);
      var info := TunnelInfo(session, id, protocol, Some(tag), None, ZERO);
      HttpIsPlaced(c, session, subdomain, generated, protocol, spec, id);
      FirstMemberStarts(info, spec, key);
      FirstGroupIsNew(tag, spec);
      HttpOutcome(c, session, subdomain, generated, protocol, spec, id);
      if key !in c.routes {
        PlaceAdds(c, key, FirstGroup(tag, spec), FirstMember(info, spec), protocol, tag, spec);
      } else {
        PlaceAdds(c, key, c.routes[key], Probed(info, spec.value.health), protocol, tag, spec);
      }
    }
  }

  lemma TcpAdds(c: Core, r: Ranges, session: Id, spec: Option<GroupSpec>, name: nat -> string, id: Id)
    requires Inv(c, r)
    ensures var (d, reply) := RegisterTcp(c, session, spec, name, id);
            reply.Accepted? ==>
              && Adds(c, d, session, id, Tcp, reply.key, name(reply.key.port), spec)
              && d.udpEvents == c.udpEvents
              && d.tcpEvents == c.tcpEvents + if reply.key in c.routes then [] else [Registered(id, reply.key.port)]
  {
    NextPortsAreFree(c, r);
    var (d, reply) := RegisterTcp(c, session, spec, name, id);
    if reply.Accepted? {
      var key := reply.key;
      var info := TcpInfo(session, id, key.port);
      FirstMemberStarts(info, spec, key);
      FirstGroupIsNew(name(key.port), spec);
      if key in c.routes {
        PlaceAdds(c, key, c.routes[key], Probed(info, spec.value.health), Tcp, name(key.port), spec);
      } else {
        PlaceAdds(c, key, FirstGroup(name(key.port), spec), FirstMember(info, spec), Tcp, name(key.port), spec);
      }
    }
  }

  lemma UdpAdds(c: Core, r: Ranges, session: Id, name: nat -> string, id: Id)
    requires Inv(c, r)
    ensures var (d, reply) := RegisterUdp(c, session, name, id);
            reply.Accepted? ==>
              && Adds(c, d, session, id, Udp, reply.key, name(reply.key.port), None)
              && d.tcpEvents == c.tcpEvents && d.udpEvents == c.udpEvents + [Registered(id, reply.key.port)]
  {
    NextPortsAreFree(c, r);
    var (d, reply) := RegisterUdp(c, session, name, id);
    if reply.Accepted? {
      var info := TunnelInfo(session, id, Udp, None, Some(reply.key.port), ZERO);
      PlaceAdds(c, reply.key, SoloGroup(name(reply.key.port)), Trusted(info), Udp, name(reply.key.port), None);
    }
  }

  /** A port that its last member gave up is the next one handed out, and the listener hears of both. */
  lemma FreedPortIsNext(c: Core, r: Ranges, gone: Id, session: Id, name: nat -> string, id: Id)
    requires Inv(c, r) && gone in c.index && Last(c, gone) && HasRoom(c, session)
    ensures var d := RemoveTunnel(c, gone);
            match c.index[gone]
            case TcpKey(port) =>
              && d.tcpEvents == c.tcpEvents + [Unregistered(port)]
              && RegisterTcp(d, session, None, name, id).1 == Accepted(id, TcpKey(port))
            case UdpKey(port) =>
              && d.udpEvents == c.udpEvents + [Unregistered(port)]
              && RegisterUdp(d, session, name, id).1 == Accepted(id, UdpKey(port))
            case _ => true
  {
  }

  /** A new server hands out the highest port of its range first. */
  lemma HighestPortFirst(low: nat, high: nat, udpLow: nat, udpHigh: nat, limit: nat, session: Id,
                         name: nat -> string, id: Id)
    requires 0 < limit && low <= high && udpLow <= udpHigh && 0 < udpHigh
    ensures var c := Apply(NewCore(low, high, udpLow, udpHigh, limit), OpenSession(session));
            && RegisterTcp(c, session, None, name, id).1 == Accepted(id, TcpKey(high))
            && RegisterUdp(c, session, name, id).1 == Accepted(id, UdpKey(udpHigh))
  {
  }

  // ── sessions ─────────────────────────────────────────────────────────────

  /** A session's list of tunnels, or nothing when it is not live. */
  function ListOf(c: Core, session: Id): Option<seq<Id>> {
    if session in c.sessions then Some(c.sessions[session]) else None
  }

  /** What an operation does to a session's list: opened empty, gone when closed, longer by each acceptance. */
  function ListAfter(list: Option<seq<Id>>, c: Core, op: Op, session: Id): Option<seq<Id>> {
    if op == OpenSession(session) then Some([])
    else if op == CloseSession(session) then None
    else if NewId(op).Some? && op.session == session && Replied(c, op).Accepted? && list.Some?
    then Some(list.value + [NewId(op).value])
    else list
  }

  function ListOver(list: Option<seq<Id>>, c: Core, ops: seq<Op>, session: Id): Option<seq<Id>>
    decreases |ops|
  {
    if ops == [] then list else ListOver(ListAfter(list, c, ops[0], session), Apply(c, ops[0]), ops[1..], session)
  }

  lemma {:induction false} RemovalsKeepSessions(c: Core, ids: seq<Id>)
    ensures RemoveTunnels(c, ids).sessions == c.sessions && RemoveTunnels(c, ids).limit == c.limit
    decreases |ids|
  {
    if ids != [] {
      RemoveSessions(c, ids[0]);
      RemovalsKeepSessions(RemoveTunnel(c, ids[0]), ids[1..]);
    }
  }

  lemma RegistrationLists(c: Core, r: Ranges, op: Op)
    requires Inv(c, r) && NewId(op).Some?
    ensures var d := Apply(c, op);
            && d.limit == c.limit
            && (Replied(c, op).Refused? ==> d == c)
            && (Replied(c, op).Accepted? ==>
                  && op.session in c.sessions
                  && d.sessions == c.sessions[op.session := c.sessions[op.session] + [NewId(op).value]])
  {
    RegistrationGrows(c, r, op);
    match op {
      case RegHttp(session, subdomain, generated, protocol, spec, id) =>
        HttpAdds(c, session, subdomain, generated, protocol, spec, id);
      case RegTcp(session, spec, name, id) => TcpAdds(c, r, session, spec, name, id);
      case RegUdp(session, name, id) => UdpAdds(c, r, session, name, id);
      case RegP2p(session, name, secretHash, id) => P2pAdmission(c, session, name, secretHash, id);
    }
  }

  lemma OthersList(c: Core, r: Ranges, op: Op)
    requires Inv(c, r) && NewId(op).None?
    ensures var d := Apply(c, op);
            && d.limit == c.limit
            && d.sessions == match op
                             case OpenSession(s) => c.sessions[s := []]
                             case CloseSession(s) => c.sessions - {s}
                             case _ => c.sessions
  {
    match op {
      case OpenSession(s) =>
      case CloseSession(s) =>
        if s in c.sessions {
          RemovalsKeepSessions(c.(sessions := c.sessions - {s}), c.sessions[s]);
        }
      case Remove(id) => RemoveSessions(c, id);
      case _ => ReportKeeps(c, r, op);
    }
  }

  lemma StepLists(c: Core, r: Ranges, op: Op, session: Id)
    requires Inv(c, r)
    ensures ListOf(Apply(c, op), session) == ListAfter(ListOf(c, session), c, op, session)
    ensures Apply(c, op).limit == c.limit
  {
    if NewId(op).Some? {
      RegistrationLists(c, r, op);
    } else {
      OthersList(c, r, op);
    }
  }

  lemma {:induction false} RunLists(c: Core, r: Ranges, ops: seq<Op>, session: Id)
    requires Inv(c, r) && AllAllowed(c, ops)
    ensures ListOf(RunOps(c, ops), session) == ListOver(ListOf(c, session), c, ops, session)
    ensures RunOps(c, ops).limit == c.limit
    decreases |ops|
  {
    if ops != [] {
      StepLists(c, r, ops[0], session);
      ApplyKeeps(c, r, ops[0]);
      RunLists(Apply(c, ops[0]), r, ops[1..], session);
    }
  }

  /**
   After any run of a new server: a session is live exactly when it was opened and not closed since, it
   lists exactly the tunnels accepted for it since then, in order, and the limit is the configured one.
   */
  lemma SessionsAreExact(tcpLow: nat, tcpHigh: nat, udpLow: nat, udpHigh: nat, limit: nat, ops: seq<Op>, session: Id)
    requires AllAllowed(NewCore(tcpLow, tcpHigh, udpLow, udpHigh, limit), ops)
    ensures var start := NewCore(tcpLow, tcpHigh, udpLow, udpHigh, limit);
            var c := RunOps(start, ops);
            && c.limit == limit
            && ListOver(None, start, ops, session)
               == if session in c.sessions then Some(c.sessions[session]) else None
  {
    NewCoreKeeps(tcpLow, tcpHigh, udpLow, udpHigh, limit);
    var r := RangesOf(tcpLow, tcpHigh, udpLow, udpHigh);
    RunLists(NewCore(tcpLow, tcpHigh, udpLow, udpHigh, limit), r, ops, session);
  }

  // ── whoever shares a route presented its key ─────────────────────────────

  /** The key that an operation presents, if it is a registration in a group. */
  function KeyPresented(op: Op): Option<string> {
    match op
    case RegHttp(_, _, _, _, spec, _) => HashOf(spec)
    case RegTcp(_, spec, _, _) => HashOf(spec)
    case _ => None
  }

  predicate Presented(ops: seq<Op>, id: Id, hash: Option<string>) {
    exists i :: 0 <= i < |ops| && NewId(ops[i]) == Some(id) && KeyPresented(ops[i]) == hash
  }

  /** Every member has presented its group's key; without a key there is one member. */
  predicate Entitled(c: Core, ops: seq<Op>) {
    forall key :: key in c.routes ==> AllEntitled(c.routes[key], ops)
  }

  predicate AllEntitled(g: Group, ops: seq<Op>) {
    && (forall id :: id in g.members ==> Presented(ops, id, g.keyHash))
    && (g.keyHash == None ==> forall a, b :: a in g.members && b in g.members ==> a == b)
  }

  lemma PresentedGrows(ops: seq<Op>, op: Op, id: Id, hash: Option<string>)
    ensures Presented(ops, id, hash) ==> Presented(ops + [op], id, hash)
    ensures NewId(op) == Some(id) && KeyPresented(op) == hash ==> Presented(ops + [op], id, hash)
  {
    if Presented(ops, id, hash) {
      var i :| 0 <= i < |ops| && NewId(ops[i]) == Some(id) && KeyPresented(ops[i]) == hash;
      assert (ops + [op])[i] == ops[i];
    }
    assert (ops + [op])[|ops|] == op;
  }

  /** A group that has lost members, or changed nothing but health bits and counters. */
  predicate NoNewcomers(g: Group, h: Group) {
    h.keyHash == g.keyHash && h.members.Keys <= g.members.Keys
  }

  lemma FewerEntitled(g: Group, h: Group, ops: seq<Op>, op: Op)
    requires AllEntitled(g, ops) && NoNewcomers(g, h)
    ensures AllEntitled(h, ops + [op])
  {
    forall id | id in h.members
      ensures Presented(ops + [op], id, h.keyHash)
    {
      assert id in g.members;
      PresentedGrows(ops, op, id, g.keyHash);
    }
  }

  lemma RemovalBringsNone(c: Core, id: Id, key: Key)
    requires key in RemoveTunnel(c, id).routes
    ensures key in c.routes && NoNewcomers(c.routes[key], RemoveTunnel(c, id).routes[key])
  {
    RemovedGroup(c, id, key);
  }

  lemma {:induction false} RemovalsBringNone(c: Core, ids: seq<Id>, key: Key)
    requires key in RemoveTunnels(c, ids).routes
    ensures key in c.routes && NoNewcomers(c.routes[key], RemoveTunnels(c, ids).routes[key])
    decreases |ids|
  {
    if ids != [] {
      RemovalsBringNone(RemoveTunnel(c, ids[0]), ids[1..], key);
      RemovalBringsNone(c, ids[0], key);
    }
  }

  /** Only registrations bring members. */
  lemma OthersBringNone(c: Core, r: Ranges, op: Op, key: Key)
    requires Inv(c, r) && NewId(op).None? && key in Apply(c, op).routes
    ensures key in c.routes && NoNewcomers(c.routes[key], Apply(c, op).routes[key])
  {
    match op {
      case OpenSession(session) =>
      case CloseSession(session) =>
        if session in c.sessions {
          RemovalsBringNone(c.(sessions := c.sessions - {session}), c.sessions[session], key);
        }
      case Remove(id) => RemovalBringsNone(c, id, key);
      case _ => ReportBringsNone(c, r, op, key);
    }
  }

  lemma ReportBringsNone(c: Core, r: Ranges, op: Op, key: Key)
    requires Inv(c, r) && key in Apply(c, op).routes
    requires op.TunnelHealthy? || op.TunnelUnhealthy? || op.Dispatch? || op.DispatchP2p? || op.Proxied?
    ensures key in c.routes && NoNewcomers(c.routes[key], Apply(c, op).routes[key])
  {
    ReportKeeps(c, r, op);
    assert SameGroup(c.routes[key], Apply(c, op).routes[key]);
  }

  /** A newcomer to a routed group has presented the group's key. */
  lemma NewcomerMatches(c: Core, r: Ranges, op: Op)
    requires Inv(c, r) && NewId(op).Some? && Replied(c, op).Accepted?
    ensures var key := Replied(c, op).key;
            if key.P2pKey? then Apply(c, op).routes == c.routes
            else
              && key in Apply(c, op).routes
              && Apply(c, op).routes[key].keyHash == KeyPresented(op)
              && (key in c.routes ==> KeyPresented(op).Some?)
  {
    match op {
      case RegHttp(session, subdomain, generated, protocol, spec, id) =>
        HttpAdds(c, session, subdomain, generated, protocol, spec, id);
        HttpOutcome(c, session, subdomain, generated, protocol, spec, id);
      case RegTcp(session, spec, name, id) =>
        TcpAdds(c, r, session, spec, name, id);
        TcpAdmission(c, r, session, spec, name, id);
      case RegUdp(session, name, id) =>
        UdpAdds(c, r, session, name, id);
        UdpAdmission(c, r, session, name, id);
      case RegP2p(session, name, secretHash, id) =>
    }
  }

  lemma RegistrationEntitles(c: Core, r: Ranges, done: seq<Op>, op: Op, key: Key)
    requires Inv(c, r) && Entitled(c, done) && NewId(op).Some? && key in Apply(c, op).routes
    ensures AllEntitled(Apply(c, op).routes[key], done + [op])
  {
    var d, reply := Apply(c, op), Replied(c, op);
    RegistrationGrows(c, r, op);
    if reply.Refused? || reply.key != key {
      GrowsElsewhere(c, d, reply, key);
      FewerEntitled(c.routes[key], d.routes[key], done, op);
    } else {
      NewcomerMatches(c, r, op);
      GrowsHere(c, d, reply);
      NewcomerEntitled(c, d.routes[key], done, op, key);
    }
  }

  lemma GrowsElsewhere(c: Core, d: Core, reply: Reply, key: Key)
    requires Grows(c, d, reply) && key in d.routes && (reply.Refused? || reply.key != key)
    ensures key in c.routes && d.routes[key] == c.routes[key]
  {
  }

  lemma GrowsHere(c: Core, d: Core, reply: Reply)
    requires Grows(c, d, reply) && reply.Accepted? && !reply.key.P2pKey?
    ensures var key := reply.key;
            && key in d.routes
            && d.routes[key].members.Keys == (if key in c.routes then c.routes[key].members.Keys else {}) + {reply.id}
            && (key in c.routes ==> d.routes[key].keyHash == c.routes[key].keyHash)
  {
  }

  lemma NewcomerEntitled(c: Core, g: Group, done: seq<Op>, op: Op, key: Key)
    requires Entitled(c, done) && NewId(op).Some? && g.keyHash == KeyPresented(op)
    requires g.members.Keys == (if key in c.routes then c.routes[key].members.Keys else {}) + {NewId(op).value}
    requires key in c.routes ==> g.keyHash == c.routes[key].keyHash && g.keyHash.Some?
    ensures AllEntitled(g, done + [op])
  {
    if key in c.routes {
      assert AllEntitled(c.routes[key], done);
    }
    forall id | id in g.members
      ensures Presented(done + [op], id, g.keyHash)
    {
      PresentedGrows(done, op, id, g.keyHash);
    }
  }

  lemma StepEntitled(c: Core, r: Ranges, done: seq<Op>, op: Op)
    requires Inv(c, r) && Entitled(c, done)
    ensures Entitled(Apply(c, op), done + [op])
  {
    forall key | key in Apply(c, op).routes
      ensures AllEntitled(Apply(c, op).routes[key], done + [op])
    {
      if NewId(op).Some? {
        RegistrationEntitles(c, r, done, op, key);
      } else {
        OthersBringNone(c, r, op, key);
        FewerEntitled(c.routes[key], Apply(c, op).routes[key], done, op);
      }
    }
  }

  lemma {:induction false} RunEntitled(c: Core, r: Ranges, done: seq<Op>, ops: seq<Op>)
    requires Inv(c, r) && Entitled(c, done) && AllAllowed(c, ops)
    ensures Entitled(RunOps(c, ops), done + ops)
    decreases |ops|
  {
    if ops == [] {
      assert done + ops == done;
    } else {
      StepEntitled(c, r, done, ops[0]);
      ApplyKeeps(c, r, ops[0]);
      RunEntitled(Apply(c, ops[0]), r, done + [ops[0]], ops[1..]);
      assert done + [ops[0]] + ops[1..] == done + ops;
    }
  }

  /**
   After any run of a fresh server, every member of a route was registered with the key of its group;
   and a route without a key has one member.
   */
  lemma SharersPresentedTheKey(start: Core, r: Ranges, ops: seq<Op>, key: Key, id: Id)
    requires Inv(start, r) && start.routes == map[] && AllAllowed(start, ops)
    requires var c := RunOps(start, ops); key in c.routes && id in c.routes[key].members
    ensures var g := RunOps(start, ops).routes[key];
            && (exists i :: 0 <= i < |ops| && NewId(ops[i]) == Some(id) && KeyPresented(ops[i]) == g.keyHash)
            && (g.keyHash == None ==> g.members.Keys == {id})
  {
    RunEntitled(start, r, [], ops);
    assert [] + ops == ops;
    assert AllEntitled(RunOps(start, ops).routes[key], ops);
    assert Presented(ops, id, RunOps(start, ops).routes[key].keyHash);
  }

  // ── owners, publishers and alerts ────────────────────────────────────────

  /** The owner that a report is checked against is the session that registered the tunnel. */
  lemma OwnerIsExact(c: Core, r: Ranges, id: Id, session: Id)
    requires Inv(c, r)
    ensures SessionOf(c, id) == Some(session) <==>
            exists key :: Holds(c, key, id) && InfoAt(c, key, id).session == session
    ensures SessionOf(c, id) == None <==> forall key :: !Holds(c, key, id)
  {
    forall key | Holds(c, key, id)
      ensures SessionOf(c, id) == Some(InfoAt(c, key, id).session)
    {
      assert IndexedAt(c, id, key);
    }
    if id in c.index {
      assert Holds(c, c.index[id], id) <==> IndexedAt(c, id, c.index[id]);
    }
  }

  /** A published name is found, with its publisher, and its request counter alone goes up by one. */
  lemma ResolveP2pIsExact(c: Core, r: Ranges, name: string)
    requires Inv(c, r)
    ensures var (d, found) := ResolveP2p(c, name);
            && (found.Some? <==> name in c.p2p)
            && (found.None? ==> d == c)
            && (found.Some? ==>
                  && found.value == c.p2p[name].info && found.value.session in c.sessions
                  && name in d.p2p && d == c.(p2p := c.p2p[name := d.p2p[name]])
                  && d.p2p[name].secretHash == c.p2p[name].secretHash
                  && d.p2p[name].info == c.p2p[name].info.(meters := d.p2p[name].info.meters)
                  && var m := c.p2p[name].info.meters;
                     d.p2p[name].info.meters == Meters(m.requests + 1, m.bytesIn, m.bytesOut, m.proxied))
  {
    if name in c.p2p {
      var key := P2pKey(name);
      assert Holds(c, key, c.p2p[name].info.id);
      assert OwnedAs(c, InfoAt(c, key, c.p2p[name].info.id), c.p2p[name].info.id, key);
    }
  }

  predicate AsksFor(m: Member, url: string) {
    m.spec == Some(HealthSpec(Some(url)))
  }

  /** An alert names the group, its key and its size, and goes to every URL that a member gave, and no other. */
  lemma AlertCarriesItsGroup(c: Core, session: Id, id: Id, reason: string, url: string)
    requires UnhealthyFrame(c, session, id, reason).1.Some?
    ensures var a := UnhealthyFrame(c, session, id, reason).1.value;
            && HasMember(c, id)
            && var g := c.routes[c.index[id]];
               && a.key == c.index[id] && a.groupName == g.name && Some(a.keyHash) == g.keyHash
               && a.memberCount == |g.members|
               && (url in a.webhooks <==> exists x :: x in g.members && AsksFor(g.members[x], url))
  {
    var g := GroupOf(c, id);
    var h := GroupOf(MarkDown(c, id, reason), id);
    assert h.members.Keys == g.members.Keys;
    assert |g.members| == |g.members.Keys| && |h.members| == |h.members.Keys|;
    forall x | x in g.members
      ensures h.members[x].spec == g.members[x].spec
    {
    }
    forall x | x in g.members && AsksFor(g.members[x], url)
      ensures url in h.Webhooks()
    {
      assert h.members[x].spec.value.webhook.value == url;
    }
    if url in h.Webhooks() {
      var x :| x in h.members && h.members[x].spec.Some? && h.members[x].spec.value.webhook.Some?
               && h.members[x].spec.value.webhook.value == url;
      assert AsksFor(g.members[x], url);
    }
  }
}
