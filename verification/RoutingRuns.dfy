/** The routing invariant over removals, teardown and whole runs. */
module RoutingRuns {
  import opened Basics
  import opened Routing
  import opened RoutingInvariant

  // ── removal ──────────────────────────────────────────────────────────────

  /** Ownership of every tunnel except those still to be removed. */
  ghost predicate OwnedBut(c: Core, leaving: seq<Id>) {
    forall key, id :: Holds(c, key, id) && id !in leaving ==> OwnedAs(c, InfoAt(c, key, id), id, key)
  }

  ghost predicate InvBut(c: Core, r: Ranges, leaving: seq<Id>) {
    && Agree(c) && NoEmptyRoute(c) && OwnedBut(c, leaving) && Listed(c) && AllUniform(c)
    && Conserved(c.tcpFree, TcpPorts(c), r.tcp) && Conserved(c.udpFree, UdpPorts(c), r.udp)
    && GroupsIndexed(c)
    && Listening(c.tcpEvents) == Some(TcpPorts(c)) && Listening(c.udpEvents) == Some(UdpPorts(c))
  }

  /** Removal takes one tunnel out of the tables and touches no other. */
  lemma RemoveHolds(c: Core, id: Id, k: Key, x: Id)
    requires Agree(c)
    ensures Holds(RemoveTunnel(c, id), k, x) <==> Holds(c, k, x) && x != id
    ensures Holds(RemoveTunnel(c, id), k, x) ==> InfoAt(RemoveTunnel(c, id), k, x) == InfoAt(c, k, x)
  {
    assert Holds(c, k, id) <==> IndexedAt(c, id, k);
    if id in c.index {
      var key := c.index[id];
      assert Holds(c, key, id) <==> IndexedAt(c, id, key);
      if key.P2pKey? {
        PublisherLeaves(c, id, k, x);
      } else if k in RemoveTunnel(c, id).routes {
        RemovedGroup(c, id, k);
      } else if k in c.routes {
        VanishedGroup(c, id, k);
      }
    }
  }

  lemma PublisherLeaves(c: Core, id: Id, k: Key, x: Id)
    requires Agree(c) && id in c.index && c.index[id].P2pKey?
    ensures Holds(RemoveTunnel(c, id), k, x) <==> Holds(c, k, x) && x != id
  {
    assert Holds(c, k, id) <==> IndexedAt(c, id, k);
    assert Holds(c, c.index[id], id) <==> IndexedAt(c, id, c.index[id]);
  }

  /** A route that goes had no other member. */
  lemma VanishedGroup(c: Core, id: Id, key: Key)
    requires key in c.routes && key !in RemoveTunnel(c, id).routes
    ensures c.routes[key].members.Keys <= {id}
  {
    var members := c.routes[key].members;
    assert members.Keys <= (members - {id}).Keys + {id};
  }

  /** A route that stays is as it was, or has lost this one member and is not empty. */
  lemma RemovedGroup(c: Core, id: Id, key: Key)
    requires key in RemoveTunnel(c, id).routes
    ensures key in c.routes
    ensures var g, h := c.routes[key], RemoveTunnel(c, id).routes[key];
            if id in c.index && c.index[id] == key && !key.P2pKey?
            then h == g.(members := g.members - {id}) && h.members != map[]
            else h == g
  {
    if id in c.index && !c.index[id].P2pKey? && c.index[id] != key {
      RetireLeaves(c.(index := c.index - {id}), c.index[id], key);
    }
  }

  lemma RetireLeaves(c: Core, key: Key, other: Key)
    requires other != key
    ensures other in Retire(c, key).routes <==> other in c.routes
    ensures other in c.routes ==> Retire(c, key).routes[other] == c.routes[other]
  {
  }

  lemma RemoveAgree(c: Core, id: Id)
    requires Agree(c)
    ensures Agree(RemoveTunnel(c, id))
  {
    var d := RemoveTunnel(c, id);
    forall k, x
      ensures Holds(d, k, x) <==> IndexedAt(d, x, k)
    {
      assert Holds(c, k, x) <==> IndexedAt(c, x, k);
      RemoveHolds(c, id, k, x);
    }
    forall key | key in d.routes
      ensures !key.P2pKey?
    {
      RemovedGroup(c, id, key);
    }
  }

  lemma RemoveOwned(c: Core, id: Id, leaving: seq<Id>)
    requires Agree(c) && OwnedBut(c, [id] + leaving)
    ensures OwnedBut(RemoveTunnel(c, id), leaving)
  {
    var d := RemoveTunnel(c, id);
    forall k, x | Holds(d, k, x) && x !in leaving
      ensures OwnedAs(d, InfoAt(d, k, x), x, k)
    {
      RemoveHolds(c, id, k, x);
      assert OwnedAs(c, InfoAt(c, k, x), x, k);
    }
  }

  lemma RemoveTables(c: Core, id: Id)
    requires NoEmptyRoute(c) && AllUniform(c)
    ensures NoEmptyRoute(RemoveTunnel(c, id)) && AllUniform(RemoveTunnel(c, id))
  {
    var d := RemoveTunnel(c, id);
    forall key | key in d.routes
      ensures d.routes[key].members != map[] && (key.HttpKey? ==> Uniform(d.routes[key]))
    {
      RemovedGroup(c, id, key);
      if key.HttpKey? {
        FewerStayUniform(c.routes[key], d.routes[key]);
      }
    }
  }

  lemma FewerStayUniform(g: Group, h: Group)
    requires Uniform(g)
    requires forall id :: id in h.members ==> id in g.members && h.members[id] == g.members[id]
    ensures Uniform(h)
  {
  }

  lemma KeyIsRouted(c: Core, id: Id)
    requires Agree(c) && id in c.index && !c.index[id].P2pKey?
    ensures c.index[id] in c.routes && id in c.routes[c.index[id]].members
  {
    assert Holds(c, c.index[id], id) <==> IndexedAt(c, id, c.index[id]);
  }

  /** Is this removal the last one at its route? */
  predicate Last(c: Core, id: Id) {
    id in c.index && !c.index[id].P2pKey? && c.index[id] in c.routes && c.routes[c.index[id]].members - {id} == map[]
  }

  lemma RetiredPorts(c: Core, d: Core, key: Key)
    requires d.routes.Keys == c.routes.Keys - {key}
    ensures TcpPorts(d) == if key.TcpKey? then TcpPorts(c) - {key.port} else TcpPorts(c)
    ensures UdpPorts(d) == if key.UdpKey? then UdpPorts(c) - {key.port} else UdpPorts(c)
  {
  }

  lemma SameKeysSamePorts(c: Core, d: Core)
    requires d.routes.Keys == c.routes.Keys
    ensures TcpPorts(d) == TcpPorts(c) && UdpPorts(d) == UdpPorts(c)
  {
  }

  ghost predicate PortsKept(c: Core, r: Ranges) {
    && Conserved(c.tcpFree, TcpPorts(c), r.tcp) && Conserved(c.udpFree, UdpPorts(c), r.udp)
    && Listening(c.tcpEvents) == Some(TcpPorts(c)) && Listening(c.udpEvents) == Some(UdpPorts(c))
  }

  lemma RetirePorts(c: Core, r: Ranges, key: Key)
    requires PortsKept(c, r) && key in c.routes
    ensures PortsKept(Retire(c, key), r)
  {
    var d := Retire(c, key);
    RetiredPorts(c, d, key);
    match key {
      case TcpKey(port) =>
        PortOf(c, port);
        ReturnPort(c.tcpFree, TcpPorts(c), r.tcp, port);
        ListeningPush(c.tcpEvents, Unregistered(port));
      case UdpKey(port) =>
        PortOf(c, port);
        ReturnPort(c.udpFree, UdpPorts(c), r.udp, port);
        ListeningPush(c.udpEvents, Unregistered(port));
      case _ =>
    }
  }

  lemma RetireGroups(c: Core, key: Key)
    requires GroupsIndexed(c) && key in c.routes
    ensures GroupsIndexed(Retire(c, key))
  {
    var d := Retire(c, key);
    if key.TcpKey? && c.routes[key].keyHash.Some? {
      var own := (c.routes[key].name, c.routes[key].keyHash.value);
      assert Named(c.routes[key], own);
      forall k | k in c.routes && k.TcpKey? && Named(c.routes[k], own)
        ensures k == key
      {
        assert k == TcpKey(k.port) && key == TcpKey(key.port);
      }
    }
    forall nk | nk in d.tcpIndex
      ensures TcpKey(d.tcpIndex[nk]) in d.routes && Named(d.routes[TcpKey(d.tcpIndex[nk])], nk)
    {
      assert nk in c.tcpIndex;
      assert Named(c.routes[TcpKey(c.tcpIndex[nk])], nk);
    }
    forall k, nk | k in d.routes && k.TcpKey? && Named(d.routes[k], nk)
      ensures nk in d.tcpIndex && d.tcpIndex[nk] == k.port
    {
      assert Named(c.routes[k], nk);
    }
  }

  lemma LastLeavesPorts(c: Core, r: Ranges, id: Id)
    requires Agree(c) && PortsKept(c, r) && GroupsIndexed(c) && Last(c, id)
    ensures PortsKept(RemoveTunnel(c, id), r) && GroupsIndexed(RemoveTunnel(c, id))
  {
    var e := c.(index := c.index - {id});
    SameKeysSamePorts(c, e);
    RetirePorts(e, r, c.index[id]);
    RetireGroups(e, c.index[id]);
  }

  lemma OthersStayPorts(c: Core, r: Ranges, id: Id)
    requires Agree(c) && PortsKept(c, r) && GroupsIndexed(c) && !Last(c, id)
    ensures PortsKept(RemoveTunnel(c, id), r) && GroupsIndexed(RemoveTunnel(c, id))
  {
    var d := RemoveTunnel(c, id);
    if id in c.index && !c.index[id].P2pKey? {
      KeyIsRouted(c, id);
    }
    SameKeysSamePorts(c, d);
    RenamesNothing(c, d);
  }

  lemma RemovePorts(c: Core, r: Ranges, id: Id)
    requires Agree(c) && PortsKept(c, r) && GroupsIndexed(c)
    ensures PortsKept(RemoveTunnel(c, id), r) && GroupsIndexed(RemoveTunnel(c, id))
  {
    if Last(c, id) {
      LastLeavesPorts(c, r, id);
    } else {
      OthersStayPorts(c, r, id);
    }
  }

  lemma RenamesNothing(c: Core, d: Core)
    requires GroupsIndexed(c) && d.tcpIndex == c.tcpIndex && d.routes.Keys == c.routes.Keys
    requires forall key :: key in c.routes ==>
             d.routes[key].name == c.routes[key].name && d.routes[key].keyHash == c.routes[key].keyHash
    ensures GroupsIndexed(d)
  {
    forall k, nk | k in d.routes && k.TcpKey? && Named(d.routes[k], nk)
      ensures nk in d.tcpIndex && d.tcpIndex[nk] == k.port
    {
      assert Named(c.routes[k], nk);
    }
    forall nk | nk in d.tcpIndex
      ensures TcpKey(d.tcpIndex[nk]) in d.routes && Named(d.routes[TcpKey(d.tcpIndex[nk])], nk)
    {
      assert Named(c.routes[TcpKey(c.tcpIndex[nk])], nk);
    }
  }

  lemma RemoveSessions(c: Core, id: Id)
    ensures RemoveTunnel(c, id).sessions == c.sessions && RemoveTunnel(c, id).limit == c.limit
  {
  }

  lemma RemoveListed(c: Core, id: Id)
    requires Listed(c)
    ensures Listed(RemoveTunnel(c, id))
  {
    RemoveSessions(c, id);
    var d := RemoveTunnel(c, id);
    assert ListedIn(d.sessions, d.limit);
  }

  lemma RemoveKeeps(c: Core, r: Ranges, id: Id, leaving: seq<Id>)
    requires InvBut(c, r, [id] + leaving)
    ensures InvBut(RemoveTunnel(c, id), r, leaving)
  {
    RemoveAgree(c, id);
    RemoveOwned(c, id, leaving);
    RemoveTables(c, id);
    RemoveListed(c, id);
    RemovePorts(c, r, id);
    Assemble(RemoveTunnel(c, id), r, leaving);
  }

  lemma Assemble(d: Core, r: Ranges, leaving: seq<Id>)
    requires Agree(d) && OwnedBut(d, leaving) && NoEmptyRoute(d) && AllUniform(d) && Listed(d)
    requires PortsKept(d, r) && GroupsIndexed(d)
    ensures InvBut(d, r, leaving)
  {
  }

  /** Removing a list of tunnels removes exactly those from the tables. */
  lemma {:induction false} RemoveAllKeeps(c: Core, r: Ranges, ids: seq<Id>)
    requires InvBut(c, r, ids)
    ensures InvBut(RemoveTunnels(c, ids), r, [])
    ensures RemoveTunnels(c, ids).sessions == c.sessions
    decreases |ids|
  {
    if ids != [] {
      assert [ids[0]] + ids[1..] == ids;
      RemoveKeeps(c, r, ids[0], ids[1..]);
      RemoveSessions(c, ids[0]);
      RemoveAllKeeps(RemoveTunnel(c, ids[0]), r, ids[1..]);
    }
  }

  lemma {:induction false} RemoveAllHolds(c: Core, ids: seq<Id>, k: Key, x: Id)
    requires Agree(c)
    ensures Holds(RemoveTunnels(c, ids), k, x) <==> Holds(c, k, x) && x !in ids
    ensures Holds(RemoveTunnels(c, ids), k, x) ==> InfoAt(RemoveTunnels(c, ids), k, x) == InfoAt(c, k, x)
    decreases |ids|
  {
    if ids != [] {
      RemoveHolds(c, ids[0], k, x);
      RemoveAgree(c, ids[0]);
      RemoveAllHolds(RemoveTunnel(c, ids[0]), ids[1..], k, x);
    }
  }

  lemma InvIsInvBut(c: Core, r: Ranges)
    ensures Inv(c, r) <==> InvBut(c, r, [])
  {
  }

  lemma RemoveTunnelKeeps(c: Core, r: Ranges, id: Id)
    requires Inv(c, r)
    ensures Inv(RemoveTunnel(c, id), r)
  {
    InvIsInvBut(c, r);
    forall key, x | Holds(c, key, x) && x !in [id]
      ensures OwnedAs(c, InfoAt(c, key, x), x, key)
    {
    }
    assert [id] + [] == [id];
    RemoveKeeps(c, r, id, []);
    InvIsInvBut(RemoveTunnel(c, id), r);
  }

  // ── session teardown ─────────────────────────────────────────────────────

  lemma TeardownStart(c: Core, r: Ranges, session: Id)
    requires Inv(c, r) && session in c.sessions
    ensures InvBut(c.(sessions := c.sessions - {session}), r, c.sessions[session])
  {
    var d := c.(sessions := c.sessions - {session});
    var leaving := c.sessions[session];
    forall key, id
      ensures Holds(d, key, id) <==> IndexedAt(d, id, key)
    {
      assert Holds(c, key, id) <==> IndexedAt(c, id, key);
    }
    forall key, id | Holds(d, key, id) && id !in leaving
      ensures OwnedAs(d, InfoAt(d, key, id), id, key)
    {
      assert Holds(c, key, id);
      assert OwnedAs(c, InfoAt(c, key, id), id, key);
    }
    SameKeysSamePorts(c, d);
    RenamesNothing(c, d);
  }

  lemma RemoveSessionKeeps(c: Core, r: Ranges, session: Id)
    requires Inv(c, r)
    ensures Inv(RemoveSession(c, session), r)
  {
    if session in c.sessions {
      var d := c.(sessions := c.sessions - {session});
      TeardownStart(c, r, session);
      RemoveAllKeeps(d, r, c.sessions[session]);
      InvIsInvBut(RemoveTunnels(d, c.sessions[session]), r);
    }
  }

  /**
   Teardown leaves none of the session's tunnels in any table, and every tunnel of every other
   session exactly where and as it was.
   */
  lemma TeardownIsExact(c: Core, r: Ranges, session: Id, key: Key, id: Id)
    requires Inv(c, r) && session in c.sessions
    ensures var d := RemoveSession(c, session);
            && session !in d.sessions
            && (Holds(d, key, id) <==> Holds(c, key, id) && InfoAt(c, key, id).session != session)
            && (Holds(d, key, id) ==> InfoAt(d, key, id) == InfoAt(c, key, id))
            && (id in c.sessions[session] ==> id !in d.index)
  {
    var d := c.(sessions := c.sessions - {session});
    TeardownStart(c, r, session);
    RemoveAllHolds(d, c.sessions[session], key, id);
    RemoveAllKeeps(d, r, c.sessions[session]);
    var e := RemoveTunnels(d, c.sessions[session]);
    if Holds(c, key, id) {
      assert OwnedAs(c, InfoAt(c, key, id), id, key);
    }
    if id in e.index {
      RemoveAllHolds(d, c.sessions[session], e.index[id], id);
      assert Holds(e, e.index[id], id) <==> IndexedAt(e, id, e.index[id]);
    }
  }

  // ── steps that only change health bits and counters ──────────────────────

  predicate SameInfo(a: TunnelInfo, b: TunnelInfo) {
    b == a.(meters := b.meters)
  }

  predicate SameGroup(g: Group, h: Group) {
    && h.name == g.name && h.keyHash == g.keyHash && h.members.Keys == g.members.Keys
    && forall id :: id in g.members ==> SameInfo(g.members[id].info, h.members[id].info)
  }

  predicate SameShape(c: Core, d: Core) {
    && d == c.(routes := d.routes, p2p := d.p2p)
    && d.routes.Keys == c.routes.Keys && d.p2p.Keys == c.p2p.Keys
    && (forall key :: key in c.routes ==> SameGroup(c.routes[key], d.routes[key]))
    && (forall name :: name in c.p2p ==> SameInfo(c.p2p[name].info, d.p2p[name].info))
  }

  lemma SameShapeHolds(c: Core, d: Core, key: Key, id: Id)
    requires SameShape(c, d)
    ensures Holds(d, key, id) <==> Holds(c, key, id)
    ensures Holds(d, key, id) ==> SameInfo(InfoAt(c, key, id), InfoAt(d, key, id))
  {
    if !key.P2pKey? && key in c.routes {
      assert SameGroup(c.routes[key], d.routes[key]);
    }
  }

  lemma SameShapeAgree(c: Core, d: Core)
    requires SameShape(c, d) && Agree(c) && Owned(c)
    ensures Agree(d) && Owned(d)
  {
    forall key, id
      ensures Holds(d, key, id) <==> IndexedAt(d, id, key)
    {
      assert Holds(c, key, id) <==> IndexedAt(c, id, key);
      SameShapeHolds(c, d, key, id);
    }
    forall key, id | Holds(d, key, id)
      ensures OwnedAs(d, InfoAt(d, key, id), id, key)
    {
      SameShapeHolds(c, d, key, id);
      assert OwnedAs(c, InfoAt(c, key, id), id, key);
    }
  }

  lemma SameShapeKeeps(c: Core, d: Core, r: Ranges)
    requires SameShape(c, d) && Inv(c, r)
    ensures Inv(d, r)
  {
    SameShapeAgree(c, d);
    SameKeysSamePorts(c, d);
    RenamesNothing(c, d);
    forall key | key in d.routes
      ensures d.routes[key].members != map[] && (key.HttpKey? ==> Uniform(d.routes[key]))
    {
      SameShapeUniform(c.routes[key], d.routes[key]);
      assert c.routes[key].members != map[];
    }
  }

  lemma SameShapeUniform(g: Group, h: Group)
    requires SameGroup(g, h)
    ensures g.members != map[] ==> h.members != map[]
    ensures Uniform(g) ==> Uniform(h)
  {
  }

  lemma WithMemberShape(c: Core, id: Id, m: Member, alerted: bool)
    requires HasMember(c, id) && SameInfo(MemberOf(c, id).info, m.info)
    ensures SameShape(c, WithMember(c, id, m, alerted))
  {
  }

  lemma PopAlertShape(c: Core, id: Id)
    ensures SameShape(c, PopAlert(c, id).0)
  {
  }

  lemma SameShapeChain(c: Core, d: Core, e: Core)
    requires SameShape(c, d) && SameShape(d, e)
    ensures SameShape(c, e)
  {
  }

  lemma UnhealthyShape(c: Core, session: Id, id: Id, reason: string)
    ensures SameShape(c, UnhealthyFrame(c, session, id, reason).0)
  {
    if Reports(c, session, id) {
      WithMemberShape(c, id, MemberOf(c, id).Down(reason), GroupOf(c, id).alerted);
      PopAlertShape(MarkDown(c, id, reason), id);
      SameShapeChain(c, MarkDown(c, id, reason), UnhealthyFrame(c, session, id, reason).0);
    }
  }

  lemma HealthyShape(c: Core, session: Id, id: Id)
    ensures SameShape(c, HealthyFrame(c, session, id))
  {
    if Reports(c, session, id) {
      WithMemberShape(c, id, MemberOf(c, id).Up(), false);
    }
  }

  lemma ResolveShape(c: Core, key: Key, choice: Id)
    ensures SameShape(c, Resolve(c, key, choice).0)
  {
  }

  lemma ResolveP2pShape(c: Core, name: string)
    ensures SameShape(c, ResolveP2p(c, name).0)
  {
  }

  lemma TransferShape(c: Core, id: Id, inbound: nat, outbound: nat)
    ensures SameShape(c, Transfer(c, id, inbound, outbound))
  {
    if HasMember(c, id) {
      var m := MemberOf(c, id);
      WithMemberShape(c, id, m.(info := m.info.(meters := m.info.meters.AddTransfer(inbound, outbound))),
                      GroupOf(c, id).alerted);
    }
  }

  // ── every step, every run ────────────────────────────────────────────────

  lemma OpenSessionKeeps(c: Core, r: Ranges, session: Id)
    requires Inv(c, r) && session !in c.sessions
    ensures Inv(c.(sessions := c.sessions[session := []]), r)
  {
    var d := c.(sessions := c.sessions[session := []]);
    forall key, id
      ensures Holds(d, key, id) <==> IndexedAt(d, id, key)
    {
      assert Holds(c, key, id) <==> IndexedAt(c, id, key);
    }
    forall key, id | Holds(d, key, id)
      ensures OwnedAs(d, InfoAt(d, key, id), id, key)
    {
      assert Holds(c, key, id);
      assert OwnedAs(c, InfoAt(c, key, id), id, key);
    }
    SameKeysSamePorts(c, d);
    RenamesNothing(c, d);
  }

  lemma ApplyKeeps(c: Core, r: Ranges, op: Op)
    requires Inv(c, r) && Allowed(c, op)
    ensures Inv(Apply(c, op), r)
  {
    match op {
      case OpenSession(session) => OpenSessionKeeps(c, r, session);
      case CloseSession(session) => RemoveSessionKeeps(c, r, session);
      case RegHttp(session, subdomain, generated, protocol, spec, id) =>
        RegisterHttpKeeps(c, r, session, subdomain, generated, protocol, spec, id);
      case RegTcp(session, spec, name, id) => RegisterTcpKeeps(c, r, session, spec, name, id);
      case RegUdp(session, name, id) => RegisterUdpKeeps(c, r, session, name, id);
      case RegP2p(session, name, secretHash, id) => RegisterP2pKeeps(c, r, session, name, secretHash, id);
      case Remove(id) => RemoveTunnelKeeps(c, r, id);
      case _ => ReportKeeps(c, r, op);
    }
  }

  lemma ReportKeeps(c: Core, r: Ranges, op: Op)
    requires Inv(c, r)
    requires op.TunnelHealthy? || op.TunnelUnhealthy? || op.Dispatch? || op.DispatchP2p? || op.Proxied?
    ensures SameShape(c, Apply(c, op)) && Inv(Apply(c, op), r)
  {
    match op {
      case TunnelHealthy(session, id) => HealthyShape(c, session, id);
      case TunnelUnhealthy(session, id, reason) => UnhealthyShape(c, session, id, reason);
      case Dispatch(key, choice) => ResolveShape(c, key, choice);
      case DispatchP2p(name) => ResolveP2pShape(c, name);
      case Proxied(id, inbound, outbound) => TransferShape(c, id, inbound, outbound);
    }
    SameShapeKeeps(c, Apply(c, op), r);
  }

  function RangesOf(tcpLow: nat, tcpHigh: nat, udpLow: nat, udpHigh: nat): Ranges {
    Ranges(PortSet(tcpLow, tcpHigh), if udpLow == 0 && udpHigh == 0 then {} else PortSet(udpLow, udpHigh))
  }

  function PortSet(low: nat, high: nat): set<nat> {
    set p | p in PortRange(low, high)
  }

  lemma RangePorts(low: nat, high: nat)
    ensures Conserved(PortRange(low, high), {}, PortSet(low, high))
    ensures forall p :: p in PortSet(low, high) <==> low <= p <= high
  {
    var free := PortRange(low, high);
    forall p
      ensures p in free <==> low <= p <= high
    {
      if low <= p <= high {
        assert free[p - low] == p;
      }
    }
  }

  lemma NewCoreKeeps(tcpLow: nat, tcpHigh: nat, udpLow: nat, udpHigh: nat, limit: nat)
    ensures Inv(NewCore(tcpLow, tcpHigh, udpLow, udpHigh, limit), RangesOf(tcpLow, tcpHigh, udpLow, udpHigh))
  {
    RangePorts(tcpLow, tcpHigh);
    RangePorts(udpLow, udpHigh);
    var c := NewCore(tcpLow, tcpHigh, udpLow, udpHigh, limit);
    assert TcpPorts(c) == {} && UdpPorts(c) == {};
  }

  lemma {:induction false} RunKeeps(c: Core, r: Ranges, ops: seq<Op>)
    requires Inv(c, r) && AllAllowed(c, ops)
    ensures Inv(RunOps(c, ops), r)
    decreases |ops|
  {
    if ops != [] {
      ApplyKeeps(c, r, ops[0]);
      RunKeeps(Apply(c, ops[0]), r, ops[1..]);
    }
  }

  /** Routing agreement and port conservation, from a fresh server, over every run. */
  lemma EveryRunAgrees(tcpLow: nat, tcpHigh: nat, udpLow: nat, udpHigh: nat, limit: nat, ops: seq<Op>)
    requires AllAllowed(NewCore(tcpLow, tcpHigh, udpLow, udpHigh, limit), ops)
    ensures Inv(RunOps(NewCore(tcpLow, tcpHigh, udpLow, udpHigh, limit), ops),
                RangesOf(tcpLow, tcpHigh, udpLow, udpHigh))
  {
    NewCoreKeeps(tcpLow, tcpHigh, udpLow, udpHigh, limit);
    RunKeeps(NewCore(tcpLow, tcpHigh, udpLow, udpHigh, limit), RangesOf(tcpLow, tcpHigh, udpLow, udpHigh), ops);
  }

  // ── consequences ─────────────────────────────────────────────────────────

  /** The tunnels of a session that are routed. */
  ghost predicate LiveOf(c: Core, session: Id, id: Id) {
    exists key :: Holds(c, key, id) && InfoAt(c, key, id).session == session
  }

  /** No session has more live tunnels than its limit. */
  lemma LiveTunnelsAreBounded(c: Core, r: Ranges, session: Id, live: set<Id>)
    requires Inv(c, r)
    requires forall id :: id in live ==> LiveOf(c, session, id)
    ensures |live| <= c.limit
  {
    if live == {} {
      return;
    }
    forall id | id in live
      ensures session in c.sessions && id in c.sessions[session]
    {
      var key :| Holds(c, key, id) && InfoAt(c, key, id).session == session;
      assert OwnedAs(c, InfoAt(c, key, id), id, key);
    }
    var some :| some in live;
    FitsInList(live, c.sessions[session]);
  }

  lemma {:induction false} FitsInList(s: set<Id>, list: seq<Id>)
    requires forall id :: id in s ==> id in list
    ensures |s| <= |list|
    decreases |list|
  {
    if s != {} {
      var last := list[|list| - 1];
      var rest := list[..|list| - 1];
      assert list == rest + [last];
      FitsInList(s - {last}, rest);
      if last in s {
        assert |s - {last}| == |s| - 1;
      } else {
        assert s - {last} == s;
      }
    }
  }

  /** The group index is a bijection: two keyed groups never share a port, nor a group two ports. */
  lemma GroupIndexIsBijective(c: Core, r: Ranges, a: (string, string), b: (string, string))
    requires Inv(c, r) && a in c.tcpIndex && b in c.tcpIndex
    ensures a == b <==> c.tcpIndex[a] == c.tcpIndex[b]
  {
    assert Named(c.routes[TcpKey(c.tcpIndex[a])], a) && Named(c.routes[TcpKey(c.tcpIndex[b])], b);
  }

  /** `d` is `c` but for one more request on one member. */
  predicate OneMoreRequest(c: Core, d: Core, key: Key, id: Id) {
    && key in c.routes && id in c.routes[key].members && SameShape(c, d)
    && d.p2p == c.p2p
    && (forall k :: k in c.routes && k != key ==> d.routes[k] == c.routes[k])
    && d.routes[key] == c.routes[key].(members := d.routes[key].members)
    && (forall x :: x in c.routes[key].members && x != id ==> d.routes[key].members[x] == c.routes[key].members[x])
    && var m, n := c.routes[key].members[id], d.routes[key].members[id];
       n == m.(info := n.info) && n.info.meters == m.info.meters.(requests := m.info.meters.requests + 1)
  }

  predicate UpAt(c: Core, key: Key, id: Id) {
    key in c.routes && id in c.routes[key].members && c.routes[key].members[id].healthy
  }

  /**
   Resolution, when the dice pick a healthy member if there is one, succeeds exactly when there is one;
   it then returns the one picked, whose session is live, and counts one request on it.
   */
  lemma ResolutionIsExact(c: Core, r: Ranges, key: Key, choice: Id)
    requires Inv(c, r)
    requires (exists id :: UpAt(c, key, id)) ==> UpAt(c, key, choice)
    ensures var (d, found) := Resolve(c, key, choice);
            && (found.Some? <==> exists id :: UpAt(c, key, id))
            && (found.Some? ==>
                  && UpAt(c, key, choice) && found.value == c.routes[key].members[choice].info
                  && found.value.id == choice && found.value.session in c.sessions
                  && OneMoreRequest(c, d, key, choice))
            && (found.None? ==> d == c)
  {
    if UpAt(c, key, choice) {
      assert Holds(c, key, choice);
      assert OwnedAs(c, InfoAt(c, key, choice), choice, key);
      ResolveCountsOne(c, key, choice);
    }
  }

  lemma ResolveCountsOne(c: Core, key: Key, choice: Id)
    requires Resolve(c, key, choice).1.Some?
    ensures OneMoreRequest(c, Resolve(c, key, choice).0, key, choice)
  {
    ResolveShape(c, key, choice);
  }
}
