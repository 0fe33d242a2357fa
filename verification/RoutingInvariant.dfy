/** What every step of the routing core keeps: its tables, index, pools and sessions agree. */
module RoutingInvariant {
  import opened Basics
  import opened Routing

  // ── the invariant ────────────────────────────────────────────────────────

  /** `id` is a member of the route at `key`, or the publisher of that name. */
  predicate Holds(c: Core, key: Key, id: Id) {
    if key.P2pKey? then key.name in c.p2p && c.p2p[key.name].info.id == id
    else key in c.routes && id in c.routes[key].members
  }

  predicate IndexedAt(c: Core, id: Id, key: Key) {
    id in c.index && c.index[id] == key
  }

  /** The reverse index says exactly what the tables say. */
  ghost predicate Agree(c: Core) {
    && (forall key, id :: Holds(c, key, id) <==> IndexedAt(c, id, key))
    && (forall key :: key in c.routes ==> !key.P2pKey?)
  }

  predicate NoEmptyRoute(c: Core) {
    forall key :: key in c.routes ==> c.routes[key].members != map[]
  }

  function InfoAt(c: Core, key: Key, id: Id): TunnelInfo
    requires Holds(c, key, id)
  {
    if key.P2pKey? then c.p2p[key.name].info else c.routes[key].members[id].info
  }

  predicate Labelled(info: TunnelInfo, key: Key) {
    match key
    case HttpKey(sub) => info.subdomain == Some(sub) && info.port == None
    case TcpKey(port) => info.subdomain == None && info.port == Some(port)
    case UdpKey(port) => info.subdomain == None && info.port == Some(port)
    case P2pKey(_) => info.subdomain == None && info.port == None
  }

  /** The tunnel knows its own identity, and its live session lists it. */
  predicate OwnedAs(c: Core, info: TunnelInfo, id: Id, key: Key) {
    info.id == id && Labelled(info, key) && info.session in c.sessions && id in c.sessions[info.session]
  }

  ghost predicate Owned(c: Core) {
    forall key, id :: Holds(c, key, id) ==> OwnedAs(c, InfoAt(c, key, id), id, key)
  }

  predicate NoDup<T(==)>(s: seq<T>) {
    forall i, j :: 0 <= i < j < |s| ==> s[i] != s[j]
  }

  /** Sessions list no tunnel twice, share none, and stay within their limit. */
  predicate ListedIn(sessions: map<Id, seq<Id>>, limit: nat) {
    && (forall s :: s in sessions ==> |sessions[s]| <= limit && NoDup(sessions[s]))
    && (forall s, t, id :: s in sessions && t in sessions && id in sessions[s] && id in sessions[t] ==> s == t)
  }

  predicate Listed(c: Core) {
    ListedIn(c.sessions, c.limit)
  }

  predicate Uniform(g: Group) {
    forall a, b :: a in g.members && b in g.members ==> g.members[a].info.protocol == g.members[b].info.protocol
  }

  predicate AllUniform(c: Core) {
    forall key :: key in c.routes && key.HttpKey? ==> Uniform(c.routes[key])
  }

  function TcpPorts(c: Core): set<nat> {
    set key | key in c.routes && key.TcpKey? :: key.port
  }

  function UdpPorts(c: Core): set<nat> {
    set key | key in c.routes && key.UdpKey? :: key.port
  }

  /** Free and routed ports are apart, and together they are the configured range. */
  ghost predicate Conserved(free: seq<nat>, routed: set<nat>, range: set<nat>) {
    && NoDup(free)
    && (forall p :: p in free ==> p !in routed)
    && (forall p :: p in range <==> p in free || p in routed)
  }

  /** Keyed TCP groups and the entries of the group index are the same thing. */
  ghost predicate GroupsIndexed(c: Core) {
    && (forall nk :: nk in c.tcpIndex ==>
          TcpKey(c.tcpIndex[nk]) in c.routes && Named(c.routes[TcpKey(c.tcpIndex[nk])], nk))
    && (forall key, nk :: key in c.routes && key.TcpKey? && Named(c.routes[key], nk) ==>
          nk in c.tcpIndex && c.tcpIndex[nk] == key.port)
  }

  predicate Named(g: Group, nk: (string, string)) {
    g.name == nk.0 && g.keyHash == Some(nk.1)
  }

  /** The ports that a listener following the events has open; `None` when an event made no sense to it. */
  function Listening(events: seq<PortEvent>): Option<set<nat>> {
    if events == [] then Some({})
    else
      match Listening(events[..|events| - 1])
      case None => None
      case Some(open) =>
        match events[|events| - 1]
        case Registered(_, port) => if port in open then None else Some(open + {port})
        case Unregistered(port) => if port in open then Some(open - {port}) else None
  }

  datatype Ranges = Ranges(tcp: set<nat>, udp: set<nat>)

  ghost predicate Inv(c: Core, r: Ranges) {
    && Agree(c) && NoEmptyRoute(c) && Owned(c) && Listed(c) && AllUniform(c)
    && Conserved(c.tcpFree, TcpPorts(c), r.tcp) && Conserved(c.udpFree, UdpPorts(c), r.udp)
    && GroupsIndexed(c)
    && Listening(c.tcpEvents) == Some(TcpPorts(c)) && Listening(c.udpEvents) == Some(UdpPorts(c))
  }

  // ── placing a tunnel ─────────────────────────────────────────────────────

  /** `Place` as it is called: a new tunnel of a live session, into a new group or an existing one. */
  ghost predicate Placeable(c: Core, key: Key, group: Group, m: Member) {
    && !key.P2pKey?
    && (if key in c.routes then group == c.routes[key] else group.members == map[])
    && FreshId(c, m.info.id)
    && CheckSession(c, m.info.session).None?
    && Labelled(m.info, key)
  }

  lemma PlaceAgree(c: Core, key: Key, group: Group, m: Member)
    requires Agree(c) && Placeable(c, key, group, m)
    ensures Agree(Place(c, key, group, m))
  {
    var d := Place(c, key, group, m);
    forall k, id
      ensures Holds(d, k, id) <==> IndexedAt(d, id, k)
    {
      assert Holds(c, k, id) <==> IndexedAt(c, id, k);
      PlaceHolds(c, key, group, m, k, id);
    }
  }

  lemma PlaceHolds(c: Core, key: Key, group: Group, m: Member, k: Key, id: Id)
    requires Placeable(c, key, group, m)
    ensures Holds(Place(c, key, group, m), k, id) <==> Holds(c, k, id) || (k == key && id == m.info.id)
  {
  }

  lemma EnterSessions(c: Core, session: Id, id: Id, key: Key)
    requires Listed(c) && FreshId(c, id) && CheckSession(c, session).None?
    ensures Listed(Enter(c, session, id, key))
  {
  }

  lemma PlaceOwned(c: Core, key: Key, group: Group, m: Member)
    requires Owned(c) && Placeable(c, key, group, m)
    ensures Owned(Place(c, key, group, m))
  {
    var d := Place(c, key, group, m);
    forall k, id | Holds(d, k, id)
      ensures OwnedAs(d, InfoAt(d, k, id), id, k)
    {
      PlaceHolds(c, key, group, m, k, id);
      if !(k == key && id == m.info.id) {
        assert OwnedAs(c, InfoAt(c, k, id), id, k);
        assert InfoAt(d, k, id) == InfoAt(c, k, id);
      }
    }
  }

  lemma PlaceTables(c: Core, key: Key, group: Group, m: Member)
    requires NoEmptyRoute(c) && AllUniform(c) && Placeable(c, key, group, m)
    requires key.HttpKey? && key in c.routes ==> Speaks(group, m.info.protocol)
    ensures NoEmptyRoute(Place(c, key, group, m)) && AllUniform(Place(c, key, group, m))
  {
    var d := Place(c, key, group, m);
    assert m.info.id in d.routes[key].members;
  }

  lemma RoutedPorts(c: Core, d: Core, key: Key)
    requires d.routes.Keys == c.routes.Keys + {key}
    ensures TcpPorts(d) == if key.TcpKey? then TcpPorts(c) + {key.port} else TcpPorts(c)
    ensures UdpPorts(d) == if key.UdpKey? then UdpPorts(c) + {key.port} else UdpPorts(c)
  {
  }

  lemma PortOf(c: Core, p: nat)
    ensures p in TcpPorts(c) <==> TcpKey(p) in c.routes
    ensures p in UdpPorts(c) <==> UdpKey(p) in c.routes
  {
  }

  lemma ListeningPush(events: seq<PortEvent>, e: PortEvent)
    requires Listening(events).Some?
    ensures var open := Listening(events).value;
            Listening(events + [e]) == match e
                                       case Registered(_, port) => if port in open then None else Some(open + {port})
                                       case Unregistered(port) => if port in open then Some(open - {port}) else None
  {
    assert (events + [e])[..|events|] == events;
  }

  /** Taking the last free port for a new route. */
  lemma TakePort(free: seq<nat>, routed: set<nat>, range: set<nat>)
    requires Conserved(free, routed, range) && free != []
    ensures free[|free| - 1] !in routed
    ensures Conserved(free[..|free| - 1], routed + {free[|free| - 1]}, range)
  {
  }

  /** Giving a retired route's port back. */
  lemma ReturnPort(free: seq<nat>, routed: set<nat>, range: set<nat>, port: nat)
    requires Conserved(free, routed, range) && port in routed
    ensures Conserved(free + [port], routed - {port}, range)
  {
  }

  // ── registration ─────────────────────────────────────────────────────────

  lemma PlaceCore(c: Core, r: Ranges, key: Key, group: Group, m: Member)
    requires Inv(c, r) && Placeable(c, key, group, m)
    requires key.HttpKey? && key in c.routes ==> Speaks(group, m.info.protocol)
    ensures var d := Place(c, key, group, m);
            Agree(d) && NoEmptyRoute(d) && Owned(d) && Listed(d) && AllUniform(d)
    ensures var d := Place(c, key, group, m);
            && TcpPorts(d) == (if key.TcpKey? then TcpPorts(c) + {key.port} else TcpPorts(c))
            && UdpPorts(d) == (if key.UdpKey? then UdpPorts(c) + {key.port} else UdpPorts(c))
  {
    PlaceAgree(c, key, group, m);
    PlaceOwned(c, key, group, m);
    PlaceTables(c, key, group, m);
    EnterSessions(c, m.info.session, m.info.id, key);
    RoutedPorts(c, Place(c, key, group, m), key);
  }

  lemma SamePorts(c: Core, key: Key)
    requires key in c.routes
    ensures key.TcpKey? ==> TcpPorts(c) + {key.port} == TcpPorts(c)
    ensures key.UdpKey? ==> UdpPorts(c) + {key.port} == UdpPorts(c)
  {
    if key.TcpKey? { PortOf(c, key.port); }
    if key.UdpKey? { PortOf(c, key.port); }
  }

  lemma PlaceGroups(c: Core, key: Key, group: Group, m: Member)
    requires GroupsIndexed(c)
    requires if key in c.routes then group == c.routes[key] else !key.TcpKey? || group.keyHash.None?
    ensures GroupsIndexed(Place(c, key, group, m))
  {
    var d := Place(c, key, group, m);
    forall k, nk | k in d.routes && k.TcpKey? && Named(d.routes[k], nk)
      ensures nk in d.tcpIndex && d.tcpIndex[nk] == k.port
    {
      assert Named(c.routes[k], nk);
    }
  }

  /** Joining an existing route, or opening an HTTP route: no port changes hands. */
  lemma PlaceKeeps(c: Core, r: Ranges, key: Key, group: Group, m: Member)
    requires Inv(c, r) && Placeable(c, key, group, m)
    requires key in c.routes || key.HttpKey?
    requires key.HttpKey? && key in c.routes ==> Speaks(group, m.info.protocol)
    ensures Inv(Place(c, key, group, m), r)
  {
    PlaceCore(c, r, key, group, m);
    PlaceGroups(c, key, group, m);
    if key in c.routes {
      SamePorts(c, key);
    }
  }

  lemma RegisterHttpKeeps(c: Core, r: Ranges, session: Id, subdomain: Option<string>, generated: string,
                          protocol: Protocol, spec: Option<GroupSpec>, id: Id)
    requires Inv(c, r) && FreshId(c, id)
    ensures Inv(RegisterHttp(c, session, subdomain, generated, protocol, spec, id).0, r)
  {
    var (d, reply) := RegisterHttp(c, session, subdomain, generated, protocol, spec, id);
    if reply.Accepted? {
      var tag := if subdomain.Some? then subdomain.value else generated;
      var key := HttpKey(tag);
      var info := TunnelInfo(session, id, protocol, Some(tag), None, ZERO);
      if key in c.routes {
        PlaceKeeps(c, r, key, c.routes[key], Probed(info, spec.value.health));
      } else {
        PlaceKeeps(c, r, key, FirstGroup(tag, spec), FirstMember(info, spec));
      }
    }
  }

  /** A new TCP group enters the index under its own name and key. */
  lemma NewGroupIndexed(c: Core, d: Core, port: nat, g: Group, spec: Option<GroupSpec>)
    requires GroupsIndexed(c) && TcpKey(port) !in c.routes
    requires d.routes == c.routes[TcpKey(port) := g]
    requires match spec case None => g.keyHash.None? case Some(s) => g.name == s.name && g.keyHash == Some(s.keyHash)
    requires spec.Some? ==> (spec.value.name, spec.value.keyHash) !in c.tcpIndex
    requires d.tcpIndex == if spec.Some? then c.tcpIndex[(spec.value.name, spec.value.keyHash) := port] else c.tcpIndex
    ensures GroupsIndexed(d)
  {
  }

  lemma OpenTcpKeeps(c: Core, r: Ranges, session: Id, spec: Option<GroupSpec>, name: nat -> string, id: Id)
    requires Inv(c, r) && FreshId(c, id) && CheckSession(c, session).None?
    requires c.tcpFree != []
    requires spec.Some? ==> (spec.value.name, spec.value.keyHash) !in c.tcpIndex
    ensures Inv(RegisterTcp(c, session, spec, name, id).0, r)
  {
    var port := c.tcpFree[|c.tcpFree| - 1];
    var group, m := FirstGroup(name(port), spec), FirstMember(TcpInfo(session, id, port), spec);
    TakePort(c.tcpFree, TcpPorts(c), r.tcp);
    PortOf(c, port);
    PlaceCore(c, r, TcpKey(port), group, m);
    var placed := Place(c, TcpKey(port), group, m);
    var d := RegisterTcp(c, session, spec, name, id).0;
    ListeningPush(c.tcpEvents, Registered(id, port));
    NewGroupIndexed(c, d, port, d.routes[TcpKey(port)], spec);
    SameTables(placed, d);
  }

  /** The part of the invariant that looks only at the tables, the index and the sessions. */
  lemma SameTables(c: Core, d: Core)
    requires d.routes == c.routes && d.p2p == c.p2p && d.index == c.index
    requires d.sessions == c.sessions && d.limit == c.limit
    ensures Agree(c) ==> Agree(d)
    ensures Owned(c) ==> Owned(d)
    ensures NoEmptyRoute(c) && Listed(c) && AllUniform(c) ==> NoEmptyRoute(d) && Listed(d) && AllUniform(d)
    ensures TcpPorts(d) == TcpPorts(c) && UdpPorts(d) == UdpPorts(c)
  {
    if Agree(c) {
      forall key, id
        ensures Holds(d, key, id) <==> IndexedAt(d, id, key)
      {
        assert Holds(c, key, id) <==> IndexedAt(c, id, key);
      }
    }
    if Owned(c) {
      forall key, id | Holds(d, key, id)
        ensures OwnedAs(d, InfoAt(d, key, id), id, key)
      {
        assert Holds(c, key, id);
        assert OwnedAs(c, InfoAt(c, key, id), id, key);
      }
    }
  }

  lemma RegisterTcpKeeps(c: Core, r: Ranges, session: Id, spec: Option<GroupSpec>, name: nat -> string, id: Id)
    requires Inv(c, r) && FreshId(c, id)
    ensures Inv(RegisterTcp(c, session, spec, name, id).0, r)
    ensures RegisterTcp(c, session, spec, name, id).1 != Refused(StaleGroupIndex)
  {
    if CheckSession(c, session).None? {
      if spec.Some? && (spec.value.name, spec.value.keyHash) in c.tcpIndex {
        var key := TcpKey(c.tcpIndex[(spec.value.name, spec.value.keyHash)]);
        PlaceKeeps(c, r, key, c.routes[key], Probed(TcpInfo(session, id, key.port), spec.value.health));
      } else if c.tcpFree != [] {
        OpenTcpKeeps(c, r, session, spec, name, id);
      }
    }
  }

  lemma RegisterUdpKeeps(c: Core, r: Ranges, session: Id, name: nat -> string, id: Id)
    requires Inv(c, r) && FreshId(c, id)
    ensures Inv(RegisterUdp(c, session, name, id).0, r)
  {
    if CheckSession(c, session).None? && c.udpFree != [] {
      var port := c.udpFree[|c.udpFree| - 1];
      var group, m := SoloGroup(name(port)), Trusted(TunnelInfo(session, id, Udp, None, Some(port), ZERO));
      TakePort(c.udpFree, UdpPorts(c), r.udp);
      PortOf(c, port);
      PlaceCore(c, r, UdpKey(port), group, m);
      PlaceGroups(c, UdpKey(port), group, m);
      ListeningPush(c.udpEvents, Registered(id, port));
      var placed, d := Place(c, UdpKey(port), group, m), RegisterUdp(c, session, name, id).0;
      SameTables(placed, d);
    }
  }

  lemma PublishHolds(c: Core, session: Id, name: string, secretHash: string, id: Id, k: Key, x: Id)
    requires RegisterP2p(c, session, name, secretHash, id).1.Accepted?
    ensures Holds(RegisterP2p(c, session, name, secretHash, id).0, k, x)
            <==> Holds(c, k, x) || (k == P2pKey(name) && x == id)
  {
  }

  lemma RegisterP2pKeeps(c: Core, r: Ranges, session: Id, name: string, secretHash: string, id: Id)
    requires Inv(c, r) && FreshId(c, id)
    ensures Inv(RegisterP2p(c, session, name, secretHash, id).0, r)
  {
    var (d, reply) := RegisterP2p(c, session, name, secretHash, id);
    if reply.Accepted? {
      EnterSessions(c, session, id, P2pKey(name));
      PublishAgree(c, session, name, secretHash, id);
      assert TcpPorts(d) == TcpPorts(c) && UdpPorts(d) == UdpPorts(c);
      assert GroupsIndexed(d);
    }
  }

  lemma PublishAgree(c: Core, session: Id, name: string, secretHash: string, id: Id)
    requires Agree(c) && Owned(c) && FreshId(c, id)
    requires RegisterP2p(c, session, name, secretHash, id).1.Accepted?
    ensures Agree(RegisterP2p(c, session, name, secretHash, id).0)
    ensures Owned(RegisterP2p(c, session, name, secretHash, id).0)
  {
    var d := RegisterP2p(c, session, name, secretHash, id).0;
    forall k, x
      ensures Holds(d, k, x) <==> IndexedAt(d, x, k)
    {
      assert Holds(c, k, x) <==> IndexedAt(c, x, k);
      PublishHolds(c, session, name, secretHash, id, k, x);
    }
    forall k, x | Holds(d, k, x)
      ensures OwnedAs(d, InfoAt(d, k, x), x, k)
    {
      PublishHolds(c, session, name, secretHash, id, k, x);
      if Holds(c, k, x) {
        assert OwnedAs(c, InfoAt(c, k, x), x, k);
      }
    }
  }
}
