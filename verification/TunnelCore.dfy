/** The routing core as the server runs it: an object whose methods update its tables in place. */
module TunnelCoreObject {
  import opened Basics
  import opened Routing
  import opened RoutingInvariant

  /** One row of a snapshot of the live counters. */
  datatype LiveMeter = LiveMeter(id: Id, meters: Meters)

  class TunnelCore {
    var routes: map<Key, Group>
    var p2p: map<string, Publisher>
    var index: map<Id, Key>
    var sessions: map<Id, seq<Id>>
    var tcpIndex: map<(string, string), nat>
    var tcpFree: seq<nat>
    var udpFree: seq<nat>
    var tcpEvents: seq<PortEvent>
    var udpEvents: seq<PortEvent>
    const limit: nat

    ghost function View(): Core
      reads this
    {
      Core(routes, p2p, index, sessions, tcpIndex, tcpFree, udpFree, tcpEvents, udpEvents, limit)
    }

    constructor (tcpLow: nat, tcpHigh: nat, udpLow: nat, udpHigh: nat, limit: nat)
      ensures View() == NewCore(tcpLow, tcpHigh, udpLow, udpHigh, limit)
    {
      routes, p2p, index, sessions, tcpIndex := map[], map[], map[], map[], map[];
      tcpFree := PortRange(tcpLow, tcpHigh);
      udpFree := if udpLow == 0 && udpHigh == 0 then [] else PortRange(udpLow, udpHigh);
      tcpEvents, udpEvents := [], [];
      this.limit := limit;
    }

    method CheckSessionLimit(session: Id) returns (refusal: Option<Refusal>)
      ensures refusal == CheckSession(View(), session)
    {
      if session !in sessions {
        return Some(SessionNotFound);
      }
      if |sessions[session]| >= limit {
        return Some(LimitExceeded);
      }
      return None;
    }

    method AddMember(key: Key, group: Group, member: Member)
      modifies this
      ensures View() == Place(old(View()), key, group, member)
    {
      var id, session := member.info.id, member.info.session;
      routes := routes[key := group.(members := group.members[id := member])];
      index := index[id := key];
      if session in sessions {
        sessions := sessions[session := sessions[session] + [id]];
      }
    }

    method RegisterHttpTunnel(session: Id, subdomain: Option<string>, generated: string, protocol: Protocol,
                              spec: Option<GroupSpec>, id: Id) returns (reply: Reply)
      requires NoEmptyRoute(View()) && AllUniform(View())
      modifies this
      ensures (View(), reply) == RegisterHttp(old(View()), session, subdomain, generated, protocol, spec, id)
    {
      var refusal := CheckSessionLimit(session);
      if refusal.Some? {
        return Refused(refusal.value);
      }
      var tag := generated;
      if subdomain.Some? {
        if !ValidSubdomain(subdomain.value) {
          return Refused(InvalidSubdomain);
        }
        tag := subdomain.value;
      }
      var key := HttpKey(tag);
      var info := TunnelInfo(session, id, protocol, Some(tag), None, ZERO);
      if key !in routes {
        AddMember(key, FirstGroup(tag, spec), FirstMember(info, spec));
      } else {
        if spec.None? {
          return Refused(LabelInUse);
        }
        var existing := routes[key];
        if existing.keyHash != Some(spec.value.keyHash) {
          return Refused(KeyMismatch);
        }
        // Any member will do: they all speak the same protocol.
        assert existing.members != map[] && Uniform(existing);
        var sample :| sample in existing.members;
        if existing.members[sample].info.protocol != protocol {
          return Refused(ProtocolMismatch);
        }
        AddMember(key, existing, Probed(info, spec.value.health));
      }
      return Accepted(id, key);
    }

    method RegisterTcpTunnel(session: Id, spec: Option<GroupSpec>, name: nat -> string, id: Id) returns (reply: Reply)
      modifies this
      ensures (View(), reply) == RegisterTcp(old(View()), session, spec, name, id)
    {
      var refusal := CheckSessionLimit(session);
      if refusal.Some? {
        return Refused(refusal.value);
      }
      if spec.Some? && (spec.value.name, spec.value.keyHash) in tcpIndex {
        // A later member reuses the port of the first; nothing is announced.
        var key := TcpKey(tcpIndex[(spec.value.name, spec.value.keyHash)]);
        if key !in routes {
          return Refused(StaleGroupIndex);
        }
        AddMember(key, routes[key], Probed(TcpInfo(session, id, key.port), spec.value.health));
        return Accepted(id, key);
      }
      if tcpFree == [] {
        return Refused(NoPorts);
      }
      var port := tcpFree[|tcpFree| - 1];
      tcpFree := tcpFree[..|tcpFree| - 1];
      AddMember(TcpKey(port), FirstGroup(name(port), spec), FirstMember(TcpInfo(session, id, port), spec));
      if spec.Some? {
        tcpIndex := tcpIndex[(spec.value.name, spec.value.keyHash) := port];
      }
      tcpEvents := tcpEvents + [Registered(id, port)];
      return Accepted(id, TcpKey(port));
    }

    method RegisterUdpTunnel(session: Id, name: nat -> string, id: Id) returns (reply: Reply)
      modifies this
      ensures (View(), reply) == RegisterUdp(old(View()), session, name, id)
    {
      var refusal := CheckSessionLimit(session);
      if refusal.Some? {
        return Refused(refusal.value);
      }
      if udpFree == [] {
        return Refused(NoPorts);
      }
      var port := udpFree[|udpFree| - 1];
      udpFree := udpFree[..|udpFree| - 1];
      AddMember(UdpKey(port), SoloGroup(name(port)), Trusted(TunnelInfo(session, id, Udp, None, Some(port), ZERO)));
      udpEvents := udpEvents + [Registered(id, port)];
      return Accepted(id, UdpKey(port));
    }

    method RegisterP2pTunnel(session: Id, name: string, secretHash: string, id: Id) returns (reply: Reply)
      modifies this
      ensures (View(), reply) == RegisterP2p(old(View()), session, name, secretHash, id)
    {
      var refusal := CheckSessionLimit(session);
      if refusal.Some? {
        return Refused(refusal.value);
      }
      if name in p2p {
        return Refused(LabelInUse);
      }
      p2p := p2p[name := Publisher(TunnelInfo(session, id, P2p, None, None, ZERO), secretHash)];
      index := index[id := P2pKey(name)];
      sessions := sessions[session := sessions[session] + [id]];
      return Accepted(id, P2pKey(name));
    }

    method RetireRoute(key: Key)
      modifies this
      ensures View() == Retire(old(View()), key)
    {
      var identity := if key in routes then Some(routes[key]) else None;
      routes := routes - {key};
      match key {
        case TcpKey(port) =>
          if identity.Some? && identity.value.keyHash.Some? {
            tcpIndex := tcpIndex - {(identity.value.name, identity.value.keyHash.value)};
          }
          tcpFree := tcpFree + [port];
          tcpEvents := tcpEvents + [Unregistered(port)];
        case UdpKey(port) =>
          udpFree := udpFree + [port];
          udpEvents := udpEvents + [Unregistered(port)];
        case _ =>
      }
    }

    method RemoveOne(id: Id)
      modifies this
      ensures View() == RemoveTunnel(old(View()), id)
    {
      if id !in index {
        return;
      }
      var key := index[id];
      index := index - {id};
      if key.P2pKey? {
        p2p := p2p - {key.name};
        return;
      }
      var groupEmpty := true;
      if key in routes {
        var left := routes[key].members - {id};
        groupEmpty := left == map[];
        if !groupEmpty {
          routes := routes[key := routes[key].(members := left)];
        }
      }
      if groupEmpty {
        RetireRoute(key);
      }
    }

    method RemoveSessionAndTunnels(session: Id)
      modifies this
      ensures View() == RemoveSession(old(View()), session)
    {
      if session !in sessions {
        return;
      }
      var owned := sessions[session];
      sessions := sessions - {session};
      ghost var end := RemoveTunnels(View(), owned);
      var i := 0;
      assert owned[0..] == owned;
      while i < |owned|
        invariant i <= |owned|
        invariant RemoveTunnels(View(), owned[i..]) == end
      {
        assert owned[i..][0] == owned[i] && owned[i..][1..] == owned[i + 1..];
        RemoveOne(owned[i]);
        i := i + 1;
      }
    }

    // ── health ──────────────────────────────────────────────────────────────

    method HandleHealthy(session: Id, id: Id)
      modifies this
      ensures View() == HealthyFrame(old(View()), session, id)
    {
      var owner := TunnelSession(id);
      if owner != Some(session) || index[id].P2pKey? || index[id] !in routes || id !in routes[index[id]].members {
        return;
      }
      var key := index[id];
      var g := routes[key];
      routes := routes[key := g.(members := g.members[id := g.members[id].Up()], alerted := false)];
    }

    method TunnelSession(id: Id) returns (owner: Option<Id>)
      ensures owner == SessionOf(View(), id)
    {
      if id !in index {
        return None;
      }
      var key := index[id];
      if key.P2pKey? {
        return if key.name in p2p then Some(p2p[key.name].info.session) else None;
      }
      if key !in routes || id !in routes[key].members {
        return None;
      }
      return Some(routes[key].members[id].info.session);
    }

    /** The alert, with each webhook named once. */
    method HandleUnhealthy(session: Id, id: Id, reason: string) returns (alert: Option<Alert>, urls: seq<string>)
      modifies this
      ensures (View(), alert) == UnhealthyFrame(old(View()), session, id, reason)
      ensures NoDup(urls) && (set url | url in urls) == (if alert.Some? then alert.value.webhooks else {})
    {
      alert, urls := None, [];
      var owner := TunnelSession(id);
      if owner != Some(session) || index[id].P2pKey? || index[id] !in routes || id !in routes[index[id]].members {
        return;
      }
      var key := index[id];
      var g := routes[key];
      routes := routes[key := g.(members := g.members[id := g.members[id].Down(reason)])];
      assert View() == MarkDown(old(View()), id, reason);
      g := routes[key];
      if g.keyHash.Some? && g.Healthy() == {} && !g.alerted {
        routes := routes[key := g.(alerted := true)];
        urls := CollectWebhooks(g);
        alert := Some(Alert(key, g.name, g.keyHash.value, |g.members|, g.Webhooks()));
      }
    }

    static method CollectWebhooks(g: Group) returns (urls: seq<string>)
      ensures NoDup(urls) && (set url | url in urls) == g.Webhooks()
    {
      urls := [];
      var left := g.members.Keys;
      while left != {}
        invariant left <= g.members.Keys
        invariant NoDup(urls)
        invariant forall url :: url in urls <==>
                    exists id :: id in g.members && id !in left && g.members[id].spec.Some?
                                 && g.members[id].spec.value.webhook == Some(url)
        decreases left
      {
        var id :| id in left;
        left := left - {id};
        var spec := g.members[id].spec;
        if spec.Some? && spec.value.webhook.Some? && spec.value.webhook.value !in urls {
          urls := urls + [spec.value.webhook.value];
        }
      }
    }

    // ── resolution and counters ─────────────────────────────────────────────

    /** Pick one healthy member; the ghost result names it. */
    method ResolveRoute(key: Key) returns (found: Option<TunnelInfo>, ghost choice: Id)
      modifies this
      ensures Allowed(old(View()), Dispatch(key, choice))
      ensures (View(), found) == Resolve(old(View()), key, choice)
    {
      choice, found := 0, None;
      if key !in routes || routes[key].Healthy() == {} {
        return;
      }
      var g := routes[key];
      var pick :| pick in g.Healthy();
      choice := pick;
      if g.members[pick].info.session in sessions {
        found := Some(g.members[pick].info);
        routes := routes[key := g.(members := g.members[pick := CountRequest(g.members[pick])])];
      }
    }

    method ResolvePublisher(name: string) returns (found: Option<TunnelInfo>)
      modifies this
      ensures (View(), found) == ResolveP2p(old(View()), name)
    {
      if name !in p2p || p2p[name].info.session !in sessions {
        return None;
      }
      var publisher := p2p[name];
      found := Some(publisher.info);
      p2p := p2p[name := publisher.(info := publisher.info.(meters := publisher.info.meters.AddRequest()))];
    }

    /** Bytes carried for a tunnel, added to the counters of whatever holds it. */
    method AddTransfer(id: Id, inbound: nat, outbound: nat)
      modifies this
      ensures View() == Transfer(old(View()), id, inbound, outbound)
    {
      if id !in index {
        return;
      }
      var key := index[id];
      if key.P2pKey? {
        if key.name in p2p {
          var info := p2p[key.name].info;
          p2p := p2p[key.name := p2p[key.name].(info := info.(meters := info.meters.AddTransfer(inbound, outbound)))];
        }
      } else if key in routes && id in routes[key].members {
        var g := routes[key];
        var m := g.members[id];
        var moved := m.(info := m.info.(meters := m.info.meters.AddTransfer(inbound, outbound)));
        routes := routes[key := g.(members := g.members[id := moved])];
      }
    }

    method RegisterSession(session: Id)
      modifies this
      ensures View() == Apply(old(View()), OpenSession(session))
    {
      sessions := sessions[session := []];
    }

    method Meter(id: Id) returns (row: LiveMeter)
      ensures row == LiveMeter(id, TunnelMeters(View(), id))
    {
      row := LiveMeter(id, ZERO);
      if id in index {
        var key := index[id];
        if key.P2pKey? {
          if key.name in p2p {
            row := LiveMeter(id, p2p[key.name].info.meters);
          }
        } else if key in routes && id in routes[key].members {
          row := LiveMeter(id, routes[key].members[id].info.meters);
        }
      }
    }

    method GroupMeters(key: Key) returns (rows: seq<LiveMeter>)
      requires Agree(View()) && Owned(View()) && key in routes
      ensures Listing(View(), rows, routes[key].members.Keys)
    {
      rows := [];
      var g := routes[key];
      var left := g.members.Keys;
      while left != {}
        invariant left <= g.members.Keys
        invariant Listing(View(), rows, g.members.Keys - left)
        decreases left
      {
        var id :| id in left;
        RoutedMeters(View(), key, id);
        var info := g.members[id].info;
        var row := LiveMeter(info.id, info.meters);
        ListingOne(View(), row);
        ListingsJoin(View(), rows, g.members.Keys - left, [row], {id});
        assert g.members.Keys - (left - {id}) == g.members.Keys - left + {id};
        rows, left := rows + [row], left - {id};
      }
      assert g.members.Keys - {} == g.members.Keys;
    }

    method RouteMeters() returns (rows: seq<LiveMeter>)
      requires Agree(View()) && Owned(View())
      ensures Listing(View(), rows, RoutedIds(View()))
    {
      rows := [];
      var keys := routes.Keys;
      ghost var listed: set<Id> := {};
      while keys != {}
        invariant keys <= routes.Keys
        invariant Listing(View(), rows, listed)
        invariant forall id :: id in listed <==> id in index && index[id] in routes && index[id] !in keys
        decreases keys
      {
        var key :| key in keys;
        var more := GroupMeters(key);
        MembersAreIndexed(View(), key);
        ListingsJoin(View(), rows, listed, more, routes[key].members.Keys);
        rows, keys, listed := rows + more, keys - {key}, listed + routes[key].members.Keys;
      }
      AllAreRouted(View());
      assert listed == RoutedIds(View());
    }

    method PublisherMeters() returns (rows: seq<LiveMeter>)
      requires Agree(View()) && Owned(View())
      ensures Listing(View(), rows, index.Keys - RoutedIds(View()))
    {
      rows := [];
      var names := p2p.Keys;
      ghost var listed: set<Id> := {};
      PublishersAreIndexed(View());
      while names != {}
        invariant names <= p2p.Keys
        invariant Listing(View(), rows, listed)
        invariant forall id :: id in listed <==> id in index && index[id].P2pKey? && index[id].name !in names
        decreases names
      {
        var name :| name in names;
        var row := LiveMeter(p2p[name].info.id, p2p[name].info.meters);
        assert IndexedAt(View(), row.id, P2pKey(name));
        ListingOne(View(), row);
        ListingsJoin(View(), rows, listed, [row], {row.id});
        rows, names, listed := rows + [row], names - {name}, listed + {row.id};
      }
      assert listed == index.Keys - RoutedIds(View());
    }

    /** Snapshot every live tunnel: each indexed tunnel exactly once, with the counters `Meter` would give. */
    method LiveTunnelMeters() returns (rows: seq<LiveMeter>)
      requires Agree(View()) && Owned(View())
      ensures Listing(View(), rows, index.Keys)
    {
      var routed := RouteMeters();
      var published := PublisherMeters();
      ListingsJoin(View(), routed, RoutedIds(View()), published, index.Keys - RoutedIds(View()));
      assert RoutedIds(View()) + (index.Keys - RoutedIds(View())) == index.Keys;
      rows := routed + published;
    }
  }

  function RoutedIds(c: Core): set<Id> {
    set id | id in c.index && !c.index[id].P2pKey?
  }

  lemma ListingOne(c: Core, row: LiveMeter)
    requires row.meters == TunnelMeters(c, row.id)
    ensures Listing(c, [row], {row.id})
  {
    assert [row][0].id == row.id;
  }

  /** `rows` are the counters of exactly `ids`, one row each. */
  ghost predicate Listing(c: Core, rows: seq<LiveMeter>, ids: set<Id>) {
    && (forall i, j :: 0 <= i < j < |rows| ==> rows[i].id != rows[j].id)
    && (forall i :: 0 <= i < |rows| ==> rows[i].id in ids && rows[i].meters == TunnelMeters(c, rows[i].id))
    && (forall id :: id in ids ==> exists i :: 0 <= i < |rows| && rows[i].id == id)
  }

  lemma ListingsJoin(c: Core, rows: seq<LiveMeter>, ids: set<Id>, more: seq<LiveMeter>, others: set<Id>)
    requires Listing(c, rows, ids) && Listing(c, more, others) && ids !! others
    ensures Listing(c, rows + more, ids + others)
  {
    var all := rows + more;
    forall id | id in ids + others
      ensures exists i :: 0 <= i < |all| && all[i].id == id
    {
      if id in ids {
        var i :| 0 <= i < |rows| && rows[i].id == id;
        assert all[i].id == id;
      } else {
        var i :| 0 <= i < |more| && more[i].id == id;
        assert all[|rows| + i].id == id;
      }
    }
  }

  lemma RoutedMeters(c: Core, key: Key, id: Id)
    requires Agree(c) && Owned(c) && key in c.routes && id in c.routes[key].members
    ensures c.routes[key].members[id].info.id == id
    ensures TunnelMeters(c, id) == c.routes[key].members[id].info.meters
  {
    assert Holds(c, key, id) <==> IndexedAt(c, id, key);
    assert OwnedAs(c, InfoAt(c, key, id), id, key);
  }

  lemma MembersAreIndexed(c: Core, key: Key)
    requires Agree(c) && key in c.routes
    ensures forall id :: id in c.routes[key].members <==> id in c.index && c.index[id] == key
  {
    forall id
      ensures id in c.routes[key].members <==> id in c.index && c.index[id] == key
    {
      assert Holds(c, key, id) <==> IndexedAt(c, id, key);
    }
  }

  lemma PublishersAreIndexed(c: Core)
    requires Agree(c)
    ensures forall name :: name in c.p2p ==> IndexedAt(c, c.p2p[name].info.id, P2pKey(name))
    ensures forall id :: id in c.index && c.index[id].P2pKey? ==>
              c.index[id].name in c.p2p && c.p2p[c.index[id].name].info.id == id
  {
    forall name | name in c.p2p
      ensures IndexedAt(c, c.p2p[name].info.id, P2pKey(name))
    {
      assert Holds(c, P2pKey(name), c.p2p[name].info.id);
    }
    AllAreRouted(c);
  }

  lemma AllAreRouted(c: Core)
    requires Agree(c)
    ensures forall id :: id in c.index ==> Holds(c, c.index[id], id)
  {
  }
}
