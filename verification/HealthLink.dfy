/** The probe loop, the FIFO frame channel and the server's health bit, composed. */
module HealthLink {
  import opened Basics
  import opened Routing
  import opened RoutingInvariant
  import opened RoutingRuns
  import RoutingLedger
  import opened HealthProbe

  // ── who may change a health bit ──────────────────────────────────────────

  /** The owner's own report on this tunnel. */
  predicate OwnReport(c: Core, op: Op, id: Id) {
    (op.TunnelHealthy? || op.TunnelUnhealthy?) && op.id == id && SessionOf(c, id) == Some(op.session)
  }

  /** The tunnel goes away with this step. */
  predicate Ends(c: Core, op: Op, id: Id) {
    op == Remove(id) || (op.CloseSession? && SessionOf(c, id) == Some(op.session))
  }

  /** Same place, same owner, same health bit. */
  predicate SameBit(c: Core, d: Core, id: Id)
    requires HasMember(c, id)
  {
    && HasMember(d, id) && d.index[id] == c.index[id]
    && MemberOf(d, id).healthy == MemberOf(c, id).healthy
    && MemberOf(d, id).info.session == MemberOf(c, id).info.session
  }

  lemma RemovalKeepsBit(c: Core, x: Id, id: Id)
    requires Agree(c) && HasMember(c, id) && x != id
    ensures SameBit(c, RemoveTunnel(c, x), id)
  {
    var key := c.index[id];
    assert Holds(c, key, id);
    RemoveHolds(c, x, key, id);
    RemovedGroup(c, x, key);
  }

  lemma {:induction false} RemovalsKeepBit(c: Core, ids: seq<Id>, id: Id)
    requires Agree(c) && HasMember(c, id) && id !in ids
    ensures SameBit(c, RemoveTunnels(c, ids), id)
    decreases |ids|
  {
    if ids != [] {
      RemovalKeepsBit(c, ids[0], id);
      RemoveAgree(c, ids[0]);
      RemovalsKeepBit(RemoveTunnel(c, ids[0]), ids[1..], id);
    }
  }

  lemma TeardownKeepsBit(c: Core, r: Ranges, session: Id, id: Id)
    requires Inv(c, r) && HasMember(c, id) && SessionOf(c, id) != Some(session)
    ensures SameBit(c, RemoveSession(c, session), id)
  {
    if session in c.sessions {
      TeardownStart(c, r, session);
      assert Holds(c, c.index[id], id);
      assert OwnedAs(c, InfoAt(c, c.index[id], id), id, c.index[id]);
      RemovalsKeepBit(c.(sessions := c.sessions - {session}), c.sessions[session], id);
    }
  }

  lemma RegistrationKeepsBit(c: Core, r: Ranges, op: Op, id: Id)
    requires Inv(c, r) && HasMember(c, id) && RoutingLedger.NewId(op).Some?
    requires RoutingLedger.NewId(op).value !in c.index
    ensures SameBit(c, Apply(c, op), id)
  {
    RoutingLedger.RegistrationGrows(c, r, op);
    GrowthKeepsBit(c, Apply(c, op), RoutingLedger.Replied(c, op), id);
  }

  lemma GrowthKeepsBit(c: Core, d: Core, reply: Reply, id: Id)
    requires HasMember(c, id) && RoutingLedger.Grows(c, d, reply)
    requires reply.Accepted? ==> reply.id != id
    ensures SameBit(c, d, id)
  {
  }

  lemma HealthyKeepsBit(c: Core, session: Id, x: Id, id: Id)
    requires HasMember(c, id) && !(x == id && SessionOf(c, id) == Some(session))
    ensures SameBit(c, HealthyFrame(c, session, x), id)
  {
  }

  lemma UnhealthyKeepsBit(c: Core, session: Id, x: Id, reason: string, id: Id)
    requires HasMember(c, id) && !(x == id && SessionOf(c, id) == Some(session))
    ensures SameBit(c, UnhealthyFrame(c, session, x, reason).0, id)
  {
    if Reports(c, session, x) {
      assert SameBit(c, MarkDown(c, x, reason), id);
      PopKeepsBit(MarkDown(c, x, reason), x, id);
    }
  }

  lemma PopKeepsBit(c: Core, x: Id, id: Id)
    requires HasMember(c, id)
    ensures SameBit(c, PopAlert(c, x).0, id)
  {
  }

  /**
   A health bit changes only through a report of the owning session: any other step of the server,
   including every other session's reports, leaves it alone.
   */
  lemma OnlyTheOwnerFlips(c: Core, r: Ranges, op: Op, id: Id)
    requires Inv(c, r) && Allowed(c, op) && HasMember(c, id)
    requires !OwnReport(c, op, id) && !Ends(c, op, id)
    ensures SameBit(c, Apply(c, op), id)
  {
    if RoutingLedger.NewId(op).Some? {
      RegistrationKeepsBit(c, r, op, id);
    } else {
      match op {
        case Remove(x) => RemovalKeepsBit(c, x, id);
        case CloseSession(session) => TeardownKeepsBit(c, r, session, id);
        case TunnelHealthy(session, x) => HealthyKeepsBit(c, session, x, id);
        case TunnelUnhealthy(session, x, reason) => UnhealthyKeepsBit(c, session, x, reason, id);
        case _ => TrafficKeepsBit(c, op, id);
      }
    }
  }

  lemma TrafficKeepsBit(c: Core, op: Op, id: Id)
    requires HasMember(c, id) && (op.Dispatch? || op.DispatchP2p? || op.Proxied? || op.OpenSession?)
    ensures SameBit(c, Apply(c, op), id)
  {
  }

  // ── the composition ──────────────────────────────────────────────────────

  /** One probed member: its prober, the reports on their way, and the server. */
  datatype Link = Link(probe: Probe, channel: seq<bool>, core: Core, delivered: seq<bool>)

  datatype Event =
    | Probed(healthy: bool)
    | Delivered
    | Server(op: Op)

  function Frame(c: Core, session: Id, id: Id, up: bool): Core {
    if up then HealthyFrame(c, session, id) else UnhealthyFrame(c, session, id, "probe failures").0
  }

  function Happen(l: Link, maxFailed: nat, session: Id, id: Id, e: Event): Link {
    match e
    case Probed(healthy) =>
      var report := Edge(l.probe, maxFailed, healthy).1;
      l.(probe := Tick(l.probe, maxFailed, healthy),
         channel := if report.Some? then l.channel + [report.value] else l.channel)
    case Delivered =>
      if l.channel == [] then l
      else l.(channel := l.channel[1..], core := Frame(l.core, session, id, l.channel[0]),
              delivered := l.delivered + [l.channel[0]])
    case Server(op) => l.(core := Apply(l.core, op))
  }

  /** The tunnel stays, and its reports come only through the channel. */
  predicate Possible(l: Link, session: Id, id: Id, e: Event) {
    e.Server? ==> Allowed(l.core, e.op) && !OwnReport(l.core, e.op, id) && !Ends(l.core, e.op, id)
  }

  predicate Last(bits: seq<bool>, default: bool) {
    if bits == [] then default else bits[|bits| - 1]
  }

  ghost predicate InStep(l: Link, r: Ranges, session: Id, id: Id) {
    && Inv(l.core, r)
    && HasMember(l.core, id) && SessionOf(l.core, id) == Some(session)
    && MemberOf(l.core, id).healthy == Last(l.delivered, false)
    && Last(l.channel, MemberOf(l.core, id).healthy) == (l.probe.was == Some(true))
  }

  lemma FrameSets(c: Core, session: Id, id: Id, up: bool)
    requires HasMember(c, id) && SessionOf(c, id) == Some(session)
    ensures var d := Frame(c, session, id, up);
            HasMember(d, id) && SessionOf(d, id) == Some(session) && MemberOf(d, id).healthy == up
  {
    if !up {
      var m := MarkDown(c, id, "probe failures");
      assert HasMember(m, id) && !MemberOf(m, id).healthy && SessionOf(m, id) == Some(session);
      PopKeepsBit(m, id, id);
    }
  }

  lemma FrameKeeps(c: Core, r: Ranges, session: Id, id: Id, up: bool)
    requires Inv(c, r)
    ensures Inv(Frame(c, session, id, up), r)
  {
    if up {
      HealthyShape(c, session, id);
    } else {
      UnhealthyShape(c, session, id, "probe failures");
    }
    SameShapeKeeps(c, Frame(c, session, id, up), r);
  }

  lemma HappenInStep(l: Link, r: Ranges, maxFailed: nat, session: Id, id: Id, e: Event)
    requires InStep(l, r, session, id) && Possible(l, session, id, e)
    ensures InStep(Happen(l, maxFailed, session, id, e), r, session, id)
  {
    match e {
      case Probed(healthy) =>
      case Delivered =>
        if l.channel != [] {
          FrameSets(l.core, session, id, l.channel[0]);
          FrameKeeps(l.core, r, session, id, l.channel[0]);
        }
      case Server(op) =>
        OnlyTheOwnerFlips(l.core, r, op, id);
        ApplyKeeps(l.core, r, op);
    }
  }

  predicate AllPossible(l: Link, maxFailed: nat, session: Id, id: Id, es: seq<Event>)
    decreases |es|
  {
    es != [] ==>
      && Possible(l, session, id, es[0])
      && AllPossible(Happen(l, maxFailed, session, id, es[0]), maxFailed, session, id, es[1..])
  }

  function HappenAll(l: Link, maxFailed: nat, session: Id, id: Id, es: seq<Event>): Link
    decreases |es|
  {
    if es == [] then l else HappenAll(Happen(l, maxFailed, session, id, es[0]), maxFailed, session, id, es[1..])
  }

  lemma {:induction false} StaysInStep(l: Link, r: Ranges, maxFailed: nat, session: Id, id: Id, es: seq<Event>)
    requires InStep(l, r, session, id) && AllPossible(l, maxFailed, session, id, es)
    ensures InStep(HappenAll(l, maxFailed, session, id, es), r, session, id)
    decreases |es|
  {
    if es != [] {
      HappenInStep(l, r, maxFailed, session, id, es[0]);
      StaysInStep(Happen(l, maxFailed, session, id, es[0]), r, maxFailed, session, id, es[1..]);
    }
  }

  /**
   From a member that is unhealthy when its probes start, over any probe outcomes, any delivery
   schedule and any other traffic on the server: the health bit is the last report delivered (false
   if none), and what the prober last reported once the channel is drained.
   */
  lemma HealthComposition(start: Core, r: Ranges, maxFailed: nat, session: Id, id: Id, es: seq<Event>)
    requires Inv(start, r) && HasMember(start, id) && SessionOf(start, id) == Some(session)
    requires !MemberOf(start, id).healthy
    requires AllPossible(Link(IDLE, [], start, []), maxFailed, session, id, es)
    ensures var l := HappenAll(Link(IDLE, [], start, []), maxFailed, session, id, es);
            && HasMember(l.core, id)
            && MemberOf(l.core, id).healthy == Last(l.delivered, false)
            && (l.channel == [] ==> MemberOf(l.core, id).healthy == (l.probe.was == Some(true)))
  {
    StaysInStep(Link(IDLE, [], start, []), r, maxFailed, session, id, es);
  }

  /** The operation registers the tunnel in a group, HTTP or TCP, and asks for probes. */
  predicate AsksForProbes(op: Op, session: Id, id: Id) {
    match op
    case RegHttp(s, _, _, _, spec, i) => s == session && i == id && spec.Some? && spec.value.health.Some?
    case RegTcp(s, spec, _, i) => s == session && i == id && spec.Some? && spec.value.health.Some?
    case _ => false
  }

  lemma HttpStartsUnhealthy(c: Core, op: Op, session: Id, id: Id)
    requires op.RegHttp? && AsksForProbes(op, session, id) && RoutingLedger.Replied(c, op).Accepted?
    ensures var d := Apply(c, op);
            HasMember(d, id) && !MemberOf(d, id).healthy && SessionOf(d, id) == Some(session)
  {
  }

  lemma TcpStartsUnhealthy(c: Core, op: Op, session: Id, id: Id)
    requires op.RegTcp? && AsksForProbes(op, session, id) && RoutingLedger.Replied(c, op).Accepted?
    ensures var d := Apply(c, op);
            HasMember(d, id) && !MemberOf(d, id).healthy && SessionOf(d, id) == Some(session)
  {
  }

  /** A member that asked for probes starts unhealthy, in a new group and in an existing one. */
  lemma ProbedStartsUnhealthy(c: Core, r: Ranges, op: Op, session: Id, id: Id)
    requires Inv(c, r) && Allowed(c, op) && AsksForProbes(op, session, id) && RoutingLedger.Replied(c, op).Accepted?
    ensures var d := Apply(c, op);
            && Inv(d, r)
            && HasMember(d, id) && !MemberOf(d, id).healthy && SessionOf(d, id) == Some(session)
  {
    ApplyKeeps(c, r, op);
    if op.RegHttp? {
      HttpStartsUnhealthy(c, op, session, id);
    } else {
      TcpStartsUnhealthy(c, op, session, id);
    }
  }

  /** The composition, from the registration that asked for the probes. */
  lemma HealthFromRegistration(c: Core, r: Ranges, op: Op, maxFailed: nat, session: Id, id: Id, es: seq<Event>)
    requires Inv(c, r) && Allowed(c, op) && AsksForProbes(op, session, id) && RoutingLedger.Replied(c, op).Accepted?
    requires AllPossible(Link(IDLE, [], Apply(c, op), []), maxFailed, session, id, es)
    ensures var l := HappenAll(Link(IDLE, [], Apply(c, op), []), maxFailed, session, id, es);
            && HasMember(l.core, id)
            && MemberOf(l.core, id).healthy == Last(l.delivered, false)
            && (l.channel == [] ==> MemberOf(l.core, id).healthy == (l.probe.was == Some(true)))
  {
    ProbedStartsUnhealthy(c, r, op, session, id);
    HealthComposition(Apply(c, op), r, maxFailed, session, id, es);
  }
}
