/** The per-tunnel token bucket limiter, over real time. */
module TokenBuckets {
  type Id = nat

  datatype Bucket = Bucket(tokens: real, lastRefill: real)

  /** Idle time after which a bucket may be dropped. */
  const EVICT_AFTER := 300.0

  function FullBucket(maxRps: nat, now: real): Bucket {
    Bucket(maxRps as real, now)
  }

  function Elapsed(last: real, now: real): real {
    if now < last then 0.0 else now - last
  }

  /** What `span` seconds add to a bucket. */
  function Earned(span: real, maxRps: nat): real {
    span * maxRps as real
  }

  function Refilled(b: Bucket, maxRps: nat, now: real): real {
    var tokens := b.tokens + Earned(Elapsed(b.lastRefill, now), maxRps);
    if tokens < maxRps as real then tokens else maxRps as real
  }

  function TryConsume(b: Bucket, maxRps: nat, now: real): (Bucket, bool) {
    var tokens := Refilled(b, maxRps, now);
    if tokens >= 1.0 then (Bucket(tokens - 1.0, now), true) else (Bucket(tokens, now), false)
  }

  // ── the limiter over a run of calls ──────────────────────────────────────

  datatype Call = Check(id: Id, maxRps: nat, at: real) | Evict(at: real)

  type Buckets = map<Id, Bucket>

  function Found(bs: Buckets, id: Id, maxRps: nat, now: real): Bucket {
    if id in bs then bs[id] else FullBucket(maxRps, now)
  }

  /** The buckets after a call, and the answer (`true` for evictions). */
  function Serve(bs: Buckets, call: Call): (Buckets, bool) {
    match call
    case Check(id, maxRps, now) =>
      var (b, ok) := TryConsume(Found(bs, id, maxRps, now), maxRps, now);
      (bs[id := b], ok)
    case Evict(now) =>
      (map id | id in bs && Elapsed(bs[id].lastRefill, now) < EVICT_AFTER :: bs[id], true)
  }

  function Answers(bs: Buckets, calls: seq<Call>): seq<bool>
    decreases |calls|
  {
    if calls == [] then []
    else (if calls[0].Check? then [Serve(bs, calls[0]).1] else []) + Answers(Serve(bs, calls[0]).0, calls[1..])
  }

  predicate Ordered(since: real, calls: seq<Call>)
    decreases |calls|
  {
    calls != [] ==> since <= calls[0].at && Ordered(calls[0].at, calls[1..])
  }

  /** The limiter as it is written. */
  class RateLimiter {
    var buckets: Buckets

    constructor ()
      ensures buckets == map[]
    {
      buckets := map[];
    }

    method CheckRateLimit(id: Id, maxRps: nat, now: real) returns (ok: bool)
      modifies this
      ensures buckets == Serve(old(buckets), Check(id, maxRps, now)).0
      ensures ok == Serve(old(buckets), Check(id, maxRps, now)).1
    {
      ghost var was := buckets;
      if id !in buckets {
        buckets := buckets[id := FullBucket(maxRps, now)];
      }
      var b := buckets[id];
      var tokens := b.tokens + Elapsed(b.lastRefill, now) * maxRps as real;
      if tokens >= maxRps as real {
        tokens := maxRps as real;
      }
      ok := tokens >= 1.0;
      buckets := buckets[id := Bucket(if ok then tokens - 1.0 else tokens, now)];
      assert buckets == was[id := buckets[id]];
    }

    method EvictIdle(now: real)
      modifies this
      ensures buckets == Serve(old(buckets), Evict(now)).0
    {
      var left := buckets.Keys;
      var kept: Buckets := map[];
      while left != {}
        invariant left <= buckets.Keys && buckets == old(buckets)
        invariant forall i :: i in kept <==>
                  i in buckets && i !in left && Elapsed(buckets[i].lastRefill, now) < EVICT_AFTER
        invariant forall i :: i in kept ==> kept[i] == buckets[i]
        decreases left
      {
        var id :| id in left;
        if Elapsed(buckets[id].lastRefill, now) < EVICT_AFTER {
          kept := kept[id := buckets[id]];
        }
        left := left - {id};
      }
      buckets := kept;
    }
  }

  // ── the rate bound ───────────────────────────────────────────────────────

  /** Allowed requests of one tunnel at times within [from, to]. */
  function AllowedIn(bs: Buckets, calls: seq<Call>, id: Id, from: real, to: real): nat
    decreases |calls|
  {
    if calls == [] then 0
    else
      (if calls[0].Check? && calls[0].id == id && from <= calls[0].at <= to && Serve(bs, calls[0]).1 then 1 else 0)
      + AllowedIn(Serve(bs, calls[0]).0, calls[1..], id, from, to)
  }

  /** Every bucket holds between nothing and its ceiling, and none has been used later than `now`. */
  predicate Sane(bs: Buckets, now: real) {
    forall id :: id in bs ==> bs[id].tokens >= 0.0 && bs[id].lastRefill <= now
  }

  predicate SteadyRate(calls: seq<Call>, id: Id, maxRps: nat) {
    forall i :: 0 <= i < |calls| && calls[i].Check? && calls[i].id == id ==> calls[i].maxRps == maxRps
  }

  lemma ScaleMonotone(a: real, b: real, rate: nat)
    requires a <= b
    ensures Earned(a, rate) <= Earned(b, rate)
  {
  }

  lemma RefillIsNatural(b: Bucket, maxRps: nat, now: real)
    requires b.tokens >= 0.0
    ensures 0.0 <= Refilled(b, maxRps, now) <= maxRps as real
    ensures Refilled(b, maxRps, now) <= b.tokens + Earned(Elapsed(b.lastRefill, now), maxRps)
  {
    ScaleMonotone(0.0, Elapsed(b.lastRefill, now), maxRps);
  }

  lemma ServeSane(bs: Buckets, call: Call, now: real)
    requires Sane(bs, now) && now <= call.at
    ensures Sane(Serve(bs, call).0, call.at)
  {
    if call.Check? {
      var b := Found(bs, call.id, call.maxRps, call.at);
      RefillIsNatural(b, call.maxRps, call.at);
    }
  }

  /** What a tunnel could spend at time `now`. */
  function Budget(bs: Buckets, id: Id, maxRps: nat, now: real): real {
    Refilled(Found(bs, id, maxRps, now), maxRps, now)
  }

  lemma ElapsedSplits(b: Bucket, now: real, later: real, maxRps: nat)
    requires b.lastRefill <= now <= later
    ensures Earned(Elapsed(b.lastRefill, later), maxRps)
         == Earned(Elapsed(b.lastRefill, now), maxRps) + Earned(later - now, maxRps)
  {
  }

  /** Time adds at most `maxRps` per second to the budget. */
  lemma BudgetGrows(bs: Buckets, id: Id, maxRps: nat, now: real, later: real)
    requires Sane(bs, now) && now <= later
    ensures Budget(bs, id, maxRps, later) <= Budget(bs, id, maxRps, now) + Earned(later - now, maxRps)
  {
    ScaleMonotone(0.0, later - now, maxRps);
    if id in bs {
      ElapsedSplits(bs[id], now, later, maxRps);
    }
  }

  lemma FullAfterIdle(b: Bucket, maxRps: nat, now: real)
    requires b.tokens >= 0.0 && Elapsed(b.lastRefill, now) >= EVICT_AFTER
    ensures Refilled(b, maxRps, now) == maxRps as real
  {
    ScaleMonotone(1.0, Elapsed(b.lastRefill, now), maxRps);
  }

  lemma RefilledTwice(tokens: real, maxRps: nat, now: real)
    requires 0.0 <= tokens <= maxRps as real
    ensures Refilled(Bucket(tokens, now), maxRps, now) == tokens
  {
  }

  /** A request costs one token; nothing else spends the budget. */
  lemma ServeSpends(bs: Buckets, call: Call, id: Id, maxRps: nat, now: real)
    requires Sane(bs, now) && now <= call.at
    requires call.Check? && call.id == id ==> call.maxRps == maxRps
    ensures var (cs, ok) := Serve(bs, call);
            Budget(cs, id, maxRps, call.at)
            == Budget(bs, id, maxRps, call.at) - if call.Check? && call.id == id && ok then 1.0 else 0.0
  {
    var (cs, ok) := Serve(bs, call);
    if call.Check? && call.id == id {
      RefillIsNatural(Found(bs, id, maxRps, call.at), maxRps, call.at);
      RefilledTwice(cs[id].tokens, maxRps, call.at);
    } else if call.Evict? && id in bs && id !in cs {
      FullAfterIdle(bs[id], maxRps, call.at);
      RefilledTwice(maxRps as real, maxRps, call.at);
    }
  }

  /** Inside the interval: the budget at its start, plus what time adds, pays for every request. */
  lemma {:induction false} SpentWithinBudget(bs: Buckets, calls: seq<Call>, id: Id, maxRps: nat, now: real, to: real)
    requires Sane(bs, now) && Ordered(now, calls) && SteadyRate(calls, id, maxRps)
    requires now <= to
    ensures AllowedIn(bs, calls, id, now, to) as real <= Budget(bs, id, maxRps, now) + Earned(to - now, maxRps)
    decreases |calls|
  {
    ScaleMonotone(0.0, to - now, maxRps);
    BudgetIsNatural(bs, id, maxRps, now);
    if calls != [] {
      var at := calls[0].at;
      var cs := Serve(bs, calls[0]).0;
      assert SteadyRate(calls[1..], id, maxRps);
      ServeSane(bs, calls[0], now);
      if at <= to {
        SpentWithinBudget(cs, calls[1..], id, maxRps, at, to);
        LaterStart(cs, calls[1..], id, now, at, to);
        ServeSpends(bs, calls[0], id, maxRps, now);
        BudgetGrows(bs, id, maxRps, now, at);
        Adds(now, at, to, maxRps);
      } else {
        assert AllowedIn(cs, calls[1..], id, now, to) == 0 by { NoneAfter(cs, calls[1..], id, now, at, to); }
      }
    }
  }

  lemma Adds(a: real, b: real, c: real, rate: nat)
    ensures Earned(b - a, rate) + Earned(c - b, rate) == Earned(c - a, rate)
  {
  }

  lemma BudgetIsNatural(bs: Buckets, id: Id, maxRps: nat, now: real)
    requires Sane(bs, now)
    ensures 0.0 <= Budget(bs, id, maxRps, now) <= maxRps as real
  {
    RefillIsNatural(Found(bs, id, maxRps, now), maxRps, now);
  }

  lemma {:induction false} LaterStart(bs: Buckets, calls: seq<Call>, id: Id, from: real, since: real, to: real)
    requires from <= since && Ordered(since, calls)
    ensures AllowedIn(bs, calls, id, from, to) == AllowedIn(bs, calls, id, since, to)
    decreases |calls|
  {
    if calls != [] {
      OrderedEarlier(calls[1..], since, calls[0].at);
      LaterStart(Serve(bs, calls[0]).0, calls[1..], id, from, since, to);
    }
  }

  lemma OrderedEarlier(calls: seq<Call>, since: real, at: real)
    requires since <= at && Ordered(at, calls)
    ensures Ordered(since, calls)
  {
  }

  lemma {:induction false} NoneAfter(bs: Buckets, calls: seq<Call>, id: Id, from: real, since: real, to: real)
    requires to < since && Ordered(since, calls)
    ensures AllowedIn(bs, calls, id, from, to) == 0
    decreases |calls|
  {
    if calls != [] {
      NoneAfter(Serve(bs, calls[0]).0, calls[1..], id, from, calls[0].at, to);
    }
  }

  /**
   The rate bound. At a constant rate, in any interval [from, to] of any run with nondecreasing
   times, whatever the other tunnels do and wherever evictions fall, one tunnel is allowed at most
   maxRps + maxRps * (to - from) requests.
   */
  lemma {:induction false} RateBound(bs: Buckets, calls: seq<Call>, id: Id, maxRps: nat, now: real, from: real,
                                     to: real)
    requires Sane(bs, now) && Ordered(now, calls) && SteadyRate(calls, id, maxRps)
    requires from <= to
    ensures AllowedIn(bs, calls, id, from, to) as real <= maxRps as real + Earned(to - from, maxRps)
    decreases |calls|
  {
    ScaleMonotone(0.0, to - from, maxRps);
    if calls != [] {
      var at := calls[0].at;
      var cs := Serve(bs, calls[0]).0;
      ServeSane(bs, calls[0], now);
      assert SteadyRate(calls[1..], id, maxRps);
      if at < from {
        RateBound(cs, calls[1..], id, maxRps, at, from, to);
      } else if at <= to {
        SaneLater(bs, now, at);
        BoundFromFirst(bs, calls, id, maxRps, from, to);
      } else {
        assert AllowedIn(cs, calls[1..], id, from, to) == 0 by { NoneAfter(cs, calls[1..], id, from, at, to); }
      }
    }
  }

  lemma BoundFromFirst(bs: Buckets, calls: seq<Call>, id: Id, maxRps: nat, from: real, to: real)
    requires calls != [] && from <= calls[0].at <= to
    requires Sane(bs, calls[0].at) && Ordered(calls[0].at, calls) && SteadyRate(calls, id, maxRps)
    ensures AllowedIn(bs, calls, id, from, to) as real <= maxRps as real + Earned(to - from, maxRps)
  {
    var at := calls[0].at;
    var n := AllowedIn(bs, calls, id, from, to);
    var earned := Earned(to - at, maxRps);
    assert n as real <= Budget(bs, id, maxRps, at) + earned by {
      SpentWithinBudget(bs, calls, id, maxRps, at, to);
      LaterStart(bs, calls, id, from, at, to);
    }
    assert Budget(bs, id, maxRps, at) <= maxRps as real by { BudgetIsNatural(bs, id, maxRps, at); }
    assert earned <= Earned(to - from, maxRps) by { ScaleMonotone(to - at, to - from, maxRps); }
  }

  lemma SaneLater(bs: Buckets, now: real, later: real)
    requires Sane(bs, now) && now <= later
    ensures Sane(bs, later)
  {
  }

  // ── evictions never show ─────────────────────────────────────────────────

  function ChecksOnly(calls: seq<Call>): seq<Call> {
    if calls == [] then []
    else (if calls[0].Check? then [calls[0]] else []) + ChecksOnly(calls[1..])
  }

  /** `cs` is `bs` less some buckets that have been idle long enough to be full again. */
  predicate Forgets(bs: Buckets, cs: Buckets, now: real) {
    && (forall id :: id in cs ==> id in bs && bs[id] == cs[id])
    && (forall id :: id in bs && id !in cs ==> Elapsed(bs[id].lastRefill, now) >= EVICT_AFTER)
  }

  lemma SameCheck(bs: Buckets, cs: Buckets, call: Call, now: real)
    requires Forgets(bs, cs, now) && Sane(bs, now) && call.Check? && now <= call.at
    ensures Serve(bs, call).1 == Serve(cs, call).1
    ensures Forgets(Serve(bs, call).0, Serve(cs, call).0, call.at)
  {
    var id := call.id;
    if id in bs && id !in cs {
      FullAfterIdle(bs[id], call.maxRps, call.at);
      RefilledTwice(call.maxRps as real, call.maxRps, call.at);
    }
    ForgetsLater(bs, cs, now, call.at);
  }

  lemma ForgetsLater(bs: Buckets, cs: Buckets, now: real, later: real)
    requires Forgets(bs, cs, now) && now <= later
    ensures Forgets(bs, cs, later)
  {
  }

  lemma {:induction false} EvictionsForgotten(bs: Buckets, cs: Buckets, calls: seq<Call>, now: real)
    requires Forgets(bs, cs, now) && Sane(bs, now) && Ordered(now, calls)
    ensures Answers(cs, calls) == Answers(bs, ChecksOnly(calls))
    decreases |calls|
  {
    if calls != [] {
      var call := calls[0];
      if call.Check? {
        SameCheck(bs, cs, call, now);
        ServeSane(bs, call, now);
        EvictionsForgotten(Serve(bs, call).0, Serve(cs, call).0, calls[1..], call.at);
        assert ([call] + ChecksOnly(calls[1..]))[1..] == ChecksOnly(calls[1..]);
      } else {
        ForgetsLater(bs, cs, now, call.at);
        SaneLater(bs, now, call.at);
        EvictionsForgotten(bs, Serve(cs, call).0, calls[1..], call.at);
        assert [] + ChecksOnly(calls[1..]) == ChecksOnly(calls[1..]);
      }
    }
  }

  /** Evictions may fall anywhere, at any rates, and no check is ever answered differently. */
  lemma EvictionsNeverShow(bs: Buckets, calls: seq<Call>, now: real)
    requires Sane(bs, now) && Ordered(now, calls)
    ensures Answers(bs, calls) == Answers(bs, ChecksOnly(calls))
  {
    EvictionsForgotten(bs, bs, calls, now);
  }
}
