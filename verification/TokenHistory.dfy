/** Which requests the token bucket allows, told from the history of the tunnel's own requests alone. */
module TokenHistory {
  import opened Basics
  import opened TokenBuckets

  /** One request that was checked, and whether it was allowed. */
  datatype Attempt = Attempt(at: real, ok: bool)

  /** The requests allowed since the i-th, that one included. */
  function AllowedSince(past: seq<Attempt>, i: nat): nat
    requires i <= |past|
    decreases |past| - i
  {
    if i == |past| then 0 else (if past[i].ok then 1 else 0) + AllowedSince(past, i + 1)
  }

  /** One more request at time `t` would make too many since the i-th request. */
  predicate TooManySince(past: seq<Attempt>, maxRps: nat, t: real, i: nat)
    requires i < |past|
  {
    (AllowedSince(past, i) + 1) as real > maxRps as real + maxRps as real * (t - past[i].at)
  }

  // ── runs ─────────────────────────────────────────────────────────────────

  function End(bs: Buckets, calls: seq<Call>): Buckets
    decreases |calls|
  {
    if calls == [] then bs else End(Serve(bs, calls[0]).0, calls[1..])
  }

  function LastTime(since: real, calls: seq<Call>): real {
    if calls == [] then since else calls[|calls| - 1].at
  }

  function AttemptIn(bs: Buckets, call: Call, id: Id): seq<Attempt> {
    if call.Check? && call.id == id then [Attempt(call.at, Serve(bs, call).1)] else []
  }

  /** What one tunnel asked for in a run, and the answers. */
  function Attempts(bs: Buckets, calls: seq<Call>, id: Id): seq<Attempt>
    decreases |calls|
  {
    if calls == [] then [] else AttemptIn(bs, calls[0], id) + Attempts(Serve(bs, calls[0]).0, calls[1..], id)
  }

  // ── the budget is the tightest of the bounds ─────────────────────────────

  /** What the i-th request leaves to spend at time `t`. */
  function Left(past: seq<Attempt>, maxRps: nat, t: real, i: nat): real
    requires i < |past|
  {
    maxRps as real + Earned(t - past[i].at, maxRps) - AllowedSince(past, i) as real
  }

  ghost predicate Tightest(budget: real, past: seq<Attempt>, maxRps: nat, t: real) {
    && budget <= maxRps as real
    && (forall i :: 0 <= i < |past| ==> budget <= Left(past, maxRps, t, i))
    && (budget == maxRps as real || exists i :: 0 <= i < |past| && budget == Left(past, maxRps, t, i))
  }

  /** The bucket was last filled at the last request. */
  predicate FilledAtLast(bs: Buckets, past: seq<Attempt>, id: Id) {
    id in bs ==> past != [] && bs[id].lastRefill == past[|past| - 1].at
  }

  ghost predicate Explained(bs: Buckets, past: seq<Attempt>, id: Id, maxRps: nat, now: real) {
    && Sane(bs, now) && FilledAtLast(bs, past, id)
    && Tightest(Budget(bs, id, maxRps, now), past, maxRps, now)
  }

  lemma BudgetLater(bs: Buckets, id: Id, maxRps: nat, now: real, later: real)
    requires Sane(bs, now) && now <= later
    ensures var b := Budget(bs, id, maxRps, now) + Earned(later - now, maxRps);
            Budget(bs, id, maxRps, later) == if b < maxRps as real then b else maxRps as real
  {
    ScaleMonotone(0.0, later - now, maxRps);
    if id in bs {
      ElapsedSplits(bs[id], now, later, maxRps);
    }
  }

  lemma TightestLater(budget: real, past: seq<Attempt>, maxRps: nat, now: real, later: real)
    requires Tightest(budget, past, maxRps, now) && now <= later
    ensures var b := budget + Earned(later - now, maxRps);
            Tightest(if b < maxRps as real then b else maxRps as real, past, maxRps, later)
  {
    ScaleMonotone(0.0, later - now, maxRps);
    forall i | 0 <= i < |past|
      ensures Left(past, maxRps, later, i) == Left(past, maxRps, now, i) + Earned(later - now, maxRps)
    {
      Adds(past[i].at, now, later, maxRps);
    }
  }

  lemma {:induction false} AllowedPush(past: seq<Attempt>, a: Attempt, i: nat)
    requires i <= |past|
    ensures AllowedSince(past + [a], i) == AllowedSince(past, i) + if a.ok then 1 else 0
    decreases |past| - i
  {
    if i == |past| {
      assert AllowedSince(past + [a], i + 1) == 0;
    } else {
      AllowedPush(past, a, i + 1);
    }
  }

  /** A request that is allowed costs one, whichever bound is the tightest. */
  lemma TightestPush(budget: real, past: seq<Attempt>, maxRps: nat, a: Attempt)
    requires Tightest(budget, past, maxRps, a.at)
    ensures Tightest(budget - if a.ok then 1.0 else 0.0, past + [a], maxRps, a.at)
  {
    var more, cost := past + [a], if a.ok then 1.0 else 0.0;
    forall i | 0 <= i < |past|
      ensures Left(more, maxRps, a.at, i) == Left(past, maxRps, a.at, i) - cost
    {
      AllowedPush(past, a, i);
    }
    AllowedPush(past, a, |past|);
    assert Left(more, maxRps, a.at, |past|) == maxRps as real - cost;
    if budget != maxRps as real {
      var i :| 0 <= i < |past| && budget == Left(past, maxRps, a.at, i);
      assert budget - cost == Left(more, maxRps, a.at, i);
    }
  }

  lemma ServeExplained(bs: Buckets, past: seq<Attempt>, call: Call, id: Id, maxRps: nat, now: real)
    requires Explained(bs, past, id, maxRps, now) && now <= call.at
    requires call.Check? && call.id == id ==> call.maxRps == maxRps
    ensures Explained(Serve(bs, call).0, past + AttemptIn(bs, call, id), id, maxRps, call.at)
  {
    ServeSane(bs, call, now);
    ServeSpends(bs, call, id, maxRps, now);
    BudgetLater(bs, id, maxRps, now, call.at);
    TightestLater(Budget(bs, id, maxRps, now), past, maxRps, now, call.at);
    if call.Check? && call.id == id {
      TightestPush(Budget(bs, id, maxRps, call.at), past, maxRps, Attempt(call.at, Serve(bs, call).1));
    } else {
      assert past + [] == past;
    }
  }

  lemma {:induction false} RunExplained(bs: Buckets, past: seq<Attempt>, calls: seq<Call>, id: Id, maxRps: nat,
                                        now: real)
    requires Explained(bs, past, id, maxRps, now) && Ordered(now, calls) && SteadyRate(calls, id, maxRps)
    ensures Explained(End(bs, calls), past + Attempts(bs, calls, id), id, maxRps, LastTime(now, calls))
    decreases |calls|
  {
    if calls == [] {
      assert past + [] == past;
    } else {
      var cs, one := Serve(bs, calls[0]).0, AttemptIn(bs, calls[0], id);
      ServeExplained(bs, past, calls[0], id, maxRps, now);
      assert SteadyRate(calls[1..], id, maxRps);
      RunExplained(cs, past + one, calls[1..], id, maxRps, calls[0].at);
      Regroup(past, one, Attempts(cs, calls[1..], id));
    }
  }

  lemma RunFromNew(calls: seq<Call>, id: Id, maxRps: nat, since: real, t: real)
    requires Ordered(since, calls) && LastTime(since, calls) <= t && SteadyRate(calls, id, maxRps)
    ensures Explained(End(map[], calls), Attempts(map[], calls, id), id, maxRps, t)
  {
    var past, bs, last := Attempts(map[], calls, id), End(map[], calls), LastTime(since, calls);
    assert Tightest(Budget(map[], id, maxRps, since), [], maxRps, since);
    RunExplained(map[], [], calls, id, maxRps, since);
    assert [] + past == past;
    SaneLater(bs, last, t);
    BudgetLater(bs, id, maxRps, last, t);
    TightestLater(Budget(bs, id, maxRps, last), past, maxRps, last, t);
  }

  lemma LeftIsRoom(past: seq<Attempt>, maxRps: nat, t: real, i: nat)
    requires i < |past|
    ensures TooManySince(past, maxRps, t, i) <==> Left(past, maxRps, t, i) < 1.0
  {
    var span, rate, allowed := t - past[i].at, maxRps as real, AllowedSince(past, i);
    assert span * rate == rate * span;
    assert (allowed + 1) as real == allowed as real + 1.0;
  }

  /** The rate is zero, or one more request would be too many since some earlier one. */
  predicate Overdrawn(past: seq<Attempt>, maxRps: nat, t: real) {
    maxRps == 0 || exists i :: 0 <= i < |past| && TooManySince(past, maxRps, t, i)
  }

  lemma ShortOfOne(bs: Buckets, past: seq<Attempt>, id: Id, maxRps: nat, t: real)
    requires Tightest(Budget(bs, id, maxRps, t), past, maxRps, t)
    ensures !Serve(bs, Check(id, maxRps, t)).1 <==> Overdrawn(past, maxRps, t)
  {
    forall i | 0 <= i < |past|
      ensures TooManySince(past, maxRps, t, i) <==> Left(past, maxRps, t, i) < 1.0
    {
      LeftIsRoom(past, maxRps, t, i);
    }
  }

  /**
   When a request is denied, exactly. After any run of a new limiter with nondecreasing times and a
   constant rate for the tunnel, whatever the other tunnels do and wherever evictions fall: a request is
   denied if and only if the rate is zero, or for some earlier request of the tunnel the requests allowed
   since, and this one, are more than maxRps plus maxRps for every second since.
   */
  lemma DenialIsExact(calls: seq<Call>, id: Id, maxRps: nat, since: real, t: real)
    requires Ordered(since, calls) && LastTime(since, calls) <= t && SteadyRate(calls, id, maxRps)
    ensures !Serve(End(map[], calls), Check(id, maxRps, t)).1 <==> Overdrawn(Attempts(map[], calls, id), maxRps, t)
  {
    RunFromNew(calls, id, maxRps, since, t);
    ShortOfOne(End(map[], calls), Attempts(map[], calls, id), id, maxRps, t);
  }

  // ── bursts ───────────────────────────────────────────────────────────────

  /** The tunnel has asked for nothing in the second before `t`; it may be new. */
  predicate Idle(past: seq<Attempt>, t: real) {
    forall i :: 0 <= i < |past| ==> past[i].at + 1.0 <= t
  }

  function Burst(id: Id, maxRps: nat, t: real, n: nat): seq<Call> {
    seq(n, _ => Check(id, maxRps, t))
  }

  lemma FullWhenIdle(calls: seq<Call>, id: Id, maxRps: nat, since: real, t: real)
    requires Ordered(since, calls) && LastTime(since, calls) <= t && SteadyRate(calls, id, maxRps)
    requires Idle(Attempts(map[], calls, id), t)
    ensures Sane(End(map[], calls), t) && Budget(End(map[], calls), id, maxRps, t) == maxRps as real
  {
    RunFromNew(calls, id, maxRps, since, t);
    var bs := End(map[], calls);
    if id in bs {
      ScaleMonotone(1.0, Elapsed(bs[id].lastRefill, t), maxRps);
    }
  }

  lemma {:induction false} SpendAll(bs: Buckets, id: Id, maxRps: nat, t: real, left: nat, n: nat)
    requires Sane(bs, t) && Budget(bs, id, maxRps, t) == left as real
    ensures Answers(bs, Burst(id, maxRps, t, n)) == seq(n, k => k < left)
    decreases n
  {
    if n > 0 {
      var call := Check(id, maxRps, t);
      var (cs, ok) := Serve(bs, call);
      ServeSane(bs, call, t);
      ServeSpends(bs, call, id, maxRps, t);
      assert ok == (left > 0);
      var next := if ok then left - 1 else left;
      SpendAll(cs, id, maxRps, t, next, n - 1);
      assert Burst(id, maxRps, t, n)[1..] == Burst(id, maxRps, t, n - 1);
      assert [ok] + seq(n - 1, k => k < next) == seq(n, k => k < left);
    }
  }

  /** A tunnel that is new, or has been idle for a second, is granted a burst of exactly its rate. */
  lemma BurstIsExact(calls: seq<Call>, id: Id, maxRps: nat, since: real, t: real, n: nat)
    requires Ordered(since, calls) && LastTime(since, calls) <= t && SteadyRate(calls, id, maxRps)
    requires Idle(Attempts(map[], calls, id), t)
    ensures Answers(End(map[], calls), Burst(id, maxRps, t, n)) == seq(n, k => k < maxRps)
  {
    FullWhenIdle(calls, id, maxRps, since, t);
    SpendAll(End(map[], calls), id, maxRps, t, maxRps, n);
  }

  // ── what evictions leave ─────────────────────────────────────────────────

  /** A tunnel that asked within the last 300 seconds has a bucket, filled at its last request. */
  predicate Remembers(bs: Buckets, past: seq<Attempt>, id: Id, now: real) {
    && FilledAtLast(bs, past, id)
    && (past != [] && now - past[|past| - 1].at < 300.0 ==> id in bs)
  }

  lemma ServeRemembers(bs: Buckets, past: seq<Attempt>, call: Call, id: Id, now: real)
    requires Remembers(bs, past, id, now) && now <= call.at
    ensures Remembers(Serve(bs, call).0, past + AttemptIn(bs, call, id), id, call.at)
  {
    if !(call.Check? && call.id == id) {
      assert past + [] == past;
    }
  }

  lemma {:induction false} RunRemembers(bs: Buckets, past: seq<Attempt>, calls: seq<Call>, id: Id, now: real)
    requires Remembers(bs, past, id, now) && Ordered(now, calls)
    ensures Remembers(End(bs, calls), past + Attempts(bs, calls, id), id, LastTime(now, calls))
    decreases |calls|
  {
    if calls == [] {
      assert past + [] == past;
    } else {
      var cs, one := Serve(bs, calls[0]).0, AttemptIn(bs, calls[0], id);
      ServeRemembers(bs, past, calls[0], id, now);
      RunRemembers(cs, past + one, calls[1..], id, calls[0].at);
      Regroup(past, one, Attempts(cs, calls[1..], id));
    }
  }

  /** After an eviction the tunnels with a bucket are exactly those that asked within the last 300 seconds. */
  lemma EvictionIsExact(calls: seq<Call>, id: Id, since: real, t: real)
    requires Ordered(since, calls) && LastTime(since, calls) <= t
    ensures var past := Attempts(map[], calls, id);
            id in Serve(End(map[], calls), Evict(t)).0 <==> past != [] && t - past[|past| - 1].at < 300.0
  {
    var past := Attempts(map[], calls, id);
    RunRemembers(map[], [], calls, id, since);
    assert [] + past == past;
    LastIsOrdered(map[], calls, id, since);
  }

  lemma {:induction false} LastIsOrdered(bs: Buckets, calls: seq<Call>, id: Id, since: real)
    requires Ordered(since, calls)
    ensures since <= LastTime(since, calls)
    ensures forall i :: 0 <= i < |Attempts(bs, calls, id)| ==> Attempts(bs, calls, id)[i].at <= LastTime(since, calls)
    decreases |calls|
  {
    if calls != [] {
      LastIsOrdered(Serve(bs, calls[0]).0, calls[1..], id, calls[0].at);
    }
  }
}
