/** The client's probe loop: which probe outcomes are reported to the server, and when. */
module HealthProbe {
  import opened Basics

  const U32_MAX := 0xFFFF_FFFF

  /** `was` is the last report sent; none has been sent yet while it is `None`. */
  datatype Probe = Probe(failures: nat, was: Option<bool>)

  const IDLE := Probe(0, None)

  function Bump(failures: nat): nat {
    Min(failures + 1, U32_MAX)
  }

  /** The report, if any, that one probe outcome causes, and the counter after it. */
  function Edge(p: Probe, maxFailed: nat, healthy: bool): (nat, Option<bool>) {
    var failures := if healthy then p.failures else Bump(p.failures);
    match (p.was, healthy)
    case (None, true) => (failures, Some(true))
    case (None, false) => (failures, if failures >= maxFailed then Some(false) else None)
    case (Some(true), true) => (0, None)
    case (Some(true), false) => (failures, if failures >= maxFailed then Some(false) else None)
    case (Some(false), true) => (0, Some(true))
    case (Some(false), false) => (failures, None)
  }

  function Tick(p: Probe, maxFailed: nat, healthy: bool): Probe {
    var (failures, report) := Edge(p, maxFailed, healthy);
    Probe(failures, if report.Some? then report else p.was)
  }

  function After(outcomes: seq<bool>, maxFailed: nat): Probe {
    if outcomes == [] then IDLE
    else Tick(After(outcomes[..|outcomes| - 1], maxFailed), maxFailed, outcomes[|outcomes| - 1])
  }

  function ReportAt(outcomes: seq<bool>, maxFailed: nat, n: nat): Option<bool>
    requires n < |outcomes|
  {
    Edge(After(outcomes[..n], maxFailed), maxFailed, outcomes[n]).1
  }

  function Reported(outcomes: seq<bool>, maxFailed: nat): seq<bool> {
    if outcomes == [] then []
    else
      var last := |outcomes| - 1;
      Reported(outcomes[..last], maxFailed) +
      match ReportAt(outcomes, maxFailed, last) case None => [] case Some(up) => [up]
  }

  /** The loop, on a channel that accepts a number of frames before it closes. */
  method RunProbeLoop(outcomes: seq<bool>, maxFailed: nat, accepts: nat) returns (frames: seq<bool>)
    ensures frames == Reported(outcomes, maxFailed)[..Min(accepts, |Reported(outcomes, maxFailed)|)]
  {
    frames := [];
    var failures: nat, was: Option<bool> := 0, None;
    var i := 0;
    while i < |outcomes|
      invariant i <= |outcomes|
      invariant After(outcomes[..i], maxFailed) == Probe(failures, was)
      invariant frames == Reported(outcomes[..i], maxFailed) && |frames| <= accepts
    {
      var healthy := outcomes[i];
      assert outcomes[..i + 1][..i] == outcomes[..i];
      ReportedGrows(outcomes, maxFailed, i);
      var report: Option<bool> := None;
      match was {
        case None =>
          if healthy {
            report := Some(true);
          } else {
            failures := Bump(failures);
            if failures >= maxFailed { report := Some(false); }
          }
        case Some(up) =>
          if healthy {
            failures := 0;
            if !up { report := Some(true); }
          } else {
            failures := Bump(failures);
            if up && failures >= maxFailed { report := Some(false); }
          }
      }
      if report.Some? {
        if |frames| == accepts {
          ReportedPrefix(outcomes, maxFailed, i + 1);
          return;
        }
        frames, was := frames + [report.value], report;
      }
      i := i + 1;
    }
    assert outcomes[..|outcomes|] == outcomes;
  }

  lemma ReportedGrows(outcomes: seq<bool>, maxFailed: nat, i: nat)
    requires i < |outcomes|
    ensures Reported(outcomes[..i + 1], maxFailed) == Reported(outcomes[..i], maxFailed) +
              match ReportAt(outcomes, maxFailed, i) case None => [] case Some(up) => [up]
    ensures After(outcomes[..i + 1], maxFailed) == Tick(After(outcomes[..i], maxFailed), maxFailed, outcomes[i])
  {
    assert outcomes[..i + 1][..i] == outcomes[..i];
  }

  lemma {:induction false} ReportedPrefix(outcomes: seq<bool>, maxFailed: nat, i: nat)
    requires i <= |outcomes|
    ensures Reported(outcomes[..i], maxFailed) <= Reported(outcomes, maxFailed)
    decreases |outcomes| - i
  {
    if i == |outcomes| {
      assert outcomes[..i] == outcomes;
    } else {
      ReportedGrows(outcomes, maxFailed, i);
      ReportedPrefix(outcomes, maxFailed, i + 1);
    }
  }

  // ── reports alternate ────────────────────────────────────────────────────

  lemma {:induction false} LastReport(outcomes: seq<bool>, maxFailed: nat)
    ensures var rs := Reported(outcomes, maxFailed);
            After(outcomes, maxFailed).was == if rs == [] then None else Some(rs[|rs| - 1])
  {
    if outcomes != [] {
      LastReport(outcomes[..|outcomes| - 1], maxFailed);
    }
  }

  /** Over every sequence of outcomes, no two successive reports are the same. */
  lemma {:induction false} ReportsAlternate(outcomes: seq<bool>, maxFailed: nat)
    ensures var rs := Reported(outcomes, maxFailed); forall i :: 0 < i < |rs| ==> rs[i] != rs[i - 1]
  {
    if outcomes != [] {
      ReportsAlternate(outcomes[..|outcomes| - 1], maxFailed);
      LastReport(outcomes[..|outcomes| - 1], maxFailed);
    }
  }

  // ── what an unhealthy report means ───────────────────────────────────────

  /** Consecutive failures at the end: since the last success. */
  function Streak(outcomes: seq<bool>): nat {
    if outcomes == [] || outcomes[|outcomes| - 1] then 0 else 1 + Streak(outcomes[..|outcomes| - 1])
  }

  /** Failures before the first success. */
  function Lead(outcomes: seq<bool>): nat {
    if outcomes == [] || outcomes[0] then 0 else 1 + Lead(outcomes[1..])
  }

  function Successes(outcomes: seq<bool>): nat {
    if outcomes == [] then 0 else Successes(outcomes[..|outcomes| - 1]) + if outcomes[|outcomes| - 1] then 1 else 0
  }

  lemma {:induction false} LeadGrows(outcomes: seq<bool>, o: bool)
    ensures Lead(outcomes + [o]) == Lead(outcomes) + if !o && Lead(outcomes) == |outcomes| then 1 else 0
    ensures Lead(outcomes) <= |outcomes|
  {
    if outcomes != [] {
      assert (outcomes + [o])[1..] == outcomes[1..] + [o];
      LeadGrows(outcomes[1..], o);
    } else {
      assert [o][1..] == [];
    }
  }

  /** Failures before the very first success stay in the counter until a second success. */
  function Carry(outcomes: seq<bool>, maxFailed: nat): nat {
    if Successes(outcomes) == 1 && Lead(outcomes) < maxFailed then Lead(outcomes) else 0
  }

  ghost predicate CounterMeans(outcomes: seq<bool>, maxFailed: nat) {
    var p := After(outcomes, maxFailed);
    && (Successes(outcomes) == 0 <==> Lead(outcomes) == |outcomes|)
    && (Successes(outcomes) == 0 ==> Streak(outcomes) == |outcomes|)
    && (p.was == None <==> Successes(outcomes) == 0 && |outcomes| < maxFailed)
    && (Successes(outcomes) > 0 ==>
          (p.was == Some(true) <==> Streak(outcomes) + Carry(outcomes, maxFailed) < maxFailed))
    && (p.was != Some(false) ==> p.failures == Streak(outcomes) + Carry(outcomes, maxFailed) < maxFailed)
  }

  /** What the counter counts: the streak, plus what was carried over the very first success. */
  lemma {:induction false} CounterIsStreak(outcomes: seq<bool>, maxFailed: nat)
    requires 1 <= maxFailed <= U32_MAX
    ensures CounterMeans(outcomes, maxFailed)
  {
    if outcomes != [] {
      var last := |outcomes| - 1;
      var before, o := outcomes[..last], outcomes[last];
      CounterIsStreak(before, maxFailed);
      LeadGrows(before, o);
      assert outcomes == before + [o];
      CounterStep(before, o, maxFailed);
    }
  }

  lemma CounterStep(before: seq<bool>, o: bool, maxFailed: nat)
    requires 1 <= maxFailed <= U32_MAX && CounterMeans(before, maxFailed)
    requires Lead(before + [o]) == Lead(before) + if !o && Lead(before) == |before| then 1 else 0
    requires Lead(before) <= |before|
    ensures CounterMeans(before + [o], maxFailed)
  {
    assert (before + [o])[..|before|] == before;
  }

  /** An unhealthy report says that the local service has just failed `maxFailed` times in a row. */
  ghost predicate Honest(outcomes: seq<bool>, maxFailed: nat) {
    forall n :: 0 <= n < |outcomes| && ReportAt(outcomes, maxFailed, n) == Some(false) ==>
      Streak(outcomes[..n + 1]) >= maxFailed
  }

  /** In every run: exactly when the unhealthy report is sent. */
  lemma UnhealthyIsExact(outcomes: seq<bool>, maxFailed: nat, n: nat)
    requires 1 <= maxFailed <= U32_MAX && n < |outcomes|
    ensures ReportAt(outcomes, maxFailed, n) == Some(false) <==>
            && !outcomes[n]
            && After(outcomes[..n], maxFailed).was != Some(false)
            && Streak(outcomes[..n + 1]) + Carry(outcomes[..n], maxFailed) == maxFailed
  {
    CounterIsStreak(outcomes[..n], maxFailed);
    assert outcomes[..n + 1][..n] == outcomes[..n];
  }

  /** In every run: exactly when the healthy report is sent. */
  lemma HealthyIsExact(outcomes: seq<bool>, maxFailed: nat, n: nat)
    requires 1 <= maxFailed <= U32_MAX && n < |outcomes|
    ensures ReportAt(outcomes, maxFailed, n) == Some(true) <==>
            && outcomes[n]
            && (Successes(outcomes[..n]) == 0
                || Streak(outcomes[..n]) + Carry(outcomes[..n], maxFailed) >= maxFailed)
  {
    CounterIsStreak(outcomes[..n], maxFailed);
  }

  /**
   When the first probe succeeds, an unhealthy report is sent exactly at the probe that completes
   `maxFailed` consecutive failures.
   */
  lemma FirstSuccessIsHonest(outcomes: seq<bool>, maxFailed: nat, n: nat)
    requires 1 <= maxFailed <= U32_MAX && n < |outcomes| && outcomes[0]
    ensures ReportAt(outcomes, maxFailed, n) == Some(false) <==> Streak(outcomes[..n + 1]) == maxFailed
  {
    UnhealthyIsExact(outcomes, maxFailed, n);
    assert outcomes[..n + 1][..n] == outcomes[..n];
    CounterIsStreak(outcomes[..n], maxFailed);
    CounterIsStreak(outcomes[..n + 1], maxFailed);
    if n > 0 {
      assert outcomes[..n][0];
    }
  }

  function Failing(n: nat): seq<bool> {
    seq(n, _ => false)
  }

  lemma {:induction false} LeadOfStart(n: nat, rest: seq<bool>)
    ensures Lead(Failing(n) + [true] + rest) == n
  {
    var all := Failing(n) + [true] + rest;
    if n > 0 {
      LeadOfStart(n - 1, rest);
      assert all[1..] == Failing(n - 1) + [true] + rest;
    }
  }

  lemma {:induction false} StreakOfFailing(before: seq<bool>, n: nat)
    requires before == [] || before[|before| - 1]
    ensures Streak(before + Failing(n)) == n
    ensures Successes(before + Failing(n)) == Successes(before)
  {
    if n == 0 {
      assert before + Failing(0) == before;
    } else {
      StreakOfFailing(before, n - 1);
      assert (before + Failing(n))[..|before| + n - 1] == before + Failing(n - 1);
    }
  }

  lemma {:induction false} LeadOfPrefix(outcomes: seq<bool>, n: nat)
    requires n <= |outcomes|
    ensures Lead(outcomes[..n]) == Min(n, Lead(outcomes))
  {
    if n > 0 && !outcomes[0] {
      LeadOfPrefix(outcomes[1..], n - 1);
      assert outcomes[..n][1..] == outcomes[1..][..n - 1];
    }
  }

  /** With no failures before the first success, or enough of them to be reported, every report is honest. */
  lemma LeadMakesHonest(outcomes: seq<bool>, maxFailed: nat)
    requires 1 <= maxFailed <= U32_MAX
    requires Lead(outcomes) == 0 || Lead(outcomes) >= maxFailed
    ensures Honest(outcomes, maxFailed)
  {
    forall n | 0 <= n < |outcomes| && ReportAt(outcomes, maxFailed, n) == Some(false)
      ensures Streak(outcomes[..n + 1]) >= maxFailed
    {
      UnhealthyIsExact(outcomes, maxFailed, n);
      CounterIsStreak(outcomes[..n], maxFailed);
      LeadOfPrefix(outcomes, n);
    }
  }

  /** The counterexample: one more failure than was needed to complete the carried count. */
  lemma LeadMakesDishonest(lead: nat, maxFailed: nat)
    requires 0 < lead < maxFailed <= U32_MAX
    ensures !Honest(Failing(lead) + [true] + Failing(maxFailed - lead), maxFailed)
  {
    var start := Failing(lead) + [true];
    var n := lead + (maxFailed - lead);
    var all := start + Failing(maxFailed - lead);
    var k := maxFailed - lead - 1;
    assert all[..n + 1] == all;
    assert all[..n] == start + Failing(k);
    StreakOfFailing(start, maxFailed - lead);
    StreakOfFailing(start, k);
    LeadOfStart(lead, Failing(k));
    OneSuccess(lead);
    CounterIsStreak(all[..n], maxFailed);
    UnhealthyIsExact(all, maxFailed, n);
  }

  lemma OneSuccess(lead: nat)
    ensures Successes(Failing(lead) + [true]) == 1
  {
    var start := Failing(lead) + [true];
    assert start[..lead] == Failing(lead);
    StreakOfFailing([], lead);
    assert [] + Failing(lead) == Failing(lead);
  }

  /**
   After `lead` failures and then a first success, every unhealthy report to come is honest, whatever
   happens next, if and only if there were no such failures or enough of them to have been reported.
   */
  lemma HonestyIsExact(lead: nat, maxFailed: nat)
    requires 1 <= maxFailed <= U32_MAX
    ensures (forall rest :: Honest(Failing(lead) + [true] + rest, maxFailed)) <==> lead == 0 || lead >= maxFailed
  {
    if lead == 0 || lead >= maxFailed {
      forall rest
        ensures Honest(Failing(lead) + [true] + rest, maxFailed)
      {
        LeadOfStart(lead, rest);
        LeadMakesHonest(Failing(lead) + [true] + rest, maxFailed);
      }
    } else {
      LeadMakesDishonest(lead, maxFailed);
    }
  }
}
