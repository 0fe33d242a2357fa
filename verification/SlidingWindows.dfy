/**
 The two sliding-window limiters: failed credentials per address, and requests per address. Each
 keeps, per address, a deque of times that it prunes from the front, and sweeps idle addresses.
 */
module SlidingWindows {
  type Ip = nat
  type Times = seq<real>
  type Deques = map<Ip, Times>

  /** The number of tracked addresses beyond which a recorded failure triggers a sweep. */
  const SWEEP_THRESHOLD := 10_000

  // ── deques ───────────────────────────────────────────────────────────────

  /** Drop times before `cutoff` from the front, and only from the front. */
  function Pruned(times: Times, cutoff: real): Times {
    if times != [] && times[0] < cutoff then Pruned(times[1..], cutoff) else times
  }

  method Prune(times: Times, cutoff: real) returns (kept: Times)
    ensures kept == Pruned(times, cutoff)
  {
    kept := times;
    while kept != [] && kept[0] < cutoff
      invariant Pruned(kept, cutoff) == Pruned(times, cutoff)
    {
      kept := kept[1..];
    }
  }

  function DequeOf(fs: Deques, ip: Ip): Times {
    if ip in fs then fs[ip] else []
  }

  /** The sweep: keep the addresses whose last time is not before `cutoff`. */
  function Swept(fs: Deques, cutoff: real): Deques {
    map ip | ip in fs && fs[ip] != [] && fs[ip][|fs[ip]| - 1] >= cutoff :: fs[ip]
  }

  method Sweep(fs: Deques, cutoff: real) returns (kept: Deques)
    ensures kept == Swept(fs, cutoff)
  {
    kept := map[];
    var left := fs.Keys;
    while left != {}
      invariant left <= fs.Keys
      invariant forall i :: i in kept <==> i in fs && i !in left && i in Swept(fs, cutoff)
      invariant forall i :: i in kept ==> kept[i] == fs[i]
    {
      var ip :| ip in left;
      var times := fs[ip];
      if times != [] && times[|times| - 1] >= cutoff {
        kept := kept[ip := times];
      }
      left := left - {ip};
    }
  }

  /** How many of the times lie in the closed window [from, to]: the simple form of both limiters. */
  function Count(times: Times, from: real, to: real): nat {
    if times == [] then 0
    else (if from <= times[0] <= to then 1 else 0) + Count(times[1..], from, to)
  }

  predicate Sorted(times: Times, now: real) {
    times != [] ==>
      times[0] <= now && (|times| > 1 ==> times[0] <= times[1]) && Sorted(times[1..], now)
  }

  lemma {:induction false} SortedLater(times: Times, now: real, later: real)
    requires Sorted(times, now) && now <= later
    ensures Sorted(times, later)
  {
    if times != [] {
      SortedLater(times[1..], now, later);
    }
  }

  lemma {:induction false} SortedPush(times: Times, now: real)
    requires Sorted(times, now)
    ensures Sorted(times + [now], now)
  {
    if times == [] {
      assert times + [now] == [now];
    } else {
      assert (times + [now])[1..] == times[1..] + [now];
      SortedPush(times[1..], now);
    }
  }

  lemma {:induction false} PrunedTwice(times: Times, first: real, cutoff: real)
    requires first <= cutoff
    ensures Pruned(Pruned(times, first), cutoff) == Pruned(times, cutoff)
    decreases |times|
  {
    if times != [] && times[0] < first {
      PrunedTwice(times[1..], first, cutoff);
    }
  }

  lemma {:induction false} PrunedPush(times: Times, now: real, cutoff: real)
    requires cutoff <= now
    ensures Pruned(times + [now], cutoff) == Pruned(times, cutoff) + [now]
    decreases |times|
  {
    if times == [] {
      assert times + [now] == [now];
    } else if times[0] < cutoff {
      assert (times + [now])[1..] == times[1..] + [now];
      PrunedPush(times[1..], now, cutoff);
    }
  }

  lemma {:induction false} PrunedSorted(times: Times, cutoff: real, now: real)
    requires Sorted(times, now)
    ensures Sorted(Pruned(times, cutoff), now)
    decreases |times|
  {
    if times != [] && times[0] < cutoff {
      PrunedSorted(times[1..], cutoff, now);
    }
  }

  lemma {:induction false} PrunedAway(times: Times, cutoff: real, now: real)
    requires Sorted(times, now) && times != [] && times[|times| - 1] < cutoff
    ensures Pruned(times, cutoff) == []
  {
    if |times| > 1 {
      PrunedAway(times[1..], cutoff, now);
      assert times[1..][|times| - 2] == times[|times| - 1];
      FirstIsLeast(times, now);
    }
  }

  lemma {:induction false} FirstIsLeast(times: Times, now: real)
    requires times != [] && Sorted(times, now)
    ensures times[0] <= times[|times| - 1]
  {
    if |times| > 1 {
      FirstIsLeast(times[1..], now);
    }
  }

  lemma {:induction false} AllCounted(times: Times, from: real, to: real)
    requires Sorted(times, to) && (times != [] ==> from <= times[0])
    ensures Count(times, from, to) == |times|
  {
    if times != [] {
      AllCounted(times[1..], from, to);
    }
  }

  /** Pruning a sorted deque leaves as many times as the window holds. */
  lemma {:induction false} PrunedCounts(times: Times, cutoff: real, now: real)
    requires Sorted(times, now)
    ensures |Pruned(times, cutoff)| == Count(times, cutoff, now)
    decreases |times|
  {
    if times != [] {
      if times[0] < cutoff {
        PrunedCounts(times[1..], cutoff, now);
      } else {
        AllCounted(times, cutoff, now);
      }
    }
  }

  // ── a deque stands for a whole history ───────────────────────────────────

  /** Within the current window the deque and the history hold the same times. */
  predicate Tracks(times: Times, history: Times, now: real, window: real) {
    && Sorted(times, now) && Sorted(history, now)
    && Pruned(times, now - window) == Pruned(history, now - window)
  }

  lemma TracksLater(times: Times, history: Times, now: real, later: real, window: real)
    requires Tracks(times, history, now, window) && now <= later
    ensures Tracks(times, history, later, window)
  {
    PrunedTwice(times, now - window, later - window);
    PrunedTwice(history, now - window, later - window);
    SortedLater(times, now, later);
    SortedLater(history, now, later);
  }

  lemma TracksPruned(times: Times, history: Times, now: real, window: real)
    requires Tracks(times, history, now, window)
    ensures Tracks(Pruned(times, now - window), history, now, window)
  {
    PrunedTwice(times, now - window, now - window);
    PrunedSorted(times, now - window, now);
  }

  lemma TracksPush(times: Times, history: Times, now: real, window: real)
    requires Tracks(times, history, now, window) && window >= 0.0
    ensures Tracks(times + [now], history + [now], now, window)
  {
    PrunedPush(times, now, now - window);
    PrunedPush(history, now, now - window);
    SortedPush(times, now);
    SortedPush(history, now);
  }

  /** A deque that a sweep drops stands for nothing that is still in the window. */
  lemma TracksSwept(fs: Deques, ip: Ip, history: Times, now: real, window: real)
    requires Tracks(DequeOf(fs, ip), history, now, window)
    ensures Tracks(DequeOf(Swept(fs, now - window), ip), history, now, window)
  {
    if ip in fs && ip !in Swept(fs, now - window) {
      if fs[ip] != [] {
        PrunedAway(fs[ip], now - window, now);
      }
    }
  }

  lemma TracksCount(times: Times, history: Times, now: real, window: real)
    requires Tracks(times, history, now, window)
    ensures |Pruned(times, now - window)| == Count(history, now - window, now)
  {
    PrunedCounts(history, now - window, now);
  }

  // ── failed credentials ───────────────────────────────────────────────────

  /** A call to the failure limiter; `sweptAt` is the clock of the sweep that a failure may trigger. */
  datatype Use =
    | Peek(ip: Ip, at: real)
    | Failure(ip: Ip, at: real, sweptAt: real)
    | Idle(at: real)
  {
    function Done(): real {
      if Failure? then sweptAt else at
    }
  }

  function AfterUse(fs: Deques, use: Use, window: real, maxFailures: nat): Deques {
    match use
    case Peek(ip, now) =>
      if maxFailures > 0 && ip in fs then fs[ip := Pruned(fs[ip], now - window)] else fs
    case Failure(ip, now, sweptAt) =>
      if maxFailures == 0 then fs else
        var gs := fs[ip := Pruned(DequeOf(fs, ip), now - window) + [now]];
        if |gs| > SWEEP_THRESHOLD then Swept(gs, sweptAt - window) else gs
    case Idle(now) => Swept(fs, now - window)
  }

  predicate Limited(fs: Deques, ip: Ip, now: real, window: real, maxFailures: nat) {
    maxFailures > 0 && ip in fs && |Pruned(fs[ip], now - window)| >= maxFailures
  }

  class AuthFailureLimiter {
    var failures: Deques
    const window: real
    const maxFailures: nat

    constructor (maxFailures: nat, window: real)
      ensures failures == map[] && this.window == window && this.maxFailures == maxFailures
    {
      failures := map[];
      this.window := window;
      this.maxFailures := maxFailures;
    }

    method IsLimited(ip: Ip, now: real) returns (limited: bool)
      modifies this
      ensures limited == Limited(old(failures), ip, now, window, maxFailures)
      ensures failures == AfterUse(old(failures), Peek(ip, now), window, maxFailures)
    {
      if maxFailures == 0 {
        return false;
      }
      if ip !in failures {
        return false;
      }
      var times := Prune(failures[ip], now - window);
      failures := failures[ip := times];
      return |times| >= maxFailures;
    }

    method RecordFailure(ip: Ip, now: real, sweptAt: real)
      modifies this
      ensures failures == AfterUse(old(failures), Failure(ip, now, sweptAt), window, maxFailures)
    {
      if maxFailures == 0 {
        return;
      }
      var times := Prune(if ip in failures then failures[ip] else [], now - window);
      failures := failures[ip := times + [now]];
      if |failures| > SWEEP_THRESHOLD {
        EvictIdle(sweptAt);
      }
    }

    method EvictIdle(now: real)
      modifies this
      ensures failures == AfterUse(old(failures), Idle(now), window, maxFailures)
    {
      failures := Sweep(failures, now - window);
    }
  }

  /** Clocks do not run backwards, within a call or from one call to the next. */
  predicate UsedInOrder(uses: seq<Use>, now: real) {
    uses != [] ==>
      var last := uses[|uses| - 1];
      last.at <= last.Done() <= now && UsedInOrder(uses[..|uses| - 1], last.at)
  }

  function AfterUses(uses: seq<Use>, window: real, maxFailures: nat): Deques {
    if uses == [] then map[]
    else AfterUse(AfterUses(uses[..|uses| - 1], window, maxFailures), uses[|uses| - 1], window, maxFailures)
  }

  /** Every failure of the address ever reported, in order. */
  function Failures(uses: seq<Use>, ip: Ip): Times {
    if uses == [] then []
    else
      var last := uses[|uses| - 1];
      Failures(uses[..|uses| - 1], ip) + if last.Failure? && last.ip == ip then [last.at] else []
  }

  lemma PushTracks(fs: Deques, i: Ip, now: real, ip: Ip, history: Times, window: real)
    requires window >= 0.0 && Tracks(DequeOf(fs, ip), history, now, window)
    ensures Tracks(DequeOf(fs[i := Pruned(DequeOf(fs, i), now - window) + [now]], ip),
                   if i == ip then history + [now] else history, now, window)
  {
    if i == ip {
      TracksPruned(DequeOf(fs, ip), history, now, window);
      TracksPush(Pruned(DequeOf(fs, ip), now - window), history, now, window);
    }
  }

  lemma SweepTracks(fs: Deques, ip: Ip, history: Times, now: real, sweptAt: real, window: real)
    requires Tracks(DequeOf(fs, ip), history, now, window) && now <= sweptAt
    ensures Tracks(DequeOf(fs, ip), history, sweptAt, window)
    ensures Tracks(DequeOf(Swept(fs, sweptAt - window), ip), history, sweptAt, window)
  {
    TracksLater(DequeOf(fs, ip), history, now, sweptAt, window);
    TracksSwept(fs, ip, history, sweptAt, window);
  }

  lemma PeekTracks(fs: Deques, i: Ip, now: real, ip: Ip, history: Times, window: real)
    requires i in fs && Tracks(DequeOf(fs, ip), history, now, window)
    ensures Tracks(DequeOf(fs[i := Pruned(fs[i], now - window)], ip), history, now, window)
  {
    TracksPruned(DequeOf(fs, ip), history, now, window);
  }

  lemma FailureTracks(fs: Deques, use: Use, ip: Ip, history: Times, window: real, maxFailures: nat)
    requires maxFailures > 0 && window >= 0.0 && use.Failure? && use.at <= use.sweptAt
    requires Tracks(DequeOf(fs, ip), history, use.at, window)
    ensures Tracks(DequeOf(AfterUse(fs, use, window, maxFailures), ip),
                   if use.ip == ip then history + [use.at] else history, use.sweptAt, window)
  {
    var times := Pruned(DequeOf(fs, use.ip), use.at - window) + [use.at];
    var longer := if use.ip == ip then history + [use.at] else history;
    PushTracks(fs, use.ip, use.at, ip, history, window);
    SweepTracks(fs[use.ip := times], ip, longer, use.at, use.sweptAt, window);
  }

  lemma UseTracks(fs: Deques, use: Use, ip: Ip, history: Times, window: real, maxFailures: nat)
    requires maxFailures > 0 && window >= 0.0 && use.at <= use.Done()
    requires Tracks(DequeOf(fs, ip), history, use.at, window)
    ensures Tracks(DequeOf(AfterUse(fs, use, window, maxFailures), ip),
                   if use.Failure? && use.ip == ip then history + [use.at] else history, use.Done(), window)
  {
    match use
    case Peek(i, now) =>
      if i in fs {
        PeekTracks(fs, i, now, ip, history, window);
      }
    case Failure(_, _, _) =>
      FailureTracks(fs, use, ip, history, window, maxFailures);
    case Idle(now) =>
      TracksSwept(fs, ip, history, now, window);
  }

  lemma {:induction false} UsesTrack(uses: seq<Use>, ip: Ip, now: real, window: real, maxFailures: nat)
    requires maxFailures > 0 && window >= 0.0 && UsedInOrder(uses, now)
    ensures Tracks(DequeOf(AfterUses(uses, window, maxFailures), ip), Failures(uses, ip), now, window)
    decreases |uses|
  {
    if uses != [] {
      var n := |uses| - 1;
      var use, before := uses[n], uses[..n];
      UsesTrack(before, ip, use.at, window, maxFailures);
      UseTracks(AfterUses(before, window, maxFailures), use, ip, Failures(before, ip), window, maxFailures);
      var fs := AfterUses(uses, window, maxFailures);
      assert Failures(uses, ip)
          == if use.Failure? && use.ip == ip then Failures(before, ip) + [use.at] else Failures(before, ip);
      TracksLater(DequeOf(fs, ip), Failures(uses, ip), use.Done(), now, window);
    }
  }

  /**
   After any mix of peeks, failures and sweeps, an address is limited exactly when the budget is not
   zero and at least that many of its failures lie in the closed window that ends now.
   */
  lemma LimitIsExact(uses: seq<Use>, ip: Ip, now: real, window: real, maxFailures: nat)
    requires window >= 0.0 && UsedInOrder(uses, now)
    ensures Limited(AfterUses(uses, window, maxFailures), ip, now, window, maxFailures)
        <==> maxFailures > 0 && Count(Failures(uses, ip), now - window, now) >= maxFailures
  {
    if maxFailures > 0 {
      UsesTrack(uses, ip, now, window, maxFailures);
      TracksCount(DequeOf(AfterUses(uses, window, maxFailures), ip), Failures(uses, ip), now, window);
    }
  }

  /** After a sweep the tracked addresses are exactly those with a failure in the window. */
  lemma SweepIsExact(uses: seq<Use>, ip: Ip, now: real, window: real, maxFailures: nat)
    requires maxFailures > 0 && window >= 0.0 && UsedInOrder(uses, now)
    ensures ip in AfterUse(AfterUses(uses, window, maxFailures), Idle(now), window, maxFailures) <==>
            Count(Failures(uses, ip), now - window, now) > 0
  {
    var fs := AfterUses(uses, window, maxFailures);
    UsesTrack(uses, ip, now, window, maxFailures);
    TracksCount(DequeOf(fs, ip), Failures(uses, ip), now, window);
    LastIsKept(DequeOf(fs, ip), now - window, now);
  }

  /** Pruning leaves something exactly when the last time is not before the cutoff. */
  lemma {:induction false} LastIsKept(times: Times, cutoff: real, now: real)
    requires Sorted(times, now)
    ensures Pruned(times, cutoff) != [] <==> times != [] && times[|times| - 1] >= cutoff
    decreases |times|
  {
    if |times| > 1 {
      LastIsKept(times[1..], cutoff, now);
      FirstIsLeast(times, now);
    }
  }

  // ── requests per address ─────────────────────────────────────────────────

  /** The request limiter's window, in seconds. */
  const WINDOW := 1.0

  datatype Ask = Check(ip: Ip, at: real) | Evict(at: real)

  predicate Admits(fs: Deques, ip: Ip, now: real, maxPerWindow: nat) {
    maxPerWindow == 0 || |Pruned(DequeOf(fs, ip), now - WINDOW)| < maxPerWindow
  }

  function AfterAsk(fs: Deques, ask: Ask, maxPerWindow: nat): Deques {
    match ask
    case Check(ip, now) =>
      if maxPerWindow == 0 then fs else
        var times := Pruned(DequeOf(fs, ip), now - WINDOW);
        fs[ip := if |times| >= maxPerWindow then times else times + [now]]
    case Evict(now) => Swept(fs, now - WINDOW)
  }

  class IpRateLimiter {
    var windows: Deques
    const maxPerWindow: nat

    constructor (maxPerSecond: nat)
      ensures windows == map[] && maxPerWindow == maxPerSecond
    {
      windows := map[];
      maxPerWindow := maxPerSecond;
    }

    method Check(ip: Ip, now: real) returns (allowed: bool)
      modifies this
      ensures allowed == Admits(old(windows), ip, now, maxPerWindow)
      ensures windows == AfterAsk(old(windows), Ask.Check(ip, now), maxPerWindow)
    {
      if maxPerWindow == 0 {
        return true;
      }
      var times := Prune(if ip in windows then windows[ip] else [], now - WINDOW);
      windows := windows[ip := times];
      if |times| >= maxPerWindow {
        return false;
      }
      windows := windows[ip := times + [now]];
      assert windows == old(windows)[ip := times + [now]];
      return true;
    }

    method EvictIdle(now: real)
      modifies this
      ensures windows == AfterAsk(old(windows), Evict(now), maxPerWindow)
    {
      windows := Sweep(windows, now - WINDOW);
    }
  }

  predicate AskedInOrder(asks: seq<Ask>, now: real) {
    asks != [] ==> asks[|asks| - 1].at <= now && AskedInOrder(asks[..|asks| - 1], asks[|asks| - 1].at)
  }

  function AfterAsks(asks: seq<Ask>, maxPerWindow: nat): Deques {
    if asks == [] then map[]
    else AfterAsk(AfterAsks(asks[..|asks| - 1], maxPerWindow), asks[|asks| - 1], maxPerWindow)
  }

  predicate LastAdmitted(asks: seq<Ask>, ip: Ip, maxPerWindow: nat)
    requires asks != []
  {
    var last := asks[|asks| - 1];
    last.Check? && last.ip == ip && Admits(AfterAsks(asks[..|asks| - 1], maxPerWindow), ip, last.at, maxPerWindow)
  }

  /** The times at which the address was admitted. */
  function Admitted(asks: seq<Ask>, ip: Ip, maxPerWindow: nat): Times {
    if asks == [] then []
    else
      Admitted(asks[..|asks| - 1], ip, maxPerWindow)
      + if LastAdmitted(asks, ip, maxPerWindow) then [asks[|asks| - 1].at] else []
  }

  lemma AskTracks(fs: Deques, ask: Ask, ip: Ip, history: Times, maxPerWindow: nat)
    requires maxPerWindow > 0
    requires Tracks(DequeOf(fs, ip), history, ask.at, WINDOW)
    ensures Tracks(DequeOf(AfterAsk(fs, ask, maxPerWindow), ip),
                   if ask.Check? && ask.ip == ip && Admits(fs, ip, ask.at, maxPerWindow) then history + [ask.at]
                   else history, ask.at, WINDOW)
  {
    match ask
    case Check(i, now) =>
      if |Pruned(DequeOf(fs, i), now - WINDOW)| < maxPerWindow {
        PushTracks(fs, i, now, ip, history, WINDOW);
      } else {
        TracksPruned(DequeOf(fs, ip), history, now, WINDOW);
      }
    case Evict(now) =>
      TracksSwept(fs, ip, history, now, WINDOW);
  }

  lemma {:induction false} AsksTrack(asks: seq<Ask>, ip: Ip, now: real, maxPerWindow: nat)
    requires maxPerWindow > 0 && AskedInOrder(asks, now)
    ensures Tracks(DequeOf(AfterAsks(asks, maxPerWindow), ip), Admitted(asks, ip, maxPerWindow), now, WINDOW)
    decreases |asks|
  {
    if asks != [] {
      var n := |asks| - 1;
      var ask, before := asks[n], asks[..n];
      var history := Admitted(before, ip, maxPerWindow);
      AsksTrack(before, ip, ask.at, maxPerWindow);
      AskTracks(AfterAsks(before, maxPerWindow), ask, ip, history, maxPerWindow);
      assert Admitted(asks, ip, maxPerWindow)
          == if LastAdmitted(asks, ip, maxPerWindow) then history + [ask.at] else history;
      TracksLater(DequeOf(AfterAsks(asks, maxPerWindow), ip), Admitted(asks, ip, maxPerWindow), ask.at, now, WINDOW);
    }
  }

  /**
   A request is denied exactly when the limiter is on and the last window already holds as many
   admitted requests of the address as it may.
   */
  lemma DenialIsExact(asks: seq<Ask>, ip: Ip, now: real, maxPerWindow: nat)
    requires AskedInOrder(asks, now)
    ensures Admits(AfterAsks(asks, maxPerWindow), ip, now, maxPerWindow)
        <==> maxPerWindow == 0 || Count(Admitted(asks, ip, maxPerWindow), now - WINDOW, now) < maxPerWindow
  {
    if maxPerWindow > 0 {
      AsksTrack(asks, ip, now, maxPerWindow);
      TracksCount(DequeOf(AfterAsks(asks, maxPerWindow), ip), Admitted(asks, ip, maxPerWindow), now, WINDOW);
    }
  }

  /** After a sweep the tracked addresses are exactly those admitted within the last window. */
  lemma EvictionIsExact(asks: seq<Ask>, ip: Ip, now: real, maxPerWindow: nat)
    requires maxPerWindow > 0 && AskedInOrder(asks, now)
    ensures ip in AfterAsk(AfterAsks(asks, maxPerWindow), Evict(now), maxPerWindow) <==>
            Count(Admitted(asks, ip, maxPerWindow), now - WINDOW, now) > 0
  {
    var fs := AfterAsks(asks, maxPerWindow);
    AsksTrack(asks, ip, now, maxPerWindow);
    TracksCount(DequeOf(fs, ip), Admitted(asks, ip, maxPerWindow), now, WINDOW);
    LastIsKept(DequeOf(fs, ip), now - WINDOW, now);
  }

  lemma {:induction false} CountPush(times: Times, now: real, from: real, to: real)
    ensures Count(times + [now], from, to) == Count(times, from, to) + if from <= now <= to then 1 else 0
    decreases |times|
  {
    if times == [] {
      assert times + [now] == [now];
    } else {
      assert (times + [now])[1..] == times[1..] + [now];
      CountPush(times[1..], now, from, to);
    }
  }

  lemma {:induction false} CountWiden(times: Times, from: real, to: real, earlier: real, now: real)
    requires earlier <= from && Sorted(times, now)
    ensures Count(times, from, to) <= Count(times, earlier, now)
    decreases |times|
  {
    if times != [] {
      CountWiden(times[1..], from, to, earlier, now);
    }
  }

  /** No closed window, wherever it starts, ever holds more admitted requests than the limit. */
  lemma {:induction false} AdmissionsAreBounded(asks: seq<Ask>, ip: Ip, now: real, maxPerWindow: nat, from: real)
    requires maxPerWindow > 0 && AskedInOrder(asks, now)
    ensures Count(Admitted(asks, ip, maxPerWindow), from, from + WINDOW) <= maxPerWindow
    decreases |asks|
  {
    if asks != [] {
      var n := |asks| - 1;
      var ask, before := asks[n], asks[..n];
      var history := Admitted(before, ip, maxPerWindow);
      AdmissionsAreBounded(before, ip, ask.at, maxPerWindow, from);
      if LastAdmitted(asks, ip, maxPerWindow) {
        CountPush(history, ask.at, from, from + WINDOW);
        if from <= ask.at <= from + WINDOW {
          DenialIsExact(before, ip, ask.at, maxPerWindow);
          AsksTrack(before, ip, ask.at, maxPerWindow);
          CountWiden(history, from, from + WINDOW, ask.at - WINDOW, ask.at);
        }
      } else {
        assert Admitted(asks, ip, maxPerWindow) == history;
      }
    }
  }
}
