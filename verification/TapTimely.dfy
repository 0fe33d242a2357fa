/**
 Request bodies that were there in time: in a conversation, a request whose bytes had all been shown
 before its response was over is recorded with its whole body.
 */
module TapTimely {
  import opened Basics
  import opened Capture
  import opened Heads
  import opened HttpTap
  import opened TapHistory
  import opened TapPairing
  import opened TapStreams
  import opened TapBytes
  import opened TapBodies
  import opened TapConversations

  // ── lengths ──────────────────────────────────────────────────────────────

  lemma {:induction false} WireSplit<H>(ms: seq<Sent<H>>, n: nat)
    requires n <= |ms|
    ensures WireOf(ms) == WireOf(ms[..n]) + WireOf(ms[n..])
    decreases n
  {
    if n == 0 {
      assert ms[..0] == [] && ms[0..] == ms;
    } else {
      WireSplit(ms[1..], n - 1);
      assert ms[..n][1..] == ms[1..][..n - 1] && ms[1..][n - 1..] == ms[n..];
    }
  }

  lemma WireShrinks<H>(ms: seq<Sent<H>>, a: nat, b: nat)
    requires a <= b <= |ms|
    ensures |WireOf(ms[..a])| <= |WireOf(ms[..b])| && |WireOf(ms[b..])| <= |WireOf(ms[a..])|
  {
    WireSplit(ms[..b], a);
    WireSplit(ms[a..], b - a);
    assert ms[..b][..a] == ms[..a] && ms[a..][b - a..] == ms[b..];
  }

  lemma {:induction false} ShownSplit(inputs: seq<Input>, side: Side, n: nat)
    requires n <= |inputs|
    ensures Shown(inputs, side) == Shown(inputs[..n], side) + Shown(inputs[n..], side)
    decreases n
  {
    if n == 0 {
      assert inputs[..0] == [] && inputs[0..] == inputs;
    } else {
      ShownSplit(inputs[1..], side, n - 1);
      assert inputs[..n][0] == inputs[0];
      assert inputs[..n][1..] == inputs[1..][..n - 1] && inputs[1..][n - 1..] == inputs[n..];
    }
  }

  // ── what has arrived by now ──────────────────────────────────────────────

  lemma ArrivedByHead(d: Dir, requests: seq<Opened>, asked: seq<Sent<RequestHead>>, future: seq<Byte>, k: nat)
    requires d.mode == Head && Settled(d) && RequestsFollow(d, requests, asked, future)
    requires |requests| < |asked| ==> CleanHead(asked[|requests|].head)
    requires k < |asked| && |future| <= |WireOf(asked[k + 1..])|
    ensures k < |requests| && Arrived(requests[k], asked[k])
  {
    var n := |requests|;
    if n <= k {
      HeadIsToCome(d.buffer, asked, n, future);
      WireShrinks(asked, n + 1, k + 1);
    }
  }

  lemma ArrivedByBody(d: Dir, requests: seq<Opened>, asked: seq<Sent<RequestHead>>, future: seq<Byte>, k: nat)
    requires d.mode.InBody? && Settled(d) && RequestsFollow(d, requests, asked, future)
    requires var o, m := requests[|requests| - 1], asked[|requests| - 1];
             && FramedByHead(o) && o.body.Reached(d.mode.framing)
             && Span(RequestFraming(m.parsed.headers), m.raw, m.data).Whole()
    requires k < |asked| && |future| <= |WireOf(asked[k + 1..])|
    ensures k < |requests| - 1 && Arrived(requests[k], asked[k])
  {
    var n := |requests|;
    if n - 1 <= k {
      BodyIsToCome(d.mode.framing, requests[n - 1], asked[n - 1], WireOf(asked[n..]), future);
      WireShrinks(asked, n, k + 1);
    }
  }

  /** When what is still to come begins after request `k`, that request has arrived and is over. */
  lemma RequestArrived(P: Parsers, s: Tap, h: History, asked: seq<Sent<RequestHead>>, future: seq<Byte>, k: nat)
    requires |h.requests| < |asked| ==> WellSent(P, asked[|h.requests|])
    requires 0 < |h.requests| <= |asked| ==> WellSent(P, asked[|h.requests| - 1])
    requires RequestsSpanned(s, h) && Settled(s.request)
    requires RequestsFollow(s.request, h.requests, asked, future)
    requires k < |asked| && |future| <= |WireOf(asked[k + 1..])|
    ensures Over(s, h, k) && Arrived(h.requests[k], asked[k])
  {
    if s.request.mode == Head {
      ArrivedByHead(s.request, h.requests, asked, future, k);
    } else {
      assert FramedByHead(h.requests[|h.requests| - 1]);
      ArrivedByBody(s.request, h.requests, asked, future, k);
    }
  }

  lemma HeadIsToCome(buffer: seq<Byte>, asked: seq<Sent<RequestHead>>, n: nat, future: seq<Byte>)
    requires n < |asked| && CleanHead(asked[n].head) && Conclude(buffer) == Wait
    requires buffer + future == WireOf(asked[n..])
    ensures |future| > |WireOf(asked[n + 1..])|
  {
    WireNext(asked, n);
    CleanBuffer(asked[n].head, asked[n].raw + WireOf(asked[n + 1..]), buffer, future);
  }

  lemma BodyIsToCome(f: LiveFraming, o: Opened, m: Sent<RequestHead>, rest: seq<Byte>, future: seq<Byte>)
    requires FramedByHead(o) && o.body.Reached(f) && o.head == m.parsed
    requires Span(RequestFraming(m.parsed.headers), m.raw, m.data).Whole()
    requires o.body.raw + [] + future == m.raw + rest
    ensures |future| > |rest|
  {
    RequestFramingEnds(o.head.headers);
    if |future| <= |rest| {
      var more := o.body.raw[|m.raw|..];
      assert o.body.raw + [] == o.body.raw;
      assert o.body.raw == (m.raw + rest)[..|o.body.raw|];
      assert o.body.raw == m.raw + more;
      BodyIsNotOver(o.body.framing.value, o.body, f, m.raw, m.data, more);
    }
  }

  lemma {:induction false} FinalsShrink(replied: seq<Sent<ResponseHead>>, a: nat, b: nat)
    requires a <= b <= |replied|
    ensures |Finals(replied[..a])| <= |Finals(replied[..b])|
    decreases b
  {
    if a < b {
      FinalsNext(replied, b - 1);
      FinalsShrink(replied, a, b - 1);
    }
  }

  /** While some of a response is still to come, it has not been recorded. */
  lemma NotYetRecorded(s: Tap, h: History, replied: seq<Sent<ResponseHead>>, i: nat, future: seq<Byte>, r: nat)
    requires Answered(s, h) && ResponsesFollow(s.response, h.answers, replied, i, future)
    requires s.response.mode.InBody? ==> s.current.Some?
    requires r < |replied| && |future| > |WireOf(replied[r + 1..])|
    ensures |s.records| <= |Finals(replied[..r])|
  {
    if i <= r {
      FinalsShrink(replied, i, r);
    } else {
      if s.response.mode == Head {
        WireShrinks(replied, r + 1, i);
      } else if i > r + 1 {
        WireNext(replied, i - 1);
        WireShrinks(replied, r + 1, i - 1);
      } else {
        FinalsNext(replied, r);
      }
    }
  }

  lemma FinalIsThere(replied: seq<Sent<ResponseHead>>, r: nat)
    requires r < |replied| && !Interim(replied[r].parsed.status)
    ensures var k := |Finals(replied[..r])|; k < |Finals(replied)| && Finals(replied)[k] == replied[r]
  {
    FinalsNext(replied, r);
    FinalsPrefix(replied, r + 1, |replied|);
    FinalsOfAll(replied);
  }

  lemma {:induction false} FinalsPrefix(replied: seq<Sent<ResponseHead>>, a: nat, b: nat)
    requires a <= b <= |replied|
    ensures Finals(replied[..a]) <= Finals(replied[..b])
    decreases b
  {
    if a < b {
      FinalsNext(replied, b - 1);
      FinalsPrefix(replied, a, b - 1);
    }
  }

  lemma OverInTime(P: Parsers, inputs: seq<Input>, asked: seq<Sent<RequestHead>>, replied: seq<Sent<ResponseHead>>,
                   n: nat, r: nat)
    requires WellConversed(P, asked, replied) && NoClose(inputs)
    requires Shown(inputs, Request) == WireOf(asked) && Shown(inputs, Response) == WireOf(replied)
    requires Smooth(RunHistory(P, NEW, NOTHING, inputs))
    requires n <= |inputs| && r < |replied|
    requires var k := |Finals(replied[..r])|;
             && k < |asked|
             && |WireOf(asked[..k + 1])| <= |Shown(inputs[..n], Request)|
             && |Shown(inputs[..n], Response)| < |WireOf(replied[..r + 1])|
    ensures var s, h := Run(P, NEW, inputs[..n]), RunHistory(P, NEW, NOTHING, inputs[..n]);
            var k := |Finals(replied[..r])|;
            && Kept(s, h) && Over(s, h, k) && Arrived(h.requests[k], asked[k]) && |s.records| <= k
  {
    var k := |Finals(replied[..r])|;
    var s, h := Run(P, NEW, inputs[..n]), RunHistory(P, NEW, NOTHING, inputs[..n]);
    var toAsk, toReply := Shown(inputs[n..], Request), Shown(inputs[n..], Response);
    var i := ConversesUpTo(P, inputs, n, asked, replied);
    assert |toAsk| <= |WireOf(asked[k + 1..])| by {
      ShownSplit(inputs, Request, n);
      WireSplit(asked, k + 1);
    }
    assert |toReply| > |WireOf(replied[r + 1..])| by {
      ShownSplit(inputs, Response, n);
      WireSplit(replied, r + 1);
    }
    assert |h.requests| < |asked| ==> WellSent(P, asked[|h.requests|]);
    assert 0 < |h.requests| <= |asked| ==> WellSent(P, asked[|h.requests| - 1]);
    RequestArrived(P, s, h, asked, toAsk, k);
    NotYetRecorded(s, h, replied, i, toReply, r);
  }

  /** A request that was over in time has its whole body in its record. */
  lemma LaterCatches(P: Parsers, inputs: seq<Input>, n: nat, k: nat)
    requires n <= |inputs| && Smooth(RunHistory(P, NEW, NOTHING, inputs))
    requires var s, h := Run(P, NEW, inputs[..n]), RunHistory(P, NEW, NOTHING, inputs[..n]);
             Kept(s, h) && Over(s, h, k) && |s.records| <= k
    requires k < |Run(P, NEW, inputs + [Closed]).records|
    ensures var h, g := RunHistory(P, NEW, NOTHING, inputs[..n]), RunHistory(P, NEW, NOTHING, inputs + [Closed]);
            k < |g.caught| && g.caught[k] == |h.requests[k].body.data|
  {
    var all := inputs + [Closed];
    var s, h := Run(P, NEW, inputs[..n]), RunHistory(P, NEW, NOTHING, inputs[..n]);
    var t, g := Run(P, NEW, all), RunHistory(P, NEW, NOTHING, all);
    StartKept();
    RunKept(P, NEW, NOTHING, all);
    RunClosed(P, inputs);
    assert g.orphans == 0 && g.dropped == 0;
    assert all[..n] == inputs[..n];
    RunSplit(P, NEW, NOTHING, all, n);
    OverIsCaughtWhole(P, s, h, all[n..], k, k);
  }

  // ── the main result ──────────────────────────────────────────────────────

  /**
   Request bodies are recorded whole when they were there in time: if at some moment all of the k-th
   request had been shown, and not yet all of the k-th final response, then the k-th exchange recorded is
   exactly that request and that response. Ordinary keep-alive connections meet this for every request.
   */
  lemma RequestsReadInTimeAreWhole(P: Parsers, inputs: seq<Input>, asked: seq<Sent<RequestHead>>,
                                   replied: seq<Sent<ResponseHead>>, n: nat, r: nat)
    requires WellConversed(P, asked, replied) && NoClose(inputs)
    requires Shown(inputs, Request) == WireOf(asked) && Shown(inputs, Response) == WireOf(replied)
    requires Smooth(RunHistory(P, NEW, NOTHING, inputs))
    requires n <= |inputs| && r < |replied| && !Interim(replied[r].parsed.status)
    requires var k := |Finals(replied[..r])|;
             && k < |asked|
             && |WireOf(asked[..k + 1])| <= |Shown(inputs[..n], Request)|
             && |Shown(inputs[..n], Response)| < |WireOf(replied[..r + 1])|
    ensures var t, k := Run(P, NEW, inputs + [Closed]), |Finals(replied[..r])|;
            && k < |t.records|
            && t.records[k] == Exchange(Asked(asked[k]), PendingResponse(replied[r].parsed, Captured(replied[r].data)))
  {
    var k := |Finals(replied[..r])|;
    var s, h := Run(P, NEW, inputs[..n]), RunHistory(P, NEW, NOTHING, inputs[..n]);
    var t, g := Run(P, NEW, inputs + [Closed]), RunHistory(P, NEW, NOTHING, inputs + [Closed]);
    ConversationRoundTrip(P, inputs, asked, replied);
    FinalIsThere(replied, r);
    OverInTime(P, inputs, asked, replied, n, r);
    LaterCatches(P, inputs, n, k);
    assert Exchanged(t.records[k], asked[k], g.caught[k], Finals(replied)[k]);
    assert asked[k].data[..|asked[k].data|] == asked[k].data;
  }
}
