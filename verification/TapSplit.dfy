/**
 The tap's meaning does not depend on how one direction's bytes are cut into buffers, provided
 every head on the way is split safe (`SafeRun`), which by `SplitSafeIsExact` is the exact condition.
 */
module TapSplit {
  import opened Basics
  import opened Capture
  import opened ChunkedCoding
  import opened Heads
  import opened HttpTap

  /** Every head that the loop looks for in the whole stream is split safe. */
  predicate SafeRun(P: Parsers, side: Side, s: Tap)
    decreases |s.At(side).buffer|
  {
    && (s.At(side).mode == Head ==> SplitSafe(s.At(side).buffer))
    && var (t, more) := Step(P, side, s);
       (more ==> SafeRun(P, side, t))
  }

  // ── one turn with more bytes behind ──────────────────────────────────────

  lemma FramingSplit(f: LiveFraming, a: seq<Byte>, b: seq<Byte>)
    ensures var r := FeedFraming(f, a);
            if r.next.Unfinished() then
              var q := FeedFraming(r.next, b);
              FeedFraming(f, a + b) == Fed(q.next, r.used + q.used, r.data + q.data)
            else
              FeedFraming(f, a + b) == r
  {
    match f {
      case Length(n) =>
        if |a| < n {
          assert (a + b)[..Min(n, |a + b|)] == a + b[..Min(n - |a|, |b|)];
        } else {
          assert (a + b)[..n] == a[..n];
        }
      case UntilEof =>
      case Chunked(sc) => ScanSplit(sc, a, b);
    }
  }

  lemma DeliverSplit(side: Side, s: Tap, x: seq<Byte>, y: seq<Byte>)
    ensures Deliver(side, Deliver(side, s, x), y) == Deliver(side, s, x + y)
    ensures Deliver(side, s, []) == s
  {
    match side {
      case Request =>
        if s.pending != [] {
          var last := |s.pending| - 1;
          PushAppend(s.pending[last].body, x, y);
          assert s.pending[last := s.pending[last]] == s.pending;
        }
      case Response =>
        if s.current.Some? {
          PushAppend(s.current.value.body, x, y);
        }
    }
  }

  lemma HeadStepExtends(P: Parsers, side: Side, s: Tap, b: seq<Byte>)
    requires s.At(side).mode == Head
    requires SplitSafe(s.At(side).buffer + b)
    ensures var (t, more) := Step(P, side, s);
            if more then Step(P, side, s.Extend(side, b)) == (t.Extend(side, b), true)
            else t == s || (t.At(side) == OPAQUE && Step(P, side, s.Extend(side, b)) == (t, false))
  {
    var buf := s.At(side).buffer;
    assert (buf + b)[..|buf|] == buf;
    PrefixAgrees(buf + b, |buf|);
    match Conclude(buf) {
      case Wait =>
      case TooLong =>
      case Found(end) =>
        assert (buf + b)[..end] == buf[..end];
        assert (buf + b)[end..] == buf[end..] + b;
        OnHeadExtends(P, side, s.With(side, Dir(Head, buf[end..])), buf[..end], b);
    }
  }

  lemma OnHeadExtends(P: Parsers, side: Side, s: Tap, head: seq<Byte>, b: seq<Byte>)
    ensures var (t, more) := OnHead(P, side, s, head);
            if more then OnHead(P, side, s.Extend(side, b), head) == (t.Extend(side, b), true)
            else t.At(side) == OPAQUE && OnHead(P, side, s.Extend(side, b), head) == (t, false)
  {
  }

  lemma BodyStepExtends(P: Parsers, side: Side, s: Tap, b: seq<Byte>)
    requires s.At(side).mode.InBody?
    ensures var (t, more) := Step(P, side, s);
            if more then Step(P, side, s.Extend(side, b)) == (t.Extend(side, b), true)
            else t.At(side).mode.InBody? && Step(P, side, t.Extend(side, b)) == Step(P, side, s.Extend(side, b))
  {
    var f, buf := s.At(side).mode.framing, s.At(side).buffer;
    if buf == [] {
      return;
    }
    var r := FeedFraming(f, buf);
    FramingSplit(f, buf, b);
    assert (buf + b)[r.used..] == buf[r.used..] + b;
    if r.next.Unfinished() {
      BodyStepResumes(P, side, s, b);
    }
  }

  lemma BodyStepResumes(P: Parsers, side: Side, s: Tap, b: seq<Byte>)
    requires s.At(side).mode.InBody? && s.At(side).buffer != []
    requires FeedFraming(s.At(side).mode.framing, s.At(side).buffer).next.Unfinished()
    ensures var (t, more) := Step(P, side, s);
            !more && t.At(side).mode.InBody? && Step(P, side, t.Extend(side, b)) == Step(P, side, s.Extend(side, b))
  {
    var buf := s.At(side).buffer;
    var r := FeedFraming(s.At(side).mode.framing, buf);
    assert buf[r.used..] == [];
    BodyStepPauses(P, side, s);
    var t := Deliver(side, s, r.data).With(side, Dir(InBody(r.next), []));
    assert [] + b == b;
    if b == [] {
      assert buf + b == buf && s.Extend(side, b) == s && t.Extend(side, b) == t;
    } else {
      BodyStepTwice(P, side, s, b);
    }
  }

  lemma BodyStepPauses(P: Parsers, side: Side, s: Tap)
    requires s.At(side).mode.InBody? && s.At(side).buffer != []
    requires FeedFraming(s.At(side).mode.framing, s.At(side).buffer).next.Unfinished()
    ensures var r := FeedFraming(s.At(side).mode.framing, s.At(side).buffer);
            Step(P, side, s) == (Deliver(side, s, r.data).With(side, Dir(InBody(r.next), [])), false)
  {
    var buf := s.At(side).buffer;
    assert buf[FeedFraming(s.At(side).mode.framing, buf).used..] == [];
  }

  lemma BodyStepTwice(P: Parsers, side: Side, s: Tap, b: seq<Byte>)
    requires s.At(side).mode.InBody? && s.At(side).buffer != [] && b != []
    requires FeedFraming(s.At(side).mode.framing, s.At(side).buffer).next.Unfinished()
    ensures var r := FeedFraming(s.At(side).mode.framing, s.At(side).buffer);
            Step(P, side, Deliver(side, s, r.data).With(side, Dir(InBody(r.next), b)))
            == Step(P, side, s.Extend(side, b))
  {
    var f, buf := s.At(side).mode.framing, s.At(side).buffer;
    var r := FeedFraming(f, buf);
    var q := FeedFraming(r.next, b);
    FramingSplit(f, buf, b);
    DeliverSplit(side, s, r.data, q.data);
    DeliverCommutes(side, s, r.data + q.data);
    DeliverCommutes(side, Deliver(side, s, r.data), q.data);
    assert (buf + b)[r.used + q.used..] == b[q.used..];
  }

  /** Delivering data leaves both directions alone. */
  lemma DeliverCommutes(side: Side, s: Tap, data: seq<Byte>)
    ensures forall d: Dir :: Deliver(side, s.With(side, d), data) == Deliver(side, s, data).With(side, d)
    ensures Deliver(side, s, data).At(side) == s.At(side)
  {
  }

  // ── the whole loop ───────────────────────────────────────────────────────

  /** Draining, then feeding the rest, is draining everything; and what is left stays safe. */
  lemma {:induction false} DrainSplit(P: Parsers, side: Side, s: Tap, b: seq<Byte>)
    requires SafeRun(P, side, s.Extend(side, b))
    ensures Feed(P, side, Drain(P, side, s), b) == Drain(P, side, s.Extend(side, b))
    ensures var t := Drain(P, side, s);
            t.At(side).mode == Passthrough || SafeRun(P, side, t.Extend(side, b))
    decreases |s.At(side).buffer|
  {
    var (t, more) := Step(P, side, s);
    match s.At(side).mode {
      case Passthrough =>
      case Head =>
        HeadStepExtends(P, side, s, b);
        if more {
          DrainSplit(P, side, t, b);
        }
      case InBody(f) =>
        BodyStepExtends(P, side, s, b);
        if more {
          DrainSplit(P, side, t, b);
        }
    }
  }

  /** Feeding one direction slice by slice. */
  function FeedSlices(P: Parsers, side: Side, s: Tap, slices: seq<seq<Byte>>): Tap
    decreases |slices|
  {
    if slices == [] then s else FeedSlices(P, side, Feed(P, side, s, slices[0]), slices[1..])
  }

  /** Any slices of a safe stream leave the tap exactly as the whole stream does. */
  lemma {:induction false} SplitInvariance(P: Parsers, side: Side, s: Tap, slices: seq<seq<Byte>>)
    requires Drain(P, side, s) == s
    requires s.At(side).mode != Passthrough ==> SafeRun(P, side, s.Extend(side, Flatten(slices)))
    ensures FeedSlices(P, side, s, slices) == Feed(P, side, s, Flatten(slices))
    decreases |slices|
  {
    if slices == [] {
      assert s.At(side).buffer + [] == s.At(side).buffer;
      assert s.Extend(side, []) == s;
    } else {
      var x, rest := slices[0], slices[1..];
      var t := Feed(P, side, s, x);
      if s.At(side).mode != Passthrough {
        ExtendTwice(side, s, x, Flatten(rest));
        DrainSplit(P, side, s.Extend(side, x), Flatten(rest));
        DrainIdempotent(P, side, s.Extend(side, x));
      }
      SplitInvariance(P, side, t, rest);
      if t.At(side).mode == Passthrough {
        FeedPassthrough(P, side, t, rest);
      }
    }
  }

  lemma ExtendTwice(side: Side, s: Tap, x: seq<Byte>, y: seq<Byte>)
    ensures s.Extend(side, x).Extend(side, y) == s.Extend(side, x + y)
  {
    assert s.At(side).buffer + x + y == s.At(side).buffer + (x + y);
  }

  lemma {:induction false} DrainIdempotent(P: Parsers, side: Side, s: Tap)
    ensures Drain(P, side, Drain(P, side, s)) == Drain(P, side, s)
    decreases |s.At(side).buffer|
  {
    var (t, more) := Step(P, side, s);
    if more {
      DrainIdempotent(P, side, t);
    }
  }

  lemma {:induction false} FeedPassthrough(P: Parsers, side: Side, s: Tap, slices: seq<seq<Byte>>)
    requires s.At(side).mode == Passthrough
    ensures FeedSlices(P, side, s, slices) == s
    decreases |slices|
  {
    if slices != [] {
      FeedPassthrough(P, side, s, slices[1..]);
    }
  }
}
