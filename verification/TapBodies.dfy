/**
 How much of a request's body its record holds: exactly what had been read when the record was made,
 and so all of it when the body was already over.
 */
module TapBodies {
  import opened Basics
  import Capture
  import opened Heads
  import opened HttpTap
  import opened TapHistory
  import opened TapPairing

  // ── what is recorded stays ───────────────────────────────────────────────

  predicate Grown(s: Tap, h: History, t: Tap, g: History) {
    s.records <= t.records && h.served <= g.served && h.caught <= g.caught
  }

  lemma StepGrows(P: Parsers, side: Side, s: Tap, h: History)
    ensures Grown(s, h, Step(P, side, s).0, Note(P, side, s, h))
  {
  }

  lemma {:induction false} DrainGrows(P: Parsers, side: Side, s: Tap, h: History)
    ensures Grown(s, h, Drain(P, side, s), DrainHistory(P, side, s, h))
    decreases |s.At(side).buffer|
  {
    StepGrows(P, side, s, h);
    if Step(P, side, s).1 {
      DrainGrows(P, side, Step(P, side, s).0, Note(P, side, s, h));
    }
  }

  lemma ReactGrows(P: Parsers, s: Tap, h: History, input: Input)
    ensures Grown(s, h, React(P, s, input), ReactHistory(P, s, h, input))
  {
    if input.Bytes? && s.At(input.side).mode != Passthrough {
      DrainGrows(P, input.side, s.Extend(input.side, input.bytes), h);
    }
  }

  lemma {:induction false} RunGrows(P: Parsers, s: Tap, h: History, inputs: seq<Input>)
    ensures Grown(s, h, Run(P, s, inputs), RunHistory(P, s, h, inputs))
    decreases |inputs|
  {
    if inputs != [] {
      ReactGrows(P, s, h, inputs[0]);
      RunGrows(P, React(P, s, inputs[0]), ReactHistory(P, s, h, inputs[0]), inputs[1..]);
    }
  }

  // ── a body that is over does not change ──────────────────────────────────

  /** No more bytes will be read for request `j`. */
  predicate Over(s: Tap, h: History, j: nat) {
    j < |h.requests| && (j < |h.requests| - 1 || !s.request.mode.InBody?)
  }

  predicate StaysOver(s: Tap, h: History, t: Tap, g: History, j: nat) {
    Over(s, h, j) ==> Over(t, g, j) && g.requests[j] == h.requests[j]
  }

  lemma StepStaysOver(P: Parsers, side: Side, s: Tap, h: History, j: nat)
    ensures StaysOver(s, h, Step(P, side, s).0, Note(P, side, s, h), j)
  {
  }

  lemma {:induction false} DrainStaysOver(P: Parsers, side: Side, s: Tap, h: History, j: nat)
    ensures StaysOver(s, h, Drain(P, side, s), DrainHistory(P, side, s, h), j)
    decreases |s.At(side).buffer|
  {
    StepStaysOver(P, side, s, h, j);
    if Step(P, side, s).1 {
      DrainStaysOver(P, side, Step(P, side, s).0, Note(P, side, s, h), j);
    }
  }

  lemma ReactStaysOver(P: Parsers, s: Tap, h: History, input: Input, j: nat)
    ensures StaysOver(s, h, React(P, s, input), ReactHistory(P, s, h, input), j)
  {
    if input.Bytes? && s.At(input.side).mode != Passthrough {
      DrainStaysOver(P, input.side, s.Extend(input.side, input.bytes), h, j);
    }
  }

  lemma {:induction false} RunStaysOver(P: Parsers, s: Tap, h: History, inputs: seq<Input>, j: nat)
    ensures StaysOver(s, h, Run(P, s, inputs), RunHistory(P, s, h, inputs), j)
    decreases |inputs|
  {
    if inputs != [] {
      ReactStaysOver(P, s, h, inputs[0], j);
      RunStaysOver(P, React(P, s, inputs[0]), ReactHistory(P, s, h, inputs[0]), inputs[1..], j);
    }
  }

  /** A whole body is over: its framing has nothing more to read. */
  lemma WholeIsOver(s: Tap, h: History, j: nat)
    requires Spanned(s, h) && j < |h.requests| && h.requests[j].body.Whole()
    ensures Over(s, h, j)
  {
    assert FramedByHead(h.requests[j]);
  }

  // ── what one input catches ───────────────────────────────────────────────

  /** Records from position `from` on hold all of their requests' bodies that has been read. */
  predicate CatchesAll(h: History, from: nat) {
    |h.caught| == |h.served| && forall k :: from <= k < |h.served| ==> h.caught[k] == DataRead(h, h.served[k])
  }

  lemma CompleteCatches(s: Tap, h: History, from: nat)
    requires CatchesAll(h, from)
    ensures var g := NoteComplete(s, h); g.requests == h.requests && CatchesAll(g, from)
  {
  }

  /** The history of a response head or of response bytes, before it is known whether the response is over. */
  lemma UnfinishedCatches(s: Tap, h: History, g: History, from: nat)
    requires CatchesAll(h, from) && g.requests == h.requests && g.served == h.served && g.caught == h.caught
    ensures CatchesAll(g, from)
  {
  }

  lemma HeadCatches(P: Parsers, s: Tap, h: History, head: seq<Byte>, from: nat)
    requires CatchesAll(h, from)
    ensures var g := NoteHead(P, Response, s, h, head); g.requests == h.requests && CatchesAll(g, from)
  {
    if P.response(head).Some? {
      var q := P.response(head).value;
      if Interim(q.status) {
        UnfinishedCatches(s, h, NoteResponseHead(s, h, q, head), from);
      } else {
        UnfinishedCatches(s, h, NoteAnswer(s, h, q, head), from);
        CompleteCatches(s.(current := Some(PendingResponse(q, Capture.EMPTY))), NoteAnswer(s, h, q, head), from);
      }
    }
  }

  lemma DataCatches(P: Parsers, s: Tap, h: History, from: nat)
    requires CatchesAll(h, from) && s.response.mode.InBody? && s.response.buffer != []
    ensures var g := Note(P, Response, s, h); g.requests == h.requests && CatchesAll(g, from)
  {
    var r := FeedFraming(s.response.mode.framing, s.response.buffer);
    var g := NoteData(Response, s, h, r, s.response.buffer[..r.used]);
    UnfinishedCatches(s, h, g, from);
    CompleteCatches(Deliver(Response, s, r.data), g, from);
  }

  lemma AnsweringCatches(P: Parsers, s: Tap, h: History, from: nat)
    requires CatchesAll(h, from)
    ensures var g := Note(P, Response, s, h); g.requests == h.requests && CatchesAll(g, from)
  {
    var buf := s.response.buffer;
    if s.response.mode == Head && Conclude(buf).Found? {
      var end := Conclude(buf).end;
      HeadCatches(P, s.With(Response, Dir(Head, buf[end..])), h, buf[..end], from);
    } else if s.response.mode.InBody? && buf != [] {
      DataCatches(P, s, h, from);
    }
  }

  lemma AskingRecordsNothing(P: Parsers, s: Tap, h: History)
    ensures Step(P, Request, s).0.records == s.records && Note(P, Request, s, h).served == h.served
  {
  }

  lemma {:induction false} DrainCatches(P: Parsers, s: Tap, h: History, from: nat)
    requires CatchesAll(h, from)
    ensures var g := DrainHistory(P, Response, s, h); g.requests == h.requests && CatchesAll(g, from)
    decreases |s.response.buffer|
  {
    AnsweringCatches(P, s, h, from);
    if Step(P, Response, s).1 {
      DrainCatches(P, Step(P, Response, s).0, Note(P, Response, s, h), from);
    }
  }

  lemma {:induction false} DrainRecordsNothing(P: Parsers, s: Tap, h: History)
    ensures Drain(P, Request, s).records == s.records && DrainHistory(P, Request, s, h).served == h.served
    decreases |s.request.buffer|
  {
    AskingRecordsNothing(P, s, h);
    if Step(P, Request, s).1 {
      DrainRecordsNothing(P, Step(P, Request, s).0, Note(P, Request, s, h));
    }
  }

  /** The records that one input makes hold all that had been read of their requests' bodies before it. */
  lemma ReactCatches(P: Parsers, s: Tap, h: History, input: Input, k: nat)
    requires Served(s, h)
    requires |s.records| <= k < |React(P, s, input).records|
    requires Served(React(P, s, input), ReactHistory(P, s, h, input))
    ensures var g := ReactHistory(P, s, h, input);
            g.requests == h.requests && g.caught[k] == DataRead(h, g.served[k])
  {
    if input.Bytes? && s.At(input.side).mode != Passthrough {
      var t := s.Extend(input.side, input.bytes);
      if input.side == Response {
        DrainCatches(P, t, h, |s.records|);
      } else {
        DrainRecordsNothing(P, t, h);
      }
    }
  }

  // ── records, in whole runs ───────────────────────────────────────────────

  lemma {:induction false} RunSplit(P: Parsers, s: Tap, h: History, inputs: seq<Input>, n: nat)
    requires n <= |inputs|
    ensures Run(P, s, inputs) == Run(P, Run(P, s, inputs[..n]), inputs[n..])
    ensures RunHistory(P, s, h, inputs)
         == RunHistory(P, Run(P, s, inputs[..n]), RunHistory(P, s, h, inputs[..n]), inputs[n..])
    decreases |inputs|
  {
    if n == 0 {
      assert inputs[..0] == [] && inputs[0..] == inputs;
    } else {
      assert inputs[..n][1..] == inputs[1..][..n - 1] && inputs[1..][n - 1..] == inputs[n..];
      RunSplit(P, React(P, s, inputs[0]), ReactHistory(P, s, h, inputs[0]), inputs[1..], n - 1);
    }
  }

  lemma RunNext(P: Parsers, s: Tap, h: History, inputs: seq<Input>, n: nat)
    requires n < |inputs|
    ensures Run(P, s, inputs[..n + 1]) == React(P, Run(P, s, inputs[..n]), inputs[n])
    ensures RunHistory(P, s, h, inputs[..n + 1])
         == ReactHistory(P, Run(P, s, inputs[..n]), RunHistory(P, s, h, inputs[..n]), inputs[n])
  {
    RunSplit(P, s, h, inputs[..n + 1], n);
    assert inputs[..n + 1][..n] == inputs[..n] && inputs[..n + 1][n..] == [inputs[n]];
    assert [inputs[n]][1..] == [];
  }

  /** Each record is made by one of the inputs. */
  lemma {:induction false} MadeAt(P: Parsers, inputs: seq<Input>, upto: nat, k: nat) returns (n: nat)
    requires upto <= |inputs| && k < |Run(P, NEW, inputs[..upto]).records|
    ensures n < upto
    ensures |Run(P, NEW, inputs[..n]).records| <= k < |Run(P, NEW, inputs[..n + 1]).records|
  {
    assert upto > 0 by {
      assert inputs[..0] == [];
    }
    if |Run(P, NEW, inputs[..upto - 1]).records| <= k {
      n := upto - 1;
    } else {
      n := MadeAt(P, inputs, upto - 1, k);
    }
  }

  /**
   Exactly how much is recorded. Every record of every run was made by one of the inputs, never changes
   afterwards, and holds all of its request's body that had been read before that input; and if the
   body was whole by then, it is all the body that request ever has.
   */
  lemma RecordedBodyIsExact(P: Parsers, inputs: seq<Input>, k: nat) returns (n: nat)
    requires k < |Run(P, NEW, inputs).records|
    ensures n < |inputs| && |Run(P, NEW, inputs[..n]).records| <= k < |Run(P, NEW, inputs[..n + 1]).records|
    ensures Run(P, NEW, inputs[..n + 1]).records[k] == Run(P, NEW, inputs).records[k]
    ensures var record := Run(P, NEW, inputs).records[k];
            var h, f := RunHistory(P, NEW, NOTHING, inputs[..n]), RunHistory(P, NEW, NOTHING, inputs);
            && k < |f.served|
            && match f.served[k]
               case None => record.request == UNKNOWN
               case Some(j) =>
                 && j < |h.requests| && record.request == Waiting(h.requests[j])
                 && (h.requests[j].body.Whole() ==> j < |f.requests| && record.request == Waiting(f.requests[j]))
  {
    assert inputs[..|inputs|] == inputs;
    n := MadeAt(P, inputs, |inputs|, k);
    var s, h := Run(P, NEW, inputs[..n]), RunHistory(P, NEW, NOTHING, inputs[..n]);
    var t, g := Run(P, NEW, inputs[..n + 1]), RunHistory(P, NEW, NOTHING, inputs[..n + 1]);
    StartKept();
    RunKept(P, NEW, NOTHING, inputs[..n]);
    RunKept(P, NEW, NOTHING, inputs[..n + 1]);
    RunNext(P, NEW, NOTHING, inputs, n);
    ReactCatches(P, s, h, inputs[n], k);
    CaughtAll(t, g, h, k);
    RunSplit(P, NEW, NOTHING, inputs, n + 1);
    RunGrows(P, t, g, inputs[n + 1..]);
    if g.served[k].Some? && h.requests[g.served[k].value].body.Whole() {
      WholeIsOver(s, h, g.served[k].value);
      RunSplit(P, NEW, NOTHING, inputs, n);
      RunStaysOver(P, s, h, inputs[n..], g.served[k].value);
    }
  }

  lemma CaughtAll(t: Tap, g: History, h: History, k: nat)
    requires Served(t, g) && k < |t.records| && g.requests == h.requests && g.caught[k] == DataRead(h, g.served[k])
    ensures match g.served[k]
            case None => t.records[k].request == UNKNOWN
            case Some(j) => j < |h.requests| && t.records[k].request == Waiting(h.requests[j])
  {
    assert Honoured(t, g, k);
    if g.served[k].Some? {
      var o := h.requests[g.served[k].value];
      assert o.body.data[..|o.body.data|] == o.body.data;
    }
  }

  /** What is read of a body before its record is made, the record has; if it was over, all of it. */
  lemma OverIsCaughtWhole(P: Parsers, s: Tap, h: History, rest: seq<Input>, k: nat, j: nat)
    requires Kept(s, h) && Over(s, h, j) && |s.records| <= k
    requires var u, f := Run(P, s, rest), RunHistory(P, s, h, rest);
             k < |u.records| && |f.served| == |f.caught| == |u.records| && f.served[k] == Some(j)
    ensures RunHistory(P, s, h, rest).caught[k] == |h.requests[j].body.data|
    decreases |rest|
  {
    if rest != [] {
      var t, g := React(P, s, rest[0]), ReactHistory(P, s, h, rest[0]);
      ReactKept(P, s, h, rest[0]);
      ReactStaysOver(P, s, h, rest[0], j);
      if k < |t.records| {
        ReactCatches(P, s, h, rest[0], k);
        RunGrows(P, t, g, rest[1..]);
      } else {
        OverIsCaughtWhole(P, t, g, rest[1..], k, j);
      }
    }
  }
}
