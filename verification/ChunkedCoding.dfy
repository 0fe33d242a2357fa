/**
 The incremental scanner for `Transfer-Encoding: chunked` (section 7.1 of RFC 9112).

 `Scan` is the reference: a byte-at-a-time automaton. `FeedScanner` is the scanner as it is written,
 which walks a whole buffer and takes chunk data in blocks.
 */
module ChunkedCoding {
  import opened Basics
  import opened Text
  import opened Capture

  /** A size line with more bytes than this and no line feed is abandoned. */
  const MAX_SIZE_LINE := 64

  datatype Phase =
    | Size
    | Data(left: Positive)
    | DataCrlf(seen: nat)
    | Trailer
    | Done

  datatype Scanner = Scanner(phase: Phase, line: seq<Byte>)

  const FRESH := Scanner(Size, [])

  function ParseChunkSize(line: seq<Byte>): Option<nat> {
    match DecodeUtf8(line)
    case None => None
    case Some(text) =>
      var size := Trim(UpTo(DropTrailing(text, IsLineEnd), ';'));
      if size == "" then None else ParseU64(size, 16)
  }

  // ── reference automaton ──────────────────────────────────────────────────

  function ScanByte(sc: Scanner, b: Byte): Scanner
    requires !sc.phase.Done?
  {
    var line := sc.line + [b];
    match sc.phase
    case Size =>
      if b == LF then
        match ParseChunkSize(line)
        case None => Scanner(Done, [])
        case Some(n) => Scanner(if n == 0 then Trailer else Data(n), [])
      else
        Scanner(if |line| > MAX_SIZE_LINE then Done else Size, line)
    case Data(left) =>
      sc.(phase := if left == 1 then DataCrlf(0) else Data(left - 1))
    case DataCrlf(seen) =>
      sc.(phase := if seen + 1 >= 2 then Size else DataCrlf(seen + 1))
    case Trailer =>
      if b == LF then
        Scanner(if line == [CR, LF] || line == [LF] then Done else Trailer, [])
      else
        Scanner(if |line| > MAX_HEAD then Done else Trailer, line)
  }

  /** Where a scan stopped, how many bytes it took and which of them were chunk data. */
  datatype Scanned = Scanned(scanner: Scanner, used: nat, data: seq<Byte>) {
    function Then(next: Scanned): Scanned {
      Scanned(next.scanner, used + next.used, data + next.data)
    }
  }

  function Scan(sc: Scanner, buf: seq<Byte>): (r: Scanned)
    ensures r.used <= |buf|
    ensures !r.scanner.phase.Done? ==> r.used == |buf|
    ensures buf != [] && !sc.phase.Done? ==> r.used > 0
    decreases |buf|
  {
    if buf == [] || sc.phase.Done? then
      Scanned(sc, 0, [])
    else
      var first := Scanned(ScanByte(sc, buf[0]), 1, if sc.phase.Data? then [buf[0]] else []);
      first.Then(Scan(ScanByte(sc, buf[0]), buf[1..]))
  }

  /** A scan may be cut anywhere: it stops where it would have, or continues as if uncut. */
  lemma {:induction false} ScanSplit(sc: Scanner, a: seq<Byte>, b: seq<Byte>)
    ensures var r := Scan(sc, a);
            Scan(sc, a + b) == if r.scanner.phase.Done? then r else r.Then(Scan(r.scanner, b))
    decreases |a|
  {
    if a == [] {
      assert a + b == b;
      var r := Scan(sc, b);
      assert 0 + r.used == r.used && [] + r.data == r.data;
    } else if !sc.phase.Done? {
      ScanSplit(ScanByte(sc, a[0]), a[1..], b);
      assert (a + b)[0] == a[0] && (a + b)[1..] == a[1..] + b;
      var first := Scanned(ScanByte(sc, a[0]), 1, if sc.phase.Data? then [a[0]] else []);
      var mid := Scan(ScanByte(sc, a[0]), a[1..]);
      ThenAssociates(first, mid, Scan(mid.scanner, b));
    }
  }

  lemma ThenAssociates(x: Scanned, y: Scanned, z: Scanned)
    ensures x.Then(y).Then(z) == x.Then(y.Then(z))
  {
    assert (x.data + y.data) + z.data == x.data + (y.data + z.data);
  }

  /** Chunk data may be taken in blocks. */
  lemma {:induction false} ScanBlock(left: Positive, line: seq<Byte>, block: seq<Byte>)
    requires 0 < |block| <= left
    ensures Scan(Scanner(Data(left), line), block)
         == Scanned(Scanner(if |block| == left then DataCrlf(0) else Data(left - |block|), line), |block|, block)
  {
    var rest := block[1..];
    if rest == [] {
      assert block == [block[0]];
      assert [block[0]] + [] == block;
    } else {
      ScanBlock(left - 1, line, rest);
      assert [block[0]] + rest == block;
    }
  }

  // ── the scanner as written ───────────────────────────────────────────────

  function PushSome(sink: Option<Body>, data: seq<Byte>): Option<Body> {
    match sink
    case None => None
    case Some(body) => Some(Push(body, data))
  }

  lemma PushSomeAppend(sink: Option<Body>, x: seq<Byte>, y: seq<Byte>)
    ensures PushSome(PushSome(sink, x), y) == PushSome(sink, x + y)
    ensures PushSome(sink, []) == sink
  {
    if sink.Some? { PushAppend(sink.value, x, y); }
  }

  /** Reading one line byte: the next phase and the line kept for it. */
  method TakeLineByte(phase: Phase, line: seq<Byte>, b: Byte) returns (phase': Phase, line': seq<Byte>)
    requires phase.Size? || phase.Trailer?
    ensures Scanner(phase', line') == ScanByte(Scanner(phase, line), b)
  {
    phase', line' := phase, line + [b];
    if b == LF {
      if phase.Size? {
        match ParseChunkSize(line') {
          case None => phase' := Done;
          case Some(n) => if n == 0 { phase' := Trailer; } else { phase' := Data(n); }
        }
      } else if line' == [CR, LF] || line' == [LF] {
        phase' := Done;
      }
      line' := [];
    } else if |line'| > if phase.Size? then MAX_SIZE_LINE else MAX_HEAD {
      phase' := Done;
    }
  }

  /** One turn of the scanner's loop: a line byte, a separator byte or a block of data. */
  method Advance(sc: Scanner, buf: seq<Byte>, sink: Option<Body>)
    returns (sc': Scanner, used: nat, sink': Option<Body>, ghost data: seq<Byte>)
    requires buf != [] && !sc.phase.Done?
    ensures 0 < used <= |buf|
    ensures Scan(sc, buf[..used]) == Scanned(sc', used, data)
    ensures sink' == PushSome(sink, data)
  {
    PushSomeAppend(sink, [], []);
    used, sink', data := 1, sink, [];
    match sc.phase {
      case Data(left) =>
        used := Min(left, |buf|);
        data := buf[..used];
        ScanBlock(left, sc.line, data);
        sink' := PushSome(sink, buf[..used]);
        sc' := sc.(phase := if left == used then DataCrlf(0) else Data(left - used));
      case DataCrlf(seen) =>
        sc' := sc.(phase := if seen + 1 >= 2 then Size else DataCrlf(seen + 1));
        ScanOne(sc, buf);
      case Size =>
        var phase, line := TakeLineByte(sc.phase, sc.line, buf[0]);
        sc' := Scanner(phase, line);
        ScanOne(sc, buf);
      case Trailer =>
        var phase, line := TakeLineByte(sc.phase, sc.line, buf[0]);
        sc' := Scanner(phase, line);
        ScanOne(sc, buf);
    }
  }

  lemma ScanOne(sc: Scanner, buf: seq<Byte>)
    requires buf != [] && !sc.phase.Done?
    ensures Scan(sc, buf[..1]) == Scanned(ScanByte(sc, buf[0]), 1, if sc.phase.Data? then [buf[0]] else [])
  {
    assert buf[..1][1..] == [];
  }

  /** The scanner as it is written: it reads on until the body is over or the buffer is empty. */
  method FeedScanner(sc: Scanner, buf: seq<Byte>, sink: Option<Body>)
    returns (sc': Scanner, used: nat, done: bool, sink': Option<Body>)
    ensures var r := Scan(sc, buf);
            sc' == r.scanner && used == r.used && done == sc'.phase.Done? && sink' == PushSome(sink, r.data)
  {
    sc', used, sink' := sc, 0, sink;
    ghost var data: seq<Byte> := [];
    PushSomeAppend(sink, [], []);
    ScanStart(sc, buf);
    while used < |buf| && sc'.phase != Done
      invariant used <= |buf|
      invariant Scan(sc, buf) == Scanned(sc', used, data).Then(Scan(sc', buf[used..]))
      invariant sink' == PushSome(sink, data)
      decreases |buf| - used
    {
      var next, n, pushed, block := Advance(sc', buf[used..], sink');
      ScanOn(sc', used, data, buf, next, n, block);
      PushSomeAppend(sink, data, block);
      sc', used, sink', data := next, used + n, pushed, data + block;
    }
    done := sc'.phase == Done;
    assert Scan(sc', buf[used..]) == Scanned(sc', 0, []);
    assert data + [] == data;
  }

  lemma ScanStart(sc: Scanner, buf: seq<Byte>)
    ensures Scan(sc, buf) == Scanned(sc, 0, []).Then(Scan(sc, buf[0..]))
  {
    assert buf[0..] == buf;
    assert [] + Scan(sc, buf).data == Scan(sc, buf).data;
  }

  /** Moving on inside a buffer: the part scanned joins what was scanned before. */
  lemma ScanOn(sc: Scanner, from: nat, data: seq<Byte>, buf: seq<Byte>, next: Scanner, n: Positive, block: seq<Byte>)
    requires from + n <= |buf|
    requires Scan(sc, buf[from..][..n]) == Scanned(next, n, block)
    ensures Scanned(sc, from, data).Then(Scan(sc, buf[from..]))
         == Scanned(next, from + n, data + block).Then(Scan(next, buf[from + n..]))
  {
    var part := Scanned(next, n, block);
    var rest := Scan(next, buf[from + n..]);
    assert buf[from..] == buf[from..][..n] + buf[from + n..];
    ScanSplit(sc, buf[from..][..n], buf[from + n..]);
    ThenAssociates(Scanned(sc, from, data), part, rest);
    if next.phase.Done? {
      assert block + [] == block;
    }
  }
}
