/**
 Decoding undoes chunked encoding (section 7.1 of RFC 9112).

 `Wire` spells a body out as a sender may: any hexadecimal spelling of the sizes, extensions and
 trailers. The scanner recovers the payload, and stops exactly at its end, if and only if the body
 is `Accepted`: its lines are within the scanner's limits and its extensions are UTF-8.
 */
module ChunkedRoundTrip {
  import opened Basics
  import opened Text
  import opened Letters
  import opened Numerals
  import opened Utf8
  import opened ChunkedCoding

  const SEMICOLON: Byte := 59
  const CRLF: seq<Byte> := [CR, LF]

  // ── the encoder ──────────────────────────────────────────────────────────

  datatype SizeLine = SizeLine(digits: seq<Byte>, ext: seq<Byte>) {
    /** What section 7.1 of RFC 9112 lets a sender write for a size that fits 64 bits. */
    ghost predicate Shaped(size: nat) {
      && IsAscii(digits) && Writes(AsciiText(digits), size, 16)
      && size < 0x1_0000_0000_0000_0000
      && (ext == [] || ext[0] == SEMICOLON)
      && LF !in ext
    }

    function Text(): seq<Byte> {
      digits + (ext + [CR])
    }

    predicate Accepted() {
      |Text()| <= MAX_SIZE_LINE && DecodeUtf8(ext).Some?
    }
  }

  datatype Chunk = Chunk(size: SizeLine, data: seq<Byte>) {
    ghost predicate Shaped() {
      data != [] && size.Shaped(|data|)
    }

    function Wire(): seq<Byte> {
      size.Text() + [LF] + (data + CRLF)
    }
  }

  datatype Coded = Coded(chunks: seq<Chunk>, last: SizeLine, trailers: seq<seq<Byte>>) {
    ghost predicate Shaped() {
      && (forall i :: 0 <= i < |chunks| ==> chunks[i].Shaped())
      && last.Shaped(0)
      && (forall i :: 0 <= i < |trailers| ==> trailers[i] != [] && trailers[i] != [CR] && LF !in trailers[i])
    }

    predicate Accepted() {
      && (forall i :: 0 <= i < |chunks| ==> chunks[i].size.Accepted())
      && last.Accepted()
      && (forall i :: 0 <= i < |trailers| ==> |trailers[i]| <= MAX_HEAD)
    }

    function Wire(): seq<Byte> {
      WireOf(chunks) + (last.Text() + [LF] + (TrailersOf(trailers) + CRLF))
    }

    function Payload(): seq<Byte> {
      PayloadOf(chunks)
    }
  }

  function WireOf(chunks: seq<Chunk>): seq<Byte> {
    if chunks == [] then [] else chunks[0].Wire() + WireOf(chunks[1..])
  }

  function PayloadOf(chunks: seq<Chunk>): seq<Byte> {
    if chunks == [] then [] else chunks[0].data + PayloadOf(chunks[1..])
  }

  function TrailersOf(trailers: seq<seq<Byte>>): seq<Byte> {
    if trailers == [] then [] else trailers[0] + [LF] + TrailersOf(trailers[1..])
  }

  // ── a size line reads back as its size, exactly when it is UTF-8 ─────────

  lemma {:induction false} DropTrailingKeeps(x: string, y: string, drop: char -> bool)
    requires x != "" && !drop(x[|x| - 1])
    ensures DropTrailing(x + y, drop) == x + DropTrailing(y, drop)
    decreases |y|
  {
    if y == "" {
      assert x + y == x;
    } else if drop(y[|y| - 1]) {
      DropTrailingKeeps(x, y[..|y| - 1], drop);
      assert (x + y)[..|x + y| - 1] == x + y[..|y| - 1];
    }
  }

  lemma {:induction false} DropTrailingPrefix(y: string, drop: char -> bool)
    ensures DropTrailing(y, drop) <= y
    ensures y != "" && !drop(y[0]) ==> DropTrailing(y, drop) != ""
    decreases |y|
  {
    if y != "" && drop(y[|y| - 1]) {
      DropTrailingPrefix(y[..|y| - 1], drop);
    }
  }

  lemma {:induction false} UpToStops(t: string, z: string, c: char)
    requires c !in t
    requires z == "" || z[0] == c
    ensures UpTo(t + z, c) == t
  {
    if t == "" {
      assert t + z == z;
    } else {
      UpToStops(t[1..], z, c);
      assert (t + z)[1..] == t[1..] + z;
    }
  }

  lemma ExtensionText(ext: seq<Byte>)
    requires ext == [] || ext[0] == SEMICOLON
    ensures DecodeUtf8(ext).Some? ==> DecodeUtf8(ext).value == "" || DecodeUtf8(ext).value[0] == ';'
  {
  }

  /** The size text is cut back out of the line, whatever the extension says. */
  lemma SizeTextOf(t: string, e: string)
    requires t != "" && IsNumeral(t, 16)
    requires e == "" || e[0] == ';'
    ensures UpTo(DropTrailing(t + (e + "\r\n"), IsLineEnd), ';') == t
  {
    var y := e + "\r\n";
    assert Digit(t[|t| - 1]) < 16;
    DropTrailingKeeps(t, y, IsLineEnd);
    var z := DropTrailing(y, IsLineEnd);
    DropTrailingPrefix(y, IsLineEnd);
    if e == "" {
      assert y == "\r\n";
      assert y[..1] == "\r" && "\r"[..0] == "";
      assert z == "";
    } else {
      assert y[0] == ';';
      assert z[0] == ';';
    }
    UpToStops(t, z, ';');
  }

  lemma TrimNumeral(t: string)
    requires t != "" && IsNumeral(t, 16)
    ensures Trim(t) == t
  {
    assert Digit(t[0]) < 16 && Digit(t[|t| - 1]) < 16;
  }

  lemma SizeLineText(l: SizeLine)
    requires IsAscii(l.digits)
    ensures DecodeUtf8(l.Text() + [LF])
         == match DecodeUtf8(l.ext) case None => None case Some(e) => Some(AsciiText(l.digits) + (e + "\r\n"))
  {
    assert l.Text() + [LF] == l.digits + (l.ext + CRLF);
    DecodeAsciiPrefix(l.digits, l.ext + CRLF);
    DecodeAsciiSuffix(l.ext, CRLF);
    assert AsciiText(CRLF) == "\r\n";
    if DecodeUtf8(l.ext).Some? {
      SameText(AsciiText(l.digits), DecodeUtf8(l.ext).value, "\r\n");
    }
  }

  lemma SameText(digits: string, ext: string, end: string)
    ensures digits + ("" + ext + end) + "" == digits + (ext + end)
  {
  }

  lemma ParseSizeLine(l: SizeLine, size: nat)
    requires l.Shaped(size)
    ensures ParseChunkSize(l.Text() + [LF]) == if DecodeUtf8(l.ext).Some? then Some(size) else None
  {
    var t := AsciiText(l.digits);
    WritesIsNumeral(t, size, 16);
    SizeLineText(l);
    match DecodeUtf8(l.ext) {
      case None =>
      case Some(e) =>
        ExtensionText(l.ext);
        SizeTextOf(t, e);
        TrimNumeral(t);
        assert Digit(t[0]) < 16;
    }
  }

  lemma PlainSize(line: string, n: nat)
    requires ';' !in line
    ensures SaysNumber(UpTo(DropTrailing(line, IsLineEnd), ';'), n, 16) <==> SaysNumber(line, n, 16)
  {
    var cut := DropTrailingIsExact(line, IsLineEnd);
    var kept := DropTrailing(line, IsLineEnd);
    assert kept + "" == kept;
    UpToStops(kept, "", ';');
    forall i | 0 <= i < |cut|
      ensures Blank(cut[i])
    {
      assert IsLineEnd(cut[i]);
      BlankIsExact(cut[i]);
    }
    EndsMayBeCut(kept, cut, n, 16);
  }

  lemma ExtendedSize(before: string, ext: string)
    requires ';' !in before && ext != "" && ext[0] == ';'
    ensures UpTo(DropTrailing(before + ext, IsLineEnd), ';') == before
  {
    var rest := ext[1..];
    assert ext == [ext[0]] + rest;
    Regroup(before, [ext[0]], rest);
    DropTrailingKeeps(before + [ext[0]], rest, IsLineEnd);
    Regroup(before, [ext[0]], DropTrailing(rest, IsLineEnd));
    UpToStops(before, [ext[0]] + DropTrailing(rest, IsLineEnd), ';');
  }

  lemma SizeOfText(line: string, n: nat)
    ensures ParseChunkSize(EncodeUtf8(line)) == Some(n) <==>
            SaysNumber(UpTo(DropTrailing(line, IsLineEnd), ';'), n, 16)
  {
    DecodeIsExact(EncodeUtf8(line), line);
    SaysNumberIsExact(UpTo(DropTrailing(line, IsLineEnd), ';'), n, 16);
  }

  /**
   Exactly when a line of text has size `n`: what is in front of its first semicolon is a hexadecimal
   numeral for `n`, perhaps with white space around it, the line end included.
   */
  lemma ParseChunkSizeIsExact(before: string, ext: string, n: nat)
    requires ';' !in before && (ext == "" || ext[0] == ';')
    ensures ParseChunkSize(EncodeUtf8(before + ext)) == Some(n) <==> SaysNumber(before, n, 16)
  {
    SizeOfText(before + ext, n);
    if ext == "" {
      assert before + ext == before;
      PlainSize(before, n);
    } else {
      ExtendedSize(before, ext);
    }
  }

  /** A line that encodes no text has no size. */
  lemma NotTextHasNoSize(line: seq<Byte>)
    ensures ParseChunkSize(line).Some? ==> exists text: string :: EncodeUtf8(text) == line
  {
    if DecodeUtf8(line).Some? {
      DecodeIsExact(line, DecodeUtf8(line).value);
    }
  }

  // ── scanning the parts ───────────────────────────────────────────────────

  /** A line is collected byte by byte until it is too long. */
  lemma {:induction false} ScanLine(phase: Phase, pre: seq<Byte>, text: seq<Byte>, limit: nat)
    requires (phase == Size && limit == MAX_SIZE_LINE) || (phase == Trailer && limit == MAX_HEAD)
    requires LF !in text && |pre| <= limit
    ensures |pre + text| <= limit ==> Scan(Scanner(phase, pre), text) == Scanned(Scanner(phase, pre + text), |text|, [])
    ensures |pre + text| > limit ==> Scan(Scanner(phase, pre), text).scanner.phase == Done
    decreases |text|
  {
    if text == [] {
      assert pre + text == pre;
    } else {
      var b := text[0];
      assert pre + [b] + text[1..] == pre + text;
      if |pre + [b]| <= limit {
        ScanLine(phase, pre + [b], text[1..], limit);
      }
    }
  }

  function AfterSize(size: nat): Phase {
    if size == 0 then Trailer else Data(size)
  }

  lemma ScanLastByte(sc: Scanner, b: Byte)
    requires !sc.phase.Done? && !sc.phase.Data?
    ensures Scan(sc, [b]) == Scanned(ScanByte(sc, b), 1, [])
  {
    assert [b][1..] == [];
  }

  lemma ScanSizeLine(l: SizeLine, size: nat)
    requires l.Shaped(size)
    ensures l.Accepted() ==>
              Scan(FRESH, l.Text() + [LF]) == Scanned(Scanner(AfterSize(size), []), |l.Text()| + 1, [])
    ensures !l.Accepted() ==> Scan(FRESH, l.Text() + [LF]).scanner.phase == Done
  {
    HexHasNoLineFeed(l, size);
    ParseSizeLine(l, size);
    if |l.Text()| <= MAX_SIZE_LINE {
      ShortSizeLine(l.Text(), if DecodeUtf8(l.ext).Some? then Some(size) else None);
    } else {
      LongSizeLine(l.Text());
    }
  }

  lemma SizeLineEnds(text: seq<Byte>, size: Option<nat>)
    requires ParseChunkSize(text + [LF]) == size
    ensures ScanByte(Scanner(Size, text), LF) == Scanner(if size == None then Done else AfterSize(size.value), [])
  {
  }

  lemma ShortSizeLine(text: seq<Byte>, size: Option<nat>)
    requires LF !in text && |text| <= MAX_SIZE_LINE && ParseChunkSize(text + [LF]) == size
    ensures Scan(FRESH, text + [LF])
         == Scanned(Scanner(if size == None then Done else AfterSize(size.value), []), |text| + 1, [])
  {
    assert [] + text == text;
    SizeLineEnds(text, size);
    ScanLine(Size, [], text, MAX_SIZE_LINE);
    ScanLastByte(Scanner(Size, text), LF);
    ScanSplit(FRESH, text, [LF]);
  }

  lemma LongSizeLine(text: seq<Byte>)
    requires LF !in text && |text| > MAX_SIZE_LINE
    ensures Scan(FRESH, text + [LF]).scanner.phase == Done
  {
    assert [] + text == text;
    ScanLine(Size, [], text, MAX_SIZE_LINE);
    ScanSplit(FRESH, text, [LF]);
  }

  /**
   A line may also end in a line feed alone (section 2.2 of RFC 9112): any short line of text whose part
   before the first semicolon is a number is a size line.
   */
  lemma BareSizeLine(before: string, ext: string, size: nat)
    requires ';' !in before && (ext == "" || ext[0] == ';') && SaysNumber(before, size, 16)
    requires LF !in EncodeUtf8(before + ext) && |EncodeUtf8(before + ext)| <= MAX_SIZE_LINE
    ensures var line := EncodeUtf8(before + ext);
            Scan(FRESH, line + [LF]) == Scanned(Scanner(AfterSize(size), []), |line| + 1, [])
  {
    EncodeLineFeed(before + ext);
    BareSize(before, ext, size);
    ShortSizeLine(EncodeUtf8(before + ext), Some(size));
  }

  lemma BareSize(before: string, ext: string, size: nat)
    requires ';' !in before && (ext == "" || ext[0] == ';') && SaysNumber(before, size, 16)
    ensures ParseChunkSize(EncodeUtf8(before + ext + "\n")) == Some(size)
  {
    if ext == "" {
      BlankIsExact('\n');
      EndsMayBeCut(before, "\n", size, 16);
      ParseChunkSizeIsExact(before + "\n", "", size);
      assert before + ext + "\n" == before + "\n" + "";
    } else {
      ParseChunkSizeIsExact(before, ext + "\n", size);
      assert before + ext + "\n" == before + (ext + "\n");
    }
  }

  /** The line that ends the trailers may be a line feed alone too. */
  lemma BareBlankLine()
    ensures Scan(IN_TRAILER, [LF]) == Scanned(Scanner(Done, []), 1, [])
  {
    ScanLastByte(IN_TRAILER, LF);
  }

  lemma {:induction false} EncodeLineFeed(text: string)
    ensures EncodeUtf8(text + "\n") == EncodeUtf8(text) + [LF]
    decreases |text|
  {
    if text == "" {
      assert text + "\n" == "\n" && "\n"[1..] == "";
    } else {
      EncodeLineFeed(text[1..]);
      assert (text + "\n")[1..] == text[1..] + "\n";
    }
  }

  lemma HexHasNoLineFeed(l: SizeLine, size: nat)
    requires l.Shaped(size)
    ensures LF !in l.Text()
  {
    WritesIsNumeral(AsciiText(l.digits), size, 16);
    forall i | 0 <= i < |l.digits|
      ensures l.digits[i] != LF
    {
      assert Digit(AsciiText(l.digits)[i]) < 16;
    }
  }

  lemma ScanDataEnd()
    ensures Scan(Scanner(DataCrlf(0), []), CRLF) == Scanned(FRESH, 2, [])
  {
    assert CRLF[1..] == [LF];
    ScanLastByte(Scanner(DataCrlf(1), []), LF);
  }

  lemma ScanData(data: seq<Byte>)
    requires data != []
    ensures Scan(Scanner(Data(|data|), []), data + CRLF) == Scanned(FRESH, |data| + 2, data)
  {
    ScanBlock(|data|, [], data);
    ScanSplit(Scanner(Data(|data|), []), data, CRLF);
    ScanDataEnd();
    assert data + [] == data;
  }

  lemma ScanChunk(c: Chunk)
    requires c.Shaped()
    ensures c.size.Accepted() ==> Scan(FRESH, c.Wire()) == Scanned(FRESH, |c.Wire()|, c.data)
    ensures !c.size.Accepted() ==> Scan(FRESH, c.Wire()).scanner.phase == Done
  {
    ScanSizeLine(c.size, |c.data|);
    ScanSplit(FRESH, c.size.Text() + [LF], c.data + CRLF);
    if c.size.Accepted() {
      ScanData(c.data);
      assert [] + c.data == c.data;
    }
  }

  predicate AllAccepted(chunks: seq<Chunk>) {
    forall i :: 0 <= i < |chunks| ==> chunks[i].size.Accepted()
  }

  lemma {:induction false} ScanChunks(chunks: seq<Chunk>)
    requires forall i :: 0 <= i < |chunks| ==> chunks[i].Shaped()
    ensures AllAccepted(chunks) ==> Scan(FRESH, WireOf(chunks)) == Scanned(FRESH, |WireOf(chunks)|, PayloadOf(chunks))
    ensures !AllAccepted(chunks) ==> Scan(FRESH, WireOf(chunks)).scanner.phase == Done
  {
    if chunks != [] {
      var c, rest := chunks[0], chunks[1..];
      ScanChunk(c);
      ScanChunks(rest);
      ScanSplit(FRESH, c.Wire(), WireOf(rest));
      assert AllAccepted(chunks) <==> c.size.Accepted() && AllAccepted(rest);
    }
  }

  predicate AllShort(trailers: seq<seq<Byte>>) {
    forall i :: 0 <= i < |trailers| ==> |trailers[i]| <= MAX_HEAD
  }

  const IN_TRAILER := Scanner(Trailer, [])

  lemma ShortTrailer(t: seq<Byte>)
    requires t != [] && t != [CR] && LF !in t && |t| <= MAX_HEAD
    ensures Scan(IN_TRAILER, t + [LF]) == Scanned(IN_TRAILER, |t| + 1, [])
  {
    assert [] + t == t;
    ScanLine(Trailer, [], t, MAX_HEAD);
    ScanSplit(IN_TRAILER, t, [LF]);
    ScanLastByte(Scanner(Trailer, t), LF);
    NotBlank(t);
  }

  lemma LongTrailer(t: seq<Byte>)
    requires LF !in t && |t| > MAX_HEAD
    ensures Scan(IN_TRAILER, t + [LF]).scanner.phase == Done
  {
    assert [] + t == t;
    ScanLine(Trailer, [], t, MAX_HEAD);
    ScanSplit(IN_TRAILER, t, [LF]);
  }

  lemma ScanTrailer(t: seq<Byte>)
    requires t != [] && t != [CR] && LF !in t
    ensures |t| <= MAX_HEAD ==> Scan(IN_TRAILER, t + [LF]) == Scanned(IN_TRAILER, |t| + 1, [])
    ensures |t| > MAX_HEAD ==> Scan(IN_TRAILER, t + [LF]).scanner.phase == Done
  {
    if |t| <= MAX_HEAD {
      ShortTrailer(t);
    } else {
      LongTrailer(t);
    }
  }

  lemma NotBlank(t: seq<Byte>)
    requires t != [] && t != [CR]
    ensures t + [LF] != [CR, LF] && t + [LF] != [LF]
  {
    assert (t + [LF])[..|t|] == t;
    assert [CR, LF][..1] == [CR];
  }

  lemma {:induction false} ScanTrailers(trailers: seq<seq<Byte>>)
    requires forall i :: 0 <= i < |trailers| ==> trailers[i] != [] && trailers[i] != [CR] && LF !in trailers[i]
    ensures AllShort(trailers) ==>
              Scan(IN_TRAILER, TrailersOf(trailers)) == Scanned(IN_TRAILER, |TrailersOf(trailers)|, [])
    ensures !AllShort(trailers) ==> Scan(IN_TRAILER, TrailersOf(trailers)).scanner.phase == Done
  {
    if trailers != [] {
      var t, rest := trailers[0], trailers[1..];
      ScanTrailer(t);
      ScanTrailers(rest);
      ScanSplit(IN_TRAILER, t + [LF], TrailersOf(rest));
      assert AllShort(trailers) <==> |t| <= MAX_HEAD && AllShort(rest);
    }
  }

  lemma ScanBlankLine()
    ensures Scan(IN_TRAILER, CRLF) == Scanned(Scanner(Done, []), 2, [])
  {
    assert CRLF[1..] == [LF];
    ScanLastByte(Scanner(Trailer, [CR]), LF);
  }

  lemma ScanEnd(last: SizeLine, trailers: seq<seq<Byte>>)
    requires Coded([], last, trailers).Shaped()
    ensures var tail := last.Text() + [LF] + (TrailersOf(trailers) + CRLF);
            if last.Accepted() && AllShort(trailers)
            then Scan(FRESH, tail) == Scanned(Scanner(Done, []), |tail|, [])
            else Scan(FRESH, tail).used < |tail|
  {
    var size := last.Text() + [LF];
    var after := TrailersOf(trailers) + CRLF;
    ScanSizeLine(last, 0);
    ScanSplit(FRESH, size, after);
    ScanTrailers(trailers);
    ScanSplit(IN_TRAILER, TrailersOf(trailers), CRLF);
    ScanBlankLine();
  }

  // ── any cutting into slices ──────────────────────────────────────────────

  /** Feeding slice after slice until the scanner reports the end of the body. */
  function ScanSlices(sc: Scanner, slices: seq<seq<Byte>>): Scanned
    decreases |slices|
  {
    if slices == [] || sc.phase.Done? then Scanned(sc, 0, [])
    else Scan(sc, slices[0]).Then(ScanSlices(Scan(sc, slices[0]).scanner, slices[1..]))
  }

  lemma {:induction false} SlicesDoNotMatter(sc: Scanner, slices: seq<seq<Byte>>)
    ensures ScanSlices(sc, slices) == Scan(sc, Flatten(slices))
    decreases |slices|
  {
    if slices != [] && !sc.phase.Done? {
      var r := Scan(sc, slices[0]);
      SlicesDoNotMatter(r.scanner, slices[1..]);
      ScanSplit(sc, slices[0], Flatten(slices[1..]));
      if r.scanner.phase.Done? {
        assert r.data + [] == r.data;
      }
    }
  }

  /** The encoded body alone: decoded to its end if and only if it is accepted. */
  lemma ScanCoded(m: Coded)
    requires m.Shaped()
    ensures m.Accepted() ==> Scan(FRESH, m.Wire()) == Scanned(Scanner(Done, []), |m.Wire()|, m.Payload())
    ensures !m.Accepted() ==> Scan(FRESH, m.Wire()).used < |m.Wire()|
    ensures Scan(FRESH, m.Wire()).scanner.phase == Done
  {
    var tail := m.last.Text() + [LF] + (TrailersOf(m.trailers) + CRLF);
    ScanChunks(m.chunks);
    ScanEnd(m.last, m.trailers);
    ScanSplit(FRESH, WireOf(m.chunks), tail);
    assert m.Accepted() <==> AllAccepted(m.chunks) && m.last.Accepted() && AllShort(m.trailers);
    assert m.Payload() + [] == m.Payload();
  }

  /**
   For any body, followed by any further bytes and cut into any slices: the scanner consumes exactly
   the encoded body and captures exactly its payload if and only if the body is accepted.
   */
  lemma DecodeUndoesEncode(m: Coded, further: seq<Byte>, slices: seq<seq<Byte>>)
    requires m.Shaped()
    requires Flatten(slices) == m.Wire() + further
    ensures m.Accepted() <==>
            ScanSlices(FRESH, slices) == Scanned(Scanner(Done, []), |m.Wire()|, m.Payload())
  {
    SlicesDoNotMatter(FRESH, slices);
    ScanCoded(m);
    ScanSplit(FRESH, m.Wire(), further);
  }

  /** An extension that is not UTF-8 ends the body early, although section 7.1 of RFC 9112 admits it. */
  lemma LatinExtensionIsNotDecoded()
    ensures var m := Coded([Chunk(SizeLine([0x31], [SEMICOLON, 0x61, 0x3D, 0x22, 0xE9, 0x22]), [0x78])],
                           SizeLine([0x30], []), []);
            m.Shaped() && !m.Accepted() && Scan(FRESH, m.Wire()).used < |m.Wire()|
  {
    var one := SizeLine([0x31], [SEMICOLON, 0x61, 0x3D, 0x22, 0xE9, 0x22]);
    var m := Coded([Chunk(one, [0x78])], SizeLine([0x30], []), []);
    SingleDigit(0x31);
    SingleDigit(0x30);
    assert one.Shaped(1);
    assert m.last.Shaped(0);
    assert m.chunks[0].Shaped();
    assert DecodeUtf8([0xE9, 0x22]) == None;
    assert one.ext == [SEMICOLON, 0x61, 0x3D, 0x22] + [0xE9, 0x22];
    DecodeAsciiPrefix([SEMICOLON, 0x61, 0x3D, 0x22], [0xE9, 0x22]);
    assert !m.chunks[0].size.Accepted();
    ScanCoded(m);
  }

  lemma SingleDigit(d: Byte)
    requires 0x30 <= d <= 0x39
    ensures IsAscii([d]) && Writes(AsciiText([d]), d - 0x30, 16)
  {
    var t := AsciiText([d]);
    assert t[..0] == "" && Digit(t[0]) == d - 0x30;
    WritesIsNumeral(t, d - 0x30, 16);
  }
}
