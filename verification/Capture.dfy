/** Captured message bodies: a bounded prefix with an exact byte count. */
module Capture {
  import opened Basics

  const BODY_CAP := 64 * 1024

  datatype BodyData = BodyData(bytes: seq<Byte>, total: nat, truncated: bool) {
    predicate Valid() {
      && |bytes| <= Min(total, BODY_CAP)
      && (|bytes| < BODY_CAP ==> total == |bytes|)
      && truncated == (total > |bytes|)
    }
  }

  type Body = b: BodyData | b.Valid() witness BodyData([], 0, false)

  const EMPTY: Body := BodyData([], 0, false)

  function Push(b: Body, chunk: seq<Byte>): Body {
    var total := b.total + |chunk|;
    var room := BODY_CAP - |b.bytes|;
    if room == 0 then
      BodyData(b.bytes, total, total > |b.bytes|)
    else
      var bytes := b.bytes + chunk[..Min(room, |chunk|)];
      BodyData(bytes, total, total > |bytes|)
  }

  /** What a body that received exactly `data` must look like. */
  function Captured(data: seq<Byte>): Body {
    BodyData(data[..Min(|data|, BODY_CAP)], |data|, |data| > BODY_CAP)
  }

  /** However the data was cut into pushes, the body holds its first BODY_CAP bytes. */
  lemma PushCaptures(data: seq<Byte>, chunk: seq<Byte>)
    ensures Push(Captured(data), chunk) == Captured(data + chunk)
    ensures Captured([]) == EMPTY
  {
    var c := Captured(data);
    if |data| >= BODY_CAP {
      assert (data + chunk)[..BODY_CAP] == data[..BODY_CAP];
    } else {
      assert c.bytes == data;
      assert (data + chunk)[..Min(|data + chunk|, BODY_CAP)] == data + chunk[..Min(BODY_CAP - |data|, |chunk|)];
    }
  }

  lemma PushAppend(b: Body, x: seq<Byte>, y: seq<Byte>)
    ensures Push(Push(b, x), y) == Push(b, x + y)
    ensures Push(b, []) == b
  {
  }
}
