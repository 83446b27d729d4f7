/** The client's pump: every byte is forwarded, and a bounded prefix is kept for inspection. */
module Capture {
  import opened Sequences
  import opened ByteStreams
  import opened HttpResponse

  const HEADER_ALLOWANCE: nat := 65_536
  const PUMP_BUFFER: nat := 8192
  const U64: nat := 0x1_0000_0000_0000_0000

  /** The prefix of at most `n` bytes. */
  function Prefix(data: bytes, n: nat): bytes {
    data[..Min(n, |data|)]
  }

  function Limit(maxBody: nat): nat {
    Min(maxBody + HEADER_ALLOWANCE, USIZE_MAX)
  }

  class CaptureBuffer {
    var data: bytes
    const limit: nat

    constructor (maxBody: nat)
      ensures Valid() && data == [] && limit == Limit(maxBody)
    {
      data := [];
      limit := Limit(maxBody);
    }

    ghost predicate Valid()
      reads this
    {
      |data| <= limit
    }

    method Append(more: bytes)
      requires Valid()
      modifies this
      ensures Valid() && data == Prefix(old(data) + more, limit)
    {
      var remaining := if limit >= |data| then limit - |data| else 0;
      var copied := Min(|more|, remaining);
      data := data + more[..copied];
    }
  }

  /** Keeping prefixes as the bytes come keeps the prefix of them all. */
  lemma PrefixOfPrefix(a: bytes, b: bytes, c: bytes, n: nat)
    ensures Prefix(Prefix(a + b, n) + c, n) == Prefix(a + (b + c), n)
  {
    assert a + (b + c) == (a + b) + c;
  }

  lemma WholePrefix(a: bytes, n: nat)
    ensures |a| <= n ==> Prefix(a + [], n) == a
  {
    assert a + [] == a;
  }

  /**
   * All bytes up to the end, or up to a fault, are forwarded unchanged and in order; the sink is
   * shut down only at an orderly end; the buffer holds the first `limit` bytes.
   */
  method ForwardAndCapture(reader: ByteStream, writer: ByteSink, capture: CaptureBuffer)
      returns (total: Option<nat>)
    requires reader.Valid() && capture.Valid()
    modifies reader, writer, capture
    ensures reader.Valid() && capture.Valid() && reader.Unread() == []
    ensures var data := old(reader.Unread());
            && writer.written == old(writer.written) + data
            && capture.data == Prefix(old(capture.data) + data, capture.limit)
            && total == if reader.ending == Closed then Some(|data| % U64) else None
    ensures writer.shutDown == (old(writer.shutDown) || reader.ending == Closed)
  {
    hide Prefix, TakeRun;
    WholePrefix(capture.data, capture.limit);
    ghost var data, written, captured := reader.Unread(), writer.written, capture.data;
    ghost var done: bytes := [];
    var count := 0;
    while true
      invariant reader.Valid() && capture.Valid()
      invariant data == done + reader.Unread() && count == |done| % U64
      invariant writer.written == written + done
      invariant writer.shutDown == old(writer.shutDown)
      invariant capture.data == Prefix(captured + done, capture.limit)
      decreases |reader.Unread()|
    {
      var next := reader.Read(PUMP_BUFFER);
      if next == Fault {
        assert done == data;
        return None;
      }
      if next.data == [] {
        assert done == data;
        writer.Shutdown();
        return Some(count);
      }
      writer.WriteAll(next.data);
      capture.Append(next.data);
      PrefixOfPrefix(captured, done, next.data, capture.limit);
      CountUp(|done|, |next.data|);
      count := (count + |next.data|) % U64;
      done := done + next.data;
    }
  }

  lemma CountUp(a: nat, b: nat)
    ensures (a % U64 + b) % U64 == (a + b) % U64
  {
  }

  // ---- What the inspector makes of the captured bytes ----

  /** Where the body starts: after the first empty line. */
  function BodyOffset(data: bytes): (r: Option<nat>)
    ensures r.Some? ==> 4 <= r.value <= |data| && OccursAt(data, BLANK_LINE, r.value - 4)
    ensures r.Some? ==> forall j :: 0 <= j < r.value - 4 ==> !OccursAt(data, BLANK_LINE, j)
    ensures r.None? ==> forall j :: !OccursAt(data, BLANK_LINE, j)
  {
    match Position(data, BLANK_LINE)
    case None => None
    case Some(p) => Some(p + 4)
  }

  function CapturedBody(captured: bytes, maxBody: nat): Option<bytes> {
    match BodyOffset(captured)
    case None => None
    case Some(offset) =>
      if offset < |captured| then Some(Prefix(captured[offset..], maxBody)) else None
  }

  /** `total` is the pump's count of the whole stream. */
  predicate BodyTruncated(captured: bytes, total: nat, maxBody: nat) {
    match BodyOffset(captured)
    case None => false
    case Some(offset) => (if total >= offset then total - offset else 0) > maxBody
  }

  function OrEmpty(b: Option<bytes>): bytes {
    if b.Some? then b.value else []
  }

  /** The inspector shows the body that was sent, up to its limit, and says if there was more. */
  predicate ShowsBody(data: bytes, head: nat, maxBody: nat)
    requires head <= |data|
  {
    var captured := Prefix(data, Limit(maxBody));
    && OrEmpty(CapturedBody(captured, maxBody)) == Prefix(data[head..], maxBody)
    && (BodyTruncated(captured, |data| % U64, maxBody) <==> |data| - head > maxBody)
  }

  /** Capturing cuts at the limit, which hides a head that ends beyond it and no other. */
  lemma OffsetInPrefix(data: bytes, n: nat)
    ensures var all, seen := BodyOffset(data), BodyOffset(Prefix(data, n));
            seen == if all.Some? && all.value <= n then all else None
  {
    var front := Prefix(data, n);
    assert front + data[|front|..] == data;
    PositionInPrefix(front, data[|front|..], BLANK_LINE);
  }

  /**
   * The inspector is right about a message exactly when its head has at most 65,536 bytes, or the
   * whole message fits the buffer, or there is no body to show.
   */
  lemma ShowsBodyIff(data: bytes, maxBody: nat)
    requires |data| < U64
    ensures var offset := BodyOffset(data);
            offset.Some? ==>
              (ShowsBody(data, offset.value, maxBody)
               <==> (offset.value <= HEADER_ALLOWANCE || |data| <= Limit(maxBody)
                     || |data| == offset.value))
  {
    hide BodyOffset;
    var offset := BodyOffset(data);
    var limit := Limit(maxBody);
    var captured := Prefix(data, limit);
    OffsetInPrefix(data, limit);
    if offset.Some? {
      var head := offset.value;
      if head <= limit {
        assert captured[head..] == data[head..|captured|];
        if |data| <= limit {
          assert captured == data;
        } else if head <= HEADER_ALLOWANCE {
          assert limit == maxBody + HEADER_ALLOWANCE;
          assert captured[head..][..maxBody] == data[head..][..maxBody];
        } else {
          assert |OrEmpty(CapturedBody(captured, maxBody))| <= limit - head;
          assert |Prefix(data[head..], maxBody)| > limit - head;
        }
      }
    }
  }

  /** Without an empty line there is no body, and the inspector shows none. */
  lemma NoHeadNoBody(data: bytes, maxBody: nat)
    requires BodyOffset(data).None?
    ensures var captured := Prefix(data, Limit(maxBody));
            && CapturedBody(captured, maxBody).None?
            && !BodyTruncated(captured, |data| % U64, maxBody)
  {
    OffsetInPrefix(data, Limit(maxBody));
  }
}
