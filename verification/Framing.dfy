/** Control messages on a stream: four big-endian length bytes, then the encoded message. */
module Framing {
  import opened Sequences
  import opened ByteStreams

  const MAX_MESSAGE: nat := 1_048_576
  const U32: nat := 0x1_0000_0000

  /** `(n as u32).to_be_bytes()`: lengths past 2^32 lose their high bits. */
  function ToBigEndian(n: nat): (b: bytes)
    ensures |b| == 4
  {
    [n / 0x100_0000 % 0x100, n / 0x1_0000 % 0x100, n / 0x100 % 0x100, n % 0x100]
  }

  function FromBigEndian(b: bytes): (n: nat)
    requires |b| == 4
    ensures n < U32
  {
    var b0: int, b1: int, b2: int, b3: int := b[0], b[1], b[2], b[3];
    b0 * 0x100_0000 + b1 * 0x1_0000 + b2 * 0x100 + b3
  }

  lemma MostSignificantFirst(a: byte, b: byte, c: byte, d: byte)
    ensures FromBigEndian([a, b, c, d]) == ((a as int * 0x100 + b) * 0x100 + c) * 0x100 + d
  {
  }

  lemma {:induction false} LengthReadsBack(n: nat)
    ensures FromBigEndian(ToBigEndian(n)) == n % U32
  {
    var a, b, c := n / 0x100, n / 0x1_0000, n / 0x100_0000;
    assert b == a / 0x100 && c == b / 0x100;
  }

  function Encode(message: bytes): bytes {
    ToBigEndian(|message|) + message
  }

  function EncodeAll(messages: seq<bytes>): bytes {
    if messages == [] then [] else Encode(messages[0]) + EncodeAll(messages[1..])
  }

  datatype Received = Message(data: bytes) | TooLarge(len: nat) | Incomplete

  /** `rest` is what the reader leaves unread. */
  datatype Parsed = Parsed(received: Received, rest: bytes)

  function Parse(data: bytes): Parsed {
    if |data| < 4 then Parsed(Incomplete, [])
    else
      var len := FromBigEndian(data[..4]);
      if len > MAX_MESSAGE then Parsed(TooLarge(len), data[4..])
      else if |data| - 4 < len then Parsed(Incomplete, [])
      else Parsed(Message(data[4..4 + len]), data[4 + len..])
  }

  /** `count` messages one after another; None as soon as one is refused or cut short. */
  function ParseMany(data: bytes, count: nat): Option<(seq<bytes>, bytes)> {
    if count == 0 then Some(([], data))
    else
      match Parse(data)
      case Parsed(Message(message), rest) =>
        (match ParseMany(rest, count - 1)
         case Some((messages, tail)) => Some(([message] + messages, tail))
         case None => None)
      case _ => None
  }

  // ---- Reading and writing ----

  /** `read_exact`: all `n` bytes, or nothing once the stream ends or fails. */
  method ReadExact(stream: ByteStream, n: nat) returns (r: Option<bytes>)
    requires stream.Valid()
    modifies stream
    ensures stream.Valid()
    ensures var unread := old(stream.Unread());
            if n <= |unread| then r == Some(unread[..n]) && stream.Unread() == unread[n..]
            else r == None && stream.Unread() == []
    ensures r.Some? ==> ReadsAbove(old(stream.trace), stream.trace, |stream.Unread()|)
  {
    ghost var unread := stream.Unread();
    var got: bytes := [];
    while |got| < n
      invariant stream.Valid()
      invariant |got| <= n && unread == got + stream.Unread()
      invariant ReadsAbove(old(stream.trace), stream.trace, |unread| - n)
      decreases |stream.Unread()|
    {
      var next := stream.Read(n - |got|);
      if next == Fault || next.data == [] {
        return None;
      }
      got := got + next.data;
    }
    r := Some(got);
  }

  /** Reading a message is the one-shot parse, however the bytes arrive. */
  method ReadMessage(stream: ByteStream) returns (r: Received)
    requires stream.Valid()
    modifies stream
    ensures stream.Valid()
    ensures Parsed(r, stream.Unread()) == Parse(old(stream.Unread()))
    ensures !r.Incomplete? ==> ReadsAbove(old(stream.trace), stream.trace, |stream.Unread()|)
  {
    ghost var unread, before := stream.Unread(), stream.trace;
    var header := ReadExact(stream, 4);
    if header == None {
      return Incomplete;
    }
    var len := FromBigEndian(header.value);
    if len > MAX_MESSAGE {
      return TooLarge(len);
    }
    ghost var middle, high := stream.trace, |stream.Unread()|;
    var body := ReadExact(stream, len);
    if body == None {
      return Incomplete;
    }
    assert unread[4..][..len] == unread[4..4 + len] && unread[4..][len..] == unread[4 + len..];
    ReadsCompose(before, middle, stream.trace, |stream.Unread()|, high);
    r := Message(body.value);
  }

  method WriteMessage(out: ByteSink, message: bytes)
    modifies out
    ensures out.written == old(out.written) + Encode(message) && out.shutDown == old(out.shutDown)
  {
    out.WriteAll(ToBigEndian(|message|));
    out.WriteAll(message);
  }

  // ---- Round trips ----

  /** What a written message reads back as, whatever its size and whatever follows. */
  lemma {:induction false} WrittenReadsAs(message: bytes, tail: bytes)
    ensures var len := |message| % U32;
            Parse(Encode(message) + tail)
            == if len > MAX_MESSAGE then Parsed(TooLarge(len), message + tail)
               else Parsed(Message(message[..len]), message[len..] + tail)
  {
    hide FromBigEndian, ToBigEndian;
    var data := Encode(message) + tail;
    var len := |message| % U32;
    LengthReadsBack(|message|);
    assert data[..4] == ToBigEndian(|message|) && data[4..] == message + tail;
    assert len <= |message|;
    assert data[4..4 + len] == message[..len] && data[4 + len..] == message[len..] + tail;
  }

  /**
   * A message is read back exactly when it has at most 1,048,576 bytes. A longer one is refused,
   * or, past 2^32, cut short so that its end is taken for what follows.
   */
  lemma ReadsBackIff(message: bytes, tail: bytes)
    ensures Parse(Encode(message) + tail) == Parsed(Message(message), tail)
            <==> |message| <= MAX_MESSAGE
  {
    hide Parse, Encode;
    WrittenReadsAs(message, tail);
    if |message| <= MAX_MESSAGE {
      assert message[..|message|] == message && message[|message|..] + tail == tail;
    }
  }

  /** A sequence of messages, read one after another, is the sequence that was written. */
  lemma {:induction false} AllReadBack(messages: seq<bytes>, tail: bytes)
    requires forall i | 0 <= i < |messages| :: |messages[i]| <= MAX_MESSAGE
    ensures ParseMany(EncodeAll(messages) + tail, |messages|) == Some((messages, tail))
  {
    hide Parse, Encode;
    if messages == [] {
      assert EncodeAll(messages) + tail == tail;
    } else {
      var rest := EncodeAll(messages[1..]) + tail;
      assert EncodeAll(messages) + tail == Encode(messages[0]) + rest;
      ReadsBackIff(messages[0], rest);
      AllReadBack(messages[1..], tail);
      assert [messages[0]] + messages[1..] == messages;
    }
  }
}
