/** The adapter that lets a WebSocket carry a byte stream: frames in, reads of any size out. */
module WebSocketPipe {
  import opened Sequences

  /** What one poll of the inner WebSocket stream can produce; past the last item it has ended. */
  datatype Item =
    | Binary(data: bytes)
    | Close
    | Ping
    | Pong
    | Text
    | Raw
    | Failed
    | NotReady

  datatype Poll = Ready(len: nat) | Error | Pending

  datatype State = State(incoming: seq<Item>, readBuf: bytes, closed: bool)

  /** Frames that carry no bytes of the stream and do not end it. */
  predicate IsSilent(i: Item) {
    i.Ping? || i.Pong? || i.Text? || i.Raw? || i == Binary([])
  }

  /** The bytes of the stream: every Binary payload before the first Close, or before the end. */
  function Payload(items: seq<Item>): bytes {
    if items == [] || items[0].Close? then []
    else (if items[0].Binary? then items[0].data else []) + Payload(items[1..])
  }

  /** What a reader has still to get. */
  function Remaining(s: State): bytes {
    if s.closed then [] else s.readBuf + Payload(s.incoming)
  }

  function SkipSilent(items: seq<Item>): (rest: seq<Item>)
    ensures |rest| <= |items|
    ensures rest != [] ==> !IsSilent(rest[0])
    ensures Payload(rest) == Payload(items)
  {
    if items != [] && IsSilent(items[0]) then SkipSilent(items[1..]) else items
  }

  datatype Polled = Polled(state: State, result: Poll, data: bytes)

  /** One poll for at most `max` bytes. */
  function Step(s: State, max: nat): Polled {
    if s.closed then Polled(s, Ready(0), [])
    else if s.readBuf != [] then
      var len := Min(max, |s.readBuf|);
      Polled(s.(readBuf := s.readBuf[len..]), Ready(len), s.readBuf[..len])
    else
      var items := SkipSilent(s.incoming);
      if items == [] then Polled(State([], [], true), Ready(0), [])
      else
        var s' := State(items[1..], [], false);
        match items[0]
        case Binary(data) =>
          var len := Min(max, |data|);
          Polled(s'.(readBuf := data[len..]), Ready(len), data[..len])
        case Close => Polled(s'.(closed := true), Ready(0), [])
        case Failed => Polled(s', Error, [])
        case _ => Polled(s', Pending, [])
  }

  class WsCompat {
    var incoming: seq<Item>
    var outgoing: seq<Item>
    var readBuf: bytes
    var closed: bool

    constructor (incoming: seq<Item>)
      ensures View() == State(incoming, [], false) && outgoing == []
    {
      this.incoming := incoming;
      outgoing, readBuf, closed := [], [], false;
    }

    function View(): State
      reads this
    {
      State(incoming, readBuf, closed)
    }

    method PollRead(buf: array<byte>) returns (r: Poll)
      modifies `incoming, `readBuf, `closed, buf
      ensures var step := Step(old(View()), buf.Length);
              && View() == step.state && r == step.result
              && |step.data| <= buf.Length
              && buf[..] == step.data + old(buf[..])[|step.data|..]
    {
      hide Payload;
      if closed {
        return Ready(0);
      }
      if readBuf != [] {
        var len := CopyPrefix(buf, readBuf);
        readBuf := readBuf[len..];
        return Ready(len);
      }
      ghost var skipped := SkipSilent(incoming);
      while true
        invariant !closed && readBuf == [] && SkipSilent(incoming) == skipped
        invariant buf[..] == old(buf[..])
        decreases |incoming|
      {
        if incoming == [] {
          closed := true;
          return Ready(0);
        }
        var item := incoming[0];
        incoming := incoming[1..];
        match item {
          case Binary(data) =>
            if data == [] {
              continue;
            }
            var len := CopyPrefix(buf, data);
            if len < |data| {
              readBuf := readBuf + data[len..];
            }
            return Ready(len);
          case Close =>
            closed := true;
            return Ready(0);
          case Ping =>
          case Pong =>
          case Text =>
          case Raw =>
          case Failed => return Error;
          case NotReady => return Pending;
        }
      }
    }

    /** `ready` is what the sink's readiness poll says, `accepted` whether it then takes the frame. */
    method PollWrite(data: bytes, ready: Poll, accepted: bool) returns (r: Poll)
      modifies `outgoing
      ensures (r.Ready? <==> ready.Ready? && accepted) && (r.Ready? ==> r.len == |data|)
      ensures r.Pending? <==> ready.Pending?
      ensures outgoing == if r.Ready? then old(outgoing) + [Binary(data)] else old(outgoing)
    {
      match ready {
        case Ready(_) =>
          if !accepted {
            return Error;
          }
          outgoing := outgoing + [Binary(data)];
          return Ready(|data|);
        case Error => return Error;
        case Pending => return Pending;
      }
    }
  }

  /** Copies as much of `data` as fits. */
  method CopyPrefix(buf: array<byte>, data: bytes) returns (len: nat)
    modifies buf
    ensures len == Min(buf.Length, |data|)
    ensures buf[..] == data[..len] + old(buf[..])[len..]
  {
    len := Min(buf.Length, |data|);
    for i := 0 to len
      invariant buf[..i] == data[..i]
      invariant buf[i..] == old(buf[..])[i..]
    {
      buf[i] := data[i];
    }
  }

  // ---- One poll ----

  /** A poll hands over exactly the next bytes; an error or a pending poll loses none. */
  lemma StepConserves(s: State, max: nat)
    ensures var step := Step(s, max);
            && Remaining(s) == step.data + Remaining(step.state)
            && |step.data| <= max
            && (if step.result.Ready? then |step.data| == step.result.len else step.data == [])
            && (s.closed ==> Remaining(s) == [] && step == Polled(s, Ready(0), []))
  {
    hide Payload, SkipSilent, IsSilent;
    if !s.closed && s.readBuf == [] {
      var items := SkipSilent(s.incoming);
      FirstItem(items);
      if items != [] && items[0].Binary? {
        Halves(items[0].data, max, Payload(items[1..]));
      }
    } else if !s.closed {
      Halves(s.readBuf, max, Payload(s.incoming));
    }
  }

  lemma FirstItem(items: seq<Item>)
    ensures items == [] || items[0].Close? ==> Payload(items) == []
    ensures items != [] && items[0].Binary? ==>
              Payload(items) == items[0].data + Payload(items[1..])
    ensures items != [] && !items[0].Binary? && !items[0].Close? ==>
              Payload(items) == Payload(items[1..])
  {
  }

  lemma Halves(data: bytes, max: nat, tail: bytes)
    ensures var len := Min(max, |data|);
            data + tail == data[..len] + (data[len..] + tail)
  {
  }

  /** Into a non-empty buffer, a read of zero bytes and the end of the stream are the same thing. */
  lemma ZeroMeansEnd(s: State, max: nat)
    requires max > 0
    ensures Step(s, max).result == Ready(0) <==> Step(s, max).state.closed
    ensures Step(s, max).result == Ready(0) ==> Remaining(s) == []
  {
    StepConserves(s, max);
  }

  /** Until the end is reached, a poll uses up an item or delivers a byte. */
  lemma StepProgresses(s: State, max: nat)
    requires max > 0 && !s.closed
    ensures var s' := Step(s, max).state;
            s'.closed || |s'.incoming| + |Remaining(s')| < |s.incoming| + |Remaining(s)|
  {
    StepConserves(s, max);
  }

  // ---- What an answer means ----

  function CountOf(items: seq<Item>, kind: Item): nat {
    if items == [] then 0 else (if items[0] == kind then 1 else 0) + CountOf(items[1..], kind)
  }

  lemma {:induction false} SilentCount(items: seq<Item>, kind: Item)
    requires kind == Failed || kind == NotReady
    ensures CountOf(SkipSilent(items), kind) == CountOf(items, kind)
  {
    if items != [] && IsSilent(items[0]) {
      SilentCount(items[1..], kind);
    }
  }

  /**
   * A poll answers with an error exactly when it used up a failure of the inner stream, and with
   * pending exactly when it used up a poll of it that found nothing.
   */
  lemma StepAccounts(s: State, max: nat)
    ensures var step := Step(s, max);
            && CountOf(s.incoming, Failed)
               == CountOf(step.state.incoming, Failed) + (if step.result.Error? then 1 else 0)
            && CountOf(s.incoming, NotReady)
               == CountOf(step.state.incoming, NotReady) + (if step.result.Pending? then 1 else 0)
  {
    hide SkipSilent, CountOf;
    SilentCount(s.incoming, Failed);
    SilentCount(s.incoming, NotReady);
    var items := SkipSilent(s.incoming);
    CountFirst(items, Failed);
    CountFirst(items, NotReady);
  }

  lemma CountFirst(items: seq<Item>, kind: Item)
    ensures items != [] ==>
              CountOf(items, kind) == (if items[0] == kind then 1 else 0) + CountOf(items[1..], kind)
    ensures items == [] ==> CountOf(items, kind) == 0
  {
  }

  /** A frame that fits the buffer is handed over whole; of a longer one, the buffer is filled. */
  lemma FrameInOnePoll(data: bytes, rest: seq<Item>, max: nat)
    requires data != []
    ensures Step(State([Binary(data)] + rest, [], false), max)
            == Polled(State(rest, data[Min(max, |data|)..], false), Ready(Min(max, |data|)),
                      data[..Min(max, |data|)])
  {
    var items := [Binary(data)] + rest;
    assert items[1..] == rest && SkipSilent(items) == items;
  }

  // ---- Whole runs ----

  datatype Drained =
    Drained(state: State, out: bytes, sawZero: bool, errors: nat, pendings: nat)

  /** Polls with buffers of the given sizes, one after another. */
  function Drain(s: State, sizes: seq<nat>): Drained
    decreases |sizes|
  {
    if sizes == [] then Drained(s, [], false, 0, 0)
    else
      var d := Drain(s, sizes[..|sizes| - 1]);
      var max := sizes[|sizes| - 1];
      var step := Step(d.state, max);
      Drained(step.state, d.out + step.data,
              d.sawZero || (max > 0 && step.result == Ready(0)),
              d.errors + (if step.result.Error? then 1 else 0),
              d.pendings + (if step.result.Pending? then 1 else 0))
  }

  lemma NoPolls(s: State)
    ensures Drain(s, []) == Drained(s, [], false, 0, 0)
  {
  }

  /**
   * However the reader's buffers are sized, the bytes it gets are a prefix of the payload, what
   * it has not got is still to come, and a zero read tells it that nothing is.
   */
  lemma {:induction false} DrainConserves(s: State, sizes: seq<nat>)
    requires !s.closed
    ensures var d := Drain(s, sizes);
            && Remaining(s) == d.out + Remaining(d.state)
            && (d.sawZero ==> d.state.closed && d.out == Remaining(s))
    decreases |sizes|
  {
    hide Step, Remaining;
    NoPolls(s);
    if sizes != [] {
      var front, max := sizes[..|sizes| - 1], sizes[|sizes| - 1];
      DrainConserves(s, front);
      var d := Drain(s, front);
      StepConserves(d.state, max);
      if max > 0 {
        ZeroMeansEnd(d.state, max);
      }
      var step := Step(d.state, max);
      assert d.out + (step.data + Remaining(step.state))
             == (d.out + step.data) + Remaining(step.state);
    }
  }

  /**
   * A run answers with as many errors as the inner stream had failures, and with as many pendings
   * as it had polls that found nothing, among the items the run used up.
   */
  lemma {:induction false} DrainAccounts(s: State, sizes: seq<nat>)
    ensures var d := Drain(s, sizes);
            && CountOf(s.incoming, Failed) == CountOf(d.state.incoming, Failed) + d.errors
            && CountOf(s.incoming, NotReady) == CountOf(d.state.incoming, NotReady) + d.pendings
    decreases |sizes|
  {
    hide Step, CountOf;
    if sizes != [] {
      var front := sizes[..|sizes| - 1];
      DrainAccounts(s, front);
      StepAccounts(Drain(s, front).state, sizes[|sizes| - 1]);
    }
  }

  /** The end is permanent: whatever is read after a zero read is empty. */
  lemma {:induction false} EndIsPermanent(s: State, sizes: seq<nat>, more: seq<nat>)
    requires !s.closed && Drain(s, sizes).sawZero
    ensures Drain(s, sizes + more) == Drain(s, sizes)
    decreases |more|
  {
    hide Step, Remaining;
    DrainConserves(s, sizes);
    StepConserves(Drain(s, sizes).state, if more == [] then 0 else more[|more| - 1]);
    if more == [] {
      assert sizes + more == sizes;
    } else {
      var front := more[..|more| - 1];
      EndIsPermanent(s, sizes, front);
      assert (sizes + more)[..|sizes + more| - 1] == sizes + front;
    }
  }

  /** Enough reads into non-empty buffers deliver everything and reach the end. */
  lemma {:induction false} EverythingArrives(s: State, sizes: seq<nat>)
    requires !s.closed
    requires forall i | 0 <= i < |sizes| :: sizes[i] > 0
    ensures var d := Drain(s, sizes);
            && (d.state.closed <==> d.sawZero)
            && (!d.sawZero ==>
                  |d.state.incoming| + |Remaining(d.state)| + |sizes|
                  <= |s.incoming| + |Remaining(s)|)
            && (|sizes| > |s.incoming| + |Remaining(s)| ==> d.sawZero && d.out == Remaining(s))
    decreases |sizes|
  {
    hide Step, Remaining;
    DrainConserves(s, sizes);
    if sizes != [] {
      var front, max := sizes[..|sizes| - 1], sizes[|sizes| - 1];
      EverythingArrives(s, front);
      var d := Drain(s, front);
      StepConserves(d.state, max);
      ZeroMeansEnd(d.state, max);
      if !d.state.closed {
        StepProgresses(d.state, max);
      }
    }
  }

  // ---- From one end to the other ----

  /** `items` is `sent` with frames that carry no bytes, and polls that find nothing, put between. */
  predicate Carries(items: seq<Item>, sent: seq<Item>) {
    if items == [] then sent == []
    else if IsSilent(items[0]) || items[0].NotReady? then
      Carries(items[1..], sent) || (sent != [] && items[0] == sent[0] && Carries(items[1..], sent[1..]))
    else sent != [] && items[0] == sent[0] && Carries(items[1..], sent[1..])
  }

  function Frames(writes: seq<bytes>): seq<Item> {
    seq(|writes|, i requires 0 <= i < |writes| => Binary(writes[i]))
  }

  lemma {:induction false} FramesCarryTheBytes(items: seq<Item>, writes: seq<bytes>)
    requires Carries(items, Frames(writes))
    ensures Payload(items) == Flatten(writes)
    decreases |items|
  {
    if items != [] {
      var sent := Frames(writes);
      if writes != [] {
        assert sent[1..] == Frames(writes[1..]);
      }
      if Carries(items[1..], sent) && (IsSilent(items[0]) || items[0].NotReady?) {
        FramesCarryTheBytes(items[1..], writes);
      } else {
        FramesCarryTheBytes(items[1..], writes[1..]);
      }
    }
  }

  lemma NothingBuffered(items: seq<Item>)
    ensures Remaining(State(items, [], false)) == Payload(items)
  {
  }

  /**
   * What one end writes, the other end reads: every read into a non-empty buffer gives the next
   * bytes written, and after enough of them all have been read.
   */
  lemma {:induction false} WritesReadBack(writes: seq<bytes>, items: seq<Item>, sizes: seq<nat>)
    requires Carries(items, Frames(writes))
    requires forall i | 0 <= i < |sizes| :: sizes[i] > 0
    ensures var d := Drain(State(items, [], false), sizes);
            && d.out <= Flatten(writes)
            && (d.sawZero ==> d.out == Flatten(writes))
            && (|sizes| > |items| + |Flatten(writes)| ==> d.sawZero)
  {
    hide *;
    var s := State(items, [], false);
    FramesCarryTheBytes(items, writes);
    NothingBuffered(items);
    DrainConserves(s, sizes);
    EverythingArrives(s, sizes);
  }
}
