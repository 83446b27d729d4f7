/**
 * The incremental response reader: it pulls bytes from a stream in reads of arbitrary size,
 * keeps what it has not used yet in `buffered`, and answers with one decoded response.
 */
module ResponseReading {
  import opened Sequences
  import opened Text
  import opened ByteStreams
  import opened HttpResponse
  import opened Cuttings
  import opened LineReading

  datatype Answer = NoAnswer | Answer(status: nat, headers: seq<Header>, body: bytes)

  function AnswerOf(p: Parsed): Answer {
    match p
    case Failed => NoAnswer
    case Response(status, headers, body, _) => Answer(status, headers, body)
  }

  /** `after` is `before` without its first `n` bytes. */
  ghost predicate Dropped(before: seq<bytes>, after: seq<bytes>, n: nat) {
    WellFormed(before) && n <= |Flatten(before)| && after == DropBytes(before, n)
  }

  lemma DroppedNone(runs: seq<bytes>)
    requires WellFormed(runs)
    ensures Dropped(runs, runs, 0)
  {
  }

  lemma DroppedTwice(a: seq<bytes>, b: seq<bytes>, c: seq<bytes>, m: nat, n: nat)
    requires Dropped(a, b, m) && Dropped(b, c, n)
    ensures Dropped(a, c, m + n)
  {
    DropTwice(a, m, n);
  }

  /** No run boundary with `required` bytes before it was read past; `held` were there at first. */
  ghost predicate StoppedShort(runs: seq<bytes>, held: nat, required: nat, now: nat) {
    forall n: nat | IsBoundary(runs, n) && required <= held + n :: now <= held + n
  }

  lemma StoppedAtFirst(runs: seq<bytes>, held: nat, required: nat)
    ensures StoppedShort(runs, held, required, held)
  {
  }

  lemma StillShort(runs: seq<bytes>, arrivals: seq<bytes>, held: nat, required: nat, before: nat)
    requires held <= before < required && Dropped(runs, arrivals, before - held)
    ensures StoppedShort(runs, held, required, before + |TakeRun(arrivals, READ_BUFFER_SIZE).data|)
  {
    hide IsBoundary, DropBytes, TakeRun;
    forall n: nat | IsBoundary(runs, n) && required <= held + n
      ensures before + |TakeRun(arrivals, READ_BUFFER_SIZE).data| <= held + n {
      ReadStaysWithin(runs, before - held, n, READ_BUFFER_SIZE);
    }
  }

  /** Both cuttings end a run at a CRLF, so reading that needs no more stops there at the latest. */
  lemma StoppedAtCrlf(how: Cutting, data: bytes, e: nat, required: nat, arrivals: seq<bytes>, now: nat)
    requires 2 <= e && OccursAt(data, CRLF, e - 2) && required <= e
    requires StoppedShort(Cut(how, data), 0, required, now) && Dropped(Cut(how, data), arrivals, now)
    ensures now <= e && WellFormed(arrivals) && IsBoundary(arrivals, e - now)
    ensures Dropped(arrivals, Cut(how, data[e..]), e - now)
  {
    hide IsBoundary, DropBytes, Cut, OccursAt, Flatten, WellFormed;
    var runs := Cut(how, data);
    CutAfterCrlf(how, data, e);
    BoundaryWithin(runs, e);
    assert IsBoundary(runs, e) && required <= 0 + e;
    assert now <= e && arrivals == DropBytes(runs, now);
    BoundaryAfterDrop(runs, now, e);
    DropTwice(runs, now, e - now);
    assert |Flatten(arrivals)| == |Flatten(runs)| - now;
  }

  /** A header section ends with a CRLF. */
  lemma SectionFinished(how: Cutting, data: bytes, arrivals: seq<bytes>, now: nat)
    requires HeaderSection(data).Piece? && |HeaderSection(data).data| <= now
    requires StoppedShort(Cut(how, data), 0, |HeaderSection(data).data|, now)
    requires Dropped(Cut(how, data), arrivals, now)
    ensures now == |HeaderSection(data).data| && arrivals == Cut(how, HeaderSection(data).rest)
  {
    hide Cut, StoppedShort;
    var p := Position(data, BLANK_LINE).value;
    assert data[p..p + 4][2..4] == data[p + 2..p + 4] && BLANK_LINE[2..4] == CRLF;
    StoppedAtCrlf(how, data, p + 4, p + 4, arrivals, now);
  }

  /** After a chunk's content was taken, waiting for its CRLF ends with that CRLF. */
  lemma ChunkFinished(how: Cutting, data: bytes, size: nat, middle: seq<bytes>, taken: nat,
                      arrivals: seq<bytes>, now: nat)
    requires OccursAt(data, CRLF, size) && size <= taken && 2 <= now && taken - size <= now
    requires StoppedShort(Cut(how, data), 0, size, taken) && Dropped(Cut(how, data), middle, taken)
    requires StoppedShort(middle, taken - size, 2, now)
    requires Dropped(middle, arrivals, now - (taken - size))
    ensures now == 2 && arrivals == Cut(how, data[size + 2..])
  {
    hide Cut, OccursAt;
    StoppedAtCrlf(how, data, size + 2, size, middle, taken);
    assert IsBoundary(middle, size + 2 - taken);
  }

  /** Decoding `all` comes down to decoding `data` behind the content decoded so far. */
  ghost predicate Reached(all: bytes, room: nat, content: bytes, data: bytes, maxLine: nat) {
    && |content| <= room
    && Chunked(all, room, maxLine) == Prepend(content, Chunked(data, room - |content|, maxLine))
  }

  lemma ReachedStart(all: bytes, room: nat, maxLine: nat)
    ensures Reached(all, room, [], all, maxLine)
  {
    hide Chunked;
    var piece := Chunked(all, room, maxLine);
    if piece.Piece? {
      assert [] + piece.data == piece.data;
    }
  }

  lemma ReachedNext(all: bytes, room: nat, content: bytes, data: bytes, maxLine: nat)
    requires Reached(all, room, content, data, maxLine)
    ensures var step := NextChunk(data, room - |content|, maxLine);
            && (step.BadChunk? ==> Chunked(all, room, maxLine).NoPiece?)
            && (step.LastChunk? ==>
                  Chunked(all, room, maxLine) == Prepend(content, Trailers(step.rest, maxLine)))
            && (step.DataChunk? ==> Reached(all, room, content + step.data, step.rest, maxLine))
  {
    hide NextChunk, Trailers;
    var step := NextChunk(data, room - |content|, maxLine);
    if step.DataChunk? {
      var piece := Chunked(step.rest, room - |content| - |step.data|, maxLine);
      if piece.Piece? {
        assert content + (step.data + piece.data) == content + step.data + piece.data;
      }
    }
  }

  /** An empty line in the buffer ends the section of all the bytes, if it is not too long. */
  lemma SectionFound(buffered: bytes, tail: bytes)
    requires Position(buffered, BLANK_LINE).Some?
    ensures var end := Position(buffered, BLANK_LINE).value + 4;
            && end <= |buffered|
            && HeaderSection(buffered + tail)
               == if end > MAX_RESPONSE_HEADERS then NoPiece
                  else Piece(buffered[..end], (buffered + tail)[end..])
  {
    PositionInPrefix(buffered, tail, BLANK_LINE);
    var end := Position(buffered, BLANK_LINE).value + 4;
    assert (buffered + tail)[..end] == buffered[..end];
  }

  /** Without one, the section goes on beyond the buffer. */
  lemma SectionOpen(buffered: bytes, tail: bytes)
    requires Position(buffered, BLANK_LINE).None?
    ensures var whole := HeaderSection(buffered + tail);
            whole.Piece? ==>
              |buffered| < |whole.data| <= MAX_RESPONSE_HEADERS && |whole.data| <= |buffered| + |tail|
  {
    PositionInPrefix(buffered, tail, BLANK_LINE);
  }

  datatype ChunkRead = Refused | Final | Content(data: bytes)

  class ResponseReader {
    const stream: ByteStream
    var buffered: bytes
    /** A way the bytes may be cut, for what the contracts say of it. */
    ghost const cut: Cutting

    constructor (stream: ByteStream, ghost cut: Cutting)
      requires stream.Valid()
      ensures Valid() && this.stream == stream && buffered == [] && this.cut == cut
    {
      this.stream := stream;
      this.cut := cut;
      buffered := [];
    }

    ghost predicate Valid()
      reads this, stream
    {
      stream.Valid()
    }

    /** Everything the peer sent that has not been used: buffered, then still to be read. */
    ghost function Data(): bytes
      reads this, stream
    {
      buffered + stream.Unread()
    }

    /** No more is held than one read past the longest header section. */
    predicate Small()
      reads this
    {
      |buffered| <= MAX_BUFFERED
    }

    /** Nothing was read ahead, and what is to come is cut as `cut` says. */
    ghost predicate InStep()
      reads this, stream
    {
      buffered == [] && stream.arrivals == Cut(cut, stream.Unread())
    }

    /** One read appended to the buffer; false at the end of the stream. */
    method ReadMore() returns (more: bool)
      requires Valid()
      modifies this, stream
      ensures Valid() && Data() == old(Data())
      ensures stream.trace == old(stream.trace) + [|old(stream.Unread())|]
      ensures more <==> old(stream.arrivals) != []
      ensures more ==> var t := TakeRun(old(stream.arrivals), READ_BUFFER_SIZE);
                       buffered == old(buffered) + t.data && stream.arrivals == t.left
      ensures !more ==> buffered == old(buffered) && stream.Unread() == []
      ensures Dropped(old(stream.arrivals), stream.arrivals, |buffered| - old(|buffered|))
    {
      ReadDrops(stream.arrivals, READ_BUFFER_SIZE);
      var r := stream.Read(READ_BUFFER_SIZE);
      if r.Fault? || r.data == [] {
        return false;
      }
      buffered := buffered + r.data;
      more := true;
    }

    /** A run boundary that has what is required before it is not read past. */
    method EnsureBuffered(required: nat) returns (ok: bool)
      requires Valid()
      modifies this, stream
      ensures Valid() && Data() == old(Data())
      ensures ok <==> required <= |Data()|
      ensures ok ==> required <= |buffered|
      ensures ReadsAbove(old(stream.trace), stream.trace, |Data()| - required)
      ensures old(|buffered|) <= |buffered|
      ensures |buffered| <= old(|buffered|) || |buffered| < required + READ_BUFFER_SIZE
      ensures Dropped(old(stream.arrivals), stream.arrivals, |buffered| - old(|buffered|))
      ensures StoppedShort(old(stream.arrivals), old(|buffered|), required, |buffered|)
      ensures ok && required == old(|buffered|) + 1 ==>
                var t := TakeRun(old(stream.arrivals), READ_BUFFER_SIZE);
                buffered == old(buffered) + t.data && stream.arrivals == t.left
    {
      hide Dropped, StoppedShort, TakeRun;
      ghost var runs, held := stream.arrivals, |buffered|;
      DroppedNone(runs);
      StoppedAtFirst(runs, held, required);
      while |buffered| < required
        invariant Valid() && Data() == old(Data())
        invariant ReadsAbove(old(stream.trace), stream.trace, |Data()| - required)
        invariant held <= |buffered|
        invariant |buffered| <= held || |buffered| < required + READ_BUFFER_SIZE
        invariant Dropped(runs, stream.arrivals, |buffered| - held)
        invariant StoppedShort(runs, held, required, |buffered|)
        invariant || (buffered == old(buffered) && stream.arrivals == old(stream.arrivals))
                  || (var t := TakeRun(old(stream.arrivals), READ_BUFFER_SIZE);
                      buffered == old(buffered) + t.data && stream.arrivals == t.left)
                  || required > held + 1
        decreases |stream.Unread()|
      {
        ghost var before, arrivals := |buffered|, stream.arrivals;
        var more := ReadMore();
        if !more {
          return false;
        }
        StillShort(runs, arrivals, held, required, before);
        DroppedTwice(runs, arrivals, stream.arrivals, before - held, |buffered| - before);
      }
      ok := true;
    }

    method TakeBuffered(length: nat) returns (taken: bytes)
      requires Valid()
      modifies this
      ensures Valid()
      ensures taken == old(buffered)[..Min(length, old(|buffered|))]
      ensures old(buffered) == taken + buffered && old(Data()) == taken + Data()
    {
      var n := Min(length, |buffered|);
      taken := buffered[..n];
      buffered := buffered[n..];
      assert old(buffered) == taken + buffered;
    }

    method ReadHeaderSection() returns (end: Option<nat>)
      requires Valid() && Small()
      modifies this, stream
      ensures Valid() && Data() == old(Data()) && Small()
      ensures end.None? ==> HeaderSection(Data()).NoPiece?
      ensures end.Some? ==> 4 <= end.value <= |buffered|
      ensures end.Some? ==> HeaderSection(Data()) == Piece(buffered[..end.value], Data()[end.value..])
      ensures end.Some? ==> ReadsAbove(old(stream.trace), stream.trace, |Data()| - end.value)
      ensures end.Some? && old(InStep()) ==>
                |buffered| == end.value && stream.arrivals == Cut(cut, stream.Unread())
    {
      hide Dropped, StoppedShort, TakeRun, Cut, HeaderSection, Position;
      ghost var all, runs, held := Data(), stream.arrivals, |buffered|;
      ghost var inStep, whole := InStep(), HeaderSection(all);
      ghost var section := if whole.Piece? then |whole.data| else |all|;
      DroppedNone(runs);
      StoppedAtFirst(runs, held, section);
      assert inStep ==> all == stream.Unread();
      while true
        invariant Valid() && Data() == all && Small() && held <= |buffered|
        invariant Dropped(runs, stream.arrivals, |buffered| - held)
        invariant StoppedShort(runs, held, section, |buffered|)
        invariant whole.Piece? ==> ReadsAbove(old(stream.trace), stream.trace, |whole.rest|)
        decreases |stream.Unread()|
      {
        var found := Position(buffered, BLANK_LINE);
        if found.Some? {
          var p := found.value;
          SectionFound(buffered, stream.Unread());
          if p + 4 > MAX_RESPONSE_HEADERS {
            return None;
          }
          if inStep {
            SectionFinished(cut, all, stream.arrivals, |buffered|);
          }
          return Some(p + 4);
        }
        SectionOpen(buffered, stream.Unread());
        if |buffered| >= MAX_RESPONSE_HEADERS {
          return None;
        }
        ghost var before, arrivals := |buffered|, stream.arrivals;
        var more := ReadMore();
        if !more {
          return None;
        }
        StillShort(runs, arrivals, held, section, before);
        DroppedTwice(runs, arrivals, stream.arrivals, before - held, |buffered| - before);
        if |buffered| > MAX_RESPONSE_HEADERS && Position(buffered, BLANK_LINE).None? {
          SectionOpen(buffered, stream.Unread());
          return None;
        }
      }
    }

    method ReadLine() returns (line: Option<bytes>)
      requires Valid() && Small()
      modifies this, stream
      ensures Valid() && (line.Some? ==> Small())
      ensures match line
              case Some(text) =>
                LineRun(old(buffered), old(stream.arrivals)) == GotLine(text, buffered, stream.arrivals)
              case None => LineRun(old(buffered), old(stream.arrivals)) == NoLine
      ensures line.Some? ==> Line(old(Data()), MOST_LINE) == Piece(line.value, Data())
      ensures line.None? ==> Line(old(Data()), SURE_LINE).NoPiece?
      ensures line.Some? ==> ReadsAbove(old(stream.trace), stream.trace, |Data()|)
      ensures old(InStep()) ==>
                match line
                case Some(text) =>
                  Line(old(Data()), LineBound(cut)) == Piece(text, Data()) && InStep()
                case None => Line(old(Data()), LineBound(cut)).NoPiece?
    {
      hide Line, TakeRun, IsBoundary, DropBytes, Cut;
      LineRunBetween(buffered, stream.arrivals);
      LineRunInStep(cut, Data());
      assert InStep() ==> Data() == stream.Unread();
      ghost var all := Data();
      while true
        invariant Valid() && Data() == all == old(Data())
        invariant LineRun(buffered, stream.arrivals) == LineRun(old(buffered), old(stream.arrivals))
        invariant Line(all, MOST_LINE).Piece? ==>
                    ReadsAbove(old(stream.trace), stream.trace, |Line(all, MOST_LINE).rest|)
        decreases |stream.Unread()|
      {
        var found := Position(buffered, CRLF);
        if found.Some? {
          var p := found.value;
          var text := TakeBuffered(p);
          var ending := TakeBuffered(2);
          return Some(text);
        }
        if |buffered| > MAX_RESPONSE_HEADERS {
          return None;
        }
        ghost var before, trace := buffered, stream.trace;
        var ok := EnsureBuffered(|buffered| + 1);
        if !ok {
          return None;
        }
        if Line(all, MOST_LINE).Piece? {
          LineUnfinished(before, all[|before|..], MOST_LINE);
          assert before + all[|before|..] == all;
          ReadsCompose(old(stream.trace), trace, stream.trace,
                       |Line(all, MOST_LINE).rest|, |Line(all, MOST_LINE).rest|);
        }
      }
    }

    method ReadTrailers() returns (ok: bool)
      requires Valid() && Small()
      modifies this, stream
      ensures Valid()
      ensures ok ==> Trailers(old(Data()), MOST_LINE) == Piece([], Data())
      ensures !ok ==> Trailers(old(Data()), SURE_LINE).NoPiece?
      ensures ok ==> ReadsAbove(old(stream.trace), stream.trace, |Data()|)
      ensures old(InStep()) ==>
                Trailers(old(Data()), LineBound(cut)) == if ok then Piece([], Data()) else NoPiece
    {
      hide Position, LineRun, InStep;
      while true
        invariant Valid() && Small()
        invariant Trailers(old(Data()), MOST_LINE) == Trailers(Data(), MOST_LINE)
        invariant || Trailers(old(Data()), SURE_LINE) == Trailers(Data(), SURE_LINE)
                  || Trailers(old(Data()), SURE_LINE).NoPiece?
        invariant ReadsAbove(old(stream.trace), stream.trace, |Data()|)
        invariant old(InStep()) ==>
                    && InStep()
                    && Trailers(old(Data()), LineBound(cut)) == Trailers(Data(), LineBound(cut))
        decreases |Data()|
      {
        ghost var data, trace := Data(), stream.trace;
        var line := ReadLine();
        if line.None? {
          return false;
        }
        ReadsCompose(old(stream.trace), trace, stream.trace, |Data()|, |data|);
        if line.value == [] {
          return true;
        }
      }
    }

    /** A chunk's content and the CRLF that must follow it. */
    method ReadChunkData(size: nat) returns (chunk: Option<bytes>)
      requires Valid() && Small()
      modifies this, stream
      ensures Valid() && (chunk.Some? ==> Small())
      ensures chunk.None? <==>
                |old(Data())| < size + 2 || old(Data())[size..size + 2] != CRLF
      ensures chunk.Some? ==>
                chunk.value == old(Data())[..size] && Data() == old(Data())[size + 2..]
      ensures chunk.Some? ==> ReadsAbove(old(stream.trace), stream.trace, |Data()|)
      ensures chunk.Some? && old(InStep()) ==> InStep()
    {
      hide Dropped, StoppedShort, TakeRun, Cut;
      ghost var all, inStep := Data(), InStep();
      assert inStep ==> all == stream.Unread();
      var ok := EnsureBuffered(size);
      if !ok {
        return None;
      }
      ghost var trace, middle, taken := stream.trace, stream.arrivals, |buffered|;
      var content := TakeBuffered(size);
      assert all[..size] == content && all[size..] == Data();
      ok := EnsureBuffered(2);
      if !ok {
        return None;
      }
      ReadsCompose(old(stream.trace), trace, stream.trace, |all| - size - 2, |all| - size - 2);
      ghost var rest, held := Data(), |buffered|;
      var ending := TakeBuffered(2);
      assert rest == ending + Data();
      assert all[size..size + 2] == ending && all[size + 2..] == Data();
      if ending != CRLF {
        return None;
      }
      if inStep {
        ChunkFinished(cut, all, size, middle, taken, stream.arrivals, held);
      }
      return Some(content);
    }

    /** A chunk-size line and, unless it is the last one, the chunk it announces. */
    method ReadChunk(room: nat) returns (r: ChunkRead)
      requires Valid() && Small()
      modifies this, stream
      ensures Valid() && (!r.Refused? ==> Small())
      ensures r.Refused? ==> NextChunk(old(Data()), room, SURE_LINE).BadChunk?
      ensures r.Final? ==> NextChunk(old(Data()), room, MOST_LINE) == LastChunk(Data())
      ensures r.Content? ==> NextChunk(old(Data()), room, MOST_LINE) == DataChunk(r.data, Data())
      ensures !r.Refused? ==> ReadsAbove(old(stream.trace), stream.trace, |Data()|)
      ensures old(InStep()) ==>
                && (r.Refused? ==> NextChunk(old(Data()), room, LineBound(cut)).BadChunk?)
                && (r.Final? ==> NextChunk(old(Data()), room, LineBound(cut)) == LastChunk(Data()))
                && (r.Content? ==>
                      NextChunk(old(Data()), room, LineBound(cut)) == DataChunk(r.data, Data()))
                && (!r.Refused? ==> InStep())
    {
      hide Position, LineRun, FromUtf8, ParseUnsigned, Trim, InStep;
      var line := ReadLine();
      if line.None? {
        return Refused;
      }
      var parsed := ChunkSize(line.value);
      if parsed.None? {
        return Refused;
      }
      var size := parsed.value;
      if size == 0 {
        return Final;
      }
      if size > room {
        return Refused;
      }
      ghost var trace := stream.trace;
      ghost var after := Data();
      var chunk := ReadChunkData(size);
      if chunk.None? {
        return Refused;
      }
      ReadsCompose(old(stream.trace), trace, stream.trace, |Data()|, |after|);
      return Content(chunk.value);
    }

    method ReadChunkedBody(maxBody: nat) returns (body: Option<bytes>)
      requires Valid() && Small()
      modifies this, stream
      ensures Valid()
      ensures body.Some? ==> Chunked(old(Data()), maxBody, MOST_LINE) == Piece(body.value, Data())
      ensures body.None? ==> Chunked(old(Data()), maxBody, SURE_LINE).NoPiece?
      ensures body.Some? ==> ReadsAbove(old(stream.trace), stream.trace, |Data()|)
      ensures old(InStep()) ==>
                Chunked(old(Data()), maxBody, LineBound(cut))
                == if body.Some? then Piece(body.value, Data()) else NoPiece
    {
      hide Chunked, NextChunk, Trailers, InStep;
      ghost var all, inStep := Data(), InStep();
      var content: bytes := [];
      ReachedStart(all, maxBody, SURE_LINE);
      ReachedStart(all, maxBody, MOST_LINE);
      while true
        invariant Valid() && Small()
        invariant Reached(all, maxBody, content, Data(), MOST_LINE)
        invariant || Chunked(all, maxBody, SURE_LINE).NoPiece?
                  || Reached(all, maxBody, content, Data(), SURE_LINE)
        invariant ReadsAbove(old(stream.trace), stream.trace, |Data()|)
        invariant inStep ==> InStep() && Reached(all, maxBody, content, Data(), LineBound(cut))
        decreases |Data()|
      {
        ghost var data, trace := Data(), stream.trace;
        var room := maxBody - |content|;
        NextChunkBounds(data, room, SURE_LINE, MOST_LINE);
        ReachedNext(all, maxBody, content, data, MOST_LINE);
        if Reached(all, maxBody, content, data, SURE_LINE) {
          ReachedNext(all, maxBody, content, data, SURE_LINE);
        }
        var r := ReadChunk(room);
        if r.Refused? {
          return None;
        }
        ReadsCompose(old(stream.trace), trace, stream.trace, |Data()|, |data|);
        if r.Final? {
          data, trace := Data(), stream.trace;
          var ok := ReadTrailers();
          if !ok {
            return None;
          }
          ReadsCompose(old(stream.trace), trace, stream.trace, |Data()|, |data|);
          assert content + [] == content;
          return Some(content);
        }
        content := content + r.data;
      }
    }

    method ReadFixedBody(length: nat, maxBody: nat) returns (body: Option<bytes>)
      requires Valid()
      modifies this, stream
      ensures Valid()
      ensures match body
              case Some(content) => Fixed(old(Data()), length, maxBody) == Piece(content, Data())
              case None => Fixed(old(Data()), length, maxBody).NoPiece?
      ensures body.Some? ==> ReadsAbove(old(stream.trace), stream.trace, |Data()|)
    {
      if length > maxBody {
        return None;
      }
      ghost var all := Data();
      var content := TakeBuffered(length);
      while |content| < length
        invariant Valid() && |content| <= length && all == content + Data()
        invariant |content| < length ==> buffered == []
        invariant ReadsAbove(old(stream.trace), stream.trace, |all| - length)
        decreases length - |content|
      {
        var r := stream.Read(Min(length - |content|, READ_BUFFER_SIZE));
        if r.Fault? || r.data == [] {
          return None;
        }
        content := content + r.data;
      }
      assert all[..length] == content && all[length..] == Data();
      return Some(content);
    }

    method ReadCloseDelimitedBody(maxBody: nat) returns (body: Option<bytes>)
      requires Valid()
      modifies this, stream
      ensures Valid()
      ensures match body
              case Some(content) =>
                CloseDelimited(old(Data()), maxBody, stream.ending) == Piece(content, Data())
              case None => CloseDelimited(old(Data()), maxBody, stream.ending).NoPiece?
    {
      ghost var all := Data();
      var content := buffered;
      buffered := [];
      if |content| > maxBody {
        return None;
      }
      while true
        invariant Valid() && buffered == [] && all == content + Data() && |content| <= maxBody
        decreases |Data()|
      {
        var r := stream.Read(READ_BUFFER_SIZE);
        if r.Fault? {
          return None;
        }
        if r.data == [] {
          return Some(content);
        }
        if |r.data| > maxBody - |content| {
          return None;
        }
        content := content + r.data;
      }
    }

    /** The final header section, behind at most sixteen interim responses. */
    method ReadFinalHead() returns (head: Option<(nat, seq<Header>)>)
      requires Valid() && Small()
      modifies this, stream
      ensures Valid()
      ensures match head
              case Some(h) => FinalHead(old(Data()), 0) == Head(h.0, h.1, Data())
              case None => FinalHead(old(Data()), 0).NoHead?
      ensures head.Some? ==> ReadsAbove(old(stream.trace), stream.trace, |Data()|)
      ensures head.Some? ==> Small() && (old(InStep()) ==> InStep())
    {
      hide HeaderSection, FromUtf8, ResponseHead, Cut;
      var interim: nat := 0;
      while true
        invariant Valid() && Small()
        invariant FinalHead(old(Data()), 0) == FinalHead(Data(), interim)
        invariant ReadsAbove(old(stream.trace), stream.trace, |Data()|)
        invariant old(InStep()) ==> InStep()
        decreases |Data()|
      {
        ghost var data, trace := Data(), stream.trace;
        var end := ReadHeaderSection();
        if end.None? {
          return None;
        }
        var section := TakeBuffered(end.value);
        assert Data() == data[end.value..];
        ReadsCompose(old(stream.trace), trace, stream.trace, |Data()|, |data|);
        var text := FromUtf8(section);
        if text.None? {
          return None;
        }
        var parsed := ResponseHead(text.value);
        if parsed.None? {
          return None;
        }
        if !IsInterim(parsed.value.0) {
          return parsed;
        }
        interim := interim + 1;
        if interim > MAX_INFORMATIONAL_RESPONSES {
          return None;
        }
      }
    }

    method ReadBody(framing: Framing, maxBody: nat) returns (body: Option<bytes>)
      requires Valid() && Small()
      modifies this, stream
      ensures Valid()
      ensures body.Some? ==>
                Body(framing, old(Data()), maxBody, stream.ending, MOST_LINE) == Piece(body.value, Data())
      ensures body.None? ==>
                Body(framing, old(Data()), maxBody, stream.ending, SURE_LINE).NoPiece?
      ensures body.Some? && framing != UntilClose ==>
                ReadsAbove(old(stream.trace), stream.trace, |Data()|)
      ensures old(InStep()) ==>
                Body(framing, old(Data()), maxBody, stream.ending, LineBound(cut))
                == if body.Some? then Piece(body.value, Data()) else NoPiece
    {
      hide InStep, Chunked, Fixed, CloseDelimited;
      match framing
      case Bodiless => body := Some([]);
      case ChunkedBody => body := ReadChunkedBody(maxBody);
      case FixedBody(n) => body := ReadFixedBody(n, maxBody);
      case UntilClose => body := ReadCloseDelimitedBody(maxBody);
      case Unframeable => body := None;
    }

    /**
     * One decoded response. However the bytes arrive, an answer is the one-shot parse with lines
     * of at most 73,726 bytes, and a refusal is one the parse with lines of at most 65,535 makes
     * too. Each of these two parses is what the reader computes in one cutting. A response that is
     * not ended by the close is never read past: each read found some byte of the response itself
     * still unread.
     */
    method ReadHttpResponse(isHead: bool, maxBody: nat) returns (answer: Answer)
      requires Valid() && Small()
      modifies this, stream
      ensures Valid()
      ensures answer.Answer? ==>
                Parse(old(Data()), isHead, maxBody, stream.ending, MOST_LINE)
                == Response(answer.status, answer.headers, answer.body, Data())
      ensures answer.NoAnswer? ==>
                Parse(old(Data()), isHead, maxBody, stream.ending, SURE_LINE).Failed?
      ensures old(InStep()) ==>
                answer == AnswerOf(Parse(old(Data()), isHead, maxBody, stream.ending, LineBound(cut)))
      ensures answer.Answer? && SelfDelimiting(old(Data()), isHead) ==>
                ReadsAbove(old(stream.trace), stream.trace, |Data()|)
    {
      hide FinalHead, Body, FramingOf, InStep;
      var head := ReadFinalHead();
      if head.None? {
        return NoAnswer;
      }
      var (status, headers) := head.value;
      ghost var rest, trace := Data(), stream.trace;
      var framing := ChooseFraming(isHead, status, headers);
      var body := ReadBody(framing, maxBody);
      if body.None? {
        return NoAnswer;
      }
      if framing != UntilClose {
        BodyShrinks(framing, rest, maxBody, stream.ending);
        ReadsCompose(old(stream.trace), trace, stream.trace, |Data()|, |rest|);
      }
      answer := Answer(status, headers, body.value);
    }
  }

  // ---- Two readers of the same bytes ----

  /**
   * Two cuttings of the same bytes are answered alike, unless the response is one the cutting
   * decides about.
   */
  method ReadTwoCuttings(first: ByteStream, second: ByteStream, isHead: bool, maxBody: nat)
      returns (a: Answer, b: Answer)
    requires first.Valid() && second.Valid() && first != second
    requires first.Unread() == second.Unread() && first.ending == second.ending
    modifies first, second
    ensures !CuttingDecides(old(first.Unread()), isHead, maxBody, first.ending) ==> a == b
  {
    hide Parse, CuttingDecides;
    ghost var data := first.Unread();
    CuttingDecidesIff(data, isHead, maxBody, first.ending);
    var one := new ResponseReader(first, ByteByByte);
    var two := new ResponseReader(second, ByteByByte);
    assert [] + data == data;
    a := one.ReadHttpResponse(isHead, maxBody);
    b := two.ReadHttpResponse(isHead, maxBody);
  }

  /**
   * And about those it does decide: byte by byte the reader computes the parse with the smaller
   * line bound, run by line the one with the larger, and the answers differ exactly for them.
   */
  method ReadBothWays(data: bytes, ending: Ending, isHead: bool, maxBody: nat)
      returns (a: Answer, b: Answer)
    ensures a == AnswerOf(Parse(data, isHead, maxBody, ending, SURE_LINE))
    ensures b == AnswerOf(Parse(data, isHead, maxBody, ending, MOST_LINE))
    ensures a != b <==> CuttingDecides(data, isHead, maxBody, ending)
  {
    hide Parse, CuttingDecides, Cut;
    CuttingDecidesIff(data, isHead, maxBody, ending);
    var bytewise := new ByteStream(Cut(ByteByByte, data), ending);
    var linewise := new ByteStream(Cut(LineByLine, data), ending);
    assert [] + data == data;
    var one := new ResponseReader(bytewise, ByteByByte);
    a := one.ReadHttpResponse(isHead, maxBody);
    var two := new ResponseReader(linewise, LineByLine);
    b := two.ReadHttpResponse(isHead, maxBody);
  }

  lemma BodyShrinks(framing: Framing, data: bytes, room: nat, ending: Ending)
    requires Body(framing, data, room, ending, MOST_LINE).Piece?
    ensures |Body(framing, data, room, ending, MOST_LINE).rest| <= |data|
  {
    if framing == ChunkedBody {
      ChunkedShrinks(data, room);
    }
  }

  lemma {:induction false} ChunkedShrinks(data: bytes, room: nat)
    requires Chunked(data, room, MOST_LINE).Piece?
    ensures |Chunked(data, room, MOST_LINE).rest| <= |data|
    decreases |data|
  {
    hide NextChunk;
    var step := NextChunk(data, room, MOST_LINE);
    if step.DataChunk? {
      ChunkedShrinks(step.rest, room - |step.data|);
    }
  }

  /** Every Content-Length member of every field line must be the same number. */
  method ParseContentLength(headers: seq<Header>) returns (parsed: Length)
    ensures parsed == ContentLength(headers)
  {
    hide ParseUnsigned, Split, HeaderValues;
    var values := HeaderValues(headers, "content-length");
    parsed := NoLength;
    for i := 0 to |values|
      invariant !parsed.BadLength?
      invariant Agree(parsed, AgreedLength(Members(values[i..]))) == ContentLength(headers)
    {
      var items := TrimAll(Split(values[i], ","));
      ghost var later := Members(values[i + 1..]);
      assert values[i..][1..] == values[i + 1..];
      assert items[0..] == items;
      for j := 0 to |items|
        invariant !parsed.BadLength?
        invariant Agree(parsed, AgreedLength(items[j..] + later)) == ContentLength(headers)
      {
        assert (items[j..] + later)[1..] == items[j + 1..] + later;
        var length := ParseUnsigned(items[j], 10, USIZE_MAX);
        if length.None? {
          return BadLength;
        }
        if parsed.Length? {
          if parsed.n != length.value {
            return BadLength;
          }
        } else {
          parsed := Length(length.value);
        }
      }
      assert items[|items|..] + later == later;
    }
  }

  method ChooseFraming(isHead: bool, status: nat, headers: seq<Header>) returns (framing: Framing)
    ensures framing == FramingOf(isHead, status, headers)
  {
    if HasNoBody(isHead, status) {
      return Bodiless;
    }
    var codings := NonEmpty(Members(HeaderValues(headers, "transfer-encoding")));
    if codings != [] {
      if |codings| != 1 || !EqIgnoreCase(codings[0], "chunked") {
        return Unframeable;
      }
      return ChunkedBody;
    }
    var length := ParseContentLength(headers);
    match length
    case BadLength => framing := Unframeable;
    case Length(n) => framing := FixedBody(n);
    case NoLength => framing := UntilClose;
  }
}
