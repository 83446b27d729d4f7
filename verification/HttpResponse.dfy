/**
 * One HTTP/1.1 response read off the front of a whole byte string: what the incremental
 * reader of ResponseReading.dfy is measured against. Framing follows section 6.3 of RFC 9112
 * as crates/rgrok-server/src/proxy.rs applies it.
 */
module HttpResponse {
  import opened Sequences
  import opened Text
  import opened ByteStreams

  const MAX_RESPONSE_HEADERS: nat := 65_536
  const MAX_INFORMATIONAL_RESPONSES: nat := 16
  const CRLF: bytes := [13, 10]
  const BLANK_LINE: bytes := [13, 10, 13, 10]
  const SEMICOLON: byte := 59

  datatype Header = Header(name: string, value: string)

  /** A decoded response and the bytes that follow it. */
  datatype Parsed = Failed | Response(status: nat, headers: seq<Header>, body: bytes, rest: bytes)

  datatype Piece = NoPiece | Piece(data: bytes, rest: bytes)

  datatype Head = NoHead | Head(status: nat, headers: seq<Header>, rest: bytes)

  // ---- The header section ----

  function HeaderSection(data: bytes): (r: Piece)
    ensures r.Piece? ==> |r.data| + |r.rest| == |data| && |r.data| >= 4
  {
    match Position(data, BLANK_LINE)
    case None => NoPiece
    case Some(p) =>
      if p + 4 > MAX_RESPONSE_HEADERS then NoPiece else Piece(data[..p + 4], data[p + 4..])
  }

  /** The header fields up to the first empty line. */
  function HeaderFields(lines: seq<string>): Option<seq<Header>> {
    if lines == [] || lines[0] == "" then Some([])
    else match SplitOnce(lines[0], ":")
         case None => None
         case Some(field) =>
           if Trim(field.0) == "" then None
           else match HeaderFields(lines[1..])
                case None => None
                case Some(more) => Some([Header(Trim(field.0), Trim(field.1))] + more)
  }

  function ResponseHead(text: string): Option<(nat, seq<Header>)> {
    var lines := Split(text, "\r\n");
    var words := Words(lines[0]);
    if words == [] || !("HTTP/" <= words[0]) || |words| < 2 then None
    else match ParseUnsigned(words[1], 10, 65_535)
         case None => None
         case Some(status) =>
           match HeaderFields(lines[1..])
           case None => None
           case Some(headers) => Some((status, headers))
  }

  predicate IsInterim(status: nat) {
    100 <= status < 200 && status != 101
  }

  /** The first header section that is not an interim response's. */
  function FinalHead(data: bytes, skipped: nat): Head
    decreases |data|
  {
    match HeaderSection(data)
    case NoPiece => NoHead
    case Piece(section, rest) =>
      match FromUtf8(section)
      case None => NoHead
      case Some(text) =>
        match ResponseHead(text)
        case None => NoHead
        case Some(head) =>
          if !IsInterim(head.0) then Head(head.0, head.1, rest)
          else if skipped + 1 > MAX_INFORMATIONAL_RESPONSES then NoHead
          else FinalHead(rest, skipped + 1)
  }

  // ---- Choosing the framing ----

  datatype Framing = Bodiless | ChunkedBody | FixedBody(length: nat) | UntilClose | Unframeable

  predicate HasNoBody(isHead: bool, status: nat) {
    isHead || 100 <= status < 200 || status == 204 || status == 304
  }

  function HeaderValues(headers: seq<Header>, name: string): seq<string> {
    if headers == [] then []
    else
      (if EqIgnoreCase(headers[0].name, name) then [headers[0].value] else [])
      + HeaderValues(headers[1..], name)
  }

  /** The comma-separated members of a list of field values, trimmed. */
  function Members(values: seq<string>): seq<string> {
    if values == [] then [] else TrimAll(Split(values[0], ",")) + Members(values[1..])
  }

  function TrimAll(items: seq<string>): (r: seq<string>)
    ensures |r| == |items|
  {
    if items == [] then [] else [Trim(items[0])] + TrimAll(items[1..])
  }

  lemma {:induction false} TrimAllAt(items: seq<string>, i: nat)
    requires i < |items|
    ensures TrimAll(items)[i] == Trim(items[i])
  {
    hide Trim;
    if i > 0 {
      TrimAllAt(items[1..], i - 1);
    }
  }

  function NonEmpty(items: seq<string>): seq<string> {
    if items == [] then []
    else (if items[0] == "" then [] else [items[0]]) + NonEmpty(items[1..])
  }

  datatype Length = NoLength | Length(n: nat) | BadLength

  function LengthMember(member: string): Length {
    match ParseUnsigned(member, 10, USIZE_MAX)
    case None => BadLength
    case Some(n) => Length(n)
  }

  function Agree(a: Length, b: Length): Length {
    if a.NoLength? then b
    else if b.NoLength? || a == b then a
    else BadLength
  }

  function AgreedLength(members: seq<string>): Length {
    if members == [] then NoLength
    else Agree(LengthMember(members[0]), AgreedLength(members[1..]))
  }

  /** A length is agreed on exactly when there are members and every one of them is that number. */
  lemma {:induction false} AgreedLengthMeans(members: seq<string>, n: nat)
    ensures AgreedLength(members) == Length(n) <==>
              members != [] && forall m | m in members :: ParseUnsigned(m, 10, USIZE_MAX) == Some(n)
    ensures AgreedLength(members).NoLength? <==> members == []
  {
    hide ParseUnsigned;
    if members != [] {
      AgreedLengthMeans(members[1..], n);
      assert members == [members[0]] + members[1..];
    }
  }

  function ContentLength(headers: seq<Header>): Length {
    AgreedLength(Members(HeaderValues(headers, "content-length")))
  }

  function FramingOf(isHead: bool, status: nat, headers: seq<Header>): Framing {
    if HasNoBody(isHead, status) then Bodiless
    else
      var codings := NonEmpty(Members(HeaderValues(headers, "transfer-encoding")));
      if codings != [] then
        if |codings| == 1 && EqIgnoreCase(codings[0], "chunked") then ChunkedBody else Unframeable
      else match ContentLength(headers)
           case BadLength => Unframeable
           case Length(n) => FixedBody(n)
           case NoLength => UntilClose
  }

  // ---- What the framing means ----

  /** `m` stands between commas, trimmed, in some field line of that name. */
  predicate IsMember(headers: seq<Header>, name: string, m: string) {
    exists i | 0 <= i < |headers| ::
      EqIgnoreCase(headers[i].name, name) && m in TrimAll(Split(headers[i].value, ","))
  }

  lemma {:induction false} MembersAre(headers: seq<Header>, name: string)
    ensures forall m :: m in Members(HeaderValues(headers, name)) <==> IsMember(headers, name, m)
  {
    hide EqIgnoreCase, Split, TrimAll;
    if headers != [] {
      var h, rest := headers[0], headers[1..];
      MembersAre(rest, name);
      assert headers == [h] + rest;
      var values := HeaderValues(rest, name);
      if EqIgnoreCase(h.name, name) {
        assert ([h.value] + values)[1..] == values;
      } else {
        assert HeaderValues(headers, name) == values;
      }
      forall m
        ensures IsMember(headers, name, m) <==>
                  || (EqIgnoreCase(h.name, name) && m in TrimAll(Split(h.value, ",")))
                  || IsMember(rest, name, m)
      {
        MemberOfMore(headers, name, m);
      }
    }
  }

  lemma MemberOfMore(headers: seq<Header>, name: string, m: string)
    requires headers != []
    ensures IsMember(headers, name, m) <==>
              || (EqIgnoreCase(headers[0].name, name) && m in TrimAll(Split(headers[0].value, ",")))
              || IsMember(headers[1..], name, m)
  {
    hide EqIgnoreCase, Split, TrimAll;
    var rest := headers[1..];
    if IsMember(rest, name, m) {
      var i :| 0 <= i < |rest| && EqIgnoreCase(rest[i].name, name) && m in TrimAll(Split(rest[i].value, ","));
      assert headers[i + 1] == rest[i];
    }
    if IsMember(headers, name, m) {
      var i :| 0 <= i < |headers| && EqIgnoreCase(headers[i].name, name)
               && m in TrimAll(Split(headers[i].value, ","));
      assert i > 0 ==> rest[i - 1] == headers[i];
    }
  }

  lemma {:induction false} NonEmptyAre(items: seq<string>)
    ensures forall m :: m in NonEmpty(items) <==> m in items && m != ""
  {
    if items != [] {
      NonEmptyAre(items[1..]);
      assert items == [items[0]] + items[1..];
    }
  }

  /** No field line names a transfer coding. */
  ghost predicate Uncoded(headers: seq<Header>) {
    forall m :: IsMember(headers, "transfer-encoding", m) ==> m == ""
  }

  /**
   * Section 6.3 of RFC 9112, by what the field lines say. Chunks, whatever Content-Length says,
   * when "chunked" is the one coding named; a fixed length when no coding is named and every
   * length named is that number; the close when neither is named; anything else is refused.
   */
  lemma {:induction false} FramingOfMeans(isHead: bool, status: nat, headers: seq<Header>, n: nat)
    ensures FramingOf(isHead, status, headers).Bodiless? <==> HasNoBody(isHead, status)
    ensures FramingOf(isHead, status, headers).ChunkedBody? <==>
              && !HasNoBody(isHead, status)
              && var codings := NonEmpty(Members(HeaderValues(headers, "transfer-encoding")));
                 |codings| == 1 && EqIgnoreCase(codings[0], "chunked")
    ensures FramingOf(isHead, status, headers) == FixedBody(n) <==>
              && !HasNoBody(isHead, status) && Uncoded(headers)
              && (exists m :: IsMember(headers, "content-length", m))
              && (forall m :: IsMember(headers, "content-length", m) ==>
                    ParseUnsigned(m, 10, USIZE_MAX) == Some(n))
    ensures FramingOf(isHead, status, headers).UntilClose? <==>
              && !HasNoBody(isHead, status) && Uncoded(headers)
              && (forall m :: !IsMember(headers, "content-length", m))
  {
    hide EqIgnoreCase, Members, HeaderValues, ParseUnsigned, HasNoBody, IsMember;
    var codings := Members(HeaderValues(headers, "transfer-encoding"));
    var lengths := Members(HeaderValues(headers, "content-length"));
    MembersAre(headers, "transfer-encoding");
    MembersAre(headers, "content-length");
    NonEmptyAre(codings);
    AgreedLengthMeans(lengths, n);
    if NonEmpty(codings) != [] {
      assert NonEmpty(codings)[0] in NonEmpty(codings);
    }
    if lengths != [] {
      assert lengths[0] in lengths;
    }
  }

  // ---- Bodies ----

  /**
   * The longest line every reader accepts, however its bytes are cut into reads, and the longest
   * line any cutting lets a reader accept.
   */
  const SURE_LINE: nat := 65_535
  const MOST_LINE: nat := 73_726

  /** One line ended by CRLF, of at most `maxLine` bytes before it. */
  function Line(data: bytes, maxLine: nat): (r: Piece)
    ensures r.Piece? ==> |r.data| + 2 + |r.rest| == |data|
  {
    match Position(data, CRLF)
    case None => NoPiece
    case Some(p) =>
      if p > maxLine then NoPiece else Piece(data[..p], data[p + 2..])
  }

  /** A line without CRLF is followed by the first one. */
  lemma FirstCrlf(line: bytes, rest: bytes)
    requires Position(line, CRLF).None?
    ensures Position(line + CRLF + rest, CRLF) == Some(|line|)
  {
    var data := line + CRLF + rest;
    forall j | 0 <= j < |line| ensures !OccursAt(data, CRLF, j) {
      if j + 2 <= |line| {
        assert data == line + (CRLF + rest);
        OccursInPrefix(line, CRLF + rest, CRLF, j);
      } else {
        NoOccurrence(data, CRLF, j, 1);
      }
    }
    assert data[|line|..|line| + 2] == CRLF;
    PositionIs(data, CRLF, |line|);
  }

  function ChunkSize(line: bytes): Option<nat> {
    match FromUtf8(Before(line, [SEMICOLON]))
    case None => None
    case Some(text) => ParseUnsigned(Trim(text), 16, USIZE_MAX)
  }

  /** The trailer section: lines up to and including an empty one. */
  function Trailers(data: bytes, maxLine: nat): (r: Piece)
    ensures r.Piece? ==> r.data == [] && |r.rest| < |data|
    decreases |data|
  {
    match Line(data, maxLine)
    case NoPiece => NoPiece
    case Piece(line, rest) =>
      if line == [] then Piece([], rest) else Trailers(rest, maxLine)
  }

  datatype ChunkStep = BadChunk | LastChunk(rest: bytes) | DataChunk(data: bytes, rest: bytes)

  /** What a chunk-size line announces, taken from the bytes after that line. */
  function ChunkAfter(line: bytes, after: bytes, room: nat): (step: ChunkStep)
    ensures step.LastChunk? ==> step.rest == after
    ensures step.DataChunk? ==>
              0 < |step.data| <= room && after == step.data + CRLF + step.rest
  {
    match ChunkSize(line)
    case None => BadChunk
    case Some(size) =>
      if size == 0 then LastChunk(after)
      else if size > room || |after| < size + 2 || after[size..size + 2] != CRLF then BadChunk
      else
        assert after == after[..size] + after[size..size + 2] + after[size + 2..];
        DataChunk(after[..size], after[size + 2..])
  }

  function NextChunk(data: bytes, room: nat, maxLine: nat): (step: ChunkStep)
    ensures step.LastChunk? ==> |step.rest| < |data|
    ensures step.DataChunk? ==> 0 < |step.data| <= room && |step.rest| < |data|
  {
    match Line(data, maxLine)
    case NoPiece => BadChunk
    case Piece(line, after) => ChunkAfter(line, after, room)
  }

  /** Chunked coding, section 7.1 of RFC 9112, with at most `room` bytes of content. */
  function Chunked(data: bytes, room: nat, maxLine: nat): Piece
    decreases |data|
  {
    match NextChunk(data, room, maxLine)
    case BadChunk => NoPiece
    case LastChunk(rest) => Trailers(rest, maxLine)
    case DataChunk(chunk, rest) => Prepend(chunk, Chunked(rest, room - |chunk|, maxLine))
  }

  /** Content already decoded, in front of what the rest decodes to. */
  function Prepend(content: bytes, piece: Piece): Piece {
    match piece
    case NoPiece => NoPiece
    case Piece(more, rest) => Piece(content + more, rest)
  }

  function Fixed(data: bytes, length: nat, room: nat): Piece {
    if length > room || |data| < length then NoPiece else Piece(data[..length], data[length..])
  }

  function CloseDelimited(data: bytes, room: nat, ending: Ending): Piece {
    if ending == Broken || |data| > room then NoPiece else Piece(data, [])
  }

  function Body(framing: Framing, data: bytes, room: nat, ending: Ending, maxLine: nat): Piece {
    match framing
    case Bodiless => Piece([], data)
    case ChunkedBody => Chunked(data, room, maxLine)
    case FixedBody(n) => Fixed(data, n, room)
    case UntilClose => CloseDelimited(data, room, ending)
    case Unframeable => NoPiece
  }

  /** The response at the front of `data`, all of whose bytes are there. */
  function Parse(data: bytes, isHead: bool, room: nat, ending: Ending, maxLine: nat): Parsed {
    match FinalHead(data, 0)
    case NoHead => Failed
    case Head(status, headers, rest) =>
      match Body(FramingOf(isHead, status, headers), rest, room, ending, maxLine)
      case NoPiece => Failed
      case Piece(body, tail) => Response(status, headers, body, tail)
  }

  // ---- What the line bound costs ----

  /** Every line the trailer section is made of, however long, has at most `maxLine` bytes. */
  predicate TrailersWithin(data: bytes, maxLine: nat)
    decreases |data|
  {
    match Line(data, |data|)
    case NoPiece => true
    case Piece(line, rest) => |line| <= maxLine && (line == [] || TrailersWithin(rest, maxLine))
  }

  /** Every chunk-size and trailer line decoding meets has at most `maxLine` bytes. */
  predicate LinesWithin(data: bytes, room: nat, maxLine: nat)
    decreases |data|
  {
    && (Line(data, |data|).Piece? ==> |Line(data, |data|).data| <= maxLine)
    && match NextChunk(data, room, |data|)
       case BadChunk => true
       case LastChunk(rest) => TrailersWithin(rest, maxLine)
       case DataChunk(chunk, rest) => LinesWithin(rest, room - |chunk|, maxLine)
  }

  /** A line within the smaller bound is read alike; a longer one is refused by the smaller. */
  lemma LineBounds(data: bytes, low: nat, high: nat)
    requires low <= high
    ensures var whole := Line(data, |data|);
            && (whole.NoPiece? ==> Line(data, low).NoPiece? && Line(data, high).NoPiece?)
            && (whole.Piece? && |whole.data| <= low ==>
                  Line(data, low) == whole && Line(data, high) == whole)
            && (whole.Piece? && |whole.data| > low ==> Line(data, low).NoPiece?)
            && (Line(data, high).Piece? ==> Line(data, high) == whole)
  {
  }

  lemma {:induction false} TrailersBounds(data: bytes, low: nat, high: nat)
    requires low <= high
    ensures Trailers(data, low)
            == if TrailersWithin(data, low) then Trailers(data, high) else NoPiece
    decreases |data|
  {
    hide Line;
    LineBounds(data, low, high);
    match Line(data, |data|)
    case NoPiece =>
    case Piece(line, rest) => if |line| <= low && line != [] { TrailersBounds(rest, low, high); }
  }

  lemma {:induction false} NextChunkBounds(data: bytes, room: nat, low: nat, high: nat)
    requires low <= high
    ensures var whole, line := NextChunk(data, room, |data|), Line(data, |data|);
            && (line.Piece? && |line.data| <= low ==>
                  NextChunk(data, room, low) == whole && NextChunk(data, room, high) == whole)
            && (line.NoPiece? ==> NextChunk(data, room, high).BadChunk?)
            && (line.NoPiece? || |line.data| > low ==> NextChunk(data, room, low).BadChunk?)
    ensures var short := NextChunk(data, room, low);
            short == NextChunk(data, room, high) || short.BadChunk?
  {
    hide Line, ChunkAfter;
    LineBounds(data, low, high);
  }

  /** Lowering the bound costs exactly the bodies in which some line exceeds it. */
  lemma {:induction false} ChunkedBounds(data: bytes, room: nat, low: nat, high: nat)
    requires low <= high
    ensures Chunked(data, room, low)
            == if LinesWithin(data, room, low) then Chunked(data, room, high) else NoPiece
    decreases |data|
  {
    hide Line, NextChunk, Trailers, TrailersWithin;
    NextChunkBounds(data, room, low, high);
    var line := Line(data, |data|);
    if line.Piece? && |line.data| <= low {
      match NextChunk(data, room, |data|)
      case BadChunk =>
      case LastChunk(rest) => TrailersBounds(rest, low, high);
      case DataChunk(chunk, rest) => ChunkedBounds(rest, room - |chunk|, low, high);
    }
  }

  /** Whether the lines of the response's own body fit; only chunked bodies have any. */
  predicate ResponseLinesWithin(data: bytes, isHead: bool, room: nat, maxLine: nat) {
    match FinalHead(data, 0)
    case NoHead => true
    case Head(status, headers, rest) =>
      FramingOf(isHead, status, headers) == ChunkedBody ==> LinesWithin(rest, room, maxLine)
  }

  lemma {:induction false} ParseBounds(data: bytes, isHead: bool, room: nat, ending: Ending,
                                       low: nat, high: nat)
    requires low <= high
    ensures Parse(data, isHead, room, ending, low)
            == if ResponseLinesWithin(data, isHead, room, low)
               then Parse(data, isHead, room, ending, high) else Failed
  {
    hide FinalHead, FramingOf, Chunked, LinesWithin, Fixed, CloseDelimited;
    match FinalHead(data, 0)
    case NoHead =>
    case Head(_, _, rest) => ChunkedBounds(rest, room, low, high);
  }

  /**
   * The responses whose reading depends on how their bytes are cut: read under the larger bound,
   * they have a line beyond the smaller.
   */
  predicate CuttingDecides(data: bytes, isHead: bool, room: nat, ending: Ending) {
    && Parse(data, isHead, room, ending, MOST_LINE).Response?
    && !ResponseLinesWithin(data, isHead, room, SURE_LINE)
  }

  lemma {:induction false} CuttingDecidesIff(data: bytes, isHead: bool, room: nat, ending: Ending)
    ensures CuttingDecides(data, isHead, room, ending) <==>
              Parse(data, isHead, room, ending, SURE_LINE)
              != Parse(data, isHead, room, ending, MOST_LINE)
    ensures CuttingDecides(data, isHead, room, ending) ==>
              Parse(data, isHead, room, ending, SURE_LINE).Failed?
              && ResponseLinesWithin(data, isHead, room, MOST_LINE)
  {
    hide Parse, ResponseLinesWithin;
    ParseBounds(data, isHead, room, ending, SURE_LINE, MOST_LINE);
    ParseBounds(data, isHead, room, ending, MOST_LINE, MOST_LINE);
  }

  // ---- Self-delimiting responses ----

  lemma HeaderSectionSuffix(data: bytes, more: bytes)
    requires HeaderSection(data).Piece?
    ensures HeaderSection(data + more)
            == Piece(HeaderSection(data).data, HeaderSection(data).rest + more)
  {
    PositionInPrefix(data, more, BLANK_LINE);
    var p := Position(data, BLANK_LINE).value;
    assert (data + more)[..p + 4] == data[..p + 4];
    assert (data + more)[p + 4..] == data[p + 4..] + more;
  }

  lemma {:induction false} FinalHeadSuffix(data: bytes, skipped: nat, more: bytes)
    requires FinalHead(data, skipped).Head?
    ensures FinalHead(data + more, skipped)
            == FinalHead(data, skipped).(rest := FinalHead(data, skipped).rest + more)
    decreases |data|
  {
    hide HeaderSection, FromUtf8, ResponseHead;
    HeaderSectionSuffix(data, more);
    var section := HeaderSection(data);
    var head := ResponseHead(FromUtf8(section.data).value).value;
    if IsInterim(head.0) {
      FinalHeadSuffix(section.rest, skipped + 1, more);
    }
  }

  lemma LineSuffix(data: bytes, more: bytes, maxLine: nat)
    requires Line(data, maxLine).Piece?
    ensures Line(data + more, maxLine)
            == Piece(Line(data, maxLine).data, Line(data, maxLine).rest + more)
  {
    PositionInPrefix(data, more, CRLF);
    var p := Position(data, CRLF).value;
    assert (data + more)[..p] == data[..p];
    assert (data + more)[p + 2..] == data[p + 2..] + more;
  }

  lemma {:induction false} TrailersSuffix(data: bytes, more: bytes, maxLine: nat)
    requires Trailers(data, maxLine).Piece?
    ensures Trailers(data + more, maxLine) == Piece([], Trailers(data, maxLine).rest + more)
    decreases |data|
  {
    hide Line;
    LineSuffix(data, more, maxLine);
    var line := Line(data, maxLine);
    if line.data != [] {
      TrailersSuffix(line.rest, more, maxLine);
    }
  }

  lemma {:induction false} ChunkAfterSuffix(line: bytes, after: bytes, room: nat, more: bytes)
    requires !ChunkAfter(line, after, room).BadChunk?
    ensures var step := ChunkAfter(line, after, room);
            ChunkAfter(line, after + more, room) == step.(rest := step.rest + more)
  {
    hide ChunkSize;
    var size := ChunkSize(line).value;
    if size > 0 {
      SliceOfSum(after, more, size);
    }
  }

  lemma SliceOfSum(a: bytes, b: bytes, size: nat)
    requires size + 2 <= |a|
    ensures (a + b)[..size] == a[..size]
    ensures (a + b)[size..size + 2] == a[size..size + 2]
    ensures (a + b)[size + 2..] == a[size + 2..] + b
  {
  }

  lemma {:induction false} ChunkedSuffix(data: bytes, room: nat, more: bytes, maxLine: nat)
    requires Chunked(data, room, maxLine).Piece?
    ensures var r := Chunked(data, room, maxLine);
            Chunked(data + more, room, maxLine) == Piece(r.data, r.rest + more)
    decreases |data|
  {
    hide Line, ChunkAfter, Trailers;
    LineSuffix(data, more, maxLine);
    var line := Line(data, maxLine);
    ChunkAfterSuffix(line.data, line.rest, room, more);
    match NextChunk(data, room, maxLine)
    case LastChunk(rest) => TrailersSuffix(rest, more, maxLine);
    case DataChunk(chunk, rest) => ChunkedSuffix(rest, room - |chunk|, more, maxLine);
  }

  /** Framed by Content-Length, by chunks, or without a body: the end needs no close. */
  predicate SelfDelimiting(data: bytes, isHead: bool) {
    match FinalHead(data, 0)
    case NoHead => false
    case Head(status, headers, _) => FramingOf(isHead, status, headers) != UntilClose
  }

  /**
   * A complete self-delimiting response reads the same with any bytes after it and however
   * those bytes end: nothing beyond its own bytes is looked at.
   */
  lemma {:induction false} SuffixIndependent(data: bytes, isHead: bool, room: nat, ending: Ending,
                                             maxLine: nat, more: bytes, ending': Ending)
    requires SelfDelimiting(data, isHead)
    requires Parse(data, isHead, room, ending, maxLine).Response?
    ensures var r := Parse(data, isHead, room, ending, maxLine);
            Parse(data + more, isHead, room, ending', maxLine) == r.(rest := r.rest + more)
  {
    FinalHeadSuffix(data, 0, more);
    var head := FinalHead(data, 0);
    BodySuffix(FramingOf(isHead, head.status, head.headers), head.rest, room, ending, maxLine,
               more, ending');
  }

  lemma {:induction false} BodySuffix(framing: Framing, data: bytes, room: nat, ending: Ending,
                                      maxLine: nat, more: bytes, ending': Ending)
    requires framing != UntilClose
    requires Body(framing, data, room, ending, maxLine).Piece?
    ensures var r := Body(framing, data, room, ending, maxLine);
            Body(framing, data + more, room, ending', maxLine) == Piece(r.data, r.rest + more)
  {
    match framing
    case Bodiless =>
    case ChunkedBody => ChunkedSuffix(data, room, more, maxLine);
    case FixedBody(n) =>
      assert (data + more)[..n] == data[..n];
      assert (data + more)[n..] == data[n..] + more;
  }
}
