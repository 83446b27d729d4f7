/** Writing a body in chunked coding (section 7.1 of RFC 9112), and reading it back. */
module ChunkedCoding {
  import opened Sequences
  import opened Text
  import opened HttpResponse

  /** A chunk-size line: hexadecimal digits, optional blanks, then nothing or ";...". */
  datatype SizeLine = SizeLine(digits: string, blanks: string, extension: bytes)

  datatype Chunk = Chunk(size: SizeLine, data: bytes)

  datatype Message = Message(chunks: seq<Chunk>, last: SizeLine, trailers: seq<bytes>)

  // ---- Well-formed messages ----

  predicate FitsLine(line: bytes, maxLine: nat) {
    && Position(line, CRLF).None?
    && |line| <= maxLine
  }

  predicate WellFormedSize(l: SizeLine, size: nat, maxLine: nat) {
    && l.digits != "" && AllDigits(l.digits, 16) && NumeralValue(l.digits, 16) == size
    && IsBlank(l.blanks)
    && (l.extension == [] || l.extension[0] == SEMICOLON)
    && FitsLine(SizeText(l), maxLine)
  }

  predicate TrailersFitLines(trailers: seq<bytes>, maxLine: nat) {
    forall i | 0 <= i < |trailers| :: trailers[i] != [] && FitsLine(trailers[i], maxLine)
  }

  predicate WellFormedMessage(m: Message, maxLine: nat) {
    && (forall c | c in m.chunks :: c.data != [] && WellFormedSize(c.size, |c.data|, maxLine))
    && WellFormedSize(m.last, 0, maxLine)
    && TrailersFitLines(m.trailers, maxLine)
  }

  // ---- The wire form ----

  function SizeText(l: SizeLine): bytes
    requires AllDigits(l.digits, 16) && IsBlank(l.blanks)
  {
    DigitsAreAscii(l.digits);
    ToBytes(l.digits + l.blanks) + l.extension
  }

  lemma DigitsAreAscii(s: string)
    requires AllDigits(s, 16)
    ensures IsAscii(s)
    ensures forall i | 0 <= i < |s| :: !IsWhitespace(s[i]) && s[i] != '+' && s[i] != ';'
  {
    forall i | 0 <= i < |s|
      ensures s[i] as int < 128 && !IsWhitespace(s[i]) && s[i] != '+' && s[i] != ';'
    {
      assert IsDigit(s[i], 16);
    }
  }

  function EncodeTrailers(trailers: seq<bytes>): bytes {
    if trailers == [] then CRLF else trailers[0] + CRLF + EncodeTrailers(trailers[1..])
  }

  function Encode(m: Message, maxLine: nat): bytes
    requires WellFormedMessage(m, maxLine)
    decreases |m.chunks|
  {
    if m.chunks == [] then SizeText(m.last) + CRLF + EncodeTrailers(m.trailers)
    else
      var c := m.chunks[0];
      SizeText(c.size) + CRLF + c.data + CRLF + Encode(m.(chunks := m.chunks[1..]), maxLine)
  }

  function Content(chunks: seq<Chunk>): bytes {
    if chunks == [] then [] else chunks[0].data + Content(chunks[1..])
  }

  // ---- Reading back ----

  lemma LineReadsBack(line: bytes, rest: bytes, maxLine: nat)
    requires FitsLine(line, maxLine)
    ensures Line(line + CRLF + rest, maxLine) == Piece(line, rest)
  {
    var data := line + CRLF + rest;
    FirstCrlf(line, rest);
    assert data[..|line|] == line && data[|line| + 2..] == rest;
  }

  lemma EmptyLineReadsBack(rest: bytes, maxLine: nat)
    ensures Line(CRLF + rest, maxLine) == Piece([], rest)
  {
    LineReadsBack([], rest, maxLine);
    assert [] + CRLF + rest == CRLF + rest;
  }

  lemma {:induction false} TrimBlanks(s: string, blanks: string)
    requires s != "" && IsBlank(blanks)
    requires !IsWhitespace(s[0]) && !IsWhitespace(s[|s| - 1])
    ensures Trim(s + blanks) == s
    decreases |blanks|
  {
    if blanks == "" {
      assert s + blanks == s;
      TrimIdentity(s);
    } else {
      var all := s + blanks;
      assert all[..|all| - 1] == s + blanks[..|blanks| - 1];
      TrimBlanks(s, blanks[..|blanks| - 1]);
      assert all[0] == s[0] && IsWhitespace(all[|all| - 1]);
    }
  }

  lemma {:induction false} SizeReadsBack(l: SizeLine, size: nat, maxLine: nat)
    requires WellFormedSize(l, size, maxLine)
    ensures ChunkSize(SizeText(l)) == if size <= USIZE_MAX then Some(size) else None
  {
    DigitsAreAscii(l.digits);
    var text := l.digits + l.blanks;
    var b := ToBytes(text);
    assert SEMICOLON !in b;
    if l.extension == [] {
      assert SizeText(l) == b;
      NoPosition(b, SEMICOLON);
    } else {
      assert SizeText(l) == b + [SEMICOLON] + l.extension[1..];
      PositionOfSeparator(b, SEMICOLON, l.extension[1..]);
      assert SizeText(l)[..|b|] == b;
    }
    AsciiDecodes(text);
    TrimBlanks(l.digits, l.blanks);
    assert l.digits[0] != '+';
  }

  lemma {:induction false} TrailersReadBack(trailers: seq<bytes>, tail: bytes, maxLine: nat)
    requires TrailersFitLines(trailers, maxLine)
    ensures Trailers(EncodeTrailers(trailers) + tail, maxLine) == Piece([], tail)
    decreases |trailers|
  {
    hide Line, FitsLine;
    if trailers == [] {
      EmptyLineReadsBack(tail, maxLine);
    } else {
      var more := EncodeTrailers(trailers[1..]) + tail;
      LineReadsBack(trailers[0], more, maxLine);
      assert EncodeTrailers(trailers) + tail == trailers[0] + CRLF + more;
      TrailersReadBack(trailers[1..], tail, maxLine);
    }
  }

  lemma {:induction false} ChunkReadsBack(c: Chunk, rest: bytes, room: nat, maxLine: nat)
    requires c.data != [] && WellFormedSize(c.size, |c.data|, maxLine) && room <= USIZE_MAX
    ensures NextChunk(SizeText(c.size) + CRLF + (c.data + CRLF + rest), room, maxLine)
            == if |c.data| <= room then DataChunk(c.data, rest) else BadChunk
  {
    hide Line, ChunkSize, WellFormedSize, SizeText;
    var after := c.data + CRLF + rest;
    SizeLineReadsBack(c.size, |c.data|, after, maxLine);
    assert after[..|c.data|] == c.data;
    assert after[|c.data|..|c.data| + 2] == CRLF;
    assert after[|c.data| + 2..] == rest;
  }

  lemma {:induction false} SizeLineReadsBack(l: SizeLine, size: nat, after: bytes, maxLine: nat)
    requires WellFormedSize(l, size, maxLine)
    ensures Line(SizeText(l) + CRLF + after, maxLine) == Piece(SizeText(l), after)
    ensures ChunkSize(SizeText(l)) == if size <= USIZE_MAX then Some(size) else None
  {
    LineReadsBack(SizeText(l), after, maxLine);
    SizeReadsBack(l, size, maxLine);
  }

  /**
   * Whatever the extensions and trailers, an encoded body followed by any bytes decodes to its
   * content and leaves those bytes, if the content fits; otherwise it is refused.
   */
  lemma {:induction false} RoundTrip(m: Message, tail: bytes, room: nat, maxLine: nat)
    requires WellFormedMessage(m, maxLine) && room <= USIZE_MAX
    ensures Chunked(Encode(m, maxLine) + tail, room, maxLine)
            == if |Content(m.chunks)| <= room then Piece(Content(m.chunks), tail) else NoPiece
    decreases |m.chunks|
  {
    hide NextChunk, SizeText, Trailers, EncodeTrailers, NumeralValue, FitsLine, AllDigits;
    if m.chunks == [] {
      LastChunkReadsBack(m.last, m.trailers, tail, room, maxLine);
    } else {
      var c, more := m.chunks[0], m.(chunks := m.chunks[1..]);
      var rest := Encode(more, maxLine) + tail;
      assert Encode(m, maxLine) + tail == SizeText(c.size) + CRLF + (c.data + CRLF + rest);
      ChunkReadsBack(c, rest, room, maxLine);
      if |c.data| <= room {
        RoundTrip(more, tail, room - |c.data|, maxLine);
      }
    }
  }

  lemma LastChunkReadsBack(last: SizeLine, trailers: seq<bytes>, tail: bytes, room: nat, maxLine: nat)
    requires WellFormedSize(last, 0, maxLine)
    requires TrailersFitLines(trailers, maxLine)
    ensures Chunked(SizeText(last) + CRLF + EncodeTrailers(trailers) + tail, room, maxLine)
            == Piece([], tail)
  {
    hide Line, ChunkSize, FitsLine, NumeralValue, SizeText, EncodeTrailers;
    var after := EncodeTrailers(trailers) + tail;
    assert SizeText(last) + CRLF + EncodeTrailers(trailers) + tail == SizeText(last) + CRLF + after;
    SizeLineReadsBack(last, 0, after, maxLine);
    TrailersReadBack(trailers, tail, maxLine);
  }

  // ---- Every content has an encoding ----

  function Power16(digits: nat): nat {
    if digits == 0 then 1 else 16 * Power16(digits - 1)
  }

  lemma {:induction false} ShortNumeral(n: nat, digits: nat)
    requires digits > 0 && n < Power16(digits)
    ensures |Numeral(n, 16)| <= digits
    decreases digits
  {
    if n >= 16 {
      assert digits > 1 by {
        assert Power16(1) == 16 * Power16(0);
      }
      ShortNumeral(n / 16, digits - 1);
    }
  }

  lemma MachineWord()
    ensures Power16(16) == USIZE_MAX + 1
  {
    assert Power16(4) == 0x1_0000;
    assert Power16(8) == 0x1_0000_0000;
    assert Power16(12) == 0x1_0000_0000_0000;
  }

  /** The shortest numeral of a size, alone on its line, fits any reader in any cutting. */
  lemma {:induction false} PlainSizeIsWellFormed(size: nat)
    requires size <= USIZE_MAX
    ensures WellFormedSize(SizeLine(Numeral(size, 16), "", []), size, SURE_LINE)
  {
    hide Numeral, NumeralValue, Power16;
    var l := SizeLine(Numeral(size, 16), "", []);
    NumeralReadsBack(size, 16);
    MachineWord();
    ShortNumeral(size, 16);
    PlainTextFits(l.digits);
    assert l.digits + "" == l.digits && ToBytes(l.digits) + [] == ToBytes(l.digits);
  }

  lemma PlainTextFits(s: string)
    requires AllDigits(s, 16) && |s| <= 16
    requires forall i | 0 <= i < |s| :: 33 <= s[i] as int < 127
    ensures FitsLine(ToBytes(s), SURE_LINE)
  {
    var b := ToBytes(s);
    forall j ensures !OccursAt(b, CRLF, j) {
      NoOccurrence(b, CRLF, j, 0);
    }
  }

  /** One chunk, or none for no content. */
  function PlainMessage(content: bytes): Message {
    var last := SizeLine(Numeral(0, 16), "", []);
    if content == [] then Message([], last, [])
    else Message([Chunk(SizeLine(Numeral(|content|, 16), "", []), content)], last, [])
  }

  /** So every content can be sent in a form that every reader decodes in every cutting. */
  lemma {:induction false} EveryContentReadsBack(content: bytes, tail: bytes, room: nat)
    requires |content| <= room <= USIZE_MAX
    ensures WellFormedMessage(PlainMessage(content), SURE_LINE)
    ensures Chunked(Encode(PlainMessage(content), SURE_LINE) + tail, room, SURE_LINE)
            == Piece(content, tail)
  {
    hide WellFormedSize, Numeral, Chunked, Encode;
    var m := PlainMessage(content);
    PlainSizeIsWellFormed(0);
    PlainSizeIsWellFormed(|content|);
    ContentOfPlain(content);
    RoundTrip(m, tail, room, SURE_LINE);
  }

  lemma ContentOfPlain(content: bytes)
    ensures Content(PlainMessage(content).chunks) == content
  {
    if content != [] {
      assert PlainMessage(content).chunks[1..] == [];
    }
  }
}
