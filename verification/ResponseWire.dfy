/**
 * Writing an HTTP/1.1 response as a local service may, and reading it back: interim responses,
 * then the final one, with its body framed in each of the four ways.
 */
module ResponseWire {
  import opened Sequences
  import opened Text
  import opened ByteStreams
  import opened HttpResponse
  import opened HeadLines
  import ChunkedCoding
  import Utf8

  /** A field line, with the blanks that may stand around its name and its value. */
  datatype FieldLine =
    FieldLine(lead: string, name: string, gap: string, pad: string, value: string, trail: string)

  /** `reason` is what follows the status code on its line, with the space before it. */
  datatype HeadText = HeadText(version: string, status: nat, reason: string, fields: seq<FieldLine>)

  // ---- What is well formed ----

  predicate Trimmed(s: string) {
    s != "" ==> !IsWhitespace(s[0]) && !IsWhitespace(s[|s| - 1])
  }

  predicate WellFormedField(f: FieldLine) {
    && IsBlank(f.lead) && IsBlank(f.gap) && IsBlank(f.pad) && IsBlank(f.trail)
    && f.name != "" && Trimmed(f.name) && OneLine(f.name) && ':' !in f.name
    && Trimmed(f.value) && OneLine(f.value)
  }

  predicate WellFormedHead(h: HeadText) {
    && IsWord(h.version)
    && OneLine(h.reason) && (h.reason != "" ==> h.reason[0] == ' ')
    && forall i | 0 <= i < |h.fields| :: WellFormedField(h.fields[i])
  }

  // ---- The wire form ----

  function FieldText(f: FieldLine): string {
    f.lead + f.name + f.gap + ":" + (f.pad + f.value + f.trail)
  }

  function FieldTexts(fields: seq<FieldLine>): (lines: seq<string>)
    ensures |lines| == |fields|
    ensures forall i | 0 <= i < |fields| :: lines[i] == FieldText(fields[i])
  {
    if fields == [] then [] else [FieldText(fields[0])] + FieldTexts(fields[1..])
  }

  function StatusLine(h: HeadText): string {
    h.version + " " + Numeral(h.status, 10) + h.reason
  }

  /** The head in bytes, with further lines after its fields. */
  function HeadBytesWith(h: HeadText, more: seq<string>): bytes {
    Utf8.Encode(StatusLine(h) + "\r\n" + Block(FieldTexts(h.fields) + more))
  }

  function HeadBytes(h: HeadText): bytes {
    HeadBytesWith(h, [])
  }

  function Heads(heads: seq<HeadText>): bytes {
    if heads == [] then [] else HeadBytes(heads[0]) + Heads(heads[1..])
  }

  /** The fields a reader should find. */
  function HeadersOf(fields: seq<FieldLine>): (headers: seq<Header>)
    ensures |headers| == |fields|
    ensures forall i | 0 <= i < |fields| :: headers[i] == Header(fields[i].name, fields[i].value)
  {
    if fields == [] then []
    else [Header(fields[0].name, fields[0].value)] + HeadersOf(fields[1..])
  }

  // ---- Lines ----

  lemma BlanksAreOneLine(s: string)
    requires IsBlank(s)
    ensures OneLine(s) && ':' !in s
  {
  }

  lemma FieldTextIsOneLine(f: FieldLine)
    requires WellFormedField(f)
    ensures OneLine(FieldText(f)) && FieldText(f) != ""
  {
    BlanksAreOneLine(f.lead);
    BlanksAreOneLine(f.gap);
    BlanksAreOneLine(f.pad);
    BlanksAreOneLine(f.trail);
  }

  lemma NumeralIsWord(n: nat)
    ensures IsWord(Numeral(n, 10))
  {
    hide Numeral;
    var s := Numeral(n, 10);
    forall c | c in s ensures !IsWhitespace(c) {
      var i :| 0 <= i < |s| && s[i] == c;
      assert 33 <= s[i] as int < 127;
    }
  }

  lemma StatusLineReadsBack(h: HeadText)
    requires WellFormedHead(h)
    ensures OneLine(StatusLine(h)) && StatusLine(h) != ""
    ensures var words := Words(StatusLine(h));
            |words| >= 2 && words[0] == h.version && words[1] == Numeral(h.status, 10)
  {
    hide Words, IsWhitespace, Numeral, WellFormedField;
    var code := Numeral(h.status, 10);
    NumeralIsWord(h.status);
    WordsAreOneLine(h.version);
    WordsAreOneLine(code);
    SpaceBefore();
    assert StatusLine(h) == h.version + (" " + (code + h.reason));
    FirstWord(h.version, " " + (code + h.reason));
    SkipSpace(code + h.reason);
    FirstWord(code, h.reason);
  }

  lemma FieldReadsBack(f: FieldLine)
    requires WellFormedField(f)
    ensures SplitOnce(FieldText(f), ":").Some?
    ensures var parts := SplitOnce(FieldText(f), ":").value;
            Trim(parts.0) == f.name && Trim(parts.1) == f.value
  {
    hide IsWhitespace, OneLine;
    BlanksAreOneLine(f.lead);
    BlanksAreOneLine(f.gap);
    var a, b := f.lead + f.name + f.gap, f.pad + f.value + f.trail;
    assert FieldText(f) == a + [':'] + b;
    PositionOfSeparator(a, ':', b);
    assert FieldText(f)[..|a|] == a && FieldText(f)[|a| + 1..] == b;
    TrimPadded(f.lead, f.name, f.gap);
    TrimPadded(f.pad, f.value, f.trail);
  }

  /** The field lines read back in order; what follows them decides the rest. */
  lemma {:induction false} FieldsReadBack(fields: seq<FieldLine>, rest: seq<string>)
    requires forall i | 0 <= i < |fields| :: WellFormedField(fields[i])
    ensures HeaderFields(FieldTexts(fields) + rest)
            == match HeaderFields(rest)
               case None => None
               case Some(more) => Some(HeadersOf(fields) + more)
    decreases |fields|
  {
    hide WellFormedField, FieldText, SplitOnce, Trim;
    if fields == [] {
      assert FieldTexts(fields) + rest == rest;
      assert HeaderFields(rest).Some? ==> [] + HeaderFields(rest).value == HeaderFields(rest).value;
    } else {
      var f, lines := fields[0], FieldTexts(fields) + rest;
      FieldTextIsOneLine(f);
      FieldReadsBack(f);
      NameNotEmpty(f);
      FieldsReadBack(fields[1..], rest);
      assert lines[0] == FieldText(f) && lines[1..] == FieldTexts(fields[1..]) + rest;
      var tail := HeaderFields(rest);
      if tail.Some? {
        assert [Header(f.name, f.value)] + (HeadersOf(fields[1..]) + tail.value)
            == HeadersOf(fields) + tail.value;
      }
    }
  }

  lemma NameNotEmpty(f: FieldLine)
    requires WellFormedField(f)
    ensures f.name != ""
  {
  }

  // ---- Heads ----

  lemma HeadBytesEnd(h: HeadText, more: seq<string>, rest: bytes)
    requires WellFormedHead(h) && forall i | 0 <= i < |more| :: OneLine(more[i]) && more[i] != ""
    ensures var head := HeadBytesWith(h, more);
            HeaderSection(head + rest)
            == if |head| <= MAX_RESPONSE_HEADERS then Piece(head, rest) else NoPiece
  {
    hide OneLine, WellFormedField, FieldText, Utf8.Encode, StatusLine, Words;
    var lines := FieldTexts(h.fields) + more;
    StatusLineReadsBack(h);
    forall i | 0 <= i < |lines| ensures OneLine(lines[i]) && lines[i] != "" {
      if i < |h.fields| {
        FieldTextIsOneLine(h.fields[i]);
      }
    }
    BlockEnds(StatusLine(h), lines, rest);
    var head := HeadBytesWith(h, more);
    assert (head + rest)[..|head|] == head && (head + rest)[|head|..] == rest;
  }

  /** The text of a head, read: its first line, then its fields, then the further lines. */
  lemma HeadTextReadsBack(h: HeadText, more: seq<string>)
    requires WellFormedHead(h) && forall i | 0 <= i < |more| :: OneLine(more[i]) && more[i] != ""
    ensures ResponseHead(StatusLine(h) + "\r\n" + Block(FieldTexts(h.fields) + more))
            == if !("HTTP/" <= h.version) || h.status > 65_535 then None
               else match HeaderFields(more + ["", ""])
                    case None => None
                    case Some(others) => Some((h.status, HeadersOf(h.fields) + others))
  {
    hide OneLine, WellFormedField, FieldText, StatusLine, Words, Split, HeaderFields, Numeral,
      ParseUnsigned;
    var lines := FieldTexts(h.fields) + more;
    StatusLineReadsBack(h);
    forall i | 0 <= i < |lines| ensures OneLine(lines[i]) {
      if i < |h.fields| {
        FieldTextIsOneLine(h.fields[i]);
      }
    }
    SplitStep(StatusLine(h), Block(lines));
    SplitBlock(lines);
    var split := [StatusLine(h)] + (lines + ["", ""]);
    assert split[1..] == FieldTexts(h.fields) + (more + ["", ""]);
    FieldsReadBack(h.fields, more + ["", ""]);
    StatusReads(h.status);
  }

  lemma StatusReads(status: nat)
    ensures ParseUnsigned(Numeral(status, 10), 10, 65_535)
            == if status <= 65_535 then Some(status) else None
  {
    hide NumeralValue;
    var s := Numeral(status, 10);
    NumeralReadsBack(status, 10);
    assert IsDigit(s[0], 10);
  }

  /** Interim responses are told by their status alone. */
  predicate InterimStatus(status: nat) {
    100 <= status <= 199 && status != 101
  }

  /** A head of at most 65,536 bytes of any HTTP version, with a status that fits 16 bits. */
  predicate Readable(h: HeadText) {
    |HeadBytes(h)| <= MAX_RESPONSE_HEADERS && "HTTP/" <= h.version && h.status <= 65_535
  }

  /** One head at the front of the bytes. */
  lemma {:induction false} HeadReadsBack(h: HeadText, rest: bytes, skipped: nat)
    requires WellFormedHead(h)
    ensures FinalHead(HeadBytes(h) + rest, skipped)
            == if !Readable(h) then NoHead
               else if !InterimStatus(h.status) then Head(h.status, HeadersOf(h.fields), rest)
               else if skipped == MAX_INFORMATIONAL_RESPONSES || skipped > MAX_INFORMATIONAL_RESPONSES
               then NoHead
               else FinalHead(rest, skipped + 1)
  {
    hide HeaderSection, FromUtf8, ResponseHead, WellFormedHead, HeaderFields, Utf8.Encode, Block,
      StatusLine;
    HeadBytesEnd(h, [], rest);
    HeadTextReadsBack(h, []);
    Utf8.Decodes(StatusLine(h) + "\r\n" + Block(FieldTexts(h.fields) + []));
    NoMoreFields();
    assert [] + ["", ""] == ["", ""] && HeadersOf(h.fields) + [] == HeadersOf(h.fields);
  }

  lemma NoMoreFields()
    ensures HeaderFields(["", ""]) == Some([])
  {
  }

  /** A line without a colon, or with nothing but blanks before it, spoils the head. */
  predicate IsBadLine(line: string) {
    && line != "" && OneLine(line)
    && (':' !in line || exists k | 0 <= k < |line| :: line[k] == ':' && IsBlank(line[..k]))
  }

  lemma BadLineIsRefused(line: string, rest: seq<string>)
    requires IsBadLine(line)
    ensures HeaderFields([line] + rest) == None
  {
    if ':' !in line {
      NoPosition(line, ':');
    } else {
      var k :| 0 <= k < |line| && line[k] == ':' && IsBlank(line[..k]);
      var a, b := line[..k], line[k + 1..];
      assert line == a + [':'] + b;
      BlanksAreOneLine(a);
      PositionOfSeparator(a, ':', b);
      TrimPadded(a, "", "");
      assert a + "" + "" == a;
    }
  }

  /** Wherever such a line stands among the fields, the response fails. */
  lemma {:induction false} BadHeadIsRefused(h: HeadText, line: string, after: seq<string>, rest: bytes,
                                            isHead: bool, room: nat, ending: Ending, maxLine: nat)
    requires WellFormedHead(h) && IsBadLine(line)
    requires forall i | 0 <= i < |after| :: OneLine(after[i]) && after[i] != ""
    ensures Parse(HeadBytesWith(h, [line] + after) + rest, isHead, room, ending, maxLine) == Failed
  {
    hide HeaderSection, FromUtf8, ResponseHead, WellFormedHead, HeaderFields, Utf8.Encode, Block,
      StatusLine;
    var more := [line] + after;
    HeadBytesEnd(h, more, rest);
    HeadTextReadsBack(h, more);
    Utf8.Decodes(StatusLine(h) + "\r\n" + Block(FieldTexts(h.fields) + more));
    BadLineIsRefused(line, after + ["", ""]);
    assert more + ["", ""] == [line] + (after + ["", ""]);
  }

  // ---- Interim responses ----

  predicate AreInterims(heads: seq<HeadText>) {
    forall i | 0 <= i < |heads| ::
      WellFormedHead(heads[i]) && Readable(heads[i]) && InterimStatus(heads[i].status)
  }

  /** At most sixteen interim responses are skipped, whole; one more is too many. */
  lemma {:induction false} InterimsAreSkipped(heads: seq<HeadText>, rest: bytes, skipped: nat)
    requires AreInterims(heads) && skipped <= MAX_INFORMATIONAL_RESPONSES
    ensures FinalHead(Heads(heads) + rest, skipped)
            == if skipped + |heads| <= MAX_INFORMATIONAL_RESPONSES
               then FinalHead(rest, skipped + |heads|) else NoHead
    decreases |heads|
  {
    hide FinalHead, WellFormedHead, Readable, HeadBytes;
    if heads == [] {
      assert Heads(heads) + rest == rest;
    } else {
      var more := Heads(heads[1..]) + rest;
      assert Heads(heads) + rest == HeadBytes(heads[0]) + more;
      HeadReadsBack(heads[0], more, skipped);
      if skipped < MAX_INFORMATIONAL_RESPONSES {
        InterimsAreSkipped(heads[1..], rest, skipped + 1);
      }
    }
  }

  /** The head of a whole response: interim responses, then a final one. */
  predicate Sendable(interims: seq<HeadText>, h: HeadText) {
    && AreInterims(interims) && |interims| <= 16
    && WellFormedHead(h) && Readable(h) && !InterimStatus(h.status)
  }

  lemma WholeHeadReadsBack(interims: seq<HeadText>, h: HeadText, rest: bytes)
    requires Sendable(interims, h)
    ensures FinalHead(Heads(interims) + HeadBytes(h) + rest, 0)
            == Head(h.status, HeadersOf(h.fields), rest)
  {
    hide FinalHead, WellFormedHead, Readable, HeadBytes, AreInterims;
    assert Heads(interims) + HeadBytes(h) + rest == Heads(interims) + (HeadBytes(h) + rest);
    InterimsAreSkipped(interims, HeadBytes(h) + rest, 0);
    HeadReadsBack(h, rest, |interims|);
  }

  /** Seventeen or more interim responses fail whatever follows. */
  lemma TooManyInterims(interims: seq<HeadText>, rest: bytes, isHead: bool, room: nat,
                        ending: Ending, maxLine: nat)
    requires AreInterims(interims) && |interims| > 16
    ensures Parse(Heads(interims) + rest, isHead, room, ending, maxLine) == Failed
  {
    hide FinalHead, AreInterims;
    InterimsAreSkipped(interims, rest, 0);
  }

  /** A final head that is too long, of another protocol or with too large a status fails. */
  lemma UnreadableIsRefused(h: HeadText, rest: bytes, isHead: bool, room: nat, ending: Ending,
                            maxLine: nat)
    requires WellFormedHead(h) && !Readable(h)
    ensures Parse(HeadBytes(h) + rest, isHead, room, ending, maxLine) == Failed
  {
    hide FinalHead, WellFormedHead, Readable, HeadBytes;
    HeadReadsBack(h, rest, 0);
  }

  // ---- What the fields declare ----

  predicate Named(f: FieldLine, name: string) {
    EqIgnoreCase(f.name, name)
  }

  predicate NoneNamed(fields: seq<FieldLine>, name: string) {
    forall i | 0 <= i < |fields| :: !Named(fields[i], name)
  }

  lemma ValuesStep(f: FieldLine, rest: seq<FieldLine>, name: string)
    ensures HeaderValues(HeadersOf([f] + rest), name)
            == (if Named(f, name) then [f.value] else []) + HeaderValues(HeadersOf(rest), name)
  {
    hide EqIgnoreCase;
    assert ([f] + rest)[1..] == rest;
    assert HeadersOf([f] + rest)[1..] == HeadersOf(rest);
  }

  lemma {:induction false} ValuesOfNone(fields: seq<FieldLine>, name: string)
    requires NoneNamed(fields, name)
    ensures HeaderValues(HeadersOf(fields), name) == []
  {
    hide Named;
    if fields != [] {
      assert fields == [fields[0]] + fields[1..] && !Named(fields[0], name);
      ValuesStep(fields[0], fields[1..], name);
      ValuesOfNone(fields[1..], name);
    }
  }

  lemma {:induction false} ValuesOfOne(before: seq<FieldLine>, f: FieldLine, after: seq<FieldLine>,
                                       name: string)
    requires NoneNamed(before, name) && Named(f, name) && NoneNamed(after, name)
    ensures HeaderValues(HeadersOf(before + [f] + after), name) == [f.value]
  {
    hide Named, HeaderValues, HeadersOf;
    var fields := before + [f] + after;
    if before == [] {
      assert fields == [f] + after;
      ValuesStep(f, after, name);
      ValuesOfNone(after, name);
    } else {
      var rest := before[1..] + [f] + after;
      assert fields == [before[0]] + rest && !Named(before[0], name);
      ValuesStep(before[0], rest, name);
      ValuesOfOne(before[1..], f, after, name);
    }
  }

  lemma OneMember(value: string)
    requires ',' !in value && Trimmed(value)
    ensures Members([value]) == [value]
  {
    NoPosition(value, ',');
    TrimIdentity(value);
    assert Split(value, ",") == [value];
    assert [value][1..] == [] && Members([]) == [];
    assert TrimAll([value]) == [value];
  }

  /** A body is there unless the request was HEAD or the status is 1xx, 204 or 304. */
  predicate CarriesBody(isHead: bool, status: nat) {
    !isHead && !(100 <= status <= 199) && status != 204 && status != 304
  }

  lemma NumeralMember(n: nat)
    requires n <= USIZE_MAX
    ensures AgreedLength(Members([Numeral(n, 10)])) == Length(n)
  {
    hide Numeral, Members, ParseUnsigned;
    var s := Numeral(n, 10);
    NumeralIsWord(n);
    assert ',' !in s by {
      forall i | 0 <= i < |s| ensures s[i] != ',' {
        assert IsDigit(s[i], 10);
      }
    }
    assert s[0] in s && s[|s| - 1] in s;
    OneMember(s);
    ParsePrinted(n, 10, USIZE_MAX);
    AgreedLengthMeans([s], n);
  }

  // ---- Whole responses ----

  /**
   * A declared length: the fields say n bytes, and no coding. The response is read with exactly
   * the n bytes that follow its head, if they are all there and fit; else it fails.
   */
  lemma {:induction false} DeclaredLengthReadsBack(
      interims: seq<HeadText>, h: HeadText, before: seq<FieldLine>, f: FieldLine, after: seq<FieldLine>,
      body: bytes, tail: bytes, room: nat, ending: Ending, maxLine: nat)
    requires Sendable(interims, h) && CarriesBody(false, h.status) && |body| <= USIZE_MAX
    requires h.fields == before + [f] + after
    requires Named(f, "content-length") && f.value == Numeral(|body|, 10)
    requires NoneNamed(before, "content-length") && NoneNamed(after, "content-length")
    requires NoneNamed(h.fields, "transfer-encoding")
    ensures Parse(Heads(interims) + HeadBytes(h) + (body + tail), false, room, ending, maxLine)
            == if |body| <= room then Response(h.status, HeadersOf(h.fields), body, tail) else Failed
    ensures forall cut: bytes | |cut| < |body| ::
              Parse(Heads(interims) + HeadBytes(h) + cut, false, room, ending, maxLine) == Failed
  {
    hide FinalHead, Sendable, HeadBytes, Heads, Numeral, Members, HeaderValues, Named;
    LengthIsDeclared(h, before, f, after, |body|);
    WholeHeadReadsBack(interims, h, body + tail);
    assert (body + tail)[..|body|] == body && (body + tail)[|body|..] == tail;
    forall cut: bytes | |cut| < |body|
      ensures Parse(Heads(interims) + HeadBytes(h) + cut, false, room, ending, maxLine) == Failed {
      WholeHeadReadsBack(interims, h, cut);
    }
  }

  lemma LengthIsDeclared(h: HeadText, before: seq<FieldLine>, f: FieldLine, after: seq<FieldLine>, n: nat)
    requires CarriesBody(false, h.status) && n <= USIZE_MAX
    requires h.fields == before + [f] + after
    requires Named(f, "content-length") && f.value == Numeral(n, 10)
    requires NoneNamed(before, "content-length") && NoneNamed(after, "content-length")
    requires NoneNamed(h.fields, "transfer-encoding")
    ensures FramingOf(false, h.status, HeadersOf(h.fields)) == FixedBody(n)
  {
    hide Numeral, HeaderValues, EqIgnoreCase, Named, NoneNamed;
    ValuesOfOne(before, f, after, "content-length");
    ValuesOfNone(h.fields, "transfer-encoding");
    NumeralMember(n);
  }

  /** Without length and coding, the body is all there is up to an orderly close, if it fits. */
  lemma {:induction false} CloseDelimitedReadsBack(
      interims: seq<HeadText>, h: HeadText, body: bytes, room: nat, ending: Ending, maxLine: nat)
    requires Sendable(interims, h) && CarriesBody(false, h.status)
    requires NoneNamed(h.fields, "content-length") && NoneNamed(h.fields, "transfer-encoding")
    ensures Parse(Heads(interims) + HeadBytes(h) + body, false, room, ending, maxLine)
            == if ending == Closed && |body| <= room
               then Response(h.status, HeadersOf(h.fields), body, []) else Failed
  {
    hide FinalHead, Sendable, HeadBytes, Heads, HeaderValues, EqIgnoreCase, NoneNamed;
    ValuesOfNone(h.fields, "content-length");
    ValuesOfNone(h.fields, "transfer-encoding");
    assert Members([]) == [];
    WholeHeadReadsBack(interims, h, body);
  }

  /**
   * Chunked coding, whatever lengths are declared beside it: the content of the chunks, if it
   * fits, and what follows the last line is left.
   */
  lemma {:induction false} ChunkedReadsBack(
      interims: seq<HeadText>, h: HeadText, before: seq<FieldLine>, f: FieldLine, after: seq<FieldLine>,
      m: ChunkedCoding.Message, tail: bytes, room: nat, ending: Ending, maxLine: nat)
    requires Sendable(interims, h) && CarriesBody(false, h.status) && room <= USIZE_MAX
    requires h.fields == before + [f] + after
    requires Named(f, "transfer-encoding") && EqIgnoreCase(f.value, "chunked")
    requires NoneNamed(before, "transfer-encoding") && NoneNamed(after, "transfer-encoding")
    requires ChunkedCoding.WellFormedMessage(m, maxLine)
    ensures var content := ChunkedCoding.Content(m.chunks);
            Parse(Heads(interims) + HeadBytes(h) + (ChunkedCoding.Encode(m, maxLine) + tail),
                  false, room, ending, maxLine)
            == if |content| <= room then Response(h.status, HeadersOf(h.fields), content, tail)
               else Failed
  {
    hide FinalHead, Sendable, HeadBytes, Heads, HeaderValues, Named, Chunked,
      ChunkedCoding.WellFormedMessage, ChunkedCoding.Encode, ChunkedCoding.Content;
    ChunkedIsDeclared(h, before, f, after);
    WholeHeadReadsBack(interims, h, ChunkedCoding.Encode(m, maxLine) + tail);
    ChunkedCoding.RoundTrip(m, tail, room, maxLine);
  }

  lemma ChunkedIsDeclared(h: HeadText, before: seq<FieldLine>, f: FieldLine, after: seq<FieldLine>)
    requires CarriesBody(false, h.status) && h.fields == before + [f] + after
    requires Named(f, "transfer-encoding") && EqIgnoreCase(f.value, "chunked")
    requires NoneNamed(before, "transfer-encoding") && NoneNamed(after, "transfer-encoding")
    ensures FramingOf(false, h.status, HeadersOf(h.fields)) == ChunkedBody
  {
    hide HeaderValues, Named, NoneNamed, Lower;
    ValuesOfOne(before, f, after, "transfer-encoding");
    ChunkedIsPlain(f.value);
    OneMember(f.value);
    assert NonEmpty([f.value]) == [f.value] by {
      assert [f.value][1..] == [] && NonEmpty([]) == [];
    }
  }

  lemma ChunkedIsPlain(value: string)
    requires EqIgnoreCase(value, "chunked")
    ensures ',' !in value && Trimmed(value) && value != ""
  {
    forall i | 0 <= i < |value| ensures value[i] != ',' && !IsWhitespace(value[i]) {
      assert Lower(value)[i] == LowerChar(value[i]) && Lower("chunked")[i] == LowerChar("chunked"[i]);
    }
  }

  /** A response to HEAD, or with a status that has no body, ends with its head. */
  lemma {:induction false} BodilessReadsBack(
      interims: seq<HeadText>, h: HeadText, isHead: bool, rest: bytes, room: nat, ending: Ending,
      maxLine: nat)
    requires Sendable(interims, h) && !CarriesBody(isHead, h.status)
    ensures Parse(Heads(interims) + HeadBytes(h) + rest, isHead, room, ending, maxLine)
            == Response(h.status, HeadersOf(h.fields), [], rest)
  {
    hide FinalHead, Sendable, HeadBytes, Heads;
    WholeHeadReadsBack(interims, h, rest);
  }
}
