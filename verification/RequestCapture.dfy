/** The client's reading of a request head, and its agreement with what the proxy wrote. */
module RequestCapture {
  import opened Sequences
  import opened Text
  import opened HttpResponse
  import opened HopByHop
  import opened RequestWire
  import opened Capture
  import opened HeadLines
  import Utf8

  datatype Captured =
    Captured(verb: string, url: string, headers: seq<Header>, body: Option<bytes>)

  const SENSITIVE_NAMES: seq<string> := [
    "authorization", "proxy-authorization", "cookie", "set-cookie", "x-api-key", "api-key",
    "x-auth-token", "x-csrf-token", "sec-websocket-key"
  ]

  const SENSITIVE_PARTS: seq<string> :=
    ["api-key", "apikey", "token", "secret", "password", "credential"]

  predicate Contains(s: string, pat: string) {
    Position(s, pat).Some?
  }

  predicate IsSensitive(header: string) {
    var name := Lower(Trim(header));
    || name in SENSITIVE_NAMES
    || exists i | 0 <= i < |SENSITIVE_PARTS| :: Contains(name, SENSITIVE_PARTS[i])
  }

  function Sanitize(headers: seq<Header>): seq<Header> {
    if headers == [] then []
    else (if IsSensitive(headers[0].name) then [] else [headers[0]]) + Sanitize(headers[1..])
  }

  /** The lines up to the first empty one that have a ": ", as fields. */
  function CollectFields(lines: seq<string>): seq<Header> {
    if lines == [] || lines[0] == "" then []
    else
      (match SplitOnce(lines[0], ": ")
       case None => []
       case Some(field) => [Header(field.0, field.1)]) + CollectFields(lines[1..])
  }

  /** What a capture of a stream that starts with `data` shows. */
  function CaptureOf(data: bytes, maxBody: nat): Option<Captured> {
    var lines := Lines(FromUtf8Lossy(data));
    if lines == [] || |Words(lines[0])| < 2 then None
    else
      Some(Captured(Words(lines[0])[0], Words(lines[0])[1],
                    Sanitize(CollectFields(lines[1..])), CapturedBody(data, maxBody)))
  }

  method ParseRequestForCapture(data: bytes, maxBody: nat) returns (r: Option<Captured>)
    ensures r == CaptureOf(data, maxBody)
  {
    hide Lines, FromUtf8Lossy, Words, SplitOnce, CapturedBody, Sanitize;
    var lines := Lines(FromUtf8Lossy(data));
    if lines == [] {
      return None;
    }
    var words := Words(lines[0]);
    if |words| < 2 {
      return None;
    }
    var headers: seq<Header> := [];
    var i := 1;
    while i < |lines| && lines[i] != ""
      invariant 1 <= i <= |lines|
      invariant headers + CollectFields(lines[i..]) == CollectFields(lines[1..])
    {
      assert lines[i..][1..] == lines[i + 1..];
      match SplitOnce(lines[i], ": ") {
        case None =>
          assert [] + CollectFields(lines[i + 1..]) == CollectFields(lines[i + 1..]);
        case Some(field) =>
          headers := headers + [Header(field.0, field.1)];
      }
      i := i + 1;
    }
    assert lines[i..] == [] || lines[i..][0] == "";
    assert headers + [] == headers;
    r := Some(Captured(words[0], words[1], Sanitize(headers), CapturedBody(data, maxBody)));
  }

  // ---- Well-formed heads ----

  predicate WellFormedHeader(h: Header) {
    IsWord(h.name) && ':' !in h.name && OneLine(h.value)
  }

  predicate WellFormedRequest(r: Request, customHost: Option<string>) {
    && IsWord(r.verb) && r.path != Some("") && OneLine(PathOf(r))
    && (forall i | 0 <= i < |r.fields| ::
          r.fields[i].value.Some? ==> WellFormedHeader(AsHeader(r.fields[i])))
    && (customHost.Some? ==> OneLine(customHost.value))
  }

  lemma NumeralsAreOneLine(n: nat)
    ensures OneLine(Numeral(n, 10))
  {
  }

  lemma HeaderLineIsOneLine(h: Header)
    requires WellFormedHeader(h)
    ensures OneLine(HeaderLine(h)) && HeaderLine(h) != ""
  {
    WordsAreOneLine(h.name);
  }

  lemma {:induction false} TextFieldsWellFormed(fields: seq<Field>, hostWritten: bool)
    requires forall i | 0 <= i < |fields| ::
               fields[i].value.Some? ==> WellFormedHeader(AsHeader(fields[i]))
    ensures forall h | h in TextFields(fields, hostWritten) :: WellFormedHeader(h)
  {
    hide WellFormedHeader, AsHeader, Lower;
    if fields != [] {
      TextFieldsWellFormed(fields[1..], hostWritten);
    }
  }

  lemma {:induction false} OwnLinesWellFormed(bodyLength: nat, customHost: Option<string>)
    requires customHost.Some? ==> OneLine(customHost.value)
    ensures forall h | h in HostLine(customHost) + LengthLine(bodyLength) :: WellFormedHeader(h)
  {
    NumeralsAreOneLine(bodyLength);
    assert IsWord("Host") && IsWord("Content-Length");
  }

  lemma {:induction false} WireHeadersWellFormed(r: Request, bodyLength: nat, customHost: Option<string>)
    requires WellFormedRequest(r, customHost)
    ensures forall h | h in WireHeaders(r, bodyLength, customHost) :: WellFormedHeader(h)
  {
    hide WellFormedHeader, IsWord, HostLine, LengthLine, TextFields, Keep, HopNames, AsHeader, PathOf;
    TextFieldsWellFormed(r.fields, customHost.Some?);
    KeepMembers(TextFields(r.fields, customHost.Some?), HopNames(AsHeaders(r.fields)));
    OwnLinesWellFormed(bodyLength, customHost);
  }

  lemma RequestLineIsOneLine(r: Request)
    requires IsWord(r.verb) && OneLine(PathOf(r))
    ensures OneLine(RequestLine(r)) && RequestLine(r) != ""
  {
    hide IsWord, PathOf;
    WordsAreOneLine(r.verb);
    WordNotEmpty(r.verb);
  }

  lemma WordNotEmpty(s: string)
    requires IsWord(s)
    ensures s != ""
  {
  }

  lemma FirstIsWord(s: string)
    requires Words(s) != []
    ensures IsWord(Words(s)[0])
  {
    hide IsWhitespace;
    TrimStartShrinks(s);
  }

  /** What a reader that cuts at white space takes for the path. */
  function SeenUrl(r: Request): string {
    var words := Words(PathOf(r) + " HTTP/1.1");
    if words == [] then "" else words[0]
  }

  lemma ProtocolIsWord()
    ensures Words("HTTP/1.1") == ["HTTP/1.1"] && IsWord("HTTP/1.1")
  {
    var word := "HTTP/1.1";
    FirstWord(word, "");
    assert word + "" == word && Words("") == [];
  }

  lemma {:induction false} SomeWord(s: string, word: string)
    requires IsWord(word)
    ensures Words(s + word) != []
    decreases |s|
  {
    if s == "" {
      assert s + word == word && word[0] in word;
      TrimStartShrinks(word);
    } else if IsWhitespace(s[0]) {
      assert (s + word)[1..] == s[1..] + word;
      SomeWord(s[1..], word);
      assert TrimStart(s + word) == TrimStart(s[1..] + word);
    } else {
      assert TrimStart(s + word) == s + word;
    }
  }

  /**
   * The request's own path reads back exactly when there is no white space in it, as Unicode has
   * it; a request without one shows the root.
   */
  lemma PathReadsBackIff(r: Request)
    requires r.path != Some("")
    ensures r.path.Some? ==>
              (SeenUrl(r) == r.path.value
               <==> forall i | 0 <= i < |r.path.value| :: !IsWhitespace(r.path.value[i]))
    ensures r.path.None? ==> SeenUrl(r) == "/"
    ensures Words(PathOf(r) + " HTTP/1.1") != [] && IsWord(SeenUrl(r))
  {
    hide Words, IsWhitespace;
    SlashIsWord();
    var path := PathOf(r);
    ProtocolIsWord();
    SomeWord(path + " ", "HTTP/1.1");
    assert path + " " + "HTTP/1.1" == path + " HTTP/1.1";
    FirstIsWord(path + " HTTP/1.1");
    if forall i | 0 <= i < |path| :: !IsWhitespace(path[i]) {
      SpaceBefore();
      FirstWord(path, " HTTP/1.1");
    } else {
      var i :| 0 <= i < |path| && IsWhitespace(path[i]);
      assert path[i] in path;
    }
  }

  lemma SlashIsWord()
    ensures !IsWhitespace('/')
  {
  }

  lemma RequestLineReadsBack(r: Request)
    requires IsWord(r.verb) && r.path != Some("")
    ensures var words := Words(RequestLine(r));
            |words| >= 2 && words[0] == r.verb && words[1] == SeenUrl(r)
  {
    hide IsWhitespace, PathOf, Words;
    SpaceBefore();
    PathReadsBackIff(r);
    var rest := PathOf(r) + " HTTP/1.1";
    assert RequestLine(r) == r.verb + (" " + rest);
    FirstWord(r.verb, " " + rest);
    SkipSpace(rest);
  }

  // ---- Reading lines back ----

  lemma LinesStep(line: string, rest: string)
    requires OneLine(line)
    ensures Lines(line + "\r\n" + rest) == [line] + Lines(rest)
  {
    var s := line + "\r\n" + rest;
    var first := line + [CR];
    assert s == first + [LF] + rest;
    PositionOfSeparator(first, LF, rest);
    assert s[..|first|] == first && s[|first| + 1..] == rest;
    assert StripCr(first) == first[..|line|] == line;
  }

  lemma FieldReadsBack(h: Header)
    requires WellFormedHeader(h)
    ensures SplitOnce(HeaderLine(h), ": ") == Some((h.name, h.value))
  {
    var s := HeaderLine(h);
    assert s[|h.name|..|h.name| + 2] == ": ";
    forall j | 0 <= j < |h.name| ensures !OccursAt(s, ": ", j) {
      assert s[j] == h.name[j] && h.name[j] in h.name;
      NoOccurrence(s, ": ", j, 0);
    }
    PositionIs(s, ": ", |h.name|);
    assert s[..|h.name|] == h.name && s[|h.name| + 2..] == h.value;
  }

  /** A printed block reads back as its fields; nothing after the empty line is looked at. */
  lemma {:induction false} BlockReadsBack(headers: seq<Header>, tail: string)
    requires forall h | h in headers :: WellFormedHeader(h)
    ensures CollectFields(Lines(HeaderBlock(headers) + tail)) == headers
  {
    hide Lines, WellFormedHeader, HeaderLine, SplitOnce;
    if headers == [] {
      assert HeaderBlock(headers) + tail == "" + "\r\n" + tail;
      LinesStep("", tail);
    } else {
      var h, rest := headers[0], HeaderBlock(headers[1..]) + tail;
      assert HeaderBlock(headers) + tail == HeaderLine(h) + "\r\n" + rest;
      HeaderLineIsOneLine(h);
      LinesStep(HeaderLine(h), rest);
      FieldReadsBack(h);
      BlockReadsBack(headers[1..], tail);
      var lines := [HeaderLine(h)] + Lines(rest);
      assert lines[1..] == Lines(rest);
      assert headers == [h] + headers[1..];
    }
  }

  // ---- Where the body starts ----

  function HeaderLines(headers: seq<Header>): (lines: seq<string>)
    ensures |lines| == |headers|
    ensures forall i | 0 <= i < |headers| :: lines[i] == HeaderLine(headers[i])
  {
    if headers == [] then [] else [HeaderLine(headers[0])] + HeaderLines(headers[1..])
  }

  lemma {:induction false} BlockOfHeaders(headers: seq<Header>)
    ensures HeaderBlock(headers) == Block(HeaderLines(headers))
  {
    hide HeaderLine;
    if headers != [] {
      BlockOfHeaders(headers[1..]);
      assert HeaderLines(headers)[1..] == HeaderLines(headers[1..]);
    }
  }

  /** In bytes, as in text, the request's head ends at the first empty line. */
  lemma HeadEnds(first: string, headers: seq<Header>, tail: bytes)
    requires OneLine(first) && first != ""
    requires forall h | h in headers :: WellFormedHeader(h)
    ensures var head := Utf8.Encode(first + "\r\n" + HeaderBlock(headers));
            |head| >= 4 && Position(head + tail, BLANK_LINE) == Some(|head| - 4)
  {
    hide WellFormedHeader, HeaderLine, OneLine, Utf8.Encode, Position;
    BlockOfHeaders(headers);
    forall i | 0 <= i < |headers| ensures OneLine(HeaderLines(headers)[i]) && HeaderLines(headers)[i] != "" {
      assert headers[i] in headers;
      HeaderLineIsOneLine(headers[i]);
    }
    BlockEnds(first, HeaderLines(headers), tail);
  }

  // ---- The two agree ----

  /**
   * What the client shows of a request is what the proxy wrote: method, path as far as it has no
   * white space, every forwarded field in order except the sensitive ones, and the start of the
   * body.
   */
  lemma {:induction false} RequestReadsBack(r: Request, bodyLength: nat, customHost: Option<string>,
                                            body: bytes, maxBody: nat)
    requires WellFormedRequest(r, customHost)
    ensures var wire := Utf8.Encode(Wire(r, bodyLength, customHost));
            && BodyOffset(wire + body) == Some(|wire|)
            && CaptureOf(wire + body, maxBody)
               == Some(Captured(r.verb, SeenUrl(r), Sanitize(WireHeaders(r, bodyLength, customHost)),
                                if body == [] then None else Some(Prefix(body, maxBody))))
  {
    hide RequestLine, WireHeaders, HeaderBlock, Utf8.Encode, CollectFields, Lines, Words,
      FromUtf8Lossy, Sanitize, Position, WellFormedHeader, PathOf, IsWord, OneLine, SeenUrl;
    var headers := WireHeaders(r, bodyLength, customHost);
    var first, block := RequestLine(r), HeaderBlock(headers);
    var text := first + "\r\n" + block;
    var wire := Utf8.Encode(text);
    WireHeadersWellFormed(r, bodyLength, customHost);
    RequestLineReadsBack(r);
    RequestLineIsOneLine(r);
    HeadEnds(first, headers, body);
    assert (wire + body)[|wire|..] == body;
    Utf8.ReadsBack(text, body);
    var tail := FromUtf8Lossy(body);
    assert text + tail == first + "\r\n" + (block + tail);
    LinesStep(first, block + tail);
    var lines := [first] + Lines(block + tail);
    assert lines[1..] == Lines(block + tail);
    BlockReadsBack(headers, tail);
  }

  /** A line that is no field is passed over, and the fields after it are still read. */
  lemma {:induction false} OtherLinesAreSkipped(before: seq<string>, line: string, after: seq<string>)
    requires line != "" && Position(line, ": ").None?
    ensures CollectFields(before + [line] + after) == CollectFields(before + after)
  {
    if before == [] {
      assert [] + [line] + after == [line] + after && ([line] + after)[1..] == after;
      assert [] + after == after;
    } else {
      assert (before + [line] + after)[1..] == before[1..] + [line] + after;
      assert (before + after)[1..] == before[1..] + after;
      OtherLinesAreSkipped(before[1..], line, after);
    }
  }

  // ---- What is withheld ----

  lemma WordsAreTrimmed(s: string)
    requires IsWord(s)
    ensures Trim(s) == s
  {
    assert s[0] in s && s[|s| - 1] in s;
    TrimIdentity(s);
  }

  /** `part` stands at `j` in the name, in any case. */
  predicate StandsAt(name: string, part: string, j: int) {
    0 <= j && j + |part| <= |name| && EqIgnoreCase(name[j..j + |part|], part)
  }

  /**
   * A name is sensitive exactly when, in whatever case it is written, it is one of the nine or
   * one of the six telling parts stands in it.
   */
  lemma SensitiveMeans(name: string)
    requires IsWord(name)
    ensures IsSensitive(name) <==>
              || (exists i | 0 <= i < |SENSITIVE_NAMES| :: EqIgnoreCase(name, SENSITIVE_NAMES[i]))
              || (exists i, j | 0 <= i < |SENSITIVE_PARTS| :: StandsAt(name, SENSITIVE_PARTS[i], j))
  {
    hide Lower, IsWord, Trim, StandsAt, Contains;
    WordsAreTrimmed(name);
    ListsAreLower();
    var lower := Lower(name);
    forall i | 0 <= i < |SENSITIVE_PARTS|
      ensures Contains(lower, SENSITIVE_PARTS[i]) <==>
                exists j :: StandsAt(name, SENSITIVE_PARTS[i], j)
    {
      ContainsMeans(name, SENSITIVE_PARTS[i]);
    }
  }

  lemma LowerSlice(name: string, i: nat, j: nat)
    requires i <= j <= |name|
    ensures Lower(name[i..j]) == Lower(name)[i..j]
  {
  }

  lemma StandsWhereItOccurs(name: string, part: string, j: int)
    requires Lower(part) == part
    ensures StandsAt(name, part, j) <==> OccursAt(Lower(name), part, j)
  {
    hide Lower;
    if 0 <= j && j + |part| <= |name| {
      LowerSlice(name, j, j + |part|);
    }
  }

  lemma ContainsMeans(name: string, part: string)
    requires Lower(part) == part
    ensures Contains(Lower(name), part) <==> exists j :: StandsAt(name, part, j)
  {
    hide Lower, StandsAt, OccursAt;
    forall j ensures StandsAt(name, part, j) <==> OccursAt(Lower(name), part, j) {
      StandsWhereItOccurs(name, part, j);
    }
    var p := Position(Lower(name), part);
    if p.Some? {
      assert StandsAt(name, part, p.value);
    }
  }

  lemma ListsAreLower()
    ensures forall i | 0 <= i < |SENSITIVE_NAMES| :: Lower(SENSITIVE_NAMES[i]) == SENSITIVE_NAMES[i]
    ensures forall i | 0 <= i < |SENSITIVE_PARTS| :: Lower(SENSITIVE_PARTS[i]) == SENSITIVE_PARTS[i]
  {
    forall i | 0 <= i < |SENSITIVE_NAMES| ensures Lower(SENSITIVE_NAMES[i]) == SENSITIVE_NAMES[i] {
      NoUpper(SENSITIVE_NAMES[i]);
    }
    forall i | 0 <= i < |SENSITIVE_PARTS| ensures Lower(SENSITIVE_PARTS[i]) == SENSITIVE_PARTS[i] {
      NoUpper(SENSITIVE_PARTS[i]);
    }
  }

  lemma NoUpper(s: string)
    requires forall i | 0 <= i < |s| :: !('A' <= s[i] <= 'Z')
    ensures Lower(s) == s
  {
  }

  // ---- The length survives ----

  /** No pattern occurs in `s` if its first two characters never follow each other there. */
  lemma NotContained(s: string, pat: string)
    requires |pat| >= 2
    requires forall j | 0 <= j < |s| - 1 :: s[j] != pat[0] || s[j + 1] != pat[1]
    ensures !Contains(s, pat)
  {
    forall j ensures !OccursAt(s, pat, j) {
      NoOccurrence(s, pat, j, if 0 <= j < |s| - 1 && s[j] == pat[0] then 1 else 0);
    }
  }

  lemma {:induction false} LengthIsNotSensitive()
    ensures !IsSensitive("Content-Length")
  {
    hide Contains, Lower;
    LowerLength();
    var name := "content-length";
    TrimIdentity("Content-Length");
    forall i | 0 <= i < |SENSITIVE_PARTS| ensures !Contains(name, SENSITIVE_PARTS[i]) {
      NotContained(name, SENSITIVE_PARTS[i]);
    }
    forall i | 0 <= i < |SENSITIVE_NAMES| ensures name != SENSITIVE_NAMES[i] {
      assert SENSITIVE_NAMES[i][1] != 'o' || SENSITIVE_NAMES[i][2] != 'n';
    }
  }

  lemma LowerLength()
    ensures Lower("Content-Length") == "content-length"
  {
  }

  lemma {:induction false} SanitizeSum(a: seq<Header>, b: seq<Header>)
    ensures Sanitize(a + b) == Sanitize(a) + Sanitize(b)
  {
    hide IsSensitive;
    if a == [] {
      assert a + b == b;
    } else {
      assert (a + b)[1..] == a[1..] + b;
      SanitizeSum(a[1..], b);
    }
  }

  lemma {:induction false} SanitizeMembers(headers: seq<Header>)
    ensures forall h :: h in Sanitize(headers) <==> h in headers && !IsSensitive(h.name)
    ensures |Sanitize(headers)| <= |headers|
  {
    hide IsSensitive;
    if headers != [] {
      SanitizeMembers(headers[1..]);
      assert headers == [headers[0]] + headers[1..];
    }
  }

  /** A capture shows exactly one Content-Length, the length of the body the proxy decoded. */
  lemma {:induction false} CaptureShowsOneLength(r: Request, bodyLength: nat, customHost: Option<string>)
    ensures LengthFields(Sanitize(WireHeaders(r, bodyLength, customHost)))
            == [Numeral(bodyLength, 10)]
  {
    hide IsSensitive, KeptFields, IsHopByHop, LengthFields, HostLine, Lower, Sanitize;
    var kept, last := KeptFields(r, customHost.Some?), LengthLine(bodyLength);
    var own := HostLine(customHost);
    SanitizeSum(own, kept + last);
    SanitizeSum(kept, last);
    LengthFieldsOfSum(Sanitize(own), Sanitize(kept) + Sanitize(last));
    LengthFieldsOfSum(Sanitize(kept), Sanitize(last));
    RequestFields(r, customHost.Some?);
    SanitizeMembers(kept);
    NoLengthFields(Sanitize(kept));
    SanitizeMembers(own);
    HostIsNoLength(customHost);
    NoLengthFields(Sanitize(own));
    LengthStays(bodyLength);
    OwnLines(bodyLength, customHost);
  }

  lemma HostIsNoLength(customHost: Option<string>)
    ensures forall h | h in HostLine(customHost) :: Lower(h.name) != "content-length"
  {
    assert Lower("Host")[0] == 'h';
  }

  lemma {:induction false} LengthStays(bodyLength: nat)
    ensures Sanitize(LengthLine(bodyLength)) == LengthLine(bodyLength)
  {
    hide IsSensitive;
    LengthIsNotSensitive();
    assert LengthLine(bodyLength)[1..] == [];
    assert Sanitize([]) == [];
  }

  // ---- Through the pump ----

  /**
   * From end to end: the proxy's head and body through the client's pump and capture buffer.
   * With a head of at most 65,536 bytes the inspector shows the request as it was written, the
   * first `maxBody` bytes of its body, and whether there were more.
   */
  lemma {:induction false} InspectorShowsRequest(r: Request, bodyLength: nat,
                                                 customHost: Option<string>, body: bytes,
                                                 maxBody: nat)
    requires WellFormedRequest(r, customHost)
    requires var wire := Utf8.Encode(Wire(r, bodyLength, customHost));
             |wire| <= HEADER_ALLOWANCE && |wire| + |body| < U64
    ensures var data := Utf8.Encode(Wire(r, bodyLength, customHost)) + body;
            var seen := Prefix(data, Limit(maxBody));
            var shown := CaptureOf(seen, maxBody);
            && shown.Some?
            && shown.value.verb == r.verb && shown.value.url == SeenUrl(r)
            && shown.value.headers == Sanitize(WireHeaders(r, bodyLength, customHost))
            && OrEmpty(shown.value.body) == Prefix(body, maxBody)
            && (BodyTruncated(seen, |data|, maxBody) <==> |body| > maxBody)
  {
    hide Wire, WireHeaders, CaptureOf, Sanitize, Utf8.Encode, BodyOffset, SeenUrl, WellFormedRequest;
    var wire := Utf8.Encode(Wire(r, bodyLength, customHost));
    var data, limit := wire + body, Limit(maxBody);
    var seen, front := Prefix(data, limit), Prefix(body, limit - |wire|);
    assert seen == wire + front;
    RequestReadsBack(r, bodyLength, customHost, front, maxBody);
    RequestReadsBack(r, bodyLength, customHost, body, maxBody);
    assert Prefix(front, maxBody) == Prefix(body, maxBody) by {
      if |data| <= limit {
        assert front == body;
      }
    }
  }
}
