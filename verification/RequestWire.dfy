/** The HTTP/1.1 request head the proxy writes into a tunnel's data stream. */
module RequestWire {
  import opened Sequences
  import opened Text
  import opened HttpResponse
  import opened HopByHop

  /** A header field whose value may not be text. */
  datatype Field = Field(name: string, value: Option<string>)

  datatype Request = Request(verb: string, path: Option<string>, fields: seq<Field>)

  function PathOf(r: Request): string {
    if r.path.Some? then r.path.value else "/"
  }

  // ---- The fields ----

  /** A value that is not text counts as empty. */
  function AsHeader(f: Field): Header {
    Header(f.name, if f.value.Some? then f.value.value else "")
  }

  /** The fields as the hop-by-hop filter sees them. */
  function AsHeaders(fields: seq<Field>): (headers: seq<Header>)
    ensures |headers| == |fields|
    ensures forall i | 0 <= i < |fields| ::
              headers[i].name == fields[i].name
              && headers[i].value == if fields[i].value.Some? then fields[i].value.value else ""
  {
    if fields == [] then [] else [AsHeader(fields[0])] + AsHeaders(fields[1..])
  }

  predicate IsPrintable(f: Field, hostWritten: bool) {
    f.value.Some? && !(hostWritten && Lower(f.name) == "host")
  }

  /** The fields with text values, without those a custom Host replaces. */
  function TextFields(fields: seq<Field>, hostWritten: bool): seq<Header> {
    if fields == [] then []
    else
      (if IsPrintable(fields[0], hostWritten) then [AsHeader(fields[0])] else [])
      + TextFields(fields[1..], hostWritten)
  }

  function KeptFields(r: Request, hostWritten: bool): seq<Header> {
    Keep(TextFields(r.fields, hostWritten), HopNames(AsHeaders(r.fields)))
  }

  function HostLine(customHost: Option<string>): seq<Header> {
    if customHost.Some? then [Header("Host", customHost.value)] else []
  }

  function LengthLine(bodyLength: nat): seq<Header> {
    [Header("Content-Length", Numeral(bodyLength, 10))]
  }

  function WireHeaders(r: Request, bodyLength: nat, customHost: Option<string>): seq<Header> {
    HostLine(customHost) + (KeptFields(r, customHost.Some?) + LengthLine(bodyLength))
  }

  // ---- The text ----

  function RequestLine(r: Request): string {
    r.verb + " " + PathOf(r) + " HTTP/1.1"
  }

  function HeaderLine(h: Header): string {
    h.name + ": " + h.value
  }

  function HeaderBlock(headers: seq<Header>): string {
    if headers == [] then "\r\n"
    else HeaderLine(headers[0]) + "\r\n" + HeaderBlock(headers[1..])
  }

  /** The head: request line, one line a field, an empty line. */
  function Wire(r: Request, bodyLength: nat, customHost: Option<string>): string {
    RequestLine(r) + "\r\n" + HeaderBlock(WireHeaders(r, bodyLength, customHost))
  }

  lemma BlockStep(before: string, h: Header, rest: seq<Header>)
    ensures before + HeaderBlock([h] + rest) == before + HeaderLine(h) + "\r\n" + HeaderBlock(rest)
  {
    hide HeaderLine;
    assert ([h] + rest)[1..] == rest;
    assert HeaderBlock([h] + rest) == HeaderLine(h) + "\r\n" + HeaderBlock(rest);
  }

  /** What is still to be written once the fields before `i` are. */
  function Unwritten(r: Request, i: nat, hostWritten: bool, hop: set<string>, length: nat): seq<Header>
    requires i <= |r.fields|
  {
    Keep(TextFields(r.fields[i..], hostWritten), hop) + LengthLine(length)
  }

  lemma FieldStep(r: Request, i: nat, hostWritten: bool, hop: set<string>, length: nat)
    requires i < |r.fields|
    ensures var f := r.fields[i];
            Unwritten(r, i, hostWritten, hop, length)
            == (if IsPrintable(f, hostWritten) && Passes(AsHeader(f), hop) then [AsHeader(f)] else [])
               + Unwritten(r, i + 1, hostWritten, hop, length)
  {
    hide Passes, IsPrintable, LengthLine, AsHeader;
    var f := r.fields[i];
    var rest := TextFields(r.fields[i + 1..], hostWritten);
    assert r.fields[i..][1..] == r.fields[i + 1..];
    if IsPrintable(f, hostWritten) {
      var h := AsHeader(f);
      assert ([h] + rest)[1..] == rest;
    } else {
      assert [] + rest == rest;
    }
  }

  lemma AllWritten(r: Request, hostWritten: bool, hop: set<string>, length: nat)
    ensures Unwritten(r, |r.fields|, hostWritten, hop, length) == LengthLine(length)
    ensures hop == HopNames(AsHeaders(r.fields)) ==>
              Unwritten(r, 0, hostWritten, hop, length) == KeptFields(r, hostWritten) + LengthLine(length)
  {
    assert r.fields[|r.fields|..] == [] && r.fields[0..] == r.fields;
  }

  lemma HostStep(before: string, customHost: Option<string>, rest: seq<Header>)
    ensures before + HeaderBlock(HostLine(customHost) + rest)
            == (if customHost.Some? then before + "Host: " + customHost.value + "\r\n" else before)
               + HeaderBlock(rest)
  {
    if customHost.Some? {
      var h := Header("Host", customHost.value);
      BlockStep(before, h, rest);
      assert "Host" + ": " == "Host: ";
      assert before + HeaderLine(h) + "\r\n" == before + "Host: " + customHost.value + "\r\n";
    } else {
      assert HostLine(customHost) + rest == rest;
    }
  }

  lemma LastLine(before: string, bodyLength: nat)
    ensures before + HeaderBlock(LengthLine(bodyLength))
            == before + "Content-Length: " + Numeral(bodyLength, 10) + "\r\n\r\n"
  {
    var h := LengthLine(bodyLength)[0];
    assert LengthLine(bodyLength)[1..] == [] && "Content-Length" + ": " == "Content-Length: ";
    assert HeaderBlock(LengthLine(bodyLength)) == HeaderLine(h) + "\r\n" + "\r\n";
  }

  method SerializeHttpRequest(r: Request, bodyLength: nat, customHost: Option<string>)
      returns (raw: string)
    ensures raw == Wire(r, bodyLength, customHost)
  {
    hide KeptFields, Unwritten, HeaderBlock, HostLine, LengthLine, HopNames, Keep, Lower, IsHopByHop,
      RequestLine;
    raw := RequestLine(r) + "\r\n";
    HostStep(raw, customHost, KeptFields(r, customHost.Some?) + LengthLine(bodyLength));
    var hostWritten := customHost.Some?;
    if customHost.Some? {
      raw := raw + "Host: " + customHost.value + "\r\n";
    }
    var hop := HopByHopNames(AsHeaders(r.fields));
    assert hop == HopNames(AsHeaders(r.fields));
    AllWritten(r, hostWritten, hop, bodyLength);
    for i := 0 to |r.fields|
      invariant raw + HeaderBlock(Unwritten(r, i, hostWritten, hop, bodyLength))
                == Wire(r, bodyLength, customHost)
    {
      FieldStep(r, i, hostWritten, hop, bodyLength);
      var f := r.fields[i];
      var rest := Unwritten(r, i + 1, hostWritten, hop, bodyLength);
      assert [] + rest == rest;
      if hostWritten && Lower(f.name) == "host" {
        continue;
      }
      if Lower(f.name) in hop || Lower(f.name) == "content-length" {
        continue;
      }
      if f.value.Some? {
        BlockStep(raw, AsHeader(f), rest);
        raw := raw + f.name + ": " + f.value.value + "\r\n";
      }
    }
    LastLine(raw, bodyLength);
    raw := raw + "Content-Length: " + Numeral(bodyLength, 10) + "\r\n\r\n";
  }

  // ---- What is forwarded ----

  lemma {:induction false} TextFieldMembers(fields: seq<Field>, hostWritten: bool)
    ensures forall h: Header :: h in TextFields(fields, hostWritten) <==>
              && Field(h.name, Some(h.value)) in fields
              && !(hostWritten && Lower(h.name) == "host")
  {
    hide Lower;
    if fields != [] {
      TextFieldMembers(fields[1..], hostWritten);
      assert fields == [fields[0]] + fields[1..];
    }
  }

  /**
   * Of a request's own fields, those with text values pass that are neither hop-by-hop nor a
   * Content-Length, and no Host where the tunnel sets its own. They keep their order.
   */
  lemma RequestFields(r: Request, hostWritten: bool)
    ensures forall h: Header :: h in KeptFields(r, hostWritten) <==>
              && Field(h.name, Some(h.value)) in r.fields
              && !IsHopByHop(Lower(h.name), AsHeaders(r.fields))
              && Lower(h.name) != "content-length"
              && !(hostWritten && Lower(h.name) == "host")
    ensures var text := TextFields(r.fields, hostWritten);
            var at := KeptAt(text, HopNames(AsHeaders(r.fields)), 0);
            && |KeptFields(r, hostWritten)| == |at|
            && forall k | 0 <= k < |at| :: KeptFields(r, hostWritten)[k] == text[at[k]]
  {
    hide Lower, HopNames, KeptAt;
    var text := TextFields(r.fields, hostWritten);
    TextFieldMembers(r.fields, hostWritten);
    KeepMembers(text, HopNames(AsHeaders(r.fields)));
    KeepInOrder(text, HopNames(AsHeaders(r.fields)), 0);
    assert text[0..] == text;
  }

  /** Whatever lengths the public request declared, the tunnel sees one: the decoded body's. */
  lemma OneRequestLength(r: Request, bodyLength: nat, customHost: Option<string>)
    ensures LengthFields(WireHeaders(r, bodyLength, customHost)) == [Numeral(bodyLength, 10)]
  {
    hide KeptFields, IsHopByHop, LengthFields, HostLine, LengthLine, Lower;
    var kept := KeptFields(r, customHost.Some?);
    RequestFields(r, customHost.Some?);
    NoLengthFields(kept);
    LengthFieldsOfSum(kept, LengthLine(bodyLength));
    LengthFieldsOfSum(HostLine(customHost), kept + LengthLine(bodyLength));
    OwnLines(bodyLength, customHost);
  }

  lemma OwnLines(bodyLength: nat, customHost: Option<string>)
    ensures LengthFields(HostLine(customHost)) == []
    ensures LengthFields(LengthLine(bodyLength)) == [Numeral(bodyLength, 10)]
  {
    hide LengthFields;
    assert Lower("Content-Length") == "content-length";
    OneLengthField(LengthLine(bodyLength)[0]);
    assert Lower("Host")[0] == 'h';
    NoLengthFields(HostLine(customHost));
  }
}
