/**
 * Which header fields a proxy may pass on (section 7.6.1 of RFC 9110), and the re-framed header
 * list of a forwarded response.
 */
module HopByHop {
  import opened Sequences
  import opened Text
  import opened HttpResponse

  const HOP_BY_HOP_HEADERS: seq<string> := [
    "connection", "keep-alive", "proxy-authenticate", "proxy-authorization", "proxy-connection",
    "te", "trailer", "transfer-encoding", "upgrade"
  ]

  // ---- Names ----

  function LowerAll(items: seq<string>): (r: seq<string>)
    ensures |r| == |items| && forall i | 0 <= i < |items| :: r[i] == Lower(items[i])
  {
    if items == [] then [] else [Lower(items[0])] + LowerAll(items[1..])
  }

  /** The fields a Connection value lists. */
  function ConnectionTokens(value: string): seq<string> {
    LowerAll(NonEmpty(TrimAll(Split(value, ","))))
  }

  predicate IsConnection(h: Header) {
    Lower(h.name) == "connection"
  }

  predicate Nominated(name: string, headers: seq<Header>) {
    exists i | 0 <= i < |headers| ::
      IsConnection(headers[i]) && name in ConnectionTokens(headers[i].value)
  }

  ghost predicate IsHopByHop(name: string, headers: seq<Header>) {
    name in HOP_BY_HOP_HEADERS || Nominated(name, headers)
  }

  /** The lower-case names that must not pass, as the source collects them. */
  method HopByHopNames(headers: seq<Header>) returns (names: set<string>)
    ensures forall name :: name in names <==> IsHopByHop(name, headers)
  {
    names := set name | name in HOP_BY_HOP_HEADERS;
    for i := 0 to |headers|
      invariant forall name :: name in names <==> IsHopByHop(name, headers[..i])
    {
      var tokens: set<string> := {};
      if IsConnection(headers[i]) {
        tokens := set t | t in ConnectionTokens(headers[i].value);
      }
      forall name
        ensures Nominated(name, headers[..i + 1]) <==> Nominated(name, headers[..i]) || name in tokens
      {
        NominatedByOneMore(name, headers, i);
      }
      names := names + tokens;
    }
    assert headers[..|headers|] == headers;
  }

  lemma NominatedByOneMore(name: string, headers: seq<Header>, i: nat)
    requires i < |headers|
    ensures Nominated(name, headers[..i + 1]) <==>
              Nominated(name, headers[..i])
              || (IsConnection(headers[i]) && name in ConnectionTokens(headers[i].value))
  {
    hide ConnectionTokens, Lower;
    var more, less := headers[..i + 1], headers[..i];
    assert more == less + [headers[i]];
    if Nominated(name, less) {
      var k :| 0 <= k < |less| && IsConnection(less[k]) && name in ConnectionTokens(less[k].value);
      assert more[k] == less[k];
    }
    if IsConnection(headers[i]) && name in ConnectionTokens(headers[i].value) {
      assert more[i] == headers[i];
    }
    if Nominated(name, more) {
      var k :| 0 <= k < |more| && IsConnection(more[k]) && name in ConnectionTokens(more[k].value);
      assert k < i ==> less[k] == more[k];
    }
  }

  lemma {:induction false} NonEmptyLowered(items: seq<string>, name: string)
    ensures name in LowerAll(NonEmpty(items)) <==> exists m :: m in items && m != "" && Lower(m) == name
  {
    hide Lower;
    NonEmptyAre(items);
    var kept := NonEmpty(items);
    if name in LowerAll(kept) {
      var i :| 0 <= i < |kept| && LowerAll(kept)[i] == name;
      assert kept[i] in kept && Lower(kept[i]) == name;
    }
    if exists m :: m in items && m != "" && Lower(m) == name {
      var m :| m in items && m != "" && Lower(m) == name;
      var i :| 0 <= i < |kept| && kept[i] == m;
      assert LowerAll(kept)[i] == name;
    }
  }

  /**
   * A field is nominated exactly when some Connection value, in any spelling of that name, has
   * its name among its members, in any case.
   */
  lemma {:induction false} NominatedMeans(name: string, headers: seq<Header>)
    ensures Nominated(Lower(name), headers) <==>
              exists m :: IsMember(headers, "connection", m) && m != "" && EqIgnoreCase(m, name)
  {
    hide Split, NonEmpty, Lower, TrimAll;
    ConnectionIsLower();
    if Nominated(Lower(name), headers) {
      var i :| 0 <= i < |headers| && IsConnection(headers[i])
               && Lower(name) in ConnectionTokens(headers[i].value);
      NonEmptyLowered(TrimAll(Split(headers[i].value, ",")), Lower(name));
      var m :| m in TrimAll(Split(headers[i].value, ",")) && m != "" && Lower(m) == Lower(name);
      assert IsMember(headers, "connection", m);
    }
    if exists m :: IsMember(headers, "connection", m) && m != "" && EqIgnoreCase(m, name) {
      var m :| IsMember(headers, "connection", m) && m != "" && EqIgnoreCase(m, name);
      var i :| 0 <= i < |headers| && EqIgnoreCase(headers[i].name, "connection")
               && m in TrimAll(Split(headers[i].value, ","));
      NonEmptyLowered(TrimAll(Split(headers[i].value, ",")), Lower(name));
    }
  }

  lemma ConnectionIsLower()
    ensures Lower("connection") == "connection"
  {
  }

  // ---- The fields that pass ----

  predicate Passes(h: Header, names: set<string>) {
    Lower(h.name) !in names && Lower(h.name) != "content-length"
  }

  function Keep(headers: seq<Header>, names: set<string>): seq<Header> {
    if headers == [] then []
    else (if Passes(headers[0], names) then [headers[0]] else []) + Keep(headers[1..], names)
  }

  /** The names in `headers` that must not pass, as a set. */
  function HopNames(headers: seq<Header>): (names: set<string>)
    ensures forall name :: name in names <==> IsHopByHop(name, headers)
  {
    var nominated :=
      set h, t | h in headers && IsConnection(h) && t in ConnectionTokens(h.value) :: t;
    (set name | name in HOP_BY_HOP_HEADERS) + nominated
  }

  function Forwarded(headers: seq<Header>): seq<Header> {
    Keep(headers, HopNames(headers))
  }

  /** The positions of the fields that pass, in order. */
  function KeptAt(headers: seq<Header>, names: set<string>, from: nat): (at: seq<nat>)
    requires from <= |headers|
    ensures forall k | 0 <= k < |at| :: from <= at[k] < |headers| && Passes(headers[at[k]], names)
    ensures forall j, k | 0 <= j < k < |at| :: at[j] < at[k]
    ensures forall i | from <= i < |headers| && Passes(headers[i], names) :: i in at
    decreases |headers| - from
  {
    if from == |headers| then []
    else if Passes(headers[from], names) then [from] + KeptAt(headers, names, from + 1)
    else KeptAt(headers, names, from + 1)
  }

  lemma KeepStep(headers: seq<Header>, names: set<string>, from: nat)
    requires from < |headers|
    ensures var rest, more := Keep(headers[from + 1..], names), KeptAt(headers, names, from + 1);
            if Passes(headers[from], names) then
              Keep(headers[from..], names) == [headers[from]] + rest
              && KeptAt(headers, names, from) == [from] + more
            else Keep(headers[from..], names) == rest && KeptAt(headers, names, from) == more
  {
    hide Passes;
    assert headers[from..][1..] == headers[from + 1..];
  }

  lemma KeepNone(headers: seq<Header>, names: set<string>)
    ensures Keep(headers[|headers|..], names) == [] && KeptAt(headers, names, |headers|) == []
  {
  }

  /** Keeping picks exactly the passing fields, once each and in their order. */
  lemma {:induction false} KeepInOrder(headers: seq<Header>, names: set<string>, from: nat)
    requires from <= |headers|
    ensures var at := KeptAt(headers, names, from);
            && |Keep(headers[from..], names)| == |at|
            && forall k | 0 <= k < |at| :: Keep(headers[from..], names)[k] == headers[at[k]]
    decreases |headers| - from
  {
    hide Passes, KeptAt;
    if from < |headers| {
      KeepStep(headers, names, from);
      KeepInOrder(headers, names, from + 1);
      var at, more := KeptAt(headers, names, from), KeptAt(headers, names, from + 1);
      if at != more {
        assert forall k | 0 < k < |at| :: at[k] == more[k - 1];
      }
    } else {
      KeepNone(headers, names);
    }
  }

  lemma {:induction false} KeepMembers(headers: seq<Header>, names: set<string>)
    ensures forall h :: h in Keep(headers, names) <==> h in headers && Passes(h, names)
  {
    if headers != [] {
      KeepMembers(headers[1..], names);
      assert headers == [headers[0]] + headers[1..];
    }
  }

  lemma {:induction false} KeepAll(headers: seq<Header>, names: set<string>)
    requires forall i | 0 <= i < |headers| :: Passes(headers[i], names)
    ensures Keep(headers, names) == headers
  {
    if headers != [] {
      KeepAll(headers[1..], names);
      assert headers == [headers[0]] + headers[1..];
    }
  }

  /**
   * A field is forwarded exactly when it is none of the nine, no Connection value names it and
   * it is no Content-Length; nothing that was forwarded is dropped by filtering again.
   */
  lemma ForwardedFields(headers: seq<Header>)
    ensures forall h :: h in Forwarded(headers) <==>
              && h in headers
              && !IsHopByHop(Lower(h.name), headers)
              && Lower(h.name) != "content-length"
    ensures Forwarded(Forwarded(headers)) == Forwarded(headers)
  {
    var names, out := HopNames(headers), Forwarded(headers);
    KeepMembers(headers, names);
    forall name ensures !Nominated(name, out) {
      forall i | 0 <= i < |out| ensures !IsConnection(out[i]) {
        assert out[i] in out && Passes(out[i], names);
        assert HOP_BY_HOP_HEADERS[0] in HOP_BY_HOP_HEADERS;
      }
    }
    forall i | 0 <= i < |out| ensures Passes(out[i], HopNames(out)) {
      assert out[i] in out && Passes(out[i], names);
    }
    KeepAll(out, HopNames(out));
  }

  // ---- The forwarded response ----

  function FirstContentLength(headers: seq<Header>): Option<string> {
    if headers == [] then None
    else if Lower(headers[0].name) == "content-length" then Some(headers[0].value)
    else FirstContentLength(headers[1..])
  }

  const HSTS: Header := Header("Strict-Transport-Security", "max-age=31536000")

  /** The length field the proxy writes itself, for the body it has decoded. */
  function OwnLength(isHead: bool, status: nat, headers: seq<Header>, bodyLength: nat): seq<Header> {
    if isHead then
      match FirstContentLength(headers)
      case None => []
      case Some(value) => [Header("Content-Length", value)]
    else if HasNoBody(isHead, status) then [Header("Content-Length", "0")]
    else [Header("Content-Length", Numeral(bodyLength, 10))]
  }

  /** The header list of the public response. */
  method ResponseHeaders(isHead: bool, status: nat, headers: seq<Header>, bodyLength: nat,
                         extra: seq<Header>) returns (out: seq<Header>)
    ensures out == Forwarded(headers) + OwnLength(isHead, status, headers, bodyLength)
                   + [HSTS] + extra
  {
    hide Lower, OwnLength, IsHopByHop, HopNames;
    var hopByHop := HopByHopNames(headers);
    assert hopByHop == HopNames(headers);
    out := [];
    assert headers[0..] == headers && out + Keep(headers, hopByHop) == Forwarded(headers);
    for i := 0 to |headers|
      invariant out + Keep(headers[i..], hopByHop) == Forwarded(headers)
    {
      assert headers[i..][1..] == headers[i + 1..];
      if Lower(headers[i].name) !in hopByHop && Lower(headers[i].name) != "content-length" {
        assert out + ([headers[i]] + Keep(headers[i + 1..], hopByHop))
            == out + [headers[i]] + Keep(headers[i + 1..], hopByHop);
        out := out + [headers[i]];
      } else {
        assert [] + Keep(headers[i + 1..], hopByHop) == Keep(headers[i + 1..], hopByHop);
      }
    }
    assert headers[|headers|..] == [] && out == Forwarded(headers);
    out := out + OwnLength(isHead, status, headers, bodyLength) + [HSTS] + extra;
  }

  function LengthFields(headers: seq<Header>): seq<string> {
    HeaderValues(headers, "content-length")
  }

  lemma {:induction false} NoLengthFields(headers: seq<Header>)
    requires forall h | h in headers :: Lower(h.name) != "content-length"
    ensures LengthFields(headers) == []
  {
    if headers != [] {
      assert Lower("content-length") == "content-length";
      NoLengthFields(headers[1..]);
    }
  }

  lemma {:induction false} LengthFieldsOfSum(a: seq<Header>, b: seq<Header>)
    ensures LengthFields(a + b) == LengthFields(a) + LengthFields(b)
  {
    if a == [] {
      assert a + b == b;
    } else {
      assert (a + b)[1..] == a[1..] + b;
      LengthFieldsOfSum(a[1..], b);
    }
  }

  /** The first length the service sent, if it sent any. */
  lemma {:induction false} FirstOfLengths(headers: seq<Header>)
    ensures FirstContentLength(headers)
            == if LengthFields(headers) == [] then None else Some(LengthFields(headers)[0])
  {
    hide Lower;
    LengthNameIsLower();
    if headers != [] {
      FirstOfLengths(headers[1..]);
    }
  }

  lemma LengthNameIsLower()
    ensures Lower("content-length") == "content-length"
  {
  }

  /**
   * Apart from what the operator adds, the public response has one Content-Length: the length
   * of the decoded body, or zero where there is none. A HEAD response repeats the first one the
   * service sent, if it sent any.
   */
  lemma OneContentLength(isHead: bool, status: nat, headers: seq<Header>, bodyLength: nat)
    ensures var out := Forwarded(headers) + OwnLength(isHead, status, headers, bodyLength) + [HSTS];
            LengthFields(out)
            == if isHead then
                 (if FirstContentLength(headers).None? then [] else [FirstContentLength(headers).value])
               else [Numeral(if HasNoBody(isHead, status) then 0 else bodyLength, 10)]
  {
    hide Forwarded, HopNames, OwnLength, HasNoBody;
    var passed, own := Forwarded(headers), OwnLength(isHead, status, headers, bodyLength);
    ForwardedFields(headers);
    NoLengthFields(passed);
    LengthFieldsOfSum(passed, own);
    LengthFieldsOfSum(passed + own, [HSTS]);
    OwnLengthFields(isHead, status, headers, bodyLength);
  }

  lemma OwnLengthFields(isHead: bool, status: nat, headers: seq<Header>, bodyLength: nat)
    ensures LengthFields(OwnLength(isHead, status, headers, bodyLength))
            == if isHead then
                 (if FirstContentLength(headers).None? then [] else [FirstContentLength(headers).value])
               else [Numeral(if HasNoBody(isHead, status) then 0 else bodyLength, 10)]
    ensures LengthFields([HSTS]) == []
  {
    hide FirstContentLength;
    assert Lower("Content-Length") == "content-length";
    assert Lower("Strict-Transport-Security")[0] == 's' != "content-length"[0];
    assert DIGITS[0] == '0' && Numeral(0, 10) == "0";
    var own := OwnLength(isHead, status, headers, bodyLength);
    if own != [] {
      assert own == [own[0]];
      OneLengthField(own[0]);
    }
    OneLengthField(HSTS);
  }

  lemma OneLengthField(h: Header)
    ensures LengthFields([h]) == if Lower(h.name) == "content-length" then [h.value] else []
  {
    assert Lower("content-length") == "content-length";
    assert [h][1..] == [];
    assert LengthFields([]) == [];
  }
}
