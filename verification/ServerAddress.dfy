/** The client's server address: the control URL it prints, and the override it parses. */
module ServerAddress {
  import opened Sequences
  import opened Text

  datatype Server = Server(host: string, port: nat, insecure: bool)

  datatype Fault =
    | UnsupportedScheme
    | InvalidAddress
    | MissingBracket
    | EmptyHost
    | TextAfterBracket
    | UnbracketedIpv6
    | BadPort

  datatype Result<+T> = Ok(value: T) | Err(fault: Fault)

  /** A parsed override; what it leaves out keeps its configured value. */
  datatype Override = Override(host: string, port: Option<nat>, insecure: Option<bool>)

  // ---- Printing ----

  predicate HasUrlChars(s: string) {
    '/' in s || '?' in s || '#' in s
  }

  function PrintedHost(host: string): string {
    if ':' in host && !("[" <= host) then "[" + host + "]" else host
  }

  /** The control URL, or None where the configured host is refused. */
  function ControlUrl(s: Server): Option<string> {
    if s.host == "" || Position(s.host, "://").Some? || HasUrlChars(s.host) then None
    else
      Some((if s.insecure then "ws" else "wss") + "://" + PrintedHost(s.host) + ":"
           + Numeral(s.port, 10) + "/tunnel")
  }

  // ---- Parsing ----

  /** A numeral of the port, with at most a plus sign before it. */
  predicate WritesPort(text: string, port: nat) {
    && 1 <= port <= 65_535
    && var digits := if |text| > 1 && text[0] == '+' then text[1..] else text;
       digits != "" && AllDigits(digits, 10) && NumeralValue(digits, 10) == port
  }

  function ParseServerPort(port: string): (r: Result<nat>)
    ensures r.Ok? ==> WritesPort(port, r.value)
    ensures r.Err? ==> r == Err(BadPort) && forall n :: !WritesPort(port, n)
  {
    match ParseUnsigned(port, 10, 65_535)
    case None => Err(BadPort)
    case Some(n) => if n == 0 then Err(BadPort) else Ok(n)
  }

  function Count(s: string, c: char): nat {
    if s == "" then 0 else (if s[0] == c then 1 else 0) + Count(s[1..], c)
  }

  /** `rest` is what follows the opening bracket. */
  function ParseBracketed(rest: string): Result<(string, Option<nat>)> {
    match Position(rest, "]")
    case None => Err(MissingBracket)
    case Some(closing) =>
      var host, remainder := rest[..closing], rest[closing + 1..];
      if host == "" then Err(EmptyHost)
      else if remainder == "" then Ok((host, None))
      else if !(":" <= remainder) then Err(TextAfterBracket)
      else match ParseServerPort(remainder[1..])
           case Err(fault) => Err(fault)
           case Ok(port) => Ok((host, Some(port)))
  }

  function ParseAuthority(authority: string): Result<(string, Option<nat>)> {
    if authority == "" || HasUrlChars(authority) then Err(InvalidAddress)
    else if "[" <= authority then ParseBracketed(authority[1..])
    else if Count(authority, ':') > 1 then Err(UnbracketedIpv6)
    else match RSplitOnce(authority, ':')
         case None => Ok((authority, None))
         case Some(parts) =>
           if parts.0 == "" then Err(EmptyHost)
           else match ParseServerPort(parts.1)
                case Err(fault) => Err(fault)
                case Ok(port) => Ok((parts.0, Some(port)))
  }

  function ParseOverride(server: string): Result<Override> {
    match SplitOnce(server, "://")
    case None =>
      (match ParseAuthority(server)
       case Err(fault) => Err(fault)
       case Ok(address) => Ok(Override(address.0, address.1, None)))
    case Some(parts) =>
      var scheme := Lower(parts.0);
      if scheme != "ws" && scheme != "wss" then Err(UnsupportedScheme)
      else match ParseAuthority(parts.1)
           case Err(fault) => Err(fault)
           case Ok(address) => Ok(Override(address.0, address.1, Some(scheme == "ws")))
  }

  function Applied(s: Server, o: Override): Server {
    Server(o.host,
           if o.port.Some? then o.port.value else s.port,
           if o.insecure.Some? then o.insecure.value else s.insecure)
  }

  class ClientConfig {
    var host: string
    var port: nat
    var insecure: bool

    constructor (server: Server)
      ensures View() == server
    {
      host, port, insecure := server.host, server.port, server.insecure;
    }

    function View(): Server
      reads this
    {
      Server(host, port, insecure)
    }

    /** An override is applied whole, or it is refused and the configuration stays as it was. */
    method ApplyServerOverride(server: string) returns (r: Result<()>)
      modifies this
      ensures var parsed := ParseOverride(server);
              && (r.Ok? <==> parsed.Ok?)
              && (parsed.Ok? ==> View() == Applied(old(View()), parsed.value))
              && (parsed.Err? ==> r == Err(parsed.fault) && View() == old(View()))
    {
      hide SplitOnce, Lower, Position, Count, RSplitOnce, ParseServerPort, WritesPort, HasUrlChars;
      var scheme: Option<string> := None;
      var authority := server;
      match SplitOnce(server, "://") {
        case None =>
        case Some(parts) =>
          scheme := Some(Lower(parts.0));
          if scheme.value != "ws" && scheme.value != "wss" {
            return Err(UnsupportedScheme);
          }
          authority := parts.1;
      }
      if authority == "" || HasUrlChars(authority) {
        return Err(InvalidAddress);
      }
      var newHost: string;
      var newPort: Option<nat> := None;
      if "[" <= authority {
        var bracketed := authority[1..];
        var closing := Position(bracketed, "]");
        if closing.None? {
          return Err(MissingBracket);
        }
        newHost := bracketed[..closing.value];
        if newHost == "" {
          return Err(EmptyHost);
        }
        var remainder := bracketed[closing.value + 1..];
        if remainder != "" {
          if !(":" <= remainder) {
            return Err(TextAfterBracket);
          }
          var parsed := ParseServerPort(remainder[1..]);
          if parsed.Err? {
            return Err(parsed.fault);
          }
          newPort := Some(parsed.value);
        }
      } else if Count(authority, ':') > 1 {
        return Err(UnbracketedIpv6);
      } else {
        newHost := authority;
        var split := RSplitOnce(authority, ':');
        if split.Some? {
          newHost := split.value.0;
          if newHost == "" {
            return Err(EmptyHost);
          }
          var parsed := ParseServerPort(split.value.1);
          if parsed.Err? {
            return Err(parsed.fault);
          }
          newPort := Some(parsed.value);
        }
      }
      host := newHost;
      if newPort.Some? {
        port := newPort.value;
      }
      if scheme.Some? {
        insecure := scheme.value == "ws";
      }
      r := Ok(());
    }
  }

  // ---- Facts about the pieces ----

  lemma PortReadsBack(port: nat)
    requires 1 <= port <= 65_535
    ensures ParseServerPort(Numeral(port, 10)) == Ok(port)
  {
    hide ParseUnsigned;
    ParsePrinted(port, 10, 65_535);
  }

  lemma PortChars(port: nat)
    ensures !HasUrlChars(Numeral(port, 10)) && ':' !in Numeral(port, 10) && ']' !in Numeral(port, 10)
  {
    hide Numeral;
    var s := Numeral(port, 10);
    forall i | 0 <= i < |s| ensures s[i] !in "/?#:]" {
      assert IsDigit(s[i], 10);
    }
  }

  lemma {:induction false} CountNone(s: string, c: char)
    requires c !in s
    ensures Count(s, c) == 0
  {
    if s != "" {
      CountNone(s[1..], c);
    }
  }

  lemma {:induction false} CountOne(a: string, c: char, b: string)
    requires c !in a && c !in b
    ensures Count(a + [c] + b, c) == 1
  {
    var s := a + [c] + b;
    if a == "" {
      assert s[1..] == b;
      CountNone(b, c);
    } else {
      assert s[1..] == a[1..] + [c] + b;
      CountOne(a[1..], c, b);
    }
  }

  /** Between brackets, the host ends at the first ']'. */
  lemma BracketedReads(host: string, digits: string, port: nat)
    requires host != "" && ParseServerPort(digits) == Ok(port)
    ensures var parsed := ParseBracketed(host + "]" + (":" + digits));
            if ']' in host then parsed.Ok? ==> parsed.value.0 != host
            else parsed == Ok((host, Some(port)))
  {
    hide ParseServerPort, WritesPort;
    var tail := ":" + digits;
    var all := host + "]" + tail;
    if ']' in host {
      var k :| 0 <= k < |host| && host[k] == ']';
      assert all[k..k + 1] == "]";
      assert OccursAt(all, "]", k);
      assert |all[..Position(all, "]").value]| < |host|;
    } else {
      PositionOfSeparator(host, ']', tail);
      assert all[..|host|] == host && all[|host| + 1..] == tail && tail[1..] == digits;
    }
  }

  /** A host that already starts with a bracket loses it, and does not read back. */
  lemma BracketedIsShorter(rest: string, tail: string)
    requires ']' !in tail
    ensures var parsed := ParseBracketed(rest + tail);
            parsed.Ok? ==> |parsed.value.0| < |rest|
  {
    hide ParseServerPort;
    var all := rest + tail;
    if ']' in rest {
      var k :| 0 <= k < |rest| && rest[k] == ']';
      assert all[k..k + 1] == "]";
      assert OccursAt(all, "]", k);
    } else {
      NoPosition(all, ']');
    }
  }

  // ---- Print and parse ----

  /** The host can be told from its printed form. */
  predicate PrintsClearly(host: string) {
    !("[" <= host) && !(':' in host && ']' in host)
  }

  lemma SchemeReadsBack(insecure: bool, rest: string)
    ensures var scheme := if insecure then "ws" else "wss";
            SplitOnce(scheme + "://" + rest, "://") == Some((scheme, rest)) && Lower(scheme) == scheme
  {
    var scheme := if insecure then "ws" else "wss";
    SplitAtScheme(scheme, rest);
  }

  lemma PlainReads(host: string, digits: string, port: nat)
    requires host != "" && ':' !in host && !("[" <= host) && ':' !in digits
    requires !HasUrlChars(host + ":" + digits) && ParseServerPort(digits) == Ok(port)
    ensures ParseAuthority(host + ":" + digits) == Ok((host, Some(port)))
  {
    hide ParseBracketed, Count, RSplitOnce, ParseServerPort, WritesPort, HasUrlChars;
    var authority := host + ":" + digits;
    assert authority == host + [':'] + digits && authority[0] == host[0];
    CountOne(host, ':', digits);
    RSplitOnceIs(host, ':', digits);
  }

  lemma NoUrlChars(host: string, digits: string)
    requires !HasUrlChars(host) && !HasUrlChars(digits)
    ensures !HasUrlChars(PrintedHost(host) + ":" + digits)
  {
  }

  /** An address written out, the host in brackets where it is thought to need them. */
  lemma {:induction false} PrintedAuthority(host: string, port: nat)
    requires host != "" && !HasUrlChars(host) && 1 <= port <= 65_535
    ensures var parsed := ParseAuthority(PrintedHost(host) + ":" + Numeral(port, 10));
            if PrintsClearly(host) then parsed == Ok((host, Some(port)))
            else parsed.Ok? ==> parsed.value.0 != host
  {
    hide ParseAuthority, ParseServerPort, Numeral, HasUrlChars;
    var digits := Numeral(port, 10);
    PortChars(port);
    PortReadsBack(port);
    NoUrlChars(host, digits);
    if "[" <= host {
      OpenBracketIsLost(host, digits);
    } else if ':' in host {
      BracketsRead(host, digits, port);
    } else {
      PlainReads(host, digits, port);
    }
  }

  lemma OpenBracketIsLost(host: string, digits: string)
    requires "[" <= host && !HasUrlChars(digits) && !HasUrlChars(host + ":" + digits)
    requires ']' !in digits
    ensures var parsed := ParseAuthority(host + ":" + digits);
            parsed.Ok? ==> parsed.value.0 != host
  {
    hide ParseBracketed, HasUrlChars;
    assert (host + ":" + digits)[1..] == host[1..] + (":" + digits);
    BracketedIsShorter(host[1..], ":" + digits);
  }

  lemma BracketsRead(host: string, digits: string, port: nat)
    requires host != "" && ParseServerPort(digits) == Ok(port)
    requires !HasUrlChars("[" + host + "]" + ":" + digits)
    ensures var parsed := ParseAuthority("[" + host + "]" + ":" + digits);
            if ']' in host then parsed.Ok? ==> parsed.value.0 != host
            else parsed == Ok((host, Some(port)))
  {
    hide ParseBracketed, HasUrlChars, ParseServerPort;
    assert ("[" + host + "]" + ":" + digits)[1..] == host + "]" + (":" + digits);
    BracketedReads(host, digits, port);
  }

  /**
   * Re-applying the printed control URL, without its path, to any configuration restores host,
   * port and transport exactly when the host does not start with '[' and does not have both ':'
   * and ']'.
   */
  lemma {:induction false} AddressReadsBackIff(s: Server, other: Server)
    requires ControlUrl(s).Some? && 1 <= s.port <= 65_535
    ensures var address := StripSuffix(ControlUrl(s).value, "/tunnel");
            && address.Some?
            && var parsed := ParseOverride(address.value);
               (parsed.Ok? && Applied(other, parsed.value) == s) <==> PrintsClearly(s.host)
  {
    hide SplitOnce, Position, ParseAuthority, PrintedHost, Numeral, PrintsClearly, HasUrlChars;
    var authority := PrintedHost(s.host) + ":" + Numeral(s.port, 10);
    var address := (if s.insecure then "ws" else "wss") + "://" + authority;
    var url := ControlUrl(s).value;
    assert url == address + "/tunnel";
    assert url[|url| - 7..] == "/tunnel" && url[..|url| - 7] == address;
    SchemeReadsBack(s.insecure, authority);
    PrintedAuthority(s.host, s.port);
  }

  lemma AcceptedParts(authority: string)
    requires ParseAuthority(authority).Ok?
    ensures var parts := ParseAuthority(authority).value;
            && parts.0 != "" && !HasUrlChars(parts.0)
            && (parts.1.Some? ==> 1 <= parts.1.value <= 65_535)
  {
    hide Position, Count, ParseUnsigned;
    var host := ParseAuthority(authority).value.0;
    if "[" <= authority {
      assert forall i | 0 <= i < |host| :: host[i] == authority[i + 1];
    } else {
      assert host <= authority;
    }
  }

  lemma NoScheme(host: string)
    requires '/' !in host
    ensures Position(host, "://").None?
  {
    forall j ensures !OccursAt(host, "://", j) {
      NoOccurrence(host, "://", j, 1);
    }
  }

  /** A host is printed exactly when it is not empty and could not end the authority of a URL. */
  lemma PrintableIff(s: Server)
    ensures ControlUrl(s).Some? <==>
              s.host != "" && '/' !in s.host && '?' !in s.host && '#' !in s.host
  {
    hide Position;
    if '/' !in s.host {
      NoScheme(s.host);
    }
  }

  /** Whatever an accepted override sets can be printed as a control URL. */
  lemma AcceptedIsPrintable(server: string, s: Server)
    requires ParseOverride(server).Ok?
    ensures var s' := Applied(s, ParseOverride(server).value);
            ControlUrl(s').Some? && (1 <= s.port <= 65_535 ==> 1 <= s'.port <= 65_535)
  {
    hide SplitOnce, Position, ParseAuthority, PrintedHost, Lower;
    var parts := SplitOnce(server, "://");
    var authority := if parts.Some? then parts.value.1 else server;
    AcceptedParts(authority);
    NoScheme(ParseAuthority(authority).value.0);
  }

  // ---- Which overrides are accepted, and as what ----

  /** The ways to write an address: a scheme or none, brackets or none, a port or none. */
  datatype Spelling =
    Spelling(scheme: Option<string>, bracketed: bool, host: string, port: Option<string>)

  function WrittenPort(port: Option<string>): string {
    if port.Some? then ":" + port.value else ""
  }

  function WrittenAuthority(sp: Spelling): string {
    (if sp.bracketed then "[" + sp.host + "]" else sp.host) + WrittenPort(sp.port)
  }

  function Written(sp: Spelling): string {
    (if sp.scheme.Some? then sp.scheme.value + "://" else "") + WrittenAuthority(sp)
  }

  predicate GoodHost(sp: Spelling) {
    && sp.host != "" && !HasUrlChars(sp.host)
    && (if sp.bracketed then ']' !in sp.host else ':' !in sp.host && !("[" <= sp.host))
  }

  predicate DenotesPort(port: Option<string>, n: Option<nat>) {
    if port.Some? then n.Some? && WritesPort(port.value, n.value) else n.None?
  }

  /** The scheme counts in any case: "wss" asks for TLS, "ws" does without, none leaves it open. */
  predicate DenotesTransport(scheme: Option<string>, insecure: Option<bool>) {
    if scheme.None? then insecure.None?
    else
      || (EqIgnoreCase(scheme.value, "ws") && insecure == Some(true))
      || (EqIgnoreCase(scheme.value, "wss") && insecure == Some(false))
  }

  predicate Denotes(sp: Spelling, o: Override) {
    && GoodHost(sp) && o.host == sp.host
    && DenotesPort(sp.port, o.port)
    && DenotesTransport(sp.scheme, o.insecure)
  }

  lemma PortTextChars(text: string, n: nat)
    requires WritesPort(text, n)
    ensures !HasUrlChars(text) && ':' !in text && ']' !in text && text != ""
  {
    var digits := if |text| > 1 && text[0] == '+' then text[1..] else text;
    forall i | 0 <= i < |text| ensures text[i] !in "/?#:]" {
      if digits == text {
        assert IsDigit(digits[i], 10);
      } else if i > 0 {
        assert IsDigit(digits[i - 1], 10);
      }
    }
  }

  lemma ReadsPort(text: string, n: nat)
    requires WritesPort(text, n)
    ensures ParseServerPort(text) == Ok(n)
  {
    hide ParseServerPort;
    var r := ParseServerPort(text);
    assert r.Ok? ==> WritesPort(text, r.value);
  }

  lemma ReadsBracketed(host: string, port: Option<string>, n: Option<nat>)
    requires host != "" && ']' !in host && DenotesPort(port, n)
    ensures ParseBracketed(host + "]" + WrittenPort(port)) == Ok((host, n))
  {
    hide ParseServerPort, WritesPort, Position;
    var tail := WrittenPort(port);
    var all := host + "]" + tail;
    PositionOfSeparator(host, ']', tail);
    assert all[..|host|] == host && all[|host| + 1..] == tail;
    if port.Some? {
      ReadsPort(port.value, n.value);
      assert tail[1..] == port.value;
    }
  }

  lemma ReadsAuthority(sp: Spelling, n: Option<nat>)
    requires GoodHost(sp) && DenotesPort(sp.port, n)
    ensures ParseAuthority(WrittenAuthority(sp)) == Ok((sp.host, n))
  {
    hide ParseBracketed, Count, RSplitOnce, ParseServerPort, WritesPort, HasUrlChars;
    var authority := WrittenAuthority(sp);
    if sp.port.Some? {
      PortTextChars(sp.port.value, n.value);
      ReadsPort(sp.port.value, n.value);
    }
    AuthorityChars(sp);
    if sp.bracketed {
      assert authority[1..] == sp.host + "]" + WrittenPort(sp.port);
      ReadsBracketed(sp.host, sp.port, n);
    } else if sp.port.Some? {
      assert authority == sp.host + ":" + sp.port.value;
      PlainReads(sp.host, sp.port.value, n.value);
    } else {
      assert authority == sp.host;
      CountNone(sp.host, ':');
      NoSplit(sp.host);
    }
  }

  lemma AuthorityChars(sp: Spelling)
    requires GoodHost(sp) && (sp.port.Some? ==> !HasUrlChars(sp.port.value))
    ensures !HasUrlChars(WrittenAuthority(sp)) && WrittenAuthority(sp) != ""
    ensures sp.bracketed <==> "[" <= WrittenAuthority(sp)
  {
  }

  lemma NoSplit(s: string)
    requires ':' !in s
    ensures RSplitOnce(s, ':') == None
  {
    LastIndexFinds(s, ':');
  }

  lemma SchemesAreLower()
    ensures Lower("ws") == "ws" && Lower("wss") == "wss" && "ws" != "wss"
  {
  }

  lemma NoColon(scheme: string)
    requires EqIgnoreCase(scheme, "ws") || EqIgnoreCase(scheme, "wss")
    ensures ':' !in scheme
  {
    SchemesAreLower();
    forall i | 0 <= i < |scheme| ensures scheme[i] != ':' {
      assert Lower(scheme)[i] == LowerChar(scheme[i]);
    }
  }

  /** Every spelling is accepted, as what it denotes. */
  lemma ReadsSpelling(sp: Spelling, o: Override)
    requires Denotes(sp, o)
    ensures ParseOverride(Written(sp)) == Ok(o)
  {
    hide ParseAuthority, WrittenAuthority, GoodHost, DenotesPort, SplitOnce, Lower;
    ReadsAuthority(sp, o.port);
    SchemesAreLower();
    var authority := WrittenAuthority(sp);
    if sp.scheme.Some? {
      NoColon(sp.scheme.value);
      SplitAtScheme(sp.scheme.value, authority);
      assert Written(sp) == sp.scheme.value + "://" + authority;
    } else {
      assert Written(sp) == authority;
      NoSchemeInside(authority);
    }
  }

  lemma NoSchemeInside(authority: string)
    requires ParseAuthority(authority).Ok?
    ensures SplitOnce(authority, "://") == None
  {
    hide ParseBracketed, Count, RSplitOnce, ParseServerPort;
    NoScheme(authority);
  }

  lemma BracketedIsWritten(rest: string) returns (port: Option<string>)
    requires ParseBracketed(rest).Ok?
    ensures var parts := ParseBracketed(rest).value;
            && rest == parts.0 + "]" + WrittenPort(port)
            && parts.0 != "" && ']' !in parts.0 && DenotesPort(port, parts.1)
  {
    hide ParseServerPort, WritesPort;
    var closing := Position(rest, "]").value;
    var host, remainder := rest[..closing], rest[closing + 1..];
    assert rest == host + "]" + remainder by {
      assert rest[closing..closing + 1] == "]";
    }
    forall i | 0 <= i < |host| ensures host[i] != ']' {
      assert !OccursAt(rest, "]", i);
      assert rest[i..i + 1] != "]";
    }
    if remainder == "" {
      port := None;
    } else {
      port := Some(remainder[1..]);
      assert remainder == ":" + remainder[1..];
    }
  }

  lemma {:induction false} AtMostOne(s: string, c: char)
    requires Count(s, c) <= 1
    ensures forall i, j | 0 <= i < j < |s| :: s[i] != c || s[j] != c
  {
    if s != "" {
      if s[0] == c {
        NoneCounted(s[1..], c);
        assert forall j | 0 < j < |s| :: s[j] == s[1..][j - 1];
      } else {
        AtMostOne(s[1..], c);
        assert forall j | 0 < j < |s| :: s[j] == s[1..][j - 1];
      }
    }
  }

  lemma {:induction false} NoneCounted(s: string, c: char)
    requires Count(s, c) == 0
    ensures c !in s
  {
    if s != "" {
      NoneCounted(s[1..], c);
      assert s == [s[0]] + s[1..];
    }
  }

  lemma PlainIsWritten(authority: string) returns (port: Option<string>)
    requires ParseAuthority(authority).Ok? && !("[" <= authority)
    ensures var parts := ParseAuthority(authority).value;
            && authority == parts.0 + WrittenPort(port)
            && parts.0 != "" && ':' !in parts.0 && DenotesPort(port, parts.1)
  {
    hide ParseBracketed, Count, ParseServerPort, WritesPort;
    LastIndexFinds(authority, ':');
    AtMostOne(authority, ':');
    var split := RSplitOnce(authority, ':');
    if split.None? {
      port := None;
      assert authority + "" == authority;
    } else {
      port := Some(split.value.1);
      var host := split.value.0;
      assert authority == host + [':'] + split.value.1 == host + (":" + split.value.1);
      forall i | 0 <= i < |host| ensures host[i] != ':' {
        assert authority[i] == host[i] && authority[|host|] == ':';
      }
    }
  }

  lemma AuthorityIsWritten(authority: string, scheme: Option<string>) returns (sp: Spelling)
    requires ParseAuthority(authority).Ok?
    ensures sp.scheme == scheme && authority == WrittenAuthority(sp)
    ensures GoodHost(sp) && sp.host == ParseAuthority(authority).value.0
    ensures DenotesPort(sp.port, ParseAuthority(authority).value.1)
  {
    hide ParseBracketed, Count, RSplitOnce, ParseServerPort, WritesPort;
    AcceptedParts(authority);
    if "[" <= authority {
      var port := BracketedIsWritten(authority[1..]);
      sp := Spelling(scheme, true, ParseAuthority(authority).value.0, port);
      assert authority == "[" + authority[1..];
      assert "[" + (sp.host + "]" + WrittenPort(port)) == "[" + sp.host + "]" + WrittenPort(port);
    } else {
      var port := PlainIsWritten(authority);
      sp := Spelling(scheme, false, ParseAuthority(authority).value.0, port);
    }
  }

  lemma SplitSpells(s: string, pat: string)
    requires SplitOnce(s, pat).Some?
    ensures s == SplitOnce(s, pat).value.0 + pat + SplitOnce(s, pat).value.1
  {
    var p := Position(s, pat).value;
    assert s == s[..p] + s[p..p + |pat|] + s[p + |pat|..];
  }

  /** And nothing else is accepted. */
  lemma AcceptedIsWritten(server: string) returns (sp: Spelling)
    requires ParseOverride(server).Ok?
    ensures server == Written(sp) && Denotes(sp, ParseOverride(server).value)
  {
    hide ParseAuthority, WrittenAuthority, GoodHost, DenotesPort, SplitOnce, Lower;
    SchemesAreLower();
    var parts := SplitOnce(server, "://");
    if parts.None? {
      sp := AuthorityIsWritten(server, None);
      assert "" + server == server;
    } else {
      SplitSpells(server, "://");
      sp := AuthorityIsWritten(parts.value.1, Some(parts.value.0));
    }
  }

  /**
   * An override is accepted exactly when it is a spelling of an address, and then sets exactly
   * what that denotes; what it does not mention keeps its configured value.
   */
  lemma OverrideMeans(server: string, o: Override, s: Server)
    ensures ParseOverride(server) == Ok(o) <==> exists sp :: server == Written(sp) && Denotes(sp, o)
    ensures o.port.None? ==> Applied(s, o).port == s.port
    ensures o.insecure.None? ==> Applied(s, o).insecure == s.insecure
  {
    hide ParseOverride, Written, Denotes;
    if ParseOverride(server) == Ok(o) {
      var sp := AcceptedIsWritten(server);
    }
    forall sp | server == Written(sp) && Denotes(sp, o) ensures ParseOverride(server) == Ok(o) {
      ReadsSpelling(sp, o);
    }
  }
}
