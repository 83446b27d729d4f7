/**
 * A tunnel's public endpoint as three parties see it: the URL the server prints, the endpoint the
 * client reads out of that URL, and the name the proxy reads out of a Host header.
 */
module Endpoint {
  import opened Sequences
  import opened Text
  import Utf8

  // ---- Names ----

  datatype Verdict = Valid | TooShort | TooLong | BadCharacter | HyphenAtEdge | Reserved

  const RESERVED: seq<string> := [
    "www", "api", "mail", "smtp", "ftp", "admin", "dashboard", "status", "health", "metrics",
    "internal"
  ]

  predicate IsNameChar(c: char) {
    'a' <= c <= 'z' || '0' <= c <= '9' || c == '-'
  }

  /** `len` counts UTF-8 bytes. */
  function ValidateSubdomain(s: string): Verdict {
    if |Utf8.Encode(s)| < 3 then TooShort
    else if |Utf8.Encode(s)| > 40 then TooLong
    else if exists i | 0 <= i < |s| :: !IsNameChar(s[i]) then BadCharacter
    else if "-" <= s || s[|s| - 1] == '-' then HyphenAtEdge
    else if s in RESERVED then Reserved
    else Valid
  }

  lemma {:induction false} NameBytes(s: string)
    requires forall i | 0 <= i < |s| :: IsNameChar(s[i])
    ensures |Utf8.Encode(s)| == |s|
  {
    if s != "" {
      assert IsNameChar(s[0]);
      NameBytes(s[1..]);
    }
  }

  /** The accepted names: 3 to 40 of a-z, 0-9 and '-', no hyphen at an end, none reserved. */
  lemma ValidNames(s: string)
    ensures ValidateSubdomain(s) == Valid <==>
              && 3 <= |s| <= 40
              && (forall i | 0 <= i < |s| :: IsNameChar(s[i]))
              && s[0] != '-' && s[|s| - 1] != '-' && s !in RESERVED
  {
    hide Utf8.Encode;
    if forall i | 0 <= i < |s| :: IsNameChar(s[i]) {
      NameBytes(s);
    }
  }

  /** Why a name is refused; a reserved one is otherwise acceptable. */
  lemma RefusedNames(s: string)
    ensures ValidateSubdomain(s) == TooShort <==> |Utf8.Encode(s)| < 3
    ensures ValidateSubdomain(s) == TooLong <==> |Utf8.Encode(s)| > 40
    ensures ValidateSubdomain(s) == BadCharacter <==>
              3 <= |Utf8.Encode(s)| <= 40 && exists i | 0 <= i < |s| :: !IsNameChar(s[i])
    ensures ValidateSubdomain(s) == Reserved <==> s in RESERVED
  {
    hide Utf8.Encode;
    forall i | 0 <= i < |RESERVED|
      ensures forall j | 0 <= j < |RESERVED[i]| :: IsNameChar(RESERVED[i][j])
      ensures 3 <= |RESERVED[i]| <= 9 && RESERVED[i][0] != '-'
      ensures RESERVED[i][|RESERVED[i]| - 1] != '-'
    {
    }
    if s in RESERVED {
      NameBytes(s);
    }
  }

  /** What the URL and Host grammars rest on: an accepted name has none of their separators. */
  predicate IsPlain(s: string) {
    && s != ""
    && forall i | 0 <= i < |s| ::
         s[i] != '/' && s[i] != ':' && s[i] != '.' && !IsWhitespace(s[i])
  }

  lemma ValidNamesArePlain(s: string)
    requires ValidateSubdomain(s) == Valid
    ensures IsPlain(s)
  {
    ValidNames(s);
    forall i | 0 <= i < |s| ensures !IsWhitespace(s[i]) {
      assert IsNameChar(s[i]);
    }
  }

  // ---- Printing and reading ----

  function HttpUrl(subdomain: string, domain: string): string {
    "https://" + subdomain + "." + domain
  }

  function TcpUrl(domain: string, port: nat): string {
    "tcp://" + domain + ":" + Numeral(port, 10)
  }

  /** What stands between "://" and the next '/'. */
  function Authority(url: string): Option<string> {
    match SplitOnce(url, "://")
    case None => None
    case Some(parts) => Some(Before(parts.1, "/"))
  }

  function AssignedSubdomain(url: string): Option<string> {
    match Authority(url)
    case None => None
    case Some(authority) =>
      var name := Trim(Before(Before(authority, ":"), "."));
      if name == "" then None else Some(name)
  }

  function AssignedTcpPort(url: string): Option<nat> {
    match Authority(url)
    case None => None
    case Some(authority) =>
      match RSplitOnce(authority, ':')
      case None => None
      case Some(parts) => ParseUnsigned(parts.1, 10, 65_535)
  }

  datatype Route = MissingHost | UnknownHost | ToTunnel(subdomain: string)

  /** Which tunnel a request is for. A Host value that is not text counts as empty. */
  function RouteOf(host: Option<string>, domain: string): Route {
    match host
    case None => MissingHost
    case Some(value) =>
      match StripSuffix(Before(value, ":"), "." + domain)
      case None => UnknownHost
      case Some(subdomain) => ToTunnel(subdomain)
  }

  lemma AuthorityOf(scheme: string, rest: string)
    requires ':' !in scheme
    ensures Authority(scheme + "://" + rest) == Some(Before(rest, "/"))
  {
    hide SplitOnce, Before;
    SplitAtScheme(scheme, rest);
  }

  // ---- Agreement ----

  /** Whatever the domain, the client reads the name out of the URL the server printed for it. */
  lemma ClientFindsSubdomain(subdomain: string, domain: string)
    requires ValidateSubdomain(subdomain) == Valid
    ensures AssignedSubdomain(HttpUrl(subdomain, domain)) == Some(subdomain)
  {
    hide ValidateSubdomain, Before, Authority;
    ValidNamesArePlain(subdomain);
    var front, rest := subdomain + ".", subdomain + "." + domain;
    assert HttpUrl(subdomain, domain) == "https" + "://" + rest;
    AuthorityOf("https", rest);
    BeforeSkips(front, domain, '/');
    var cut := Before(domain, "/");
    BeforeSkips(front, cut, ':');
    BeforeStops(subdomain, '.', Before(cut, ":"));
    TrimIdentity(subdomain);
  }

  /** A Host header for the endpoint: the host itself, or the host and a port. */
  function HostHeader(subdomain: string, domain: string, port: Option<string>): string {
    subdomain + "." + domain + (if port.Some? then ":" + port.value else "")
  }

  /**
   * The proxy routes a request for a printed URL back to its tunnel exactly when the configured
   * domain has no ':'; with one, it finds no tunnel at all.
   */
  lemma ProxyRoutesBackIff(subdomain: string, domain: string, port: Option<string>)
    requires ValidateSubdomain(subdomain) == Valid
    ensures RouteOf(Some(HostHeader(subdomain, domain, port)), domain)
            == if ':' in domain then UnknownHost else ToTunnel(subdomain)
  {
    hide ValidateSubdomain, Before;
    ValidNamesArePlain(subdomain);
    var front, tail := subdomain + ".", if port.Some? then ":" + port.value else "";
    var host, suffix := front + domain, "." + domain;
    assert HostHeader(subdomain, domain, port) == host + tail;
    if ':' in domain {
      assert host[|front|..] == domain;
      BeforeHides(host, tail, ':');
      assert suffix[1..] == domain;
      NotASuffix(Before(host, ":"), suffix, ':');
    } else {
      if port.Some? {
        assert host + tail == host + [':'] + port.value;
        BeforeStops(host, ':', port.value);
      } else {
        assert host + tail == host;
        BeforeStops(host, ':', "");
      }
      assert host == subdomain + suffix;
      assert host[|host| - |suffix|..] == suffix && host[..|host| - |suffix|] == subdomain;
    }
  }

  /** Only hosts of the domain are routed, each to the name in front of it. */
  lemma RoutesOnlyItsDomain(host: string, domain: string, subdomain: string)
    ensures RouteOf(Some(host), domain) == ToTunnel(subdomain)
            <==> Before(host, ":") == subdomain + "." + domain
    ensures RouteOf(None, domain) == MissingHost != RouteOf(Some(host), domain)
  {
    hide Before;
    var seen, suffix := Before(host, ":"), "." + domain;
    assert subdomain + "." + domain == subdomain + suffix;
    if seen == subdomain + suffix {
      assert seen[|seen| - |suffix|..] == suffix;
    }
  }

  lemma PortReadsBack(domain: string, port: nat)
    requires port <= 65_535 && '/' !in domain
    ensures AssignedTcpPort(TcpUrl(domain, port)) == Some(port)
  {
    hide Before, RSplitOnce, Authority, ParseUnsigned, TcpUrl;
    var authority := domain + [':'] + Numeral(port, 10);
    TcpAuthority(domain, port);
    SeparatorsAreNoDigits(port);
    RSplitOnceIs(domain, ':', Numeral(port, 10));
    ParsePrinted(port, 10, 65_535);
    assert Authority(TcpUrl(domain, port)) == Some(authority);
    assert RSplitOnce(authority, ':') == Some((domain, Numeral(port, 10)));
  }

  /** A '/' in the domain hides the port. */
  lemma {:induction false} PortIsHidden(domain: string, port: nat, other: nat)
    requires '/' in domain
    ensures AssignedTcpPort(TcpUrl(domain, port)) == AssignedTcpPort(TcpUrl(domain, other))
  {
    hide Before, RSplitOnce, Authority, ParseUnsigned, TcpUrl;
    TcpAuthority(domain, port);
    TcpAuthority(domain, other);
  }

  lemma SeparatorsAreNoDigits(port: nat)
    ensures '/' !in Numeral(port, 10) && ':' !in Numeral(port, 10)
  {
    hide Numeral;
    forall i | 0 <= i < |Numeral(port, 10)|
      ensures Numeral(port, 10)[i] != '/' && Numeral(port, 10)[i] != ':' {
      assert IsDigit(Numeral(port, 10)[i], 10);
    }
  }

  lemma TcpAuthority(domain: string, port: nat)
    ensures Authority(TcpUrl(domain, port))
            == Some(if '/' in domain then Before(domain, "/")
                    else domain + [':'] + Numeral(port, 10))
  {
    hide Before, Authority;
    var tail := ":" + Numeral(port, 10);
    assert TcpUrl(domain, port) == "tcp" + "://" + (domain + tail);
    AuthorityOf("tcp", domain + tail);
    SeparatorsAreNoDigits(port);
    if '/' in domain {
      BeforeHides(domain, tail, '/');
    } else {
      BeforeStops(domain + tail, '/', "");
      assert domain + tail == domain + [':'] + Numeral(port, 10);
    }
  }

  /** Every port can be read back from its URL exactly when the domain has no '/'. */
  lemma ClientFindsPortIff(domain: string)
    ensures (forall port: nat | port <= 65_535 ::
               AssignedTcpPort(TcpUrl(domain, port)) == Some(port))
            <==> '/' !in domain
  {
    hide AssignedTcpPort, TcpUrl;
    if '/' in domain {
      PortIsHidden(domain, 0, 1);
    } else {
      forall port: nat | port <= 65_535
        ensures AssignedTcpPort(TcpUrl(domain, port)) == Some(port) {
        PortReadsBack(domain, port);
      }
    }
  }
}
