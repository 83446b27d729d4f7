/** The client's reconnect loop, and the endpoint it keeps asking for. */
module Reconnect {
  import opened Sequences
  import opened Endpoint

  datatype TunnelType = Http | Https | Tcp(remotePort: Option<nat>)

  /** What a connection attempt asks the server for. */
  datatype Request = Request(tunnelType: TunnelType, subdomain: Option<string>)

  datatype Registration = Registration(publicUrl: string, tunnelType: TunnelType)

  /** How one turn of the loop goes; `stays` says no shutdown was requested after it. */
  datatype Attempt =
    | Cancelled
    | Refused
    | Unavailable(stays: bool)
    | Established(registration: Registration, stays: bool)

  class TunnelConfig {
    var tunnelType: TunnelType
    var subdomain: Option<string>

    constructor (tunnelType: TunnelType, subdomain: Option<string>)
      ensures Wanted() == Request(tunnelType, subdomain)
    {
      this.tunnelType := tunnelType;
      this.subdomain := subdomain;
    }

    function Wanted(): Request
      reads this
    {
      Request(tunnelType, subdomain)
    }

    method PinAssignedEndpoint(registration: Registration)
      modifies this
      ensures Wanted() == Pinned(old(Wanted()), registration)
    {
      match tunnelType {
        case Tcp(None) =>
          var port := match registration.tunnelType
            case Tcp(Some(port)) => Some(port)
            case _ => AssignedTcpPort(registration.publicUrl);
          tunnelType := Tcp(port);
        case Tcp(_) =>
        case _ =>
          if subdomain.None? {
            subdomain := AssignedSubdomain(registration.publicUrl);
          }
      }
    }

    /** Every turn's request, until a turn that ends the loop; None while none has. */
    method Run(attempts: seq<Attempt>) returns (asked: seq<Request>)
      modifies this
      ensures asked == Asked(old(Wanted()), attempts)
    {
      hide Pinned;
      asked := [];
      var i := 0;
      ghost var first := Wanted();
      while i < |attempts|
        invariant 0 <= i <= |attempts|
        invariant Asked(first, attempts) == asked + Asked(Wanted(), attempts[i..])
      {
        var attempt := attempts[i];
        AskedStep(Wanted(), attempts, i, asked);
        asked := asked + [Wanted()];
        i := i + 1;
        match attempt {
          case Cancelled => return;
          case Refused => return;
          case Unavailable(stays) =>
            if !stays {
              return;
            }
          case Established(registration, stays) =>
            PinAssignedEndpoint(registration);
            if !stays {
              return;
            }
        }
      }
    }
  }

  /** What the client wants after a registration. */
  function Pinned(want: Request, registration: Registration): Request {
    if want.tunnelType.Tcp? then
      if want.tunnelType.remotePort.Some? then want
      else
        var reported := registration.tunnelType;
        want.(tunnelType := Tcp(
          if reported.Tcp? && reported.remotePort.Some? then reported.remotePort
          else AssignedTcpPort(registration.publicUrl)))
    else if want.subdomain.Some? then want
    else want.(subdomain := AssignedSubdomain(registration.publicUrl))
  }

  predicate Continues(a: Attempt) {
    (a.Unavailable? || a.Established?) && a.stays
  }

  function Next(want: Request, a: Attempt): Request {
    if a.Established? then Pinned(want, a.registration) else want
  }

  /** The requests of a run, one a turn. */
  function Asked(want: Request, attempts: seq<Attempt>): seq<Request>
    decreases |attempts|
  {
    if attempts == [] then []
    else if !Continues(attempts[0]) then [want]
    else [want] + Asked(Next(want, attempts[0]), attempts[1..])
  }

  lemma AskedStep(want: Request, attempts: seq<Attempt>, i: nat, before: seq<Request>)
    requires i < |attempts|
    ensures before + Asked(want, attempts[i..])
            == if Continues(attempts[i]) then
                 before + [want] + Asked(Next(want, attempts[i]), attempts[i + 1..])
               else before + [want]
    ensures Asked(want, attempts[|attempts|..]) == []
  {
    hide Next;
    assert attempts[i..][1..] == attempts[i + 1..];
  }

  // ---- The server's side ----

  /** The endpoint a server gives: what was asked for, or its own choice where nothing was. */
  datatype Choice = Choice(subdomain: string, port: nat)

  function Granted(want: Request, choice: Choice): Choice {
    Choice(if want.subdomain.Some? then want.subdomain.value else choice.subdomain,
           if want.tunnelType.Tcp? && want.tunnelType.remotePort.Some?
           then want.tunnelType.remotePort.value else choice.port)
  }

  function Acknowledged(want: Request, granted: Choice, domain: string): Registration {
    if want.tunnelType.Tcp? then
      Registration(TcpUrl(domain, granted.port), Tcp(Some(granted.port)))
    else Registration(HttpUrl(granted.subdomain, domain), want.tunnelType)
  }

  /** `a` is a registration by a server that gave `choice`, where `want` left it one. */
  predicate GrantedBy(a: Attempt, want: Request, choice: Choice, domain: string) {
    && a.Established?
    && ValidateSubdomain(Granted(want, choice).subdomain) == Valid
    && a.registration == Acknowledged(want, Granted(want, choice), domain)
  }

  // ---- What a run keeps asking for ----

  /** The request names its endpoint. */
  predicate IsPinned(want: Request) {
    if want.tunnelType.Tcp? then want.tunnelType.remotePort.Some? else want.subdomain.Some?
  }

  predicate AsksFor(want: Request, endpoint: Choice) {
    if want.tunnelType.Tcp? then want.tunnelType.remotePort == Some(endpoint.port)
    else want.subdomain == Some(endpoint.subdomain)
  }

  /**
   * The loop goes round after a transient failure and after a lost session, unless a shutdown was
   * requested, and after nothing else; it asks once each time.
   */
  lemma {:induction false} LoopGoesOn(want: Request, attempts: seq<Attempt>, n: nat)
    requires n <= |attempts|
    requires forall i | 0 <= i < n ::
               (attempts[i].Unavailable? || attempts[i].Established?) && attempts[i].stays
    ensures n == |attempts| ==> |Asked(want, attempts)| == n
    ensures n < |attempts| ==> |Asked(want, attempts)| > n
    ensures n < |attempts|
            && (attempts[n].Cancelled? || attempts[n].Refused? || !attempts[n].stays) ==>
              |Asked(want, attempts)| == n + 1
    decreases n
  {
    hide Next;
    if n > 0 {
      LoopGoesOn(Next(want, attempts[0]), attempts[1..], n - 1);
    }
  }

  /** A transient failure is followed by the same request; a lost session by what it pinned. */
  lemma {:induction false} WhatIsAskedNext(want: Request, attempts: seq<Attempt>, i: nat)
    requires i + 1 < |Asked(want, attempts)| && i < |attempts|
    ensures attempts[i].Unavailable? ==> Asked(want, attempts)[i + 1] == Asked(want, attempts)[i]
    ensures attempts[i].Established? ==>
              Asked(want, attempts)[i + 1] == Pinned(Asked(want, attempts)[i], attempts[i].registration)
    ensures attempts[i].Unavailable? || attempts[i].Established?
    decreases i
  {
    hide Pinned;
    if i > 0 {
      WhatIsAskedNext(Next(want, attempts[0]), attempts[1..], i - 1);
    } else {
      var rest := Asked(Next(want, attempts[0]), attempts[1..]);
      assert Asked(want, attempts) == [want] + rest && rest[0] == Next(want, attempts[0]);
    }
  }

  /** Where the server does not report the port, the client takes it from the URL. */
  lemma UrlPins(want: Request, r: Registration, domain: string, port: nat)
    requires want.tunnelType == Tcp(None) && port <= 65_535 && '/' !in domain
    requires r.publicUrl == TcpUrl(domain, port)
    requires !r.tunnelType.Tcp? || r.tunnelType.remotePort.None?
    ensures Pinned(want, r) == want.(tunnelType := Tcp(Some(port)))
  {
    hide AssignedTcpPort, TcpUrl;
    PortReadsBack(domain, port);
  }

  /** Once a request names an endpoint, whatever any server says, every later one is the same. */
  lemma {:induction false} PinnedStays(want: Request, attempts: seq<Attempt>, i: nat, j: nat)
    requires i <= j < |Asked(want, attempts)| && IsPinned(Asked(want, attempts)[i])
    ensures Asked(want, attempts)[j] == Asked(want, attempts)[i]
    decreases |attempts|
  {
    hide AssignedTcpPort, AssignedSubdomain;
    var rest := Asked(Next(want, attempts[0]), attempts[1..]);
    if i > 0 {
      PinnedStays(Next(want, attempts[0]), attempts[1..], i - 1, j - 1);
    } else if j > 0 {
      assert Next(want, attempts[0]) == want;
      PinnedStays(want, attempts[1..], 0, j - 1);
      assert rest[j - 1] == rest[0] == want;
    }
  }

  /** A registration pins the client to the endpoint the server gave, on every domain. */
  lemma GrantPins(want: Request, a: Attempt, choice: Choice, domain: string)
    requires GrantedBy(a, want, choice, domain)
    ensures AsksFor(Next(want, a), Granted(want, choice)) && IsPinned(Next(want, a))
  {
    hide ValidateSubdomain, AssignedSubdomain, AssignedTcpPort, HttpUrl, TcpUrl;
    ClientFindsSubdomain(Granted(want, choice).subdomain, domain);
  }

  /** After its first registration a run asks for the endpoint it was given, as long as it lasts. */
  lemma {:induction false} RunKeepsItsEndpoint(want: Request, attempts: seq<Attempt>, i: nat, j: nat,
                                               choice: Choice, domain: string)
    requires i < j < |Asked(want, attempts)| && i < |attempts|
    requires GrantedBy(attempts[i], Asked(want, attempts)[i], choice, domain)
    ensures AsksFor(Asked(want, attempts)[j], Granted(Asked(want, attempts)[i], choice))
    decreases i
  {
    hide GrantedBy, AsksFor, IsPinned, Granted;
    var next, rest := Next(want, attempts[0]), attempts[1..];
    if i > 0 {
      RunKeepsItsEndpoint(next, rest, i - 1, j - 1, choice, domain);
    } else {
      GrantPins(want, attempts[0], choice, domain);
      PinnedStays(next, rest, 0, j - 1);
    }
  }
}
