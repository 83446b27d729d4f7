/**
 * The tunnel registry: two tunnel maps, one reservation table, a gauge and the capture rings.
 * Every operation holds the reservation mutex and is one atomic step. Each is given as a function
 * on the registry's value; the class at the end performs it on its fields.
 */
module Registry {
  import opened Sequences

  /**
   * One allocated session. Distinct allocations are distinct values, so equality of sessions is
   * `Arc::ptr_eq`; the client chooses `id`, and nothing makes it unique.
   */
  datatype Session = Session(arc: nat, id: string, subdomain: string)

  datatype Key = Http(name: string) | Tcp(port: nat)

  datatype TunnelError =
    | SubdomainTaken(subdomain: string)
    | CapacityExceeded(max: nat)
    | TcpPortOutOfRange(port: nat)
    | TcpPortTaken(port: nat)
    | NoPortsAvailable

  datatype Result<+T> = Ok(value: T) | Err(error: TunnelError)

  datatype Config = Config(maxTunnels: nat, firstPort: nat, endPort: nat)

  datatype Reg = Reg(
    tunnels: map<string, Session>,
    tcpTunnels: map<nat, Session>,
    reservations: map<Key, string>,
    captures: set<string>,
    active: int)

  const EMPTY: Reg := Reg(map[], map[], map[], {}, 0)

  predicate AtCapacity(c: Config, r: Reg) {
    |r.tunnels| + |r.tcpTunnels| + |r.reservations| >= c.maxTunnels
  }

  predicate InRange(c: Config, port: nat) {
    c.firstPort <= port < c.endPort
  }

  predicate IsLive(r: Reg, k: Key) {
    match k
    case Http(name) => name in r.tunnels
    case Tcp(port) => port in r.tcpTunnels
  }

  predicate LiveAs(r: Reg, k: Key, s: Session) {
    match k
    case Http(name) => name in r.tunnels && r.tunnels[name] == s
    case Tcp(port) => port in r.tcpTunnels && r.tcpTunnels[port] == s
  }

  predicate ReservedBy(r: Reg, k: Key, owner: string) {
    k in r.reservations && r.reservations[k] == owner
  }

  // ---- The operations ----

  function ReserveHttp(c: Config, r: Reg, name: string, owner: string): (Reg, Result<()>) {
    if name in r.tunnels || Http(name) in r.reservations then (r, Err(SubdomainTaken(name)))
    else if AtCapacity(c, r) then (r, Err(CapacityExceeded(c.maxTunnels)))
    else (r.(reservations := r.reservations[Http(name) := owner]), Ok(()))
  }

  /** Only the owner recorded in the table can release. */
  function Release(r: Reg, k: Key, owner: string): Reg {
    if ReservedBy(r, k, owner) then r.(reservations := r.reservations - {k}) else r
  }

  function RegisterHttp(c: Config, r: Reg, s: Session): (Reg, Result<()>) {
    var k, owns := Http(s.subdomain), ReservedBy(r, Http(s.subdomain), s.id);
    if (k in r.reservations && !owns) || s.subdomain in r.tunnels then
      (r, Err(SubdomainTaken(s.subdomain)))
    else if !owns && AtCapacity(c, r) then (r, Err(CapacityExceeded(c.maxTunnels)))
    else (PublishHttp(r, s), Ok(()))
  }

  function PublishHttp(r: Reg, s: Session): Reg {
    r.(tunnels := r.tunnels[s.subdomain := s],
       reservations := r.reservations - {Http(s.subdomain)},
       captures := r.captures + {s.subdomain},
       active := r.active + 1)
  }

  /** `owner` None removes whoever is there. */
  function RemoveHttp(r: Reg, name: string, owner: Option<Session>): (Reg, Option<Session>) {
    if name !in r.tunnels || (owner.Some? && r.tunnels[name] != owner.value) then (r, None)
    else
      (r.(tunnels := r.tunnels - {name}, captures := r.captures - {name}, active := r.active - 1),
       Some(r.tunnels[name]))
  }

  predicate PortFree(r: Reg, port: nat) {
    port !in r.tcpTunnels && Tcp(port) !in r.reservations
  }

  /** The least free port of the range. */
  function FirstFree(c: Config, r: Reg, from: nat): (p: Option<nat>)
    ensures p.Some? ==> from <= p.value < c.endPort && PortFree(r, p.value)
    ensures p.Some? ==> forall q | from <= q < p.value :: !PortFree(r, q)
    ensures p.None? ==> forall q | from <= q < c.endPort :: !PortFree(r, q)
    decreases c.endPort - from
  {
    if from >= c.endPort then None
    else if PortFree(r, from) then Some(from)
    else FirstFree(c, r, from + 1)
  }

  function ReserveTcp(c: Config, r: Reg, requested: Option<nat>, owner: string): (Reg, Result<nat>) {
    if requested.Some? && !InRange(c, requested.value) then
      (r, Err(TcpPortOutOfRange(requested.value)))
    else
      var choice := if requested.Some? then requested else FirstFree(c, r, c.firstPort);
      if choice.None? then (r, Err(NoPortsAvailable))
      else if !PortFree(r, choice.value) then (r, Err(TcpPortTaken(choice.value)))
      else if AtCapacity(c, r) then (r, Err(CapacityExceeded(c.maxTunnels)))
      else
        (r.(reservations := r.reservations[Tcp(choice.value) := owner]), Ok(choice.value))
  }

  function RegisterTcp(c: Config, r: Reg, port: nat, s: Session): (Reg, Result<()>) {
    var owns := ReservedBy(r, Tcp(port), s.id);
    if !InRange(c, port) then (r, Err(TcpPortOutOfRange(port)))
    else if (Tcp(port) in r.reservations && !owns) || port in r.tcpTunnels then
      (r, Err(TcpPortTaken(port)))
    else if !owns && AtCapacity(c, r) then (r, Err(CapacityExceeded(c.maxTunnels)))
    else (PublishTcp(r, port, s), Ok(()))
  }

  function PublishTcp(r: Reg, port: nat, s: Session): Reg {
    r.(tcpTunnels := r.tcpTunnels[port := s],
       reservations := r.reservations - {Tcp(port)},
       active := r.active + 1)
  }

  /** The removed tunnel's port stays reserved, in its session's name, for its listener to stop. */
  function RemoveTcp(r: Reg, port: nat, owner: Session): (Reg, Option<Session>) {
    if port !in r.tcpTunnels || r.tcpTunnels[port] != owner then (r, None)
    else
      (r.(tcpTunnels := r.tcpTunnels - {port},
          reservations := r.reservations[Tcp(port) := owner.id],
          active := r.active - 1), Some(owner))
  }

  // ---- What every operation keeps ----

  /** Capacity, exclusion, the gauge and the capture rings. */
  ghost predicate Sound(c: Config, r: Reg) {
    Counted(c, r) && Exclusive(c, r)
  }

  predicate Counted(c: Config, r: Reg) {
    && |r.tunnels| + |r.tcpTunnels| + |r.reservations| <= c.maxTunnels
    && r.active == |r.tunnels| + |r.tcpTunnels|
  }

  ghost predicate Exclusive(c: Config, r: Reg) {
    && (forall k | k in r.reservations :: !IsLive(r, k))
    && r.captures == r.tunnels.Keys
    && (forall p | p in r.tcpTunnels :: InRange(c, p))
    && (forall p | Tcp(p) in r.reservations :: InRange(c, p))
    && (forall n | n in r.tunnels :: r.tunnels[n].subdomain == n)
  }

  lemma Removed<K, V>(m: map<K, V>, k: K)
    ensures |m - {k}| == if k in m then |m| - 1 else |m|
  {
    if k in m {
      assert (m - {k}).Keys == m.Keys - {k};
      assert |(m - {k}).Keys| == |m.Keys| - 1;
    } else {
      assert m - {k} == m;
    }
  }

  lemma Added<K, V>(m: map<K, V>, k: K, v: V)
    ensures |m[k := v]| == if k in m then |m| else |m| + 1
  {
    assert m[k := v].Keys == m.Keys + {k};
    if k in m {
      assert m.Keys + {k} == m.Keys;
    }
  }

  lemma ReserveHttpKeeps(c: Config, r: Reg, name: string, owner: string)
    requires Sound(c, r)
    ensures Sound(c, ReserveHttp(c, r, name, owner).0)
  {
    Added(r.reservations, Http(name), owner);
  }

  lemma ReleaseKeeps(c: Config, r: Reg, k: Key, owner: string)
    requires Sound(c, r)
    ensures Sound(c, Release(r, k, owner))
  {
    Removed(r.reservations, k);
  }

  lemma RegisterHttpKeeps(c: Config, r: Reg, s: Session)
    requires Sound(c, r)
    ensures Sound(c, RegisterHttp(c, r, s).0)
  {
    hide Exclusive, AtCapacity;
    RegisterHttpAnswers(c, r, s);
    if RegisterHttp(c, r, s).1.Ok? {
      PublishHttpExcludes(c, r, s);
      PublishHttpCounts(c, r, s);
    }
  }

  lemma PublishHttpCounts(c: Config, r: Reg, s: Session)
    requires Counted(c, r) && s.subdomain !in r.tunnels
    requires Http(s.subdomain) in r.reservations || HasRoom(c, r)
    ensures Counted(c, PublishHttp(r, s))
  {
    Added(r.tunnels, s.subdomain, s);
    Removed(r.reservations, Http(s.subdomain));
  }

  lemma RemoveHttpKeeps(c: Config, r: Reg, name: string, owner: Option<Session>)
    requires Sound(c, r)
    ensures Sound(c, RemoveHttp(r, name, owner).0)
  {
    Removed(r.tunnels, name);
  }

  lemma ReserveTcpKeeps(c: Config, r: Reg, requested: Option<nat>, owner: string)
    requires Sound(c, r)
    ensures Sound(c, ReserveTcp(c, r, requested, owner).0)
  {
    var (r', result) := ReserveTcp(c, r, requested, owner);
    if result.Ok? {
      Added(r.reservations, Tcp(result.value), owner);
    }
  }

  lemma RegisterTcpKeeps(c: Config, r: Reg, port: nat, s: Session)
    requires Sound(c, r)
    ensures Sound(c, RegisterTcp(c, r, port, s).0)
  {
    hide Exclusive, AtCapacity, InRange;
    RegisterTcpAnswers(c, r, port, s);
    if RegisterTcp(c, r, port, s).1.Ok? {
      PublishTcpExcludes(c, r, port, s);
      PublishTcpCounts(c, r, port, s);
    }
  }

  lemma PublishTcpCounts(c: Config, r: Reg, port: nat, s: Session)
    requires Counted(c, r) && port !in r.tcpTunnels
    requires Tcp(port) in r.reservations || HasRoom(c, r)
    ensures Counted(c, PublishTcp(r, port, s))
  {
    Added(r.tcpTunnels, port, s);
    Removed(r.reservations, Tcp(port));
  }

  lemma PublishHttpExcludes(c: Config, r: Reg, s: Session)
    requires Exclusive(c, r)
    ensures Exclusive(c, PublishHttp(r, s))
  {
    var r' := PublishHttp(r, s);
    forall k | k in r'.reservations ensures !IsLive(r', k) {
      assert k in r.reservations && k != Http(s.subdomain);
      assert !IsLive(r, k);
    }
    assert r'.captures == r'.tunnels.Keys;
  }

  lemma PublishTcpExcludes(c: Config, r: Reg, port: nat, s: Session)
    requires Exclusive(c, r) && InRange(c, port)
    ensures Exclusive(c, PublishTcp(r, port, s))
  {
    var r' := PublishTcp(r, port, s);
    forall k | k in r'.reservations ensures !IsLive(r', k) {
      assert k in r.reservations && k != Tcp(port);
      assert !IsLive(r, k);
    }
  }

  lemma RemoveTcpKeeps(c: Config, r: Reg, port: nat, owner: Session)
    requires Sound(c, r)
    ensures Sound(c, RemoveTcp(r, port, owner).0)
  {
    Removed(r.tcpTunnels, port);
    Added(r.reservations, Tcp(port), owner.id);
  }

  predicate HasRoom(c: Config, r: Reg) {
    |r.tunnels| + |r.tcpTunnels| + |r.reservations| < c.maxTunnels
  }

  predicate IsTaken(r: Reg, k: Key) {
    IsLive(r, k) || k in r.reservations
  }

  /**
   * A name is granted exactly when it is neither live nor reserved and there is room; a taken one
   * is refused as taken, a free one for capacity, whatever else is live.
   */
  lemma ReserveHttpAnswers(c: Config, r: Reg, name: string, owner: string)
    ensures var result := ReserveHttp(c, r, name, owner).1;
            && (result.Ok? <==> !IsTaken(r, Http(name)) && HasRoom(c, r))
            && (result == Err(SubdomainTaken(name)) <==> IsTaken(r, Http(name)))
            && (result == Err(CapacityExceeded(c.maxTunnels)) <==>
                  !IsTaken(r, Http(name)) && !HasRoom(c, r))
    ensures ReserveHttp(c, r, name, owner).1.Err? ==> ReserveHttp(c, r, name, owner).0 == r
  {
  }

  /**
   * A tunnel is published exactly under a name that is not live and that is reserved for it, or
   * not reserved at all and there is room.
   */
  lemma RegisterHttpAnswers(c: Config, r: Reg, s: Session)
    ensures var k, result := Http(s.subdomain), RegisterHttp(c, r, s).1;
            var mine, others := ReservedBy(r, k, s.id), k in r.reservations && !ReservedBy(r, k, s.id);
            && (result.Ok? <==> !IsLive(r, k) && !others && (mine || HasRoom(c, r)))
            && (result == Err(SubdomainTaken(s.subdomain)) <==> IsLive(r, k) || others)
            && (result == Err(CapacityExceeded(c.maxTunnels)) <==>
                  !IsTaken(r, k) && !HasRoom(c, r))
    ensures RegisterHttp(c, r, s).1.Ok? ==> LiveAs(RegisterHttp(c, r, s).0, Http(s.subdomain), s)
    ensures RegisterHttp(c, r, s).1.Err? ==> RegisterHttp(c, r, s).0 == r
  {
  }

  lemma RegisterTcpAnswers(c: Config, r: Reg, port: nat, s: Session)
    ensures var k, result := Tcp(port), RegisterTcp(c, r, port, s).1;
            var mine, others := ReservedBy(r, k, s.id), k in r.reservations && !ReservedBy(r, k, s.id);
            && (result.Ok? <==>
                  InRange(c, port) && !IsLive(r, k) && !others && (mine || HasRoom(c, r)))
            && (result == Err(TcpPortOutOfRange(port)) <==> !InRange(c, port))
            && (result == Err(TcpPortTaken(port)) <==> InRange(c, port) && (IsLive(r, k) || others))
    ensures RegisterTcp(c, r, port, s).1.Ok? ==> LiveAs(RegisterTcp(c, r, port, s).0, Tcp(port), s)
    ensures RegisterTcp(c, r, port, s).1.Err? ==> RegisterTcp(c, r, port, s).0 == r
  {
  }

  /** Every session-owned removal takes out exactly its own live entry, and changes nothing else. */
  lemma RemovalAnswers(r: Reg, k: Key, s: Session)
    ensures match k
            case Http(name) =>
              var (r', removed) := RemoveHttp(r, name, Some(s));
              && removed == (if LiveAs(r, k, s) then Some(s) else None)
              && (removed.Some? ==> !IsLive(r', k)) && (removed.None? ==> r' == r)
            case Tcp(port) =>
              var (r', removed) := RemoveTcp(r, port, s);
              && removed == (if LiveAs(r, k, s) then Some(s) else None)
              && (removed.Some? ==> !IsLive(r', k)) && (removed.None? ==> r' == r)
  {
  }

  /**
   * A reserved name stays with its owner: whoever asks for it is refused, nobody else can give it
   * back, and when its owner does the registry is as it was.
   */
  lemma HttpReservationHolds(c: Config, r: Reg, name: string, owner: string, other: string)
    requires ReserveHttp(c, r, name, owner).1.Ok?
    ensures var r' := ReserveHttp(c, r, name, owner).0;
            && ReserveHttp(c, r', name, other) == (r', Err(SubdomainTaken(name)))
            && (other != owner ==> Release(r', Http(name), other) == r')
            && Release(r', Http(name), owner) == r
  {
    UndoneByRemoval(r.reservations, Http(name), owner);
  }

  lemma UndoneByRemoval<K, V>(m: map<K, V>, k: K, v: V)
    requires k !in m
    ensures m[k := v] - {k} == m
  {
  }

  lemma CapturesAreLive(c: Config, r: Reg, name: string)
    requires Sound(c, r)
    ensures name in r.captures <==> name in r.tunnels
  {
  }

  /** A name reserved, registered and removed by its own session leaves no trace. */
  lemma HttpLifecycle(c: Config, r: Reg, s: Session)
    requires Sound(c, r) && ReserveHttp(c, r, s.subdomain, s.id).1.Ok?
    ensures var reserved := ReserveHttp(c, r, s.subdomain, s.id).0;
            var (live, result) := RegisterHttp(c, reserved, s);
            && result.Ok? && LiveAs(live, Http(s.subdomain), s)
            && RemoveHttp(live, s.subdomain, Some(s)) == (r, Some(s))
  {
    hide Sound, AtCapacity;
    CapturesAreLive(c, r, s.subdomain);
    UndoneByRemoval(r.reservations, Http(s.subdomain), s.id);
    UndoneByRemoval(r.tunnels, s.subdomain, s);
    assert r.captures + {s.subdomain} - {s.subdomain} == r.captures;
  }

  /** A removed TCP tunnel is reserved again, as before it was registered; releasing that undoes all. */
  lemma TcpLifecycle(c: Config, r: Reg, requested: Option<nat>, s: Session)
    requires ReserveTcp(c, r, requested, s.id).1.Ok?
    ensures var (reserved, port) := ReserveTcp(c, r, requested, s.id);
            var (live, result) := RegisterTcp(c, reserved, port.value, s);
            && result.Ok? && LiveAs(live, Tcp(port.value), s)
            && RemoveTcp(live, port.value, s) == (reserved, Some(s))
            && Release(reserved, Tcp(port.value), s.id) == r
  {
    hide ReserveTcp, RegisterTcp, RemoveTcp, Release, PortFree, InRange;
    ReserveTcpGives(c, r, requested, s.id);
    TcpPortLifecycle(c, r, ReserveTcp(c, r, requested, s.id).1.value, s);
  }

  lemma ReserveTcpGives(c: Config, r: Reg, requested: Option<nat>, owner: string)
    requires ReserveTcp(c, r, requested, owner).1.Ok?
    ensures var (r', result) := ReserveTcp(c, r, requested, owner);
            && InRange(c, result.value) && PortFree(r, result.value)
            && r' == r.(reservations := r.reservations[Tcp(result.value) := owner])
  {
    hide AtCapacity;
  }

  lemma TcpPortLifecycle(c: Config, r: Reg, port: nat, s: Session)
    requires InRange(c, port) && PortFree(r, port)
    ensures var reserved := r.(reservations := r.reservations[Tcp(port) := s.id]);
            var (live, result) := RegisterTcp(c, reserved, port, s);
            && result.Ok? && LiveAs(live, Tcp(port), s)
            && RemoveTcp(live, port, s) == (reserved, Some(s))
            && Release(reserved, Tcp(port), s.id) == r
  {
    hide AtCapacity, InRange;
    UndoneByRemoval(r.reservations, Tcp(port), s.id);
    UndoneByRemoval(r.tcpTunnels, port, s);
  }

  /** A port is handed out exactly when a suitable one is free and there is room. */
  lemma ReserveTcpSucceedsIff(c: Config, r: Reg, requested: Option<nat>, owner: string)
    ensures ReserveTcp(c, r, requested, owner).1.Ok? <==>
              && (exists p | c.firstPort <= p < c.endPort ::
                    PortFree(r, p) && (requested.Some? ==> requested.value == p))
              && |r.tunnels| + |r.tcpTunnels| + |r.reservations| < c.maxTunnels
    ensures var result := ReserveTcp(c, r, requested, owner).1;
            && (result.Ok? ==> InRange(c, result.value) && PortFree(r, result.value))
            && (result.Ok? && requested.None? ==>
                  forall q | c.firstPort <= q < result.value :: !PortFree(r, q))
            && (result == Err(NoPortsAvailable) <==>
                  requested.None? && forall q | c.firstPort <= q < c.endPort :: !PortFree(r, q))
            && (result.Err? && result.error.TcpPortOutOfRange? <==>
                  requested.Some? && !InRange(c, requested.value))
            && (result.Err? && result.error.TcpPortTaken? <==>
                  requested.Some? && InRange(c, requested.value) && !PortFree(r, requested.value))
    ensures ReserveTcp(c, r, requested, owner).1.Err? ==> ReserveTcp(c, r, requested, owner).0 == r
  {
    var free := FirstFree(c, r, c.firstPort);
    if requested.Some? {
      assert InRange(c, requested.value) && PortFree(r, requested.value) ==>
          c.firstPort <= requested.value < c.endPort && PortFree(r, requested.value);
    } else if free.Some? {
      assert PortFree(r, free.value);
    }
  }

  // ---- The shared state ----

  class ServerState {
    const config: Config
    var tunnels: map<string, Session>
    var tcpTunnels: map<nat, Session>
    var reservations: map<Key, string>
    var captures: set<string>
    var active: int
    /** Sessions whose listener has been told to stop, and whose idle token has fired. */
    var cancelled: set<Session>
    var idleCancelled: set<Session>

    constructor (config: Config)
      ensures this.config == config && View() == EMPTY && Sound(config, View())
      ensures cancelled == {} && idleCancelled == {}
    {
      this.config := config;
      tunnels, tcpTunnels, reservations, captures, active := map[], map[], map[], {}, 0;
      cancelled, idleCancelled := {}, {};
    }

    function View(): Reg
      reads this
    {
      Reg(tunnels, tcpTunnels, reservations, captures, active)
    }

    method ReserveHttpTunnel(name: string, owner: string) returns (result: Result<()>)
      modifies `reservations
      ensures (View(), result) == ReserveHttp(config, old(View()), name, owner)
    {
      var key := Http(name);
      if name in tunnels || key in reservations {
        return Err(SubdomainTaken(name));
      }
      if AtCapacity(config, View()) {
        return Err(CapacityExceeded(config.maxTunnels));
      }
      reservations := reservations[key := owner];
      return Ok(());
    }

    method ReleaseReservation(key: Key, owner: string)
      modifies `reservations
      ensures View() == Release(old(View()), key, owner)
    {
      if key in reservations && reservations[key] == owner {
        reservations := reservations - {key};
      }
    }

    method RegisterTunnel(session: Session) returns (result: Result<()>)
      modifies `tunnels, `reservations, `captures, `active
      ensures (View(), result) == RegisterHttp(config, old(View()), session)
    {
      hide AtCapacity;
      var key := Http(session.subdomain);
      var ownsReservation := key in reservations && reservations[key] == session.id;
      if key in reservations && !ownsReservation {
        return Err(SubdomainTaken(session.subdomain));
      }
      if session.subdomain in tunnels {
        return Err(SubdomainTaken(session.subdomain));
      }
      if !ownsReservation && AtCapacity(config, View()) {
        return Err(CapacityExceeded(config.maxTunnels));
      }
      tunnels := tunnels[session.subdomain := session];
      if ownsReservation {
        reservations := reservations - {key};
      } else {
        assert reservations - {key} == reservations;
      }
      active := active + 1;
      captures := captures + {session.subdomain};
      return Ok(());
    }

    method RemoveTunnelIfOwner(name: string, owner: Option<Session>) returns (removed: Option<Session>)
      modifies `tunnels, `captures, `active, `idleCancelled
      ensures (View(), removed) == RemoveHttp(old(View()), name, owner)
      ensures idleCancelled == old(idleCancelled) + if removed.Some? then {removed.value} else {}
    {
      if name !in tunnels {
        return None;
      }
      var current := tunnels[name];
      if owner.Some? && current != owner.value {
        return None;
      }
      tunnels := tunnels - {name};
      idleCancelled := idleCancelled + {current};
      captures := captures - {name};
      active := active - 1;
      return Some(current);
    }

    method ReserveTcpPort(requested: Option<nat>, owner: string) returns (result: Result<nat>)
      modifies `reservations
      ensures (View(), result) == ReserveTcp(config, old(View()), requested, owner)
    {
      var port: nat;
      if requested.Some? {
        if !InRange(config, requested.value) {
          return Err(TcpPortOutOfRange(requested.value));
        }
        port := requested.value;
      } else {
        port := config.firstPort;
        while port < config.endPort && (port in tcpTunnels || Tcp(port) in reservations)
          invariant FirstFree(config, View(), port) == FirstFree(config, View(), config.firstPort)
          decreases config.endPort - port
        {
          port := port + 1;
        }
        if port >= config.endPort {
          return Err(NoPortsAvailable);
        }
      }
      var key := Tcp(port);
      if port in tcpTunnels || key in reservations {
        return Err(TcpPortTaken(port));
      }
      if AtCapacity(config, View()) {
        return Err(CapacityExceeded(config.maxTunnels));
      }
      reservations := reservations[key := owner];
      return Ok(port);
    }

    method TryRegisterTcpTunnel(port: nat, session: Session) returns (result: Result<()>)
      modifies `tcpTunnels, `reservations, `active
      ensures (View(), result) == RegisterTcp(config, old(View()), port, session)
    {
      if !InRange(config, port) {
        return Err(TcpPortOutOfRange(port));
      }
      hide AtCapacity;
      var key := Tcp(port);
      var ownsReservation := key in reservations && reservations[key] == session.id;
      if key in reservations && !ownsReservation {
        return Err(TcpPortTaken(port));
      }
      if port in tcpTunnels {
        return Err(TcpPortTaken(port));
      }
      if !ownsReservation && AtCapacity(config, View()) {
        return Err(CapacityExceeded(config.maxTunnels));
      }
      tcpTunnels := tcpTunnels[port := session];
      if ownsReservation {
        reservations := reservations - {key};
      } else {
        assert reservations - {key} == reservations;
      }
      active := active + 1;
      return Ok(());
    }

    method RemoveTcpTunnelIfOwner(port: nat, session: Session) returns (removed: Option<Session>)
      modifies `tcpTunnels, `reservations, `active, `cancelled, `idleCancelled
      ensures (View(), removed) == RemoveTcp(old(View()), port, session)
      ensures var fired := if removed.Some? then {removed.value} else {};
              cancelled == old(cancelled) + fired && idleCancelled == old(idleCancelled) + fired
    {
      if port !in tcpTunnels || tcpTunnels[port] != session {
        return None;
      }
      tcpTunnels := tcpTunnels - {port};
      reservations := reservations[Tcp(port) := session.id];
      cancelled := cancelled + {session};
      idleCancelled := idleCancelled + {session};
      active := active - 1;
      return Some(session);
    }
  }
}
