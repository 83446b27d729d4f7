/** What the registration protocol does for its clients, and how it cleans up after them. */
module ProtocolService {
  import opened Sequences
  import opened Registry
  import opened Protocol
  import opened ProtocolInvariant
  import opened ProtocolParts
  import opened ProtocolTheorems
  import opened ProtocolProgress

  function RunFrom(c: Config, w: World, events: seq<Event>): Option<World>
    decreases |events|
  {
    if events == [] then Some(w)
    else match Apply(c, w, events[0])
         case None => None
         case Some(w') => RunFrom(c, w', events[1..])
  }

  lemma RunHead(c: Config, w: World, e: Event, w': World, rest: seq<Event>)
    requires Apply(c, w, e) == Some(w')
    ensures RunFrom(c, w, [e] + rest) == RunFrom(c, w', rest)
  {
    hide Apply;
    assert ([e] + rest)[1..] == rest;
  }

  lemma RunNone(c: Config, w: World)
    ensures RunFrom(c, w, []) == Some(w)
  {
  }

  /** All steps are one task's own. */
  predicate AllBy(events: seq<Event>, t: TaskId) {
    forall i | 0 <= i < |events| :: Actor(events[i]) == Some(t)
  }

  predicate IsReady(w: World, t: TaskId) {
    At(w, t).Some? && At(w, t).value.Conn? && At(w, t).value.phase == Ready
  }

  lemma ConnKnown(c: Config, w: World, t: TaskId)
    requires Reachable(c, w) && At(w, t).Some?
    ensures t in w.tasks && t < w.next
  {
    hide Reachable, Inv, Settled;
    var b := Reached(c, w);
    InvParts(c, w, b);
    IdsBelow(w, b, t);
  }

  /** A new connection can ask at once. */
  lemma NewConnectionIsReady(c: Config, w: World)
    ensures var w' := Apply(c, w, Connect);
            && w'.Some? && IsReady(w'.value, w.next) && w'.value.reg == w.reg
            && (forall t | t != w.next :: At(w'.value, t) == At(w, t))
  {
  }

  /** A setup that fails gives back exactly what it had reserved, and the connection can ask again. */
  lemma FailedSetupIsUndone(c: Config, w: World, t: TaskId)
    requires Reachable(c, w) && At(w, t).Some? && At(w, t).value.Conn?
    requires At(w, t).value.phase.HttpReserved? || At(w, t).value.phase.TcpReserved?
    ensures var w' := Apply(c, w, GiveUp(t));
            && w'.Some? && IsReady(w'.value, t)
            && w'.value.reg
               == w.reg.(reservations := w.reg.reservations - {Held(At(w, t)).value.key})
  {
    hide Reachable;
    HolderKnown(c, w, t);
  }

  // ---- Asking for a tunnel ----

  /**
   * A connection that asks for a name holds it afterwards exactly when it is neither live nor
   * reserved and there is room; a refusal changes nothing.
   */
  lemma AskedNameIsHeld(c: Config, w: World, t: TaskId, name: string, id: string)
    requires IsReady(w, t)
    ensures var w' := Apply(c, w, AskHttp(t, name, id));
            && w'.Some?
            && (if !IsTaken(w.reg, Http(name)) && HasRoom(c, w.reg)
                then
                  && Held(At(w'.value, t)) == Some(Hold(Http(name), id))
                  && ReservedBy(w'.value.reg, Http(name), id)
                else w'.value == w)
  {
    hide IsTaken, HasRoom;
    ReserveHttpAnswers(c, w.reg, name, id);
  }

  /** Some port of the range suits the request. */
  ghost predicate Suitable(c: Config, r: Reg, requested: Option<nat>) {
    exists p | c.firstPort <= p < c.endPort ::
      PortFree(r, p) && (requested.Some? ==> requested.value == p)
  }

  /** The same for ports: any suitable one is handed out, the one asked for if one was. */
  lemma AskedPortIsHeld(c: Config, w: World, t: TaskId, requested: Option<nat>, id: string)
    requires IsReady(w, t)
    ensures var w' := Apply(c, w, AskTcp(t, requested, id));
            && w'.Some?
            && (if Suitable(c, w.reg, requested) && HasRoom(c, w.reg)
                then
                  && Held(At(w'.value, t)).Some? && Held(At(w'.value, t)).value.owner == id
                  && ReservedBy(w'.value.reg, Held(At(w'.value, t)).value.key, id)
                  && (requested.Some? ==>
                        Held(At(w'.value, t)).value.key == Tcp(requested.value))
                else w'.value == w)
  {
    hide FirstFree, PortFree, AtCapacity;
    ReserveTcpSucceedsIff(c, w.reg, requested, id);
    assert HasRoom(c, w.reg) <==>
        |w.reg.tunnels| + |w.reg.tcpTunnels| + |w.reg.reservations| < c.maxTunnels;
  }

  /** A free name goes from request to live tunnel in three steps when setup succeeds. */
  lemma HttpGoesLive(c: Config, w: World, t: TaskId, s: Session)
    requires IsReady(w, t) && s !in w.home
    requires !IsTaken(w.reg, Http(s.subdomain)) && HasRoom(c, w.reg)
    ensures var w' := RunFrom(c, w, [AskHttp(t, s.subdomain, s.id)] + ([Build(t, s)] + [Register(t)]));
            && w'.Some? && LiveAs(w'.value.reg, Http(s.subdomain), s)
            && IsReady(w'.value, t) && Owns(At(w'.value, t), Http(s.subdomain), s)
            && s in w'.value.home && w'.value.home[s] == Origin(Http(s.subdomain), t)
  {
    hide RunFrom, AtCapacity, HasRoom;
    ReserveHttpAnswers(c, w.reg, s.subdomain, s.id);
    var w1 := Apply(c, w, AskHttp(t, s.subdomain, s.id)).value;
    var w2 := Apply(c, w1, Build(t, s)).value;
    RegisterHttpAnswers(c, w2.reg, s);
    var w3 := Apply(c, w2, Register(t)).value;
    RunHead(c, w2, Register(t), w3, []);
    RunNone(c, w3);
    assert [Register(t)] + [] == [Register(t)];
    RunHead(c, w1, Build(t, s), w2, [Register(t)]);
    RunHead(c, w, AskHttp(t, s.subdomain, s.id), w1, [Build(t, s)] + [Register(t)]);
  }

  lemma TcpReserved(c: Config, w: World, t: TaskId, requested: Option<nat>, id: string, port: nat)
    requires IsReady(w, t) && ReserveTcp(c, w.reg, requested, id).1 == Ok(port)
    ensures InRange(c, port) && !IsTaken(w.reg, Tcp(port))
    ensures Apply(c, w, AskTcp(t, requested, id))
            == Some(Becomes(w.(reg := w.reg.(reservations := w.reg.reservations[Tcp(port) := id])), t,
                            At(w, t).value.(phase := Protocol.TcpReserved(port, id))))
  {
    hide AtCapacity, FirstFree, InRange;
    ReserveTcpGives(c, w.reg, requested, id);
  }

  /** With its socket bound under its reservation, a tunnel is published and served. */
  lemma BoundGoesLive(c: Config, w: World, t: TaskId, port: nat, s: Session)
    requires t < w.next && At(w, t).Some? && At(w, t).value.Conn?
    requires At(w, t).value.phase == TcpBound(port, s)
    requires InRange(c, port) && port !in w.reg.tcpTunnels && ReservedBy(w.reg, Tcp(port), s.id)
    ensures var w' := RunFrom(c, w, [Register(t)] + [Spawn(t)]);
            && w'.Some? && LiveAs(w'.value.reg, Tcp(port), s)
            && IsReady(w'.value, t) && Owns(At(w'.value, t), Tcp(port), s)
            && At(w'.value, w.next) == Some(Serving(port, s))
  {
    hide RunFrom, AtCapacity, HasRoom, InRange;
    RegisterTcpAnswers(c, w.reg, port, s);
    var w1 := Apply(c, w, Register(t)).value;
    var w2 := Apply(c, w1, Spawn(t)).value;
    RunHead(c, w1, Spawn(t), w2, []);
    RunNone(c, w2);
    assert [Spawn(t)] + [] == [Spawn(t)];
    RunHead(c, w, Register(t), w1, [Spawn(t)]);
  }

  lemma BindsReserved(c: Config, w: World, t: TaskId, s: Session, port: nat)
    requires At(w, t).Some? && At(w, t).value.Conn? && s !in w.home
    requires At(w, t).value.phase == Protocol.TcpReserved(port, s.id)
    ensures var w' := Apply(c, w, Bind(t, s));
            && w'.Some? && w'.value.reg == w.reg && w'.value.next == w.next
            && At(w'.value, t) == Some(At(w, t).value.(phase := TcpBound(port, s)))
  {
  }

  /** A suitable port goes from request to a served socket in four. */
  lemma TcpGoesLive(c: Config, w: World, t: TaskId, requested: Option<nat>, s: Session, port: nat)
    requires IsReady(w, t) && t < w.next && s !in w.home
    requires ReserveTcp(c, w.reg, requested, s.id).1 == Ok(port)
    ensures var w' := RunFrom(c, w, [AskTcp(t, requested, s.id)]
                                    + ([Bind(t, s)] + ([Register(t)] + [Spawn(t)])));
            && w'.Some? && LiveAs(w'.value.reg, Tcp(port), s)
            && IsReady(w'.value, t) && Owns(At(w'.value, t), Tcp(port), s)
            && At(w'.value, w.next) == Some(Serving(port, s))
  {
    hide RunFrom, Apply, ReserveTcp, InRange, Owns, LiveAs;
    TcpReserved(c, w, t, requested, s.id, port);
    var w1 := Apply(c, w, AskTcp(t, requested, s.id)).value;
    BindsReserved(c, w1, t, s, port);
    var w2 := Apply(c, w1, Bind(t, s)).value;
    BoundGoesLive(c, w2, t, port, s);
    RunHead(c, w1, Bind(t, s), w2, [Register(t)] + [Spawn(t)]);
    RunHead(c, w, AskTcp(t, requested, s.id), w1, [Bind(t, s)] + ([Register(t)] + [Spawn(t)]));
  }

  // ---- Taking tunnels down ----

  /**
   * Reaping a live tunnel removes it and leaves its session to a new task; every other tunnel
   * stays. Aimed at anything else it does nothing.
   */
  lemma ReapTakesOut(c: Config, w: World, k: Key, s: Session)
    ensures Apply(c, w, Reap(k, s)).Some?
    ensures var w' := Apply(c, w, Reap(k, s)).value;
            && (forall k' | k' != k :: LiveSession(w'.reg, k') == LiveSession(w.reg, k'))
            && (if LiveSession(w.reg, k) == Some(s)
                then LiveSession(w'.reg, k).None? && Carried(At(w', w.next)) == Some(s)
                else w' == w)
  {
  }

  lemma CleanStep(c: Config, w: World, t: TaskId)
    requires Reachable(c, w) && At(w, t).Some? && At(w, t).value.Conn?
    requires At(w, t).value.phase.Cleaning? && At(w, t).value.phase.todo != []
    ensures var w' := Apply(c, w, CleanNext(t));
            && w'.Some?
            && At(w'.value, t)
               == Some(At(w, t).value.(phase := Cleaning(At(w, t).value.phase.todo[1..])))
  {
    hide Reachable, RemoveHttp, RemoveTcp;
    ConnKnown(c, w, t);
  }

  /** The loop over what the connection registered, to its end. */
  lemma {:induction false} CleaningEnds(c: Config, w: World, t: TaskId) returns (events: seq<Event>)
    requires Reachable(c, w) && At(w, t).Some? && At(w, t).value.Conn?
    requires At(w, t).value.phase.Cleaning?
    ensures AllBy(events, t) && RunFrom(c, w, events).Some?
    ensures var w' := RunFrom(c, w, events).value; Reachable(c, w') && At(w', t).None?
    decreases |At(w, t).value.phase.todo|
  {
    hide Reachable, RunFrom;
    if At(w, t).value.phase.todo == [] {
      events := [Close(t)];
      var w' := Apply(c, w, Close(t)).value;
      ReachesOn(c, w, Close(t), w');
      RunHead(c, w, Close(t), w', []);
      RunNone(c, w');
      assert [Close(t)] + [] == [Close(t)];
    } else {
      CleanStep(c, w, t);
      var w' := Apply(c, w, CleanNext(t)).value;
      ReachesOn(c, w, CleanNext(t), w');
      var rest := CleaningEnds(c, w', t);
      RunHead(c, w, CleanNext(t), w', rest);
      events := [CleanNext(t)] + rest;
    }
  }

  /**
   * A connection that disconnects takes no more requests; its own steps alone end it, and then
   * nothing it registered is live.
   */
  lemma {:induction false} DisconnectCleansUp(c: Config, w: World, t: TaskId)
      returns (events: seq<Event>)
    requires Reachable(c, w) && IsReady(w, t)
    ensures Apply(c, w, Disconnect(t)).Some? && !IsReady(Apply(c, w, Disconnect(t)).value, t)
    ensures AllBy(events, t) && RunFrom(c, w, [Disconnect(t)] + events).Some?
    ensures var w' := RunFrom(c, w, [Disconnect(t)] + events).value;
            && At(w', t).None?
            && forall k | LiveSession(w'.reg, k).Some? ::
                 var s := LiveSession(w'.reg, k).value;
                 s in w'.home && w'.home[s].conn != t
  {
    hide Reachable, RunFrom, LiveSession;
    var w1 := Apply(c, w, Disconnect(t)).value;
    ReachesOn(c, w, Disconnect(t), w1);
    events := CleaningEnds(c, w1, t);
    RunHead(c, w, Disconnect(t), w1, events);
    var w' := RunFrom(c, w1, events).value;
    forall k | LiveSession(w'.reg, k).Some?
      ensures LiveSession(w'.reg, k).value in w'.home
      ensures w'.home[LiveSession(w'.reg, k).value].conn != t
    {
      NothingLeftBehind(c, w', t, k);
    }
  }

  // ---- DNS records ----

  lemma DeleteAttempts(c: Config, w: World, t: TaskId, s: Session)
    requires Reachable(c, w) && At(w, t) == Some(Deleting(s))
    ensures s in w.home
    ensures var w' := Apply(c, w, Delete(t));
            && w'.Some? && s in w'.value.attempts && w'.value.attempts[s] == 1
  {
    hide Reachable, Sound, Holders, Listeners, Covered, Receivers, Owned, LiveSession;
    var b := Reached(c, w);
    assert Carried(At(w, t)) == Some(s);
    DeletedOnce(c, w, s);
  }

  /** The task that has taken a tunnel out, on its way to the deletion of its record. */
  function ToDelete(task: Task, t: TaskId): seq<Event> {
    match task
    case Stopping(_, _) => [TakeReceiver(t)] + ([TimeOut(t)] + [Delete(t)])
    case Waiting(_, _) => [TimeOut(t)] + [Delete(t)]
    case Withdrawing(_, _) => [ListenerReleases(t)] + [Delete(t)]
    case _ => [Delete(t)]
  }

  lemma OneMoreStep(c: Config, w: World, t: TaskId, e: Event, w': World, s: Session)
    requires Reachable(c, w) && Apply(c, w, e) == Some(w') && At(w', t) == Some(Deleting(s))
    ensures var w2 := RunFrom(c, w, [e] + [Delete(t)]);
            && w2.Some? && s in w2.value.attempts && w2.value.attempts[s] == 1
  {
    hide Reachable, Apply, RunFrom;
    ReachesOn(c, w, e, w');
    DeleteAttempts(c, w', t, s);
    var w2 := Apply(c, w', Delete(t)).value;
    RunHead(c, w', Delete(t), w2, []);
    RunNone(c, w2);
    assert [Delete(t)] + [] == [Delete(t)];
    RunHead(c, w, e, w', [Delete(t)]);
  }

  lemma WaitingComesDeleted(c: Config, w: World, t: TaskId, port: nat, s: Session)
    requires Reachable(c, w) && At(w, t) == Some(Waiting(port, s))
    ensures var w' := RunFrom(c, w, [TimeOut(t)] + [Delete(t)]);
            && w'.Some? && s in w'.value.attempts && w'.value.attempts[s] == 1
  {
    hide Reachable, RunFrom;
    ConnKnown(c, w, t);
    OneMoreStep(c, w, t, TimeOut(t), Apply(c, w, TimeOut(t)).value, s);
  }

  lemma StoppingComesDeleted(c: Config, w: World, t: TaskId, port: nat, s: Session)
    requires Reachable(c, w) && At(w, t) == Some(Stopping(port, s))
    ensures var w' := RunFrom(c, w, [TakeReceiver(t)] + ([TimeOut(t)] + [Delete(t)]));
            && w'.Some? && s in w'.value.attempts && w'.value.attempts[s] == 1
  {
    hide Reachable, RunFrom;
    ShutdownAlwaysWaits(c, w, t, port, s);
    var w' := Apply(c, w, TakeReceiver(t)).value;
    ReachesOn(c, w, TakeReceiver(t), w');
    WaitingComesDeleted(c, w', t, port, s);
    RunHead(c, w, TakeReceiver(t), w', [TimeOut(t)] + [Delete(t)]);
  }

  lemma DeletingComesDeleted(c: Config, w: World, t: TaskId, s: Session)
    requires Reachable(c, w) && At(w, t) == Some(Deleting(s))
    ensures var w' := RunFrom(c, w, [Delete(t)]);
            && w'.Some? && s in w'.value.attempts && w'.value.attempts[s] == 1
  {
    hide Reachable, RunFrom, Apply;
    DeleteAttempts(c, w, t, s);
    var w' := Apply(c, w, Delete(t)).value;
    RunHead(c, w, Delete(t), w', []);
    RunNone(c, w');
    assert [Delete(t)] + [] == [Delete(t)];
  }

  /**
   * Whoever removed a tunnel can go on by itself to the one attempt at deleting its DNS record,
   * even if the listener never stops.
   */
  lemma RemovedComesDeleted(c: Config, w: World, t: TaskId)
    requires Reachable(c, w) && At(w, t).Some? && Carried(At(w, t)).Some? && !At(w, t).value.Conn?
    ensures var s, events := Carried(At(w, t)).value, ToDelete(At(w, t).value, t);
            && AllBy(events, t) && RunFrom(c, w, events).Some?
            && s in RunFrom(c, w, events).value.attempts
            && RunFrom(c, w, events).value.attempts[s] == 1
  {
    hide Reachable, RunFrom;
    var task := At(w, t).value;
    var s := Carried(At(w, t)).value;
    match task
    case Stopping(port, _) => StoppingComesDeleted(c, w, t, port, s);
    case Waiting(port, _) => WaitingComesDeleted(c, w, t, port, s);
    case Withdrawing(_, _) =>
      OneMoreStep(c, w, t, ListenerReleases(t), Apply(c, w, ListenerReleases(t)).value, s);
    case Deleting(_) => DeletingComesDeleted(c, w, t, s);
  }
}
