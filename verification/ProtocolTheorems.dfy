/** What the invariant means for every run of the registration protocol. */
module ProtocolTheorems {
  import opened Sequences
  import opened Registry
  import opened Protocol
  import opened ProtocolInvariant
  import opened ProtocolParts
  import opened ProtocolSteps

  ghost predicate Reachable(c: Config, w: World) {
    exists events :: Run(c, events) == Some(w)
  }

  lemma {:induction false} RunKeeps(c: Config, events: seq<Event>) returns (b: Book)
    requires Run(c, events).Some?
    ensures Inv(c, Run(c, events).value, b)
    decreases |events|
  {
    hide Inv, Apply;
    if events == [] {
      InitHolds(c);
      b := Book(map[], map[], map[]);
    } else {
      var before := events[..|events| - 1];
      var b0 := RunKeeps(c, before);
      b := StepKeeps(c, Run(c, before).value, b0, events[|events| - 1], Run(c, events).value);
    }
  }

  lemma {:induction false} Reached(c: Config, w: World) returns (b: Book)
    requires Reachable(c, w)
    ensures Inv(c, w, b)
  {
    hide Inv, Run;
    var events :| Run(c, events) == Some(w);
    b := RunKeeps(c, events);
  }

  // ---- Capacity and exclusion ----

  /** Capacity is never exceeded, no key is both reserved and live, and the gauge is right. */
  lemma RegistryStaysSound(c: Config, w: World)
    requires Reachable(c, w)
    ensures Sound(c, w.reg)
  {
    hide Reachable, Sound, Holders, Carriers, Lives, Listeners, Covered, Receivers, Owned, Shaped;
    var b := Reached(c, w);
  }

  // ---- Reservations ----

  /** Every reservation is held by exactly one task, in whose name it stands, and by no other. */
  lemma OneHolder(c: Config, w: World, k: Key)
    requires Reachable(c, w)
    ensures k in w.reg.reservations <==> exists t :: Held(At(w, t)).Some? && Held(At(w, t)).value.key == k
    ensures forall t, u | Held(At(w, t)).Some? && Held(At(w, u)).Some?
                          && Held(At(w, t)).value.key == k == Held(At(w, u)).value.key :: t == u
    ensures forall t | Held(At(w, t)).Some? && Held(At(w, t)).value.key == k ::
              ReservedBy(w.reg, k, Held(At(w, t)).value.owner)
  {
    hide Reachable, Sound, Carriers, Lives, Listeners, Covered, Receivers, Owned, Shaped, Held, At;
    var b := Reached(c, w);
    if k in w.reg.reservations {
      assert Held(At(w, b.holder[k])).Some?;
    }
  }

  /** The task that takes a step; the reaper and new connections have none of their own. */
  function Actor(e: Event): Option<TaskId> {
    match e
    case Connect => None
    case Reap(_, _) => None
    case _ => Some(e.t)
  }

  lemma ConnLeavesOthers(c: Config, w: World, e: Event, t: TaskId, task: Task, w': World, x: TaskId)
    requires task.Conn? && ConnStep(c, w, e, t, task) == Some(w')
    requires x in w.tasks && x < w.next && x != t
    ensures At(w', x) == At(w, x)
  {
    hide ReserveHttp, ReserveTcp, RegisterHttp, RegisterTcp, RemoveHttp, RemoveTcp, Release, Fresh;
  }

  lemma TaskLeavesOthers(w: World, e: Event, t: TaskId, task: Task, w': World, x: TaskId)
    requires TaskStep(w, e, t, task) == Some(w')
    requires x in w.tasks && x < w.next && x != t
    ensures At(w', x) == At(w, x)
  {
    hide RemoveTcp, Release;
  }

  /** A step leaves every other task as it is. */
  lemma OthersStay(c: Config, w: World, e: Event, w': World, x: TaskId)
    requires Apply(c, w, e) == Some(w') && x in w.tasks && x < w.next && Some(x) != Actor(e)
    ensures At(w', x) == At(w, x)
  {
    hide ConnStep, TaskStep, RemoveHttp, RemoveTcp;
    if Actor(e).Some? {
      var task := At(w, e.t).value;
      if task.Conn? {
        ConnLeavesOthers(c, w, e, e.t, task, w', x);
      } else {
        TaskLeavesOthers(w, e, e.t, task, w', x);
      }
    }
  }

  /**
   * No step frees someone else's reservation, whatever ids the clients chose: a task that holds
   * a key and does not itself act still holds it, reserved in its name, after any step.
   */
  lemma HoldersAreSafe(c: Config, w: World, e: Event, w': World, t: TaskId)
    requires Reachable(c, w) && Apply(c, w, e) == Some(w')
    requires Held(At(w, t)).Some? && Some(t) != Actor(e)
    ensures Held(At(w', t)) == Held(At(w, t))
    ensures ReservedBy(w'.reg, Held(At(w, t)).value.key, Held(At(w, t)).value.owner)
  {
    hide Reachable, Inv, Apply, Held, Holders, ReservedBy, Shaped, Settled;
    var b := Reached(c, w);
    InvParts(c, w, b);
    IdsBelow(w, b, t);
    OthersStay(c, w, e, w', t);
    var b' := StepKeeps(c, w, b, e, w');
    InvParts(c, w', b');
    HolderOwns(w', b', t);
  }

  // ---- The commit cannot fail ----

  /** A connection that made its reservation is never refused when it registers. */
  lemma CommitSucceeds(c: Config, w: World, t: TaskId)
    requires Reachable(c, w) && At(w, t).Some? && At(w, t).value.Conn?
    ensures match At(w, t).value.phase
            case HttpBuilt(s) => RegisterHttp(c, w.reg, s).1.Ok?
            case TcpBound(port, s) => RegisterTcp(c, w.reg, port, s).1.Ok?
            case HttpRefused(_) => false
            case TcpRefused(_, _) => false
            case _ => true
  {
    hide Reachable, Inv, At, RegisterHttp, RegisterTcp, Sound, ReservedBy, LiveSession, Shaped;
    var b := Reached(c, w);
    StepStarts(c, w, b, t);
    var task := At(w, t).value;
    if Held(Some(task)).Some? {
      HolderThere(c, w, b, t);
    }
    if task.phase.HttpBuilt? {
      RegisterHttpEffect(c, w.reg, task.phase.s);
    } else if task.phase.TcpBound? {
      RegisterTcpEffect(c, w.reg, task.phase.port, task.phase.s);
    }
  }

  /** A shutdown always finds the receiver to wait on, so no port is released unwaited. */
  lemma ShutdownAlwaysWaits(c: Config, w: World, t: TaskId, port: nat, s: Session)
    requires Reachable(c, w) && At(w, t) == Some(Stopping(port, s))
    ensures s in w.receivers
  {
    hide Reachable, Inv, Settled, At;
    var b := Reached(c, w);
    InvParts(c, w, b);
    ReceiverThere(w, b, t);
  }

  // ---- Ports ----

  /** The port of an open socket is live or reserved. */
  lemma BoundPortCovered(c: Config, w: World, t: TaskId)
    requires Reachable(c, w) && OpenSocket(At(w, t)).Some?
    ensures var p := OpenSocket(At(w, t)).value;
            || LiveSession(w.reg, Tcp(p.port)) == Some(p.s)
            || Tcp(p.port) in w.reg.reservations
  {
    hide Reachable, Sound, Carriers, Lives, Listeners, Receivers, Owned, Shaped, At, LiveSession;
    var b := Reached(c, w);
    var p := OpenSocket(At(w, t)).value;
    if Held(At(w, t)).None? {
      assert Listening(At(w, t)) == Some(p);
      if LiveSession(w.reg, Tcp(p.port)) != Some(p.s) {
        var u := b.holder[Tcp(p.port)];
        assert Held(At(w, u)) == Some(Hold(Tcp(p.port), p.s.id));
      }
    }
  }

  /** A port is never handed out while an old socket is still bound to it. */
  lemma ReservedPortIsUnbound(c: Config, w: World, requested: Option<nat>, owner: string, t: TaskId)
    requires Reachable(c, w)
    requires ReserveTcp(c, w.reg, requested, owner).1.Ok? && OpenSocket(At(w, t)).Some?
    ensures OpenSocket(At(w, t)).value.port != ReserveTcp(c, w.reg, requested, owner).1.value
  {
    hide Reachable, Sound, At, OpenSocket, ReserveTcp;
    RegistryStaysSound(c, w);
    ReserveTcpEffect(c, w.reg, requested, owner);
    BoundPortCovered(c, w, t);
  }

  /** No two sockets are bound to one port. */
  lemma OneSocketPerPort(c: Config, w: World, t: TaskId, u: TaskId)
    requires Reachable(c, w) && t != u
    requires OpenSocket(At(w, t)).Some? && OpenSocket(At(w, u)).Some?
    ensures OpenSocket(At(w, t)).value.port != OpenSocket(At(w, u)).value.port
  {
    hide Reachable, Sound, Carriers, Lives, Receivers, Owned, Shaped, At, LiveSession;
    var b := Reached(c, w);
    SocketStands(c, w, b, t);
    SocketStands(c, w, b, u);
    assert b.listener[OpenSocket(At(w, t)).value.s] == t;
    assert b.listener[OpenSocket(At(w, u)).value.s] == u;
  }

  /** An open socket's port is live for it, or reserved with this very holder. */
  lemma {:induction false} SocketStands(c: Config, w: World, b: Book, t: TaskId)
    requires Inv(c, w, b) && OpenSocket(At(w, t)).Some?
    ensures var p, x := OpenSocket(At(w, t)).value, At(w, t);
            var k := Tcp(p.port);
            if Held(x).Some? then
              k in w.reg.reservations && LiveSession(w.reg, k).None? && b.holder[k] == t
            else
              || (LiveSession(w.reg, k) == Some(p.s) && k !in w.reg.reservations)
              || (LiveSession(w.reg, k).None? && k in w.reg.reservations
                  && ShuttingDown(At(w, b.holder[k])) == Some(p))
  {
    hide Carriers, Lives, Listeners, Receivers, Owned, Shaped, At;
    var p := OpenSocket(At(w, t)).value;
    var k := Tcp(p.port);
    assert k in w.reg.reservations ==> !IsLive(w.reg, k);
    if Held(At(w, t)).Some? {
      assert Held(At(w, t)) == Some(Hold(k, p.s.id));
    } else {
      assert Listening(At(w, t)) == Some(p);
      if LiveSession(w.reg, k) != Some(p.s) {
        assert Held(At(w, b.holder[k])) == Some(Hold(k, p.s.id));
      }
    }
  }

  // ---- Cleanup ----

  /** Once a connection is gone, nothing it registered is in either tunnel map. */
  lemma NothingLeftBehind(c: Config, w: World, conn: TaskId, k: Key)
    requires Reachable(c, w) && At(w, conn).None? && LiveSession(w.reg, k).Some?
    ensures var s := LiveSession(w.reg, k).value;
            s in w.home && w.home[s].key == k && w.home[s].conn != conn
  {
    hide Reachable, Sound, Holders, Carriers, Listeners, Covered, Receivers, Shaped, At, LiveSession;
    var b := Reached(c, w);
  }

  /** Cleanup and reaping take an entry out only for the very session they were given. */
  lemma RemovalNeedsTheSession(w: World, k: Key, s: Session, k': Key)
    requires LiveSession(RemoveAndHand(w, k, s).reg, k') != LiveSession(w.reg, k')
    ensures k' == k && LiveSession(w.reg, k) == Some(s)
  {
  }

  /**
   * The deletion of a session's DNS record is attempted at most once, and exactly once when the
   * session is neither live nor in the hands of a task; never while it is.
   */
  lemma DeletedOnce(c: Config, w: World, s: Session)
    requires Reachable(c, w) && s in w.home
    ensures s in w.attempts && w.attempts[s] <= 1
    ensures w.attempts[s] == 0 <==>
              || LiveSession(w.reg, w.home[s].key) == Some(s)
              || exists t :: Carried(At(w, t)) == Some(s)
    ensures forall t, u | Carried(At(w, t)) == Some(s) == Carried(At(w, u)) :: t == u
  {
    hide Reachable, Sound, Holders, Listeners, Covered, Receivers, Owned, Shaped, At, LiveSession, Carried;
    var b := Reached(c, w);
    if s in b.carrier {
      assert Carried(At(w, b.carrier[s])) == Some(s);
    }
  }
}
