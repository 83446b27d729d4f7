/**
 * No reservation is leaked: whoever waits for a listener to stop waits for one that will signal,
 * and every reserved key can be freed by its holder and that listener alone.
 */
module ProtocolProgress {
  import opened Sequences
  import opened Registry
  import opened Protocol
  import opened ProtocolInvariant
  import opened ProtocolParts
  import opened ProtocolSteps
  import opened ProtocolTheorems

  // ---- Every listener that is waited for will signal ----

  /** The listener has signalled, or is still there to do it. */
  ghost predicate WillSignal(w: World, p: Place) {
    p.s in w.stopped || exists u: TaskId :: Listening(At(w, u)) == Some(p)
  }

  ghost predicate LiveWillSignal(w: World) {
    forall port: nat | LiveSession(w.reg, Tcp(port)).Some? ::
      WillSignal(w, Place(port, LiveSession(w.reg, Tcp(port)).value))
  }

  ghost predicate DownWillSignal(w: World) {
    forall t: TaskId | ShuttingDown(At(w, t)).Some? :: WillSignal(w, ShuttingDown(At(w, t)).value)
  }

  /** A published TCP tunnel has its listener, until that has signalled. */
  ghost predicate Heard(w: World) {
    LiveWillSignal(w) && DownWillSignal(w)
  }

  lemma ConnKeepsStopped(c: Config, w: World, e: Event, t: TaskId, task: Task, w': World)
    requires task.Conn? && ConnStep(c, w, e, t, task) == Some(w')
    ensures w.stopped == w'.stopped
  {
    hide ReserveHttp, ReserveTcp, RegisterHttp, RegisterTcp, RemoveHttp, RemoveTcp, Release, Fresh;
  }

  lemma TaskKeepsStopped(w: World, e: Event, t: TaskId, task: Task, w': World)
    requires TaskStep(w, e, t, task) == Some(w')
    ensures w.stopped <= w'.stopped
  {
    hide RemoveTcp, Release;
  }

  /** A signal, once given, stays given. */
  lemma StoppedGrows(c: Config, w: World, e: Event, w': World)
    requires Apply(c, w, e) == Some(w')
    ensures w.stopped <= w'.stopped
  {
    hide ConnStep, TaskStep, RemoveHttp, RemoveTcp;
    if Actor(e).Some? {
      var task := At(w, e.t).value;
      if task.Conn? {
        ConnKeepsStopped(c, w, e, e.t, task, w');
      } else {
        TaskKeepsStopped(w, e, e.t, task, w');
      }
    }
  }

  /** The step of a listener itself: it passes on the role, or signals. */
  lemma ListenerSteps(c: Config, w: World, e: Event, w': World, u: TaskId, p: Place)
    requires Apply(c, w, e) == Some(w') && Actor(e) == Some(u) && u < w.next
    requires Listening(At(w, u)) == Some(p)
    ensures p.s in w'.stopped || Listening(At(w', u)) == Some(p) || Listening(At(w', w.next)) == Some(p)
  {
    hide ReserveHttp, ReserveTcp, RegisterHttp, RegisterTcp, RemoveHttp, RemoveTcp, Release, Fresh;
  }

  lemma SignalStays(c: Config, w: World, b: Book, e: Event, w': World, p: Place)
    requires Inv(c, w, b) && Apply(c, w, e) == Some(w') && WillSignal(w, p)
    ensures WillSignal(w', p)
  {
    hide Apply, Listening, At, Sound, Holders, Covered, Settled;
    StoppedGrows(c, w, e, w');
    if p.s !in w.stopped {
      var u: TaskId :| Listening(At(w, u)) == Some(p);
      TaskKnown(c, w, b, u);
      if Actor(e) == Some(u) {
        ListenerSteps(c, w, e, w', u, p);
      } else {
        OthersStay(c, w, e, w', u);
      }
    }
  }

  lemma TaskKnown(c: Config, w: World, b: Book, t: TaskId)
    requires Inv(c, w, b)
    ensures Listening(At(w, t)).Some? || ShuttingDown(At(w, t)).Some? || Held(At(w, t)).Some?
            ==> t in w.tasks && t < w.next
  {
    hide Sound, Holders, Carriers, Lives, Listeners, Covered, Receivers, Owned, Fits;
  }

  // ---- What comes to be waited for was waited for, or has a listener ----

  /** The map entry is an old one, or the step's own new listener stands behind it. */
  ghost predicate LiveExplained(w: World, w': World, port: nat) {
    LiveSession(w'.reg, Tcp(port)).Some? ==>
      || LiveSession(w'.reg, Tcp(port)) == LiveSession(w.reg, Tcp(port))
      || exists u: TaskId ::
           Listening(At(w', u)) == Some(Place(port, LiveSession(w'.reg, Tcp(port)).value))
  }

  lemma RemovalExplained(w: World, k: Key, s: Session, port: nat)
    ensures LiveExplained(w, RemoveAndHand(w, k, s), port)
  {
  }

  lemma RegisterExplained(c: Config, w: World, t: TaskId, w': World, port: nat)
    requires At(w, t).Some? && At(w, t).value.Conn? && Apply(c, w, Register(t)) == Some(w')
    ensures LiveExplained(w, w', port)
  {
    var task := At(w, t).value;
    if task.phase.TcpBound? {
      assert At(w', t).Some?;
    }
  }

  lemma ConnExplained(c: Config, w: World, e: Event, t: TaskId, task: Task, w': World, port: nat)
    requires task.Conn? && ConnStep(c, w, e, t, task) == Some(w') && !e.Register? && !e.CleanNext?
    ensures LiveExplained(w, w', port)
  {
    hide RegisterHttp, RegisterTcp, RemoveHttp, RemoveTcp, Fresh, FirstFree, AtCapacity, PortFree;
  }

  lemma TaskExplained(w: World, e: Event, t: TaskId, task: Task, w': World, port: nat)
    requires TaskStep(w, e, t, task) == Some(w')
    ensures LiveExplained(w, w', port)
  {
  }

  lemma StepExplained(c: Config, w: World, e: Event, w': World, port: nat)
    requires Apply(c, w, e) == Some(w')
    ensures LiveExplained(w, w', port)
  {
    hide ConnStep, TaskStep, RemoveAndHand, LiveExplained;
    if e.Connect? {
      SameLive(w, w', port);
    } else if e.Reap? {
      RemovalExplained(w, e.key, e.s, port);
    } else {
      var t := e.t;
      var task := At(w, t).value;
      if !task.Conn? {
        TaskExplained(w, e, t, task, w', port);
      } else if e.Register? {
        RegisterExplained(c, w, t, w', port);
      } else if e.CleanNext? {
        CleanExplained(c, w, t, task, w', port);
      } else {
        ConnExplained(c, w, e, t, task, w', port);
      }
    }
  }

  lemma SameLive(w: World, w': World, port: nat)
    requires w'.reg == w.reg
    ensures LiveExplained(w, w', port)
  {
  }

  lemma CleanExplained(c: Config, w: World, t: TaskId, task: Task, w': World, port: nat)
    requires task.Conn? && ConnStep(c, w, CleanNext(t), t, task) == Some(w')
    ensures LiveExplained(w, w', port)
  {
    hide RemoveAndHand;
    var todo := task.phase.todo;
    var w1 := Becomes(w, t, task.(phase := Cleaning(todo[1..])));
    RemovalExplained(w1, todo[0].key, todo[0].s, port);
  }

  /** The shutdown was under way, or has just taken the tunnel out of the map. */
  ghost predicate DownExplained(w: World, w': World, t: TaskId) {
    ShuttingDown(At(w', t)).Some? ==>
      var p := ShuttingDown(At(w', t)).value;
      || LiveSession(w.reg, Tcp(p.port)) == Some(p.s)
      || exists u: TaskId :: ShuttingDown(At(w, u)) == Some(p)
  }

  lemma RemovalStarts(w: World, k: Key, s: Session, t: TaskId)
    ensures DownExplained(w, RemoveAndHand(w, k, s), t)
  {
    var w' := RemoveAndHand(w, k, s);
    if t != w.next && ShuttingDown(At(w', t)).Some? {
      assert ShuttingDown(At(w, t)) == ShuttingDown(At(w', t));
    }
  }

  lemma ConnStarts(c: Config, w: World, e: Event, t: TaskId, task: Task, w': World, x: TaskId)
    requires task.Conn? && ConnStep(c, w, e, t, task) == Some(w') && !e.CleanNext?
    ensures DownExplained(w, w', x)
  {
    hide ReserveHttp, ReserveTcp, RegisterHttp, RegisterTcp, Release, Fresh, LiveSession;
    if ShuttingDown(At(w', x)).Some? {
      assert ShuttingDown(At(w, x)) == ShuttingDown(At(w', x));
    }
  }

  lemma CleanStarts(c: Config, w: World, t: TaskId, task: Task, w': World, x: TaskId)
    requires task.Conn? && ConnStep(c, w, CleanNext(t), t, task) == Some(w') && At(w, t) == Some(task)
    ensures DownExplained(w, w', x)
  {
    hide RemoveAndHand, LiveSession;
    var todo := task.phase.todo;
    var w1 := Becomes(w, t, task.(phase := Cleaning(todo[1..])));
    RemovalStarts(w1, todo[0].key, todo[0].s, x);
    forall u: TaskId | ShuttingDown(At(w1, u)).Some?
      ensures ShuttingDown(At(w1, u)) == ShuttingDown(At(w, u)) {
    }
  }

  lemma TaskStarts(w: World, e: Event, t: TaskId, task: Task, w': World, x: TaskId)
    requires TaskStep(w, e, t, task) == Some(w') && At(w, t) == Some(task)
    ensures DownExplained(w, w', x)
  {
    hide RemoveTcp, Release, LiveSession;
    if ShuttingDown(At(w', x)).Some? {
      if x != t && x == w.next && e.TimeOut? {
        assert ShuttingDown(At(w, t)) == ShuttingDown(At(w', x));
      } else {
        assert ShuttingDown(At(w, x)) == ShuttingDown(At(w', x));
      }
    }
  }

  lemma StepStartsDown(c: Config, w: World, e: Event, w': World, x: TaskId)
    requires Apply(c, w, e) == Some(w')
    ensures DownExplained(w, w', x)
  {
    hide ConnStep, TaskStep, RemoveAndHand, DownExplained;
    if e.Connect? {
      ConnectStarts(w, x);
    } else if e.Reap? {
      RemovalStarts(w, e.key, e.s, x);
    } else {
      var t := e.t;
      var task := At(w, t).value;
      if !task.Conn? {
        TaskStarts(w, e, t, task, w', x);
      } else if e.CleanNext? {
        CleanStarts(c, w, t, task, w', x);
      } else {
        ConnStarts(c, w, e, t, task, w', x);
      }
    }
  }

  lemma ConnectStarts(w: World, x: TaskId)
    ensures DownExplained(w, Starts(w, Conn(Ready, [], [])), x)
  {
    var w' := Starts(w, Conn(Ready, [], []));
    if ShuttingDown(At(w', x)).Some? {
      assert ShuttingDown(At(w, x)) == ShuttingDown(At(w', x));
    }
  }

  lemma HeardKeeps(c: Config, w: World, b: Book, e: Event, w': World)
    requires Inv(c, w, b) && Heard(w) && Apply(c, w, e) == Some(w')
    ensures Heard(w')
  {
    hide Inv, Apply, At, LiveSession, ShuttingDown, WillSignal;
    forall port: nat | LiveSession(w'.reg, Tcp(port)).Some?
      ensures WillSignal(w', Place(port, LiveSession(w'.reg, Tcp(port)).value))
    {
      StepExplained(c, w, e, w', port);
      LiveStays(c, w, b, e, w', port);
    }
    forall t: TaskId | ShuttingDown(At(w', t)).Some?
      ensures WillSignal(w', ShuttingDown(At(w', t)).value)
    {
      StepStartsDown(c, w, e, w', t);
      DownStays(c, w, b, e, w', t);
    }
  }

  lemma LiveStays(c: Config, w: World, b: Book, e: Event, w': World, port: nat)
    requires Inv(c, w, b) && LiveWillSignal(w) && Apply(c, w, e) == Some(w')
    requires LiveExplained(w, w', port) && LiveSession(w'.reg, Tcp(port)).Some?
    ensures WillSignal(w', Place(port, LiveSession(w'.reg, Tcp(port)).value))
  {
    hide Inv, Apply, At, LiveSession, Listening;
    var p := Place(port, LiveSession(w'.reg, Tcp(port)).value);
    if LiveSession(w'.reg, Tcp(port)) == LiveSession(w.reg, Tcp(port)) {
      SignalStays(c, w, b, e, w', p);
    }
  }

  lemma DownStays(c: Config, w: World, b: Book, e: Event, w': World, t: TaskId)
    requires Inv(c, w, b) && Heard(w) && Apply(c, w, e) == Some(w')
    requires DownExplained(w, w', t) && ShuttingDown(At(w', t)).Some?
    ensures WillSignal(w', ShuttingDown(At(w', t)).value)
  {
    hide Inv, Apply, At, LiveSession, ShuttingDown, WillSignal;
    SignalStays(c, w, b, e, w', ShuttingDown(At(w', t)).value);
  }

  lemma {:induction false} RunHeard(c: Config, events: seq<Event>)
    requires Run(c, events).Some?
    ensures Heard(Run(c, events).value)
    decreases |events|
  {
    hide Inv, Apply, Heard;
    if events == [] {
      assert Heard(INIT) by { NothingWaits(); }
    } else {
      var before := events[..|events| - 1];
      RunHeard(c, before);
      var b := RunKeeps(c, before);
      HeardKeeps(c, Run(c, before).value, b, events[|events| - 1], Run(c, events).value);
    }
  }

  lemma NothingWaits()
    ensures Heard(INIT)
  {
  }

  /**
   * In every reachable state the listener of a live TCP tunnel, and the one a shutdown waits for,
   * has signalled or is still there to signal.
   */
  lemma ListenersWillSignal(c: Config, w: World)
    requires Reachable(c, w)
    ensures forall port: nat | LiveSession(w.reg, Tcp(port)).Some? ::
              WillSignal(w, Place(port, LiveSession(w.reg, Tcp(port)).value))
    ensures forall t: TaskId | ShuttingDown(At(w, t)).Some? ::
              WillSignal(w, ShuttingDown(At(w, t)).value)
  {
    hide Run, At, LiveSession, ShuttingDown, WillSignal;
    var events :| Run(c, events) == Some(w);
    RunHeard(c, events);
  }

  // ---- Every reservation can be freed ----

  /** A step of a task that holds the key, or listens on its port. */
  predicate Concerned(w: World, e: Event, k: Key) {
    && Actor(e).Some?
    && var x := At(w, Actor(e).value);
       || (Held(x).Some? && Held(x).value.key == k)
       || (Listening(x).Some? && Tcp(Listening(x).value.port) == k)
  }

  /** A run that only tasks concerned with the key take part in. */
  function RunFor(c: Config, w: World, events: seq<Event>, k: Key): Option<World>
    decreases |events|
  {
    if events == [] then Some(w)
    else if !Concerned(w, events[0], k) then None
    else match Apply(c, w, events[0])
         case None => None
         case Some(w') => RunFor(c, w', events[1..], k)
  }

  ghost predicate Frees(c: Config, w: World, events: seq<Event>, k: Key) {
    RunFor(c, w, events, k).Some? && k !in RunFor(c, w, events, k).value.reg.reservations
  }

  lemma StepThenFrees(c: Config, w: World, e: Event, w': World, rest: seq<Event>, k: Key)
    requires Concerned(w, e, k) && Apply(c, w, e) == Some(w') && Frees(c, w', rest, k)
    ensures Frees(c, w, [e] + rest, k)
  {
    hide Concerned, Apply;
    assert ([e] + rest)[1..] == rest;
  }

  lemma StepFrees(c: Config, w: World, e: Event, w': World, k: Key)
    requires Concerned(w, e, k) && Apply(c, w, e) == Some(w') && k !in w'.reg.reservations
    ensures Frees(c, w, [e], k)
  {
    hide Concerned, Apply;
    assert RunFor(c, w', [], k) == Some(w');
    assert [e][1..] == [];
  }

  lemma {:induction false} ReachesOn(c: Config, w: World, e: Event, w': World)
    requires Reachable(c, w) && Apply(c, w, e) == Some(w')
    ensures Reachable(c, w')
  {
    hide Apply;
    var events :| Run(c, events) == Some(w);
    var more := events + [e];
    assert more[..|more| - 1] == events;
    assert Run(c, more) == Some(w');
  }

  /** What is known of a task that holds a key in a reachable state. */
  lemma HolderKnown(c: Config, w: World, t: TaskId)
    requires Reachable(c, w) && Held(At(w, t)).Some?
    ensures t in w.tasks && t < w.next
    ensures ReservedBy(w.reg, Held(At(w, t)).value.key, Held(At(w, t)).value.owner)
  {
    hide Reachable, Inv, Held, At, ReservedBy;
    OneHolder(c, w, Held(At(w, t)).value.key);
    var b := Reached(c, w);
    TaskKnown(c, w, b, t);
  }

  lemma OtherStays(c: Config, w: World, e: Event, w': World, t: TaskId)
    requires Reachable(c, w) && Apply(c, w, e) == Some(w')
    requires Held(At(w, t)).Some? && Actor(e) != Some(t)
    ensures At(w', t) == At(w, t)
  {
    hide Reachable, Apply, Held, At;
    HolderKnown(c, w, t);
    OthersStay(c, w, e, w', t);
  }

  /** A shutdown that is waiting, in its own task or in the one that took over. */
  predicate WaitsFor(task: Option<Task>, p: Place) {
    task == Some(Waiting(p.port, p.s)) || task == Some(Retained(p.port, p.s))
  }

  lemma SawStopFrees(c: Config, w: World, t: TaskId, p: Place)
    requires Reachable(c, w) && WaitsFor(At(w, t), p) && p.s in w.stopped
    ensures Frees(c, w, [SawStop(t)], Tcp(p.port))
  {
    hide Reachable, Frees;
    HolderKnown(c, w, t);
    var w' := Apply(c, w, SawStop(t)).value;
    StepFrees(c, w, SawStop(t), w', Tcp(p.port));
  }

  function ListenerRank(task: Option<Task>): nat {
    match task
    case Some(Conn(TcpPublished(_, _), _, _)) => 3
    case Some(Serving(_, _)) => 2
    case Some(Dropped(_, _)) => 1
    case _ => 0
  }

  /** What a listener does next, and who is the listener then. */
  function ListenerStep(w: World, u: TaskId): (Event, TaskId) {
    match At(w, u)
    case Some(Conn(_, _, _)) => (Spawn(u), w.next)
    case Some(Serving(_, _)) => (ServeEnds(u), u)
    case _ => (Signal(u), u)
  }

  lemma ListenerCanStep(c: Config, w: World, u: TaskId, p: Place)
    requires Listening(At(w, u)) == Some(p)
    ensures var (e, u') := ListenerStep(w, u);
            && Actor(e) == Some(u) && Apply(c, w, e).Some?
            && var w' := Apply(c, w, e).value;
               if ListenerRank(At(w, u)) == 1 then p.s in w'.stopped
               else
                 Listening(At(w', u')) == Some(p)
                 && ListenerRank(At(w', u')) + 1 == ListenerRank(At(w, u))
    ensures 1 <= ListenerRank(At(w, u)) <= 3
  {
  }

  /** Its listener's remaining steps, and then its own, end a shutdown's wait. */
  lemma {:induction false} WaitEnds(c: Config, w: World, t: TaskId, u: TaskId, p: Place)
      returns (events: seq<Event>)
    requires Reachable(c, w) && WaitsFor(At(w, t), p) && Listening(At(w, u)) == Some(p)
    ensures Frees(c, w, events, Tcp(p.port)) && |events| <= ListenerRank(At(w, u)) + 1
    decreases ListenerRank(At(w, u))
  {
    hide Reachable, Apply, Frees, At, Listening, ListenerRank, ListenerStep, Actor;
    var (e, u') := ListenerStep(w, u);
    ListenerCanStep(c, w, u, p);
    var w' := Apply(c, w, e).value;
    assert Held(At(w, t)).Some? && t != u by { NotBoth(At(w, t), At(w, u), p); }
    OtherStays(c, w, e, w', t);
    ReachesOn(c, w, e, w');
    var rest: seq<Event>;
    if ListenerRank(At(w, u)) == 1 {
      SawStopFrees(c, w', t, p);
      rest := [SawStop(t)];
    } else {
      rest := WaitEnds(c, w', t, u', p);
    }
    StepThenFrees(c, w, e, w', rest, Tcp(p.port));
    events := [e] + rest;
  }

  lemma NotBoth(task: Option<Task>, other: Option<Task>, p: Place)
    requires WaitsFor(task, p) && Listening(other) == Some(p)
    ensures Held(task).Some? && task != other
  {
  }

  lemma {:induction false} WaitingComesFree(c: Config, w: World, t: TaskId, p: Place)
      returns (events: seq<Event>)
    requires Reachable(c, w) && WaitsFor(At(w, t), p)
    ensures Frees(c, w, events, Tcp(p.port)) && |events| <= 4
  {
    hide Reachable, Frees, Listening, ListenerRank, Apply, At;
    ListenersWillSignal(c, w);
    assert ShuttingDown(At(w, t)) == Some(p);
    if p.s in w.stopped {
      SawStopFrees(c, w, t, p);
      events := [SawStop(t)];
    } else {
      var u: TaskId :| Listening(At(w, u)) == Some(p);
      ListenerCanStep(c, w, u, p);
      events := WaitEnds(c, w, t, u, p);
    }
  }

  lemma {:induction false} StoppingComesFree(c: Config, w: World, t: TaskId, p: Place)
      returns (events: seq<Event>)
    requires Reachable(c, w) && At(w, t) == Some(Stopping(p.port, p.s))
    ensures Frees(c, w, events, Tcp(p.port)) && |events| <= 5
  {
    hide Reachable, Frees;
    ShutdownAlwaysWaits(c, w, t, p.port, p.s);
    var w' := Apply(c, w, TakeReceiver(t)).value;
    ReachesOn(c, w, TakeReceiver(t), w');
    var rest := WaitingComesFree(c, w', t, p);
    StepThenFrees(c, w, TakeReceiver(t), w', rest, Tcp(p.port));
    events := [TakeReceiver(t)] + rest;
  }

  /** A handler's reservation is freed by its next step, whether setup fails or registers. */
  function HandlerStep(task: Task, t: TaskId): Event {
    if task.Withdrawing? then ListenerReleases(t)
    else if task.Conn? && (task.phase.HttpBuilt? || task.phase.TcpBound?) then Register(t)
    else GiveUp(t)
  }

  lemma HandlerComesFree(c: Config, w: World, t: TaskId)
    requires Reachable(c, w) && Held(At(w, t)).Some? && ShuttingDown(At(w, t)).None?
    ensures Frees(c, w, [HandlerStep(At(w, t).value, t)], Held(At(w, t)).value.key)
  {
    hide Reachable, Frees, RegisterHttp, RegisterTcp, ReservedBy, Release;
    HolderKnown(c, w, t);
    var task := At(w, t).value;
    var h, e := Held(At(w, t)).value, HandlerStep(task, t);
    if e.Register? {
      RegisterFrees(c, w, t);
    } else {
      ReleaseFrees(w.reg, h);
    }
    StepFrees(c, w, e, Apply(c, w, e).value, h.key);
  }

  lemma ReleaseFrees(r: Reg, h: Hold)
    requires ReservedBy(r, h.key, h.owner)
    ensures h.key !in Release(r, h.key, h.owner).reservations
  {
  }

  lemma RegisterFrees(c: Config, w: World, t: TaskId)
    requires Reachable(c, w) && Held(At(w, t)).Some? && At(w, t).value.Conn?
    requires At(w, t).value.phase.HttpBuilt? || At(w, t).value.phase.TcpBound?
    ensures Apply(c, w, Register(t)).Some?
    ensures Held(At(w, t)).value.key !in Apply(c, w, Register(t)).value.reg.reservations
  {
    hide Reachable, Sound, ReservedBy, LiveSession, RegisterHttp, RegisterTcp, LiveExcept;
    HolderKnown(c, w, t);
    RegistryStaysSound(c, w);
    var phase := At(w, t).value.phase;
    if phase.HttpBuilt? {
      RegisterHttpEffect(c, w.reg, phase.s);
    } else {
      RegisterTcpEffect(c, w.reg, phase.port, phase.s);
    }
  }

  /**
   * No reservation is leaked: from every reachable state at most five steps of the key's holder
   * and of the listener on its port consume or release it, whatever all others do or do not.
   */
  lemma {:induction false} ReservationComesFree(c: Config, w: World, k: Key)
      returns (events: seq<Event>)
    requires Reachable(c, w) && k in w.reg.reservations
    ensures RunFor(c, w, events, k).Some? && |events| <= 5
    ensures k !in RunFor(c, w, events, k).value.reg.reservations
  {
    hide Reachable, RunFor, At;
    OneHolder(c, w, k);
    var t :| Held(At(w, t)).Some? && Held(At(w, t)).value.key == k;
    var down := ShuttingDown(At(w, t));
    if down.None? {
      HandlerComesFree(c, w, t);
      events := [HandlerStep(At(w, t).value, t)];
    } else if At(w, t).value.Stopping? {
      events := StoppingComesFree(c, w, t, down.value);
    } else {
      events := WaitingComesFree(c, w, t, down.value);
    }
  }
}
