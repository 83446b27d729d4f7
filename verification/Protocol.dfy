/**
 * Everything that runs against the registry at once: control connections registering tunnels in
 * two phases and cleaning up, the idle reaper, listener tasks, shutdowns waiting for a listener,
 * and the tasks that keep a reservation after such a wait timed out. Each registry operation is
 * one step; between steps anything may interleave.
 */
module Protocol {
  import opened Sequences
  import opened Registry

  type TaskId = nat

  /** Where a connection is. Its handler runs inside its loop, so one message at a time. */
  datatype Phase =
    | Ready
    | HttpReserved(name: string, id: string)
    | HttpBuilt(s: Session)
    | HttpRefused(s: Session)
    | TcpReserved(port: nat, id: string)
    | TcpBound(port: nat, s: Session)
    | TcpRefused(port: nat, s: Session)
    | TcpPublished(port: nat, s: Session)
    | Cleaning(todo: seq<Entry>)

  datatype Entry = Entry(key: Key, s: Session)

  datatype Task =
    | Conn(phase: Phase, names: seq<Entry>, ports: seq<Entry>)
    // shutdown_tcp_tunnel_if_owner, after it removed the tunnel
    | Stopping(port: nat, s: Session)
    | Waiting(port: nat, s: Session)
    | Retained(port: nat, s: Session)
    // whoever obtained a removed session, before its delete_dns_record
    | Deleting(s: Session)
    // the listener task
    | Serving(port: nat, s: Session)
    | Dropped(port: nat, s: Session)
    | Signalled(port: nat, s: Session)
    | Withdrawing(port: nat, s: Session)

  /** Which key a session was made for, and by which connection. */
  datatype Origin = Origin(key: Key, conn: TaskId)

  datatype World = World(
    reg: Reg,
    tasks: map<TaskId, Task>,
    next: TaskId,
    home: map<Session, Origin>,
    receivers: set<Session>,        // sessions whose listener_stopped still holds its receiver
    stopped: set<Session>,          // sessions whose listener has signalled
    attempts: map<Session, nat>)    // how often a session's DNS record deletion was attempted

  const INIT: World := World(EMPTY, map[], 0, map[], {}, {}, map[])

  datatype Event =
    | Connect
    | AskHttp(t: TaskId, name: string, id: string)
    | AskTcp(t: TaskId, requested: Option<nat>, id: string)
    | GiveUp(t: TaskId)                     // hashing, DNS creation or bind failed
    | Build(t: TaskId, s: Session)          // DNS record made, session allocated
    | Bind(t: TaskId, s: Session)           // listener bound, session allocated
    | Register(t: TaskId)
    | Withdraw(t: TaskId)                   // the error path after a refused registration
    | Spawn(t: TaskId)                      // the listener task takes the socket
    | Disconnect(t: TaskId)
    | CleanNext(t: TaskId)
    | Close(t: TaskId)
    | Reap(key: Key, s: Session)
    | TakeReceiver(t: TaskId)
    | SawStop(t: TaskId)
    | TimeOut(t: TaskId)
    | Delete(t: TaskId)
    | ServeEnds(t: TaskId)
    | Signal(t: TaskId)
    | ListenerRemoves(t: TaskId)
    | ListenerReleases(t: TaskId)

  function At(w: World, t: TaskId): Option<Task> {
    if t in w.tasks then Some(w.tasks[t]) else None
  }

  function Becomes(w: World, t: TaskId, task: Task): World {
    w.(tasks := w.tasks[t := task])
  }

  function Ends(w: World, t: TaskId): World {
    w.(tasks := w.tasks - {t})
  }

  function Starts(w: World, task: Task): World {
    w.(tasks := w.tasks[w.next := task], next := w.next + 1)
  }

  predicate Fresh(w: World, s: Session, id: string) {
    s !in w.home && s.id == id
  }

  /** Removing a live tunnel hands its session to a new task, which finishes the shutdown. */
  function RemoveAndHand(w: World, k: Key, s: Session): World {
    match k
    case Http(name) =>
      var (reg, removed) := RemoveHttp(w.reg, name, Some(s));
      if removed.None? then w else Starts(w.(reg := reg), Deleting(s))
    case Tcp(port) =>
      var (reg, removed) := RemoveTcp(w.reg, port, s);
      if removed.None? then w else Starts(w.(reg := reg), Stopping(port, s))
  }

  function Attempted(w: World, s: Session): World {
    if s in w.attempts then w.(attempts := w.attempts[s := w.attempts[s] + 1]) else w
  }

  // ---- The steps of a connection ----

  function ConnStep(c: Config, w: World, e: Event, t: TaskId, task: Task): Option<World>
    requires task.Conn?
  {
    match (e, task.phase)
    case (AskHttp(_, name, id), Ready) =>
      var (reg, result) := ReserveHttp(c, w.reg, name, id);
      if result.Err? then Some(w)
      else Some(Becomes(w.(reg := reg), t, task.(phase := HttpReserved(name, id))))
    case (AskTcp(_, requested, id), Ready) =>
      var (reg, result) := ReserveTcp(c, w.reg, requested, id);
      if result.Err? then Some(w)
      else Some(Becomes(w.(reg := reg), t, task.(phase := TcpReserved(result.value, id))))
    case (GiveUp(_), HttpReserved(name, id)) =>
      Some(Becomes(w.(reg := Release(w.reg, Http(name), id)), t, task.(phase := Ready)))
    case (GiveUp(_), TcpReserved(port, id)) =>
      Some(Becomes(w.(reg := Release(w.reg, Tcp(port), id)), t, task.(phase := Ready)))
    case (Build(_, s), HttpReserved(name, id)) =>
      if !Fresh(w, s, id) || s.subdomain != name then None
      else
        Some(Becomes(w.(home := w.home[s := Origin(Http(name), t)], attempts := w.attempts[s := 0]),
                     t, task.(phase := HttpBuilt(s))))
    case (Bind(_, s), TcpReserved(port, id)) =>
      if !Fresh(w, s, id) then None
      else
        Some(Becomes(w.(home := w.home[s := Origin(Tcp(port), t)], attempts := w.attempts[s := 0],
                        receivers := w.receivers + {s}),
                     t, task.(phase := TcpBound(port, s))))
    case (Register(_), HttpBuilt(s)) =>
      var (reg, result) := RegisterHttp(c, w.reg, s);
      if result.Err? then Some(Becomes(w, t, task.(phase := HttpRefused(s))))
      else
        Some(Becomes(w.(reg := reg), t,
                     task.(phase := Ready, names := task.names + [Entry(Http(s.subdomain), s)])))
    case (Register(_), TcpBound(port, s)) =>
      var (reg, result) := RegisterTcp(c, w.reg, port, s);
      if result.Err? then Some(Becomes(w, t, task.(phase := TcpRefused(port, s))))
      else
        Some(Becomes(w.(reg := reg), t,
                     task.(phase := TcpPublished(port, s), ports := task.ports + [Entry(Tcp(port), s)])))
    case (Withdraw(_), HttpRefused(s)) =>
      Some(Attempted(Becomes(w.(reg := Release(w.reg, Http(s.subdomain), s.id)), t,
                             task.(phase := Ready)), s))
    case (Withdraw(_), TcpRefused(port, s)) =>
      Some(Becomes(w.(reg := Release(w.reg, Tcp(port), s.id)), t, task.(phase := Ready)))
    case (Spawn(_), TcpPublished(port, s)) =>
      Some(Starts(Becomes(w, t, task.(phase := Ready)), Serving(port, s)))
    case (Disconnect(_), Ready) =>
      Some(Becomes(w, t, task.(phase := Cleaning(task.names + task.ports))))
    case (CleanNext(_), Cleaning(todo)) =>
      if todo == [] then None
      else
        Some(RemoveAndHand(Becomes(w, t, task.(phase := Cleaning(todo[1..]))),
                           todo[0].key, todo[0].s))
    case (Close(_), Cleaning(todo)) => if todo == [] then Some(Ends(w, t)) else None
    case _ => None
  }

  // ---- The steps of the other tasks ----

  function TaskStep(w: World, e: Event, t: TaskId, task: Task): Option<World> {
    match (e, task)
    case (TakeReceiver(_), Stopping(port, s)) =>
      if s in w.receivers then
        Some(Becomes(w.(receivers := w.receivers - {s}), t, Waiting(port, s)))
      else Some(Becomes(w.(reg := Release(w.reg, Tcp(port), s.id)), t, Deleting(s)))
    case (SawStop(_), Waiting(port, s)) =>
      if s !in w.stopped then None
      else Some(Becomes(w.(reg := Release(w.reg, Tcp(port), s.id)), t, Deleting(s)))
    case (TimeOut(_), Waiting(port, s)) =>
      Some(Starts(Becomes(w, t, Deleting(s)), Retained(port, s)))
    case (SawStop(_), Retained(port, s)) =>
      if s !in w.stopped then None
      else Some(Ends(w.(reg := Release(w.reg, Tcp(port), s.id)), t))
    case (Delete(_), Deleting(s)) => Some(Ends(Attempted(w, s), t))
    case (ServeEnds(_), Serving(port, s)) => Some(Becomes(w, t, Dropped(port, s)))
    case (Signal(_), Dropped(port, s)) =>
      Some(Becomes(w.(stopped := w.stopped + {s}), t, Signalled(port, s)))
    case (ListenerRemoves(_), Signalled(port, s)) =>
      var (reg, removed) := RemoveTcp(w.reg, port, s);
      if removed.None? then Some(Ends(w, t))
      else Some(Becomes(w.(reg := reg), t, Withdrawing(port, s)))
    case (ListenerReleases(_), Withdrawing(port, s)) =>
      Some(Becomes(w.(reg := Release(w.reg, Tcp(port), s.id)), t, Deleting(s)))
    case _ => None
  }

  /** The world after one step, or None when the step cannot be taken. */
  function Apply(c: Config, w: World, e: Event): Option<World> {
    match e
    case Connect => Some(Starts(w, Conn(Ready, [], [])))
    case Reap(k, s) => Some(RemoveAndHand(w, k, s))
    case _ =>
      match At(w, e.t)
      case None => None
      case Some(task) =>
        if task.Conn? then ConnStep(c, w, e, e.t, task) else TaskStep(w, e, e.t, task)
  }

  /** The world a whole run of steps leads to. */
  function Run(c: Config, events: seq<Event>): Option<World> {
    if events == [] then Some(INIT)
    else match Run(c, events[..|events| - 1])
         case None => None
         case Some(w) => Apply(c, w, events[|events| - 1])
  }
}
