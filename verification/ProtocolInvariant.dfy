/**
 * What every step of the registration protocol keeps. A task holds at most one reservation,
 * carries at most one session, and is the listener of at most one; a book records who does.
 */
module ProtocolInvariant {
  import opened Sequences
  import opened Registry
  import opened Protocol

  // ---- What a task holds ----

  datatype Hold = Hold(key: Key, owner: string)

  /** The reservation a task will consume or release. */
  function Held(task: Option<Task>): (h: Option<Hold>)
    ensures h.Some? ==> task.Some?
  {
    match task
    case Some(Conn(HttpReserved(name, id), _, _)) => Some(Hold(Http(name), id))
    case Some(Conn(HttpBuilt(s), _, _)) => Some(Hold(Http(s.subdomain), s.id))
    case Some(Conn(TcpReserved(port, id), _, _)) => Some(Hold(Tcp(port), id))
    case Some(Conn(TcpBound(port, s), _, _)) => Some(Hold(Tcp(port), s.id))
    case Some(Stopping(port, s)) => Some(Hold(Tcp(port), s.id))
    case Some(Waiting(port, s)) => Some(Hold(Tcp(port), s.id))
    case Some(Retained(port, s)) => Some(Hold(Tcp(port), s.id))
    case Some(Withdrawing(port, s)) => Some(Hold(Tcp(port), s.id))
    case _ => None
  }

  /** The unpublished or removed session a task alone answers for. */
  function Carried(task: Option<Task>): Option<Session> {
    match task
    case Some(Conn(HttpBuilt(s), _, _)) => Some(s)
    case Some(Conn(TcpBound(_, s), _, _)) => Some(s)
    case Some(Stopping(_, s)) => Some(s)
    case Some(Waiting(_, s)) => Some(s)
    case Some(Withdrawing(_, s)) => Some(s)
    case Some(Deleting(s)) => Some(s)
    case _ => None
  }

  datatype Place = Place(port: nat, s: Session)

  /** The socket a task keeps open. */
  function OpenSocket(task: Option<Task>): Option<Place> {
    match task
    case Some(Conn(TcpBound(port, s), _, _)) => Some(Place(port, s))
    case Some(Conn(TcpPublished(port, s), _, _)) => Some(Place(port, s))
    case Some(Serving(port, s)) => Some(Place(port, s))
    case _ => None
  }

  /** The session whose listener a task is, or will start. */
  function ListenerOf(task: Option<Task>): Option<Session> {
    match task
    case Some(Conn(TcpBound(_, s), _, _)) => Some(s)
    case Some(Conn(TcpPublished(_, s), _, _)) => Some(s)
    case Some(Serving(_, s)) => Some(s)
    case Some(Dropped(_, s)) => Some(s)
    case Some(Signalled(_, s)) => Some(s)
    case Some(Withdrawing(_, s)) => Some(s)
    case _ => None
  }

  predicate HasSignalled(task: Option<Task>) {
    task.Some? && (task.value.Signalled? || task.value.Withdrawing?)
  }

  /** A published listener that has not signalled yet. */
  function Listening(task: Option<Task>): Option<Place> {
    match task
    case Some(Conn(TcpPublished(port, s), _, _)) => Some(Place(port, s))
    case Some(Serving(port, s)) => Some(Place(port, s))
    case Some(Dropped(port, s)) => Some(Place(port, s))
    case _ => None
  }

  /** A shutdown that has not yet seen its listener stop. */
  function ShuttingDown(task: Option<Task>): Option<Place> {
    match task
    case Some(Stopping(port, s)) => Some(Place(port, s))
    case Some(Waiting(port, s)) => Some(Place(port, s))
    case Some(Retained(port, s)) => Some(Place(port, s))
    case _ => None
  }

  /** Who still has the receiver of its session's stop signal to take. */
  function NeedsReceiver(task: Option<Task>): Option<Session> {
    match task
    case Some(Conn(TcpBound(_, s), _, _)) => Some(s)
    case Some(Stopping(_, s)) => Some(s)
    case _ => None
  }

  predicate Owns(task: Option<Task>, k: Key, s: Session) {
    match task
    case Some(Conn(Cleaning(todo), _, _)) => Entry(k, s) in todo
    case Some(Conn(_, names, ports)) => Entry(k, s) in names + ports
    case _ => false
  }

  function LiveSession(r: Reg, k: Key): Option<Session> {
    match k
    case Http(name) => if name in r.tunnels then Some(r.tunnels[name]) else None
    case Tcp(port) => if port in r.tcpTunnels then Some(r.tcpTunnels[port]) else None
  }

  // ---- The invariant ----

  datatype Book = Book(
    holder: map<Key, TaskId>,
    carrier: map<Session, TaskId>,
    listener: map<Session, TaskId>)

  /** Each reservation has exactly one holder, in whose name it stands. */
  ghost predicate Holders(w: World, b: Book) {
    && (forall k | k in w.reg.reservations ::
          k in b.holder && Held(At(w, b.holder[k])) == Some(Hold(k, w.reg.reservations[k])))
    && (forall t | Held(At(w, t)).Some? ::
          var k := Held(At(w, t)).value.key;
          k in w.reg.reservations && k in b.holder && b.holder[k] == t)
  }

  ghost predicate Carriers(w: World, b: Book) {
    && (forall s | s in b.carrier :: s in w.home && Carried(At(w, b.carrier[s])) == Some(s))
    && (forall t | Carried(At(w, t)).Some? ::
          Carried(At(w, t)).value in b.carrier && b.carrier[Carried(At(w, t)).value] == t)
  }

  /** A session is carried, or live where it belongs, or its record's deletion was attempted. */
  ghost predicate Lives(w: World, b: Book) {
    && w.attempts.Keys == w.home.Keys
    && (forall k | LiveSession(w.reg, k).Some? ::
          var s := LiveSession(w.reg, k).value;
          s in w.home && w.home[s].key == k && s !in b.carrier)
    && (forall s | s in w.home ::
          w.attempts[s]
          == if s in b.carrier || LiveSession(w.reg, w.home[s].key) == Some(s) then 0 else 1)
  }

  ghost predicate Listeners(w: World, b: Book) {
    && (forall t | ListenerOf(At(w, t)).Some? ::
          var s := ListenerOf(At(w, t)).value;
          && s in w.home && s in b.listener && b.listener[s] == t
          && (HasSignalled(At(w, t)) || s !in w.stopped))
    && (forall s | s in w.stopped :: s in w.home)
    && (forall s | s in b.listener :: s in w.home)
  }

  /** A listener's port is its session's while live, and a shutdown's reservation afterwards. */
  ghost predicate Covered(w: World, b: Book) {
    forall t | Listening(At(w, t)).Some? ::
      var p := Listening(At(w, t)).value;
      || LiveSession(w.reg, Tcp(p.port)) == Some(p.s)
      || (Tcp(p.port) in b.holder && ShuttingDown(At(w, b.holder[Tcp(p.port)])) == Some(p))
  }

  ghost predicate Receivers(w: World) {
    && (forall port: nat | LiveSession(w.reg, Tcp(port)).Some? ::
          LiveSession(w.reg, Tcp(port)).value in w.receivers)
    && (forall t | NeedsReceiver(At(w, t)).Some? :: NeedsReceiver(At(w, t)).value in w.receivers)
  }

  /** A live session is on the list of the connection it was made for. */
  ghost predicate Owned(w: World) {
    forall k | LiveSession(w.reg, k).Some? ::
      var s := LiveSession(w.reg, k).value;
      s in w.home && Owns(At(w, w.home[s].conn), k, s)
  }

  /** The key a task's session was made for, if the task has one. */
  function Placed(task: Task): Option<Entry> {
    match task
    case Conn(HttpBuilt(s), _, _) => Some(Entry(Http(s.subdomain), s))
    case Conn(TcpBound(port, s), _, _) => Some(Entry(Tcp(port), s))
    case Conn(TcpPublished(port, s), _, _) => Some(Entry(Tcp(port), s))
    case Conn(_, _, _) => None
    case Deleting(_) => None
    case _ => Some(Entry(Tcp(task.port), task.s))
  }

  /** A task's session was made for its key, and no registration was ever refused. */
  predicate Fits(home: map<Session, Origin>, t: TaskId, task: Task) {
    && (Placed(task).Some? ==>
          var e := Placed(task).value;
          e.s in home && home[e.s].key == e.key && (task.Conn? ==> home[e.s].conn == t))
    && (task.Deleting? ==> task.s in home)
    && (task.Conn? ==> !task.phase.HttpRefused? && !task.phase.TcpRefused?)
  }

  ghost predicate Shaped(w: World) {
    && (forall t: TaskId | At(w, t).Some? :: t < w.next && Fits(w.home, t, At(w, t).value))
    && (forall s | s in w.home :: w.home[s].conn < w.next)
  }

  ghost predicate Inv(c: Config, w: World, b: Book) {
    && Sound(c, w.reg)
    && Holders(w, b)
    && Carriers(w, b)
    && Lives(w, b)
    && Listeners(w, b)
    && Covered(w, b)
    && Receivers(w)
    && Owned(w)
    && Shaped(w)
  }

  lemma InitHolds(c: Config)
    ensures Inv(c, INIT, Book(map[], map[], map[]))
  {
  }

  // ---- What an operation does to the registry, seen by key ----

  ghost predicate LiveExcept(r: Reg, r': Reg, k: Key) {
    forall k' | k' != k :: LiveSession(r', k') == LiveSession(r, k')
  }

  ghost predicate LiveSame(r: Reg, r': Reg) {
    forall k :: LiveSession(r', k) == LiveSession(r, k)
  }

  lemma ReserveHttpEffect(c: Config, r: Reg, name: string, owner: string)
    requires Sound(c, r)
    ensures var (r', result) := ReserveHttp(c, r, name, owner);
            && Sound(c, r')
            && (result.Ok? ==>
                  && Http(name) !in r.reservations && LiveSession(r, Http(name)).None?
                  && r'.reservations == r.reservations[Http(name) := owner]
                  && LiveSame(r, r'))
  {
    ReserveHttpKeeps(c, r, name, owner);
  }

  lemma ReserveTcpEffect(c: Config, r: Reg, requested: Option<nat>, owner: string)
    requires Sound(c, r)
    ensures var (r', result) := ReserveTcp(c, r, requested, owner);
            && Sound(c, r')
            && (result.Ok? ==>
                  && Tcp(result.value) !in r.reservations
                  && LiveSession(r, Tcp(result.value)).None?
                  && r'.reservations == r.reservations[Tcp(result.value) := owner]
                  && LiveSame(r, r'))
  {
    ReserveTcpKeeps(c, r, requested, owner);
    ReserveTcpSucceedsIff(c, r, requested, owner);
    hide Sound, Counted, Exclusive, AtCapacity;
  }

  lemma ReleaseEffect(c: Config, r: Reg, k: Key, owner: string)
    requires Sound(c, r) && ReservedBy(r, k, owner)
    ensures var r' := Release(r, k, owner);
            Sound(c, r') && r'.reservations == r.reservations - {k} && LiveSame(r, r')
  {
    ReleaseKeeps(c, r, k, owner);
  }

  /** Registering under one's own reservation cannot fail. */
  lemma RegisterHttpEffect(c: Config, r: Reg, s: Session)
    requires Sound(c, r) && ReservedBy(r, Http(s.subdomain), s.id)
    ensures var (r', result) := RegisterHttp(c, r, s);
            && result.Ok? && Sound(c, r')
            && r'.reservations == r.reservations - {Http(s.subdomain)}
            && LiveSession(r', Http(s.subdomain)) == Some(s)
            && LiveExcept(r, r', Http(s.subdomain))
  {
    RegisterHttpKeeps(c, r, s);
    assert !IsLive(r, Http(s.subdomain));
    hide Counted;
  }

  lemma RegisterTcpEffect(c: Config, r: Reg, port: nat, s: Session)
    requires Sound(c, r) && ReservedBy(r, Tcp(port), s.id)
    ensures var (r', result) := RegisterTcp(c, r, port, s);
            && result.Ok? && Sound(c, r')
            && r'.reservations == r.reservations - {Tcp(port)}
            && LiveSession(r', Tcp(port)) == Some(s)
            && LiveExcept(r, r', Tcp(port))
  {
    RegisterTcpKeeps(c, r, port, s);
    assert !IsLive(r, Tcp(port));
    hide Counted;
  }

  lemma RemoveHttpEffect(c: Config, r: Reg, name: string, s: Session)
    requires Sound(c, r)
    ensures var (r', removed) := RemoveHttp(r, name, Some(s));
            && Sound(c, r')
            && (removed.Some? <==> LiveSession(r, Http(name)) == Some(s))
            && (removed.Some? ==> r'.reservations == r.reservations)
            && (removed.Some? ==> LiveSession(r', Http(name)).None?)
            && (removed.Some? ==> LiveExcept(r, r', Http(name)))
  {
    RemoveHttpKeeps(c, r, name, Some(s));
  }

  lemma RemoveTcpEffect(c: Config, r: Reg, port: nat, s: Session)
    requires Sound(c, r)
    ensures var (r', removed) := RemoveTcp(r, port, s);
            && Sound(c, r')
            && (removed.Some? <==> LiveSession(r, Tcp(port)) == Some(s))
            && (removed.Some? ==> Tcp(port) !in r.reservations)
            && (removed.Some? ==> r'.reservations == r.reservations[Tcp(port) := s.id])
            && (removed.Some? ==> LiveSession(r', Tcp(port)).None?)
            && (removed.Some? ==> LiveExcept(r, r', Tcp(port)))
  {
    RemoveTcpKeeps(c, r, port, s);
    assert Tcp(port) in r.reservations ==> !IsLive(r, Tcp(port));
  }
}
