/** Every step of the protocol keeps the invariant. */
module ProtocolSteps {
  import opened Sequences
  import opened Registry
  import opened Protocol
  import opened ProtocolInvariant
  import opened ProtocolParts

  // ---- Covers that outlive a change of reservations ----

  /** A reservation made for a new key leaves the shutdowns' reservations alone. */
  lemma CoverOnAcquire(w: World, b: Book, w': World, b': Book, t: TaskId, k: Key, d: set<TaskId>)
    requires Holders(w, b) && Same(w, w', d) && k !in w.reg.reservations
    requires b'.holder == b.holder[k := t]
    requires forall x | x in d :: ShuttingDown(At(w, x)).None?
    ensures forall p: Place | Cover(w, b, p) ::
              || LiveSession(w.reg, Tcp(p.port)) == Some(p.s)
              || Cover(w', b', p)
  {
    hide LiveSession, At;
    forall p: Place | Cover(w, b, p) && LiveSession(w.reg, Tcp(p.port)) != Some(p.s)
      ensures Cover(w', b', p)
    {
      var x := b.holder[Tcp(p.port)];
      assert Held(At(w, x)) == Some(Hold(Tcp(p.port), p.s.id));
    }
  }

  // ---- Reservations taken and given back ----

  lemma AcquireKeeps(c: Config, w: World, b: Book, w': World, t: TaskId, h: Hold) returns (b': Book)
    requires Inv(c, w, b) && Sound(c, w'.reg) && LiveSame(w.reg, w'.reg)
    requires w' == w.(reg := w'.reg, tasks := w'.tasks) && Same(w, w', {t})
    requires h.key !in w.reg.reservations
    requires w'.reg.reservations == w.reg.reservations[h.key := h.owner]
    requires Held(At(w, t)).None? && Held(At(w', t)) == Some(h)
    requires KeepsRoles(At(w, t), At(w', t)) && At(w, t).Some? && At(w', t).Some?
    requires Fits(w.home, t, At(w', t).value)
    requires Listening(At(w', t)).None? && ShuttingDown(At(w, t)).None?
    ensures Inv(c, w', b')
  {
    hide Inv, Sound, Holders, Covered, Settled, Carriers, Lives, Listeners, Receivers, Owned, Shaped;
    hide At, KeepsRoles, Held, Listening, ShuttingDown, LiveSession;
    InvParts(c, w, b);
    IdsBelow(w, b, t);
    b' := b.(holder := b.holder[h.key := t]);
    HoldersAcquire(w, b, w', b', t, h, {t});
    CoverOnAcquire(w, b, w', b', t, h.key, {t});
    CoveredStep(w, b, w', b', {t});
    RolesKeep(w, b, w', b', {t});
    InvParts(c, w', b');
  }

  /** Released: the caller had to hold it. */
  lemma GiveBackKeeps(c: Config, w: World, b: Book, w': World, t: TaskId, h: Hold)
    requires Inv(c, w, b) && Same(w, w', {t}) && At(w, t).Some?
    requires w' == w.(reg := Release(w.reg, h.key, h.owner), tasks := w'.tasks)
    requires Held(At(w, t)) == Some(h) && Held(At(w', t)).None?
    requires KeepsRoles(At(w, t), At(w', t))
    requires At(w', t).Some? ==> Fits(w.home, t, At(w', t).value)
    requires Listening(At(w', t)).None?
    requires ShuttingDown(At(w, t)).Some? ==> ShuttingDown(At(w, t)).value.s in w.stopped
    ensures Inv(c, w', b)
  {
    hide Inv, Sound, Holders, Covered, Settled, Release, ReservedBy;
    hide At, KeepsRoles, Held, Listening, ShuttingDown, LiveSession;
    InvParts(c, w, b);
    IdsBelow(w, b, t);
    HolderOwns(w, b, t);
    ReleaseEffect(c, w.reg, h.key, h.owner);
    HoldersRelease(w, b, w', b, t, h.key);
    CoverOnRelease(w, b, w', t);
    CoveredStep(w, b, w', b, {t});
    RolesKeep(w, b, w', b, {t});
    InvParts(c, w', b);
  }

  /** The shutdown of a stopped listener covers nobody any more. */
  lemma CoverOnRelease(w: World, b: Book, w': World, t: TaskId)
    requires Settled(w, b) && Same(w, w', {t}) && LiveSame(w.reg, w'.reg)
    requires ShuttingDown(At(w, t)).Some? ==> ShuttingDown(At(w, t)).value.s in w.stopped
    ensures forall x: TaskId | Listening(At(w, x)).Some? && Cover(w, b, Listening(At(w, x)).value) ::
              Cover(w', b, Listening(At(w, x)).value)
  {
    hide LiveSession, At, ShuttingDown, Carriers, Lives, Receivers, Owned, Shaped;
    forall x: TaskId | Listening(At(w, x)).Some? && Cover(w, b, Listening(At(w, x)).value)
      ensures Cover(w', b, Listening(At(w, x)).value)
    {
      var p := Listening(At(w, x)).value;
      assert ListenerOf(At(w, x)) == Some(p.s) && !HasSignalled(At(w, x));
      assert p.s !in w.stopped;
    }
  }

  /** A step that touches no reservation, session or socket. */
  lemma QuietKeeps(c: Config, w: World, b: Book, w': World, d: set<TaskId>)
    requires Inv(c, w, b) && Same(w, w', d) && w.next <= w'.next
    requires w' == w.(tasks := w'.tasks, next := w'.next)
    requires forall t | t in d :: Held(At(w', t)) == Held(At(w, t))
    requires forall t | t in d :: KeepsRoles(At(w, t), At(w', t))
    requires forall t | t in d && At(w', t).Some? :: t < w'.next && Fits(w.home, t, At(w', t).value)
    requires forall t | t in d ::
               Listening(At(w', t)).None? || Listening(At(w', t)) == Listening(At(w, t))
    requires forall t | t in d ::
               ShuttingDown(At(w, t)).None? || ShuttingDown(At(w', t)) == ShuttingDown(At(w, t))
    ensures Inv(c, w', b)
  {
    hide Inv, Sound, Holders, Covered, Settled;
    hide At, KeepsRoles, Held, Listening, ShuttingDown, LiveSession;
    InvParts(c, w, b);
    HoldersKeep(w, b, w', b, d);
    CoveredKeep(w, b, w', b, d);
    RolesKeep(w, b, w', b, d);
    InvParts(c, w', b);
  }

  // ---- A connection's own steps ----

  /** The facts about `w` a step of task `t` starts from. */
  lemma StepStarts(c: Config, w: World, b: Book, t: TaskId)
    requires Inv(c, w, b) && At(w, t).Some?
    ensures Sound(c, w.reg) && t < w.next && Fits(w.home, t, At(w, t).value) && Shaped(w)
  {
    hide Sound, Fits, Holders, Covered, Carriers, Lives, Listeners, Receivers, Owned;
  }

  lemma AskHttpKeeps(c: Config, w: World, b: Book, w': World, t: TaskId, name: string, id: string)
    returns (b': Book)
    requires Inv(c, w, b) && Apply(c, w, AskHttp(t, name, id)) == Some(w')
    ensures Inv(c, w', b')
  {
    hide Inv, Sound, ReserveHttp, At, Becomes, LiveSession, Shaped;
    var task := At(w, t).value;
    StepStarts(c, w, b, t);
    ReserveHttpEffect(c, w.reg, name, id);
    var (reg, result) := ReserveHttp(c, w.reg, name, id);
    if result.Err? {
      b' := b;
    } else {
      var task' := task.(phase := HttpReserved(name, id));
      NewPhase(w.(reg := reg), w, w', t, task');
      b' := AcquireKeeps(c, w, b, w', t, Hold(Http(name), id));
    }
  }

  /** Replacing one task, next to any change of the other components. */
  lemma NewPhase(w1: World, w: World, w': World, t: TaskId, task: Task)
    requires w1.tasks == w.tasks && w' == Becomes(w1, t, task)
    ensures At(w', t) == Some(task) && Same(w, w', {t})
    ensures w' == w1.(tasks := w'.tasks)
  {
  }

  lemma AskTcpKeeps(c: Config, w: World, b: Book, w': World, t: TaskId, requested: Option<nat>, id: string)
    returns (b': Book)
    requires Inv(c, w, b) && Apply(c, w, AskTcp(t, requested, id)) == Some(w')
    ensures Inv(c, w', b')
  {
    hide Inv, Sound, ReserveTcp, At, Becomes, LiveSession, Shaped;
    var task := At(w, t).value;
    StepStarts(c, w, b, t);
    ReserveTcpEffect(c, w.reg, requested, id);
    var (reg, result) := ReserveTcp(c, w.reg, requested, id);
    if result.Err? {
      b' := b;
    } else {
      NewPhase(w.(reg := reg), w, w', t, task.(phase := TcpReserved(result.value, id)));
      b' := AcquireKeeps(c, w, b, w', t, Hold(Tcp(result.value), id));
    }
  }

  lemma GiveUpKeeps(c: Config, w: World, b: Book, w': World, t: TaskId)
    requires Inv(c, w, b) && Apply(c, w, GiveUp(t)) == Some(w')
    ensures Inv(c, w', b)
  {
    hide Inv, Sound, Release, At, Becomes, Shaped;
    StepStarts(c, w, b, t);
    var task := At(w, t).value;
    var h := Held(Some(task)).value;
    NewPhase(w.(reg := Release(w.reg, h.key, h.owner)), w, w', t, task.(phase := Ready));
    GiveBackKeeps(c, w, b, w', t, h);
  }

  // ---- Sessions allocated and published ----

  lemma CreateKeeps(c: Config, w: World, b: Book, w': World, t: TaskId, s: Session, o: Origin)
    returns (b': Book)
    requires Inv(c, w, b) && Same(w, w', {t}) && At(w, t).Some? && At(w', t).Some?
    requires w' == w.(home := w.home[s := o], attempts := w.attempts[s := 0],
                      receivers := w'.receivers, tasks := w'.tasks)
    requires s !in w.home && o.conn == t && w.receivers <= w'.receivers
    requires Held(At(w', t)) == Held(At(w, t))
    requires Carried(At(w, t)).None? && Carried(At(w', t)) == Some(s)
    requires ListenerOf(At(w, t)).None?
    requires ListenerOf(At(w', t)).None? || ListenerOf(At(w', t)) == Some(s)
    requires NeedsReceiver(At(w', t)).Some? ==> NeedsReceiver(At(w', t)).value in w'.receivers
    requires Listening(At(w', t)).None? && ShuttingDown(At(w, t)).None?
    requires forall k, s | Owns(At(w, t), k, s) :: Owns(At(w', t), k, s)
    requires Fits(w'.home, t, At(w', t).value)
    ensures Inv(c, w', b')
  {
    hide Inv, Sound, Holders, Covered, Carriers, Lives, Listeners, Receivers, Owned, Shaped;
    hide At, Held, Carried, ListenerOf, NeedsReceiver, Listening, ShuttingDown, LiveSession, Owns, Fits;
    InvParts(c, w, b);
    IdsBelow(w, b, t);
    Uncarried(w, b, s);
    b' := Book(b.holder, b.carrier[s := t],
               if ListenerOf(At(w', t)).None? then b.listener else b.listener[s := t]);
    HoldersKeep(w, b, w', b', {t});
    CarriersAcquire(w, b, w', b', t, s, {t});
    LivesNew(w, b, w', b', s, o);
    if ListenerOf(At(w', t)).None? {
      ListenersKeep(w, b, w', b', {t});
    } else {
      ListenersBind(w, b, w', b', t, s);
    }
    CoveredKeep(w, b, w', b', {t});
    ReceiversKeep(w, w', {t});
    OwnedKeep(w, w', {t});
    ShapedKeep(w, w', {t});
    InvParts(c, w', b');
  }

  lemma Uncarried(w: World, b: Book, s: Session)
    requires Settled(w, b)
    ensures s !in w.home ==> s !in b.carrier
  {
  }

  lemma BuildKeeps(c: Config, w: World, b: Book, w': World, t: TaskId, s: Session) returns (b': Book)
    requires Inv(c, w, b) && Apply(c, w, Build(t, s)) == Some(w')
    ensures Inv(c, w', b')
  {
    hide Inv, Sound, At, Becomes, Shaped;
    StepStarts(c, w, b, t);
    var task, o := At(w, t).value, Origin(Http(s.subdomain), t);
    NewPhase(w.(home := w.home[s := o], attempts := w.attempts[s := 0]), w, w', t,
             task.(phase := HttpBuilt(s)));
    b' := CreateKeeps(c, w, b, w', t, s, o);
  }

  lemma BindKeeps(c: Config, w: World, b: Book, w': World, t: TaskId, s: Session) returns (b': Book)
    requires Inv(c, w, b) && Apply(c, w, Bind(t, s)) == Some(w')
    ensures Inv(c, w', b')
  {
    hide Inv, Sound, At, Becomes, Shaped;
    StepStarts(c, w, b, t);
    var task := At(w, t).value;
    var o := Origin(Tcp(task.phase.port), t);
    NewPhase(w.(home := w.home[s := o], attempts := w.attempts[s := 0], receivers := w.receivers + {s}),
             w, w', t, task.(phase := TcpBound(task.phase.port, s)));
    b' := CreateKeeps(c, w, b, w', t, s, o);
  }

  lemma PublishKeeps(c: Config, w: World, b: Book, w': World, t: TaskId, k: Key, s: Session)
    returns (b': Book)
    requires Inv(c, w, b) && Sound(c, w'.reg) && Same(w, w', {t}) && At(w, t).Some? && At(w', t).Some?
    requires w' == w.(reg := w'.reg, tasks := w'.tasks)
    requires Held(At(w, t)) == Some(Hold(k, s.id)) && Held(At(w', t)).None?
    requires w'.reg.reservations == w.reg.reservations - {k}
    requires LiveSession(w.reg, k).None? && LiveSession(w'.reg, k) == Some(s)
    requires LiveExcept(w.reg, w'.reg, k)
    requires s in w.home && w.home[s] == Origin(k, t)
    requires Carried(At(w, t)) == Some(s) && Carried(At(w', t)).None?
    requires ListenerOf(At(w', t)) == ListenerOf(At(w, t)) && !HasSignalled(At(w, t))
    requires NeedsReceiver(At(w', t)).None?
    requires k.Tcp? ==> NeedsReceiver(At(w, t)) == Some(s)
    requires Listening(At(w', t)).None? || Some(Listening(At(w', t)).value) == PlaceOf(k, s)
    requires Listening(At(w, t)).None? && ShuttingDown(At(w, t)).None?
    requires Owns(At(w', t), k, s)
    requires forall k', s' | Owns(At(w, t), k', s') :: Owns(At(w', t), k', s')
    requires Fits(w.home, t, At(w', t).value)
    ensures Inv(c, w', b')
  {
    hide Inv, Sound, Holders, Covered, Carriers, Lives, Listeners, Receivers, Owned, Shaped;
    hide At, Held, Carried, ListenerOf, NeedsReceiver, Listening, ShuttingDown, LiveSession, Owns, Fits;
    InvParts(c, w, b);
    IdsBelow(w, b, t);
    if k.Tcp? {
      ReceiverThere(w, b, t);
    }
    CarriedBy(w, b, t);
    b' := b.(carrier := b.carrier - {s});
    HoldersRelease(w, b, w', b', t, k);
    CarriersDrop(w, b, w', b', t, s);
    LivesPublish(w, b, w', b', s, k);
    ListenersKeep(w, b, w', b', {t});
    CoverOnPublish(w, b, w', b', t, k);
    CoveredStep(w, b, w', b', {t});
    ReceiversKeep(w, w', {t});
    OwnedPublish(w, w', t, k, s);
    ShapedKeep(w, w', {t});
    InvParts(c, w', b');
  }

  function PlaceOf(k: Key, s: Session): Option<Place> {
    match k
    case Http(_) => None
    case Tcp(port) => Some(Place(port, s))
  }

  lemma ReceiverThere(w: World, b: Book, t: TaskId)
    requires Settled(w, b) && NeedsReceiver(At(w, t)).Some?
    ensures NeedsReceiver(At(w, t)).value in w.receivers
  {
    hide Carriers, Lives, Listeners, Owned, Shaped;
  }

  lemma CarriedBy(w: World, b: Book, t: TaskId)
    requires Settled(w, b) && Carried(At(w, t)).Some?
    ensures Carried(At(w, t)).value in b.carrier && b.carrier[Carried(At(w, t)).value] == t
    ensures Carried(At(w, t)).value in w.home && Carried(At(w, t)).value in w.attempts
    ensures forall k :: LiveSession(w.reg, k) != Carried(At(w, t))
  {
    hide Listeners, Receivers, Owned, Shaped, Carried, LiveSession, At;
  }

  lemma CoverOnPublish(w: World, b: Book, w': World, b': Book, t: TaskId, k: Key)
    requires Same(w, w', {t}) && b'.holder == b.holder && LiveExcept(w.reg, w'.reg, k)
    requires LiveSession(w.reg, k).None? && ShuttingDown(At(w, t)).None?
    ensures forall p: Place | Cover(w, b, p) :: Cover(w', b', p)
  {
    hide LiveSession, At, ShuttingDown;
  }

  lemma RegisterKeeps(c: Config, w: World, b: Book, w': World, t: TaskId) returns (b': Book)
    requires Inv(c, w, b) && Apply(c, w, Register(t)) == Some(w')
    ensures Inv(c, w', b')
  {
    hide Inv, Sound, At, Becomes, Shaped, RegisterHttp, RegisterTcp, ReservedBy, LiveSession, Holders;
    StepStarts(c, w, b, t);
    HolderThere(c, w, b, t);
    var task := At(w, t).value;
    match task.phase
    case HttpBuilt(s) =>
      RegisterHttpEffect(c, w.reg, s);
      NewPhase(w.(reg := RegisterHttp(c, w.reg, s).0), w, w', t,
               task.(phase := Ready, names := task.names + [Entry(Http(s.subdomain), s)]));
      b' := PublishKeeps(c, w, b, w', t, Http(s.subdomain), s);
    case TcpBound(port, s) =>
      RegisterTcpEffect(c, w.reg, port, s);
      NewPhase(w.(reg := RegisterTcp(c, w.reg, port, s).0), w, w', t,
               task.(phase := TcpPublished(port, s), ports := task.ports + [Entry(Tcp(port), s)]));
      b' := PublishKeeps(c, w, b, w', t, Tcp(port), s);
  }

  /** What a task holds is reserved in its name, and nothing live has that key. */
  lemma HolderThere(c: Config, w: World, b: Book, t: TaskId)
    requires Inv(c, w, b) && Held(At(w, t)).Some?
    ensures var h := Held(At(w, t)).value;
            ReservedBy(w.reg, h.key, h.owner) && LiveSession(w.reg, h.key).None?
  {
    hide At, Held, Carriers, Lives, Listeners, Receivers, Owned, Shaped, Covered, Counted;
    var h := Held(At(w, t)).value;
    assert h.key in w.reg.reservations;
    assert !IsLive(w.reg, h.key);
  }

  // ---- Removal ----

  /** A live session goes to task `x`, with its port's reservation if it has a port. */
  lemma RemoveKeeps(c: Config, w: World, b: Book, w': World, x: TaskId, k: Key, s: Session)
    returns (b': Book)
    requires Inv(c, w, b) && Sound(c, w'.reg) && Same(w, w', {x})
    requires w' == w.(reg := w'.reg, tasks := w'.tasks, next := w'.next)
    requires w.next <= w'.next && x < w'.next && At(w', x).Some?
    requires LiveSession(w.reg, k) == Some(s) && LiveSession(w'.reg, k).None?
    requires LiveExcept(w.reg, w'.reg, k)
    requires Held(At(w, x)).None? && Carried(At(w, x)).None? && Carried(At(w', x)) == Some(s)
    requires k.Http? ==>
               w'.reg.reservations == w.reg.reservations && Held(At(w', x)).None?
    requires k.Tcp? ==>
               && k !in w.reg.reservations
               && w'.reg.reservations == w.reg.reservations[k := s.id]
               && Held(At(w', x)) == Some(Hold(k, s.id))
               && (ShuttingDown(At(w', x)) == PlaceOf(k, s)
                   || (ListenerOf(At(w, x)) == Some(s) && HasSignalled(At(w, x))))
    requires ListenerOf(At(w', x)).None? || (ListenerOf(At(w', x)) == ListenerOf(At(w, x))
                                             && HasSignalled(At(w', x)))
    requires NeedsReceiver(At(w', x)).None? || (k.Tcp? && NeedsReceiver(At(w', x)) == Some(s))
    requires Listening(At(w', x)).None? && ShuttingDown(At(w, x)).None?
    requires forall k', s' :: !Owns(At(w, x), k', s')
    requires Fits(w.home, x, At(w', x).value)
    ensures Inv(c, w', b')
  {
    hide Inv, Sound, Holders, Covered, Carriers, Lives, Listeners, Receivers, Owned, Shaped;
    hide At, Held, Carried, ListenerOf, NeedsReceiver, Listening, ShuttingDown, LiveSession, Owns, Fits;
    InvParts(c, w, b);
    LiveUncarried(w, b, k, s);
    b' := b.(carrier := b.carrier[s := x], holder := if k.Http? then b.holder else b.holder[k := x]);
    if k.Http? {
      HoldersKeep(w, b, w', b', {x});
    } else {
      HoldersAcquire(w, b, w', b', x, Hold(k, s.id), {x});
    }
    CarriersAcquire(w, b, w', b', x, s, {x});
    LivesRemove(w, b, w', b', s, k);
    ListenersKeep(w, b, w', b', {x});
    CoverOnRemove(w, b, w', b', x, k, s);
    CoveredStep(w, b, w', b', {x});
    ReceiversKeep(w, w', {x});
    OwnedKeep(w, w', {x});
    ShapedKeep(w, w', {x});
    InvParts(c, w', b');
  }

  lemma LiveUncarried(w: World, b: Book, k: Key, s: Session)
    requires Settled(w, b) && LiveSession(w.reg, k) == Some(s)
    ensures s !in b.carrier && s in w.home && w.home[s].key == k
    ensures k.Tcp? ==> s in w.receivers
  {
    hide Carriers, Listeners, Owned, Shaped, LiveSession;
  }

  lemma CoverOnRemove(w: World, b: Book, w': World, b': Book, x: TaskId, k: Key, s: Session)
    requires Holders(w, b) && Settled(w, b) && Same(w, w', {x}) && LiveExcept(w.reg, w'.reg, k)
    requires LiveSession(w.reg, k) == Some(s) && ShuttingDown(At(w, x)).None?
    requires k.Http? ==> b'.holder == b.holder
    requires k.Tcp? ==>
               && k !in w.reg.reservations && b'.holder == b.holder[k := x]
               && (ShuttingDown(At(w', x)) == PlaceOf(k, s)
                   || (ListenerOf(At(w, x)) == Some(s) && HasSignalled(At(w, x))))
    ensures forall t: TaskId | Listening(At(w, t)).Some? && Cover(w, b, Listening(At(w, t)).value) ::
              Cover(w', b', Listening(At(w, t)).value)
  {
    hide LiveSession, At, Carriers, Lives, Receivers, Owned, Shaped;
    forall t: TaskId | Listening(At(w, t)).Some? && Cover(w, b, Listening(At(w, t)).value)
      ensures Cover(w', b', Listening(At(w, t)).value)
    {
      var p := Listening(At(w, t)).value;
      assert ListenerOf(At(w, t)) == Some(p.s) && !HasSignalled(At(w, t));
      if LiveSession(w.reg, Tcp(p.port)) != Some(p.s) {
        var y := b.holder[Tcp(p.port)];
        assert Held(At(w, y)) == Some(Hold(Tcp(p.port), p.s.id));
      } else if k == Tcp(p.port) {
        assert p.s == s;
        assert ListenerOf(At(w, x)) == Some(s) ==> b.listener[s] == x == t;
      }
    }
  }

  /** What removal did to the world, as RemoveKeeps wants it. */
  ghost predicate Handed(w: World, w': World, k: Key, s: Session) {
    && LiveSession(w'.reg, k) != Some(s)
    && (forall t: TaskId | t < w.next :: At(w', t) == At(w, t))
    && w.next <= w'.next
  }

  lemma HandHttpKeeps(c: Config, w: World, b: Book, w': World, name: string, s: Session) returns (b': Book)
    requires Inv(c, w, b) && w' == RemoveAndHand(w, Http(name), s)
    ensures Inv(c, w', b') && Handed(w, w', Http(name), s)
  {
    hide Inv, Sound, Holders, Covered, Settled, RemoveHttp, LiveSession, At, Starts, Shaped;
    InvParts(c, w, b);
    IsShaped(w, b);
    RemoveHttpEffect(c, w.reg, name, s);
    var (reg, removed) := RemoveHttp(w.reg, name, Some(s));
    if removed.None? {
      b' := b;
    } else {
      LiveUncarried(w, b, Http(name), s);
      NewTask(w.(reg := reg), w, w', Deleting(s));
      b' := RemoveKeeps(c, w, b, w', w.next, Http(name), s);
    }
  }

  lemma HandTcpKeeps(c: Config, w: World, b: Book, w': World, port: nat, s: Session) returns (b': Book)
    requires Inv(c, w, b) && w' == RemoveAndHand(w, Tcp(port), s)
    ensures Inv(c, w', b') && Handed(w, w', Tcp(port), s)
  {
    hide Inv, Sound, Holders, Covered, Settled, RemoveTcp, LiveSession, At, Starts, Shaped;
    InvParts(c, w, b);
    IsShaped(w, b);
    RemoveTcpEffect(c, w.reg, port, s);
    var (reg, removed) := RemoveTcp(w.reg, port, s);
    if removed.None? {
      b' := b;
    } else {
      LiveUncarried(w, b, Tcp(port), s);
      NewTask(w.(reg := reg), w, w', Stopping(port, s));
      b' := RemoveKeeps(c, w, b, w', w.next, Tcp(port), s);
    }
  }

  /** The reaper, or a connection cleaning up, removes a tunnel it may or may not still own. */
  lemma HandKeeps(c: Config, w: World, b: Book, w': World, k: Key, s: Session) returns (b': Book)
    requires Inv(c, w, b) && w' == RemoveAndHand(w, k, s)
    ensures Inv(c, w', b') && Handed(w, w', k, s)
  {
    hide Inv, Handed, RemoveAndHand;
    match k
    case Http(name) => b' := HandHttpKeeps(c, w, b, w', name, s);
    case Tcp(port) => b' := HandTcpKeeps(c, w, b, w', port, s);
  }

  lemma IsShaped(w: World, b: Book)
    requires Settled(w, b)
    ensures Shaped(w)
  {
  }

  lemma NewTask(w1: World, w: World, w': World, task: Task)
    requires Shaped(w) && w1.tasks == w.tasks && w1.next == w.next && w' == Starts(w1, task)
    ensures At(w, w.next).None? && At(w', w.next) == Some(task) && Same(w, w', {w.next})
    ensures w' == w1.(tasks := w'.tasks, next := w.next + 1)
  {
    assert At(w, w.next).Some? ==> w.next < w.next;
  }

  lemma ReapKeeps(c: Config, w: World, b: Book, w': World, k: Key, s: Session) returns (b': Book)
    requires Inv(c, w, b) && Apply(c, w, Reap(k, s)) == Some(w')
    ensures Inv(c, w', b')
  {
    hide Inv, RemoveAndHand;
    b' := HandKeeps(c, w, b, w', k, s);
  }

  lemma CleanNextKeeps(c: Config, w: World, b: Book, w': World, t: TaskId) returns (b': Book)
    requires Inv(c, w, b) && Apply(c, w, CleanNext(t)) == Some(w')
    ensures Inv(c, w', b')
  {
    hide Inv, Sound, RemoveAndHand, At, Becomes, Shaped, LiveSession;
    StepStarts(c, w, b, t);
    var task := At(w, t).value;
    var e, task' := task.phase.todo[0], task.(phase := Cleaning(task.phase.todo[1..]));
    var w1 := RemoveAndHand(w, e.key, e.s);
    b' := HandKeeps(c, w, b, w1, e.key, e.s);
    HandCommutes(w, t, task', e.key, e.s);
    PopKeeps(c, w1, b', w', t, e);
  }

  lemma HandCommutes(w: World, t: TaskId, task: Task, k: Key, s: Session)
    requires t < w.next
    ensures RemoveAndHand(Becomes(w, t, task), k, s) == Becomes(RemoveAndHand(w, k, s), t, task)
  {
    hide RemoveHttp, RemoveTcp;
    var u, x := w.next, if k.Http? then Deleting(s) else Stopping(k.port, s);
    assert w.tasks[t := task][u := x] == w.tasks[u := x][t := task];
  }

  /** The entry just handled is struck off: its session is not live any more. */
  lemma PopKeeps(c: Config, w: World, b: Book, w': World, t: TaskId, e: Entry)
    requires Inv(c, w, b) && At(w, t).Some? && At(w, t).value.Conn? && At(w, t).value.phase.Cleaning?
    requires At(w, t).value.phase.todo != [] && e == At(w, t).value.phase.todo[0]
    requires w' == Becomes(w, t, At(w, t).value.(phase := Cleaning(At(w, t).value.phase.todo[1..])))
    requires LiveSession(w.reg, e.key) != Some(e.s)
    ensures Inv(c, w', b)
  {
    hide Inv, Sound, Holders, Covered, Carriers, Lives, Listeners, Receivers, Owned, Shaped;
    hide At, Becomes, LiveSession;
    InvParts(c, w, b);
    IdsBelow(w, b, t);
    NewPhase(w, w, w', t, At(w, t).value.(phase := Cleaning(At(w, t).value.phase.todo[1..])));
    HoldersKeep(w, b, w', b, {t});
    CoveredKeep(w, b, w', b, {t});
    CarriersKeep(w, b, w', b, {t});
    LivesKeep(w, b, w', b);
    ListenersKeep(w, b, w', b, {t});
    ReceiversKeep(w, w', {t});
    OwnedKeep(w, w', {t});
    ShapedKeep(w, w', {t});
    InvParts(c, w', b);
  }

  // ---- The steps of shutdowns and listeners ----

  lemma TakeReceiverKeeps(c: Config, w: World, b: Book, w': World, t: TaskId)
    requires Inv(c, w, b) && Apply(c, w, TakeReceiver(t)) == Some(w')
    ensures Inv(c, w', b)
  {
    hide Inv, Sound, Holders, Covered, Carriers, Lives, Listeners, Receivers, Owned, Shaped;
    hide At, Becomes, LiveSession, Release;
    InvParts(c, w, b);
    StepStarts(c, w, b, t);
    ReceiverThere(w, b, t);
    var task := At(w, t).value;
    var s := task.s;
    NewPhase(w.(receivers := w.receivers - {s}), w, w', t, Waiting(task.port, s));
    HoldersKeep(w, b, w', b, {t});
    CoveredKeep(w, b, w', b, {t});
    CarriersKeep(w, b, w', b, {t});
    LivesKeep(w, b, w', b);
    ListenersKeep(w, b, w', b, {t});
    ReceiversTaken(w, b, w', t, s);
    OwnedKeep(w, w', {t});
    ShapedKeep(w, w', {t});
    InvParts(c, w', b);
  }

  lemma ReceiversTaken(w: World, b: Book, w': World, t: TaskId, s: Session)
    requires Settled(w, b) && Same(w, w', {t}) && LiveSame(w.reg, w'.reg)
    requires Carried(At(w, t)) == Some(s) && NeedsReceiver(At(w', t)).None?
    requires w'.receivers == w.receivers - {s}
    ensures Receivers(w')
  {
    hide Listeners, Owned, Shaped, At, LiveSession;
    forall x: TaskId | NeedsReceiver(At(w', x)).Some?
      ensures NeedsReceiver(At(w', x)).value in w'.receivers
    {
      assert Carried(At(w, x)) == NeedsReceiver(At(w, x));
      assert b.carrier[s] == t != x;
    }
  }

  lemma SawStopKeeps(c: Config, w: World, b: Book, w': World, t: TaskId)
    requires Inv(c, w, b) && Apply(c, w, SawStop(t)) == Some(w')
    ensures Inv(c, w', b)
  {
    hide Inv, Sound, At, Becomes, Ends, Release, Shaped;
    StepStarts(c, w, b, t);
    var task := At(w, t).value;
    var h := Hold(Tcp(task.port), task.s.id);
    var w1 := w.(reg := Release(w.reg, h.key, h.owner));
    if task.Waiting? {
      NewPhase(w1, w, w', t, Deleting(task.s));
    } else {
      Gone(w1, w, w', t);
    }
    GiveBackKeeps(c, w, b, w', t, h);
  }

  lemma Gone(w1: World, w: World, w': World, t: TaskId)
    requires w1.tasks == w.tasks && w' == Ends(w1, t)
    ensures At(w', t).None? && Same(w, w', {t}) && w' == w1.(tasks := w'.tasks)
  {
  }

  lemma ListenerReleasesKeeps(c: Config, w: World, b: Book, w': World, t: TaskId)
    requires Inv(c, w, b) && Apply(c, w, ListenerReleases(t)) == Some(w')
    ensures Inv(c, w', b)
  {
    hide Inv, Sound, At, Becomes, Release, Shaped;
    StepStarts(c, w, b, t);
    var task := At(w, t).value;
    NewPhase(w.(reg := Release(w.reg, Tcp(task.port), task.s.id)), w, w', t, Deleting(task.s));
    GiveBackKeeps(c, w, b, w', t, Hold(Tcp(task.port), task.s.id));
  }

  lemma TimeOutKeeps(c: Config, w: World, b: Book, w': World, t: TaskId) returns (b': Book)
    requires Inv(c, w, b) && Apply(c, w, TimeOut(t)) == Some(w')
    ensures Inv(c, w', b')
  {
    hide Inv, Sound, Holders, Covered, Settled, Shaped, At, Becomes, Starts, LiveSession;
    StepStarts(c, w, b, t);
    InvParts(c, w, b);
    var task, u := At(w, t).value, w.next;
    TwoTasks(w, w', t, Deleting(task.s), Retained(task.port, task.s));
    b' := b.(holder := b.holder[Tcp(task.port) := u]);
    HoldersPass(w, b, w', b', t, u);
    CoverOnPass(w, b, w', b', t, u, Place(task.port, task.s));
    CoveredStep(w, b, w', b', {t, u});
    RolesKeep(w, b, w', b', {t, u});
    InvParts(c, w', b');
  }

  lemma TwoTasks(w: World, w': World, t: TaskId, task: Task, task': Task)
    requires Shaped(w) && t < w.next && w' == Starts(Becomes(w, t, task), task')
    ensures At(w', t) == Some(task) && At(w, w.next).None? && At(w', w.next) == Some(task')
    ensures Same(w, w', {t, w.next}) && w' == w.(tasks := w'.tasks, next := w.next + 1)
  {
    assert At(w, w.next).Some? ==> w.next < w.next;
  }

  lemma CoverOnPass(w: World, b: Book, w': World, b': Book, t: TaskId, u: TaskId, p: Place)
    requires Same(w, w', {t, u}) && LiveSame(w.reg, w'.reg) && t != u
    requires ShuttingDown(At(w, t)) == Some(p) && ShuttingDown(At(w', u)) == Some(p)
    requires ShuttingDown(At(w, u)).None?
    requires Holders(w, b) && Held(At(w, t)) == Some(Hold(Tcp(p.port), p.s.id))
    requires b'.holder == b.holder[Tcp(p.port) := u]
    ensures forall q: Place | Cover(w, b, q) :: Cover(w', b', q)
  {
    hide LiveSession, At, ShuttingDown, Held;
    assert b.holder[Tcp(p.port)] == t;
  }

  lemma DeleteKeeps(c: Config, w: World, b: Book, w': World, t: TaskId) returns (b': Book)
    requires Inv(c, w, b) && Apply(c, w, Delete(t)) == Some(w')
    ensures Inv(c, w', b')
  {
    hide Inv, Sound, Holders, Covered, Carriers, Lives, Listeners, Receivers, Owned, Shaped;
    hide At, Ends, LiveSession;
    InvParts(c, w, b);
    StepStarts(c, w, b, t);
    CarriedBy(w, b, t);
    var s := At(w, t).value.s;
    Gone(Attempted(w, s), w, w', t);
    b' := b.(carrier := b.carrier - {s});
    HoldersKeep(w, b, w', b', {t});
    CoveredKeep(w, b, w', b', {t});
    CarriersDrop(w, b, w', b', t, s);
    LivesAttempt(w, b, w', b', s);
    ListenersKeep(w, b, w', b', {t});
    ReceiversKeep(w, w', {t});
    OwnedKeep(w, w', {t});
    ShapedKeep(w, w', {t});
    InvParts(c, w', b');
  }

  lemma SignalKeeps(c: Config, w: World, b: Book, w': World, t: TaskId)
    requires Inv(c, w, b) && Apply(c, w, Signal(t)) == Some(w')
    ensures Inv(c, w', b)
  {
    hide Inv, Sound, Holders, Covered, Carriers, Lives, Listeners, Receivers, Owned, Shaped;
    hide At, Becomes, LiveSession;
    InvParts(c, w, b);
    StepStarts(c, w, b, t);
    var task := At(w, t).value;
    NewPhase(w.(stopped := w.stopped + {task.s}), w, w', t, Signalled(task.port, task.s));
    HoldersKeep(w, b, w', b, {t});
    CoveredKeep(w, b, w', b, {t});
    CarriersKeep(w, b, w', b, {t});
    LivesKeep(w, b, w', b);
    ListenersSignal(w, b, w', b, t, task.s);
    ReceiversKeep(w, w', {t});
    OwnedKeep(w, w', {t});
    ShapedKeep(w, w', {t});
    InvParts(c, w', b);
  }

  lemma ListenerRemovesKeeps(c: Config, w: World, b: Book, w': World, t: TaskId) returns (b': Book)
    requires Inv(c, w, b) && Apply(c, w, ListenerRemoves(t)) == Some(w')
    ensures Inv(c, w', b')
  {
    hide Inv, Sound, At, Becomes, Ends, RemoveTcp, LiveSession, Shaped;
    StepStarts(c, w, b, t);
    var task := At(w, t).value;
    RemoveTcpEffect(c, w.reg, task.port, task.s);
    var (reg, removed) := RemoveTcp(w.reg, task.port, task.s);
    if removed.None? {
      Gone(w, w, w', t);
      QuietKeeps(c, w, b, w', {t});
      b' := b;
    } else {
      NewPhase(w.(reg := reg), w, w', t, Withdrawing(task.port, task.s));
      b' := RemoveKeeps(c, w, b, w', t, Tcp(task.port), task.s);
    }
  }

  lemma SpawnKeeps(c: Config, w: World, b: Book, w': World, t: TaskId) returns (b': Book)
    requires Inv(c, w, b) && Apply(c, w, Spawn(t)) == Some(w')
    ensures Inv(c, w', b')
  {
    hide Inv, Sound, Holders, Covered, Carriers, Lives, Listeners, Receivers, Owned, Shaped;
    hide At, Becomes, Starts, LiveSession;
    InvParts(c, w, b);
    StepStarts(c, w, b, t);
    var task, u := At(w, t).value, w.next;
    var p := Place(task.phase.port, task.phase.s);
    TwoTasks(w, w', t, task.(phase := Ready), Serving(p.port, p.s));
    b' := b.(listener := b.listener[p.s := u]);
    HoldersKeep(w, b, w', b', {t, u});
    CoverMoves(w, b, w', b', t, u, p);
    CarriersKeep(w, b, w', b', {t, u});
    LivesKeep(w, b, w', b');
    ListenersPass(w, b, w', b', t, u, p.s);
    ReceiversKeep(w, w', {t, u});
    OwnedKeep(w, w', {t, u});
    ShapedKeep(w, w', {t, u});
    InvParts(c, w', b');
  }

  /** The listener's cover passes to the task that takes over its socket. */
  lemma CoverMoves(w: World, b: Book, w': World, b': Book, t: TaskId, u: TaskId, p: Place)
    requires Covered(w, b) && Same(w, w', {t, u}) && LiveSame(w.reg, w'.reg)
    requires Listening(At(w, t)) == Some(p) && Listening(At(w', u)) == Some(p)
    requires Listening(At(w', t)).None? && b'.holder == b.holder
    requires ShuttingDown(At(w, t)).None? && ShuttingDown(At(w, u)).None?
    ensures Covered(w', b')
  {
    hide Listening, At, LiveSession, ShuttingDown;
    assert Cover(w, b, p);
    forall q: Place | Cover(w, b, q) ensures Cover(w', b', q) {
    }
    CoveredStep(w, b, w', b', {t, u});
  }

  // ---- The quiet steps ----

  lemma QuietStepKeeps(c: Config, w: World, b: Book, w': World, e: Event)
    requires Inv(c, w, b) && Apply(c, w, e) == Some(w')
    requires e.Disconnect? || e.Close? || e.ServeEnds?
    ensures Inv(c, w', b)
  {
    hide Inv, Sound, At, Becomes, Ends, Shaped;
    var t := e.t;
    StepStarts(c, w, b, t);
    var task := At(w, t).value;
    match e
    case Disconnect(_) =>
      NewPhase(w, w, w', t, task.(phase := Cleaning(task.names + task.ports)));
      QuietKeeps(c, w, b, w', {t});
    case Close(_) =>
      Gone(w, w, w', t);
      QuietKeeps(c, w, b, w', {t});
    case ServeEnds(_) =>
      NewPhase(w, w, w', t, Dropped(task.port, task.s));
      QuietKeeps(c, w, b, w', {t});
  }

  lemma ConnectKeeps(c: Config, w: World, b: Book, w': World)
    requires Inv(c, w, b) && Apply(c, w, Connect) == Some(w')
    ensures Inv(c, w', b)
  {
    hide Inv, Sound, At, Starts, Shaped, Holders, Covered, Settled;
    InvParts(c, w, b);
    IsShaped(w, b);
    NewTask(w, w, w', Conn(Ready, [], []));
    QuietKeeps(c, w, b, w', {w.next});
  }

  /** No registration was refused, so there is nothing to withdraw from. */
  lemma NothingToWithdraw(c: Config, w: World, b: Book, t: TaskId)
    requires Inv(c, w, b)
    ensures Apply(c, w, Withdraw(t)).None?
  {
    hide Inv, Sound, At, Release, Shaped;
    if At(w, t).Some? {
      StepStarts(c, w, b, t);
    }
  }

  // ---- All together ----

  lemma StepKeeps(c: Config, w: World, b: Book, e: Event, w': World) returns (b': Book)
    requires Inv(c, w, b) && Apply(c, w, e) == Some(w')
    ensures Inv(c, w', b')
  {
    hide Inv, Apply;
    b' := b;
    match e
    case Connect => ConnectKeeps(c, w, b, w');
    case AskHttp(t, name, id) => b' := AskHttpKeeps(c, w, b, w', t, name, id);
    case AskTcp(t, requested, id) => b' := AskTcpKeeps(c, w, b, w', t, requested, id);
    case GiveUp(t) => GiveUpKeeps(c, w, b, w', t);
    case Build(t, s) => b' := BuildKeeps(c, w, b, w', t, s);
    case Bind(t, s) => b' := BindKeeps(c, w, b, w', t, s);
    case Register(t) => b' := RegisterKeeps(c, w, b, w', t);
    case Withdraw(t) => NothingToWithdraw(c, w, b, t);
    case Spawn(t) => b' := SpawnKeeps(c, w, b, w', t);
    case Disconnect(_) => QuietStepKeeps(c, w, b, w', e);
    case CleanNext(t) => b' := CleanNextKeeps(c, w, b, w', t);
    case Close(_) => QuietStepKeeps(c, w, b, w', e);
    case Reap(k, s) => b' := ReapKeeps(c, w, b, w', k, s);
    case TakeReceiver(t) => TakeReceiverKeeps(c, w, b, w', t);
    case SawStop(t) => SawStopKeeps(c, w, b, w', t);
    case TimeOut(t) => b' := TimeOutKeeps(c, w, b, w', t);
    case Delete(t) => b' := DeleteKeeps(c, w, b, w', t);
    case ServeEnds(_) => QuietStepKeeps(c, w, b, w', e);
    case Signal(t) => SignalKeeps(c, w, b, w', t);
    case ListenerRemoves(t) => b' := ListenerRemovesKeeps(c, w, b, w', t);
    case ListenerReleases(t) => ListenerReleasesKeeps(c, w, b, w', t);
  }
}
