/** How each part of the invariant follows a change of a few tasks. */
module ProtocolParts {
  import opened Sequences
  import opened Registry
  import opened Protocol
  import opened ProtocolInvariant

  /** Only the tasks in `d` differ. */
  ghost predicate Same(w: World, w': World, d: set<TaskId>) {
    forall t | t !in d :: At(w', t) == At(w, t)
  }

  ghost predicate Extends(w: World, w': World) {
    forall s | s in w.home :: s in w'.home && w'.home[s] == w.home[s]
  }

  // ---- Reservations ----

  lemma HoldersKeep(w: World, b: Book, w': World, b': Book, d: set<TaskId>)
    requires Holders(w, b) && Same(w, w', d) && b'.holder == b.holder
    requires w'.reg.reservations == w.reg.reservations
    requires forall t | t in d :: Held(At(w', t)) == Held(At(w, t))
    ensures Holders(w', b')
  {
    hide Held, At;
    assert forall t :: Held(At(w', t)) == Held(At(w, t));
  }

  lemma HoldersAcquire(w: World, b: Book, w': World, b': Book, t: TaskId, h: Hold, d: set<TaskId>)
    requires Holders(w, b) && Same(w, w', d) && t in d
    requires h.key !in w.reg.reservations
    requires w'.reg.reservations == w.reg.reservations[h.key := h.owner]
    requires Held(At(w, t)).None? && Held(At(w', t)) == Some(h)
    requires forall x | x in d && x != t :: Held(At(w', x)) == Held(At(w, x))
    requires b'.holder == b.holder[h.key := t]
    ensures Holders(w', b')
  {
    hide Held, At;
    assert forall x | x != t :: Held(At(w', x)) == Held(At(w, x));
  }

  lemma HoldersRelease(w: World, b: Book, w': World, b': Book, t: TaskId, k: Key)
    requires Holders(w, b) && Same(w, w', {t}) && b'.holder == b.holder
    requires Held(At(w, t)).Some? && Held(At(w, t)).value.key == k && Held(At(w', t)).None?
    requires w'.reg.reservations == w.reg.reservations - {k}
    ensures Holders(w', b')
  {
    hide Held, At;
    assert forall x | x != t :: Held(At(w', x)) == Held(At(w, x));
  }

  lemma HoldersPass(w: World, b: Book, w': World, b': Book, t: TaskId, u: TaskId)
    requires Holders(w, b) && Same(w, w', {t, u}) && t != u
    requires w'.reg.reservations == w.reg.reservations
    requires Held(At(w, t)).Some? && Held(At(w', t)).None?
    requires Held(At(w, u)).None? && Held(At(w', u)) == Held(At(w, t))
    requires b'.holder == b.holder[Held(At(w, t)).value.key := u]
    ensures Holders(w', b')
  {
    hide Held, At;
    assert forall x | x != t && x != u :: Held(At(w', x)) == Held(At(w, x));
  }

  /** The owner a held reservation stands under is its holder's. */
  lemma HolderOwns(w: World, b: Book, t: TaskId)
    requires Holders(w, b) && Held(At(w, t)).Some?
    ensures ReservedBy(w.reg, Held(At(w, t)).value.key, Held(At(w, t)).value.owner)
  {
    hide Held, At;
  }

  // ---- Sessions ----

  lemma CarriersKeep(w: World, b: Book, w': World, b': Book, d: set<TaskId>)
    requires Carriers(w, b) && Same(w, w', d) && Extends(w, w') && b'.carrier == b.carrier
    requires forall t | t in d :: Carried(At(w', t)) == Carried(At(w, t))
    ensures Carriers(w', b')
  {
    hide Carried, At;
    assert forall t :: Carried(At(w', t)) == Carried(At(w, t));
  }

  lemma CarriersAcquire(w: World, b: Book, w': World, b': Book, t: TaskId, s: Session, d: set<TaskId>)
    requires Carriers(w, b) && Same(w, w', d) && t in d && Extends(w, w')
    requires s !in b.carrier && s in w'.home && b'.carrier == b.carrier[s := t]
    requires Carried(At(w, t)).None? && Carried(At(w', t)) == Some(s)
    requires forall x | x in d && x != t :: Carried(At(w', x)) == Carried(At(w, x))
    ensures Carriers(w', b')
  {
    hide Carried, At;
    assert forall x | x != t :: Carried(At(w', x)) == Carried(At(w, x));
  }

  lemma CarriersDrop(w: World, b: Book, w': World, b': Book, t: TaskId, s: Session)
    requires Carriers(w, b) && Same(w, w', {t}) && Extends(w, w')
    requires b'.carrier == b.carrier - {s}
    requires Carried(At(w, t)) == Some(s) && Carried(At(w', t)).None?
    ensures Carriers(w', b')
  {
    hide Carried, At;
    assert forall x | x != t :: Carried(At(w', x)) == Carried(At(w, x));
  }

  lemma LivesKeep(w: World, b: Book, w': World, b': Book)
    requires Lives(w, b) && LiveSame(w.reg, w'.reg) && b'.carrier.Keys == b.carrier.Keys
    requires w'.home == w.home && w'.attempts == w.attempts
    ensures Lives(w', b')
  {
    hide LiveSession;
  }

  lemma LivesNew(w: World, b: Book, w': World, b': Book, s: Session, o: Origin)
    requires Lives(w, b) && LiveSame(w.reg, w'.reg) && s !in w.home
    requires b'.carrier.Keys == b.carrier.Keys + {s}
    requires w'.home == w.home[s := o] && w'.attempts == w.attempts[s := 0]
    ensures Lives(w', b')
  {
    hide LiveSession;
  }

  lemma LivesPublish(w: World, b: Book, w': World, b': Book, s: Session, k: Key)
    requires Lives(w, b) && s in b.carrier && s in w.home && w.home[s].key == k
    requires LiveSession(w.reg, k).None? && LiveSession(w'.reg, k) == Some(s)
    requires LiveExcept(w.reg, w'.reg, k)
    requires b'.carrier.Keys == b.carrier.Keys - {s}
    requires w'.home == w.home && w'.attempts == w.attempts
    ensures Lives(w', b')
  {
    hide LiveSession;
  }

  lemma LivesRemove(w: World, b: Book, w': World, b': Book, s: Session, k: Key)
    requires Lives(w, b) && LiveSession(w.reg, k) == Some(s) && LiveSession(w'.reg, k).None?
    requires LiveExcept(w.reg, w'.reg, k)
    requires b'.carrier.Keys == b.carrier.Keys + {s}
    requires w'.home == w.home && w'.attempts == w.attempts
    ensures Lives(w', b')
  {
    hide LiveSession;
  }

  lemma LivesAttempt(w: World, b: Book, w': World, b': Book, s: Session)
    requires Lives(w, b) && LiveSame(w.reg, w'.reg) && s in b.carrier && s in w.home
    requires LiveSession(w.reg, w.home[s].key) != Some(s)
    requires b'.carrier.Keys == b.carrier.Keys - {s}
    requires w'.home == w.home && s in w.attempts && w'.attempts == w.attempts[s := w.attempts[s] + 1]
    ensures Lives(w', b')
  {
    hide LiveSession;
  }

  // ---- Listeners ----

  lemma ListenersKeep(w: World, b: Book, w': World, b': Book, d: set<TaskId>)
    requires Listeners(w, b) && Same(w, w', d) && Extends(w, w')
    requires b'.listener == b.listener && w'.stopped == w.stopped
    requires forall t | t in d ::
               || ListenerOf(At(w', t)).None?
               || (ListenerOf(At(w', t)) == ListenerOf(At(w, t))
                   && (HasSignalled(At(w, t)) ==> HasSignalled(At(w', t))))
    ensures Listeners(w', b')
  {
    hide ListenerOf, HasSignalled, At;
    forall t | ListenerOf(At(w', t)).Some?
      ensures ListenerOf(At(w', t)) == ListenerOf(At(w, t))
      ensures HasSignalled(At(w, t)) ==> HasSignalled(At(w', t))
    {
    }
  }

  lemma ListenersBind(w: World, b: Book, w': World, b': Book, t: TaskId, s: Session)
    requires Listeners(w, b) && Same(w, w', {t}) && Extends(w, w') && w'.stopped == w.stopped
    requires s !in w.home && s in w'.home && b'.listener == b.listener[s := t]
    requires ListenerOf(At(w, t)).None? && ListenerOf(At(w', t)) == Some(s)
    ensures Listeners(w', b')
  {
    hide ListenerOf, HasSignalled, At;
    assert forall x | x != t :: At(w', x) == At(w, x);
  }

  lemma ListenersPass(w: World, b: Book, w': World, b': Book, t: TaskId, u: TaskId, s: Session)
    requires Listeners(w, b) && Same(w, w', {t, u}) && Extends(w, w') && w'.stopped == w.stopped
    requires t != u && ListenerOf(At(w, t)) == Some(s) && ListenerOf(At(w', t)).None?
    requires !HasSignalled(At(w, t)) && ListenerOf(At(w, u)).None? && ListenerOf(At(w', u)) == Some(s)
    requires b'.listener == b.listener[s := u]
    ensures Listeners(w', b')
  {
    hide ListenerOf, HasSignalled, At;
    assert forall x | x != t && x != u :: At(w', x) == At(w, x);
  }

  lemma ListenersSignal(w: World, b: Book, w': World, b': Book, t: TaskId, s: Session)
    requires Listeners(w, b) && Same(w, w', {t}) && Extends(w, w')
    requires w'.stopped == w.stopped + {s} && b'.listener == b.listener
    requires ListenerOf(At(w, t)) == Some(s) && ListenerOf(At(w', t)) == Some(s)
    requires HasSignalled(At(w', t))
    ensures Listeners(w', b')
  {
    hide ListenerOf, HasSignalled, At;
    assert forall x | x != t :: At(w', x) == At(w, x);
  }

  // ---- Ports of listeners ----

  ghost predicate Cover(w: World, b: Book, p: Place) {
    || LiveSession(w.reg, Tcp(p.port)) == Some(p.s)
    || (Tcp(p.port) in b.holder && ShuttingDown(At(w, b.holder[Tcp(p.port)])) == Some(p))
  }

  /** Covers need only be kept for the listeners there were, and given to those that are new. */
  lemma CoveredStep(w: World, b: Book, w': World, b': Book, d: set<TaskId>)
    requires Covered(w, b) && Same(w, w', d)
    requires forall t | t in d && Listening(At(w', t)).Some? ::
               || Listening(At(w', t)) == Listening(At(w, t))
               || Cover(w', b', Listening(At(w', t)).value)
    requires forall t | Listening(At(w, t)).Some? && Cover(w, b, Listening(At(w, t)).value) ::
               Cover(w', b', Listening(At(w, t)).value) || Listening(At(w', t)).None?
    ensures Covered(w', b')
  {
    hide Listening, At, LiveSession, ShuttingDown;
    forall t | Listening(At(w', t)).Some? ensures Cover(w', b', Listening(At(w', t)).value) {
      if Listening(At(w', t)) == Listening(At(w, t)) {
        assert Cover(w, b, Listening(At(w, t)).value);
      }
    }
  }

  /** The common case: live tunnels and shutdowns stay as they are. */
  lemma CoveredKeep(w: World, b: Book, w': World, b': Book, d: set<TaskId>)
    requires Covered(w, b) && Same(w, w', d) && LiveSame(w.reg, w'.reg) && b'.holder == b.holder
    requires forall t | t in d ::
               Listening(At(w', t)).None? || Listening(At(w', t)) == Listening(At(w, t))
    requires forall t | t in d ::
               ShuttingDown(At(w, t)).None? || ShuttingDown(At(w', t)) == ShuttingDown(At(w, t))
    ensures Covered(w', b')
  {
    hide Listening, At, LiveSession, ShuttingDown;
    forall p: Place | Cover(w, b, p) ensures Cover(w', b', p) {
    }
    CoveredStep(w, b, w', b', d);
  }

  // ---- Receivers, owners, shape ----

  lemma ReceiversKeep(w: World, w': World, d: set<TaskId>)
    requires Receivers(w) && Same(w, w', d) && w.receivers <= w'.receivers
    requires forall port: nat | LiveSession(w'.reg, Tcp(port)).Some? ::
               || LiveSession(w'.reg, Tcp(port)) == LiveSession(w.reg, Tcp(port))
               || LiveSession(w'.reg, Tcp(port)).value in w.receivers
    requires forall t | t in d && NeedsReceiver(At(w', t)).Some? ::
               NeedsReceiver(At(w', t)).value in w'.receivers
    ensures Receivers(w')
  {
    hide NeedsReceiver, At, LiveSession;
  }

  lemma OwnedKeep(w: World, w': World, d: set<TaskId>)
    requires Owned(w) && Same(w, w', d) && Extends(w, w')
    requires forall k | LiveSession(w'.reg, k).Some? :: LiveSession(w'.reg, k) == LiveSession(w.reg, k)
    requires forall t, k, s | t in d && Owns(At(w, t), k, s) && LiveSession(w'.reg, k) == Some(s) ::
               Owns(At(w', t), k, s)
    ensures Owned(w')
  {
    hide Owns, At, LiveSession;
  }

  lemma OwnedPublish(w: World, w': World, t: TaskId, k: Key, s: Session)
    requires Owned(w) && Same(w, w', {t}) && w'.home == w.home
    requires LiveSession(w'.reg, k) == Some(s) && LiveExcept(w.reg, w'.reg, k)
    requires s in w.home && w.home[s].conn == t && Owns(At(w', t), k, s)
    requires forall k', s' | Owns(At(w, t), k', s') :: Owns(At(w', t), k', s')
    ensures Owned(w')
  {
    hide Owns, At, LiveSession;
  }

  lemma ShapedKeep(w: World, w': World, d: set<TaskId>)
    requires Shaped(w) && Same(w, w', d) && Extends(w, w') && w.next <= w'.next
    requires forall t | t in d && At(w', t).Some? :: t < w'.next && Fits(w'.home, t, At(w', t).value)
    requires forall s | s in w'.home :: s in w.home || w'.home[s].conn < w'.next
    ensures Shaped(w')
  {
    hide Fits;
    forall t: TaskId | At(w', t).Some?
      ensures t < w'.next && Fits(w'.home, t, At(w', t).value)
    {
      if t !in d {
        assert At(w', t) == At(w, t);
        FitsGrows(w.home, w'.home, t, At(w, t).value);
      }
    }
  }

  lemma FitsGrows(home: map<Session, Origin>, home': map<Session, Origin>, t: TaskId, task: Task)
    requires Fits(home, t, task)
    requires forall s | s in home :: s in home' && home'[s] == home[s]
    ensures Fits(home', t, task)
  {
    hide Placed;
  }

  // ---- Steps that leave sessions where they are ----

  /** The task answers for the same session, or for none where that is harmless. */
  ghost predicate KeepsRoles(task: Option<Task>, task': Option<Task>) {
    && Carried(task') == Carried(task)
    && (ListenerOf(task').None?
        || (ListenerOf(task') == ListenerOf(task) && (HasSignalled(task) ==> HasSignalled(task'))))
    && (NeedsReceiver(task').None? || NeedsReceiver(task') == NeedsReceiver(task))
    && (forall k, s | Owns(task, k, s) :: Owns(task', k, s))
  }

  ghost predicate Settled(w: World, b: Book) {
    Carriers(w, b) && Lives(w, b) && Listeners(w, b) && Receivers(w) && Owned(w) && Shaped(w)
  }

  lemma RolesKeep(w: World, b: Book, w': World, b': Book, d: set<TaskId>)
    requires Settled(w, b) && Same(w, w', d) && LiveSame(w.reg, w'.reg)
    requires w'.home == w.home && w'.attempts == w.attempts && w'.stopped == w.stopped
    requires w'.receivers == w.receivers && w.next <= w'.next
    requires b'.carrier == b.carrier && b'.listener == b.listener
    requires forall t | t in d :: KeepsRoles(At(w, t), At(w', t))
    requires forall t | t in d && At(w', t).Some? :: t < w'.next && Fits(w.home, t, At(w', t).value)
    ensures Settled(w', b')
  {
    hide At, Carried, ListenerOf, NeedsReceiver, HasSignalled, Owns, Fits, LiveSession;
    ReceiversKeep(w, w', d);
    hide Carriers, Lives, Listeners, Receivers, Owned, Shaped;
    CarriersKeep(w, b, w', b', d);
    LivesKeep(w, b, w', b');
    ListenersKeep(w, b, w', b', d);
    OwnedKeep(w, w', d);
    ShapedKeep(w, w', d);
  }

  lemma InvParts(c: Config, w: World, b: Book)
    ensures Inv(c, w, b) <==> Sound(c, w.reg) && Holders(w, b) && Covered(w, b) && Settled(w, b)
  {
    hide Sound, Holders, Covered, Carriers, Lives, Listeners, Receivers, Owned, Shaped;
  }

  lemma IdsBelow(w: World, b: Book, t: TaskId)
    requires Settled(w, b) && At(w, t).Some?
    ensures t < w.next
  {
  }
}
