/**
 * Revoking a token while its sessions run. A reload replaces the blocklist and raises the epoch
 * under the write lock; a session reads the blocklist only when the lock is free, and sleeps in
 * its select until a message or an epoch it has not seen wakes it. What a session answers goes
 * through a bounded queue that its own select empties, and from there to a peer that may stop
 * reading.
 */
module Revocation {
  import opened Sequences

  /** The capacity of a session's queue of outgoing messages. */
  const QUEUE: nat := 64

  datatype Pc =
    | Authenticating            // the token is valid; the blocklist has not been consulted yet
    | Admitted                  // not on the blocklist; the admission is being written
    | LoopTop                   // about to consult the blocklist
    | Parked                    // in the select
    | Handling(replies: bool)   // a client message is being dealt with; most end with a reply
    | Writing                   // a message taken from the queue is being written
    | Woken                     // the epoch changed; about to consult the blocklist
    | Notifying                 // the notice that the token is revoked is being written
    | Closed

  /** `queued` counts the queue; `reading` says the peer takes what is written to it. */
  datatype Session = Session(jti: string, pc: Pc, seen: nat, queued: nat, reading: bool)

  datatype Writer = Idle | Locked(next: set<string>) | Swapped | Bumped

  datatype State = State(
    blocklist: set<string>,
    epoch: nat,
    writer: Writer,
    sessions: map<nat, Session>)

  datatype Event =
    | Lock(list: set<string>)       // reload_revoked_jtis takes the write lock
    | Swap                          // clear and extend; nobody can read in between
    | Bump                          // the epoch rises
    | Unlock
    | Join(i: nat, jti: string)
    | Consult(i: nat)               // is_jti_revoked, at whichever of the three places
    | Subscribe(i: nat)             // the admission is written, the epoch subscribed to
    | Message(i: nat, replies: bool)  // a client message is taken up
    | Reply(i: nat)                 // the handler's last act: its reply enters the queue
    | Outgoing(i: nat)              // a queued message is taken to be written
    | Done(i: nat)                  // handled without a reply, or written
    | Changed(i: nat)               // the watch reports an epoch not seen before
    | Notified(i: nat)              // the notice is written
    | Leave(i: nat)                 // disconnect, shutdown, or a write that fails
    | Enqueue(i: nat)               // a public request, or the reaper, has a message for it
    | Stall(i: nat)
    | Resume(i: nat)

  function With(st: State, i: nat, s: Session): State {
    st.(sessions := st.sessions[i := s])
  }

  /** A lookup waits for the lock; a listed token sends the session to its notice. */
  function Consulted(st: State, i: nat, s: Session, otherwise: Pc): Option<State> {
    if st.writer != Idle then None
    else Some(With(st, i, s.(pc := if s.jti in st.blocklist then Notifying else otherwise)))
  }

  function SessionStep(st: State, e: Event, i: nat, s: Session): Option<State> {
    match (e, s.pc)
    case (Consult(_), Authenticating) => Consulted(st, i, s, Admitted)
    case (Consult(_), LoopTop) => Consulted(st, i, s, Parked)
    case (Consult(_), Woken) => Consulted(st, i, s, LoopTop)
    case (Subscribe(_), Admitted) =>
      if s.reading then Some(With(st, i, s.(pc := LoopTop, seen := st.epoch))) else None
    case (Message(_, replies), Parked) => Some(With(st, i, s.(pc := Handling(replies))))
    case (Reply(_), Handling(true)) =>
      if s.queued < QUEUE then Some(With(st, i, s.(pc := LoopTop, queued := s.queued + 1))) else None
    case (Done(_), Handling(false)) => Some(With(st, i, s.(pc := LoopTop)))
    case (Outgoing(_), Parked) =>
      if s.queued > 0 then Some(With(st, i, s.(pc := Writing, queued := s.queued - 1))) else None
    case (Done(_), Writing) => if s.reading then Some(With(st, i, s.(pc := LoopTop))) else None
    case (Changed(_), Parked) =>
      if s.seen == st.epoch then None else Some(With(st, i, s.(pc := Woken, seen := st.epoch)))
    case (Notified(_), Notifying) => if s.reading then Some(With(st, i, s.(pc := Closed))) else None
    case (Leave(_), Admitted) => Some(With(st, i, s.(pc := Closed)))
    case (Leave(_), Parked) => Some(With(st, i, s.(pc := Closed)))
    case (Leave(_), Writing) => Some(With(st, i, s.(pc := Closed)))
    case (Leave(_), Notifying) => Some(With(st, i, s.(pc := Closed)))
    case (Enqueue(_), Authenticating) => None
    case (Enqueue(_), Admitted) => None
    case (Enqueue(_), Closed) => None
    case (Enqueue(_), _) =>
      if s.queued < QUEUE then Some(With(st, i, s.(queued := s.queued + 1))) else None
    case (Stall(_), _) => Some(With(st, i, s.(reading := false)))
    case (Resume(_), _) => Some(With(st, i, s.(reading := true)))
    case _ => None
  }

  function Apply(st: State, e: Event): Option<State> {
    match e
    case Lock(list) => if st.writer == Idle then Some(st.(writer := Locked(list))) else None
    case Swap =>
      if st.writer.Locked? then Some(st.(blocklist := st.writer.next, writer := Swapped)) else None
    case Bump =>
      if st.writer == Swapped then Some(st.(epoch := st.epoch + 1, writer := Bumped)) else None
    case Unlock => if st.writer == Bumped then Some(st.(writer := Idle)) else None
    case Join(i, jti) =>
      if i in st.sessions then None
      else Some(With(st, i, Session(jti, Authenticating, 0, 0, true)))
    case _ => if e.i in st.sessions then SessionStep(st, e, e.i, st.sessions[e.i]) else None
  }

  function Run(st: State, events: seq<Event>): Option<State>
    decreases |events|
  {
    if events == [] then Some(st)
    else match Apply(st, events[0])
         case None => None
         case Some(st') => Run(st', events[1..])
  }

  predicate Initial(st: State) {
    st.sessions == map[] && st.epoch == 0 && st.writer == Idle
  }

  // ---- No lost wake-up ----

  predicate Sane(st: State, s: Session) {
    && s.seen <= st.epoch && s.queued <= QUEUE
    && (s.pc == Parked && s.jti in st.blocklist ==> s.seen < st.epoch || st.writer == Swapped)
  }

  ghost predicate Inv(st: State) {
    forall i | i in st.sessions :: Sane(st, st.sessions[i])
  }

  lemma StepKeeps(st: State, e: Event, st': State)
    requires Inv(st) && Apply(st, e) == Some(st')
    ensures Inv(st')
  {
  }

  lemma {:induction false} RunKeeps(st: State, events: seq<Event>)
    requires Inv(st) && Run(st, events).Some?
    ensures Inv(Run(st, events).value)
    decreases |events|
  {
    hide Inv, Apply;
    if events != [] {
      var next := Apply(st, events[0]).value;
      StepKeeps(st, events[0], next);
      RunKeeps(next, events[1..]);
    }
  }

  /**
   * A session asleep while its token is on the blocklist can always be woken: unless a reload is
   * between its two writes, an epoch it has not seen is pending.
   */
  lemma RevokedSleeperCanWake(init: State, events: seq<Event>, i: nat)
    requires Initial(init) && Run(init, events).Some?
    requires var st := Run(init, events).value;
             i in st.sessions && st.sessions[i].pc == Parked
             && st.sessions[i].jti in st.blocklist && st.writer != Swapped
    ensures var st := Run(init, events).value;
            st.sessions[i].seen < st.epoch && Apply(st, Changed(i)).Some?
  {
    hide Run;
    RunKeeps(init, events);
  }

  // ---- At most one more message ----

  /** The jti is on the blocklist now and after every one of the events. */
  predicate StaysRevoked(st: State, events: seq<Event>, jti: string)
    decreases |events|
  {
    && jti in st.blocklist
    && (events != [] && Apply(st, events[0]).Some? ==>
          StaysRevoked(Apply(st, events[0]).value, events[1..], jti))
  }

  predicate IsMessage(e: Event, i: nat) {
    e.Message? && e.i == i
  }

  function MessagesOf(events: seq<Event>, i: nat): nat {
    if events == [] then 0
    else (if IsMessage(events[0], i) then 1 else 0) + MessagesOf(events[1..], i)
  }

  /** How many client messages a revoked session may still take up. */
  function Allowance(st: State, i: nat): nat {
    if i in st.sessions && st.sessions[i].pc == Parked then 1 else 0
  }

  lemma StepSpends(st: State, e: Event, st': State, i: nat)
    requires i in st.sessions && Apply(st, e) == Some(st') && st.sessions[i].jti in st.blocklist
    ensures i in st'.sessions && st'.sessions[i].jti == st.sessions[i].jti
    ensures (if IsMessage(e, i) then 1 else 0) + Allowance(st', i) <= Allowance(st, i)
  {
  }

  /** Once its token stays revoked, a session starts on at most one more client message. */
  lemma {:induction false} AtMostOneMoreMessage(st: State, events: seq<Event>, i: nat)
    requires i in st.sessions && Run(st, events).Some?
    requires StaysRevoked(st, events, st.sessions[i].jti)
    ensures MessagesOf(events, i) + Allowance(Run(st, events).value, i) <= Allowance(st, i) <= 1
    decreases |events|
  {
    hide Apply, Allowance;
    if events == [] {
      AllowanceIsOneAtMost(st, i);
    } else {
      var next := Apply(st, events[0]).value;
      StepSpends(st, events[0], next, i);
      AtMostOneMoreMessage(next, events[1..], i);
      AllowanceIsOneAtMost(st, i);
    }
  }

  lemma AllowanceIsOneAtMost(st: State, i: nat)
    ensures Allowance(st, i) <= 1
  {
  }

  // ---- And it closes ----

  /** The steps a session takes by itself; the others are its peer's and its surroundings'. */
  predicate IsOwn(e: Event, i: nat) {
    && !e.Lock? && !e.Swap? && !e.Bump? && !e.Unlock? && !e.Join?
    && !e.Leave? && !e.Enqueue? && !e.Stall? && !e.Resume?
    && e.i == i
  }

  /** How many steps of its own a revoked session has left. */
  function Remaining(pc: Pc): nat {
    match pc
    case Parked => 4
    case Handling(_) => 3
    case Writing => 3
    case Admitted => 3
    case LoopTop => 2
    case Woken => 2
    case Authenticating => 2
    case Notifying => 1
    case Closed => 0
  }

  function StepsOf(events: seq<Event>, i: nat): nat {
    if events == [] then 0 else (if IsOwn(events[0], i) then 1 else 0) + StepsOf(events[1..], i)
  }

  lemma StepAdvances(st: State, e: Event, st': State, i: nat)
    requires i in st.sessions && Apply(st, e) == Some(st') && st.sessions[i].jti in st.blocklist
    ensures i in st'.sessions && st'.sessions[i].jti == st.sessions[i].jti
    ensures (if IsOwn(e, i) then 1 else 0) + Remaining(st'.sessions[i].pc)
            <= Remaining(st.sessions[i].pc)
  {
  }

  /** Every step a revoked session takes brings it nearer to its close: four are enough. */
  lemma {:induction false} RevokedSessionRunsOut(st: State, events: seq<Event>, i: nat)
    requires i in st.sessions && Run(st, events).Some?
    requires StaysRevoked(st, events, st.sessions[i].jti)
    ensures var st' := Run(st, events).value;
            && i in st'.sessions
            && StepsOf(events, i) + Remaining(st'.sessions[i].pc) <= Remaining(st.sessions[i].pc) <= 4
    decreases |events|
  {
    hide Apply, Remaining, IsOwn;
    RemainingBound(st.sessions[i].pc);
    if events != [] {
      var next := Apply(st, events[0]).value;
      StepAdvances(st, events[0], next, i);
      RevokedSessionRunsOut(next, events[1..], i);
    }
  }

  lemma RemainingBound(pc: Pc)
    ensures Remaining(pc) <= 4
  {
  }

  // ---- Unless it is stuck ----

  /** A handler whose reply finds the queue full, or a write to a peer that does not read. */
  predicate Blocked(s: Session) {
    || (s.pc == Handling(true) && s.queued == QUEUE)
    || (!s.reading && (s.pc == Admitted || s.pc == Writing || s.pc == Notifying))
  }

  /** What a revoked session does next. */
  function NextStep(pc: Pc, i: nat): Event {
    match pc
    case Admitted => Subscribe(i)
    case Parked => Changed(i)
    case Handling(replies) => if replies then Reply(i) else Done(i)
    case Writing => Done(i)
    case Notifying => Notified(i)
    case _ => Consult(i)
  }

  /**
   * While no reload is under way, a revoked session that is not closed can take its next step
   * exactly when it is not blocked; blocked, it can take no step of its own at all.
   */
  lemma RevokedSessionAdvancesIff(init: State, events: seq<Event>, i: nat)
    requires Initial(init) && Run(init, events).Some?
    requires var st := Run(init, events).value;
             i in st.sessions && st.sessions[i].pc != Closed
             && st.sessions[i].jti in st.blocklist && st.writer == Idle
    ensures var st := Run(init, events).value;
            && IsOwn(NextStep(st.sessions[i].pc, i), i)
            && (Apply(st, NextStep(st.sessions[i].pc, i)).Some? <==> !Blocked(st.sessions[i]))
            && (Blocked(st.sessions[i]) ==> forall e | IsOwn(e, i) :: Apply(st, e) == None)
  {
    hide Run;
    RunKeeps(init, events);
  }

  lemma StaysFull(st: State, e: Event, st': State, i: nat)
    requires i in st.sessions && Apply(st, e) == Some(st')
    requires st.sessions[i].pc == Handling(true) && st.sessions[i].queued == QUEUE
    ensures i in st'.sessions && st'.sessions[i].jti == st.sessions[i].jti
    ensures st'.sessions[i].pc == Handling(true) && st'.sessions[i].queued == QUEUE
  {
  }

  /**
   * Only the session's own select empties its queue, so a handler that meets a full one waits for
   * itself: whatever happens around it, it stays where it is, its token revoked or not.
   */
  lemma {:induction false} FullHandlerIsStuck(st: State, events: seq<Event>, i: nat)
    requires i in st.sessions && Run(st, events).Some?
    requires st.sessions[i].pc == Handling(true) && st.sessions[i].queued == QUEUE
    ensures var st' := Run(st, events).value;
            && i in st'.sessions && st'.sessions[i].jti == st.sessions[i].jti
            && st'.sessions[i].pc == Handling(true) && st'.sessions[i].queued == QUEUE
    decreases |events|
  {
    hide Apply;
    if events != [] {
      var next := Apply(st, events[0]).value;
      StaysFull(st, events[0], next, i);
      FullHandlerIsStuck(next, events[1..], i);
    }
  }

  const START: State := State({}, 0, Idle, map[])

  function Enqueues(n: nat): seq<Event> {
    if n == 0 then [] else [Enqueue(0)] + Enqueues(n - 1)
  }

  /** Sixty-four requests queue up, a message that wants a reply is taken, the token is revoked. */
  function StuckRun(jti: string): seq<Event> {
    [Join(0, jti), Consult(0), Subscribe(0), Consult(0)] + Enqueues(QUEUE)
    + [Message(0, true), Lock({jti}), Swap, Bump, Unlock]
  }

  lemma {:induction false} RunOfSum(st: State, a: seq<Event>, b: seq<Event>)
    requires Run(st, a).Some?
    ensures Run(st, a + b) == Run(Run(st, a).value, b)
    decreases |a|
  {
    hide Apply;
    if a == [] {
      assert a + b == b;
    } else {
      assert (a + b)[1..] == a[1..] + b;
      RunOfSum(Apply(st, a[0]).value, a[1..], b);
    }
  }

  /** A session parked with `queued` messages in its queue. */
  function ParkedWith(jti: string, queued: nat): State {
    State({}, 0, Idle, map[0 := Session(jti, Parked, 0, queued, true)])
  }

  lemma EnqueueOne(jti: string, queued: nat)
    requires queued < QUEUE
    ensures Apply(ParkedWith(jti, queued), Enqueue(0)) == Some(ParkedWith(jti, queued + 1))
  {
    var s := Session(jti, Parked, 0, queued, true);
    assert map[0 := s][0 := s.(queued := queued + 1)] == map[0 := s.(queued := queued + 1)];
  }

  lemma {:induction false} EnqueuesRun(jti: string, queued: nat, n: nat)
    requires queued + n <= QUEUE
    ensures Run(ParkedWith(jti, queued), Enqueues(n)) == Some(ParkedWith(jti, queued + n))
    decreases n
  {
    hide Apply, ParkedWith;
    if n > 0 {
      EnqueueOne(jti, queued);
      EnqueuesRun(jti, queued + 1, n - 1);
      assert Enqueues(n)[1..] == Enqueues(n - 1);
    }
  }

  lemma RunHead(st: State, events: seq<Event>, next: State)
    requires events != [] && Apply(st, events[0]) == Some(next)
    ensures Run(st, events) == Run(next, events[1..])
    ensures Run(next, []) == Some(next)
  {
  }

  lemma RunsToParked(jti: string)
    ensures Run(START, [Join(0, jti), Consult(0), Subscribe(0), Consult(0)])
            == Some(ParkedWith(jti, 0))
  {
    hide Run;
    var s := Session(jti, Authenticating, 0, 0, true);
    var s0, s1 := State({}, 0, Idle, map[0 := s]), State({}, 0, Idle, map[0 := s.(pc := Admitted)]);
    var s2, s3 := State({}, 0, Idle, map[0 := s.(pc := LoopTop)]), ParkedWith(jti, 0);
    var events := [Join(0, jti), Consult(0), Subscribe(0), Consult(0)];
    assert Apply(s0, Consult(0)).value.sessions == s1.sessions;
    assert Apply(s1, Subscribe(0)).value.sessions == s2.sessions;
    assert Apply(s2, Consult(0)).value.sessions == s3.sessions;
    RunHead(START, events, s0);
    RunHead(s0, events[1..], s1);
    RunHead(s1, events[1..][1..], s2);
    RunHead(s2, events[1..][1..][1..], s3);
    assert events[1..][1..][1..][1..] == [];
  }

  lemma RunsToStuck(jti: string)
    ensures Run(ParkedWith(jti, QUEUE), [Message(0, true), Lock({jti}), Swap, Bump, Unlock])
            == Some(State({jti}, 1, Idle, map[0 := Session(jti, Handling(true), 0, QUEUE, true)]))
  {
    hide Run;
    var sessions := map[0 := Session(jti, Handling(true), 0, QUEUE, true)];
    var s1, s2 := State({}, 0, Idle, sessions), State({}, 0, Locked({jti}), sessions);
    var s3, s4 := State({jti}, 0, Swapped, sessions), State({jti}, 1, Bumped, sessions);
    var events := [Message(0, true), Lock({jti}), Swap, Bump, Unlock];
    assert Apply(ParkedWith(jti, QUEUE), Message(0, true)).value.sessions == sessions;
    RunHead(ParkedWith(jti, QUEUE), events, s1);
    RunHead(s1, events[1..], s2);
    RunHead(s2, events[1..][1..], s3);
    RunHead(s3, events[1..][1..][1..], s4);
    RunHead(s4, events[1..][1..][1..][1..], s4.(writer := Idle));
    assert events[1..][1..][1..][1..][1..] == [];
  }

  /**
   * The block is real: a run from the start ends with the token revoked, no reload under way and
   * the session stuck, and in every continuation it is never closed.
   */
  lemma {:induction false} RevokedSessionCanStayOpen(jti: string, more: seq<Event>)
    ensures Run(START, StuckRun(jti)).Some?
    ensures var st := Run(START, StuckRun(jti)).value;
            && 0 in st.sessions && st.sessions[0].jti == jti && jti in st.blocklist && st.writer == Idle
            && Blocked(st.sessions[0])
            && (Run(st, more).Some? ==>
                  0 in Run(st, more).value.sessions
                  && Run(st, more).value.sessions[0].pc == Handling(true))
  {
    hide Run, Apply, Enqueues;
    var a := [Join(0, jti), Consult(0), Subscribe(0), Consult(0)];
    var c := [Message(0, true), Lock({jti}), Swap, Bump, Unlock];
    RunsToParked(jti);
    EnqueuesRun(jti, 0, QUEUE);
    RunsToStuck(jti);
    RunOfSum(START, a, Enqueues(QUEUE));
    RunOfSum(START, a + Enqueues(QUEUE), c);
    var st := Run(START, StuckRun(jti)).value;
    if Run(st, more).Some? {
      FullHandlerIsStuck(st, more, 0);
    }
  }

  // ---- A session whose token is never listed ----

  /** The jti is in none of the blocklists the run passes through. */
  predicate NeverListed(st: State, events: seq<Event>, jti: string)
    decreases |events|
  {
    && jti !in st.blocklist
    && (events != [] && Apply(st, events[0]).Some? ==>
          NeverListed(Apply(st, events[0]).value, events[1..], jti))
  }

  predicate LeavesIn(events: seq<Event>, i: nat) {
    exists k | 0 <= k < |events| :: events[k] == Leave(i)
  }

  predicate IsOut(s: Session) {
    s.pc == Notifying || s.pc == Closed
  }

  lemma StepSpares(st: State, e: Event, st': State, i: nat)
    requires i in st.sessions && !IsOut(st.sessions[i]) && st.sessions[i].jti !in st.blocklist
    requires Apply(st, e) == Some(st')
    ensures i in st'.sessions && st'.sessions[i].jti == st.sessions[i].jti
    ensures if e == Leave(i) then st'.sessions[i].pc == Closed || !IsOut(st'.sessions[i])
            else !IsOut(st'.sessions[i])
  {
  }

  lemma StaysClosed(st: State, e: Event, st': State, i: nat)
    requires i in st.sessions && st.sessions[i].pc == Closed && Apply(st, e) == Some(st')
    ensures i in st'.sessions && st'.sessions[i].pc == Closed
  {
  }

  lemma {:induction false} ClosedForGood(st: State, events: seq<Event>, i: nat)
    requires i in st.sessions && st.sessions[i].pc == Closed && Run(st, events).Some?
    ensures i in Run(st, events).value.sessions && Run(st, events).value.sessions[i].pc == Closed
    decreases |events|
  {
    hide Apply;
    if events != [] {
      var next := Apply(st, events[0]).value;
      StaysClosed(st, events[0], next, i);
      ClosedForGood(next, events[1..], i);
    }
  }

  /**
   * Reloads leave such a session alone: it is never told that its token is revoked, and it is
   * closed only if it left by itself.
   */
  lemma {:induction false} UnlistedSessionIsSpared(st: State, events: seq<Event>, i: nat)
    requires i in st.sessions && !IsOut(st.sessions[i]) && Run(st, events).Some?
    requires NeverListed(st, events, st.sessions[i].jti)
    ensures var st' := Run(st, events).value;
            && i in st'.sessions && st'.sessions[i].pc != Notifying
            && (st'.sessions[i].pc == Closed ==> LeavesIn(events, i))
    decreases |events|
  {
    hide Apply;
    if events != [] {
      var next := Apply(st, events[0]).value;
      StepSpares(st, events[0], next, i);
      if IsOut(next.sessions[i]) {
        ClosedForGood(next, events[1..], i);
      } else {
        UnlistedSessionIsSpared(next, events[1..], i);
        if LeavesIn(events[1..], i) {
          var k :| 0 <= k < |events[1..]| && events[1..][k] == Leave(i);
          assert events[k + 1] == Leave(i);
        }
      }
    }
  }

  /** Where its lookups take it, and what it can do when parked: each as soon as the lock is free. */
  lemma UnlistedSessionGoesOn(st: State, i: nat)
    requires i in st.sessions && st.sessions[i].jti !in st.blocklist && st.writer == Idle
    ensures var s := st.sessions[i];
            && (s.pc == Authenticating ==> Apply(st, Consult(i)) == Some(With(st, i, s.(pc := Admitted))))
            && (s.pc == LoopTop ==> Apply(st, Consult(i)) == Some(With(st, i, s.(pc := Parked))))
            && (s.pc == Woken ==> Apply(st, Consult(i)) == Some(With(st, i, s.(pc := LoopTop))))
            && (s.pc == Parked ==>
                  && Apply(st, Message(i, true)).Some?
                  && (Apply(st, Outgoing(i)).Some? <==> s.queued > 0))
  {
  }

  /** A reload installs exactly the new list and raises the epoch once; no session moves. */
  lemma ReloadInstalls(st: State, list: set<string>)
    requires st.writer == Idle
    ensures Run(st, [Lock(list), Swap, Bump, Unlock])
            == Some(st.(blocklist := list, epoch := st.epoch + 1))
  {
    hide Run;
    var events := [Lock(list), Swap, Bump, Unlock];
    var s1, s2 := st.(writer := Locked(list)), st.(blocklist := list, writer := Swapped);
    var s3 := s2.(epoch := st.epoch + 1, writer := Bumped);
    RunHead(st, events, s1);
    RunHead(s1, events[1..], s2);
    RunHead(s2, events[1..][1..], s3);
    RunHead(s3, events[1..][1..][1..], s3.(writer := Idle));
    assert events[1..][1..][1..][1..] == [];
  }

  // ---- The queue and the wake-ups add up ----

  function CountFor(events: seq<Event>, kind: Event): nat {
    if events == [] then 0 else (if events[0] == kind then 1 else 0) + CountFor(events[1..], kind)
  }

  lemma StepBalances(st: State, e: Event, st': State, i: nat)
    requires i in st.sessions && Apply(st, e) == Some(st')
    ensures i in st'.sessions
    ensures st'.sessions[i].queued + (if e == Outgoing(i) then 1 else 0)
            == st.sessions[i].queued + (if e == Enqueue(i) then 1 else 0) + (if e == Reply(i) then 1 else 0)
  {
  }

  /** Nothing is lost in the queue: it holds what entered it and has not been taken to be written. */
  lemma {:induction false} QueueBalances(st: State, events: seq<Event>, i: nat)
    requires i in st.sessions && Run(st, events).Some?
    ensures var st' := Run(st, events).value;
            && i in st'.sessions
            && st'.sessions[i].queued + CountFor(events, Outgoing(i))
               == st.sessions[i].queued + CountFor(events, Enqueue(i)) + CountFor(events, Reply(i))
    decreases |events|
  {
    hide Apply;
    if events != [] {
      var next := Apply(st, events[0]).value;
      StepBalances(st, events[0], next, i);
      QueueBalances(next, events[1..], i);
    }
  }

  lemma StepWakes(st: State, e: Event, st': State, i: nat)
    requires i in st.sessions && st.sessions[i].seen <= st.epoch && Apply(st, e) == Some(st')
    ensures i in st'.sessions && st'.sessions[i].seen <= st'.epoch
    ensures (if e == Changed(i) then 1 else 0) + st.sessions[i].seen <= st'.sessions[i].seen
    ensures st'.epoch == st.epoch + (if e.Bump? then 1 else 0)
  {
  }

  /** A session is woken at most once for each epoch it had not seen. */
  lemma {:induction false} WokenOncePerEpoch(st: State, events: seq<Event>, i: nat)
    requires i in st.sessions && st.sessions[i].seen <= st.epoch && Run(st, events).Some?
    ensures var st' := Run(st, events).value;
            && i in st'.sessions
            && CountFor(events, Changed(i)) + st.sessions[i].seen <= st'.sessions[i].seen <= st'.epoch
            && st'.epoch == st.epoch + CountFor(events, Bump)
    decreases |events|
  {
    hide Apply;
    if events != [] {
      var next := Apply(st, events[0]).value;
      StepWakes(st, events[0], next, i);
      WokenOncePerEpoch(next, events[1..], i);
    }
  }
}
