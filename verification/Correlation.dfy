/**
 * Matching the data streams a client opens to the requests that asked for them. Each control
 * connection has its own 32-bit counter and its own table of pending requests; requests, the
 * streams' readers and cancellations interleave at every await.
 */
module Correlation {
  import opened Sequences

  const ID_SPACE: nat := 0x1_0000_0000

  /** The id of the n-th request of a connection: an atomic counter that starts at 1 and wraps. */
  function IdOf(n: nat): nat {
    (n + 1) % ID_SPACE
  }

  datatype Stream = Stream(serial: nat, conn: nat, header: nat)

  datatype Pc =
    | Issued        // has its id, not in the table yet
    | Listed        // in the table; the client has not been told
    | Told          // waiting for the stream
    | GivingUp      // told nobody, timed out, or its sender was dropped: about to remove its id
    | Served        // got a stream
    | Refused       // returned without one
    | Cancelled     // dropped at an await by the tunnel's cancellation

  /** `mail` is what the one-shot channel holds; `turn` says which id of the connection it has. */
  datatype Request = Request(conn: nat, turn: nat, pc: Pc, mail: Option<Stream>)

  datatype Conn = Conn(issued: nat, pending: map<nat, nat>)

  datatype State = State(conns: map<nat, Conn>, requests: map<nat, Request>, arrived: nat)

  const INIT: State := State(map[], map[], 0)

  datatype Event =
    | Open(c: nat)
    | Issue(c: nat, r: nat)
    | Insert(r: nat)
    | Tell(r: nat)
    | TellFails(r: nat)
    | Arrive(c: nat, header: nat)      // a stream's four id bytes are read, and the table is asked
    | Receive(r: nat)
    | GiveUp(r: nat)                   // ten seconds passed, or the sender is gone
    | Remove(r: nat)
    | Cancel(r: nat)

  function Id(q: Request): nat {
    IdOf(q.turn)
  }

  function With(st: State, r: nat, q: Request): State {
    st.(requests := st.requests[r := q])
  }

  function SetPending(st: State, c: nat, pending: map<nat, nat>): State {
    if c in st.conns then st.(conns := st.conns[c := st.conns[c].(pending := pending)]) else st
  }

  /** The one-shot receiver is still there to be sent to. */
  predicate Receiving(q: Request) {
    (q.pc == Issued || q.pc == Listed || q.pc == Told) && q.mail.None?
  }

  function RequestStep(st: State, e: Event, r: nat, q: Request): Option<State> {
    if q.conn !in st.conns then None
    else
      var c := st.conns[q.conn];
      match (e, q.pc)
      case (Insert(_), Issued) =>
        Some(With(SetPending(st, q.conn, c.pending[Id(q) := r]), r, q.(pc := Listed)))
      case (Tell(_), Listed) => Some(With(st, r, q.(pc := Told)))
      case (TellFails(_), Listed) => Some(With(st, r, q.(pc := GivingUp, mail := None)))
      case (Receive(_), Told) =>
        if q.mail.None? then None else Some(With(st, r, q.(pc := Served)))
      case (GiveUp(_), Told) => Some(With(st, r, q.(pc := GivingUp, mail := None)))
      case (Remove(_), GivingUp) =>
        Some(With(SetPending(st, q.conn, c.pending - {Id(q)}), r, q.(pc := Refused)))
      case (Cancel(_), Listed) => Some(With(st, r, q.(pc := Cancelled, mail := None)))
      case (Cancel(_), Told) => Some(With(st, r, q.(pc := Cancelled, mail := None)))
      case _ => None
  }

  /** A stream goes to the request listed under its header on its own connection, or is dropped. */
  function ArriveStep(st: State, c: nat, header: nat): Option<State> {
    if c !in st.conns then None
    else
      var st1 := st.(arrived := st.arrived + 1);
      if header !in st.conns[c].pending then Some(st1)
      else
        var r := st.conns[c].pending[header];
        var st2 := SetPending(st1, c, st.conns[c].pending - {header});
        if r in st.requests && Receiving(st.requests[r]) then
          Some(With(st2, r, st.requests[r].(mail := Some(Stream(st.arrived, c, header)))))
        else Some(st2)
  }

  function Apply(st: State, e: Event): Option<State> {
    match e
    case Open(c) =>
      if c in st.conns then None else Some(st.(conns := st.conns[c := Conn(0, map[])]))
    case Issue(c, r) =>
      if c !in st.conns || r in st.requests then None
      else
        Some(With(st.(conns := st.conns[c := st.conns[c].(issued := st.conns[c].issued + 1)]),
                  r, Request(c, st.conns[c].issued, Issued, None)))
    case Arrive(c, header) => ArriveStep(st, c, header)
    case _ => if e.r in st.requests then RequestStep(st, e, e.r, st.requests[e.r]) else None
  }

  function Run(events: seq<Event>): Option<State> {
    if events == [] then Some(INIT)
    else match Run(events[..|events| - 1])
         case None => None
         case Some(st) => Apply(st, events[|events| - 1])
  }

  // ---- Ids ----

  /** Two requests of a connection share an id exactly when a whole turn of the counter apart. */
  lemma IdsMeet(m: nat, n: nat)
    ensures IdOf(m) == IdOf(n) <==> (m - n) % ID_SPACE == 0
  {
  }

  /** The ids a connection has issued are all different exactly while it issued at most 2^32. */
  lemma IdsDistinctIff(issued: nat)
    ensures (forall m, n | 0 <= m < n < issued :: IdOf(m) != IdOf(n)) <==> issued <= ID_SPACE
  {
    if issued <= ID_SPACE {
      forall m, n | 0 <= m < n < issued ensures IdOf(m) != IdOf(n) {
        IdsMeet(m, n);
      }
    } else {
      IdsMeet(0, ID_SPACE);
      assert IdOf(0) == IdOf(ID_SPACE);
    }
  }

  // ---- The invariant ----

  /** A listed request is listed under its own id on its own connection; mail is addressed to it. */
  ghost predicate Addressed(st: State) {
    && (forall c, i | c in st.conns && i in st.conns[c].pending ::
          var r := st.conns[c].pending[i];
          && r in st.requests && st.requests[r].conn == c && Id(st.requests[r]) == i
          && st.requests[r].pc != Issued && st.requests[r].pc != Refused
          && st.requests[r].mail.None?)
    && (forall r | r in st.requests && st.requests[r].mail.Some? ::
          var q := st.requests[r];
          && q.pc != Issued && q.pc != Refused && q.pc != Cancelled && q.pc != GivingUp
          && q.mail.value.conn == q.conn && q.mail.value.header == Id(q)
          && q.mail.value.serial < st.arrived)
    && (forall r | r in st.requests && st.requests[r].pc == Served :: st.requests[r].mail.Some?)
  }

  ghost predicate Counted(st: State) {
    && (forall r | r in st.requests ::
          var q := st.requests[r];
          q.conn in st.conns && q.turn < st.conns[q.conn].issued)
    && (forall r, s | r in st.requests && s in st.requests && r != s
                      && st.requests[r].conn == st.requests[s].conn ::
          st.requests[r].turn != st.requests[s].turn)
  }

  /** No stream was given to two requests. */
  ghost predicate Single(st: State) {
    forall r, s | r in st.requests && s in st.requests && r != s
                  && st.requests[r].mail.Some? && st.requests[s].mail.Some? ::
      st.requests[r].mail.value.serial != st.requests[s].mail.value.serial
  }

  predicate WithinIds(st: State, c: nat) {
    c in st.conns && st.conns[c].issued <= ID_SPACE
  }

  /** Before the counter wraps, whoever waits without mail is in the table. */
  ghost predicate Findable(st: State) {
    forall r | r in st.requests && WithinIds(st, st.requests[r].conn) ::
      var q := st.requests[r];
      (q.pc == Listed || q.pc == Told) && q.mail.None? ==>
        Id(q) in st.conns[q.conn].pending && st.conns[q.conn].pending[Id(q)] == r
  }

  ghost predicate Inv(st: State) {
    Addressed(st) && Counted(st) && Single(st) && Findable(st)
  }

  // ---- One step at a time ----

  /** Steps of a request that leave its connection's table alone. */
  predicate IsLocal(e: Event) {
    e.Tell? || e.TellFails? || e.Receive? || e.GiveUp? || e.Cancel?
  }

  lemma LocalStep(st: State, e: Event, st': State)
    requires IsLocal(e) && Apply(st, e) == Some(st')
    ensures e.r in st.requests && st'.conns == st.conns && st'.arrived == st.arrived
    ensures st'.requests == st.requests[e.r := st'.requests[e.r]]
    ensures var q, q' := st.requests[e.r], st'.requests[e.r];
            && q.conn in st.conns && q'.conn == q.conn && q'.turn == q.turn
            && q.pc != Issued && q'.pc != Issued && q'.pc != Refused && q'.pc != Listed
            && (q'.pc == Told ==> q.pc == Listed && q'.mail == q.mail)
            && (q'.mail == q.mail || q'.mail.None?)
            && (q'.pc == Served ==> q'.mail.Some?)
            && (q'.pc == GivingUp || q'.pc == Cancelled ==> q'.mail.None?)
  {
  }

  /** Steps that put a request into the table, or its id out of it. */
  lemma TableStep(st: State, e: Event, st': State)
    requires (e.Insert? || e.Remove?) && Apply(st, e) == Some(st')
    ensures e.r in st.requests && st.requests[e.r].conn in st.conns && st'.arrived == st.arrived
    ensures var q := st.requests[e.r];
            var c := st.conns[q.conn];
            && q.pc == (if e.Insert? then Issued else GivingUp)
            && st'.requests
               == st.requests[e.r := q.(pc := if e.Insert? then Listed else Refused)]
            && st'.conns
               == st.conns[q.conn := c.(pending := if e.Insert? then c.pending[Id(q) := e.r]
                                                   else c.pending - {Id(q)})]
  {
  }

  lemma ArrivedStep(st: State, c: nat, header: nat, st': State)
    requires Apply(st, Arrive(c, header)) == Some(st')
    ensures c in st.conns && st'.arrived == st.arrived + 1
    ensures st'.conns
            == if header !in st.conns[c].pending then st.conns
               else st.conns[c := st.conns[c].(pending := st.conns[c].pending - {header})]
    ensures header !in st.conns[c].pending ==> st'.requests == st.requests
    ensures header in st.conns[c].pending ==>
              var r := st.conns[c].pending[header];
              if r in st.requests && Receiving(st.requests[r]) then
                st'.requests
                == st.requests[r := st.requests[r].(mail := Some(Stream(st.arrived, c, header)))]
              else st'.requests == st.requests
  {
  }

  lemma AddressedLocal(st: State, e: Event, st': State)
    requires Addressed(st) && Counted(st) && IsLocal(e) && Apply(st, e) == Some(st')
    ensures Addressed(st')
  {
    hide IdOf, Apply, Counted, IsLocal;
    LocalStep(st, e, st');
  }

  lemma AddressedTable(st: State, e: Event, st': State)
    requires Addressed(st) && (e.Insert? || e.Remove?) && Apply(st, e) == Some(st')
    ensures Addressed(st')
  {
    hide IdOf, Apply;
    TableStep(st, e, st');
  }

  lemma AddressedArrive(st: State, c: nat, header: nat, st': State)
    requires Addressed(st) && Apply(st, Arrive(c, header)) == Some(st')
    ensures Addressed(st')
  {
    hide IdOf, Apply;
    ArrivedStep(st, c, header, st');
  }

  lemma AddressedNew(st: State, e: Event, st': State)
    requires Addressed(st) && (e.Open? || e.Issue?) && Apply(st, e) == Some(st')
    ensures Addressed(st')
  {
    hide IdOf;
  }

  lemma CountedKeeps(st: State, e: Event, st': State)
    requires Counted(st) && Apply(st, e) == Some(st')
    ensures Counted(st')
  {
    hide IdOf, Apply;
    if e.Open? || e.Issue? {
      CountedNew(st, e, st');
    } else {
      SameTurns(st, e, st');
    }
  }

  /** Nothing but a new request changes how many ids were issued, or who has which. */
  lemma SameTurns(st: State, e: Event, st': State)
    requires !e.Open? && !e.Issue? && Apply(st, e) == Some(st')
    ensures st'.requests.Keys == st.requests.Keys && st'.conns.Keys == st.conns.Keys
    ensures forall r | r in st.requests ::
              && st'.requests[r].conn == st.requests[r].conn
              && st'.requests[r].turn == st.requests[r].turn
    ensures forall c | c in st.conns :: st'.conns[c].issued == st.conns[c].issued
  {
    hide IdOf;
  }

  lemma CountedNew(st: State, e: Event, st': State)
    requires Counted(st) && (e.Open? || e.Issue?) && Apply(st, e) == Some(st')
    ensures Counted(st')
  {
  }

  lemma SingleKeeps(st: State, e: Event, st': State)
    requires Addressed(st) && Single(st) && Apply(st, e) == Some(st')
    ensures Single(st')
  {
    hide IdOf;
  }

  lemma FindableLocal(st: State, e: Event, st': State)
    requires Findable(st) && IsLocal(e) && Apply(st, e) == Some(st')
    ensures Findable(st')
  {
    hide IdOf, Apply, IsLocal;
    LocalStep(st, e, st');
  }

  /** Before the counter wraps, requests of one connection do not share an id. */
  lemma IdsDiffer(st: State, r: nat, s: nat)
    requires Counted(st) && r in st.requests && s in st.requests && r != s
    requires st.requests[r].conn == st.requests[s].conn && WithinIds(st, st.requests[r].conn)
    ensures Id(st.requests[r]) != Id(st.requests[s])
  {
    IdsMeet(st.requests[r].turn, st.requests[s].turn);
  }

  lemma FindableTable(st: State, e: Event, st': State)
    requires Findable(st) && Counted(st) && (e.Insert? || e.Remove?) && Apply(st, e) == Some(st')
    ensures Findable(st')
  {
    hide IdOf, Apply, Counted;
    TableStep(st, e, st');
    forall s | s in st.requests && s != e.r && st.requests[s].conn == st.requests[e.r].conn
               && WithinIds(st, st.requests[s].conn)
      ensures Id(st.requests[s]) != Id(st.requests[e.r])
    {
      IdsDiffer(st, s, e.r);
    }
  }

  lemma FindableArrive(st: State, c: nat, header: nat, st': State)
    requires Findable(st) && Addressed(st) && Apply(st, Arrive(c, header)) == Some(st')
    ensures Findable(st')
  {
    hide IdOf, Apply, Addressed;
    ArrivedStep(st, c, header, st');
    forall s | s in st.requests && WithinIds(st', st.requests[s].conn)
               && (st'.requests[s].pc == Listed || st'.requests[s].pc == Told)
               && st'.requests[s].mail.None?
      ensures var q := st.requests[s];
              Id(q) in st'.conns[q.conn].pending && st'.conns[q.conn].pending[Id(q)] == s
    {
      assert WithinIds(st, st.requests[s].conn);
      assert st.requests[s].mail.None?;
    }
  }

  lemma FindableNew(st: State, e: Event, st': State)
    requires Findable(st) && Counted(st) && (e.Open? || e.Issue?) && Apply(st, e) == Some(st')
    ensures Findable(st')
  {
    hide IdOf;
    forall s | s in st.requests && WithinIds(st', st.requests[s].conn)
      ensures WithinIds(st, st.requests[s].conn) {
    }
  }

  lemma StepKeeps(st: State, e: Event, st': State)
    requires Inv(st) && Apply(st, e) == Some(st')
    ensures Inv(st')
  {
    hide Apply, Addressed, Counted, Single, Findable;
    CountedKeeps(st, e, st');
    SingleKeeps(st, e, st');
    match e
    case Open(_) => AddressedNew(st, e, st'); FindableNew(st, e, st');
    case Issue(_, _) => AddressedNew(st, e, st'); FindableNew(st, e, st');
    case Arrive(c, header) => AddressedArrive(st, c, header, st'); FindableArrive(st, c, header, st');
    case Insert(_) => AddressedTable(st, e, st'); FindableTable(st, e, st');
    case Remove(_) => AddressedTable(st, e, st'); FindableTable(st, e, st');
    case _ => AddressedLocal(st, e, st'); FindableLocal(st, e, st');
  }

  lemma {:induction false} RunKeeps(events: seq<Event>)
    requires Run(events).Some?
    ensures Inv(Run(events).value)
    decreases |events|
  {
    hide Inv, Apply;
    if events == [] {
      InitHolds();
    } else {
      var before := events[..|events| - 1];
      RunKeeps(before);
      StepKeeps(Run(before).value, events[|events| - 1], Run(events).value);
    }
  }

  lemma InitHolds()
    ensures Inv(INIT)
  {
  }

  // ---- What every run guarantees ----

  /** A stream given to a request came over its own connection and carries its own id. */
  lemma DeliveredToItsRequest(events: seq<Event>, r: nat)
    requires Run(events).Some?
    requires r in Run(events).value.requests && Run(events).value.requests[r].mail.Some?
    ensures var q := Run(events).value.requests[r];
            q.mail.value.conn == q.conn && q.mail.value.header == Id(q)
  {
    hide Run, IdOf;
    RunKeeps(events);
  }

  /** No stream is given to two requests, and a served request has one. */
  lemma OneStreamOneRequest(events: seq<Event>, r: nat, s: nat)
    requires Run(events).Some?
    requires r in Run(events).value.requests && s in Run(events).value.requests && r != s
    ensures var st := Run(events).value;
            && (st.requests[r].pc == Served ==> st.requests[r].mail.Some?)
            && (st.requests[r].mail.Some? ==> st.requests[r].mail != st.requests[s].mail)
  {
    hide Run, IdOf;
    RunKeeps(events);
  }

  /** The request has been given this stream, or has been and let it go for good. */
  predicate Given(st: State, r: nat, m: Stream) {
    && r in st.requests
    && var q := st.requests[r];
       q.mail == Some(m) || (q.mail.None? && q.pc in {GivingUp, Refused, Cancelled})
  }

  lemma GivenKeeps(st: State, e: Event, st': State, r: nat, m: Stream)
    requires Given(st, r, m) && Apply(st, e) == Some(st')
    ensures Given(st', r, m)
  {
    hide IdOf;
  }

  /** A request gets at most one stream, however long the run goes on. */
  lemma {:induction false} OneStreamEver(events: seq<Event>, more: seq<Event>, r: nat, m: Stream)
    requires Run(events).Some? && Run(events + more).Some?
    requires r in Run(events).value.requests && Run(events).value.requests[r].mail == Some(m)
    ensures Given(Run(events + more).value, r, m)
    decreases |more|
  {
    hide Apply;
    if more == [] {
      assert events + more == events;
    } else {
      var before := more[..|more| - 1];
      assert (events + more)[..|events + more| - 1] == events + before;
      OneStreamEver(events, before, r, m);
      GivenKeeps(Run(events + before).value, more[|more| - 1], Run(events + more).value, r, m);
    }
  }

  /** A request that finished by itself has no entry in any table. */
  lemma FinishedIsUnlisted(events: seq<Event>, r: nat, c: nat, i: nat)
    requires Run(events).Some? && r in Run(events).value.requests
    requires Run(events).value.requests[r].pc == Served || Run(events).value.requests[r].pc == Refused
    requires c in Run(events).value.conns && i in Run(events).value.conns[c].pending
    ensures Run(events).value.conns[c].pending[i] != r
  {
    hide Run, IdOf;
    RunKeeps(events);
  }

  /**
   * While a connection has issued at most 2^32 ids, a stream that arrives on it with the id of a
   * waiting request is given to that request, and to no other.
   */
  lemma WaitingRequestIsFound(events: seq<Event>, r: nat)
    requires Run(events).Some? && r in Run(events).value.requests
    requires var q := Run(events).value.requests[r];
             && (q.pc == Listed || q.pc == Told) && q.mail.None?
             && WithinIds(Run(events).value, q.conn)
    ensures var st := Run(events).value;
            var q := st.requests[r];
            var st' := Apply(st, Arrive(q.conn, Id(q)));
            && st'.Some?
            && st'.value.requests
               == st.requests[r := q.(mail := Some(Stream(st.arrived, q.conn, Id(q))))]
  {
    hide Run, IdOf;
    RunKeeps(events);
  }

  // ---- How requests end ----

  function RunFrom(st: State, events: seq<Event>): Option<State>
    decreases |events|
  {
    if events == [] then Some(st)
    else match Apply(st, events[0])
         case None => None
         case Some(st') => RunFrom(st', events[1..])
  }

  lemma RunFromHead(st: State, e: Event, rest: seq<Event>)
    requires Apply(st, e).Some?
    ensures RunFrom(st, [e] + rest) == RunFrom(Apply(st, e).value, rest)
    ensures RunFrom(st, []) == Some(st)
  {
    assert ([e] + rest)[1..] == rest;
  }

  /** A request that has been told and holds its stream returns it. */
  lemma ReceiveServes(st: State, r: nat)
    requires r in st.requests && st.requests[r].conn in st.conns
    requires st.requests[r].pc == Told && st.requests[r].mail.Some?
    ensures Apply(st, Receive(r)) == Some(With(st, r, st.requests[r].(pc := Served)))
  {
  }

  /** The stream may arrive before the client has been told of the request. */
  lemma TellKeepsMail(st: State, r: nat)
    requires r in st.requests && st.requests[r].conn in st.conns && st.requests[r].pc == Listed
    ensures Apply(st, Tell(r)) == Some(With(st, r, st.requests[r].(pc := Told)))
  {
  }

  /** What a waiting request and its stream do when nothing comes between. */
  function ServingRun(q: Request, r: nat): seq<Event> {
    [Arrive(q.conn, Id(q))] + ((if q.pc == Listed then [Tell(r)] else []) + [Receive(r)])
  }

  /** Whoever holds a stream, and has neither given up nor been cancelled, can return it. */
  lemma HolderIsServed(st: State, r: nat)
    requires r in st.requests && st.requests[r].conn in st.conns && st.requests[r].mail.Some?
    requires st.requests[r].pc == Listed || st.requests[r].pc == Told
    ensures var st' := RunFrom(st, (if st.requests[r].pc == Listed then [Tell(r)] else []) + [Receive(r)]);
            && st'.Some? && r in st'.value.requests
            && st'.value.requests[r] == st.requests[r].(pc := Served)
  {
    hide Apply, RunFrom;
    if st.requests[r].pc == Listed {
      TellKeepsMail(st, r);
      var st1 := With(st, r, st.requests[r].(pc := Told));
      RunFromHead(st, Tell(r), [Receive(r)]);
      ReceiveServes(st1, r);
      RunFromHead(st1, Receive(r), []);
      assert [Receive(r)] + [] == [Receive(r)];
      RunFromNone(Apply(st1, Receive(r)).value);
    } else {
      ReceiveServes(st, r);
      RunFromHead(st, Receive(r), []);
      assert [] + [Receive(r)] == [Receive(r)] + [];
      RunFromNone(Apply(st, Receive(r)).value);
    }
  }

  lemma RunFromNone(st: State)
    ensures RunFrom(st, []) == Some(st)
  {
  }

  /**
   * The whole way: while its connection has issued at most 2^32 ids, a waiting request whose
   * stream arrives returns that very stream.
   */
  lemma {:induction false} WaitingRequestIsServed(events: seq<Event>, r: nat)
    requires Run(events).Some? && r in Run(events).value.requests
    requires var q := Run(events).value.requests[r];
             && (q.pc == Listed || q.pc == Told) && q.mail.None?
             && WithinIds(Run(events).value, q.conn)
    ensures var st := Run(events).value;
            var q := st.requests[r];
            var st' := RunFrom(st, ServingRun(q, r));
            && st'.Some? && r in st'.value.requests
            && st'.value.requests[r]
               == q.(pc := Served, mail := Some(Stream(st.arrived, q.conn, Id(q))))
  {
    hide Run, RunFrom, Apply, IdOf;
    var st := Run(events).value;
    var q := st.requests[r];
    WaitingRequestIsFound(events, r);
    var st1 := Apply(st, Arrive(q.conn, Id(q))).value;
    ConnsStay(st, Arrive(q.conn, Id(q)), st1, q.conn);
    HolderIsServed(st1, r);
    RunFromHead(st, Arrive(q.conn, Id(q)), (if q.pc == Listed then [Tell(r)] else []) + [Receive(r)]);
  }

  lemma ConnsStay(st: State, e: Event, st': State, c: nat)
    requires Apply(st, e) == Some(st') && c in st.conns
    ensures c in st'.conns
  {
  }

  /** A new request takes the connection's next id, and is listed under it when it enters the table. */
  lemma NewRequestIsListed(st: State, c: nat, r: nat)
    requires c in st.conns && r !in st.requests
    ensures var st' := RunFrom(st, [Issue(c, r)] + [Insert(r)]);
            var q := Request(c, st.conns[c].issued, Listed, None);
            && st'.Some? && st'.value.requests == st.requests[r := q]
            && c in st'.value.conns && st'.value.conns[c].issued == st.conns[c].issued + 1
            && st'.value.conns[c].pending == st.conns[c].pending[Id(q) := r]
  {
    hide RunFrom, IdOf;
    var st1 := Apply(st, Issue(c, r)).value;
    RunFromHead(st, Issue(c, r), [Insert(r)]);
    RunFromHead(st1, Insert(r), []);
    assert [Insert(r)] + [] == [Insert(r)];
    RunFromNone(Apply(st1, Insert(r)).value);
    var q := Request(c, st.conns[c].issued, Listed, None);
    assert Apply(st1, Insert(r)).value.requests == st.requests[r := q];
  }

  /** The ids start at 1 and count up, from 2^32 - 1 on to 0. */
  lemma IdsCountUp(n: nat)
    ensures IdOf(0) == 1 && IdOf(n + 1) == (IdOf(n) + 1) % ID_SPACE
  {
  }

  /**
   * A request that cannot tell the client, or has waited too long, gives up: it returns without a
   * stream, and its id leads nowhere.
   */
  lemma GivingUpEnds(st: State, r: nat, e: Event)
    requires r in st.requests && st.requests[r].conn in st.conns
    requires (e == TellFails(r) && st.requests[r].pc == Listed)
             || (e == GiveUp(r) && st.requests[r].pc == Told)
    ensures var q := st.requests[r];
            var st' := RunFrom(st, [e] + [Remove(r)]);
            && st'.Some? && r in st'.value.requests && q.conn in st'.value.conns
            && st'.value.requests[r] == q.(pc := Refused, mail := None)
            && Id(q) !in st'.value.conns[q.conn].pending
  {
    hide RunFrom, IdOf;
    var st1 := Apply(st, e).value;
    RunFromHead(st, e, [Remove(r)]);
    RunFromHead(st1, Remove(r), []);
    assert [Remove(r)] + [] == [Remove(r)];
    RunFromNone(Apply(st1, Remove(r)).value);
  }

  /** A cancelled request keeps nothing and will be given nothing: it has let any stream go. */
  lemma CancelledLetsGo(st: State, r: nat, m: Stream)
    requires r in st.requests && st.requests[r].conn in st.conns
    requires st.requests[r].pc == Listed || st.requests[r].pc == Told
    ensures var st' := Apply(st, Cancel(r));
            && st'.Some? && r in st'.value.requests && st'.value.conns == st.conns
            && st'.value.requests[r].pc == Cancelled && st'.value.requests[r].mail.None?
            && Given(st'.value, r, m)
  {
  }

  /** A stream nobody waits for is dropped: no request gets it and no entry is left for it. */
  lemma UnwantedStreamIsDropped(st: State, c: nat, header: nat)
    requires c in st.conns
    requires header in st.conns[c].pending ==>
               var r := st.conns[c].pending[header];
               r !in st.requests || !Receiving(st.requests[r])
    ensures var st' := Apply(st, Arrive(c, header));
            && st'.Some? && st'.value.requests == st.requests
            && c in st'.value.conns && header !in st'.value.conns[c].pending
  {
  }

  // ---- What wrapping costs ----

  /** One connection, and `n` requests that have just been given their ids. */
  function Crowd(n: nat): seq<Event> {
    if n == 0 then [Open(0)] else Crowd(n - 1) + [Issue(0, n - 1)]
  }

  lemma RunLast(events: seq<Event>, e: Event)
    requires Run(events).Some?
    ensures Run(events + [e]) == Apply(Run(events).value, e)
  {
    assert (events + [e])[..|events|] == events;
  }

  lemma IssueOne(st: State, n: nat)
    requires st.conns == map[0 := Conn(n, map[])] && n !in st.requests
    ensures Apply(st, Issue(0, n))
            == Some(State(map[0 := Conn(n + 1, map[])],
                          st.requests[n := Request(0, n, Issued, None)], st.arrived))
  {
    assert st.conns[0 := Conn(n + 1, map[])] == map[0 := Conn(n + 1, map[])];
  }

  lemma {:induction false} CrowdRuns(n: nat)
    ensures Run(Crowd(n)).Some?
    ensures var st := Run(Crowd(n)).value;
            && st.conns == map[0 := Conn(n, map[])]
            && st.arrived == 0
            && (forall r: nat :: r in st.requests <==> r < n)
            && (forall r: nat | r < n :: st.requests[r] == Request(0, r, Issued, None))
    decreases n
  {
    hide Run, Apply;
    if n == 0 {
      FirstOpen();
    } else {
      CrowdRuns(n - 1);
      RunLast(Crowd(n - 1), Issue(0, n - 1));
      var st := Run(Crowd(n - 1)).value;
      IssueOne(st, n - 1);
      var st' := Run(Crowd(n)).value;
      assert st'.requests == st.requests[n - 1 := Request(0, n - 1, Issued, None)];
      forall r: nat | r < n ensures st'.requests[r] == Request(0, r, Issued, None) {
      }
    }
  }

  lemma FirstOpen()
    ensures Run([Open(0)]) == Some(State(map[0 := Conn(0, map[])], map[], 0))
  {
    assert Run([]) == Some(INIT);
    assert [Open(0)][..0] == [];
  }

  /**
   * The bound is the right one: after 2^32 more requests the counter meets an id that is still
   * waited on, the newcomer takes its place in the table, and the one who waited is lost.
   */
  lemma WrappingLosesARequest()
    ensures var events := Crowd(ID_SPACE + 1) + [Insert(0), Insert(ID_SPACE)];
            && Run(events).Some?
            && var st := Run(events).value;
               && 0 in st.requests && 0 in st.conns
               && st.requests[0].pc == Listed && st.requests[0].mail.None?
               && Id(st.requests[0]) in st.conns[0].pending
               && st.conns[0].pending[Id(st.requests[0])] == ID_SPACE
  {
    hide Run, Apply, Crowd, IdOf;
    var crowd := Crowd(ID_SPACE + 1);
    CrowdRuns(ID_SPACE + 1);
    TwoInserts(Run(crowd).value, 0, ID_SPACE);
    RunLast(crowd, Insert(0));
    RunLast(crowd + [Insert(0)], Insert(ID_SPACE));
    assert crowd + [Insert(0)] + [Insert(ID_SPACE)] == crowd + [Insert(0), Insert(ID_SPACE)];
  }

  /** The second of two requests with one id takes the first one's place. */
  lemma TwoInserts(st: State, r: nat, s: nat)
    requires r != s && r in st.requests && s in st.requests
    requires st.requests[r].pc == Issued && st.requests[s].pc == Issued
    requires st.requests[r].conn == st.requests[s].conn && st.requests[r].conn in st.conns
    requires (st.requests[r].turn - st.requests[s].turn) % ID_SPACE == 0
    ensures var q := st.requests[r];
            && Apply(st, Insert(r)).Some?
            && Apply(Apply(st, Insert(r)).value, Insert(s)).Some?
            && var st2 := Apply(Apply(st, Insert(r)).value, Insert(s)).value;
               && q.conn in st2.conns && r in st2.requests
               && st2.requests[r] == q.(pc := Listed)
               && Id(q) in st2.conns[q.conn].pending
               && st2.conns[q.conn].pending[Id(q)] == s
  {
    IdsMeet(st.requests[r].turn, st.requests[s].turn);
  }
}
