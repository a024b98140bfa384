/** The connections inside the driver over whole runs: which of them ticks can close, and when
    ticks close none at all. */
module DriverConnections {
  import opened BigEndian
  import opened Results
  import opened Wire
  import opened Storage
  import R = Rooms
  import C = Connection
  import G = Registry
  import opened Driver

  // ---- one tick ----

  /** Ticking a connection again at the same instant changes nothing and closes nothing. */
  lemma SecondTick(c: C.Conn, now: nat)
    ensures var c' := C.AfterTick(c, now).0;
            C.AfterTick(c', now).0 == c' && forall a | a in C.AfterTick(c', now).1 :: a.SendFrame?
  {
  }

  /** The tick loop in closed form: a listed connection is ticked once, however often it is
      listed, and closed exactly if it has timed out; any other is left alone. */
  lemma {:induction false} TickInClosedForm(conns: map<U64, C.Conn>, order: seq<U64>, now: nat, s: U64)
    ensures var (conns', actions) := OnTick(conns, order, now);
            && (s in conns' <==> s in conns)
            && (s in conns ==> conns'[s] == if s in order then C.AfterTick(conns[s], now).0 else conns[s])
            && (CloseConnection(s) in actions <==> s in order && s in conns && C.TimedOut(conns[s], now).Some?)
    decreases |order|
  {
    if order != [] {
      var init, t := order[..|order| - 1], order[|order| - 1];
      assert order == init + [t];
      TickInClosedForm(conns, init, now, s);
      var (before, actions) := OnTick(conns, init, now);
      if t in before {
        TickOne(before, t, now, s);
        if t == s {
          SecondTick(conns[s], now);
        }
      }
    }
  }

  lemma TickOne(conns: map<U64, C.Conn>, t: U64, now: nat, s: U64)
    requires t in conns
    ensures var more := ToServerActions(t, C.AfterTick(conns[t], now).1);
            CloseConnection(s) in more <==> t == s && C.TimedOut(conns[t], now).Some?
  {
    var more := ToServerActions(t, C.AfterTick(conns[t], now).1);
    assert C.TimedOut(conns[t], now).Some? ==> more[0] == CloseConnection(t);
  }

  // ---- the handshake timeout ----

  /** No connection of a server ever waits for a Hello reply, and all have the server's settings
      and the id of their session. */
  predicate ServerSide(d: Server) { forall s | s in d.conns :: ServerConn(d.conns[s], s, d.config) }

  predicate ServerConn(c: C.Conn, s: U64, config: Config) {
    c.state != C.Pending && c.config == config.connection && c.sessionId == Some(s)
  }

  /** What an event does to the connection of a session that it neither adds nor removes. */
  function ConnOp(e: Event, s: U64): Option<C.Timed> {
    match e
    case Tick(order, now) => if s in order then Some(C.Timed(now, C.TickOp)) else None
    case Received(session, f, payload, now, _, _) =>
      var opcode := OpcodeRaw(f.header);
      if session != s || opcode == SYNC_REQUEST then None
      else if opcode == HELLO || opcode == PING || opcode == PONG || opcode == GOODBYE
      then Some(C.Timed(now, C.FrameOp(SessionMessage(opcode, payload))))
      else Some(C.Timed(now, C.TouchOp))
    case _ => None
  }

  predicate Replaces(e: Event, s: U64) {
    (e.Accepted? && e.session == s) || (e.Disconnected? && e.session == s) || e.Reboot?
  }

  function ConnAfter(c: C.Conn, op: Option<C.Timed>): C.Conn { if op.Some? then C.Step(c, op.value).0 else c }

  lemma {:induction false} RoomActionsKeepConns(d: Server, actions: seq<R.RoomAction>, sender: U64, fault: bool)
    ensures OnRoomActions(d, actions, sender, fault).0.conns == d.conns
    ensures OnRoomActions(d, actions, sender, fault).0.config == d.config
    decreases |actions|
  {
    hide R.IsWelcome, R.Persist, RecipientId, G.SessionOf, G.SessionsIn;
    if actions != [] {
      RoomActionsKeepConns(OnRoomAction(d, actions[0], sender, fault).0, actions[1..], sender, fault);
    }
  }

  lemma SequencedKeepsConns(d: Server, session: U64, f: Frame, faults: Faults)
    ensures var d' := OnSequenced(d, session, f, faults).0; d'.conns == d.conns && d'.config == d.config
  {
    hide R.Processed, OnRoomActions;
    var (m, result) := R.Processed(d.core.manager, f, d.core.store, faults.latest);
    if result.Ok? {
      RoomActionsKeepConns(d.(core := R.Core(m, d.core.store)), result.value, session, faults.store);
    }
  }

  lemma JoinedKeepsConns(d: Server, session: U64, f: Frame, faults: Faults)
    ensures var d' := OnJoinedFrame(d, session, f, faults).0; d'.conns == d.conns && d'.config == d.config
  {
    hide OnSequenced, OpcodeRaw, RoomId, G.AfterSubscribe;
    var d1 := if OpcodeRaw(f.header) == EXTERNAL_COMMIT
              then d.(registry := G.AfterSubscribe(d.registry, session, RoomId(f.header)).0) else d;
    SequencedKeepsConns(d1, session, f, faults);
  }

  lemma CreateKeepsConns(d: Server, room: U128, session: U64, secs: U64, fault: bool)
    ensures var d' := OnCreateRoom(d, room, session, secs, fault).0; d'.conns == d.conns && d'.config == d.config
  {
  }

  lemma RoomFrameKeepsConns(d: Server, session: U64, f: Frame, secs: U64, faults: Faults)
    ensures var d' := OnRoomFrame(d, session, f, secs, faults).0; d'.conns == d.conns && d'.config == d.config
  {
    hide OnJoinedFrame, OnCreateRoom, CreatesRoom, RoomId;
    CreateKeepsConns(d, RoomId(f.header), session, secs, faults.create);
    JoinedKeepsConns(d, session, f, faults);
    JoinedKeepsConns(OnCreateRoom(d, RoomId(f.header), session, secs, faults.create).0, session, f, faults);
  }

  lemma SyncKeepsConns(d: Server, session: U64, room: U128, payload: Payload, faults: Faults)
    ensures var d' := OnSync(d, session, room, payload, faults).0; d'.conns == d.conns && d'.config == d.config
  {
  }

  lemma FrameMoves(d: Server, e: Event, s: U64)
    requires e.Received?
    ensures var d' := Step(d, e).0;
            && d'.config == d.config && (s in d'.conns <==> s in d.conns)
            && (s in d.conns ==> d'.conns[s] == ConnAfter(d.conns[s], ConnOp(e, s)))
  {
    hide OnRoomFrame, OnSync, OpcodeRaw, RoomId, RecipientId, C.AfterFrame, G.Updated, G.AfterSubscribe, G.SessionOf, SessionMessage;
    if e.session in d.conns {
      RoomFrameKeepsConns(Touch(d, e.session, e.now), e.session, e.frame, e.secs, e.faults);
      SyncKeepsConns(d, e.session, RoomId(e.frame.header), e.payload, e.faults);
    }
  }

  /** In the driver a connection does what it does alone. */
  lemma StepMoves(d: Server, e: Event, s: U64)
    requires !Replaces(e, s)
    ensures var d' := Step(d, e).0;
            && d'.config == d.config && (s in d'.conns <==> s in d.conns)
            && (s in d.conns ==> d'.conns[s] == ConnAfter(d.conns[s], ConnOp(e, s)))
  {
    if e.Received? {
      hide Step;
      FrameMoves(d, e, s);
    } else {
      hide OnTick, R.Step, OnCreateRoom, G.Registered, G.Unregistered, G.AfterSubscribe, G.AfterUnsubscribe, C.AfterTick;
      match e
      case Tick(order, now) => TickInClosedForm(d.conns, order, now, s);
      case CreateRoom(room, session, secs, fault) => CreateKeepsConns(d, room, session, secs, fault);
      case _ =>
    }
  }

  lemma StepReplaces(d: Server, e: Event, s: U64)
    requires Replaces(e, s)
    ensures var d' := Step(d, e).0;
            && d'.config == d.config
            && (s in d'.conns ==> (e.Accepted? && d'.conns[s] == C.NewConn(e.now, d.config.connection).(sessionId := Some(s)))
                                  || (s in d.conns && e.Accepted? && d'.conns[s] == d.conns[s]))
  {
    hide G.Registered, G.Unregistered, R.Step;
  }

  lemma ServerSideStep(d: Server, e: Event)
    requires ServerSide(d)
    ensures ServerSide(Step(d, e).0)
  {
    hide Step, ConnOp;
    var d' := Step(d, e).0;
    forall s | s in d'.conns ensures ServerConn(d'.conns[s], s, d'.config) {
      if Replaces(e, s) {
        StepReplaces(d, e, s);
      } else {
        StepMoves(d, e, s);
        OpStaysServerSide(d, e, s);
      }
    }
    ConfigKept(d, e);
  }

  lemma ConfigKept(d: Server, e: Event)
    ensures Step(d, e).0.config == d.config
  {
    hide Step;
    if Replaces(e, 0) {
      StepReplaces(d, e, 0);
    } else {
      StepMoves(d, e, 0);
    }
  }

  lemma OpStaysServerSide(d: Server, e: Event, s: U64)
    requires s in d.conns && ServerConn(d.conns[s], s, d.config)
    ensures ServerConn(ConnAfter(d.conns[s], ConnOp(e, s)), s, d.config)
  {
    hide OpcodeRaw;
  }

  /** Over every run of a new server: no connection is ever waiting for a reply, so the handshake
      timeout never acts; a tick closes a session exactly if it is authenticated and over the
      idle timeout, and leaves one that has not said Hello as it is. */
  lemma {:induction false} OnlyIdleSessionsAreClosed(d: Server, es: seq<Event>, order: seq<U64>, now: nat, s: U64)
    requires ServerSide(d)
    ensures var d' := Run(d, es);
            var (conns, actions) := OnTick(d'.conns, order, now);
            && ServerSide(d')
            && (CloseConnection(s) in actions
                <==> && s in order && s in d'.conns && d'.conns[s].state == C.Authenticated
                     && C.Elapsed(now, d'.conns[s].lastActivity) > d'.config.connection.idleTimeout)
            && (s in d'.conns && d'.conns[s].state == C.Init ==> s in conns && conns[s] == d'.conns[s])
    decreases |es|
  {
    hide Step, OnTick, ServerSide;
    if es == [] {
      assert ServerSide(d);
      TickInClosedForm(d.conns, order, now, s);
      TimeoutIsIdle(d, now, s);
    } else {
      ServerSideStep(d, es[0]);
      OnlyIdleSessionsAreClosed(Step(d, es[0]).0, es[1..], order, now, s);
    }
  }

  lemma TimeoutIsIdle(d: Server, now: nat, s: U64)
    requires ServerSide(d)
    ensures s in d.conns ==>
              && (C.TimedOut(d.conns[s], now).Some?
                  <==> d.conns[s].state == C.Authenticated
                       && C.Elapsed(now, d.conns[s].lastActivity) > d.config.connection.idleTimeout)
              && (d.conns[s].state == C.Init ==> C.AfterTick(d.conns[s], now).0 == d.conns[s])
  {
  }

  lemma NewServerSide(store: Store, infos: map<U128, (U64, seq<Byte>)>, config: Config)
    ensures ServerSide(NewServer(store, infos, config))
  {
  }

  /** A session that never sends anything keeps its connection, untouched and open, for as long
      as nobody takes it away. */
  lemma {:induction false} SilentSessionStays(d: Server, es: seq<Event>, s: U64)
    requires s in d.conns && d.conns[s].state == C.Init
    requires forall e | e in es :: !Replaces(e, s) && !(e.Received? && e.session == s)
    ensures s in Run(d, es).conns && Run(d, es).conns[s] == d.conns[s]
    decreases |es|
  {
    hide Step, Replaces;
    if es != [] {
      assert es[0] in es && forall e | e in es[1..] :: e in es;
      StepMoves(d, es[0], s);
      SilentSessionStays(Step(d, es[0]).0, es[1..], s);
    }
  }

  // ---- what an event brings about ----

  /** A connection is admitted if and only if there is room: then it is new, whatever was there
      before; otherwise nothing changes and the host is told to close it. */
  lemma AdmittedIff(d: Server, s: U64, now: nat)
    ensures var (d', answer) := Step(d, Accepted(s, now));
            if |d.conns| < d.config.maxConnections
            then && s in d'.conns && s in d'.registry.sessions && d'.conns.Keys == d.conns.Keys + {s}
                 && d'.conns[s].state == C.Init && d'.conns[s].lastActivity == now && d'.conns[s].sessionId == Some(s)
                 && ClosesNobody(answer)
            else d' == d && answer == Ok([CloseConnection(s)])
  {
    hide G.Valid;
  }

  predicate IsSessionOpcode(opcode: nat) { opcode == HELLO || opcode == PING || opcode == PONG || opcode == GOODBYE }

  predicate Greets(d: Server, e: Event, s: U64) {
    && e.Received? && e.session == s && s in d.conns && OpcodeRaw(e.frame.header) == HELLO
    && e.payload.HelloPayload? && e.payload.body.version == 1 && d.conns[s].state == C.Init
  }

  /** The session frames a server answers: a Hello with the session's id, after which the session
      is authenticated; a Ping with a Pong; a Goodbye with an acknowledgement and a close; a Pong
      with nothing. Any other session frame is refused and leaves the phase as it is. All of them
      count as activity. */
  lemma SessionFrameIsAnswered(d: Server, e: Event)
    requires ServerSide(d) && e.Received? && e.session in d.conns && IsSessionOpcode(OpcodeRaw(e.frame.header))
    ensures var (d', answer) := Step(d, e);
            var s, opcode := e.session, OpcodeRaw(e.frame.header);
            && s in d'.conns && d'.conns[s].lastActivity == e.now
            && (if Greets(d, e, s) then
                  && answer == Ok([SendToSession(s, FromConnection(C.HelloReply(Some(s))))])
                  && d'.conns[s].state == C.Authenticated && d'.conns[s].clientSenderId == e.payload.body.senderId
                else if opcode == PING && d.conns[s].state == C.Authenticated then
                  answer == Ok([SendToSession(s, FromConnection(C.Pong))]) && d'.conns[s].state == C.Authenticated
                else if opcode == PONG && d.conns[s].state == C.Authenticated then
                  answer == Ok([]) && d'.conns[s].state == C.Authenticated
                else if opcode == GOODBYE && e.payload.GoodbyePayload? && d.conns[s].state != C.Closed then
                  && answer == Ok([SendToSession(s, FromConnection(C.Goodbye(Some("ack")))), CloseConnection(s)])
                  && d'.conns[s].state == C.Closed
                else answer.Err? && answer.error.ConnectionFailed? && d'.conns[s].state == d.conns[s].state)
  {
    hide OpcodeRaw, OnRoomFrame, OnSync, G.Updated, ToServerActions;
    var s := e.session;
    Converted(s, [C.SendFrame(C.HelloReply(Some(s)))]);
    Converted(s, [C.SendFrame(C.Pong)]);
    Converted(s, []);
    if e.payload.GoodbyePayload? {
      Converted(s, [C.SendFrame(C.Goodbye(Some("ack"))), C.CloseWith(C.PeerGoodbye(e.payload.reason))]);
    }
  }

  lemma Converted(s: U64, actions: seq<C.Action>)
    requires |actions| <= 2
    ensures ToServerActions(s, actions)
         == if |actions| == 0 then [] else if |actions| == 1 then [ToServerAction(s, actions[0])]
            else [ToServerAction(s, actions[0]), ToServerAction(s, actions[1])]
  {
    hide ToServerAction;
  }

  /** Any other frame of a connected session counts as activity too, except a sync request; and a
      frame of a session that is not connected is refused and changes nothing. */
  lemma FrameIsActivity(d: Server, e: Event)
    requires e.Received?
    ensures var (d', answer) := Step(d, e);
            if e.session in d.conns
            then e.session in d'.conns
                 && d'.conns[e.session].lastActivity
                    == if OpcodeRaw(e.frame.header) == SYNC_REQUEST then d.conns[e.session].lastActivity else e.now
            else d' == d && answer == Err(SessionNotFound(e.session))
  {
    hide Step;
    if e.session in d.conns {
      FrameMoves(d, e, e.session);
      OpActs(d.conns[e.session], e);
    } else {
      StrangerRefused(d, e);
    }
  }

  lemma OpActs(c: C.Conn, e: Event)
    requires e.Received?
    ensures ConnAfter(c, ConnOp(e, e.session)).lastActivity
         == if OpcodeRaw(e.frame.header) == SYNC_REQUEST then c.lastActivity else e.now
  {
    hide OpcodeRaw, SessionMessage;
  }

  lemma StrangerRefused(d: Server, e: Event)
    requires e.Received? && e.session !in d.conns
    ensures Step(d, e) == (d, Err(SessionNotFound(e.session)))
  {
  }

  /** A tick sends a Ping to exactly the listed sessions whose heartbeat is due, and sends nothing
      else. */
  lemma {:induction false} TickSends(conns: map<U64, C.Conn>, order: seq<U64>, now: nat, s: U64, reply: Reply)
    ensures SendToSession(s, reply) in OnTick(conns, order, now).1
       <==> s in order && s in conns && reply == FromConnection(C.Ping) && C.BeatsAt(conns[s], C.Timed(now, C.TickOp))
    decreases |order|
  {
    hide C.TimedOut;
    if order != [] {
      var init, t := order[..|order| - 1], order[|order| - 1];
      assert order == init + [t];
      TickSends(conns, init, now, s, reply);
      var (before, actions) := OnTick(conns, init, now);
      TickInClosedForm(conns, init, now, t);
      if t in before {
        TickSendsOne(before[t], t, now, s, reply);
        if t in init {
          SecondBeat(conns[t], now);
        }
      }
    }
  }

  lemma TickSendsOne(c: C.Conn, t: U64, now: nat, s: U64, reply: Reply)
    ensures SendToSession(s, reply) in ToServerActions(t, C.AfterTick(c, now).1)
       <==> t == s && reply == FromConnection(C.Ping) && C.BeatsAt(c, C.Timed(now, C.TickOp))
  {
    var more := ToServerActions(t, C.AfterTick(c, now).1);
    assert C.BeatsAt(c, C.Timed(now, C.TickOp)) ==> more[0] == SendToSession(t, FromConnection(C.Ping));
  }

  lemma SecondBeat(c: C.Conn, now: nat)
    ensures var e := C.Timed(now, C.TickOp); C.BeatsAt(C.AfterTick(c, now).0, e) ==> C.BeatsAt(c, e)
  {
  }

  // ---- heartbeats ----

  function ClockAfter(clock: nat, e: Event): nat {
    if e.Accepted? || e.Received? || e.Tick? then e.now else clock
  }

  predicate Monotone(clock: nat, es: seq<Event>)
    decreases |es|
  {
    es == [] || (clock <= ClockAfter(clock, es[0]) && Monotone(ClockAfter(clock, es[0]), es[1..]))
  }

  /** Every tick collects all connections and comes within `gap` of the tick before. */
  ghost predicate TicksEvery(d: Server, es: seq<Event>, last: nat, gap: nat)
    decreases |es|
  {
    es == [] ||
    (&& (es[0].Tick? ==> (forall s | s in d.conns :: s in es[0].order) && es[0].now <= last + gap)
     && TicksEvery(Step(d, es[0]).0, es[1..], if es[0].Tick? then es[0].now else last, gap))
  }

  ghost predicate BeatsSince(c: C.Conn, clock: nat, last: nat) {
    exists mark: Option<nat> :: C.Beating(c, clock, mark) && (mark.Some? ==> last <= mark.value)
  }

  ghost predicate AllBeat(d: Server, clock: nat, last: nat) {
    last <= clock && forall s | s in d.conns :: BeatsSince(d.conns[s], clock, last) && d.conns[s].config == d.config.connection
  }

  lemma LaterStillBeats(c: C.Conn, clock: nat, later: nat, last: nat)
    requires BeatsSince(c, clock, last) && clock <= later
    ensures BeatsSince(c, later, last)
  {
    var mark: Option<nat> :| C.Beating(c, clock, mark) && (mark.Some? ==> last <= mark.value);
    assert C.Beating(c, later, mark);
  }

  lemma OpBeats(c: C.Conn, clock: nat, last: nat, op: C.Timed, gap: nat)
    requires BeatsSince(c, clock, last) && clock <= op.at && last <= clock
    requires C.WorstIdle(c.config, gap) <= c.config.idleTimeout && (op.op.TickOp? ==> op.at <= last + gap)
    ensures var c' := C.Step(c, op).0;
            BeatsSince(c', op.at, if op.op.TickOp? then op.at else last) && c'.config == c.config
    ensures forall a | a in C.Step(c, op).1 :: !C.IdleClose(a)
  {
    hide C.Step;
    var mark: Option<nat> :| C.Beating(c, clock, mark) && (mark.Some? ==> last <= mark.value);
    C.BeatingStep(c, clock, mark, op, gap);
    var mark' := C.Mark(c, op, mark);
    assert C.Beating(C.Step(c, op).0, op.at, mark');
  }

  lemma BeatStep(d: Server, e: Event, clock: nat, last: nat, gap: nat, s: U64)
    requires AllBeat(d, clock, last) && C.WorstIdle(d.config.connection, gap) <= d.config.connection.idleTimeout
    requires clock <= ClockAfter(clock, e) && (e.Tick? ==> (forall t | t in d.conns :: t in e.order) && e.now <= last + gap)
    requires s in Step(d, e).0.conns
    ensures BeatsSince(Step(d, e).0.conns[s], ClockAfter(clock, e), if e.Tick? then e.now else last)
    ensures Step(d, e).0.conns[s].config == d.config.connection
  {
    hide Step, BeatsSince, OpcodeRaw, C.Step;
    if Replaces(e, s) {
      StepReplaces(d, e, s);
      if s in d.conns {
        LaterStillBeats(d.conns[s], clock, ClockAfter(clock, e), last);
      }
      if e.Accepted? {
        NewConnBeats(d.config.connection, e.now, Some(s), last);
      }
    } else {
      StepMoves(d, e, s);
      LaterStillBeats(d.conns[s], clock, ClockAfter(clock, e), last);
      if ConnOp(e, s).Some? {
        OpBeats(d.conns[s], clock, last, ConnOp(e, s).value, gap);
      }
    }
  }

  lemma NewConnBeats(config: C.Config, now: nat, id: Option<U64>, last: nat)
    ensures BeatsSince(C.NewConn(now, config).(sessionId := id), now, last)
  {
    assert C.Beating(C.NewConn(now, config).(sessionId := id), now, None);
  }

  predicate ClosesNobody(answer: Answer) {
    answer.Ok? ==> forall i | 0 <= i < |answer.value| :: !answer.value[i].CloseConnection?
  }

  lemma TickClosesNobody(d: Server, order: seq<U64>, now: nat, clock: nat, last: nat, gap: nat)
    requires AllBeat(d, clock, last) && ServerSide(d)
    requires C.WorstIdle(d.config.connection, gap) <= d.config.connection.idleTimeout
    requires clock <= now <= last + gap
    ensures ClosesNobody(Step(d, Tick(order, now)).1)
  {
    hide OnTick, BeatsSince, C.AfterTick;
    var actions := OnTick(d.conns, order, now).1;
    forall i | 0 <= i < |actions| ensures !actions[i].CloseConnection? {
      if actions[i].CloseConnection? {
        var s := actions[i].session;
        TickInClosedForm(d.conns, order, now, s);
        TimeoutIsIdle(d, now, s);
        OpBeats(d.conns[s], clock, last, C.Timed(now, C.TickOp), gap);
        IdleTickCloses(d.conns[s], now);
        assert false;
      }
    }
  }

  lemma IdleTickCloses(c: C.Conn, now: nat)
    requires c.state == C.Authenticated && C.TimedOut(c, now).Some?
    ensures exists a :: a in C.Step(c, C.Timed(now, C.TickOp)).1 && C.IdleClose(a)
  {
    var a := C.CloseWith(C.IdleTimeout(C.TimedOut(c, now).value));
    assert C.Step(c, C.Timed(now, C.TickOp)).1[0] == a;
    assert C.IdleClose(a);
  }

  ghost predicate TicksCloseNobody(d: Server, es: seq<Event>)
    decreases |es|
  {
    es == [] || ((es[0].Tick? ==> ClosesNobody(Step(d, es[0]).1)) && TicksCloseNobody(Step(d, es[0]).0, es[1..]))
  }

  /** In monotone time, with ticks that collect every connection and come within `gap` of each
      other, heartbeats keep every session of the server: no tick of any run closes anybody. */
  lemma {:induction false} HeartbeatsKeepSessions(d: Server, es: seq<Event>, clock: nat, last: nat, gap: nat)
    requires AllBeat(d, clock, last) && ServerSide(d) && Monotone(clock, es) && TicksEvery(d, es, last, gap)
    requires C.WorstIdle(d.config.connection, gap) <= d.config.connection.idleTimeout
    ensures TicksCloseNobody(d, es)
    decreases |es|
  {
    hide Step, ServerSide, BeatsSince, ClosesNobody;
    if es != [] {
      var e, d' := es[0], Step(d, es[0]).0;
      if e.Tick? {
        TickClosesNobody(d, e.order, e.now, clock, last, gap);
      }
      ServerSideStep(d, e);
      ConfigKept(d, e);
      forall s | s in d'.conns
        ensures BeatsSince(d'.conns[s], ClockAfter(clock, e), if e.Tick? then e.now else last)
             && d'.conns[s].config == d'.config.connection
      {
        BeatStep(d, e, clock, last, gap, s);
      }
      HeartbeatsKeepSessions(d', es[1..], ClockAfter(clock, e), if e.Tick? then e.now else last, gap);
    }
  }

  // ---- the bound is exact ----

  function EmptyServer(config: Config): Server { NewServer(EMPTY_STORE, map[], config) }

  /** No run of a new server, from an instant on, has a tick that closes a session. */
  ghost predicate NeverIdles(config: Config, gap: nat) {
    forall start: nat, es: seq<Event> |
      Monotone(start, es) && TicksEvery(EmptyServer(config), es, start, gap) ::
      TicksCloseNobody(EmptyServer(config), es)
  }

  function HelloFrame(): Frame { Frame(seq(128, i => if i == 7 then 1 else 0), []) }

  lemma HelloFrameIsHello()
    ensures OpcodeRaw(HelloFrame().header) == HELLO
  {
    var h := HelloFrame().header;
    assert h[6..8] == [0, 1] && h[6..8][..1] == [0] && h[6..8][..1][..0] == [];
    assert Value([0]) == 0;
  }

  function LoginEvents(): seq<Event> {
    [Accepted(1, 0), Received(1, HelloFrame(), HelloPayload(C.HelloBody(1, None)), 0, 0, Faults(false, false, false, false, false))]
  }

  /** Ticks at `from`, `from + 1`, ..., `until - 1`, and a last one a whole `gap` after those. */
  function SlowTicks(from: nat, until: nat, gap: nat): seq<Event>
    requires from <= until && until >= 1
    decreases until - from
  {
    if from == until then [Tick([1], until - 1 + gap)] else [Tick([1], from)] + SlowTicks(from + 1, until, gap)
  }

  ghost predicate Lone(d: Server, c: C.Conn) { d.conns.Keys == {1} && d.conns[1] == c && c.config == d.config.connection }

  lemma LoneTick(d: Server, c: C.Conn, now: nat)
    requires Lone(d, c)
    ensures Lone(Step(d, Tick([1], now)).0, C.AfterTick(c, now).0)
    ensures C.TimedOut(c, now).Some? ==> !ClosesNobody(Step(d, Tick([1], now)).1)
  {
    hide OnTick, C.TimedOut;
    var (conns, actions) := OnTick(d.conns, [1], now);
    TickInClosedForm(d.conns, [1], now, 1);
    forall s: U64 ensures s in conns <==> s in d.conns {
      TickInClosedForm(d.conns, [1], now, s);
    }
    assert conns.Keys == {1};
    TickKeepsConfig(c, now);
  }

  lemma TickKeepsConfig(c: C.Conn, now: nat)
    ensures C.AfterTick(c, now).0.config == c.config
  {
  }

  lemma {:induction false} SlowTicksIdle(d: Server, c: C.Conn, from: nat, until: nat, gap: nat)
    requires Lone(d, c) && c.state == C.Authenticated && c.lastActivity == 0 && c.lastHeartbeat == Some(0)
    requires 1 <= from <= until == c.config.heartbeatInterval && gap >= 1 && until - 1 + gap > c.config.idleTimeout
    ensures Monotone(from - 1, SlowTicks(from, until, gap)) && TicksEvery(d, SlowTicks(from, until, gap), from - 1, gap)
    ensures !TicksCloseNobody(d, SlowTicks(from, until, gap))
    decreases until - from
  {
    hide Step, ClosesNobody;
    var es := SlowTicks(from, until, gap);
    var d', c' := Step(d, es[0]).0, C.AfterTick(c, es[0].now).0;
    LoneTick(d, c, es[0].now);
    if from < until {
      assert es[1..] == SlowTicks(from + 1, until, gap);
      if C.TimedOut(c, from).Some? {
        LoneTicksAllowed(d', c', from + 1, until, gap);
      } else {
        SlowTicksIdle(d', c, from + 1, until, gap);
      }
    }
  }

  lemma {:induction false} LoneTicksAllowed(d: Server, c: C.Conn, from: nat, until: nat, gap: nat)
    requires Lone(d, c) && 1 <= from <= until && gap >= 1
    ensures Monotone(from - 1, SlowTicks(from, until, gap)) && TicksEvery(d, SlowTicks(from, until, gap), from - 1, gap)
    decreases until - from
  {
    hide Step;
    var es := SlowTicks(from, until, gap);
    LoneTick(d, c, es[0].now);
    if from < until {
      assert es[1..] == SlowTicks(from + 1, until, gap);
      LoneTicksAllowed(Step(d, es[0]).0, C.AfterTick(c, from).0, from + 1, until, gap);
    }
  }

  lemma LoginLone(config: Config)
    requires config.maxConnections >= 1
    ensures var d := EmptyServer(config);
            var d2 := Step(Step(d, LoginEvents()[0]).0, LoginEvents()[1]).0;
            Lone(d2, C.Conn(C.Authenticated, config.connection, 0, None, Some(1), None))
  {
    hide OpcodeRaw, G.Registered, G.Updated, OnRoomFrame;
    HelloFrameIsHello();
  }

  /** What a first event contributes to the three conditions on a run. */
  lemma FirstEvent(d: Server, e: Event, es: seq<Event>, clock: nat, last: nat, gap: nat)
    ensures Monotone(clock, [e] + es) <==> clock <= ClockAfter(clock, e) && Monotone(ClockAfter(clock, e), es)
    ensures TicksEvery(d, [e] + es, last, gap)
       <==> && (e.Tick? ==> (forall s | s in d.conns :: s in e.order) && e.now <= last + gap)
            && TicksEvery(Step(d, e).0, es, if e.Tick? then e.now else last, gap)
    ensures TicksCloseNobody(d, [e] + es)
       <==> (e.Tick? ==> ClosesNobody(Step(d, e).1)) && TicksCloseNobody(Step(d, e).0, es)
  {
    hide Step, ClosesNobody;
    assert ([e] + es)[1..] == es && ([e] + es)[0] == e;
  }

  /** A lone session that has just said Hello, and ticks that close it. */
  lemma LoneIdles(d: Server, c: C.Conn, gap: nat) returns (ticks: seq<Event>)
    requires Lone(d, c) && c.state == C.Authenticated && c.lastActivity == 0 && c.lastHeartbeat.None?
    requires gap >= 1 && C.WorstIdle(c.config, gap) > c.config.idleTimeout
    ensures Monotone(0, ticks) && TicksEvery(d, ticks, 0, gap) && !TicksCloseNobody(d, ticks)
  {
    hide Step, ClosesNobody, Monotone, TicksEvery, TicksCloseNobody;
    if c.config.heartbeatInterval == 0 {
      LoneTick(d, c, gap);
      FirstEvent(d, Tick([1], gap), [], 0, 0, gap);
      NothingLeft(Step(d, Tick([1], gap)).0, gap, gap);
      ticks := [Tick([1], gap)] + [];
    } else {
      var rest := SlowTicks(1, c.config.heartbeatInterval, gap);
      LoneTick(d, c, 0);
      SlowTicksIdle(Step(d, Tick([1], 0)).0, c.(lastHeartbeat := Some(0)), 1, c.config.heartbeatInterval, gap);
      FirstEvent(d, Tick([1], 0), rest, 0, 0, gap);
      ticks := [Tick([1], 0)] + rest;
    }
  }

  lemma NothingLeft(d: Server, clock: nat, gap: nat)
    ensures Monotone(clock, []) && TicksEvery(d, [], clock, gap)
  {
  }

  /** A run that closes a session for idleness when the bound is missed. */
  lemma SomeSessionIdles(config: Config, gap: nat) returns (es: seq<Event>)
    requires config.maxConnections >= 1 && gap >= 1 && C.WorstIdle(config.connection, gap) > config.connection.idleTimeout
    ensures var d := EmptyServer(config);
            Monotone(0, es) && TicksEvery(d, es, 0, gap) && !TicksCloseNobody(d, es)
  {
    hide Step, ClosesNobody, Monotone, TicksEvery, TicksCloseNobody, Lone;
    var d, login := EmptyServer(config), LoginEvents();
    var d1 := Step(d, login[0]).0;
    LoginLone(config);
    var ticks := LoneIdles(Step(d1, login[1]).0, C.Conn(C.Authenticated, config.connection, 0, None, Some(1), None), gap);
    FirstEvent(d1, login[1], ticks, 0, 0, gap);
    FirstEvent(d, login[0], [login[1]] + ticks, 0, 0, gap);
    es := [login[0]] + ([login[1]] + ticks);
  }

  /** For a server that admits anybody, heartbeats prevent every idle timeout if and only if the
      idle timeout covers one tick gap plus one heartbeat interval less the last instant of it. */
  lemma NeverIdlesIff(config: Config, gap: nat)
    requires config.maxConnections >= 1 && gap >= 1
    ensures NeverIdles(config, gap) <==> C.WorstIdle(config.connection, gap) <= config.connection.idleTimeout
  {
    hide Step;
    var d := EmptyServer(config);
    if C.WorstIdle(config.connection, gap) <= config.connection.idleTimeout {
      forall start: nat, es: seq<Event> | Monotone(start, es) && TicksEvery(d, es, start, gap) ensures TicksCloseNobody(d, es) {
        HeartbeatsKeepSessions(d, es, start, start, gap);
      }
    } else {
      var es := SomeSessionIdles(config, gap);
    }
  }
}
