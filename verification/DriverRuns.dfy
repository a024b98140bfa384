/** Whole runs of the server driver: whom it can reach, what the room path guarantees once the
    driver composes it with rooms being created and sessions subscribing, and restarts. */
module DriverRuns {
  import opened BigEndian
  import opened Results
  import opened Wire
  import opened Storage
  import R = Rooms
  import Q = RoomRuns
  import C = Connection
  import G = Registry
  import K = KeyPackages
  import opened Driver

  // ---- connections, sessions, targets ----

  /** Connections and registered sessions are the same set, within the limit. */
  ghost predicate Live(d: Server) {
    && G.Valid(d.registry)
    && d.conns.Keys == d.registry.sessions.Keys
    && |d.conns| <= d.config.maxConnections
  }

  /** Replies go to connected sessions; a broadcast goes to exactly the sessions subscribed to
      the room in its frame's header, all of them connected. */
  predicate ReachesOnly(a: ServerAction, d: Server) {
    && (a.SendToSession? ==> a.session in d.conns)
    && (a.BroadcastTo? ==> a.sessions == G.SessionsIn(d.registry, RoomId(a.frame.header)) && a.sessions <= d.conns.Keys)
  }

  predicate TargetsLive(answer: Answer, d: Server) {
    answer.Ok? ==> forall i | 0 <= i < |answer.value| :: ReachesOnly(answer.value[i], d)
  }

  ghost predicate Good(r: (Server, Answer)) { Live(r.0) && TargetsLive(r.1, r.0) }

  lemma RegistryKept(d: Server, op: G.Op)
    requires G.Valid(d.registry)
    ensures G.Valid(G.Step(d.registry, op).0)
  {
    G.StepRefines(d.registry, op);
  }

  lemma AcceptedGood(d: Server, session: U64, now: nat)
    requires Live(d)
    ensures Good(OnAccepted(d, session, now))
  {
    RegistryKept(d, G.Register(session, G.SessionInfo(None, false)));
    var conns := OnAccepted(d, session, now).0.conns;
    assert conns.Keys == d.conns.Keys || conns.Keys == d.conns.Keys + {session};
    assert |conns| == |conns.Keys| && |d.conns| == |d.conns.Keys|;
  }

  lemma ClosedGood(d: Server, session: U64)
    requires Live(d)
    ensures Good(OnClosed(d, session))
  {
    hide G.Valid, G.WithoutSubscriber;
    RegistryKept(d, G.Unregister(session));
    var conns := d.conns - {session};
    assert conns.Keys == d.conns.Keys - {session};
    assert |conns| == |conns.Keys| <= |d.conns.Keys| == |d.conns|;
  }

  lemma {:induction false} TickKeepsKeys(conns: map<U64, C.Conn>, order: seq<U64>, now: nat)
    ensures var (conns', actions) := OnTick(conns, order, now);
            && conns'.Keys == conns.Keys
            && forall i | 0 <= i < |actions| :: !actions[i].BroadcastTo? && (actions[i].SendToSession? ==> actions[i].session in conns)
    decreases |order|
  {
    if order != [] {
      TickKeepsKeys(conns, order[..|order| - 1], now);
    }
  }

  lemma TickGood(d: Server, order: seq<U64>, now: nat)
    requires Live(d)
    ensures Good(Step(d, Tick(order, now)))
  {
    TickKeepsKeys(d.conns, order, now);
    var conns := OnTick(d.conns, order, now).0;
    assert |conns| == |conns.Keys| == |d.conns.Keys| == |d.conns|;
  }

  lemma SubscribeLive(d: Server, session: U64, room: U128)
    requires Live(d)
    ensures Live(d.(registry := G.AfterSubscribe(d.registry, session, room).0))
  {
    RegistryKept(d, G.Subscribe(session, room));
  }

  lemma SameSize(conns: map<U64, C.Conn>, session: U64, conn: C.Conn)
    requires session in conns
    ensures conns[session := conn].Keys == conns.Keys && |conns[session := conn]| == |conns|
  {
    assert conns[session := conn].Keys == conns.Keys;
    assert |conns[session := conn]| == |conns[session := conn].Keys| == |conns|;
  }

  lemma SessionFrameGood(d: Server, session: U64, opcode: nat, payload: Payload, now: nat)
    requires Live(d) && session in d.conns
    ensures Good(OnSessionFrame(d, session, opcode, payload, now))
  {
    var conn := C.AfterFrame(d.conns[session], SessionMessage(opcode, payload), now).0;
    var user := if conn.clientSenderId.Some? then conn.clientSenderId else conn.sessionId;
    RegistryKept(d, G.Update(session, G.SessionInfo(user, true)));
    SameSize(d.conns, session, conn);
  }

  /** What the room manager asks for: persists, and broadcasts to the frame's own room with
      nobody left out. It never asks for a rejection, so the sender id a frame claims — which
      need not be a session at all — is never used as a target. */
  predicate OnlyRoutes(actions: seq<R.RoomAction>) {
    forall i | 0 <= i < |actions| :: actions[i].PersistFrame? || RoutesToOwnRoom(actions[i])
  }

  predicate RoutesToOwnRoom(a: R.RoomAction) {
    a.Broadcast? && a.room == RoomId(a.frame.header) && !a.excludeSender
  }

  lemma NeverRejects(m: R.Manager, f: Frame, s: Store, fault: bool)
    ensures R.Processed(m, f, s, fault).1.Ok? ==> OnlyRoutes(R.Processed(m, f, s, fault).1.value)
  {
    var c := R.Core(m, s);
    var room := RoomId(f.header);
    if Q.Accepts(c, f, fault) {
      hide R.Processed, R.WithIndex, RoomId;
      Q.AcceptedProcess(c, f, fault);
      Q.WithIndexOnlyNumbers(f, Q.IndexFor(c, room));
    } else {
      hide R.Processed, R.Execute, Q.Accepts, RoomId;
      Q.UnacceptedStep(c, f, fault, false);
    }
  }

  /** Carrying out room actions changes the core alone, exactly as executing them there does. */
  lemma {:induction false} RoomActionsGood(d: Server, actions: seq<R.RoomAction>, sender: U64, fault: bool)
    requires Live(d) && OnlyRoutes(actions)
    ensures var (d', out) := OnRoomActions(d, actions, sender, fault);
            d' == d.(core := R.Execute(d.core, actions, fault)) && TargetsLive(Ok(out), d)
    decreases |actions|
  {
    hide R.Persist, R.IsWelcome, RecipientId, RoomId, G.Valid, G.SessionsIn, G.SessionOf;
    if actions != [] {
      var a := actions[0];
      var (d1, first) := OnRoomAction(d, a, sender, fault);
      if a.Broadcast? {
        G.LookupsAgree(d.registry, a.room, RecipientId(a.frame.header));
      }
      RoomActionsGood(d1, actions[1..], sender, fault);
    }
  }

  lemma SequencedGood(d: Server, session: U64, f: Frame, faults: Faults)
    requires Live(d)
    ensures Good(OnSequenced(d, session, f, faults))
  {
    hide R.Processed, OnRoomActions, OnlyRoutes;
    var (m, result) := R.Processed(d.core.manager, f, d.core.store, faults.latest);
    NeverRejects(d.core.manager, f, d.core.store, faults.latest);
    if result.Ok? {
      RoomActionsGood(d.(core := R.Core(m, d.core.store)), result.value, session, faults.store);
    }
  }

  lemma CreateRoomGood(d: Server, room: U128, session: U64, secs: U64, fault: bool)
    requires Live(d)
    ensures Good(OnCreateRoom(d, room, session, secs, fault))
    ensures var answer := OnCreateRoom(d, room, session, secs, fault).1; answer.Ok? ==> answer.value == [LogEntry]
  {
    hide R.CreateRoomIn, G.Valid, G.AfterSubscribe;
    SubscribeLive(d, session, room);
  }

  lemma JoinedFrameGood(d: Server, session: U64, f: Frame, faults: Faults)
    requires Live(d)
    ensures Good(OnJoinedFrame(d, session, f, faults))
  {
    hide Live, OnSequenced, ReachesOnly, G.AfterSubscribe, RoomId, OpcodeRaw;
    var d' := if OpcodeRaw(f.header) == EXTERNAL_COMMIT
              then d.(registry := G.AfterSubscribe(d.registry, session, RoomId(f.header)).0) else d;
    SubscribeLive(d, session, RoomId(f.header));
    SequencedGood(d', session, f, faults);
    LogEntryReachesNobody(OnSequenced(d', session, f, faults).0);
  }

  lemma RoomFrameGood(d: Server, session: U64, f: Frame, secs: U64, faults: Faults)
    requires Live(d)
    ensures Good(OnRoomFrame(d, session, f, secs, faults))
  {
    hide Live, OnCreateRoom, OnJoinedFrame, CreatesRoom, ReachesOnly, RoomId;
    var d' := OnCreateRoom(d, RoomId(f.header), session, secs, faults.create).0;
    CreateRoomGood(d, RoomId(f.header), session, secs, faults.create);
    JoinedFrameGood(d, session, f, faults);
    JoinedFrameGood(d', session, f, faults);
    LogEntryReachesNobody(OnJoinedFrame(d', session, f, faults).0);
  }

  lemma LogEntryReachesNobody(d: Server)
    ensures ReachesOnly(LogEntry, d)
  {
  }

  lemma WelcomeGood(d: Server, f: Frame)
    requires Live(d)
    ensures Good(OnWelcome(d, f))
  {
    hide G.Valid, G.SessionOf, RecipientId, RoomId;
    G.LookupsAgree(d.registry, RoomId(f.header), RecipientId(f.header));
    var recipient := G.SessionOf(d.registry, RecipientId(f.header));
    if recipient.Some? {
      SubscribeLive(d, recipient.value, RoomId(f.header));
    }
  }

  lemma FrameGood(d: Server, session: U64, f: Frame, payload: Payload, now: nat, secs: U64, faults: Faults)
    requires Live(d)
    ensures Good(OnFrame(d, session, f, payload, now, secs, faults))
  {
    hide Live, TargetsLive, RoomId, OpcodeRaw, OnSessionFrame, OnWelcome, OnRoomFrame, OnSync, OnPublish, OnFetch, OnGroupInfo, OnGroupInfoRequest;
    FailureReachesNobody(d, SessionNotFound(session));
    if session in d.conns {
      SessionFrameGood(d, session, OpcodeRaw(f.header), payload, now);
      var d1 := Touch(d, session, now);
      TouchLive(d, session, now);
      SideFrameGood(d1, session, payload, faults);
      WelcomeGood(d1, f);
      RoomFrameGood(d1, session, f, secs, faults);
      SyncGood(d, session, RoomId(f.header), payload, faults);
    }
  }

  lemma FailureReachesNobody(d: Server, e: ServerError)
    ensures TargetsLive(Err(e), d)
  {
  }

  lemma TouchLive(d: Server, session: U64, now: nat)
    requires Live(d) && session in d.conns
    ensures Live(Touch(d, session, now)) && session in Touch(d, session, now).conns
  {
    hide G.Valid;
    SameSize(d.conns, session, d.conns[session].(lastActivity := now));
  }

  /** Key packages and group infos touch neither sessions nor rooms. */
  lemma SideFrameGood(d: Server, session: U64, payload: Payload, faults: Faults)
    requires Live(d) && session in d.conns
    ensures Good(OnPublish(d, session, payload)) && Good(OnFetch(d, session, payload))
    ensures Good(OnGroupInfo(d, payload, faults)) && Good(OnGroupInfoRequest(d, session, payload, faults))
  {
    hide G.Valid;
  }

  lemma SyncGood(d: Server, session: U64, room: U128, payload: Payload, faults: Faults)
    requires Live(d) && session in d.conns
    ensures Good(OnSync(d, session, room, payload, faults))
  {
    hide G.Valid;
  }

  /** Subscriptions made from outside, and everything that only touches the room path. */
  lemma OtherEventGood(d: Server, e: Event)
    requires Live(d)
    requires e.SubscribeTo? || e.UnsubscribeFrom? || e.ClearSequencer? || e.RebuildManager? || e.Reboot?
    ensures Good(Step(d, e))
  {
    hide G.Valid, G.AfterSubscribe, G.AfterUnsubscribe, R.Step;
    NoSessionsValid();
    match e
    case SubscribeTo(session, room) => SubscribeLive(d, session, room);
    case UnsubscribeFrom(session, room) => UnsubscribeLive(d, session, room);
    case _ =>
  }

  lemma NoSessionsValid()
    ensures G.Valid(G.NO_SESSIONS)
  {
  }

  lemma UnsubscribeLive(d: Server, session: U64, room: U128)
    requires Live(d)
    ensures Live(d.(registry := G.AfterUnsubscribe(d.registry, session, room).0))
  {
    RegistryKept(d, G.Unsubscribe(session, room));
  }

  lemma StepGood(d: Server, e: Event)
    requires Live(d)
    ensures Good(Step(d, e))
  {
    hide Good, Live, OnAccepted, OnFrame, OnClosed, OnTick, OnCreateRoom;
    match e
    case Accepted(session, now) => AcceptedGood(d, session, now);
    case Received(session, f, payload, now, secs, faults) => FrameGood(d, session, f, payload, now, secs, faults);
    case Disconnected(session) => ClosedGood(d, session);
    case Tick(order, now) => TickGood(d, order, now);
    case CreateRoom(room, session, secs, fault) => CreateRoomGood(d, room, session, secs, fault);
    case _ => OtherEventGood(d, e);
  }

  ghost predicate AllGood(d: Server, es: seq<Event>)
    decreases |es|
  {
    es == [] || (Good(Step(d, es[0])) && AllGood(Step(d, es[0]).0, es[1..]))
  }

  /** Over every run: connections and sessions stay the same set within the limit, the four
      registry maps stay consistent, every reply is addressed to a connected session and every
      broadcast to exactly the subscribers of its frame's room. */
  lemma {:induction false} EveryTargetIsLive(d: Server, es: seq<Event>)
    requires Live(d)
    ensures Live(Run(d, es)) && AllGood(d, es)
    decreases |es|
  {
    hide Step, Live, TargetsLive;
    if es != [] {
      StepGood(d, es[0]);
      EveryTargetIsLive(Step(d, es[0]).0, es[1..]);
    }
  }

  // ---- the room path inside the driver ----

  predicate GoesToRoom(opcode: nat) {
    opcode !in {HELLO, PING, PONG, GOODBYE, SYNC_REQUEST, KEY_PACKAGE_PUBLISH, KEY_PACKAGE_FETCH,
                GROUP_INFO, GROUP_INFO_REQUEST, R.OPCODE_WELCOME}
  }

  function Creation(d: Server, room: U128, session: U64, secs: U64, fault: bool): R.CoreEvent
    requires session in d.registry.sessions
  {
    var user := d.registry.sessions[session].userId;
    R.Create(room, RoomMetadata(if user.Some? then user.value else session, secs), fault)
  }

  /** The room-path events one driver event amounts to. */
  function CoreEvents(d: Server, e: Event): seq<R.CoreEvent> {
    match e
    case Received(session, f, _, _, secs, faults) =>
      if session !in d.conns || !GoesToRoom(OpcodeRaw(f.header)) then []
      else RoomFrameEvents(d, session, f, secs, faults)
    case CreateRoom(room, session, secs, fault) =>
      if session in d.registry.sessions then [Creation(d, room, session, secs, fault)] else []
    case ClearSequencer(room) => [R.Clear(room)]
    case RebuildManager(plan) => [R.Restart(plan)]
    case Reboot(plan) => [R.Restart(plan)]
    case _ => []
  }

  function RoomFrameEvents(d: Server, session: U64, f: Frame, secs: U64, faults: Faults): seq<R.CoreEvent> {
    var arrival := R.Arrive(f, faults.latest, faults.store);
    if !CreatesRoom(d, f) then [arrival]
    else if session !in d.registry.sessions then []
    else if faults.create then [Creation(d, RoomId(f.header), session, secs, true)]
    else [Creation(d, RoomId(f.header), session, secs, false), arrival]
  }

  ghost function AllCoreEvents(d: Server, es: seq<Event>): seq<R.CoreEvent>
    decreases |es|
  {
    if es == [] then [] else CoreEvents(d, es[0]) + AllCoreEvents(Step(d, es[0]).0, es[1..])
  }

  // ---- deliveries ----

  /** The room frames session `s` gets from an action through its subscription to `room`. */
  function DeliveredIn(a: ServerAction, s: U64, room: U128): seq<Frame> {
    if a.BroadcastTo? && s in a.sessions && RoomId(a.frame.header) == room then [a.frame] else []
  }

  function DeliveredBy(actions: seq<ServerAction>, s: U64, room: U128): seq<Frame> {
    if actions == [] then [] else DeliveredIn(actions[0], s, room) + DeliveredBy(actions[1..], s, room)
  }

  function DeliveredTo(answer: Answer, s: U64, room: U128): seq<Frame> {
    if answer.Ok? then DeliveredBy(answer.value, s, room) else []
  }

  function Delivered(answers: seq<Answer>, s: U64, room: U128): seq<Frame> {
    if answers == [] then [] else DeliveredTo(answers[0], s, room) + Delivered(answers[1..], s, room)
  }

  lemma {:induction false} DeliveredConcat(xs: seq<ServerAction>, ys: seq<ServerAction>, s: U64, room: U128)
    ensures DeliveredBy(xs + ys, s, room) == DeliveredBy(xs, s, room) + DeliveredBy(ys, s, room)
  {
    hide DeliveredIn;
    if xs == [] {
      assert xs + ys == ys;
    } else {
      assert (xs + ys)[1..] == xs[1..] + ys;
      DeliveredConcat(xs[1..], ys, s, room);
    }
  }

  lemma RoomActionProjects(d: Server, a: R.RoomAction, sender: U64, fault: bool, s: U64, room: U128)
    requires a.PersistFrame? || RoutesToOwnRoom(a)
    ensures var (d', out) := OnRoomAction(d, a, sender, fault);
            && d' == d.(core := if a.PersistFrame? then R.Persist(d.core, a.room, a.index, a.frame, fault) else d.core)
            && (G.Subscribed(d.registry, s, room) ==>
                  DeliveredBy(out.value, s, room)
                  == if a.Broadcast? && a.room == room && !R.IsWelcome(a.frame) then [a.frame] else [])
  {
    hide R.Persist, R.IsWelcome, RecipientId, RoomId, G.SessionOf;
    var out := OnRoomAction(d, a, sender, fault).1;
    assert out.value != [] ==> out.value[1..] == [];
  }

  lemma {:induction false} RoomActionsProject(d: Server, actions: seq<R.RoomAction>, sender: U64, fault: bool, s: U64, room: U128)
    requires OnlyRoutes(actions)
    ensures var (d', out) := OnRoomActions(d, actions, sender, fault);
            && d' == d.(core := R.Execute(d.core, actions, fault))
            && (G.Subscribed(d.registry, s, room) ==> DeliveredBy(out, s, room) == Q.SentBy(actions, room))
    decreases |actions|
  {
    hide R.Persist, R.IsWelcome, RoutesToOwnRoom, G.Subscribed, OnRoomAction, DeliveredBy;
    if actions == [] {
      assert DeliveredBy([], s, room) == [] by { NoBroadcastDeliversNothing([], s, room); }
    } else {
      var (d1, first) := OnRoomAction(d, actions[0], sender, fault);
      RoomActionProjects(d, actions[0], sender, fault, s, room);
      RoomActionsProject(d1, actions[1..], sender, fault, s, room);
      DeliveredConcat(first.value, OnRoomActions(d1, actions[1..], sender, fault).1, s, room);
    }
  }

  /** Inside the driver a room frame does what it does on the bare room path, and a session
      subscribed to the room is sent exactly what is broadcast there. */
  lemma SequencedProjects(d: Server, session: U64, f: Frame, faults: Faults, s: U64, room: U128)
    ensures var (d', answer) := OnSequenced(d, session, f, faults);
            var (c', out) := R.Step(d.core, R.Arrive(f, faults.latest, faults.store));
            && d' == d.(core := c')
            && (G.Subscribed(d.registry, s, room) ==> DeliveredTo(answer, s, room) == Q.SentIn(out, room))
  {
    hide R.Processed, OnRoomActions, OnlyRoutes, R.Execute;
    var (m, result) := R.Processed(d.core.manager, f, d.core.store, faults.latest);
    NeverRejects(d.core.manager, f, d.core.store, faults.latest);
    if result.Ok? {
      RoomActionsProject(d.(core := R.Core(m, d.core.store)), result.value, session, faults.store, s, room);
    }
  }

  ghost predicate Projects(d: Server, r: (Server, Answer), events: seq<R.CoreEvent>, s: U64, room: U128) {
    && r.0.core == R.Run(d.core, events)
    && (G.Subscribed(d.registry, s, room) ==> DeliveredTo(r.1, s, room) == Q.Sent(R.Outputs(d.core, events), room))
  }

  lemma RunOne(c: R.Core, e: R.CoreEvent, room: U128)
    ensures R.Run(c, [e]) == R.Step(c, e).0 && Q.Sent(R.Outputs(c, [e]), room) == Q.SentIn(R.Step(c, e).1, room)
  {
    hide R.Step, Q.SentIn;
    assert [e][1..] == [] && R.Outputs(c, [e]) == [R.Step(c, e).1] && R.Outputs(c, [e])[1..] == [];
  }

  lemma RunTwo(c: R.Core, e: R.CoreEvent, e': R.CoreEvent, room: U128)
    requires !R.Step(c, e).1.Routed?
    ensures var c' := R.Step(c, e).0;
            R.Run(c, [e, e']) == R.Step(c', e').0 && Q.Sent(R.Outputs(c, [e, e']), room) == Q.SentIn(R.Step(c', e').1, room)
  {
    hide R.Step;
    assert [e, e'][1..] == [e'];
    RunOne(R.Step(c, e).0, e', room);
    assert R.Outputs(c, [e, e'])[1..] == R.Outputs(R.Step(c, e).0, [e']);
  }

  lemma CreateProjects(d: Server, room: U128, session: U64, secs: U64, fault: bool)
    requires session in d.registry.sessions
    ensures var (d', answer) := OnCreateRoom(d, room, session, secs, fault);
            var (c', out) := R.Step(d.core, Creation(d, room, session, secs, fault));
            && d'.core == c' && !out.Routed?
            && (answer.Ok? <==> out.Quiet?)
            && (answer.Ok? ==> answer.value == [LogEntry] && d'.registry == G.AfterSubscribe(d.registry, session, room).0)
  {
  }

  lemma SubscriptionGrows(g: G.Maps, session: U64, r: U128, s: U64, room: U128)
    requires G.Subscribed(g, s, room)
    ensures G.Subscribed(G.AfterSubscribe(g, session, r).0, s, room)
  {
  }

  lemma LogEntryDeliversNothing(actions: seq<ServerAction>, s: U64, room: U128)
    ensures DeliveredBy([LogEntry] + actions, s, room) == DeliveredBy(actions, s, room)
  {
    assert ([LogEntry] + actions)[1..] == actions;
  }

  lemma JoinedFrameProjects(d: Server, session: U64, f: Frame, faults: Faults, s: U64, room: U128)
    ensures var (d', answer) := OnJoinedFrame(d, session, f, faults);
            var (c', out) := R.Step(d.core, R.Arrive(f, faults.latest, faults.store));
            && d'.core == c'
            && (G.Subscribed(d.registry, s, room) ==> DeliveredTo(answer, s, room) == Q.SentIn(out, room))
  {
    hide OnSequenced, R.Step, G.AfterSubscribe, G.Subscribed, RoomId, OpcodeRaw, Q.SentIn, DeliveredBy;
    var r := RoomId(f.header);
    var d' := if OpcodeRaw(f.header) == EXTERNAL_COMMIT then d.(registry := G.AfterSubscribe(d.registry, session, r).0) else d;
    if G.Subscribed(d.registry, s, room) {
      SubscriptionGrows(d.registry, session, r, s, room);
    }
    SequencedProjects(d', session, f, faults, s, room);
    var routed := OnSequenced(d', session, f, faults).1;
    if routed.Ok? {
      LogEntryDeliversNothing(routed.value, s, room);
      assert [] + routed.value == routed.value;
    }
  }

  lemma RoomFrameProjects(d: Server, session: U64, f: Frame, secs: U64, faults: Faults, s: U64, room: U128)
    ensures Projects(d, OnRoomFrame(d, session, f, secs, faults), RoomFrameEvents(d, session, f, secs, faults), s, room)
  {
    hide OnCreateRoom, OnJoinedFrame, R.Step, R.Run, R.Outputs, G.AfterSubscribe, G.Subscribed, RoomId, Q.SentIn, DeliveredBy;
    if !CreatesRoom(d, f) {
      JoinedFrameProjects(d, session, f, faults, s, room);
      RunOne(d.core, R.Arrive(f, faults.latest, faults.store), room);
    } else if session in d.registry.sessions {
      CreatingFrameProjects(d, session, f, secs, faults, s, room);
    } else {
      CreationNeedsSession(d, RoomId(f.header), session, secs, faults.create, room);
    }
  }

  lemma CreationNeedsSession(d: Server, r: U128, session: U64, secs: U64, fault: bool, room: U128)
    requires session !in d.registry.sessions
    ensures OnCreateRoom(d, r, session, secs, fault) == (d, Err(SessionNotFound(session)))
    ensures R.Run(d.core, []) == d.core && Q.Sent(R.Outputs(d.core, []), room) == []
  {
  }

  lemma CreatingFrameProjects(d: Server, session: U64, f: Frame, secs: U64, faults: Faults, s: U64, room: U128)
    requires CreatesRoom(d, f) && session in d.registry.sessions
    ensures Projects(d, OnRoomFrame(d, session, f, secs, faults), RoomFrameEvents(d, session, f, secs, faults), s, room)
  {
    hide OnCreateRoom, OnJoinedFrame, R.Step, R.Run, R.Outputs, G.AfterSubscribe, G.Subscribed, RoomId, Q.SentIn, DeliveredBy, Creation;
    var r := RoomId(f.header);
    CreateProjects(d, r, session, secs, faults.create);
    CreationOutcome(d, f, session, secs, faults.create);
    var creation := Creation(d, r, session, secs, faults.create);
    RunOne(d.core, creation, room);
    SilentStep(R.Step(d.core, creation).1, room);
    if !faults.create {
      var d' := OnCreateRoom(d, r, session, secs, false).0;
      if G.Subscribed(d.registry, s, room) {
        SubscriptionGrows(d.registry, session, r, s, room);
      }
      JoinedFrameProjects(d', session, f, faults, s, room);
      RunTwo(d.core, creation, R.Arrive(f, faults.latest, faults.store), room);
      var routed := OnJoinedFrame(d', session, f, faults).1;
      if routed.Ok? {
        LogEntryDeliversNothing(routed.value, s, room);
      }
    }
  }

  lemma SilentStep(out: R.CoreOutput, room: U128)
    requires !out.Routed?
    ensures Q.SentIn(out, room) == []
  {
  }

  lemma CreationOutcome(d: Server, f: Frame, session: U64, secs: U64, fault: bool)
    requires CreatesRoom(d, f) && session in d.registry.sessions
    ensures OnCreateRoom(d, RoomId(f.header), session, secs, fault).1.Err? <==> fault
  {
  }

  lemma CreateEventProjects(d: Server, r: U128, session: U64, secs: U64, fault: bool, s: U64, room: U128)
    ensures var e := CreateRoom(r, session, secs, fault); Projects(d, Step(d, e), CoreEvents(d, e), s, room)
  {
    hide R.Step, R.Run, R.Outputs, Creation, OnCreateRoom, G.Subscribed, G.AfterSubscribe, DeliveredTo, Q.SentIn;
    if session in d.registry.sessions {
      CreateProjects(d, r, session, secs, fault);
      RunOne(d.core, Creation(d, r, session, secs, fault), room);
      SilentStep(R.Step(d.core, Creation(d, r, session, secs, fault)).1, room);
    } else {
      CreationNeedsSession(d, r, session, secs, fault, room);
    }
    QuietAnswer(OnCreateRoom(d, r, session, secs, fault).1, s, room);
  }

  lemma RebuildProjects(d: Server, e: Event, s: U64, room: U128)
    requires e.ClearSequencer? || e.RebuildManager? || e.Reboot?
    ensures Projects(d, Step(d, e), CoreEvents(d, e), s, room)
  {
    hide R.Run, R.Outputs, R.Recover;
    RunOne(d.core, CoreEvents(d, e)[0], room);
  }

  lemma IdleProjects(d: Server, e: Event, s: U64, room: U128)
    requires e.Accepted? || e.Disconnected? || e.Tick? || e.SubscribeTo? || e.UnsubscribeFrom?
    ensures Projects(d, Step(d, e), CoreEvents(d, e), s, room)
  {
    hide OnTick, G.Subscribed, G.AfterSubscribe, G.AfterUnsubscribe, G.Registered, G.Unregistered, DeliveredTo;
    if e.Tick? {
      TickKeepsKeys(d.conns, e.order, e.now);
    }
    QuietAnswer(Step(d, e).1, s, room);
  }

  /** Every driver event is, on the room path, its `CoreEvents`; and a session subscribed before
      the event is sent exactly what those broadcast to its room. */
  lemma StepProjects(d: Server, e: Event, s: U64, room: U128)
    ensures Projects(d, Step(d, e), CoreEvents(d, e), s, room)
  {
    hide Step, CoreEvents, Projects;
    match e
    case Received(session, f, payload, now, secs, faults) =>
      FrameProjects(d, session, f, payload, now, secs, faults, s, room);
    case CreateRoom(r, session, secs, fault) => CreateEventProjects(d, r, session, secs, fault, s, room);
    case ClearSequencer(_) => RebuildProjects(d, e, s, room);
    case RebuildManager(_) => RebuildProjects(d, e, s, room);
    case Reboot(_) => RebuildProjects(d, e, s, room);
    case _ => IdleProjects(d, e, s, room);
  }

  predicate NoBroadcast(actions: seq<ServerAction>) { forall i | 0 <= i < |actions| :: !actions[i].BroadcastTo? }

  lemma {:induction false} NoBroadcastDeliversNothing(actions: seq<ServerAction>, s: U64, room: U128)
    requires NoBroadcast(actions)
    ensures DeliveredBy(actions, s, room) == []
  {
    if actions != [] {
      NoBroadcastDeliversNothing(actions[1..], s, room);
    }
  }

  lemma QuietAnswer(answer: Answer, s: U64, room: U128)
    requires answer.Ok? ==> NoBroadcast(answer.value)
    ensures DeliveredTo(answer, s, room) == []
  {
    if answer.Ok? {
      NoBroadcastDeliversNothing(answer.value, s, room);
    }
  }

  lemma FrameProjects(d: Server, session: U64, f: Frame, payload: Payload, now: nat, secs: U64, faults: Faults, s: U64, room: U128)
    ensures var e := Received(session, f, payload, now, secs, faults); Projects(d, Step(d, e), CoreEvents(d, e), s, room)
  {
    hide OnRoomFrame, R.Step, RoomId, OpcodeRaw, G.Subscribed;
    if session in d.conns && GoesToRoom(OpcodeRaw(f.header)) {
      hide Projects;
      RoomFrameProjects(Touch(d, session, now), session, f, secs, faults, s, room);
      TouchedProjects(d, session, f, secs, faults, now, s, room);
    } else {
      SideFrame(d, session, f, payload, now, secs, faults, s, room);
    }
  }

  lemma TouchedProjects(d: Server, session: U64, f: Frame, secs: U64, faults: Faults, now: nat, s: U64, room: U128)
    requires session in d.conns
    requires Projects(Touch(d, session, now), OnRoomFrame(Touch(d, session, now), session, f, secs, faults),
                      RoomFrameEvents(Touch(d, session, now), session, f, secs, faults), s, room)
    ensures Projects(d, OnRoomFrame(Touch(d, session, now), session, f, secs, faults),
                     RoomFrameEvents(d, session, f, secs, faults), s, room)
  {
    hide OnRoomFrame, R.Run, R.Outputs;
  }

  lemma SyncIsQuiet(d: Server, session: U64, room: U128, payload: Payload, faults: Faults)
    ensures var (d', answer) := OnSync(d, session, room, payload, faults);
            d'.core == d.core && answer.Ok? && NoBroadcast(answer.value)
  {
  }

  /** Everything but a room frame leaves the room path alone. */
  lemma SideFrame(d: Server, session: U64, f: Frame, payload: Payload, now: nat, secs: U64, faults: Faults, s: U64, room: U128)
    requires session !in d.conns || !GoesToRoom(OpcodeRaw(f.header))
    ensures var (d', answer) := OnFrame(d, session, f, payload, now, secs, faults);
            d'.core == d.core && DeliveredTo(answer, s, room) == []
  {
    hide RoomId, OpcodeRaw, DeliveredBy, DeliveredTo, OnRoomFrame, OnSync, C.AfterFrame, G.Updated, G.AfterSubscribe;
    SyncIsQuiet(d, session, RoomId(f.header), payload, faults);
    QuietAnswer(OnFrame(d, session, f, payload, now, secs, faults).1, s, room);
  }

  // ---- runs ----

  lemma {:induction false} RunProjects(d: Server, es: seq<Event>)
    ensures Run(d, es).core == R.Run(d.core, AllCoreEvents(d, es))
    decreases |es|
  {
    hide Step, R.Step, CoreEvents;
    if es != [] {
      var d' := Step(d, es[0]).0;
      StepProjects(d, es[0], 0, 0);
      RunProjects(d', es[1..]);
      Q.RunSplit(d.core, CoreEvents(d, es[0]), AllCoreEvents(d', es[1..]));
    }
  }

  /** The guarantees of the room path hold of every run of the whole driver: logs only grow,
      position by position in order, and cached indexes are exact but for failed writes. */
  lemma DriverKeepsLogs(d: Server, es: seq<Event>, drifted: set<U128>)
    requires Q.SoundLog(d.core.store) && Q.Tracks(d.core, drifted)
    ensures Q.SoundLog(Run(d, es).core.store) && Q.Extends(d.core.store, Run(d, es).core.store)
    ensures Q.Tracks(Run(d, es).core, Q.DriftedAfter(d.core, AllCoreEvents(d, es), drifted))
  {
    RunProjects(d, es);
    Q.LogSoundOverRuns(d.core, AllCoreEvents(d, es));
    Q.CacheAheadExactlyAfterFailures(d.core, AllCoreEvents(d, es), drifted);
  }

  ghost predicate HealthyEvents(d: Server, es: seq<Event>)
    decreases |es|
  {
    es == [] || (Q.HealthyRun(d.core, CoreEvents(d, es[0])) && HealthyEvents(Step(d, es[0]).0, es[1..]))
  }

  ghost predicate StaysSubscribed(d: Server, es: seq<Event>, s: U64, room: U128)
    decreases |es|
  {
    es == [] || (G.Subscribed(d.registry, s, room) && StaysSubscribed(Step(d, es[0]).0, es[1..], s, room))
  }

  lemma {:induction false} SentConcat(xs: seq<R.CoreOutput>, ys: seq<R.CoreOutput>, room: U128)
    ensures Q.Sent(xs + ys, room) == Q.Sent(xs, room) + Q.Sent(ys, room)
  {
    hide Q.SentIn;
    if xs == [] {
      assert xs + ys == ys;
    } else {
      assert (xs + ys)[1..] == xs[1..] + ys;
      SentConcat(xs[1..], ys, room);
    }
  }

  /** A session that stays subscribed is sent what is broadcast to the room, frame for frame. */
  lemma {:induction false} DeliveredIsSent(d: Server, es: seq<Event>, s: U64, room: U128)
    requires StaysSubscribed(d, es, s, room)
    ensures Delivered(Answers(d, es), s, room) == Q.Sent(R.Outputs(d.core, AllCoreEvents(d, es)), room)
    decreases |es|
  {
    hide Step, R.Step, CoreEvents, DeliveredTo, G.Subscribed, R.Run, R.Outputs, Q.SentIn;
    if es == [] {
      NothingSent(d.core, room);
    } else {
      var d', events := Step(d, es[0]).0, CoreEvents(d, es[0]);
      StepProjects(d, es[0], s, room);
      DeliveredIsSent(d', es[1..], s, room);
      assert Answers(d, es)[1..] == Answers(d', es[1..]);
      Q.RunSplit(d.core, events, AllCoreEvents(d', es[1..]));
      SentConcat(R.Outputs(d.core, events), R.Outputs(d'.core, AllCoreEvents(d', es[1..])), room);
    }
  }

  lemma NothingSent(c: R.Core, room: U128)
    ensures Q.Sent(R.Outputs(c, []), room) == []
  {
  }

  /** The frames lost to a room over a run of the driver. */
  ghost function Losses(d: Server, es: seq<Event>, room: U128, drifted: set<U128>): nat {
    Q.Losses(d.core, AllCoreEvents(d, es), room, drifted)
  }

  /** Ordered, gapless delivery, end to end: over any stretch of any run in which a session stays
      subscribed to a room, every broadcast it is sent is stored or counted as lost; and the
      broadcasts are exactly what the room's stored log gained, in log order, if and only if none
      of that room's frames was lost. */
  lemma SubscriberSeesTheLog(d: Server, es: seq<Event>, s: U64, room: U128, drifted: set<U128>)
    requires Q.Tracks(d.core, drifted) && StaysSubscribed(d, es, s, room)
    ensures |Log(Run(d, es).core.store, room)| + Losses(d, es, room, drifted)
         == |Log(d.core.store, room)| + |Delivered(Answers(d, es), s, room)|
    ensures Log(Run(d, es).core.store, room) == Log(d.core.store, room) + Delivered(Answers(d, es), s, room)
       <==> Losses(d, es, room, drifted) == 0
  {
    hide Run, Answers, R.Run, R.Outputs, Q.Tracks, Q.Losses, Log, StaysSubscribed;
    DeliveredIsSent(d, es, s, room);
    RunProjects(d, es);
    Q.BroadcastsAreTheLog(d.core, AllCoreEvents(d, es), room, drifted);
  }

  lemma {:induction false} HealthyEventsProject(d: Server, es: seq<Event>)
    requires HealthyEvents(d, es)
    ensures Q.HealthyRun(d.core, AllCoreEvents(d, es))
    decreases |es|
  {
    hide Step, R.Step, CoreEvents;
    if es != [] {
      var d' := Step(d, es[0]).0;
      StepProjects(d, es[0], 0, 0);
      HealthyEventsProject(d', es[1..]);
      Q.RunSplit(d.core, CoreEvents(d, es[0]), AllCoreEvents(d', es[1..]));
    }
  }

  /** From exact caches a run with healthy storage loses nothing, in any room. */
  lemma HealthyDriverLosesNothing(d: Server, es: seq<Event>, room: U128)
    requires Q.Settled(d.core) && HealthyEvents(d, es)
    ensures Q.Tracks(d.core, {}) && Losses(d, es, room, {}) == 0
  {
    hide HealthyEvents, Q.Settled, Q.Tracks, Q.Losses;
    HealthyEventsProject(d, es);
    Q.HealthyRunsLoseNothing(d.core, AllCoreEvents(d, es), room);
  }

  /** A server on an empty store, after any past with any failures: once storage is healthy at
      most one of the frames then offered to a known room is missing from its log, and one only
      if the room had drifted. */
  lemma AnyPastLosesAtMostOne(d: Server, past: seq<Event>, es: seq<Event>, room: U128) returns (lost: nat)
    requires d.core == R.EMPTY_CORE && HealthyEvents(Run(d, past), es)
    requires var c := Run(d, past).core;
             && room in c.manager.metadata && (room in c.manager.cache ==> c.manager.cache[room] < U64_MAX)
             && |Log(c.store, room)| + |Q.Offered(AllCoreEvents(Run(d, past), es), room)| <= U64_MAX
    ensures var log, offered := Log(Run(d, past).core.store, room), Q.Offered(AllCoreEvents(Run(d, past), es), room);
            && lost <= 1 && lost <= |offered|
            && (lost == 1 ==> room in Q.DriftedAfter(R.EMPTY_CORE, AllCoreEvents(d, past), {}))
            && Log(Run(d, past + es).core.store, room) == log + Q.Numbered(offered[lost..], |log|)
  {
    hide Run, R.Run, AllCoreEvents, HealthyEvents, Q.HealthyRun, Q.Offered, Q.Numbered, Q.DriftedAfter, Log;
    var mid := Run(d, past);
    var before, after := AllCoreEvents(d, past), AllCoreEvents(mid, es);
    RunProjects(d, past);
    RunProjects(mid, es);
    RunSplit(d, past, es);
    HealthyEventsProject(mid, es);
    Q.RunSplit(d.core, before, after);
    lost := Q.AnyPastLosesAtMostOne(before, after, room);
  }

  // ---- restarts ----

  /** Two drivers over one store that differ at most in which exact indexes they have cached. */
  predicate Twins(d: Server, t: Server) {
    t == d.(core := t.core) && SameRooms(d.core, t.core)
  }

  predicate SameRooms(c: R.Core, b: R.Core) { c.store == b.store && Q.Settled(c) && Q.Settled(b) }

  predicate SameAnswer(p: (Server, Answer), q: (Server, Answer)) { Twins(p.0, q.0) && p.1 == q.1 }

  lemma {:induction false} RoomActionsTwin(d: Server, t: Server, actions: seq<R.RoomAction>, sender: U64, fault: bool)
    requires t == d.(core := t.core) && t.core.store == d.core.store
    ensures var (d', out), (t', out') := OnRoomActions(d, actions, sender, fault), OnRoomActions(t, actions, sender, fault);
            t' == d'.(core := t'.core) && out == out'
    decreases |actions|
  {
    hide R.IsWelcome, RecipientId, RoomId, G.SessionsIn, G.SessionOf, AfterStore;
    if actions != [] {
      RoomActionsTwin(OnRoomAction(d, actions[0], sender, fault).0, OnRoomAction(t, actions[0], sender, fault).0, actions[1..], sender, fault);
    }
  }

  lemma SequencedTwin(d: Server, t: Server, session: U64, f: Frame, faults: Faults)
    requires Twins(d, t) && !faults.latest && !faults.store
    ensures SameAnswer(OnSequenced(d, session, f, faults), OnSequenced(t, session, f, faults))
  {
    hide R.Processed, OnRoomActions, R.Execute, Q.Settled;
    var arrival := R.Arrive(f, false, false);
    Q.SettledStatesAgree(d.core, t.core, arrival);
    SequencedProjects(d, session, f, faults, 0, 0);
    SequencedProjects(t, session, f, faults, 0, 0);
    var (m, result) := R.Processed(d.core.manager, f, d.core.store, false);
    var (n, result') := R.Processed(t.core.manager, f, t.core.store, false);
    assert result == result';
    if result.Ok? {
      RoomActionsTwin(d.(core := R.Core(m, d.core.store)), t.(core := R.Core(n, t.core.store)), result.value, session, false);
    }
  }

  lemma JoinedTwin(d: Server, t: Server, session: U64, f: Frame, faults: Faults)
    requires Twins(d, t) && !faults.latest && !faults.store
    ensures SameAnswer(OnJoinedFrame(d, session, f, faults), OnJoinedFrame(t, session, f, faults))
  {
    hide OnSequenced, SameRooms, G.AfterSubscribe, RoomId, OpcodeRaw;
    var external := OpcodeRaw(f.header) == EXTERNAL_COMMIT;
    var registry := G.AfterSubscribe(d.registry, session, RoomId(f.header)).0;
    SequencedTwin(if external then d.(registry := registry) else d, if external then t.(registry := registry) else t, session, f, faults);
  }

  lemma CreateTwin(d: Server, t: Server, room: U128, session: U64, secs: U64)
    requires Twins(d, t)
    ensures SameAnswer(OnCreateRoom(d, room, session, secs, false), OnCreateRoom(t, room, session, secs, false))
  {
    hide G.AfterSubscribe;
  }

  lemma HealthyFaults(d: Server, session: U64, f: Frame, secs: U64, faults: Faults)
    requires Q.HealthyRun(d.core, RoomFrameEvents(d, session, f, secs, faults))
    ensures CreatesRoom(d, f) && session in d.registry.sessions ==> !faults.create
    ensures !(CreatesRoom(d, f) && session !in d.registry.sessions) ==> !faults.latest && !faults.store
  {
    hide R.Step, RoomId, OpcodeRaw;
    var events := RoomFrameEvents(d, session, f, secs, faults);
    if |events| == 2 {
      assert events[1..][0] == events[1];
    }
  }

  lemma RoomFrameTwin(d: Server, t: Server, session: U64, f: Frame, secs: U64, faults: Faults)
    requires Twins(d, t) && Q.HealthyRun(d.core, RoomFrameEvents(d, session, f, secs, faults))
    ensures SameAnswer(OnRoomFrame(d, session, f, secs, faults), OnRoomFrame(t, session, f, secs, faults))
  {
    hide OnCreateRoom, OnJoinedFrame, RoomId, OpcodeRaw, Q.HealthyRun;
    HealthyFaults(d, session, f, secs, faults);
    var room := RoomId(f.header);
    if !CreatesRoom(d, f) {
      JoinedTwin(d, t, session, f, faults);
    } else if session !in d.registry.sessions {
      CreationNeedsSession(d, room, session, secs, faults.create, room);
      CreationNeedsSession(t, room, session, secs, faults.create, room);
    } else {
      CreateTwin(d, t, room, session, secs);
      JoinedTwin(OnCreateRoom(d, room, session, secs, false).0, OnCreateRoom(t, room, session, secs, false).0, session, f, faults);
    }
  }

  lemma SideFrameTwin(d: Server, t: Server, session: U64, f: Frame, payload: Payload, now: nat, secs: U64, faults: Faults)
    requires Twins(d, t) && !(session in d.conns && GoesToRoom(OpcodeRaw(f.header)))
    ensures SameAnswer(OnFrame(d, session, f, payload, now, secs, faults), OnFrame(t, session, f, payload, now, secs, faults))
  {
    hide OnRoomFrame, RoomId, OpcodeRaw, RecipientId, SameRooms, OnSync, OnWelcome, OnSessionFrame, K.Stored, K.AfterTake;
    SessionTwin(d, t, session, OpcodeRaw(f.header), payload, now);
    WelcomeTwin(d, t, session, f, now);
    SyncTwin(d, t, session, RoomId(f.header), payload, faults);
  }

  lemma SessionTwin(d: Server, t: Server, session: U64, opcode: nat, payload: Payload, now: nat)
    requires Twins(d, t)
    ensures session in d.conns ==>
              SameAnswer(OnSessionFrame(d, session, opcode, payload, now), OnSessionFrame(t, session, opcode, payload, now))
  {
    hide SameRooms, C.AfterFrame, SessionMessage, G.Updated;
  }

  lemma WelcomeTwin(d: Server, t: Server, session: U64, f: Frame, now: nat)
    requires Twins(d, t)
    ensures session in d.conns ==> SameAnswer(OnWelcome(Touch(d, session, now), f), OnWelcome(Touch(t, session, now), f))
  {
    hide SameRooms, G.AfterSubscribe, G.SessionOf, RoomId, RecipientId;
  }

  lemma SyncTwin(d: Server, t: Server, session: U64, room: U128, payload: Payload, faults: Faults)
    requires Twins(d, t)
    ensures SameAnswer(OnSync(d, session, room, payload, faults), OnSync(t, session, room, payload, faults))
  {
  }

  lemma FrameTwin(d: Server, t: Server, session: U64, f: Frame, payload: Payload, now: nat, secs: U64, faults: Faults)
    requires Twins(d, t)
    requires Q.HealthyRun(d.core, CoreEvents(d, Received(session, f, payload, now, secs, faults)))
    ensures SameAnswer(OnFrame(d, session, f, payload, now, secs, faults), OnFrame(t, session, f, payload, now, secs, faults))
  {
    hide OnRoomFrame, RoomId, OpcodeRaw, Q.HealthyRun, SameRooms;
    if session in d.conns && GoesToRoom(OpcodeRaw(f.header)) {
      assert RoomFrameEvents(Touch(d, session, now), session, f, secs, faults) == RoomFrameEvents(d, session, f, secs, faults);
      RoomFrameTwin(Touch(d, session, now), Touch(t, session, now), session, f, secs, faults);
    } else {
      SideFrameTwin(d, t, session, f, payload, now, secs, faults);
    }
  }

  lemma OtherTwin(d: Server, t: Server, e: Event)
    requires Twins(d, t) && !e.Received? && Q.HealthyRun(d.core, CoreEvents(d, e))
    ensures SameAnswer(Step(d, e), Step(t, e))
  {
    hide OnTick, G.AfterSubscribe, G.AfterUnsubscribe, G.Registered, G.Unregistered, OnCreateRoom, R.Step, Q.Settled, R.Recover;
    var events := CoreEvents(d, e);
    if e.CreateRoom? {
      if e.session in d.registry.sessions {
        assert Q.Healthy(d.core, events[0]);
        CreateTwin(d, t, e.room, e.session, e.secs);
      } else {
        CreationNeedsSession(d, e.room, e.session, e.secs, e.fault, 0);
        CreationNeedsSession(t, e.room, e.session, e.secs, e.fault, 0);
      }
    } else if events != [] {
      Q.SettledStatesAgree(d.core, t.core, events[0]);
    }
  }

  lemma StepTwin(d: Server, t: Server, e: Event)
    requires Twins(d, t) && Q.HealthyRun(d.core, CoreEvents(d, e))
    ensures SameAnswer(Step(d, e), Step(t, e))
  {
    if e.Received? {
      hide OnFrame, Twins, CoreEvents;
      FrameTwin(d, t, e.session, e.frame, e.payload, e.now, e.secs, e.faults);
    } else {
      hide Step, Twins, CoreEvents;
      OtherTwin(d, t, e);
    }
  }

  lemma {:induction false} TwinRuns(d: Server, t: Server, es: seq<Event>)
    requires Twins(d, t) && HealthyEvents(d, es)
    ensures Answers(d, es) == Answers(t, es) && Twins(Run(d, es), Run(t, es))
    decreases |es|
  {
    hide Step, Twins, CoreEvents, Q.HealthyRun;
    if es != [] {
      StepTwin(d, t, es[0]);
      TwinRuns(Step(d, es[0]).0, Step(t, es[0]).0, es[1..]);
    }
  }

  lemma {:induction false} RunSplit(d: Server, es: seq<Event>, fs: seq<Event>)
    ensures Run(d, es + fs) == Run(Run(d, es), fs)
    ensures Answers(d, es + fs) == Answers(d, es) + Answers(Run(d, es), fs)
    ensures HealthyEvents(d, es + fs) <==> HealthyEvents(d, es) && HealthyEvents(Run(d, es), fs)
    decreases |es|
  {
    hide Step, CoreEvents, Q.HealthyRun;
    if es == [] {
      assert es + fs == fs;
    } else {
      assert (es + fs)[1..] == es[1..] + fs;
      RunSplit(Step(d, es[0]).0, es[1..], fs);
    }
  }

  lemma RebuildIsTwin(d: Server, plan: seq<R.RecoverStep>)
    requires Q.Settled(d.core) && Q.Healthy(d.core, R.Restart(plan))
    ensures Twins(d, Step(d, RebuildManager(plan)).0)
  {
    hide Q.Settled, R.Step;
    Q.RestartStaysSettled(d.core, plan);
  }

  /** Rebuilding the room manager from storage, at any point of a run with healthy storage,
      changes no answer the driver gives to any session afterwards. */
  lemma RebuildUnnoticed(d: Server, before: seq<Event>, plan: seq<R.RecoverStep>, after: seq<Event>)
    requires Q.Settled(d.core) && HealthyEvents(d, before + after)
    requires Q.Healthy(Run(d, before).core, R.Restart(plan))
    ensures Answers(d, before + [RebuildManager(plan)] + after)
         == Answers(d, before) + [Ok([])] + Answers(Run(d, before), after)
    ensures Twins(Run(d, before + after), Run(d, before + [RebuildManager(plan)] + after))
  {
    hide Step, Run, Answers, Twins, Q.Settled, Q.Healthy, HealthyEvents;
    var mid, rebuild := Run(d, before), RebuildManager(plan);
    RunSplit(d, before, after);
    SettledIsOwnTwin(d);
    TwinRuns(d, d, before);
    SettledIsOwnTwin(mid);
    RebuildIsTwin(mid, plan);
    TwinRuns(mid, Step(mid, rebuild).0, after);
    assert before + [rebuild] + after == before + ([rebuild] + after);
    RunSplit(d, before, [rebuild] + after);
    RebuildFirst(mid, plan, after);
  }

  lemma SettledIsOwnTwin(d: Server)
    ensures Twins(d, d) <==> Q.Settled(d.core)
  {
  }

  lemma RebuildFirst(d: Server, plan: seq<R.RecoverStep>, es: seq<Event>)
    ensures var e, d' := RebuildManager(plan), Step(d, RebuildManager(plan)).0;
            Run(d, [e] + es) == Run(d', es) && Answers(d, [e] + es) == [Ok([])] + Answers(d', es)
  {
    assert ([RebuildManager(plan)] + es)[1..] == es;
  }
}
