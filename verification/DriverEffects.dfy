/** What driver events bring about, told from the outside: who is subscribed, who is who, which
    rooms are known; and delivery for a session that has been welcomed into a room. */
module DriverEffects {
  import opened BigEndian
  import opened Results
  import opened Wire
  import opened Storage
  import R = Rooms
  import Q = RoomRuns
  import C = Connection
  import G = Registry
  import opened Driver
  import opened DriverRuns
  import opened DriverConnections

  predicate From(d: Server, e: Event, s: U64, opcode: nat) {
    e.Received? && e.session == s && s in d.conns && OpcodeRaw(e.frame.header) == opcode
  }

  // ---- rooms ----

  /** The event creates the room on behalf of session `s`: asked to, or by a commit to a room
      nobody knows; and storage takes it. */
  predicate Creates(d: Server, e: Event, s: U64, room: U128) {
    && room !in d.core.manager.metadata && s in d.registry.sessions
    && (|| (e.CreateRoom? && e.session == s && e.room == room && !e.fault)
        || ((From(d, e, s, COMMIT) || From(d, e, s, EXTERNAL_COMMIT)) && RoomId(e.frame.header) == room && !e.faults.create))
  }

  function Creator(d: Server, s: U64): U64
    requires s in d.registry.sessions
  {
    if d.registry.sessions[s].userId.Some? then d.registry.sessions[s].userId.value else s
  }

  lemma ArriveKeepsRooms(c: R.Core, f: Frame, latestFault: bool, storeFault: bool)
    ensures var c' := R.Step(c, R.Arrive(f, latestFault, storeFault)).0;
            c'.manager.metadata == c.manager.metadata && c'.store.rooms == c.store.rooms
  {
    hide R.Step, Q.Sequenceable, R.WithIndex, RoomId;
    if Q.Accepts(c, f, latestFault) {
      Q.AcceptedStep(c, f, latestFault, storeFault);
    } else {
      Q.UnacceptedStep(c, f, latestFault, storeFault);
    }
  }

  /** A joined frame adds a subscription for an external commit and touches no room's existence. */
  lemma JoinedEffect(d: Server, session: U64, f: Frame, faults: Faults)
    ensures var d' := OnJoinedFrame(d, session, f, faults).0;
            && d'.core.manager.metadata == d.core.manager.metadata && d'.core.store.rooms == d.core.store.rooms
            && d'.registry == (if OpcodeRaw(f.header) == EXTERNAL_COMMIT
                               then G.AfterSubscribe(d.registry, session, RoomId(f.header)).0 else d.registry)
  {
    hide OnSequenced, OpcodeRaw, RoomId, G.AfterSubscribe, R.Step;
    var d1 := if OpcodeRaw(f.header) == EXTERNAL_COMMIT
              then d.(registry := G.AfterSubscribe(d.registry, session, RoomId(f.header)).0) else d;
    SequencedProjects(d1, session, f, faults, 0, 0);
    ArriveKeepsRooms(d1.core, f, faults.latest, faults.store);
  }

  /** Creating a room: known, stored and subscribed to, or nothing at all. */
  lemma CreateEffect(d: Server, room: U128, s: U64, secs: U64, fault: bool)
    ensures var (d', answer) := OnCreateRoom(d, room, s, secs, fault);
            var ok := s in d.registry.sessions && room !in d.core.manager.metadata && !fault;
            && (answer.Ok? <==> ok)
            && (!ok ==> d'.core.manager.metadata == d.core.manager.metadata && d'.core.store.rooms == d.core.store.rooms
                        && d'.registry == d.registry)
            && (ok ==> && d'.core.manager.metadata == d.core.manager.metadata[room := RoomMetadata(Creator(d, s), secs)]
                       && d'.core.store.rooms.Keys == d.core.store.rooms.Keys + {room}
                       && (room !in d.core.store.rooms ==> d'.core.store.rooms[room] == RoomMetadata(Creator(d, s), secs))
                       && d'.registry == G.AfterSubscribe(d.registry, s, room).0)
  {
    hide G.AfterSubscribe;
  }

  lemma RoomFrameEffect(d: Server, s: U64, f: Frame, secs: U64, faults: Faults)
    ensures var (d', answer) := OnRoomFrame(d, s, f, secs, faults);
            var room, opcode := RoomId(f.header), OpcodeRaw(f.header);
            var unknown := (opcode == COMMIT || opcode == EXTERNAL_COMMIT) && room !in d.core.manager.metadata;
            var made := unknown && s in d.registry.sessions && !faults.create;
            && d'.core.manager.metadata
               == (if made then d.core.manager.metadata[room := RoomMetadata(Creator(d, s), secs)] else d.core.manager.metadata)
            && d'.core.store.rooms.Keys == (if made then d.core.store.rooms.Keys + {room} else d.core.store.rooms.Keys)
            && (s in d.registry.sessions ==>
                  d'.registry.sessions == d.registry.sessions
                  && forall t, r :: G.Subscribed(d'.registry, t, r) <==>
                       G.Subscribed(d.registry, t, r) || (t == s && r == room && (made || (!unknown && opcode == EXTERNAL_COMMIT))))
            && (s !in d.registry.sessions ==> d'.registry == d.registry)
  {
    hide OnCreateRoom, OnJoinedFrame, RoomId, OpcodeRaw, G.AfterSubscribe;
    var room := RoomId(f.header);
    CreateEffect(d, room, s, secs, faults.create);
    var d1 := OnCreateRoom(d, room, s, secs, faults.create).0;
    JoinedEffect(d, s, f, faults);
    JoinedEffect(d1, s, f, faults);
    SubscribeEffect(d.registry, s, room);
    SubscribeEffect(d1.registry, s, room);
  }

  lemma SubscribeEffect(m: G.Maps, s: U64, room: U128)
    ensures var m' := G.AfterSubscribe(m, s, room).0;
            if s in m.sessions
            then m'.sessions == m.sessions
                 && forall t, r :: G.Subscribed(m', t, r) <==> G.Subscribed(m, t, r) || (t == s && r == room)
            else m' == m
  {
  }

  /** Which rooms are known after an event: those before and the one it creates, for its creator
      and with its time. Frames, sessions and cleared caches create and remove none. */
  lemma KnownAfterIff(d: Server, e: Event, room: U128)
    requires !e.RebuildManager? && !e.Reboot?
    ensures var before, after := d.core.manager.metadata, Step(d, e).0.core.manager.metadata;
            var made := (e.Received? || e.CreateRoom?) && Creates(d, e, e.session, room);
            && (room in after <==> room in before || made)
            && (room in before ==> after[room] == before[room])
            && (made ==> after[room] == RoomMetadata(Creator(d, e.session), e.secs) && room in Step(d, e).0.core.store.rooms)
  {
    if e.Received? {
      hide Step, Creates;
      FrameKnows(d, e, room);
    } else if e.CreateRoom? {
      hide OnCreateRoom;
      CreateEffect(d, e.room, e.session, e.secs, e.fault);
    } else {
      hide OnTick, G.Registered, G.Unregistered, G.AfterSubscribe, G.AfterUnsubscribe;
    }
  }

  lemma FrameKnows(d: Server, e: Event, room: U128)
    requires e.Received?
    ensures var before, after := d.core.manager.metadata, Step(d, e).0.core.manager.metadata;
            var made := Creates(d, e, e.session, room);
            && (room in after <==> room in before || made)
            && (room in before ==> after[room] == before[room])
            && (made ==> after[room] == RoomMetadata(Creator(d, e.session), e.secs) && room in Step(d, e).0.core.store.rooms)
  {
    hide Step, OnRoomFrame, OpcodeRaw, RoomId, G.Subscribed;
    if e.session in d.conns && GoesToRoom(OpcodeRaw(e.frame.header)) {
      RoomFrameStep(d, e);
      RoomFrameEffect(Touch(d, e.session, e.now), e.session, e.frame, e.secs, e.faults);
    } else {
      OtherFrameKeepsRooms(d, e);
    }
  }

  lemma RoomFrameStep(d: Server, e: Event)
    requires e.Received? && e.session in d.conns && GoesToRoom(OpcodeRaw(e.frame.header))
    ensures Step(d, e) == OnRoomFrame(Touch(d, e.session, e.now), e.session, e.frame, e.secs, e.faults)
  {
    hide OnRoomFrame, OpcodeRaw;
  }

  lemma OtherFrameKeepsRooms(d: Server, e: Event)
    requires e.Received? && !(e.session in d.conns && GoesToRoom(OpcodeRaw(e.frame.header)))
    ensures Step(d, e).0.core == d.core
  {
    hide OnRoomFrame, OpcodeRaw, RoomId, OnSync, OnSessionFrame, OnWelcome;
    if e.session in d.conns {
      SyncIsQuiet(d, e.session, RoomId(e.frame.header), e.payload, e.faults);
      SessionFrameEffect(d, e.session, OpcodeRaw(e.frame.header), e.payload, e.now);
      WelcomeEffect(Touch(d, e.session, e.now), e.frame);
    }
  }

  // ---- subscriptions ----

  lemma SessionFrameEffect(d: Server, s: U64, opcode: nat, payload: Payload, now: nat)
    requires s in d.conns
    ensures var d' := OnSessionFrame(d, s, opcode, payload, now).0;
            && d'.core == d.core && (d'.registry == d.registry || exists info :: d'.registry == G.Updated(d.registry, s, info).0)
  {
    hide G.Updated, C.AfterFrame;
    var conn := C.AfterFrame(d.conns[s], SessionMessage(opcode, payload), now).0;
    var info := G.SessionInfo(if conn.clientSenderId.Some? then conn.clientSenderId else conn.sessionId, true);
    var g := OnSessionFrame(d, s, opcode, payload, now).0.registry;
    assert g == d.registry || g == G.Updated(d.registry, s, info).0;
  }

  lemma WelcomeEffect(d: Server, f: Frame)
    ensures var d' := OnWelcome(d, f).0;
            var recipient := G.SessionOf(d.registry, RecipientId(f.header));
            && d'.core == d.core
            && d'.registry == (if recipient.Some? then G.AfterSubscribe(d.registry, recipient.value, RoomId(f.header)).0 else d.registry)
  {
    hide G.AfterSubscribe, G.SessionOf, RoomId, RecipientId;
  }

  /** A Welcome to the room reaches the driver, addressed to the user of session `s`. */
  predicate Welcomes(d: Server, e: Event, s: U64, room: U128) {
    && e.Received? && From(d, e, e.session, R.OPCODE_WELCOME) && RoomId(e.frame.header) == room
    && s in d.registry.sessions && d.registry.sessions[s].userId == Some(RecipientId(e.frame.header))
  }

  predicate Subscribes(d: Server, e: Event, s: U64, room: U128) {
    || (e.SubscribeTo? && e.session == s && e.room == room && s in d.registry.sessions)
    || Creates(d, e, s, room)
    || (From(d, e, s, EXTERNAL_COMMIT) && RoomId(e.frame.header) == room && room in d.core.manager.metadata)
    || Welcomes(d, e, s, room)
  }

  predicate Unsubscribes(e: Event, s: U64, room: U128) {
    (e.UnsubscribeFrom? && e.session == s && e.room == room) || (e.Disconnected? && e.session == s) || e.Reboot?
  }

  lemma RecipientIs(g: G.Maps, user: U64, s: U64)
    requires G.Valid(g)
    ensures G.SessionOf(g, user) == Some(s) <==> s in g.sessions && g.sessions[s].userId == Some(user)
  {
    G.UserIsHeld(g, user);
  }

  lemma UpdateKeepsSubscriptions(g: G.Maps, x: U64, info: G.SessionInfo)
    ensures forall s, room :: G.Subscribed(G.Updated(g, x, info).0, s, room) <==> G.Subscribed(g, s, room)
  {
  }

  lemma FrameSubscribes(d: Server, e: Event, s: U64, room: U128)
    requires Live(d) && e.Received?
    ensures G.Subscribed(Step(d, e).0.registry, s, room) <==> G.Subscribed(d.registry, s, room) || Subscribes(d, e, s, room)
  {
    hide Step, OnRoomFrame, OpcodeRaw, RoomId, RecipientId, G.Valid, G.Subscribed;
    if e.session in d.conns && GoesToRoom(OpcodeRaw(e.frame.header)) {
      RoomFrameStep(d, e);
      RoomFrameEffect(Touch(d, e.session, e.now), e.session, e.frame, e.secs, e.faults);
    } else {
      OtherFrameSubscribes(d, e, s, room);
    }
  }

  lemma OtherFrameSubscribes(d: Server, e: Event, s: U64, room: U128)
    requires Live(d) && e.Received? && !(e.session in d.conns && GoesToRoom(OpcodeRaw(e.frame.header)))
    ensures G.Subscribed(Step(d, e).0.registry, s, room) <==> G.Subscribed(d.registry, s, room) || Welcomes(d, e, s, room)
  {
    hide OnRoomFrame, OpcodeRaw, RoomId, RecipientId, OnSync, OnSessionFrame, OnWelcome, G.AfterSubscribe, G.Updated, G.SessionOf, G.Valid, G.Subscribed;
    if e.session in d.conns {
      SyncKeepsRegistry(d, e.session, RoomId(e.frame.header), e.payload, e.faults);
      SessionFrameSubscribes(d, e, s, room);
      WelcomeEffect(Touch(d, e.session, e.now), e.frame);
      RecipientIs(d.registry, RecipientId(e.frame.header), s);
      var recipient := G.SessionOf(d.registry, RecipientId(e.frame.header));
      if recipient.Some? {
        SubscribeEffect(d.registry, recipient.value, RoomId(e.frame.header));
        RecipientIs(d.registry, RecipientId(e.frame.header), recipient.value);
      }
    }
  }

  lemma SyncKeepsRegistry(d: Server, session: U64, room: U128, payload: Payload, faults: Faults)
    ensures OnSync(d, session, room, payload, faults).0.registry == d.registry
  {
  }

  lemma SessionFrameSubscribes(d: Server, e: Event, s: U64, room: U128)
    requires e.Received? && e.session in d.conns
    ensures G.Subscribed(OnSessionFrame(d, e.session, OpcodeRaw(e.frame.header), e.payload, e.now).0.registry, s, room)
       <==> G.Subscribed(d.registry, s, room)
  {
    hide OnSessionFrame, G.Subscribed, G.Updated, OpcodeRaw;
    SessionFrameEffect(d, e.session, OpcodeRaw(e.frame.header), e.payload, e.now);
    var g := OnSessionFrame(d, e.session, OpcodeRaw(e.frame.header), e.payload, e.now).0.registry;
    if g != d.registry {
      var info :| g == G.Updated(d.registry, e.session, info).0;
      UpdateKeepsSubscriptions(d.registry, e.session, info);
    }
  }

  /** What an event that is not a frame does to the registry. */
  function RegistryOp(d: Server, e: Event): Option<G.Op> {
    match e
    case Accepted(x, _) => if |d.conns| < d.config.maxConnections then Some(G.Register(x, G.SessionInfo(None, false))) else None
    case Disconnected(x) => Some(G.Unregister(x))
    case SubscribeTo(x, r) => Some(G.Subscribe(x, r))
    case UnsubscribeFrom(x, r) => Some(G.Unsubscribe(x, r))
    case CreateRoom(r, x, _, _) => if Creates(d, e, x, r) then Some(G.Subscribe(x, r)) else None
    case _ => None
  }

  lemma RegistryAfter(d: Server, e: Event)
    requires !e.Received? && !e.Reboot?
    ensures Step(d, e).0.registry == if RegistryOp(d, e).Some? then G.Step(d.registry, RegistryOp(d, e).value).0 else d.registry
  {
    hide OnTick, R.Step, OnCreateRoom, G.Registered, G.Unregistered, G.AfterSubscribe, G.AfterUnsubscribe, OpcodeRaw, RoomId;
    if e.CreateRoom? {
      CreateEffect(d, e.room, e.session, e.secs, e.fault);
    }
  }

  /** Who is subscribed after an event: whoever was and is not taken away, and whoever the event
      subscribes — by the host's request, by creating the room, by an external commit to it
      whether or not that is sequenced, or by being welcomed. */
  lemma SubscribedAfterIff(d: Server, e: Event, s: U64, room: U128)
    requires Live(d)
    ensures G.Subscribed(Step(d, e).0.registry, s, room)
       <==> (G.Subscribed(d.registry, s, room) && !Unsubscribes(e, s, room)) || Subscribes(d, e, s, room)
  {
    hide G.Valid, G.Step, G.Subscribed, OpcodeRaw, RoomId, RecipientId, Step;
    if e.Received? {
      FrameSubscribes(d, e, s, room);
    } else if e.Reboot? {
      RebootForgets(d, e);
      NobodySubscribed(s, room);
    } else {
      RegistryAfter(d, e);
      if RegistryOp(d, e).Some? {
        G.SubscribedAfterIff(d.registry, RegistryOp(d, e).value, s, room);
      }
    }
  }

  lemma RebootForgets(d: Server, e: Event)
    requires e.Reboot?
    ensures Step(d, e).0.registry == G.NO_SESSIONS
  {
    hide R.Step;
  }

  lemma NobodySubscribed(s: U64, room: U128)
    ensures !G.Subscribed(G.NO_SESSIONS, s, room)
  {
  }

  // ---- users ----

  /** The user a session is registered as: none until it says Hello; then the sender id it names,
      or its own session id if it names none — unless another session has that user already. */
  lemma UserAfter(d: Server, e: Event, s: U64)
    requires Live(d) && ServerSide(d) && s in Step(d, e).0.registry.sessions
    ensures Step(d, e).0.registry.sessions[s].userId
         == (if s !in d.registry.sessions then None
             else if Greets(d, e, s) then
               (var user := if e.payload.body.senderId.Some? then e.payload.body.senderId else Some(s);
                if G.HeldByOther(d.registry, user, s) then d.registry.sessions[s].userId else user)
             else d.registry.sessions[s].userId)
  {
    hide G.Valid, G.Step, G.HeldByOther, Step;
    if e.Received? {
      FrameUser(d, e, s);
    } else if e.Reboot? {
      RebootForgets(d, e);
    } else {
      RegistryAfter(d, e);
      if RegistryOp(d, e).Some? {
        G.SessionsAfter(d.registry, RegistryOp(d, e).value, s);
      }
    }
  }

  lemma FrameUser(d: Server, e: Event, s: U64)
    requires Live(d) && ServerSide(d) && e.Received? && s in Step(d, e).0.registry.sessions
    ensures s in d.registry.sessions
    ensures Step(d, e).0.registry.sessions[s].userId
         == (if Greets(d, e, s) then
               (var user := if e.payload.body.senderId.Some? then e.payload.body.senderId else Some(s);
                if G.HeldByOther(d.registry, user, s) then d.registry.sessions[s].userId else user)
             else d.registry.sessions[s].userId)
  {
    hide Step, G.HeldByOther, ServerSide, Live;
    if e.session in d.conns && IsSessionOpcode(OpcodeRaw(e.frame.header)) {
      SessionFrameUser(d, e, s);
      assert Step(d, e) == OnSessionFrame(d, e.session, OpcodeRaw(e.frame.header), e.payload, e.now) by { SessionStep(d, e); }
    } else {
      OtherFrameKeepsSessions(d, e);
    }
  }

  lemma SessionStep(d: Server, e: Event)
    requires e.Received? && e.session in d.conns && IsSessionOpcode(OpcodeRaw(e.frame.header))
    ensures Step(d, e) == OnSessionFrame(d, e.session, OpcodeRaw(e.frame.header), e.payload, e.now)
  {
    hide OnSessionFrame, OpcodeRaw;
  }

  /** Only session frames touch what the registry records of a session. */
  lemma OtherFrameKeepsSessions(d: Server, e: Event)
    requires e.Received? && !(e.session in d.conns && IsSessionOpcode(OpcodeRaw(e.frame.header)))
    ensures Step(d, e).0.registry.sessions == d.registry.sessions
  {
    hide OnRoomFrame, OpcodeRaw, RoomId, RecipientId, OnSync, OnSessionFrame, OnWelcome, G.AfterSubscribe, G.SessionOf, G.Subscribed;
    if e.session in d.conns {
      var d1 := Touch(d, e.session, e.now);
      RoomFrameEffect(d1, e.session, e.frame, e.secs, e.faults);
      SyncKeepsRegistry(d, e.session, RoomId(e.frame.header), e.payload, e.faults);
      WelcomeEffect(d1, e.frame);
      var recipient := G.SessionOf(d.registry, RecipientId(e.frame.header));
      if recipient.Some? {
        SubscribeEffect(d.registry, recipient.value, RoomId(e.frame.header));
      }
    }
  }

  lemma SessionFrameUser(d: Server, e: Event, s: U64)
    requires Live(d) && ServerSide(d) && e.Received? && e.session in d.conns && IsSessionOpcode(OpcodeRaw(e.frame.header))
    ensures var g := OnSessionFrame(d, e.session, OpcodeRaw(e.frame.header), e.payload, e.now).0.registry;
            && (s in g.sessions <==> s in d.registry.sessions)
            && (s in g.sessions ==>
                  g.sessions[s].userId
                  == (if Greets(d, e, s) then
                        (var user := if e.payload.body.senderId.Some? then e.payload.body.senderId else Some(s);
                         if G.HeldByOther(d.registry, user, s) then d.registry.sessions[s].userId else user)
                      else d.registry.sessions[s].userId))
  {
    hide OpcodeRaw, G.Updated, G.Valid, G.HeldByOther;
    var x := e.session;
    var conn := C.AfterFrame(d.conns[x], SessionMessage(OpcodeRaw(e.frame.header), e.payload), e.now).0;
    var user := if conn.clientSenderId.Some? then conn.clientSenderId else conn.sessionId;
    G.SessionsAfter(d.registry, G.Update(x, G.SessionInfo(user, true)), s);
  }

  // ---- delivery from the Welcome on ----

  predicate KeepsSubscription(es: seq<Event>, s: U64, room: U128) { forall e | e in es :: !Unsubscribes(e, s, room) }

  lemma {:induction false} StaysByKeeping(d: Server, es: seq<Event>, s: U64, room: U128)
    requires Live(d) && G.Subscribed(d.registry, s, room) && KeepsSubscription(es, s, room)
    ensures StaysSubscribed(d, es, s, room)
    decreases |es|
  {
    hide Step, Live, G.Subscribed, Unsubscribes, Subscribes;
    if es != [] {
      assert es[0] in es && forall e | e in es[1..] :: e in es;
      SubscribedAfterIff(d, es[0], s, room);
      StepGood(d, es[0]);
      StaysByKeeping(Step(d, es[0]).0, es[1..], s, room);
    }
  }

  lemma WelcomeStep(d: Server, e: Event, s: U64, room: U128)
    requires Live(d) && Welcomes(d, e, s, room)
    ensures var (d', answer) := Step(d, e);
            && Live(d') && d'.core == d.core && G.Subscribed(d'.registry, s, room)
            && answer == Ok([LogEntry, SendToSession(s, Forwarded(e.frame))])
  {
    hide OpcodeRaw, RoomId, RecipientId, G.Valid, G.SessionOf, G.AfterSubscribe, OnRoomFrame, OnSessionFrame, OnSync, G.Subscribed;
    RecipientIs(d.registry, RecipientId(e.frame.header), s);
    SubscribedAfterIff(d, e, s, room);
    StepGood(d, e);
  }

  /** From the Welcome on: the session it is addressed to is sent the Welcome itself, and from then
      on — until it is unsubscribed or gone — exactly what the room's stored log gains, in log
      order, if and only if none of that room's frames is lost. */
  lemma WelcomedSeesTheLog(d: Server, e: Event, es: seq<Event>, s: U64, room: U128, drifted: set<U128>)
    requires Live(d) && Q.Tracks(d.core, drifted) && Welcomes(d, e, s, room) && KeepsSubscription(es, s, room)
    ensures var (d', answer) := Step(d, e);
            && answer.Ok? && SendToSession(s, Forwarded(e.frame)) in answer.value
            && (Log(Run(d', es).core.store, room) == Log(d.core.store, room) + Delivered(Answers(d', es), s, room)
                <==> Losses(d', es, room, drifted) == 0)
  {
    hide Step, Live, Q.Tracks, G.Subscribed, Log, Run, Answers, Losses, KeepsSubscription, StaysSubscribed, Delivered, OpcodeRaw, RoomId, RecipientId;
    WelcomeStep(d, e, s, room);
    var (d', answer) := Step(d, e);
    assert answer.value[1] == SendToSession(s, Forwarded(e.frame));
    StaysByKeeping(d', es, s, room);
    SubscriberSeesTheLog(d', es, s, room, drifted);
  }

  // ---- refusals ----

  /** A room frame for a known room is answered with the room path's own failure, and only then
      with a failure. */
  lemma RefusalIsReported(d: Server, e: Event)
    requires e.Received? && e.session in d.conns && GoesToRoom(OpcodeRaw(e.frame.header))
    requires RoomId(e.frame.header) in d.core.manager.metadata
    ensures var out := R.Step(d.core, R.Arrive(e.frame, e.faults.latest, e.faults.store)).1;
            var answer := Step(d, e).1;
            && (answer.Err? <==> out.Failed?)
            && (out.Failed? ==> answer.error == Room(out.error))
  {
    hide OpcodeRaw, RoomId, R.Processed, OnRoomActions, R.Execute, G.AfterSubscribe;
  }

  /** A sync request that storage or the room table refuses is answered with the code of what
      went wrong, to the session that asked. */
  lemma SyncRefusalIsReported(d: Server, e: Event)
    requires e.Received? && From(d, e, e.session, SYNC_REQUEST) && e.payload.SyncRequestPayload?
    ensures var room := RoomId(e.frame.header);
            var known, stored := room in d.core.manager.metadata, room in d.core.store.frames;
            && (!known ==> Step(d, e).1 == Ok([SendToSession(e.session, ErrorReply(2)), LogEntry]))
            && (known && (e.faults.load || !stored || e.faults.latest) ==>
                  Step(d, e).1 == Ok([SendToSession(e.session, ErrorReply(3)), LogEntry]))
  {
    hide OpcodeRaw, RoomId, WireBytes, OnRoomFrame, OnSessionFrame;
  }
}
