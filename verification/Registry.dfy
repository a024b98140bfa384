/** Sessions and room subscriptions, kept in four maps that must say the same thing. */
module Registry {
  import opened BigEndian
  import opened Results
  import opened Tables

  datatype SessionInfo = SessionInfo(userId: Option<U64>, authenticated: bool)

  datatype Maps = Maps(
    sessions: map<U64, SessionInfo>, roomSubs: map<U128, set<U64>>,
    sessionRooms: map<U64, set<U128>>, userSessions: map<U64, U64>)

  const NO_SESSIONS := Maps(map[], map[], map[], map[])

  predicate Subscribed(m: Maps, session: U64, room: U128) {
    room in m.roomSubs && session in m.roomSubs[room]
  }

  /** Room-to-sessions and session-to-rooms are each other's inverse over the registered
      sessions, no room is listed without a session, and the user index is the inverse of the
      sessions' user ids. */
  ghost predicate Valid(m: Maps) {
    && m.sessionRooms.Keys == m.sessions.Keys
    && (forall s: U64, room: U128 :: Subscribed(m, s, room) <==> s in m.sessionRooms && room in m.sessionRooms[s])
    && (forall room | room in m.roomSubs :: m.roomSubs[room] != {})
    && (forall u: U64, s: U64 :: OwnedBy(m, u, s) <==> s in m.sessions && m.sessions[s].userId == Some(u))
  }

  predicate OwnedBy(m: Maps, user: U64, session: U64) {
    user in m.userSessions && m.userSessions[user] == session
  }

  // ---- operations ----

  function Registered(m: Maps, session: U64, info: SessionInfo): (Maps, bool) {
    if session in m.sessions then (m, false)
    else if info.userId.Some? && info.userId.value in m.userSessions then (m, false)
    else (Maps(m.sessions[session := info], m.roomSubs, m.sessionRooms[session := {}],
               if info.userId.Some? then m.userSessions[info.userId.value := session] else m.userSessions),
          true)
  }

  /** Dropping a session from the given rooms; a room left empty goes with it. */
  ghost function WithoutSubscriber(subs: map<U128, set<U64>>, rooms: set<U128>, session: U64): map<U128, set<U64>> {
    var kept := set room | room in subs && !(room in rooms && subs[room] - {session} == {});
    Table(kept, room requires room in subs => if room in rooms then subs[room] - {session} else subs[room])
  }

  lemma DropOne(subs: map<U128, set<U64>>, done: set<U128>, room: U128, session: U64)
    requires room !in done
    ensures var before, after := WithoutSubscriber(subs, done, session), WithoutSubscriber(subs, done + {room}, session);
            && (room in before <==> room in subs) && (room in before ==> before[room] == subs[room])
            && (room !in before ==> after == before)
            && (room in before && before[room] - {session} == {} ==> after == before - {room})
            && (room in before && before[room] - {session} != {} ==> after == before[room := before[room] - {session}])
  {
    hide Table;
  }

  lemma DropNone(subs: map<U128, set<U64>>, session: U64)
    ensures WithoutSubscriber(subs, {}, session) == subs
  {
    hide Table;
  }

  ghost function Unregistered(m: Maps, session: U64): (Maps, Option<(SessionInfo, set<U128>)>) {
    if session !in m.sessions then (m, None)
    else
      var info := m.sessions[session];
      var rooms := if session in m.sessionRooms then m.sessionRooms[session] else {};
      (Maps(m.sessions - {session}, WithoutSubscriber(m.roomSubs, rooms, session), m.sessionRooms - {session},
            if info.userId.Some? then m.userSessions - {info.userId.value} else m.userSessions),
       Some((info, rooms)))
  }

  function Updated(m: Maps, session: U64, info: SessionInfo): (Maps, bool) {
    if session !in m.sessions then (m, false)
    else
      var before := m.sessions[session];
      if info.userId.Some? && info.userId != before.userId && info.userId.value in m.userSessions then (m, false)
      else
        var users := if before.userId.Some? then m.userSessions - {before.userId.value} else m.userSessions;
        (m.(sessions := m.sessions[session := info],
            userSessions := if info.userId.Some? then users[info.userId.value := session] else users), true)
  }

  function AfterSubscribe(m: Maps, session: U64, room: U128): (Maps, bool) {
    if session !in m.sessions then (m, false)
    else
      var subscribers := if room in m.roomSubs then m.roomSubs[room] else {};
      var rooms := if session in m.sessionRooms then m.sessionRooms[session] else {};
      (m.(roomSubs := m.roomSubs[room := subscribers + {session}],
          sessionRooms := m.sessionRooms[session := rooms + {room}]), true)
  }

  ghost function AfterUnsubscribe(m: Maps, session: U64, room: U128): (Maps, bool) {
    var fromRoom := room in m.roomSubs && session in m.roomSubs[room];
    var fromSession := session in m.sessionRooms && room in m.sessionRooms[session];
    (m.(roomSubs := WithoutSubscriber(m.roomSubs, {room}, session),
        sessionRooms := if session in m.sessionRooms
                        then m.sessionRooms[session := m.sessionRooms[session] - {room}] else m.sessionRooms),
     fromRoom && fromSession)
  }

  function SessionsIn(m: Maps, room: U128): set<U64> { if room in m.roomSubs then m.roomSubs[room] else {} }

  function SessionOf(m: Maps, user: U64): Option<U64> {
    if user in m.userSessions then Some(m.userSessions[user]) else None
  }

  class ConnectionRegistry {
    var sessions: map<U64, SessionInfo>
    var roomSubs: map<U128, set<U64>>
    var sessionRooms: map<U64, set<U128>>
    var userSessions: map<U64, U64>

    function View(): Maps
      reads this
    {
      Maps(sessions, roomSubs, sessionRooms, userSessions)
    }

    constructor ()
      ensures View() == NO_SESSIONS
    {
      sessions, roomSubs, sessionRooms, userSessions := map[], map[], map[], map[];
    }

    method RegisterSession(session: U64, info: SessionInfo) returns (ok: bool)
      modifies this
      ensures (View(), ok) == Registered(old(View()), session, info)
    {
      if session in sessions {
        return false;
      }
      if info.userId.Some? {
        if info.userId.value in userSessions {
          return false;
        }
        userSessions := userSessions[info.userId.value := session];
      }
      sessions := sessions[session := info];
      sessionRooms := sessionRooms[session := {}];
      return true;
    }

    method UnregisterSession(session: U64) returns (r: Option<(SessionInfo, set<U128>)>)
      modifies this
      ensures (View(), r) == Unregistered(old(View()), session)
    {
      if session !in sessions {
        return None;
      }
      var info := sessions[session];
      sessions := sessions - {session};
      var rooms := if session in sessionRooms then sessionRooms[session] else {};
      sessionRooms := sessionRooms - {session};
      if info.userId.Some? {
        userSessions := userSessions - {info.userId.value};
      }
      DropSubscriber(rooms, session);
      return Some((info, rooms));
    }

    /** The cleanup loop, over the rooms in whatever order the set yields them. */
    method DropSubscriber(rooms: set<U128>, session: U64)
      modifies `roomSubs
      ensures roomSubs == WithoutSubscriber(old(roomSubs), rooms, session)
    {
      hide WithoutSubscriber;
      DropNone(roomSubs, session);
      var todo := rooms;
      assert rooms - todo == {};
      while todo != {}
        invariant todo <= rooms && roomSubs == WithoutSubscriber(old(roomSubs), rooms - todo, session)
        decreases todo
      {
        var room :| room in todo;
        ghost var done := rooms - todo;
        todo := todo - {room};
        assert rooms - todo == done + {room};
        DropOne(old(roomSubs), done, room, session);
        if room in roomSubs {
          roomSubs := roomSubs[room := roomSubs[room] - {session}];
          if roomSubs[room] == {} {
            roomSubs := roomSubs - {room};
          }
        }
      }
      assert rooms - todo == rooms;
    }

    method UpdateSessionInfo(session: U64, info: SessionInfo) returns (ok: bool)
      modifies this
      ensures (View(), ok) == Updated(old(View()), session, info)
    {
      if session !in sessions {
        return false;
      }
      var before := sessions[session];
      if info.userId.Some? && info.userId != before.userId && info.userId.value in userSessions {
        return false;
      }
      if before.userId.Some? {
        userSessions := userSessions - {before.userId.value};
      }
      if info.userId.Some? {
        userSessions := userSessions[info.userId.value := session];
      }
      sessions := sessions[session := info];
      return true;
    }

    method Subscribe(session: U64, room: U128) returns (ok: bool)
      modifies this
      ensures (View(), ok) == AfterSubscribe(old(View()), session, room)
    {
      if session !in sessions {
        return false;
      }
      roomSubs := roomSubs[room := (if room in roomSubs then roomSubs[room] else {}) + {session}];
      sessionRooms := sessionRooms[session := (if session in sessionRooms then sessionRooms[session] else {}) + {room}];
      return true;
    }

    method Unsubscribe(session: U64, room: U128) returns (ok: bool)
      modifies this
      ensures (View(), ok) == AfterUnsubscribe(old(View()), session, room)
    {
      hide Table;
      var fromRoom, fromSession := false, false;
      if room in roomSubs {
        fromRoom := session in roomSubs[room];
        roomSubs := roomSubs[room := roomSubs[room] - {session}];
      }
      if session in sessionRooms {
        fromSession := room in sessionRooms[session];
        sessionRooms := sessionRooms[session := sessionRooms[session] - {room}];
      }
      if room in roomSubs && roomSubs[room] == {} {
        roomSubs := roomSubs - {room};
      }
      assert roomSubs == WithoutSubscriber(old(roomSubs), {room}, session);
      return fromRoom && fromSession;
    }
  }

  // ---- a registry that keeps only what cannot be derived ----

  /** Who is there, and who is subscribed to what. */
  datatype Simple = Simple(info: map<U64, SessionInfo>, subs: set<(U64, U128)>)

  function Abstract(m: Maps): Simple {
    Simple(m.sessions, set s, room | s in m.sessionRooms && room in m.sessionRooms[s] :: (s, room))
  }

  predicate Taken(a: Simple, user: Option<U64>) {
    user.Some? && exists s :: s in a.info && a.info[s].userId == user
  }

  datatype Op =
    | Register(session: U64, info: SessionInfo)
    | Unregister(session: U64)
    | Update(session: U64, info: SessionInfo)
    | Subscribe(session: U64, room: U128)
    | Unsubscribe(session: U64, room: U128)

  datatype Answer = Said(ok: bool) | Left(gone: Option<(SessionInfo, set<U128>)>)

  function SimpleStep(a: Simple, op: Op): (Simple, Answer) {
    match op
    case Register(s, info) =>
      if s in a.info || Taken(a, info.userId) then (a, Said(false)) else (a.(info := a.info[s := info]), Said(true))
    case Unregister(s) =>
      if s !in a.info then (a, Left(None))
      else (Simple(a.info - {s}, set p | p in a.subs && p.0 != s),
            Left(Some((a.info[s], set p | p in a.subs && p.0 == s :: p.1))))
    case Update(s, info) =>
      if s !in a.info || (info.userId != a.info[s].userId && Taken(a, info.userId)) then (a, Said(false))
      else (a.(info := a.info[s := info]), Said(true))
    case Subscribe(s, room) =>
      if s in a.info then (a.(subs := a.subs + {(s, room)}), Said(true)) else (a, Said(false))
    case Unsubscribe(s, room) => (a.(subs := a.subs - {(s, room)}), Said((s, room) in a.subs))
  }

  ghost function Step(m: Maps, op: Op): (Maps, Answer) {
    match op
    case Register(s, info) => (Registered(m, s, info).0, Said(Registered(m, s, info).1))
    case Unregister(s) => (Unregistered(m, s).0, Left(Unregistered(m, s).1))
    case Update(s, info) => (Updated(m, s, info).0, Said(Updated(m, s, info).1))
    case Subscribe(s, room) => (AfterSubscribe(m, s, room).0, Said(AfterSubscribe(m, s, room).1))
    case Unsubscribe(s, room) => (AfterUnsubscribe(m, s, room).0, Said(AfterUnsubscribe(m, s, room).1))
  }

  ghost function Run(m: Maps, ops: seq<Op>): (Maps, seq<Answer>)
    decreases |ops|
  {
    if ops == [] then (m, [])
    else
      var (m', answer) := Step(m, ops[0]);
      var (m'', answers) := Run(m', ops[1..]);
      (m'', [answer] + answers)
  }

  function SimpleRun(a: Simple, ops: seq<Op>): (Simple, seq<Answer>)
    decreases |ops|
  {
    if ops == [] then (a, [])
    else
      var (a', answer) := SimpleStep(a, ops[0]);
      var (a'', answers) := SimpleRun(a', ops[1..]);
      (a'', [answer] + answers)
  }

  ghost predicate Refines(m: Maps, op: Op) {
    Valid(Step(m, op).0) && SimpleStep(Abstract(m), op) == (Abstract(Step(m, op).0), Step(m, op).1)
  }

  lemma TakenIsIndexed(m: Maps, user: Option<U64>)
    requires Valid(m)
    ensures Taken(Abstract(m), user) <==> user.Some? && user.value in m.userSessions
  {
    if user.Some? && user.value in m.userSessions {
      assert OwnedBy(m, user.value, m.userSessions[user.value]);
    }
    if Taken(Abstract(m), user) {
      var s :| s in m.sessions && m.sessions[s].userId == user;
      assert OwnedBy(m, user.value, s);
    }
  }

  lemma RegisterRefines(m: Maps, s: U64, info: SessionInfo)
    requires Valid(m)
    ensures Refines(m, Register(s, info))
  {
    TakenIsIndexed(m, info.userId);
    var m' := Registered(m, s, info).0;
    forall u: U64, t: U64 ensures OwnedBy(m', u, t) <==> t in m'.sessions && m'.sessions[t].userId == Some(u) {
      assert OwnedBy(m, u, t) <==> t in m.sessions && m.sessions[t].userId == Some(u);
      assert OwnedBy(m, u, s) <==> s in m.sessions && m.sessions[s].userId == Some(u);
    }
    forall t: U64, room: U128 ensures Subscribed(m', t, room) <==> t in m'.sessionRooms && room in m'.sessionRooms[t] {
      assert Subscribed(m, t, room) <==> t in m.sessionRooms && room in m.sessionRooms[t];
    }
    assert Abstract(m').subs == Abstract(m).subs;
  }

  lemma UpdateRefines(m: Maps, s: U64, info: SessionInfo)
    requires Valid(m)
    ensures Refines(m, Update(s, info))
  {
    TakenIsIndexed(m, info.userId);
    var m' := Updated(m, s, info).0;
    forall u: U64, t: U64 ensures OwnedBy(m', u, t) <==> t in m'.sessions && m'.sessions[t].userId == Some(u) {
      assert OwnedBy(m, u, t) <==> t in m.sessions && m.sessions[t].userId == Some(u);
      assert OwnedBy(m, u, s) <==> s in m.sessions && m.sessions[s].userId == Some(u);
    }
    forall t: U64, room: U128 ensures Subscribed(m', t, room) <==> t in m'.sessionRooms && room in m'.sessionRooms[t] {
      assert Subscribed(m, t, room) <==> t in m.sessionRooms && room in m.sessionRooms[t];
    }
    assert Abstract(m').subs == Abstract(m).subs;
  }

  lemma UnregisterRefines(m: Maps, s: U64)
    requires Valid(m)
    ensures Refines(m, Unregister(s))
  {
    hide Table;
    var m' := Unregistered(m, s).0;
    forall u: U64, t: U64 ensures OwnedBy(m', u, t) <==> t in m'.sessions && m'.sessions[t].userId == Some(u) {
      assert OwnedBy(m, u, t) <==> t in m.sessions && m.sessions[t].userId == Some(u);
      assert OwnedBy(m, u, s) <==> s in m.sessions && m.sessions[s].userId == Some(u);
    }
    forall t: U64, room: U128 ensures Subscribed(m', t, room) <==> t in m'.sessionRooms && room in m'.sessionRooms[t] {
      assert Subscribed(m, t, room) <==> t in m.sessionRooms && room in m.sessionRooms[t];
      assert Subscribed(m, s, room) <==> s in m.sessionRooms && room in m.sessionRooms[s];
    }
    if s in m.sessions {
      var a := Abstract(m);
      assert Abstract(m').subs == set p | p in a.subs && p.0 != s;
      assert m.sessionRooms[s] == set p | p in a.subs && p.0 == s :: p.1 by {
        forall room ensures room in m.sessionRooms[s] <==> (s, room) in a.subs {}
        forall room | room in m.sessionRooms[s] ensures room in set p | p in a.subs && p.0 == s :: p.1 {
          assert (s, room) in a.subs && (s, room).0 == s;
        }
      }
    }
  }

  lemma SubscribeRefines(m: Maps, s: U64, room: U128)
    requires Valid(m)
    ensures Refines(m, Subscribe(s, room))
  {
    var m' := AfterSubscribe(m, s, room).0;
    forall t: U64, r: U128 ensures Subscribed(m', t, r) <==> t in m'.sessionRooms && r in m'.sessionRooms[t] {
      assert Subscribed(m, t, r) <==> t in m.sessionRooms && r in m.sessionRooms[t];
    }
    forall u: U64, t: U64 ensures OwnedBy(m', u, t) <==> t in m'.sessions && m'.sessions[t].userId == Some(u) {
      assert OwnedBy(m, u, t) <==> t in m.sessions && m.sessions[t].userId == Some(u);
    }
    if s in m.sessions {
      assert Abstract(m').subs == Abstract(m).subs + {(s, room)};
    }
  }

  lemma UnsubscribeRefines(m: Maps, s: U64, room: U128)
    requires Valid(m)
    ensures Refines(m, Unsubscribe(s, room))
  {
    var m' := AfterUnsubscribe(m, s, room).0;
    assert Subscribed(m, s, room) <==> s in m.sessionRooms && room in m.sessionRooms[s];
    forall t: U64, r: U128 ensures Subscribed(m', t, r) <==> t in m'.sessionRooms && r in m'.sessionRooms[t] {
      assert Subscribed(m, t, r) <==> t in m.sessionRooms && r in m.sessionRooms[t];
    }
    forall u: U64, t: U64 ensures OwnedBy(m', u, t) <==> t in m'.sessions && m'.sessions[t].userId == Some(u) {
      assert OwnedBy(m, u, t) <==> t in m.sessions && m.sessions[t].userId == Some(u);
    }
    assert Abstract(m').subs == Abstract(m).subs - {(s, room)};
  }

  lemma StepRefines(m: Maps, op: Op)
    requires Valid(m)
    ensures Refines(m, op)
  {
    hide Valid, Refines, Step;
    match op
    case Register(s, info) => RegisterRefines(m, s, info);
    case Unregister(s) => UnregisterRefines(m, s);
    case Update(s, info) => UpdateRefines(m, s, info);
    case Subscribe(s, room) => SubscribeRefines(m, s, room);
    case Unsubscribe(s, room) => UnsubscribeRefines(m, s, room);
  }

  /** Through any sequence of operations the four maps stay each other's inverses, and every
      answer is that of a registry holding only the sessions and one set of subscriptions. */
  lemma {:induction false} RegistryRefinesSimple(m: Maps, ops: seq<Op>)
    requires Valid(m)
    ensures Valid(Run(m, ops).0)
    ensures SimpleRun(Abstract(m), ops) == (Abstract(Run(m, ops).0), Run(m, ops).1)
    decreases |ops|
  {
    hide Valid, Step, SimpleStep, Abstract;
    if ops != [] {
      StepRefines(m, ops[0]);
      RegistryRefinesSimple(Step(m, ops[0]).0, ops[1..]);
    }
  }

  /** Routing looks a session up in the index and gets the one the simple registry has. */
  lemma LookupsAgree(m: Maps, room: U128, user: U64)
    requires Valid(m)
    ensures forall s :: s in SessionsIn(m, room) <==> (s, room) in Abstract(m).subs
    ensures forall s :: s in SessionsIn(m, room) ==> s in m.sessions
    ensures SessionOf(m, user).Some? <==> Taken(Abstract(m), Some(user))
    ensures SessionOf(m, user).Some? ==>
              SessionOf(m, user).value in m.sessions && m.sessions[SessionOf(m, user).value].userId == Some(user)
  {
    TakenIsIndexed(m, Some(user));
    forall s: U64 ensures s in SessionsIn(m, room) <==> (s, room) in Abstract(m).subs {
      assert Subscribed(m, s, room) <==> s in m.sessionRooms && room in m.sessionRooms[s];
    }
    if user in m.userSessions {
      assert OwnedBy(m, user, m.userSessions[user]);
    }
  }

  // ---- what an operation brings about ----

  /** Who is subscribed to what after an operation. */
  lemma SubscribedAfterIff(m: Maps, op: Op, s: U64, room: U128)
    requires Valid(m)
    ensures Subscribed(Step(m, op).0, s, room)
       <==> (match op
             case Subscribe(x, r) => Subscribed(m, s, room) || (x == s && r == room && x in m.sessions)
             case Unsubscribe(x, r) => Subscribed(m, s, room) && !(x == s && r == room)
             case Unregister(x) => Subscribed(m, s, room) && x != s
             case _ => Subscribed(m, s, room))
  {
    hide Table;
    if op.Unregister? {
      assert Subscribed(m, op.session, room) <==> op.session in m.sessionRooms && room in m.sessionRooms[op.session];
      assert Subscribed(m, s, room) <==> s in m.sessionRooms && room in m.sessionRooms[s];
    }
  }

  predicate HeldByOther(m: Maps, user: Option<U64>, session: U64) {
    user.Some? && exists t | t in m.sessions :: t != session && m.sessions[t].userId == user
  }

  /** Which sessions there are after an operation, and what is known of them: a session is not
      registered twice, and a user that another session has is not given away. */
  lemma SessionsAfter(m: Maps, op: Op, s: U64)
    requires Valid(m)
    ensures var m' := Step(m, op).0;
            && (s in m'.sessions <==>
                  || (s in m.sessions && !(op.Unregister? && op.session == s))
                  || (op.Register? && op.session == s && !HeldByOther(m, op.info.userId, s)))
            && (s in m'.sessions ==>
                  m'.sessions[s] == if op.Update? && op.session == s && !HeldByOther(m, op.info.userId, s) then op.info
                                    else if s in m.sessions then m.sessions[s] else op.info)
  {
    hide Table;
    if op.Register? && op.info.userId.Some? {
      UserIsHeld(m, op.info.userId.value);
    }
    if op.Update? && op.info.userId.Some? {
      UserIsHeld(m, op.info.userId.value);
    }
  }

  lemma UserIsHeld(m: Maps, user: U64)
    requires Valid(m)
    ensures user in m.userSessions ==> m.userSessions[user] in m.sessions && m.sessions[m.userSessions[user]].userId == Some(user)
    ensures forall t | t in m.sessions && m.sessions[t].userId == Some(user) :: user in m.userSessions && m.userSessions[user] == t
  {
    if user in m.userSessions {
      assert OwnedBy(m, user, m.userSessions[user]);
    }
    forall t | t in m.sessions && m.sessions[t].userId == Some(user) ensures user in m.userSessions && m.userSessions[user] == t {
      assert OwnedBy(m, user, t);
    }
  }
}
