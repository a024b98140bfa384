/** The server driver: connections, registry, rooms, storage and key packages behind one event
    handler that returns actions. CBOR payloads arrive decoded beside their frame; clocks, the
    order hash maps iterate in and storage failures are part of the event. */
module Driver {
  import opened BigEndian
  import opened Results
  import opened Wire
  import opened Storage
  import R = Rooms
  import C = Connection
  import G = Registry
  import K = KeyPackages

  // ---- opcodes the driver dispatches on ----

  const HELLO: nat := 0x0001
  const GOODBYE: nat := 0x0003
  const PING: nat := 0x0004
  const PONG: nat := 0x0005
  const SYNC_REQUEST: nat := 0x0006
  const COMMIT: nat := 0x1002
  const GROUP_INFO: nat := 0x1004
  const EXTERNAL_COMMIT: nat := 0x1007
  const KEY_PACKAGE_PUBLISH: nat := 0x1008
  const KEY_PACKAGE_FETCH: nat := 0x1009
  const GROUP_INFO_REQUEST: nat := 0x100A

  datatype Payload =
    | HelloPayload(body: C.HelloBody)
    | GoodbyePayload(reason: string)
    | SyncRequestPayload(from: U64, limit: nat)
    | PublishPayload(package: K.Package)
    | FetchPayload(user: U64)
    | GroupInfoPayload(room: U128, epoch: U64, bytes: seq<Byte>)
    | GroupInfoRequestPayload(room: U128)
    | Undecodable

  datatype Faults = Faults(create: bool, latest: bool, store: bool, load: bool, groupInfo: bool)

  datatype Reply =
    | FromConnection(message: C.Message)
    | SyncPage(room: U128, frames: seq<seq<Byte>>, hasMore: bool)
    | KeyPackageFound(user: U64, package: K.Package)
    | GroupInfoFound(room: U128, epoch: U64, bytes: seq<Byte>)
    | Forwarded(frame: Frame)
    | ErrorReply(code: nat)

  datatype ServerAction =
    | SendToSession(session: U64, reply: Reply)
    | BroadcastTo(sessions: set<U64>, frame: Frame)
    | CloseConnection(session: U64)
    | LogEntry

  datatype ServerError = SessionNotFound(session: U64) | ConnectionFailed(session: U64, cause: C.ConnectionError) | Room(error: R.RoomError)

  type Answer = Result<seq<ServerAction>, ServerError>

  datatype Config = Config(connection: C.Config, maxConnections: nat)

  datatype Server = Server(
    conns: map<U64, C.Conn>, registry: G.Maps, core: R.Core, packages: K.Packages,
    groupInfos: map<U128, (U64, seq<Byte>)>, config: Config)

  const PACKAGE_CAPACITY: nat := 1000

  /** A driver on an existing store, before recovery. */
  function NewServer(store: Store, groupInfos: map<U128, (U64, seq<Byte>)>, config: Config): Server {
    Server(map[], G.NO_SESSIONS, R.Core(R.NEW_MANAGER, store), K.Empty(PACKAGE_CAPACITY), groupInfos, config)
  }

  // ---- connections ----

  function OnAccepted(d: Server, session: U64, now: nat): (Server, Answer) {
    if |d.conns| >= d.config.maxConnections then (d, Ok([CloseConnection(session)]))
    else
      var conn := C.NewConn(now, d.config.connection).(sessionId := Some(session));
      (d.(conns := d.conns[session := conn], registry := G.Registered(d.registry, session, G.SessionInfo(None, false)).0),
       Ok([LogEntry]))
  }

  ghost function OnClosed(d: Server, session: U64): (Server, Answer) {
    var (registry, gone) := G.Unregistered(d.registry, session);
    (d.(conns := d.conns - {session}, registry := registry), Ok(if gone.Some? then [LogEntry] else []))
  }

  function ToServerAction(session: U64, a: C.Action): ServerAction {
    match a
    case SendFrame(m) => SendToSession(session, FromConnection(m))
    case CloseWith(_) => CloseConnection(session)
  }

  function ToServerActions(session: U64, actions: seq<C.Action>): (r: seq<ServerAction>)
    ensures |r| == |actions|
    ensures forall i | 0 <= i < |r| :: r[i] == ToServerAction(session, actions[i])
  {
    seq(|actions|, i requires 0 <= i < |actions| => ToServerAction(session, actions[i]))
  }

  /** Ticks the connections one by one; `order` is the order the keys were collected in. */
  function OnTick(conns: map<U64, C.Conn>, order: seq<U64>, now: nat): (map<U64, C.Conn>, seq<ServerAction>) {
    if order == [] then (conns, [])
    else
      var init, s := order[..|order| - 1], order[|order| - 1];
      var (conns', actions) := OnTick(conns, init, now);
      if s !in conns' then (conns', actions)
      else
        var (conn, more) := C.AfterTick(conns'[s], now);
        (conns'[s := conn], actions + ToServerActions(s, more))
  }

  // ---- frames ----

  function SessionMessage(opcode: nat, payload: Payload): C.Message {
    if opcode == HELLO then C.Hello(if payload.HelloPayload? then Some(payload.body) else None)
    else if opcode == GOODBYE then C.Goodbye(if payload.GoodbyePayload? then Some(payload.reason) else None)
    else if opcode == PING then C.Ping
    else C.Pong
  }

  function Touch(d: Server, session: U64, now: nat): Server
    requires session in d.conns
  {
    d.(conns := d.conns[session := d.conns[session].(lastActivity := now)])
  }

  function OnSessionFrame(d: Server, session: U64, opcode: nat, payload: Payload, now: nat): (Server, Answer)
    requires session in d.conns
  {
    var (conn, result) := C.AfterFrame(d.conns[session], SessionMessage(opcode, payload), now);
    var d' := d.(conns := d.conns[session := conn]);
    match result
    case Err(e) => (d', Err(ConnectionFailed(session, e)))
    case Ok(actions) =>
      var user := if conn.clientSenderId.Some? then conn.clientSenderId else conn.sessionId;
      (if opcode == HELLO && user.Some?
       then d'.(registry := G.Updated(d'.registry, session, G.SessionInfo(user, true)).0) else d',
       Ok(ToServerActions(session, actions)))
  }

  function RoomErrorCode(e: R.RoomError): nat {
    match e
    case RoomNotFound(_) => 2
    case StorageRefused(_) => 3
    case Sequencing(_) => 6
    case RoomAlreadyExists(_) => 1
  }

  function OnSync(d: Server, session: U64, room: U128, payload: Payload, faults: Faults): (Server, Answer) {
    if !payload.SyncRequestPayload? then (d, Ok([SendToSession(session, ErrorReply(4)), LogEntry]))
    else
      match R.HandleSync(d.core.manager, d.core.store, room, session, payload.from, payload.limit, faults.load, faults.latest)
      case Err(e) => (d, Ok([SendToSession(session, ErrorReply(RoomErrorCode(e))), LogEntry]))
      case Ok(a) => OnRoomAction(d, a, session, faults.store)
  }

  function OnPublish(d: Server, session: U64, payload: Payload): (Server, Answer) {
    if session !in d.registry.sessions || d.registry.sessions[session].userId.None? then
      (d, Ok([SendToSession(session, ErrorReply(1)), LogEntry]))
    else if !payload.PublishPayload? then (d, Ok([SendToSession(session, ErrorReply(4)), LogEntry]))
    else
      var (packages, result) := K.Stored(d.packages, d.registry.sessions[session].userId.value, payload.package);
      (d.(packages := packages), Ok(if result == K.Evicted then [LogEntry, LogEntry] else [LogEntry]))
  }

  function OnFetch(d: Server, session: U64, payload: Payload): (Server, Answer) {
    if !payload.FetchPayload? then (d, Ok([SendToSession(session, ErrorReply(4)), LogEntry]))
    else
      var (packages, taken) := K.AfterTake(d.packages, payload.user);
      (d.(packages := packages),
       Ok([SendToSession(session, if taken.Some? then KeyPackageFound(payload.user, taken.value.package) else ErrorReply(7)),
           LogEntry]))
  }

  function OnGroupInfo(d: Server, payload: Payload, faults: Faults): (Server, Answer) {
    if !payload.GroupInfoPayload? || faults.groupInfo then (d, Ok([LogEntry]))
    else (d.(groupInfos := d.groupInfos[payload.room := (payload.epoch, payload.bytes)]), Ok([LogEntry]))
  }

  function OnGroupInfoRequest(d: Server, session: U64, payload: Payload, faults: Faults): (Server, Answer) {
    if !payload.GroupInfoRequestPayload? then (d, Ok([SendToSession(session, ErrorReply(4)), LogEntry]))
    else if faults.groupInfo then (d, Ok([LogEntry]))
    else if payload.room !in d.groupInfos then (d, Ok([SendToSession(session, ErrorReply(2)), LogEntry]))
    else
      var (epoch, bytes) := d.groupInfos[payload.room];
      (d, Ok([SendToSession(session, GroupInfoFound(payload.room, epoch, bytes)), LogEntry]))
  }

  /** A Welcome goes straight to its recipient, who is subscribed to the room on the way. */
  function OnWelcome(d: Server, f: Frame): (Server, Answer) {
    var recipient := G.SessionOf(d.registry, RecipientId(f.header));
    if recipient.None? then (d, Ok([LogEntry]))
    else (d.(registry := G.AfterSubscribe(d.registry, recipient.value, RoomId(f.header)).0),
          Ok([LogEntry, SendToSession(recipient.value, Forwarded(f))]))
  }

  /** `process_room_action`. */
  function OnRoomAction(d: Server, a: R.RoomAction, sender: U64, storeFault: bool): (r: (Server, Answer))
    ensures r.1.Ok?
  {
    match a
    case Broadcast(room, f, excludeSender) =>
      if R.IsWelcome(f) then
        var recipient := G.SessionOf(d.registry, RecipientId(f.header));
        (d, Ok([if recipient.Some? then SendToSession(recipient.value, Forwarded(f)) else LogEntry]))
      else
        var sessions := G.SessionsIn(d.registry, room);
        (d, Ok([BroadcastTo(if excludeSender then sessions - {sender} else sessions, f)]))
    case PersistFrame(room, index, f) =>
      (d.(core := R.Persist(d.core, room, index, f, storeFault)),
       Ok(if storeFault || AfterStore(d.core.store, room, index, f).1.Err? then [LogEntry] else []))
    case Reject(senderId) => (d, Ok([SendToSession(senderId, ErrorReply(1)), LogEntry]))
    case SendSyncResponse(session, room, frames, hasMore) =>
      (d, Ok([SendToSession(session, SyncPage(room, frames, hasMore))]))
  }

  function OnRoomActions(d: Server, actions: seq<R.RoomAction>, sender: U64, storeFault: bool): (Server, seq<ServerAction>)
    decreases |actions|
  {
    if actions == [] then (d, [])
    else
      var (d', first) := OnRoomAction(d, actions[0], sender, storeFault);
      var (d'', rest) := OnRoomActions(d', actions[1..], sender, storeFault);
      (d'', first.value + rest)
  }

  function Prefixed(before: seq<ServerAction>, r: (Server, seq<ServerAction>)): (Server, seq<ServerAction>) {
    (r.0, before + r.1)
  }

  lemma NextAction(d: Server, actions: seq<R.RoomAction>, sender: U64, storeFault: bool, before: seq<ServerAction>)
    requires actions != []
    ensures var (d', first) := OnRoomAction(d, actions[0], sender, storeFault);
            Prefixed(before, OnRoomActions(d, actions, sender, storeFault))
            == Prefixed(before + first.value, OnRoomActions(d', actions[1..], sender, storeFault))
  {
    hide OnRoomAction;
    var (d', first) := OnRoomAction(d, actions[0], sender, storeFault);
    var rest := OnRoomActions(d', actions[1..], sender, storeFault).1;
    assert before + (first.value + rest) == (before + first.value) + rest;
  }

  /** `create_room`: the creator is subscribed. */
  function OnCreateRoom(d: Server, room: U128, session: U64, secs: U64, fault: bool): (Server, Answer) {
    if session !in d.registry.sessions then (d, Err(SessionNotFound(session)))
    else
      var user := d.registry.sessions[session].userId;
      var meta := RoomMetadata(if user.Some? then user.value else session, secs);
      var (m, s, result) := R.CreateRoomIn(d.core.manager, d.core.store, room, meta, fault);
      var d' := d.(core := R.Core(m, s));
      if result.Err? then (d', Err(Room(result.error)))
      else (d'.(registry := G.AfterSubscribe(d'.registry, session, room).0), Ok([LogEntry]))
  }

  /** Sequencing a room frame and carrying out what comes back. */
  function OnSequenced(d: Server, session: U64, f: Frame, faults: Faults): (Server, Answer) {
    var (m, result) := R.Processed(d.core.manager, f, d.core.store, faults.latest);
    var d' := d.(core := R.Core(m, d.core.store));
    match result
    case Err(e) => (d', Err(Room(e)))
    case Ok(actions) =>
      var (d'', out) := OnRoomActions(d', actions, session, faults.store);
      (d'', Ok(out))
  }

  predicate CreatesRoom(d: Server, f: Frame) {
    (OpcodeRaw(f.header) == COMMIT || OpcodeRaw(f.header) == EXTERNAL_COMMIT)
    && RoomId(f.header) !in d.core.manager.metadata
  }

  /** A frame to a room that exists by now; an external commit subscribes its sender first. */
  function OnJoinedFrame(d: Server, session: U64, f: Frame, faults: Faults): (Server, Answer) {
    var external := OpcodeRaw(f.header) == EXTERNAL_COMMIT;
    var d' := if external then d.(registry := G.AfterSubscribe(d.registry, session, RoomId(f.header)).0) else d;
    var (d'', routed) := OnSequenced(d', session, f, faults);
    (d'', if routed.Err? then routed else Ok((if external then [LogEntry] else []) + routed.value))
  }

  /** Application messages and all other room frames. A commit to an unknown room creates it. */
  function OnRoomFrame(d: Server, session: U64, f: Frame, secs: U64, faults: Faults): (Server, Answer) {
    if !CreatesRoom(d, f) then OnJoinedFrame(d, session, f, faults)
    else
      var (d', created) := OnCreateRoom(d, RoomId(f.header), session, secs, faults.create);
      if created.Err? then (d', created)
      else
        var (d'', routed) := OnJoinedFrame(d', session, f, faults);
        (d'', if routed.Err? then routed else Ok(created.value + routed.value))
  }

  function OnFrame(d: Server, session: U64, f: Frame, payload: Payload, now: nat, secs: U64, faults: Faults)
    : (Server, Answer)
  {
    if session !in d.conns then (d, Err(SessionNotFound(session)))
    else
      var opcode := OpcodeRaw(f.header);
      if opcode == HELLO || opcode == PING || opcode == PONG || opcode == GOODBYE then
        OnSessionFrame(d, session, opcode, payload, now)
      else if opcode == SYNC_REQUEST then OnSync(d, session, RoomId(f.header), payload, faults)
      else
        var d1 := Touch(d, session, now);
        if opcode == KEY_PACKAGE_PUBLISH then OnPublish(d1, session, payload)
        else if opcode == KEY_PACKAGE_FETCH then OnFetch(d1, session, payload)
        else if opcode == GROUP_INFO then OnGroupInfo(d1, payload, faults)
        else if opcode == GROUP_INFO_REQUEST then OnGroupInfoRequest(d1, session, payload, faults)
        else if opcode == R.OPCODE_WELCOME then OnWelcome(d1, f)
        else OnRoomFrame(d1, session, f, secs, faults)
  }

  datatype Event =
    | Accepted(session: U64, now: nat)
    | Received(session: U64, frame: Frame, payload: Payload, now: nat, secs: U64, faults: Faults)
    | Disconnected(session: U64)
    | Tick(order: seq<U64>, now: nat)
    | CreateRoom(room: U128, session: U64, secs: U64, fault: bool)
    | SubscribeTo(session: U64, room: U128)
    | UnsubscribeFrom(session: U64, room: U128)
    | ClearSequencer(room: U128)
    | RebuildManager(plan: seq<R.RecoverStep>)
    | Reboot(plan: seq<R.RecoverStep>)

  /** One event. The last two stand for a manager rebuilt from storage in place, and for a new
      driver process recovering from the same storage. */
  ghost function Step(d: Server, e: Event): (Server, Answer) {
    match e
    case Accepted(session, now) => OnAccepted(d, session, now)
    case Received(session, f, payload, now, secs, faults) => OnFrame(d, session, f, payload, now, secs, faults)
    case Disconnected(session) => OnClosed(d, session)
    case Tick(order, now) => (d.(conns := OnTick(d.conns, order, now).0), Ok(OnTick(d.conns, order, now).1))
    case CreateRoom(room, session, secs, fault) => OnCreateRoom(d, room, session, secs, fault)
    case SubscribeTo(session, room) => (d.(registry := G.AfterSubscribe(d.registry, session, room).0), Ok([]))
    case UnsubscribeFrom(session, room) => (d.(registry := G.AfterUnsubscribe(d.registry, session, room).0), Ok([]))
    case ClearSequencer(room) => (d.(core := R.Step(d.core, R.Clear(room)).0), Ok([]))
    case RebuildManager(plan) => (d.(core := R.Step(d.core, R.Restart(plan)).0), Ok([]))
    case Reboot(plan) =>
      (NewServer(d.core.store, d.groupInfos, d.config).(core := R.Step(d.core, R.Restart(plan)).0), Ok([]))
  }

  ghost function Run(d: Server, es: seq<Event>): Server
    decreases |es|
  {
    if es == [] then d else Run(Step(d, es[0]).0, es[1..])
  }

  ghost function Answers(d: Server, es: seq<Event>): (r: seq<Answer>)
    ensures |r| == |es|
    decreases |es|
  {
    if es == [] then [] else [Step(d, es[0]).1] + Answers(Step(d, es[0]).0, es[1..])
  }

  /** The driver itself. A connection in the map is a value here: handling it means taking the
      object out, calling it and putting it back. */
  class ServerDriver {
    var conns: map<U64, C.Conn>
    var groupInfos: map<U128, (U64, seq<Byte>)>
    const registry: G.ConnectionRegistry
    const rooms: R.RoomManager
    const storage: MemoryStorage
    const packages: K.KeyPackageRegistry
    const config: Config

    ghost function View(): Server
      reads this, registry, rooms, rooms.sequencer, storage, packages
    {
      Server(conns, registry.View(), R.Core(rooms.View(), storage.View()), packages.View(), groupInfos, config)
    }

    constructor (storage: MemoryStorage, groupInfos: map<U128, (U64, seq<Byte>)>, config: Config)
      ensures View() == NewServer(storage.View(), groupInfos, config)
      ensures this.storage == storage && fresh(registry) && fresh(rooms) && fresh(rooms.sequencer) && fresh(packages)
    {
      this.conns, this.groupInfos, this.storage, this.config := map[], groupInfos, storage, config;
      registry := new G.ConnectionRegistry();
      rooms := new R.RoomManager();
      packages := new K.KeyPackageRegistry.WithCapacity(PACKAGE_CAPACITY);
    }

    method HandleAccepted(session: U64, now: nat) returns (actions: seq<ServerAction>)
      modifies this, registry
      ensures (View(), Ok(actions)) == OnAccepted(old(View()), session, now)
    {
      if |conns| >= config.maxConnections {
        return [CloseConnection(session)];
      }
      var conn := new C.Connection(now, config.connection);
      conn.SetSessionId(session);
      conns := conns[session := conn.View()];
      var _ := registry.RegisterSession(session, G.SessionInfo(None, false));
      return [LogEntry];
    }

    method HandleClosed(session: U64) returns (actions: seq<ServerAction>)
      modifies this, registry
      ensures (View(), Ok(actions)) == OnClosed(old(View()), session)
    {
      conns := conns - {session};
      var gone := registry.UnregisterSession(session);
      return if gone.Some? then [LogEntry] else [];
    }

    method HandleTick(order: seq<U64>, now: nat) returns (actions: seq<ServerAction>)
      modifies this
      ensures (View(), Ok(actions)) == Step(old(View()), Tick(order, now))
    {
      actions := [];
      for i := 0 to |order|
        invariant (conns, actions) == OnTick(old(conns), order[..i], now)
        invariant groupInfos == old(groupInfos)
      {
        assert order[..i + 1][..i] == order[..i];
        var session := order[i];
        if session in conns {
          var conn := new C.Connection.From(conns[session]);
          var more := conn.Tick(now);
          conns := conns[session := conn.View()];
          actions := actions + ToServerActions(session, more);
        }
      }
      assert order[..|order|] == order;
    }

    method TouchConnection(session: U64, now: nat)
      requires session in conns
      modifies this
      ensures View() == Touch(old(View()), session, now)
    {
      var conn := new C.Connection.From(conns[session]);
      conn.UpdateActivity(now);
      conns := conns[session := conn.View()];
    }

    method HandleSessionFrame(session: U64, opcode: nat, payload: Payload, now: nat) returns (r: Answer)
      requires session in conns
      modifies this, registry
      ensures (View(), r) == OnSessionFrame(old(View()), session, opcode, payload, now)
    {
      var conn := new C.Connection.From(conns[session]);
      var result := conn.HandleFrame(SessionMessage(opcode, payload), now);
      conns := conns[session := conn.View()];
      if result.Err? {
        return Err(ConnectionFailed(session, result.error));
      }
      var actions := ToServerActions(session, result.value);
      if opcode == HELLO {
        var user := if conn.clientSenderId.Some? then conn.clientSenderId else conn.sessionId;
        if user.Some? {
          var _ := registry.UpdateSessionInfo(session, G.SessionInfo(user, true));
        }
      }
      return Ok(actions);
    }

    method HandleSyncRequest(session: U64, room: U128, payload: Payload, faults: Faults) returns (r: Answer)
      modifies rooms.sequencer, storage
      ensures (View(), r) == OnSync(old(View()), session, room, payload, faults)
    {
      if !payload.SyncRequestPayload? {
        return Ok([SendToSession(session, ErrorReply(4)), LogEntry]);
      }
      var action := rooms.HandleSyncRequest(room, session, payload.from, payload.limit, storage, faults.load, faults.latest);
      if action.Err? {
        return Ok([SendToSession(session, ErrorReply(RoomErrorCode(action.error))), LogEntry]);
      }
      var out := ProcessRoomAction(action.value, session, faults.store);
      return Ok(out);
    }

    method ProcessRoomAction(a: R.RoomAction, sender: U64, storeFault: bool) returns (actions: seq<ServerAction>)
      modifies rooms.sequencer, storage
      ensures (View(), Ok(actions)) == OnRoomAction(old(View()), a, sender, storeFault)
    {
      match a {
        case Broadcast(room, f, excludeSender) =>
          if R.IsWelcome(f) {
            var recipient := G.SessionOf(registry.View(), RecipientId(f.header));
            return if recipient.Some? then [SendToSession(recipient.value, Forwarded(f))] else [LogEntry];
          }
          var sessions := G.SessionsIn(registry.View(), room);
          return [BroadcastTo(if excludeSender then sessions - {sender} else sessions, f)];
        case PersistFrame(room, index, f) =>
          var stored := storage.StoreFrame(room, index, f, storeFault);
          if stored.Err? {
            if stored.error.Conflict? {
              var _ := rooms.sequencer.ClearRoom(room);
            }
            return [LogEntry];
          }
          return [];
        case Reject(senderId) => return [SendToSession(senderId, ErrorReply(1)), LogEntry];
        case SendSyncResponse(session, room, frames, hasMore) => return [SendToSession(session, SyncPage(room, frames, hasMore))];
      }
    }

    method HandlePublish(session: U64, payload: Payload) returns (r: Answer)
      modifies packages
      ensures (View(), r) == OnPublish(old(View()), session, payload)
    {
      if session !in registry.sessions || registry.sessions[session].userId.None? {
        return Ok([SendToSession(session, ErrorReply(1)), LogEntry]);
      }
      if !payload.PublishPayload? {
        return Ok([SendToSession(session, ErrorReply(4)), LogEntry]);
      }
      var result := packages.Store(registry.sessions[session].userId.value, payload.package);
      return Ok(if result == K.Evicted then [LogEntry, LogEntry] else [LogEntry]);
    }

    method HandleFetch(session: U64, payload: Payload) returns (r: Answer)
      modifies packages
      ensures (View(), r) == OnFetch(old(View()), session, payload)
    {
      if !payload.FetchPayload? {
        return Ok([SendToSession(session, ErrorReply(4)), LogEntry]);
      }
      var taken := packages.Take(payload.user);
      var reply := if taken.Some? then KeyPackageFound(payload.user, taken.value.package) else ErrorReply(7);
      return Ok([SendToSession(session, reply), LogEntry]);
    }

    method HandleGroupInfo(payload: Payload, faults: Faults) returns (r: Answer)
      modifies this
      ensures (View(), r) == OnGroupInfo(old(View()), payload, faults)
    {
      if payload.GroupInfoPayload? && !faults.groupInfo {
        groupInfos := groupInfos[payload.room := (payload.epoch, payload.bytes)];
      }
      return Ok([LogEntry]);
    }

    method HandleGroupInfoRequest(session: U64, payload: Payload, faults: Faults) returns (r: Answer)
      ensures (View(), r) == OnGroupInfoRequest(View(), session, payload, faults)
    {
      if !payload.GroupInfoRequestPayload? {
        return Ok([SendToSession(session, ErrorReply(4)), LogEntry]);
      }
      if faults.groupInfo {
        return Ok([LogEntry]);
      }
      if payload.room !in groupInfos {
        return Ok([SendToSession(session, ErrorReply(2)), LogEntry]);
      }
      var (epoch, bytes) := groupInfos[payload.room];
      return Ok([SendToSession(session, GroupInfoFound(payload.room, epoch, bytes)), LogEntry]);
    }

    method HandleWelcome(f: Frame) returns (r: Answer)
      modifies registry
      ensures (View(), r) == OnWelcome(old(View()), f)
    {
      var recipient := G.SessionOf(registry.View(), RecipientId(f.header));
      if recipient.None? {
        return Ok([LogEntry]);
      }
      var _ := registry.Subscribe(recipient.value, RoomId(f.header));
      return Ok([LogEntry, SendToSession(recipient.value, Forwarded(f))]);
    }

    method MakeRoom(room: U128, session: U64, secs: U64, fault: bool) returns (r: Answer)
      modifies registry, rooms, storage
      ensures (View(), r) == OnCreateRoom(old(View()), room, session, secs, fault)
    {
      if session !in registry.sessions {
        return Err(SessionNotFound(session));
      }
      var user := registry.sessions[session].userId;
      var created := rooms.CreateRoom(room, if user.Some? then user.value else session, secs, storage, fault);
      if created.Err? {
        return Err(Room(created.error));
      }
      var _ := registry.Subscribe(session, room);
      return Ok([LogEntry]);
    }

    method ProcessRoomActions(actions: seq<R.RoomAction>, sender: U64, storeFault: bool) returns (out: seq<ServerAction>)
      modifies rooms.sequencer, storage
      ensures (View(), out) == OnRoomActions(old(View()), actions, sender, storeFault)
    {
      hide OnRoomAction;
      out := [];
      assert actions[0..] == actions;
      ghost var all := OnRoomActions(View(), actions, sender, storeFault);
      assert [] + all.1 == all.1;
      for i := 0 to |actions|
        invariant OnRoomActions(old(View()), actions, sender, storeFault)
               == Prefixed(out, OnRoomActions(View(), actions[i..], sender, storeFault))
      {
        ghost var d := View();
        var more := ProcessRoomAction(actions[i], sender, storeFault);
        NextAction(d, actions[i..], sender, storeFault, out);
        assert actions[i..][1..] == actions[i + 1..];
        out := out + more;
      }
      assert out + [] == out;
    }

    /** Sequencing, then what the room manager asks for. */
    method Sequence(session: U64, f: Frame, faults: Faults) returns (r: Answer)
      modifies rooms.sequencer, storage
      ensures (View(), r) == OnSequenced(old(View()), session, f, faults)
    {
      hide R.Processed, OnRoomActions;
      var result := rooms.ProcessFrame(f, storage, faults.latest);
      if result.Err? {
        return Err(Room(result.error));
      }
      var out := ProcessRoomActions(result.value, session, faults.store);
      return Ok(out);
    }

    method HandleJoinedFrame(session: U64, f: Frame, faults: Faults) returns (r: Answer)
      modifies registry, rooms.sequencer, storage
      ensures (View(), r) == OnJoinedFrame(old(View()), session, f, faults)
    {
      hide OnSequenced, G.AfterSubscribe, RoomId, OpcodeRaw;
      var actions: seq<ServerAction> := [];
      if OpcodeRaw(f.header) == EXTERNAL_COMMIT {
        var _ := registry.Subscribe(session, RoomId(f.header));
        actions := [LogEntry];
      }
      var routed := Sequence(session, f, faults);
      if routed.Err? {
        return routed;
      }
      return Ok(actions + routed.value);
    }

    method HandleRoomFrame(session: U64, f: Frame, secs: U64, faults: Faults) returns (r: Answer)
      modifies registry, rooms, rooms.sequencer, storage
      ensures (View(), r) == OnRoomFrame(old(View()), session, f, secs, faults)
    {
      hide OnCreateRoom, OnJoinedFrame, RoomId, OpcodeRaw;
      var room, opcode := RoomId(f.header), OpcodeRaw(f.header);
      if !((opcode == COMMIT || opcode == EXTERNAL_COMMIT) && room !in rooms.metadata) {
        r := HandleJoinedFrame(session, f, faults);
        return;
      }
      var made := MakeRoom(room, session, secs, faults.create);
      if made.Err? {
        return made;
      }
      var routed := HandleJoinedFrame(session, f, faults);
      if routed.Err? {
        return routed;
      }
      return Ok(made.value + routed.value);
    }

    method HandleFrame(session: U64, f: Frame, payload: Payload, now: nat, secs: U64, faults: Faults) returns (r: Answer)
      modifies this, registry, rooms, rooms.sequencer, storage, packages
      ensures (View(), r) == OnFrame(old(View()), session, f, payload, now, secs, faults)
    {
      if session !in conns {
        return Err(SessionNotFound(session));
      }
      var opcode := OpcodeRaw(f.header);
      if opcode == HELLO || opcode == PING || opcode == PONG || opcode == GOODBYE {
        r := HandleSessionFrame(session, opcode, payload, now);
        return;
      }
      if opcode == SYNC_REQUEST {
        r := HandleSyncRequest(session, RoomId(f.header), payload, faults);
        return;
      }
      TouchConnection(session, now);
      if opcode == KEY_PACKAGE_PUBLISH {
        r := HandlePublish(session, payload);
      } else if opcode == KEY_PACKAGE_FETCH {
        r := HandleFetch(session, payload);
      } else if opcode == GROUP_INFO {
        r := HandleGroupInfo(payload, faults);
      } else if opcode == GROUP_INFO_REQUEST {
        r := HandleGroupInfoRequest(session, payload, faults);
      } else if opcode == R.OPCODE_WELCOME {
        r := HandleWelcome(f);
      } else {
        r := HandleRoomFrame(session, f, secs, faults);
      }
    }

    /** `process_event`, and beside its four events the calls a host makes directly. A restart is
        a new object: see `Restarted`. */
    method ProcessEvent(e: Event) returns (r: Answer)
      requires !e.RebuildManager? && !e.Reboot?
      modifies this, registry, rooms, rooms.sequencer, storage, packages
      ensures (View(), r) == Step(old(View()), e)
    {
      hide OnAccepted, OnFrame, OnClosed, OnTick, OnCreateRoom, G.AfterSubscribe, G.AfterUnsubscribe;
      match e {
        case Accepted(session, now) =>
          var actions := HandleAccepted(session, now);
          r := Ok(actions);
        case Received(session, f, payload, now, secs, faults) => r := HandleFrame(session, f, payload, now, secs, faults);
        case Disconnected(session) =>
          var actions := HandleClosed(session);
          r := Ok(actions);
        case Tick(order, now) =>
          var actions := HandleTick(order, now);
          r := Ok(actions);
        case CreateRoom(room, session, secs, fault) => r := MakeRoom(room, session, secs, fault);
        case SubscribeTo(session, room) =>
          var _ := registry.Subscribe(session, room);
          r := Ok([]);
        case UnsubscribeFrom(session, room) =>
          var _ := registry.Unsubscribe(session, room);
          r := Ok([]);
        case ClearSequencer(room) =>
          var _ := rooms.sequencer.ClearRoom(room);
          r := Ok([]);
      }
    }

    /** A new driver process on the storage of an old one, recovered. */
    static method Restarted(before: ServerDriver, plan: seq<R.RecoverStep>) returns (d: ServerDriver)
      ensures fresh(d) && d.storage == before.storage && d.View() == Step(before.View(), Reboot(plan)).0
    {
      d := new ServerDriver(before.storage, before.groupInfos, before.config);
      var _ := d.RecoverFromStorage(plan);
    }

    method RecoverFromStorage(plan: seq<R.RecoverStep>) returns (r: Result<nat, ServerError>)
      modifies rooms, rooms.sequencer
      ensures var (m, result) := R.Recover(old(rooms.View()), storage.View(), plan);
              && View() == old(View()).(core := R.Core(m, storage.View()))
              && r == if result.Err? then Err(Room(result.error)) else Ok(|plan|)
    {
      var result := rooms.RecoverAll(plan, storage);
      if result.Err? {
        return Err(Room(result.error));
      }
      return Ok(|plan|);
    }
  }
}
