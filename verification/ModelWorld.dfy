/** The repository's reference protocol: many clients, one server that numbers messages, a queue
    of deliveries, joins and leaves that move the epoch, partitions and disconnects. */
module ModelWorld {
  import opened BigEndian
  import opened Results
  import opened Tables

  datatype Message = Message(sender: Byte, content: seq<Byte>, logIndex: nat, epoch: nat)

  datatype RoomState = RoomState(epoch: nat, messages: seq<Message>)

  datatype Client = Client(rooms: map<Byte, RoomState>, partitioned: bool, disconnected: bool)

  datatype ServerRoom = ServerRoom(
    creator: Byte, members: set<Byte>, messages: seq<Message>, nextLogIndex: nat, epoch: nat)

  // Recipients are a snapshot of the members; which of them comes first makes no difference.
  datatype Pending = Pending(room: Byte, message: Message, recipients: set<Byte>)

  datatype World = World(clients: seq<Client>, rooms: map<Byte, ServerRoom>, pending: seq<Pending>)

  datatype OperationError =
    | RoomAlreadyExists | RoomNotFound | NotMember | InvalidClient | AlreadyMember
    | CannotRemoveSelf | NoGroupInfo | IsPartitioned | IsDisconnected

  type Outcome = Result<(), OperationError>

  const NEW_CLIENT := Client(map[], false, false)

  function NewWorld(n: nat): World { World(seq(n, _ => NEW_CLIENT), map[], []) }

  // ---- clients ----

  /** Moving on the epoch of those rooms of `rs` the client is in. */
  ghost function Bumped(c: Client, rs: set<Byte>): Client {
    c.(rooms := Table(c.rooms.Keys, r requires r in c.rooms =>
      if r in rs then c.rooms[r].(epoch := c.rooms[r].epoch + 1) else c.rooms[r]))
  }

  ghost function BumpAll(clients: seq<Client>, rs: set<Byte>): (r: seq<Client>)
    ensures |r| == |clients| && forall i | 0 <= i < |r| :: r[i] == Bumped(clients[i], rs)
  {
    seq(|clients|, i requires 0 <= i < |clients| => Bumped(clients[i], rs))
  }

  function Left(c: Client, room: Byte): Client { c.(rooms := c.rooms - {room}) }

  function Joined(c: Client, room: Byte, epoch: nat): Client { c.(rooms := c.rooms[room := RoomState(epoch, [])]) }

  function Receiving(c: Client, room: Byte, m: Message): Client {
    if room !in c.rooms then c
    else c.(rooms := c.rooms[room := c.rooms[room].(messages := c.rooms[room].messages + [m])])
  }

  /** What one queued message does to client `i`. */
  function Delivered(c: Client, i: nat, p: Pending): Client {
    if i in p.recipients && i != p.message.sender && !c.partitioned then Receiving(c, p.room, p.message) else c
  }

  function DeliveredAll(c: Client, i: nat, pending: seq<Pending>): Client {
    if pending == [] then c
    else Delivered(DeliveredAll(c, i, pending[..|pending| - 1]), i, pending[|pending| - 1])
  }

  // ---- the server ----

  function Advanced(rooms: map<Byte, ServerRoom>, room: Byte): map<Byte, ServerRoom> {
    if room in rooms then rooms[room := rooms[room].(epoch := rooms[room].epoch + 1)] else rooms
  }

  function WithMember(rooms: map<Byte, ServerRoom>, room: Byte, id: Byte): map<Byte, ServerRoom> {
    if room in rooms then rooms[room := rooms[room].(members := rooms[room].members + {id})] else rooms
  }

  function WithoutMember(rooms: map<Byte, ServerRoom>, room: Byte, id: Byte): map<Byte, ServerRoom> {
    if room in rooms then rooms[room := rooms[room].(members := rooms[room].members - {id})] else rooms
  }

  function NextMessage(r: ServerRoom, sender: Byte, content: seq<Byte>): Message {
    Message(sender, content, r.nextLogIndex, r.epoch)
  }

  function Appended(r: ServerRoom, m: Message): ServerRoom {
    r.(messages := r.messages + [m], nextLogIndex := r.nextLogIndex + 1)
  }

  // ---- operations ----

  function OnCreate(w: World, id: Byte, room: Byte): (World, Outcome) {
    if id >= |w.clients| then (w, Err(InvalidClient))
    else
      var c := w.clients[id];
      if c.disconnected then (w, Err(IsDisconnected))
      else if room in w.rooms || room in c.rooms then (w, Err(RoomAlreadyExists))
      else (w.(clients := w.clients[id := Joined(c, room, 0)], rooms := w.rooms[room := ServerRoom(id, {id}, [], 0, 0)]), Ok(()))
  }

  function OnSend(w: World, id: Byte, room: Byte, content: seq<Byte>): (World, Outcome) {
    if id >= |w.clients| then (w, Err(InvalidClient))
    else if w.clients[id].partitioned then (w, Err(IsPartitioned))
    else if room !in w.clients[id].rooms then (w, Err(NotMember))
    else if room !in w.rooms then (w, Err(RoomNotFound))
    else if id !in w.rooms[room].members then (w, Err(NotMember))
    else
      var m := NextMessage(w.rooms[room], id, content);
      (World(w.clients[id := Receiving(w.clients[id], room, m)], w.rooms[room := Appended(w.rooms[room], m)],
             w.pending + [Pending(room, m, w.rooms[room].members)]), Ok(()))
  }

  function OnDeliver(w: World): World {
    World(seq(|w.clients|, i requires 0 <= i < |w.clients| => DeliveredAll(w.clients[i], i, w.pending)), w.rooms, [])
  }

  /** A member goes, the rest move to the next epoch. */
  ghost function Departed(w: World, id: Byte, room: Byte): World
    requires id < |w.clients|
  {
    w.(clients := BumpAll(w.clients[id := Left(w.clients[id], room)], {room}),
       rooms := Advanced(WithoutMember(w.rooms, room, id), room))
  }

  ghost function OnLeave(w: World, id: Byte, room: Byte): (World, Outcome) {
    if id >= |w.clients| then (w, Err(InvalidClient))
    else if room !in w.clients[id].rooms then (w, Err(NotMember))
    else (Departed(w, id, room), Ok(()))
  }

  ghost function OnRemove(w: World, remover: Byte, target: Byte, room: Byte): (World, Outcome) {
    if remover >= |w.clients| || target >= |w.clients| then (w, Err(InvalidClient))
    else if remover == target then (w, Err(CannotRemoveSelf))
    else if room !in w.clients[remover].rooms || room !in w.clients[target].rooms then (w, Err(NotMember))
    else (Departed(w, target, room), Ok(()))
  }

  /** The members move to the next epoch, the newcomer enters there. */
  ghost function Entered(w: World, id: Byte, room: Byte): World
    requires id < |w.clients|
  {
    var rooms := Advanced(w.rooms, room);
    var clients := BumpAll(w.clients, {room});
    w.(clients := if room in clients[id].rooms then clients
                  else clients[id := Joined(clients[id], room, if room in rooms then rooms[room].epoch else 0)],
       rooms := WithMember(rooms, room, id))
  }

  ghost function OnAdd(w: World, inviter: Byte, invitee: Byte, room: Byte): (World, Outcome) {
    if inviter >= |w.clients| || invitee >= |w.clients| then (w, Err(InvalidClient))
    else if room !in w.clients[inviter].rooms then (w, Err(NotMember))
    else if room in w.clients[invitee].rooms then (w, Err(AlreadyMember))
    else (Entered(w, invitee, room), Ok(()))
  }

  ghost function OnExternalJoin(w: World, id: Byte, room: Byte): (World, Outcome) {
    if id >= |w.clients| then (w, Err(InvalidClient))
    else if room in w.clients[id].rooms then (w, Err(AlreadyMember))
    else if room !in w.rooms then (w, Err(NoGroupInfo))
    else (Entered(w, id, room), Ok(()))
  }

  function OnPartition(w: World, id: Byte, on: bool): (World, Outcome) {
    if id >= |w.clients| then (w, Err(InvalidClient))
    else if w.clients[id].disconnected then (w, Err(IsDisconnected))
    else (w.(clients := w.clients[id := w.clients[id].(partitioned := on)]), Ok(()))
  }

  /** The server's rooms without one member of those in `gone`; where somebody is left, the
      epoch moves on. */
  ghost function Abandoned(rooms: map<Byte, ServerRoom>, gone: set<Byte>, id: Byte): map<Byte, ServerRoom> {
    Table(rooms.Keys, r requires r in rooms => if r in gone then WithoutDeparted(rooms[r], id) else rooms[r])
  }

  function WithoutDeparted(r: ServerRoom, id: Byte): ServerRoom {
    r.(members := r.members - {id}, epoch := if r.members - {id} != {} then r.epoch + 1 else r.epoch)
  }

  /** Those of the rooms in `gone` that still have a member. */
  function Surviving(rooms: map<Byte, ServerRoom>, gone: set<Byte>, id: Byte): set<Byte> {
    set r | r in gone && r in rooms && rooms[r].members - {id} != {}
  }

  ghost function OnDisconnect(w: World, id: Byte): (World, Outcome) {
    if id >= |w.clients| then (w, Err(InvalidClient))
    else if w.clients[id].disconnected then (w, Err(IsDisconnected))
    else
      var gone := w.clients[id].rooms.Keys;
      (w.(clients := BumpAll(w.clients[id := Client(map[], true, true)], Surviving(w.rooms, gone, id)),
          rooms := Abandoned(w.rooms, gone, id)), Ok(()))
  }

  datatype Operation =
    | CreateRoom(id: Byte, room: Byte)
    | SendMessage(id: Byte, room: Byte, content: seq<Byte>)
    | LeaveRoom(id: Byte, room: Byte)
    | AddMember(inviter: Byte, invitee: Byte, room: Byte)
    | ExternalJoin(id: Byte, room: Byte)
    | RemoveMember(remover: Byte, target: Byte, room: Byte)
    | AdvanceTime
    | DeliverPending
    | Partition(id: Byte)
    | HealPartition(id: Byte)
    | Disconnect(id: Byte)

  ghost function Apply(w: World, op: Operation): (World, Outcome) {
    match op
    case CreateRoom(id, room) => OnCreate(w, id, room)
    case SendMessage(id, room, content) => OnSend(w, id, room, content)
    case LeaveRoom(id, room) => OnLeave(w, id, room)
    case AddMember(inviter, invitee, room) => OnAdd(w, inviter, invitee, room)
    case ExternalJoin(id, room) => OnExternalJoin(w, id, room)
    case RemoveMember(remover, target, room) => OnRemove(w, remover, target, room)
    case AdvanceTime => (w, Ok(()))
    case DeliverPending => (OnDeliver(w), Ok(()))
    case Partition(id) => OnPartition(w, id, true)
    case HealPartition(id) => OnPartition(w, id, false)
    case Disconnect(id) => OnDisconnect(w, id)
  }

  ghost function Run(w: World, ops: seq<Operation>): World
    decreases |ops|
  {
    if ops == [] then w else Run(Apply(w, ops[0]).0, ops[1..])
  }

  // ---- the objects ----

  class ModelClient {
    var rooms: map<Byte, RoomState>
    var partitioned: bool
    var disconnected: bool

    function View(): Client
      reads this
    {
      Client(rooms, partitioned, disconnected)
    }

    constructor ()
      ensures View() == NEW_CLIENT
    {
      rooms, partitioned, disconnected := map[], false, false;
    }

    method JoinRoomAtEpoch(room: Byte, epoch: nat) returns (ok: bool)
      modifies this
      ensures ok == (room !in old(rooms)) && View() == if ok then Joined(old(View()), room, epoch) else old(View())
    {
      if room in rooms {
        return false;
      }
      rooms := rooms[room := RoomState(epoch, [])];
      return true;
    }

    method LeaveRoom(room: Byte) returns (ok: bool)
      modifies this
      ensures ok == (room in old(rooms)) && View() == Left(old(View()), room)
    {
      ok := room in rooms;
      rooms := rooms - {room};
    }

    method ReceiveMessage(room: Byte, m: Message)
      modifies this
      ensures View() == Receiving(old(View()), room, m)
    {
      if room in rooms {
        rooms := rooms[room := rooms[room].(messages := rooms[room].messages + [m])];
      }
    }

    method AdvanceEpoch(room: Byte)
      modifies this
      ensures View() == Bumped(old(View()), {room})
    {
      hide Table;
      if room in rooms {
        rooms := rooms[room := rooms[room].(epoch := rooms[room].epoch + 1)];
      }
      assert rooms == Bumped(old(View()), {room}).rooms;
    }

    method SetPartitioned(on: bool)
      modifies this
      ensures View() == old(View()).(partitioned := on)
    {
      partitioned := on;
    }

    method Disconnect() returns (gone: set<Byte>)
      modifies this
      ensures gone == old(rooms.Keys) && View() == Client(map[], true, true)
    {
      gone := rooms.Keys;
      rooms, partitioned, disconnected := map[], true, true;
    }
  }

  class ModelServer {
    var rooms: map<Byte, ServerRoom>
    var pending: seq<Pending>

    constructor ()
      ensures rooms == map[] && pending == []
    {
      rooms, pending := map[], [];
    }

    method TakePending() returns (taken: seq<Pending>)
      modifies `pending
      ensures taken == old(pending) && pending == []
    {
      taken := pending;
      pending := [];
    }

    method CreateRoom(room: Byte, creator: Byte) returns (r: Outcome)
      modifies `rooms
      ensures r == if room in old(rooms) then Err(RoomAlreadyExists) else Ok(())
      ensures rooms == if r.Ok? then old(rooms)[room := ServerRoom(creator, {creator}, [], 0, 0)] else old(rooms)
    {
      if room in rooms {
        return Err(RoomAlreadyExists);
      }
      rooms := rooms[room := ServerRoom(creator, {creator}, [], 0, 0)];
      return Ok(());
    }

    method ProcessMessage(room: Byte, sender: Byte, content: seq<Byte>) returns (r: Result<Message, OperationError>)
      modifies this
      ensures room !in old(rooms) ==> r == Err(RoomNotFound)
      ensures room in old(rooms) && sender !in old(rooms)[room].members ==> r == Err(NotMember)
      ensures r.Err? ==> rooms == old(rooms) && pending == old(pending)
      ensures room in old(rooms) && sender in old(rooms)[room].members ==>
                && r.Ok? && r.value == NextMessage(old(rooms)[room], sender, content)
                && rooms == old(rooms)[room := Appended(old(rooms)[room], r.value)]
                && pending == old(pending) + [Pending(room, r.value, old(rooms)[room].members)]
    {
      if room !in rooms {
        return Err(RoomNotFound);
      }
      if sender !in rooms[room].members {
        return Err(NotMember);
      }
      var index := rooms[room].nextLogIndex;
      rooms := rooms[room := rooms[room].(nextLogIndex := index + 1)];
      var message := Message(sender, content, index, rooms[room].epoch);
      rooms := rooms[room := rooms[room].(messages := rooms[room].messages + [message])];
      pending := pending + [Pending(room, message, rooms[room].members)];
      return Ok(message);
    }

    method RemoveMember(room: Byte, id: Byte) returns (r: Outcome)
      modifies `rooms
      ensures rooms == WithoutMember(old(rooms), room, id)
      ensures r == if room !in old(rooms) then Err(RoomNotFound)
                   else if id !in old(rooms)[room].members then Err(NotMember) else Ok(())
    {
      if room !in rooms {
        return Err(RoomNotFound);
      }
      var removed := id in rooms[room].members;
      rooms := rooms[room := rooms[room].(members := rooms[room].members - {id})];
      return if removed then Ok(()) else Err(NotMember);
    }

    method AddMember(room: Byte, id: Byte)
      modifies `rooms
      ensures rooms == WithMember(old(rooms), room, id)
    {
      if room in rooms {
        rooms := rooms[room := rooms[room].(members := rooms[room].members + {id})];
      }
    }

    method AdvanceEpoch(room: Byte)
      modifies `rooms
      ensures rooms == Advanced(old(rooms), room)
    {
      if room in rooms {
        rooms := rooms[room := rooms[room].(epoch := rooms[room].epoch + 1)];
      }
    }
  }

  class ModelWorld {
    const clients: seq<ModelClient>
    const server: ModelServer

    /** Each client is an object of its own. */
    ghost predicate Distinct() { forall i, j | 0 <= i < j < |clients| :: clients[i] != clients[j] }

    ghost function Views(): (r: seq<Client>)
      reads clients
      ensures |r| == |clients| && forall i | 0 <= i < |r| :: r[i] == clients[i].View()
    {
      seq(|clients|, i requires 0 <= i < |clients| reads clients => clients[i].View())
    }

    ghost function View(): World
      reads clients, server
    {
      World(Views(), server.rooms, server.pending)
    }

    constructor (n: nat)
      ensures Distinct() && View() == NewWorld(n) && fresh(server) && forall c | c in clients :: fresh(c)
    {
      var cs: seq<ModelClient> := [];
      for i := 0 to n
        invariant |cs| == i && forall k | 0 <= k < i :: fresh(cs[k]) && cs[k].View() == NEW_CLIENT
        invariant forall j, k | 0 <= j < k < i :: cs[j] != cs[k]
      {
        var c := new ModelClient();
        cs := cs + [c];
      }
      clients := cs;
      server := new ModelServer();
      new;
      assert Views() == NewWorld(n).clients;
    }

    /** The loop every change of membership ends with. */
    method AdvanceClients(room: Byte)
      requires Distinct()
      modifies clients
      ensures Views() == BumpAll(old(Views()), {room})
    {
      hide Bumped;
      for i := 0 to |clients|
        invariant forall k | 0 <= k < i :: clients[k].View() == Bumped(old(clients[k].View()), {room})
        invariant forall k | i <= k < |clients| :: clients[k].View() == old(clients[k].View())
      {
        clients[i].AdvanceEpoch(room);
      }
    }

    method Perform(op: Operation) returns (r: Outcome)
      requires Distinct()
      modifies clients, server
      ensures (View(), r) == Apply(old(View()), op)
    {
      hide OnCreate, OnSend, OnLeave, OnAdd, OnExternalJoin, OnRemove, OnDeliver, OnPartition, OnDisconnect;
      match op {
        case CreateRoom(id, room) => r := ApplyCreateRoom(id, room);
        case SendMessage(id, room, content) => r := ApplySendMessage(id, room, content);
        case LeaveRoom(id, room) => r := ApplyLeaveRoom(id, room);
        case AddMember(inviter, invitee, room) => r := ApplyAddMember(inviter, invitee, room);
        case ExternalJoin(id, room) => r := ApplyExternalJoin(id, room);
        case RemoveMember(remover, target, room) => r := ApplyRemoveMember(remover, target, room);
        case AdvanceTime => r := Ok(());
        case DeliverPending =>
          ApplyDeliverPending();
          r := Ok(());
        case Partition(id) => r := ApplyPartition(id, true);
        case HealPartition(id) => r := ApplyPartition(id, false);
        case Disconnect(id) => r := ApplyDisconnect(id);
      }
    }

    method ApplyCreateRoom(id: Byte, room: Byte) returns (r: Outcome)
      requires Distinct()
      modifies clients, server
      ensures (View(), r) == OnCreate(old(View()), id, room)
    {
      if id >= |clients| {
        return Err(InvalidClient);
      }
      if clients[id].disconnected {
        return Err(IsDisconnected);
      }
      if room in server.rooms {
        return Err(RoomAlreadyExists);
      }
      var created := clients[id].JoinRoomAtEpoch(room, 0);
      assert Views() == old(Views())[id := clients[id].View()];
      if !created {
        assert Views() == old(Views());
        return Err(RoomAlreadyExists);
      }
      var _ := server.CreateRoom(room, id);
      server.AddMember(room, id);
      assert {id} + {id} == {id};
      assert server.rooms == old(server.rooms)[room := ServerRoom(id, {id}, [], 0, 0)];
      return Ok(());
    }

    method ApplySendMessage(id: Byte, room: Byte, content: seq<Byte>) returns (r: Outcome)
      requires Distinct()
      modifies clients, server
      ensures (View(), r) == OnSend(old(View()), id, room, content)
    {
      if id >= |clients| {
        return Err(InvalidClient);
      }
      if clients[id].partitioned {
        return Err(IsPartitioned);
      }
      if room !in clients[id].rooms {
        return Err(NotMember);
      }
      var processed := server.ProcessMessage(room, id, content);
      if processed.Err? {
        assert Views() == old(Views());
        return Err(processed.error);
      }
      clients[id].ReceiveMessage(room, processed.value);
      assert Views() == old(Views())[id := clients[id].View()];
      return Ok(());
    }

    /** Message by message in queue order, recipient by recipient in any order. */
    method ApplyDeliverPending()
      requires Distinct()
      modifies clients, server
      ensures View() == OnDeliver(old(View()))
    {
      hide Delivered;
      var queue := server.TakePending();
      for n := 0 to |queue|
        invariant forall i | 0 <= i < |clients| :: clients[i].View() == DeliveredAll(old(clients[i].View()), i, queue[..n])
        invariant server.rooms == old(server.rooms) && server.pending == []
      {
        assert queue[..n + 1][..n] == queue[..n];
        Deliver(queue[n]);
      }
      assert queue[..|queue|] == queue;
      assert Views() == OnDeliver(old(View())).clients;
    }

    method Deliver(p: Pending)
      requires Distinct()
      modifies clients
      ensures forall i | 0 <= i < |clients| :: clients[i].View() == Delivered(old(clients[i].View()), i, p)
    {
      var todo := p.recipients;
      while todo != {}
        invariant todo <= p.recipients
        invariant forall i | 0 <= i < |clients| ::
                    clients[i].View() == if i in todo then old(clients[i].View()) else Delivered(old(clients[i].View()), i, p)
        decreases todo
      {
        var recipient :| recipient in todo;
        todo := todo - {recipient};
        if recipient != p.message.sender && recipient < |clients| && !clients[recipient].partitioned
           && p.room in clients[recipient].rooms {
          clients[recipient].ReceiveMessage(p.room, p.message);
        }
      }
    }

    method Depart(id: Byte, room: Byte)
      requires Distinct() && id < |clients|
      modifies clients, server
      ensures View() == Departed(old(View()), id, room)
    {
      hide BumpAll;
      var _ := clients[id].LeaveRoom(room);
      assert Views() == old(Views())[id := clients[id].View()];
      var _ := server.RemoveMember(room, id);
      server.AdvanceEpoch(room);
      AdvanceClients(room);
    }

    method ApplyLeaveRoom(id: Byte, room: Byte) returns (r: Outcome)
      requires Distinct()
      modifies clients, server
      ensures (View(), r) == OnLeave(old(View()), id, room)
    {
      if id >= |clients| {
        return Err(InvalidClient);
      }
      if room !in clients[id].rooms {
        return Err(NotMember);
      }
      Depart(id, room);
      return Ok(());
    }

    method ApplyRemoveMember(remover: Byte, target: Byte, room: Byte) returns (r: Outcome)
      requires Distinct()
      modifies clients, server
      ensures (View(), r) == OnRemove(old(View()), remover, target, room)
    {
      if remover >= |clients| || target >= |clients| {
        return Err(InvalidClient);
      }
      if remover == target {
        return Err(CannotRemoveSelf);
      }
      if room !in clients[remover].rooms || room !in clients[target].rooms {
        return Err(NotMember);
      }
      Depart(target, room);
      return Ok(());
    }

    method Enter(id: Byte, room: Byte)
      requires Distinct() && id < |clients|
      modifies clients, server
      ensures View() == Entered(old(View()), id, room)
    {
      hide Bumped;
      server.AdvanceEpoch(room);
      var epoch := if room in server.rooms then server.rooms[room].epoch else 0;
      AdvanceClients(room);
      ghost var bumped := Views();
      server.AddMember(room, id);
      var _ := clients[id].JoinRoomAtEpoch(room, epoch);
      assert Views() == bumped[id := clients[id].View()];
      assert bumped[id := bumped[id]] == bumped;
    }

    method ApplyAddMember(inviter: Byte, invitee: Byte, room: Byte) returns (r: Outcome)
      requires Distinct()
      modifies clients, server
      ensures (View(), r) == OnAdd(old(View()), inviter, invitee, room)
    {
      if inviter >= |clients| || invitee >= |clients| {
        return Err(InvalidClient);
      }
      if room !in clients[inviter].rooms {
        return Err(NotMember);
      }
      if room in clients[invitee].rooms {
        return Err(AlreadyMember);
      }
      Enter(invitee, room);
      return Ok(());
    }

    method ApplyExternalJoin(id: Byte, room: Byte) returns (r: Outcome)
      requires Distinct()
      modifies clients, server
      ensures (View(), r) == OnExternalJoin(old(View()), id, room)
    {
      if id >= |clients| {
        return Err(InvalidClient);
      }
      if room in clients[id].rooms {
        return Err(AlreadyMember);
      }
      if room !in server.rooms {
        return Err(NoGroupInfo);
      }
      Enter(id, room);
      return Ok(());
    }

    method ApplyPartition(id: Byte, on: bool) returns (r: Outcome)
      requires Distinct()
      modifies clients
      ensures (View(), r) == OnPartition(old(View()), id, on)
    {
      if id >= |clients| {
        return Err(InvalidClient);
      }
      if clients[id].disconnected {
        return Err(IsDisconnected);
      }
      clients[id].SetPartitioned(on);
      assert Views() == old(Views())[id := clients[id].View()];
      return Ok(());
    }

    method ApplyDisconnect(id: Byte) returns (r: Outcome)
      requires Distinct()
      modifies clients, server
      ensures (View(), r) == OnDisconnect(old(View()), id)
    {
      hide BumpAll, Abandoned, Surviving;
      if id >= |clients| {
        return Err(InvalidClient);
      }
      if clients[id].disconnected {
        return Err(IsDisconnected);
      }
      var gone := clients[id].Disconnect();
      assert Views() == old(Views())[id := Client(map[], true, true)];
      Abandon(gone, id);
      return Ok(());
    }

    /** Leaving every room, in whatever order they come. */
    method Abandon(gone: set<Byte>, id: Byte)
      requires Distinct()
      modifies clients, server`rooms
      ensures server.rooms == Abandoned(old(server.rooms), gone, id)
      ensures Views() == BumpAll(old(Views()), Surviving(old(server.rooms), gone, id))
    {
      hide BumpAll, Abandoned, Surviving;
      ghost var start, rooms := Views(), server.rooms;
      AbandonNone(rooms, id, start);
      var todo := gone;
      assert gone - todo == {};
      while todo != {}
        invariant todo <= gone && server.rooms == Abandoned(rooms, gone - todo, id)
        invariant Views() == BumpAll(start, Surviving(rooms, gone - todo, id))
        decreases todo
      {
        var room :| room in todo;
        ghost var done := gone - todo;
        todo := todo - {room};
        assert gone - todo == done + {room};
        AbandonOne(rooms, done, room, id, start);
        var _ := server.RemoveMember(room, id);
        if room in server.rooms && server.rooms[room].members != {} {
          server.AdvanceEpoch(room);
          AdvanceClients(room);
        }
      }
      assert gone - todo == gone;
    }
  }

  lemma AbandonNone(rooms: map<Byte, ServerRoom>, id: Byte, clients: seq<Client>)
    ensures Abandoned(rooms, {}, id) == rooms && BumpAll(clients, Surviving(rooms, {}, id)) == clients
  {
    hide Table;
    assert Surviving(rooms, {}, id) == {};
    forall i | 0 <= i < |clients| ensures Bumped(clients[i], {}) == clients[i] {
      assert Bumped(clients[i], {}).rooms == clients[i].rooms;
    }
  }

  /** Rooms can be left one after another: the order makes no difference. */
  lemma AbandonOne(rooms: map<Byte, ServerRoom>, done: set<Byte>, room: Byte, id: Byte, clients: seq<Client>)
    requires room !in done
    ensures var before, after := Abandoned(rooms, done, id), Abandoned(rooms, done + {room}, id);
            var left := WithoutMember(before, room, id);
            var bumped, bumped' := BumpAll(clients, Surviving(rooms, done, id)), BumpAll(clients, Surviving(rooms, done + {room}, id));
            if room in left && left[room].members != {}
            then after == Advanced(left, room) && bumped' == BumpAll(bumped, {room})
            else after == left && bumped' == bumped
  {
    hide Table;
    var s, s' := Surviving(rooms, done, id), Surviving(rooms, done + {room}, id);
    assert s' == s + {room} || s' == s;
    forall i | 0 <= i < |clients| ensures room !in s ==> Bumped(Bumped(clients[i], s), {room}) == Bumped(clients[i], s + {room}) {
      if room !in s {
        assert Bumped(Bumped(clients[i], s), {room}).rooms == Bumped(clients[i], s + {room}).rooms;
      }
    }
  }
}
