/** What every run of the reference protocol keeps: the two sides agree on who is where and at
    which epoch, and every inbox is an orderly part of the server's log. */
module WorldRuns {
  import opened BigEndian
  import opened Results
  import opened Tables
  import opened ModelWorld

  // ---- the invariant ----

  /** Message `k` is numbered `k`; epochs never decrease and none is from the future. */
  predicate OrderlyLog(r: ServerRoom) {
    && r.nextLogIndex == |r.messages|
    && (forall k | 0 <= k < |r.messages| :: r.messages[k].logIndex == k && r.messages[k].epoch <= r.epoch)
    && (forall j, k | 0 <= j < k < |r.messages| :: r.messages[j].epoch <= r.messages[k].epoch)
  }

  predicate LoggedAs(m: Message, log: seq<Message>) { m.logIndex < |log| && log[m.logIndex] == m }

  /** An inbox of client `i`: entries of the log, its own ones in log order, all others' in log
      order. The two kinds may be interleaved out of order. */
  predicate OrderlyInbox(i: nat, inbox: seq<Message>, log: seq<Message>) {
    && (forall k | 0 <= k < |inbox| :: LoggedAs(inbox[k], log))
    && (forall j, k | 0 <= j < k < |inbox| ::
          (inbox[j].sender == i <==> inbox[k].sender == i) ==> inbox[j].logIndex < inbox[k].logIndex)
  }

  /** Queued messages are log entries, in log order room by room. */
  predicate OrderlyQueue(pending: seq<Pending>, rooms: map<Byte, ServerRoom>) {
    && (forall k | 0 <= k < |pending| :: pending[k].room in rooms && LoggedAs(pending[k].message, rooms[pending[k].room].messages))
    && (forall j, k | 0 <= j < k < |pending| ::
          pending[j].room == pending[k].room ==> pending[j].message.logIndex < pending[k].message.logIndex)
  }

  /** Everything queued for a room is newer than what a member already has from others. */
  predicate Newer(i: nat, inbox: seq<Message>, room: Byte, pending: seq<Pending>) {
    forall j, k | 0 <= j < |inbox| && 0 <= k < |pending| ::
      pending[k].room == room && inbox[j].sender != i ==> inbox[j].logIndex < pending[k].message.logIndex
  }

  function ClientSide(w: World, i: nat, room: Byte): Option<RoomState> {
    if i < |w.clients| && room in w.clients[i].rooms then Some(w.clients[i].rooms[room]) else None
  }

  function ServerSide(w: World, room: Byte): Option<ServerRoom> {
    if room in w.rooms then Some(w.rooms[room]) else None
  }

  /** One client and one room: it takes itself for a member exactly when the server lists it, and
      then they are at the same epoch and its inbox is in order. */
  predicate Matches(i: nat, mine: Option<RoomState>, theirs: Option<ServerRoom>, room: Byte, pending: seq<Pending>) {
    && (mine.Some? <==> theirs.Some? && i in theirs.value.members)
    && (mine.Some? ==>
          && mine.value.epoch == theirs.value.epoch
          && OrderlyInbox(i, mine.value.messages, theirs.value.messages)
          && Newer(i, mine.value.messages, room, pending))
  }

  ghost predicate SidesMatch(w: World) {
    forall i: nat, room: Byte :: Matches(i, ClientSide(w, i, room), ServerSide(w, room), room, w.pending)
  }

  predicate LogsOrderly(rooms: map<Byte, ServerRoom>) { forall room | room in rooms :: OrderlyLog(rooms[room]) }

  ghost predicate Inv(w: World) {
    SidesMatch(w) && LogsOrderly(w.rooms) && OrderlyQueue(w.pending, w.rooms)
  }

  // ---- one operation ----

  lemma NewWorldInv(n: nat)
    ensures Inv(NewWorld(n))
  {
  }

  lemma CreateInv(w: World, id: Byte, room: Byte)
    requires Inv(w)
    ensures Inv(OnCreate(w, id, room).0)
  {
    hide Table, OrderlyLog, OrderlyInbox, Newer, LoggedAs;
    var (w', r) := OnCreate(w, id, room);
    if r.Ok? {
      NewRoomOrderly(id, room, w.pending);
      forall i: nat, r: Byte ensures Matches(i, ClientSide(w', i, r), ServerSide(w', r), r, w'.pending) {
        assert Matches(i, ClientSide(w, i, r), ServerSide(w, r), r, w.pending);
      }
    }
  }

  lemma NewRoomOrderly(id: Byte, room: Byte, pending: seq<Pending>)
    ensures OrderlyLog(ServerRoom(id, {id}, [], 0, 0)) && OrderlyInbox(id, [], []) && Newer(id, [], room, pending)
  {
  }

  lemma DepartInv(w: World, id: Byte, room: Byte)
    requires Inv(w) && id < |w.clients|
    ensures Inv(Departed(w, id, room))
  {
    hide Table, OrderlyLog, OrderlyInbox, Newer, LoggedAs;
    var w' := Departed(w, id, room);
    forall i: nat, r: Byte ensures Matches(i, ClientSide(w', i, r), ServerSide(w', r), r, w'.pending) {
      assert Matches(i, ClientSide(w, i, r), ServerSide(w, r), r, w.pending);
    }
    if room in w.rooms { EpochMovesOn(w.rooms[room], w.rooms[room].members - {id}); }
  }

  lemma EpochMovesOn(r: ServerRoom, members: set<Byte>)
    requires OrderlyLog(r)
    ensures OrderlyLog(r.(members := members, epoch := r.epoch + 1)) && OrderlyLog(r.(members := members))
  {
  }

  lemma EnterInv(w: World, id: Byte, room: Byte)
    requires Inv(w) && id < |w.clients| && room in w.rooms && room !in w.clients[id].rooms
    ensures Inv(Entered(w, id, room))
  {
    hide Table, OrderlyLog, OrderlyInbox, Newer, LoggedAs;
    var w' := Entered(w, id, room);
    EpochMovesOn(w.rooms[room], w.rooms[room].members + {id});
    EmptyInboxOrderly(id, w.rooms[room].messages, room, w.pending);
    forall i: nat, r: Byte ensures Matches(i, ClientSide(w', i, r), ServerSide(w', r), r, w'.pending) {
      assert Matches(i, ClientSide(w, i, r), ServerSide(w, r), r, w.pending);
    }
  }

  lemma EmptyInboxOrderly(i: nat, log: seq<Message>, room: Byte, pending: seq<Pending>)
    ensures OrderlyInbox(i, [], log) && Newer(i, [], room, pending)
  {
  }

  lemma PartitionInv(w: World, id: Byte, on: bool)
    requires Inv(w)
    ensures Inv(OnPartition(w, id, on).0)
  {
    hide Table, OrderlyLog, OrderlyInbox, Newer, LoggedAs;
    var w' := OnPartition(w, id, on).0;
    forall i: nat, r: Byte ensures Matches(i, ClientSide(w', i, r), ServerSide(w', r), r, w'.pending) {
      assert Matches(i, ClientSide(w, i, r), ServerSide(w, r), r, w.pending);
    }
  }

  lemma DisconnectInv(w: World, id: Byte)
    requires Inv(w)
    ensures Inv(OnDisconnect(w, id).0)
  {
    hide Table, OrderlyLog, OrderlyInbox, Newer, LoggedAs;
    var w' := OnDisconnect(w, id).0;
    forall i: nat, r: Byte ensures Matches(i, ClientSide(w', i, r), ServerSide(w', r), r, w'.pending) {
      assert Matches(i, ClientSide(w, i, r), ServerSide(w, r), r, w.pending);
    }
    forall r | r in w.rooms ensures OrderlyLog(WithoutDeparted(w.rooms[r], id)) {
      EpochMovesOn(w.rooms[r], w.rooms[r].members - {id});
    }
  }

  // ---- sending ----

  lemma AppendKeepsLog(r: ServerRoom, sender: Byte, content: seq<Byte>)
    requires OrderlyLog(r)
    ensures OrderlyLog(Appended(r, NextMessage(r, sender, content)))
  {
  }

  lemma InboxOfLongerLog(i: nat, inbox: seq<Message>, log: seq<Message>, m: Message)
    requires OrderlyInbox(i, inbox, log)
    ensures OrderlyInbox(i, inbox, log + [m])
    ensures m.logIndex == |log| ==> OrderlyInbox(i, inbox + [m], log + [m])
  {
  }

  lemma NewestQueued(i: nat, inbox: seq<Message>, log: seq<Message>, room: Byte, pending: seq<Pending>, p: Pending)
    requires OrderlyInbox(i, inbox, log) && Newer(i, inbox, room, pending)
    requires p.room == room ==> p.message.logIndex >= |log|
    ensures Newer(i, inbox, room, pending + [p])
    ensures p.message.sender == i ==> Newer(i, inbox + [p.message], room, pending + [p])
  {
  }

  lemma QueueGrows(w: World, room: Byte, m: Message, recipients: set<Byte>)
    requires LogsOrderly(w.rooms) && OrderlyQueue(w.pending, w.rooms) && room in w.rooms
    requires m.logIndex == |w.rooms[room].messages|
    ensures OrderlyQueue(w.pending + [Pending(room, m, recipients)], w.rooms[room := Appended(w.rooms[room], m)])
  {
  }

  lemma SendInv(w: World, id: Byte, room: Byte, content: seq<Byte>)
    requires Inv(w)
    ensures Inv(OnSend(w, id, room, content).0)
  {
    hide OrderlyLog, OrderlyInbox, Newer, LoggedAs, OrderlyQueue;
    var (w', r) := OnSend(w, id, room, content);
    if r.Ok? {
      var m := NextMessage(w.rooms[room], id, content);
      NumberedNext(w.rooms[room]);
      AppendKeepsLog(w.rooms[room], id, content);
      QueueGrows(w, room, m, w.rooms[room].members);
      forall i: nat, r: Byte ensures Matches(i, ClientSide(w', i, r), ServerSide(w', r), r, w'.pending) {
        assert Matches(i, ClientSide(w, i, r), ServerSide(w, r), r, w.pending);
        if ClientSide(w, i, r).Some? {
          var inbox, log := ClientSide(w, i, r).value.messages, w.rooms[r].messages;
          InboxOfLongerLog(i, inbox, log, m);
          NewestQueued(i, inbox, log, r, w.pending, Pending(room, m, w.rooms[room].members));
        }
      }
    }
  }

  lemma NumberedNext(r: ServerRoom)
    requires OrderlyLog(r)
    ensures r.nextLogIndex == |r.messages|
  {
  }

  // ---- delivery ----

  /** The queued messages client `i` is due in a room, in queue order. */
  function Due(i: nat, room: Byte, pending: seq<Pending>): seq<Message> {
    if pending == [] then []
    else
      var last := pending[|pending| - 1];
      Due(i, room, pending[..|pending| - 1])
      + (if last.room == room && i in last.recipients && i != last.message.sender then [last.message] else [])
  }

  /** Delivery appends what is due to the inbox of a client that is not partitioned, and touches
      nothing else. */
  lemma {:induction false} DeliveryAppendsDue(c: Client, i: nat, pending: seq<Pending>, room: Byte)
    ensures var c' := DeliveredAll(c, i, pending);
            && c'.partitioned == c.partitioned && c'.disconnected == c.disconnected && c'.rooms.Keys == c.rooms.Keys
            && (room in c.rooms ==>
                  c'.rooms[room] == if c.partitioned then c.rooms[room]
                                    else c.rooms[room].(messages := c.rooms[room].messages + Due(i, room, pending)))
    decreases |pending|
  {
    if pending == [] {
      assert room in c.rooms ==> c.rooms[room].messages + [] == c.rooms[room].messages;
    } else {
      DeliveryAppendsDue(c, i, pending[..|pending| - 1], room);
    }
  }

  lemma {:induction false} DueKeepsOrder(i: nat, inbox: seq<Message>, room: Byte, rooms: map<Byte, ServerRoom>, pending: seq<Pending>, n: nat)
    requires room in rooms && OrderlyInbox(i, inbox, rooms[room].messages)
    requires OrderlyQueue(pending, rooms) && Newer(i, inbox, room, pending) && n <= |pending|
    ensures OrderlyInbox(i, inbox + Due(i, room, pending[..n]), rooms[room].messages)
    ensures Newer(i, inbox + Due(i, room, pending[..n]), room, pending[n..])
    decreases n
  {
    if n == 0 {
      assert inbox + [] == inbox && pending[0..] == pending;
    } else {
      DueKeepsOrder(i, inbox, room, rooms, pending, n - 1);
      assert pending[..n][..n - 1] == pending[..n - 1];
      var before := inbox + Due(i, room, pending[..n - 1]);
      var p := pending[n - 1];
      OneMoreDue(i, before, room, rooms, pending, n - 1);
      assert inbox + Due(i, room, pending[..n])
          == if p.room == room && i in p.recipients && i != p.message.sender then before + [p.message] else before;
    }
  }

  lemma OneMoreDue(i: nat, inbox: seq<Message>, room: Byte, rooms: map<Byte, ServerRoom>, pending: seq<Pending>, n: nat)
    requires room in rooms && OrderlyInbox(i, inbox, rooms[room].messages) && n < |pending|
    requires OrderlyQueue(pending, rooms) && Newer(i, inbox, room, pending[n..])
    ensures Newer(i, inbox, room, pending[n + 1..])
    ensures pending[n].room == room && pending[n].message.sender != i ==>
              && OrderlyInbox(i, inbox + [pending[n].message], rooms[room].messages)
              && Newer(i, inbox + [pending[n].message], room, pending[n + 1..])
  {
    assert pending[n..][0] == pending[n];
    assert pending[n + 1..] == pending[n..][1..];
  }

  lemma DeliverInv(w: World)
    requires Inv(w)
    ensures Inv(OnDeliver(w))
  {
    hide OrderlyLog, OrderlyInbox, Newer, LoggedAs, DeliveredAll, Due;
    var w' := OnDeliver(w);
    NothingQueued(w.rooms);
    forall i: nat, r: Byte ensures Matches(i, ClientSide(w', i, r), ServerSide(w', r), r, w'.pending) {
      assert Matches(i, ClientSide(w, i, r), ServerSide(w, r), r, w.pending);
      if i < |w.clients| {
        DeliveryAppendsDue(w.clients[i], i, w.pending, r);
        if r in w.clients[i].rooms {
          var inbox := w.clients[i].rooms[r].messages;
          DueKeepsOrder(i, inbox, r, w.rooms, w.pending, |w.pending|);
          assert w.pending[..|w.pending|] == w.pending && w.pending[|w.pending|..] == [];
          NewerThanNothing(i, inbox, r);
        }
      }
    }
  }

  lemma NothingQueued(rooms: map<Byte, ServerRoom>)
    ensures OrderlyQueue([], rooms)
  {
  }

  lemma NewerThanNothing(i: nat, inbox: seq<Message>, room: Byte)
    ensures Newer(i, inbox, room, [])
  {
  }

  // ---- runs ----

  lemma ApplyInv(w: World, op: Operation)
    requires Inv(w)
    ensures Inv(Apply(w, op).0)
  {
    hide Departed, Entered, OnCreate, OnSend, OnPartition, OnDisconnect, OnDeliver, OrderlyQueue, LogsOrderly;
    match op
    case CreateRoom(id, room) => CreateInv(w, id, room);
    case SendMessage(id, room, content) => SendInv(w, id, room, content);
    case LeaveRoom(id, room) => if id < |w.clients| { DepartInv(w, id, room); }
    case AddMember(inviter, invitee, room) =>
      assert Matches(inviter, ClientSide(w, inviter, room), ServerSide(w, room), room, w.pending);
      if OnAdd(w, inviter, invitee, room).1.Ok? { EnterInv(w, invitee, room); }
    case ExternalJoin(id, room) => if OnExternalJoin(w, id, room).1.Ok? { EnterInv(w, id, room); }
    case RemoveMember(_, target, room) => if target < |w.clients| { DepartInv(w, target, room); }
    case AdvanceTime =>
    case DeliverPending => DeliverInv(w);
    case Partition(id) => PartitionInv(w, id, true);
    case HealPartition(id) => PartitionInv(w, id, false);
    case Disconnect(id) => DisconnectInv(w, id);
  }

  lemma {:induction false} RunInv(w: World, ops: seq<Operation>)
    requires Inv(w)
    ensures Inv(Run(w, ops))
    decreases |ops|
  {
    hide Inv, Apply;
    if ops != [] {
      ApplyInv(w, ops[0]);
      RunInv(Apply(w, ops[0]).0, ops[1..]);
    }
  }

  /** Any world a run can reach, any client, any room. */
  lemma EveryReachableWorld(n: nat, ops: seq<Operation>, i: nat, room: Byte)
    ensures var w := Run(NewWorld(n), ops);
            var mine, theirs := ClientSide(w, i, room), ServerSide(w, room);
            && (mine.Some? <==> theirs.Some? && i in theirs.value.members)
            && (theirs.Some? ==> OrderlyLog(theirs.value))
            && (mine.Some? ==>
                  var inbox, log := mine.value.messages, theirs.value.messages;
                  && mine.value.epoch == theirs.value.epoch
                  && (forall k | 0 <= k < |inbox| :: LoggedAs(inbox[k], log))
                  && (forall j, k | 0 <= j < k < |inbox| :: inbox[j].logIndex != inbox[k].logIndex)
                  && (forall j, k | 0 <= j < k < |inbox| && inbox[j].sender != i && inbox[k].sender != i ::
                        inbox[j].logIndex < inbox[k].logIndex))
  {
    NewWorldInv(n);
    RunInv(NewWorld(n), ops);
    var w := Run(NewWorld(n), ops);
    assert Matches(i, ClientSide(w, i, room), ServerSide(w, room), room, w.pending);
    if ClientSide(w, i, room).Some? {
      NoDuplicates(i, ClientSide(w, i, room).value.messages, w.rooms[room].messages);
    }
  }

  lemma NoDuplicates(i: nat, inbox: seq<Message>, log: seq<Message>)
    requires OrderlyInbox(i, inbox, log)
    ensures forall j, k | 0 <= j < k < |inbox| :: inbox[j].logIndex != inbox[k].logIndex
  {
    forall j, k | 0 <= j < k < |inbox| ensures inbox[j].logIndex != inbox[k].logIndex {
      assert LoggedAs(inbox[j], log) && LoggedAs(inbox[k], log);
    }
  }

  /** Rooms are never dropped, their logs only grow at the end, their epochs never go back. */
  lemma {:induction false} LogsOnlyGrow(w: World, ops: seq<Operation>, room: Byte)
    requires room in w.rooms
    ensures var w' := Run(w, ops);
            room in w'.rooms && w.rooms[room].messages <= w'.rooms[room].messages && w.rooms[room].epoch <= w'.rooms[room].epoch
    decreases |ops|
  {
    hide Apply;
    if ops != [] {
      LogGrows(w, ops[0], room);
      LogsOnlyGrow(Apply(w, ops[0]).0, ops[1..], room);
    }
  }

  lemma LogGrows(w: World, op: Operation, room: Byte)
    requires room in w.rooms
    ensures var w' := Apply(w, op).0;
            room in w'.rooms && w.rooms[room].messages <= w'.rooms[room].messages && w.rooms[room].epoch <= w'.rooms[room].epoch
  {
    hide Table, BumpAll, DeliveredAll, Receiving;
  }

  // ---- inboxes, step by step ----

  /** What an operation puts into a member's inbox. */
  function Gains(w: World, op: Operation, i: nat, room: Byte): seq<Message>
    requires i < |w.clients|
  {
    if op.DeliverPending? && !w.clients[i].partitioned then Due(i, room, w.pending)
    else if op.SendMessage? && op.id == i && op.room == room && OnSend(w, op.id, room, op.content).1.Ok?
    then [NextMessage(w.rooms[room], op.id, op.content)]
    else []
  }

  ghost predicate StillIn(w: World, op: Operation, i: nat, room: Byte) {
    ClientSide(w, i, room).Some? && ClientSide(Apply(w, op).0, i, room).Some?
  }

  lemma InboxStep(w: World, op: Operation, i: nat, room: Byte)
    requires StillIn(w, op, i, room)
    ensures ClientSide(Apply(w, op).0, i, room).value.messages == ClientSide(w, i, room).value.messages + Gains(w, op, i, room)
  {
    if op.DeliverPending? {
      hide Due, DeliveredAll;
      DeliveryAppendsDue(w.clients[i], i, w.pending, room);
    } else if op.SendMessage? {
      hide Due;
    } else {
      hide Due;
      SideInbox(w, op, i, room);
    }
  }

  lemma SideInbox(w: World, op: Operation, i: nat, room: Byte)
    requires StillIn(w, op, i, room) && !op.DeliverPending? && !op.SendMessage?
    ensures ClientSide(Apply(w, op).0, i, room).value.messages == ClientSide(w, i, room).value.messages
  {
    hide Table;
  }

  // ---- nothing is missed ----

  /** Log entries from position `n` on are in the inbox or due. */
  predicate UpToDate(w: World, i: nat, room: Byte, n: nat) {
    && ClientSide(w, i, room).Some? && room in w.rooms
    && forall k | n <= k < |w.rooms[room].messages| ::
         w.rooms[room].messages[k] in ClientSide(w, i, room).value.messages + Due(i, room, w.pending)
  }

  /** The client stays in the room and is reachable whenever deliveries are made. */
  ghost predicate StaysReachable(w: World, ops: seq<Operation>, i: nat, room: Byte)
    decreases |ops|
  {
    && ClientSide(w, i, room).Some?
    && (ops != [] ==>
          && (ops[0].DeliverPending? ==> !w.clients[i].partitioned)
          && StaysReachable(Apply(w, ops[0]).0, ops[1..], i, room))
  }

  lemma DueGrows(i: nat, room: Byte, pending: seq<Pending>, p: Pending)
    ensures Due(i, room, pending + [p])
         == Due(i, room, pending) + (if p.room == room && i in p.recipients && i != p.message.sender then [p.message] else [])
  {
    assert (pending + [p])[..|pending|] == pending;
  }

  lemma SideOperation(w: World, op: Operation, room: Byte)
    requires !op.SendMessage? && !op.DeliverPending? && room in w.rooms
    ensures var w' := Apply(w, op).0;
            w'.pending == w.pending && room in w'.rooms && w'.rooms[room].messages == w.rooms[room].messages
  {
    hide Table;
  }

  lemma SendStaysUpToDate(w: World, op: Operation, i: nat, room: Byte, n: nat)
    requires Inv(w) && op.SendMessage? && StillIn(w, op, i, room) && UpToDate(w, i, room, n)
    ensures UpToDate(Apply(w, op).0, i, room, n)
  {
    hide Inv, Due;
    InboxStep(w, op, i, room);
    var (w', r) := OnSend(w, op.id, op.room, op.content);
    if r.Ok? {
      var m := NextMessage(w.rooms[op.room], op.id, op.content);
      DueGrows(i, room, w.pending, Pending(op.room, m, w.rooms[op.room].members));
      MemberListed(w, i, room);
    } else {
      assert w' == w;
    }
  }

  lemma MemberListed(w: World, i: nat, room: Byte)
    requires Inv(w) && ClientSide(w, i, room).Some?
    ensures room in w.rooms && i in w.rooms[room].members
  {
    assert Matches(i, ClientSide(w, i, room), ServerSide(w, room), room, w.pending);
  }

  lemma StepStaysUpToDate(w: World, op: Operation, i: nat, room: Byte, n: nat)
    requires Inv(w) && StillIn(w, op, i, room) && UpToDate(w, i, room, n)
    requires op.DeliverPending? ==> !w.clients[i].partitioned
    ensures UpToDate(Apply(w, op).0, i, room, n)
  {
    if op.SendMessage? {
      SendStaysUpToDate(w, op, i, room, n);
    } else if op.DeliverPending? {
      hide Inv, DeliveredAll;
      InboxStep(w, op, i, room);
    } else {
      hide Inv, Due, Apply;
      InboxStep(w, op, i, room);
      SideOperation(w, op, room);
    }
  }

  lemma {:induction false} RunStaysUpToDate(w: World, ops: seq<Operation>, i: nat, room: Byte, n: nat)
    requires Inv(w) && StaysReachable(w, ops, i, room) && UpToDate(w, i, room, n)
    ensures UpToDate(Run(w, ops), i, room, n)
    decreases |ops|
  {
    hide Inv, Apply, UpToDate, ClientSide;
    if ops != [] {
      StepStaysUpToDate(w, ops[0], i, room, n);
      ApplyInv(w, ops[0]);
      RunStaysUpToDate(Apply(w, ops[0]).0, ops[1..], i, room, n);
    }
  }

  lemma {:induction false} DeliveryEmptiesQueue(w: World, ops: seq<Operation>)
    requires ops != [] && ops[|ops| - 1].DeliverPending?
    ensures Run(w, ops).pending == []
    decreases |ops|
  {
    if |ops| == 1 {
      assert ops[1..] == [] && Run(Apply(w, ops[0]).0, []) == OnDeliver(w);
    } else {
      DeliveryEmptiesQueue(Apply(w, ops[0]).0, ops[1..]);
    }
  }

  /** A client that stays in a room and is reachable at every delivery has, after the last one,
      every message the room's log has gained. */
  lemma MissesNothing(w: World, ops: seq<Operation>, i: nat, room: Byte)
    requires Inv(w) && StaysReachable(w, ops, i, room) && ops != [] && ops[|ops| - 1].DeliverPending?
    ensures var w' := Run(w, ops);
            && ClientSide(w', i, room).Some? && room in w.rooms && room in w'.rooms
            && forall k | |w.rooms[room].messages| <= k < |w'.rooms[room].messages| ::
                 w'.rooms[room].messages[k] in ClientSide(w', i, room).value.messages
  {
    hide Inv, Apply, Run;
    MemberListed(w, i, room);
    RunStaysUpToDate(w, ops, i, room, |w.rooms[room].messages|);
    DeliveryEmptiesQueue(w, ops);
  }

  // ---- when an inbox is sorted ----

  predicate Sorted(inbox: seq<Message>) {
    forall j, k | 0 <= j < k < |inbox| :: inbox[j].logIndex < inbox[k].logIndex
  }

  /** Nothing due is older than the newest entry of the inbox. */
  predicate NotOvertaken(inbox: seq<Message>, due: seq<Message>) {
    inbox != [] && due != [] ==> inbox[|inbox| - 1].logIndex < due[0].logIndex
  }

  lemma {:induction false} DueSorted(i: nat, room: Byte, rooms: map<Byte, ServerRoom>, pending: seq<Pending>, n: nat)
    requires OrderlyQueue(pending, rooms) && n <= |pending|
    ensures Sorted(Due(i, room, pending[..n]))
    ensures forall k, q | 0 <= k < |Due(i, room, pending[..n])| && n <= q < |pending| && pending[q].room == room ::
              Due(i, room, pending[..n])[k].logIndex < pending[q].message.logIndex
    decreases n
  {
    if n > 0 {
      DueSorted(i, room, rooms, pending, n - 1);
      assert pending[..n][..n - 1] == pending[..n - 1];
    }
  }

  lemma SortedConcat(inbox: seq<Message>, more: seq<Message>)
    requires Sorted(inbox) && Sorted(more)
    ensures Sorted(inbox + more) <==> NotOvertaken(inbox, more)
  {
    var all := inbox + more;
    if inbox != [] && more != [] {
      assert all[|inbox| - 1] == inbox[|inbox| - 1] && all[|inbox|] == more[0];
    }
  }

  /** An inbox in log order stays so, whatever the operation, except exactly when a delivery
      brings something a message of the client's own has overtaken. */
  lemma StaysSortedIff(w: World, op: Operation, i: nat, room: Byte)
    requires Inv(w) && StillIn(w, op, i, room) && Sorted(ClientSide(w, i, room).value.messages)
    ensures Sorted(ClientSide(Apply(w, op).0, i, room).value.messages)
       <==> (op.DeliverPending? && !w.clients[i].partitioned ==>
               NotOvertaken(ClientSide(w, i, room).value.messages, Due(i, room, w.pending)))
  {
    hide Apply, Due;
    InboxStep(w, op, i, room);
    DueSorted(i, room, w.rooms, w.pending, |w.pending|);
    assert w.pending[..|w.pending|] == w.pending;
    var inbox := ClientSide(w, i, room).value.messages;
    SortedConcat(inbox, Gains(w, op, i, room));
    assert Matches(i, ClientSide(w, i, room), ServerSide(w, room), room, w.pending);
    assert inbox != [] ==> LoggedAs(inbox[|inbox| - 1], w.rooms[room].messages);
  }

  ghost predicate StaysIn(w: World, ops: seq<Operation>, i: nat, room: Byte)
    decreases |ops|
  {
    ClientSide(w, i, room).Some? && (ops != [] ==> StaysIn(Apply(w, ops[0]).0, ops[1..], i, room))
  }

  /** An operation that is not a delivery overtaken by a message of the client's own. */
  predicate InTime(w: World, op: Operation, i: nat, room: Byte)
    requires ClientSide(w, i, room).Some?
  {
    op.DeliverPending? && !w.clients[i].partitioned ==>
      NotOvertaken(ClientSide(w, i, room).value.messages, Due(i, room, w.pending))
  }

  ghost predicate AllInTime(w: World, ops: seq<Operation>, i: nat, room: Byte)
    requires StaysIn(w, ops, i, room)
    decreases |ops|
  {
    ops == [] || (InTime(w, ops[0], i, room) && AllInTime(Apply(w, ops[0]).0, ops[1..], i, room))
  }

  /** While a client stays in a room its inbox is only ever appended to. */
  lemma {:induction false} InboxOnlyGrows(w: World, ops: seq<Operation>, i: nat, room: Byte)
    requires StaysIn(w, ops, i, room)
    ensures ClientSide(Run(w, ops), i, room).Some?
    ensures ClientSide(w, i, room).value.messages <= ClientSide(Run(w, ops), i, room).value.messages
    decreases |ops|
  {
    hide Apply, ClientSide, Gains;
    if ops != [] {
      InboxStep(w, ops[0], i, room);
      InboxOnlyGrows(Apply(w, ops[0]).0, ops[1..], i, room);
    }
  }

  /** Over any run of a client that stays in a room: an inbox in log order is in log order at the
      end if and only if no delivery made while the client was reachable was overtaken. */
  lemma {:induction false} SortedOverRunsIff(w: World, ops: seq<Operation>, i: nat, room: Byte)
    requires Inv(w) && StaysIn(w, ops, i, room) && Sorted(ClientSide(w, i, room).value.messages)
    ensures ClientSide(Run(w, ops), i, room).Some?
    ensures Sorted(ClientSide(Run(w, ops), i, room).value.messages) <==> AllInTime(w, ops, i, room)
    decreases |ops|
  {
    hide Inv, Apply, ClientSide, NotOvertaken, Due;
    if ops != [] {
      var w' := Apply(w, ops[0]).0;
      StaysSortedIff(w, ops[0], i, room);
      ApplyInv(w, ops[0]);
      InboxOnlyGrows(w', ops[1..], i, room);
      if InTime(w, ops[0], i, room) {
        SortedOverRunsIff(w', ops[1..], i, room);
      } else {
        PrefixSorted(ClientSide(w', i, room).value.messages, ClientSide(Run(w, ops), i, room).value.messages);
      }
    }
  }

  lemma PrefixSorted(inbox: seq<Message>, longer: seq<Message>)
    requires inbox <= longer
    ensures Sorted(longer) ==> Sorted(inbox)
  {
    assert forall k | 0 <= k < |inbox| :: inbox[k] == longer[k];
  }

  lemma NewInboxEmpty(w: World, op: Operation, i: nat, room: Byte)
    requires ClientSide(w, i, room).None? && ClientSide(Apply(w, op).0, i, room).Some?
    ensures ClientSide(Apply(w, op).0, i, room).value.messages == []
  {
    hide Table;
    if op.DeliverPending? {
      hide DeliveredAll;
      if i < |w.clients| {
        DeliveryAppendsDue(w.clients[i], i, w.pending, room);
      }
    }
  }

  /** Any inbox of any reachable world: from the operation that put the client into the room, the
      inbox is in log order if and only if no delivery since was overtaken. */
  lemma EveryInboxSortedIff(n: nat, past: seq<Operation>, entry: Operation, ops: seq<Operation>, i: nat, room: Byte)
    requires ClientSide(Run(NewWorld(n), past), i, room).None?
    requires StaysIn(Apply(Run(NewWorld(n), past), entry).0, ops, i, room)
    ensures var w := Apply(Run(NewWorld(n), past), entry).0;
            && ClientSide(Run(w, ops), i, room).Some?
            && (Sorted(ClientSide(Run(w, ops), i, room).value.messages) <==> AllInTime(w, ops, i, room))
  {
    hide Inv, Apply, Run, ClientSide, AllInTime;
    var before := Run(NewWorld(n), past);
    NewWorldInv(n);
    RunInv(NewWorld(n), past);
    ApplyInv(before, entry);
    NewInboxEmpty(before, entry, i, room);
    SortedOverRunsIff(Apply(before, entry).0, ops, i, room);
  }

  /** Whenever two reachable members write before anything is delivered, the later writer ends
      up with its own message before the older one. */
  lemma LaterWriterSeesOwnFirst(w: World, a: Byte, b: Byte, room: Byte, x: seq<Byte>, y: seq<Byte>)
    requires Inv(w) && w.pending == [] && a != b
    requires ClientSide(w, a, room).Some? && !w.clients[a].partitioned
    requires ClientSide(w, b, room).Some? && !w.clients[b].partitioned
    ensures var w' := OnDeliver(Apply(Apply(w, SendMessage(a, room, x)).0, SendMessage(b, room, y)).0);
            var n, inbox, inbox' := |w.rooms[room].messages|, ClientSide(w, b, room).value.messages, ClientSide(w', b, room);
            && inbox'.Some? && |inbox'.value.messages| == |inbox| + 2
            && inbox'.value.messages[|inbox|].logIndex == n + 1 && inbox'.value.messages[|inbox| + 1].logIndex == n
            && !Sorted(inbox'.value.messages)
  {
    hide Inv, Due, DeliveredAll;
    MemberListed(w, a, room);
    MemberListed(w, b, room);
    RoomNumbered(w, room);
    var r := w.rooms[room];
    var m := NextMessage(r, a, x);
    var w1 := Apply(w, SendMessage(a, room, x)).0;
    var own := NextMessage(Appended(r, m), b, y);
    var w2 := Apply(w1, SendMessage(b, room, y)).0;
    var p, q := Pending(room, m, r.members), Pending(room, own, r.members);
    assert w2.pending == [p] + [q];
    assert ClientSide(w2, b, room).value.messages == ClientSide(w, b, room).value.messages + [own];
    DueOfTwo(b, room, p, q);
    DeliveryAppendsDue(w2.clients[b], b, w2.pending, room);
  }

  lemma RoomNumbered(w: World, room: Byte)
    requires Inv(w) && room in w.rooms
    ensures w.rooms[room].nextLogIndex == |w.rooms[room].messages|
  {
    assert OrderlyLog(w.rooms[room]);
  }

  lemma DueOfTwo(i: nat, room: Byte, p: Pending, q: Pending)
    requires p.room == room && i in p.recipients && i != p.message.sender && i == q.message.sender
    ensures Due(i, room, [p] + [q]) == [p.message]
  {
    DueGrows(i, room, [], p);
    DueGrows(i, room, [p], q);
    assert [] + [p] == [p];
  }

  /** A world where that happens, from the start. */
  lemma InboxCanBeOutOfOrder()
    ensures var w := Run(NewWorld(2), [CreateRoom(0, 7), AddMember(0, 1, 7), SendMessage(0, 7, [1]), SendMessage(1, 7, [2]), DeliverPending]);
            ClientSide(w, 1, 7).Some? && !Sorted(ClientSide(w, 1, 7).value.messages)
  {
    var w1 := Apply(NewWorld(2), CreateRoom(0, 7)).0;
    var w2 := Apply(w1, AddMember(0, 1, 7)).0;
    assert ReadyForTwo(w2) by {
      RoomOfTwo();
    }
    RunFive(NewWorld(2), CreateRoom(0, 7), AddMember(0, 1, 7), SendMessage(0, 7, [1]), SendMessage(1, 7, [2]), DeliverPending);
    hide Apply, NewWorld, Inv, Sorted, Run;
    TwoWrite(w2);
  }

  ghost predicate ReadyForTwo(w: World) {
    && Inv(w) && w.pending == [] && ClientSide(w, 0, 7).Some? && ClientSide(w, 1, 7).Some?
    && !w.clients[0].partitioned && !w.clients[1].partitioned
  }

  lemma TwoWrite(w: World)
    requires ReadyForTwo(w)
    ensures var w' := Apply(Apply(Apply(w, SendMessage(0, 7, [1])).0, SendMessage(1, 7, [2])).0, DeliverPending).0;
            ClientSide(w', 1, 7).Some? && !Sorted(ClientSide(w', 1, 7).value.messages)
  {
    hide Inv, Sorted;
    LaterWriterSeesOwnFirst(w, 0, 1, 7, [1], [2]);
  }

  lemma RoomOfTwo()
    ensures ReadyForTwo(Apply(Apply(NewWorld(2), CreateRoom(0, 7)).0, AddMember(0, 1, 7)).0)
  {
    hide Inv, Table;
    var w0 := NewWorld(2);
    var w1 := Apply(w0, CreateRoom(0, 7)).0;
    NewWorldInv(2);
    ApplyInv(w0, CreateRoom(0, 7));
    ApplyInv(w1, AddMember(0, 1, 7));
    assert w0.clients[0] == w0.clients[1] == NEW_CLIENT;
    assert ClientSide(w1, 0, 7).Some? && ClientSide(w1, 1, 7).None?;
  }

  lemma RunFive(w: World, a: Operation, b: Operation, c: Operation, d: Operation, e: Operation)
    ensures Run(w, [a, b, c, d, e]) == Apply(Apply(Apply(Apply(Apply(w, a).0, b).0, c).0, d).0, e).0
  {
    hide Apply;
    RunFirst(w, a, [b, c, d, e]);
    RunFirst(Apply(w, a).0, b, [c, d, e]);
    RunFirst(Apply(Apply(w, a).0, b).0, c, [d, e]);
    RunFirst(Apply(Apply(Apply(w, a).0, b).0, c).0, d, [e]);
    RunFirst(Apply(Apply(Apply(Apply(w, a).0, b).0, c).0, d).0, e, []);
    assert [a] + [b, c, d, e] == [a, b, c, d, e] && [b] + [c, d, e] == [b, c, d, e] && [c] + [d, e] == [c, d, e]
        && [d] + [e] == [d, e] && [e] + [] == [e];
  }

  lemma RunFirst(w: World, op: Operation, ops: seq<Operation>)
    ensures Run(w, [op] + ops) == Run(Apply(w, op).0, ops)
  {
    assert ([op] + ops)[1..] == ops;
  }
}
