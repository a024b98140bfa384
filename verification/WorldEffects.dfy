/** What each operation of the reference protocol brings about, told from the outside: which are
    refused, who is a member afterwards, what the epochs are, and what the logs then hold. */
module WorldEffects {
  import opened BigEndian
  import opened Results
  import opened Tables
  import opened ModelWorld
  import opened WorldRuns

  predicate Known(w: World, i: nat) { i < |w.clients| }

  predicate Member(w: World, i: nat, room: Byte) { ClientSide(w, i, room).Some? }

  // ---- which operations are refused ----

  predicate Allowed(w: World, op: Operation) {
    match op
    case CreateRoom(id, room) => Known(w, id) && !w.clients[id].disconnected && room !in w.rooms
    case SendMessage(id, room, _) => Known(w, id) && !w.clients[id].partitioned && Member(w, id, room)
    case LeaveRoom(id, room) => Member(w, id, room)
    case AddMember(inviter, invitee, room) => Known(w, invitee) && Member(w, inviter, room) && !Member(w, invitee, room)
    case ExternalJoin(id, room) => Known(w, id) && room in w.rooms && !Member(w, id, room)
    case RemoveMember(remover, target, room) => remover != target && Member(w, remover, room) && Member(w, target, room)
    case Partition(id) => Known(w, id) && !w.clients[id].disconnected
    case HealPartition(id) => Known(w, id) && !w.clients[id].disconnected
    case Disconnect(id) => Known(w, id) && !w.clients[id].disconnected
    case AdvanceTime => true
    case DeliverPending => true
  }

  /** An operation succeeds if and only if it is allowed, and a refused one changes nothing. */
  lemma AllowedIff(w: World, op: Operation)
    requires Inv(w)
    ensures Apply(w, op).1.Ok? <==> Allowed(w, op)
    ensures Apply(w, op).1.Err? ==> Apply(w, op).0 == w
  {
    hide Inv, Departed, Entered, OnDeliver;
    match op
    case CreateRoom(id, room) =>
      if ClientSide(w, id, room).Some? {
        MemberListed(w, id, room);
      }
    case SendMessage(id, room, _) =>
      if ClientSide(w, id, room).Some? {
        MemberListed(w, id, room);
      }
    case _ =>
  }

  /** The clients an operation names. */
  function Named(op: Operation): set<Byte> {
    match op
    case AddMember(inviter, invitee, _) => {inviter, invitee}
    case RemoveMember(remover, target, _) => {remover, target}
    case AdvanceTime => {}
    case DeliverPending => {}
    case _ => {op.id}
  }

  /** Why an operation is refused: the first that holds of an unknown client, a client that is
      cut off, a request that makes no sense, and a missing membership. */
  lemma RefusalReasons(w: World, op: Operation)
    requires Inv(w) && !Allowed(w, op)
    ensures var known := forall i | i in Named(op) :: Known(w, i);
            Apply(w, op).1
            == if !known then Err(InvalidClient)
               else if op.SendMessage? && w.clients[op.id].partitioned then Err(IsPartitioned)
               else if (op.CreateRoom? || op.Partition? || op.HealPartition? || op.Disconnect?) && w.clients[op.id].disconnected
                 then Err(IsDisconnected)
               else if op.CreateRoom? then Err(RoomAlreadyExists)
               else if op.RemoveMember? && op.remover == op.target then Err(CannotRemoveSelf)
               else if op.ExternalJoin? then (if Member(w, op.id, op.room) then Err(AlreadyMember) else Err(NoGroupInfo))
               else if op.AddMember? && Member(w, op.inviter, op.room) then Err(AlreadyMember)
               else Err(NotMember)
  {
    hide Inv, Departed, Entered, OnDeliver;
    if op.AddMember? {
      assert op.inviter in Named(op) && op.invitee in Named(op);
    } else if op.RemoveMember? {
      assert op.remover in Named(op) && op.target in Named(op);
    } else if !op.AdvanceTime? && !op.DeliverPending? {
      assert op.id in Named(op);
    }
    if op.SendMessage? && ClientSide(w, op.id, op.room).Some? {
      MemberListed(w, op.id, op.room);
    }
    if op.CreateRoom? && ClientSide(w, op.id, op.room).Some? {
      MemberListed(w, op.id, op.room);
    }
  }

  // ---- membership ----

  predicate Enters(w: World, op: Operation, i: nat, room: Byte) {
    && Allowed(w, op)
    && match op
       case CreateRoom(id, r) => id == i && r == room
       case AddMember(_, invitee, r) => invitee == i && r == room
       case ExternalJoin(id, r) => id == i && r == room
       case _ => false
  }

  predicate Departs(w: World, op: Operation, i: nat, room: Byte) {
    && Allowed(w, op)
    && match op
       case LeaveRoom(id, r) => id == i && r == room
       case RemoveMember(_, target, r) => target == i && r == room
       case Disconnect(id) => id == i
       case _ => false
  }

  predicate SameFlags(c: Client, d: Client) { c.partitioned == d.partitioned && c.disconnected == d.disconnected }

  lemma DepartedView(w: World, id: Byte, room: Byte, i: nat, r: Byte)
    requires Known(w, id)
    ensures var w' := Departed(w, id, room);
            && |w'.clients| == |w.clients| && (Known(w, i) ==> SameFlags(w'.clients[i], w.clients[i]))
            && (Member(w', i, r) <==> Member(w, i, r) && !(i == id && r == room))
  {
    hide Table;
  }

  lemma EnteredView(w: World, id: Byte, room: Byte, i: nat, r: Byte)
    requires Known(w, id) && !Member(w, id, room)
    ensures var w' := Entered(w, id, room);
            && |w'.clients| == |w.clients| && (Known(w, i) ==> SameFlags(w'.clients[i], w.clients[i]))
            && (Member(w', i, r) <==> Member(w, i, r) || (i == id && r == room))
  {
    hide Table;
  }

  lemma DisconnectedView(w: World, id: Byte, i: nat, r: Byte)
    requires Known(w, id) && !w.clients[id].disconnected
    ensures var w' := OnDisconnect(w, id).0;
            && |w'.clients| == |w.clients|
            && (Known(w, i) && i != id ==> SameFlags(w'.clients[i], w.clients[i]))
            && w'.clients[id].partitioned && w'.clients[id].disconnected
            && (Member(w', i, r) <==> Member(w, i, r) && i != id)
  {
    hide Table;
  }

  lemma DeliveredView(w: World, i: nat, r: Byte)
    ensures var w' := OnDeliver(w);
            && |w'.clients| == |w.clients| && (Known(w, i) ==> SameFlags(w'.clients[i], w.clients[i]))
            && (Member(w', i, r) <==> Member(w, i, r))
  {
    hide DeliveredAll;
    if Known(w, i) {
      DeliveryAppendsDue(w.clients[i], i, w.pending, r);
    }
  }

  /** After an operation a client is in a room if and only if it was there and does not depart,
      or it enters. */
  lemma MemberAfterIff(w: World, op: Operation, i: nat, room: Byte)
    requires Inv(w)
    ensures Member(Apply(w, op).0, i, room) <==> (Member(w, i, room) && !Departs(w, op, i, room)) || Enters(w, op, i, room)
  {
    AllowedIff(w, op);
    hide Inv, Departed, Entered, OnDisconnect, OnDeliver;
    if Allowed(w, op) {
      match op
      case LeaveRoom(id, r) => DepartedView(w, id, r, i, room);
      case RemoveMember(_, target, r) => DepartedView(w, target, r, i, room);
      case AddMember(_, invitee, r) => EnteredView(w, invitee, r, i, room);
      case ExternalJoin(id, r) => EnteredView(w, id, r, i, room);
      case Disconnect(id) => DisconnectedView(w, id, i, room);
      case DeliverPending => DeliveredView(w, i, room);
      case _ =>
    }
  }

  // ---- epochs ----

  /** The membership changes that end a room's epoch: every entry into an existing room, every
      leave and removal, and a disconnect that leaves somebody behind. */
  predicate EndsEpoch(w: World, op: Operation, room: Byte) {
    && Allowed(w, op) && room in w.rooms
    && match op
       case LeaveRoom(_, r) => r == room
       case RemoveMember(_, _, r) => r == room
       case AddMember(_, _, r) => r == room
       case ExternalJoin(_, r) => r == room
       case Disconnect(id) => Member(w, id, room) && w.rooms[room].members - {id} != {}
       case _ => false
  }

  lemma EpochAfter(w: World, op: Operation, room: Byte)
    requires Inv(w) && room in w.rooms
    ensures var w' := Apply(w, op).0;
            room in w'.rooms && w'.rooms[room].epoch == w.rooms[room].epoch + if EndsEpoch(w, op, room) then 1 else 0
  {
    AllowedIff(w, op);
    hide Inv, Table, BumpAll, DeliveredAll, Receiving;
  }

  /** A room exists afterwards if and only if it did or is created: by its creator, with nobody
      else in it, at epoch zero and empty. */
  lemma RoomAfterIff(w: World, op: Operation, room: Byte)
    requires Inv(w)
    ensures var w' := Apply(w, op).0;
            && (room in w'.rooms <==> room in w.rooms || (op.CreateRoom? && op.room == room && Allowed(w, op)))
            && (room !in w.rooms && room in w'.rooms ==>
                  && w'.rooms[room].creator == op.id && w'.rooms[room].members == {op.id}
                  && w'.rooms[room].epoch == 0 && w'.rooms[room].messages == [])
  {
    AllowedIff(w, op);
    hide Inv, Table, BumpAll, DeliveredAll, Receiving;
  }

  /** Partitions come and go as asked, a disconnect is a partition for good. */
  lemma FlagsAfter(w: World, op: Operation, i: nat)
    requires Known(w, i)
    ensures var w' := Apply(w, op).0;
            && |w'.clients| == |w.clients|
            && w'.clients[i].disconnected == (w.clients[i].disconnected || (op.Disconnect? && op.id == i))
            && w'.clients[i].partitioned
               == (if Allowed(w, op) && (op.Partition? || op.Disconnect?) && op.id == i then true
                   else if Allowed(w, op) && op.HealPartition? && op.id == i then false
                   else w.clients[i].partitioned)
  {
    hide Departed, Entered, OnDisconnect, OnDeliver, Allowed;
    if op.Partition? || op.HealPartition? || op.Disconnect? {
      RefusedSame(w, op);
    }
    match op
    case LeaveRoom(id, r) => if Known(w, id) { DepartedView(w, id, r, i, 0); }
    case RemoveMember(_, target, r) => if Known(w, target) { DepartedView(w, target, r, i, 0); }
    case AddMember(_, invitee, r) => if Known(w, invitee) && !Member(w, invitee, r) { EnteredView(w, invitee, r, i, 0); }
    case ExternalJoin(id, r) => if Known(w, id) && !Member(w, id, r) { EnteredView(w, id, r, i, 0); }
    case Disconnect(id) => if Known(w, id) && !w.clients[id].disconnected { DisconnectedView(w, id, i, 0); }
    case DeliverPending => DeliveredView(w, i, 0);
    case _ =>
  }

  lemma RefusedSame(w: World, op: Operation)
    requires op.Partition? || op.HealPartition? || op.Disconnect?
    ensures Apply(w, op).1.Ok? <==> Allowed(w, op)
    ensures Allowed(w, op) <==> Known(w, op.id) && !w.clients[op.id].disconnected
    ensures Apply(w, op).1.Err? ==> Apply(w, op).0 == w
  {
  }

  // ---- what the logs hold ----

  function LogOf(w: World, room: Byte): seq<Message> { if room in w.rooms then w.rooms[room].messages else [] }

  datatype Sending = Sending(sender: Byte, content: seq<Byte>, epoch: nat)

  predicate Writes(w: World, op: Operation, room: Byte) {
    op.SendMessage? && op.room == room && Allowed(w, op)
  }

  /** What reachable members send to a room over a run, each with the epoch the room is then at
      by the sender's own account. */
  ghost function Sendings(w: World, ops: seq<Operation>, room: Byte): seq<Sending>
    decreases |ops|
  {
    if ops == [] then []
    else (if Writes(w, ops[0], room)
          then [Sending(ops[0].id, ops[0].content, ClientSide(w, ops[0].id, room).value.epoch)] else [])
         + Sendings(Apply(w, ops[0]).0, ops[1..], room)
  }

  predicate Logged(m: Message, x: Sending, index: nat) {
    m.sender == x.sender && m.content == x.content && m.epoch == x.epoch && m.logIndex == index
  }

  lemma LogStep(w: World, op: Operation, room: Byte)
    requires Inv(w)
    ensures var log, log' := LogOf(w, room), LogOf(Apply(w, op).0, room);
            if Writes(w, op, room)
            then |log'| == |log| + 1 && log'[..|log|] == log
                 && Logged(log'[|log|], Sending(op.id, op.content, ClientSide(w, op.id, room).value.epoch), |log|)
            else log' == log
  {
    AllowedIff(w, op);
    if op.SendMessage? {
      if Allowed(w, op) {
        assert Matches(op.id, ClientSide(w, op.id, op.room), ServerSide(w, op.room), op.room, w.pending);
        RoomNumbered(w, op.room);
      }
    } else {
      hide Inv;
      RoomAfterIff(w, op, room);
      if room in w.rooms && !op.DeliverPending? {
        SideOperation(w, op, room);
      }
    }
  }

  /** Over every run, a room's log gains exactly what reachable members of the room send to it:
      sender, content and epoch, in order and numbered on. Nothing else adds a message. */
  lemma {:induction false} LogIsWhatWasSent(w: World, ops: seq<Operation>, room: Byte)
    requires Inv(w)
    ensures var log, log', sendings := LogOf(w, room), LogOf(Run(w, ops), room), Sendings(w, ops, room);
            && |log'| == |log| + |sendings| && log'[..|log|] == log
            && forall k | 0 <= k < |sendings| :: Logged(log'[|log| + k], sendings[k], |log| + k)
    decreases |ops|
  {
    hide Inv, Apply, Logged, LogOf, ClientSide, Writes;
    if ops != [] {
      var w', n := Apply(w, ops[0]).0, |LogOf(w, room)|;
      LogStep(w, ops[0], room);
      ApplyInv(w, ops[0]);
      LogIsWhatWasSent(w', ops[1..], room);
      var log' := LogOf(Run(w, ops), room);
      assert log'[..n] == LogOf(w', room)[..n];
      if Writes(w, ops[0], room) {
        assert log'[n] == log'[..n + 1][n] == LogOf(w', room)[n];
      }
    }
  }

  predicate Holds(inbox: seq<Message>, x: Sending) {
    exists k | 0 <= k < |inbox| :: inbox[k].sender == x.sender && inbox[k].content == x.content && inbox[k].epoch == x.epoch
  }

  /** A client that stays in a room and is reachable at every delivery has, after the last one,
      every content any reachable member sent to the room meanwhile. */
  lemma EveryContentArrives(w: World, ops: seq<Operation>, i: nat, room: Byte)
    requires Inv(w) && StaysReachable(w, ops, i, room) && ops != [] && ops[|ops| - 1].DeliverPending?
    ensures Member(Run(w, ops), i, room)
    ensures forall k | 0 <= k < |Sendings(w, ops, room)| ::
              Holds(ClientSide(Run(w, ops), i, room).value.messages, Sendings(w, ops, room)[k])
  {
    hide Inv, Run, Sendings, StaysReachable;
    MissesNothing(w, ops, i, room);
    LogIsWhatWasSent(w, ops, room);
    var inbox, n := ClientSide(Run(w, ops), i, room).value.messages, |LogOf(w, room)|;
    forall k | 0 <= k < |Sendings(w, ops, room)| ensures Holds(inbox, Sendings(w, ops, room)[k]) {
      var m := LogOf(Run(w, ops), room)[n + k];
      assert Logged(m, Sendings(w, ops, room)[k], n + k) && m in inbox;
    }
  }
}
