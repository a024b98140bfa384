/** The two directories the driver keeps for joining clients — key packages and group infos —
    over whole runs of the driver. */
module DriverDirectory {
  import opened BigEndian
  import opened Results
  import opened Wire
  import R = Rooms
  import C = Connection
  import G = Registry
  import K = KeyPackages
  import opened Driver

  // ---- who publishes and who fetches ----

  predicate Publishes(d: Server, e: Event) {
    && e.Received? && e.session in d.conns && OpcodeRaw(e.frame.header) == KEY_PACKAGE_PUBLISH && e.payload.PublishPayload?
    && e.session in d.registry.sessions && d.registry.sessions[e.session].userId.Some?
  }

  predicate Fetches(d: Server, e: Event) {
    e.Received? && e.session in d.conns && OpcodeRaw(e.frame.header) == KEY_PACKAGE_FETCH && e.payload.FetchPayload?
  }

  /** The registry operation an event amounts to: a publish counts for the user the session is
      authenticated as, whatever the frame says. */
  function PackageOps(d: Server, e: Event): seq<K.Op> {
    if Publishes(d, e) then [K.StoreOp(d.registry.sessions[e.session].userId.value, e.payload.package)]
    else if Fetches(d, e) then [K.TakeOp(e.payload.user)]
    else []
  }

  ghost function AllPackageOps(d: Server, es: seq<Event>): seq<K.Op>
    decreases |es|
  {
    if es == [] then [] else PackageOps(d, es[0]) + AllPackageOps(Step(d, es[0]).0, es[1..])
  }

  /** The packages an answer hands out, with the user they were asked for under. */
  function HandedIn(a: ServerAction): seq<(U64, K.Package)> {
    if a.SendToSession? && a.reply.KeyPackageFound? then [(a.reply.user, a.reply.package)] else []
  }

  function HandedBy(actions: seq<ServerAction>): seq<(U64, K.Package)> {
    if actions == [] then [] else HandedIn(actions[0]) + HandedBy(actions[1..])
  }

  function HandedTo(answer: Answer): seq<(U64, K.Package)> { if answer.Ok? then HandedBy(answer.value) else [] }

  function HandedOut(answers: seq<Answer>): seq<(U64, K.Package)> {
    if answers == [] then [] else HandedTo(answers[0]) + HandedOut(answers[1..])
  }

  function Unstamped(taken: seq<(U64, K.Entry)>): (r: seq<(U64, K.Package)>)
    ensures |r| == |taken| && forall i | 0 <= i < |r| :: r[i] == (taken[i].0, taken[i].1.package)
  {
    seq(|taken|, i requires 0 <= i < |taken| => (taken[i].0, taken[i].1.package))
  }

  // ---- answers that hand out nothing ----

  predicate Plain(actions: seq<ServerAction>) {
    forall i | 0 <= i < |actions| :: actions[i].SendToSession? ==> !actions[i].reply.KeyPackageFound?
  }

  lemma {:induction false} PlainHandsOutNothing(actions: seq<ServerAction>)
    requires Plain(actions)
    ensures HandedBy(actions) == []
  {
    if actions != [] {
      PlainHandsOutNothing(actions[1..]);
    }
  }

  lemma {:induction false} RoomActionsPlain(d: Server, actions: seq<R.RoomAction>, sender: U64, fault: bool)
    ensures var (d', out) := OnRoomActions(d, actions, sender, fault);
            Plain(out) && d'.packages == d.packages && d'.groupInfos == d.groupInfos
    decreases |actions|
  {
    hide R.IsWelcome, R.Persist, RecipientId, G.SessionOf, G.SessionsIn;
    if actions != [] {
      RoomActionsPlain(OnRoomAction(d, actions[0], sender, fault).0, actions[1..], sender, fault);
    }
  }

  lemma RoomFramePlain(d: Server, session: U64, f: Frame, secs: U64, faults: Faults)
    ensures var (d', answer) := OnRoomFrame(d, session, f, secs, faults);
            d'.packages == d.packages && d'.groupInfos == d.groupInfos && (answer.Ok? ==> Plain(answer.value))
  {
    hide OnSequenced, OnCreateRoom, CreatesRoom, RoomId, OpcodeRaw, G.AfterSubscribe;
    var d' := OnCreateRoom(d, RoomId(f.header), session, secs, faults.create).0;
    CreatePlain(d, RoomId(f.header), session, secs, faults.create);
    JoinedPlain(d, session, f, faults);
    JoinedPlain(d', session, f, faults);
  }

  lemma CreatePlain(d: Server, room: U128, session: U64, secs: U64, fault: bool)
    ensures var (d', answer) := OnCreateRoom(d, room, session, secs, fault);
            d'.packages == d.packages && d'.groupInfos == d.groupInfos && (answer.Ok? ==> Plain(answer.value))
  {
  }

  lemma JoinedPlain(d: Server, session: U64, f: Frame, faults: Faults)
    ensures var (d', answer) := OnJoinedFrame(d, session, f, faults);
            d'.packages == d.packages && d'.groupInfos == d.groupInfos && (answer.Ok? ==> Plain(answer.value))
  {
    hide R.Processed, OnRoomActions, RoomId, OpcodeRaw, G.AfterSubscribe;
    var d1 := if OpcodeRaw(f.header) == EXTERNAL_COMMIT then d.(registry := G.AfterSubscribe(d.registry, session, RoomId(f.header)).0) else d;
    var (m, result) := R.Processed(d1.core.manager, f, d1.core.store, faults.latest);
    if result.Ok? {
      RoomActionsPlain(d1.(core := R.Core(m, d1.core.store)), result.value, session, faults.store);
    }
  }

  lemma {:induction false} TickPlain(conns: map<U64, C.Conn>, order: seq<U64>, now: nat)
    ensures Plain(OnTick(conns, order, now).1)
    decreases |order|
  {
    hide C.AfterTick;
    if order != [] {
      TickPlain(conns, order[..|order| - 1], now);
    }
  }

  // ---- key packages ----

  ghost predicate PackageStep(d: Server, e: Event) {
    var (d', answer) := Step(d, e);
    && d'.packages == K.Run(d.packages, PackageOps(d, e))
    && HandedTo(answer) == Unstamped(K.Taken(d.packages, PackageOps(d, e)))
  }

  lemma QuietPackages(d: Server, e: Event)
    requires PackageOps(d, e) == [] && Step(d, e).0.packages == d.packages
    requires Step(d, e).1.Ok? ==> Plain(Step(d, e).1.value)
    ensures PackageStep(d, e)
  {
    hide Step;
    var answer := Step(d, e).1;
    if answer.Ok? {
      PlainHandsOutNothing(answer.value);
    }
    assert |K.Taken(d.packages, [])| == 0;
  }

  lemma PublishPackages(d: Server, e: Event)
    requires Publishes(d, e)
    ensures PackageStep(d, e)
  {
    hide K.Stored, OpcodeRaw;
    var op := K.StoreOp(d.registry.sessions[e.session].userId.value, e.payload.package);
    var answer := Step(d, e).1;
    assert [op][1..] == [];
    assert K.Run(d.packages, [op]) == K.Stored(d.packages, op.user, op.package).0;
    PlainHandsOutNothing(answer.value);
    assert |K.Taken(d.packages, [op])| == 0;
  }

  lemma FetchPackages(d: Server, e: Event)
    requires Fetches(d, e)
    ensures PackageStep(d, e)
  {
    hide K.AfterTake, OpcodeRaw;
    var op := K.TakeOp(e.payload.user);
    var answer := Step(d, e).1;
    assert [op][1..] == [];
    var (p', taken) := K.AfterTake(d.packages, op.user);
    assert K.Run(d.packages, [op]) == p';
    var reply := if taken.Some? then KeyPackageFound(op.user, taken.value.package) else ErrorReply(7);
    assert answer == Ok([SendToSession(e.session, reply), LogEntry]);
    assert HandedBy([LogEntry]) == [];
    assert [SendToSession(e.session, reply), LogEntry][1..] == [LogEntry];
    assert HandedTo(answer) == HandedIn(SendToSession(e.session, reply));
    var handed := if taken.Some? then [(op.user, taken.value)] else [];
    assert K.Taken(d.packages, [op]) == handed;
    assert Unstamped(handed) == if taken.Some? then [(op.user, taken.value.package)] else [];
  }

  lemma ReceivedPackages(d: Server, e: Event)
    requires e.Received?
    ensures PackageStep(d, e)
  {
    if Publishes(d, e) {
      PublishPackages(d, e);
    } else if Fetches(d, e) {
      FetchPackages(d, e);
    } else {
      SideFramePlain(d, e);
      QuietPackages(d, e);
    }
  }

  lemma SideFramePlain(d: Server, e: Event)
    requires e.Received? && !Publishes(d, e) && !Fetches(d, e)
    ensures var (d', answer) := Step(d, e); d'.packages == d.packages && (answer.Ok? ==> Plain(answer.value))
  {
    hide OnRoomFrame, OnSync, OpcodeRaw, RoomId, RecipientId, C.AfterFrame, G.Updated, G.AfterSubscribe, G.SessionOf;
    if e.session in d.conns {
      RoomFramePlain(Touch(d, e.session, e.now), e.session, e.frame, e.secs, e.faults);
      SyncPlain(d, e.session, RoomId(e.frame.header), e.payload, e.faults);
    }
  }

  lemma SyncPlain(d: Server, session: U64, room: U128, payload: Payload, faults: Faults)
    ensures var (d', answer) := OnSync(d, session, room, payload, faults);
            d'.packages == d.packages && answer.Ok? && Plain(answer.value)
  {
  }

  lemma StepPackages(d: Server, e: Event)
    requires !e.Reboot?
    ensures PackageStep(d, e)
  {
    hide PackageStep, Plain;
    if e.Received? {
      ReceivedPackages(d, e);
    } else {
      OtherPlain(d, e);
      QuietPackages(d, e);
    }
  }

  lemma OtherPlain(d: Server, e: Event)
    requires !e.Received? && !e.Reboot?
    ensures var (d', answer) := Step(d, e); d'.packages == d.packages && (answer.Ok? ==> Plain(answer.value))
  {
    hide OnTick, R.Step, OnCreateRoom, G.Registered, G.Unregistered, G.AfterSubscribe, G.AfterUnsubscribe;
    match e
    case Tick(order, now) => TickPlain(d.conns, order, now);
    case CreateRoom(room, session, secs, fault) => CreatePlain(d, room, session, secs, fault);
    case _ =>
  }

  lemma {:induction false} PackagesSplit(p: K.Packages, xs: seq<K.Op>, ys: seq<K.Op>)
    ensures K.Run(p, xs + ys) == K.Run(K.Run(p, xs), ys)
    ensures K.Taken(p, xs + ys) == K.Taken(p, xs) + K.Taken(K.Run(p, xs), ys)
    decreases |xs|
  {
    hide K.Stored, K.AfterTake;
    if xs == [] {
      assert xs + ys == ys;
    } else {
      assert (xs + ys)[1..] == xs[1..] + ys;
      PackagesSplit(if xs[0].StoreOp? then K.Stored(p, xs[0].user, xs[0].package).0 else K.AfterTake(p, xs[0].user).0, xs[1..], ys);
    }
  }

  lemma {:induction false} RunPackages(d: Server, es: seq<Event>)
    requires forall e | e in es :: !e.Reboot?
    ensures Run(d, es).packages == K.Run(d.packages, AllPackageOps(d, es))
    ensures HandedOut(Answers(d, es)) == Unstamped(K.Taken(d.packages, AllPackageOps(d, es)))
    decreases |es|
  {
    hide Step, PackageOps, HandedTo;
    if es != [] {
      assert es[0] in es && forall e | e in es[1..] :: e in es;
      var (d', answer) := Step(d, es[0]);
      StepPackages(d, es[0]);
      RunPackages(d', es[1..]);
      PackagesSplit(d.packages, PackageOps(d, es[0]), AllPackageOps(d', es[1..]));
      assert Answers(d, es)[1..] == Answers(d', es[1..]);
    }
  }

  /** From an empty directory, over any run of the driver: every package handed out under a user
      is one that a session authenticated as that user had published, and no publication is
      handed out twice. */
  lemma PackagesHandedOutOnce(d: Server, es: seq<Event>) returns (from: seq<nat>)
    requires d.packages == K.Empty(d.packages.capacity) && forall e | e in es :: !e.Reboot?
    ensures var handed, published := HandedOut(Answers(d, es)), K.Stores(AllPackageOps(d, es));
            && |from| == |handed|
            && (forall k | 0 <= k < |from| :: from[k] < |published| && published[from[k]] == handed[k])
            && (forall j, k | 0 <= j < k < |from| :: from[j] != from[k])
  {
    hide Answers, HandedOut, AllPackageOps, K.Taken, K.Stores, K.Run;
    var ops := AllPackageOps(d, es);
    RunPackages(d, es);
    NothingYet(d.packages.capacity);
    K.TakenAtMostOnce(d.packages, ops);
    var taken := K.Taken(d.packages, ops);
    from := seq(|taken|, k requires 0 <= k < |taken| => taken[k].1.stamp);
    forall k | 0 <= k < |from| ensures from[k] < |K.Stores(ops)| && K.Stores(ops)[from[k]] == HandedOut(Answers(d, es))[k] {
      assert K.From(d.packages, ops, taken[k]);
    }
  }

  lemma NothingYet(capacity: nat)
    ensures K.Valid(K.Empty(capacity))
  {
  }

  /** The other direction: after any run a fetch is answered, to the session that asked, with the
      last package published for the user — the last publication by a session authenticated as
      that user that has since been neither fetched nor pushed out by later ones — or, if there
      is none, with "no key package". */
  lemma LastPackageIsServed(d: Server, es: seq<Event>, e: Event)
    requires K.Valid(d.packages) && (forall x | x in es :: !x.Reboot?) && Fetches(Run(d, es), e)
    ensures var last := K.LastLeft(d.packages, AllPackageOps(d, es), e.payload.user);
            Step(Run(d, es), e).1
            == Ok([SendToSession(e.session, if last.Some? then KeyPackageFound(e.payload.user, last.value.package)
                                            else ErrorReply(7)), LogEntry])
  {
    hide Run, K.Run, K.LastLeft, K.Valid, K.AfterTake, OpcodeRaw, OnRoomFrame, AllPackageOps;
    RunPackages(d, es);
    K.TakeFindsLastLeft(d.packages, AllPackageOps(d, es), e.payload.user);
  }

  // ---- requests that make no sense ----

  /** The answer to a request whose payload is not what its opcode announces is an error reply to
      the session that made it, and nothing is stored, fetched or subscribed. A publish without
      an authenticated user is rejected first. */
  lemma MalformedRequestIsReported(d: Server, e: Event)
    requires e.Received? && e.session in d.conns
    requires var opcode := OpcodeRaw(e.frame.header);
             || (opcode == KEY_PACKAGE_PUBLISH && !Publishes(d, e))
             || (opcode == KEY_PACKAGE_FETCH && !e.payload.FetchPayload?)
             || (opcode == GROUP_INFO_REQUEST && !e.payload.GroupInfoRequestPayload?)
             || (opcode == SYNC_REQUEST && !e.payload.SyncRequestPayload?)
    ensures var (d', answer) := Step(d, e);
            var stranger := e.session !in d.registry.sessions || d.registry.sessions[e.session].userId.None?;
            var code := if OpcodeRaw(e.frame.header) == KEY_PACKAGE_PUBLISH && stranger then 1 else 4;
            && answer == Ok([SendToSession(e.session, ErrorReply(code)), LogEntry])
            && d'.packages == d.packages && d'.groupInfos == d.groupInfos && d'.core == d.core && d'.registry == d.registry
  {
    hide OpcodeRaw, OnRoomFrame, OnSessionFrame;
  }

  // ---- group infos ----

  predicate PublishesInfo(d: Server, e: Event, room: U128) {
    && e.Received? && e.session in d.conns && OpcodeRaw(e.frame.header) == GROUP_INFO
    && e.payload.GroupInfoPayload? && e.payload.room == room && !e.faults.groupInfo
  }

  /** What was last stored for a room, by the end of a run or before it. */
  ghost function LastInfo(d: Server, es: seq<Event>, room: U128): Option<(U64, seq<Byte>)>
    decreases |es|
  {
    if es == [] then (if room in d.groupInfos then Some(d.groupInfos[room]) else None)
    else
      var last := es[|es| - 1];
      if PublishesInfo(Run(d, es[..|es| - 1]), last, room) then Some((last.payload.epoch, last.payload.bytes))
      else LastInfo(d, es[..|es| - 1], room)
  }

  lemma {:induction false} RunLast(d: Server, es: seq<Event>)
    requires es != []
    ensures Run(d, es) == Step(Run(d, es[..|es| - 1]), es[|es| - 1]).0
    decreases |es|
  {
    hide Step;
    if |es| == 1 {
      assert es[1..] == [] && es[..0] == [];
    } else {
      RunLast(Step(d, es[0]).0, es[1..]);
      assert es[1..][..|es| - 2] == es[..|es| - 1][1..];
    }
  }

  lemma InfoStep(d: Server, e: Event, room: U128)
    ensures var before, after := d.groupInfos, Step(d, e).0.groupInfos;
            if PublishesInfo(d, e, room) then room in after && after[room] == (e.payload.epoch, e.payload.bytes)
            else (room in after <==> room in before) && (room in after ==> after[room] == before[room])
  {
    if e.Received? {
      ReceivedInfo(d, e);
    } else {
      hide OnTick, R.Step, G.Registered, G.Unregistered, G.AfterSubscribe, G.AfterUnsubscribe;
    }
  }

  lemma ReceivedInfo(d: Server, e: Event)
    requires e.Received?
    ensures Step(d, e).0.groupInfos
         == if e.payload.GroupInfoPayload? && PublishesInfo(d, e, e.payload.room)
            then d.groupInfos[e.payload.room := (e.payload.epoch, e.payload.bytes)] else d.groupInfos
  {
    hide OnRoomFrame, OpcodeRaw, RoomId, RecipientId, C.AfterFrame, G.Updated, G.AfterSubscribe, G.SessionOf, R.IsWelcome, R.Persist;
    if e.session in d.conns {
      RoomFramePlain(Touch(d, e.session, e.now), e.session, e.frame, e.secs, e.faults);
    }
  }

  lemma {:induction false} InfosAreLatest(d: Server, es: seq<Event>, room: U128)
    ensures var d' := Run(d, es); LastInfo(d, es, room) == if room in d'.groupInfos then Some(d'.groupInfos[room]) else None
    decreases |es|
  {
    hide Step, PublishesInfo;
    if es != [] {
      InfosAreLatest(d, es[..|es| - 1], room);
      RunLast(d, es);
      InfoStep(Run(d, es[..|es| - 1]), es[|es| - 1], room);
    }
  }

  /** After any run — restarts included — a request for a room's group info is answered, to the
      session that asked, with the last one published and stored, or with "room not found" if
      there is none. */
  lemma LatestInfoIsServed(d: Server, es: seq<Event>, e: Event)
    requires e.Received? && e.session in Run(d, es).conns && OpcodeRaw(e.frame.header) == GROUP_INFO_REQUEST
    requires e.payload.GroupInfoRequestPayload? && !e.faults.groupInfo
    ensures var last := LastInfo(d, es, e.payload.room);
            Step(Run(d, es), e).1
            == Ok([SendToSession(e.session, if last.Some? then GroupInfoFound(e.payload.room, last.value.0, last.value.1)
                                            else ErrorReply(2)), LogEntry])
  {
    hide Run, LastInfo, OpcodeRaw, OnRoomFrame;
    InfosAreLatest(d, es, e.payload.room);
  }
}
