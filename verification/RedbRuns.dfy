/** The room path on the durable store. Every run there gives the outputs of the same run on
    per-room vectors, so what is proved of the one holds of the other. */
module RedbRuns {
  import opened BigEndian
  import opened Results
  import opened Wire
  import opened Storage
  import opened Rooms
  import Q = RoomRuns
  import T = Redb
  import V = Validator

  datatype TableCore = TableCore(manager: Manager, rooms: map<U128, RoomMetadata>, table: seq<T.Entry>)

  function TablePeek(t: seq<T.Entry>, room: U128, fault: bool): Option<nat>
    requires T.Sorted(t)
  {
    if fault then None else Some(T.Next(t, room))
  }

  /** Persisting into the table: only a conflict drops the cached index. Indexes are 64-bit. */
  function TablePersist(c: TableCore, room: U128, index: nat, f: Frame, fault: bool): (r: TableCore)
    requires T.Sorted(c.table)
    ensures T.Sorted(r.table)
  {
    if fault || index > U64_MAX then c
    else
      var (table, result) := T.Write(c.table, room, index, f);
      if result.Err? && result.error.Conflict? then c.(manager := c.manager.(cache := c.manager.cache - {room}), table := table)
      else c.(table := table)
  }

  function TableExecute(c: TableCore, actions: seq<RoomAction>, fault: bool): (r: TableCore)
    requires T.Sorted(c.table)
    ensures T.Sorted(r.table)
    decreases |actions|
  {
    if actions == [] then c
    else
      var a := actions[0];
      TableExecute(if a.PersistFrame? then TablePersist(c, a.room, a.index, a.frame, fault) else c, actions[1..], fault)
  }

  function TableRecover(m: Manager, c: TableCore, plan: seq<RecoverStep>): (Manager, Result<(), RoomError>)
    requires T.Sorted(c.table)
    decreases |plan|
  {
    if plan == [] then (m, Ok(()))
    else
      var (m', result) :=
        RecoveredWith(m, c.rooms, plan[0].room, plan[0].metaFault, TablePeek(c.table, plan[0].room, plan[0].latestFault));
      if result.Err? then (m', result) else TableRecover(m', c, plan[1..])
  }

  function TableStep(c: TableCore, e: CoreEvent): (r: (TableCore, CoreOutput))
    requires T.Sorted(c.table)
    ensures T.Sorted(r.0.table)
  {
    match e
    case Arrive(f, latestFault, storeFault) =>
      var (m, result) := ProcessedWith(c.manager, f, TablePeek(c.table, RoomId(f.header), latestFault));
      (match result
       case Err(error) => (c.(manager := m), Failed(error))
       case Ok(actions) => (TableExecute(c.(manager := m), actions, storeFault), Routed(actions)))
    case Create(room, meta, fault) =>
      if room in c.manager.metadata then (c, Failed(RoomAlreadyExists(room)))
      else if fault then (c, Failed(StorageRefused(Io)))
      else
        (TableCore(c.manager.(metadata := c.manager.metadata[room := meta]),
                   if room in c.rooms then c.rooms else c.rooms[room := meta], c.table), Quiet)
    case Clear(room) => (c.(manager := c.manager.(cache := c.manager.cache - {room})), Quiet)
    case Restart(plan) =>
      var (m, result) := TableRecover(NEW_MANAGER, c, plan);
      (c.(manager := m), if result.Err? then Failed(result.error) else Quiet)
  }

  function TableRun(c: TableCore, es: seq<CoreEvent>): (r: TableCore)
    requires T.Sorted(c.table)
    ensures T.Sorted(r.table)
    decreases |es|
  {
    if es == [] then c else TableRun(TableStep(c, es[0]).0, es[1..])
  }

  function TableOutputs(c: TableCore, es: seq<CoreEvent>): seq<CoreOutput>
    requires T.Sorted(c.table)
    decreases |es|
  {
    if es == [] then [] else [TableStep(c, es[0]).1] + TableOutputs(TableStep(c, es[0]).0, es[1..])
  }

  // ---- the simulation ----

  ghost predicate Follows(t: TableCore, c: Core) {
    t.manager == c.manager && t.rooms == c.store.rooms && T.Represents(t.table, c.store)
  }

  lemma PeeksAgree(t: seq<T.Entry>, s: Store, room: U128, fault: bool)
    requires T.Represents(t, s)
    ensures T.Sorted(t) && TablePeek(t, room, fault) == Peek(s, room, fault)
  {
    T.RoomFacts(t, s, room);
    T.LatestAgrees(t, s, room);
  }

  /** What may be persisted: frames with a wire form, below the last index. */
  predicate Storable(actions: seq<RoomAction>) {
    forall i | 0 <= i < |actions| && actions[i].PersistFrame? :: actions[i].index < U64_MAX && Encodable(actions[i].frame)
  }

  lemma PersistFollows(t: TableCore, c: Core, room: U128, index: nat, f: Frame, fault: bool)
    requires Follows(t, c) && index < U64_MAX && Encodable(f)
    ensures T.Sorted(t.table) && Follows(TablePersist(t, room, index, f, fault), Persist(c, room, index, f, fault))
  {
    hide T.Represents, T.Write, Encodable;
    T.RoomFacts(t.table, c.store, room);
    if !fault {
      T.StoreRepresents(t.table, c.store, room, index, f);
      T.StoreVerdictsAgreeIff(t.table, c.store, room, index, f);
      FitsLimit(f);
    }
  }

  lemma FitsLimit(f: Frame)
    requires Encodable(f)
    ensures |f.payload| <= MAX_PAYLOAD_SIZE
  {
  }

  lemma {:induction false} ExecuteFollows(t: TableCore, c: Core, actions: seq<RoomAction>, fault: bool)
    requires Follows(t, c) && Storable(actions)
    ensures T.Sorted(t.table) && Follows(TableExecute(t, actions, fault), Execute(c, actions, fault))
    decreases |actions|
  {
    hide T.Represents, Encodable, TablePersist, Persist;
    T.RoomFacts(t.table, c.store, 0);
    if actions != [] {
      var a := actions[0];
      if a.PersistFrame? {
        PersistFollows(t, c, a.room, a.index, a.frame, fault);
        ExecuteFollows(TablePersist(t, a.room, a.index, a.frame, fault), Persist(c, a.room, a.index, a.frame, fault), actions[1..], fault);
      } else {
        ExecuteFollows(t, c, actions[1..], fault);
      }
    }
  }

  lemma ProcessedIsStorable(c: Core, f: Frame, fault: bool)
    requires |f.payload| <= MAX_PAYLOAD_SIZE
    ensures var result := Processed(c.manager, f, c.store, fault).1; result.Ok? ==> Storable(result.value)
  {
    if Q.Accepts(c, f, fault) {
      hide Processed, WithIndex, Encodable, RoomId;
      Q.AcceptedProcess(c, f, fault);
      Q.NumberedFrameEncodes(f, Q.IndexFor(c, RoomId(f.header)));
    } else {
      hide Processed, Execute, Encodable, Q.Accepts, RoomId;
      Q.UnacceptedStep(c, f, fault, false);
    }
  }

  lemma ArriveFollows(t: TableCore, c: Core, f: Frame, latestFault: bool, storeFault: bool)
    requires Follows(t, c) && |f.payload| <= MAX_PAYLOAD_SIZE
    ensures var e := Arrive(f, latestFault, storeFault);
            T.Sorted(t.table) && TableStep(t, e).1 == Step(c, e).1 && Follows(TableStep(t, e).0, Step(c, e).0)
  {
    hide T.Represents, ProcessedWith, TableExecute, Execute, Storable, TablePeek, Peek;
    PeeksAgree(t.table, c.store, RoomId(f.header), latestFault);
    ProcessedIsStorable(c, f, latestFault);
    var (m, result) := Processed(c.manager, f, c.store, latestFault);
    if result.Ok? {
      ExecuteFollows(t.(manager := m), Core(m, c.store), result.value, storeFault);
    }
  }

  lemma {:induction false} RecoverFollows(m: Manager, t: TableCore, c: Core, plan: seq<RecoverStep>)
    requires Follows(t, c)
    ensures T.Sorted(t.table) && TableRecover(m, t, plan) == Recover(m, c.store, plan)
    decreases |plan|
  {
    hide T.Represents, RecoveredWith, TablePeek, Peek;
    T.RoomFacts(t.table, c.store, 0);
    if plan != [] {
      PeeksAgree(t.table, c.store, plan[0].room, plan[0].latestFault);
      RecoverFollows(Recovered(m, c.store, plan[0].room, plan[0].metaFault, plan[0].latestFault).0, t, c, plan[1..]);
    }
  }

  lemma CreateRepresents(t: seq<T.Entry>, s: Store, room: U128, meta: RoomMetadata)
    requires T.Represents(t, s)
    ensures T.Represents(t, AfterCreate(s, room, meta))
  {
    hide Encodable, T.Key, T.DecodeKey, T.Sorted;
    var s' := AfterCreate(s, room, meta);
    assert forall r: U128 :: Log(s', r) == Log(s, r);
    forall e | e in t ensures T.Holds(e, s') {
      assert T.Holds(e, s);
    }
  }

  lemma StepFollows(t: TableCore, c: Core, e: CoreEvent)
    requires Follows(t, c) && Q.FitsWire(e)
    ensures T.Sorted(t.table) && TableStep(t, e).1 == Step(c, e).1 && Follows(TableStep(t, e).0, Step(c, e).0)
  {
    hide T.Represents, Recover, TableRecover;
    T.RoomFacts(t.table, c.store, 0);
    match e
    case Arrive(f, latestFault, storeFault) => ArriveFollows(t, c, f, latestFault, storeFault);
    case Create(room, meta, _) => CreateRepresents(t.table, c.store, room, meta);
    case Clear(_) =>
    case Restart(plan) => RecoverFollows(NEW_MANAGER, t, c, plan);
  }

  /** The room path on the table and on the vectors it represents, run side by side on any
      events — reads and writes failing alike — give the same outputs throughout and keep
      representing each other. */
  lemma {:induction false} RunsAgree(t: TableCore, c: Core, es: seq<CoreEvent>)
    requires Follows(t, c) && forall e | e in es :: Q.FitsWire(e)
    ensures T.Sorted(t.table) && TableOutputs(t, es) == Outputs(c, es) && Follows(TableRun(t, es), Run(c, es))
    decreases |es|
  {
    hide Follows, Step, TableStep, Q.FitsWire;
    FollowsSorted(t, c);
    if es != [] {
      assert es[0] in es && forall e | e in es[1..] :: e in es;
      StepFollows(t, c, es[0]);
      RunsAgree(TableStep(t, es[0]).0, Step(c, es[0]).0, es[1..]);
    }
  }

  lemma FollowsSorted(t: TableCore, c: Core)
    requires Follows(t, c)
    ensures T.Sorted(t.table)
  {
    hide T.Represents;
    T.RoomFacts(t.table, c.store, 0);
  }

  /** `handle_sync_request` on the table. */
  function TableSync(m: Manager, t: seq<T.Entry>, room: U128, session: U64, from: U64, limit: nat,
                     loadFault: bool, latestFault: bool): Result<RoomAction, RoomError>
    requires T.Sorted(t)
  {
    HandleSyncWith(m, room, session, from, if loadFault then Err(Io) else T.Load(t, room, from, limit),
                   if latestFault then Err(Io) else Ok(T.Latest(t, room)))
  }

  /** The two stores answer a sync request differently exactly for a known room the vectors have
      no entry for: there the vectors report a storage error and the table an empty page. */
  lemma SyncAnswersDifferIff(t: TableCore, c: Core, room: U128, session: U64, from: U64, limit: nat,
                             loadFault: bool, latestFault: bool)
    requires Follows(t, c)
    ensures T.Sorted(t.table)
    ensures var onTable := TableSync(t.manager, t.table, room, session, from, limit, loadFault, latestFault);
            var onVectors := HandleSync(c.manager, c.store, room, session, from, limit, loadFault, latestFault);
            && (onTable != onVectors <==> room in c.manager.metadata && !loadFault && room !in c.store.frames)
            && (onTable != onVectors ==>
                  && onVectors == Err(StorageRefused(NotFound(room, from)))
                  && onTable == if latestFault then Err(StorageRefused(Io)) else Ok(SendSyncResponse(session, room, [], false)))
  {
    hide T.Represents, T.Load, T.Latest, WireBytes, Storage.Loaded, LatestIndex;
    FollowsSorted(t, c);
    T.LoadsAgreeIff(t.table, c.store, room, from, limit);
    T.LatestAgrees(t.table, c.store, room);
    NoEntryNoLatest(c.store, room);
    var empty: seq<Frame> := [];
    assert seq(|empty|, i requires 0 <= i < |empty| => WireBytes(empty[i])) == [];
  }

  lemma NoEntryNoLatest(s: Store, room: U128)
    ensures room !in s.frames ==> LatestIndex(s, room) == None
  {
  }

  /** From an empty database: after any run a page loaded from the table is the page of the
      room's log, and that log is sound. */
  lemma DurableLogIsSound(es: seq<CoreEvent>, room: U128, from: U64, limit: nat)
    requires forall e | e in es :: Q.FitsWire(e)
    ensures var t := TableRun(TableCore(NEW_MANAGER, map[], []), es).table;
            var log := Log(Run(EMPTY_CORE, es).store, room);
            && T.Load(t, room, from, limit) == Ok(Page(log, from, limit))
            && forall i | 0 <= i < |log| :: Q.Placed(log[i], room, i)
  {
    hide T.Represents, T.Load, TableRun, Run, Q.Placed;
    EmptyFollows();
    RunsAgree(TableCore(NEW_MANAGER, map[], []), EMPTY_CORE, es);
    T.LoadIsPage(TableRun(TableCore(NEW_MANAGER, map[], []), es).table, Run(EMPTY_CORE, es).store, room, from, limit);
    Q.LogSoundOverRuns(EMPTY_CORE, es);
  }

  /** Validation does not notice the server. After any run on a database that starts empty, with
      any failures, the frames of a page read back from the table are the kept ones, and each
      has the sender, epoch, payload, signed part and signature it was offered with; so every
      validator judges it as it would have judged it on arrival. */
  lemma LoadedFramesKeepVerdict(ed: V.Ed25519, epoch: U64, group: V.GroupState, es: seq<CoreEvent>, room: U128, from: U64, limit: nat, j: nat)
    requires forall e | e in es :: Q.FitsWire(e)
    requires var log := Log(Run(EMPTY_CORE, es).store, room); j < |Page(log, from, limit)|
    ensures T.Sorted(TableRun(TableCore(NEW_MANAGER, map[], []), es).table)
    ensures var t := TableRun(TableCore(NEW_MANAGER, map[], []), es).table;
            var kept := Q.Kept(EMPTY_CORE, es, room);
            var loaded := T.Load(t, room, from, limit);
            && loaded.Ok? && j < |loaded.value| && from + j < |kept|
            && SameToReaders(loaded.value[j], kept[from + j])
            && V.ValidateFrame(ed, loaded.value[j], epoch, group) == V.ValidateFrame(ed, kept[from + j], epoch, group)
  {
    hide T.Represents, T.Load, TableRun, Run, Q.Placed, Q.Kept, WithIndex, SameToReaders, V.ValidateFrame;
    DurableLogIsSound(es, room, from, limit);
    Q.LogIsKeptFrames(EMPTY_CORE, es, room);
    var log, kept := Log(Run(EMPTY_CORE, es).store, room), Q.Kept(EMPTY_CORE, es, room);
    assert Log(EMPTY_CORE.store, room) == [];
    assert Page(log, from, limit)[j] == log[from + j];
    assert Q.Numbers(log[0 + (from + j)], kept[from + j], 0 + (from + j));
    NumberedLooksTheSame(ed, epoch, group, kept[from + j], from + j);
  }

  predicate SameToReaders(g: Frame, f: Frame) {
    && g.payload == f.payload && RoomId(g.header) == RoomId(f.header)
    && SenderId(g.header) == SenderId(f.header) && Epoch(g.header) == Epoch(f.header)
    && SigningData(g.header) == SigningData(f.header) && Signature(g.header) == Signature(f.header)
  }

  lemma NumberedLooksTheSame(ed: V.Ed25519, epoch: U64, group: V.GroupState, f: Frame, i: U64)
    ensures SameToReaders(WithIndex(f, i), f)
    ensures V.ValidateFrame(ed, WithIndex(f, i), epoch, group) == V.ValidateFrame(ed, f, epoch, group)
  {
    hide V.ValidateFrame;
    WithLogIndexKeepsFields(f.header, i);
    V.VerdictReadsOnlySignedPart(ed, f, WithIndex(f, i), epoch, group);
  }

  lemma EmptyFollows()
    ensures T.Sorted([]) && Follows(TableCore(NEW_MANAGER, map[], []), EMPTY_CORE)
  {
  }
}
