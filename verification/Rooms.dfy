/** The sequencer, the room manager above it and the driver's handling of the actions
    they return: the path every room frame takes from arrival to the stored log. */
module Rooms {
  import opened BigEndian
  import opened Results
  import opened Wire
  import opened Storage

  const MAX_EPOCH: nat := 1_000_000
  const OPCODE_WELCOME: nat := 0x1003

  datatype SequencerError =
    | BadMagic | BadVersion | SizeMismatch | ZeroRoom | EpochTooLarge
    | StorageFailed | IndexOverflow

  datatype SequencerAction =
    | AcceptFrame(room: U128, index: nat, frame: Frame)
    | RejectFrame(room: U128, original: Frame)
    | KeepFrame(room: U128, index: nat, frame: Frame)
    | BroadcastToRoom(room: U128, frame: Frame)

  type Cache = map<U128, nat>

  function ValidateStructure(f: Frame): (r: Result<(), SequencerError>)
    ensures r.Ok? <==> Magic(f.header) == MAGIC && Version(f.header) == VERSION
                       && PayloadSize(f.header) == |f.payload| && RoomId(f.header) != 0
                       && Epoch(f.header) <= MAX_EPOCH
  {
    if Magic(f.header) != MAGIC then Err(BadMagic)
    else if Version(f.header) != VERSION then Err(BadVersion)
    else if |f.payload| != PayloadSize(f.header) then Err(SizeMismatch)
    else if RoomId(f.header) == 0 then Err(ZeroRoom)
    else if Epoch(f.header) > MAX_EPOCH then Err(EpochTooLarge)
    else Ok(())
  }

  /** The frame with its log index assigned. */
  function WithIndex(f: Frame, index: U64): Frame {
    Frame(WithLogIndex(f.header, index), f.payload)
  }

  /** `rebuild_frame_with_index`: `Frame::new` sets the size field again, to what it was. */
  method RebuildWithIndex(f: Frame, index: U64) returns (g: Frame)
    requires PayloadSize(f.header) == |f.payload|
    ensures g == WithIndex(f, index)
  {
    WithLogIndexKeepsFields(f.header, index);
    NewFrameKeepsHeader(WithLogIndex(f.header, index), f.payload);
    g := NewFrame(WithLogIndex(f.header, index), f.payload);
  }

  function IsWelcome(f: Frame): bool { OpcodeRaw(f.header) == OPCODE_WELCOME }

  function NextIndex(latest: Option<nat>): nat {
    match latest
    case None => 0
    case Some(i) => i + 1
  }

  /** What a storage says comes next in a room, or nothing if the read fails. */
  function Peek(s: Store, room: U128, fault: bool): Option<nat> {
    if fault then None else Some(NextIndex(LatestIndex(s, room)))
  }

  /** `Sequencer::process_frame`. A vacant entry is filled from storage, which may fail. */
  function Sequence(cache: Cache, f: Frame, next: Option<nat>)
    : (r: (Cache, Result<seq<SequencerAction>, SequencerError>))
  {
    match ValidateStructure(f)
    case Err(e) => (cache, Err(e))
    case Ok(_) =>
      var room := RoomId(f.header);
      if IsWelcome(f) then (cache, Ok([BroadcastToRoom(room, f)]))
      else Assign(cache, room, f, next)
  }

  /** The sequenced case: index from the cache or from storage, cache moved on by one. */
  function Assign(cache: Cache, room: U128, f: Frame, next: Option<nat>)
    : (r: (Cache, Result<seq<SequencerAction>, SequencerError>))
  {
    if room !in cache && next.None? then (cache, Err(StorageFailed))
    else
      var index := if room in cache then cache[room] else next.value;
      if index >= U64_MAX then (cache[room := index], Err(IndexOverflow))
      else (cache[room := index + 1], Ok(Sequenced(room, index, WithIndex(f, index))))
  }

  function Sequenced(room: U128, index: nat, g: Frame): seq<SequencerAction> {
    [AcceptFrame(room, index, g), KeepFrame(room, index, g), BroadcastToRoom(room, g)]
  }

  class Sequencer {
    var cache: Cache

    constructor ()
      ensures cache == map[]
    {
      cache := map[];
    }

    method ProcessFrame(f: Frame, storage: MemoryStorage, fault: bool)
      returns (r: Result<seq<SequencerAction>, SequencerError>)
      modifies this
      ensures (cache, r) == Sequence(old(cache), f, Peek(storage.View(), RoomId(f.header), fault))
    {
      match ValidateStructure(f) {
        case Err(e) => return Err(e);
        case Ok(_) =>
      }
      var room := RoomId(f.header);
      if IsWelcome(f) {
        return Ok([BroadcastToRoom(room, f)]);
      }
      r := AssignIndex(room, f, storage, fault);
    }

    method AssignIndex(room: U128, f: Frame, storage: MemoryStorage, fault: bool)
      returns (r: Result<seq<SequencerAction>, SequencerError>)
      requires PayloadSize(f.header) == |f.payload|
      modifies this
      ensures (cache, r) == Assign(old(cache), room, f, Peek(storage.View(), room, fault))
    {
      hide WithIndex, PayloadSize, Peek, Sequenced;
      var initialized := InitializeRoom(room, storage, fault);
      if initialized.Err? {
        return Err(initialized.error);
      }
      var index := cache[room];
      assert cache == old(cache)[room := index];
      if index >= U64_MAX {
        return Err(IndexOverflow);
      }
      cache := cache[room := index + 1];
      assert cache == old(cache)[room := index + 1];
      var g := RebuildWithIndex(f, index);
      return Ok(Sequenced(room, index, g));
    }

    method ClearRoom(room: U128) returns (removed: bool)
      modifies this
      ensures cache == old(cache) - {room} && removed == (room in old(cache))
    {
      removed := room in cache;
      cache := cache - {room};
    }

    method InitializeRoom(room: U128, storage: MemoryStorage, fault: bool) returns (r: Result<(), SequencerError>)
      modifies this
      ensures (cache, r) == Initialize(old(cache), room, Peek(storage.View(), room, fault))
    {
      if room in cache {
        return Ok(());
      }
      var latest := storage.LatestLogIndex(room, fault);
      match latest {
        case Err(_) => return Err(StorageFailed);
        case Ok(i) => cache := cache[room := if i.None? then 0 else i.value + 1];
      }
      return Ok(());
    }
  }

  function Initialize(cache: Cache, room: U128, next: Option<nat>): (r: (Cache, Result<(), SequencerError>)) {
    if room in cache then (cache, Ok(()))
    else if next.None? then (cache, Err(StorageFailed))
    else (cache[room := next.value], Ok(()))
  }

  // ---- room manager ----

  datatype RoomError =
    | Sequencing(e: SequencerError)
    | StorageRefused(s: StorageError)
    | RoomNotFound(room: U128)
    | RoomAlreadyExists(room: U128)

  datatype RoomAction =
    | Broadcast(room: U128, frame: Frame, excludeSender: bool)
    | PersistFrame(room: U128, index: nat, frame: Frame)
    | Reject(senderId: U64)
    | SendSyncResponse(session: U64, room: U128, frames: seq<seq<Byte>>, hasMore: bool)

  datatype Manager = Manager(metadata: map<U128, RoomMetadata>, cache: Cache)

  const NEW_MANAGER := Manager(map[], map[])

  function ToRoomAction(a: SequencerAction): Option<RoomAction> {
    match a
    case AcceptFrame(_, _, _) => None
    case KeepFrame(room, index, f) => Some(PersistFrame(room, index, f))
    case BroadcastToRoom(room, f) => Some(Broadcast(room, f, false))
    case RejectFrame(_, original) => Some(Reject(SenderId(original.header)))
  }

  function ToRoomActions(actions: seq<SequencerAction>): seq<RoomAction> {
    if actions == [] then []
    else
      var rest := ToRoomActions(actions[..|actions| - 1]);
      match ToRoomAction(actions[|actions| - 1])
      case None => rest
      case Some(a) => rest + [a]
  }

  function Processed(m: Manager, f: Frame, s: Store, fault: bool): (Manager, Result<seq<RoomAction>, RoomError>) {
    ProcessedWith(m, f, Peek(s, RoomId(f.header), fault))
  }

  function ProcessedWith(m: Manager, f: Frame, next: Option<nat>): (Manager, Result<seq<RoomAction>, RoomError>) {
    var room := RoomId(f.header);
    if room !in m.metadata then (m, Err(RoomNotFound(room)))
    else
      var (cache, result) := Sequence(m.cache, f, next);
      var m' := m.(cache := cache);
      match result
      case Err(e) => (m', Err(Sequencing(e)))
      case Ok(actions) => (m', Ok(ToRoomActions(actions)))
  }

  function CreateRoomIn(m: Manager, s: Store, room: U128, meta: RoomMetadata, fault: bool)
    : (r: (Manager, Store, Result<(), RoomError>))
  {
    if room in m.metadata then (m, s, Err(RoomAlreadyExists(room)))
    else if fault then (m, s, Err(StorageRefused(Io)))
    else (m.(metadata := m.metadata[room := meta]), AfterCreate(s, room, meta), Ok(()))
  }

  /** `recover_room`: the metadata stays registered even when reading the log fails. */
  function Recovered(m: Manager, s: Store, room: U128, metaFault: bool, latestFault: bool): (Manager, Result<(), RoomError>) {
    RecoveredWith(m, s.rooms, room, metaFault, Peek(s, room, latestFault))
  }

  function RecoveredWith(m: Manager, rooms: map<U128, RoomMetadata>, room: U128, metaFault: bool, next: Option<nat>)
    : (Manager, Result<(), RoomError>)
  {
    if room in m.metadata then (m, Ok(()))
    else if metaFault then (m, Err(StorageRefused(Io)))
    else if room !in rooms then (m, Err(RoomNotFound(room)))
    else
      var (cache, result) := Initialize(m.cache, room, next);
      var m' := Manager(m.metadata[room := rooms[room]], cache);
      match result
      case Err(e) => (m', Err(Sequencing(e)))
      case Ok(_) => (m', Ok(()))
  }

  datatype RecoverStep = RecoverStep(room: U128, metaFault: bool, latestFault: bool)

  /** `recover_from_storage`: rooms in the order storage lists them, up to the first failure. */
  function Recover(m: Manager, s: Store, plan: seq<RecoverStep>): (r: (Manager, Result<(), RoomError>))
    decreases |plan|
  {
    if plan == [] then (m, Ok(()))
    else
      var (m', result) := Recovered(m, s, plan[0].room, plan[0].metaFault, plan[0].latestFault);
      if result.Err? then (m', result) else Recover(m', s, plan[1..])
  }

  /** `handle_sync_request`. */
  function HandleSync(m: Manager, s: Store, room: U128, session: U64, from: U64, limit: nat,
                      loadFault: bool, latestFault: bool): Result<RoomAction, RoomError>
  {
    HandleSyncWith(m, room, session, from,
                   if loadFault then Err(Io) else Storage.Loaded(s, room, from, limit),
                   if latestFault then Err(Io) else Ok(LatestIndex(s, room)))
  }

  /** The answer, given what storage says to the two questions it is asked. */
  function HandleSyncWith(m: Manager, room: U128, session: U64, from: U64, loaded: Result<seq<Frame>, StorageError>,
                          latest: Result<Option<nat>, StorageError>): Result<RoomAction, RoomError>
  {
    if room !in m.metadata then Err(RoomNotFound(room))
    else if loaded.Err? then Err(StorageRefused(loaded.error))
    else if latest.Err? then Err(StorageRefused(latest.error))
    else
      var frames := loaded.value;
      var lastLoaded := if frames == [] then (if from == 0 then 0 else from - 1) else from + |frames| - 1;
      Ok(SendSyncResponse(session, room, seq(|frames|, i requires 0 <= i < |frames| => WireBytes(frames[i])),
                          latest.value.Some? && lastLoaded < latest.value.value))
  }

  class RoomManager {
    const sequencer: Sequencer
    var metadata: map<U128, RoomMetadata>

    ghost function View(): Manager
      reads this, sequencer
    {
      Manager(metadata, sequencer.cache)
    }

    constructor ()
      ensures View() == NEW_MANAGER && fresh(sequencer)
    {
      sequencer := new Sequencer();
      metadata := map[];
    }

    method ProcessFrame(f: Frame, storage: MemoryStorage, fault: bool)
      returns (r: Result<seq<RoomAction>, RoomError>)
      modifies sequencer
      ensures (View(), r) == Processed(old(View()), f, storage.View(), fault)
    {
      var room := RoomId(f.header);
      if room !in metadata {
        return Err(RoomNotFound(room));
      }
      var sequenced := sequencer.ProcessFrame(f, storage, fault);
      match sequenced {
        case Err(e) => return Err(Sequencing(e));
        case Ok(actions) =>
          var out: seq<RoomAction> := [];
          for i := 0 to |actions|
            invariant out == ToRoomActions(actions[..i])
          {
            assert actions[..i + 1][..i] == actions[..i];
            match ToRoomAction(actions[i]) {
              case None =>
              case Some(a) => out := out + [a];
            }
          }
          assert actions[..|actions|] == actions;
          return Ok(out);
      }
    }

    method CreateRoom(room: U128, creator: U64, now: U64, storage: MemoryStorage, fault: bool)
      returns (r: Result<(), RoomError>)
      modifies this, storage
      ensures (View(), storage.View(), r)
           == CreateRoomIn(old(View()), old(storage.View()), room, RoomMetadata(creator, now), fault)
    {
      if room in metadata {
        return Err(RoomAlreadyExists(room));
      }
      var meta := RoomMetadata(creator, now);
      var stored := storage.CreateRoom(room, meta, fault);
      if stored.Err? {
        return Err(StorageRefused(stored.error));
      }
      metadata := metadata[room := meta];
      return Ok(());
    }

    method HandleSyncRequest(room: U128, session: U64, from: U64, limit: nat, storage: MemoryStorage,
                             loadFault: bool, latestFault: bool) returns (r: Result<RoomAction, RoomError>)
      ensures r == HandleSync(View(), storage.View(), room, session, from, limit, loadFault, latestFault)
    {
      hide WireBytes;
      if room !in metadata {
        return Err(RoomNotFound(room));
      }
      var loaded := storage.LoadFrames(room, from, limit, loadFault);
      if loaded.Err? {
        return Err(StorageRefused(loaded.error));
      }
      var frames := loaded.value;
      var encoded: seq<seq<Byte>> := [];
      for i := 0 to |frames|
        invariant |encoded| == i && forall k | 0 <= k < i :: encoded[k] == WireBytes(frames[k])
      {
        encoded := encoded + [WireBytes(frames[i])];
      }
      var latest := storage.LatestLogIndex(room, latestFault);
      if latest.Err? {
        return Err(StorageRefused(latest.error));
      }
      var lastLoaded := if frames == [] then (if from == 0 then 0 else from - 1) else from + |frames| - 1;
      assert encoded == seq(|frames|, i requires 0 <= i < |frames| => WireBytes(frames[i]));
      return Ok(SendSyncResponse(session, room, encoded, latest.value.Some? && lastLoaded < latest.value.value));
    }

    method RecoverRoom(room: U128, storage: MemoryStorage, metaFault: bool, latestFault: bool)
      returns (r: Result<(), RoomError>)
      modifies this, sequencer
      ensures (View(), r) == Recovered(old(View()), storage.View(), room, metaFault, latestFault)
    {
      if room in metadata {
        return Ok(());
      }
      if metaFault {
        return Err(StorageRefused(Io));
      }
      if room !in storage.rooms {
        return Err(RoomNotFound(room));
      }
      metadata := metadata[room := storage.rooms[room]];
      var initialized := sequencer.InitializeRoom(room, storage, latestFault);
      match initialized {
        case Err(e) => return Err(Sequencing(e));
        case Ok(_) => return Ok(());
      }
    }

    method RecoverAll(plan: seq<RecoverStep>, storage: MemoryStorage) returns (r: Result<(), RoomError>)
      modifies this, sequencer
      ensures (View(), r) == Recover(old(View()), storage.View(), plan)
    {
      r := Ok(());
      for i := 0 to |plan|
        invariant r == Ok(()) && Recover(old(View()), storage.View(), plan) == Recover(View(), storage.View(), plan[i..])
      {
        r := RecoverRoom(plan[i].room, storage, plan[i].metaFault, plan[i].latestFault);
        assert plan[i..][1..] == plan[i + 1..];
        if r.Err? {
          return;
        }
      }
    }
  }

  // ---- what the driver does with the actions ----

  datatype Core = Core(manager: Manager, store: Store)

  const EMPTY_CORE := Core(NEW_MANAGER, EMPTY_STORE)

  /** Persisting one frame. A conflict drops the room's cached index, any other failure
      leaves it; nothing is reported back to the sender either way. */
  function Persist(c: Core, room: U128, index: nat, f: Frame, fault: bool): Core {
    if fault then c
    else
      var (store, result) := AfterStore(c.store, room, index, f);
      if result.Err? then Core(c.manager.(cache := c.manager.cache - {room}), store) else c.(store := store)
  }

  function Execute(c: Core, actions: seq<RoomAction>, fault: bool): Core
    decreases |actions|
  {
    if actions == [] then c
    else
      var a := actions[0];
      var c' := if a.PersistFrame? then Persist(c, a.room, a.index, a.frame, fault) else c;
      Execute(c', actions[1..], fault)
  }

  datatype CoreEvent =
    | Arrive(frame: Frame, latestFault: bool, storeFault: bool)
    | Create(room: U128, meta: RoomMetadata, createFault: bool)
    | Clear(room: U128)
    | Restart(plan: seq<RecoverStep>)

  datatype CoreOutput = Routed(actions: seq<RoomAction>) | Failed(error: RoomError) | Quiet

  function Step(c: Core, e: CoreEvent): (r: (Core, CoreOutput)) {
    match e
    case Arrive(f, latestFault, storeFault) =>
      var (m, result) := Processed(c.manager, f, c.store, latestFault);
      (match result
       case Err(error) => (Core(m, c.store), Failed(error))
       case Ok(actions) => (Execute(Core(m, c.store), actions, storeFault), Routed(actions)))
    case Create(room, meta, fault) =>
      var (m, s, result) := CreateRoomIn(c.manager, c.store, room, meta, fault);
      (Core(m, s), if result.Err? then Failed(result.error) else Quiet)
    case Clear(room) => (c.(manager := c.manager.(cache := c.manager.cache - {room})), Quiet)
    case Restart(plan) =>
      var (m, result) := Recover(NEW_MANAGER, c.store, plan);
      (Core(m, c.store), if result.Err? then Failed(result.error) else Quiet)
  }

  function Run(c: Core, es: seq<CoreEvent>): Core
    decreases |es|
  {
    if es == [] then c else Run(Step(c, es[0]).0, es[1..])
  }

  function Outputs(c: Core, es: seq<CoreEvent>): seq<CoreOutput>
    decreases |es|
  {
    if es == [] then [] else [Step(c, es[0]).1] + Outputs(Step(c, es[0]).0, es[1..])
  }
}
