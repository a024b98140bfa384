/** The in-memory frame store: one vector of frames per room. */
module Storage {
  import opened BigEndian
  import opened Results
  import opened Wire

  datatype RoomMetadata = RoomMetadata(creator: U64, createdAtSecs: U64)

  datatype StorageError =
    | NotFound(room: U128, index: nat)
    | Conflict(expected: nat, got: nat)
    | Serialization(cause: ProtocolError)
    | Io

  datatype Store = Store(rooms: map<U128, RoomMetadata>, frames: map<U128, seq<Frame>>)

  const EMPTY_STORE := Store(map[], map[])

  function Log(s: Store, room: U128): seq<Frame> {
    if room in s.frames then s.frames[room] else []
  }

  /** `store_frame`. The room's vector comes into being even when the index is refused. */
  function AfterStore(s: Store, room: U128, index: nat, f: Frame): (r: (Store, Result<(), StorageError>))
    ensures r.1.Ok? <==> index == |Log(s, room)|
    ensures Log(r.0, room) == if index == |Log(s, room)| then Log(s, room) + [f] else Log(s, room)
    ensures forall other | other != room :: Log(r.0, other) == Log(s, other)
    ensures r.0.rooms == s.rooms
  {
    var log := Log(s, room);
    if index != |log| then (s.(frames := s.frames[room := log]), Err(Conflict(|log|, index)))
    else (s.(frames := s.frames[room := log + [f]]), Ok(()))
  }

  function LatestIndex(s: Store, room: U128): Option<nat> {
    if Log(s, room) == [] then None else Some(|Log(s, room)| - 1)
  }

  /** At most `limit` frames of a log from position `from` on; nothing past its end. */
  function Page(log: seq<Frame>, from: nat, limit: nat): seq<Frame> {
    if from >= |log| then [] else if from + limit < |log| then log[from..from + limit] else log[from..]
  }

  function Loaded(s: Store, room: U128, from: nat, limit: nat): (r: Result<seq<Frame>, StorageError>) {
    if room !in s.frames then Err(NotFound(room, from)) else Ok(Page(s.frames[room], from, limit))
  }

  /** Creating a room is idempotent: the first metadata stays. */
  function AfterCreate(s: Store, room: U128, meta: RoomMetadata): (r: Store)
    ensures room in r.rooms && r.frames == s.frames
    ensures r.rooms.Keys == s.rooms.Keys + {room}
    ensures forall other | other in s.rooms :: r.rooms[other] == s.rooms[other]
    ensures room !in s.rooms ==> r.rooms[room] == meta
  {
    if room in s.rooms then s else s.(rooms := s.rooms[room := meta])
  }

  /** `MemoryStorage` behind the fault-injecting wrapper: `fault` is the wrapper's coin,
      and a faulty call fails with an I/O error before the vector is touched. */
  class MemoryStorage {
    var rooms: map<U128, RoomMetadata>
    var frames: map<U128, seq<Frame>>

    constructor ()
      ensures View() == EMPTY_STORE
    {
      rooms, frames := map[], map[];
    }

    ghost function View(): Store
      reads this
    {
      Store(rooms, frames)
    }

    method StoreFrame(room: U128, index: nat, f: Frame, fault: bool) returns (r: Result<(), StorageError>)
      modifies this
      ensures fault ==> View() == old(View()) && r == Err(Io)
      ensures !fault ==> (View(), r) == AfterStore(old(View()), room, index, f)
    {
      if fault {
        return Err(Io);
      }
      if room !in frames {
        frames := frames[room := []];
      }
      assert frames == old(frames)[room := Log(old(View()), room)];
      var expected := |frames[room]|;
      if index != expected {
        return Err(Conflict(expected, index));
      }
      frames := frames[room := frames[room] + [f]];
      assert frames == old(frames)[room := Log(old(View()), room) + [f]];
      return Ok(());
    }

    method LatestLogIndex(room: U128, fault: bool) returns (r: Result<Option<nat>, StorageError>)
      ensures r == if fault then Err(Io) else Ok(LatestIndex(View(), room))
    {
      if fault {
        return Err(Io);
      }
      if room !in frames || |frames[room]| == 0 {
        return Ok(None);
      }
      return Ok(Some(|frames[room]| - 1));
    }

    method CreateRoom(room: U128, meta: RoomMetadata, fault: bool) returns (r: Result<(), StorageError>)
      modifies this
      ensures fault ==> View() == old(View()) && r == Err(Io)
      ensures !fault ==> View() == AfterCreate(old(View()), room, meta) && r == Ok(())
    {
      if fault {
        return Err(Io);
      }
      if room !in rooms {
        rooms := rooms[room := meta];
      }
      return Ok(());
    }

    /** Slices the vector between `from` and the smaller of `from + limit` and its length. */
    method LoadFrames(room: U128, from: nat, limit: nat, fault: bool) returns (r: Result<seq<Frame>, StorageError>)
      ensures r == if fault then Err(Io) else Loaded(View(), room, from, limit)
    {
      if fault {
        return Err(Io);
      }
      if room !in frames {
        return Err(NotFound(room, from));
      }
      var log := frames[room];
      var end := if from + limit < |log| then from + limit else |log|;
      if from > |log| {
        return Ok([]);
      }
      assert log[from..end] == Page(log, from, limit);
      return Ok(log[from..end]);
    }
  }
}
