/** Whole runs of the room path: the stored log under failing writes, cleared caches and
    restarts; the cache that must agree with it; and restarts nobody can notice. */
module RoomRuns {
  import opened BigEndian
  import opened Results
  import opened Wire
  import opened Storage
  import opened Rooms

  // ---- one arrival, described by room and index only ----

  predicate Sequenceable(f: Frame) { ValidateStructure(f).Ok? && !IsWelcome(f) }

  function IndexFor(c: Core, room: U128): nat {
    if room in c.manager.cache then c.manager.cache[room] else |Log(c.store, room)|
  }

  predicate Accepts(c: Core, f: Frame, latestFault: bool) {
    var room := RoomId(f.header);
    && room in c.manager.metadata
    && Sequenceable(f)
    && (room in c.manager.cache || !latestFault)
    && IndexFor(c, room) < U64_MAX
  }

  function WithCached(c: Core, room: U128, index: nat): Core {
    c.(manager := c.manager.(cache := c.manager.cache[room := index]))
  }

  function PersistThenBroadcast(room: U128, index: nat, g: Frame): seq<RoomAction> {
    [PersistFrame(room, index, g), Broadcast(room, g, false)]
  }

  /** An accepted frame is numbered, cached past, persisted and broadcast, in that order. */
  lemma AcceptedStep(c: Core, f: Frame, latestFault: bool, storeFault: bool)
    requires Accepts(c, f, latestFault)
    ensures var room, index := RoomId(f.header), IndexFor(c, RoomId(f.header));
            var g := WithIndex(f, index);
            Step(c, Arrive(f, latestFault, storeFault))
            == (Persist(WithCached(c, room, index + 1), room, index, g, storeFault),
                Routed(PersistThenBroadcast(room, index, g)))
  {
    hide Processed, WithIndex, RoomId, Sequenceable;
    var room, index := RoomId(f.header), IndexFor(c, RoomId(f.header));
    AcceptedProcess(c, f, latestFault);
    ExecutePair(WithCached(c, room, index + 1), room, index, WithIndex(f, index), storeFault);
  }

  lemma AcceptedProcess(c: Core, f: Frame, latestFault: bool)
    requires Accepts(c, f, latestFault)
    ensures var room, index := RoomId(f.header), IndexFor(c, RoomId(f.header));
            Processed(c.manager, f, c.store, latestFault)
            == (WithCached(c, room, index + 1).manager, Ok(PersistThenBroadcast(room, index, WithIndex(f, index))))
  {
    hide WithIndex, Sequenced, ToRoomActions, PersistThenBroadcast;
    var room, index := RoomId(f.header), IndexFor(c, RoomId(f.header));
    ActionsOfSequenced(room, index, WithIndex(f, index));
  }

  lemma ActionsOfSequenced(room: U128, index: nat, g: Frame)
    ensures ToRoomActions(Sequenced(room, index, g)) == PersistThenBroadcast(room, index, g)
  {
    var a := Sequenced(room, index, g);
    assert a[..2][..1] == a[..1] && a[..1][..0] == [];
    assert ToRoomActions(a[..1]) == [];
    assert ToRoomActions(a[..2]) == [PersistFrame(room, index, g)];
  }

  lemma ExecutePair(c: Core, room: U128, index: nat, g: Frame, fault: bool)
    ensures Execute(c, PersistThenBroadcast(room, index, g), fault) == Persist(c, room, index, g, fault)
  {
    var c' := Persist(c, room, index, g, fault);
    assert PersistThenBroadcast(room, index, g)[1..] == [Broadcast(room, g, false)];
    assert Execute(c', [Broadcast(room, g, false)], fault) == c';
  }

  /** The fields that describe the frame itself are right. */
  predicate Consistent(f: Frame) {
    Magic(f.header) == MAGIC && Version(f.header) == VERSION && PayloadSize(f.header) == |f.payload|
  }

  predicate WellFormedFrame(f: Frame) { Consistent(f) && RoomId(f.header) != 0 && Epoch(f.header) <= MAX_EPOCH }

  /** Why an arriving frame is refused, if it is: the first of these that applies. A refusal for
      want of indices leaves the room cached. */
  lemma RefusalReason(c: Core, f: Frame, latestFault: bool, storeFault: bool)
    ensures var room, (c', out) := RoomId(f.header), Step(c, Arrive(f, latestFault, storeFault));
            var h, known := f.header, RoomId(f.header) in c.manager.metadata;
            && (out == Failed(RoomNotFound(room)) <==> !known)
            && (out == Failed(Sequencing(BadMagic)) <==> known && Magic(h) != MAGIC)
            && (out == Failed(Sequencing(BadVersion)) <==> known && Magic(h) == MAGIC && Version(h) != VERSION)
            && (out == Failed(Sequencing(SizeMismatch)) <==>
                  known && Magic(h) == MAGIC && Version(h) == VERSION && PayloadSize(h) != |f.payload|)
            && (out == Failed(Sequencing(ZeroRoom)) <==>
                  known && room == 0 && Consistent(f))
            && (out == Failed(Sequencing(EpochTooLarge)) <==>
                  known && room != 0 && Consistent(f) && Epoch(h) > MAX_EPOCH)
            && (out == Failed(Sequencing(StorageFailed)) <==>
                  known && WellFormedFrame(f) && !IsWelcome(f) && room !in c.manager.cache && latestFault)
            && (out == Failed(Sequencing(IndexOverflow)) <==>
                  known && WellFormedFrame(f) && !IsWelcome(f) && (room in c.manager.cache || !latestFault)
                  && IndexFor(c, room) >= U64_MAX)
            && (out == Failed(Sequencing(IndexOverflow)) ==> room in c'.manager.cache)
  {
    hide ToRoomActions, Execute, Sequenced, WithIndex, Magic, Version, PayloadSize, Epoch;
  }

  /** A frame that is not accepted touches neither log nor metadata, and at most fills a
      vacant cache entry with the log's length; if anything is sent it is a Welcome. */
  lemma UnacceptedStep(c: Core, f: Frame, latestFault: bool, storeFault: bool)
    requires !Accepts(c, f, latestFault)
    ensures var room, (c', out) := RoomId(f.header), Step(c, Arrive(f, latestFault, storeFault));
            && (c' == c || (room !in c.manager.cache && c' == WithCached(c, room, |Log(c.store, room)|)))
            && (out.Failed? || (IsWelcome(f) && out == Routed([Broadcast(room, f, false)])))
  {
    var room := RoomId(f.header);
    if room in c.manager.metadata && ValidateStructure(f).Ok? {
      if IsWelcome(f) {
        var a := [BroadcastToRoom(room, f)];
        assert a[..0] == [];
        assert ToRoomActions(a) == [Broadcast(room, f, false)];
        assert Execute(c, [Broadcast(room, f, false)], storeFault) == c;
      } else if room in c.manager.cache {
        assert WithCached(c, room, c.manager.cache[room]).manager.cache == c.manager.cache;
      }
    }
  }

  // ---- the stored log ----

  /** Position `i` of a room's log holds a well-formed, sequenced frame of that room numbered `i`. */
  predicate Placed(f: Frame, room: U128, i: nat) {
    RoomId(f.header) == room && LogIndex(f.header) == i && Sequenceable(f)
  }

  predicate SoundLog(s: Store) {
    forall room, i | room in s.frames && 0 <= i < |s.frames[room]| :: Placed(s.frames[room][i], room, i)
  }

  ghost predicate Extends(s: Store, t: Store) {
    forall room: U128 :: Log(s, room) <= Log(t, room)
  }

  /** Numbering a frame rewrites its index field and nothing else. */
  lemma WithIndexOnlyNumbers(f: Frame, index: U64)
    requires Sequenceable(f)
    ensures !IsWelcome(WithIndex(f, index))
    ensures Placed(WithIndex(f, index), RoomId(f.header), index)
  {
    WithLogIndexKeepsFields(f.header, index);
  }

  lemma PersistKeepsLog(c: Core, room: U128, index: nat, g: Frame, fault: bool)
    requires SoundLog(c.store) && Placed(g, room, index)
    ensures var s := Persist(c, room, index, g, fault).store; SoundLog(s) && Extends(c.store, s)
  {
    hide Placed;
  }

  lemma StepKeepsLog(c: Core, e: CoreEvent)
    requires SoundLog(c.store)
    ensures SoundLog(Step(c, e).0.store) && Extends(c.store, Step(c, e).0.store)
  {
    if e.Arrive? {
      ArriveKeepsLog(c, e.frame, e.latestFault, e.storeFault);
    } else {
      assert Step(c, e).0.store.frames == c.store.frames;
    }
  }

  lemma ArriveKeepsLog(c: Core, f: Frame, latestFault: bool, storeFault: bool)
    requires SoundLog(c.store)
    ensures var s := Step(c, Arrive(f, latestFault, storeFault)).0.store; SoundLog(s) && Extends(c.store, s)
  {
    hide Step, Persist, Placed, WithIndex;
    var room, index := RoomId(f.header), IndexFor(c, RoomId(f.header));
    if Accepts(c, f, latestFault) {
      AcceptedStep(c, f, latestFault, storeFault);
      WithIndexOnlyNumbers(f, index);
      PersistKeepsLog(WithCached(c, room, index + 1), room, index, WithIndex(f, index), storeFault);
    } else {
      UnacceptedStep(c, f, latestFault, storeFault);
    }
  }

  /** Over every run — frames of any shape, failing reads and writes, cleared caches, room
      creation, restarts that recover all, some or none of the rooms — each room's log only
      grows at its end, and every position holds its own room's frame of that number. */
  lemma {:induction false} LogSoundOverRuns(c: Core, es: seq<CoreEvent>)
    requires SoundLog(c.store)
    ensures SoundLog(Run(c, es).store) && Extends(c.store, Run(c, es).store)
    decreases |es|
  {
    if es != [] {
      StepKeepsLog(c, es[0]);
      LogSoundOverRuns(Step(c, es[0]).0, es[1..]);
    }
  }

  // ---- stored frames can be sent ----

  predicate AllEncode(s: Store) {
    forall room, i | room in s.frames && 0 <= i < |s.frames[room]| :: Encodable(s.frames[room][i])
  }

  predicate FitsWire(e: CoreEvent) { e.Arrive? ==> |e.frame.payload| <= MAX_PAYLOAD_SIZE }

  lemma NumberedFrameEncodes(f: Frame, index: U64)
    requires Sequenceable(f) && |f.payload| <= MAX_PAYLOAD_SIZE
    ensures Encodable(WithIndex(f, index))
  {
    WithLogIndexKeepsFields(f.header, index);
  }

  lemma PersistKeepsEncodable(c: Core, room: U128, index: nat, g: Frame, fault: bool)
    requires AllEncode(c.store) && Encodable(g)
    ensures AllEncode(Persist(c, room, index, g, fault).store)
  {
    hide Encodable;
  }

  lemma ArriveKeepsEncodable(c: Core, f: Frame, latestFault: bool, storeFault: bool)
    requires AllEncode(c.store) && |f.payload| <= MAX_PAYLOAD_SIZE
    ensures AllEncode(Step(c, Arrive(f, latestFault, storeFault)).0.store)
  {
    hide Step, Persist, Encodable, WithIndex, RoomId, AllEncode;
    var room, index := RoomId(f.header), IndexFor(c, RoomId(f.header));
    if Accepts(c, f, latestFault) {
      AcceptedStep(c, f, latestFault, storeFault);
      NumberedFrameEncodes(f, index);
      PersistKeepsEncodable(WithCached(c, room, index + 1), room, index, WithIndex(f, index), storeFault);
    } else {
      UnacceptedStep(c, f, latestFault, storeFault);
    }
  }

  lemma StepKeepsEncodable(c: Core, e: CoreEvent)
    requires AllEncode(c.store) && FitsWire(e)
    ensures AllEncode(Step(c, e).0.store)
  {
    if e.Arrive? {
      hide Step;
      ArriveKeepsEncodable(c, e.frame, e.latestFault, e.storeFault);
    } else {
      hide Encodable;
      assert Step(c, e).0.store.frames == c.store.frames;
    }
  }

  /** If every frame that came in fits the wire limit, so does every frame ever stored: the
      encoding a sync response asks for cannot fail. */
  lemma {:induction false} StoredFramesEncode(c: Core, es: seq<CoreEvent>)
    requires AllEncode(c.store) && forall e | e in es :: FitsWire(e)
    ensures AllEncode(Run(c, es).store)
    decreases |es|
  {
    hide Step, AllEncode, FitsWire;
    if es != [] {
      assert es[0] in es && forall e | e in es[1..] :: e in es;
      StepKeepsEncodable(c, es[0]);
      StoredFramesEncode(Step(c, es[0]).0, es[1..]);
    }
  }

  // ---- where stored frames come from ----

  predicate Keeps(c: Core, e: CoreEvent, room: U128) {
    && e.Arrive? && RoomId(e.frame.header) == room && Accepts(c, e.frame, e.latestFault) && !e.storeFault
    && IndexFor(c, room) == |Log(c.store, room)|
  }

  /** The frames offered to a room that make it into the log, as they arrived. */
  function Kept(c: Core, es: seq<CoreEvent>, room: U128): seq<Frame>
    decreases |es|
  {
    if es == [] then []
    else (if Keeps(c, es[0], room) then [es[0].frame] else []) + Kept(Step(c, es[0]).0, es[1..], room)
  }

  lemma StepKeepsFrame(c: Core, e: CoreEvent, room: U128)
    ensures var log, log' := Log(c.store, room), Log(Step(c, e).0.store, room);
            if Keeps(c, e, room)
            then e.Arrive? && |log| < U64_MAX && Sequenceable(e.frame) && log' == log + [WithIndex(e.frame, |log|)]
            else log' == log
  {
    if e.Arrive? {
      hide Step, Sequenceable, WithIndex, RoomId;
      if Accepts(c, e.frame, e.latestFault) {
        AcceptedStep(c, e.frame, e.latestFault, e.storeFault);
      } else {
        UnacceptedStep(c, e.frame, e.latestFault, e.storeFault);
      }
    }
  }

  /** Entry `i` of a log is the `i`-th frame kept for the room, with its index written in. */
  predicate Numbers(g: Frame, f: Frame, i: nat) { i < U64_MAX && Sequenceable(f) && g == WithIndex(f, i) }

  /** Over every run, whatever fails: what a log gains is the kept frames, numbered on. */
  lemma {:induction false} LogIsKeptFrames(c: Core, es: seq<CoreEvent>, room: U128)
    ensures var log, log', kept := Log(c.store, room), Log(Run(c, es).store, room), Kept(c, es, room);
            && |log'| == |log| + |kept| && log'[..|log|] == log
            && forall i | 0 <= i < |kept| :: Numbers(log'[|log| + i], kept[i], |log| + i)
    decreases |es|
  {
    hide Step, Keeps, Numbers, Log;
    if es != [] {
      var c', n := Step(c, es[0]).0, |Log(c.store, room)|;
      StepKeepsFrame(c, es[0], room);
      LogIsKeptFrames(c', es[1..], room);
      var log' := Log(Run(c, es).store, room);
      assert log'[..n] == Log(c'.store, room)[..n] == Log(c.store, room);
      if Keeps(c, es[0], room) {
        assert Numbers(Log(c'.store, room)[n], es[0].frame, n) by {
          KeptIsNumbered(Log(c'.store, room)[n], es[0].frame, n);
        }
        assert log'[n] == log'[..n + 1][n] == Log(c'.store, room)[n];
      }
    }
  }

  lemma KeptIsNumbered(g: Frame, f: Frame, i: nat)
    requires i < U64_MAX && Sequenceable(f) && g == WithIndex(f, i)
    ensures Numbers(g, f, i)
  {
  }

  predicate Subsequence(xs: seq<Frame>, ys: seq<Frame>)
    decreases |ys|
  {
    xs == [] || (ys != [] && ((xs[0] == ys[0] && Subsequence(xs[1..], ys[1..])) || Subsequence(xs, ys[1..])))
  }

  lemma SubsequenceCons(f: Frame, xs: seq<Frame>, ys: seq<Frame>)
    requires Subsequence(xs, ys)
    ensures Subsequence([f] + xs, [f] + ys) && Subsequence(xs, [f] + ys)
  {
    assert ([f] + xs)[1..] == xs && ([f] + ys)[1..] == ys;
  }

  /** The kept frames are offered ones, in the order they were offered. */
  lemma {:induction false} KeptAreOffered(c: Core, es: seq<CoreEvent>, room: U128)
    ensures Subsequence(Kept(c, es, room), Offered(es, room))
    decreases |es|
  {
    hide Step, Keeps, IsOffer, Subsequence;
    if es == [] {
      assert Subsequence([], []) by { NothingIsSubsequence([]); }
    } else {
      var c' := Step(c, es[0]).0;
      KeptIsOffered(c, es[0], room);
      KeptAreOffered(c', es[1..], room);
      if IsOffer(es[0], room) {
        SubsequenceCons(es[0].frame, Kept(c', es[1..], room), Offered(es[1..], room));
        assert [] + Kept(c', es[1..], room) == Kept(c', es[1..], room);
      } else {
        assert [] + Kept(c', es[1..], room) == Kept(c', es[1..], room) && [] + Offered(es[1..], room) == Offered(es[1..], room);
      }
    }
  }

  lemma NothingIsSubsequence(ys: seq<Frame>)
    ensures Subsequence([], ys)
  {
  }

  lemma KeptIsOffered(c: Core, e: CoreEvent, room: U128)
    ensures Keeps(c, e, room) ==> IsOffer(e, room)
    ensures Keeps(c, e, room) || IsOffer(e, room) ==> e.Arrive?
  {
    hide Sequenceable, RoomId;
  }

  // ---- the cache against the log ----

  /** The rooms whose cached index has outlived a failed write. A room joins them when the write
      of an accepted frame fails, and leaves them when its index is cleared, when the next write
      meets the conflict, or with a restart; nothing else moves it in or out. */
  function DriftedBy(c: Core, e: CoreEvent, drifted: set<U128>): set<U128> {
    match e
    case Restart(_) => {}
    case Clear(room) => drifted - {room}
    case Create(_, _, _) => drifted
    case Arrive(f, latestFault, storeFault) =>
      if !Accepts(c, f, latestFault) then drifted
      else if storeFault then drifted + {RoomId(f.header)}
      else drifted - {RoomId(f.header)}
  }

  function DriftedAfter(c: Core, es: seq<CoreEvent>, drifted: set<U128>): set<U128>
    decreases |es|
  {
    if es == [] then drifted else DriftedAfter(Step(c, es[0]).0, es[1..], DriftedBy(c, es[0], drifted))
  }

  /** The cached index is never behind the log, and ahead of it exactly for the drifted rooms. */
  predicate Tracks(c: Core, drifted: set<U128>) {
    && drifted <= c.manager.cache.Keys
    && forall room | room in c.manager.cache ::
         if room in drifted then |Log(c.store, room)| < c.manager.cache[room]
         else |Log(c.store, room)| == c.manager.cache[room]
  }

  lemma {:induction false} RecoverCaches(m: Manager, s: Store, plan: seq<RecoverStep>)
    requires forall room | room in m.cache :: m.cache[room] == |Log(s, room)|
    ensures var m' := Recover(m, s, plan).0;
            forall room | room in m'.cache :: m'.cache[room] == |Log(s, room)|
    decreases |plan|
  {
    if plan != [] {
      var (m', result) := Recovered(m, s, plan[0].room, plan[0].metaFault, plan[0].latestFault);
      if result.Ok? {
        RecoverCaches(m', s, plan[1..]);
      }
    }
  }

  lemma StepTracks(c: Core, e: CoreEvent, drifted: set<U128>)
    requires Tracks(c, drifted)
    ensures Tracks(Step(c, e).0, DriftedBy(c, e, drifted))
  {
    match e
    case Arrive(f, latestFault, storeFault) => ArriveTracks(c, f, latestFault, storeFault, drifted);
    case Restart(plan) => RecoverCaches(NEW_MANAGER, c.store, plan);
    case Create(_, _, _) =>
    case Clear(_) =>
  }

  lemma ArriveTracks(c: Core, f: Frame, latestFault: bool, storeFault: bool, drifted: set<U128>)
    requires Tracks(c, drifted)
    ensures var e := Arrive(f, latestFault, storeFault); Tracks(Step(c, e).0, DriftedBy(c, e, drifted))
  {
    hide Step, Sequenceable, WithIndex, RoomId;
    if Accepts(c, f, latestFault) {
      AcceptedStep(c, f, latestFault, storeFault);
    } else {
      UnacceptedStep(c, f, latestFault, storeFault);
    }
  }

  /** After any run a cached index equals its room's log length if and only if no write
      failed since the entry was made, and otherwise it is ahead. */
  lemma {:induction false} CacheAheadExactlyAfterFailures(c: Core, es: seq<CoreEvent>, drifted: set<U128>)
    requires Tracks(c, drifted)
    ensures Tracks(Run(c, es), DriftedAfter(c, es, drifted))
    decreases |es|
  {
    if es != [] {
      StepTracks(c, es[0], drifted);
      CacheAheadExactlyAfterFailures(Step(c, es[0]).0, es[1..], DriftedBy(c, es[0], drifted));
    }
  }

  // ---- healthy storage ----

  /** No call fails, and a restart recovers exactly the rooms storage lists, in any order. */
  predicate Healthy(c: Core, e: CoreEvent) {
    match e
    case Arrive(_, latestFault, storeFault) => !latestFault && !storeFault
    case Create(_, _, fault) => !fault
    case Clear(_) => true
    case Restart(plan) =>
      && (forall step | step in plan :: !step.metaFault && !step.latestFault)
      && PlanRooms(plan) == c.store.rooms.Keys
  }

  function PlanRooms(plan: seq<RecoverStep>): set<U128> { set step | step in plan :: step.room }

  predicate HealthyRun(c: Core, es: seq<CoreEvent>)
    decreases |es|
  {
    es == [] || (Healthy(c, es[0]) && HealthyRun(Step(c, es[0]).0, es[1..]))
  }

  predicate Drifted(c: Core, room: U128) {
    room in c.manager.cache && c.manager.cache[room] != |Log(c.store, room)|
  }

  /** Every room the manager knows is listed in storage. */
  predicate Backed(c: Core) { c.manager.metadata.Keys <= c.store.rooms.Keys }

  function Offered(es: seq<CoreEvent>, room: U128): seq<Frame> {
    if es == [] then []
    else (if IsOffer(es[0], room) then [es[0].frame] else []) + Offered(es[1..], room)
  }

  predicate IsOffer(e: CoreEvent, room: U128) {
    e.Arrive? && RoomId(e.frame.header) == room && Sequenceable(e.frame)
  }

  function Numbered(fs: seq<Frame>, n: nat): (gs: seq<Frame>)
    requires n + |fs| <= U64_MAX
    ensures |gs| == |fs|
  {
    if fs == [] then [] else [WithIndex(fs[0], n)] + Numbered(fs[1..], n + 1)
  }

  lemma NumberedCons(f: Frame, fs: seq<Frame>, n: nat)
    requires n + 1 + |fs| <= U64_MAX
    ensures Numbered([f] + fs, n) == [WithIndex(f, n)] + Numbered(fs, n + 1)
  {
    assert ([f] + fs)[1..] == fs;
  }

  lemma {:induction false} RecoverMetadata(m: Manager, s: Store, plan: seq<RecoverStep>)
    requires forall step | step in plan :: !step.metaFault && !step.latestFault && step.room in s.rooms
    requires forall room | room in m.metadata :: room in s.rooms && m.metadata[room] == s.rooms[room]
    ensures var (m', result) := Recover(m, s, plan);
            && result == Ok(())
            && m'.metadata.Keys == m.metadata.Keys + PlanRooms(plan)
            && forall room | room in m'.metadata :: room in s.rooms && m'.metadata[room] == s.rooms[room]
    decreases |plan|
  {
    if plan == [] {
    } else {
      assert plan[0] in plan;
      var (m', result) := Recovered(m, s, plan[0].room, plan[0].metaFault, plan[0].latestFault);
      forall step | step in plan[1..] ensures step in plan {}
      RecoverMetadata(m', s, plan[1..]);
      assert PlanRooms(plan) == {plan[0].room} + PlanRooms(plan[1..]) by {
        forall step | step in plan ensures step == plan[0] || step in plan[1..] {}
      }
    }
  }

  lemma HealthyRestart(c: Core, plan: seq<RecoverStep>)
    requires Healthy(c, Restart(plan))
    ensures var (c', out) := Step(c, Restart(plan));
            out == Quiet && c'.store == c.store && c'.manager.metadata == c.store.rooms
  {
    forall step | step in plan ensures step.room in c.store.rooms {
      assert step.room in PlanRooms(plan);
    }
    RecoverMetadata(NEW_MANAGER, c.store, plan);
  }

  /** One healthy event and one room: an offered frame lands if the room has not drifted,
      is lost and heals the drift if it has, and nothing else moves the room's log. */
  lemma HealthyStep(c: Core, e: CoreEvent, room: U128)
    requires Healthy(c, e) && Backed(c) && room in c.manager.metadata
    requires room in c.manager.cache ==> |Log(c.store, room)| <= c.manager.cache[room]
    requires IsOffer(e, room) ==> IndexFor(c, room) < U64_MAX
    ensures HealthyEffect(c, e, room, Step(c, e).0)
  {
    match e
    case Arrive(f, _, _) => HealthyArrive(c, f, room);
    case Restart(plan) =>
      HealthyRestart(c, plan);
      RecoverCaches(NEW_MANAGER, c.store, plan);
    case Create(_, _, _) =>
    case Clear(_) =>
  }

  predicate HealthyEffect(c: Core, e: CoreEvent, room: U128, c': Core) {
    && Backed(c') && room in c'.manager.metadata
    && Log(c'.store, room) == Log(c.store, room) + Landed(c, e, room)
    && (Drifted(c', room) ==>
          Drifted(c, room) && !IsOffer(e, room) && c'.manager.cache[room] == c.manager.cache[room])
  }

  function Landed(c: Core, e: CoreEvent, room: U128): seq<Frame> {
    var n := |Log(c.store, room)|;
    if IsOffer(e, room) && !Drifted(c, room) && n <= U64_MAX then [WithIndex(e.frame, n)] else []
  }

  lemma HealthyArrive(c: Core, f: Frame, room: U128)
    requires Backed(c) && room in c.manager.metadata
    requires room in c.manager.cache ==> |Log(c.store, room)| <= c.manager.cache[room]
    requires IsOffer(Arrive(f, false, false), room) ==> IndexFor(c, room) < U64_MAX
    ensures var e := Arrive(f, false, false); HealthyEffect(c, e, room, Step(c, e).0)
  {
    hide Step, Sequenceable, WithIndex, RoomId;
    if Accepts(c, f, false) {
      AcceptedStep(c, f, false, false);
    } else {
      UnacceptedStep(c, f, false, false);
    }
  }

  /** With healthy storage and no drift, the room's log grows by exactly the offered frames,
      numbered from the next free index, whatever else happens in between. */
  lemma {:induction false} HealthyRunLandsAll(c: Core, es: seq<CoreEvent>, room: U128)
    requires HealthyRun(c, es) && Backed(c) && room in c.manager.metadata && !Drifted(c, room)
    requires |Log(c.store, room)| + |Offered(es, room)| <= U64_MAX
    ensures Log(Run(c, es).store, room)
         == Log(c.store, room) + Numbered(Offered(es, room), |Log(c.store, room)|)
    decreases |es|
  {
    hide Step, Sequenceable, WithIndex, RoomId, Healthy, Backed, Numbered;
    if es != [] {
      var e, c', n := es[0], Step(c, es[0]).0, |Log(c.store, room)|;
      HealthyStep(c, e, room);
      HealthyRunLandsAll(c', es[1..], room);
      if IsOffer(e, room) {
        NumberedCons(e.frame, Offered(es[1..], room), n);
        assert Offered(es, room) == [e.frame] + Offered(es[1..], room);
        assert Log(c'.store, room) == Log(c.store, room) + [WithIndex(e.frame, n)];
      } else {
        assert Offered(es, room) == Offered(es[1..], room);
        assert Log(c'.store, room) == Log(c.store, room);
      }
    }
  }

  /** From any state earlier failures may have left, healthy storage loses at most one more
      frame of a room; every later one lands at the next free index. */
  lemma {:induction false} HealthyRunLosesAtMostOne(c: Core, es: seq<CoreEvent>, room: U128) returns (lost: nat)
    requires HealthyRun(c, es) && Backed(c) && room in c.manager.metadata
    requires room in c.manager.cache ==> |Log(c.store, room)| <= c.manager.cache[room] < U64_MAX
    requires |Log(c.store, room)| + |Offered(es, room)| <= U64_MAX
    ensures lost <= 1 && lost <= |Offered(es, room)| && (lost == 1 ==> Drifted(c, room))
    ensures Log(Run(c, es).store, room)
         == Log(c.store, room) + Numbered(Offered(es, room)[lost..], |Log(c.store, room)|)
    decreases |es|
  {
    hide Step, Sequenceable, WithIndex, RoomId, Healthy, Backed, IsOffer, Numbered;
    if !Drifted(c, room) {
      HealthyRunLandsAll(c, es, room);
      return 0;
    } else if es == [] {
      return 0;
    } else {
      HealthyStep(c, es[0], room);
      var c' := Step(c, es[0]).0;
      if IsOffer(es[0], room) {
        HealthyRunLandsAll(c', es[1..], room);
        assert Offered(es, room)[1..] == Offered(es[1..], room);
        return 1;
      } else {
        assert Offered(es, room) == Offered(es[1..], room);
        lost := HealthyRunLosesAtMostOne(c', es[1..], room);
      }
    }
  }

  lemma {:induction false} RecoverBacked(m: Manager, s: Store, plan: seq<RecoverStep>)
    requires m.metadata.Keys <= s.rooms.Keys
    ensures Recover(m, s, plan).0.metadata.Keys <= s.rooms.Keys
    decreases |plan|
  {
    hide Initialize, Peek;
    if plan != [] {
      var (m', result) := Recovered(m, s, plan[0].room, plan[0].metaFault, plan[0].latestFault);
      if result.Ok? {
        RecoverBacked(m', s, plan[1..]);
      }
    }
  }

  lemma StepBacked(c: Core, e: CoreEvent)
    requires Backed(c)
    ensures Backed(Step(c, e).0)
  {
    match e
    case Arrive(f, latestFault, storeFault) => ArriveBacked(c, f, latestFault, storeFault);
    case Restart(plan) => RecoverBacked(NEW_MANAGER, c.store, plan);
    case Create(_, _, _) =>
    case Clear(_) =>
  }

  lemma ArriveBacked(c: Core, f: Frame, latestFault: bool, storeFault: bool)
    requires Backed(c)
    ensures Backed(Step(c, Arrive(f, latestFault, storeFault)).0)
  {
    hide Step, Sequenceable, WithIndex, RoomId;
    if Accepts(c, f, latestFault) {
      AcceptedStep(c, f, latestFault, storeFault);
    } else {
      UnacceptedStep(c, f, latestFault, storeFault);
    }
  }

  lemma {:induction false} BackedRun(c: Core, es: seq<CoreEvent>)
    requires Backed(c)
    ensures Backed(Run(c, es))
    decreases |es|
  {
    hide Step, Backed;
    if es != [] {
      StepBacked(c, es[0]);
      BackedRun(Step(c, es[0]).0, es[1..]);
    }
  }

  /** From nothing, after any past with any failures: once storage is healthy at most one of the
      frames then offered to a known room is missing from its log — one, only if the room had
      drifted — and the rest follow each other from the next free index on. */
  lemma AnyPastLosesAtMostOne(past: seq<CoreEvent>, es: seq<CoreEvent>, room: U128) returns (lost: nat)
    requires HealthyRun(Run(EMPTY_CORE, past), es) && room in Run(EMPTY_CORE, past).manager.metadata
    requires room in Run(EMPTY_CORE, past).manager.cache ==> Run(EMPTY_CORE, past).manager.cache[room] < U64_MAX
    requires |Log(Run(EMPTY_CORE, past).store, room)| + |Offered(es, room)| <= U64_MAX
    ensures var log := Log(Run(EMPTY_CORE, past).store, room);
            && lost <= 1 && lost <= |Offered(es, room)| && (lost == 1 ==> room in DriftedAfter(EMPTY_CORE, past, {}))
            && Log(Run(EMPTY_CORE, past + es).store, room) == log + Numbered(Offered(es, room)[lost..], |log|)
  {
    hide Run, DriftedAfter, HealthyRun, Numbered, Offered;
    var c := Run(EMPTY_CORE, past);
    BackedRun(EMPTY_CORE, past);
    CacheAheadExactlyAfterFailures(EMPTY_CORE, past, {});
    lost := HealthyRunLosesAtMostOne(c, es, room);
    RunSplit(EMPTY_CORE, past, es);
  }

  /** A drifted room heals — the second of two offered frames lands — exactly when its cached
      index has not run up to the last 64-bit value, where every frame is refused for good. */
  lemma DriftHealsIffBelowMax(c: Core, f: Frame, g: Frame, room: U128)
    requires Backed(c) && room in c.manager.metadata
    requires room in c.manager.cache && |Log(c.store, room)| < c.manager.cache[room] <= U64_MAX
    requires Sequenceable(f) && Sequenceable(g) && RoomId(f.header) == RoomId(g.header) == room
    ensures var n, c' := |Log(c.store, room)|, Run(c, [Arrive(f, false, false), Arrive(g, false, false)]);
            && (Log(c'.store, room) == Log(c.store, room) + [WithIndex(g, n)] <==> c.manager.cache[room] < U64_MAX)
            && (c.manager.cache[room] == U64_MAX ==> c' == c)
  {
    hide Step, Sequenceable, WithIndex, RoomId;
    var es := [Arrive(f, false, false), Arrive(g, false, false)];
    assert es[1..] == [Arrive(g, false, false)] && es[1..][1..] == [];
    var c1 := Step(c, es[0]).0;
    assert Run(c, es) == Run(c1, es[1..]) == Run(Step(c1, es[1]).0, []) == Step(c1, es[1]).0;
    if c.manager.cache[room] < U64_MAX {
      HealthyStep(c, es[0], room);
      HealthyStep(c1, es[1], room);
    } else {
      UnacceptedStep(c, f, false, false);
      UnacceptedStep(c, g, false, false);
    }
  }

  // ---- restarts ----

  /** The manager knows exactly the stored rooms and no cached index is off. */
  predicate Settled(c: Core) {
    && c.manager.metadata == c.store.rooms
    && forall room | room in c.manager.cache :: c.manager.cache[room] == |Log(c.store, room)|
  }

  /** Two settled states over one store cannot be told apart by a healthy event. */
  lemma SettledStatesAgree(c: Core, d: Core, e: CoreEvent)
    requires Settled(c) && Settled(d) && c.store == d.store && Healthy(c, e)
    ensures Agree(Step(c, e), Step(d, e))
  {
    match e
    case Arrive(f, _, _) => SettledArrive(c, d, f);
    case Restart(plan) => RestartStaysSettled(c, plan);
    case Create(_, _, _) =>
    case Clear(_) =>
  }

  predicate Agree(p: (Core, CoreOutput), q: (Core, CoreOutput)) {
    p.1 == q.1 && p.0.store == q.0.store && Settled(p.0) && Settled(q.0)
  }

  lemma SettledArrive(c: Core, d: Core, f: Frame)
    requires Settled(c) && Settled(d) && c.store == d.store
    ensures Agree(Step(c, Arrive(f, false, false)), Step(d, Arrive(f, false, false)))
  {
    var room := RoomId(f.header);
    assert IndexFor(c, room) == IndexFor(d, room);
    if Accepts(c, f, false) {
      AcceptedSettles(c, f);
      AcceptedSettles(d, f);
    } else {
      RefusedSettles(c, f);
      RefusedSettles(d, f);
    }
  }

  lemma AcceptedSettles(c: Core, f: Frame)
    requires Settled(c) && Accepts(c, f, false)
    ensures var room, (c', out) := RoomId(f.header), Step(c, Arrive(f, false, false));
            var n := |Log(c.store, room)|;
            && Settled(c') && c'.store == AfterStore(c.store, room, n, WithIndex(f, n)).0
            && out == Routed(PersistThenBroadcast(room, n, WithIndex(f, n)))
  {
    hide Step, Sequenceable, WithIndex, RoomId;
    AcceptedStep(c, f, false, false);
  }

  /** What a refused frame reports depends on the frame, the known rooms and the log lengths only. */
  lemma RefusedSettles(c: Core, f: Frame)
    requires Settled(c) && !Accepts(c, f, false)
    ensures var room, (c', out) := RoomId(f.header), Step(c, Arrive(f, false, false));
            && Settled(c') && c'.store == c.store
            && out == (if room !in c.store.rooms then Failed(RoomNotFound(room))
                       else if ValidateStructure(f).Err? then Failed(Sequencing(ValidateStructure(f).error))
                       else if IsWelcome(f) then Routed([Broadcast(room, f, false)])
                       else Failed(Sequencing(IndexOverflow)))
  {
    hide ValidateStructure, IsWelcome, RoomId;
    UnacceptedStep(c, f, false, false);
  }

  lemma {:induction false} SettledRunsAgree(c: Core, d: Core, es: seq<CoreEvent>)
    requires Settled(c) && Settled(d) && c.store == d.store && HealthyRun(c, es)
    ensures HealthyRun(d, es) && Outputs(c, es) == Outputs(d, es)
    ensures Run(c, es).store == Run(d, es).store && Settled(Run(c, es))
    decreases |es|
  {
    hide Step;
    if es != [] {
      SettledStatesAgree(c, d, es[0]);
      SettledRunsAgree(Step(c, es[0]).0, Step(d, es[0]).0, es[1..]);
    }
  }

  lemma {:induction false} RunSplit(c: Core, es: seq<CoreEvent>, fs: seq<CoreEvent>)
    ensures Run(c, es + fs) == Run(Run(c, es), fs)
    ensures Outputs(c, es + fs) == Outputs(c, es) + Outputs(Run(c, es), fs)
    ensures HealthyRun(c, es + fs) <==> HealthyRun(c, es) && HealthyRun(Run(c, es), fs)
    decreases |es|
  {
    if es == [] {
      assert es + fs == fs;
    } else {
      assert (es + fs)[1..] == es[1..] + fs;
      RunSplit(Step(c, es[0]).0, es[1..], fs);
    }
  }

  /** A restart that rebuilds the manager from storage, placed anywhere in a failure-free run,
      changes no persist and no broadcast before or after it and leaves the same store. */
  lemma RestartUnnoticed(c: Core, before: seq<CoreEvent>, plan: seq<RecoverStep>, after: seq<CoreEvent>)
    requires Settled(c) && HealthyRun(c, before + after) && Healthy(Run(c, before), Restart(plan))
    ensures Outputs(c, before + [Restart(plan)] + after)
         == Outputs(c, before) + [Quiet] + Outputs(Run(c, before), after)
    ensures Run(c, before + [Restart(plan)] + after).store == Run(c, before + after).store
  {
    hide Step, Run, Outputs, HealthyRun, Healthy, Settled, Agree;
    var mid, restart := Run(c, before), Restart(plan);
    RunSplit(c, before, after);
    SettledRunsAgree(c, c, before);
    RestartStaysSettled(mid, plan);
    SettledRunsAgree(mid, Step(mid, restart).0, after);
    assert before + [restart] + after == before + ([restart] + after);
    RunSplit(c, before, [restart] + after);
    StepFirst(mid, restart, after);
  }

  lemma StepFirst(c: Core, e: CoreEvent, es: seq<CoreEvent>)
    ensures var (c', out) := Step(c, e); Run(c, [e] + es) == Run(c', es) && Outputs(c, [e] + es) == [out] + Outputs(c', es)
  {
    assert ([e] + es)[1..] == es;
  }

  lemma RestartStaysSettled(c: Core, plan: seq<RecoverStep>)
    requires Healthy(c, Restart(plan))
    ensures var (c', out) := Step(c, Restart(plan)); out == Quiet && c'.store == c.store && Settled(c')
  {
    HealthyRestart(c, plan);
    RecoverCaches(NEW_MANAGER, c.store, plan);
  }

  predicate Refused(s: Store, step: RecoverStep) { step.metaFault || step.room !in s.rooms || step.latestFault }

  /** The first room of a plan that is not yet known and cannot be recovered. */
  function FirstFailure(known: set<U128>, s: Store, plan: seq<RecoverStep>): (k: nat)
    ensures k <= |plan|
    decreases |plan|
  {
    if plan == [] || (plan[0].room !in known && Refused(s, plan[0])) then 0
    else 1 + FirstFailure(known + {plan[0].room}, s, plan[1..])
  }

  /** What a restart recovers: the rooms of the plan up to the first that cannot be recovered — and
      that one's metadata too if only its log could not be read — with the metadata storage has;
      and it reports that failure, or none. */
  lemma {:induction false} RecoveredIff(m: Manager, s: Store, plan: seq<RecoverStep>)
    requires m.cache.Keys <= m.metadata.Keys
    requires forall room | room in m.metadata :: room in s.rooms && m.metadata[room] == s.rooms[room]
    ensures var k, (m', result) := FirstFailure(m.metadata.Keys, s, plan), Recover(m, s, plan);
            var named := m.metadata.Keys + PlanRooms(plan[..k]);
            && (forall room | room in m'.metadata :: room in s.rooms && m'.metadata[room] == s.rooms[room])
            && (k == |plan| ==> result == Ok(()) && m'.metadata.Keys == named)
            && (k < |plan| ==>
                  var step := plan[k];
                  && result == Err(if step.metaFault then StorageRefused(Io) else if step.room !in s.rooms then RoomNotFound(step.room)
                                   else Sequencing(StorageFailed))
                  && m'.metadata.Keys == if !step.metaFault && step.room in s.rooms then named + {step.room} else named)
    decreases |plan|
  {
    hide Peek;
    var k := FirstFailure(m.metadata.Keys, s, plan);
    if k == 0 {
      assert plan[..0] == [] && PlanRooms([]) == {};
      assert m.metadata.Keys + {} == m.metadata.Keys;
      if plan != [] {
        RefusedStep(m, s, plan[0]);
      }
    } else {
      var (m1, r1) := Recovered(m, s, plan[0].room, plan[0].metaFault, plan[0].latestFault);
      assert plan[..k] == [plan[0]] + plan[1..][..k - 1];
      assert PlanRooms(plan[..k]) == {plan[0].room} + PlanRooms(plan[1..][..k - 1]) by {
        PlanRoomsCons(plan[0], plan[1..][..k - 1]);
      }
      AcceptedRecovery(m, s, plan[0]);
      assert m1.metadata.Keys == m.metadata.Keys + {plan[0].room};
      RecoveredIff(m1, s, plan[1..]);
      assert plan[1..][k - 1..] == plan[k..];
      assert m1.metadata.Keys + PlanRooms(plan[1..][..k - 1]) == m.metadata.Keys + PlanRooms(plan[..k]);
    }
  }

  lemma PlanRoomsCons(step: RecoverStep, plan: seq<RecoverStep>)
    ensures PlanRooms([step] + plan) == {step.room} + PlanRooms(plan)
  {
    forall x | x in [step] + plan ensures x == step || x in plan {}
    assert step in [step] + plan && forall x | x in plan :: x in [step] + plan;
  }

  lemma RefusedStep(m: Manager, s: Store, step: RecoverStep)
    requires m.cache.Keys <= m.metadata.Keys && step.room !in m.metadata && Refused(s, step)
    ensures var (m', result) := Recovered(m, s, step.room, step.metaFault, step.latestFault);
            && result == Err(if step.metaFault then StorageRefused(Io) else if step.room !in s.rooms then RoomNotFound(step.room)
                             else Sequencing(StorageFailed))
            && m'.metadata == if !step.metaFault && step.room in s.rooms then m.metadata[step.room := s.rooms[step.room]] else m.metadata
  {
  }

  lemma AcceptedRecovery(m: Manager, s: Store, step: RecoverStep)
    requires m.cache.Keys <= m.metadata.Keys && (step.room in m.metadata || !Refused(s, step))
    requires forall room | room in m.metadata :: room in s.rooms && m.metadata[room] == s.rooms[room]
    ensures var (m', result) := Recovered(m, s, step.room, step.metaFault, step.latestFault);
            && result == Ok(()) && m'.cache.Keys <= m'.metadata.Keys && m'.metadata.Keys == m.metadata.Keys + {step.room}
            && forall room | room in m'.metadata :: room in s.rooms && m'.metadata[room] == s.rooms[room]
  {
  }

  /** The sequenced frames broadcast to a room, in order. */
  function Sent(outs: seq<CoreOutput>, room: U128): seq<Frame> {
    if outs == [] then [] else SentIn(outs[0], room) + Sent(outs[1..], room)
  }

  function SentIn(out: CoreOutput, room: U128): seq<Frame> {
    if out.Routed? then SentBy(out.actions, room) else []
  }

  function SentBy(actions: seq<RoomAction>, room: U128): seq<Frame> {
    if actions == [] then []
    else (if actions[0].Broadcast? && actions[0].room == room && !IsWelcome(actions[0].frame)
          then [actions[0].frame] else []) + SentBy(actions[1..], room)
  }

  lemma SentByPair(r: U128, n: nat, g: Frame, room: U128)
    requires !IsWelcome(g)
    ensures SentBy(PersistThenBroadcast(r, n, g), room) == if r == room then [g] else []
  {
    hide IsWelcome;
    var actions := PersistThenBroadcast(r, n, g);
    assert actions[1..] == [Broadcast(r, g, false)] && actions[1..][1..] == [];
    assert SentBy(actions, room) == SentBy(actions[1..], room);
  }

  /** A frame of the room that is broadcast and not stored: its write fails, or it meets an
      index that an earlier failure left behind. */
  predicate Loses(c: Core, e: CoreEvent, room: U128, drifted: set<U128>) {
    && e.Arrive? && RoomId(e.frame.header) == room && Accepts(c, e.frame, e.latestFault)
    && (e.storeFault || room in drifted)
  }

  function Losses(c: Core, es: seq<CoreEvent>, room: U128, drifted: set<U128>): nat
    decreases |es|
  {
    if es == [] then 0
    else (if Loses(c, es[0], room, drifted) then 1 else 0) + Losses(Step(c, es[0]).0, es[1..], room, DriftedBy(c, es[0], drifted))
  }

  lemma ArriveSendsAndStores(c: Core, f: Frame, latestFault: bool, storeFault: bool, room: U128, drifted: set<U128>)
    requires Tracks(c, drifted)
    ensures var e := Arrive(f, latestFault, storeFault);
            var (c', out) := Step(c, e);
            if Loses(c, e, room, drifted) then Log(c'.store, room) == Log(c.store, room) && |SentIn(out, room)| == 1
            else Log(c'.store, room) == Log(c.store, room) + SentIn(out, room)
  {
    hide Step, Sequenceable, WithIndex, RoomId, IsWelcome, WithLogIndex, SentBy;
    var r := RoomId(f.header);
    if Accepts(c, f, latestFault) {
      var g := WithIndex(f, IndexFor(c, r));
      AcceptedStep(c, f, latestFault, storeFault);
      WithIndexOnlyNumbers(f, IndexFor(c, r));
      SentByPair(r, IndexFor(c, r), g, room);
    } else {
      UnacceptedStep(c, f, latestFault, storeFault);
      if IsWelcome(f) {
        WelcomeIsNotSequenced(f, room);
      }
    }
  }

  lemma WelcomeIsNotSequenced(f: Frame, room: U128)
    requires IsWelcome(f)
    ensures SentBy([Broadcast(RoomId(f.header), f, false)], room) == []
  {
    hide IsWelcome, RoomId;
  }

  lemma StepSendsAndStores(c: Core, e: CoreEvent, room: U128, drifted: set<U128>)
    requires Tracks(c, drifted)
    ensures var (c', out) := Step(c, e);
            if Loses(c, e, room, drifted) then Log(c'.store, room) == Log(c.store, room) && |SentIn(out, room)| == 1
            else Log(c'.store, room) == Log(c.store, room) + SentIn(out, room)
  {
    if e.Arrive? {
      hide Step;
      ArriveSendsAndStores(c, e.frame, e.latestFault, e.storeFault, room, drifted);
    } else {
      hide Tracks, Recover, CreateRoomIn;
      CreateKeepsLogs(c, e, room);
    }
  }

  lemma CreateKeepsLogs(c: Core, e: CoreEvent, room: U128)
    requires !e.Arrive?
    ensures Log(Step(c, e).0.store, room) == Log(c.store, room) && SentIn(Step(c, e).1, room) == []
  {
  }

  /** Over every run, whatever fails: each frame broadcast to a room is stored or counted as
      lost, and the broadcasts are exactly what the room's log gained if and only if none of
      them was lost. What happens to other rooms does not matter. */
  lemma {:induction false} BroadcastsAreTheLog(c: Core, es: seq<CoreEvent>, room: U128, drifted: set<U128>)
    requires Tracks(c, drifted)
    ensures |Log(Run(c, es).store, room)| + Losses(c, es, room, drifted) == |Log(c.store, room)| + |Sent(Outputs(c, es), room)|
    ensures Log(Run(c, es).store, room) == Log(c.store, room) + Sent(Outputs(c, es), room)
       <==> Losses(c, es, room, drifted) == 0
    decreases |es|
  {
    hide Step, Tracks, SentIn, Log, Loses, DriftedBy;
    if es == [] {
      assert Log(c.store, room) + [] == Log(c.store, room);
    } else {
      var (c', out) := Step(c, es[0]);
      StepSendsAndStores(c, es[0], room, drifted);
      StepTracks(c, es[0], drifted);
      BroadcastsAreTheLog(c', es[1..], room, DriftedBy(c, es[0], drifted));
      assert Outputs(c, es)[1..] == Outputs(c', es[1..]);
      SplitLog(Log(c.store, room), SentIn(out, room), Sent(Outputs(c', es[1..]), room));
    }
  }

  lemma SplitLog(log: seq<Frame>, first: seq<Frame>, rest: seq<Frame>)
    ensures log + (first + rest) == (log + first) + rest
  {
  }

  /** With healthy storage and exact caches nothing is lost. */
  lemma {:induction false} HealthyRunsLoseNothing(c: Core, es: seq<CoreEvent>, room: U128)
    requires Settled(c) && HealthyRun(c, es)
    ensures Tracks(c, {}) && Losses(c, es, room, {}) == 0
    decreases |es|
  {
    hide Step, Accepts;
    if es != [] {
      SettledStatesAgree(c, c, es[0]);
      HealthyRunsLoseNothing(Step(c, es[0]).0, es[1..], room);
      assert DriftedBy(c, es[0], {}) == {};
    }
  }

  /** With one failed write the two part ways: the frame is broadcast and not stored. */
  lemma FailedWriteIsStillBroadcast(c: Core, f: Frame)
    requires Settled(c) && Accepts(c, f, false)
    ensures var (c', out) := Step(c, Arrive(f, false, true));
            var room := RoomId(f.header);
            && Sent([out], room) == [WithIndex(f, |Log(c.store, room)|)]
            && c'.store == c.store
  {
    hide Step, Sequenceable, WithIndex, RoomId, IsWelcome, WithLogIndex;
    var room, n := RoomId(f.header), IndexFor(c, RoomId(f.header));
    AcceptedStep(c, f, false, true);
    WithIndexOnlyNumbers(f, n);
    SentByPair(room, n, WithIndex(f, n), room);
    assert [Routed(PersistThenBroadcast(room, n, WithIndex(f, n)))][1..] == [];
  }
}
