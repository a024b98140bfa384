# Lockframe, modelled and verified

Lockframe is a group messaging system built from state machines that take events and time and
return actions. This project models the parts where its correctness claims are hard and proves
them in Dafny 4.11. `dafny verify dfyconfig.toml` checks everything.

Code that changes things step by step is a class here, with the source's fields and loops; every
method is proved equal to a specification function on values, and the theorems are about runs of
those functions. Clocks, randomness, storage failures, the order a hash map is iterated in and
decoded CBOR payloads are part of the events, so a theorem over all runs covers all of them.

| module | models | main results |
|---|---|---|
| `Rooms`, `RoomRuns` | sequencer, room manager, the driver's persist path | logs sound under every failure; caches exact but for failed writes; exactly when broadcasts are the log; at most one frame lost after any past; restarts nobody notices |
| `Storage`, `Redb`, `RedbRuns` | vector storage with injected faults, redb storage, the room path on either | the ordered 24-byte-key table refines the per-room vectors, and whole runs on the two give the same outputs |
| `Sync`, `DriverSync` | sync requests, alone and in a live driver | paging is complete while the log grows; pages and broadcasts join up |
| `Driver`, `DriverRuns` | the whole server driver | every target is live; exactly when a subscriber is sent the log; at most one frame lost after any past; rebuilding changes no answer |
| `DriverEffects` | what one event does to rooms, users and subscriptions | exactly who is subscribed after any event; delivery from the Welcome on |
| `DriverConnections` | connections and ticks inside the driver | which sessions ticks close; the exact heartbeat bound for the whole server |
| `DriverDirectory` | key packages and group infos behind the driver | each published package handed out once, to the right user; the latest group info served |
| `Registry`, `KeyPackages` | the two in-memory registries | four maps refine one simple registry; eviction takes the oldest, a take finds the last package left, once |
| `SenderKeys`, `SenderKeyStore` | ratchets, nonces, sender key store | a message decrypts exactly if genuine and in the window; every encryption is sent under its own generation; exactly when a refusal moves a ratchet; exactly when two messages share a key |
| `Connection`, `Handshake` | one connection in time, and two ends over a bad network | exact bound for heartbeats to prevent idle timeouts; handshake agreement |
| `Wire`, `Validator`, `BigEndian` | header, frame codec, stream reading, validation | decoding is exactly inverse; exactly when a frame is accepted; sequencing never changes a verdict |
| `ModelWorld`, `WorldRuns`, `WorldEffects` | the repository's reference protocol | both sides agree in every reachable world; logs are exactly what was sent; inboxes orderly and complete; exactly when an inbox is in log order |

Keys and ciphertexts are free terms, so "different key" means a different derivation. A signature
scheme is a parameter: the validator results hold for every one, except `AcceptedTwiceIsTheSame`, which
states the property of the scheme it needs.

Where code and documentation disagree the code is modelled:

- A frame is broadcast even if persisting it failed. `FailedWriteIsStillBroadcast` shows it;
  `BroadcastsAreTheLog` and `SubscriberSeesTheLog` say exactly when broadcasts and log agree.
- A comment says a model client's messages are ordered by log index. They are not, because a
  sender has its own message at once: `InboxCanBeOutOfOrder` is a run, `EveryInboxSortedIff` the
  exact condition.
- Publishing a group info is documented to create the room; the code only stores the info
  (`DriverRuns.SideFrame`).
- The handshake timeout is documented as the time to complete the handshake. On the server it never
  acts: a session that has not said Hello has no timeout and keeps its place among the admitted
  connections (`OnlyIdleSessionsAreClosed`, `SilentSessionStays`).
- A capacity comment in seed derivation counts 16 label bytes; the label has 17.
- With limit 0 `has_more` can be wrong; `HasMoreIff` says exactly when.

`Tables` exists because map comprehensions are not used anywhere in this project: Dafny 4.11 fixes
a comprehension's values outside its domain too, which does not go together with comparing maps
by their contents.

## Model

| member | source | states |
|---|---|---|
| `Wire.SigningData` | crates/lockframe-proto/src/header.rs:273-279 | the signed part is bytes 0 to 40 and 48 to 64 of the header, in order: 56 bytes, without the 8 context bytes |
| `Wire.WithLogIndex` | crates/lockframe-proto/src/header.rs:290-296 | the header is the same but for bytes 40 to 48, which read back as the index |
| `Wire.SetLogIndex` | crates/lockframe-proto/src/header.rs:290-296 | overwriting the eight bytes in place gives `WithLogIndex` of what was there |
| `Wire.SignedPartIffSameElsewhere` | crates/lockframe-proto/src/header.rs:273-296 | two headers have the same signing data and signature if and only if one is the other with some log index assigned |
| `Wire.WithLogIndexKeepsFields` | crates/lockframe-proto/src/header.rs:167-267 | assigning a log index changes no other field a reader can ask for |
| `Wire.HeaderLayout` | crates/lockframe-proto/src/header.rs:167-267 | a header is its fields, big-endian, one after another; log index and recipient are the same eight bytes |
| `Wire.NewFrame` | crates/lockframe-proto/src/frame.rs:77-90 | the size field of a new frame equals its payload length, and every other header byte is kept |
| `Wire.NewFrameKeepsHeader` | crates/lockframe-proto/src/frame.rs:77-90 | a header whose size field is already right is kept as it is |
| `Wire.EncodeInto` | crates/lockframe-proto/src/frame.rs:110-124 | the buffer gains exactly the wire form, or nothing at all when the payload is over the limit |
| `Wire.DecodeIffStartsWithEncoding` | crates/lockframe-proto/src/frame.rs:149-189 | bytes decode to a frame if and only if the frame is encodable and its encoding is how the bytes begin: both round trips at once |
| `Wire.DecodeEncode` | crates/lockframe-proto/src/frame.rs:149-189 | decoding an encoding gives the frame back whatever follows |
| `Wire.DecodeClaimedBytes` | crates/lockframe-server/src/lib.rs:238-273 | reading the header, then as many bytes as it claims, decodes exactly when the whole input does |
| `Wire.DecodeRefusals` | crates/lockframe-proto/src/frame.rs:149-189 | each refusal if and only if its cause is the first: too short, magic, version, claimed size over the limit, truncated |
| `Wire.StreamSplitUnique` | crates/lockframe-proto/src/frame.rs:149-189 | a byte stream splits into frames and an undecodable rest in one way only |
| `Wire.ReadFrames` | crates/lockframe-server/src/lib.rs:238-273 | the read loop returns encodable frames and a rest that does not begin with a frame, and together they are the stream |
| `Wire.WriteThenRead` | crates/lockframe-server/src/lib.rs:238-273 | frames written one after another, with any tail that is no frame, are read back as that list and that tail |
| `Validator.VerdictReadsOnlySignedPart` | crates/lockframe-core/src/mls/validator.rs:42-97 | for every signature scheme the verdict depends on nothing but the signed bytes and the signature; what it says is `AcceptedIff` |
| `Validator.AcceptedIff` | crates/lockframe-core/src/mls/validator.rs:42-97 | accepted if and only if the epoch is current, the sender a member with a usable key, and the signature verifies the signed bytes under it; each other verdict likewise |
| `Validator.AcceptedTwiceIsTheSame` | crates/lockframe-core/src/mls/validator.rs:42-97 | where a signature verifies one message only, two accepted frames with one signature differ in the server-written bytes at most |
| `Validator.SequencingKeepsVerdict` | crates/lockframe-core/src/mls/validator.rs:42-97 | index assignment, encoding and decoding keep sender, epoch, signed part, signature and payload, so the frame is accepted afterwards exactly when it was before |
| `Storage.AfterStore` | crates/lockframe-server/src/storage/memory.rs:93-120 | a store succeeds if and only if the index is the log length; it appends to that room and leaves every other room alone |
| `Storage.AfterCreate` | crates/lockframe-server/src/storage/memory.rs:231-243 | creating a room adds it unless it exists, and never changes a log or another room |
| `Storage.MemoryStorage.StoreFrame` | crates/lockframe-server/src/storage/memory.rs:93-120 | does what `AfterStore` says; a faulty call changes nothing |
| `Storage.MemoryStorage.LatestLogIndex` | crates/lockframe-server/src/storage/chaotic.rs:135-141 | the last position of the room, if any, or the injected failure |
| `Storage.MemoryStorage.CreateRoom` | crates/lockframe-server/src/storage/chaotic.rs:201-211 | does what `AfterCreate` says; a faulty call changes nothing |
| `Storage.MemoryStorage.LoadFrames` | crates/lockframe-server/src/storage/memory.rs:140-161 | the page of the log from an index on, at most `limit` long; unknown rooms are reported missing |
| `Redb.KeyRoundTrip` | crates/lockframe-server/src/storage/redb.rs:344-360 | the 24-byte key decodes to its room and index |
| `Redb.KeyOrder` | crates/lockframe-server/src/storage/redb.rs:344-349 | byte order of keys is numeric order of (room, index) |
| `Redb.SortedUnique` | crates/lockframe-server/src/storage/redb.rs:76-96 | an ordered table is determined by its entries |
| `Redb.RedbStorage.LatestLogIndex` | crates/lockframe-server/src/storage/redb.rs:76-96 | the scan loop finds the index of the last entry of the room range |
| `Redb.RedbStorage.StoreFrame` | crates/lockframe-server/src/storage/redb.rs:100-131 | does what the table specification says, conflict and oversized payload included |
| `Redb.RedbStorage.LoadFrames` | crates/lockframe-server/src/storage/redb.rs:140-177 | does what the table specification says |
| `Redb.CollectFrames` | crates/lockframe-server/src/storage/redb.rs:140-177 | the loop over a range decodes the first `limit` entries of the room |
| `Redb.RoomRangeIsSuffix` | crates/lockframe-server/src/storage/redb.rs:140-177 | scanning the keys of a room from an index gives its frames from there on, in order, and no frame of another room |
| `Redb.LatestAgrees` | crates/lockframe-server/src/storage/redb.rs:67-96 | latest and next index computed from the table are those of the vector |
| `Redb.StoreVerdictsAgreeIff` | crates/lockframe-server/src/storage/redb.rs:100-131 | table and vector give different verdicts exactly for a frame at the right index whose payload is over the wire limit |
| `Redb.StoreRepresents` | crates/lockframe-server/src/storage/redb.rs:100-131 | storing keeps the table a representation of the vectors |
| `Redb.LoadIsPage` | crates/lockframe-server/src/storage/redb.rs:140-177 | loading from the table gives the page of the vector |
| `Redb.LoadsAgreeIff` | crates/lockframe-server/src/storage/memory.rs:140-161 | the two loads agree if and only if the vector store has an entry for the room; otherwise one says missing and the other gives an empty page |
| `Redb.RedbRefinesMemory` | crates/lockframe-server/src/storage/redb.rs:67-177 | any sequence of operations on well-formed frames gets the same answers from both stores |
| `RedbRuns.RunsAgree` | crates/lockframe-server/src/storage/redb.rs:67-177 | sequencer, room manager and persist path run side by side on redb and on vectors, failing alike, give the same outputs throughout and end in stores that represent each other |
| `RedbRuns.SyncAnswersDifferIff` | crates/lockframe-server/src/room_manager.rs:154-194 | the two stores answer a sync request differently exactly for a known room the vectors have no entry for, with both answers named |
| `RedbRuns.DurableLogIsSound` | crates/lockframe-server/src/storage/redb.rs:140-177 | from an empty database, after any run a page loaded from the table is the page of the log of the room, whose position i holds its frame numbered i |
| `RedbRuns.LoadedFramesKeepVerdict` | crates/lockframe-core/src/mls/validator.rs:42-97 | after any run on a database that starts empty, with any failures, each frame of a page read back has the sender, epoch, payload, signed part and signature of the offered frame it was kept from, and every validator gives it the same verdict |
| `Rooms.ValidateStructure` | crates/lockframe-server/src/sequencer.rs:107-145 | a frame is accepted if and only if it has the right magic, version and size, a room, and an epoch within bounds |
| `Rooms.RebuildWithIndex` | crates/lockframe-server/src/sequencer.rs:299-304 | rebuilding through `Frame::new` gives the frame with its index field set and nothing else changed |
| `Rooms.Sequencer.ProcessFrame` | crates/lockframe-server/src/sequencer.rs:162-233 | cache and actions are those of `Sequence`, storage failure and overflow included |
| `Rooms.Sequencer.AssignIndex` | crates/lockframe-server/src/sequencer.rs:179-233 | a vacant entry is filled from storage, the entry moves on by one, the frame gets the old value |
| `Rooms.Sequencer.ClearRoom` | crates/lockframe-server/src/sequencer.rs:246-248 | exactly the entry of the room goes |
| `Rooms.Sequencer.InitializeRoom` | crates/lockframe-server/src/sequencer.rs:261-286 | a vacant entry becomes one past the last stored index; an existing one stays |
| `Rooms.RoomManager.ProcessFrame` | crates/lockframe-server/src/room_manager.rs:236-282 | unknown rooms are refused; otherwise the sequencer actions become room actions in order |
| `Rooms.RoomManager.CreateRoom` | crates/lockframe-server/src/room_manager.rs:129-148 | metadata and storage gain the room, or neither does |
| `Rooms.RoomManager.HandleSyncRequest` | crates/lockframe-server/src/room_manager.rs:154-194 | the answer is that of `HandleSync`, whose meaning `Sync.HasMoreIff` states |
| `Rooms.RoomManager.RecoverRoom` | crates/lockframe-server/src/room_manager.rs:212-227 | metadata is read back and the cache entry initialised; a failed log read leaves the metadata registered |
| `Rooms.RoomManager.RecoverAll` | crates/lockframe-server/src/driver.rs:1065-1079 | rooms are recovered in the listed order up to the first failure |
| `RoomRuns.AcceptedStep` | crates/lockframe-server/src/sequencer.rs:162-233 | a frame is accepted exactly under `Accepts`; then it is numbered with the next index, persisted and broadcast in that order |
| `RoomRuns.UnacceptedStep` | crates/lockframe-server/src/sequencer.rs:162-233 | any other frame touches no log and no metadata and at most fills a vacant cache entry with the log length; only a Welcome is still routed |
| `RoomRuns.RefusalReason` | crates/lockframe-server/src/sequencer.rs:107-219 | each reason an arriving frame can be refused for, if and only if its cause is the first to apply |
| `RoomRuns.WithIndexOnlyNumbers` | crates/lockframe-server/src/sequencer.rs:299-304 | numbering keeps room, opcode and validity and sets the index |
| `RoomRuns.LogSoundOverRuns` | crates/lockframe-server/src/driver.rs:924-939 | over every run with failing reads and writes, cleared caches, creations and partial restarts, each log only grows at its end and position i holds a valid frame of that room numbered i |
| `RoomRuns.LogIsKeptFrames` | crates/lockframe-server/src/driver.rs:924-939 | over every run, whatever fails, what a log gains is the kept frames in order with their indexes written in |
| `RoomRuns.KeptAreOffered` | crates/lockframe-server/src/sequencer.rs:162-233 | the kept frames are a subsequence of the frames offered to the room |
| `RoomRuns.StoredFramesEncode` | crates/lockframe-server/src/room_manager.rs:154-194 | if incoming frames fit the wire limit, every frame ever stored can be encoded again |
| `RoomRuns.CacheAheadExactlyAfterFailures` | crates/lockframe-server/src/driver.rs:924-939 | in every reachable state a cached index equals the log length unless a write failed since the entry was made, and then it is ahead, never behind |
| `RoomRuns.HealthyStep` | crates/lockframe-server/src/driver.rs:893-980 | with healthy storage one event lands the offered frame, or loses it and heals the drift, and moves no other part of that log |
| `RoomRuns.HealthyRunLandsAll` | crates/lockframe-server/src/sequencer.rs:162-233 | with healthy storage and no drift a log grows by exactly the frames offered to the room, numbered consecutively, whatever else happens |
| `RoomRuns.HealthyRunLosesAtMostOne` | crates/lockframe-server/src/driver.rs:924-939 | from a state whose rooms are listed in storage and whose cache is not behind, at most one more frame of a room is lost, and every later one lands at the next free index |
| `RoomRuns.BackedRun` | crates/lockframe-server/src/room_manager.rs:129-227 | over every run, failures and partial restarts included, the manager knows only rooms that storage lists |
| `RoomRuns.AnyPastLosesAtMostOne` | crates/lockframe-server/src/driver.rs:924-939 | from nothing, after any past with any failures, once storage is healthy at most one frame then offered to a known room is missing from its log, one only if the room had drifted, and the rest follow from the next free index on |
| `RoomRuns.DriftHealsIffBelowMax` | crates/lockframe-server/src/sequencer.rs:179-219 | a drifted room heals if and only if its cached index is below the last 64-bit value; at that value nothing changes any more |
| `RoomRuns.SettledStatesAgree` | crates/lockframe-server/src/room_manager.rs:212-282 | two managers over one store, however filled their caches, answer a healthy event alike |
| `RoomRuns.RestartUnnoticed` | crates/lockframe-server/src/driver.rs:1065-1079 | a manager rebuilt from storage anywhere in a failure-free run changes no persist or broadcast before or after and leaves the same store |
| `RoomRuns.RecoveredIff` | crates/lockframe-server/src/room_manager.rs:212-227 | a restart recovers exactly the rooms before the first that cannot be, with the stored metadata, and reports that failure |
| `RoomRuns.BroadcastsAreTheLog` | crates/lockframe-server/src/driver.rs:893-980 | over every run, whatever fails in whatever room, each frame broadcast to a room is stored or counted as lost, and the broadcasts are exactly what its log gained, in order, if and only if none of its own frames met a failing write or an index an earlier failure left behind |
| `RoomRuns.HealthyRunsLoseNothing` | crates/lockframe-server/src/driver.rs:893-980 | with healthy storage and exact caches no room loses a frame |
| `RoomRuns.FailedWriteIsStillBroadcast` | crates/lockframe-server/src/driver.rs:924-939 | after one failed write the frame has been broadcast and is not stored |
| `Sync.HasMoreIff` | crates/lockframe-server/src/room_manager.rs:154-194 | `has_more` says whether the log goes on behind the page, except exactly when nothing is asked for from the start of a log of one frame |
| `Sync.DecodePage` | crates/lockframe-proto/src/payloads/session.rs:132-148 | the entries of a response decode to the frames of the page |
| `Sync.SyncAll` | crates/lockframe-server/src/room_manager.rs:154-194 | advancing by what came back until `has_more` is false terminates with exactly the stored suffix, decoded |
| `Driver.ServerDriver.constructor` | crates/lockframe-server/src/driver.rs:161-171 | a new driver has no sessions, no rooms in memory and the given storage |
| `Driver.ServerDriver.ProcessEvent` | crates/lockframe-server/src/driver.rs:176-192 | new state and answer are those of `Step`, which all run theorems are about |
| `Driver.ServerDriver.Restarted` | crates/lockframe-server/src/driver.rs:1065-1079 | a new process on the old storage, recovered, is the `Reboot` step |
| `Driver.ServerDriver.HandleAccepted` | crates/lockframe-server/src/driver.rs:195-216 | new state and actions are those of `OnAccepted`: over the limit only a close |
| `Driver.ServerDriver.HandleFrame` | crates/lockframe-server/src/driver.rs:220-366 | dispatch on the opcode, with the activity update exactly where the source makes it |
| `Driver.ServerDriver.HandleSessionFrame` | crates/lockframe-server/src/driver.rs:235-260 | the connection handles the frame; a Hello re-registers the session under its user |
| `Driver.ServerDriver.HandleSyncRequest` | crates/lockframe-server/src/driver.rs:369-402 | a page to the asking session, or an error reply with the code of the failure |
| `Driver.ServerDriver.HandlePublish` | crates/lockframe-server/src/driver.rs:441-552 | stores under the authenticated user of the session; refused without one |
| `Driver.ServerDriver.HandleFetch` | crates/lockframe-server/src/driver.rs:555-657 | takes the package out and sends it, or replies that there is none |
| `Driver.ServerDriver.HandleGroupInfo` | crates/lockframe-server/src/driver.rs:664-715 | stores the group info of the room; failures are logged only |
| `Driver.ServerDriver.HandleGroupInfoRequest` | crates/lockframe-server/src/driver.rs:719-834 | replies with the stored group info or room not found |
| `Driver.ServerDriver.HandleWelcome` | crates/lockframe-server/src/driver.rs:291-322 | subscribes and forwards to the session of the recipient, if connected; who is subscribed by it is `DriverEffects.SubscribedAfterIff` |
| `Driver.ServerDriver.HandleRoomFrame` | crates/lockframe-server/src/driver.rs:333-362 | a commit to an unknown room creates it first; its failure ends the handling |
| `Driver.ServerDriver.HandleJoinedFrame` | crates/lockframe-server/src/driver.rs:346-361 | an external commit subscribes its session before sequencing |
| `Driver.ServerDriver.Sequence` | crates/lockframe-server/src/driver.rs:357-361 | sequencing, then the room actions |
| `Driver.ServerDriver.ProcessRoomActions` | crates/lockframe-server/src/driver.rs:359-361 | the loop over the actions, output in order |
| `Driver.ServerDriver.ProcessRoomAction` | crates/lockframe-server/src/driver.rs:893-980 | one action: broadcast to the subscribers, persist with the cache cleared on conflict only, reject, or sync response |
| `Driver.ServerDriver.HandleClosed` | crates/lockframe-server/src/driver.rs:837-863 | connection and session go together |
| `Driver.ServerDriver.HandleTick` | crates/lockframe-server/src/driver.rs:866-890 | every connection is ticked once in the collected order, actions in that order |
| `Driver.ServerDriver.MakeRoom` | crates/lockframe-server/src/driver.rs:985-1007 | creator is the user of the session or the session itself, and is subscribed |
| `Driver.ServerDriver.RecoverFromStorage` | crates/lockframe-server/src/driver.rs:1065-1079 | rooms are recovered in order; the first failure is returned |
| `DriverRuns.NeverRejects` | crates/lockframe-server/src/sequencer.rs:228-232 | the room path asks only for persists and for broadcasts to the room in the frame with nobody left out, never for a rejection |
| `DriverRuns.EveryTargetIsLive` | crates/lockframe-server/src/driver.rs:195-366 | over every run connections and sessions are the same set within the limit, replies go to connected sessions, and a broadcast goes to exactly the subscribers of the room in its frame, all of them connected |
| `DriverRuns.StepProjects` | crates/lockframe-server/src/driver.rs:220-366 | every driver event is a short list of room-path events, and a session subscribed before it is sent exactly what those broadcast to its room |
| `DriverRuns.DriverKeepsLogs` | crates/lockframe-server/src/driver.rs:176-192 | log soundness and cache exactness hold of every run of the whole driver |
| `DriverRuns.SubscriberSeesTheLog` | crates/lockframe-server/src/driver.rs:893-980 | over any stretch of any run in which a session stays subscribed, each broadcast it is sent is stored or counted as lost, and they are exactly what the stored log gained, in log order, if and only if none of that room was lost |
| `DriverRuns.HealthyDriverLosesNothing` | crates/lockframe-server/src/driver.rs:893-980 | from exact caches a run of the driver with healthy storage loses nothing in any room |
| `DriverRuns.AnyPastLosesAtMostOne` | crates/lockframe-server/src/driver.rs:924-939 | a server on an empty store, after any past with any failures, misses at most one of the frames offered to a known room once storage is healthy, and one only if the room had drifted |
| `DriverRuns.SideFrame` | crates/lockframe-server/src/driver.rs:664-715 | any frame that is not a room frame leaves rooms, logs and caches as they are; so publishing a group info creates no room |
| `DriverRuns.RebuildUnnoticed` | crates/lockframe-server/src/driver.rs:1065-1079 | rebuilding the room manager from storage anywhere in a healthy run changes no answer to any session |
| `DriverEffects.KnownAfterIff` | crates/lockframe-server/src/driver.rs:333-362 | a room is known after an event if and only if it was or the event creates it: by the host or by a commit to an unknown room, for the sender as creator |
| `DriverEffects.SubscribedAfterIff` | crates/lockframe-server/src/driver.rs:291-362 | exactly who is subscribed after an event: by request, by creating the room, by an external commit, by a Welcome to the session's user; and who no longer is |
| `DriverEffects.UserAfter` | crates/lockframe-server/src/driver.rs:235-260 | a session is registered as the sender id of its Hello, or its session id, unless another session has that user |
| `DriverEffects.WelcomedSeesTheLog` | crates/lockframe-server/src/driver.rs:291-322 | the recipient of a Welcome is sent it, and from then on exactly what the log gains, if and only if nothing is lost |
| `DriverEffects.RefusalIsReported` | crates/lockframe-server/src/driver.rs:333-366 | a room frame fails if and only if the room path fails, with its error |
| `DriverEffects.SyncRefusalIsReported` | crates/lockframe-server/src/driver.rs:369-438 | a refused sync request is answered with the code of its cause |
| `DriverSync.NoAskNoPage` | crates/lockframe-server/src/driver.rs:369-402 | a page reaches a session only as the answer to its own request for that room |
| `DriverSync.AskContinues` | crates/lockframe-server/src/driver.rs:369-402 | a request from where the client stands brings the next piece of the log as it is then, at least one frame if more is behind it, or fails and brings nothing |
| `DriverSync.PagesOfGrowingLog` | crates/lockframe-server/src/room_manager.rs:154-194 | over any run of the driver, whatever fails or arrives between requests, the pages a client collects are a contiguous piece of the log, and all of it from its starting point right after a page with nothing behind it |
| `DriverSync.PagesThenBroadcasts` | crates/lockframe-server/src/room_manager.rs:154-194 | pages taken in a live run are the whole log at the last page; with the broadcasts from then on they are the whole log at the end if and only if none of the room was lost; broadcasts received while paging are exactly the end of the pages if and only if none was lost |
| `DriverDirectory.PackagesHandedOutOnce` | crates/lockframe-server/src/driver.rs:441-657 | every package handed out under a user was published by a session authenticated as that user, and no publication is handed out twice |
| `DriverDirectory.LastPackageIsServed` | crates/lockframe-server/src/driver.rs:555-657 | after any run a fetch is answered with the last package published by that user that is neither fetched nor pushed out since, or with "no key package" if there is none |
| `DriverDirectory.MalformedRequestIsReported` | crates/lockframe-server/src/driver.rs:369-657 | a payload that is not what its opcode announces is answered with an error to the sender and changes nothing |
| `DriverDirectory.LatestInfoIsServed` | crates/lockframe-server/src/driver.rs:664-834 | after any run, restarts included, a request gets the last group info published and stored for the room, or room not found |
| `DriverConnections.TickInClosedForm` | crates/lockframe-server/src/driver.rs:866-890 | a listed connection is ticked once however often it is listed and closed exactly if it has timed out; any other is left alone |
| `DriverConnections.StepMoves` | crates/lockframe-server/src/driver.rs:220-366 | in the driver a connection that is neither added nor removed does what it does alone |
| `DriverConnections.AdmittedIff` | crates/lockframe-server/src/driver.rs:195-216 | a connection is admitted if and only if the limit is not reached; otherwise nothing changes and it is closed |
| `DriverConnections.SessionFrameIsAnswered` | crates/lockframe-server/src/driver.rs:235-260 | the answer to every session frame in every phase, and the phase after it |
| `DriverConnections.FrameIsActivity` | crates/lockframe-server/src/driver.rs:220-366 | every frame of a connected session is activity except a sync request; frames of strangers are refused |
| `DriverConnections.TickSends` | crates/lockframe-server/src/driver.rs:866-890 | a tick sends a Ping to exactly the sessions whose heartbeat is due, and nothing else |
| `DriverConnections.NewServerSide` | crates/lockframe-server/src/driver.rs:161-171 | a new server satisfies what the next row asks of its start |
| `DriverConnections.OnlyIdleSessionsAreClosed` | crates/lockframe-core/src/connection.rs:255-307 | over every run of a server no connection waits for a Hello reply, so the handshake timeout never acts; a tick closes a session if and only if it is authenticated and over the idle timeout, and leaves one that has not said Hello as it is |
| `DriverConnections.SilentSessionStays` | crates/lockframe-core/src/connection.rs:255-265 | a session that never sends anything keeps its connection unchanged through any run that does not take it away |
| `DriverConnections.HeartbeatsKeepSessions` | crates/lockframe-core/src/connection.rs:271-307 | in monotone time, with ticks that collect every connection and come within a gap of each other, no tick of any run of the driver closes anybody if the idle timeout covers that gap and the heartbeat interval |
| `DriverConnections.SomeSessionIdles` | crates/lockframe-core/src/connection.rs:271-307 | a run of a new driver that closes a session for idleness whenever the bound is missed |
| `DriverConnections.NeverIdlesIff` | crates/lockframe-core/src/connection.rs:271-307 | for the whole driver, too, the bound is necessary and sufficient |
| `Registry.ConnectionRegistry.RegisterSession` | crates/lockframe-server/src/registry.rs:70-86 | refused for a known session or a user already connected, otherwise indexed |
| `Registry.ConnectionRegistry.UnregisterSession` | crates/lockframe-server/src/registry.rs:91-110 | the session goes from all four maps; info and rooms are returned |
| `Registry.ConnectionRegistry.DropSubscriber` | crates/lockframe-server/src/registry.rs:98-106 | the cleanup loop, in any order: no room keeps the session and no empty room stays |
| `Registry.ConnectionRegistry.UpdateSessionInfo` | crates/lockframe-server/src/registry.rs:131-157 | the user index follows the new info; a user held by another session is refused |
| `Registry.ConnectionRegistry.Subscribe` | crates/lockframe-server/src/registry.rs:162-170 | both directions gain the pair, for registered sessions only |
| `Registry.ConnectionRegistry.Unsubscribe` | crates/lockframe-server/src/registry.rs:175-187 | both directions lose the pair, and an emptied room goes |
| `Registry.StepRefines` | crates/lockframe-server/src/registry.rs:70-187 | each operation keeps the four maps mutually inverse and answers like a registry of sessions and one set of subscriptions |
| `Registry.RegistryRefinesSimple` | crates/lockframe-server/src/registry.rs:70-187 | the same over any sequence of operations |
| `Registry.LookupsAgree` | crates/lockframe-server/src/registry.rs:195-211 | sessions of a room and session of a user are those of the simple registry, and registered |
| `Registry.SubscribedAfterIff` | crates/lockframe-server/src/registry.rs:91-187 | exactly who is subscribed to what after each operation |
| `Registry.SessionsAfter` | crates/lockframe-server/src/registry.rs:70-158 | exactly which sessions there are after each operation and what is recorded of them; no user is given away |
| `KeyPackages.KeyPackageRegistry.Store` | crates/lockframe-server/src/key_package_registry.rs:106-133 | state and result are those of `Stored`, whose meaning `StoreEffect` states |
| `KeyPackages.KeyPackageRegistry.Take` | crates/lockframe-server/src/key_package_registry.rs:144-154 | the entry is returned and gone; which entry that is, over any history, is `TakeFindsLastLeft` |
| `KeyPackages.KeyPackageRegistry.Retain` | crates/lockframe-server/src/key_package_registry.rs:106-154 | the queue without the user, order kept |
| `KeyPackages.StoreEffect` | crates/lockframe-server/src/key_package_registry.rs:106-133 | a store displaces nobody, except that a new user finding the registry full displaces exactly the one stored least recently; full only at capacity zero |
| `KeyPackages.StoreKeepsValid` | crates/lockframe-server/src/key_package_registry.rs:106-133 | the queue stays a duplicate-free listing of the stored users by increasing stamp, within capacity |
| `KeyPackages.TakeKeepsValid` | crates/lockframe-server/src/key_package_registry.rs:144-154 | taking keeps that invariant |
| `KeyPackages.TakenAtMostOnce` | crates/lockframe-server/src/key_package_registry.rs:106-154 | over any history every package taken was stored for that user, and no stored package is taken twice |
| `KeyPackages.TakeFindsLastLeft` | crates/lockframe-server/src/key_package_registry.rs:106-154 | after any history a take finds the last package stored and since neither taken nor pushed out, and finds none only if there is none |
| `SenderKeys.DeriveSeed` | crates/lockframe-crypto/src/sender_keys/derivation.rs:21-39 | the info bytes are label, epoch and sender in that order |
| `SenderKeys.InfoLayout` | crates/lockframe-crypto/src/sender_keys/derivation.rs:21-39 | the derivation input is the label, the epoch and the sender index, big-endian |
| `SenderKeys.SeedsDistinct` | crates/lockframe-crypto/src/sender_keys/derivation.rs:21-39 | seeds of one secret agree only for the same epoch and sender |
| `SenderKeys.SymmetricRatchet.Advance` | crates/lockframe-crypto/src/sender_keys/ratchet.rs:102-118 | one step of the chain, or overflow with nothing changed |
| `SenderKeys.SymmetricRatchet.AdvanceTo` | crates/lockframe-crypto/src/sender_keys/ratchet.rs:124-154 | state and result are those of `AdvancedTo`; the loop ends, also at the last 32-bit generation |
| `SenderKeys.RepeatedInClosedForm` | crates/lockframe-crypto/src/sender_keys/ratchet.rs:102-118 | what n further single advances return and leave behind, with the overflow corner |
| `SenderKeys.AdvanceToIsRepeatedAdvance` | crates/lockframe-crypto/src/sender_keys/ratchet.rs:124-154 | a jump succeeds exactly for the reachable targets, equals that many single advances, and ends one past the target |
| `SenderKeys.BuildNonce` | crates/lockframe-crypto/src/sender_keys/encryption.rs:111-132 | the buffer holds epoch, sender, generation and suffix |
| `SenderKeys.NonceLayout` | crates/lockframe-crypto/src/sender_keys/encryption.rs:111-132 | a nonce is epoch, sender, generation and the random suffix |
| `SenderKeys.OpensIff` | crates/lockframe-crypto/src/sender_keys/encryption.rs:81-102 | a key opens exactly the messages of its generation sealed under it with the nonce they carry, to what was sealed; both errors exactly |
| `SenderKeys.NoncesDistinct` | crates/lockframe-crypto/src/sender_keys/encryption.rs:111-132 | nonces of one epoch agree only for the same sender and generation, whatever the random suffixes |
| `SenderKeys.ChainKeysDistinct` | crates/lockframe-crypto/src/sender_keys/ratchet.rs:157-180 | chain keys of different seeds or different depths are different terms |
| `SenderKeyStore.SenderKeyStore.InitializeEpoch` | crates/lockframe-client/src/sender_key_store.rs:37-46 | one fresh ratchet for each member, seeded for secret, epoch and member |
| `SenderKeyStore.SenderKeyStore.Encrypt` | crates/lockframe-client/src/sender_key_store.rs:66-79 | state and result are those of `Encrypted`; when it succeeds and what is sent is `EncryptSucceedsIff` |
| `SenderKeyStore.SenderKeyStore.Decrypt` | crates/lockframe-client/src/sender_key_store.rs:93-108 | state and result are those of `Decrypted`, epoch and sender checked first |
| `SenderKeyStore.EncryptedIsHonest` | crates/lockframe-crypto/src/sender_keys/encryption.rs:51-72 | an encryption is under the key of its generation on the chain of the sender, and moves the generation on |
| `SenderKeyStore.EncryptSucceedsIff` | crates/lockframe-client/src/sender_key_store.rs:66-79 | encryption succeeds if and only if the sender's ratchet exists and is not exhausted; then one generation is used and no other ratchet moves; a refusal changes nothing |
| `SenderKeyStore.EveryEncryptionIsSent` | crates/lockframe-client/src/sender_key_store.rs:66-79 | over any run every encryption is sent: the k-th carries the k-th plaintext and the k-th generation |
| `SenderKeyStore.StrangersSendNothing` | crates/lockframe-client/src/sender_key_store.rs:66-79 | an index that is not a member never sends |
| `SenderKeyStore.DecryptedStaysOnChain` | crates/lockframe-client/src/sender_key_store.rs:93-108 | decrypting anything, forged messages included, keeps the chains and never moves a generation back |
| `SenderKeyStore.HonestDecryptsIffInWindow` | crates/lockframe-client/src/sender_key_store.rs:93-108 | a genuine message decrypts to its plaintext if and only if it is in the window; otherwise it is refused and the store is unchanged |
| `SenderKeyStore.DecryptsIff` | crates/lockframe-client/src/sender_key_store.rs:93-109 | a message decrypts to a text if and only if it is of the epoch, in the window, and seals that text under the sender's own key of its generation |
| `SenderKeyStore.DecryptRefusals` | crates/lockframe-client/src/sender_key_store.rs:93-109 | each refusal if and only if its cause is the first, with the numbers it reports |
| `SenderKeyStore.RefusalMovesIff` | crates/lockframe-client/src/sender_key_store.rs:93-108 | a refused message changes the store exactly when epoch, sender and window are right and it does not authenticate, or it asks for the last 32-bit generation of a ratchet below it |
| `SenderKeyStore.RefusalNarrowsWindow` | crates/lockframe-client/src/sender_key_store.rs:93-108 | then exactly the messages of that sender up to the refused generation have left the window |
| `SenderKeyStore.Agreement` | crates/lockframe-client/src/sender_key_store.rs:37-108 | after any interleaving in any number of stores of one secret, epoch and member set, forged messages included, every message sent decrypts in every store exactly when it is in that window |
| `SenderKeyStore.AllDecryptIffInOrder` | crates/lockframe-client/src/sender_key_store.rs:93-108 | a delivery sequence decrypts throughout if and only if the messages of each sender come in order and skip at most 1000 generations |
| `SenderKeyStore.SentNeverReuses` | crates/lockframe-client/src/sender_key_store.rs:66-108 | over the life of a store no two sent messages share sender and generation, nonce, or message key, even with a constant random suffix |
| `SenderKeyStore.KeysSharedIff` | crates/lockframe-client/src/sender_key_store.rs:66-108 | across any number of stores, two messages sent share a key if and only if they have the same sender and generation, and a nonce only then |
| `SenderKeyStore.OneHomeNeverReuses` | crates/lockframe-client/src/sender_key_store.rs:66-108 | if every sender index encrypts in one store only, no two messages sent anywhere share sender and generation, nonce or key |
| `SenderKeyStore.TwoHomesReuse` | crates/lockframe-client/src/sender_key_store.rs:66-79 | two stores that encrypt as the same member reuse its first key, and its nonce for equal random suffixes |
| `Connection.Connection.SendHello` | crates/lockframe-core/src/connection.rs:181-201 | only from the initial state; the state becomes pending |
| `Connection.Connection.HandleHello` | crates/lockframe-core/src/connection.rs:211-241 | version and state are checked before anything changes |
| `Connection.Connection.CheckTimeout` | crates/lockframe-core/src/connection.rs:255-265 | elapsed time if over the timeout of the state |
| `Connection.Connection.Tick` | crates/lockframe-core/src/connection.rs:271-307 | timeout closes, otherwise a due heartbeat is sent and recorded |
| `Connection.Connection.HandleFrame` | crates/lockframe-core/src/connection.rs:317-437 | new state and outcome for every frame in every state |
| `Connection.ClosedForever` | crates/lockframe-core/src/connection.rs:244-246 | no run leaves Closed, and nothing is sent from it |
| `Connection.PhaseAfter` | crates/lockframe-core/src/connection.rs:181-437 | exactly when a connection becomes and stops being pending, authenticated and closed |
| `Connection.SentBy` | crates/lockframe-core/src/connection.rs:181-437 | exactly what is sent when, and when the host is told to close |
| `Connection.FrameRefusedIff` | crates/lockframe-core/src/connection.rs:317-437 | which frames are refused and why |
| `Connection.TimeoutCloses` | crates/lockframe-core/src/connection.rs:255-308 | which timeout closes a connection in which phase, exactly past which time, and the duration it reports |
| `Connection.IdentityAfter` | crates/lockframe-core/src/connection.rs:181-437 | whose the connection is and when it was last active, after any operation |
| `Connection.PingsAreSpaced` | crates/lockframe-core/src/connection.rs:271-307 | over any run in monotone time heartbeats are at least the interval apart |
| `Connection.HeartbeatsKeepAlive` | crates/lockframe-core/src/connection.rs:255-307 | if one tick gap plus one heartbeat interval, less its last instant, fits into the idle timeout, no run closes an authenticated connection by idling |
| `Connection.NeverIdlesIff` | crates/lockframe-core/src/connection.rs:255-307 | that bound is exact: heartbeats prevent every idle timeout if and only if it holds |
| `Connection.SomeRunIdles` | crates/lockframe-core/src/connection.rs:255-307 | a run that does time out whenever the bound is missed |
| `Handshake.ConsistentRun` | crates/lockframe-core/src/connection.rs:181-241 | what ties the two ends together survives drops, duplicates and reordering |
| `Handshake.HandshakeSafety` | crates/lockframe-core/src/connection.rs:317-437 | an authenticated client holds exactly the session id of the server, which has left its initial state; an authenticated server implies that the client sent Hello |
| `Handshake.HandshakeCompletes` | crates/lockframe-core/src/connection.rs:317-437 | Hello and its reply, delivered once each, authenticate both ends |
| `ModelWorld.ModelClient.JoinRoomAtEpoch` | crates/lockframe-harness/src/model/client.rs:137-146 | an empty inbox at the given epoch, unless already a member |
| `ModelWorld.ModelClient.LeaveRoom` | crates/lockframe-harness/src/model/client.rs:97-103 | room and inbox go |
| `ModelWorld.ModelClient.ReceiveMessage` | crates/lockframe-harness/src/model/client.rs:120-124 | appended to the inbox of the room, if a member |
| `ModelWorld.ModelClient.AdvanceEpoch` | crates/lockframe-harness/src/model/client.rs:149-153 | the epoch of that room and nothing else moves on |
| `ModelWorld.ModelClient.Disconnect` | crates/lockframe-harness/src/model/client.rs:176-182 | all rooms go and are returned; partitioned and disconnected from then on |
| `ModelWorld.ModelServer.CreateRoom` | crates/lockframe-harness/src/model/server.rs:105-116 | a new room with its creator, or an error and no change |
| `ModelWorld.ModelServer.ProcessMessage` | crates/lockframe-harness/src/model/server.rs:122-155 | the message gets the next index and the current epoch, is logged with its content, and queued for the members of the moment; over runs this is `WorldEffects.LogIsWhatWasSent` |
| `ModelWorld.ModelServer.RemoveMember` | crates/lockframe-harness/src/model/server.rs:160-172 | exactly that member goes; the errors say what was missing |
| `ModelWorld.ModelServer.AddMember` | crates/lockframe-harness/src/model/server.rs:175-179 | exactly that member is added to an existing room |
| `ModelWorld.ModelServer.AdvanceEpoch` | crates/lockframe-harness/src/model/server.rs:182-186 | the epoch of an existing room moves on |
| `ModelWorld.ModelWorld.constructor` | crates/lockframe-harness/src/model/world.rs:43-47 | n separate clients and an empty server |
| `ModelWorld.ModelWorld.Perform` | crates/lockframe-harness/src/model/world.rs:68-100 | world and result are those of `Apply`, for every operation |
| `ModelWorld.ModelWorld.AdvanceClients` | crates/lockframe-harness/src/model/world.rs:245-249 | the loop moves on the epoch of every client in the room and touches no other |
| `ModelWorld.ModelWorld.ApplyCreateRoom` | crates/lockframe-harness/src/model/world.rs:150-172 | creation on both sides or neither |
| `ModelWorld.ModelWorld.ApplySendMessage` | crates/lockframe-harness/src/model/world.rs:179-205 | the sender has its message at once, the others when the queue is delivered |
| `ModelWorld.ModelWorld.ApplyDeliverPending` | crates/lockframe-harness/src/model/world.rs:208-227 | each client gets its queued messages in queue order, and the queue is empty |
| `ModelWorld.ModelWorld.Deliver` | crates/lockframe-harness/src/model/world.rs:213-225 | one message to its recipients in any order: not to its sender, not to the partitioned, not to who has left |
| `ModelWorld.ModelWorld.ApplyLeaveRoom` | crates/lockframe-harness/src/model/world.rs:232-252 | the leaver goes on both sides, the rest move to the next epoch |
| `ModelWorld.ModelWorld.ApplyAddMember` | crates/lockframe-harness/src/model/world.rs:257-291 | the members move to the next epoch and the invitee enters there |
| `ModelWorld.ModelWorld.ApplyExternalJoin` | crates/lockframe-harness/src/model/world.rs:296-326 | the same without an inviter, for an existing room |
| `ModelWorld.ModelWorld.ApplyRemoveMember` | crates/lockframe-harness/src/model/world.rs:331-368 | the target goes on both sides; self-removal is refused |
| `ModelWorld.ModelWorld.ApplyPartition` | crates/lockframe-harness/src/model/world.rs:385-410 | the flag is set or cleared, except after a disconnect |
| `ModelWorld.ModelWorld.ApplyDisconnect` | crates/lockframe-harness/src/model/world.rs:413-442 | all rooms are left; where somebody remains the epoch moves on |
| `ModelWorld.ModelWorld.Abandon` | crates/lockframe-harness/src/model/world.rs:424-439 | the loop over the rooms gives the same result in every order |
| `WorldRuns.ApplyInv` | crates/lockframe-harness/src/model/world.rs:150-442 | every operation keeps the world invariant |
| `WorldRuns.EveryReachableWorld` | crates/lockframe-harness/src/model/world.rs:150-442 | in every reachable world client and server agree on membership and epoch, log entries are numbered by position with epochs that never decrease, and an inbox is a duplicate-free part of the log with the messages of others in log order |
| `WorldRuns.LogsOnlyGrow` | crates/lockframe-harness/src/model/server.rs:122-186 | over any run rooms persist, logs only grow at the end and epochs never go back |
| `WorldEffects.AllowedIff` | crates/lockframe-harness/src/model/world.rs:150-442 | an operation succeeds if and only if it is allowed; a refused one changes nothing |
| `WorldEffects.RefusalReasons` | crates/lockframe-harness/src/model/world.rs:150-442 | the error of every refused operation |
| `WorldEffects.MemberAfterIff` | crates/lockframe-harness/src/model/world.rs:150-442 | exactly who is in which room after any operation |
| `WorldEffects.EpochAfter` | crates/lockframe-harness/src/model/world.rs:232-442 | a room's epoch moves by one exactly at membership changes that leave somebody |
| `WorldEffects.RoomAfterIff` | crates/lockframe-harness/src/model/world.rs:150-176 | a room exists if and only if it did or is created, then with its creator alone, empty, at epoch zero |
| `WorldEffects.FlagsAfter` | crates/lockframe-harness/src/model/world.rs:385-442 | partitions come and go as asked, a disconnect is for good |
| `WorldEffects.LogIsWhatWasSent` | crates/lockframe-harness/src/model/server.rs:122-155 | over every run a log gains exactly what reachable members send: sender, content, epoch, in order |
| `WorldEffects.EveryContentArrives` | crates/lockframe-harness/src/model/world.rs:208-229 | whoever stays in a room and is reachable at deliveries has every content sent meanwhile |
| `WorldRuns.DeliveryAppendsDue` | crates/lockframe-harness/src/model/world.rs:208-227 | delivery appends to an inbox exactly what is due, unless partitioned, and changes nothing else |
| `WorldRuns.MissesNothing` | crates/lockframe-harness/src/model/world.rs:208-227 | a client that stays in a room and is reachable at every delivery has, after the last one, every message the log has gained |
| `WorldRuns.StaysSortedIff` | crates/lockframe-harness/src/model/client.rs:81-84 | one operation: an inbox in log order stays so except exactly when a delivery brings something that a message of its own has overtaken |
| `WorldRuns.InboxOnlyGrows` | crates/lockframe-harness/src/model/client.rs:120-124 | while a client stays in a room its inbox is only appended to |
| `WorldRuns.SortedOverRunsIff` | crates/lockframe-harness/src/model/client.rs:81-84 | over any run of a client that stays in a room, an inbox in log order is so at the end if and only if no delivery made while it was reachable was overtaken |
| `WorldRuns.EveryInboxSortedIff` | crates/lockframe-harness/src/model/client.rs:81-84 | every inbox of every reachable world is in log order if and only if no delivery since the client entered was overtaken |
| `WorldRuns.LaterWriterSeesOwnFirst` | crates/lockframe-harness/src/model/world.rs:198-202 | whenever two reachable members write before a delivery, the later one has its own message first |
| `WorldRuns.InboxCanBeOutOfOrder` | crates/lockframe-harness/src/model/world.rs:198-202 | a five-step run after which an inbox is not in log order |

## Left out

- OpenMLS groups and the parts of the client that depend on them: the library's behaviour is not part of this model.
- HMAC, HKDF, XChaCha20-Poly1305, Ed25519 and zeroisation: replaced by free terms and an arbitrary verifier.
- CBOR serialisation: payloads arrive decoded or marked undecodable, and encoding a reply never fails.
- QUIC, TLS, tokio tasks and channels: the driver handles one event at a time under a mutex, so events are atomic steps.
- Terminal UI, command parsing, app, bridge and runtime view state: would only add easy members.
- Error texts, log levels and log messages: a log action is one constant.
- Redb transactions, disk behaviour and mutex poisoning: the table is an atomic ordered map.
- MLS state storage: stored and loaded as opaque bytes, one map entry each.
- `sessions_mut`: hands out a mutable session that could break the registry's indexes; no production code calls it.
- Debug assertions, among them the 1000-message bound of the model server's queue.
- 64-bit wrap-around of epochs, of model log indexes and of key package stamps; the sequencer's own overflow check is modelled.
- `ModelClient::send_message` and the observable-state snapshot of the model world: nothing in the world depends on them.
- Driver.ServerDriver: a connection in the driver's map is a value that is taken out, updated and put back, so aliasing between the map and a borrowed connection is not modelled.
- Driver.ServerDriver.HandleTick: the order in which a hash map yields its keys is a parameter.
- Storage.MemoryStorage.LoadFrames: indexes are unbounded here, so an overflow of start plus limit in machine words is not modelled.
- Rooms.RoomManager.HandleSyncRequest: encoding a stored frame cannot fail here; `StoredFramesEncode` proves that it need not.
- Driver.ServerDriver.ProcessEvent: the event that rebuilds the room manager in place is not a call of the driver; it exists in the specification only, to compare runs.
- DriverDirectory.PackagesHandedOutOnce: for runs of one driver process, because a new process starts with an empty package registry.
