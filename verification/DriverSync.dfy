/** Catching up through the driver: each page is an answer of its own, and frames keep arriving
    between one request and the next. */
module DriverSync {
  import opened BigEndian
  import opened Results
  import opened Wire
  import opened Storage
  import R = Rooms
  import Q = RoomRuns
  import C = Connection
  import G = Registry
  import S = Sync
  import opened Driver
  import opened DriverRuns

  // ---- requests and pages ----

  predicate IsAsk(e: Event, s: U64, room: U128) {
    && e.Received? && e.session == s && OpcodeRaw(e.frame.header) == SYNC_REQUEST && RoomId(e.frame.header) == room
    && e.payload.SyncRequestPayload?
  }

  predicate IsPage(a: ServerAction, s: U64, room: U128) {
    a.SendToSession? && a.session == s && a.reply.SyncPage? && a.reply.room == room
  }

  /** The encoded frames an answer brings session `s` as a page of `room`. */
  function PageBy(actions: seq<ServerAction>, s: U64, room: U128): seq<seq<Byte>> {
    if actions == [] then []
    else (if IsPage(actions[0], s, room) then actions[0].reply.frames else []) + PageBy(actions[1..], s, room)
  }

  function PageTo(answer: Answer, s: U64, room: U128): seq<seq<Byte>> {
    if answer.Ok? then PageBy(answer.value, s, room) else []
  }

  /** What the client makes of it: the entries that decode, in order. */
  function Opened(entries: seq<seq<Byte>>): seq<Frame> {
    if entries == [] then []
    else (match Decode(entries[0]) case Ok(f) => [f] case Err(_) => []) + Opened(entries[1..])
  }

  function Pages(answers: seq<Answer>, s: U64, room: U128): seq<Frame> {
    if answers == [] then [] else Opened(PageTo(answers[0], s, room)) + Pages(answers[1..], s, room)
  }

  /** A page with nothing behind it. */
  predicate LastPage(answer: Answer, s: U64, room: U128) {
    answer.Ok? && exists i | 0 <= i < |answer.value| :: IsPage(answer.value[i], s, room) && !answer.value[i].reply.hasMore
  }

  /** The session's requests for the room each ask for at least one frame, from where the frames
      received so far end. A request may fail and be made again. */
  ghost predicate AsksOnward(d: Server, es: seq<Event>, s: U64, room: U128, got: nat)
    decreases |es|
  {
    es == [] ||
    (&& (IsAsk(es[0], s, room) ==> es[0].payload.from == got && es[0].payload.limit >= 1)
     && AsksOnward(Step(d, es[0]).0, es[1..], s, room, got + |Opened(PageTo(Step(d, es[0]).1, s, room))|))
  }

  lemma {:induction false} OpenedEncoded(fs: seq<Frame>, entries: seq<seq<Byte>>)
    requires |entries| == |fs| && forall i | 0 <= i < |fs| :: Encodable(fs[i]) && entries[i] == WireBytes(fs[i])
    ensures Opened(entries) == fs
    decreases |fs|
  {
    hide Encodable, Decode, WireBytes;
    if fs != [] {
      assert WireBytes(fs[0]) + [] == entries[0];
      DecodeEncode(fs[0], []);
      OpenedEncoded(fs[1..], entries[1..]);
    }
  }

  // ---- only a request brings a page ----

  predicate Pageless(answer: Answer, s: U64, room: U128) {
    answer.Ok? ==> forall i | 0 <= i < |answer.value| :: !IsPage(answer.value[i], s, room)
  }

  lemma {:induction false} PagelessBy(actions: seq<ServerAction>, s: U64, room: U128)
    requires forall i | 0 <= i < |actions| :: !IsPage(actions[i], s, room)
    ensures PageBy(actions, s, room) == []
  {
    if actions != [] {
      PagelessBy(actions[1..], s, room);
    }
  }

  lemma PagelessAnswer(answer: Answer, s: U64, room: U128)
    requires Pageless(answer, s, room)
    ensures Opened(PageTo(answer, s, room)) == [] && !LastPage(answer, s, room)
  {
    if answer.Ok? {
      PagelessBy(answer.value, s, room);
    }
  }

  lemma {:induction false} RoomActionsPageless(d: Server, actions: seq<R.RoomAction>, sender: U64, fault: bool, s: U64, room: U128)
    requires OnlyRoutes(actions)
    ensures Pageless(Ok(OnRoomActions(d, actions, sender, fault).1), s, room)
    decreases |actions|
  {
    hide R.IsWelcome, R.Persist, RecipientId, RoomId, G.SessionOf, G.SessionsIn;
    if actions != [] {
      RoomActionsPageless(OnRoomAction(d, actions[0], sender, fault).0, actions[1..], sender, fault, s, room);
    }
  }

  lemma JoinedPageless(d: Server, session: U64, f: Frame, faults: Faults, s: U64, room: U128)
    ensures Pageless(OnJoinedFrame(d, session, f, faults).1, s, room)
  {
    hide R.Processed, OnRoomActions, OnlyRoutes, RoomId, OpcodeRaw, G.AfterSubscribe;
    var d1 := if OpcodeRaw(f.header) == EXTERNAL_COMMIT
              then d.(registry := G.AfterSubscribe(d.registry, session, RoomId(f.header)).0) else d;
    var (m, result) := R.Processed(d1.core.manager, f, d1.core.store, faults.latest);
    NeverRejects(d1.core.manager, f, d1.core.store, faults.latest);
    if result.Ok? {
      RoomActionsPageless(d1.(core := R.Core(m, d1.core.store)), result.value, session, faults.store, s, room);
    }
  }

  lemma CreatePageless(d: Server, r: U128, session: U64, secs: U64, fault: bool, s: U64, room: U128)
    ensures Pageless(OnCreateRoom(d, r, session, secs, fault).1, s, room)
  {
  }

  lemma RoomFramePageless(d: Server, session: U64, f: Frame, secs: U64, faults: Faults, s: U64, room: U128)
    ensures Pageless(OnRoomFrame(d, session, f, secs, faults).1, s, room)
  {
    hide OnJoinedFrame, OnCreateRoom, CreatesRoom, RoomId;
    CreatePageless(d, RoomId(f.header), session, secs, faults.create, s, room);
    JoinedPageless(d, session, f, faults, s, room);
    JoinedPageless(OnCreateRoom(d, RoomId(f.header), session, secs, faults.create).0, session, f, faults, s, room);
  }

  /** A sync request is answered to the session that made it, about the room it named. */
  lemma SyncPageless(d: Server, session: U64, r: U128, payload: Payload, faults: Faults, s: U64, room: U128)
    requires !(session == s && r == room && payload.SyncRequestPayload?)
    ensures Pageless(OnSync(d, session, r, payload, faults).1, s, room)
  {
    hide WireBytes;
  }

  lemma FramePageless(d: Server, e: Event, s: U64, room: U128)
    requires e.Received? && !IsAsk(e, s, room)
    ensures Pageless(Step(d, e).1, s, room)
  {
    hide OnRoomFrame, OnSync, OpcodeRaw, RoomId, RecipientId, C.AfterFrame, G.Updated, G.AfterSubscribe, G.SessionOf;
    if e.session in d.conns {
      RoomFramePageless(Touch(d, e.session, e.now), e.session, e.frame, e.secs, e.faults, s, room);
      if OpcodeRaw(e.frame.header) == SYNC_REQUEST {
        SyncPageless(d, e.session, RoomId(e.frame.header), e.payload, e.faults, s, room);
      }
    }
  }

  lemma {:induction false} TickPageless(conns: map<U64, C.Conn>, order: seq<U64>, now: nat, s: U64, room: U128)
    ensures Pageless(Ok(OnTick(conns, order, now).1), s, room)
    decreases |order|
  {
    hide C.AfterTick;
    if order != [] {
      TickPageless(conns, order[..|order| - 1], now, s, room);
    }
  }

  lemma NoAskNoPage(d: Server, e: Event, s: U64, room: U128)
    requires !IsAsk(e, s, room)
    ensures Pageless(Step(d, e).1, s, room)
  {
    if e.Received? {
      FramePageless(d, e, s, room);
    } else {
      hide OnTick, R.Step, OnCreateRoom, G.Registered, G.Unregistered, G.AfterSubscribe, G.AfterUnsubscribe;
      match e
      case Tick(order, now) => TickPageless(d.conns, order, now, s, room);
      case CreateRoom(r, session, secs, fault) => CreatePageless(d, r, session, secs, fault, s, room);
      case _ =>
    }
  }

  // ---- one request ----

  /** The piece of the log that goes on from `got`; all of it if nothing is behind the page. */
  predicate Continues(answer: Answer, s: U64, room: U128, got: nat, log: seq<Frame>) {
    var page := Opened(PageTo(answer, s, room));
    && got + |page| <= |log| && page == log[got..got + |page|]
    && (LastPage(answer, s, room) ==> got + |page| == |log|)
  }

  lemma OnePage(s: U64, room: U128, frames: seq<seq<Byte>>, hasMore: bool)
    ensures var answer := Ok([SendToSession(s, SyncPage(room, frames, hasMore))]);
            PageTo(answer, s, room) == frames && (LastPage(answer, s, room) <==> !hasMore)
  {
    var a := SendToSession(s, SyncPage(room, frames, hasMore));
    assert [a][1..] == [] && PageBy([a][1..], s, room) == [];
    assert [a][0] == a;
  }

  lemma SyncAnswers(d: Server, s: U64, room: U128, payload: Payload, faults: Faults)
    requires payload.SyncRequestPayload? && payload.limit >= 1
    ensures var (d', answer) := OnSync(d, s, room, payload, faults);
            var log := Log(d.core.store, room);
            var frames := S.EncodedPage(log, payload.from, payload.limit);
            if room in d.core.manager.metadata && room in d.core.store.frames && !faults.load && !faults.latest
            then answer == Ok([SendToSession(s, SyncPage(room, frames, payload.from + |frames| < |log|))])
            else Pageless(answer, s, room)
  {
    hide WireBytes, S.EncodedPage, Page, Log;
    var m, c := d.core.manager, d.core.store;
    if room in m.metadata && room in c.frames && !faults.load && !faults.latest {
      S.HasMoreIff(m, c, room, s, payload.from, payload.limit);
    }
  }

  /** A request from where the client stands brings the next piece of the log as it is then, and
      at least one frame if there is more behind it; or it fails and brings nothing. */
  lemma AskContinues(d: Server, e: Event, s: U64, room: U128)
    requires IsAsk(e, s, room) && e.payload.limit >= 1
    requires Q.AllEncode(d.core.store) && e.payload.from <= |Log(d.core.store, room)|
    ensures Continues(Step(d, e).1, s, room, e.payload.from, Log(d.core.store, room))
    ensures Pageless(Step(d, e).1, s, room) || LastPage(Step(d, e).1, s, room) || |Opened(PageTo(Step(d, e).1, s, room))| >= 1
  {
    hide Encodable, Decode, WireBytes, OpcodeRaw, RoomId, OnSync, OnRoomFrame, Opened, PageTo, LastPage;
    var answer, log := Step(d, e).1, Log(d.core.store, room);
    if e.session in d.conns {
      SyncAnswers(d, s, room, e.payload, e.faults);
    }
    if Pageless(answer, s, room) {
      PagelessAnswer(answer, s, room);
    } else {
      var frames := S.EncodedPage(log, e.payload.from, e.payload.limit);
      OnePage(s, room, frames, e.payload.from + |frames| < |log|);
      OpenedEncoded(Page(log, e.payload.from, e.payload.limit), frames);
      S.PageIsSlice(log, e.payload.from, e.payload.limit);
    }
  }

  // ---- runs ----

  predicate FitsWire(e: Event) { e.Received? ==> |e.frame.payload| <= MAX_PAYLOAD_SIZE }

  lemma EventFits(d: Server, e: Event)
    requires FitsWire(e)
    ensures forall x | x in CoreEvents(d, e) :: Q.FitsWire(x)
  {
    hide RoomId, OpcodeRaw;
  }

  lemma StoreKept(d: Server, e: Event)
    requires Q.SoundLog(d.core.store) && Q.AllEncode(d.core.store) && FitsWire(e)
    ensures var t := Step(d, e).0.core.store; Q.SoundLog(t) && Q.AllEncode(t) && Q.Extends(d.core.store, t)
  {
    hide Step, CoreEvents, Q.SoundLog, Q.AllEncode, Q.Extends, R.Run, R.Outputs, FitsWire;
    StepProjects(d, e, 0, 0);
    EventFits(d, e);
    Q.LogSoundOverRuns(d.core, CoreEvents(d, e));
    Q.StoredFramesEncode(d.core, CoreEvents(d, e));
  }

  /** One event of a client that is catching up. */
  lemma PagingStep(d: Server, e: Event, s: U64, room: U128, got: nat)
    requires Q.AllEncode(d.core.store) && got <= |Log(d.core.store, room)|
    requires IsAsk(e, s, room) ==> e.payload.from == got && e.payload.limit >= 1
    ensures Continues(Step(d, e).1, s, room, got, Log(d.core.store, room))
    ensures LastPage(Step(d, e).1, s, room) ==> Step(d, e).0.core == d.core
  {
    hide Q.AllEncode, Opened, PageTo, LastPage, Log, Step;
    if IsAsk(e, s, room) {
      AskContinues(d, e, s, room);
      AskKeepsCore(d, e, s, room);
    } else {
      NoAskNoPage(d, e, s, room);
      PagelessAnswer(Step(d, e).1, s, room);
    }
  }

  lemma AskKeepsCore(d: Server, e: Event, s: U64, room: U128)
    requires IsAsk(e, s, room)
    ensures Step(d, e).0.core == d.core
  {
    hide OpcodeRaw, RoomId, OnRoomFrame, OnSync;
    SyncIsQuiet(d, s, room, e.payload, e.faults);
  }

  /** Over any run, whatever fails and whatever arrives in between: the pages a client collects
      are a contiguous piece of the log as it is at the end, from where the client started, with
      nothing skipped, repeated or out of order; and right after a page with nothing behind it
      they are all of the log from there. */
  lemma {:induction false} PagesOfGrowingLog(d: Server, es: seq<Event>, s: U64, room: U128, got: nat)
    requires Q.SoundLog(d.core.store) && Q.AllEncode(d.core.store) && forall e | e in es :: FitsWire(e)
    requires AsksOnward(d, es, s, room, got) && got <= |Log(d.core.store, room)|
    ensures var pages, log := Pages(Answers(d, es), s, room), Log(Run(d, es).core.store, room);
            && got + |pages| <= |log| && pages == log[got..got + |pages|]
            && (es != [] && LastPage(Answers(d, es)[|es| - 1], s, room) ==> pages == log[got..])
    decreases |es|
  {
    hide Step, FitsWire, Q.SoundLog, Q.AllEncode, Opened, PageTo, LastPage, Log, IsAsk;
    if es != [] {
      assert es[0] in es && forall e | e in es[1..] :: e in es;
      var (d', answer) := Step(d, es[0]);
      var page := Opened(PageTo(answer, s, room));
      PagingStep(d, es[0], s, room, got);
      StoreKept(d, es[0]);
      assert Log(d.core.store, room) <= Log(d'.core.store, room);
      PagesOfGrowingLog(d', es[1..], s, room, got + |page|);
      assert Answers(d, es)[1..] == Answers(d', es[1..]);
      LogsExtend(d', es[1..], room);
      PagesJoin(Log(d.core.store, room), Log(Run(d, es).core.store, room), got, page, Pages(Answers(d', es[1..]), s, room));
      if |es| == 1 {
        assert es[1..] == [];
      }
    }
  }

  lemma {:induction false} LogsExtend(d: Server, es: seq<Event>, room: U128)
    requires Q.SoundLog(d.core.store)
    ensures Log(d.core.store, room) <= Log(Run(d, es).core.store, room)
  {
    hide R.Run, Run, Q.SoundLog;
    RunProjects(d, es);
    Q.LogSoundOverRuns(d.core, AllCoreEvents(d, es));
  }

  lemma PagesJoin(log: seq<Frame>, later: seq<Frame>, got: nat, page: seq<Frame>, rest: seq<Frame>)
    requires log <= later && got + |page| <= |log| && got + |page| + |rest| <= |later|
    requires page == log[got..got + |page|] && rest == later[got + |page|..got + |page| + |rest|]
    ensures page + rest == later[got..got + |page + rest|]
  {
    assert log[got..got + |page|] == later[got..got + |page|];
  }

  /** A client pages until nothing is behind its page, in a run where frames keep arriving, and
      stays subscribed from then on. The pages are the whole log at that moment, and pages and
      later broadcasts together are the whole log at the end if and only if none of the room's
      frames was lost after the pages. If it was subscribed while paging, the broadcasts it got
      meanwhile are what the pages repeat: exactly their end, from where the log ended at the
      start, if and only if none was lost. */
  lemma PagesThenBroadcasts(d: Server, paging: seq<Event>, after: seq<Event>, s: U64, room: U128, drifted: set<U128>)
    requires Q.SoundLog(d.core.store) && Q.AllEncode(d.core.store) && Q.Tracks(d.core, drifted)
    requires (forall e | e in paging :: FitsWire(e)) && AsksOnward(d, paging, s, room, 0)
    requires paging != [] && LastPage(Answers(d, paging)[|paging| - 1], s, room)
    requires StaysSubscribed(Run(d, paging), after, s, room)
    ensures var mid, pages := Run(d, paging), Pages(Answers(d, paging), s, room);
            && pages == Log(mid.core.store, room)
            && (pages + Delivered(Answers(mid, after), s, room) == Log(Run(d, paging + after).core.store, room)
                <==> Losses(mid, after, room, Q.DriftedAfter(d.core, AllCoreEvents(d, paging), drifted)) == 0)
            && (StaysSubscribed(d, paging, s, room) ==>
                  (pages == Log(d.core.store, room) + Delivered(Answers(d, paging), s, room)
                   <==> Losses(d, paging, room, drifted) == 0))
  {
    hide Run, Answers, R.Run, Pages, Delivered, Losses, StaysSubscribed,
      AsksOnward, LastPage, Q.SoundLog, Q.AllEncode, Q.Tracks, Log, FitsWire, Q.DriftedAfter;
    var mid := Run(d, paging);
    PagesOfGrowingLog(d, paging, s, room, 0);
    RunSplit(d, paging, after);
    DriverKeepsLogs(d, paging, drifted);
    SubscriberSeesTheLog(mid, after, s, room, Q.DriftedAfter(d.core, AllCoreEvents(d, paging), drifted));
    if StaysSubscribed(d, paging, s, room) {
      SubscriberSeesTheLog(d, paging, s, room, drifted);
    }
    assert Log(mid.core.store, room)[0..] == Log(mid.core.store, room);
  }
}
