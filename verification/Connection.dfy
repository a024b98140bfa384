/** The session state machine: handshake, timeouts, heartbeats, shutdown. Time is an argument
    of every operation; payloads arrive decoded, `None` standing for bytes that do not decode. */
module Connection {
  import opened BigEndian
  import opened Results

  datatype Phase = Init | Pending | Authenticated | Closed

  datatype Config = Config(handshakeTimeout: nat, idleTimeout: nat, heartbeatInterval: nat)

  datatype HelloBody = HelloBody(version: nat, senderId: Option<U64>)

  datatype Message =
    | Hello(body: Option<HelloBody>)
    | HelloReply(sessionId: Option<U64>)
    | Ping
    | Pong
    | Goodbye(reason: Option<string>)
    | PeerError
    | OtherOpcode(opcode: nat)
    | UnknownOpcode(opcode: nat)

  datatype CloseReason =
    | HandshakeTimeout(elapsed: nat)
    | IdleTimeout(elapsed: nat)
    | PeerGoodbye(reason: string)
    | PeerFailed

  datatype Action = SendFrame(message: Message) | CloseWith(reason: CloseReason)

  datatype ConnectionError = InvalidState | UnsupportedVersion(version: nat) | UnexpectedFrame | InvalidPayload | NoSessionId

  type Outcome = Result<seq<Action>, ConnectionError>

  datatype Conn = Conn(
    state: Phase, config: Config, lastActivity: nat, lastHeartbeat: Option<nat>,
    sessionId: Option<U64>, clientSenderId: Option<U64>)

  function NewConn(now: nat, config: Config): Conn {
    Conn(Init, config, now, None, None, None)
  }

  /** Subtracting a later instant from an earlier one gives zero. */
  function Elapsed(now: nat, since: nat): nat { if now >= since then now - since else 0 }

  const HELLO := Hello(Some(HelloBody(1, None)))

  function AfterSendHello(c: Conn, now: nat): (Conn, Outcome) {
    if c.state != Init then (c, Err(InvalidState))
    else (c.(state := Pending, lastActivity := now), Ok([SendFrame(HELLO)]))
  }

  /** `handle_hello`: the server variant that draws its own session id. */
  function AfterHandleHello(c: Conn, version: nat, random: U64, now: nat): (Conn, Outcome) {
    if c.state != Init then (c, Err(InvalidState))
    else if version != 1 then (c, Err(UnsupportedVersion(version)))
    else (c.(state := Authenticated, lastActivity := now, sessionId := Some(random)),
          Ok([SendFrame(HelloReply(Some(random)))]))
  }

  /** `handle_frame`. Any frame counts as activity, also one that is refused. */
  function AfterFrame(c: Conn, m: Message, now: nat): (Conn, Outcome) {
    var d := c.(lastActivity := now);
    if c.state == Init && m.Hello? then
      if m.body.None? then (d, Err(InvalidPayload))
      else if m.body.value.version != 1 then (d, Err(UnsupportedVersion(m.body.value.version)))
      else if c.sessionId.None? then (d, Err(NoSessionId))
      else (d.(state := Authenticated, clientSenderId := m.body.value.senderId),
            Ok([SendFrame(HelloReply(c.sessionId))]))
    else if c.state == Pending && m.HelloReply? then
      if m.sessionId.None? then (d, Err(InvalidPayload))
      else (d.(state := Authenticated, sessionId := m.sessionId), Ok([]))
    else if c.state == Authenticated && m.Ping? then (d, Ok([SendFrame(Pong)]))
    else if c.state == Authenticated && m.Pong? then (d, Ok([]))
    else if c.state != Closed && m.Goodbye? then
      if m.reason.None? then (d, Err(InvalidPayload))
      else (d.(state := Closed), Ok([SendFrame(Goodbye(Some("ack"))), CloseWith(PeerGoodbye(m.reason.value))]))
    else if m.PeerError? then (d.(state := Closed), Ok([CloseWith(PeerFailed)]))
    else (d, Err(UnexpectedFrame))
  }

  function TimedOut(c: Conn, now: nat): Option<nat> {
    var elapsed := Elapsed(now, c.lastActivity);
    match c.state
    case Pending => if elapsed > c.config.handshakeTimeout then Some(elapsed) else None
    case Authenticated => if elapsed > c.config.idleTimeout then Some(elapsed) else None
    case _ => None
  }

  predicate HeartbeatDue(c: Conn, now: nat) {
    c.lastHeartbeat.None? || Elapsed(now, c.lastHeartbeat.value) >= c.config.heartbeatInterval
  }

  function AfterTick(c: Conn, now: nat): (Conn, seq<Action>) {
    var timeout := TimedOut(c, now);
    if timeout.Some? then
      (c.(state := Closed),
       [CloseWith(if c.state == Pending then HandshakeTimeout(timeout.value) else IdleTimeout(timeout.value))])
    else if c.state == Authenticated && HeartbeatDue(c, now) then
      (c.(lastHeartbeat := Some(now), lastActivity := now), [SendFrame(Ping)])
    else (c, [])
  }

  class Connection {
    var state: Phase
    var config: Config
    var lastActivity: nat
    var lastHeartbeat: Option<nat>
    var sessionId: Option<U64>
    var clientSenderId: Option<U64>

    function View(): Conn
      reads this
    {
      Conn(state, config, lastActivity, lastHeartbeat, sessionId, clientSenderId)
    }

    constructor (now: nat, config: Config)
      ensures View() == NewConn(now, config)
    {
      this.state, this.config, this.lastActivity := Init, config, now;
      this.lastHeartbeat, this.sessionId, this.clientSenderId := None, None, None;
    }

    /** Takes over a connection kept by value elsewhere, as an owned map entry is. */
    constructor From(c: Conn)
      ensures View() == c
    {
      state, config, lastActivity := c.state, c.config, c.lastActivity;
      lastHeartbeat, sessionId, clientSenderId := c.lastHeartbeat, c.sessionId, c.clientSenderId;
    }

    method SetSessionId(id: U64)
      modifies this
      ensures View() == old(View()).(sessionId := Some(id))
    {
      sessionId := Some(id);
    }

    method UpdateActivity(now: nat)
      modifies this
      ensures View() == old(View()).(lastActivity := now)
    {
      lastActivity := now;
    }

    method Close()
      modifies this
      ensures View() == old(View()).(state := Closed)
    {
      state := Closed;
    }

    method SendHello(now: nat) returns (r: Outcome)
      modifies this
      ensures (View(), r) == AfterSendHello(old(View()), now)
    {
      if state != Init {
        return Err(InvalidState);
      }
      state := Pending;
      lastActivity := now;
      return Ok([SendFrame(HELLO)]);
    }

    method HandleHello(version: nat, random: U64, now: nat) returns (r: Outcome)
      modifies this
      ensures (View(), r) == AfterHandleHello(old(View()), version, random, now)
    {
      if state != Init {
        return Err(InvalidState);
      }
      if version != 1 {
        return Err(UnsupportedVersion(version));
      }
      sessionId := Some(random);
      state := Authenticated;
      lastActivity := now;
      return Ok([SendFrame(HelloReply(Some(random)))]);
    }

    method CheckTimeout(now: nat) returns (elapsed: Option<nat>)
      ensures elapsed == TimedOut(View(), now)
    {
      var past := Elapsed(now, lastActivity);
      var limit;
      match state {
        case Pending => limit := config.handshakeTimeout;
        case Authenticated => limit := config.idleTimeout;
        case _ => return None;
      }
      return if past > limit then Some(past) else None;
    }

    method Tick(now: nat) returns (actions: seq<Action>)
      modifies this
      ensures (View(), actions) == AfterTick(old(View()), now)
    {
      actions := [];
      var timeout := CheckTimeout(now);
      if timeout.Some? {
        var reason := if state == Pending then HandshakeTimeout(timeout.value) else IdleTimeout(timeout.value);
        Close();
        return [CloseWith(reason)];
      }
      if state == Authenticated {
        var due := true;
        if lastHeartbeat.Some? {
          due := Elapsed(now, lastHeartbeat.value) >= config.heartbeatInterval;
        }
        if due {
          actions := [SendFrame(Ping)];
          lastHeartbeat := Some(now);
          lastActivity := now;
        }
      }
    }

    method HandleFrame(m: Message, now: nat) returns (r: Outcome)
      modifies this
      ensures (View(), r) == AfterFrame(old(View()), m, now)
    {
      lastActivity := now;
      if state == Init && m.Hello? {
        if m.body.None? {
          return Err(InvalidPayload);
        }
        if m.body.value.version != 1 {
          return Err(UnsupportedVersion(m.body.value.version));
        }
        if sessionId.None? {
          return Err(NoSessionId);
        }
        clientSenderId := m.body.value.senderId;
        state := Authenticated;
        return Ok([SendFrame(HelloReply(sessionId))]);
      } else if state == Pending && m.HelloReply? {
        if m.sessionId.None? {
          return Err(InvalidPayload);
        }
        state := Authenticated;
        sessionId := m.sessionId;
        return Ok([]);
      } else if state == Authenticated && m.Ping? {
        return Ok([SendFrame(Pong)]);
      } else if state == Authenticated && m.Pong? {
        return Ok([]);
      } else if state != Closed && m.Goodbye? {
        if m.reason.None? {
          return Err(InvalidPayload);
        }
        state := Closed;
        return Ok([SendFrame(Goodbye(Some("ack"))), CloseWith(PeerGoodbye(m.reason.value))]);
      } else if m.PeerError? {
        state := Closed;
        return Ok([CloseWith(PeerFailed)]);
      } else {
        return Err(UnexpectedFrame);
      }
    }
  }

  // ---- timed runs of one connection ----

  datatype Op =
    | SendHelloOp | FrameOp(message: Message) | TickOp | TouchOp | CloseOp | SessionOp(id: U64)
    | HandleHelloOp(version: nat, random: U64)

  datatype Timed = Timed(at: nat, op: Op)

  function Emitted(r: Outcome): seq<Action> { if r.Ok? then r.value else [] }

  function Step(c: Conn, e: Timed): (r: (Conn, seq<Action>)) {
    match e.op
    case SendHelloOp => (AfterSendHello(c, e.at).0, Emitted(AfterSendHello(c, e.at).1))
    case HandleHelloOp(v, random) => (AfterHandleHello(c, v, random, e.at).0, Emitted(AfterHandleHello(c, v, random, e.at).1))
    case FrameOp(m) => (AfterFrame(c, m, e.at).0, Emitted(AfterFrame(c, m, e.at).1))
    case TickOp => AfterTick(c, e.at)
    case TouchOp => (c.(lastActivity := e.at), [])
    case CloseOp => (c.(state := Closed), [])
    case SessionOp(id) => (c.(sessionId := Some(id)), [])
  }

  function Run(c: Conn, es: seq<Timed>): Conn
    decreases |es|
  {
    if es == [] then c else Run(Step(c, es[0]).0, es[1..])
  }

  function Actions(c: Conn, es: seq<Timed>): seq<Action>
    decreases |es|
  {
    if es == [] then [] else Step(c, es[0]).1 + Actions(Step(c, es[0]).0, es[1..])
  }

  predicate Monotone(clock: nat, es: seq<Timed>)
    decreases |es|
  {
    es == [] || (clock <= es[0].at && Monotone(es[0].at, es[1..]))
  }

  // ---- what an operation brings about ----

  /** The handshake completes at this end: a Hello of version 1 to a server that has a session id,
      or the reply to the Hello this end has sent. */
  predicate Begins(c: Conn, e: Timed) {
    || (c.state == Init && e.op.FrameOp? && e.op.message.Hello? && e.op.message.body.Some?
        && e.op.message.body.value.version == 1 && c.sessionId.Some?)
    || (c.state == Init && e.op.HandleHelloOp? && e.op.version == 1)
    || (c.state == Pending && e.op.FrameOp? && e.op.message.HelloReply? && e.op.message.sessionId.Some?)
  }

  /** The connection ends: closed from this side, by the peer's Goodbye or error, or timed out. */
  predicate Ends(c: Conn, e: Timed) {
    || e.op.CloseOp?
    || (e.op.FrameOp? && e.op.message.PeerError?)
    || (c.state != Closed && e.op.FrameOp? && e.op.message.Goodbye? && e.op.message.reason.Some?)
    || (e.op.TickOp? && TimedOut(c, e.at).Some?)
  }

  predicate BeatsAt(c: Conn, e: Timed) {
    e.op.TickOp? && c.state == Authenticated && TimedOut(c, e.at).None? && HeartbeatDue(c, e.at)
  }

  /** The phase after any operation, told by how a connection gets into and out of each. */
  lemma PhaseAfter(c: Conn, e: Timed)
    ensures var phase := Step(c, e).0.state;
            && (phase == Authenticated <==> (c.state == Authenticated && !Ends(c, e)) || Begins(c, e))
            && (phase == Closed <==> c.state == Closed || Ends(c, e))
            && (phase == Pending <==>
                  (c.state == Pending && !Ends(c, e) && !Begins(c, e)) || (c.state == Init && e.op.SendHelloOp?))
  {
  }

  /** What is sent: a Pong for every Ping of an authenticated peer, a Ping when a heartbeat is due,
      an acknowledgement of a Goodbye, a Hello when asked to, the session id in reply to a Hello;
      nothing else. And the host is told to close exactly when the peer or the clock ends it. */
  lemma SentBy(c: Conn, e: Timed, m: Message)
    ensures SendFrame(m) in Step(c, e).1
       <==> || (m == Pong && c.state == Authenticated && e.op.FrameOp? && e.op.message.Ping?)
            || (m == Ping && BeatsAt(c, e))
            || (m == Goodbye(Some("ack")) && c.state != Closed && e.op.FrameOp? && e.op.message.Goodbye? && e.op.message.reason.Some?)
            || (m == HELLO && c.state == Init && e.op.SendHelloOp?)
            || (Begins(c, e) && c.state == Init && m == HelloReply(if e.op.HandleHelloOp? then Some(e.op.random) else c.sessionId))
    ensures (exists reason :: CloseWith(reason) in Step(c, e).1) <==> Ends(c, e) && !e.op.CloseOp?
  {
    var actions := Step(c, e).1;
    if Ends(c, e) && !e.op.CloseOp? {
      assert actions[|actions| - 1].CloseWith?;
      assert CloseWith(actions[|actions| - 1].reason) in actions;
    }
  }

  /** Which frames are refused, and why: a body that does not decode where one is expected, a
      wrong version, a server without a session id; and whatever is out of place. */
  lemma FrameRefusedIff(c: Conn, m: Message, now: nat)
    ensures var r, e := AfterFrame(c, m, now).1, Timed(now, FrameOp(m));
            var greeting := c.state == Init && m.Hello?;
            var garbled := (greeting && m.body.None?) || (c.state == Pending && m.HelloReply? && m.sessionId.None?)
                           || (c.state != Closed && m.Goodbye? && m.reason.None?);
            var foreign := greeting && m.body.Some? && m.body.value.version != 1;
            var homeless := greeting && m.body.Some? && m.body.value.version == 1 && c.sessionId.None?;
            && (r.Ok? <==> Begins(c, e) || Ends(c, e) || (c.state == Authenticated && (m.Ping? || m.Pong?)))
            && (r.Err? ==> r.error == if garbled then InvalidPayload
                                      else if foreign then UnsupportedVersion(m.body.value.version)
                                      else if homeless then NoSessionId else UnexpectedFrame)
  {
  }

  /** Which timeout closes what: waiting for the reply to a Hello longer than the handshake timeout,
      or being authenticated and idle longer than the idle timeout; and the reason says how long. */
  lemma TimeoutCloses(c: Conn, now: nat, reason: CloseReason)
    ensures CloseWith(reason) in AfterTick(c, now).1
       <==> || (c.state == Pending && now > c.lastActivity + c.config.handshakeTimeout
                && reason == HandshakeTimeout(now - c.lastActivity))
            || (c.state == Authenticated && now > c.lastActivity + c.config.idleTimeout
                && reason == IdleTimeout(now - c.lastActivity))
  {
    var actions := AfterTick(c, now).1;
    assert TimedOut(c, now).Some? ==> actions[0].CloseWith?;
  }

  /** Whom the connection belongs to afterwards, and when it was last active. */
  lemma IdentityAfter(c: Conn, e: Timed)
    ensures var c' := Step(c, e).0;
            && c'.clientSenderId == (if Begins(c, e) && e.op.FrameOp? && c.state == Init then e.op.message.body.value.senderId
                                     else c.clientSenderId)
            && c'.sessionId == (if e.op.SessionOp? then Some(e.op.id)
                                else if Begins(c, e) && e.op.HandleHelloOp? then Some(e.op.random)
                                else if Begins(c, e) && c.state == Pending then e.op.message.sessionId
                                else c.sessionId)
            && c'.lastHeartbeat == (if BeatsAt(c, e) then Some(e.at) else c.lastHeartbeat)
            && c'.lastActivity == (if e.op.FrameOp? || e.op.TouchOp? || BeatsAt(c, e) || Begins(c, e)
                                      || (c.state == Init && e.op.SendHelloOp?) then e.at else c.lastActivity)
            && c'.config == c.config
  {
  }

  /** Closed is final: no run leaves it, and nothing more is sent. */
  lemma {:induction false} ClosedForever(c: Conn, es: seq<Timed>)
    requires c.state == Closed
    ensures Run(c, es).state == Closed
    ensures forall a | a in Actions(c, es) :: !a.SendFrame?
    decreases |es|
  {
    if es != [] {
      ClosedForever(Step(c, es[0]).0, es[1..]);
    }
  }

  // ---- heartbeats ----

  function PingTimes(c: Conn, es: seq<Timed>): seq<nat>
    decreases |es|
  {
    if es == [] then []
    else (if SendFrame(Ping) in Step(c, es[0]).1 then [es[0].at] else [])
         + PingTimes(Step(c, es[0]).0, es[1..])
  }

  predicate Spaced(ts: seq<nat>, interval: nat) {
    forall i | 0 <= i < |ts| - 1 :: ts[i] + interval <= ts[i + 1]
  }

  /** A run sends its pings at least a heartbeat interval apart, the first one also from the
      last heartbeat before it. */
  lemma {:induction false} PingsAreSpaced(c: Conn, clock: nat, es: seq<Timed>)
    requires Monotone(clock, es) && (c.lastHeartbeat.Some? ==> c.lastHeartbeat.value <= clock)
    ensures var ts := PingTimes(c, es);
            && (ts != [] && c.lastHeartbeat.Some? ==> c.lastHeartbeat.value + c.config.heartbeatInterval <= ts[0])
            && Spaced(ts, c.config.heartbeatInterval)
    decreases |es|
  {
    hide Step;
    if es != [] {
      var c' := Step(c, es[0]).0;
      PingStep(c, es[0]);
      PingsAreSpaced(c', es[0].at, es[1..]);
      var rest := PingTimes(c', es[1..]);
      assert PingTimes(c, es) == if SendFrame(Ping) in Step(c, es[0]).1 then [es[0].at] + rest else rest;
    }
  }

  lemma PingStep(c: Conn, e: Timed)
    requires c.lastHeartbeat.Some? ==> c.lastHeartbeat.value <= e.at
    ensures var (c', actions) := Step(c, e);
            && c'.config == c.config
            && (if SendFrame(Ping) in actions
                then && c'.lastHeartbeat == Some(e.at)
                     && (c.lastHeartbeat.Some? ==> c.lastHeartbeat.value + c.config.heartbeatInterval <= e.at)
                else c'.lastHeartbeat == c.lastHeartbeat)
  {
  }

  /** The reference point of a gap: the latest tick, or the moment of authentication. */
  function Mark(c: Conn, e: Timed, mark: Option<nat>): Option<nat> {
    if Step(c, e).0.state != Authenticated then None
    else if e.op.TickOp? || mark.None? then Some(e.at)
    else mark
  }

  /** While authenticated, every tick comes within `gap` of the one before it or of the
      authentication. */
  predicate TicksWithin(c: Conn, es: seq<Timed>, mark: Option<nat>, gap: nat)
    decreases |es|
  {
    es == [] ||
    (&& (c.state == Authenticated && mark.Some? && es[0].op.TickOp? ==> es[0].at <= mark.value + gap)
     && TicksWithin(Step(c, es[0]).0, es[1..], Mark(c, es[0], mark), gap))
  }

  predicate IdleClose(a: Action) { a.CloseWith? && a.reason.IdleTimeout? }

  /** How long a connection can look idle between two ticks when the last heartbeat was sent
      as early as the rules allow. */
  function WorstIdle(config: Config, gap: nat): nat {
    gap + if config.heartbeatInterval == 0 then 0 else config.heartbeatInterval - 1
  }

  /** What ties activity, heartbeat and the last tick together along a run. */
  predicate Beating(c: Conn, clock: nat, mark: Option<nat>) {
    && c.lastActivity <= clock
    && (c.state == Authenticated ==>
          && mark.Some? && mark.value <= clock
          && (if c.lastHeartbeat.None? then mark.value <= c.lastActivity
              else && c.lastHeartbeat.value <= mark.value && c.lastHeartbeat.value <= c.lastActivity
                   && (mark.value == c.lastHeartbeat.value
                       || mark.value < c.lastHeartbeat.value + c.config.heartbeatInterval)))
    && (c.state == Init || c.state == Pending ==> c.lastHeartbeat.None? && mark.None?)
  }

  lemma BeatingStep(c: Conn, clock: nat, mark: Option<nat>, e: Timed, gap: nat)
    requires Beating(c, clock, mark) && clock <= e.at && WorstIdle(c.config, gap) <= c.config.idleTimeout
    requires c.state == Authenticated && e.op.TickOp? ==> e.at <= mark.value + gap
    ensures Beating(Step(c, e).0, e.at, Mark(c, e, mark)) && Step(c, e).0.config == c.config
    ensures forall a | a in Step(c, e).1 :: !IdleClose(a)
  {
  }

  lemma {:induction false} HeartbeatsKeepAlive(c: Conn, clock: nat, mark: Option<nat>, es: seq<Timed>, gap: nat)
    requires Beating(c, clock, mark) && Monotone(clock, es) && TicksWithin(c, es, mark, gap)
    requires WorstIdle(c.config, gap) <= c.config.idleTimeout
    ensures forall a | a in Actions(c, es) :: !IdleClose(a)
    decreases |es|
  {
    if es != [] {
      BeatingStep(c, clock, mark, es[0], gap);
      HeartbeatsKeepAlive(Step(c, es[0]).0, es[0].at, Mark(c, es[0], mark), es[1..], gap);
    }
  }

  /** No run of a new connection whose ticks come within `gap` is ever closed for idleness. */
  ghost predicate NeverIdles(config: Config, gap: nat) {
    forall start: nat, es: seq<Timed> | Monotone(start, es) && TicksWithin(NewConn(start, config), es, None, gap) ::
      forall a | a in Actions(NewConn(start, config), es) :: !IdleClose(a)
  }

  ghost predicate Idles(c: Conn, es: seq<Timed>) { exists a :: a in Actions(c, es) && IdleClose(a) }

  /** Ticks at `from`, `from + 1`, ..., `until - 1`, and a last one a whole `gap` after those. */
  function TickEveryInstant(from: nat, until: nat, gap: nat): seq<Timed>
    requires from <= until && until >= 1
    decreases until - from
  {
    if from == until then [Timed(until - 1 + gap, TickOp)] else [Timed(from, TickOp)] + TickEveryInstant(from + 1, until, gap)
  }

  lemma {:induction false} SlowLastTick(c: Conn, from: nat, until: nat, gap: nat)
    requires c.state == Authenticated && c.lastActivity == 0 && c.lastHeartbeat == Some(0)
    requires 1 <= from <= until == c.config.heartbeatInterval && gap >= 1 && until - 1 + gap > c.config.idleTimeout
    ensures var es := TickEveryInstant(from, until, gap);
            (Monotone(from - 1, es) && TicksWithin(c, es, Some(from - 1), gap) && Idles(c, es))
    decreases until - from
  {
    var es := TickEveryInstant(from, until, gap);
    var c' := Step(c, es[0]).0;
    if c'.state == Closed {
      assert CloseWith(IdleTimeout(es[0].at)) in Actions(c, es);
      assert IdleClose(CloseWith(IdleTimeout(es[0].at)));
      if from < until {
        ClosedTicks(c', from + 1, until, gap);
      }
    } else {
      SlowLastTick(c', from + 1, until, gap);
    }
  }

  lemma {:induction false} ClosedTicks(c: Conn, from: nat, until: nat, gap: nat)
    requires c.state == Closed && 1 <= from <= until
    ensures Monotone(from - 1, TickEveryInstant(from, until, gap)) && TicksWithin(c, TickEveryInstant(from, until, gap), None, gap)
    decreases until - from
  {
    if from < until {
      ClosedTicks(Step(c, Timed(from, TickOp)).0, from + 1, until, gap);
    }
  }

  const LOGIN := [Timed(0, SessionOp(1)), Timed(0, FrameOp(HELLO))]

  function LoggedIn(config: Config): Conn { Conn(Authenticated, config, 0, None, Some(1), None) }

  lemma LoginFirst(config: Config, ticks: seq<Timed>, gap: nat)
    requires Monotone(0, ticks) && TicksWithin(LoggedIn(config), ticks, Some(0), gap) && Idles(LoggedIn(config), ticks)
    ensures var es := LOGIN + ticks;
            (Monotone(0, es) && TicksWithin(NewConn(0, config), es, None, gap) && Idles(NewConn(0, config), es))
  {
    hide AfterTick;
    var es, c, c2 := LOGIN + ticks, NewConn(0, config), LoggedIn(config);
    var c1 := Step(c, es[0]).0;
    assert es[1..] == [LOGIN[1]] + ticks && es[1..][1..] == ticks;
    assert Step(c1, es[1]) == (c2, [SendFrame(HelloReply(Some(1)))]);
    assert Monotone(0, es[1..]) && TicksWithin(c1, es[1..], None, gap);
    assert Actions(c1, es[1..]) == Step(c1, es[1]).1 + Actions(c2, ticks);
    assert Actions(c, es) == Step(c, es[0]).1 + Actions(c1, es[1..]);
    var a :| a in Actions(c2, ticks) && IdleClose(a);
    assert a in Actions(c, es);
  }

  /** A run that does time out when the bound is missed. */
  lemma SomeRunIdles(config: Config, gap: nat) returns (es: seq<Timed>)
    requires gap >= 1 && WorstIdle(config, gap) > config.idleTimeout
    ensures Monotone(0, es) && TicksWithin(NewConn(0, config), es, None, gap)
    ensures Idles(NewConn(0, config), es)
  {
    var c := LoggedIn(config);
    var ticks;
    if config.heartbeatInterval == 0 {
      ticks := [Timed(gap, TickOp)];
      assert Step(c, ticks[0]).1 == [CloseWith(IdleTimeout(gap))] && ticks[1..] == [];
      assert CloseWith(IdleTimeout(gap)) in Actions(c, ticks);
      assert IdleClose(CloseWith(IdleTimeout(gap)));
    } else {
      var first, rest := Timed(0, TickOp), TickEveryInstant(1, config.heartbeatInterval, gap);
      var c' := c.(lastHeartbeat := Some(0));
      assert Step(c, first) == (c', [SendFrame(Ping)]);
      SlowLastTick(c', 1, config.heartbeatInterval, gap);
      ticks := [first] + rest;
      assert ticks[1..] == rest;
      assert Actions(c, ticks) == [SendFrame(Ping)] + Actions(c', rest);
    }
    LoginFirst(config, ticks, gap);
    es := LOGIN + ticks;
  }

  /** Heartbeats prevent every idle timeout if and only if the idle timeout covers one tick gap
      plus one heartbeat interval less the last instant of it. */
  lemma NeverIdlesIff(config: Config, gap: nat)
    requires gap >= 1
    ensures NeverIdles(config, gap) <==> WorstIdle(config, gap) <= config.idleTimeout
  {
    if WorstIdle(config, gap) <= config.idleTimeout {
      forall start: nat, es: seq<Timed> | Monotone(start, es) && TicksWithin(NewConn(start, config), es, None, gap)
        ensures forall a | a in Actions(NewConn(start, config), es) :: !IdleClose(a)
      {
        HeartbeatsKeepAlive(NewConn(start, config), start, None, es, gap);
      }
    } else {
      var es := SomeRunIdles(config, gap);
    }
  }
}
