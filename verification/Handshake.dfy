/** A client and a server over a network that may drop, repeat, delay and reorder whatever the
    two have sent: every frame ever sent stays deliverable, any number of times, or never. */
module Handshake {
  import opened BigEndian
  import opened Results
  import C = Connection

  datatype Pair = Pair(client: C.Conn, server: C.Conn, toServer: set<C.Message>, toClient: set<C.Message>)

  datatype Move =
    | ClientDoes(op: C.Op)
    | ServerDoes(op: C.Op)
    | DeliverToServer(message: C.Message)
    | DeliverToClient(message: C.Message)
    | ClientSends(message: C.Message)
    | ServerSends(message: C.Message)

  function Sent(actions: seq<C.Action>): set<C.Message> {
    set a | a in actions && a.SendFrame? :: a.message
  }

  function ClientStep(p: Pair, e: C.Timed): Pair {
    var (c, actions) := C.Step(p.client, e);
    p.(client := c, toServer := p.toServer + Sent(actions))
  }

  function ServerStep(p: Pair, e: C.Timed): Pair {
    var (s, actions) := C.Step(p.server, e);
    p.(server := s, toClient := p.toClient + Sent(actions))
  }

  /** What can happen. Each side's own operations are a client's and a server's; beside what its
      state machine sends, the client may send anything but a Hello and the server anything but
      a HelloReply, since only the state machines produce those. */
  predicate Possible(p: Pair, m: Move) {
    match m
    case ClientDoes(op) => op.SendHelloOp? || op.TickOp? || op.TouchOp? || op.CloseOp?
    case ServerDoes(op) => op.TickOp? || op.TouchOp? || op.CloseOp?
    case DeliverToServer(message) => message in p.toServer
    case DeliverToClient(message) => message in p.toClient
    case ClientSends(message) => !message.Hello?
    case ServerSends(message) => !message.HelloReply?
  }

  function Next(p: Pair, m: Move, now: nat): Pair {
    match m
    case ClientDoes(op) => ClientStep(p, C.Timed(now, op))
    case ServerDoes(op) => ServerStep(p, C.Timed(now, op))
    case DeliverToServer(message) => ServerStep(p, C.Timed(now, C.FrameOp(message)))
    case DeliverToClient(message) => ClientStep(p, C.Timed(now, C.FrameOp(message)))
    case ClientSends(message) => p.(toServer := p.toServer + {message})
    case ServerSends(message) => p.(toClient := p.toClient + {message})
  }

  function After(p: Pair, run: seq<(Move, nat)>): Pair
    decreases |run|
  {
    if run == [] then p else After(Next(p, run[0].0, run[0].1), run[1..])
  }

  predicate PossibleRun(p: Pair, run: seq<(Move, nat)>)
    decreases |run|
  {
    run == [] || (Possible(p, run[0].0) && PossibleRun(Next(p, run[0].0, run[0].1), run[1..]))
  }

  /** Both sides new, the server's session id set once. */
  function Start(now: nat, clientConfig: C.Config, serverConfig: C.Config, id: U64): Pair {
    Pair(C.NewConn(now, clientConfig), C.NewConn(now, serverConfig).(sessionId := Some(id)), {}, {})
  }

  /** An authenticated client holds the server's session id and the server has answered; an
      authenticated server has heard from a client that did send Hello; what travels agrees. */
  predicate Consistent(p: Pair, id: U64) {
    && p.server.sessionId == Some(id) && p.server.state != C.Pending
    && (p.client.state == C.Init ==> p.client.sessionId.None?)
    && (p.client.state == C.Authenticated ==> p.client.sessionId == Some(id) && p.server.state != C.Init)
    && (p.server.state == C.Authenticated ==> C.HELLO in p.toServer)
    && (forall m | m in p.toServer && m.Hello? :: m == C.HELLO && p.client.state != C.Init)
    && (forall m | m in p.toClient && m.HelloReply? :: m.sessionId == Some(id) && p.server.state != C.Init)
  }

  lemma ConsistentStep(p: Pair, m: Move, now: nat, id: U64)
    requires Consistent(p, id) && Possible(p, m)
    ensures Consistent(Next(p, m, now), id)
  {
  }

  lemma {:induction false} ConsistentRun(p: Pair, run: seq<(Move, nat)>, id: U64)
    requires Consistent(p, id) && PossibleRun(p, run)
    ensures Consistent(After(p, run), id)
    decreases |run|
  {
    if run != [] {
      ConsistentStep(p, run[0].0, run[0].1, id);
      ConsistentRun(Next(p, run[0].0, run[0].1), run[1..], id);
    }
  }

  /** Handshake safety over every run of the pair, at any times, under any network. */
  lemma HandshakeSafety(now: nat, clientConfig: C.Config, serverConfig: C.Config, id: U64, run: seq<(Move, nat)>)
    requires PossibleRun(Start(now, clientConfig, serverConfig, id), run)
    ensures var p := After(Start(now, clientConfig, serverConfig, id), run);
            && (p.client.state == C.Authenticated ==> p.client.sessionId == Some(id) && p.server.state != C.Init)
            && (p.server.state == C.Authenticated ==> C.HELLO in p.toServer && p.client.state != C.Init)
            && p.server.sessionId == Some(id)
  {
    ConsistentRun(Start(now, clientConfig, serverConfig, id), run, id);
  }

  /** The handshake can complete: Hello and its reply, each delivered once, authenticate both. */
  lemma HandshakeCompletes(now: nat, clientConfig: C.Config, serverConfig: C.Config, id: U64)
    ensures var p := Start(now, clientConfig, serverConfig, id);
            var run := [(ClientDoes(C.SendHelloOp), now), (DeliverToServer(C.HELLO), now),
                        (DeliverToClient(C.HelloReply(Some(id))), now)];
            var q := After(p, run);
            PossibleRun(p, run) && q.client.state == C.Authenticated && q.server.state == C.Authenticated
  {
    var p := Start(now, clientConfig, serverConfig, id);
    var run := [(ClientDoes(C.SendHelloOp), now), (DeliverToServer(C.HELLO), now),
                (DeliverToClient(C.HelloReply(Some(id))), now)];
    var last := run[2..];
    assert run[1..][1..] == last == [run[2]];
    var p1 := Next(p, run[0].0, now);
    assert C.SendFrame(C.HELLO) in C.Step(p.client, C.Timed(now, C.SendHelloOp)).1;
    var p2 := Next(p1, run[1].0, now);
    var reply := C.HelloReply(Some(id));
    assert C.SendFrame(reply) in C.Step(p1.server, C.Timed(now, C.FrameOp(C.HELLO))).1;
    assert reply in p2.toClient;
    assert PossibleRun(p2, last) && PossibleRun(p1, run[1..]);
    assert After(p, run) == After(p1, run[1..]) == After(p2, [run[2]]) == Next(p2, run[2].0, now);
  }
}
