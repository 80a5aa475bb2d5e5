/** Control client and control server joined by FIFO channels, over every run. */
module ControlRuns {
  import opened Wrappers
  import opened Packets
  import opened Control

  /** Both ends, the messages in flight, what each end enqueued for its worker, and everything the
      server has sent. A closed end discards what is sent to it. */
  datatype System = System(
    client: ClientState,
    clientOpen: bool,
    server: ServerState,
    serverOpen: bool,
    toServer: seq<Message>,
    toClient: seq<Message>,
    clientQueue: seq<WorkerEvent>,
    serverQueue: seq<WorkerEvent>,
    serverSent: seq<Message>)

  /** What stays fixed in a run: the client's configuration, the server's modes,
      and whether the server's worker loop takes messages. */
  datatype Setting = Setting(config: ClientConfig, serverModes: Modes, workerOpen: bool)

  datatype Step =
    | Accepted(sendOk: bool)
    | ClientReadable(env: ClientEnv)
    | ServerReadable(sendOk: bool, udpOk: bool, lockOk: bool)

  const INITIAL: System :=
    System(AwaitingServerGreeting, true, GreetingState, true, [], [], [], [], [])

  /** A session is called when its connection is accepted, when a message waits for it,
      or when the peer has closed; an error closes its end. */
  predicate Enabled(s: System, step: Step) {
    match step
    case Accepted(_) => s.serverOpen && s.server.GreetingState?
    case ClientReadable(_) => s.clientOpen && (s.toClient != [] || !s.serverOpen)
    case ServerReadable(_, _, _) =>
      s.serverOpen && !s.server.GreetingState? && (s.toServer != [] || !s.clientOpen)
  }

  function Head(channel: seq<Message>): Recv {
    if channel == [] then Eof else Got(channel[0])
  }

  function Rest(channel: seq<Message>): seq<Message> {
    if channel == [] then [] else channel[1..]
  }

  function ClientTurn(k: Setting, s: System, env: ClientEnv): System {
    var o := ClientStep(k.config, s.client, Head(s.toClient), env);
    s.(client := o.state,
       clientOpen := o.result.Success?,
       toClient := if o.result.Success? then Rest(s.toClient) else [],
       toServer := if s.serverOpen then s.toServer + o.sent else [],
       clientQueue := s.clientQueue + o.queued)
  }

  function ServerTurn(k: Setting, s: System, env: ServerEnv): System {
    var o := ServerStep(k.serverModes, s.server, Head(s.toServer), env);
    s.(server := o.state,
       serverOpen := o.result.Success?,
       toServer := if o.result.Success? then Rest(s.toServer) else [],
       toClient := if s.clientOpen then s.toClient + o.sent else [],
       serverQueue := s.serverQueue + o.queued,
       serverSent := s.serverSent + o.sent)
  }

  function Next(k: Setting, s: System, step: Step): System {
    if !Enabled(s, step) then s else
    match step
    case Accepted(sendOk) => ServerTurn(k, s, ServerEnv(sendOk, true, true, k.workerOpen))
    case ClientReadable(env) => ClientTurn(k, s, env)
    case ServerReadable(sendOk, udpOk, lockOk) =>
      ServerTurn(k, s, ServerEnv(sendOk, udpOk, lockOk, k.workerOpen))
  }

  function Run(k: Setting, steps: seq<Step>): System {
    if steps == [] then INITIAL
    else Next(k, Run(k, steps[..|steps| - 1]), steps[|steps| - 1])
  }

  // ----- the joint invariant

  predicate EqualModes(k: Setting) {
    k.config.modes == k.serverModes
  }

  predicate RequestBuilds(k: Setting) {
    BuildRequest(k.config).Success?
  }

  /** The request this client makes, once its configuration allows one. */
  function RequestOf(k: Setting): Message {
    if RequestBuilds(k) then BuildRequest(k.config).value else Request([], 0, [], 0)
  }

  /** Everything the server says on the way to a test. */
  function Handshake(k: Setting): (h: seq<Message>)
    ensures |h| == 4
  {
    [Greeting(k.serverModes), ServerStart(AcceptOk), Accept(AcceptOk, RequestOf(k).reflectorPort), Short(ACK_COMMAND)]
  }

  /** The worker message the server enqueues for that request. */
  function Registration(k: Setting): WorkerEvent {
    RegisterReflector(FieldAddress(RequestOf(k).reflectorAddress, RequestOf(k).reflectorPort),
                      FieldAddress(RequestOf(k).senderAddress, RequestOf(k).senderPort))
  }

  /** While both ends are open the two states and the number of messages the server has sent
      determine which message is in flight. */
  ghost predicate InPhase(k: Setting, s: System) {
    var said := |s.serverSent|;
    match s.client
    case AwaitingServerGreeting =>
      && s.toServer == []
      && ((s.server.GreetingState? && said == 0 && s.toClient == [])
          || (s.server.Negotiation? && said == 1 && s.toClient == [Greeting(k.serverModes)]))
    case AwaitingServerStart =>
      && Supported(k.serverModes, k.config.modes)
      && ((s.server.Negotiation? && said == 1 && s.toServer == [Setup(k.config.modes)] && s.toClient == [])
          || (s.server.Monitor? && said == 2 && s.toServer == [] && s.toClient == [ServerStart(AcceptOk)]))
    case AwaitingSessionAcceptance =>
      && s.server.Monitor? && RequestBuilds(k)
      && ((said == 2 && s.toServer == [RequestOf(k)] && s.toClient == [])
          || (said == 3 && s.toServer == [] && s.toClient == [Handshake(k)[2]]))
    case AwaitingStartAck =>
      && s.server.Monitor?
      && ((said == 3 && s.toServer == [Short(START_COMMAND)] && s.toClient == [])
          || (said == 4 && s.toServer == [] && s.toClient == [Short(ACK_COMMAND)]))
    case TestInProgress =>
      && s.server.Monitor? && said == 4
      && (s.toServer == [] || s.toServer == [Short(STOP_COMMAND)])
      && s.toClient == []
    case _ => false
  }

  /** What also holds once an end has closed. */
  ghost predicate History(k: Setting, s: System) {
    && s.serverSent <= Handshake(k)
    && (s.server.GreetingState? || s.server.Negotiation? || s.server.Monitor? || s.server.Start?)
    && (s.server.GreetingState? ==> s.serverSent == [])
    && (s.serverOpen ==> !s.server.Start?)
    && (s.server.Monitor? || s.server.Start? ==> EqualModes(k))
    && (|s.serverSent| > 2 ==> RequestBuilds(k) && (s.server.Monitor? || s.server.Start?))
    && (|s.serverSent| > 2 && k.workerOpen ==> Registration(k) in s.serverQueue)
    && (!k.workerOpen ==> s.serverQueue == [])
    && (Rank(s.client) >= Rank(SessionEstablished) ==> |s.serverSent| > 2)
    && (s.client.TestInProgress? ==> |s.serverSent| == 4)
    && !s.client.FinalState? && !s.client.ClosingConnection? && !s.client.SessionRefused?
  }

  ghost predicate Inv(k: Setting, s: System) {
    && History(k, s)
    && (if s.clientOpen && s.serverOpen then InPhase(k, s) else s.toServer == [] && s.toClient == [])
  }

  /** Bitwise inclusion both ways is equality. */
  lemma OppositeSubsets(a: Modes, b: Modes)
    requires Supported(a, b) && Supported(b, a)
    ensures a == b
  {
  }

  lemma AcceptedKeeps(k: Setting, s: System, step: Step)
    requires Inv(k, s) && step.Accepted? && Enabled(s, step)
    ensures Inv(k, Next(k, s, step))
  {
  }

  lemma ClientKeepsEarly(k: Setting, s: System, step: Step)
    requires Inv(k, s) && step.ClientReadable? && Enabled(s, step) && s.serverOpen
    requires s.client.AwaitingServerGreeting? || s.client.AwaitingServerStart?
    ensures Inv(k, Next(k, s, step))
  {
  }

  lemma ClientKeepsLate(k: Setting, s: System, step: Step)
    requires Inv(k, s) && step.ClientReadable? && Enabled(s, step) && s.serverOpen
    requires s.client.AwaitingSessionAcceptance? || s.client.AwaitingStartAck?
    ensures Inv(k, Next(k, s, step))
  {
  }

  /** With the server gone only the end of the stream is left to read. */
  lemma ClientKeepsAlone(k: Setting, s: System, step: Step)
    requires Inv(k, s) && step.ClientReadable? && Enabled(s, step) && !s.serverOpen
    ensures Inv(k, Next(k, s, step))
  {
  }

  lemma ClientKeeps(k: Setting, s: System, step: Step)
    requires Inv(k, s) && step.ClientReadable? && Enabled(s, step)
    ensures Inv(k, Next(k, s, step))
  {
    if !s.serverOpen {
      ClientKeepsAlone(k, s, step);
    } else if s.client.AwaitingServerGreeting? || s.client.AwaitingServerStart? {
      ClientKeepsEarly(k, s, step);
    } else {
      assert s.client.AwaitingSessionAcceptance? || s.client.AwaitingStartAck?;
      ClientKeepsLate(k, s, step);
    }
  }

  lemma ServerKeepsNegotiation(k: Setting, s: System, step: Step)
    requires Inv(k, s) && step.ServerReadable? && Enabled(s, step) && s.clientOpen && s.server.Negotiation?
    ensures Inv(k, Next(k, s, step))
  {
    if Supported(k.config.modes, k.serverModes) {
      OppositeSubsets(k.config.modes, k.serverModes);
    }
    hide Supported, Registration, RequestOf, BuildRequest;
    assert s.toServer[1..] == [];
    assert s.serverSent + [ServerStart(AcceptOk)] <= Handshake(k);
  }

  lemma ServerKeepsMonitor(k: Setting, s: System, step: Step)
    requires Inv(k, s) && step.ServerReadable? && Enabled(s, step) && s.clientOpen && s.server.Monitor?
    ensures Inv(k, Next(k, s, step))
  {
    assert RequestOf(k).Request?;
    hide BuildRequest, RequestOf, FieldAddress;
    assert s.toServer[1..] == [];
    if |s.serverSent| < 4 {
      assert s.serverSent + [Handshake(k)[|s.serverSent|]] <= Handshake(k);
    }
  }

  lemma ServerKeepsAlone(k: Setting, s: System, step: Step)
    requires Inv(k, s) && step.ServerReadable? && Enabled(s, step) && !s.clientOpen
    ensures Inv(k, Next(k, s, step))
  {
  }

  lemma ServerKeeps(k: Setting, s: System, step: Step)
    requires Inv(k, s) && step.ServerReadable? && Enabled(s, step)
    ensures Inv(k, Next(k, s, step))
  {
    if !s.clientOpen {
      ServerKeepsAlone(k, s, step);
    } else if s.server.Negotiation? {
      ServerKeepsNegotiation(k, s, step);
    } else {
      ServerKeepsMonitor(k, s, step);
    }
  }

  lemma {:induction false} InvHolds(k: Setting, steps: seq<Step>)
    ensures Inv(k, Run(k, steps))
  {
    if steps != [] {
      var s, step := Run(k, steps[..|steps| - 1]), steps[|steps| - 1];
      InvHolds(k, steps[..|steps| - 1]);
      hide Inv;
      if Enabled(s, step) {
        match step
        case Accepted(_) => AcceptedKeeps(k, s, step);
        case ClientReadable(_) => ClientKeeps(k, s, step);
        case ServerReadable(_, _, _) => ServerKeeps(k, s, step);
      }
    }
  }

  // ----- what every run shows

  predicate ClientExpects(s: ClientState, m: Message) {
    match s
    case AwaitingServerGreeting => m.Greeting?
    case AwaitingServerStart => m.ServerStart?
    case AwaitingSessionAcceptance => m.Accept?
    case AwaitingStartAck => m == Short(ACK_COMMAND)
    case _ => false
  }

  predicate ServerExpects(s: ServerState, m: Message) {
    match s
    case Negotiation => m.Setup?
    case Monitor => MonitorCommand(m) in {Some(RequestTwSession), Some(StartSessions), Some(StopSessions)}
    case _ => false
  }

  /** In every reachable state at most one message is in flight,
      and it is one its receiver's state is waiting for. */
  lemma OneMessageInFlight(k: Setting, steps: seq<Step>)
    ensures var s := Run(k, steps);
            && |s.toServer| + |s.toClient| <= 1
            && (forall m :: m in s.toServer ==> ServerExpects(s.server, m))
            && (forall m :: m in s.toClient ==> ClientExpects(s.client, m))
  {
    InvHolds(k, steps);
    assert RequestOf(k).Request?;
    hide RequestOf, Registration, Run;
  }

  /** The client starts its test only when the modes agree and the server has sent the whole handshake,
      accept and start ack included; by then the test socket is enqueued unless the worker is gone. */
  lemma TestOnlyAfterHandshake(k: Setting, steps: seq<Step>)
    requires Run(k, steps).client.TestInProgress?
    ensures var s := Run(k, steps);
            && s.serverSent == Handshake(k)
            && EqualModes(k)
            && RequestBuilds(k)
            && (Registration(k) in s.serverQueue <==> k.workerOpen)
  {
    InvHolds(k, steps);
    hide Run;
  }

  /** In every run, a request on its way asks for a test from the client's address and port to its first
      target's. */
  lemma RequestAsks(k: Setting, steps: seq<Step>, m: Message)
    requires m in Run(k, steps).toServer && m.Request?
    ensures AsksFor(m, k.config)
  {
    InvHolds(k, steps);
    BuiltRequestAsks(k.config);
    hide Run, AsksFor;
  }

  /** A client in its test was greeted, started, accepted on the port of its first target and acknowledged;
      and while the server's worker takes messages, the socket registered for the test is on that port and
      answers to the client's own, at the addresses the server reads: wildcards for IPv4, else the first four
      octets. */
  lemma TestIsOnItsPorts(k: Setting, steps: seq<Step>)
    requires Run(k, steps).client.TestInProgress?
    ensures var s := Run(k, steps);
            && k.config.targets != []
            && s.serverSent == [Greeting(k.serverModes), ServerStart(AcceptOk),
                                Accept(AcceptOk, k.config.targets[0].port), Short(0)]
            && (k.workerOpen ==> exists e :: e in s.serverQueue && e.RegisterReflector?
                                             && IsReadOf(e.local, k.config.targets[0])
                                             && IsReadOf(e.peer, k.config.source))
  {
    TestOnlyAfterHandshake(k, steps);
    BuiltRequestAsks(k.config);
    hide Run;
    if k.workerOpen {
      ReadOfField(k.config.targets[0]);
      ReadOfField(k.config.source);
      hide IsReadOf;
      assert Registration(k) in Run(k, steps).serverQueue;
    }
  }

  /** What the server reads of an address the client wrote. */
  ghost predicate IsReadOf(read: Address, a: Address) {
    && read.port == a.port
    && (|a.octets| == 4 ==> read.octets == [0, 0, 0, 0])
    && (|a.octets| == 16 ==> read.octets == a.octets[..4])
  }

  lemma ReadOfField(a: Address)
    ensures IsReadOf(FieldAddress(AddressField(a), a.port), a)
  {
  }

  /** A test that succeeds ends with the stop on its way. */
  lemma TestSendsStop(k: Setting, steps: seq<Step>, env: ClientEnv)
    requires var s := Run(k, steps);
             s.client.AwaitingStartAck? && s.clientOpen && s.serverOpen && s.toClient == [Short(0)]
    ensures var s' := Run(k, steps + [ClientReadable(env)]);
            && s'.client.TestInProgress?
            && (s'.clientOpen <==> env.udpOk && env.workerOps >= 3 && env.sendOk)
            && (s'.clientOpen ==> s'.toServer == [Short(3)])
  {
    InvHolds(k, steps);
    RunExtends(k, steps, ClientReadable(env));
    hide Run, TestEvents, BuildRequest, Registration, RequestOf;
  }

  /** A stop the server takes has it clean up, if its worker takes messages. */
  lemma StopCleansIff(k: Setting, steps: seq<Step>, sendOk: bool, udpOk: bool)
    requires var s := Run(k, steps); s.serverOpen && s.toServer == [Short(3)]
    ensures var (s, s') := (Run(k, steps), Run(k, steps + [ServerReadable(sendOk, udpOk, true)]));
            && s'.serverOpen && s'.server.Monitor? && s'.toServer == []
            && s'.serverQueue == s.serverQueue + if k.workerOpen then [Clean] else []
  {
    InvHolds(k, steps);
    RunExtends(k, steps, ServerReadable(sendOk, udpOk, true));
    assert RequestOf(k).Request?;
    hide Run, TestEvents, BuildRequest, Registration, RequestOf, Handshake;
  }

  /** Every call on a reachable server that returns Ok leaves it in Negotiation or Monitor. */
  lemma ServerOkStates(k: Setting, steps: seq<Step>, recv: Recv, env: ServerEnv)
    requires Run(k, steps).serverOpen
    ensures var o := ServerStep(k.serverModes, Run(k, steps).server, recv, env);
            o.result.Success? ==> o.state.Negotiation? || o.state.Monitor?
  {
    InvHolds(k, steps);
    hide Run;
  }

  /** No step takes the client backwards. */
  lemma ClientNeverFallsBack(k: Setting, s: System, step: Step)
    ensures Rank(s.client) <= Rank(Next(k, s, step).client)
  {
  }

  /** Over a whole run the client's rank never falls. */
  lemma {:induction false} RankNeverFalls(k: Setting, steps: seq<Step>, i: nat)
    requires i <= |steps|
    ensures Rank(Run(k, steps[..i]).client) <= Rank(Run(k, steps).client)
    decreases |steps|
  {
    if i == |steps| {
      assert steps[..i] == steps;
    } else {
      var front := steps[..|steps| - 1];
      RankNeverFalls(k, front, i);
      assert front[..i] == steps[..i];
      ClientNeverFallsBack(k, Run(k, front), steps[|steps| - 1]);
      hide Next, Rank;
    }
  }

  lemma RunExtends(k: Setting, steps: seq<Step>, step: Step)
    ensures Run(k, steps + [step]) == Next(k, Run(k, steps), step)
  {
  }

  const ALL_WELL: ClientEnv := ClientEnv(true, true, 3)

  const TO_MONITOR: seq<Step> := [Accepted(true), ClientReadable(ALL_WELL), ServerReadable(true, true, true)]

  lemma FirstTurns(k: Setting)
    requires EqualModes(k)
    ensures var s1 := Next(k, INITIAL, Accepted(true));
            var s2 := Next(k, s1, ClientReadable(ALL_WELL));
            Next(k, s2, ServerReadable(true, true, true)) ==
            System(AwaitingServerStart, true, Monitor, true, [], [ServerStart(AcceptOk)], [], [],
                   [Greeting(k.serverModes), ServerStart(AcceptOk)])
  {
  }

  /** With equal modes and a cooperating environment the server reaches Monitor. */
  lemma MonitorIsReachable(k: Setting)
    requires EqualModes(k)
    ensures Run(k, TO_MONITOR) ==
            System(AwaitingServerStart, true, Monitor, true, [], [ServerStart(AcceptOk)], [], [],
                   [Greeting(k.serverModes), ServerStart(AcceptOk)])
  {
    FirstTurns(k);
    hide ClientTurn, ServerTurn;
    RunExtends(k, [], Accepted(true));
    RunExtends(k, [Accepted(true)], ClientReadable(ALL_WELL));
    RunExtends(k, [Accepted(true), ClientReadable(ALL_WELL)], ServerReadable(true, true, true));
    assert [] + [Accepted(true)] == [Accepted(true)];
    assert [Accepted(true)] + [ClientReadable(ALL_WELL)] == [Accepted(true), ClientReadable(ALL_WELL)];
    assert [Accepted(true), ClientReadable(ALL_WELL)] + [ServerReadable(true, true, true)] == TO_MONITOR;
  }

  /** Some run brings the server to Monitor exactly when client and server support the same modes. */
  lemma MonitorIffEqualModes(k: Setting)
    ensures (exists steps :: Run(k, steps).server.Monitor?) <==> EqualModes(k)
  {
    if EqualModes(k) {
      MonitorIsReachable(k);
      assert Run(k, TO_MONITOR).server.Monitor?;
    }
    forall steps | Run(k, steps).server.Monitor? ensures EqualModes(k) {
      InvHolds(k, steps);
    }
  }

  /** Two turns, client then server, of the rest of a cooperating run. */
  function Exchange(k: Setting, s: System): System {
    Next(k, Next(k, s, ClientReadable(ALL_WELL)), ServerReadable(true, true, true))
  }

  lemma ExchangeIsRun(k: Setting, steps: seq<Step>)
    ensures Exchange(k, Run(k, steps))
            == Run(k, steps + [ClientReadable(ALL_WELL)] + [ServerReadable(true, true, true)])
  {
  }

  lemma TestIsReachable(k: Setting) returns (steps: seq<Step>)
    requires EqualModes(k) && RequestBuilds(k)
    ensures Run(k, steps).client.TestInProgress?
  {
    MonitorIsReachable(k);
    hide Run, Next, Exchange, BuildRequest;
    FinishHandshake(k, Run(k, TO_MONITOR));
    var steps5 := TO_MONITOR + [ClientReadable(ALL_WELL)] + [ServerReadable(true, true, true)];
    var steps7 := steps5 + [ClientReadable(ALL_WELL)] + [ServerReadable(true, true, true)];
    ExchangeIsRun(k, TO_MONITOR);
    ExchangeIsRun(k, steps5);
    RunExtends(k, steps7, ClientReadable(ALL_WELL));
    steps := steps7 + [ClientReadable(ALL_WELL)];
  }

  /** Some run brings the client to its test exactly when the modes agree and its request builds. */
  lemma TestReachableIff(k: Setting)
    ensures (exists steps :: Run(k, steps).client.TestInProgress?) <==> EqualModes(k) && RequestBuilds(k)
  {
    hide Run, RequestBuilds;
    if EqualModes(k) && RequestBuilds(k) {
      var steps := TestIsReachable(k);
    }
    forall steps | Run(k, steps).client.TestInProgress? ensures EqualModes(k) && RequestBuilds(k) {
      TestOnlyAfterHandshake(k, steps);
    }
  }

  lemma FinishHandshake(k: Setting, s: System)
    requires EqualModes(k) && RequestBuilds(k)
    requires s.client.AwaitingServerStart? && s.server.Monitor? && s.clientOpen && s.serverOpen
    requires s.toServer == [] && s.toClient == [ServerStart(AcceptOk)]
    ensures Next(k, Exchange(k, Exchange(k, s)), ClientReadable(ALL_WELL)).client.TestInProgress?
  {
    RequestExchange(k, s);
    var s5 := Exchange(k, s);
    StartExchange(k, s5);
    var s7 := Exchange(k, s5);
    hide Exchange, BuildRequest;
  }

  lemma RequestExchange(k: Setting, s: System)
    requires EqualModes(k) && RequestBuilds(k)
    requires s.client.AwaitingServerStart? && s.server.Monitor? && s.clientOpen && s.serverOpen
    requires s.toServer == [] && s.toClient == [ServerStart(AcceptOk)]
    ensures var t := Exchange(k, s);
            && t.client.AwaitingSessionAcceptance? && t.server.Monitor? && t.clientOpen && t.serverOpen
            && t.toServer == [] && t.toClient == [Accept(AcceptOk, RequestOf(k).reflectorPort)]
  {
  }

  lemma StartExchange(k: Setting, s: System)
    requires s.client.AwaitingSessionAcceptance? && s.server.Monitor? && s.clientOpen && s.serverOpen
    requires s.toServer == [] && |s.toClient| == 1 && s.toClient[0].Accept? && s.toClient[0].accept == AcceptOk
    ensures var t := Exchange(k, s);
            && t.client.AwaitingStartAck? && t.server.Monitor? && t.clientOpen && t.serverOpen
            && t.toServer == [] && t.toClient == [Short(ACK_COMMAND)]
  {
  }

  /** The client writes IPv4 octets at the end of the address field and the server reads them from its
      start, so an address survives only if it is the IPv4 wildcard. */
  lemma AddressSurvivesIff(a: Address)
    requires |a.octets| == 4 || |a.octets| == 16
    ensures FieldAddress(AddressField(a), a.port) == a <==> a.octets == [0, 0, 0, 0]
    ensures IsV4(a) ==> FieldAddress(AddressField(a), a.port) == Address([0, 0, 0, 0], a.port)
  {
  }
}
