/** The control state machines of twamp_control/control_client_session.rs and control_session.rs. */
module Control {
  import opened Wrappers
  import opened Packets

  type Modes = bv8

  /** The mode check of both ends: every offered bit is supported. */
  predicate Supported(offered: Modes, supported: Modes) {
    offered & supported == offered
  }

  datatype AcceptField =
    | AcceptOk
    | AcceptFailure
    | InternalError
    | NotSupported
    | PermanentResourceLimitation
    | TemporaryResourceLimitation

  datatype Command =
    | Forbidden
    | StartSessions
    | StopSessions
    | RequestTwSession
    | StartNSessions
    | StartNAck
    | StopNSessions
    | StopNAck
    | OtherCommand

  /** Control messages keep their boundaries; `Short` is the 32-byte ControlMessage with its first octet. */
  datatype Message =
    | Greeting(modes: Modes)
    | Setup(mode: Modes)
    | ServerStart(accept: AcceptField)
    | Request(senderAddress: seq<bv8>, senderPort: nat, reflectorAddress: seq<bv8>, reflectorPort: nat)
    | Accept(accept: AcceptField, port: nat)
    | Short(command: nat)

  const START_COMMAND: nat := 2
  const STOP_COMMAND: nat := 3
  const ACK_COMMAND: nat := 0

  datatype Recv = Eof | WouldBlock | Got(m: Message)

  datatype ControlError =
    | ModeNotSupported
    | ParseError
    | NotAccepted
    | SendFailed
    | BuildFailed
    | ReceiveFailed
    | SessionRefusedError
    | ClosingError
    | ClosedByPeer
    | SocketFailed
    | WorkerUnavailable
    | Panic

  /** What a control session enqueues for its worker event loop. */
  datatype WorkerEvent =
    | RegisterSender(local: Address)
    | RegisterReflector(local: Address, peer: Address)
    | RegisterTimed
    | TimedCleanup
    | Clean

  // ----- the client

  datatype ClientState =
    | AwaitingServerGreeting
    | SendingClientSetup
    | AwaitingServerStart
    | SendingRequestSession
    | AwaitingSessionAcceptance
    | SessionEstablished
    | AwaitingStartAck
    | TestInProgress
    | SessionRefused
    | ClosingConnection
    | FinalState

  function Rank(s: ClientState): nat {
    match s
    case AwaitingServerGreeting => 0
    case SendingClientSetup => 1
    case AwaitingServerStart => 2
    case SendingRequestSession => 3
    case AwaitingSessionAcceptance => 4
    case SessionEstablished => 5
    case SessionRefused => 5
    case AwaitingStartAck => 6
    case TestInProgress => 7
    case ClosingConnection => 8
    case FinalState => 8
  }

  /** The client's configuration: its modes, its test address and the hosts to test. */
  datatype ClientConfig = ClientConfig(modes: Modes, source: Address, targets: seq<Address>)

  /** How the environment answers: the control send, the test socket, and how many of the three
      worker messages are taken before the worker is unavailable. */
  datatype ClientEnv = ClientEnv(sendOk: bool, udpOk: bool, workerOps: nat)

  /** What a call of transition leaves behind. */
  datatype Outcome<S> = Outcome(
    state: S,
    result: Result<(), ControlError>,
    sent: seq<Message>,
    queued: seq<WorkerEvent>)

  const ZEROS12: seq<bv8> := [0, 0, 0, 0, 0, 0, 0, 0, 0, 0, 0, 0]

  predicate IsV4(a: Address) {
    |a.octets| == 4
  }

  /** An IPv4 address goes into the last four octets of the field. */
  function AddressField(a: Address): seq<bv8> {
    if IsV4(a) then ZEROS12 + a.octets else a.octets
  }

  /** `targets.first().unwrap()` panics without a target; the builder rejects mixed address families. */
  function BuildRequest(c: ClientConfig): Result<Message, ControlError> {
    if c.targets == [] then Failure(Panic)
    else if IsV4(c.source) != IsV4(c.targets[0]) then Failure(BuildFailed)
    else Success(Request(AddressField(c.source), c.source.port, AddressField(c.targets[0]), c.targets[0].port))
  }

  /** What a request of this client asks for: a test from its own address and port to the first target's,
      each address in the last octets of its field. */
  ghost predicate AsksFor(m: Message, c: ClientConfig) {
    && m.Request? && c.targets != []
    && m.senderPort == c.source.port && m.reflectorPort == c.targets[0].port
    && EndsWith(m.senderAddress, c.source.octets) && EndsWith(m.reflectorAddress, c.targets[0].octets)
  }

  predicate EndsWith(field: seq<bv8>, octets: seq<bv8>) {
    |octets| <= |field| && field[|field| - |octets|..] == octets
  }

  lemma BuiltRequestAsks(c: ClientConfig)
    ensures BuildRequest(c).Success? ==> AsksFor(BuildRequest(c).value, c)
    ensures BuildRequest(c).Success? <==> c.targets != [] && (IsV4(c.source) <==> IsV4(c.targets[0]))
  {
  }

  /** The worker messages of a test, in order. */
  function TestEvents(c: ClientConfig): (events: seq<WorkerEvent>)
    ensures |events| == 3
  {
    [RegisterSender(c.source), RegisterTimed, TimedCleanup]
  }

  /** One call of the client's transition, nested calls included. */
  function ClientStep(c: ClientConfig, s: ClientState, recv: Recv, env: ClientEnv): Outcome<ClientState> {
    match s
    case AwaitingServerGreeting =>
      if !recv.Got? then Outcome(s, Success(()), [], [])
      else if !recv.m.Greeting? then Outcome(s, Failure(ParseError), [], [])
      else if !Supported(recv.m.modes, c.modes) then Outcome(s, Failure(ModeNotSupported), [], [])
      else SendingStep(c, SendingClientSetup, env)
    case AwaitingServerStart =>
      if !recv.Got? then Outcome(s, Success(()), [], [])
      else if !recv.m.ServerStart? then Outcome(s, Failure(ParseError), [], [])
      else if recv.m.accept == NotSupported then Outcome(s, Failure(NotAccepted), [], [])
      else if recv.m.accept != AcceptOk then Outcome(s, Failure(Panic), [], [])
      else SendingStep(c, SendingRequestSession, env)
    case AwaitingSessionAcceptance =>
      if !recv.Got? then Outcome(s, Success(()), [], [])
      else if !recv.m.Accept? then Outcome(s, Failure(ParseError), [], [])
      else if recv.m.accept == AcceptOk then SendingStep(c, SessionEstablished, env)
      else Outcome(SessionRefused, Failure(SessionRefusedError), [], [])
    case AwaitingStartAck =>
      if recv.WouldBlock? then Outcome(s, Failure(ReceiveFailed), [], [])
      else if recv.Eof? then Outcome(s, Success(()), [], [])
      else if !recv.m.Short? then Outcome(FinalState, Success(()), [], [])
      else if recv.m.command != ACK_COMMAND then Outcome(s, Success(()), [], [])
      else SendingStep(c, TestInProgress, env)
    case SendingClientSetup => SendingStep(c, s, env)
    case SendingRequestSession => SendingStep(c, s, env)
    case SessionEstablished => SendingStep(c, s, env)
    case TestInProgress => SendingStep(c, s, env)
    case SessionRefused => Outcome(s, Failure(SessionRefusedError), [], [])
    case ClosingConnection => Outcome(s, Failure(ClosingError), [], [])
    case FinalState => Outcome(s, Success(()), [], [])
  }

  /** The states that send and receive nothing. */
  function SendingStep(c: ClientConfig, s: ClientState, env: ClientEnv): Outcome<ClientState>
    requires s.SendingClientSetup? || s.SendingRequestSession? || s.SessionEstablished? || s.TestInProgress?
  {
    match s
    case SendingClientSetup =>
      if env.sendOk then Outcome(AwaitingServerStart, Success(()), [Setup(c.modes)], [])
      else Outcome(s, Failure(SendFailed), [], [])
    case SendingRequestSession =>
      var request := BuildRequest(c);
      if request.Failure? then Outcome(s, Failure(request.error), [], [])
      else if env.sendOk then Outcome(AwaitingSessionAcceptance, Success(()), [request.value], [])
      else Outcome(s, Failure(SendFailed), [], [])
    case SessionEstablished =>
      if env.sendOk then Outcome(AwaitingStartAck, Success(()), [Short(START_COMMAND)], [])
      else Outcome(s, Failure(SendFailed), [], [])
    case TestInProgress =>
      if !env.udpOk then Outcome(s, Failure(SocketFailed), [], [])
      else if env.workerOps < 3 then Outcome(s, Failure(WorkerUnavailable), [], TestEvents(c)[..env.workerOps])
      else if env.sendOk then Outcome(s, Success(()), [Short(STOP_COMMAND)], TestEvents(c))
      else Outcome(s, Failure(SendFailed), [], TestEvents(c))
  }

  /** When the client goes on from each state that waits: it has read what that state waits for, can use it,
      and its own message went out. Only the refusal of a session and an unreadable start ack lead elsewhere. */
  lemma GoesOnFromGreetingIff(c: ClientConfig, recv: Recv, env: ClientEnv)
    ensures ClientStep(c, AwaitingServerGreeting, recv, env).state == AwaitingServerStart <==>
            recv.Got? && recv.m.Greeting? && recv.m.modes & c.modes == recv.m.modes && env.sendOk
  {
    if recv.Got? && recv.m.Greeting? {
      SupportedMeans(recv.m.modes, c.modes);
    }
    hide Supported, SendingStep;
    SetupGoesOut(c, env);
  }

  lemma SupportedMeans(a: Modes, b: Modes)
    ensures Supported(a, b) <==> a & b == a
  {
  }

  lemma SetupGoesOut(c: ClientConfig, env: ClientEnv)
    ensures SendingStep(c, SendingClientSetup, env).state == AwaitingServerStart <==> env.sendOk
  {
  }

  lemma GoesOnFromStartIff(c: ClientConfig, recv: Recv, env: ClientEnv)
    ensures ClientStep(c, AwaitingServerStart, recv, env).state == AwaitingSessionAcceptance <==>
            recv == Got(ServerStart(AcceptOk)) && c.targets != [] && (IsV4(c.source) <==> IsV4(c.targets[0]))
            && env.sendOk
  {
    BuiltRequestAsks(c);
    hide AsksFor;
  }

  lemma GoesOnFromAcceptanceIff(c: ClientConfig, recv: Recv, env: ClientEnv)
    ensures var o := ClientStep(c, AwaitingSessionAcceptance, recv, env);
            && (o.state == AwaitingStartAck <==> recv.Got? && recv.m.Accept? && recv.m.accept == AcceptOk && env.sendOk)
            && (o.state == SessionRefused <==> recv.Got? && recv.m.Accept? && recv.m.accept != AcceptOk)
  {
  }

  lemma GoesOnFromAckIff(c: ClientConfig, recv: Recv, env: ClientEnv)
    ensures var o := ClientStep(c, AwaitingStartAck, recv, env);
            && (o.state == TestInProgress <==> recv == Got(Short(0)))
            && (o.state == FinalState <==> recv.Got? && !recv.m.Short?)
  {
    hide TestEvents;
  }

  /** What it sends on the way, and that a call which sends nothing it should have is an error. */
  lemma ClientSays(c: ClientConfig, s: ClientState, recv: Recv, env: ClientEnv)
    ensures var o := ClientStep(c, s, recv, env);
            && (o.state == AwaitingServerStart && s != o.state ==> o.sent == [Setup(c.modes)])
            && (o.state == AwaitingSessionAcceptance && s != o.state ==> |o.sent| == 1 && AsksFor(o.sent[0], c))
            && (o.state == AwaitingStartAck && s != o.state ==> o.sent == [Short(2)])
            && (o.state == TestInProgress && o.result.Success? ==> o.sent == [Short(3)])
            && (!Awaits(o.state) && !o.state.TestInProgress? && !o.state.FinalState? ==> o.result.Failure?)
  {
    BuiltRequestAsks(c);
    hide AsksFor;
  }

  /** The states that read from the socket. */
  predicate Awaits(s: ClientState) {
    s.AwaitingServerGreeting? || s.AwaitingServerStart? || s.AwaitingSessionAcceptance? || s.AwaitingStartAck?
  }

  lemma RequestsAsk(c: ClientConfig, s: ClientState, recv: Recv, env: ClientEnv)
    ensures forall m :: m in ClientStep(c, s, recv, env).sent && m.Request? ==> AsksFor(m, c)
  {
    BuiltRequestAsks(c);
    hide AsksFor, Supported;
  }

  class ClientControlSession {
    const config: ClientConfig
    var state: ClientState

    constructor (config: ClientConfig)
      ensures this.config == config && state == AwaitingServerGreeting
    {
      this.config := config;
      state := AwaitingServerGreeting;
    }

    /** Calls itself only after raising the rank of the state, and nests at most one deep. */
    method Transition(recv: Recv, env: ClientEnv)
      returns (result: Result<(), ControlError>, sent: seq<Message>, queued: seq<WorkerEvent>, ghost depth: nat)
      modifies this`state
      ensures Outcome(state, result, sent, queued) == ClientStep(config, old(state), recv, env)
      ensures Rank(old(state)) <= Rank(state)
      ensures depth <= if Awaits(old(state)) then 1 else 0
      ensures forall m :: m in sent && m.Request? ==> AsksFor(m, config)
      decreases 8 - Rank(state)
    {
      RequestsAsk(config, state, recv, env);
      hide Supported, BuildRequest, TestEvents, AsksFor;
      sent, queued, depth := [], [], 0;
      result := Success(());
      match state
      case AwaitingServerGreeting =>
        if recv.Got? {
          if !recv.m.Greeting? {
            result := Failure(ParseError);
          } else if Supported(recv.m.modes, config.modes) {
            state := SendingClientSetup;
            result, sent, queued, depth := Transition(recv, env);
            depth := depth + 1;
          } else {
            result := Failure(ModeNotSupported);
          }
        }
      case SendingClientSetup =>
        if env.sendOk {
          sent := [Setup(config.modes)];
          state := AwaitingServerStart;
        } else {
          result := Failure(SendFailed);
        }
      case AwaitingServerStart =>
        if recv.Got? {
          if !recv.m.ServerStart? {
            result := Failure(ParseError);
          } else {
            match recv.m.accept
            case NotSupported => result := Failure(NotAccepted);
            case AcceptOk =>
              state := SendingRequestSession;
              result, sent, queued, depth := Transition(recv, env);
              depth := depth + 1;
            case _ => result := Failure(Panic);
          }
        }
      case SendingRequestSession =>
        var request := BuildRequest(config);
        if request.Failure? {
          result := Failure(request.error);
        } else if env.sendOk {
          sent := [request.value];
          state := AwaitingSessionAcceptance;
        } else {
          result := Failure(SendFailed);
        }
      case AwaitingSessionAcceptance =>
        if recv.Got? {
          if !recv.m.Accept? {
            result := Failure(ParseError);
          } else {
            state := if recv.m.accept == AcceptOk then SessionEstablished else SessionRefused;
            result, sent, queued, depth := Transition(recv, env);
            depth := depth + 1;
          }
        }
      case SessionEstablished =>
        if env.sendOk {
          sent := [Short(START_COMMAND)];
          state := AwaitingStartAck;
        } else {
          result := Failure(SendFailed);
        }
      case AwaitingStartAck =>
        if recv.WouldBlock? {
          result := Failure(ReceiveFailed);
        } else if recv.Got? {
          if !recv.m.Short? {
            state := FinalState;
          } else if recv.m.command == ACK_COMMAND {
            state := TestInProgress;
            result, sent, queued, depth := Transition(recv, env);
            depth := depth + 1;
          }
        }
      case TestInProgress =>
        if !env.udpOk {
          result := Failure(SocketFailed);
        } else {
          queued := if env.workerOps < 3 then TestEvents(config)[..env.workerOps] else TestEvents(config);
          if env.workerOps < 3 {
            result := Failure(WorkerUnavailable);
          } else if env.sendOk {
            sent := [Short(STOP_COMMAND)];
          } else {
            result := Failure(SendFailed);
          }
        }
      case SessionRefused => result := Failure(SessionRefusedError);
      case ClosingConnection => result := Failure(ClosingError);
      case FinalState =>
    }
  }

  // ----- the server

  datatype ServerState =
    | GreetingState
    | Authentication
    | Negotiation
    | Start
    | Monitor
    | End
    | Retry
    | ErrorState

  /** How the environment answers: the control send, the test socket, the worker's lock,
      and whether the worker still takes messages (a refusal is ignored by the source). */
  datatype ServerEnv = ServerEnv(sendOk: bool, udpOk: bool, lockOk: bool, workerOpen: bool)

  function CommandOf(octet: nat): Option<Command> {
    match octet
    case 1 => Some(Forbidden)
    case 2 => Some(StartSessions)
    case 3 => Some(StopSessions)
    case 5 => Some(RequestTwSession)
    case 7 => Some(StartNSessions)
    case 8 => Some(StartNAck)
    case 9 => Some(StopNSessions)
    case 10 => Some(StopNAck)
    case 11 => Some(OtherCommand)
    case _ => None
  }

  /** In Monitor the first octet decides. */
  function MonitorCommand(m: Message): Option<Command> {
    match m
    case Request(_, _, _, _) => Some(RequestTwSession)
    case Short(command) => if command == 5 then None else CommandOf(command)
    case _ => None
  }

  /** The server reads an IPv4 address from the first four octets of a 16-octet field. */
  function FieldAddress(field: seq<bv8>, port: nat): Address {
    Address(if |field| >= 4 then field[..4] else field, port)
  }

  /** One call of the server's transition, the nested call included. */
  function ServerStep(modes: Modes, s: ServerState, recv: Recv, env: ServerEnv): Outcome<ServerState> {
    match s
    case GreetingState =>
      if env.sendOk then Outcome(Negotiation, Success(()), [Greeting(modes)], [])
      else Outcome(s, Failure(SendFailed), [], [])
    case Authentication => Outcome(Negotiation, Success(()), [], [])
    case Negotiation =>
      if recv.WouldBlock? then Outcome(s, Success(()), [], [])
      else if recv.Eof? then Outcome(s, Failure(ClosedByPeer), [], [])
      else if !recv.m.Setup? then Outcome(s, Failure(ParseError), [], [])
      else if !Supported(recv.m.mode, modes) then Outcome(s, Failure(ModeNotSupported), [], [])
      else if env.sendOk then Outcome(Monitor, Success(()), [ServerStart(AcceptOk)], [])
      else Outcome(s, Failure(SendFailed), [], [])
    case Monitor =>
      if recv.WouldBlock? then Outcome(s, Success(()), [], [])
      else if recv.Eof? then Outcome(s, Failure(ClosedByPeer), [], [])
      else MonitorStep(recv.m, env)
    case Start =>
      if env.sendOk then Outcome(Monitor, Success(()), [Short(ACK_COMMAND)], [])
      else Outcome(s, Failure(SendFailed), [], [])
    case End => Outcome(s, Success(()), [], [])
    case Retry => Outcome(s, Success(()), [], [])
    case ErrorState => Outcome(s, Success(()), [], [])
  }

  function MonitorStep(m: Message, env: ServerEnv): Outcome<ServerState> {
    var command := MonitorCommand(m);
    if command.None? then Outcome(Monitor, Failure(ParseError), [], [])
    else
      match command.value
      case Forbidden => Outcome(Monitor, Success(()), [], [])
      case StartSessions =>
        if env.sendOk then Outcome(Monitor, Success(()), [Short(ACK_COMMAND)], [])
        else Outcome(Start, Failure(SendFailed), [], [])
      case StopSessions =>
        if env.lockOk then Outcome(Monitor, Success(()), [], if env.workerOpen then [Clean] else [])
        else Outcome(Monitor, Failure(WorkerUnavailable), [], [])
      case RequestTwSession =>
        if !env.udpOk then Outcome(Monitor, Failure(SocketFailed), [], [])
        else if !env.lockOk then Outcome(Monitor, Failure(WorkerUnavailable), [], [])
        else
          var queued := if env.workerOpen
            then [RegisterReflector(FieldAddress(m.reflectorAddress, m.reflectorPort),
                                    FieldAddress(m.senderAddress, m.senderPort))]
            else [];
          if env.sendOk then Outcome(Monitor, Success(()), [Accept(AcceptOk, m.reflectorPort)], queued)
          else Outcome(Monitor, Failure(SendFailed), [], queued)
      case OtherCommand =>
        if env.sendOk then Outcome(Monitor, Success(()), [Accept(NotSupported, 0)], [])
        else Outcome(Monitor, Failure(SendFailed), [], [])
      case _ => Outcome(Monitor, Failure(Panic), [], [])
  }

  /** What the server does with each first octet it can read in Monitor: an ack for a start, a cleanup for a
      stop, nothing for 1, a refusal for what it has no name for, a panic for the commands not implemented,
      and an error for everything else. */
  lemma ServerAnswers(modes: Modes, octet: nat, env: ServerEnv)
    requires env.sendOk && env.lockOk && env.udpOk && env.workerOpen
    ensures ServerStep(modes, Monitor, Got(Short(octet)), env) ==
            if octet == 1 then Outcome(Monitor, Success(()), [], [])
            else if octet == 2 then Outcome(Monitor, Success(()), [Short(0)], [])
            else if octet == 3 then Outcome(Monitor, Success(()), [], [Clean])
            else if 7 <= octet <= 10 then Outcome(Monitor, Failure(Panic), [], [])
            else if octet == 11 then Outcome(Monitor, Success(()), [Accept(NotSupported, 0)], [])
            else Outcome(Monitor, Failure(ParseError), [], [])
  {
  }

  /** The server takes an IPv4 address from the first four octets of a field. */
  lemma ServerReadsFront(a: Address, rest: seq<bv8>)
    requires |a.octets| == 4 && |rest| == 12
    ensures FieldAddress(a.octets + rest, a.port) == a
  {
  }

  class ControlSession {
    const supportedModes: Modes
    var state: ServerState

    constructor (modes: Modes)
      ensures supportedModes == modes && state == GreetingState
    {
      supportedModes := modes;
      state := GreetingState;
    }

    method Transition(recv: Recv, env: ServerEnv)
      returns (result: Result<(), ControlError>, sent: seq<Message>, queued: seq<WorkerEvent>)
      modifies this`state
      ensures Outcome(state, result, sent, queued) == ServerStep(supportedModes, old(state), recv, env)
      decreases if state.Monitor? then 1 else 0
    {
      hide Supported, FieldAddress;
      sent, queued := [], [];
      result := Success(());
      match state
      case GreetingState =>
        if env.sendOk {
          sent := [Greeting(supportedModes)];
          state := Negotiation;
        } else {
          result := Failure(SendFailed);
        }
      case Authentication => state := Negotiation;
      case Negotiation =>
        if recv.Eof? {
          result := Failure(ClosedByPeer);
        } else if recv.Got? {
          if !recv.m.Setup? {
            result := Failure(ParseError);
          } else if Supported(recv.m.mode, supportedModes) {
            if env.sendOk {
              sent := [ServerStart(AcceptOk)];
              state := Monitor;
            } else {
              result := Failure(SendFailed);
            }
          } else {
            result := Failure(ModeNotSupported);
          }
        }
      case Monitor =>
        if recv.Eof? {
          result := Failure(ClosedByPeer);
        } else if recv.Got? {
          var command := MonitorCommand(recv.m);
          if command.None? {
            result := Failure(ParseError);
          } else {
            match command.value
            case Forbidden =>
            case StartSessions =>
              state := Start;
              result, sent, queued := Transition(recv, env);
            case StopSessions =>
              if env.lockOk {
                queued := if env.workerOpen then [Clean] else [];
              } else {
                result := Failure(WorkerUnavailable);
              }
            case RequestTwSession =>
              var local := FieldAddress(recv.m.reflectorAddress, recv.m.reflectorPort);
              var peer := FieldAddress(recv.m.senderAddress, recv.m.senderPort);
              if !env.udpOk {
                result := Failure(SocketFailed);
              } else if !env.lockOk {
                result := Failure(WorkerUnavailable);
              } else {
                queued := if env.workerOpen then [RegisterReflector(local, peer)] else [];
                if env.sendOk {
                  sent := [Accept(AcceptOk, recv.m.reflectorPort)];
                } else {
                  result := Failure(SendFailed);
                }
              }
            case OtherCommand =>
              if env.sendOk {
                sent := [Accept(NotSupported, 0)];
              } else {
                result := Failure(SendFailed);
              }
            case _ => result := Failure(Panic);
          }
        }
      case Start =>
        if env.sendOk {
          sent := [Short(ACK_COMMAND)];
          state := Monitor;
        } else {
          result := Failure(SendFailed);
        }
      case End =>
      case Retry =>
      case ErrorState =>
    }
  }
}
