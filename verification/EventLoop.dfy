/** network_commons/src/epoll_loop.rs: tokens, sources, timers and the two-phase ending of run. */
module EventLoop {
  import opened Wrappers

  type Token = nat
  type SourceId = nat

  /** An Itimerspec, of which the loop only looks at whether one is set. */
  datatype Spec = Spec(interval: nat, value: nat)

  datatype LoopError = TokenNotFound | PollFailed | CallbackFailed | ChannelBusy

  /** The maps hold which source a token stands for, and which token a timer was registered with. */
  datatype LoopState = LoopState(
    sources: map<Token, SourceId>,
    timed: map<Token, Token>,
    nextToken: Token,
    overtime: Option<Spec>,
    exceptions: seq<Token>,
    cleanup: Option<Spec>,
    cleanupToken: Option<Token>)

  datatype Message =
    | AddDuration(spec: Spec)
    | RegisterTimed(spec: Spec, token: Token)
    | Register(source: SourceId)
    | Unregister(token: Token)
    | CloseAll
    | TimedCleanup(spec: Spec)

  /** One thing the loop meets: a message, a readable token with the outcome of the callback it
      may run, or a poll that fails. `pollOk` answers the registration, deregistration or timer call
      that step makes, `lockOk` whether the channel on which it publishes the new token is free. */
  datatype Input =
    | Receive(message: Message, pollOk: bool, lockOk: bool)
    | Ready(token: Token, callbackOk: bool, pollOk: bool)
    | PollError

  datatype Status = Running | Returned(result: Result<(), LoopError>) | Panicked

  const DEFAULT_OVERTIME: Spec := Spec(0, 1_000_000_000)

  const NEW_LOOP: LoopState := LoopState(map[], map[], 0, Some(DEFAULT_OVERTIME), [], None, None)

  // ----- the effect of each operation

  function WithSource(s: LoopState, source: SourceId): LoopState {
    s.(sources := s.sources[s.nextToken := source], nextToken := s.nextToken + 1)
  }

  /** A timer for a token that names no source takes a token but is not stored. */
  function WithTimer(s: LoopState, token: Token): LoopState {
    s.(timed := if token in s.sources then s.timed[s.nextToken := token] else s.timed,
       nextToken := s.nextToken + 1)
  }

  function WithDuration(s: LoopState): LoopState {
    s.(nextToken := s.nextToken + 1)
  }

  function WithCleanup(s: LoopState, spec: Spec): LoopState {
    s.(cleanup := Some(spec), cleanupToken := Some(s.nextToken), nextToken := s.nextToken + 1)
  }

  function Performed(s: LoopState, m: Message, pollOk: bool): (LoopState, Status) {
    match m
    case CloseAll => (s, Running)
    case Unregister(token) =>
      if token !in s.sources then (s, Returned(Failure(TokenNotFound)))
      else (s.(sources := s.sources - {token}), if pollOk then Running else Returned(Failure(PollFailed)))
    case TimedCleanup(spec) =>
      if pollOk then (WithCleanup(s, spec), Running)
      else (s.(cleanup := Some(spec), nextToken := s.nextToken + 1), Returned(Failure(PollFailed)))
    case _ =>
      if !pollOk then (s.(nextToken := s.nextToken + 1), Returned(Failure(PollFailed)))
      else
        match m
        case AddDuration(_) => (WithDuration(s), Running)
        case RegisterTimed(_, token) => (WithTimer(s, token), Running)
        case Register(source) => (WithSource(s, source), Running)
  }

  predicate Publishes(m: Message) {
    m.AddDuration? || m.RegisterTimed? || m.Register? || m.TimedCleanup?
  }

  /** A token that cannot be published ends the loop, but what it was given to stays registered. */
  function Handled(s: LoopState, m: Message, pollOk: bool, lockOk: bool): (LoopState, Status) {
    var (s', status) := Performed(s, m, pollOk);
    (s', if status.Running? && Publishes(m) && !lockOk then Returned(Failure(ChannelBusy)) else status)
  }

  /** A token in neither map: a duration, a cleanup, or something no longer registered. */
  predicate IsLifecycle(s: LoopState, token: Token) {
    token !in s.sources && token !in s.timed
  }

  function Spared(s: LoopState): map<Token, Token> {
    map t | t in s.timed && t in s.exceptions :: s.timed[t]
  }

  /** Entering overtime: every timer that is not an exception goes, and the overtime timer starts. */
  function Overtimed(s: LoopState, pollOk: bool): (LoopState, Status) {
    var s' := s.(timed := Spared(s), overtime := None);
    if s.overtime.None? then (s', Panicked)
    else if pollOk then (s'.(cleanupToken := Some(s.nextToken), nextToken := s.nextToken + 1), Running)
    else (s'.(nextToken := s.nextToken + 1), Returned(Failure(PollFailed)))
  }

  function LifecycleDispatched(s: LoopState, pollOk: bool): (LoopState, Status) {
    if s.overtime.None? && s.cleanup.None? then (s, Returned(Success(())))
    else if s.overtime.None? && s.cleanupToken.Some? then
      var t := s.cleanupToken.value;
      if t !in s.timed then (s, Returned(Failure(TokenNotFound)))
      else if !pollOk then (s.(timed := s.timed - {t}), Returned(Failure(PollFailed)))
      else (s.(timed := s.timed - {t}, cleanupToken := None), Running)
    else Overtimed(s, pollOk)
  }

  function Dispatched(s: LoopState, token: Token, callbackOk: bool, pollOk: bool): (LoopState, Status) {
    if token in s.sources then
      (if callbackOk then s else s.(sources := s.sources - {token}), Running)
    else if token in s.timed then
      if s.timed[token] !in s.sources then (s, Running)
      else if !callbackOk then (s, Returned(Failure(CallbackFailed)))
      else if !pollOk then (s, Returned(Failure(PollFailed)))
      else (s, Running)
    else LifecycleDispatched(s, pollOk)
  }

  function Step(s: LoopState, input: Input): (LoopState, Status) {
    match input
    case Receive(message, pollOk, lockOk) => Handled(s, message, pollOk, lockOk)
    case Ready(token, callbackOk, pollOk) => Dispatched(s, token, callbackOk, pollOk)
    case PollError => (s, Returned(Failure(PollFailed)))
  }

  /** The loop stops at the first input that does not leave it running. */
  function Ran(s: LoopState, inputs: seq<Input>): (LoopState, Status) {
    if inputs == [] then (s, Running)
    else
      var before := Ran(s, inputs[..|inputs| - 1]);
      if before.1.Running? then Step(before.0, inputs[|inputs| - 1]) else before
  }

  class LinuxEventLoop {
    var sources: map<Token, SourceId>
    var timed: map<Token, Token>
    var nextToken: Token
    var overtime: Option<Spec>
    var exceptions: seq<Token>
    var cleanup: Option<Spec>
    var cleanupToken: Option<Token>

    function State(): LoopState
      reads this
    {
      LoopState(sources, timed, nextToken, overtime, exceptions, cleanup, cleanupToken)
    }

    constructor ()
      ensures State() == NEW_LOOP
    {
      sources, timed, nextToken := map[], map[], 0;
      overtime, exceptions, cleanup, cleanupToken := Some(DEFAULT_OVERTIME), [], None, None;
    }

    method SetOvertime(spec: Spec)
      modifies this
      ensures State() == old(State()).(overtime := Some(spec))
    {
      overtime := Some(spec);
    }

    method AddOvertimeException(token: Token)
      modifies this
      ensures State() == old(State()).(exceptions := old(exceptions) + [token])
    {
      exceptions := exceptions + [token];
    }

    method GenerateToken() returns (token: Token)
      modifies this`nextToken
      ensures token == old(nextToken) && nextToken == token + 1
    {
      token := nextToken;
      nextToken := nextToken + 1;
    }

    method RegisterEventSource(source: SourceId, pollOk: bool) returns (r: Result<Token, LoopError>)
      modifies this
      ensures r == if pollOk then Success(old(nextToken)) else Failure(PollFailed)
      ensures State() == if pollOk then WithSource(old(State()), source) else WithDuration(old(State()))
    {
      var token := GenerateToken();
      if !pollOk {
        return Failure(PollFailed);
      }
      sources := sources[token := source];
      r := Success(token);
    }

    method RegisterTimer(token: Token, pollOk: bool) returns (r: Result<Token, LoopError>)
      modifies this
      ensures r == if pollOk then Success(old(nextToken)) else Failure(PollFailed)
      ensures State() == if pollOk then WithTimer(old(State()), token) else WithDuration(old(State()))
    {
      var newToken := GenerateToken();
      if !pollOk {
        return Failure(PollFailed);
      }
      if token in sources {
        timed := timed[newToken := token];
      }
      r := Success(newToken);
    }

    method AddDurationTimer(pollOk: bool) returns (r: Result<Token, LoopError>)
      modifies this`nextToken
      ensures r == if pollOk then Success(old(nextToken)) else Failure(PollFailed)
      ensures State() == WithDuration(old(State()))
    {
      var token := GenerateToken();
      r := if pollOk then Success(token) else Failure(PollFailed);
    }

    method AddCleanup(spec: Spec, pollOk: bool) returns (r: Result<Token, LoopError>)
      modifies this
      ensures r == if pollOk then Success(old(nextToken)) else Failure(PollFailed)
      ensures State() == if pollOk then WithCleanup(old(State()), spec)
                         else WithDuration(old(State())).(cleanup := Some(spec))
    {
      cleanup := Some(spec);
      var token := GenerateToken();
      if !pollOk {
        return Failure(PollFailed);
      }
      cleanupToken := Some(token);
      r := Success(token);
    }

    method UnregisterEventSource(token: Token, pollOk: bool) returns (r: Result<(), LoopError>)
      modifies this`sources
      ensures sources == if token in old(sources) then old(sources) - {token} else old(sources)
      ensures r == if token !in old(sources) then Failure(TokenNotFound)
                   else if pollOk then Success(()) else Failure(PollFailed)
    {
      if token !in sources {
        return Failure(TokenNotFound);
      }
      sources := sources - {token};
      r := if pollOk then Success(()) else Failure(PollFailed);
    }

    method UnregisterTimedEventSource(token: Token, pollOk: bool) returns (r: Result<(), LoopError>)
      modifies this`timed
      ensures timed == if token in old(timed) then old(timed) - {token} else old(timed)
      ensures r == if token !in old(timed) then Failure(TokenNotFound)
                   else if pollOk then Success(()) else Failure(PollFailed)
    {
      if token !in timed {
        return Failure(TokenNotFound);
      }
      timed := timed - {token};
      r := if pollOk then Success(()) else Failure(PollFailed);
    }

    method HandleMessage(m: Message, pollOk: bool, lockOk: bool) returns (status: Status)
      modifies this
      ensures (State(), status) == Handled(old(State()), m, pollOk, lockOk)
    {
      var r: Result<Token, LoopError> := Success(0);
      match m {
        case CloseAll =>
          return Running;
        case Unregister(token) =>
          var u := UnregisterEventSource(token, pollOk);
          return if u.Failure? then Returned(Failure(u.error)) else Running;
        case AddDuration(_) => r := AddDurationTimer(pollOk);
        case RegisterTimed(_, token) => r := RegisterTimer(token, pollOk);
        case Register(source) => r := RegisterEventSource(source, pollOk);
        case TimedCleanup(spec) => r := AddCleanup(spec, pollOk);
      }
      status := if r.Failure? then Returned(Failure(r.error))
                else if lockOk then Running else Returned(Failure(ChannelBusy));
    }

    /** The last arm of dispatch: durations, cleanups and anything no longer registered. */
    method DispatchLifecycle(pollOk: bool) returns (status: Status)
      modifies this
      ensures (State(), status) == LifecycleDispatched(old(State()), pollOk)
    {
      if overtime.None? {
        if cleanup.None? {
          return Returned(Success(()));
        } else if cleanupToken.Some? {
          var u := UnregisterTimedEventSource(cleanupToken.value, pollOk);
          if u.Failure? {
            return Returned(Failure(u.error));
          }
          cleanupToken := None;
          return Running;
        }
      }
      ghost var before := State();
      var tokens := timed.Keys;
      while tokens != {}
        invariant tokens <= before.timed.Keys && timed.Keys <= before.timed.Keys
        invariant State() == before.(timed := timed)
        invariant forall t :: t in before.timed ==>
          (t in timed <==> t in tokens || t in exceptions) && (t in timed ==> timed[t] == before.timed[t])
        decreases |tokens|
      {
        var t :| t in tokens;
        tokens := tokens - {t};
        if t !in exceptions {
          var _ := UnregisterTimedEventSource(t, true);
        }
      }
      assert timed == Spared(before);
      if overtime.None? {
        return Panicked;
      }
      overtime := None;
      var r := AddDurationTimer(pollOk);
      if r.Failure? {
        return Returned(Failure(r.error));
      }
      cleanupToken := Some(r.value);
      status := Running;
    }

    method Dispatch(token: Token, callbackOk: bool, pollOk: bool) returns (status: Status)
      modifies this
      ensures (State(), status) == Dispatched(old(State()), token, callbackOk, pollOk)
    {
      status := Running;
      if token in sources {
        if !callbackOk {
          var _ := UnregisterEventSource(token, pollOk);
        }
      } else if token in timed {
        if timed[token] in sources {
          if !callbackOk {
            return Returned(Failure(CallbackFailed));
          } else if !pollOk {
            return Returned(Failure(PollFailed));
          }
        }
      } else {
        status := DispatchLifecycle(pollOk);
      }
    }

    method Run(inputs: seq<Input>) returns (status: Status)
      modifies this
      ensures (State(), status) == Ran(old(State()), inputs)
    {
      status := Running;
      var i := 0;
      ghost var start := State();
      while i < |inputs| && status.Running?
        invariant 0 <= i <= |inputs|
        invariant (State(), status) == Ran(start, inputs[..i])
      {
        assert inputs[..i + 1][..i] == inputs[..i];
        match inputs[i] {
          case Receive(message, pollOk, lockOk) =>
            status := HandleMessage(message, pollOk, lockOk);
          case Ready(token, callbackOk, pollOk) =>
            status := Dispatch(token, callbackOk, pollOk);
          case PollError =>
            status := Returned(Failure(PollFailed));
        }
        i := i + 1;
      }
      StoppedStays(start, inputs, i);
    }
  }

  lemma {:induction false} StoppedStays(s: LoopState, inputs: seq<Input>, i: nat)
    requires i <= |inputs|
    requires i == |inputs| || !Ran(s, inputs[..i]).1.Running?
    ensures Ran(s, inputs) == Ran(s, inputs[..i])
    decreases |inputs|
  {
    if i == |inputs| {
      assert inputs[..i] == inputs;
    } else {
      var front := inputs[..|inputs| - 1];
      assert front[..i] == inputs[..i];
      StoppedStays(s, front, i);
    }
  }
}
