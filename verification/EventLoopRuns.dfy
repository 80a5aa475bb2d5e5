/** What holds in every run of the event loop, from construction to the end of run. */
module EventLoopRuns {
  import opened Wrappers
  import opened EventLoop

  /** A timer's callback ran, on the source then stored under the token it was registered with. */
  datatype Firing = Firing(timer: Token, named: Token, source: SourceId)

  /** The loop with the history of a run: which token was ever given to a source (`registered`), to a
      stored timer with the source it named (`timers`) or to neither (`others`), how many lifecycle
      events were dispatched (`endings`) and with which tokens (`enders`), the token of the overtime's
      own timer, which timers overtime removed or spared, and what fired before and after it began. */
  datatype World = World(
    loop: LoopState,
    status: Status,
    registered: map<Token, SourceId>,
    timers: map<Token, (Token, SourceId)>,
    others: set<Token>,
    endings: nat,
    expelled: set<Token>,
    spared: set<Token>,
    firings: seq<Firing>,
    lateFirings: seq<Firing>,
    enders: seq<Token>,
    overtimeToken: Option<Token>)

  datatype SetupOp =
    | SetOvertime(spec: Spec)
    | AddException(token: Token)
    | Perform(message: Message)

  const START: World := World(NEW_LOOP, Running, map[], map[], {}, 0, {}, {}, [], [], [], None)

  // ----- history of one step

  /** The bookkeeping of the token a message takes. */
  function Booked(w: World, m: Message, pollOk: bool): World {
    var t := w.loop.nextToken;
    match m
    case CloseAll => w
    case Unregister(_) => w
    case Register(source) =>
      if pollOk then w.(registered := w.registered[t := source]) else w.(others := w.others + {t})
    case RegisterTimed(_, token) =>
      if pollOk && token in w.loop.sources
      then w.(timers := w.timers[t := (token, w.loop.sources[token])])
      else w.(others := w.others + {t})
    case _ => w.(others := w.others + {t})
  }

  function Received(w: World, m: Message, pollOk: bool, lockOk: bool): World {
    var (loop, status) := Handled(w.loop, m, pollOk, lockOk);
    Booked(w, m, pollOk).(loop := loop, status := status)
  }

  function Fired(w: World, timer: Token): World
    requires timer in w.loop.timed && w.loop.timed[timer] in w.loop.sources
  {
    var f := Firing(timer, w.loop.timed[timer], w.loop.sources[w.loop.timed[timer]]);
    if w.endings == 0 then w.(firings := w.firings + [f]) else w.(lateFirings := w.lateFirings + [f])
  }

  /** The bookkeeping of a lifecycle event; the first one that finds an overtime starts it. */
  function Ended(w: World, token: Token): World {
    if w.loop.overtime.Some? then
      w.(endings := w.endings + 1,
         enders := w.enders + [token],
         overtimeToken := Some(w.loop.nextToken),
         expelled := w.loop.timed.Keys - (set t | t in w.loop.exceptions),
         spared := w.loop.timed.Keys * (set t | t in w.loop.exceptions),
         others := w.others + {w.loop.nextToken})
    else w.(endings := w.endings + 1, enders := w.enders + [token])
  }

  function Readied(w: World, token: Token, callbackOk: bool, pollOk: bool): World {
    var (loop, status) := Dispatched(w.loop, token, callbackOk, pollOk);
    var booked :=
      if IsLifecycle(w.loop, token) then Ended(w, token)
      else if token !in w.loop.sources && w.loop.timed[token] in w.loop.sources then Fired(w, token)
      else w;
    booked.(loop := loop, status := status)
  }

  function Next(w: World, input: Input): World {
    if !w.status.Running? then w else
    match input
    case Receive(message, pollOk, lockOk) => Received(w, message, pollOk, lockOk)
    case Ready(token, callbackOk, pollOk) => Readied(w, token, callbackOk, pollOk)
    case PollError => w.(status := Returned(Failure(PollFailed)))
  }

  function Configured(w: World, op: SetupOp): World {
    match op
    case SetOvertime(spec) => w.(loop := w.loop.(overtime := Some(spec)))
    case AddException(token) => w.(loop := w.loop.(exceptions := w.loop.exceptions + [token]))
    case Perform(message) => if w.status.Running? then Received(w, message, true, true) else w
  }

  /** Before run the owner sets the overtime, names exceptions and registers. */
  function Prepared(setup: seq<SetupOp>): World {
    if setup == [] then START else Configured(Prepared(setup[..|setup| - 1]), setup[|setup| - 1])
  }

  function Run(setup: seq<SetupOp>, inputs: seq<Input>): World {
    if inputs == [] then Prepared(setup)
    else Next(Run(setup, inputs[..|inputs| - 1]), inputs[|inputs| - 1])
  }

  /** The history adds nothing to what the loop itself does. */
  lemma {:induction false} RunIsRan(setup: seq<SetupOp>, inputs: seq<Input>)
    requires Prepared(setup).status.Running?
    ensures (Run(setup, inputs).loop, Run(setup, inputs).status) == Ran(Prepared(setup).loop, inputs)
  {
    if inputs != [] {
      RunIsRan(setup, inputs[..|inputs| - 1]);
    }
  }

  // ----- tokens

  /** Every token below next_token was given out once, for one purpose. */
  ghost predicate TokensInv(w: World) {
    && (forall t :: t in w.registered ==> t < w.loop.nextToken && t !in w.timers && t !in w.others)
    && (forall t :: t in w.timers ==> t < w.loop.nextToken && t !in w.others)
    && (forall t :: t in w.others ==> t < w.loop.nextToken)
    && (forall t: Token :: t < w.loop.nextToken ==> t in w.registered || t in w.timers || t in w.others)
  }

  /** The maps hold only what was registered, under the token it was registered with. */
  ghost predicate MapsInv(w: World) {
    && (forall t :: t in w.loop.sources ==> t in w.registered && w.loop.sources[t] == w.registered[t])
    && (forall t :: t in w.loop.timed ==> t in w.timers && w.timers[t].0 == w.loop.timed[t])
    && (forall t :: t in w.timers ==> w.timers[t].0 in w.registered && w.registered[w.timers[t].0] == w.timers[t].1)
  }

  ghost predicate FiringOk(w: World, f: Firing) {
    f.timer in w.timers && w.timers[f.timer] == (f.named, f.source)
  }

  ghost predicate FiringsInv(w: World) {
    && (forall f :: f in w.firings ==> FiringOk(w, f))
    && (forall f :: f in w.lateFirings ==> FiringOk(w, f) && f.timer !in w.expelled)
  }

  /** Where the loop is between its start, overtime and its end. */
  ghost predicate PhaseInv(w: World) {
    && !w.status.Panicked?
    && (w.status == Returned(Success(())) ==> w.endings == 2 && w.loop.cleanup.None?)
    && (w.endings == 0 ==> w.loop.overtime.Some? && w.expelled == {} && w.lateFirings == [])
    && (w.endings > 0 ==> w.loop.overtime.None?)
    && (w.endings == 1 && w.status.Running? ==> w.loop.cleanupToken.Some?)
    && (w.endings > 1 ==> w.endings == 2 && !w.status.Running?)
    && (w.status.Running? && w.loop.cleanup.Some? ==> w.loop.cleanupToken.Some?)
    && (w.loop.cleanupToken.Some? ==> w.loop.cleanupToken.value in w.others)
    && |w.enders| == w.endings
    && (w.endings > 0 ==> w.overtimeToken.Some? && w.overtimeToken.value in w.others)
  }

  ghost predicate TimersInv(w: World) {
    && (forall t :: t in w.expelled ==> t in w.timers && t !in w.loop.timed)
    && (forall t :: t in w.timers ==> t in w.loop.timed || t in w.expelled)
    && (w.endings > 0 ==> forall t :: t in w.spared ==> t in w.loop.timed)
  }

  ghost predicate Inv(w: World) {
    TokensInv(w) && MapsInv(w) && FiringsInv(w) && PhaseInv(w) && TimersInv(w)
  }

  lemma ReceivedKeepsTokens(w: World, m: Message, pollOk: bool, lockOk: bool)
    requires Inv(w) && w.status.Running?
    ensures TokensInv(Received(w, m, pollOk, lockOk))
  {
    hide MapsInv, FiringsInv, TimersInv;
  }

  lemma ReceivedKeepsMaps(w: World, m: Message, pollOk: bool, lockOk: bool)
    requires Inv(w) && w.status.Running?
    ensures MapsInv(Received(w, m, pollOk, lockOk))
  {
    hide FiringsInv, PhaseInv, TimersInv;
  }

  lemma ReceivedKeepsTimers(w: World, m: Message, pollOk: bool, lockOk: bool)
    requires Inv(w) && w.status.Running?
    ensures TimersInv(Received(w, m, pollOk, lockOk))
  {
    hide MapsInv, FiringsInv, PhaseInv;
  }

  lemma ReceivedKeepsPhase(w: World, m: Message, pollOk: bool, lockOk: bool)
    requires Inv(w) && w.status.Running?
    ensures PhaseInv(Received(w, m, pollOk, lockOk))
  {
    hide MapsInv, FiringsInv, TimersInv;
  }

  lemma ReceivedKeepsFirings(w: World, m: Message, pollOk: bool, lockOk: bool)
    requires Inv(w) && w.status.Running?
    ensures FiringsInv(Received(w, m, pollOk, lockOk))
  {
    hide MapsInv, PhaseInv, TimersInv;
    var w' := Received(w, m, pollOk, lockOk);
    forall f | FiringOk(w, f) ensures FiringOk(w', f) {
    }
  }

  lemma ReceivedKeeps(w: World, m: Message, pollOk: bool, lockOk: bool)
    requires Inv(w) && w.status.Running?
    ensures Inv(Received(w, m, pollOk, lockOk))
  {
    hide TokensInv, PhaseInv, MapsInv, TimersInv, FiringsInv, Received;
    ReceivedKeepsTokens(w, m, pollOk, lockOk);
    ReceivedKeepsMaps(w, m, pollOk, lockOk);
    ReceivedKeepsTimers(w, m, pollOk, lockOk);
    ReceivedKeepsPhase(w, m, pollOk, lockOk);
    ReceivedKeepsFirings(w, m, pollOk, lockOk);
  }

  /** A readable token takes entries out of the maps and puts none in; a token it gives out is one of
      the others. */
  ghost predicate OnlyRemoves(w: World, w': World) {
    && w'.registered == w.registered && w'.timers == w.timers
    && (forall t :: t in w'.loop.sources ==> t in w.loop.sources && w'.loop.sources[t] == w.loop.sources[t])
    && (forall t :: t in w'.loop.timed ==> t in w.loop.timed && w'.loop.timed[t] == w.loop.timed[t])
    && w.loop.nextToken <= w'.loop.nextToken
    && (forall t :: t in w'.others <==> t in w.others || w.loop.nextToken <= t < w'.loop.nextToken)
  }

  lemma LifecycleOnlyRemoves(w: World, token: Token, callbackOk: bool, pollOk: bool)
    requires IsLifecycle(w.loop, token)
    ensures OnlyRemoves(w, Readied(w, token, callbackOk, pollOk))
  {
    var (loop, status) := LifecycleDispatched(w.loop, pollOk);
    assert Readied(w, token, callbackOk, pollOk) == Ended(w, token).(loop := loop, status := status);
    hide Readied;
  }

  lemma ReadiedOnlyRemoves(w: World, token: Token, callbackOk: bool, pollOk: bool)
    ensures OnlyRemoves(w, Readied(w, token, callbackOk, pollOk))
  {
    if IsLifecycle(w.loop, token) {
      LifecycleOnlyRemoves(w, token, callbackOk, pollOk);
    } else {
      hide LifecycleDispatched;
    }
  }

  lemma ReadiedKeepsTokens(w: World, token: Token, callbackOk: bool, pollOk: bool)
    requires Inv(w) && w.status.Running?
    ensures TokensInv(Readied(w, token, callbackOk, pollOk))
  {
    ReadiedOnlyRemoves(w, token, callbackOk, pollOk);
    hide Readied, MapsInv, FiringsInv, TimersInv, PhaseInv;
  }

  lemma ReadiedKeepsMaps(w: World, token: Token, callbackOk: bool, pollOk: bool)
    requires Inv(w) && w.status.Running?
    ensures MapsInv(Readied(w, token, callbackOk, pollOk))
  {
    ReadiedOnlyRemoves(w, token, callbackOk, pollOk);
    hide Readied, FiringsInv, TimersInv, PhaseInv, TokensInv;
  }

  lemma LifecycleKeepsTimers(w: World, token: Token, callbackOk: bool, pollOk: bool)
    requires Inv(w) && w.status.Running? && IsLifecycle(w.loop, token)
    ensures TimersInv(Readied(w, token, callbackOk, pollOk))
  {
    var (loop, status) := LifecycleDispatched(w.loop, pollOk);
    assert Readied(w, token, callbackOk, pollOk) == Ended(w, token).(loop := loop, status := status);
    hide FiringsInv, Readied, Dispatched;
  }

  lemma ReadiedKeepsTimers(w: World, token: Token, callbackOk: bool, pollOk: bool)
    requires Inv(w) && w.status.Running?
    ensures TimersInv(Readied(w, token, callbackOk, pollOk))
  {
    if IsLifecycle(w.loop, token) {
      LifecycleKeepsTimers(w, token, callbackOk, pollOk);
    } else {
      hide Inv, LifecycleDispatched;
    }
  }

  lemma ReadiedKeepsPhase(w: World, token: Token, callbackOk: bool, pollOk: bool)
    requires Inv(w) && w.status.Running?
    ensures PhaseInv(Readied(w, token, callbackOk, pollOk))
  {
    hide FiringsInv, TimersInv;
  }

  lemma ReadiedKeepsFirings(w: World, token: Token, callbackOk: bool, pollOk: bool)
    requires Inv(w) && w.status.Running?
    ensures FiringsInv(Readied(w, token, callbackOk, pollOk))
  {
    var w' := Readied(w, token, callbackOk, pollOk);
    hide Dispatched, TokensInv;
    if !IsLifecycle(w.loop, token) && token !in w.loop.sources && w.loop.timed[token] in w.loop.sources {
      var f := Firing(token, w.loop.timed[token], w.loop.sources[w.loop.timed[token]]);
      assert FiringOk(w, f) && f.timer !in w.expelled;
    }
    forall f | FiringOk(w, f) ensures FiringOk(w', f) {
    }
  }

  lemma ReadiedKeeps(w: World, token: Token, callbackOk: bool, pollOk: bool)
    requires Inv(w) && w.status.Running?
    ensures Inv(Readied(w, token, callbackOk, pollOk))
  {
    hide TokensInv, PhaseInv, MapsInv, TimersInv, FiringsInv, Readied;
    ReadiedKeepsTokens(w, token, callbackOk, pollOk);
    ReadiedKeepsMaps(w, token, callbackOk, pollOk);
    ReadiedKeepsTimers(w, token, callbackOk, pollOk);
    ReadiedKeepsPhase(w, token, callbackOk, pollOk);
    ReadiedKeepsFirings(w, token, callbackOk, pollOk);
  }

  lemma SettingsKeep(w: World, loop: LoopState)
    requires Inv(w) && w.endings == 0 && loop.overtime.Some?
    requires loop == w.loop.(overtime := loop.overtime, exceptions := loop.exceptions)
    ensures Inv(w.(loop := loop))
  {
    var w' := w.(loop := loop);
    assert forall f :: FiringOk(w, f) ==> FiringOk(w', f);
    hide FiringOk;
  }

  lemma ConfiguredKeeps(w: World, op: SetupOp)
    requires Inv(w) && w.endings == 0
    ensures Inv(Configured(w, op)) && Configured(w, op).endings == 0
  {
    match op
    case SetOvertime(spec) => SettingsKeep(w, w.loop.(overtime := Some(spec)));
    case AddException(token) => SettingsKeep(w, w.loop.(exceptions := w.loop.exceptions + [token]));
    case Perform(message) =>
      if w.status.Running? {
        hide Inv;
        ReceivedKeeps(w, message, true, true);
      }
  }

  lemma {:induction false} PreparedHolds(setup: seq<SetupOp>)
    ensures Inv(Prepared(setup)) && Prepared(setup).endings == 0
  {
    if setup != [] {
      hide Inv, Configured;
      PreparedHolds(setup[..|setup| - 1]);
      ConfiguredKeeps(Prepared(setup[..|setup| - 1]), setup[|setup| - 1]);
    }
  }

  lemma StoppingKeeps(w: World)
    requires Inv(w) && w.status.Running?
    ensures Inv(w.(status := Returned(Failure(PollFailed))))
  {
    var w' := w.(status := Returned(Failure(PollFailed)));
    assert forall f :: FiringOk(w, f) ==> FiringOk(w', f);
  }

  /** The invariant of tokens, maps, firings and phases holds in every run. */
  lemma {:induction false} InvHolds(setup: seq<SetupOp>, inputs: seq<Input>)
    ensures Inv(Run(setup, inputs))
  {
    if inputs == [] {
      PreparedHolds(setup);
    } else {
      var w := Run(setup, inputs[..|inputs| - 1]);
      InvHolds(setup, inputs[..|inputs| - 1]);
      hide Inv;
      if w.status.Running? {
        match inputs[|inputs| - 1]
        case Receive(message, pollOk, lockOk) => ReceivedKeeps(w, message, pollOk, lockOk);
        case Ready(token, callbackOk, pollOk) => ReadiedKeeps(w, token, callbackOk, pollOk);
        case PollError => StoppingKeeps(w);
      }
    }
  }

  // ----- what every run shows

  ghost predicate Extends(m: map<Token, SourceId>, m': map<Token, SourceId>) {
    forall t :: t in m ==> t in m' && m'[t] == m[t]
  }

  /** A token is never given out twice: the next one has no past, and no token changes its source. */
  lemma TokensAreNeverReused(setup: seq<SetupOp>, inputs: seq<Input>, input: Input)
    ensures var w := Run(setup, inputs);
            var t := w.loop.nextToken;
            && t !in w.registered && t !in w.timers && t !in w.others
            && w.loop.sources.Keys !! w.loop.timed.Keys !! w.others
            && Extends(w.registered, Next(w, input).registered)
            && w.loop.nextToken <= Next(w, input).loop.nextToken
  {
    InvHolds(setup, inputs);
    hide Run, FiringsInv, PhaseInv, TimersInv, Next;
    NextExtends(Run(setup, inputs), input);
  }

  lemma NextExtends(w: World, input: Input)
    requires TokensInv(w)
    ensures Extends(w.registered, Next(w, input).registered)
    ensures w.loop.nextToken <= Next(w, input).loop.nextToken
  {
    if w.status.Running? && input.Ready? {
      ReadiedOnlyRemoves(w, input.token, input.callbackOk, input.pollOk);
      hide Readied;
    }
  }

  /** A timer only ever runs on the source its registration named. */
  lemma TimersRunOnTheirSource(setup: seq<SetupOp>, inputs: seq<Input>, f: Firing)
    requires var w := Run(setup, inputs); f in w.firings + w.lateFirings
    ensures var w := Run(setup, inputs);
            && f.timer in w.timers && w.timers[f.timer] == (f.named, f.source)
            && f.named in w.registered && w.registered[f.named] == f.source
  {
    InvHolds(setup, inputs);
    var w := Run(setup, inputs);
    assert FiringOk(w, f);
    hide Run, TokensInv, PhaseInv, TimersInv;
  }

  /** Once overtime has begun, no timer it removed fires again or comes back,
      and the timers listed as exceptions are still there. */
  lemma OvertimeIsFinal(setup: seq<SetupOp>, inputs: seq<Input>)
    requires Run(setup, inputs).endings > 0
    ensures var w := Run(setup, inputs);
            && (forall f :: f in w.lateFirings ==> f.timer !in w.expelled)
            && w.expelled !! w.loop.timed.Keys
            && w.spared <= w.loop.timed.Keys
  {
    InvHolds(setup, inputs);
    hide Run, TokensInv, MapsInv, PhaseInv;
  }

  /** run returns Ok only after overtime, at the second lifecycle event and without a cleanup;
      the expect on the overtime is never reached without one. */
  lemma OkOnlyAfterOvertime(setup: seq<SetupOp>, inputs: seq<Input>)
    ensures var w := Run(setup, inputs);
            && !w.status.Panicked?
            && (w.status == Returned(Success(())) ==>
                  w.endings == 2 && w.loop.overtime.None? && w.loop.cleanup.None?)
  {
    InvHolds(setup, inputs);
    hide Run, TokensInv, MapsInv, TimersInv, FiringsInv;
  }

  /** The first lifecycle event starts overtime and does not end the loop unless its timer fails;
      the second always ends it: Ok without a cleanup, token not found with one. */
  lemma LifecycleEvents(setup: seq<SetupOp>, inputs: seq<Input>, token: Token, callbackOk: bool, pollOk: bool)
    requires Run(setup, inputs).status.Running? && IsLifecycle(Run(setup, inputs).loop, token)
    ensures var w := Run(setup, inputs);
            var w' := Next(w, Ready(token, callbackOk, pollOk));
            if w.endings == 0 then
              && w'.status == (if pollOk then Running else Returned(Failure(PollFailed)))
              && w'.loop.timed == Spared(w.loop)
            else
              w'.status == Returned(if w.loop.cleanup.None? then Success(()) else Failure(TokenNotFound))
  {
    InvHolds(setup, inputs);
    var w := Run(setup, inputs);
    assert w.endings == 0 || w.endings == 1;
    hide Run;
  }

  /** In every run an Unregister removes the source it names and nothing else, and ends the loop with token
      not found when there is none. */
  lemma UnregisterRemoves(setup: seq<SetupOp>, inputs: seq<Input>, token: Token, pollOk: bool, lockOk: bool)
    requires Run(setup, inputs).status.Running?
    ensures var w := Run(setup, inputs);
            var w' := Run(setup, inputs + [Receive(Unregister(token), pollOk, lockOk)]);
            && token !in w'.loop.sources
            && (forall t :: t != token ==> (t in w'.loop.sources <==> t in w.loop.sources))
            && (forall t :: t in w'.loop.sources ==> w'.loop.sources[t] == w.loop.sources[t])
            && w'.loop.timed == w.loop.timed && w'.loop.nextToken == w.loop.nextToken
            && w'.status == if token !in w.loop.sources then Returned(Failure(TokenNotFound))
                            else if pollOk then Running else Returned(Failure(PollFailed))
  {
    RunExtends(setup, inputs, Receive(Unregister(token), pollOk, lockOk));
    hide Run;
  }

  lemma RunExtends(setup: seq<SetupOp>, inputs: seq<Input>, input: Input)
    ensures Run(setup, inputs + [input]) == Next(Run(setup, inputs), input)
  {
    hide Next;
    assert (inputs + [input])[..|inputs|] == inputs;
  }

  /** In every run a readable source whose callback fails is removed and the loop goes on. */
  lemma FailingSourceGoes(setup: seq<SetupOp>, inputs: seq<Input>, token: Token, callbackOk: bool, pollOk: bool)
    requires Run(setup, inputs).status.Running? && token in Run(setup, inputs).loop.sources
    ensures var w := Run(setup, inputs);
            var w' := Run(setup, inputs + [Ready(token, callbackOk, pollOk)]);
            && w'.status.Running?
            && (token in w'.loop.sources <==> callbackOk)
            && (forall t :: t != token ==> (t in w'.loop.sources <==> t in w.loop.sources))
            && (forall t :: t in w'.loop.sources ==> w'.loop.sources[t] == w.loop.sources[t])
            && w'.loop.timed == w.loop.timed && w'.loop.nextToken == w.loop.nextToken
  {
    RunExtends(setup, inputs, Ready(token, callbackOk, pollOk));
    hide Run;
  }

  /** In every run a readable timer runs its callback once if the source it names is there, and not else;
      a callback that fails, or a timer that cannot be set again, ends the loop. */
  lemma TimerFires(setup: seq<SetupOp>, inputs: seq<Input>, timer: Token, callbackOk: bool, pollOk: bool)
    requires Run(setup, inputs).status.Running? && timer in Run(setup, inputs).loop.timed
    ensures var w := Run(setup, inputs);
            var w' := Run(setup, inputs + [Ready(timer, callbackOk, pollOk)]);
            && w'.loop == w.loop
            && (if w.loop.timed[timer] in w.loop.sources then
                  && |w'.firings + w'.lateFirings| == |w.firings + w.lateFirings| + 1
                  && w'.status == if !callbackOk then Returned(Failure(CallbackFailed))
                                  else if pollOk then Running else Returned(Failure(PollFailed))
                else
                  w' == w)
  {
    InvHolds(setup, inputs);
    RunExtends(setup, inputs, Ready(timer, callbackOk, pollOk));
    assert timer !in Run(setup, inputs).loop.sources by {
      TokensAreNeverReused(setup, inputs, PollError);
    }
    hide Run, Inv;
  }

  // ----- how long overtime lasts

  /** After the first lifecycle event a token became readable that is in neither map and is not the
      overtime's own timer. */
  predicate StaleReady(w: World, input: Input) {
    && w.status.Running? && w.endings == 1
    && input.Ready? && IsLifecycle(w.loop, input.token) && Some(input.token) != w.overtimeToken
  }

  ghost predicate MetStale(setup: seq<SetupOp>, inputs: seq<Input>) {
    exists k :: 0 <= k < |inputs| && StaleReady(Run(setup, inputs[..k]), inputs[k])
  }

  /** The second lifecycle event was not the overtime's own timer. */
  predicate CutShort(w: World) {
    |w.enders| == 2 && Some(w.enders[1]) != w.overtimeToken
  }

  lemma CutShortNext(w: World, input: Input)
    requires Inv(w)
    ensures CutShort(Next(w, input)) <==> CutShort(w) || StaleReady(w, input)
  {
    hide TokensInv, MapsInv, TimersInv, FiringsInv;
  }

  lemma MetStaleNext(setup: seq<SetupOp>, inputs: seq<Input>)
    requires inputs != []
    ensures var m := |inputs| - 1;
            MetStale(setup, inputs) <==> MetStale(setup, inputs[..m]) || StaleReady(Run(setup, inputs[..m]), inputs[m])
  {
    var m := |inputs| - 1;
    hide Run, StaleReady;
    assert forall k :: 0 <= k < m ==> inputs[..m][..k] == inputs[..k] && inputs[..m][k] == inputs[k];
  }

  /** Overtime lasts until its own timer exactly when no other token that is in neither map becomes
      readable after the first lifecycle event. */
  lemma {:induction false} CutShortIff(setup: seq<SetupOp>, inputs: seq<Input>)
    ensures CutShort(Run(setup, inputs)) <==> MetStale(setup, inputs)
  {
    if inputs == [] {
      PreparedHolds(setup);
      hide Inv;
    } else {
      var front := inputs[..|inputs| - 1];
      CutShortIff(setup, front);
      InvHolds(setup, front);
      MetStaleNext(setup, inputs);
      hide MetStale, CutShort, StaleReady, Inv, Next;
      CutShortNext(Run(setup, front), inputs[|inputs| - 1]);
    }
  }

  /** The tokens given out that can do so: timers overtime removed, sources no longer registered, and
      durations and cleanups set before or besides the overtime. */
  lemma StaleTokens(setup: seq<SetupOp>, inputs: seq<Input>, token: Token)
    requires var w := Run(setup, inputs); IsLifecycle(w.loop, token) && token < w.loop.nextToken
    ensures var w := Run(setup, inputs);
            || token in w.expelled
            || (token in w.registered && token !in w.loop.sources)
            || token in w.others
  {
    InvHolds(setup, inputs);
    hide Run, MapsInv, FiringsInv, PhaseInv;
  }

  // ----- the light sender's loop

  /** The setup of the light sender: socket 0, send timer 1, correction timer 2 (spared), duration 3. */
  function SenderSetup(overtime: Spec, period: Spec, correction: Spec, duration: Spec, socket: SourceId): seq<SetupOp> {
    [SetOvertime(overtime), Perform(Register(socket)), Perform(RegisterTimed(period, 0)),
     Perform(RegisterTimed(correction, 0)), AddException(2), Perform(AddDuration(duration))]
  }

  lemma SenderPrepared(overtime: Spec, period: Spec, correction: Spec, duration: Spec, socket: SourceId)
    ensures var w := Prepared(SenderSetup(overtime, period, correction, duration, socket));
            && w.status.Running? && w.endings == 0
            && w.loop.timed == map[1 := 0, 2 := 0]
            && w.loop.exceptions == [2]
            && w.loop.sources == map[0 := socket] && w.loop.nextToken == 4
  {
    var ops := SenderSetup(overtime, period, correction, duration, socket);
    SenderRegistered(overtime, period, correction, socket);
    SixSteps(ops);
    hide Prepared;
  }

  lemma SenderRegistered(overtime: Spec, period: Spec, correction: Spec, socket: SourceId)
    ensures var w := Configured(Configured(Configured(Configured(START,
                       SetOvertime(overtime)), Perform(Register(socket))),
                       Perform(RegisterTimed(period, 0))), Perform(RegisterTimed(correction, 0)));
            && w.status.Running? && w.endings == 0
            && w.loop.timed == map[1 := 0, 2 := 0]
            && w.loop.exceptions == []
            && w.loop.sources == map[0 := socket] && w.loop.nextToken == 3
  {
  }

  lemma SixSteps(ops: seq<SetupOp>)
    requires |ops| == 6
    ensures Prepared(ops) == Configured(Configured(Configured(Configured(Configured(Configured(START,
              ops[0]), ops[1]), ops[2]), ops[3]), ops[4]), ops[5])
  {
    hide Configured;
    PreparedPrefix(ops, 1);
    PreparedPrefix(ops, 2);
    PreparedPrefix(ops, 3);
    PreparedPrefix(ops, 4);
    PreparedPrefix(ops, 5);
    PreparedPrefix(ops, 6);
    assert ops[..0] == [] && ops[..6] == ops;
  }

  lemma PreparedPrefix(ops: seq<SetupOp>, n: nat)
    requires 0 < n <= |ops|
    ensures Prepared(ops[..n]) == Configured(Prepared(ops[..n - 1]), ops[n - 1])
  {
    assert ops[..n][..n - 1] == ops[..n - 1];
  }

  /** A loop nobody sends messages to. */
  predicate Quiet(inputs: seq<Input>) {
    forall i :: i in inputs ==> !i.Receive?
  }

  /** In every run of the light sender both timers stand until overtime; from then on only the
      correction of send timestamps can fire, so no packet is sent in overtime. */
  lemma {:induction false} SenderOvertime(overtime: Spec, period: Spec, correction: Spec, duration: Spec,
                                          socket: SourceId, inputs: seq<Input>)
    requires Quiet(inputs)
    ensures var w := Run(SenderSetup(overtime, period, correction, duration, socket), inputs);
            && w.loop.exceptions == [2]
            && w.loop.timed == (if w.endings == 0 then map[1 := 0, 2 := 0] else map[2 := 0])
            && (forall f :: f in w.lateFirings ==> f.timer == 2)
  {
    var setup := SenderSetup(overtime, period, correction, duration, socket);
    InvHolds(setup, inputs);
    if inputs == [] {
      SenderPrepared(overtime, period, correction, duration, socket);
    } else {
      var front, input := inputs[..|inputs| - 1], inputs[|inputs| - 1];
      assert input in inputs;
      SenderOvertime(overtime, period, correction, duration, socket, front);
      InvHolds(setup, front);
      SenderOvertimeNext(Run(setup, front), input);
      hide Inv;
    }
  }

  lemma SenderOvertimeNext(w: World, input: Input)
    requires Inv(w) && !input.Receive? && w.loop.exceptions == [2]
    requires w.loop.timed == if w.endings == 0 then map[1 := 0, 2 := 0] else map[2 := 0]
    requires forall f :: f in w.lateFirings ==> f.timer == 2
    ensures var w' := Next(w, input);
            && w'.loop.exceptions == [2]
            && w'.loop.timed == (if w'.endings == 0 then map[1 := 0, 2 := 0] else map[2 := 0])
            && (forall f :: f in w'.lateFirings ==> f.timer == 2)
  {
    if !w.status.Running? || input.PollError? {
    } else if IsLifecycle(w.loop, input.token) {
      SenderLifecycle(w, input.token, input.callbackOk, input.pollOk);
    } else {
      hide Inv;
    }
  }

  lemma SenderLifecycle(w: World, token: Token, callbackOk: bool, pollOk: bool)
    requires Inv(w) && w.loop.exceptions == [2] && w.status.Running? && IsLifecycle(w.loop, token)
    requires w.endings == 0 ==> w.loop.timed == map[1 := 0, 2 := 0]
    ensures var w' := Readied(w, token, callbackOk, pollOk);
            && w'.endings > 0 && w'.loop.exceptions == [2] && w'.lateFirings == w.lateFirings
            && w'.loop.timed == if w.endings == 0 then map[2 := 0] else w.loop.timed
  {
    var (loop, status) := LifecycleDispatched(w.loop, pollOk);
    assert Readied(w, token, callbackOk, pollOk) == Ended(w, token).(loop := loop, status := status);
    if w.endings == 0 {
      assert w.loop.overtime.Some?;
      hide Inv, Readied, Dispatched;
      assert Spared(w.loop) == map[2 := 0];
    } else {
      assert w.loop.overtime.None?;
      assert w.loop.cleanupToken.Some? ==> w.loop.cleanupToken.value !in w.loop.timed;
      hide Inv, Readied, Dispatched;
    }
  }

  // ----- how long the light sender waits for late replies

  predicate SocketFine(inputs: seq<Input>) {
    forall i :: i in inputs && i.Ready? && i.token == 0 ==> i.callbackOk
  }

  ghost predicate SenderFrame(w: World, socket: SourceId) {
    && w.loop.sources == map[0 := socket]
    && (w.endings == 0 ==> w.loop.nextToken == 4)
    && (w.endings > 0 ==> w.overtimeToken == Some(4))
  }

  lemma SenderFrameNext(w: World, input: Input, socket: SourceId)
    requires Inv(w) && SenderFrame(w, socket)
    requires !input.Receive? && (input.Ready? && input.token == 0 ==> input.callbackOk)
    ensures SenderFrame(Next(w, input), socket)
  {
    hide TokensInv, MapsInv, TimersInv, FiringsInv;
  }

  lemma {:induction false} SenderKeepsFrame(overtime: Spec, period: Spec, correction: Spec, duration: Spec,
                                            socket: SourceId, inputs: seq<Input>)
    requires Quiet(inputs) && SocketFine(inputs)
    ensures SenderFrame(Run(SenderSetup(overtime, period, correction, duration, socket), inputs), socket)
  {
    var setup := SenderSetup(overtime, period, correction, duration, socket);
    if inputs == [] {
      SenderPrepared(overtime, period, correction, duration, socket);
    } else {
      var front, input := inputs[..|inputs| - 1], inputs[|inputs| - 1];
      assert input in inputs;
      assert forall i :: i in front ==> i in inputs;
      SenderKeepsFrame(overtime, period, correction, duration, socket, front);
      InvHolds(setup, front);
      hide Inv, SenderFrame, Next, SenderSetup;
      SenderFrameNext(Run(setup, front), input, socket);
    }
  }

  predicate OtherReady(w: World, input: Input) {
    w.status.Running? && w.endings == 1 && input.Ready? && input.token !in {0, 2, 4}
  }

  lemma OtherIsStale(overtime: Spec, period: Spec, correction: Spec, duration: Spec,
                     socket: SourceId, inputs: seq<Input>, input: Input)
    requires Quiet(inputs) && SocketFine(inputs)
    ensures var w := Run(SenderSetup(overtime, period, correction, duration, socket), inputs);
            StaleReady(w, input) <==> OtherReady(w, input)
  {
    SenderKeepsFrame(overtime, period, correction, duration, socket, inputs);
    SenderOvertime(overtime, period, correction, duration, socket, inputs);
    hide Run, SenderSetup;
  }

  /** While its socket lasts, the light sender's overtime is cut short exactly when, after the deadline, a
      token other than the socket, the correction timer and the overtime's own timer becomes readable. */
  lemma SenderCutShortIff(overtime: Spec, period: Spec, correction: Spec, duration: Spec,
                          socket: SourceId, inputs: seq<Input>)
    requires Quiet(inputs) && SocketFine(inputs)
    ensures var setup := SenderSetup(overtime, period, correction, duration, socket);
            CutShort(Run(setup, inputs)) <==>
            exists k :: 0 <= k < |inputs| && OtherReady(Run(setup, inputs[..k]), inputs[k])
  {
    var setup := SenderSetup(overtime, period, correction, duration, socket);
    CutShortIff(setup, inputs);
    hide Run, CutShort, StaleReady, OtherReady, SenderSetup;
    forall k | 0 <= k < |inputs|
      ensures StaleReady(Run(setup, inputs[..k]), inputs[k]) <==> OtherReady(Run(setup, inputs[..k]), inputs[k])
    {
      assert forall i :: i in inputs[..k] ==> i in inputs;
      OtherIsStale(overtime, period, correction, duration, socket, inputs[..k], inputs[k]);
    }
  }

  lemma RunOfTwo(setup: seq<SetupOp>, a: Input, b: Input)
    ensures Run(setup, [a, b]) == Next(Next(Prepared(setup), a), b)
  {
    hide Next, Prepared;
    assert [a, b][..1] == [a] && [a][..0] == [];
    assert Run(setup, [a]) == Next(Run(setup, []), a);
  }

  lemma DeadlineThenSend(w: World)
    requires Inv(w) && w.status.Running? && w.endings == 0 && w.loop.cleanup.None? && w.loop.exceptions == [2]
    requires w.loop.sources.Keys == {0} && w.loop.timed == map[1 := 0, 2 := 0] && w.loop.nextToken == 4
    ensures var w' := Next(Next(w, Ready(3, true, true)), Ready(1, true, true));
            w'.status == Returned(Success(())) && w'.enders == [3, 1] && w'.overtimeToken == Some(4)
  {
    assert w.loop.overtime.Some? && w.enders == [];
    hide Inv, Next;
    DeadlineStarts(w);
    StaleEnds(Next(w, Ready(3, true, true)), 1);
  }

  lemma DeadlineStarts(w: World)
    requires w.status.Running? && w.loop.overtime.Some? && w.loop.exceptions == [2]
    requires w.loop.sources.Keys == {0} && w.loop.timed == map[1 := 0, 2 := 0]
    ensures var w' := Next(w, Ready(3, true, true));
            && w'.status.Running? && w'.enders == w.enders + [3] && w'.overtimeToken == Some(w.loop.nextToken)
            && w'.loop.cleanup == w.loop.cleanup && w'.loop.overtime.None? && IsLifecycle(w'.loop, 1)
  {
  }

  lemma StaleEnds(w: World, token: Token)
    requires w.status.Running? && IsLifecycle(w.loop, token) && w.loop.overtime.None? && w.loop.cleanup.None?
    ensures var w' := Next(w, Ready(token, true, true));
            w'.status == Returned(Success(())) && w'.enders == w.enders + [token] && w'.overtimeToken == w.overtimeToken
  {
  }

  /** The send timer that the deadline has just removed, readable in the same batch of events, ends the
      loop with Ok and without any overtime. */
  lemma SenderCutShort(overtime: Spec, period: Spec, correction: Spec, duration: Spec, socket: SourceId)
    ensures var w := Run(SenderSetup(overtime, period, correction, duration, socket),
                         [Ready(3, true, true), Ready(1, true, true)]);
            w.status == Returned(Success(())) && CutShort(w)
  {
    var setup := SenderSetup(overtime, period, correction, duration, socket);
    RunOfTwo(setup, Ready(3, true, true), Ready(1, true, true));
    SenderPrepared(overtime, period, correction, duration, socket);
    PreparedHolds(setup);
    NoCleanup(overtime, period, correction, duration, socket);
    hide Run, Prepared, SenderSetup, Inv, Next;
    DeadlineThenSend(Prepared(setup));
  }

  lemma NoCleanup(overtime: Spec, period: Spec, correction: Spec, duration: Spec, socket: SourceId)
    ensures Prepared(SenderSetup(overtime, period, correction, duration, socket)).loop.cleanup.None?
  {
    SixSteps(SenderSetup(overtime, period, correction, duration, socket));
    hide Prepared;
  }
}
