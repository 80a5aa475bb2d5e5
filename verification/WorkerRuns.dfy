/** The worker event loop of a control client: what becomes of the test its messages set up. */
module WorkerRuns {
  import opened Wrappers
  import opened EventLoop
  import opened EventLoopRuns
  import Control
  import ControlRuns

  /** An event as the loop receives it. `socket` is the test socket it carries, `token` the token the
      loop has published for that socket. */
  function Delivered(e: Control.WorkerEvent, socket: SourceId, token: Token, period: Spec, timeout: Spec): Message {
    match e
    case RegisterSender(_) => Register(socket)
    case RegisterReflector(_, _) => Register(socket)
    case RegisterTimed => RegisterTimed(period, token)
    case TimedCleanup => TimedCleanup(timeout)
    case Clean => CloseAll
  }

  // ----- what the client enqueues

  /** A client in its test has enqueued the messages of the test, before anything else. */
  lemma {:induction false} TestEventsEnqueued(k: ControlRuns.Setting, steps: seq<ControlRuns.Step>)
    ensures var s := ControlRuns.Run(k, steps);
            && (!s.client.TestInProgress? ==> s.clientQueue == [])
            && (s.client.TestInProgress? && s.clientOpen ==> Control.TestEvents(k.config) <= s.clientQueue)
  {
    if steps != [] {
      TestEventsEnqueued(k, steps[..|steps| - 1]);
      EnqueuedNext(k, ControlRuns.Run(k, steps[..|steps| - 1]), steps[|steps| - 1]);
    }
  }

  lemma EnqueuedNext(k: ControlRuns.Setting, s: ControlRuns.System, step: ControlRuns.Step)
    requires !s.client.TestInProgress? ==> s.clientQueue == []
    requires s.client.TestInProgress? && s.clientOpen ==> Control.TestEvents(k.config) <= s.clientQueue
    ensures var s' := ControlRuns.Next(k, s, step);
            && (!s'.client.TestInProgress? ==> s'.clientQueue == [])
            && (s'.client.TestInProgress? && s'.clientOpen ==> Control.TestEvents(k.config) <= s'.clientQueue)
  {
    hide Control.TestEvents, Control.BuildRequest, Control.Supported, Control.ServerStep;
  }

  // ----- what the loop makes of it

  /** What the three events of a test become, in this order: the socket, the send timer, the cleanup. */
  lemma TestIsDelivered(k: ControlRuns.Setting, steps: seq<ControlRuns.Step>, socket: SourceId, token: Token,
                        period: Spec, timeout: Spec)
    requires ControlRuns.Run(k, steps).client.TestInProgress? && ControlRuns.Run(k, steps).clientOpen
    ensures Delivered(TestQueue(k, steps)[0], socket, token, period, timeout) == Register(socket)
    ensures Delivered(TestQueue(k, steps)[1], socket, token, period, timeout) == RegisterTimed(period, token)
    ensures Delivered(TestQueue(k, steps)[2], socket, token, period, timeout) == TimedCleanup(timeout)
  {
    TestQueueIs(k, steps);
    hide ControlRuns.Run, TestQueue;
  }

  /** Tokens keep their meaning in all that follows. */
  lemma {:induction false} HistoryGrows(setup: seq<SetupOp>, inputs: seq<Input>, rest: seq<Input>)
    ensures var w, w' := Run(setup, inputs), Run(setup, inputs + rest);
            && (forall t :: t in w.registered ==> t in w'.registered && w'.registered[t] == w.registered[t])
            && (forall t :: t in w.timers ==> t in w'.timers && w'.timers[t] == w.timers[t])
  {
    if rest == [] {
      assert inputs + rest == inputs;
    } else {
      var front, input := rest[..|rest| - 1], rest[|rest| - 1];
      HistoryGrows(setup, inputs, front);
      RunExtends(setup, inputs + front, input);
      InvHolds(setup, inputs + front);
      assert inputs + rest == inputs + front + [input];
      hide Run, Next, Inv;
      HistoryGrowsNext(Run(setup, inputs + front), input);
    }
  }

  lemma HistoryGrowsNext(w: World, input: Input)
    requires Inv(w)
    ensures var w' := Next(w, input);
            && (forall t :: t in w.registered ==> t in w'.registered && w'.registered[t] == w.registered[t])
            && (forall t :: t in w.timers ==> t in w'.timers && w'.timers[t] == w.timers[t])
  {
    if w.status.Running? && input.Ready? {
      ReadiedOnlyRemoves(w, input.token, input.callbackOk, input.pollOk);
      hide Readied;
    }
    hide MapsInv, FiringsInv, TimersInv, PhaseInv;
  }

  /** A loop that has met its second lifecycle event has returned Ok without a cleanup and token not
      found with one. */
  ghost predicate EndsByCleanup(w: World) {
    w.endings == 2 ==> w.status == Returned(if w.loop.cleanup.None? then Success(()) else Failure(TokenNotFound))
  }

  lemma {:induction false} SecondEventEnds(setup: seq<SetupOp>, inputs: seq<Input>)
    ensures EndsByCleanup(Run(setup, inputs))
  {
    if inputs == [] {
      PreparedHolds(setup);
      hide Inv;
    } else {
      SecondEventEnds(setup, inputs[..|inputs| - 1]);
      InvHolds(setup, inputs[..|inputs| - 1]);
      EndsByCleanupNext(Run(setup, inputs[..|inputs| - 1]), inputs[|inputs| - 1]);
      hide Inv, EndsByCleanup, Next;
    }
  }

  lemma EndsByCleanupNext(w: World, input: Input)
    requires Inv(w) && EndsByCleanup(w)
    ensures EndsByCleanup(Next(w, input))
  {
    hide TokensInv, TimersInv, FiringsInv;
    if w.status.Running? && input.Ready? && IsLifecycle(w.loop, input.token) && w.endings == 1 {
      assert w.loop.cleanupToken.Some? && w.loop.cleanupToken.value !in w.loop.timed by { CleanupHasNoTimer(w); }
    }
  }

  lemma CleanupHasNoTimer(w: World)
    requires Inv(w) && w.loop.cleanupToken.Some?
    ensures w.loop.cleanupToken.value !in w.loop.timed
  {
  }

  /** Once set, a cleanup stays set. */
  lemma CleanupStays(w: World, input: Input)
    requires w.loop.cleanup.Some?
    ensures Next(w, input).loop.cleanup.Some?
  {
  }

  lemma {:induction false} CleanupStaysInRun(setup: seq<SetupOp>, inputs: seq<Input>, rest: seq<Input>)
    requires Run(setup, inputs).loop.cleanup.Some?
    ensures Run(setup, inputs + rest).loop.cleanup.Some?
  {
    if rest == [] {
      assert inputs + rest == inputs;
    } else {
      var front, input := rest[..|rest| - 1], rest[|rest| - 1];
      CleanupStaysInRun(setup, inputs, front);
      RunExtends(setup, inputs + front, input);
      CleanupStays(Run(setup, inputs + front), input);
      assert inputs + rest == inputs + front + [input];
      hide Run, Next;
    }
  }

  /** The events a test enqueues, in a control run that brought the client to it. */
  function TestQueue(k: ControlRuns.Setting, steps: seq<ControlRuns.Step>): (events: seq<Control.WorkerEvent>)
    requires ControlRuns.Run(k, steps).client.TestInProgress? && ControlRuns.Run(k, steps).clientOpen
    ensures |events| == 3
  {
    TestEventsEnqueued(k, steps);
    ControlRuns.Run(k, steps).clientQueue[..3]
  }

  lemma TestQueueIs(k: ControlRuns.Setting, steps: seq<ControlRuns.Step>)
    requires ControlRuns.Run(k, steps).client.TestInProgress? && ControlRuns.Run(k, steps).clientOpen
    ensures TestQueue(k, steps) == Control.TestEvents(k.config)
  {
    TestEventsEnqueued(k, steps);
  }

  /** Once a cleanup was asked for, whether or not its timer could be set, no run ends with Ok any more,
      and the second lifecycle event ends the loop with token not found. */
  lemma NeverOkAfterCleanup(setup: seq<SetupOp>, inputs: seq<Input>, timeout: Spec, pollOk: bool, lockOk: bool,
                            rest: seq<Input>)
    requires Run(setup, inputs).status.Running?
    ensures var w := Run(setup, inputs + [Receive(TimedCleanup(timeout), pollOk, lockOk)] + rest);
            && w.status != Returned(Success(()))
            && (w.endings == 2 ==> w.status == Returned(Failure(TokenNotFound)))
  {
    var asked := inputs + [Receive(TimedCleanup(timeout), pollOk, lockOk)];
    RunExtends(setup, inputs, Receive(TimedCleanup(timeout), pollOk, lockOk));
    assert Run(setup, asked).loop.cleanup.Some?;
    hide Run;
    CleanupStaysInRun(setup, asked, rest);
    SecondEventEnds(setup, asked + rest);
    OkOnlyAfterOvertime(setup, asked + rest);
  }

  lemma SocketStands(setup: seq<SetupOp>, before: seq<Input>, between: seq<Input>, socket: SourceId)
    requires Run(setup, before).status.Running?
    ensures var t := Run(setup, before).loop.nextToken;
            var w := Run(setup, before + [Receive(Register(socket), true, true)] + between);
            t in w.registered && w.registered[t] == socket && (t in w.loop.sources ==> w.loop.sources[t] == socket)
  {
    var taken := before + [Receive(Register(socket), true, true)];
    RunExtends(setup, before, Receive(Register(socket), true, true));
    assert Run(setup, taken).registered[Run(setup, before).loop.nextToken] == socket;
    hide Run;
    HistoryGrows(setup, taken, between);
    InvHolds(setup, taken + between);
    hide TokensInv, FiringsInv, TimersInv, PhaseInv;
  }

  lemma TimerStands(setup: seq<SetupOp>, first: seq<Input>, t: Token, socket: SourceId, period: Spec,
                    lockOk: bool, later: seq<Input>)
    requires Run(setup, first).status.Running?
    requires t in Run(setup, first).loop.sources && Run(setup, first).loop.sources[t] == socket
    ensures var u := Run(setup, first).loop.nextToken;
            var timed := first + [Receive(RegisterTimed(period, t), true, lockOk)];
            var w, w' := Run(setup, timed), Run(setup, timed + later);
            && u in w.loop.timed && w.loop.timed[u] == t && t in w.loop.sources && w.loop.sources[t] == socket
            && u in w'.timers && w'.timers[u] == (t, socket)
  {
    RunExtends(setup, first, Receive(RegisterTimed(period, t), true, lockOk));
    hide Run;
    HistoryGrows(setup, first + [Receive(RegisterTimed(period, t), true, lockOk)], later);
  }

  /** Control protocol and event loop together: a control run has brought the client to its test, and the
      loop takes the first two events that enqueued, with any inputs in between. While the socket is still
      registered the send timer is put on it, and in all that follows it runs on nothing else. */
  lemma TestTimerIsOnSocket(k: ControlRuns.Setting, steps: seq<ControlRuns.Step>, setup: seq<SetupOp>,
                            before: seq<Input>, between: seq<Input>, later: seq<Input>,
                            socket: SourceId, period: Spec, timeout: Spec, lockOk: bool)
    requires ControlRuns.Run(k, steps).client.TestInProgress? && ControlRuns.Run(k, steps).clientOpen
    requires Run(setup, before).status.Running?
    requires var t := Run(setup, before).loop.nextToken;
             var first := before + [Receive(Delivered(TestQueue(k, steps)[0], socket, t, period, timeout), true, true)]
                          + between;
             Run(setup, first).status.Running? && t in Run(setup, first).loop.sources
    ensures var t := Run(setup, before).loop.nextToken;
            var first := before + [Receive(Delivered(TestQueue(k, steps)[0], socket, t, period, timeout), true, true)]
                         + between;
            var u := Run(setup, first).loop.nextToken;
            var timed := first + [Receive(Delivered(TestQueue(k, steps)[1], socket, t, period, timeout), true, lockOk)];
            && u in Run(setup, timed).loop.timed && Run(setup, timed).loop.timed[u] == t
            && t in Run(setup, timed).loop.sources && Run(setup, timed).loop.sources[t] == socket
            && u in Run(setup, timed + later).timers && Run(setup, timed + later).timers[u] == (t, socket)
  {
    TestQueueIs(k, steps);
    var t := Run(setup, before).loop.nextToken;
    hide Run, ControlRuns.Run, TestQueue;
    SocketStands(setup, before, between, socket);
    TimerStands(setup, before + [Receive(Register(socket), true, true)] + between, t, socket, period, lockOk, later);
  }

  /** And once the loop has taken the third, whatever it met before and meets then, it never returns Ok,
      and its second lifecycle event ends it with token not found. */
  lemma TestNeverEndsOk(k: ControlRuns.Setting, steps: seq<ControlRuns.Step>, setup: seq<SetupOp>,
                        inputs: seq<Input>, socket: SourceId, token: Token, period: Spec, timeout: Spec,
                        pollOk: bool, lockOk: bool, rest: seq<Input>)
    requires ControlRuns.Run(k, steps).client.TestInProgress? && ControlRuns.Run(k, steps).clientOpen
    requires Run(setup, inputs).status.Running?
    ensures var event := Delivered(TestQueue(k, steps)[2], socket, token, period, timeout);
            var w := Run(setup, inputs + [Receive(event, pollOk, lockOk)] + rest);
            && w.status != Returned(Success(()))
            && (w.endings == 2 ==> w.status == Returned(Failure(TokenNotFound)))
  {
    TestQueueIs(k, steps);
    hide Run, ControlRuns.Run, TestQueue;
    NeverOkAfterCleanup(setup, inputs, timeout, pollOk, lockOk, rest);
  }
}
