/** The reflector's socket, timer and table in its event loop: how long it serves. */
module ReflectorService {
  import opened MachineInts
  import opened Wrappers
  import opened Time
  import opened Packets
  import opened Sessions
  import opened Reflectors
  import opened ReflectorRuns
  import EventLoop

  /** A reflector at address rx: its table, its loop, and whether the loop still runs. */
  datatype Service = Service(rx: Address, table: seq<SessionState>, loop: EventLoop.LoopState, status: EventLoop.Status)

  const RX_TOKEN: EventLoop.Token := 0
  const SWEEP_TOKEN: EventLoop.Token := 1

  /** What the loop meets: a datagram, parsed or not; a readable socket whose receive fails, as it does
      for an error a peer has caused; the sweep timer with a clock reading for each session, where `pollOk`
      tells whether the timer could be set again; or a poll that fails. */
  datatype Event =
    | Datagram(message: Option<SenderMessage>, source: Address, received: DateTime, now: DateTime)
    | ReceiveFailed
    | Sweep(clock: nat -> DateTime, pollOk: bool)
    | PollFails

  function Opened(rx: Address, socket: EventLoop.SourceId): Service {
    Service(rx, [], EventLoop.WithTimer(EventLoop.WithSource(EventLoop.NEW_LOOP, socket), RX_TOKEN), EventLoop.Running)
  }

  /** The socket is registered and the loop runs. */
  predicate Serving(s: Service) {
    s.status.Running? && RX_TOKEN in s.loop.sources
  }

  function Dispatched(s: Service, token: EventLoop.Token, callbackOk: bool, pollOk: bool): Service {
    var (loop, status) := EventLoop.Dispatched(s.loop, token, callbackOk, pollOk);
    s.(loop := loop, status := status)
  }

  function Swept(table: seq<SessionState>, clock: nat -> DateTime, refWait: u64): seq<SessionState> {
    Retained(table, seq(|table|, clock), refWait)
  }

  /** A socket no longer registered meets no datagram. An error of the callback unregisters it, a panic ends
      the thread of the loop. */
  function Next(s: Service, event: Event, refWait: u64): Service {
    if !s.status.Running? then s
    else
      match event
      case Datagram(message, source, received, now) =>
        if RX_TOKEN !in s.loop.sources then s
        else if message.None? then Dispatched(s, RX_TOKEN, false, true)
        else if message.value.paddingLength < MIN_UNAUTH_PADDING then s.(status := EventLoop.Panicked)
        else
          var a := Arrival(source, message.value, received, now);
          Dispatched(s, RX_TOKEN, true, true).(table := Arrived(s.table, s.rx, a))
      case ReceiveFailed =>
        if RX_TOKEN in s.loop.sources then Dispatched(s, RX_TOKEN, false, true) else s
      case PollFails =>
        var (loop, status) := EventLoop.Step(s.loop, EventLoop.PollError);
        s.(loop := loop, status := status)
      case Sweep(clock, pollOk) =>
        Dispatched(s, SWEEP_TOKEN, true, pollOk).(
          table := if RX_TOKEN in s.loop.sources then Swept(s.table, clock, refWait) else s.table)
  }

  function Run(rx: Address, socket: EventLoop.SourceId, refWait: u64, events: seq<Event>): Service {
    if |events| == 0 then Opened(rx, socket)
    else Next(Run(rx, socket, refWait, events[..|events| - 1]), events[|events| - 1], refWait)
  }

  predicate Benign(e: Event) {
    match e
    case Datagram(message, _, _, _) => message.Some? && MIN_UNAUTH_PADDING <= message.value.paddingLength
    case ReceiveFailed => false
    case Sweep(_, pollOk) => pollOk
    case PollFails => false
  }

  ghost predicate ServiceInv(s: Service, socket: EventLoop.SourceId) {
    && TableInv(s.table, s.rx)
    && s.loop.timed == map[SWEEP_TOKEN := RX_TOKEN]
    && (s.loop.sources == map[RX_TOKEN := socket] || s.loop.sources == map[])
  }

  lemma NextKeeps(s: Service, event: Event, refWait: u64, socket: EventLoop.SourceId)
    requires ServiceInv(s, socket)
    ensures ServiceInv(Next(s, event, refWait), socket) && Next(s, event, refWait).rx == s.rx
    ensures Serving(Next(s, event, refWait)) <==> Serving(s) && Benign(event)
    ensures !Serving(s) ==> Next(s, event, refWait).table == s.table
  {
    hide TableInv, Arrived, Retained;
    if Serving(s) {
      match event
      case Datagram(message, source, received, now) =>
        if Benign(event) {
          ArrivalKeepsInv(s.table, s.rx, Arrival(source, message.value, received, now));
        }
      case Sweep(clock, _) => RetainedKeepsInv(s.table, s.rx, seq(|s.table|, clock), refWait);
      case ReceiveFailed =>
      case PollFails =>
    }
  }

  ghost predicate AllBenign(events: seq<Event>) {
    forall i :: 0 <= i < |events| ==> Benign(events[i])
  }

  lemma AllBenignSplit(events: seq<Event>)
    requires |events| > 0
    ensures AllBenign(events) <==> AllBenign(events[..|events| - 1]) && Benign(events[|events| - 1])
  {
    var front := events[..|events| - 1];
    assert forall i :: 0 <= i < |front| ==> front[i] == events[i];
    hide Benign;
  }

  /** The reflector serves exactly as long as every receive and every poll so far succeeded, every datagram
      parsed and carried the padding it drops, and the sweep timer could be set again. A single one of
      these that did not ends it for all senders. */
  lemma {:induction false} ServesIff(rx: Address, socket: EventLoop.SourceId, refWait: u64, events: seq<Event>)
    ensures var s := Run(rx, socket, refWait, events);
            && ServiceInv(s, socket) && s.rx == rx
            && (Serving(s) <==> AllBenign(events))
  {
    if |events| > 0 {
      var front := events[..|events| - 1];
      var before := Run(rx, socket, refWait, front);
      assert Run(rx, socket, refWait, events) == Next(before, events[|events| - 1], refWait);
      ServesIff(rx, socket, refWait, front);
      hide Run, ServiceInv, Serving, Next, AllBenign, Benign;
      NextKeeps(before, events[|events| - 1], refWait, socket);
      AllBenignSplit(events);
    }
  }

  /** Once it has stopped serving, no sender gets a number any more. */
  lemma {:induction false} StoppedForGood(rx: Address, socket: EventLoop.SourceId, refWait: u64,
                                          events: seq<Event>, i: nat)
    requires i <= |events| && !Serving(Run(rx, socket, refWait, events[..i]))
    ensures !Serving(Run(rx, socket, refWait, events))
    ensures Run(rx, socket, refWait, events).table == Run(rx, socket, refWait, events[..i]).table
    decreases |events|
  {
    if i == |events| {
      assert events[..i] == events;
    } else {
      var front := events[..|events| - 1];
      assert front[..i] == events[..i];
      StoppedForGood(rx, socket, refWait, front, i);
      ServesIff(rx, socket, refWait, front);
      NextKeeps(Run(rx, socket, refWait, front), events[|events| - 1], refWait, socket);
      hide ServiceInv, Serving, Next;
    }
  }

  /** What the events served do to the table. */
  function TableSteps(rx: Address, socket: EventLoop.SourceId, refWait: u64, events: seq<Event>): seq<TableStep> {
    if |events| == 0 then []
    else
      var front := events[..|events| - 1];
      TableSteps(rx, socket, refWait, front) +
      match events[|events| - 1]
      case Datagram(message, source, received, now) =>
        if message.None? then [] else [Arrive(Arrival(source, message.value, received, now))]
      case Sweep(clock, _) => [Evict(seq(|Run(rx, socket, refWait, front).table|, clock), refWait)]
      case _ => []
  }

  lemma TableNext(s: Service, event: Event, refWait: u64)
    requires Serving(s) && Benign(event) && s.loop.timed == map[SWEEP_TOKEN := RX_TOKEN]
    requires RX_TOKEN in s.loop.sources && SWEEP_TOKEN !in s.loop.sources
    ensures Next(s, event, refWait).table ==
            match event
            case Datagram(message, source, received, now) =>
              ReflectorRuns.Next(s.table, s.rx, Arrive(Arrival(source, message.value, received, now)))
            case Sweep(clock, _) => ReflectorRuns.Next(s.table, s.rx, Evict(seq(|s.table|, clock), refWait))
            case _ => s.table
  {
    hide Arrived, Retained;
  }

  lemma TableRunExtends(steps: seq<TableStep>, step: TableStep, rx: Address)
    ensures ReflectorRuns.Run(steps + [step], rx) == ReflectorRuns.Next(ReflectorRuns.Run(steps, rx), rx, step)
  {
    hide ReflectorRuns.Next;
    assert (steps + [step])[..|steps|] == steps;
  }

  /** While the reflector serves, its table is that of the arrivals and evictions it has served, in order. */
  lemma {:induction false} TableIsServed(rx: Address, socket: EventLoop.SourceId, refWait: u64, events: seq<Event>)
    requires AllBenign(events)
    ensures Run(rx, socket, refWait, events).table
            == ReflectorRuns.Run(TableSteps(rx, socket, refWait, events), rx)
  {
    if |events| > 0 {
      var front, last := events[..|events| - 1], events[|events| - 1];
      var before, steps := Run(rx, socket, refWait, front), TableSteps(rx, socket, refWait, front);
      AllBenignSplit(events);
      TableIsServed(rx, socket, refWait, front);
      ServesIff(rx, socket, refWait, front);
      assert Run(rx, socket, refWait, events) == Next(before, last, refWait);
      TableNext(before, last, refWait);
      hide Run, Next, ReflectorRuns.Run, ReflectorRuns.Next, AllBenign;
      match last
      case Datagram(message, source, received, now) =>
        TableRunExtends(steps, Arrive(Arrival(source, message.value, received, now)), rx);
      case Sweep(clock, _) => TableRunExtends(steps, Evict(seq(|before.table|, clock), refWait), rx);
      case _ =>
    }
  }
}
