/** Sender sessions over every interleaving of ticks, replies and timestamp corrections. */
module SenderRuns {
  import opened MachineInts
  import opened Wrappers
  import opened Time
  import opened Packets
  import opened Sessions
  import opened Senders

  /** The sessions with what the kernel has done so far. Packet j of session i is number j * n + i in
      the order of sending, and `sent` holds the stamps taken at the send calls in that order. A send
      that fails leaves its record but no stamp of the kernel: `kernel` holds the stamps there are,
      `owners` the numbers of their packets, and the corrections have drained the first `drained`.
      `given` says which stamps, by their place in `kernel`, were put on the records of each session.
      `inTurn` records that every drained stamp came in turn, `atBoundaries` that every non-empty drain
      began after whole rounds of n stamps. */
  datatype World = World(
    sessions: seq<SessionState>,
    ticks: nat,
    sent: seq<DateTime>,
    kernel: seq<DateTime>,
    owners: seq<nat>,
    drained: nat,
    given: seq<seq<nat>>,
    inTurn: bool,
    atBoundaries: bool)

  datatype Step =
    | Tick(stamps: seq<DateTime>, kernelStamps: seq<Option<DateTime>>)
    | Reply(d: Datagram)
    | Correct(count: nat)

  function Start(rx: Address, targets: seq<Address>): World {
    World(seq(|targets|, i requires 0 <= i < |targets| => NewSession(rx, targets[i])), 0, [], [], [], 0,
          seq(|targets|, _ => []), true, true)
  }

  predicate CanTick(w: World, stamps: seq<DateTime>, kernelStamps: seq<Option<DateTime>>) {
    |stamps| == |kernelStamps| == |w.sessions|
  }

  function Stamps(ks: seq<Option<DateTime>>): seq<DateTime> {
    if ks == [] then []
    else
      var before, last := Stamps(ks[..|ks| - 1]), ks[|ks| - 1];
      if last.Some? then before + [last.value] else before
  }

  /** The numbers of the packets that got a stamp, where the first of ks belongs to packet `from`. */
  function Owners(ks: seq<Option<DateTime>>, from: nat): (r: seq<nat>)
    ensures |r| == |Stamps(ks)|
  {
    if ks == [] then []
    else
      var before, last := Owners(ks[..|ks| - 1], from), ks[|ks| - 1];
      if last.Some? then before + [from + |ks| - 1] else before
  }

  // ----- places in the order of sending

  lemma IndexBound(i: nat, j: nat, n: nat, rounds: nat)
    requires i < n
    ensures 0 <= j * n + i
    ensures j * n + i < rounds * n <==> j < rounds
  {
    MulMonotone(0, j, n);
    if j < rounds {
      MulMonotone(j + 1, rounds, n);
      assert (j + 1) * n == j * n + n;
    } else {
      MulMonotone(rounds, j, n);
    }
  }

  /** The number of packet j of session i. */
  function Index(i: nat, j: nat, n: nat): (q: nat)
    requires i < n
  {
    IndexBound(i, j, n, 0);
    j * n + i
  }

  /** Stamp m of a drain that began at d comes in turn: its place in the drain is that of its packet's
      session, and every earlier packet of that session has a stamp before it. */
  predicate InTurn(owners: seq<nat>, n: nat, d: nat, m: nat)
    requires d <= m < |owners| && n > 0
  {
    && owners[m] % n == (m - d) % n
    && forall j: nat :: j < owners[m] / n ==> Index(owners[m] % n, j, n) in owners[..m]
  }

  predicate DrainInTurn(w: World, count: nat) {
    w.sessions != [] ==>
      forall m: nat :: w.drained <= m < w.drained + count && m < |w.owners| ==>
        InTurn(w.owners, |w.sessions|, w.drained, m)
  }

  predicate BeginsInsideRound(w: World, count: nat) {
    count > 0 && w.sessions != [] && w.drained % |w.sessions| != 0
  }

  /** The stamps a drain gives to session i: those of its turn, as far as it has records for them. */
  function GivenBy(w: World, count: nat, i: nat): seq<nat>
    requires i < |w.sessions|
  {
    seq(Applied(w.sessions[i], CountNth(count, i, |w.sessions|)), k requires 0 <= k =>
      StepWithin(i, k, |w.sessions|);
      w.drained + (i + k * |w.sessions|))
  }

  /** A step whose guard fails changes nothing. */
  function Next(w: World, step: Step): World {
    match step
    case Tick(stamps, kernelStamps) =>
      if CanTick(w, stamps, kernelStamps) then
        w.(sessions := Ticked(w.sessions, stamps), ticks := w.ticks + 1,
           sent := w.sent + stamps,
           kernel := w.kernel + Stamps(kernelStamps),
           owners := w.owners + Owners(kernelStamps, |w.sent|))
      else w
    case Reply(d) =>
      w.(sessions := Replied(w.sessions, d))
    case Correct(count) =>
      if w.drained + count <= |w.kernel| then
        w.(sessions := Corrected(w.sessions, w.kernel[w.drained..w.drained + count]),
           drained := w.drained + count,
           given := seq(|w.sessions|, i requires 0 <= i < |w.sessions| =>
             (if i < |w.given| then w.given[i] else []) + GivenBy(w, count, i)),
           inTurn := w.inTurn && DrainInTurn(w, count),
           atBoundaries := w.atBoundaries && !BeginsInsideRound(w, count))
      else w
  }

  function Run(rx: Address, targets: seq<Address>, steps: seq<Step>): World {
    if steps == [] then Start(rx, targets)
    else Next(Run(rx, targets, steps[..|steps| - 1]), steps[|steps| - 1])
  }

  // ----- shape of every reachable state

  ghost predicate SentInOrder(s: SessionState, ticks: nat) {
    && |s.results| == ticks
    && s.seqNumber == ToU32(ticks)
    && s.lastUpdated <= ticks
    && forall j :: 0 <= j < ticks ==> s.results[j].senderSeq == ToU32(j) && AllOrNone(s.results[j])
  }

  ghost predicate Shape(w: World) {
    && |w.sent| == w.ticks * |w.sessions|
    && w.drained <= |w.kernel| == |w.owners|
    && forall i :: 0 <= i < |w.sessions| ==> SentInOrder(w.sessions[i], w.ticks)
  }

  lemma SentStaysInOrder(s: SessionState, ticks: nat, stamp: DateTime)
    requires SentInOrder(s, ticks)
    ensures SentInOrder(Sent(s, SendRecord(s, stamp)), ticks + 1)
  {
    WrapNext(ticks);
    hide ToU32, NtpFromDateTime, DateTimeFromNtp;
  }

  lemma ReceivedStaysInOrder(s: SessionState, ticks: nat, m: ReflectedMessage, t4: DateTime)
    requires SentInOrder(s, ticks)
    ensures SentInOrder(Received(s, ReflectedRecord(m), t4), ticks)
  {
  }

  lemma ShapeNext(w: World, step: Step)
    requires Shape(w)
    ensures Shape(Next(w, step))
  {
    hide SentInOrder, SendRecord, Sent, Received, Restamped, ReflectedRecord, EveryNth, Stamps, Owners, DrainInTurn;
    var w' := Next(w, step);
    match step
    case Tick(stamps, kernelStamps) =>
      if CanTick(w, stamps, kernelStamps) {
        forall i | 0 <= i < |w.sessions| ensures SentInOrder(w'.sessions[i], w.ticks + 1) {
          SentStaysInOrder(w.sessions[i], w.ticks, stamps[i]);
        }
        assert (w.ticks + 1) * |w.sessions| == w.ticks * |w.sessions| + |w.sessions|;
      }
    case Reply(d) =>
      forall i | 0 <= i < |w.sessions| ensures SentInOrder(w'.sessions[i], w.ticks) {
        if d.message.Some? {
          ReceivedStaysInOrder(w.sessions[i], w.ticks, d.message.value, d.received);
        }
      }
    case Correct(count) =>
      if w.drained + count <= |w.kernel| {
        var chunk := w.kernel[w.drained..w.drained + count];
        forall i | 0 <= i < |w.sessions| ensures SentInOrder(w'.sessions[i], w.ticks) {
          RestampedStaysInOrder(w.sessions[i], w.ticks, EveryNth(chunk, i, |w.sessions|));
        }
      }
  }

  lemma RestampedStaysInOrder(s: SessionState, ticks: nat, stamps: seq<DateTime>)
    requires SentInOrder(s, ticks)
    ensures SentInOrder(Restamped(s, stamps), ticks)
  {
  }

  /** After any run: record j of each session is packet j, the counter is the number of ticks,
      the cursor is within bounds, all sessions are equally long and no record is half answered. */
  lemma {:induction false} EveryRunHasShape(rx: Address, targets: seq<Address>, steps: seq<Step>)
    ensures Shape(Run(rx, targets, steps))
  {
    if steps != [] {
      EveryRunHasShape(rx, targets, steps[..|steps| - 1]);
      ShapeNext(Run(rx, targets, steps[..|steps| - 1]), steps[|steps| - 1]);
    }
  }

  /** Below 2^32 packets a reply rewrites the answer of exactly the record it names,
      and one for a number never sent changes nothing. */
  lemma ReplyHitsItsRecord(s: SessionState, ticks: nat, reply: PacketResults, t4: DateTime)
    requires SentInOrder(s, ticks) && ticks <= TWO_32
    ensures Received(s, reply, t4) ==
            if reply.senderSeq < ticks
            then s.(results := s.results[reply.senderSeq := Answer(s.results[reply.senderSeq], reply, t4)])
            else s
  {
  }

  /** In every run a reply changes one record at most: number `senderSequenceNumber` of the first
      session that targets its source, which takes the reply's number and stamps and keeps its t1. */
  lemma RepliesAreMatched(rx: Address, targets: seq<Address>, steps: seq<Step>, d: Datagram, i: nat, j: nat)
    requires var w := Run(rx, targets, steps); w.ticks <= TWO_32 && i < |w.sessions| && j < w.ticks
    ensures Shape(Run(rx, targets, steps)) && Shape(Next(Run(rx, targets, steps), Reply(d)))
    ensures var w := Run(rx, targets, steps);
            var (p, p') := (w.sessions[i].results[j], Next(w, Reply(d)).sessions[i].results[j]);
            if d.message.Some? && i == FindTarget(w.sessions, d.source) && j == d.message.value.senderSequenceNumber
            then p' == PacketResults(j, Some(d.message.value.reflectorSequenceNumber), p.t1,
                                     Some(DateTimeFromNtp(d.message.value.receiveTimestamp)),
                                     Some(DateTimeFromNtp(d.message.value.timestamp)), Some(d.received))
            else p' == p
  {
    var w := Run(rx, targets, steps);
    EveryRunHasShape(rx, targets, steps);
    ShapeNext(w, Reply(d));
    assert SentInOrder(w.sessions[i], w.ticks);
    WrapNext(j);
    hide Run, DateTimeFromNtp, ToU32, FirstMatch;
    if d.message.Some? {
      ReplyHitsItsRecord(w.sessions[i], w.ticks, ReflectedRecord(d.message.value), d.received);
    }
  }

  /** Session i of every run is the one between the sender's address and targets[i]. */
  lemma {:induction false} SessionsKeepTargets(rx: Address, targets: seq<Address>, steps: seq<Step>)
    ensures var w := Run(rx, targets, steps);
            && |w.sessions| == |targets|
            && forall i :: 0 <= i < |targets| ==> w.sessions[i].rx == rx && w.sessions[i].tx == targets[i]
  {
    if steps != [] {
      SessionsKeepTargets(rx, targets, steps[..|steps| - 1]);
      AddressesStay(Run(rx, targets, steps[..|steps| - 1]), steps[|steps| - 1]);
    }
  }

  lemma AddressesStay(w: World, step: Step)
    ensures |Next(w, step).sessions| == |w.sessions|
    ensures forall i :: 0 <= i < |w.sessions| ==>
              Next(w, step).sessions[i].rx == w.sessions[i].rx && Next(w, step).sessions[i].tx == w.sessions[i].tx
  {
    hide EveryNth, DrainInTurn, GivenBy;
  }

  // ----- the callbacks in a run

  lemma RunExtends(rx: Address, targets: seq<Address>, steps: seq<Step>, step: Step)
    ensures Run(rx, targets, steps + [step]) == Next(Run(rx, targets, steps), step)
  {
    hide Next;
    assert (steps + [step])[..|steps|] == steps;
  }

  lemma CorrectSessions(w: World, count: nat)
    requires w.drained + count <= |w.kernel|
    ensures Next(w, Correct(count)).sessions == Corrected(w.sessions, w.kernel[w.drained..w.drained + count])
  {
    hide Corrected, DrainInTurn, GivenBy;
  }

  /** A correction callback whose batches are the next stamps of the kernel, however they were cut, is one
      correction of a run. */
  lemma CorrectionIsStep(w: World, cuts: seq<nat>, batches: seq<seq<DateTime>>, count: nat)
    requires CutInto(w.kernel, cuts, batches) && cuts[0] == w.drained && cuts[|batches|] == w.drained + count
    ensures Corrected(w.sessions, Flatten(batches)) == Next(w, Correct(count)).sessions
  {
    hide Corrected, Flatten, Next;
    FlattenJoins(w.kernel, cuts, batches);
    CorrectSessions(w, count);
  }

  function Replies(ds: seq<Datagram>): (steps: seq<Step>)
    ensures |steps| == |ds|
  {
    seq(|ds|, k requires 0 <= k < |ds| => Reply(ds[k]))
  }

  /** A receive callback takes the datagrams of its queue one after the other, each as a reply of a run. */
  lemma {:induction false} QueueIsSteps(rx: Address, targets: seq<Address>, steps: seq<Step>, ds: seq<Datagram>)
    ensures RepliedAll(Run(rx, targets, steps).sessions, ds) == Run(rx, targets, steps + Replies(ds)).sessions
    ensures Run(rx, targets, steps + Replies(ds)).ticks == Run(rx, targets, steps).ticks
  {
    if ds == [] {
      assert steps + Replies(ds) == steps;
    } else {
      var front, last := ds[..|ds| - 1], ds[|ds| - 1];
      QueueIsSteps(rx, targets, steps, front);
      RunExtends(rx, targets, steps + Replies(front), Reply(last));
      assert steps + Replies(ds) == steps + Replies(front) + [Reply(last)];
      hide Run, Replied;
    }
  }

  /** The datagram names packet j of session i: it parses, session i is the first that targets its source,
      and j is the number it echoes. */
  predicate Names(targets: seq<Address>, d: Datagram, i: nat, j: nat)
    requires i < |targets|
  {
    && d.message.Some? && d.message.value.senderSequenceNumber == j
    && targets[i] == d.source && forall k :: 0 <= k < i ==> targets[k] != d.source
  }

  /** The record p with the answer of datagram d. */
  function AnsweredBy(p: PacketResults, d: Datagram): PacketResults
    requires d.message.Some?
  {
    p.(reflectorSeq := Some(d.message.value.reflectorSequenceNumber),
       t2 := Some(DateTimeFromNtp(d.message.value.receiveTimestamp)),
       t3 := Some(DateTimeFromNtp(d.message.value.timestamp)),
       t4 := Some(d.received))
  }

  lemma NamesIsMatch(rx: Address, targets: seq<Address>, steps: seq<Step>, d: Datagram, i: nat, j: nat)
    requires i < |targets| && j < Run(rx, targets, steps).ticks
    ensures |Run(rx, targets, steps).sessions| == |targets|
    ensures Names(targets, d, i, j) <==>
            d.message.Some? && i == FindTarget(Run(rx, targets, steps).sessions, d.source)
            && j == d.message.value.senderSequenceNumber
  {
    SessionsKeepTargets(rx, targets, steps);
    hide Run;
  }

  lemma OneReply(rx: Address, targets: seq<Address>, steps: seq<Step>, d: Datagram, i: nat, j: nat)
    requires i < |targets| && j < Run(rx, targets, steps).ticks <= TWO_32
    ensures var (w, w') := (Run(rx, targets, steps), Next(Run(rx, targets, steps), Reply(d)));
            && |w.sessions| == |w'.sessions| == |targets|
            && j < |w.sessions[i].results| == |w'.sessions[i].results|
            && w'.sessions[i].results[j] == if Names(targets, d, i, j) then AnsweredBy(w.sessions[i].results[j], d)
                                            else w.sessions[i].results[j]
  {
    var w := Run(rx, targets, steps);
    EveryRunHasShape(rx, targets, steps);
    NamesIsMatch(rx, targets, steps, d, i, j);
    RepliesAreMatched(rx, targets, steps, d, i, j);
    assert SentInOrder(w.sessions[i], w.ticks);
    assert w.sessions[i].results[j].senderSeq == j by { WrapNext(j); }
    hide Run, ToU32, FindTarget, Names, Replied;
  }

  ghost predicate LastNaming(targets: seq<Address>, ds: seq<Datagram>, i: nat, j: nat, k: int)
    requires i < |targets|
  {
    0 <= k < |ds| && Names(targets, ds[k], i, j) && forall l :: k < l < |ds| ==> !Names(targets, ds[l], i, j)
  }

  /** Record p' is p with the answer of the last datagram that names the packet, or p when none does. */
  ghost predicate LastAnswer(targets: seq<Address>, ds: seq<Datagram>, i: nat, j: nat,
                             p: PacketResults, p': PacketResults)
    requires i < |targets|
  {
    && (forall k :: LastNaming(targets, ds, i, j, k) ==> p' == AnsweredBy(p, ds[k]))
    && ((forall k :: 0 <= k < |ds| ==> !Names(targets, ds[k], i, j)) ==> p' == p)
  }

  lemma LastAnswerNext(targets: seq<Address>, ds: seq<Datagram>, d: Datagram, i: nat, j: nat,
                       p: PacketResults, p': PacketResults, p'': PacketResults)
    requires i < |targets| && LastAnswer(targets, ds, i, j, p, p')
    requires p'' == if Names(targets, d, i, j) then AnsweredBy(p', d) else p'
    requires p'.senderSeq == p.senderSeq && p'.t1 == p.t1
    ensures LastAnswer(targets, ds + [d], i, j, p, p'')
  {
    var all := ds + [d];
    assert forall k :: 0 <= k < |ds| ==> all[k] == ds[k];
    assert all[|ds|] == d;
    if !Names(targets, d, i, j) {
      hide Names;
      assert forall k :: LastNaming(targets, all, i, j, k) ==> LastNaming(targets, ds, i, j, k);
    } else {
      hide Names;
      assert forall k :: LastNaming(targets, all, i, j, k) ==> k == |ds|;
    }
  }

  /** After a receive callback each packet carries the answer of the last datagram of the queue that names
      it, and is as it was when none does. */
  lemma {:induction false} LastAnswerStands(rx: Address, targets: seq<Address>, steps: seq<Step>,
                                            ds: seq<Datagram>, i: nat, j: nat)
    requires i < |targets| && j < Run(rx, targets, steps).ticks <= TWO_32
    ensures var w := Run(rx, targets, steps);
            var after := RepliedAll(w.sessions, ds);
            && |w.sessions| == |after| == |targets| && j < |w.sessions[i].results| == |after[i].results|
            && LastAnswer(targets, ds, i, j, w.sessions[i].results[j], after[i].results[j])
            && after[i].results[j].senderSeq == w.sessions[i].results[j].senderSeq
            && after[i].results[j].t1 == w.sessions[i].results[j].t1
  {
    var w := Run(rx, targets, steps);
    if ds == [] {
      OneReply(rx, targets, steps, Datagram(None, rx, DateTime(0, 0)), i, j);
    } else {
      var front, last := ds[..|ds| - 1], ds[|ds| - 1];
      assert RepliedAll(w.sessions, ds) == Replied(RepliedAll(w.sessions, front), last);
      LastAnswerStands(rx, targets, steps, front, i, j);
      QueueIsSteps(rx, targets, steps, front);
      OneReply(rx, targets, steps + Replies(front), last, i, j);
      var before := RepliedAll(w.sessions, front);
      assert Next(Run(rx, targets, steps + Replies(front)), Reply(last)).sessions == Replied(before, last);
      assert ds == front + [last];
      hide Run, Names, Replied, RepliedAll, LastAnswer, Next;
      LastAnswerNext(targets, front, last, i, j, w.sessions[i].results[j], before[i].results[j],
                     Replied(before, last)[i].results[j]);
    }
  }
}
