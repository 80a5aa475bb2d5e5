/** Runs in which the loss counts are not the true ones. */
module LossExamples {
  import opened MachineInts
  import opened Wrappers
  import opened Time
  import opened Packets
  import opened Sorting
  import opened Loss
  import opened Sessions
  import opened Reflectors
  import ReflectorRuns
  import opened Network
  import opened LossAttribution

  /** What the sender's clock reads does not matter here. */
  const CLOCK: Duration := Duration(0, 0)

  lemma SendThenLose(n: Net, send: Step, lose: Step)
    requires send.Send? && lose == LoseOut(0)
    requires n.outQueue == [] && n.fates == [] && n.sender.seqNumber == 0
    ensures var n' := Next(Next(n, send), lose);
            n'.fates == [LostOut] && n'.restart == n.restart
  {
    hide NtpFromDateTime, DateTimeFromNtp;
  }

  lemma RunOfTwo(rx: Address, tx: Address, a: Step, b: Step)
    ensures Run(rx, tx, [a, b]) == Next(Next(Start(rx, tx), a), b)
  {
    hide Next, Start;
    assert [a, b][..1] == [a] && [a][..0] == [];
    assert Run(rx, tx, [a]) == Next(Run(rx, tx, []), a);
  }

  lemma LossesOfLostPacket(n: Net, losses: (u32, u32, u32))
    requires n.fates == [LostOut] && n.restart == 0 && Attributed(n, losses)
    ensures losses == (0, 1, 1)
  {
    CountZeroIff([LostOut], 0, 1, Home);
    hide Count;
  }

  /** A packet lost before any was answered is no forward loss to the analysis: one packet sent and
      lost on the way out is reported as lost backwards. */
  lemma LeadingLossIsMissed(rx: Address, tx: Address, t: DateTime, sorted: seq<PacketResults>)
    requires IsSortOf(sorted, Run(rx, tx, [Send(CLOCK, t, 0), LoseOut(0)]).sender.results, SenderSeq)
    ensures Run(rx, tx, [Send(CLOCK, t, 0), LoseOut(0)]).fates == [LostOut]
    ensures LossesOf(sorted) == (0, 1, 1)
  {
    var n := Run(rx, tx, [Send(CLOCK, t, 0), LoseOut(0)]);
    RunOfTwo(rx, tx, Send(CLOCK, t, 0), LoseOut(0));
    SendThenLose(Start(rx, tx), Send(CLOCK, t, 0), LoseOut(0));
    assert n.fates == [LostOut] && n.restart == 0;
    hide Run, Next, LossesOf, IsSortOf, Attributed;
    LossAttributed(rx, tx, [Send(CLOCK, t, 0), LoseOut(0)], sorted);
    LossesOfLostPacket(n, LossesOf(sorted));
  }

  // ----- a restart of the numbering

  lemma RunExtends(rx: Address, tx: Address, steps: seq<Step>, step: Step)
    ensures Run(rx, tx, steps + [step]) == Next(Run(rx, tx, steps), step)
  {
  }

  /** A packet that goes out and comes back while nothing else is on its way. */
  function Trip(t: DateTime): seq<Step> {
    [Send(CLOCK, t, 0), Arrive(t, t), Deliver(0, t)]
  }

  function Tripped(n: Net, t: DateTime): Net {
    Next(Next(Next(n, Send(CLOCK, t, 0)), Arrive(t, t)), Deliver(0, t))
  }

  lemma TripRuns(rx: Address, tx: Address, steps: seq<Step>, t: DateTime)
    ensures Run(rx, tx, steps + Trip(t)) == Tripped(Run(rx, tx, steps), t)
  {
    hide Run, Next;
    var s1 := steps + [Send(CLOCK, t, 0)];
    var s2 := s1 + [Arrive(t, t)];
    RunExtends(rx, tx, steps, Send(CLOCK, t, 0));
    RunExtends(rx, tx, s1, Arrive(t, t));
    RunExtends(rx, tx, s2, Deliver(0, t));
    assert steps + Trip(t) == s2 + [Deliver(0, t)];
  }

  ghost predicate Idle(n: Net, fates: seq<Fate>, bases: seq<nat>, restart: nat) {
    && Inv(n) && n.outQueue == [] && n.replies == []
    && n.fates == fates && n.bases == bases && n.restart == restart
  }

  lemma TripComesHome(rx: Address, tx: Address, steps: seq<Step>, t: DateTime,
                      fates: seq<Fate>, bases: seq<nat>, restart: nat)
    requires Idle(Run(rx, tx, steps), fates, bases, restart) && |fates| < 10
    ensures Idle(Run(rx, tx, steps + Trip(t)), fates + [Home], bases + [restart], restart)
  {
    TripRuns(rx, tx, steps, t);
    hide Run;
    OneTrip(Run(rx, tx, steps), t);
    InvHolds(rx, tx, steps + Trip(t));
    hide Inv, Tripped;
  }

  lemma SendAlone(n: Net, t: DateTime)
    requires Inv(n) && n.outQueue == [] && |n.fates| < 10
    ensures var n' := Next(n, Send(CLOCK, t, 0));
            && |n'.outQueue| == 1 && n'.outQueue[0].sequenceNumber == |n.fates|
            && n'.outQueue[0].paddingLength == MIN_UNAUTH_PADDING
            && n' == n.(sender := n'.sender, outQueue := n'.outQueue,
                        fates := n.fates + [Outbound], bases := n.bases + [0], visits := n'.visits)
            && |n'.visits| == |n.visits| + 1
  {
    WrapNext(|n.fates|);
    hide ToU32, QueueInv, ReplyInv, BasesInv, Counter, NtpFromDateTime, DateTimeFromNtp;
  }

  lemma ArriveAlone(n: Net, t: DateTime)
    requires |n.outQueue| == 1 && n.replies == [] && n.outQueue[0].paddingLength == MIN_UNAUTH_PADDING
    requires n.outQueue[0].sequenceNumber < |n.fates| == |n.bases| == |n.visits|
    ensures var n' := Next(n, Arrive(t, t));
            var q := n.outQueue[0].sequenceNumber;
            && |n'.replies| == 1 && n'.replies[0].senderSequenceNumber == q
            && n' == n.(outQueue := [], table := n'.table, replies := n'.replies,
                        fates := n.fates[q := Inbound], bases := n.bases[q := n.restart],
                        visits := n'.visits)
            && |n'.visits| == |n.visits|
  {
    hide Arrived, Counter, NtpFromDateTime;
  }

  lemma DeliverAlone(n: Net, t: DateTime)
    requires |n.replies| == 1 && n.replies[0].senderSequenceNumber < |n.fates| == |n.visits|
    ensures var n' := Next(n, Deliver(0, t));
            var q := n.replies[0].senderSequenceNumber;
            n' == n.(replies := [], sender := n'.sender, fates := n.fates[q := Home], visits := n'.visits)
  {
    hide Received;
  }

  lemma OneTrip(n: Net, t: DateTime)
    requires Inv(n) && n.outQueue == [] && n.replies == [] && |n.fates| < 10
    ensures var n' := Tripped(n, t);
            && n'.outQueue == [] && n'.replies == []
            && n'.fates == n.fates + [Home] && n'.bases == n.bases + [n.restart] && n'.restart == n.restart
  {
    assert |n.fates| == |n.bases| == |n.visits|;
    hide Next, Inv;
    var n1 := Next(n, Send(CLOCK, t, 0));
    SendAlone(n, t);
    var n2 := Next(n1, Arrive(t, t));
    ArriveAlone(n1, t);
    DeliverAlone(n2, t);
  }

  /** Some clock readings make any session stale that has packets. */
  lemma EvictsWhenLate(n: Net) returns (nows: seq<DateTime>)
    requires Inv(n) && Counter(n.table, n.sender.tx, n.sender.rx) > 0
    ensures |nows| == |n.table| && EvictsOwn(n, nows, 0)
  {
    var k := Find(n.table, n.sender.tx, n.sender.rx);
    var s := n.table[k];
    assert ReflectorRuns.NumberedRecord(s.results[|s.results| - 1], |s.results| - 1);
    var last := s.results[|s.results| - 1].t2.value;
    var now := if ToNanos(last) == 0 then DateTime(1, 0) else DateTime(0, 0);
    nows := seq(|n.table|, _ => now);
    ReflectorRuns.StaleIffFar(s, now, 0);
    hide Inv, IsStale;
  }

  lemma EvictRestarts(rx: Address, tx: Address, steps: seq<Step>, nows: seq<DateTime>)
    requires Inv(Run(rx, tx, steps)) && |nows| == |Run(rx, tx, steps).table|
    requires EvictsOwn(Run(rx, tx, steps), nows, 0) && |Run(rx, tx, steps).fates| < 10
    ensures var n := Run(rx, tx, steps);
            var n' := Run(rx, tx, steps + [Evict(nows, 0)]);
            Inv(n') && n' == n.(table := n'.table, restart := Arrivals(n.fates, |n.fates|))
  {
    hide Run, Next, Inv, EvictsOwn, Arrivals;
    RunExtends(rx, tx, steps, Evict(nows, 0));
    EvictChanges(Run(rx, tx, steps), nows);
  }

  lemma EvictChanges(n: Net, nows: seq<DateTime>)
    requires Inv(n) && |nows| == |n.table| && EvictsOwn(n, nows, 0)
    ensures var n' := Next(n, Evict(nows, 0));
            Inv(n') && n' == n.(table := n'.table, restart := Arrivals(n.fates, |n.fates|))
  {
    hide Retained, EvictsOwn, Arrivals, Inv;
    EvictKeeps(n, Evict(nows, 0));
  }

  lemma Untouched(rx: Address, tx: Address)
    ensures Idle(Run(rx, tx, []), [], [], 0)
  {
    InvHolds(rx, tx, []);
    hide Inv;
  }

  lemma TwoTrips(rx: Address, tx: Address, t: DateTime)
    ensures Idle(Run(rx, tx, Trip(t) + Trip(t)), [Home, Home], [0, 0], 0)
  {
    hide Run, Idle, Trip;
    Untouched(rx, tx);
    var none: seq<Step>, noFates: seq<Fate>, noBases: seq<nat> := [], [], [];
    TripComesHome(rx, tx, none, t, noFates, noBases, 0);
    assert none + Trip(t) == Trip(t) && noFates + [Home] == [Home] && noBases + [0] == [0];
    TripComesHome(rx, tx, Trip(t), t, [Home], [0], 0);
    assert [Home] + [Home] == [Home, Home] && [0] + [0] == [0, 0];
  }

  lemma TripsThenEvict(rx: Address, tx: Address, t: DateTime) returns (steps: seq<Step>)
    ensures Idle(Run(rx, tx, steps), [Home, Home], [0, 0], 2)
  {
    var two := Trip(t) + Trip(t);
    TwoTrips(rx, tx, t);
    hide Run;
    var n := Run(rx, tx, two);
    assert Arrivals([Home, Home], 2) == 2;
    assert Counter(n.table, n.sender.tx, n.sender.rx) == 2 by { WrapNext(2); }
    hide Inv;
    var nows := EvictsWhenLate(n);
    EvictRestarts(rx, tx, two, nows);
    steps := two + [Evict(nows, 0)];
  }

  lemma LossesAfterRestart(rx: Address, tx: Address, steps: seq<Step>, sorted: seq<PacketResults>)
    requires Idle(Run(rx, tx, steps), [Home, Home, Home], [0, 0, 2], 2)
    requires IsSortOf(sorted, Run(rx, tx, steps).sender.results, SenderSeq)
    ensures LossesOf(sorted) == (2, TWO_32 - 2, 0)
  {
    var f := [Home, Home, Home];
    hide Run, Inv, LossesOf, IsSortOf;
    LossAttributed(rx, tx, steps, sorted);
    assert FirstHome(f, 1) && LastHome(f, 2);
    assert Count(f, 1, 2, LostOut) == 0 && Count(f, 0, 3, Home) == 3;
  }

  /** Three packets go out and come home, and the reflector forgets the session before the third: the
      analysis reports two lost on the way out and 2^32 - 2 on the way back, though none was lost. */
  lemma RestartOvercounts(rx: Address, tx: Address, t: DateTime) returns (steps: seq<Step>)
    ensures Run(rx, tx, steps).fates == [Home, Home, Home]
    ensures forall sorted :: IsSortOf(sorted, Run(rx, tx, steps).sender.results, SenderSeq) ==>
              LossesOf(sorted) == (2, TWO_32 - 2, 0)
  {
    var evicted := TripsThenEvict(rx, tx, t);
    steps := evicted + Trip(t);
    TripComesHome(rx, tx, evicted, t, [Home, Home], [0, 0], 2);
    assert Idle(Run(rx, tx, steps), [Home, Home, Home], [0, 0, 2], 2);
    hide Run, Inv, LossesOf, IsSortOf, Trip;
    forall sorted | IsSortOf(sorted, Run(rx, tx, steps).sender.results, SenderSeq)
      ensures LossesOf(sorted) == (2, TWO_32 - 2, 0)
    {
      LossesAfterRestart(rx, tx, steps, sorted);
    }
  }
}
