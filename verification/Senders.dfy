/** The callbacks of twamp_light_sender/twamp_light.rs over the vector of sessions. */
module Senders {
  import opened Wrappers
  import opened Time
  import opened Packets
  import opened Sessions

  /** The datagram a tick sends for a session. */
  function TestMessage(s: SessionState, clock: Duration, padding: nat): SenderMessage {
    SenderMessage(s.seqNumber, NtpNow(clock), MIN_UNAUTH_PADDING + padding)
  }

  /** The record a tick stores for it, stamped with the time of the send call. */
  function SendRecord(s: SessionState, stamp: DateTime): PacketResults {
    SentRecord(SenderMessage(s.seqNumber, NtpFromDateTime(stamp), 0))
  }

  /** Two encoders stamp a packet: even when both read the same instant, the datagram and the record
      agree on it exactly when the encoder of the record does not carry it into the next second. */
  lemma DatagramAgreesIff(s: SessionState, t: DateTime, padding: nat)
    requires Normalized(t)
    ensures DateTimeFromNtp(TestMessage(s, ReadingOf(t), padding).timestamp) == t
    ensures SendRecord(s, t).t1 == DateTimeFromNtp(TestMessage(s, ReadingOf(t), padding).timestamp) <==> SurvivesNtp(t)
  {
    NowRoundTrip(t);
    NtpRoundTripIff(t);
    hide NtpNow, NtpFromDateTime, DateTimeFromNtp, SurvivesNtp;
  }

  function Ticked(ss: seq<SessionState>, stamps: seq<DateTime>): (ss': seq<SessionState>)
    requires |stamps| == |ss|
    ensures |ss'| == |ss|
  {
    seq(|ss|, i requires 0 <= i < |ss| => Sent(ss[i], SendRecord(ss[i], stamps[i])))
  }

  // ----- correction

  /** How many of the positions i, i + n, i + 2n, ... lie below m. */
  function CountNth(m: nat, i: nat, n: nat): nat
    requires i < n
  {
    if m <= i then 0 else (m - i + n - 1) / n
  }

  lemma DivBounds(x: nat, n: nat)
    requires 0 < n
    ensures (x / n) * n <= x < (x / n) * n + n
  {
  }

  lemma MulMonotone(a: nat, b: nat, n: nat)
    requires a <= b
    ensures a * n <= b * n
  {
  }

  lemma CountNthExact(m: nat, i: nat, n: nat, j: nat)
    requires i < n
    ensures j < CountNth(m, i, n) <==> i + j * n < m
  {
    MulMonotone(0, j, n);
    if m > i {
      var c := CountNth(m, i, n);
      DivBounds(m - i + n - 1, n);
      hide CountNth;
      if j < c {
        MulMonotone(j + 1, c, n);
        assert (j + 1) * n == j * n + n;
      } else {
        MulMonotone(c, j, n);
      }
    }
  }

  /** `skip(i).step_by(n)`. */
  function EveryNth(stamps: seq<DateTime>, i: nat, n: nat): (r: seq<DateTime>)
    requires i < n
    ensures |r| == CountNth(|stamps|, i, n)
  {
    seq(CountNth(|stamps|, i, n), j requires 0 <= j < CountNth(|stamps|, i, n) =>
      CountNthExact(|stamps|, i, n, j);
      StepWithin(i, j, n);
      stamps[i + j * n])
  }

  lemma StepWithin(i: nat, j: nat, n: nat)
    ensures 0 <= i + j * n
  {
  }

  lemma EveryNthAt(stamps: seq<DateTime>, i: nat, n: nat, j: nat)
    requires i < n && i + j * n < |stamps|
    ensures j < |EveryNth(stamps, i, n)|
    ensures 0 <= i + j * n && EveryNth(stamps, i, n)[j] == stamps[i + j * n]
  {
    CountNthExact(|stamps|, i, n, j);
    StepWithin(i, j, n);
  }

  function Corrected(ss: seq<SessionState>, stamps: seq<DateTime>): (ss': seq<SessionState>)
    ensures |ss'| == |ss|
  {
    seq(|ss|, i requires 0 <= i < |ss| => Restamped(ss[i], EveryNth(stamps, i, |ss|)))
  }

  // ----- replies

  /** A datagram taken from the socket: its parse result, its source and its receive stamp. */
  datatype Datagram = Datagram(message: Option<ReflectedMessage>, source: Address, received: DateTime)

  /** Index of the first session that targets the address, or the length when there is none. */
  function FindTarget(ss: seq<SessionState>, source: Address): (k: nat)
    ensures k <= |ss|
    ensures k < |ss| ==> ss[k].tx == source
    ensures forall i :: 0 <= i < k ==> ss[i].tx != source
  {
    if ss == [] || ss[0].tx == source then 0 else 1 + FindTarget(ss[1..], source)
  }

  function Replied(ss: seq<SessionState>, d: Datagram): (ss': seq<SessionState>)
    ensures |ss'| == |ss|
  {
    var k := FindTarget(ss, d.source);
    if d.message.None? || k == |ss| then ss
    else ss[k := Received(ss[k], ReflectedRecord(d.message.value), d.received)]
  }

  function RepliedAll(ss: seq<SessionState>, ds: seq<Datagram>): (ss': seq<SessionState>)
    ensures |ss'| == |ss|
  {
    if ds == [] then ss else Replied(RepliedAll(ss, ds[..|ds| - 1]), ds[|ds| - 1])
  }

  // ----- the callbacks

  method TxCallback(sessions: seq<Session>, clocks: seq<Duration>, stamps: seq<DateTime>, padding: nat)
    returns (sent: seq<SenderMessage>)
    requires NoAlias(sessions) && |clocks| == |stamps| == |sessions|
    modifies sessions
    ensures States(sessions) == Ticked(old(States(sessions)), stamps)
    ensures |sent| == |sessions|
    ensures forall i :: 0 <= i < |sent| ==> sent[i] == TestMessage(old(States(sessions))[i], clocks[i], padding)
    ensures forall i :: 0 <= i < |sent| ==> sent[i].sequenceNumber == old(States(sessions))[i].seqNumber
                                            && sent[i].paddingLength == 27 + padding
  {
    ghost var before := States(sessions);
    sent := [];
    var timestamps: seq<DateTime> := [];
    for i := 0 to |sessions|
      invariant |sent| == i && timestamps == stamps[..i]
      invariant States(sessions) == before
      invariant forall j :: 0 <= j < i ==> sent[j] == TestMessage(before[j], clocks[j], padding)
    {
      assert sessions[i].State() == before[i];
      sent := sent + [TestMessage(sessions[i].State(), clocks[i], padding)];
      timestamps := timestamps + [stamps[i]];
    }
    for i := 0 to |sessions|
      invariant forall j :: i <= j < |sessions| ==> sessions[j].State() == before[j]
      invariant forall j :: 0 <= j < i ==> sessions[j].State() == Sent(before[j], SendRecord(before[j], stamps[j]))
    {
      var message := SenderMessage(sessions[i].seqNumber, NtpFromDateTime(timestamps[i]), 0);
      sessions[i].AddToSent(SentRecord(message));
    }
  }

  function Flatten(batches: seq<seq<DateTime>>): seq<DateTime> {
    if batches == [] then [] else Flatten(batches[..|batches| - 1]) + batches[|batches| - 1]
  }

  /** The batches are consecutive pieces of the kernel's stamps, cut at cuts[0], cuts[1], ... */
  ghost predicate CutInto(kernel: seq<DateTime>, cuts: seq<nat>, batches: seq<seq<DateTime>>) {
    && |cuts| == |batches| + 1
    && (forall b :: 0 <= b < |cuts| ==> cuts[b] <= |kernel|)
    && forall b :: 0 <= b < |batches| ==> cuts[b] <= cuts[b + 1] && batches[b] == kernel[cuts[b]..cuts[b + 1]]
  }

  /** However a drain was cut into batches, they are joined in the order of the stamps. */
  lemma {:induction false} FlattenJoins(kernel: seq<DateTime>, cuts: seq<nat>, batches: seq<seq<DateTime>>)
    requires CutInto(kernel, cuts, batches)
    ensures cuts[0] <= cuts[|batches|] <= |kernel|
    ensures Flatten(batches) == kernel[cuts[0]..cuts[|batches|]]
  {
    if batches != [] {
      var m := |batches| - 1;
      assert batches[m] == kernel[cuts[m]..cuts[m + 1]];
      FlattenJoins(kernel, cuts[..m + 1], batches[..m]);
    }
  }

  method TxCorrectCallback(sessions: seq<Session>, batches: seq<seq<DateTime>>)
    requires NoAlias(sessions)
    modifies sessions
    ensures States(sessions) == Corrected(old(States(sessions)), Flatten(batches))
    ensures forall kernel, cuts :: CutInto(kernel, cuts, batches) ==>
              cuts[0] <= cuts[|batches|] <= |kernel|
              && States(sessions) == Corrected(old(States(sessions)), kernel[cuts[0]..cuts[|batches|]])
  {
    ghost var before := States(sessions);
    forall kernel, cuts | CutInto(kernel, cuts, batches)
      ensures cuts[0] <= cuts[|batches|] <= |kernel| && Flatten(batches) == kernel[cuts[0]..cuts[|batches|]]
    {
      FlattenJoins(kernel, cuts, batches);
    }
    var timestamps: seq<DateTime> := [];
    for k := 0 to |batches|
      invariant timestamps == Flatten(batches[..k])
      invariant States(sessions) == before
    {
      assert batches[..k + 1][..k] == batches[..k];
      timestamps := timestamps + batches[k];
    }
    assert batches[..|batches|] == batches;
    for i := 0 to |sessions|
      invariant forall j :: i <= j < |sessions| ==> sessions[j].State() == before[j]
      invariant forall j :: 0 <= j < i ==>
        sessions[j].State() == Restamped(before[j], EveryNth(timestamps, j, |sessions|))
    {
      sessions[i].UpdateTxTimestamps(EveryNth(timestamps, i, |sessions|));
    }
  }

  /** One turn of the receive loop: the first session that targets the source takes the reply. */
  method TakeReply(sessions: seq<Session>, d: Datagram)
    requires NoAlias(sessions)
    modifies sessions
    ensures States(sessions) == Replied(old(States(sessions)), d)
  {
    ghost var before := States(sessions);
    assert forall i :: 0 <= i < |sessions| ==> before[i].tx == sessions[i].txSocketAddress;
    if d.message.Some? {
      var k := 0;
      while k < |sessions| && sessions[k].txSocketAddress != d.source
        invariant 0 <= k <= |sessions|
        invariant forall i :: 0 <= i < k ==> before[i].tx != d.source
      {
        k := k + 1;
      }
      assert k == FindTarget(before, d.source);
      if k < |sessions| {
        sessions[k].AddToReceived(ReflectedRecord(d.message.value), d.received);
      }
    }
  }

  method RxCallback(sessions: seq<Session>, datagrams: seq<Datagram>)
    requires NoAlias(sessions)
    modifies sessions
    ensures States(sessions) == RepliedAll(old(States(sessions)), datagrams)
  {
    ghost var before := States(sessions);
    for n := 0 to |datagrams|
      invariant States(sessions) == RepliedAll(before, datagrams[..n])
    {
      TakeReply(sessions, datagrams[n]);
      assert datagrams[..n + 1][..n] == datagrams[..n];
    }
    assert datagrams[..|datagrams|] == datagrams;
  }
}
