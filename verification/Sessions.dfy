/** twamp_common/session.rs: one test session, on the sender or on the reflector. */
module Sessions {
  import opened MachineInts
  import opened Wrappers
  import opened Time
  import opened Packets
  import opened Sorting
  import opened Loss

  /** The value a session object holds. */
  datatype SessionState = SessionState(
    rx: Address,
    tx: Address,
    seqNumber: u32,
    results: seq<PacketResults>,
    lastUpdated: nat)

  function NewSession(rx: Address, tx: Address): SessionState {
    SessionState(rx, tx, 0, [], 0)
  }

  function Sent(s: SessionState, record: PacketResults): SessionState {
    s.(results := s.results + [record], seqNumber := ToU32(s.seqNumber + 1))
  }

  /** Index of the first record with sender sequence q, or the length when there is none. */
  function FirstMatch(results: seq<PacketResults>, q: u32): (k: nat)
    ensures k <= |results|
    ensures k < |results| ==> results[k].senderSeq == q
    ensures forall i :: 0 <= i < k ==> results[i].senderSeq != q
  {
    if results == [] || results[0].senderSeq == q then 0 else 1 + FirstMatch(results[1..], q)
  }

  function Answer(record: PacketResults, reply: PacketResults, t4: DateTime): PacketResults {
    record.(reflectorSeq := reply.reflectorSeq, t2 := reply.t2, t3 := reply.t3, t4 := Some(t4))
  }

  function Received(s: SessionState, reply: PacketResults, t4: DateTime): SessionState {
    var k := FirstMatch(s.results, reply.senderSeq);
    if k == |s.results| then s
    else s.(results := s.results[k := Answer(s.results[k], reply, t4)])
  }

  /** How many of `count` stamps find a record at or above the cursor. */
  function Applied(s: SessionState, count: nat): nat {
    if |s.results| <= s.lastUpdated then 0 else Min(count, |s.results| - s.lastUpdated)
  }

  function Restamped(s: SessionState, stamps: seq<DateTime>): (s': SessionState)
    ensures |s'.results| == |s.results|
  {
    var n := Applied(s, |stamps|);
    s.(results := seq(|s.results|, i requires 0 <= i < |s.results| =>
         if s.lastUpdated <= i < s.lastUpdated + n
         then s.results[i].(t1 := stamps[i - s.lastUpdated])
         else s.results[i]),
       lastUpdated := s.lastUpdated + n)
  }

  class Session {
    const rxSocketAddress: Address
    const txSocketAddress: Address
    var seqNumber: u32
    var results: seq<PacketResults>
    var lastUpdated: nat

    function State(): SessionState
      reads this
    {
      SessionState(rxSocketAddress, txSocketAddress, seqNumber, results, lastUpdated)
    }

    constructor (rx: Address, tx: Address)
      ensures State() == NewSession(rx, tx)
    {
      rxSocketAddress, txSocketAddress := rx, tx;
      seqNumber, results, lastUpdated := 0, [], 0;
    }

    method AddToSent(record: PacketResults)
      modifies this
      ensures State() == Sent(old(State()), record)
    {
      results := results + [record];
      seqNumber := ToU32(seqNumber + 1);
    }

    method AddToReceived(reply: PacketResults, t4: DateTime)
      modifies this
      ensures State() == Received(old(State()), reply, t4)
    {
      var i := 0;
      while i < |results| && results[i].senderSeq != reply.senderSeq
        invariant 0 <= i <= |results|
        invariant forall j :: 0 <= j < i ==> results[j].senderSeq != reply.senderSeq
      {
        i := i + 1;
      }
      assert i == FirstMatch(results, reply.senderSeq);
      if i < |results| {
        results := results[i := Answer(results[i], reply, t4)];
      }
    }

    method UpdateTxTimestamps(stamps: seq<DateTime>)
      modifies this
      ensures State() == Restamped(old(State()), stamps)
    {
      var next := 0;
      var i := lastUpdated;
      ghost var start := State();
      while i < |results|
        invariant start.lastUpdated <= i
        invariant start.lastUpdated <= |results| ==> i <= |results|
        invariant |results| == |start.results| && seqNumber == start.seqNumber
        invariant next == if |results| <= start.lastUpdated then 0 else Min(|stamps|, i - start.lastUpdated)
        invariant lastUpdated == start.lastUpdated + next
        invariant forall j :: 0 <= j < |results| ==>
          results[j] == if start.lastUpdated <= j < start.lastUpdated + next
                        then start.results[j].(t1 := stamps[j - start.lastUpdated])
                        else start.results[j]
      {
        if next < |stamps| {
          results := results[i := results[i].(t1 := stamps[next])];
          next := next + 1;
          lastUpdated := lastUpdated + 1;
        }
        i := i + 1;
      }
    }

    method GetLatestResult() returns (latest: Option<PacketResults>)
      ensures latest.None? <==> results == []
      ensures latest.Some? ==> latest.value == results[|results| - 1]
    {
      latest := if results == [] then None else Some(results[|results| - 1]);
    }

    /** The triple of some sorted arrangement of the records; see LossesOrderIndependent. */
    method AnalyzePacketLoss() returns (forwardLoss: u32, backwardLoss: u32, totalLoss: u32)
      ensures exists sorted ::
        IsSortOf(sorted, results, SenderSeq) && (forwardLoss, backwardLoss, totalLoss) == LossesOf(sorted)
    {
      hide ToI32, ToU32, WrappedDelta, Scanned, LossesOf;
      var forward: i32, total: i32 := 0, 0;
      var sorted := SortUnstable(results, SenderSeq);
      var lastSenderSeq: Option<u32> := None;
      var lastReflectorSeq: Option<u32> := None;
      if |sorted| > 0 && sorted[0].reflectorSeq.None? {
        total := ToI32(total + 1);
      }
      if sorted != [] {
        ScannedFirst(sorted);
      }
      var i := 1;
      while i < |sorted|
        invariant sorted == [] || 1 <= i <= |sorted|
        invariant sorted == [] ==> forward == total == 0
        invariant sorted != [] ==> Scanned(sorted, i, forward, total, lastSenderSeq, lastReflectorSeq)
      {
        var current := sorted[i];
        ghost var was := forward;
        if current.reflectorSeq.None? {
          ScannedLost(sorted, i, forward, total, lastSenderSeq, lastReflectorSeq);
          total := ToI32(total + 1);
        } else {
          if lastSenderSeq.Some? && lastReflectorSeq.Some? {
            var delta := WrappedDelta(current.senderSeq, lastSenderSeq.value,
                                      current.reflectorSeq.value, lastReflectorSeq.value);
            if delta >= 0 {
              forward := ToI32(forward + delta);
            }
          }
          ScannedAnswered(sorted, i, was, total, lastSenderSeq, lastReflectorSeq, forward);
          lastSenderSeq := Some(current.senderSeq);
          lastReflectorSeq := current.reflectorSeq;
        }
        i := i + 1;
      }
      ScannedAll(sorted, forward, total, lastSenderSeq, lastReflectorSeq);
      forwardLoss, backwardLoss, totalLoss := ToU32(forward), ToU32(ToI32(total - forward)), ToU32(total);
    }
  }

  /** The source's delta, with a wrap at each 32-bit operation. */
  function WrappedDelta(s: u32, lastS: u32, r: u32, lastR: u32): i32 {
    ToI32(ToI32(ToI32(s) - ToI32(lastS)) - ToI32(ToI32(r) - ToI32(lastR)))
  }

  /** What the loop of AnalyzePacketLoss knows after looking at sorted[..i]. */
  ghost predicate Scanned(sorted: seq<PacketResults>, i: nat, forward: i32, total: i32,
                          lastS: Option<u32>, lastR: Option<u32>)
    requires 1 <= i <= |sorted|
  {
    var answered := Answered(sorted[1..i]);
    && total == ToI32(i - |Answered(sorted[..i])|)
    && forward == ToI32(ForwardLoss(answered))
    && (answered == [] ==> lastS == None && lastR == None)
    && (answered != [] ==> lastS == Some(answered[|answered| - 1].senderSeq)
                           && lastR == answered[|answered| - 1].reflectorSeq)
  }

  lemma ScannedFirst(sorted: seq<PacketResults>)
    requires sorted != []
    ensures Scanned(sorted, 1, 0, if sorted[0].reflectorSeq.None? then ToI32(0 + 1) else 0, None, None)
  {
  }

  lemma ScannedLost(sorted: seq<PacketResults>, i: nat, forward: i32, total: i32,
                    lastS: Option<u32>, lastR: Option<u32>)
    requires 1 <= i < |sorted| && Scanned(sorted, i, forward, total, lastS, lastR)
    requires !IsAnswered(sorted[i])
    ensures Scanned(sorted, i + 1, forward, ToI32(total + 1), lastS, lastR)
  {
    hide ToI32, Answered;
    assert sorted[1..i] + [sorted[i]] == sorted[1..i + 1];
    assert sorted[..i] + [sorted[i]] == sorted[..i + 1];
    AnsweredAppend(sorted[1..i], sorted[i]);
    AnsweredAppend(sorted[..i], sorted[i]);
    WrappedSum(i - |Answered(sorted[..i])|, 1);
  }

  lemma ScannedAnswered(sorted: seq<PacketResults>, i: nat, forward: i32, total: i32,
                        lastS: Option<u32>, lastR: Option<u32>, forward': i32)
    requires 1 <= i < |sorted| && Scanned(sorted, i, forward, total, lastS, lastR)
    requires IsAnswered(sorted[i])
    requires forward' ==
             if lastS.Some? && lastR.Some?
                && WrappedDelta(sorted[i].senderSeq, lastS.value, sorted[i].reflectorSeq.value, lastR.value) >= 0
             then ToI32(forward + WrappedDelta(sorted[i].senderSeq, lastS.value,
                                               sorted[i].reflectorSeq.value, lastR.value))
             else forward
    ensures Scanned(sorted, i + 1, forward', total, Some(sorted[i].senderSeq), sorted[i].reflectorSeq)
  {
    hide ToI32, Answered, ForwardLoss, WrappedDelta, Gap;
    var answered := Answered(sorted[1..i]);
    assert sorted[1..i] + [sorted[i]] == sorted[1..i + 1];
    assert sorted[..i] + [sorted[i]] == sorted[..i + 1];
    AnsweredAppend(sorted[1..i], sorted[i]);
    AnsweredAppend(sorted[..i], sorted[i]);
    ForwardLossAppend(answered, sorted[i]);
    if answered != [] {
      DeltaIsWrappedGap(answered[|answered| - 1], sorted[i]);
      WrappedSum(ForwardLoss(answered), ToI32(Gap(answered[|answered| - 1], sorted[i])));
    }
  }

  lemma ScannedAll(sorted: seq<PacketResults>, forward: i32, total: i32,
                   lastS: Option<u32>, lastR: Option<u32>)
    requires sorted == [] ==> forward == total == 0
    requires sorted != [] ==> Scanned(sorted, |sorted|, forward, total, lastS, lastR)
    ensures (ToU32(forward), ToU32(ToI32(total - forward)), ToU32(total)) == LossesOf(sorted)
  {
    if sorted != [] {
      hide ToI32, ToU32;
      assert sorted[..|sorted|] == sorted;
      assert AllButFirst(sorted) == sorted[1..];
      assert sorted[1..|sorted|] == sorted[1..];
      var f, t := ForwardLoss(Answered(AllButFirst(sorted))), |sorted| - |Answered(sorted)|;
      WrappedSum(f, 0);
      WrappedSum(t, 0);
      WrappedDifference(t, f);
    }
  }

  function States(sessions: seq<Session>): (t: seq<SessionState>)
    reads sessions
    ensures |t| == |sessions|
  {
    seq(|sessions|, i requires 0 <= i < |sessions| reads sessions => sessions[i].State())
  }

  ghost predicate NoAlias(sessions: seq<Session>) {
    forall i, j :: 0 <= i < j < |sessions| ==> sessions[i] != sessions[j]
  }

  // ----- the scan of AnalyzePacketLoss

  lemma AnsweredAppend(s: seq<PacketResults>, p: PacketResults)
    ensures Answered(s + [p]) == if IsAnswered(p) then Answered(s) + [p] else Answered(s)
  {
  }

  lemma ForwardLossAppend(a: seq<PacketResults>, p: PacketResults)
    requires IsAnswered(p) && forall q :: q in a ==> IsAnswered(q)
    ensures ForwardLoss(a + [p]) ==
            ForwardLoss(a) + if a == [] then 0 else Max(0, ToI32(Gap(a[|a| - 1], p)))
  {
  }

  lemma DeltaIsWrappedGap(a: PacketResults, b: PacketResults)
    requires IsAnswered(a) && IsAnswered(b)
    ensures WrappedDelta(b.senderSeq, a.senderSeq, b.reflectorSeq.value, a.reflectorSeq.value)
            == ToI32(Gap(a, b))
  {
    WrappedDifference(b.senderSeq, a.senderSeq);
    WrappedDifference(b.reflectorSeq.value, a.reflectorSeq.value);
    WrappedDifference(b.senderSeq - a.senderSeq, b.reflectorSeq.value - a.reflectorSeq.value);
    hide ToI32;
  }

  lemma WrappedDifference(x: int, y: int)
    ensures ToI32(ToI32(x) - ToI32(y)) == ToI32(x - y)
    ensures ToU32(ToI32(ToI32(x) - ToI32(y))) == ToU32(x - y)
  {
    WrappedSum(x, 0 - ToI32(y));
    WrappedSum(y, x);
    WrappedSum(ToI32(x) - ToI32(y), 0);
    WrappedSum(x - y, 0);
    hide ToI32, ToU32;
  }
}
