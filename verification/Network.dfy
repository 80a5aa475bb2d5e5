/** One sender session, a lossy network and a reflector's table, step by step, and what the
    sender's loss analysis says about the fates of the packets. */
module Network {
  import opened MachineInts
  import opened Wrappers
  import opened Time
  import opened Packets
  import opened Sessions
  import opened Senders
  import opened Reflectors
  import opened ReflectorRuns

  /** What became of a packet. The sender cannot see this. */
  datatype Fate = Outbound | LostOut | Inbound | LostBack | Home

  /** The forward path is a FIFO queue that may lose packets but not reorder or repeat them;
      replies may also overtake each other. When the reflector evicts the session its numbering
      restarts: `restart` counts the arrivals before the last eviction, and `bases` holds for each
      packet the value this count had when the packet arrived. `visits` holds the clock readings at the
      packet's arrival, its reflection and its return. */
  datatype Net = Net(
    sender: SessionState,
    outQueue: seq<SenderMessage>,
    table: seq<SessionState>,
    replies: seq<ReflectedMessage>,
    fates: seq<Fate>,
    restart: nat,
    bases: seq<nat>,
    visits: seq<Visit>)

  datatype Visit = Visit(received: DateTime, reflected: DateTime, home: DateTime)

  const NO_VISIT: Visit := Visit(DateTime(0, 0), DateTime(0, 0), DateTime(0, 0))

  datatype Step =
    | Send(clock: Duration, stamp: DateTime, padding: nat)
    | LoseOut(k: nat)
    | Arrive(received: DateTime, now: DateTime)
    | ArriveElsewhere(a: Arrival)
    | Evict(nows: seq<DateTime>, refWait: u64)
    | LoseReply(k: nat)
    | Deliver(k: nat, t4: DateTime)
    | Correct(stamps: seq<DateTime>)

  function Start(rx: Address, tx: Address): Net {
    Net(NewSession(rx, tx), [], [], [], [], 0, [], [])
  }

  function Without<T>(s: seq<T>, k: nat): seq<T>
    requires k < |s|
  {
    s[..k] + s[k + 1..]
  }

  /** The reflector listens on the address the session targets. */
  function HeadArrival(n: Net, received: DateTime, now: DateTime): Arrival
    requires n.outQueue != []
  {
    Arrival(n.sender.rx, n.outQueue[0], received, now)
  }

  predicate Enabled(n: Net, step: Step) {
    match step
    case Send(_, _, _) => true
    case LoseOut(k) => k < |n.outQueue| && n.outQueue[k].sequenceNumber < |n.fates|
    case Arrive(_, _) =>
      && n.outQueue != []
      && MIN_UNAUTH_PADDING <= n.outQueue[0].paddingLength
      && n.outQueue[0].sequenceNumber < |n.fates| == |n.bases| == |n.visits|
    case ArriveElsewhere(a) => a.source != n.sender.rx && MIN_UNAUTH_PADDING <= a.message.paddingLength
    case Evict(nows, _) => |nows| == |n.table|
    case LoseReply(k) => k < |n.replies| && n.replies[k].senderSequenceNumber < |n.fates|
    case Deliver(k, _) => k < |n.replies| && n.replies[k].senderSequenceNumber < |n.fates| == |n.visits|
    case Correct(_) => true
  }

  /** Whether the eviction takes this sender's session away. */
  predicate EvictsOwn(n: Net, nows: seq<DateTime>, refWait: u64)
    requires |nows| == |n.table|
  {
    var k := Find(n.table, n.sender.tx, n.sender.rx);
    k < |n.table| && IsStale(n.table[k], nows[k], refWait)
  }

  /** A step that is not enabled changes nothing. The reflector may serve and evict other senders. */
  function Next(n: Net, step: Step): Net {
    if !Enabled(n, step) then n else
    match step
    case Send(clock, stamp, padding) =>
      n.(sender := Sent(n.sender, SendRecord(n.sender, stamp)),
         outQueue := n.outQueue + [TestMessage(n.sender, clock, padding)],
         fates := n.fates + [Outbound],
         bases := n.bases + [0],
         visits := n.visits + [NO_VISIT])
    case LoseOut(k) =>
      n.(outQueue := Without(n.outQueue, k), fates := n.fates[n.outQueue[k].sequenceNumber := LostOut])
    case Arrive(received, now) =>
      var a := HeadArrival(n, received, now);
      n.(outQueue := n.outQueue[1..],
         table := Arrived(n.table, n.sender.tx, a),
         replies := n.replies + [Reflection(Counter(n.table, n.sender.tx, n.sender.rx), a)],
         fates := n.fates[n.outQueue[0].sequenceNumber := Inbound],
         bases := n.bases[n.outQueue[0].sequenceNumber := n.restart],
         visits := n.visits[n.outQueue[0].sequenceNumber := Visit(received, now, DateTime(0, 0))])
    case ArriveElsewhere(a) =>
      n.(table := Arrived(n.table, n.sender.tx, a))
    case Evict(nows, refWait) =>
      n.(table := Retained(n.table, nows, refWait),
         restart := if EvictsOwn(n, nows, refWait) then Arrivals(n.fates, |n.fates|) else n.restart)
    case LoseReply(k) =>
      n.(replies := Without(n.replies, k), fates := n.fates[n.replies[k].senderSequenceNumber := LostBack])
    case Deliver(k, t4) =>
      n.(replies := Without(n.replies, k),
         sender := Received(n.sender, ReflectedRecord(n.replies[k]), t4),
         fates := n.fates[n.replies[k].senderSequenceNumber := Home],
         visits := n.visits[n.replies[k].senderSequenceNumber :=
                              n.visits[n.replies[k].senderSequenceNumber].(home := t4)])
    case Correct(stamps) =>
      n.(sender := Restamped(n.sender, stamps))
  }

  function Run(rx: Address, tx: Address, steps: seq<Step>): Net {
    if steps == [] then Start(rx, tx)
    else Next(Run(rx, tx, steps[..|steps| - 1]), steps[|steps| - 1])
  }

  // ----- counting fates

  predicate Reached(f: Fate) {
    f == Inbound || f == LostBack || f == Home
  }

  /** How many of the first i packets reached the reflector. */
  function Arrivals(fates: seq<Fate>, i: nat): (n: nat)
    requires i <= |fates|
    ensures n <= i
  {
    if i == 0 then 0 else Arrivals(fates, i - 1) + if Reached(fates[i - 1]) then 1 else 0
  }

  /** How many packets in [lo, hi) met the fate. */
  function Count(fates: seq<Fate>, lo: nat, hi: nat, f: Fate): nat
    requires lo <= hi <= |fates|
  {
    if lo == hi then 0 else Count(fates, lo, hi - 1, f) + if fates[hi - 1] == f then 1 else 0
  }

  lemma {:induction false} ArrivalsSame(f: seq<Fate>, g: seq<Fate>, i: nat)
    requires i <= |f| && i <= |g|
    requires forall j :: 0 <= j < i ==> (Reached(f[j]) <==> Reached(g[j]))
    ensures Arrivals(f, i) == Arrivals(g, i)
  {
    if i > 0 {
      ArrivalsSame(f, g, i - 1);
    }
  }

  lemma {:induction false} ArrivalsNoneAfter(f: seq<Fate>, i: nat, j: nat)
    requires i <= j <= |f|
    requires forall k :: i <= k < j ==> !Reached(f[k])
    ensures Arrivals(f, j) == Arrivals(f, i)
  {
    if i < j {
      ArrivalsNoneAfter(f, i, j - 1);
    }
  }

  // ----- the invariant

  /** The number the reflector gave packet i: the arrivals before it since the last restart. */
  function Number(n: Net, i: nat): int
    requires i < |n.fates| == |n.bases|
  {
    Arrivals(n.fates, i) - n.bases[i]
  }

  /** Record i, its fate and its number agree. */
  ghost predicate RecordAgrees(n: Net, i: nat)
    requires i < |n.fates| == |n.sender.results| == |n.bases|
  {
    var p := n.sender.results[i];
    && p.senderSeq == i
    && p.reflectorSeq == if n.fates[i] == Home then Some(ToU32(Number(n, i))) else None
  }

  /** A queued packet is on its way, and nothing at or after it has reached the reflector. */
  ghost predicate QueuedAgrees(n: Net, k: nat)
    requires k < |n.outQueue|
  {
    var q := n.outQueue[k].sequenceNumber;
    && q < |n.fates|
    && n.fates[q] == Outbound
    && (forall j :: q <= j < |n.fates| ==> !Reached(n.fates[j]))
  }

  ghost predicate ReplyAgrees(n: Net, k: nat)
    requires k < |n.replies| && |n.fates| == |n.bases|
  {
    var q := n.replies[k].senderSequenceNumber;
    && q < |n.fates|
    && n.fates[q] == Inbound
    && n.replies[k].reflectorSequenceNumber == ToU32(Number(n, q))
  }

  /** Every outbound packet is queued. */
  ghost predicate OutboundQueued(n: Net, i: nat)
    requires i < |n.fates|
  {
    n.fates[i] == Outbound ==> exists k :: 0 <= k < |n.outQueue| && n.outQueue[k].sequenceNumber == i
  }

  ghost predicate SenderInv(n: Net) {
    && |n.fates| == |n.sender.results| == |n.bases|
    && n.sender.seqNumber == ToU32(|n.fates|)
    && forall i :: 0 <= i < |n.fates| ==> RecordAgrees(n, i)
  }

  ghost predicate QueueInv(n: Net) {
    && (forall k :: 0 <= k < |n.outQueue| ==> QueuedAgrees(n, k))
    && (forall k, l :: 0 <= k < l < |n.outQueue| ==>
          n.outQueue[k].sequenceNumber < n.outQueue[l].sequenceNumber)
    && (forall i :: 0 <= i < |n.fates| ==> OutboundQueued(n, i))
  }

  ghost predicate ReplyInv(n: Net) {
    && |n.fates| == |n.bases|
    && (forall k :: 0 <= k < |n.replies| ==> ReplyAgrees(n, k))
    && (forall k, l :: 0 <= k < l < |n.replies| ==>
          n.replies[k].senderSequenceNumber != n.replies[l].senderSequenceNumber)
  }

  /** No base is above the arrivals before its packet, and bases only grow from arrival to arrival. */
  ghost predicate BasesInv(n: Net) {
    && |n.fates| == |n.bases| == |n.visits|
    && n.restart <= Arrivals(n.fates, |n.fates|)
    && (forall i :: 0 <= i < |n.bases| ==> n.bases[i] <= n.restart && n.bases[i] <= Arrivals(n.fates, i))
    && (forall i, j :: 0 <= i < j < |n.bases| && Reached(n.fates[j]) ==> n.bases[i] <= n.bases[j])
  }

  ghost predicate Inv(n: Net) {
    && SenderInv(n)
    && BasesInv(n)
    && QueueInv(n)
    && ReplyInv(n)
    && TableInv(n.table, n.sender.tx)
    && Counter(n.table, n.sender.tx, n.sender.rx) == ToU32(Arrivals(n.fates, |n.fates|) - n.restart)
  }

  // ----- each step keeps the invariant

  /** Fates may change without moving any packet across the reflector's line. */
  ghost predicate SameReach(f: seq<Fate>, g: seq<Fate>) {
    |f| == |g| && forall j :: 0 <= j < |f| ==> (Reached(f[j]) <==> Reached(g[j]))
  }

  lemma SameReachArrivals(f: seq<Fate>, g: seq<Fate>)
    requires SameReach(f, g)
    ensures forall i :: 0 <= i <= |f| ==> Arrivals(f, i) == Arrivals(g, i)
  {
    forall i | 0 <= i <= |f| ensures Arrivals(f, i) == Arrivals(g, i) {
      ArrivalsSame(f, g, i);
    }
  }

  lemma PrefixArrivals(f: seq<Fate>, g: seq<Fate>)
    requires |f| <= |g| && forall j :: 0 <= j < |f| ==> f[j] == g[j]
    ensures forall i :: 0 <= i <= |f| ==> Arrivals(f, i) == Arrivals(g, i)
  {
    forall i | 0 <= i <= |f| ensures Arrivals(f, i) == Arrivals(g, i) {
      ArrivalsSame(f, g, i);
    }
  }

  lemma BasesKept(n: Net, n': Net)
    requires BasesInv(n) && SameReach(n.fates, n'.fates) && n'.bases == n.bases && n'.restart == n.restart
    requires |n'.visits| == |n.visits|
    ensures BasesInv(n')
  {
    SameReachArrivals(n.fates, n'.fates);
    hide Arrivals, Reached;
  }

  /** The sender, the queues and the fates do not look at the table. */
  lemma TableApart(n: Net, n': Net)
    requires n'.sender == n.sender && n'.outQueue == n.outQueue && n'.replies == n.replies
    requires n'.fates == n.fates && n'.bases == n.bases
    ensures SenderInv(n) ==> SenderInv(n')
    ensures QueueInv(n) ==> QueueInv(n')
    ensures ReplyInv(n) ==> ReplyInv(n')
  {
    hide ToU32, Arrivals, Reached;
    if SenderInv(n) {
      assert forall i :: 0 <= i < |n'.fates| ==> RecordAgrees(n, i) ==> RecordAgrees(n', i);
    }
    if QueueInv(n) {
      assert forall i :: 0 <= i < |n'.fates| ==> OutboundQueued(n, i) ==> OutboundQueued(n', i);
      assert forall k :: 0 <= k < |n'.outQueue| ==> QueuedAgrees(n, k) ==> QueuedAgrees(n', k);
    }
    if ReplyInv(n) {
      assert forall k :: 0 <= k < |n'.replies| ==> ReplyAgrees(n, k) ==> ReplyAgrees(n', k);
    }
  }

  lemma SendKeepsRecords(n: Net, step: Step)
    requires SenderInv(n) && step.Send? && |n.fates| < TWO_32
    ensures SenderInv(Next(n, step))
    ensures Arrivals(Next(n, step).fates, |n.fates| + 1) == Arrivals(n.fates, |n.fates|)
  {
    var n' := Next(n, step);
    PrefixArrivals(n.fates, n'.fates);
    WrapNext(|n.fates|);
    assert n'.fates[|n.fates|] == Outbound;
    hide ToU32, NtpFromDateTime, DateTimeFromNtp;
    forall i | 0 <= i < |n'.fates| ensures RecordAgrees(n', i) {
      if i < |n.fates| {
        assert RecordAgrees(n, i);
      }
    }
  }

  lemma SendKeepsReplies(n: Net, step: Step)
    requires ReplyInv(n) && step.Send?
    ensures ReplyInv(Next(n, step))
  {
    var n' := Next(n, step);
    PrefixArrivals(n.fates, n'.fates);
    hide ToU32, Arrivals, SendRecord, TestMessage;
    forall k | 0 <= k < |n'.replies| ensures ReplyAgrees(n', k) {
      assert ReplyAgrees(n, k);
    }
  }

  lemma SendKeepsQueue(n: Net, step: Step)
    requires Inv(n) && step.Send? && |n.fates| < TWO_32
    ensures QueueInv(Next(n, step))
  {
    var n' := Next(n, step);
    var m := |n.fates|;
    WrapNext(m);
    assert n'.outQueue[|n.outQueue|].sequenceNumber == m;
    hide ToU32, NtpFromDateTime, DateTimeFromNtp, TableInv, Counter, ReplyInv, Arrivals;
    forall i | 0 <= i < |n'.fates| ensures OutboundQueued(n', i) {
      if i < m && n.fates[i] == Outbound {
        assert OutboundQueued(n, i);
        var k :| 0 <= k < |n.outQueue| && n.outQueue[k].sequenceNumber == i;
        assert n'.outQueue[k].sequenceNumber == i;
      }
    }
    forall k | 0 <= k < |n'.outQueue| ensures QueuedAgrees(n', k) {
      if k < |n.outQueue| {
        assert QueuedAgrees(n, k);
      }
    }
    forall k, l | 0 <= k < l < |n'.outQueue|
      ensures n'.outQueue[k].sequenceNumber < n'.outQueue[l].sequenceNumber
    {
      assert QueuedAgrees(n, k);
    }
  }

  lemma SendKeepsBases(n: Net, step: Step)
    requires BasesInv(n) && step.Send?
    ensures BasesInv(Next(n, step))
  {
    var n' := Next(n, step);
    PrefixArrivals(n.fates, n'.fates);
    assert Arrivals(n'.fates, |n.fates| + 1) == Arrivals(n'.fates, |n.fates|);
    hide Arrivals, SendRecord;
  }

  lemma SendKeeps(n: Net, step: Step)
    requires Inv(n) && step.Send? && |n.fates| < TWO_32
    ensures Inv(Next(n, step))
  {
    SendKeepsRecords(n, step);
    SendKeepsReplies(n, step);
    SendKeepsQueue(n, step);
    SendKeepsBases(n, step);
    hide SenderInv, QueueInv, ReplyInv, BasesInv, TableInv, Counter, ToU32, Arrivals, SendRecord;
  }

  lemma LoseOutKeepsRecords(n: Net, step: Step)
    requires Inv(n) && step.LoseOut? && Enabled(n, step)
    ensures SenderInv(Next(n, step)) && ReplyInv(Next(n, step)) && SameReach(n.fates, Next(n, step).fates)
  {
    var n' := Next(n, step);
    assert QueuedAgrees(n, step.k);
    SameReachArrivals(n.fates, n'.fates);
    hide ToU32, TableInv, Counter, Arrivals, QueueInv;
    forall i | 0 <= i < |n'.fates| ensures RecordAgrees(n', i) {
      assert RecordAgrees(n, i);
    }
    forall k | 0 <= k < |n'.replies| ensures ReplyAgrees(n', k) {
      assert ReplyAgrees(n, k);
    }
  }

  lemma RemovedKeepsQueue(n: Net, n': Net, k: nat, q: nat)
    requires QueueInv(n) && k < |n.outQueue| && n.outQueue[k].sequenceNumber == q < |n.fates|
    requires n'.outQueue == Without(n.outQueue, k) && n'.fates == n.fates[q := LostOut]
    ensures QueueInv(n')
  {
    forall i | 0 <= i < |n'.fates| ensures OutboundQueued(n', i) {
      assert OutboundQueued(n, i);
      if n'.fates[i] == Outbound {
        var l :| 0 <= l < |n.outQueue| && n.outQueue[l].sequenceNumber == i;
        assert n'.outQueue[if l < k then l else l - 1].sequenceNumber == i;
      }
    }
    forall l | 0 <= l < |n'.outQueue| ensures QueuedAgrees(n', l) {
      assert QueuedAgrees(n, if l < k then l else l + 1);
    }
  }

  lemma LoseOutKeepsQueue(n: Net, step: Step)
    requires Inv(n) && step.LoseOut? && Enabled(n, step)
    ensures QueueInv(Next(n, step))
  {
    hide QueueInv, SenderInv, ReplyInv, BasesInv, TableInv, Counter, Arrivals;
    RemovedKeepsQueue(n, Next(n, step), step.k, n.outQueue[step.k].sequenceNumber);
  }

  lemma LoseOutKeeps(n: Net, step: Step)
    requires Inv(n) && step.LoseOut? && Enabled(n, step)
    ensures Inv(Next(n, step))
  {
    LoseOutKeepsRecords(n, step);
    LoseOutKeepsQueue(n, step);
    BasesKept(n, Next(n, step));
    SameReachArrivals(n.fates, Next(n, step).fates);
    hide ToU32, TableInv, Counter, Arrivals, SenderInv, QueueInv, ReplyInv, BasesInv;
  }

  /** Arrivals move only for packets after the one that arrived, and none of those was reached. */
  lemma ArriveCounts(f: seq<Fate>, q: nat)
    requires q < |f| && f[q] == Outbound
    requires forall j :: q <= j < |f| ==> !Reached(f[j])
    ensures var g := f[q := Inbound];
            && (forall i :: 0 <= i <= q ==> Arrivals(g, i) == Arrivals(f, i))
            && Arrivals(f, |f|) == Arrivals(f, q)
            && Arrivals(g, |g|) == Arrivals(f, q) + 1
  {
    var g := f[q := Inbound];
    forall i | 0 <= i <= q ensures Arrivals(g, i) == Arrivals(f, i) {
      ArrivalsSame(f, g, i);
    }
    ArrivalsNoneAfter(f, q, |f|);
    ArrivalsNoneAfter(g, q + 1, |g|);
  }

  lemma ArriveKeepsQueue(n: Net, step: Step)
    requires Inv(n) && step.Arrive? && Enabled(n, step)
    ensures QueueInv(Next(n, step))
  {
    var n' := Next(n, step);
    assert QueuedAgrees(n, 0);
    hide ToU32, TableInv, Counter, Arrivals, Arrived, Reflection, SenderInv, ReplyInv;
    forall i | 0 <= i < |n'.fates| ensures OutboundQueued(n', i) {
      assert OutboundQueued(n, i);
      if n'.fates[i] == Outbound {
        var k :| 0 <= k < |n.outQueue| && n.outQueue[k].sequenceNumber == i;
        assert n'.outQueue[k - 1].sequenceNumber == i;
      }
    }
    forall k | 0 <= k < |n'.outQueue| ensures QueuedAgrees(n', k) {
      assert QueuedAgrees(n, k + 1);
    }
  }

  /** Packet q is the one that arrived: it goes inbound with the restart in force as its base. */
  ghost predicate ArrivedAt(n: Net, n': Net, q: nat) {
    && |n.fates| == |n.bases| && q < |n.fates| && n.fates[q] == Outbound
    && (forall j :: q <= j < |n.fates| ==> !Reached(n.fates[j]))
    && n'.sender == n.sender
    && n'.fates == n.fates[q := Inbound] && n'.bases == n.bases[q := n.restart] && n'.restart == n.restart
    && |n'.visits| == |n.visits|
  }

  lemma ArriveIsArrivedAt(n: Net, step: Step)
    requires Inv(n) && step.Arrive? && Enabled(n, step)
    ensures ArrivedAt(n, Next(n, step), n.outQueue[0].sequenceNumber)
  {
    assert QueuedAgrees(n, 0);
    hide Arrived, Reflection, Counter, TableInv, Arrivals, Reached, ToU32;
  }

  lemma ArrivedAtKeepsRecords(n: Net, n': Net, q: nat)
    requires SenderInv(n) && ArrivedAt(n, n', q)
    ensures SenderInv(n')
    ensures Arrivals(n'.fates, |n.fates|) == Arrivals(n.fates, |n.fates|) + 1
  {
    ArriveCounts(n.fates, q);
    hide ToU32, Arrivals, Reached;
    forall i | 0 <= i < |n'.fates| ensures RecordAgrees(n', i) {
      assert RecordAgrees(n, i);
    }
  }

  lemma ArrivedAtKeepsReplies(n: Net, n': Net, q: nat, reply: ReflectedMessage)
    requires ReplyInv(n) && ArrivedAt(n, n', q) && n'.replies == n.replies + [reply]
    requires reply.senderSequenceNumber == q
    requires reply.reflectorSequenceNumber == ToU32(Arrivals(n.fates, q) - n.restart)
    ensures ReplyInv(n')
  {
    ArriveCounts(n.fates, q);
    hide ToU32, Arrivals;
    forall k | 0 <= k < |n.replies| ensures ReplyAgrees(n', k) && n.replies[k].senderSequenceNumber != q {
      assert ReplyAgrees(n, k);
    }
    assert ReplyAgrees(n', |n.replies|);
  }

  lemma ArriveKeepsReplies(n: Net, step: Step)
    requires Inv(n) && step.Arrive? && Enabled(n, step)
    ensures ReplyInv(Next(n, step))
  {
    var q := n.outQueue[0].sequenceNumber;
    ArriveIsArrivedAt(n, step);
    ArriveCounts(n.fates, q);
    var reply := Reflection(Counter(n.table, n.sender.tx, n.sender.rx), HeadArrival(n, step.received, step.now));
    assert Next(n, step).replies == n.replies + [reply];
    hide ToU32, Arrivals, Next, SenderInv, BasesInv, QueueInv, ReplyInv, TableInv, Counter;
    ArrivedAtKeepsReplies(n, Next(n, step), q, reply);
  }

  lemma ArrivedAtKeepsBases(n: Net, n': Net, q: nat)
    requires BasesInv(n) && ArrivedAt(n, n', q)
    ensures BasesInv(n')
  {
    ArriveCounts(n.fates, q);
    forall i | 0 <= i <= |n.fates| ensures Arrivals(n.fates, i) <= Arrivals(n'.fates, i) {
      ArrivalsGrow(n.fates, n'.fates, i);
    }
    hide Arrivals;
  }

  lemma {:induction false} ArrivalsGrow(f: seq<Fate>, g: seq<Fate>, i: nat)
    requires i <= |f| == |g| && forall j :: 0 <= j < i ==> Reached(f[j]) ==> Reached(g[j])
    ensures Arrivals(f, i) <= Arrivals(g, i)
  {
    if i > 0 {
      ArrivalsGrow(f, g, i - 1);
    }
  }

  lemma ArriveKeeps(n: Net, step: Step)
    requires Inv(n) && step.Arrive? && Enabled(n, step)
    ensures Inv(Next(n, step))
  {
    ArriveKeepsQueue(n, step);
    ArriveIsArrivedAt(n, step);
    ArrivedAtKeepsRecords(n, Next(n, step), n.outQueue[0].sequenceNumber);
    ArriveKeepsReplies(n, step);
    ArrivedAtKeepsBases(n, Next(n, step), n.outQueue[0].sequenceNumber);
    ArriveKeepsTable(n, step);
    hide SenderInv, QueueInv, ReplyInv, BasesInv, TableInv, Counter, ToU32, Arrivals, Arrived, Reflection;
  }

  lemma ArriveKeepsTable(n: Net, step: Step)
    requires Inv(n) && step.Arrive? && Enabled(n, step)
    requires Arrivals(Next(n, step).fates, |n.fates|) == Arrivals(n.fates, |n.fates|) + 1
    ensures var n' := Next(n, step);
            && TableInv(n'.table, n.sender.tx)
            && Counter(n'.table, n.sender.tx, n.sender.rx) == ToU32(Arrivals(n'.fates, |n'.fates|) - n.restart)
  {
    var a := HeadArrival(n, step.received, step.now);
    ArrivalIsLocal(n.table, n.sender.tx, a, n.sender.rx);
    ArrivalKeepsInv(n.table, n.sender.tx, a);
    hide SenderInv, QueueInv, ReplyInv, TableInv, Counter, Arrivals, Arrived, Reflection;
    WrapNext(Arrivals(n.fates, |n.fates|) - n.restart);
  }

  lemma ArriveElsewhereKeeps(n: Net, step: Step)
    requires Inv(n) && step.ArriveElsewhere? && Enabled(n, step)
    ensures Inv(Next(n, step))
  {
    var n' := Next(n, step);
    TableApart(n, n');
    ArrivalIsLocal(n.table, n.sender.tx, step.a, n.sender.rx);
    ArrivalKeepsInv(n.table, n.sender.tx, step.a);
    CounterIsLookup(n'.table, n.sender.tx, n.sender.rx);
    CounterIsLookup(n.table, n.sender.tx, n.sender.rx);
    hide SenderInv, QueueInv, ReplyInv, TableInv, Counter, Arrived, ToU32, Arrivals, Reached;
  }

  lemma EvictKeepsTable(n: Net, nows: seq<DateTime>, refWait: u64)
    requires TableInv(n.table, n.sender.tx) && |nows| == |n.table|
    ensures var after := Retained(n.table, nows, refWait);
            && TableInv(after, n.sender.tx)
            && Counter(after, n.sender.tx, n.sender.rx)
               == if EvictsOwn(n, nows, refWait) then 0 else Counter(n.table, n.sender.tx, n.sender.rx)
  {
    EvictionIsLocal(n.table, n.sender.tx, nows, refWait, n.sender.rx);
    RetainedKeepsInv(n.table, n.sender.tx, nows, refWait);
    hide TableInv, Retained, IsStale;
  }

  lemma EvictKeeps(n: Net, step: Step)
    requires Inv(n) && step.Evict? && Enabled(n, step)
    ensures Inv(Next(n, step))
  {
    hide SenderInv, QueueInv, ReplyInv, TableInv, Counter, Retained, Arrivals, EvictsOwn;
    TableApart(n, Next(n, step));
    EvictKeepsTable(n, step.nows, step.refWait);
    WrapNext(0);
    hide ToU32;
  }

  lemma CounterIsLookup(table: seq<SessionState>, rx: Address, tx: Address)
    ensures Counter(table, rx, tx) ==
            if Lookup(table, rx, tx).Some? then Lookup(table, rx, tx).value.seqNumber else 0
  {
  }

  /** Packet q, which was inbound, is lost on the way back or comes home; in the latter case its record
      takes its number. */
  lemma SettledKeepsRecords(n: Net, n': Net, q: nat)
    requires SenderInv(n) && q < |n.fates| && n.fates[q] == Inbound
    requires n'.fates == n.fates[q := LostBack] || n'.fates == n.fates[q := Home]
    requires n'.bases == n.bases && n'.sender.seqNumber == n.sender.seqNumber
    requires |n'.sender.results| == |n.sender.results|
    requires forall i :: 0 <= i < |n.fates| && (i != q || n'.fates[q] == LostBack) ==>
               n'.sender.results[i] == n.sender.results[i]
    requires n'.fates[q] == Home ==> n'.sender.results[q].senderSeq == n.sender.results[q].senderSeq
    requires n'.fates[q] == Home ==> n'.sender.results[q].reflectorSeq == Some(ToU32(Number(n, q)))
    ensures SenderInv(n') && SameReach(n.fates, n'.fates)
  {
    SameReachArrivals(n.fates, n'.fates);
    hide ToU32, Arrivals;
    forall i | 0 <= i < |n'.fates| ensures RecordAgrees(n', i) {
      assert RecordAgrees(n, i);
    }
  }

  lemma ReplyStepKeepsRecords(n: Net, step: Step)
    requires Inv(n) && (step.LoseReply? || step.Deliver?) && Enabled(n, step)
    ensures SenderInv(Next(n, step)) && SameReach(n.fates, Next(n, step).fates)
  {
    var q := n.replies[step.k].senderSequenceNumber;
    assert ReplyAgrees(n, step.k);
    if step.Deliver? {
      FirstMatchIsIndex(n, q);
    }
    hide ToU32, TableInv, Counter, Arrivals, FirstMatch, DateTimeFromNtp, QueueInv, ReplyInv, BasesInv, SenderInv;
    SettledKeepsRecords(n, Next(n, step), q);
  }

  lemma ReplyStepKeepsQueue(n: Net, step: Step)
    requires Inv(n) && (step.LoseReply? || step.Deliver?) && Enabled(n, step)
    requires SameReach(n.fates, Next(n, step).fates)
    ensures QueueInv(Next(n, step))
  {
    var n' := Next(n, step);
    assert ReplyAgrees(n, step.k);
    hide ToU32, TableInv, Counter, Arrivals, Received, SenderInv, BasesInv, ReplyInv, ReflectedRecord;
    forall i | 0 <= i < |n'.fates| ensures OutboundQueued(n', i) {
      assert OutboundQueued(n, i);
    }
    forall k | 0 <= k < |n'.outQueue| ensures QueuedAgrees(n', k) {
      assert QueuedAgrees(n, k);
    }
  }

  lemma RemovedKeepsReplies(n: Net, n': Net, k: nat, q: nat)
    requires ReplyInv(n) && k < |n.replies| && n.replies[k].senderSequenceNumber == q
    requires n'.replies == Without(n.replies, k) && n'.bases == n.bases
    requires |n'.fates| == |n.fates| && forall i :: 0 <= i < |n.fates| && i != q ==> n'.fates[i] == n.fates[i]
    requires forall i :: 0 <= i <= |n.fates| ==> Arrivals(n'.fates, i) == Arrivals(n.fates, i)
    ensures ReplyInv(n')
  {
    hide ToU32, Arrivals;
    forall l | 0 <= l < |n'.replies| ensures ReplyAgrees(n', l) {
      assert ReplyAgrees(n, if l < k then l else l + 1);
    }
  }

  lemma ReplyStepKeepsReplies(n: Net, step: Step)
    requires Inv(n) && (step.LoseReply? || step.Deliver?) && Enabled(n, step)
    requires SameReach(n.fates, Next(n, step).fates)
    ensures ReplyInv(Next(n, step))
  {
    SameReachArrivals(n.fates, Next(n, step).fates);
    hide ToU32, Arrivals, SameReach, SenderInv, BasesInv, QueueInv, ReplyInv, TableInv, Counter, Received;
    RemovedKeepsReplies(n, Next(n, step), step.k, n.replies[step.k].senderSequenceNumber);
  }

  lemma ReplyStepKeeps(n: Net, step: Step)
    requires Inv(n) && (step.LoseReply? || step.Deliver?) && Enabled(n, step)
    ensures Inv(Next(n, step))
  {
    ReplyStepKeepsRecords(n, step);
    ReplyStepKeepsQueue(n, step);
    ReplyStepKeepsReplies(n, step);
    BasesKept(n, Next(n, step));
    SameReachArrivals(n.fates, Next(n, step).fates);
    hide ToU32, TableInv, Counter, Arrivals, Received, SenderInv, QueueInv, ReplyInv, BasesInv, ReflectedRecord;
  }

  lemma FirstMatchIsIndex(n: Net, q: u32)
    requires SenderInv(n) && q < |n.fates|
    ensures FirstMatch(n.sender.results, q) == q
  {
    assert RecordAgrees(n, q);
    var k := FirstMatch(n.sender.results, q);
    assert RecordAgrees(n, k);
  }

  lemma CorrectKeeps(n: Net, step: Step)
    requires Inv(n) && step.Correct?
    ensures Inv(Next(n, step))
  {
    var n' := Next(n, step);
    hide ToU32, TableInv, Counter;
    forall i | 0 <= i < |n'.fates| ensures RecordAgrees(n', i) && OutboundQueued(n', i) {
      assert RecordAgrees(n, i) && OutboundQueued(n, i);
    }
    forall k | 0 <= k < |n'.outQueue| ensures QueuedAgrees(n', k) {
      assert QueuedAgrees(n, k);
    }
    forall k | 0 <= k < |n'.replies| ensures ReplyAgrees(n', k) {
      assert ReplyAgrees(n, k);
    }
  }

  lemma FatesGrow(n: Net, step: Step)
    ensures |n.fates| <= |Next(n, step).fates| <= |n.fates| + 1
    ensures |Next(n, step).fates| > |n.fates| ==> step.Send?
  {
  }

  /** The invariant holds in every state reachable within the sequence space. */
  lemma {:induction false} InvHolds(rx: Address, tx: Address, steps: seq<Step>)
    requires |Run(rx, tx, steps).fates| <= TWO_32
    ensures Inv(Run(rx, tx, steps))
  {
    if steps != [] {
      var n := Run(rx, tx, steps[..|steps| - 1]);
      var step := steps[|steps| - 1];
      FatesGrow(n, step);
      InvHolds(rx, tx, steps[..|steps| - 1]);
      hide Inv;
      if Enabled(n, step) {
        match step
        case Send(_, _, _) => SendKeeps(n, step);
        case LoseOut(_) => LoseOutKeeps(n, step);
        case Arrive(_, _) => ArriveKeeps(n, step);
        case ArriveElsewhere(_) => ArriveElsewhereKeeps(n, step);
        case Evict(_, _) => EvictKeeps(n, step);
        case LoseReply(_) => ReplyStepKeeps(n, step);
        case Deliver(_, _) => ReplyStepKeeps(n, step);
        case Correct(_) => CorrectKeeps(n, step);
      }
    }
  }

  // ----- what comes home

  /** The record of a packet that came home holds the readings of its own visit. */
  ghost predicate HomeStamped(n: Net, i: nat)
    requires i < |n.fates| == |n.sender.results| == |n.visits|
  {
    var p, v := n.sender.results[i], n.visits[i];
    n.fates[i] == Home ==>
      p.t2 == Some(Stored(v.received)) && p.t3 == Some(Stored(v.reflected)) && p.t4 == Some(v.home)
  }

  ghost predicate ReplyStamped(n: Net, k: nat)
    requires k < |n.replies|
  {
    var r := n.replies[k];
    && r.senderSequenceNumber < |n.visits|
    && DateTimeFromNtp(r.receiveTimestamp) == Stored(n.visits[r.senderSequenceNumber].received)
    && DateTimeFromNtp(r.timestamp) == Stored(n.visits[r.senderSequenceNumber].reflected)
  }

  ghost predicate StampInv(n: Net) {
    && |n.fates| == |n.sender.results| == |n.visits|
    && (forall i :: 0 <= i < |n.fates| ==> HomeStamped(n, i))
    && (forall k :: 0 <= k < |n.replies| ==> ReplyStamped(n, k))
  }

  lemma SendStamps(n: Net, step: Step)
    requires Inv(n) && StampInv(n) && step.Send?
    ensures StampInv(Next(n, step))
  {
    var n' := Next(n, step);
    hide Stored, SendRecord, TestMessage, Arrivals, ToU32;
    forall i | 0 <= i < |n'.fates| ensures HomeStamped(n', i) {
      if i < |n.fates| {
        assert HomeStamped(n, i);
      }
    }
    forall k | 0 <= k < |n'.replies| ensures ReplyStamped(n', k) {
      assert ReplyStamped(n, k) && ReplyAgrees(n, k);
    }
  }

  lemma ArriveStamps(n: Net, step: Step)
    requires Inv(n) && StampInv(n) && step.Arrive? && Enabled(n, step)
    ensures StampInv(Next(n, step))
  {
    var n' := Next(n, step);
    var q := n.outQueue[0].sequenceNumber;
    var number := Counter(n.table, n.sender.tx, n.sender.rx);
    assert QueuedAgrees(n, 0);
    ReflectionReflects(number, HeadArrival(n, step.received, step.now));
    assert n'.replies == n.replies + [Reflection(number, HeadArrival(n, step.received, step.now))];
    hide Stored, Arrived, Reflection, Counter, Arrivals, ToU32, TableInv, BasesInv, QueueInv;
    forall i | 0 <= i < |n'.fates| ensures HomeStamped(n', i) {
      assert HomeStamped(n, i);
    }
    forall k | 0 <= k < |n.replies| ensures ReplyStamped(n', k) {
      assert ReplyStamped(n, k) && ReplyAgrees(n, k);
    }
    assert ReplyStamped(n', |n.replies|);
  }

  lemma DeliverStampsRecords(n: Net, step: Step)
    requires Inv(n) && StampInv(n) && step.Deliver? && Enabled(n, step)
    ensures var n' := Next(n, step);
            && |n'.fates| == |n'.sender.results| == |n'.visits|
            && forall i :: 0 <= i < |n'.fates| ==> HomeStamped(n', i)
  {
    var n' := Next(n, step);
    var q := n.replies[step.k].senderSequenceNumber;
    assert ReplyStamped(n, step.k);
    FirstMatchIsIndex(n, q);
    hide Stored, DateTimeFromNtp, FirstMatch, Arrivals, ToU32, TableInv, BasesInv, QueueInv, ReplyInv, Counter;
    forall i | 0 <= i < |n'.fates| ensures HomeStamped(n', i) {
      assert HomeStamped(n, i);
    }
  }

  lemma DeliverStampsReplies(n: Net, step: Step)
    requires Inv(n) && StampInv(n) && step.Deliver? && Enabled(n, step)
    ensures forall k :: 0 <= k < |Next(n, step).replies| ==> ReplyStamped(Next(n, step), k)
  {
    var n' := Next(n, step);
    hide Stored, DateTimeFromNtp, Received, Arrivals, ToU32, TableInv, BasesInv, QueueInv, SenderInv, Counter;
    forall k | 0 <= k < |n'.replies| ensures ReplyStamped(n', k) {
      assert ReplyStamped(n, if k < step.k then k else k + 1);
    }
  }

  lemma DeliverStamps(n: Net, step: Step)
    requires Inv(n) && StampInv(n) && step.Deliver? && Enabled(n, step)
    ensures StampInv(Next(n, step))
  {
    DeliverStampsRecords(n, step);
    DeliverStampsReplies(n, step);
    hide Inv, HomeStamped, ReplyStamped, Next;
  }

  lemma OtherStamps(n: Net, step: Step)
    requires Inv(n) && StampInv(n) && Enabled(n, step)
    requires step.LoseOut? || step.ArriveElsewhere? || step.Evict? || step.LoseReply? || step.Correct?
    ensures StampInv(Next(n, step))
  {
    var n' := Next(n, step);
    hide Stored, DateTimeFromNtp, Arrivals, ToU32, TableInv, BasesInv, QueueInv, Counter, Arrived, Retained;
    forall i | 0 <= i < |n'.fates| ensures HomeStamped(n', i) {
      assert HomeStamped(n, i);
    }
    forall k | 0 <= k < |n'.replies| ensures ReplyStamped(n', k) {
      assert ReplyStamped(n, if step.LoseReply? && k >= step.k then k + 1 else k);
    }
  }

  /** In every run within the sequence space, the record of each packet that came home holds the clock
      readings of its own arrival, reflection and return. */
  lemma {:induction false} HomeIsStamped(rx: Address, tx: Address, steps: seq<Step>)
    requires |Run(rx, tx, steps).fates| <= TWO_32
    ensures StampInv(Run(rx, tx, steps))
  {
    if steps != [] {
      var n := Run(rx, tx, steps[..|steps| - 1]);
      var step := steps[|steps| - 1];
      FatesGrow(n, step);
      HomeIsStamped(rx, tx, steps[..|steps| - 1]);
      InvHolds(rx, tx, steps[..|steps| - 1]);
      hide Inv, StampInv;
      if Enabled(n, step) {
        match step
        case Send(_, _, _) => SendStamps(n, step);
        case Arrive(_, _) => ArriveStamps(n, step);
        case Deliver(_, _) => DeliverStamps(n, step);
        case _ => OtherStamps(n, step);
      }
    }
  }
}
