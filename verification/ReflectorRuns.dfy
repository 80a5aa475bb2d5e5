/** What the reflector's table keeps over every sequence of arrivals and evictions. */
module ReflectorRuns {
  import opened MachineInts
  import opened Wrappers
  import opened Time
  import opened Packets
  import opened Sessions
  import opened Reflectors

  /** The counter equals the record count, and record i was given number i. */
  ghost predicate Numbered(s: SessionState) {
    && s.results != []
    && s.seqNumber == ToU32(|s.results|)
    && forall i :: 0 <= i < |s.results| ==> NumberedRecord(s.results[i], i)
  }

  ghost predicate NumberedRecord(p: PacketResults, i: nat) {
    p.reflectorSeq == Some(ToU32(i)) && p.t2.Some?
  }

  ghost predicate TableInv(table: seq<SessionState>, rx: Address) {
    && (forall i :: 0 <= i < |table| ==> table[i].rx == rx && Numbered(table[i]))
    && (forall i, j :: 0 <= i < j < |table| ==> table[i].tx != table[j].tx)
  }

  function Lookup(table: seq<SessionState>, rx: Address, tx: Address): Option<SessionState> {
    var k := Find(table, rx, tx);
    if k < |table| then Some(table[k]) else None
  }

  lemma LookupAt(table: seq<SessionState>, rx: Address, i: nat)
    requires TableInv(table, rx) && i < |table|
    ensures Lookup(table, rx, table[i].tx) == Some(table[i])
  {
  }

  lemma LookupNone(table: seq<SessionState>, rx: Address, tx: Address)
    requires forall i :: 0 <= i < |table| ==> table[i].tx != tx
    ensures Lookup(table, rx, tx) == None
  {
  }

  /** An arrival numbers its packet with its session's counter, advances that counter
      and leaves every other session as it was. */
  lemma ArrivalIsLocal(table: seq<SessionState>, rx: Address, a: Arrival, tx: Address)
    requires MIN_UNAUTH_PADDING <= a.message.paddingLength
    ensures tx != a.source ==> Lookup(Arrived(table, rx, a), rx, tx) == Lookup(table, rx, tx)
    ensures Counter(Arrived(table, rx, a), rx, a.source) == ToU32(Counter(table, rx, a.source) + 1)
  {
    var after := Arrived(table, rx, a);
    var k := Find(table, rx, a.source);
    FindAfterArrival(table, after, rx, a.source);
    if tx != a.source {
      FindAfterArrival(table, after, rx, tx);
    }
  }

  lemma FindAfterArrival(table: seq<SessionState>, after: seq<SessionState>, rx: Address, tx: Address)
    requires |table| <= |after| <= |table| + 1
    requires forall i :: 0 <= i < |table| ==> after[i].rx == table[i].rx && after[i].tx == table[i].tx
    ensures var k, k' := Find(table, rx, tx), Find(after, rx, tx);
            if k < |table| then k' == k
            else k' == if |after| > |table| && after[|table|].rx == rx && after[|table|].tx == tx
                       then |table| else |after|
  {
  }

  lemma ArrivalKeepsInv(table: seq<SessionState>, rx: Address, a: Arrival)
    requires MIN_UNAUTH_PADDING <= a.message.paddingLength
    requires TableInv(table, rx)
    ensures TableInv(Arrived(table, rx, a), rx)
  {
    var k := Find(table, rx, a.source);
    var after := Arrived(table, rx, a);
    var record := ReflectedRecord(Reflection(Counter(table, rx, a.source), a));
    if k < |table| {
      SentKeepsNumbering(table[k], record);
    } else {
      assert Numbered(after[k]);
    }
  }

  lemma SentKeepsNumbering(s: SessionState, record: PacketResults)
    requires Numbered(s) && record.reflectorSeq == Some(s.seqNumber) && record.t2.Some?
    ensures Numbered(Sent(s, record))
  {
  }

  /** An arrival adds one record to its session and changes none: the packet's own number and send stamp,
      the session's counter, and the two clock readings. */
  lemma ArrivalRecords(table: seq<SessionState>, rx: Address, a: Arrival)
    requires MIN_UNAUTH_PADDING <= a.message.paddingLength
    ensures var before, after := Lookup(table, rx, a.source), Lookup(Arrived(table, rx, a), rx, a.source);
            && after.Some?
            && after.value.results == (if before.Some? then before.value.results else []) +
               [PacketResults(a.message.sequenceNumber, Some(Counter(table, rx, a.source)),
                              DateTimeFromNtp(a.message.timestamp),
                              Some(Stored(a.received)), Some(Stored(a.now)), None)]
  {
    FindAfterArrival(table, Arrived(table, rx, a), rx, a.source);
    hide NtpFromDateTime, DateTimeFromNtp;
  }

  // ----- eviction

  ghost predicate Increasing(idx: seq<nat>) {
    forall i, j :: 0 <= i < j < |idx| ==> idx[i] < idx[j]
  }

  /** `kept` is `table` at the positions of idx, and idx holds exactly the positions that are not stale. */
  ghost predicate KeepsAt(kept: seq<SessionState>, table: seq<SessionState>, nows: seq<DateTime>,
                          refWait: u64, idx: seq<nat>)
    requires |nows| == |table|
  {
    && Increasing(idx)
    && |kept| == |idx|
    && (forall i :: 0 <= i < |idx| ==> idx[i] < |table| && kept[i] == table[idx[i]])
    && (forall i :: 0 <= i < |table| ==> (i in idx <==> !IsStale(table[i], nows[i], refWait)))
  }

  /** Eviction keeps, in order, exactly the sessions that are not stale. */
  lemma {:induction false} RetainedKeeps(table: seq<SessionState>, nows: seq<DateTime>, refWait: u64)
    requires |nows| == |table|
    ensures exists idx :: KeepsAt(Retained(table, nows, refWait), table, nows, refWait, idx)
  {
    if table == [] {
      var none: seq<nat> := [];
      assert KeepsAt(Retained(table, nows, refWait), table, nows, refWait, none);
    } else {
      hide KeepsAt, IsStale;
      var n := |table| - 1;
      var before := Retained(table[..n], nows[..n], refWait);
      RetainedKeeps(table[..n], nows[..n], refWait);
      var idx :| KeepsAt(before, table[..n], nows[..n], refWait, idx);
      var idx' := if IsStale(table[n], nows[n], refWait) then idx else idx + [n];
      KeepsAtNext(before, table, nows, refWait, idx);
      RetainedLast(table, nows, refWait);
      hide Retained;
      assert KeepsAt(Retained(table, nows, refWait), table, nows, refWait, idx');
    }
  }

  lemma KeepsAtNext(kept: seq<SessionState>, table: seq<SessionState>, nows: seq<DateTime>,
                    refWait: u64, idx: seq<nat>)
    requires |nows| == |table| && table != []
    requires KeepsAt(kept, table[..|table| - 1], nows[..|table| - 1], refWait, idx)
    ensures var n := |table| - 1;
            if IsStale(table[n], nows[n], refWait) then KeepsAt(kept, table, nows, refWait, idx)
            else KeepsAt(kept + [table[n]], table, nows, refWait, idx + [n])
  {
  }

  /** In a reachable table, staleness is about the distance of the newest receive stamp from now,
      in either direction. */
  lemma StaleIffFar(s: SessionState, now: DateTime, refWait: u64)
    requires Numbered(s)
    ensures IsStale(s, now, refWait)
            <==> Abs(ToNanos(now) - ToNanos(s.results[|s.results| - 1].t2.value)) > refWait * NANOS_PER_SEC
  {
    var last := s.results[|s.results| - 1];
    assert NumberedRecord(last, |s.results| - 1);
    DiffIsExact(now, last.t2.value);
    DurationLessIsNanosLess(Duration(refWait, 0), Diff(now, last.t2.value).duration);
  }

  lemma RetainedKeepsInv(table: seq<SessionState>, rx: Address, nows: seq<DateTime>, refWait: u64)
    requires |nows| == |table| && TableInv(table, rx)
    ensures TableInv(Retained(table, nows, refWait), rx)
  {
    RetainedKeeps(table, nows, refWait);
    var kept := Retained(table, nows, refWait);
    var idx :| KeepsAt(kept, table, nows, refWait, idx);
    forall i, j | 0 <= i < j < |kept| ensures kept[i].tx != kept[j].tx {
      assert idx[i] < idx[j];
    }
  }

  /** The session of an address pair survives eviction unchanged or goes as a whole. */
  lemma EvictionIsLocal(table: seq<SessionState>, rx: Address, nows: seq<DateTime>, refWait: u64, tx: Address)
    requires |nows| == |table| && TableInv(table, rx)
    ensures var k := Find(table, rx, tx);
            Lookup(Retained(table, nows, refWait), rx, tx)
            == if k < |table| && !IsStale(table[k], nows[k], refWait) then Some(table[k]) else None
  {
    RetainedKeeps(table, nows, refWait);
    RetainedKeepsInv(table, rx, nows, refWait);
    hide IsStale, Retained, Numbered;
    var kept := Retained(table, nows, refWait);
    var idx :| KeepsAt(kept, table, nows, refWait, idx);
    var k := Find(table, rx, tx);
    if k < |table| && !IsStale(table[k], nows[k], refWait) {
      var i :| 0 <= i < |idx| && idx[i] == k;
      LookupAt(kept, rx, i);
    } else {
      forall i | 0 <= i < |kept| ensures kept[i].tx != tx {
        assert idx[i] in idx && idx[i] != k;
      }
      LookupNone(kept, rx, tx);
    }
  }

  /** A session survives the eviction after its arrival exactly when the clock is then within ref_wait of
      the arrival's receive stamp. */
  lemma ArrivalSurvivesIff(table: seq<SessionState>, rx: Address, a: Arrival, now: DateTime, refWait: u64)
    requires MIN_UNAUTH_PADDING <= a.message.paddingLength && TableInv(table, rx)
    ensures var after := Arrived(table, rx, a);
            Lookup(Retained(after, seq(|after|, _ => now), refWait), rx, a.source).Some?
            <==> Abs(ToNanos(now) - ToNanos(Stored(a.received))) <= refWait * NANOS_PER_SEC
  {
    var after := Arrived(table, rx, a);
    ArrivalRecords(table, rx, a);
    ArrivalKeepsInv(table, rx, a);
    EvictionIsLocal(after, rx, seq(|after|, _ => now), refWait, a.source);
    hide Arrived, Retained, Stored, DateTimeFromNtp, NtpFromDateTime;
    var k := Find(after, rx, a.source);
    assert k < |after|;
    StaleIffFar(after[k], now, refWait);
    hide IsStale;
  }

  /** Eviction restarts the numbering of an address pair exactly when it takes its session away. */
  lemma NumberingContinuesIff(table: seq<SessionState>, rx: Address, nows: seq<DateTime>, refWait: u64, tx: Address)
    requires |nows| == |table| && TableInv(table, rx)
    ensures var k := Find(table, rx, tx);
            Counter(Retained(table, nows, refWait), rx, tx) == Counter(table, rx, tx)
            <==> !(k < |table| && IsStale(table[k], nows[k], refWait)) || Counter(table, rx, tx) == 0
  {
    EvictionIsLocal(table, rx, nows, refWait, tx);
    hide IsStale, Retained, TableInv;
  }

  // ----- runs

  datatype TableStep = Arrive(a: Arrival) | Evict(nows: seq<DateTime>, refWait: u64)

  /** A step whose guard fails leaves the table alone. */
  function Next(table: seq<SessionState>, rx: Address, step: TableStep): seq<SessionState> {
    match step
    case Arrive(a) => if MIN_UNAUTH_PADDING <= a.message.paddingLength then Arrived(table, rx, a) else table
    case Evict(nows, refWait) => if |nows| == |table| then Retained(table, nows, refWait) else table
  }

  function Run(steps: seq<TableStep>, rx: Address): seq<SessionState> {
    if steps == [] then []
    else Next(Run(steps[..|steps| - 1], rx), rx, steps[|steps| - 1])
  }

  /** After any run there is at most one session for an address pair, its counter is its record
      count and its records carry the numbers 0, 1, 2, ... in order. */
  lemma {:induction false} EveryTableIsNumbered(steps: seq<TableStep>, rx: Address)
    ensures TableInv(Run(steps, rx), rx)
  {
    if steps != [] {
      var before := Run(steps[..|steps| - 1], rx);
      EveryTableIsNumbered(steps[..|steps| - 1], rx);
      match steps[|steps| - 1]
      case Arrive(a) =>
        if MIN_UNAUTH_PADDING <= a.message.paddingLength {
          ArrivalKeepsInv(before, rx, a);
        }
      case Evict(nows, refWait) =>
        if |nows| == |before| {
          RetainedKeepsInv(before, rx, nows, refWait);
        }
    }
  }

  lemma FirstArrival(rx: Address, a: Arrival)
    requires MIN_UNAUTH_PADDING <= a.message.paddingLength
    ensures var table := Arrived([], rx, a);
            && |table| == 1 && table[0].rx == rx && table[0].tx == a.source
            && Counter([], rx, a.source) == 0 && Counter(table, rx, a.source) == 1
            && |table[0].results| == 1 && table[0].results[0].t2 == Some(Stored(a.received))
  {
    hide NtpFromDateTime, DateTimeFromNtp;
  }

  /** Such restarts happen: with one packet before an eviction and one after it, both get number 0. */
  lemma NumberingRestarts(rx: Address, a: Arrival, now: DateTime, refWait: u64)
    requires MIN_UNAUTH_PADDING <= a.message.paddingLength
    requires Abs(ToNanos(now) - ToNanos(Stored(a.received))) > refWait * NANOS_PER_SEC
    ensures Counter(Run([], rx), rx, a.source) == 0
    ensures Counter(Run([Arrive(a)], rx), rx, a.source) == 1
    ensures Counter(Run([Arrive(a), Evict([now], refWait)], rx), rx, a.source) == 0
  {
    var table := Arrived([], rx, a);
    FirstArrival(rx, a);
    assert [Arrive(a)][..0] == [] && [Arrive(a), Evict([now], refWait)][..1] == [Arrive(a)];
    assert Run([Arrive(a)], rx) == table;
    assert Run([Arrive(a), Evict([now], refWait)], rx) == Retained(table, [now], refWait);
    EveryTableIsNumbered([Arrive(a)], rx);
    hide Run, Stored, Arrived, Retained;
    StaleIffFar(table[0], now, refWait);
    assert Find(table, rx, a.source) == 0;
    EvictionIsLocal(table, rx, [now], refWait, a.source);
  }
}
