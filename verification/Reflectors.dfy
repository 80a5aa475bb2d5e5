/** twamp_light_reflector/reflector.rs: the table of sessions a reflector keeps. */
module Reflectors {
  import opened MachineInts
  import opened Wrappers
  import opened Time
  import opened Packets
  import opened Sessions

  /** A datagram that does not parse is an error. One with less padding than a reflection drops is a panic:
      the length of the answer's padding wraps below zero, and no vector has that capacity. */
  datatype RxError = Malformed | Panic

  /** A datagram that parsed, with its receive stamp and the clock at reflection. */
  datatype Arrival = Arrival(source: Address, message: SenderMessage, received: DateTime, now: DateTime)

  /** Index of the first session for the address pair, or the length when there is none. */
  function Find(table: seq<SessionState>, rx: Address, tx: Address): (k: nat)
    ensures k <= |table|
    ensures k < |table| ==> table[k].rx == rx && table[k].tx == tx
    ensures forall i :: 0 <= i < k ==> !(table[i].rx == rx && table[i].tx == tx)
  {
    if table == [] || (table[0].rx == rx && table[0].tx == tx) then 0 else 1 + Find(table[1..], rx, tx)
  }

  /** The number the next packet of the address pair will be given. */
  function Counter(table: seq<SessionState>, rx: Address, tx: Address): u32 {
    var k := Find(table, rx, tx);
    if k < |table| then table[k].seqNumber else 0
  }

  function Reflection(number: u32, a: Arrival): ReflectedMessage
    requires MIN_UNAUTH_PADDING <= a.message.paddingLength
  {
    ReflectedMessage(number, NtpFromDateTime(a.now), NtpFromDateTime(a.received),
                     a.message.sequenceNumber, a.message.timestamp,
                     a.message.paddingLength - MIN_UNAUTH_PADDING)
  }

  /** What an answer says: the two clock readings of the reflector as stored by its encoder, everything the
      packet said of itself, and as many octets as the packet had. */
  ghost predicate Reflects(r: ReflectedMessage, m: SenderMessage, received: DateTime, now: DateTime) {
    && DateTimeFromNtp(r.receiveTimestamp) == Stored(received)
    && DateTimeFromNtp(r.timestamp) == Stored(now)
    && r.senderSequenceNumber == m.sequenceNumber
    && r.senderTimestamp == m.timestamp
    && ReflectedOctets(r) == SenderOctets(m)
  }

  lemma ReflectionReflects(number: u32, a: Arrival)
    requires MIN_UNAUTH_PADDING <= a.message.paddingLength
    ensures Reflects(Reflection(number, a), a.message, a.received, a.now)
    ensures Reflection(number, a).reflectorSequenceNumber == number
  {
    hide NtpFromDateTime, DateTimeFromNtp;
  }

  /** The table after an arrival: its session, old or new, gets the reflected record. */
  function Arrived(table: seq<SessionState>, rx: Address, a: Arrival): seq<SessionState>
    requires MIN_UNAUTH_PADDING <= a.message.paddingLength
  {
    var record := ReflectedRecord(Reflection(Counter(table, rx, a.source), a));
    var k := Find(table, rx, a.source);
    if k < |table| then table[k := Sent(table[k], record)]
    else table + [Sent(NewSession(rx, a.source), record)]
  }

  /** The eviction test: the newest record's receive stamp is more than ref_wait seconds from now. */
  predicate IsStale(s: SessionState, now: DateTime, refWait: u64) {
    && s.results != []
    && s.results[|s.results| - 1].t2.Some?
    && DurationLess(Duration(refWait, 0), Diff(now, s.results[|s.results| - 1].t2.value).duration)
  }

  /** `retain` with one clock reading for each session. */
  function Retained(table: seq<SessionState>, nows: seq<DateTime>, refWait: u64): seq<SessionState>
    requires |nows| == |table|
  {
    if table == [] then []
    else
      var n := |table| - 1;
      var before := Retained(table[..n], nows[..n], refWait);
      if IsStale(table[n], nows[n], refWait) then before else before + [table[n]]
  }

  lemma RetainedLast(table: seq<SessionState>, nows: seq<DateTime>, refWait: u64)
    requires |nows| == |table| && table != []
    ensures var n := |table| - 1;
            var before := Retained(table[..n], nows[..n], refWait);
            Retained(table, nows, refWait)
            == if IsStale(table[n], nows[n], refWait) then before else before + [table[n]]
  {
  }

  lemma AppendState(kept: seq<Session>, session: Session)
    requires NoAlias(kept) && session !in kept
    ensures NoAlias(kept + [session]) && States(kept + [session]) == States(kept) + [session.State()]
  {
  }

  class Reflector {
    const address: Address
    var sessions: seq<Session>

    ghost predicate Valid()
      reads this
    {
      NoAlias(sessions)
    }

    function Table(): (t: seq<SessionState>)
      reads this, sessions
      ensures |t| == |sessions|
    {
      States(sessions)
    }

    constructor (address: Address)
      ensures Valid() && Table() == [] && this.address == address
    {
      this.address := address;
      sessions := [];
    }

    method RxCallback(source: Address, datagram: Option<SenderMessage>, received: DateTime, now: DateTime)
      returns (r: Result<ReflectedMessage, RxError>)
      requires Valid()
      modifies this, sessions
      ensures Valid()
      ensures datagram.None? ==> r == Failure(Malformed)
      ensures datagram.Some? && datagram.value.paddingLength < MIN_UNAUTH_PADDING ==> r == Failure(Panic)
      ensures r.Failure? ==> Table() == old(Table())
      ensures r.Success? ==> datagram.Some? && Reflects(r.value, datagram.value, received, now)
      ensures datagram.Some? && MIN_UNAUTH_PADDING <= datagram.value.paddingLength ==>
                var a := Arrival(source, datagram.value, received, now);
                && r == Success(Reflection(Counter(old(Table()), address, source), a))
                && Table() == Arrived(old(Table()), address, a)
    {
      if datagram.None? {
        return Failure(Malformed);
      }
      var k := 0;
      while k < |sessions| && !(sessions[k].rxSocketAddress == address && sessions[k].txSocketAddress == source)
        invariant 0 <= k <= |sessions|
        invariant forall i :: 0 <= i < k ==>
          !(sessions[i].rxSocketAddress == address && sessions[i].txSocketAddress == source)
      {
        k := k + 1;
      }
      assert forall i :: 0 <= i < |sessions| ==>
        Table()[i].rx == sessions[i].rxSocketAddress && Table()[i].tx == sessions[i].txSocketAddress;
      assert k == Find(Table(), address, source);
      if datagram.value.paddingLength < MIN_UNAUTH_PADDING {
        return Failure(Panic);
      }
      var a := Arrival(source, datagram.value, received, now);
      ReflectionReflects(Counter(Table(), address, source), a);
      hide Reflects, Reflection, ReflectedRecord;
      if k < |sessions| {
        var session := sessions[k];
        var reflected := Reflection(session.seqNumber, a);
        session.AddToSent(ReflectedRecord(reflected));
        assert Table() == Arrived(old(Table()), address, a);
        r := Success(reflected);
      } else {
        var session := new Session(address, source);
        var reflected := Reflection(session.seqNumber, a);
        session.AddToSent(ReflectedRecord(reflected));
        sessions := sessions + [session];
        assert Table() == Arrived(old(Table()), address, a);
        r := Success(reflected);
      }
    }

    method CleanupStaleSessions(refWait: u64, nows: seq<DateTime>)
      requires Valid() && |nows| == |sessions|
      modifies this
      ensures Valid()
      ensures Table() == Retained(old(Table()), nows, refWait)
      ensures forall s :: s in sessions ==> s in old(sessions)
    {
      var kept: seq<Session> := [];
      ghost var table := Table();
      var i := 0;
      while i < |sessions|
        invariant 0 <= i <= |sessions| && sessions == old(sessions) && Table() == table
        invariant forall s :: s in kept ==> s in sessions[..i]
        invariant NoAlias(kept)
        invariant States(kept) == Retained(table[..i], nows[..i], refWait)
      {
        var latest := sessions[i].GetLatestResult();
        var stale := false;
        if latest.Some? && latest.value.t2.Some? {
          var diff := Diff(nows[i], latest.value.t2.value);
          stale := DurationLess(Duration(refWait, 0), diff.duration);
        }
        assert stale == IsStale(table[i], nows[i], refWait);
        assert table[..i + 1][..i] == table[..i] && nows[..i + 1][..i] == nows[..i];
        assert sessions[i] !in sessions[..i];
        if !stale {
          AppendState(kept, sessions[i]);
          kept := kept + [sessions[i]];
        }
        i := i + 1;
      }
      assert table[..i] == table && nows[..i] == nows;
      sessions := kept;
    }
  }
}
