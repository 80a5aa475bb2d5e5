/** Test messages and packet records of twamp_common/data_model.rs and message.rs. */
module Packets {
  import opened MachineInts
  import opened Wrappers
  import opened Time

  datatype Address = Address(octets: seq<bv8>, port: nat)

  const MIN_UNAUTH_PADDING: nat := 27

  datatype SenderMessage = SenderMessage(
    sequenceNumber: u32,
    timestamp: NtpTimestamp,
    paddingLength: nat)

  datatype ReflectedMessage = ReflectedMessage(
    reflectorSequenceNumber: u32,
    timestamp: NtpTimestamp,
    receiveTimestamp: NtpTimestamp,
    senderSequenceNumber: u32,
    senderTimestamp: NtpTimestamp,
    paddingLength: nat)

  /** Octets on the wire: number, timestamp, error estimate and padding. */
  function SenderOctets(m: SenderMessage): nat {
    4 + 8 + 2 + m.paddingLength
  }

  /** Number, timestamp, error estimate, zeros, receive timestamp, then the sender's number, timestamp, error
      estimate, zeros and time to live, and padding. */
  function ReflectedOctets(m: ReflectedMessage): nat {
    4 + 8 + 2 + 2 + 8 + (4 + 8 + 2 + 2 + 1) + m.paddingLength
  }

  datatype PacketResults = PacketResults(
    senderSeq: u32,
    reflectorSeq: Option<u32>,
    t1: DateTime,
    t2: Option<DateTime>,
    t3: Option<DateTime>,
    t4: Option<DateTime>)

  function SentRecord(m: SenderMessage): PacketResults {
    PacketResults(m.sequenceNumber, None, DateTimeFromNtp(m.timestamp), None, None, None)
  }

  function ReflectedRecord(m: ReflectedMessage): PacketResults {
    PacketResults(
      m.senderSequenceNumber,
      Some(m.reflectorSequenceNumber),
      DateTimeFromNtp(m.senderTimestamp),
      Some(DateTimeFromNtp(m.receiveTimestamp)),
      Some(DateTimeFromNtp(m.timestamp)),
      None)
  }

  function CalculateRtt(p: PacketResults): Option<Duration> {
    if p.t4.None? then None else Some(Diff(p.t4.value, p.t1).duration)
  }

  function CalculateOwdForward(p: PacketResults): Option<Interval> {
    if p.t2.None? then None else Some(Diff(p.t2.value, p.t1))
  }

  function CalculateOwdBackward(p: PacketResults): Option<Interval> {
    if p.t4.None? || p.t3.None? then None else Some(Diff(p.t4.value, p.t3.value))
  }

  function CalculateRpd(p: PacketResults): Option<Duration> {
    if p.t3.None? || p.t2.None? then None else Some(Diff(p.t3.value, p.t2.value).duration)
  }

  predicate IsAnswered(p: PacketResults) {
    p.reflectorSeq.Some?
  }

  /** The reflector's number and the three remote or return stamps come and go together. */
  predicate AllOrNone(p: PacketResults) {
    && (p.reflectorSeq.Some? <==> p.t2.Some?)
    && (p.reflectorSeq.Some? <==> p.t3.Some?)
    && (p.reflectorSeq.Some? <==> p.t4.Some?)
  }
}
