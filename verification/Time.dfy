/** Timestamps of network_commons/src/time.rs and network_commons/src/interval.rs. */
module Time {
  import opened MachineInts

  const NTP_EPOCH: int := 2_208_988_800
  const NANOS_PER_SEC: int := 1_000_000_000

  type SubsecNanos = x: int | 0 <= x < 1_000_000_000

  datatype DateTime = DateTime(sec: u32, nanos: u32)

  datatype Duration = Duration(secs: u64, nanos: SubsecNanos)

  datatype Interval = Interval(duration: Duration, multiplier: int)

  datatype NtpTimestamp = NtpTimestamp(seconds: u32, fraction: u32)

  predicate Normalized(t: DateTime) {
    t.nanos < NANOS_PER_SEC
  }

  /** The instant a DateTime stands for, in nanoseconds since the Unix epoch. */
  function ToNanos(t: DateTime): nat {
    t.sec * NANOS_PER_SEC + t.nanos
  }

  function DurationNanos(d: Duration): nat {
    d.secs * NANOS_PER_SEC + d.nanos
  }

  function FromNanos(n: u64): DateTime {
    DateTime(ToU32(n / NANOS_PER_SEC), n % NANOS_PER_SEC)
  }

  /** A nanosecond count survives exactly while its seconds fit 32 bits. */
  lemma FromNanosExactIff(n: u64)
    ensures Normalized(FromNanos(n))
    ensures ToNanos(FromNanos(n)) == n <==> n < TWO_32 * NANOS_PER_SEC
  {
  }

  // ----- arithmetic

  function Add(a: DateTime, d: Duration): DateTime {
    var secs := ToU32(a.sec + ToU32(d.secs));
    var nanos := ToU32(a.nanos + d.nanos);
    DateTime(ToU32(secs + nanos / NANOS_PER_SEC), nanos % NANOS_PER_SEC)
  }

  function SubDuration(a: DateTime, d: Duration): DateTime {
    var secs0 := ToI64(a.sec - ToI64(d.secs));
    var nanos0 := a.nanos - d.nanos;
    var secs1 := if nanos0 < 0 then ToI64(secs0 - 1) else secs0;
    var nanos1 := if nanos0 < 0 then nanos0 + NANOS_PER_SEC else nanos0;
    if secs1 < 0 then DateTime(0, 0) else DateTime(ToU32(secs1), ToU32(nanos1))
  }

  function Diff(a: DateTime, b: DateTime): Interval {
    var total := ToI64(ToI64((a.sec - b.sec) * NANOS_PER_SEC) + (a.nanos - b.nanos));
    var sign := if total < 0 then -1 else 1;
    var magnitude := Abs(total);
    Interval(Duration(magnitude / NANOS_PER_SEC, magnitude % NANOS_PER_SEC), sign)
  }

  function IntervalNanos(i: Interval): int {
    ToI64(ToI64(DurationNanos(i.duration)) * i.multiplier)
  }

  function DurationLess(a: Duration, b: Duration): bool {
    a.secs < b.secs || (a.secs == b.secs && a.nanos < b.nanos)
  }

  lemma ModOfSeconds(secs: nat, rest: nat)
    requires rest < NANOS_PER_SEC
    ensures (secs * NANOS_PER_SEC + rest) % (TWO_32 * NANOS_PER_SEC)
            == (secs % TWO_32) * NANOS_PER_SEC + rest
  {
  }

  /** Addition is exact modulo the 2^32 seconds a DateTime can hold, and its result is normalized. */
  lemma AddIsModular(a: DateTime, d: Duration)
    requires Normalized(a)
    ensures Normalized(Add(a, d))
    ensures ToNanos(Add(a, d)) == (ToNanos(a) + DurationNanos(d)) % (TWO_32 * NANOS_PER_SEC)
  {
    var carry := (a.nanos + d.nanos) / NANOS_PER_SEC;
    var rest := (a.nanos + d.nanos) % NANOS_PER_SEC;
    var secs := a.sec + d.secs + carry;
    assert ToU32(a.nanos + d.nanos) == a.nanos + d.nanos;
    AddedSeconds(a.sec, d.secs, carry);
    assert ToNanos(a) + DurationNanos(d) == secs * NANOS_PER_SEC + rest;
    ModOfSeconds(secs, rest);
  }

  lemma AddedSeconds(x: nat, y: nat, carry: nat)
    ensures ToU32(ToU32(x + ToU32(y)) + carry) == ToU32(x + y + carry)
  {
    hide ToU32;
    WrapInside(y, x);
    WrapInside(x + y, carry);
  }

  /** The sum is exact precisely when it still fits the 32-bit seconds. */
  lemma AddExactIffNoOverflow(a: DateTime, d: Duration)
    requires Normalized(a)
    ensures ToNanos(Add(a, d)) == ToNanos(a) + DurationNanos(d)
            <==> a.sec + d.secs + (a.nanos + d.nanos) / NANOS_PER_SEC < TWO_32
  {
    AddIsModular(a, d);
  }

  /** The seconds of d as the source sees them when its u64 does not fit i64. */
  function Excess(d: Duration): int {
    DurationNanos(d) - TWO_63 * NANOS_PER_SEC
  }

  lemma SubDurationFits(a: DateTime, d: Duration)
    requires Normalized(a) && d.secs < TWO_63
    ensures Normalized(SubDuration(a, d))
    ensures ToNanos(SubDuration(a, d)) == Max(0, ToNanos(a) - DurationNanos(d))
  {
    FitsI64(d.secs);
    FitsI64(a.sec - d.secs);
    var borrow := if a.nanos < d.nanos then 1 else 0;
    var secs := a.sec - d.secs - borrow;
    var nanos := a.nanos - d.nanos + borrow * NANOS_PER_SEC;
    assert ToNanos(a) - DurationNanos(d) == secs * NANOS_PER_SEC + nanos;
    if secs >= 0 {
      FitsI64(secs);
      assert SubDuration(a, d) == DateTime(secs, nanos);
    } else {
      assert ToI64(a.sec - d.secs - borrow) < 0;
      assert SubDuration(a, d) == DateTime(0, 0);
    }
  }

  /** Past i64 the seconds wrap, and look like a negative duration. */
  lemma WrappedSecs(a: DateTime, d: Duration)
    requires d.secs >= TWO_63
    ensures var k := d.secs - TWO_63;
            ToI64(a.sec - ToI64(d.secs)) == if k <= a.sec then a.sec - k - TWO_63 else TWO_63 - (k - a.sec)
  {
    assert ToI64(d.secs) == d.secs - TWO_64;
  }

  lemma ClampedPastI64(a: DateTime, d: Duration)
    requires Normalized(a) && d.secs >= TWO_63 && d.secs - TWO_63 <= a.sec
    ensures SubDuration(a, d) == DateTime(0, 0) || (d.secs - TWO_63 == a.sec && a.nanos < d.nanos)
    ensures Normalized(SubDuration(a, d))
    ensures d.secs - TWO_63 == a.sec && a.nanos < d.nanos ==> SubDuration(a, d) != DateTime(0, 0)
  {
    WrappedSecs(a, d);
  }

  lemma LatePastI64(a: DateTime, d: Duration)
    requires Normalized(a) && d.secs >= TWO_63 && d.secs - TWO_63 > a.sec
    ensures Normalized(SubDuration(a, d))
    ensures SubDuration(a, d) == DateTime(0, 0) <==> a.nanos == d.nanos && (d.secs - TWO_63 - a.sec) % TWO_32 == 0
  {
    WrappedSecs(a, d);
  }

  lemma SubDurationPastI64(a: DateTime, d: Duration)
    requires Normalized(a) && d.secs >= TWO_63
    ensures Normalized(SubDuration(a, d))
    ensures SubDuration(a, d) == DateTime(0, 0)
            <==> Excess(d) <= ToNanos(a) || (Excess(d) - ToNanos(a)) % (TWO_32 * NANOS_PER_SEC) == 0
  {
    var k := d.secs - TWO_63;
    hide SubDuration;
    if k <= a.sec {
      ClampedPastI64(a, d);
      if Excess(d) > ToNanos(a) {
        assert k == a.sec && Excess(d) - ToNanos(a) == d.nanos - a.nanos;
      }
    } else {
      LatePastI64(a, d);
      SplitApart(k - a.sec, a.nanos, d.nanos);
      assert Excess(d) - ToNanos(a) == (k - a.sec) * NANOS_PER_SEC + (d.nanos - a.nanos);
    }
  }

  /** A positive gap of `secs` seconds and `dn - an` nanoseconds is a multiple of 2^32 s
      exactly when its two parts are. */
  lemma SplitApart(secs: nat, an: SubsecNanos, dn: SubsecNanos)
    requires secs >= 1
    ensures (secs * NANOS_PER_SEC + (dn - an)) % (TWO_32 * NANOS_PER_SEC) == 0
            <==> an == dn && secs % TWO_32 == 0
  {
  }

  /** Subtraction gives max(0, a - d) in normalized form, exactly when one of these holds:
      the seconds of d fit i64; or past that point d - 2^63 s is still no later than a;
      or those two are a whole multiple of 2^32 s apart. */
  lemma SubDurationExactIff(a: DateTime, d: Duration)
    requires Normalized(a)
    ensures Normalized(SubDuration(a, d))
    ensures ToNanos(SubDuration(a, d)) == Max(0, ToNanos(a) - DurationNanos(d))
            <==> d.secs < TWO_63
                 || Excess(d) <= ToNanos(a)
                 || (Excess(d) - ToNanos(a)) % (TWO_32 * NANOS_PER_SEC) == 0
  {
    if d.secs < TWO_63 {
      SubDurationFits(a, d);
    } else {
      SubDurationPastI64(a, d);
      assert ToNanos(SubDuration(a, d)) == 0 <==> SubDuration(a, d) == DateTime(0, 0);
    }
  }

  /** A duration past i64 is taken away as if it were negative: the result is late, not clamped. */
  lemma SubDurationPastI64Fails()
    ensures SubDuration(DateTime(0, 0), Duration(TWO_63 + 1, 0)) == DateTime(TWO_32 - 1, 0)
  {
  }

  lemma SecondsAndNanos(n: nat)
    ensures n / NANOS_PER_SEC * NANOS_PER_SEC + n % NANOS_PER_SEC == n
  {
  }

  lemma DiffParts(a: DateTime, b: DateTime)
    ensures DurationNanos(Diff(a, b).duration) == Abs(ToNanos(a) - ToNanos(b))
    ensures Diff(a, b).multiplier == if ToNanos(a) < ToNanos(b) then -1 else 1
  {
    var total := ToNanos(a) - ToNanos(b);
    assert (a.sec - b.sec) * NANOS_PER_SEC + (a.nanos - b.nanos) == total;
    FitsI64((a.sec - b.sec) * NANOS_PER_SEC);
    FitsI64(total);
    hide ToI64;
    SecondsAndNanos(Abs(total));
  }

  /** The difference of two DateTimes is the exact signed one, for every pair of field values. */
  lemma DiffIsExact(a: DateTime, b: DateTime)
    ensures IntervalNanos(Diff(a, b)) == ToNanos(a) - ToNanos(b)
    ensures DurationNanos(Diff(a, b).duration) == Abs(ToNanos(a) - ToNanos(b))
  {
    DiffParts(a, b);
    var total := ToNanos(a) - ToNanos(b);
    assert -TWO_63 < total < TWO_63;
    FitsI64(Abs(total));
    FitsI64(total);
  }

  lemma ToNanosInjective(a: DateTime, b: DateTime)
    requires Normalized(a) && Normalized(b) && ToNanos(a) == ToNanos(b)
    ensures a == b
  {
  }

  lemma DurationNanosInjective(d: Duration, e: Duration)
    requires DurationNanos(d) == DurationNanos(e)
    ensures d == e
  {
  }

  /** (a + d) - a = d while the sum fits. */
  lemma AddThenDiff(a: DateTime, d: Duration)
    requires Normalized(a) && a.sec + d.secs + (a.nanos + d.nanos) / NANOS_PER_SEC < TWO_32
    ensures Diff(Add(a, d), a) == Interval(d, 1)
  {
    var sum := Add(a, d);
    assert ToNanos(sum) == ToNanos(a) + DurationNanos(d) by { AddExactIffNoOverflow(a, d); }
    DiffParts(sum, a);
    DurationNanosInjective(Diff(sum, a).duration, d);
  }

  /** (a + d) - d = a while the sum fits. */
  lemma AddThenSubDuration(a: DateTime, d: Duration)
    requires Normalized(a) && a.sec + d.secs + (a.nanos + d.nanos) / NANOS_PER_SEC < TWO_32
    ensures SubDuration(Add(a, d), d) == a
  {
    var sum := Add(a, d);
    assert Normalized(sum) by { AddIsModular(a, d); }
    assert ToNanos(sum) == ToNanos(a) + DurationNanos(d) by { AddExactIffNoOverflow(a, d); }
    SubDurationFits(sum, d);
    ToNanosInjective(SubDuration(sum, d), a);
  }

  /** Durations are compared as the nanoseconds they stand for. */
  lemma DurationLessIsNanosLess(a: Duration, b: Duration)
    ensures DurationLess(a, b) <==> DurationNanos(a) < DurationNanos(b)
  {
  }

  // ----- NTP conversion

  /** The NTP era begins 70 years, 17 of them leap years, before the Unix one. */
  lemma EpochIsSeventyYears()
    ensures NTP_EPOCH == (70 * 365 + 17) * 24 * 60 * 60
  {
  }

  function FractionOfNanos(nanos: nat): nat {
    nanos * TWO_32 / NANOS_PER_SEC
  }

  /** Rounds half away from zero, as `f64::round` does. */
  function NanosOfFraction(fraction: u32): (n: nat)
    ensures n <= NANOS_PER_SEC
  {
    (2 * fraction * NANOS_PER_SEC + TWO_32) / (2 * TWO_32)
  }

  /** A float-to-u32 cast saturates. */
  function Saturate(x: nat): u32 {
    if x < TWO_32 then x else TWO_32 - 1
  }

  /** The largest power of two not above n, or 0. */
  function Binade(n: nat): nat {
    if n < 2 then n else 2 * Binade(n / 2)
  }

  /** The f64 nearest to `whole` seconds and `rest` nanoseconds is the next whole second:
      what is missing to it is at most half a unit in the last place. */
  predicate RoundsUp(whole: nat, rest: SubsecNanos) {
    (NANOS_PER_SEC - rest) * TWO_53 <= NANOS_PER_SEC * Binade(whole)
  }

  predicate Carries(t: DateTime) {
    RoundsUp(t.sec + t.nanos / NANOS_PER_SEC, t.nanos % NANOS_PER_SEC)
  }

  /** `timestamp() as u32`; EncodesAsFloats ties it to the f64 operations. */
  function WholeSeconds(t: DateTime): u32 {
    Saturate(t.sec + t.nanos / NANOS_PER_SEC + if Carries(t) then 1 else 0)
  }

  function NtpFromDateTime(t: DateTime): NtpTimestamp {
    NtpTimestamp(ToU32(WholeSeconds(t) + ToU32(NTP_EPOCH)), Saturate(FractionOfNanos(t.nanos)))
  }

  function DateTimeFromNtp(t: NtpTimestamp): DateTime {
    DateTime(ToU32(t.seconds - NTP_EPOCH), NanosOfFraction(t.fraction))
  }

  function NtpFromTimespec(secs: u64, nanos: u64): NtpTimestamp {
    NtpTimestamp(Saturate(ToU64(secs + NTP_EPOCH)), Saturate(FractionOfNanos(nanos)))
  }

  /** `NtpTimestamp::now` on the time since the Unix epoch: it wraps the seconds and makes no f64 sum. */
  function NtpNow(clock: Duration): NtpTimestamp {
    NtpTimestamp(ToU32(ToU64(clock.secs + NTP_EPOCH)), Saturate(FractionOfNanos(clock.nanos)))
  }

  /** A DateTime as it comes back from NTP. */
  function Stored(t: DateTime): DateTime {
    DateTimeFromNtp(NtpFromDateTime(t))
  }

  /** A normalized DateTime comes back with its nanoseconds, on both sides of the 2036 era change,
      and with its second, or the next one when the f64 sum carries. */
  lemma NtpRoundTrip(t: DateTime)
    requires Normalized(t)
    ensures Stored(t) == DateTime(if Carries(t) then Saturate(t.sec + 1) else t.sec, t.nanos)
  {
    hide Carries;
    NanosRoundTrip(t.nanos);
    SecondsRoundTrip(WholeSeconds(t));
  }

  lemma SecondsRoundTrip(secs: u32)
    ensures ToU32(ToU32(secs + ToU32(NTP_EPOCH)) - NTP_EPOCH) == secs
  {
  }

  /** The f64 sum does not carry, or it saturates in the last second there is. */
  predicate SurvivesNtp(t: DateTime) {
    (Normalized(t) && !Carries(t)) || (t.sec == TWO_32 - 1 && t.nanos <= NANOS_PER_SEC)
  }

  /** Exactly these come back from NTP as they were. */
  lemma NtpRoundTripIff(t: DateTime)
    ensures Stored(t) == t <==> SurvivesNtp(t)
  {
    if Normalized(t) {
      NtpRoundTrip(t);
    } else {
      hide Carries;
      SecondsRoundTrip(WholeSeconds(t));
      assert NanosOfFraction(TWO_32 - 1) == NANOS_PER_SEC;
    }
  }

  /** Powers of two are their own binade, and so are their products. */
  lemma {:induction false} BinadeProduct(a: nat, b: nat)
    requires a > 0 && b > 0 && Binade(a) == a && Binade(b) == b
    ensures Binade(a * b) == a * b
  {
    if a > 1 {
      var h := a / 2;
      assert a == 2 * h;
      BinadeProduct(h, b);
      DoubledProduct(h, b);
      BinadeDoubles(h * b);
      hide Binade;
    }
  }

  lemma DoubledProduct(h: nat, b: nat)
    requires h > 0 && b > 0
    ensures 2 * h * b == 2 * (h * b) && h * b > 0
  {
  }

  lemma BinadeDoubles(n: nat)
    requires n > 0
    ensures Binade(2 * n) == 2 * Binade(n)
  {
    var m := 2 * n;
    assert m / 2 == n;
    assert Binade(m) == 2 * Binade(m / 2);
    hide Binade;
  }

  lemma {:induction false} BinadeWithin(n: nat, b: nat)
    requires b > 0 && Binade(b) == b && b <= n < 2 * b
    ensures Binade(n) == b
  {
    if b > 1 {
      BinadeWithin(n / 2, b / 2);
    }
  }

  /** The binade of the present time, until 2038. */
  lemma BinadeOfToday(n: nat)
    requires 0x4000_0000 <= n < 0x8000_0000
    ensures Binade(n) == 0x4000_0000
  {
    assert Binade(2) == 2;
    assert Binade(8) == 8;
    assert Binade(32) == 32;
    BinadeProduct(32, 32);
    BinadeProduct(1024, 1024);
    BinadeProduct(0x10_0000, 1024);
    BinadeWithin(n, 0x4000_0000);
  }

  lemma {:induction false} BinadeAtMost(n: nat)
    ensures Binade(n) <= n
  {
    if n >= 2 {
      BinadeAtMost(n / 2);
    }
  }

  /** Half a second into the year 2000: 100 years, 25 of them leap years, and 2^31 units since the NTP era. */
  lemma YearTwoThousand()
    ensures NtpFromDateTime(DateTime(946_684_800, 500_000_000))
            == NtpFromTimespec(946_684_800, 500_000_000)
            == NtpNow(Duration(946_684_800, 500_000_000))
            == NtpTimestamp((100 * 365 + 24) * 24 * 60 * 60, 0x8000_0000)
  {
    BinadeAtMost(946_684_800);
  }

  /** A present-day time that comes back one second late. */
  lemma RoundTripCarries()
    ensures Stored(DateTime(1_763_000_000, 999_999_881)) == DateTime(1_763_000_001, 999_999_881)
  {
    BinadeOfToday(1_763_000_000);
    NtpRoundTrip(DateTime(1_763_000_000, 999_999_881));
  }

  lemma NanosRoundTrip(nanos: nat)
    requires nanos < NANOS_PER_SEC
    ensures FractionOfNanos(nanos) < TWO_32
    ensures NanosOfFraction(FractionOfNanos(nanos)) == nanos
  {
  }

  lemma FractionStrictlyIncreasing(m: nat, n: nat)
    requires m < n
    ensures FractionOfNanos(m) < FractionOfNanos(n)
  {
  }

  /** Decoding a fraction and encoding it again moves it by at most 3 units of 2^-32 s;
      a decoded timestamp is normalized unless its fraction is one of the last two. */
  lemma FractionRoundTripError(fraction: u32)
    ensures NanosOfFraction(fraction) < NANOS_PER_SEC <==> fraction <= TWO_32 - 3
    ensures fraction <= TWO_32 - 3 ==>
              -3 <= FractionOfNanos(NanosOfFraction(fraction)) - fraction <= 2
  {
  }

  /** The two encoders agree exactly while the NTP seconds fit 32 bits, past which one wraps and the
      other saturates, and the f64 sum of the one does not carry; the other makes no such sum. */
  lemma EncodersAgreeIff(t: DateTime)
    requires Normalized(t)
    ensures NtpFromTimespec(t.sec, t.nanos) == NtpFromDateTime(t)
            <==> t.sec + NTP_EPOCH < TWO_32 && !Carries(t)
  {
    hide Carries;
  }

  /** They part for a time of today and in the first second of the next NTP era. */
  lemma EncodersPart()
    ensures NtpFromTimespec(1_763_000_000, 999_999_881) != NtpFromDateTime(DateTime(1_763_000_000, 999_999_881))
    ensures NtpFromTimespec(2_085_978_496, 0) != NtpFromDateTime(DateTime(2_085_978_496, 0))
  {
    BinadeOfToday(1_763_000_000);
    EncodersAgreeIff(DateTime(1_763_000_000, 999_999_881));
    EncodersAgreeIff(DateTime(2_085_978_496, 0));
  }

  /** A clock reading as a DateTime, while its seconds fit 32 bits. */
  function ReadingOf(t: DateTime): Duration
    requires Normalized(t)
  {
    Duration(t.sec, t.nanos)
  }

  /** The third encoder agrees with the first exactly when the f64 sum of that one does not carry, or
      saturates in the last second there is. */
  lemma NowAgreesIff(t: DateTime)
    requires Normalized(t)
    ensures NtpNow(ReadingOf(t)) == NtpFromDateTime(t) <==> SurvivesNtp(t)
  {
    hide Carries, FractionOfNanos;
    assert ToU64(t.sec + NTP_EPOCH) == t.sec + NTP_EPOCH;
    SecondsRoundTrip(t.sec);
    SecondsRoundTrip(WholeSeconds(t));
  }

  /** It agrees with the second exactly while the NTP seconds fit 32 bits, or when the seconds that
      wrapped happen to be the ones saturation gives. */
  lemma NowAgreesWithTimespecIff(clock: Duration)
    ensures NtpNow(clock) == NtpFromTimespec(clock.secs, clock.nanos)
            <==> ToU64(clock.secs + NTP_EPOCH) < TWO_32 || ToU32(ToU64(clock.secs + NTP_EPOCH)) == TWO_32 - 1
  {
  }

  /** Decoded, it is the reading itself, with the seconds modulo 2^32. */
  lemma NowRoundTrip(t: DateTime)
    requires Normalized(t)
    ensures DateTimeFromNtp(NtpNow(ReadingOf(t))) == t
  {
    NanosRoundTrip(t.nanos);
    SecondsRoundTrip(t.sec);
    hide FractionOfNanos, NanosOfFraction;
  }
}
