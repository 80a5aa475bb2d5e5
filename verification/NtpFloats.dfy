/** The NTP conversions of network_commons/src/time.rs operation by operation in f64, and the proof
    that the integer forms of module Time compute the same, for every field value. */
module NtpFloats {
  import opened MachineInts
  import opened Time
  import opened Floats

  // ----- the operations of the source

  /** `x / 1_000_000_000.0` */
  function DivSecond(x: real): (r: real)
    requires x >= 0.0
    ensures r >= 0.0
  {
    F64NonNegative(x / 1_000_000_000.0);
    F64(x / 1_000_000_000.0)
  }

  /** `x * 1_000_000_000.0` */
  function MulSecond(x: real): (r: real)
    requires x >= 0.0
    ensures r >= 0.0
  {
    F64NonNegative(x * 1_000_000_000.0);
    F64(x * 1_000_000_000.0)
  }

  /** `x / 2^32` */
  function DivFraction(x: real): (r: real)
    requires x >= 0.0
    ensures r >= 0.0
  {
    F64NonNegative(x / 4_294_967_296.0);
    F64(x / 4_294_967_296.0)
  }

  /** `x * 2^32` */
  function MulFraction(x: real): (r: real)
    requires x >= 0.0
    ensures r >= 0.0
  {
    F64NonNegative(x * 4_294_967_296.0);
    F64(x * 4_294_967_296.0)
  }

  /** `DateTime::timestamp`; both fields convert to f64 exactly. */
  function Timestamp(t: DateTime): (r: real)
    ensures r >= 0.0
  {
    F64NonNegative(t.sec as real + DivSecond(t.nanos as real));
    F64(t.sec as real + DivSecond(t.nanos as real))
  }

  lemma F64NonNegative(x: real)
    requires x >= 0.0
    ensures F64(x) >= 0.0
  {
    if x > 0.0 {
      F64Twice(x);
    }
  }

  lemma FloorNonNegative(x: real)
    requires x >= 0.0
    ensures x.Floor as real >= 0.0
  {
  }

  /** `as u32` truncates and saturates. */
  function AsU32(x: real): u32
    requires x >= 0.0
  {
    Saturate(x.Floor)
  }

  function FractionF(nanos: real): u32
    requires nanos >= 0.0
  {
    AsU32(MulFraction(DivSecond(nanos)))
  }

  /** `From<DateTime> for NtpTimestamp`. */
  function NtpFromDateTimeF(t: DateTime): NtpTimestamp {
    NtpTimestamp(ToU32(AsU32(Timestamp(t)) + ToU32(NTP_EPOCH)), FractionF(t.nanos as real))
  }

  /** `TryFrom<NtpTimestamp> for DateTime`; the f64 nearest to a value below 2^32, halves away from zero. */
  function DateTimeFromNtpF(t: NtpTimestamp): DateTime {
    FloorNonNegative(DivFraction(MulSecond(t.fraction as real)) + 0.5);
    DateTime(ToU32(t.seconds - NTP_EPOCH),
             AsU32((DivFraction(MulSecond(t.fraction as real)) + 0.5).Floor as real))
  }

  /** `ntp_from_timespec`. */
  function NtpFromTimespecF(secs: u64, nanos: u64): NtpTimestamp {
    F64NonNegative(ToU64(secs + NTP_EPOCH) as real);
    F64NonNegative(nanos as real);
    NtpTimestamp(AsU32(F64(ToU64(secs + NTP_EPOCH) as real)), FractionF(F64(nanos as real)))
  }

  /** `NtpTimestamp::now`. */
  function NtpNowF(clock: Duration): NtpTimestamp {
    NtpTimestamp(ToU32(ToU64(clock.secs + NTP_EPOCH)), FractionF(clock.nanos as real))
  }

  // ----- powers of two

  function Pow2(k: nat): (n: nat)
    ensures n > 0
  {
    if k == 0 then 1 else 2 * Pow2(k - 1)
  }

  lemma {:induction false} Pow2Sum(a: nat, b: nat)
    ensures Pow2(a + b) == Pow2(a) * Pow2(b)
  {
    if b > 0 {
      Pow2Sum(a, b - 1);
    }
  }

  lemma Pow2Values()
    ensures Pow2(9) == 512 && Pow2(10) == 1024 && Pow2(20) == 0x10_0000 && Pow2(21) == 0x20_0000
    ensures Pow2(30) == 0x4000_0000 && Pow2(32) == TWO_32 && Pow2(51) == 0x8_0000_0000_0000
    ensures Pow2(53) == TWO_53
  {
    assert Pow2(9) == 512 && Pow2(10) == 1024;
    Pow2Sum(10, 10);
    Pow2Sum(20, 10);
    Pow2Sum(20, 1);
    Pow2Sum(30, 1);
    Pow2Sum(30, 2);
    Pow2Sum(30, 21);
    Pow2Sum(51, 2);
  }

  lemma {:induction false} ScaledIsProduct(x: real, k: nat)
    ensures Scaled(x, k) == x * Pow2(k) as real
  {
    if k > 0 {
      ScaledIsProduct(x, k - 1);
      ScaledStep(x, k - 1);
      Doubled(x, Pow2(k - 1));
      hide Scaled;
    }
  }

  lemma Doubled(x: real, n: nat)
    ensures 2.0 * (x * n as real) == x * (2 * n) as real
  {
  }

  lemma ScaledApart(x: real, a: int, b: int)
    requires a + b == 0
    ensures Scaled(Scaled(x, a), b) == x
  {
    ScaledTwice(x, a, b);
    ScaledNone(x);
  }

  lemma {:induction false} ScaledBillion(x: real, k: nat)
    ensures Scaled(1_000_000_000.0 * x, k) == 1_000_000_000.0 * Scaled(x, k)
  {
    if k > 0 {
      ScaledBillion(x, k - 1);
    }
  }

  lemma {:induction false} BinadePower(n: nat) returns (k: nat)
    requires n > 0
    ensures Binade(n) == Pow2(k) && Pow2(k) <= n < 2 * Pow2(k)
  {
    if n == 1 {
      k := 0;
    } else {
      k := BinadePower(n / 2);
      k := k + 1;
    }
  }

  // ----- the sum of seconds and nanoseconds

  lemma ExponentBetween(z: real, whole: nat, k: nat)
    requires Pow2(k) <= whole < 2 * Pow2(k) && whole as real <= z < whole as real + 1.0
    ensures Exponent(z) == k
  {
    ScaledIsProduct(1.0, k);
    ScaledIsProduct(2.0, k);
    hide Pow2, Exponent, Scaled;
    ScaledLess(Scaled(z, 0 - k), 1.0, k);
    ScaledLess(Scaled(z, 0 - k), 2.0, k);
    ScaledApart(z, 0 - k, k);
    ExponentIs(z, k);
  }

  lemma RoundedBetween(z: real, whole: nat, k: nat)
    requires Pow2(k) <= whole < 2 * Pow2(k) && whole as real <= z < whole as real + 1.0
    ensures F64(z) == Scaled(NearestEven(Scaled(z, 52 - k)) as real, k - 52)
  {
    ExponentBetween(z, whole, k);
  }

  lemma NearestAtTop(v: real, hi: int)
    requires v <= hi as real && hi as real - v != 0.5
    ensures NearestEven(v) == hi <==> hi as real - v < 0.5
  {
  }

  /** A sum past `whole` is rounded to the next whole number when that is less than half a unit away. */
  lemma SumFloor(z: real, whole: nat, k: nat)
    requires k <= 52 && Pow2(k) <= whole < 2 * Pow2(k)
    requires whole as real <= z < whole as real + 1.0
    requires Scaled(whole as real + 1.0 - z, 53 - k) != 1.0
    ensures F64(z).Floor == if Scaled(whole as real + 1.0 - z, 53 - k) < 1.0 then whole + 1 else whole
  {
    var gap := whole as real + 1.0 - z;
    var v := Scaled(z, 52 - k);
    var n := NearestEven(v);
    hide Pow2, F64, NearestEven, Scaled;
    RoundedBetween(z, whole, k);
    var lo := ScaledInteger(whole, 52 - k);
    var hi := ScaledInteger(whole + 1, 52 - k);
    ScaledLess(z, whole as real, 52 - k);
    ScaledLess(z, whole as real + 1.0, 52 - k);
    NearestWithin(v, lo, hi);
    ScaledDifference(whole as real + 1.0, z, 52 - k);
    ScaledStep(gap, 52 - k);
    NearestAtTop(v, hi);
    ScaledApart(n as real, k - 52, 52 - k);
    ScaledLess(F64(z), whole as real, 52 - k);
    ScaledLess(F64(z), whole as real + 1.0, 52 - k);
  }

  /** A gap of m nanoseconds, known up to 2^-51 s, lies on the same side of half a unit as m does. */
  lemma GapDecides(m: nat, k: nat, gap: real)
    requires 1 <= m <= NANOS_PER_SEC && k <= 32
    requires -Scaled(1.0, -51) <= gap - m as real / 1_000_000_000.0 <= Scaled(1.0, -51)
    ensures Scaled(gap, 53 - k) != 1.0
    ensures Scaled(gap, 53 - k) < 1.0 <==> m * TWO_53 <= NANOS_PER_SEC * Pow2(k)
  {
    hide Pow2, Scaled;
    var g := 1_000_000_000.0 * gap;
    assert m as real - 0.000_000_45 < g < m as real + 0.000_000_45 by { Slack(); }
    ScaledBillion(gap, 53 - k);
    GapError(m, k, g);
    Sides(m, k);
  }

  /** In units of 2^(k - 53) s, m nanoseconds stay clear of one unit: 10^9 is 2^9 * 5^9. */
  lemma Sides(m: nat, k: nat)
    requires 1 <= m && k <= 32
    ensures var s := Scaled(m as real, 53 - k);
            if m * TWO_53 <= NANOS_PER_SEC * Pow2(k) then s <= 999_999_488.0 else s >= 1_000_000_512.0
    ensures k < 24 ==> m * TWO_53 > NANOS_PER_SEC * Pow2(k)
  {
    var c, d := Units(k);
    ScaledNat(m, 53 - k);
    hide Pow2, Scaled;
    IntegerSides(m, c, d, Pow2(k));
  }

  lemma ScaledNat(m: nat, k: nat)
    ensures Scaled(m as real, k) == (m * Pow2(k)) as real
  {
    ScaledIsProduct(m as real, k);
    hide Pow2, Scaled;
  }

  /** Multiples of 2^21 stay 512 away from a second. */
  lemma IntegerSides(m: nat, c: nat, d: nat, b: nat)
    requires m >= 1 && b > 0 && c == 0x20_0000 * d && c * b == TWO_53
    ensures if m * TWO_53 <= NANOS_PER_SEC * b then m * c <= 999_999_488 else m * c >= 1_000_000_512
    ensures c >= 0x4000_0000 ==> m * TWO_53 > NANOS_PER_SEC * b
  {
    assert m * c == 0x20_0000 * (m * d);
    SidesAgree(m * c, b, m * TWO_53);
  }

  lemma SidesAgree(p: nat, b: nat, scaled: nat)
    requires b > 0 && scaled == p * b
    ensures scaled <= NANOS_PER_SEC * b <==> p <= NANOS_PER_SEC
  {
  }

  /** How many units there are to a second. */
  lemma Units(k: nat) returns (c: nat, d: nat)
    requires k <= 32
    ensures c == Pow2(53 - k) == 0x20_0000 * d && c * Pow2(k) == TWO_53
    ensures k < 24 ==> c >= 0x4000_0000
  {
    c, d := Pow2(53 - k), Pow2(32 - k);
    Pow2Values();
    Pow2Sum(21, 32 - k);
    Pow2Sum(53 - k, k);
    if k < 24 {
      Pow2Sum(30, 23 - k);
    }
    hide Pow2;
  }

  lemma Slack()
    ensures 1_000_000_000.0 * Scaled(1.0, -51) < 0.000_000_45
  {
    Pow2Values();
    ScaledIsProduct(Scaled(1.0, -51), 51);
    ScaledApart(1.0, -51, 51);
  }

  /** The error of g stays below 512 units, or one nanosecond alone is more than a second of units. */
  lemma GapError(m: nat, k: nat, g: real)
    requires m > 0 && k <= 32 && m as real - 0.000_000_45 < g < m as real + 0.000_000_45
    ensures k >= 24 ==> -512.0 < Scaled(g, 53 - k) - Scaled(m as real, 53 - k) < 512.0
    ensures k < 24 ==> Scaled(g, 53 - k) > 1_000_000_000.0
  {
    hide Scaled;
    if k >= 24 {
      ScaledDifference(g, m as real, 53 - k);
      ScaledDifference(m as real, g, 53 - k);
      SmallScaled(g - m as real, 53 - k);
      SmallScaled(m as real - g, 53 - k);
    } else {
      LargeScaled(g, 53 - k);
    }
  }

  lemma SmallScaled(x: real, j: nat)
    requires x < 0.000_000_45 && j < 30
    ensures Scaled(x, j) < 512.0
  {
    ScaledBy2To30(0.000_000_45);
    hide Scaled;
    ScaledLess(x, 0.000_000_45, j);
    ScaledGrows(0.000_000_45, j, 30);
  }

  lemma LargeScaled(x: real, j: nat)
    requires x > 0.999_999_5 && j >= 30
    ensures Scaled(x, j) > 1_000_000_000.0
  {
    ScaledBy2To30(0.999_999_5);
    hide Scaled;
    ScaledLess(0.999_999_5, x, j);
    if j > 30 {
      ScaledGrows(0.999_999_5, 30, j);
    }
  }

  lemma ScaledBy2To30(x: real)
    ensures Scaled(x, 30) == x * 1_073_741_824.0
  {
    ScaledByWord(x);
    ScaledStep(x, 30);
    ScaledStep(x, 31);
    hide Scaled;
  }

  /** Below eight seconds the quotient is held up to 2^-51 s. */
  lemma QuotientNear(nanos: nat)
    requires 0 < nanos < TWO_32
    ensures var x := nanos as real / 1_000_000_000.0;
            -Scaled(1.0, -51) <= F64(x) - x <= Scaled(1.0, -51)
  {
    assert Scaled(1.0, 3) == 8.0;
    hide Scaled, F64;
    F64Within(nanos as real / 1_000_000_000.0, 3);
  }

  lemma SmallBinade(whole: nat) returns (k: nat)
    requires 0 < whole < 2 * TWO_32
    ensures k <= 32 && Binade(whole) == Pow2(k) && Pow2(k) <= whole < 2 * Pow2(k)
  {
    k := BinadePower(whole);
    Pow2Values();
    hide Pow2;
    if k > 32 {
      Pow2Grows(32, k);
    }
  }

  lemma {:induction false} Pow2Grows(a: nat, b: nat)
    requires a < b
    ensures 2 * Pow2(a) <= Pow2(b)
  {
    if a < b - 1 {
      Pow2Grows(a, b - 1);
    }
  }

  lemma ExactWhole(whole: nat)
    requires whole < 2 * TWO_32
    ensures F64(whole as real) == whole as real
  {
    Pow2Values();
    ScaledIsProduct(1.0, 53);
    F64Exact(whole);
  }

  lemma WholeQuotient(nanos: nat, j: nat)
    requires nanos == j * 1_000_000_000
    ensures nanos as real / 1_000_000_000.0 == j as real
  {
  }

  lemma WholeDoesNotCarry(whole: nat)
    requires whole < 2 * TWO_32
    ensures !RoundsUp(whole, 0)
  {
    BinadeAtMost(whole);
    hide Binade;
  }

  lemma WholeTimestamp(t: DateTime)
    requires t.nanos % NANOS_PER_SEC == 0
    ensures Timestamp(t) == (t.sec + t.nanos / NANOS_PER_SEC) as real && !Carries(t)
  {
    var j := t.nanos / NANOS_PER_SEC;
    WholeQuotient(t.nanos, j);
    ExactWhole(j);
    ExactWhole(t.sec + j);
    WholeDoesNotCarry(t.sec + j);
    hide F64, RoundsUp;
  }

  /** The sum of `sec` and a quotient rounded to y, short of the next whole second by m nanoseconds. */
  lemma FractionalSum(z: real, whole: nat, m: nat)
    requires whole < 2 * TWO_32 && 1 <= m < NANOS_PER_SEC
    requires -Scaled(1.0, -51) <= z - (whole as real + 1.0 - m as real / 1_000_000_000.0) <= Scaled(1.0, -51)
    requires z >= 0.0 && (whole > 0 || F64(z) == z)
    ensures F64(z).Floor == if m * TWO_53 <= NANOS_PER_SEC * Binade(whole) then whole + 1 else whole
  {
    hide F64, Scaled;
    Slack();
    assert whole as real < z < whole as real + 1.0;
    if whole > 0 {
      var k := SmallBinade(whole);
      GapDecides(m, k, whole as real + 1.0 - z);
      hide Pow2, Binade;
      SumFloor(z, whole, k);
    }
  }

  lemma PartialTimestamp(sec: u32, nanos: u32, j: nat, rest: nat)
    requires nanos == j * 1_000_000_000 + rest && 0 < rest < NANOS_PER_SEC
    ensures Timestamp(DateTime(sec, nanos)).Floor ==
            if (NANOS_PER_SEC - rest) * TWO_53 <= NANOS_PER_SEC * Binade(sec + j) then sec + j + 1 else sec + j
  {
    hide Scaled, Binade, Exponent, RoundedAt;
    var y := DivSecond(nanos as real);
    QuotientNear(nanos);
    SecondAndRest(nanos, j, rest);
    if sec + j == 0 {
      F64Twice(nanos as real / 1_000_000_000.0);
    }
    hide F64, DivSecond;
    FractionalSum(sec as real + y, sec + j, NANOS_PER_SEC - rest);
  }

  lemma SecondAndRest(nanos: nat, j: nat, rest: nat)
    requires nanos == j * 1_000_000_000 + rest
    ensures nanos as real / 1_000_000_000.0
            == j as real + 1.0 - (NANOS_PER_SEC - rest) as real / 1_000_000_000.0
  {
  }

  /** The whole seconds of the f64 sum are those of the exact one, or one more where it carries. */
  lemma TimestampFloor(t: DateTime)
    ensures Timestamp(t).Floor == t.sec + t.nanos / NANOS_PER_SEC + if Carries(t) then 1 else 0
  {
    var j, rest := t.nanos / NANOS_PER_SEC, t.nanos % NANOS_PER_SEC;
    if rest == 0 {
      WholeTimestamp(t);
    } else {
      hide Timestamp, Binade;
      PartialTimestamp(t.sec, t.nanos, j, rest);
    }
  }

  // ----- fractions

  lemma ScaledByByte(x: real)
    ensures Scaled(x, 8) == 256.0 * x
  {
    ScaledStep(x, 0);
    ScaledStep(x, 1);
    ScaledStep(x, 2);
    ScaledStep(x, 3);
    ScaledStep(x, 4);
    ScaledStep(x, 5);
    ScaledStep(x, 6);
    ScaledStep(x, 7);
  }

  lemma ScaledByTwo32(x: real)
    ensures Scaled(x, 32) == x * 4_294_967_296.0
    ensures Scaled(x, -32) == x / 4_294_967_296.0
  {
    hide Scaled;
    ScaledByWord(x);
    ScaledByWord(Scaled(x, -32));
    ScaledApart(x, -32, 32);
  }

  lemma ScaledByWord(x: real)
    ensures Scaled(x, 32) == x * 4_294_967_296.0
  {
    hide Scaled;
    ScaledByByte(x);
    ScaledByByte(Scaled(x, 8));
    ScaledTwice(x, 8, 8);
    ScaledByByte(Scaled(x, 16));
    ScaledTwice(x, 16, 8);
    ScaledByByte(Scaled(x, 24));
    ScaledTwice(x, 24, 8);
  }

  /** The f64 product with 2^32 is exact, so the fraction is that of the rounded quotient. */
  lemma FractionOfQuotient(nanos: real)
    requires 0.0 < nanos
    ensures F64(nanos / 1_000_000_000.0) > 0.0
    ensures MulFraction(DivSecond(nanos)) == F64(nanos / 1_000_000_000.0) * 4_294_967_296.0
  {
    var x := nanos / 1_000_000_000.0;
    F64Twice(x);
    ScaledByTwo32(F64(x));
    F64Scales(F64(x), 32);
    hide F64, Scaled;
  }

  lemma FractionPastOne(nanos: nat)
    requires nanos >= NANOS_PER_SEC
    ensures FractionOfNanos(nanos) >= TWO_32
  {
  }

  lemma PastOne(nanos: real)
    requires nanos >= 1_000_000_000.0
    ensures MulFraction(DivSecond(nanos)) >= 4_294_967_296.0
  {
    FractionOfQuotient(nanos);
    ScaledNone(1.0);
    hide Scaled;
    F64AtLeast(nanos / 1_000_000_000.0, 0);
  }

  /** Below a second the quotient is held up to 2^-54 s. */
  lemma SubsecondNear(nanos: nat)
    requires 0 < nanos < NANOS_PER_SEC
    ensures var x := nanos as real / 1_000_000_000.0;
            -Scaled(1.0, -54) <= F64(x) - x <= Scaled(1.0, -54)
  {
    ScaledNone(1.0);
    hide Scaled, F64;
    F64Within(nanos as real / 1_000_000_000.0, 0);
  }

  lemma TinySlack()
    ensures 0.0 < Scaled(1.0, -54) < 0.000_000_000_000_000_06
  {
    Slack();
    assert Scaled(1.0, -54) == Scaled(1.0, -51) / 8.0;
    ScaledZero(-54);
    ScaledLess(0.0, 1.0, -54);
  }

  /** A fraction that is not whole is at least 2^9 / 10^9 away from the whole ones. */
  lemma FractionFloor(nanos: nat, q: nat, r: nat, y: real)
    requires nanos * 0x80_0000 == q * 1_953_125 + r && 0 < r < 1_953_125
    requires -Scaled(1.0, -54) <= y - nanos as real / 1_000_000_000.0 <= Scaled(1.0, -54)
    ensures (y * 4_294_967_296.0).Floor == q
  {
    TinySlack();
    hide Scaled;
    var x := nanos as real / 1_000_000_000.0;
    assert x * 4_294_967_296.0 == q as real + r as real / 1_953_125.0;
  }

  /** A whole fraction fits binary64 exactly. */
  lemma WholeFraction(nanos: nat, q: nat)
    requires nanos * 0x80_0000 == q * 1_953_125 && q < TWO_32
    ensures F64(nanos as real / 1_000_000_000.0) * 4_294_967_296.0 == q as real
  {
    var x := nanos as real / 1_000_000_000.0;
    assert x == q as real / 4_294_967_296.0;
    ExactWhole(q);
    hide Scaled, F64;
    F64Scales(q as real, -32);
    ScaledByTwo32(q as real);
  }

  lemma SubsecondFraction(nanos: nat)
    requires 0 < nanos < NANOS_PER_SEC
    ensures var y := F64(nanos as real / 1_000_000_000.0) * 4_294_967_296.0;
            y.Floor == FractionOfNanos(nanos) < TWO_32
  {
    var q, r := FractionOfNanos(nanos), nanos * 0x80_0000 % 1_953_125;
    Reduced(nanos, q, r);
    if r == 0 {
      WholeFraction(nanos, q);
    } else {
      SubsecondNear(nanos);
      hide F64, Scaled;
      FractionFloor(nanos, q, r, F64(nanos as real / 1_000_000_000.0));
    }
  }

  lemma Reduced(nanos: nat, q: nat, r: nat)
    requires nanos < NANOS_PER_SEC && q == FractionOfNanos(nanos) && r == nanos * 0x80_0000 % 1_953_125
    ensures nanos * 0x80_0000 == q * 1_953_125 + r && q < TWO_32
  {
  }

  /** Encoding the nanoseconds through f64 loses nothing. */
  lemma FractionIsExact(nanos: nat)
    ensures FractionF(nanos as real) == Saturate(FractionOfNanos(nanos))
  {
    hide F64, DivSecond, MulFraction;
    if nanos >= NANOS_PER_SEC {
      PastOne(nanos as real);
      FractionPastOne(nanos);
    } else if nanos > 0 {
      FractionOfQuotient(nanos as real);
      SubsecondFraction(nanos);
    } else {
      FractionOfZero();
    }
  }

  lemma FractionOfZero()
    ensures FractionF(0.0) == 0 == FractionOfNanos(0)
  {
  }

  // ----- the conversions

  /** `From<DateTime>` computes the integer form, for every field value: the seconds of the f64 sum carry
      exactly as Carries says, and the fraction is the exact one. */
  lemma EncodesAsFloats(t: DateTime)
    ensures NtpFromDateTimeF(t) == NtpFromDateTime(t)
  {
    TimestampFloor(t);
    FractionIsExact(t.nanos);
    hide Timestamp, FractionF, FractionOfNanos, Carries;
  }

  /** A fraction times 10^9 is 2^9 times a number of 53 bits. */
  lemma ExactProduct(fraction: u32)
    ensures MulSecond(fraction as real) == Scaled((fraction * 1_953_125) as real, 9)
            == fraction as real * 1_000_000_000.0
  {
    var m := fraction * 1_953_125;
    Pow2Values();
    ScaledIsProduct(1.0, 53);
    ScaledByByte(m as real);
    ScaledStep(m as real, 8);
    hide Scaled, F64;
    F64Exact(m);
    F64Scales(m as real, 9);
  }

  lemma ExactNanos(fraction: u32)
    ensures DivFraction(MulSecond(fraction as real)) == fraction as real * 1_000_000_000.0 / 4_294_967_296.0
  {
    var x := fraction as real * 1_000_000_000.0;
    ExactProduct(fraction);
    hide Scaled, MulSecond, F64;
    ScaledByTwo32(x);
    F64Scales(x, -32);
    assert F64(x) == x by {
      F64OfProduct(fraction);
    }
  }

  lemma F64OfProduct(fraction: u32)
    ensures F64(fraction as real * 1_000_000_000.0) == fraction as real * 1_000_000_000.0
  {
    ExactProduct(fraction);
    hide F64;
  }

  /** `TryFrom<NtpTimestamp>` computes the integer form: its product and its quotient are exact. */
  lemma DecodesAsFloats(t: NtpTimestamp)
    ensures DateTimeFromNtpF(t) == DateTimeFromNtp(t)
  {
    ExactNanos(t.fraction);
    RoundedNanos(t.fraction);
    hide MulSecond, DivFraction, NanosOfFraction;
  }

  lemma RoundedNanos(fraction: u32)
    ensures (fraction as real * 1_000_000_000.0 / 4_294_967_296.0 + 0.5).Floor == NanosOfFraction(fraction)
  {
  }

  /** `ntp_from_timespec` computes the integer form, for every pair of u64 values. */
  lemma TimespecAsFloats(secs: u64, nanos: u64)
    ensures NtpFromTimespecF(secs, nanos) == NtpFromTimespec(secs, nanos)
  {
    WholeAsFloat(ToU64(secs + NTP_EPOCH));
    WholeAsFloat(nanos);
    F64NonNegative(nanos as real);
    hide F64, Scaled, FractionF, FractionOfNanos, ToU64;
    if nanos < TWO_32 {
      FractionIsExact(nanos);
    } else {
      LateFraction(F64(nanos as real));
      FractionPastOne(nanos);
    }
  }

  lemma WholeAsFloat(n: nat)
    ensures if n < TWO_32 then F64(n as real) == n as real else F64(n as real) >= 4_294_967_296.0
  {
    if n < TWO_32 {
      ExactWhole(n);
    } else {
      ScaledByWord(1.0);
      hide Scaled;
      F64AtLeast(n as real, 32);
    }
  }

  lemma LateFraction(nanos: real)
    requires nanos >= 4_294_967_296.0
    ensures FractionF(nanos) == TWO_32 - 1
  {
    PastOne(nanos);
    hide MulFraction, DivSecond;
  }

  /** `now` computes the integer form, for every clock reading. */
  lemma NowAsFloats(clock: Duration)
    ensures NtpNowF(clock) == NtpNow(clock)
  {
    FractionIsExact(clock.nanos);
    hide FractionF, FractionOfNanos;
  }
}
