/** Fixed-width integers of the source, written out over unbounded `int`.
    The conversions are the wrapping ones of a release build. */
module MachineInts {
  const TWO_31: int := 0x8000_0000
  const TWO_32: int := 0x1_0000_0000
  const TWO_53: int := 0x20_0000_0000_0000
  const TWO_63: int := 0x8000_0000_0000_0000
  const TWO_64: int := 0x1_0000_0000_0000_0000

  type u32 = x: int | 0 <= x < 0x1_0000_0000
  type u64 = x: int | 0 <= x < 0x1_0000_0000_0000_0000
  type i32 = x: int | -0x8000_0000 <= x < 0x8000_0000
  type i64 = x: int | -0x8000_0000_0000_0000 <= x < 0x8000_0000_0000_0000

  function ToU32(x: int): u32 {
    x % TWO_32
  }

  function ToU64(x: int): u64 {
    x % TWO_64
  }

  function ToI32(x: int): i32 {
    (x + TWO_31) % TWO_32 - TWO_31
  }

  function ToI64(x: int): i64 {
    (x + TWO_63) % TWO_64 - TWO_63
  }

  lemma FitsI64(x: int)
    requires -TWO_63 <= x < TWO_63
    ensures ToI64(x) == x
  {
  }

  lemma FitsI32(x: int)
    requires -TWO_31 <= x < TWO_31
    ensures ToI32(x) == x
  {
  }

  lemma ModShift(x: int, q: int)
    ensures (x + q * TWO_32) % TWO_32 == x % TWO_32
  {
    var y := x + q * TWO_32;
    var k := y / TWO_32 - x / TWO_32 - q;
    assert x % TWO_32 - y % TWO_32 == k * TWO_32;
    assert -TWO_32 < k * TWO_32 < TWO_32;
    assert k == 0;
  }

  lemma WrapShift(x: int, q: int)
    ensures ToI32(x + q * TWO_32) == ToI32(x)
    ensures ToU32(x + q * TWO_32) == ToU32(x)
  {
    ModShift(x, q);
    ModShift(x + TWO_31, q);
    assert x + q * TWO_32 + TWO_31 == x + TWO_31 + q * TWO_32;
  }

  /** Wrapping commutes with addition and subtraction, so only the final wrap matters. */
  lemma WrappedSum(x: int, y: int)
    ensures ToI32(ToI32(x) + y) == ToI32(x + y)
    ensures ToI32(y - ToI32(x)) == ToI32(y - x)
    ensures ToU32(ToI32(x)) == ToU32(x)
  {
    var q := (x + TWO_31) / TWO_32;
    assert ToI32(x) == x - q * TWO_32;
    hide ToI32, ToU32;
    WrapShift(x + y, -q);
    WrapShift(y - x, q);
    WrapShift(x, -q);
  }

  lemma WrapInside(x: int, y: int)
    ensures ToU32(ToU32(x) + y) == ToU32(x + y)
  {
    var q := x / TWO_32;
    assert ToU32(x) == x - q * TWO_32;
    hide ToU32;
    WrapShift(x + y, -q);
  }

  lemma WrapNext(m: nat)
    ensures ToU32(ToU32(m) + 1) == ToU32(m + 1)
    ensures m < TWO_32 ==> ToU32(m) == m
  {
  }

  function Max(x: int, y: int): int {
    if x < y then y else x
  }

  function Min(x: int, y: int): int {
    if x < y then x else y
  }

  function Abs(x: int): nat {
    if x < 0 then -x else x
  }
}
