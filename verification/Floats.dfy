/** Binary64 arithmetic on non-negative numbers: each operation is the exact one, rounded to
    53 significant bits with ties to even. No value here is near overflow or underflow. */
module Floats {
  import opened MachineInts

  /** x times 2^k. */
  function Scaled(x: real, k: int): (r: real)
    decreases Abs(k)
  {
    if k == 0 then x else if k > 0 then 2.0 * Scaled(x, k - 1) else Scaled(x, k + 1) / 2.0
  }

  lemma ScaledStep(x: real, k: int)
    ensures Scaled(x, k + 1) == 2.0 * Scaled(x, k)
  {
  }

  lemma {:induction false} ScaledTwice(x: real, a: int, b: int)
    ensures Scaled(Scaled(x, a), b) == Scaled(x, a + b)
    decreases Abs(b)
  {
    if b > 0 {
      ScaledTwice(x, a, b - 1);
      ScaledStep(x, a + b - 1);
      ScaledStep(Scaled(x, a), b - 1);
    } else if b < 0 {
      ScaledTwice(x, a, b + 1);
      ScaledStep(x, a + b);
      ScaledStep(Scaled(x, a), b);
    }
  }

  lemma {:induction false} ScaledLess(x: real, y: real, k: int)
    ensures x < y <==> Scaled(x, k) < Scaled(y, k)
    ensures x == y <==> Scaled(x, k) == Scaled(y, k)
    decreases Abs(k)
  {
    if k != 0 {
      ScaledLess(x, y, if k > 0 then k - 1 else k + 1);
    }
  }

  lemma {:induction false} ScaledDifference(x: real, y: real, k: int)
    ensures Scaled(x - y, k) == Scaled(x, k) - Scaled(y, k)
    decreases Abs(k)
  {
    if k != 0 {
      ScaledDifference(x, y, if k > 0 then k - 1 else k + 1);
    }
  }

  lemma {:induction false} ScaledZero(k: int)
    ensures Scaled(0.0, k) == 0.0
    decreases Abs(k)
  {
    if k != 0 {
      ScaledZero(if k > 0 then k - 1 else k + 1);
    }
  }

  lemma {:induction false} ScaledInteger(m: nat, k: nat) returns (n: nat)
    ensures Scaled(m as real, k) == n as real
  {
    n := m;
    if k > 0 {
      n := ScaledInteger(m, k - 1);
      n := 2 * n;
    }
  }

  /** The exponent of x: x is at least 2^e and less than 2^(e + 1). */
  function Exponent(x: real): (e: int)
    requires x > 0.0
    ensures 1.0 <= Scaled(x, -e) < 2.0
    decreases if x < 1.0 then (1.0 / x).Floor + 1 else x.Floor
  {
    if x < 1.0 then
      DoubledInverse(x);
      var e := Exponent(2.0 * x);
      ScaledTwice(x, 1, -e);
      e - 1
    else if x >= 2.0 then
      var e := Exponent(x / 2.0);
      ScaledTwice(x, -1, -e);
      e + 1
    else 0
  }

  lemma DoubledInverse(x: real)
    requires 0.0 < x < 1.0
    ensures 2.0 * x < 1.0 ==> (1.0 / (2.0 * x)).Floor < (1.0 / x).Floor
    ensures 2.0 * x >= 1.0 ==> (2.0 * x).Floor < (1.0 / x).Floor + 1
  {
    assert 1.0 / x > 1.0;
    assert 1.0 / (2.0 * x) == (1.0 / x) / 2.0;
  }

  lemma {:induction false} ScaledGrows(x: real, a: int, b: int)
    requires x > 0.0 && a < b
    ensures Scaled(x, b) >= 2.0 * Scaled(x, a) > 0.0
    decreases b - a
  {
    ScaledStep(x, b - 1);
    ScaledZero(a);
    ScaledLess(0.0, x, a);
    if a < b - 1 {
      ScaledGrows(x, a, b - 1);
    }
  }

  lemma ExponentIs(x: real, k: int)
    requires x > 0.0 && 1.0 <= Scaled(x, -k) < 2.0
    ensures Exponent(x) == k
  {
    var e := Exponent(x);
    if e < k {
      ScaledGrows(x, -k, -e);
    } else if k < e {
      ScaledGrows(x, -e, -k);
    }
  }

  function NearestEven(v: real): int {
    var q := v.Floor;
    var r := v - q as real;
    if r < 0.5 || (r == 0.5 && q % 2 == 0) then q else q + 1
  }

  /** x rounded to a multiple of 2^(e - 52). */
  function RoundedAt(x: real, e: int): real {
    Scaled(NearestEven(Scaled(x, 52 - e)) as real, e - 52)
  }

  /** The binary64 number nearest to x. */
  function F64(x: real): real
    requires x >= 0.0
  {
    if x == 0.0 then 0.0 else RoundedAt(x, Exponent(x))
  }

  lemma NearestWithin(v: real, lo: int, hi: int)
    requires lo as real <= v <= hi as real
    ensures lo <= NearestEven(v) <= hi
    ensures v == lo as real ==> NearestEven(v) == lo
  {
  }

  /** Half a unit in the last place bounds the error. */
  lemma RoundedNear(x: real, e: int)
    ensures -Scaled(0.5, e - 52) <= RoundedAt(x, e) - x <= Scaled(0.5, e - 52)
  {
    var v := Scaled(x, 52 - e);
    var n := NearestEven(v) as real;
    assert n - 0.5 <= v <= n + 0.5;
    ScaledTwice(x, 52 - e, e - 52);
    hide Scaled, NearestEven;
    assert Scaled(x, 0) == x by { ScaledNone(x); }
    ScaledDifference(n, v, e - 52);
    ScaledDifference(v, n, e - 52);
    ScaledLess(n - v, 0.5, e - 52);
    ScaledLess(v - n, 0.5, e - 52);
  }

  lemma ScaledNone(x: real)
    ensures Scaled(x, 0) == x
  {
  }

  lemma ExponentShift(x: real, k: int)
    requires x > 0.0
    ensures Scaled(x, k) > 0.0 && Exponent(Scaled(x, k)) == Exponent(x) + k
  {
    ScaledZero(k);
    ScaledLess(0.0, x, k);
    ScaledTwice(x, k, -(Exponent(x) + k));
    hide Scaled, Exponent;
    ExponentIs(Scaled(x, k), Exponent(x) + k);
  }

  /** Scaling by a power of two does not round. */
  lemma F64Scales(x: real, k: int)
    requires x >= 0.0
    ensures Scaled(x, k) >= 0.0 && F64(Scaled(x, k)) == Scaled(F64(x), k)
  {
    if x == 0.0 {
      ScaledZero(k);
    } else {
      var e := Exponent(x);
      ExponentShift(x, k);
      ScaledTwice(x, k, 52 - e - k);
      hide Exponent, NearestEven, Scaled;
      ScaledTwice(NearestEven(Scaled(x, 52 - e)) as real, e - 52, k);
    }
  }

  /** A whole number of at most 53 bits is exact. */
  lemma F64Exact(m: nat)
    requires m as real <= Scaled(1.0, 53)
    ensures F64(m as real) == m as real
  {
    hide Exponent, NearestEven, Scaled;
    if m > 0 {
      var x := m as real;
      var e := Exponent(x);
      ScaledTwice(x, 52 - e, e - 52);
      ScaledNone(x);
      var n := Significand(m);
      NearestWithin(n as real, n, n);
    }
  }

  /** The significand of a whole number of at most 53 bits is whole. */
  lemma Significand(m: nat) returns (n: nat)
    requires 0.0 < m as real <= Scaled(1.0, 53)
    ensures Scaled(m as real, 52 - Exponent(m as real)) == n as real
  {
    hide Exponent, Scaled;
    var x := m as real;
    var e := Exponent(x);
    if e <= 52 {
      n := ScaledInteger(m, 52 - e);
    } else {
      ScaledLess(Scaled(1.0, 53), x, -e);
      ScaledTwice(1.0, 53, -e);
      ScaledNone(1.0);
      if e > 53 {
        ScaledGrows(1.0, 53 - e, 0);
      }
      assert Scaled(x, -53) == 1.0;
      ScaledTwice(x, -53, 52);
      n := ScaledInteger(1, 52);
    }
  }

  /** What is rounded stays as it is. */
  lemma F64Twice(x: real)
    requires x > 0.0
    ensures F64(x) > 0.0 && F64(F64(x)) == F64(x)
  {
    hide Exponent, NearestEven, Scaled;
    var e := Exponent(x);
    var n := NearestEven(Scaled(x, 52 - e));
    SignificandBounds(x);
    F64Exact(n);
    F64Scales(n as real, e - 52);
    ScaledZero(e - 52);
    ScaledLess(0.0, n as real, e - 52);
  }

  lemma SignificandBounds(x: real)
    requires x > 0.0
    ensures 0.0 < Scaled(1.0, 52) <= NearestEven(Scaled(x, 52 - Exponent(x))) as real <= Scaled(1.0, 53)
  {
    hide Exponent, NearestEven, Scaled;
    var e := Exponent(x);
    ScaledTwice(x, -e, 52);
    ScaledLess(Scaled(x, -e), 1.0, 52);
    ScaledLess(Scaled(x, -e), 2.0, 52);
    ScaledZero(52);
    ScaledLess(0.0, 1.0, 52);
    assert Scaled(2.0, 52) == Scaled(1.0, 53) by {
      ScaledTwice(1.0, 1, 52);
      ScaledStep(1.0, 0);
      ScaledNone(1.0);
    }
    var lo := ScaledInteger(1, 52);
    var hi := ScaledInteger(1, 53);
    NearestWithin(Scaled(x, 52 - e), lo, hi);
  }

  /** Below 2^k the error is at most 2^(k - 54). */
  lemma F64Within(x: real, k: int)
    requires 0.0 < x < Scaled(1.0, k)
    ensures -Scaled(1.0, k - 54) <= F64(x) - x <= Scaled(1.0, k - 54)
  {
    hide Exponent, NearestEven, Scaled, RoundedAt;
    var e := Exponent(x);
    RoundedNear(x, e);
    ScaledLess(x, Scaled(1.0, k), 0 - k);
    ScaledTwice(1.0, k, 0 - k);
    ScaledNone(1.0);
    if e > k {
      ScaledGrows(x, 0 - e, 0 - k);
    }
    assert Scaled(0.5, e - 52) == Scaled(1.0, e - 53) by {
      ScaledTwice(1.0, -1, e - 52);
      ScaledStep(1.0, -1);
    }
    if e < k - 1 {
      ScaledGrows(1.0, e - 53, k - 54);
    }
  }

  /** Rounding does not cross a power of two. */
  lemma F64AtLeast(x: real, k: int)
    requires 0.0 < Scaled(1.0, k) <= x
    ensures Scaled(1.0, k) <= F64(x)
  {
    hide Exponent, NearestEven, Scaled;
    var e := Exponent(x);
    SignificandBounds(x);
    ScaledLess(NearestEven(Scaled(x, 52 - e)) as real, Scaled(1.0, 52), e - 52);
    ScaledTwice(1.0, 52, e - 52);
    ScaledLess(x, Scaled(1.0, k), 0 - k);
    ScaledTwice(1.0, k, 0 - k);
    ScaledNone(1.0);
    if e < k {
      ScaledGrows(x, 0 - k, 0 - e);
    } else if k < e {
      ScaledGrows(1.0, k, e);
    }
  }
}
