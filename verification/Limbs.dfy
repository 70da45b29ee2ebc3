/** Fixed-width machine words, and the value of a little-endian array of 32-bit limbs. */
module MachineWords {
  newtype u8 = x: int | 0 <= x < 0x100
  newtype u32 = x: int | 0 <= x < 0x1_0000_0000
  newtype u64 = x: int | 0 <= x < 0x1_0000_0000_0000_0000
  newtype i32 = x: int | -0x8000_0000 <= x < 0x8000_0000
  newtype i64 = x: int | -0x8000_0000_0000_0000 <= x < 0x8000_0000_0000_0000

  const TWO32 := 0x1_0000_0000
  const INT32_MIN := -0x8000_0000
  const INT32_MAX := 0x7FFF_FFFF
  const INT64_MIN := -0x8000_0000_0000_0000
  const INT64_MAX := 0x7FFF_FFFF_FFFF_FFFF

  /** The cast `(uint32_t)x` of a 64-bit word. */
  function Low32(x: u64): u32 {
    (x % 0x1_0000_0000) as u32
  }

  /** `x >> 32` of a 64-bit word. */
  function High32(x: u64): u64 {
    x / 0x1_0000_0000
  }

  /** Multiplying by a non-negative factor keeps the order. */
  lemma MulMono(x: int, y: int, p: int)
    requires x <= y && 0 <= p
    ensures x * p <= y * p
  {
    assert 0 <= (y - x) * p;
  }

  /** x * y, named so that a proof can treat the product as one quantity. */
  function Times(x: int, y: int): int {
    x * y
  }

  /** A product of two limbs plus two more limbs still fits 64 bits. */
  lemma MulAddFits(a: int, b: int, c: int, d: int)
    requires 0 <= a < TWO32 && 0 <= b < TWO32 && 0 <= c < TWO32 && 0 <= d < TWO32
    ensures 0 <= a * b
    ensures a * b + c + d < 0x1_0000_0000_0000_0000
  {
    MulMono(0, a, b);
    MulMono(a, TWO32 - 1, b);
  }

  lemma Euclid(x: int, d: int)
    requires 0 < d
    ensures x == (x / d) * d + x % d && 0 <= x % d < d
  {
  }

  lemma QuotientIs(v: int, m: int, q: int, r: int)
    requires m > 0 && v == q * m + r && 0 <= r < m
    ensures v / m == q
  {
    Euclid(v, m);
    var d := q - v / m;
    assert d * m == v % m - r;
    if d > 0 {
      MulMono(1, d, m);
    } else if d < 0 {
      MulMono(d, -1, m);
    }
  }

  /** Dividing by d and then by p is dividing by d * p. */
  lemma DivTwice(v: int, d: nat, p: nat)
    requires d > 0 && p > 0
    ensures d * p > 0 && v / d / p == v / (d * p)
  {
    var a, b := v / d, v % d;
    var q, r := a / p, a % p;
    Euclid(v, d);
    Euclid(a, p);
    MulMono(1, d, p);
    MulMono(r, p - 1, d);
    assert v == (q * p + r) * d + b;
    assert (q * p + r) * d == q * (d * p) + r * d;
    QuotientIs(v, d * p, q, r * d + b);
  }
}

module Limbs {
  import opened MachineWords

  /** x * 2^(32 i), by repeated multiplication with a constant so that reasoning stays linear. */
  function Shift(x: int, i: nat): int {
    if i == 0 then x else TWO32 * Shift(x, i - 1)
  }

  /** The number a little-endian limb sequence denotes: the sum of s[i] * 2^(32 i). */
  function Val(s: seq<u32>): int
  {
    if s == [] then 0 else Val(s[..|s| - 1]) + Shift(s[|s| - 1] as int, |s| - 1)
  }

  lemma {:induction false} ShiftAdd(x: int, y: int, i: nat)
    ensures Shift(x + y, i) == Shift(x, i) + Shift(y, i)
  {
    if i > 0 {
      ShiftAdd(x, y, i - 1);
    }
  }

  lemma {:induction false} ShiftUp(x: int, i: nat)
    ensures Shift(TWO32 * x, i) == Shift(x, i + 1)
  {
    if i > 0 {
      ShiftUp(x, i - 1);
    }
  }

  lemma {:induction false} ShiftShift(x: int, i: nat, j: nat)
    ensures Shift(Shift(x, i), j) == Shift(x, i + j)
  {
    if j > 0 {
      ShiftShift(x, i, j - 1);
    }
  }

  lemma {:induction false} ShiftMul(a: int, x: int, i: nat)
    ensures Shift(a * x, i) == a * Shift(x, i)
  {
    if i > 0 {
      ShiftMul(a, x, i - 1);
      Regroup(a, Shift(x, i - 1));
    }
  }

  lemma Regroup(a: int, y: int)
    ensures TWO32 * (a * y) == a * (TWO32 * y)
  {
  }

  lemma {:induction false} ShiftSign(x: int, i: nat)
    ensures x == 0 ==> Shift(x, i) == 0
    ensures x > 0 ==> Shift(x, i) >= x
    ensures x < 0 ==> Shift(x, i) <= x
  {
    if i > 0 {
      ShiftSign(x, i - 1);
    }
  }

  lemma ShiftMono(x: int, y: int, i: nat)
    requires x <= y
    ensures Shift(x, i) <= Shift(y, i)
  {
    ShiftAdd(x, y - x, i);
    ShiftSign(y - x, i);
  }

  lemma ValPush(s: seq<u32>, i: nat)
    requires i < |s|
    ensures Val(s[..i + 1]) == Val(s[..i]) + Shift(s[i] as int, i)
  {
    assert s[..i + 1][..i] == s[..i];
  }

  lemma ArrayPush(a: array<u32>, i: nat)
    requires i < a.Length
    ensures Val(a[..i + 1]) == Val(a[..i]) + Shift(a[i] as int, i)
  {
    assert a[..i + 1][..i] == a[..i];
  }

  lemma {:induction false} ValBound(s: seq<u32>)
    ensures 0 <= Val(s) < Shift(1, |s|)
  {
    if s != [] {
      var n := |s| - 1;
      ValBound(s[..n]);
      TopBound(s[n] as int, n);
    }
  }

  lemma TopBound(x: int, n: nat)
    requires 0 <= x < TWO32
    ensures 0 <= Shift(x, n) <= Shift(1, n + 1) - Shift(1, n)
  {
    ShiftSign(x, n);
    ShiftMono(x, TWO32 - 1, n);
    ShiftAdd(TWO32 - 1, 1, n);
    ShiftUp(1, n);
  }

  /** The top limb bounds the value on both sides. */
  lemma ValTop(s: seq<u32>)
    requires s != []
    ensures Shift(s[|s| - 1] as int, |s| - 1) <= Val(s) < Shift(s[|s| - 1] as int + 1, |s| - 1)
  {
    var n := |s| - 1;
    ValBound(s[..n]);
    ShiftAdd(s[n] as int, 1, n);
  }

  lemma {:induction false} ValSplit(s: seq<u32>, i: nat)
    requires i <= |s|
    ensures Val(s) == Val(s[..i]) + Shift(Val(s[i..]), i)
  {
    if i == |s| {
      assert s[..i] == s;
      ShiftSign(0, i);
    } else {
      var n := |s| - 1;
      ValSplit(s[..n], i);
      assert s[..n][..i] == s[..i];
      assert s[..n][i..] == s[i..][..n - i];
      var x := Shift(s[n] as int, n - i);
      ShiftShift(s[n] as int, n - i, i);
      ShiftAdd(Val(s[i..][..n - i]), x, i);
    }
  }

  lemma {:induction false} ValUpdate(s: seq<u32>, k: nat, x: u32)
    requires k < |s|
    ensures Val(s[k := x]) == Val(s) + Shift(x as int - s[k] as int, k)
  {
    var n := |s| - 1;
    var t := s[k := x];
    if k == n {
      assert t[..n] == s[..n];
      ShiftAdd(s[k] as int, x as int - s[k] as int, k);
    } else {
      ValUpdate(s[..n], k, x);
      assert t[..n] == s[..n][k := x];
    }
  }

  /** Zero limbs on top do not change the value. */
  lemma {:induction false} ValTrim(s: seq<u32>, n: nat)
    requires n <= |s| && forall i :: n <= i < |s| ==> s[i] == 0
    ensures Val(s[..n]) == Val(s)
  {
    if n == |s| {
      assert s[..n] == s;
    } else {
      ValTrim(s[..|s| - 1], n);
      assert s[..|s| - 1][..n] == s[..n];
      ShiftSign(0, |s| - 1);
    }
  }

  /** No leading zero limb. */
  predicate Trimmed(s: seq<u32>) {
    s == [] || s[|s| - 1] != 0
  }

  /** A number has one representation of each length. */
  lemma {:induction false} ValInjective(s: seq<u32>, t: seq<u32>)
    requires |s| == |t| && Val(s) == Val(t)
    ensures s == t
  {
    if s != [] {
      var n := |s| - 1;
      ValTop(s);
      ValTop(t);
      var x, y := s[n] as int, t[n] as int;
      if x < y {
        ShiftMono(x + 1, y, n);
      } else if y < x {
        ShiftMono(y + 1, x, n);
      }
      assert x == y;
      ValInjective(s[..n], t[..n]);
      assert s == s[..n] + [s[n]] && t == t[..n] + [t[n]];
    }
  }

  lemma {:induction false} ShiftLonger(m: nat, n: nat)
    requires m <= n
    ensures Shift(1, m) <= Shift(1, n)
  {
    if m < n {
      ShiftLonger(m, n - 1);
      ShiftSign(1, n - 1);
    }
  }

  /** A longer trimmed magnitude is a larger number. */
  lemma ValShorter(s: seq<u32>, t: seq<u32>)
    requires |s| < |t| && Trimmed(t)
    ensures Val(s) < Val(t)
  {
    ValBound(s);
    ValTop(t);
    ShiftLonger(|s|, |t| - 1);
    ShiftMono(1, t[|t| - 1] as int, |t| - 1);
  }

  /** Trimmed representations are unique. */
  lemma TrimmedUnique(s: seq<u32>, t: seq<u32>)
    requires Trimmed(s) && Trimmed(t) && Val(s) == Val(t)
    ensures s == t
  {
    if |s| < |t| {
      ValShorter(s, t);
    } else if |t| < |s| {
      ValShorter(t, s);
    } else {
      ValInjective(s, t);
    }
  }

  lemma ShiftNone(x: int)
    ensures Shift(x, 0) == x
  {
  }
}
