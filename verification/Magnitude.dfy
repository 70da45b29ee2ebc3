/** The magnitude primitives of runtime/bigint.c: schoolbook loops over 32-bit limbs.
    A `const uint32_t *` operand is a sequence; the buffers a routine fills are arrays.
    Every intermediate is a `u64` or `i64`, so verification includes that none overflows. */
module Magnitude {
  import opened MachineWords
  import opened Limbs

  function Max(x: nat, y: nat): nat {
    if x < y then y else x
  }

  /** The limb count after dropping leading zero limbs, as the `while (n && !limb[n-1]) n--` loops do. */
  function Trim(s: seq<u32>): (n: nat)
    ensures n <= |s| && Trimmed(s[..n]) && Val(s[..n]) == Val(s)
    ensures forall i :: n <= i < |s| ==> s[i] == 0
  {
    if s == [] || s[|s| - 1] != 0 then
      assert s[..|s|] == s;
      |s|
    else
      var t := s[..|s| - 1];
      var n := Trim(t);
      assert t[..n] == s[..n];
      ShiftSign(0, |s| - 1);
      n
  }

  /** Trimmed magnitudes compare first by length. */
  method Compare(a: seq<u32>, b: seq<u32>) returns (c: int)
    ensures c == if Val(a) < Val(b) then -1 else if Val(a) > Val(b) then 1 else 0
  {
    var na, nb := |a|, |b|;
    while na > 0 && a[na - 1] == 0
      invariant 0 <= na <= |a| && forall i :: na <= i < |a| ==> a[i] == 0
    {
      na := na - 1;
    }
    while nb > 0 && b[nb - 1] == 0
      invariant 0 <= nb <= |b| && forall i :: nb <= i < |b| ==> b[i] == 0
    {
      nb := nb - 1;
    }
    ValTrim(a, na);
    ValTrim(b, nb);
    if na != nb {
      if na < nb {
        ValShorter(a[..na], b[..nb]);
        return -1;
      }
      ValShorter(b[..nb], a[..na]);
      return 1;
    }
    var i := na;
    while i > 0
      invariant 0 <= i <= na
      invariant forall k :: i <= k < na ==> a[k] == b[k]
    {
      i := i - 1;
      if a[i] != b[i] {
        assert a[..na][i + 1..] == b[..na][i + 1..];
        FirstDifference(a[..na], b[..na], i);
        return if a[i] < b[i] then -1 else 1;
      }
    }
    assert a[..na] == b[..na];
    return 0;
  }

  lemma TopOrder(s: seq<u32>, t: seq<u32>)
    requires |s| == |t| > 0
    ensures s[|s| - 1] < t[|t| - 1] ==> Val(s) < Val(t)
    ensures s[|s| - 1] > t[|t| - 1] ==> Val(s) > Val(t)
  {
    var n := |s| - 1;
    ValTop(s);
    ValTop(t);
    if s[n] < t[n] {
      ShiftMono(s[n] as int + 1, t[n] as int, n);
    } else if s[n] > t[n] {
      ShiftMono(t[n] as int + 1, s[n] as int, n);
    }
  }

  /** Equal limbs above position i: the order of the numbers is the order of limb i. */
  lemma FirstDifference(s: seq<u32>, t: seq<u32>, i: nat)
    requires i < |s| == |t| && s[i + 1..] == t[i + 1..] && s[i] != t[i]
    ensures s[i] < t[i] ==> Val(s) < Val(t)
    ensures s[i] > t[i] ==> Val(s) > Val(t)
  {
    ValSplit(s, i + 1);
    ValSplit(t, i + 1);
    TopOrder(s[..i + 1], t[..i + 1]);
  }

  /** One column: a limb and a carry out that together make `total` keep its weight. */
  lemma Column(lo: int, carry: int, total: int, i: nat)
    requires lo + carry * TWO32 == total
    ensures Shift(lo, i) + Shift(carry, i + 1) == Shift(total, i)
  {
    ShiftUp(carry, i);
    ShiftAdd(lo, TWO32 * carry, i);
  }

  lemma ShiftAdd3(x: int, y: int, z: int, i: nat)
    ensures Shift(x + y + z, i) == Shift(x, i) + Shift(y, i) + Shift(z, i)
  {
    ShiftAdd(x, y, i);
    ShiftAdd(x + y, z, i);
  }

  /** Limb i of a number, or 0 past its end. */
  function LimbAt(s: seq<u32>, i: nat): u32 {
    if i < |s| then s[i] else 0
  }

  /** The value of the low limbs, when i may be past the end. */
  function LowVal(s: seq<u32>, i: nat): int {
    Val(s[..if i < |s| then i else |s|])
  }

  lemma LowPush(s: seq<u32>, i: nat)
    ensures LowVal(s, i + 1) == LowVal(s, i) + Shift(LimbAt(s, i) as int, i)
  {
    if i < |s| {
      ValPush(s, i);
    } else {
      ShiftSign(0, i);
    }
  }

  lemma LowAll(s: seq<u32>, i: nat)
    requires |s| <= i
    ensures LowVal(s, i) == Val(s)
  {
    assert s[..|s|] == s;
  }

  lemma NothingYet(x: seq<u32>, y: seq<u32>)
    ensures Val([]) == 0 && Shift(0, 0) == 0 && LowVal(x, 0) == 0 && LowVal(y, 0) == 0
  {
    assert x[..0] == [] && y[..0] == [];
  }

  method Add(x: seq<u32>, y: seq<u32>, out: array<u32>) returns (n: nat)
    requires Max(|x|, |y|) < out.Length
    modifies out
    ensures n <= Max(|x|, |y|) + 1
    ensures Val(out[..n]) == Val(x) + Val(y)
    ensures Trimmed(x) && Trimmed(y) ==> Trimmed(out[..n])
  {
    hide Val, Shift;
    NothingYet(x, y);
    var a, b := x, y;
    if |a| < |b| {
      a, b := b, a;
    }
    var na, nb := |a|, |b|;
    var carry: u64 := 0;
    var i := 0;
    while i < na
      invariant i <= na && carry <= 1
      invariant Val(out[..i]) + Shift(carry as int, i) == LowVal(a, i) + LowVal(b, i)
    {
      var s: u64 := a[i] as u64 + carry + (if i < nb then b[i] as u64 else 0);
      ghost var done, c0 := out[..i], carry;
      out[i] := Low32(s);
      carry := High32(s);
      assert out[..i] == done;
      ArrayPush(out, i);
      LowPush(a, i);
      LowPush(b, i);
      Column(out[i] as int, carry as int, s as int, i);
      ShiftAdd3(a[i] as int, c0 as int, LimbAt(b, i) as int, i);
      i := i + 1;
    }
    LowAll(a, na);
    LowAll(b, na);
    ghost var done := out[..na];
    out[na] := Low32(carry);
    assert out[..na] == done;
    ArrayPush(out, na);
    ShiftSign(carry as int, na);
    n := na + if carry != 0 then 1 else 0;
    if carry == 0 && Trimmed(a) {
      ValBound(b);
      AtLeastTrimmed(a, out[..n]);
    }
  }

  /** A number of full length has a nonzero top limb, so one at least as large in as many limbs does. */
  lemma AtLeastTrimmed(a: seq<u32>, s: seq<u32>)
    requires Trimmed(a) && |s| == |a| && Val(a) <= Val(s)
    ensures Trimmed(s)
  {
    hide Shift;
    if a != [] && s[|s| - 1] == 0 {
      ValTop(a);
      ValTop(s);
      ShiftMono(1, a[|a| - 1] as int, |a| - 1);
      assert false;
    }
  }

  /** |a| >= |b| required, as the source's comment asks. */
  method Sub(a: seq<u32>, b: seq<u32>, out: array<u32>) returns (n: nat)
    requires |b| <= |a| <= out.Length && Val(b) <= Val(a)
    modifies out
    ensures n <= |a|
    ensures Val(out[..n]) == Val(a) - Val(b) && Trimmed(out[..n])
  {
    hide Val, Shift;
    NothingYet(a, b);
    var na, nb := |a|, |b|;
    var borrow: i64 := 0;
    var i := 0;
    while i < na
      invariant i <= na && 0 <= borrow <= 1
      invariant Val(out[..i]) + Shift(-(borrow as int), i) == LowVal(a, i) - LowVal(b, i)
    {
      var d: i64 := a[i] as i64 - borrow - (if i < nb then b[i] as i64 else 0);
      ghost var done, b0, d0 := out[..i], borrow, d;
      if d < 0 {
        d := d + 0x1_0000_0000;
        borrow := 1;
      } else {
        borrow := 0;
      }
      out[i] := d as u32;
      assert out[..i] == done;
      ArrayPush(out, i);
      LowPush(a, i);
      LowPush(b, i);
      Column(out[i] as int, -(borrow as int), d0 as int, i);
      ShiftAdd3(a[i] as int, -(b0 as int), -(LimbAt(b, i) as int), i);
      ShiftAdd(LimbAt(b, i) as int, -(LimbAt(b, i) as int), i);
      ShiftSign(0, i);
      i := i + 1;
    }
    LowAll(a, na);
    LowAll(b, na);
    NoFinalBorrow(out[..na], borrow as int);
    n := DropLeadingZeros(out, na);
  }

  /** The loop `while (n && !out[n-1]) n--`. */
  method DropLeadingZeros(out: array<u32>, top: nat) returns (n: nat)
    requires top <= out.Length
    ensures n <= top && Trimmed(out[..n]) && Val(out[..n]) == Val(out[..top])
  {
    n := top;
    while n > 0 && out[n - 1] == 0
      invariant n <= top && forall i :: n <= i < top ==> out[i] == 0
    {
      n := n - 1;
    }
    ValTrim(out[..top], n);
    assert out[..top][..n] == out[..n];
  }

  /** A nonnegative difference leaves no borrow behind. */
  lemma NoFinalBorrow(s: seq<u32>, borrow: int)
    requires 0 <= borrow <= 1 && 0 <= Val(s) + Shift(-borrow, |s|)
    ensures borrow == 0 && Shift(-borrow, |s|) == 0
  {
    ValBound(s);
    ShiftAdd(1, -1, |s|);
    ShiftSign(0, |s|);
  }

  lemma RowStart(ai: int, b: seq<u32>, i: nat)
    ensures Shift(Times(ai, Val(b[..0])), i) == 0 && Shift(0, i) == 0
  {
    ShiftSign(0, i);
  }

  lemma RowStep(ai: int, x: int, bj: int, i: nat, j: nat)
    ensures Shift(Times(ai, x + Shift(bj, j)), i) == Shift(Times(ai, x), i) + Shift(Times(ai, bj), i + j)
  {
    ShiftMul(ai, bj, j);
    assert ai * (x + Shift(bj, j)) == ai * x + Shift(ai * bj, j);
    ShiftAdd(ai * x, Shift(ai * bj, j), i);
    ShiftShift(ai * bj, j, i);
  }

  /** One product of two limbs, added into out[k] with the carry so far. */
  method MulLimb(ai: u32, bj: u32, out: array<u32>, k: nat, c: u64) returns (carry: u64)
    requires k < out.Length && c < 0x1_0000_0000
    modifies out
    ensures carry < 0x1_0000_0000
    ensures out[k] as int + carry as int * TWO32 == Times(ai as int, bj as int) + old(out[k]) as int + c as int
    ensures forall q :: 0 <= q < out.Length && q != k ==> out[q] == old(out[q])
  {
    MulAddFits(ai as int, bj as int, out[k] as int, c as int);
    var t: u64 := ai as u64 * bj as u64 + out[k] as u64 + c;
    out[k] := Low32(t);
    carry := High32(t);
  }

  /** The inner loop: out[i .. i+|b|] += ai * b, the final carry stored on top. */
  method MulRow(ai: u32, b: seq<u32>, out: array<u32>, i: nat)
    requires i + |b| < out.Length && out[i + |b|] == 0
    modifies out
    ensures Val(out[..i + |b| + 1]) == old(Val(out[..i + |b| + 1])) + Shift(Times(ai as int, Val(b)), i)
    ensures forall k :: i + |b| < k < out.Length ==> out[k] == old(out[k])
  {
    hide Val, Shift, Times;
    var nb, top := |b|, i + |b| + 1;
    ghost var total := Val(out[..top]);
    var carry: u64 := 0;
    var j := 0;
    RowStart(ai as int, b, i);
    while j < nb
      invariant j <= nb && carry < 0x1_0000_0000
      invariant Val(out[..top]) + Shift(carry as int, i + j) == total + Shift(Times(ai as int, Val(b[..j])), i)
      invariant forall k :: i + nb <= k < out.Length ==> out[k] == old(out[k])
    {
      ghost var before, c0, was := out[..top], carry, out[i + j] as int;
      carry := MulLimb(ai, b[j], out, i + j, carry);
      SetLimb(before, out[..top], i + j, out[i + j]);
      ValPush(b, j);
      ghost var product := Times(ai as int, b[j] as int);
      RowStep(ai as int, Val(b[..j]), b[j] as int, i, j);
      Column(out[i + j] as int - was, carry as int, product + c0 as int, i + j);
      ShiftAdd(product, c0 as int, i + j);
      j := j + 1;
    }
    assert b[..nb] == b;
    ghost var before := out[..top];
    out[i + nb] := Low32(carry);
    SetLimb(before, out[..top], i + nb, out[i + nb]);
  }

  /** The value after one limb of a buffer was overwritten. */
  lemma SetLimb(before: seq<u32>, after: seq<u32>, k: nat, x: u32)
    requires k < |before| == |after| && after[k] == x
    requires forall i :: 0 <= i < |before| && i != k ==> after[i] == before[i]
    ensures Val(after) == Val(before) + Shift(x as int - before[k] as int, k)
  {
    assert after == before[k := x];
    ValUpdate(before, k, x);
  }

  method Mul(a: seq<u32>, b: seq<u32>, out: array<u32>) returns (n: nat)
    requires |a| + |b| <= out.Length
    modifies out
    ensures n <= |a| + |b|
    ensures Val(out[..n]) == Times(Val(a), Val(b)) && Trimmed(out[..n])
  {
    hide Val, Shift, Times;
    var na, nb := |a|, |b|;
    var i := 0;
    while i < na + nb
      invariant i <= na + nb && forall k :: 0 <= k < i ==> out[k] == 0
    {
      out[i] := 0;
      i := i + 1;
    }
    i := 0;
    ValTrim(out[..nb], 0);
    assert out[..nb][..0] == [] && a[..0] == [];
    NoRows(Val(b));
    while i < na
      invariant i <= na
      invariant forall k :: i + nb <= k < na + nb ==> out[k] == 0
      invariant Val(out[..i + nb]) == Times(Val(a[..i]), Val(b))
    {
      ArrayPush(out, i + nb);
      ShiftSign(0, i + nb);
      MulRow(a[i], b, out, i);
      ValPush(a, i);
      NextRow(Val(a[..i]), a[i] as int, Val(b), i);
      i := i + 1;
    }
    assert a[..na] == a;
    n := DropLeadingZeros(out, na + nb);
  }

  lemma NoRows(b: int)
    ensures Val([]) == 0 && Times(Val([]), b) == 0
  {
  }

  lemma NextRow(x: int, ai: int, b: int, i: nat)
    ensures Times(x + Shift(ai, i), b) == Times(x, b) + Shift(Times(ai, b), i)
  {
    ShiftMul(b, ai, i);
    assert ai * b == b * ai;
  }

  /** `a /= d` in place over the first n limbs, returning the remainder. */
  method DivModSmall(a: array<u32>, n: nat, d: u32) returns (rem: u32)
    requires n <= a.Length && d != 0
    modifies a
    ensures rem < d
    ensures old(Val(a[..n])) == Times(Val(a[..n]), d as int) + rem as int
    ensures forall k :: n <= k < a.Length ==> a[k] == old(a[k])
  {
    hide Val, Shift, Times;
    ghost var total := Val(a[..n]);
    var r: u64 := 0;
    var i := n;
    NothingDivided(d as int, n);
    assert a[n..n] == [];
    while i > 0
      invariant i <= n && r < d as u64
      invariant a[..i] == old(a[..i])
      invariant total == Shift(Times(Val(a[i..n]), d as int) + r as int, i) + Val(a[..i])
      invariant forall k :: n <= k < a.Length ==> a[k] == old(a[k])
    {
      i := i - 1;
      ghost var r0, ai, lo, hi := r, a[i], a[..i], a[i + 1..n];
      ArrayPush(a, i);
      QuotientFits(d as int, r as int, a[i] as int);
      var cur: u64 := r * 0x1_0000_0000 + a[i] as u64;
      a[i] := (cur / d as u64) as u32;
      r := cur % d as u64;
      assert a[..i] == lo && a[i..n] == [a[i]] + hi;
      ConsVal(a[i], hi);
      DivColumn(d as int, i, Val(hi), r0 as int, ai as int, a[i] as int, r as int);
    }
    assert a[0..n] == a[..n];
    ShiftNone(Times(Val(a[..n]), d as int) + r as int);
    rem := r as u32;
  }

  lemma NothingDivided(d: int, n: nat)
    ensures Shift(Times(Val([]), d) + 0, n) == 0 && Val([]) == 0
  {
    ShiftSign(0, n);
  }

  lemma ConsVal(x: u32, s: seq<u32>)
    ensures Val([x] + s) == x as int + TWO32 * Val(s)
  {
    ValSplit([x] + s, 1);
    assert ([x] + s)[..1] == [x] && ([x] + s)[1..] == s && [x][..0] == [];
  }

  lemma QuotientFits(d: int, r: int, lo: int)
    requires 0 <= r < d <= TWO32 && 0 <= lo < TWO32
    ensures 0 <= (r * TWO32 + lo) / d < TWO32
    ensures r * TWO32 + lo == Times((r * TWO32 + lo) / d, d) + (r * TWO32 + lo) % d
  {
    var x := r * TWO32 + lo;
    Euclid(x, d);
    QuotientRange(x, x / d, x % d, d);
  }

  lemma QuotientRange(x: int, q: int, rem: int, d: int)
    requires x == q * d + rem && 0 <= rem < d && 0 <= x < d * TWO32
    ensures 0 <= q < TWO32
  {
    if q >= TWO32 {
      MulMono(TWO32, q, d);
    } else if q < 0 {
      MulMono(q, -1, d);
    }
  }

  lemma DivColumn(d: int, i: nat, h: int, r0: int, ai: int, q: int, r: int)
    requires r0 * TWO32 + ai == Times(q, d) + r
    ensures Shift(Times(h, d) + r0, i + 1) + Shift(ai, i) == Shift(Times(q + TWO32 * h, d) + r, i)
  {
    assert (q + TWO32 * h) * d + r == TWO32 * (h * d + r0) + ai;
    ShiftUp(h * d + r0, i);
    ShiftAdd(TWO32 * (h * d + r0), ai, i);
  }
}
