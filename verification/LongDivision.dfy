/** Algorithm D of Knuth, The Art of Computer Programming vol. 2, section 4.3.1, as
    runtime/bigint.c writes it: long division of limb arrays by a divisor of two or more limbs. */
module LongDivision {
  import opened MachineWords
  import opened Limbs
  import opened Magnitude

  const JBIG_MAX_LIMBS: nat := 128

  /** 2^n. */
  function Pow2(n: nat): (p: nat)
    ensures p > 0
  {
    if n == 0 then 1 else 2 * Pow2(n - 1)
  }

  lemma {:induction false} Pow2Add(m: nat, n: nat)
    ensures Pow2(m + n) == Pow2(m) * Pow2(n)
  {
    if m > 0 {
      Pow2Add(m - 1, n);
      Double(Pow2(m - 1), Pow2(n));
    }
  }

  lemma Double(x: int, y: int)
    ensures 2 * (x * y) == (2 * x) * y
  {
  }

  /** x * 2^n, by doubling. */
  function Doubled(x: int, n: nat): int {
    if n == 0 then x else 2 * Doubled(x, n - 1)
  }

  lemma {:induction false} DoubledIs(x: int, n: nat)
    ensures Doubled(x, n) == x * Pow2(n)
  {
    if n > 0 {
      DoubledIs(x, n - 1);
      Reassociate(2, x, Pow2(n - 1));
      Reassociate(x, 2, Pow2(n - 1));
    }
  }

  lemma {:induction false} DoubledMore(x: int, n: nat, k: nat)
    ensures Doubled(Doubled(x, n), k) == Doubled(x, n + k)
  {
    if k > 0 {
      DoubledMore(x, n, k - 1);
    }
  }

  lemma {:induction false} DoubledMono(x: int, y: int, k: nat)
    requires 0 < x < y
    ensures 0 < Doubled(x, k) < Doubled(y, k)
  {
    if k > 0 {
      DoubledMono(x, y, k - 1);
    }
  }

  /** A shift below the limb width divides the limb base. */
  lemma Pow2Divides(sh: nat)
    requires sh <= 32
    ensures Pow2(sh) * Pow2(32 - sh) == TWO32
  {
    hide Pow2, Doubled;
    Pow2Add(sh, 32 - sh);
    DoubledIs(1, 32);
    DoubledBy(1);
    DoubledBy(0x1_0000);
    DoubledMore(1, 16, 16);
  }

  /** One line of the count: when the top k bits of a 32-bit word are clear, shift them out. */
  method SkipZeros(limb: int, x: u64, n: nat, k: nat, step: u64, bound: u64) returns (y: u64, m: nat)
    requires step as int == Pow2(k) && Doubled(bound as int, k) == TWO32
    requires x as int == Doubled(limb, n) && 0 < x < 0x1_0000_0000
    ensures y as int == Doubled(limb, m) && 0 < y < 0x1_0000_0000
    ensures x >= bound ==> y == x && m == n
    ensures x < bound ==> y as int == Doubled(x as int, k) && m == n + k
  {
    hide Doubled, Pow2;
    if x >= bound {
      return x, n;
    }
    DoubledMore(limb, n, k);
    DoubledIs(x as int, k);
    DoubledMono(x as int, bound as int, k);
    y, m := x * step % 0x1_0000_0000, n + k;
  }

  /** Count of leading zeros of a nonzero limb. `!(x & 0xFFFF0000)` holds exactly when the bits
      from position 16 up are clear, that is when x < 2^16; likewise for the other masks. */
  method CountLeadingZeros(limb: u32) returns (n: nat)
    requires limb != 0
    ensures n < 32
    ensures 0x8000_0000 <= limb as int * Pow2(n) < TWO32
  {
    hide Doubled, Pow2;
    var x: u64 := limb as u64;
    Strides(limb as int);
    DoubledBy(limb as int);
    x, n := SkipZeros(limb as int, x, 0, 16, 0x1_0000, 0x1_0000);
    DoubledBy(x as int);
    x, n := SkipZeros(limb as int, x, n, 8, 0x100, 0x100_0000);
    DoubledBy(x as int);
    x, n := SkipZeros(limb as int, x, n, 4, 0x10, 0x1000_0000);
    DoubledBy(x as int);
    x, n := SkipZeros(limb as int, x, n, 2, 4, 0x4000_0000);
    DoubledBy(x as int);
    x, n := SkipZeros(limb as int, x, n, 1, 2, 0x8000_0000);
    DoubledIs(limb as int, n);
  }

  lemma DoubledBy(y: int)
    ensures Doubled(y, 0) == y && Doubled(y, 1) == 2 * y && Doubled(y, 2) == 4 * y
    ensures Doubled(y, 4) == 16 * y && Doubled(y, 8) == 0x100 * y && Doubled(y, 16) == 0x1_0000 * y
  {
    Doubled4(y);
    Doubled4(0x10 * y);
    Doubled4(0x100 * y);
    Doubled4(0x1000 * y);
    DoubledMore(y, 4, 4);
    DoubledMore(y, 8, 4);
    DoubledMore(y, 12, 4);
  }

  lemma Doubled4(y: int)
    ensures Doubled(y, 1) == 2 * y && Doubled(y, 2) == 4 * y && Doubled(y, 4) == 16 * y
  {
    assert Doubled(y, 1) == 2 * y;
    assert Doubled(y, 2) == 4 * y;
    assert Doubled(y, 3) == 8 * y;
  }

  /** The five masks and their shifts. */
  lemma Strides(limb: int)
    ensures Pow2(1) == 2 && Pow2(2) == 4 && Pow2(4) == 0x10 && Pow2(8) == 0x100 && Pow2(16) == 0x1_0000
    ensures Doubled(0x1_0000, 16) == TWO32 && Doubled(0x100_0000, 8) == TWO32 && Doubled(0x1000_0000, 4) == TWO32
    ensures Doubled(0x4000_0000, 2) == TWO32 && Doubled(0x8000_0000, 1) == TWO32 && Doubled(limb, 0) == limb
  {
    DoubledIs(1, 1);
    DoubledIs(1, 2);
    DoubledIs(1, 4);
    DoubledIs(1, 8);
    DoubledIs(1, 16);
    DoubledBy(1);
    DoubledBy(0x1_0000);
    DoubledBy(0x100_0000);
    DoubledBy(0x1000_0000);
    DoubledBy(0x4000_0000);
    DoubledBy(0x8000_0000);
  }

  lemma Reassociate(x: int, y: int, z: int)
    ensures x * (y * z) == (x * y) * z
  {
  }

  /** Limb i of `a << sh`, through one 64-bit window whose own shift wraps modulo 2^64. */
  function ShlLimb(a: seq<u32>, i: nat, sh: nat): u32 {
    var hi := LimbAt(a, i) as int;
    var lo := if i > 0 then LimbAt(a, i - 1) as int else 0;
    Low32(High32(((hi * TWO32 + lo) * Pow2(sh) % 0x1_0000_0000_0000_0000) as u64))
  }

  /** The bits limb i-1 pushes into limb i. */
  function Spill(a: seq<u32>, i: nat, sh: nat): int {
    if i == 0 then 0 else LimbAt(a, i - 1) as int * Pow2(sh) / TWO32
  }

  lemma WindowShift(hi: int, lo: int, m: int, d: int)
    requires 0 <= hi < TWO32 && 0 <= lo < TWO32 && 0 < m && 0 < d && m * d == TWO32
    ensures 0 <= lo * m / TWO32 < m
    ensures (hi * TWO32 + lo) * m % 0x1_0000_0000_0000_0000 / TWO32 % TWO32 + TWO32 * (hi * m / TWO32)
         == hi * m + lo * m / TWO32
  {
    var ch, rh, cl, rl := hi * m / TWO32, hi * m % TWO32, lo * m / TWO32, lo * m % TWO32;
    SpillBound(lo, m);
    RemainderRoom(hi, m, d);
    SplitWindow(hi, lo, m);
    WindowParts(TWO32 * (TWO32 * ch + rh + cl) + rl, ch, rh + cl, rl);
  }

  lemma SplitWindow(hi: int, lo: int, m: int)
    ensures (hi * TWO32 + lo) * m == TWO32 * (hi * m) + lo * m
  {
  }

  lemma SpillBound(lo: int, m: int)
    requires 0 <= lo < TWO32 && 0 < m
    ensures 0 <= lo * m / TWO32 < m
  {
    MulMono(lo, TWO32 - 1, m);
    assert 0 <= lo * m;
  }

  /** hi * m modulo m * d leaves room for anything below m. */
  lemma RemainderRoom(hi: int, m: int, d: int)
    requires 0 <= hi && 0 < m && 0 < d && m * d == TWO32
    ensures hi * m % TWO32 <= TWO32 - m
  {
    var c := hi / d;
    var r := hi % d;
    assert hi * m == c * TWO32 + r * m by {
      assert hi == c * d + r;
      assert (c * d + r) * m == c * (m * d) + r * m;
    }
    MulMono(r, d - 1, m);
    assert 0 <= r * m;
    assert (d - 1) * m == TWO32 - m;
    ModUnique(hi * m, c, r * m);
  }

  lemma ModUnique(x: int, c: int, r: int)
    requires x == c * TWO32 + r && 0 <= r < TWO32
    ensures x % TWO32 == r && x / TWO32 == c
  {
  }

  lemma WindowParts(x: int, ch: int, mid: int, rl: int)
    requires 0 <= mid < TWO32 && 0 <= rl < TWO32 && x == TWO32 * (TWO32 * ch + mid) + rl
    ensures x % 0x1_0000_0000_0000_0000 / TWO32 % TWO32 == mid
  {
    assert x == ch * 0x1_0000_0000_0000_0000 + (TWO32 * mid + rl);
    assert x % 0x1_0000_0000_0000_0000 == TWO32 * mid + rl;
  }

  /** Shifting limb by limb multiplies the number by 2^sh, but for what spills over the last limb. */
  lemma {:induction false} ShlValue(a: seq<u32>, out: seq<u32>, sh: nat)
    requires sh < 32
    requires forall i :: 0 <= i < |out| ==> out[i] == ShlLimb(a, i, sh)
    ensures 0 <= Spill(a, |out|, sh) < Pow2(sh)
    ensures Val(out) + Shift(Spill(a, |out|, sh), |out|) == Times(LowVal(a, |out|), Pow2(sh))
  {
    if out == [] {
    } else {
      var i := |out| - 1;
      var m := Pow2(sh);
      ShlValue(a, out[..i], sh);
      Pow2Divides(sh);
      WindowShift(LimbAt(a, i) as int, if i > 0 then LimbAt(a, i - 1) as int else 0, m, Pow2(32 - sh));
      SpillBound(LimbAt(a, i) as int, m);
      assert out[i] as int + TWO32 * Spill(a, i + 1, sh) == LimbAt(a, i) as int * m + Spill(a, i, sh);
      Column(out[i] as int, Spill(a, i + 1, sh), LimbAt(a, i) as int * m + Spill(a, i, sh), i);
      ShiftAdd(LimbAt(a, i) as int * m, Spill(a, i, sh), i);
      LowPush(a, i);
      NextRow(LowVal(a, i), LimbAt(a, i) as int, m, i);
    }
  }

  // ---- D3: the quotient digit ----

  /** The top three limbs of the dividend window, as one number. */
  function Top3(u0: u32, u1: u32, u2: u32): int {
    (u0 as int * TWO32 + u1 as int) * TWO32 + u2 as int
  }

  function Top2(v1: u32, v2: u32): int {
    v1 as int * TWO32 + v2 as int
  }

  /** Estimate from the top two dividend limbs over the top divisor limb, corrected down while the
      next limb says it is too big. The result is exactly the quotient of the top three limbs by
      the divisor's top two, capped at one limb. */
  method EstimateDigit(u0: u32, u1: u32, u2: u32, v1: u32, v2: u32) returns (qhat: u64)
    requires 0x8000_0000 <= v1 && u0 <= v1
    ensures qhat < 0x1_0000_0000
    ensures Times(qhat as int, Top2(v1, v2)) <= Top3(u0, u1, u2)
    ensures qhat < 0xFFFF_FFFF ==> Times(qhat as int + 1, Top2(v1, v2)) > Top3(u0, u1, u2)
  {
    var num: u64 := u0 as u64 * 0x1_0000_0000 + u1 as u64;
    FirstEstimate(num as int, v1 as int, v2 as int, u2 as int, num as int / v1 as int, num as int % v1 as int);
    qhat := CorrectDown(u0, u1, u2, v1, v2, num / v1 as u64, num % v1 as u64);
  }

  /** An estimate with its remainder, never below the true three-by-two quotient. */
  ghost predicate Estimate(u0: u32, u1: u32, u2: u32, v1: u32, v2: u32, q: int, r: int) {
    && 0 <= q && 0 <= r
    && q * v1 as int + r == u0 as int * TWO32 + u1 as int
    && (q < TWO32 - 1 ==> (q + 1) * Top2(v1, v2) > Top3(u0, u1, u2))
  }

  /** The correction loop; a normalized divisor needs at most two rounds. */
  method CorrectDown(u0: u32, u1: u32, u2: u32, v1: u32, v2: u32, q0: u64, r0: u64) returns (qhat: u64)
    requires 0x8000_0000 <= v1 && u0 <= v1 && r0 < v1 as u64
    requires Estimate(u0, u1, u2, v1, v2, q0 as int, r0 as int)
    ensures qhat < 0x1_0000_0000
    ensures Estimate(u0, u1, u2, v1, v2, qhat as int, u0 as int * TWO32 + u1 as int - qhat as int * v1 as int)
    ensures qhat as int * Top2(v1, v2) <= Top3(u0, u1, u2)
  {
    qhat := q0;
    var rhat: u64 := r0;
    ghost var rounds := 0;
    while true
      invariant Estimate(u0, u1, u2, v1, v2, qhat as int, rhat as int) && rhat < 0x1_0000_0000
      invariant rounds * 0x8000_0000 <= rhat as int && rounds < 2
      decreases 0x1_0000_0000 - rhat as int
    {
      EstimateTest(u0, u1, u2, v1, v2, qhat as int, rhat as int);
      if qhat >= 0x1_0000_0000 || qhat * v2 as u64 > rhat * 0x1_0000_0000 + u2 as u64 {
        qhat := qhat - 1;
        rhat := rhat + v1 as u64;
        rounds := rounds + 1;
        if rhat < 0x1_0000_0000 {
          continue;
        }
        BigRemainder(u0, u1, u2, v1, v2, qhat as int, rhat as int);
      }
      break;
    }
    assert rounds <= 2;
  }

  lemma FirstEstimate(n: int, v1: int, v2: int, u2: int, q: int, r: int)
    requires 0 < v1 && 0 <= v2 && 0 <= u2 < TWO32 && 0 <= n && q == n / v1 && r == n % v1
    ensures 0 <= q && q * v1 + r == n
    ensures (q + 1) * (v1 * TWO32 + v2) > n * TWO32 + u2
  {
    assert (q + 1) * v1 == q * v1 + v1 > n;
    assert (q + 1) * (v1 * TWO32 + v2) == ((q + 1) * v1) * TWO32 + (q + 1) * v2;
    assert 0 <= (q + 1) * v2;
  }

  /** What the loop's test means, and that stepping down keeps the estimate. */
  lemma EstimateTest(u0: u32, u1: u32, u2: u32, v1: u32, v2: u32, q: int, r: int)
    requires 0x8000_0000 <= v1 && u0 <= v1 && Estimate(u0, u1, u2, v1, v2, q, r)
    ensures q < TWO32 ==> 0 <= q * v2 as int < 0x1_0000_0000_0000_0000
    ensures q * v2 as int <= r * TWO32 + u2 as int ==> q * Top2(v1, v2) <= Top3(u0, u1, u2)
    ensures q >= TWO32 || q * v2 as int > r * TWO32 + u2 as int ==>
              Estimate(u0, u1, u2, v1, v2, q - 1, r + v1 as int)
  {
    if q < TWO32 {
      MulAddFits(q, v2 as int, 0, 0);
    }
    Distribute2(q, v1 as int, v2 as int);
    MinusOne(q, v1 as int);
    if q == 0 {
      assert q * v2 as int == 0;
    }
  }

  lemma Distribute2(q: int, x: int, y: int)
    ensures q * (x * TWO32 + y) == (q * x) * TWO32 + q * y
  {
  }

  lemma MinusOne(q: int, x: int)
    ensures (q - 1) * x == q * x - x
  {
  }

  /** Once the remainder leaves the limb range the estimate cannot be too big. */
  lemma BigRemainder(u0: u32, u1: u32, u2: u32, v1: u32, v2: u32, q: int, r: int)
    requires 0 < v1 && u0 <= v1 && Estimate(u0, u1, u2, v1, v2, q, r) && r >= TWO32
    ensures q < TWO32 && q * Top2(v1, v2) <= Top3(u0, u1, u2)
  {
    if q >= TWO32 {
      MulMono(TWO32, q, v1 as int);
    }
    MulAddFits(q, v2 as int, 0, 0);
    Distribute2(q, v1 as int, v2 as int);
  }

  /** Knuth's theorem: the corrected estimate is the true digit or one more than it. */
  lemma DigitWithinOne(u: int, v: int, p: int, t: int, w: int, ulow: int, vlow: int, q: int)
    requires 0 < p && 0 <= ulow < p && 0 <= vlow < p && TWO32 <= w
    requires u == t * p + ulow && v == w * p + vlow && 0 <= u < TWO32 * v
    requires 0 <= q < TWO32 && q * w <= t && (q < TWO32 - 1 ==> (q + 1) * w > t)
    ensures -v <= u - Times(q, v) < v
  {
    assert (q - 1) * v <= u by {
      if q >= 1 {
        OneBelow(q, w, p, vlow, v);
        MulMono(q * w, t, p);
      } else {
        assert (q - 1) * v == -v;
      }
    }
    assert (q - 1) * v == q * v - v;
    assert (q + 1) * v == q * v + v;
    if q < TWO32 - 1 {
      MulMono(t + 1, (q + 1) * w, p);
      assert (t + 1) * p == t * p + p;
      OneAbove(q + 1, w, p, vlow, v);
    } else {
      assert (q + 1) * v == TWO32 * v;
    }
  }

  lemma OneAbove(q: int, w: int, p: int, vlow: int, v: int)
    requires 0 <= q && 0 <= vlow && v == w * p + vlow
    ensures q * w * p <= q * v
  {
    assert q * v == q * (w * p) + q * vlow;
    assert q * (w * p) == q * w * p;
    assert 0 <= q * vlow;
  }

  lemma OneBelow(q: int, w: int, p: int, vlow: int, v: int)
    requires 1 <= q < TWO32 <= w && 0 <= vlow < p && v == w * p + vlow
    ensures (q - 1) * v <= q * w * p
  {
    MulMono(v, (w + 1) * p, q - 1);
    assert (w + 1) * p == w * p + p;
    assert v * (q - 1) == (q - 1) * v;
    assert ((w + 1) * p) * (q - 1) == ((q - 1) * (w + 1)) * p by { Commute3(w + 1, p, q - 1); }
    assert (q - 1) * (w + 1) == q * w + q - w - 1;
    MulMono((q - 1) * (w + 1), q * w, p);
  }

  lemma Commute3(x: int, y: int, z: int)
    ensures (x * y) * z == (z * x) * y
  {
  }

  // ---- D4 to D6: multiply and subtract, add back ----

  /** un[j .. j+nb] -= qhat * vn; the difference's top word is returned signed. */
  method MulSub(un: array<u32>, j: nat, vn: seq<u32>, qhat: u64) returns (top: i64)
    requires j + |vn| < un.Length && qhat < 0x1_0000_0000
    modifies un
    ensures -0x1_0000_0000 <= top < 0x1_0000_0000 && un[j + |vn|] as int == top as int % TWO32
    ensures Val(un[j..j + |vn|]) + Shift(top as int, |vn|)
         == old(Val(un[j..j + |vn| + 1])) - Times(qhat as int, Val(vn))
    ensures forall k :: 0 <= k < un.Length && !(j <= k <= j + |vn|) ==> un[k] == old(un[k])
  {
    hide Val, Shift, Times;
    var nb, end := |vn|, j + |vn| + 1;
    ghost var total := Val(un[j..end]);
    var borrow: i64 := 0;
    var carry: u64 := 0;
    var i := 0;
    SubStart(qhat as int, vn);
    while i < nb
      invariant i <= nb && 0 <= borrow <= 1 && carry < 0x1_0000_0000
      invariant Val(un[j..end]) == total - Times(qhat as int, Val(vn[..i])) + Shift(carry as int + borrow as int, i)
      invariant forall k :: 0 <= k < un.Length && !(j <= k < j + nb) ==> un[k] == old(un[k])
    {
      MulAddFits(qhat as int, vn[i] as int, carry as int, 0);
      var prod: u64 := qhat * vn[i] as u64 + carry;
      ghost var before, c0, b0 := un[j..end], carry as int, borrow as int;
      carry := High32(prod);
      var t: i64 := un[i + j] as i64 - Low32(prod) as i64 - borrow;
      un[i + j] := (t % 0x1_0000_0000) as u32;
      borrow := if t < 0 then 1 else 0;
      SetLimb(before, un[j..end], i, un[i + j]);
      ValPush(vn, i);
      SubColumn(qhat as int, Val(vn[..i]), vn[i] as int, i, c0, b0, carry as int, borrow as int,
                un[i + j] as int - before[i] as int);
      i := i + 1;
    }
    assert vn[..nb] == vn;
    top := un[j + nb] as i64 - carry as i64 - borrow;
    ValPush(un[j..end], nb);
    assert un[j..end][..nb] == un[j..j + nb] && un[j..end][nb] == un[j + nb] && un[j..end][..nb + 1] == un[j..end];
    ShiftAdd(top as int, carry as int + borrow as int, nb);
    ghost var low := un[j..j + nb];
    un[j + nb] := (top % 0x1_0000_0000) as u32;
    assert un[j..j + nb] == low;
  }

  lemma SubStart(q: int, vn: seq<u32>)
    ensures Times(q, Val(vn[..0])) == 0 && Shift(0, 0) == 0
  {
  }

  lemma SubColumn(q: int, x: int, vi: int, i: nat, c0: int, b0: int, c1: int, b1: int, delta: int)
    requires delta - (c1 + b1) * TWO32 == -(q * vi) - c0 - b0
    ensures Shift(delta, i) + Shift(c0 + b0, i) - Times(q, x)
         == -Times(q, x + Shift(vi, i)) + Shift(c1 + b1, i + 1)
  {
    ShiftUp(c1 + b1, i);
    ShiftAdd(delta, c0 + b0, i);
    ShiftAdd(q * vi, delta + (c0 + b0), i);
    ShiftMul(q, vi, i);
    assert q * (x + Shift(vi, i)) == q * x + q * Shift(vi, i);
  }

  /** un[j .. j+nb] += vn; the carry out goes into the top word, which wraps. */
  lemma AddBackStart(window: seq<u32>, vn: seq<u32>)
    ensures Val(window) + Shift(0, 0) == Val(window) + Val(vn[..0])
  {
  }

  method AddBack(un: array<u32>, j: nat, vn: seq<u32>) returns (ghost carried: int)
    requires j + |vn| < un.Length
    modifies un
    ensures 0 <= carried <= 1 && un[j + |vn|] as int == (old(un[j + |vn|]) as int + carried) % TWO32
    ensures Val(un[j..j + |vn|]) + Shift(carried, |vn|) == old(Val(un[j..j + |vn|])) + Val(vn)
    ensures forall k :: 0 <= k < un.Length && !(j <= k <= j + |vn|) ==> un[k] == old(un[k])
  {
    hide Val, Shift;
    AddBackStart(un[j..j + |vn|], vn);
    var nb := |vn|;
    ghost var total := Val(un[j..j + nb]);
    var c: u64 := 0;
    var i := 0;
    while i < nb
      invariant i <= nb && c <= 1
      invariant Val(un[j..j + nb]) + Shift(c as int, i) == total + Val(vn[..i])
      invariant forall k :: 0 <= k < un.Length && !(j <= k < j + nb) ==> un[k] == old(un[k])
    {
      var sum: u64 := un[i + j] as u64 + vn[i] as u64 + c;
      ghost var before, c0 := un[j..j + nb], c as int;
      un[i + j] := Low32(sum);
      c := High32(sum);
      SetLimb(before, un[j..j + nb], i, un[i + j]);
      ValPush(vn, i);
      Column(un[i + j] as int - before[i] as int, c as int, vn[i] as int + c0, i);
      ShiftAdd(vn[i] as int, c0, i);
      i := i + 1;
    }
    assert vn[..nb] == vn;
    carried := c as int;
    ghost var low := un[j..j + nb];
    un[j + nb] := Low32(un[j + nb] as u64 + c);
    assert un[j..j + nb] == low;
  }

  /** A difference that fits nb limbs above or below zero: its top word is 0 or -1. */
  lemma TopIsSign(low: seq<u32>, top: int, d: int, v: int)
    requires Val(low) + Shift(top, |low|) == d && -v <= d < v && v < Shift(1, |low|)
    ensures top == if d < 0 then -1 else 0
  {
    ValBound(low);
    var n := |low|;
    if top >= 1 {
      ShiftMono(1, top, n);
    } else if top <= -2 {
      ShiftMono(top, -2, n);
      ShiftAdd(-1, -1, n);
    }
    ShiftAdd(1, -1, n);
    ShiftSign(0, n);
  }

  /** Adding the divisor back to a negative difference carries out exactly once. */
  lemma AddBackCarries(low: seq<u32>, carried: int, d: int, v: int)
    requires Val(low) + Shift(carried, |low|) == d + Shift(1, |low|) + v
    requires -v <= d < 0 && v < Shift(1, |low|) && 0 <= carried <= 1
    ensures carried == 1 && Val(low) == d + v
  {
    ValBound(low);
    ShiftSign(0, |low|);
  }

  /** Steps D3 to D6 for one quotient position: the window's nb+1 limbs are divided by vn. */
  method DivideWindow(un: array<u32>, j: nat, vn: seq<u32>) returns (digit: u32)
    requires 2 <= |vn| && j + |vn| < un.Length && 0x8000_0000 <= vn[|vn| - 1]
    requires Val(un[j + 1..j + |vn| + 1]) < Val(vn)
    modifies un
    ensures un[j + |vn|] == 0 && 0 <= Val(un[j..j + |vn|]) < Val(vn)
    ensures old(Val(un[j..j + |vn| + 1])) == Times(digit as int, Val(vn)) + Val(un[j..j + |vn|])
    ensures forall k :: 0 <= k < un.Length && !(j <= k <= j + |vn|) ==> un[k] == old(un[k])
  {
    hide Val, Shift, Times, Top2, Top3;
    var nb := |vn|;
    ghost var u, v := Val(un[j..j + nb + 1]), Val(vn);
    TopLimbFits(un[j + 1..j + nb + 1], vn);
    var qhat := EstimateDigit(un[j + nb], un[j + nb - 1], un[j + nb - 2], vn[nb - 1], vn[nb - 2]);
    DigitBounds(un[j..j + nb + 1], vn, qhat as int);
    ValBound(vn);
    var top := MulSub(un, j, vn, qhat);
    ghost var d := u - Times(qhat as int, v);
    TopIsSign(un[j..j + nb], top as int, d, v);
    ShiftSign(0, nb);
    ValBound(un[j..j + nb]);
    if top < 0 {
      ShiftAdd(1, -1, nb);
      DigitNotZero(u, qhat as int, v);
      OneLess(u, qhat as int, v);
      qhat := qhat - 1;
      ghost var carried := AddBack(un, j, vn);
      AddBackCarries(un[j..j + nb], carried, d, v);
      d := d + v;
      ValBound(un[j..j + nb]);
    }
    assert Val(un[j..j + nb]) == d && d == u - Times(qhat as int, v);
    digit := qhat as u32;
  }

  lemma OneLess(u: int, q: int, v: int)
    ensures u - Times(q, v) + v == u - Times(q - 1, v)
  {
  }

  lemma TopLimbFits(w: seq<u32>, vn: seq<u32>)
    requires |w| == |vn| > 0 && Val(w) < Val(vn)
    ensures w[|w| - 1] <= vn[|vn| - 1]
  {
    if w[|w| - 1] > vn[|vn| - 1] {
      TopOrder(vn, w);
    }
  }

  lemma DigitNotZero(u: int, q: int, v: int)
    requires u - Times(q, v) < 0 && 0 <= u && 0 <= q
    ensures q > 0
  {
  }

  /** The estimate from three limbs against two, in terms of the whole window and divisor. */
  lemma DigitBounds(win: seq<u32>, vn: seq<u32>, q: int)
    requires 2 <= |vn| && |win| == |vn| + 1 && Val(win[1..]) < Val(vn) && 0x8000_0000 <= vn[|vn| - 1]
    requires 0 <= q < TWO32
    requires var n := |vn|; Times(q, Top2(vn[n - 1], vn[n - 2])) <= Top3(win[n], win[n - 1], win[n - 2])
    requires var n := |vn|;
      q < TWO32 - 1 ==> Times(q + 1, Top2(vn[n - 1], vn[n - 2])) > Top3(win[n], win[n - 1], win[n - 2])
    ensures 0 <= Val(win) && -Val(vn) <= Val(win) - Times(q, Val(vn)) < Val(vn)
  {
    hide Val, Shift;
    var n := |vn|;
    var w, t := Top2(vn[n - 1], vn[n - 2]), Top3(win[n], win[n - 1], win[n - 2]);
    TopTwo(vn);
    TopThree(win);
    ShiftMul(w, 1, n - 2);
    ShiftMul(t, 1, n - 2);
    ValBound(vn[..n - 2]);
    ValBound(win[..n - 2]);
    ValBound(win);
    assert [win[0]] + win[1..] == win;
    ConsVal(win[0], win[1..]);
    DigitWithinOne(Val(win), Val(vn), Shift(1, n - 2), t, w, Val(win[..n - 2]), Val(vn[..n - 2]), q);
  }

  lemma TopTwo(s: seq<u32>)
    requires 2 <= |s|
    ensures Val(s) == Val(s[..|s| - 2]) + Shift(Top2(s[|s| - 1], s[|s| - 2]), |s| - 2)
  {
    var n := |s|;
    assert s[..n] == s;
    ValPush(s, n - 1);
    ValPush(s, n - 2);
    Column(s[n - 2] as int, s[n - 1] as int, Top2(s[n - 1], s[n - 2]), n - 2);
  }

  lemma TopThree(s: seq<u32>)
    requires 3 <= |s|
    ensures Val(s) == Val(s[..|s| - 3]) + Shift(Top3(s[|s| - 1], s[|s| - 2], s[|s| - 3]), |s| - 3)
  {
    var n := |s|;
    var hi := Top2(s[n - 1], s[n - 2]);
    TopTwo(s);
    ValPush(s, n - 3);
    assert s[..n - 3 + 1] == s[..n - 2];
    Column(s[n - 3] as int, hi, Top3(s[n - 1], s[n - 2], s[n - 3]), n - 3);
  }

  // ---- the whole division ----

  /** One quotient digit after another, from the top: what is left of the dividend is the remainder. */
  method DivideAll(un: array<u32>, vn: seq<u32>, q: array<u32>, qn: nat)
    requires un != q && 2 <= |vn| && 0x8000_0000 <= vn[|vn| - 1] && qn + |vn| <= un.Length && qn <= q.Length
    requires Val(un[qn..qn + |vn|]) < Val(vn)
    modifies un, q
    ensures old(Val(un[..qn + |vn|])) == Times(Val(q[..qn]), Val(vn)) + Val(un[..|vn|])
    ensures Val(un[..|vn|]) < Val(vn) && (qn > 0 ==> un[|vn|] == 0)
  {
    hide Val, Shift, Times;
    var nb := |vn|;
    ghost var nv, total := Val(vn), Val(un[..qn + nb]);
    var j := qn;
    assert q[qn..qn] == [];
    NoQuotient(nv, qn);
    while j > 0
      invariant 0 <= j <= qn
      invariant total == Shift(Times(Val(q[j..qn]), nv), j) + Val(un[..j + nb])
      invariant Val(un[j..j + nb]) < nv && (j < qn ==> un[j + nb] == 0)
    {
      j := j - 1;
      ghost var before, qs := un[..], q[j + 1..qn];
      assert un[j + 1..j + nb + 1] == un[j + 1..j + 1 + nb];
      var digit := DivideWindow(un, j, vn);
      q[j] := digit;
      assert q[j + 1..qn] == qs && q[j..qn] == [digit] + qs;
      StepTotal(total, q[j..qn], digit, qs, nv, before, un[..j + nb], j, nb);
    }
    assert un[0..nb] == un[..nb] && q[0..qn] == q[..qn];
    ShiftNone(Times(Val(q[..qn]), nv));
  }

  /** Divides u by v, writing the quotient's |u|-|v|+1 limbs to q and the remainder's |v| limbs to r. */
  method DivMod(u: seq<u32>, v: seq<u32>, q: array<u32>, r: array<u32>)
    requires 2 <= |v| <= |u| <= JBIG_MAX_LIMBS && v[|v| - 1] != 0
    requires q != r && |u| - |v| + 1 <= q.Length && |v| <= r.Length
    modifies q, r
    ensures Val(u) == Times(Val(q[..|u| - |v| + 1]), Val(v)) + Val(r[..|v|])
    ensures 0 <= Val(r[..|v|]) < Val(v)
  {
    hide Val, Shift, Times, Pow2;
    var na, nb := |u|, |v|;
    var sh := CountLeadingZeros(v[nb - 1]);
    ghost var m := Pow2(sh);
    var vna := new u32[JBIG_MAX_LIMBS];
    var un := new u32[JBIG_MAX_LIMBS + 1];
    Normalize(v, sh, vna, nb);
    Normalize(u, sh, un, na + 1);
    var vn := vna[..nb];
    NormalDivisor(v, vn, sh);
    NormalDividend(u, un[..na + 1], vn, sh);
    ghost var nv, total := Val(vn), Val(un[..na + 1]);
    var qn := na - nb + 1;
    assert un[..na + 1][na + 1 - nb..] == un[qn..qn + nb] && qn + nb == na + 1;
    DivideAll(un, vn, q, qn);
    Denormalize(un, sh, r, nb);
    Unscale(Val(u), Val(v), Val(q[..qn]), Val(r[..nb]), un[0] as int % m, m);
    ValBound(r[..nb]);
  }

  /** Normalization sets the divisor's high bit and scales it by exactly 2^sh. */
  lemma NormalDivisor(v: seq<u32>, vn: seq<u32>, sh: nat)
    requires v != [] && |vn| == |v| && sh < 32 && 0x8000_0000 <= v[|v| - 1] as int * Pow2(sh) < TWO32
    requires forall i :: 0 <= i < |vn| ==> vn[i] == ShlLimb(v, i, sh)
    ensures vn[|vn| - 1] >= 0x8000_0000 && Val(vn) == Times(Val(v), Pow2(sh))
  {
    hide Val, Shift, Times, Pow2, ShlLimb;
    var n := |v|;
    ShlValue(v, vn, sh);
    TopLimb(v, sh);
    LowAll(v, n);
    ShiftSign(0, n);
  }

  lemma TopLimb(v: seq<u32>, sh: nat)
    requires v != [] && sh < 32 && 0x8000_0000 <= v[|v| - 1] as int * Pow2(sh) < TWO32
    ensures 0x8000_0000 <= ShlLimb(v, |v| - 1, sh) && Spill(v, |v|, sh) == 0
  {
    hide Val, Shift, Pow2;
    var x, lo := v[|v| - 1] as int, if |v| > 1 then v[|v| - 2] as int else 0;
    Pow2Divides(sh);
    WindowShift(x, lo, Pow2(sh), Pow2(32 - sh));
    assert x * Pow2(sh) / TWO32 == 0;
  }

  /** The scaled dividend's top |v| limbs are below the divisor, so the first digit fits. */
  lemma NormalDividend(u: seq<u32>, un: seq<u32>, vn: seq<u32>, sh: nat)
    requires |un| == |u| + 1 && sh < 32 && 1 <= |vn| <= |un| && vn[|vn| - 1] >= 0x8000_0000
    requires forall i :: 0 <= i < |un| ==> un[i] == ShlLimb(u, i, sh)
    ensures Val(un) == Times(Val(u), Pow2(sh))
    ensures Val(un[|un| - |vn|..]) < Val(vn)
  {
    hide *;
    ScaledValue(u, un, sh);
    ScaledTop(u, un, sh);
    var top := un[|un| - |vn|..];
    assert top[|vn| - 1] == un[|un| - 1];
    TopOrder(top, vn);
  }

  lemma ScaledValue(u: seq<u32>, un: seq<u32>, sh: nat)
    requires |un| == |u| + 1 && sh < 32 && forall i :: 0 <= i < |un| ==> un[i] == ShlLimb(u, i, sh)
    ensures Val(un) == Times(Val(u), Pow2(sh))
  {
    hide Val, Shift, Times, Pow2, ShlLimb, Spill;
    ShlValue(u, un, sh);
    LowAll(u, |un|);
    NoSpill(u, |un|, sh);
    ShiftSign(0, |un|);
  }

  lemma ScaledTop(u: seq<u32>, un: seq<u32>, sh: nat)
    requires |un| == |u| + 1 && sh < 32 && forall i :: 0 <= i < |un| ==> un[i] == ShlLimb(u, i, sh)
    ensures un[|u|] < 0x8000_0000
  {
    hide Val, Shift, Times, Pow2, ShlLimb, Spill;
    ShlValue(u, un[..|u|], sh);
    Pow2Half(sh);
    TopSpill(u, sh);
  }

  lemma NoSpill(a: seq<u32>, i: nat, sh: nat)
    requires |a| < i
    ensures Spill(a, i, sh) == 0
  {
  }

  /** The limb past the end of a shifted number is what spilled. */
  lemma TopSpill(u: seq<u32>, sh: nat)
    requires sh < 32
    ensures ShlLimb(u, |u|, sh) as int == Spill(u, |u|, sh)
  {
    hide Val, Shift, Pow2;
    Pow2Divides(sh);
    WindowShift(0, if |u| > 0 then u[|u| - 1] as int else 0, Pow2(sh), Pow2(32 - sh));
  }

  lemma {:induction false} Pow2Half(sh: nat)
    requires sh < 32
    ensures Pow2(sh) <= 0x8000_0000
  {
    Pow2Divides(sh + 1);
    MulMono(1, Pow2(31 - sh), Pow2(sh + 1));
  }

  lemma PrefixSplit(s: seq<u32>, i: nat, j: nat)
    requires i <= j <= |s|
    ensures Val(s[..j]) == Val(s[..i]) + Shift(Val(s[i..j]), i)
  {
    ValSplit(s[..j], i);
    assert s[..j][..i] == s[..i] && s[..j][i..] == s[i..j];
  }

  /** One step of the division, on the whole dividend: the digit joins the quotient. */
  lemma StepTotal(total: int, q: seq<u32>, digit: u32, qs: seq<u32>, v: int,
                  before: seq<u32>, after: seq<u32>, j: nat, nb: nat)
    requires q == [digit] + qs && |after| == j + nb && j + nb < |before| && after[..j] == before[..j]
    requires Val(before[j..j + nb + 1]) == Times(digit as int, v) + Val(after[j..])
    requires total == Shift(Times(Val(qs), v), j + 1) + Val(before[..j + 1 + nb])
    ensures total == Shift(Times(Val(q), v), j) + Val(after)
  {
    ConsVal(digit, qs);
    PrefixSplit(before, j, j + nb + 1);
    ValSplit(after, j);
    NextDigit(total, Val(qs), digit as int, v, Val(before[..j]), Val(after[j..]), j);
  }

  lemma NextDigit(total: int, qs: int, d: int, v: int, low: int, rest: int, j: nat)
    requires total == Shift(qs * v, j + 1) + (low + Shift(d * v + rest, j))
    ensures total == Shift((d + TWO32 * qs) * v, j) + (low + Shift(rest, j))
  {
    ShiftUp(qs * v, j);
    ShiftAdd(TWO32 * (qs * v), d * v + rest, j);
    ShiftAdd((d + TWO32 * qs) * v, rest, j);
    assert (d + TWO32 * qs) * v == d * v + TWO32 * (qs * v);
  }

  /** Undo the scaling: the low bits that fall out are zero. */
  lemma Unscale(u: int, v: int, q: int, r: int, e: int, m: int)
    requires 0 < m && 0 <= e < m && Times(u, m) == Times(q, Times(v, m)) + (Times(r, m) + e)
    requires Times(r, m) + e < Times(v, m)
    ensures u == Times(q, v) + r && r < v
  {
    var x := u - q * v - r;
    assert x * m == e by {
      assert (u - q * v - r) * m == u * m - q * v * m - r * m;
      Reassociate(q, v, m);
    }
    if x >= 1 {
      MulMono(1, x, m);
    } else if x <= -1 {
      MulMono(x, -1, m);
    }
    if r >= v {
      MulMono(v, r, m);
    }
  }

  lemma NoQuotient(v: int, n: nat)
    ensures Shift(Times(Val([]), v), n) == 0
  {
    ShiftSign(0, n);
  }

  method Normalize(a: seq<u32>, sh: nat, out: array<u32>, n: nat)
    requires n <= out.Length
    modifies out
    ensures forall i :: 0 <= i < n ==> out[i] == ShlLimb(a, i, sh)
  {
    var i := 0;
    while i < n
      invariant i <= n
      invariant forall k :: 0 <= k < i ==> out[k] == ShlLimb(a, k, sh)
    {
      out[i] := ShlLimb(a, i, sh);
      i := i + 1;
    }
  }

  /** D8: shift the remainder back down, limb by limb through a 64-bit window. */
  method Denormalize(un: array<u32>, sh: nat, r: array<u32>, nb: nat)
    requires un != r && sh < 32 && nb < un.Length && nb <= r.Length && un[nb] == 0
    modifies r
    ensures Times(Val(r[..nb]), Pow2(sh)) + un[0] as int % Pow2(sh) == Val(un[..nb])
  {
    ghost var m := Pow2(sh);
    Pow2Divides(sh);
    var i := 0;
    ShiftSign(0, 0);
    while i < nb
      invariant i <= nb
      invariant Times(Val(r[..i]), m) + un[0] as int % m == Val(un[..i]) + Shift(un[i] as int % m, i)
    {
      DenormalLimb(un[i + 1] as int, un[i] as int, m, Pow2(32 - sh));
      ghost var done := r[..i];
      r[i] := Low32((un[i + 1] as u64 * 0x1_0000_0000 + un[i] as u64) / Pow2(sh) as u64);
      assert r[..i] == done;
      ArrayPush(r, i);
      ArrayPush(un, i);
      NextRow(Val(r[..i]), r[i] as int, m, i);
      DenormalColumn(r[i] as int * m, un[i] as int, un[i] as int % m, un[i + 1] as int % m, i);
      i := i + 1;
    }
    ShiftSign(0, nb);
    DivIs(0, m, 0, 0);
  }

  lemma DenormalColumn(rm: int, x: int, e0: int, e1: int, i: nat)
    requires rm + e0 - x == e1 * TWO32
    ensures Shift(e0, i) + Shift(rm, i) == Shift(x, i) + Shift(e1, i + 1)
  {
    ShiftAdd(e0, rm, i);
    ShiftAdd(x, TWO32 * e1, i);
    ShiftUp(e1, i);
  }

  lemma DenormalLimb(hi: int, lo: int, m: int, d: int)
    requires 0 <= hi < TWO32 && 0 <= lo < TWO32 && 0 < m <= TWO32 && 0 < d && m * d == TWO32
    ensures ((hi * TWO32 + lo) / m) % TWO32 * m + lo % m - lo == (hi % m) * TWO32
    ensures 0 <= (hi * TWO32 + lo) / m < 0x1_0000_0000_0000_0000
  {
    var a, b, x, y := hi / m, hi % m, lo / m, lo % m;
    assert hi == a * m + b && lo == x * m + y;
    DenormalParts(a, b, x, y, m, d);
    DivIs(hi * TWO32 + lo, m, a * TWO32 + b * d + x, y);
    ModUnique(a * TWO32 + b * d + x, a, b * d + x);
    if a >= TWO32 {
      MulMono(TWO32, a, m);
      MulMono(1, m, TWO32);
    }
  }

  lemma DenormalParts(a: int, b: int, x: int, y: int, m: int, d: int)
    requires 0 <= a && 0 <= b < m && 0 <= x && 0 <= y < m && 0 < d && m * d == TWO32 && x * m + y < TWO32
    ensures (a * m + b) * TWO32 + (x * m + y) == (a * TWO32 + b * d + x) * m + y
    ensures 0 <= b * d + x < TWO32
    ensures (b * d + x) * m == b * TWO32 + x * m
  {
    Rearrange(a, b, m, d);
    assert (a * TWO32 + b * d + x) * m == a * TWO32 * m + b * d * m + x * m;
    assert (b * d + x) * m == b * d * m + x * m;
    if x >= d {
      MulMono(d, x, m);
    }
    MulMono(b, m - 1, d);
    assert (m - 1) * d == m * d - d;
    assert 0 <= b * d;
  }

  lemma Rearrange(a: int, b: int, m: int, d: int)
    ensures (a * m + b) * (m * d) == a * (m * d) * m + b * d * m
    ensures b * d * m == b * (m * d)
  {
  }

  lemma DivIs(n: int, m: int, q: int, r: int)
    requires 0 < m && 0 <= r < m && n == q * m + r
    ensures n / m == q && n % m == r
  {
    var x := n / m;
    assert (x - q) * m == r - n % m;
    if x > q {
      MulMono(1, x - q, m);
    } else if x < q {
      MulMono(x - q, -1, m);
    }
  }
}
