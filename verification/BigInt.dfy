/** The third tier of a dynamic integer (runtime/bigint.c): sign and limbs, always canonical. */
module BigInt {
  import opened MachineWords
  import opened Limbs
  import opened Magnitude
  import opened LongDivision

  const JBIG_SCRATCH: nat := 2 * JBIG_MAX_LIMBS + 2

  /** What a tagged word holds, for the types this model covers. An integer is an inline i32,
      a boxed i64, or a bigint cell. */
  datatype Payload =
    | Nil
    | Boolean(b: bool)
    | Inline(v: i32)
    | Wide(bits: i64)
    | Big(negative: bool, limbs: seq<u32>)

  /** A payload with its error, taint and secret flags. */
  datatype Value = Value(payload: Payload, error: bool, tainted: bool, secret: bool)

  predicate IsInt(p: Payload) {
    p.Inline? || p.Wide? || p.Big?
  }

  function Signed(negative: bool, m: int): int {
    if negative then -m else m
  }

  /** The mathematical integer a payload denotes. */
  function IntOf(p: Payload): int {
    match p
    case Inline(v) => v as int
    case Wide(bits) => bits as int
    case Big(negative, limbs) => Signed(negative, Val(limbs))
    case _ => 0
  }

  /** No bigint cell holds a number an i64 could hold, a leading zero limb, or too many limbs. */
  predicate WellFormed(p: Payload) {
    p.Big? ==>
      && Trimmed(p.limbs) && 2 <= |p.limbs| <= JBIG_MAX_LIMBS
      && !(INT64_MIN <= IntOf(p) <= INT64_MAX)
  }

  /** The narrowest representation of its number. */
  predicate Canonical(p: Payload) {
    && IsInt(p) && WellFormed(p)
    && (p.Wide? ==> !(INT32_MIN <= p.bits as int <= INT32_MAX))
  }

  /** Canonical form is unique: representation is a function of the number. */
  lemma CanonicalUnique(p: Payload, q: Payload)
    requires Canonical(p) && Canonical(q) && IntOf(p) == IntOf(q)
    ensures p == q
  {
    if p.Big? && q.Big? {
      ValBound(p.limbs);
      ValBound(q.limbs);
      TrimmedUnique(p.limbs, q.limbs);
    }
  }

  function Plain(p: Payload): Value {
    Value(p, false, false, false)
  }

  /** `jaclrt_set_error(jaclrt_i32(0))`. */
  const DOMAIN_ERROR := Value(Inline(0), true, false, false)

  /** `jaclrt_error()`. */
  const TYPE_ERROR := Value(Nil, true, false, false)

  function Abs(x: int): nat {
    if x < 0 then -x else x
  }

  /** r is the exact number n in its narrowest form, or the domain error when n needs more than
      JBIG_MAX_LIMBS limbs. */
  ghost predicate Exact(r: Value, n: int) {
    if Abs(n) >= Shift(1, JBIG_MAX_LIMBS) then r == Value(Inline(0), true, false, false)
    else r == Plain(r.payload) && Canonical(r.payload) && IntOf(r.payload) == n
  }

  /** `jacl_int_result`. */
  function IntResult(bits: i64): (r: Value)
    ensures r == Plain(r.payload) && Canonical(r.payload) && IntOf(r.payload) == bits as int
  {
    if INT32_MIN <= bits as int <= INT32_MAX then Plain(Inline(bits as i32)) else Plain(Wide(bits))
  }

  /** Any i64 is far below the limb bound. */
  lemma SmallIsExact(r: Value, n: int)
    requires INT64_MIN <= n <= INT64_MAX
    requires r == Plain(r.payload) && Canonical(r.payload) && IntOf(r.payload) == n
    ensures Exact(r, n)
  {
    ShiftLonger(2, JBIG_MAX_LIMBS);
    TwoLimbs();
  }

  lemma TwoLimbs()
    ensures Shift(1, 1) == TWO32 && Shift(1, 2) == TWO32 * TWO32
  {
    assert Shift(1, 1) == TWO32;
  }

  lemma SmallVal(s: seq<u32>)
    requires 1 <= |s| <= 2
    ensures Val(s) == s[0] as int + if |s| == 2 then s[1] as int * TWO32 else 0
  {
    SingleVal(s[0]);
    if |s| == 2 {
      assert s[..1] == [s[0]];
      assert Shift(s[1] as int, 1) == TWO32 * s[1] as int;
    } else {
      assert s == [s[0]];
    }
  }

  lemma SingleVal(x: u32)
    ensures Val([x]) == x as int
  {
    assert [x][..0] == [];
  }

  lemma NoLimbs(s: seq<u32>)
    ensures Val(s[..0]) == 0
  {
  }

  /** The one constructor: trims, demotes what an i64 can hold, refuses past the limb bound. */
  method Canon(negative: bool, limb: seq<u32>) returns (r: Value)
    ensures Exact(r, Signed(negative, Val(limb)))
  {
    hide Val, Shift;
    var n := |limb|;
    while n > 0 && limb[n - 1] == 0
      invariant 0 <= n <= |limb| && forall i :: n <= i < |limb| ==> limb[i] == 0
    {
      n := n - 1;
    }
    ValTrim(limb, n);
    if n == 0 {
      NoLimbs(limb);
      SmallIsExact(Plain(Inline(0)), 0);
      return Plain(Inline(0));
    }
    if n <= 2 {
      SmallVal(limb[..n]);
      var u: u64 := limb[0] as u64 + if n == 2 then limb[1] as u64 * 0x1_0000_0000 else 0;
      if !negative && u <= 0x7FFF_FFFF_FFFF_FFFF {
        r := IntResult(u as i64);
        SmallIsExact(r, u as int);
        return;
      }
      if negative {
        if u == 0x8000_0000_0000_0000 {
          r := IntResult(-0x8000_0000_0000_0000);
          SmallIsExact(r, -(u as int));
          return;
        }
        if u <= 0x7FFF_FFFF_FFFF_FFFF {
          r := IntResult(-(u as i64));
          SmallIsExact(r, -(u as int));
          return;
        }
      }
    }
    TrimmedSize(limb[..n]);
    if n > JBIG_MAX_LIMBS {
      return DOMAIN_ERROR;
    }
    return Plain(Big(negative, limb[..n]));
  }

  /** Where a trimmed magnitude lies by its length alone. */
  lemma TrimmedSize(s: seq<u32>)
    requires Trimmed(s) && s != []
    ensures |s| > JBIG_MAX_LIMBS <==> Val(s) >= Shift(1, JBIG_MAX_LIMBS)
    ensures |s| >= 3 ==> Val(s) >= TWO32 * TWO32
    ensures |s| == 1 ==> Val(s) < TWO32
  {
    hide Val, Shift;
    ValBound(s);
    ValTop(s);
    var n := |s| - 1;
    ShiftMono(1, s[n] as int, n);
    TwoLimbs();
    if |s| > JBIG_MAX_LIMBS {
      ShiftLonger(JBIG_MAX_LIMBS, n);
    } else {
      ShiftLonger(|s|, JBIG_MAX_LIMBS);
    }
    if |s| >= 3 {
      ShiftLonger(2, n);
    }
  }

  /** Any dynamic integer as sign and limbs (`jbig_read`): a machine integer expands into a
      two-limb scratch, a bigint is used in place. */
  function ReadLimbs(p: Payload): (r: (bool, seq<u32>))
    requires IsInt(p)
    ensures !p.Big? ==> 1 <= |r.1| <= 2
    ensures Signed(r.0, Val(r.1)) == IntOf(p)
    ensures WellFormed(p) && IntOf(p) != 0 ==> Trimmed(r.1)
    ensures WellFormed(p) ==> 1 <= |r.1| <= JBIG_MAX_LIMBS && (r.1 == [0] <==> IntOf(p) == 0)
  {
    if p.Big? then
      ValBound(p.limbs);
      (p.negative, p.limbs)
    else
      var x := if p.Inline? then p.v as int else p.bits as int;
      var u := Abs(x);
      var lo, hi := (u % TWO32) as u32, (u / TWO32) as u32;
      var limbs := if hi != 0 then [lo, hi] else [lo];
      SmallVal(limbs);
      (x < 0, limbs)
  }

  method AddSub(a: Payload, b: Payload, negate: bool) returns (r: Value)
    requires IsInt(a) && IsInt(b) && WellFormed(a) && WellFormed(b)
    ensures Exact(r, if negate then IntOf(a) - IntOf(b) else IntOf(a) + IntOf(b))
  {
    hide Val, Shift;
    var (sa, la) := ReadLimbs(a);
    var (sb, lb) := ReadLimbs(b);
    if negate {
      sb := !sb;
    }
    if |la| > JBIG_MAX_LIMBS || |lb| > JBIG_MAX_LIMBS {
      return DOMAIN_ERROR;
    }
    var out := new u32[JBIG_SCRATCH];
    var n;
    if sa == sb {
      n := Add(la, lb, out);
      r := Canon(sa, out[..n]);
      return;
    }
    var c := Compare(la, lb);
    if c == 0 {
      SmallIsExact(Plain(Inline(0)), 0);
      return Plain(Inline(0));
    }
    if c > 0 {
      LargerIsLonger(a, b);
      n := Sub(la, lb, out);
      r := Canon(sa, out[..n]);
    } else {
      LargerIsLonger(b, a);
      n := Sub(lb, la, out);
      r := Canon(sb, out[..n]);
    }
  }

  /** The larger magnitude has at least as many limbs. */
  lemma LargerIsLonger(a: Payload, b: Payload)
    requires IsInt(a) && IsInt(b) && WellFormed(a) && WellFormed(b)
    requires Val(ReadLimbs(b).1) <= Val(ReadLimbs(a).1)
    ensures |ReadLimbs(b).1| <= |ReadLimbs(a).1|
  {
    hide Val, Shift;
    var la, lb := ReadLimbs(a).1, ReadLimbs(b).1;
    if |la| < |lb| && IntOf(b) != 0 {
      ValShorter(la, lb);
    }
  }

  method MulBig(a: Payload, b: Payload) returns (r: Value)
    requires IsInt(a) && IsInt(b) && WellFormed(a) && WellFormed(b)
    ensures Exact(r, IntOf(a) * IntOf(b))
  {
    hide Val, Shift, Exact, Times;
    var (sa, la) := ReadLimbs(a);
    var (sb, lb) := ReadLimbs(b);
    if |la| > JBIG_MAX_LIMBS || |lb| > JBIG_MAX_LIMBS {
      return DOMAIN_ERROR;
    }
    if |la| + |lb| > JBIG_SCRATCH {
      return DOMAIN_ERROR;
    }
    var out := new u32[JBIG_SCRATCH];
    var n := Mul(la, lb, out);
    r := Canon(sa != sb, out[..n]);
    SignRule(sa, Val(la), sb, Val(lb));
  }

  lemma SignRule(sa: bool, x: int, sb: bool, y: int)
    ensures Signed(sa, x) * Signed(sb, y) == Signed(sa != sb, Times(x, y))
  {
  }

  /** Ordering across the whole tower: sign first, then magnitude. */
  method CompareBig(a: Payload, b: Payload) returns (c: int)
    requires IsInt(a) && IsInt(b) && WellFormed(a) && WellFormed(b)
    ensures c == if IntOf(a) < IntOf(b) then -1 else if IntOf(a) > IntOf(b) then 1 else 0
  {
    hide Val, Shift;
    var (sa, la) := ReadLimbs(a);
    var (sb, lb) := ReadLimbs(b);
    ValBound(la);
    ValBound(lb);
    var za, zb := la == [0], lb == [0];
    if za && zb {
      return 0;
    }
    if za {
      return if !sb then -1 else 1;
    }
    if zb {
      return if !sa then 1 else -1;
    }
    if sa != sb {
      return if sa then -1 else 1;
    }
    var m := Compare(la, lb);
    return if !sa then m else -m;
  }

  /** Truncated division: |a| = |q| |b| + |r|, the quotient's sign is the product of the signs,
      the remainder's is the dividend's. */
  ghost predicate Truncated(a: int, b: int, q: int, r: int) {
    && a == q * b + r && Abs(r) < Abs(b)
    && (r > 0 ==> a > 0) && (r < 0 ==> a < 0)
  }

  lemma TruncatedUnique(a: int, b: int, q: int, r: int, q': int, r': int)
    requires Truncated(a, b, q, r) && Truncated(a, b, q', r')
    ensures q == q' && r == r'
  {
    var d := q - q';
    assert d * b == r' - r by {
      assert (q - q') * b == q * b - q' * b;
    }
    if d != 0 {
      assert Abs(d * b) >= Abs(b) by { ScaledUp(d, b); }
      assert false;
    }
  }

  lemma ScaledUp(d: int, b: int)
    requires d != 0
    ensures Abs(d * b) >= Abs(b)
  {
    MulMono(1, Abs(d), Abs(b));
    assert Abs(d * b) == Abs(d) * Abs(b) by {
      assert d * b == -((-d) * b) && d * b == -(d * (-b)) && d * b == (-d) * (-b);
    }
  }

  lemma SignedTruncation(sa: bool, sb: bool, u: int, v: int, q: int, r: int)
    requires 0 <= r < v && u == Times(q, v) + r && 0 <= q
    ensures Truncated(Signed(sa, u), Signed(sb, v), Signed(sa != sb, q), Signed(sa, r))
  {
    assert q * v >= 0 by { MulMono(0, q, v); }
    assert (-q) * v == -(q * v) && q * (-v) == -(q * v) && (-q) * (-v) == q * v;
  }

  method DivModBig(a: Payload, b: Payload, wantRem: bool) returns (res: Value)
    requires IsInt(a) && IsInt(b) && WellFormed(a) && WellFormed(b)
    ensures IntOf(b) == 0 ==> res == Value(Inline(0), true, false, false)
    ensures IntOf(b) != 0 ==>
              exists q, r :: Truncated(IntOf(a), IntOf(b), q, r) && Exact(res, if wantRem then r else q)
  {
    hide Val, Shift, Exact, Times, Truncated;
    var (sa, la) := ReadLimbs(a);
    var (sb, lb) := ReadLimbs(b);
    ValBound(la);
    ValBound(lb);
    if lb == [0] {
      return DOMAIN_ERROR;
    }
    if |la| > JBIG_MAX_LIMBS || |lb| > JBIG_MAX_LIMBS {
      return DOMAIN_ERROR;
    }
    if |la| < |lb| {
      ValShorter(la, lb);
      NoQuotientDigits(Val(la), Val(lb));
      SignedTruncation(sa, sb, Val(la), Val(lb), 0, Val(la));
      if wantRem {
        res := Canon(sa, la);
      } else {
        ZeroExact();
        res := Plain(Inline(0));
      }
      assert Truncated(IntOf(a), IntOf(b), Signed(sa != sb, 0), Signed(sa, Val(la)));
      return;
    }
    if |lb| == 1 {
      SingleVal(lb[0]);
      assert lb == [lb[0]];
      var tmp := new u32[JBIG_MAX_LIMBS];
      var i := 0;
      while i < |la|
        invariant i <= |la| && tmp[..i] == la[..i]
      {
        tmp[i] := la[i];
        i := i + 1;
      }
      assert la[..|la|] == la;
      var rem := DivModSmall(tmp, |la|, lb[0]);
      ValBound(tmp[..|la|]);
      SingleVal(rem);
      SignedTruncation(sa, sb, Val(la), Val(lb), Val(tmp[..|la|]), rem as int);
      assert Truncated(IntOf(a), IntOf(b), Signed(sa != sb, Val(tmp[..|la|])), Signed(sa, rem as int));
      if wantRem {
        res := Canon(sa, [rem]);
      } else {
        res := Canon(sa != sb, tmp[..|la|]);
      }
      return;
    }
    TopNonzero(b);
    var q, r := new u32[JBIG_MAX_LIMBS], new u32[JBIG_MAX_LIMBS];
    DivMod(la, lb, q, r);
    ValBound(q[..|la| - |lb| + 1]);
    SignedTruncation(sa, sb, Val(la), Val(lb), Val(q[..|la| - |lb| + 1]), Val(r[..|lb|]));
    assert Truncated(IntOf(a), IntOf(b), Signed(sa != sb, Val(q[..|la| - |lb| + 1])), Signed(sa, Val(r[..|lb|])));
    if wantRem {
      res := Canon(sa, r[..|lb|]);
    } else {
      res := Canon(sa != sb, q[..|la| - |lb| + 1]);
    }
  }

  lemma NoQuotientDigits(u: int, v: int)
    ensures u == Times(0, v) + u
  {
  }

  lemma ZeroExact()
    ensures Exact(Plain(Inline(0)), 0)
  {
    SmallIsExact(Plain(Inline(0)), 0);
  }

  lemma TopNonzero(b: Payload)
    requires IsInt(b) && WellFormed(b) && IntOf(b) != 0
    ensures var l := ReadLimbs(b).1; l[|l| - 1] != 0
  {
  }
}
