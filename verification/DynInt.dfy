/** Integer arithmetic and comparison on tagged values (runtime/builtins.c): the dispatch between
    the inline, boxed and bigint tiers. */
module DynInt {
  import opened MachineWords
  import opened Limbs
  import opened Magnitude
  import opened LongDivision
  import opened BigInt

  predicate Good(v: Value) {
    WellFormed(v.payload)
  }

  /** `r | prop_flags(a, b)`: taint and secrecy are the union of the operands'. */
  function PropFlags(r: Value, a: Value, b: Value): Value {
    r.(tainted := r.tainted || a.tainted || b.tainted, secret := r.secret || a.secret || b.secret)
  }

  /** The exact number n, with the operands' flags. */
  ghost predicate ExactFrom(r: Value, n: int, a: Value, b: Value) {
    exists e :: Exact(e, n) && r == Value(e.payload, e.error, a.tainted || b.tainted, a.secret || b.secret)
  }

  /** What every arithmetic operation does with operands it does not compute on: an error operand
      is returned as it is, the left one first; a non-integer is a type error. */
  ghost predicate Refused(r: Value, a: Value, b: Value) {
    || (a.error && r == a)
    || (!a.error && b.error && r == b)
    || (!a.error && !b.error && !(IsInt(a.payload) && IsInt(b.payload))
        && r == Value(Nil, true, false, false))
  }

  predicate Computable(a: Value, b: Value) {
    !a.error && !b.error && IsInt(a.payload) && IsInt(b.payload)
  }

  /** A number has one exact result, however it was computed. */
  lemma ExactUnique(r: Value, s: Value, n: int)
    requires Exact(r, n) && Exact(s, n)
    ensures r == s
  {
    if Abs(n) < Shift(1, JBIG_MAX_LIMBS) {
      CanonicalUnique(r.payload, s.payload);
    }
  }

  lemma IntRange(p: Payload)
    requires IsInt(p) && WellFormed(p)
    ensures Abs(IntOf(p)) < Shift(1, JBIG_MAX_LIMBS)
  {
    hide Val, Shift;
    if p.Big? {
      TrimmedSize(p.limbs);
      ValBound(p.limbs);
    } else {
      ShiftLonger(2, JBIG_MAX_LIMBS);
      TwoLimbs();
    }
  }

  function InI32(n: int): bool {
    INT32_MIN <= n <= INT32_MAX
  }

  function InI64(n: int): bool {
    INT64_MIN <= n <= INT64_MAX
  }

  lemma BoxedExact(n: int, a: Value, b: Value)
    requires InI64(n)
    ensures ExactFrom(PropFlags(IntResult(n as i64), a, b), n, a, b)
    ensures InI32(n) ==> IntResult(n as i64) == Plain(Inline(n as i32))
  {
    SmallIsExact(IntResult(n as i64), n);
  }

  /** An exact result is unflagged, so it takes the operands' flags and no others. */
  lemma Carried(e: Value, n: int, a: Value, b: Value)
    requires Exact(e, n)
    ensures var r := PropFlags(e, a, b);
      && ExactFrom(r, n, a, b)
      && (r.tainted <==> a.tainted || b.tainted) && (r.secret <==> a.secret || b.secret)
  {
  }

  method AddValues(a: Value, b: Value) returns (r: Value)
    requires Good(a) && Good(b)
    ensures if Computable(a, b) then ExactFrom(r, IntOf(a.payload) + IntOf(b.payload), a, b) else Refused(r, a, b)
    ensures Computable(a, b) ==> (r.tainted <==> a.tainted || b.tainted) && (r.secret <==> a.secret || b.secret)
  {
    hide Exact, Shift;
    if a.error { return a; }
    if b.error { return b; }
    if a.payload.Inline? && b.payload.Inline? {
      var n := a.payload.v as int + b.payload.v as int;
      BoxedExact(n, a, b);
      return if InI32(n) then PropFlags(Plain(Inline(n as i32)), a, b) else PropFlags(IntResult(n as i64), a, b);
    }
    if IsInt(a.payload) && IsInt(b.payload) && (a.payload.Big? || b.payload.Big?) {
      var e := AddSub(a.payload, b.payload, false);
      Carried(e, IntOf(a.payload) + IntOf(b.payload), a, b);
      return PropFlags(e, a, b);
    }
    if IsInt(a.payload) && IsInt(b.payload) && (a.payload.Wide? || b.payload.Wide?) {
      var n := IntOf(a.payload) + IntOf(b.payload);
      if !InI64(n) {
        var e := AddSub(a.payload, b.payload, false);
        Carried(e, IntOf(a.payload) + IntOf(b.payload), a, b);
        return PropFlags(e, a, b);
      }
      BoxedExact(n, a, b);
      return PropFlags(IntResult(n as i64), a, b);
    }
    return TYPE_ERROR;
  }

  method SubValues(a: Value, b: Value) returns (r: Value)
    requires Good(a) && Good(b)
    ensures if Computable(a, b) then ExactFrom(r, IntOf(a.payload) - IntOf(b.payload), a, b) else Refused(r, a, b)
    ensures Computable(a, b) ==> (r.tainted <==> a.tainted || b.tainted) && (r.secret <==> a.secret || b.secret)
  {
    hide Exact, Shift;
    if a.error { return a; }
    if b.error { return b; }
    if a.payload.Inline? && b.payload.Inline? {
      var n := a.payload.v as int - b.payload.v as int;
      BoxedExact(n, a, b);
      return if InI32(n) then PropFlags(Plain(Inline(n as i32)), a, b) else PropFlags(IntResult(n as i64), a, b);
    }
    if IsInt(a.payload) && IsInt(b.payload) && (a.payload.Big? || b.payload.Big?) {
      var e := AddSub(a.payload, b.payload, true);
      Carried(e, IntOf(a.payload) - IntOf(b.payload), a, b);
      return PropFlags(e, a, b);
    }
    if IsInt(a.payload) && IsInt(b.payload) && (a.payload.Wide? || b.payload.Wide?) {
      var n := IntOf(a.payload) - IntOf(b.payload);
      if !InI64(n) {
        var e := AddSub(a.payload, b.payload, true);
        Carried(e, IntOf(a.payload) - IntOf(b.payload), a, b);
        return PropFlags(e, a, b);
      }
      BoxedExact(n, a, b);
      return PropFlags(IntResult(n as i64), a, b);
    }
    return TYPE_ERROR;
  }

  lemma InlineProduct(x: int, y: int)
    requires InI32(x) && InI32(y)
    ensures InI64(x * y)
  {
    MulMono(x, INT32_MAX, Abs(y));
    MulMono(INT32_MIN, x, Abs(y));
    assert x * y == x * Abs(y) || x * y == -(x * Abs(y));
  }

  method MulValues(a: Value, b: Value) returns (r: Value)
    requires Good(a) && Good(b)
    ensures if Computable(a, b) then ExactFrom(r, IntOf(a.payload) * IntOf(b.payload), a, b) else Refused(r, a, b)
    ensures Computable(a, b) ==> (r.tainted <==> a.tainted || b.tainted) && (r.secret <==> a.secret || b.secret)
  {
    hide Exact, Shift;
    if a.error { return a; }
    if b.error { return b; }
    if a.payload.Inline? && b.payload.Inline? {
      var n := a.payload.v as int * b.payload.v as int;
      InlineProduct(a.payload.v as int, b.payload.v as int);
      BoxedExact(n, a, b);
      return if InI32(n) then PropFlags(Plain(Inline(n as i32)), a, b) else PropFlags(IntResult(n as i64), a, b);
    }
    if IsInt(a.payload) && IsInt(b.payload) && (a.payload.Big? || b.payload.Big?) {
      var e := MulBig(a.payload, b.payload);
      Carried(e, IntOf(a.payload) * IntOf(b.payload), a, b);
      return PropFlags(e, a, b);
    }
    if IsInt(a.payload) && IsInt(b.payload) && (a.payload.Wide? || b.payload.Wide?) {
      var n := IntOf(a.payload) * IntOf(b.payload);
      if !InI64(n) {
        var e := MulBig(a.payload, b.payload);
        Carried(e, IntOf(a.payload) * IntOf(b.payload), a, b);
        return PropFlags(e, a, b);
      }
      BoxedExact(n, a, b);
      return PropFlags(IntResult(n as i64), a, b);
    }
    return TYPE_ERROR;
  }

  // ---- division ----

  /** C's `x / y` on machine integers. */
  function TruncDiv(x: int, y: int): int
    requires y != 0
  {
    Signed((x < 0) != (y < 0), Abs(x) / Abs(y))
  }

  /** C's `x % y`. */
  function TruncMod(x: int, y: int): int
    requires y != 0
  {
    Signed(x < 0, Abs(x) % Abs(y))
  }

  lemma CDivision(x: int, y: int)
    requires y != 0
    ensures Truncated(x, y, TruncDiv(x, y), TruncMod(x, y))
    ensures Abs(TruncDiv(x, y)) <= Abs(x) && Abs(TruncMod(x, y)) <= Abs(x)
  {
    hide Times, Truncated;
    var u, v := Abs(x), Abs(y);
    EuclidTimes(u, v);
    QuotientAtMost(u, v, u / v, u % v);
    SignedTruncation(x < 0, y < 0, u, v, u / v, u % v);
  }

  lemma EuclidTimes(u: int, v: int)
    requires 0 < v
    ensures u == Times(u / v, v) + u % v && 0 <= u % v < v
  {
    Euclid(u, v);
  }

  lemma QuotientAtMost(u: int, v: int, q: int, r: int)
    requires 0 < v && 0 <= r < v && 0 <= u && u == Times(q, v) + r
    ensures 0 <= q <= u && r <= u
  {
    if q < 0 {
      MulMono(q, -1, v);
    } else {
      MulMono(1, v, q);
      assert v * q == q * v;
    }
  }

  /** The quotient of C's division is in range but for MIN / -1. */
  lemma DivisionRange(x: int, y: int, min: int)
    requires y != 0 && min < 0 && min <= x <= -min - 1 && !(x == min && y == -1)
    ensures min <= TruncDiv(x, y) <= -min - 1 && min <= TruncMod(x, y) <= -min - 1
  {
    CDivision(x, y);
    if x == min && y < -1 {
      var u, v := Abs(x), Abs(y);
      Euclid(u, v);
      if u / v >= u {
        MulMono(u, u / v, v);
        MulMono(2, v, u);
      }
    }
  }

  /** Both results of dividing a well-formed integer are within the limb bound. */
  lemma DivisionBounded(a: int, b: int, q: int, r: int)
    requires b != 0 && Truncated(a, b, q, r)
    ensures q == TruncDiv(a, b) && r == TruncMod(a, b) && Abs(q) <= Abs(a) && Abs(r) <= Abs(a)
  {
    CDivision(a, b);
    TruncatedUnique(a, b, q, r, TruncDiv(a, b), TruncMod(a, b));
  }

  /** Division and remainder truncate toward zero on the whole tower; the only failure is a zero divisor. */
  ghost predicate DividedBy(r: Value, a: Value, b: Value, wantRem: bool) {
    var x, y := IntOf(a.payload), IntOf(b.payload);
    if y == 0 then r == Value(Inline(0), true, a.tainted || b.tainted, a.secret || b.secret)
    else !r.error && ExactFrom(r, if wantRem then TruncMod(x, y) else TruncDiv(x, y), a, b)
  }

  method DivValues(a: Value, b: Value) returns (r: Value)
    requires Good(a) && Good(b)
    ensures if Computable(a, b) then DividedBy(r, a, b, false) else Refused(r, a, b)
    ensures Computable(a, b) ==> (r.tainted <==> a.tainted || b.tainted) && (r.secret <==> a.secret || b.secret)
  {
    hide Exact, Shift, Truncated, TruncDiv, TruncMod;
    if a.error { return a; }
    if b.error { return b; }
    if IsInt(a.payload) && IsInt(b.payload) && (a.payload.Big? || b.payload.Big?) {
      r := DivideInTower(a, b, false);
      return;
    }
    if IsInt(a.payload) && IsInt(b.payload) && (a.payload.Wide? || b.payload.Wide?) {
      var x, y := IntOf(a.payload), IntOf(b.payload);
      if y == 0 { return PropFlags(DOMAIN_ERROR, a, b); }
      if x == INT64_MIN && y == -1 {
        r := DivideInTower(a, b, false);
        return;
      }
      DivisionRange(x, y, INT64_MIN);
      BoxedExact(TruncDiv(x, y), a, b);
      return PropFlags(IntResult(TruncDiv(x, y) as i64), a, b);
    }
    if !a.payload.Inline? || !b.payload.Inline? { return TYPE_ERROR; }
    var x, y := a.payload.v as int, b.payload.v as int;
    if y == 0 { return PropFlags(DOMAIN_ERROR, a, b); }
    if x == INT32_MIN && y == -1 {
      BoxedExact(-INT32_MIN, a, b);
      MinOverMinusOne(INT32_MIN);
      return PropFlags(IntResult(0x8000_0000), a, b);
    }
    DivisionRange(x, y, INT32_MIN);
    BoxedExact(TruncDiv(x, y), a, b);
    return PropFlags(Plain(Inline(TruncDiv(x, y) as i32)), a, b);
  }

  method ModValues(a: Value, b: Value) returns (r: Value)
    requires Good(a) && Good(b)
    ensures if Computable(a, b) then DividedBy(r, a, b, true) else Refused(r, a, b)
    ensures Computable(a, b) ==> (r.tainted <==> a.tainted || b.tainted) && (r.secret <==> a.secret || b.secret)
  {
    hide Exact, Shift, Truncated, TruncDiv, TruncMod;
    if a.error { return a; }
    if b.error { return b; }
    if IsInt(a.payload) && IsInt(b.payload) && (a.payload.Big? || b.payload.Big?) {
      r := DivideInTower(a, b, true);
      return;
    }
    if IsInt(a.payload) && IsInt(b.payload) && (a.payload.Wide? || b.payload.Wide?) {
      var x, y := IntOf(a.payload), IntOf(b.payload);
      if y == 0 { return PropFlags(DOMAIN_ERROR, a, b); }
      if x == INT64_MIN && y == -1 {
        MinOverMinusOne(INT64_MIN);
        BoxedExact(0, a, b);
        return PropFlags(Plain(Inline(0)), a, b);
      }
      DivisionRange(x, y, INT64_MIN);
      BoxedExact(TruncMod(x, y), a, b);
      return PropFlags(IntResult(TruncMod(x, y) as i64), a, b);
    }
    if !a.payload.Inline? || !b.payload.Inline? { return TYPE_ERROR; }
    var x, y := a.payload.v as int, b.payload.v as int;
    if y == 0 { return PropFlags(DOMAIN_ERROR, a, b); }
    if x == INT32_MIN && y == -1 {
      MinOverMinusOne(INT32_MIN);
    } else {
      DivisionRange(x, y, INT32_MIN);
    }
    var rem := if x == INT32_MIN && y == -1 then 0 else TruncMod(x, y);
    BoxedExact(rem, a, b);
    return PropFlags(Plain(Inline(rem as i32)), a, b);
  }

  lemma MinOverMinusOne(min: int)
    requires min < 0
    ensures TruncDiv(min, -1) == -min && TruncMod(min, -1) == 0
  {
    assert Abs(min) / 1 == Abs(min);
  }

  method DivideInTower(a: Value, b: Value, wantRem: bool) returns (r: Value)
    requires Good(a) && Good(b) && Computable(a, b)
    ensures DividedBy(r, a, b, wantRem)
  {
    hide Shift, Truncated, TruncDiv, TruncMod;
    var e := DivModBig(a.payload, b.payload, wantRem);
    r := PropFlags(e, a, b);
    ghost var x, y := IntOf(a.payload), IntOf(b.payload);
    if y != 0 {
      ghost var q, m :| Truncated(x, y, q, m) && Exact(e, if wantRem then m else q);
      DivisionBounded(x, y, q, m);
      IntRange(a.payload);
    }
  }

  // ---- wrapping arithmetic ----

  datatype WrapOp = WrapAdd | WrapSub | WrapMul

  function Apply(op: WrapOp, x: int, y: int): int {
    match op
    case WrapAdd => x + y
    case WrapSub => x - y
    case WrapMul => x * y
  }

  /** The signed number of a word's low `width` bits, width given as 2^bits. */
  function Wrapped(n: int, width: int): (r: int)
    requires width > 0 && width % 2 == 0
    ensures -(width / 2) <= r < width / 2 && (r - n) % width == 0
  {
    var u := n % width;
    assert n == (n / width) * width + u;
    if u < width / 2 then
      Multiple(u - n, -(n / width), width);
      u
    else
      Multiple(u - width - n, -(n / width) - 1, width);
      u - width
  }

  lemma Multiple(x: int, k: int, m: int)
    requires 0 < m && x == k * m
    ensures x % m == 0
  {
    Euclid(x, m);
    var d := k - x / m;
    assert d * m == x % m by {
      assert (k - x / m) * m == k * m - (x / m) * m;
    }
    if d > 0 {
      MulMono(1, d, m);
    } else if d < 0 {
      MulMono(d, -1, m);
    }
  }

  /** `+% -% *%`: two inline integers wrap modulo 2^32, any others with an int64 form modulo 2^64;
      a bigint or a non-integer is a type error. */
  function WrapValues(op: WrapOp, a: Value, b: Value): (r: Value)
    ensures !a.error && !b.error && a.payload.Inline? && b.payload.Inline? ==>
              && !r.error && r.payload.Inline?
              && (r.tainted <==> a.tainted || b.tainted) && (r.secret <==> a.secret || b.secret)
              && (IntOf(r.payload) - Apply(op, IntOf(a.payload), IntOf(b.payload))) % 0x1_0000_0000 == 0
    ensures Computable(a, b) && !a.payload.Big? && !b.payload.Big? && !(a.payload.Inline? && b.payload.Inline?) ==>
              && !r.error && Canonical(r.payload) && InI64(IntOf(r.payload))
              && (r.tainted <==> a.tainted || b.tainted) && (r.secret <==> a.secret || b.secret)
              && (IntOf(r.payload) - Apply(op, IntOf(a.payload), IntOf(b.payload))) % 0x1_0000_0000_0000_0000 == 0
    ensures Computable(a, b) && (a.payload.Big? || b.payload.Big?) ==> r == Value(Nil, true, false, false)
    ensures !Computable(a, b) ==> Refused(r, a, b)
  {
    if a.error then a
    else if b.error then b
    else if a.payload.Inline? && b.payload.Inline? then
      PropFlags(Plain(Inline(Wrapped(Apply(op, a.payload.v as int, b.payload.v as int), 0x1_0000_0000) as i32)), a, b)
    else if IsInt(a.payload) && IsInt(b.payload) && !a.payload.Big? && !b.payload.Big? then
      PropFlags(IntResult(Wrapped(Apply(op, IntOf(a.payload), IntOf(b.payload)), 0x1_0000_0000_0000_0000) as i64), a, b)
    else TYPE_ERROR
  }

  // ---- comparison ----

  datatype CmpOp = Lt | Le | Gt | Ge | Eq | Ne

  function Holds(op: CmpOp, x: int, y: int): bool {
    match op
    case Lt => x < y
    case Le => x <= y
    case Gt => x > y
    case Ge => x >= y
    case Eq => x == y
    case Ne => x != y
  }

  /** `< <= > >=` agree with integer order whatever the representations. */
  method OrderValues(op: CmpOp, a: Value, b: Value) returns (r: Value)
    requires Good(a) && Good(b) && op != Eq && op != Ne
    ensures if Computable(a, b)
            then r == Value(Boolean(Holds(op, IntOf(a.payload), IntOf(b.payload))), false, a.tainted || b.tainted, a.secret || b.secret)
            else Refused(r, a, b)
    ensures Computable(a, b) ==> (r.tainted <==> a.tainted || b.tainted) && (r.secret <==> a.secret || b.secret)
  {
    if a.error { return a; }
    if b.error { return b; }
    if a.payload.Inline? && b.payload.Inline? {
      return PropFlags(Plain(Boolean(Holds(op, a.payload.v as int, b.payload.v as int))), a, b);
    }
    if IsInt(a.payload) && IsInt(b.payload) && (a.payload.Big? || b.payload.Big?) {
      var c := CompareBig(a.payload, b.payload);
      return PropFlags(Plain(Boolean(Holds(op, c, 0))), a, b);
    }
    if IsInt(a.payload) && IsInt(b.payload) && (a.payload.Wide? || b.payload.Wide?) {
      return PropFlags(Plain(Boolean(Holds(op, IntOf(a.payload), IntOf(b.payload)))), a, b);
    }
    return TYPE_ERROR;
  }

  /** Equality settles integers by value, anything else here by type and payload. */
  method EqualPayloads(a: Payload, b: Payload) returns (eq: bool)
    requires WellFormed(a) && WellFormed(b)
    ensures eq == if IsInt(a) && IsInt(b) then IntOf(a) == IntOf(b) else a == b
  {
    if a == b { return true; }
    if IsInt(a) && IsInt(b) {
      if a.Big? || b.Big? {
        var c := CompareBig(a, b);
        return c == 0;
      }
      return IntOf(a) == IntOf(b);
    }
    return false;
  }

  method EqValues(a: Value, b: Value, wantEqual: bool) returns (r: Value)
    requires Good(a) && Good(b)
    ensures a.error ==> r == a
    ensures !a.error && b.error ==> r == b
    ensures Computable(a, b) ==>
              r == Value(Boolean((IntOf(a.payload) == IntOf(b.payload)) == wantEqual), false, a.tainted || b.tainted, a.secret || b.secret)
    ensures !a.error && !b.error && !(IsInt(a.payload) && IsInt(b.payload)) ==>
              r == Value(Boolean((a.payload == b.payload) == wantEqual), false, a.tainted || b.tainted, a.secret || b.secret)
    ensures !a.error && !b.error ==> (r.tainted <==> a.tainted || b.tainted) && (r.secret <==> a.secret || b.secret)
  {
    if a.error { return a; }
    if b.error { return b; }
    var eq := EqualPayloads(a.payload, b.payload);
    return PropFlags(Plain(Boolean(eq == wantEqual)), a, b);
  }

  /** In canonical form, equal numbers are equal payloads: what map keys rely on. */
  lemma EqualityIsIdentityOnCanonical(a: Payload, b: Payload)
    requires Canonical(a) && Canonical(b)
    ensures IntOf(a) == IntOf(b) <==> a == b
  {
    if IntOf(a) == IntOf(b) {
      CanonicalUnique(a, b);
    }
  }

  // ---- raw words and tagged values ----

  function I64Box(x: i64): Value {
    IntResult(x)
  }

  /** A flagged value, a bigint or a non-number reads as 0. */
  function I64Unbox(v: Value): i64 {
    if v.tainted || v.secret then 0
    else if v.payload.Inline? then v.payload.v as i64
    else if v.payload.Wide? then v.payload.bits
    else 0
  }

  /** Above INT64_MAX the signed tower has only the bigint form. */
  method U64Box(x: u64) returns (r: Value)
    ensures r == Plain(r.payload) && Canonical(r.payload) && IntOf(r.payload) == x as int
  {
    if x <= 0x7FFF_FFFF_FFFF_FFFF {
      return IntResult(x as i64);
    }
    SmallVal([Low32(x), High32(x) as u32]);
    r := Canon(false, [Low32(x), High32(x) as u32]);
    ShiftLonger(3, JBIG_MAX_LIMBS);
    TwoLimbs();
    assert Shift(1, 3) == TWO32 * Shift(1, 2);
  }

  function U64Unbox(v: Value): u64 {
    if v.tainted || v.secret then 0
    else match v.payload
      case Inline(x) => if x < 0 then 0 else x as u64
      case Big(negative, limbs) =>
        if negative || |limbs| > 2 then 0
        else LimbAt(limbs, 0) as u64 + LimbAt(limbs, 1) as u64 * 0x1_0000_0000
      case Wide(bits) => if bits < 0 then 0 else bits as u64
      case _ => 0
  }

  lemma I64RoundTrip(x: i64)
    ensures I64Unbox(I64Box(x)) == x
  {
  }

  /** An unflagged integer an i64 can hold is unboxed as itself, everything else as 0. */
  lemma I64UnboxExact(v: Value)
    requires Good(v)
    ensures var n := IntOf(v.payload);
      I64Unbox(v) as int == if !v.tainted && !v.secret && IsInt(v.payload) && INT64_MIN <= n <= INT64_MAX then n else 0
  {
  }

  /** An unflagged integer a u64 can hold is unboxed as itself, everything else as 0. */
  lemma U64UnboxExact(v: Value)
    requires Good(v)
    ensures var n := IntOf(v.payload);
      U64Unbox(v) as int
      == if !v.tainted && !v.secret && IsInt(v.payload) && 0 <= n < 0x1_0000_0000_0000_0000 then n else 0
  {
    if v.payload.Big? {
      var s := v.payload.limbs;
      ValBound(s);
      TrimmedSize(s);
      if |s| == 2 {
        SmallVal(s);
      }
    }
  }
}
