/** Decimal text of a bigint and back (runtime/bigint.c): nine-digit chunks peeled off by in-place
    single-limb division, and multiply-by-ten-and-add in the other direction. */
module Decimal {
  import opened MachineWords
  import opened Limbs
  import opened Magnitude
  import opened LongDivision
  import opened BigInt

  // ---- what a digit string means ----

  predicate IsDigit(c: char) {
    '0' <= c <= '9'
  }

  function DigitVal(c: char): int {
    c as int - '0' as int
  }

  function DigitChar(d: int): (c: char)
    requires 0 <= d < 10
    ensures IsDigit(c) && DigitVal(c) == d
  {
    ('0' as int + d) as char
  }

  /** The number a digit string spells, most significant digit first. */
  function Number(s: string): int {
    if s == [] then 0 else 10 * Number(s[..|s| - 1]) + DigitVal(s[|s| - 1])
  }

  predicate AllDigits(s: string) {
    forall i :: 0 <= i < |s| ==> IsDigit(s[i])
  }

  /** The digits of n without leading zeros. */
  function Digits(n: nat): (s: string)
    ensures s != [] && AllDigits(s)
  {
    if n < 10 then [DigitChar(n)] else Digits(n / 10) + [DigitChar(n % 10)]
  }

  function DecimalString(n: int): string {
    if n < 0 then "-" + Digits(-n) else Digits(n)
  }

  /** What a string with an optional minus sign spells. */
  function Spelled(s: string): int {
    if s != [] && s[0] == '-' then -Number(s[1..]) else Number(s)
  }

  /** What follows an optional minus sign. */
  function Unsigned(s: string): string {
    if s != [] && s[0] == '-' then s[1..] else s
  }

  predicate WellSpelled(s: string) {
    Unsigned(s) != [] && AllDigits(Unsigned(s))
  }

  /** How many digits s begins with. */
  function Leading(s: string): (p: nat)
    ensures p <= |s| && AllDigits(s[..p]) && (p < |s| ==> !IsDigit(s[p]))
  {
    if s == [] || !IsDigit(s[0]) then 0 else
      assert forall i :: 1 <= i < |s| ==> s[i] == s[1..][i - 1];
      1 + Leading(s[1..])
  }

  lemma {:induction false} DigitsSpell(n: nat)
    ensures Number(Digits(n)) == n && (n > 0 ==> Digits(n)[0] != '0')
  {
    if n >= 10 {
      DigitsSpell(n / 10);
      assert Digits(n)[..|Digits(n)| - 1] == Digits(n / 10);
    } else {
      assert Digits(n)[..0] == [];
    }
  }

  /** Digits without a leading zero are the only spelling of their number. */
  lemma {:induction false} SpellingUnique(s: string)
    requires s != [] && AllDigits(s) && (|s| > 1 ==> s[0] != '0')
    ensures Number(s) >= 0 && Digits(Number(s)) == s
    ensures s[0] != '0' ==> Number(s) > 0
  {
    var n := |s| - 1;
    if n == 0 {
      assert s[..0] == [];
      assert s == [s[0]];
    } else {
      SpellingUnique(s[..n]);
      assert Number(s) / 10 == Number(s[..n]);
      assert s == s[..n] + [s[n]];
    }
  }

  lemma SpelledDecimal(n: int)
    ensures Spelled(DecimalString(n)) == n && WellSpelled(DecimalString(n))
  {
    DigitsSpell(if n < 0 then -n else n);
    if n < 0 {
      assert DecimalString(n)[1..] == Digits(-n);
    }
  }

  // ---- printing ----

  /** x * 10^i. */
  function Ten(x: int, i: nat): int {
    if i == 0 then x else 10 * Ten(x, i - 1)
  }

  lemma {:induction false} TenAdd(x: int, y: int, i: nat)
    ensures Ten(x + y, i) == Ten(x, i) + Ten(y, i)
  {
    if i > 0 {
      TenAdd(x, y, i - 1);
    }
  }

  lemma {:induction false} TenUp(x: int, i: nat)
    ensures Ten(10 * x, i) == Ten(x, i + 1)
  {
    if i > 0 {
      TenUp(x, i - 1);
    }
  }

  lemma {:induction false} TenZero(i: nat)
    ensures Ten(0, i) == 0
  {
    if i > 0 {
      TenZero(i - 1);
    }
  }

  lemma TenNine(x: int, i: nat)
    ensures Ten(1000000000 * x, i) == Ten(x, i + 9)
  {
    TenUp(100000000 * x, i);
    TenUp(10000000 * x, i + 1);
    TenUp(1000000 * x, i + 2);
    TenUp(100000 * x, i + 3);
    TenUp(10000 * x, i + 4);
    TenUp(1000 * x, i + 5);
    TenUp(100 * x, i + 6);
    TenUp(10 * x, i + 7);
    TenUp(x, i + 8);
  }

  /** The number of a digit string, least significant digit first. */
  function Reversed(s: string): int {
    if s == [] then 0 else Reversed(s[..|s| - 1]) + Ten(DigitVal(s[|s| - 1]), |s| - 1)
  }

  lemma ReversedPush(s: string, c: char)
    ensures Reversed(s + [c]) == Reversed(s) + Ten(DigitVal(c), |s|)
  {
    assert (s + [c])[..|s|] == s;
  }

  /** Writing the digits back to front spells the same number. */
  lemma {:induction false} ReversedSpells(rev: string, out: string)
    requires |out| == |rev| && forall i :: 0 <= i < |out| ==> out[i] == rev[|rev| - 1 - i]
    ensures Number(out) == Reversed(rev)
  {
    var n := |rev|;
    if n > 0 {
      ReversedCons(rev);
      ReversedSpells(rev[1..], out[..n - 1]);
    }
  }

  lemma {:induction false} ReversedCons(s: string)
    requires s != []
    ensures Reversed(s) == DigitVal(s[0]) + 10 * Reversed(s[1..])
  {
    var n := |s| - 1;
    if n == 0 {
      assert s[..0] == [] && s[1..] == [];
    } else {
      ReversedCons(s[..n]);
      assert s[..n][1..] == s[1..][..n - 1];
      assert s[1..][n - 1] == s[n];
    }
  }

  lemma {:induction false} LeadingZeros(s: string, r: nat)
    requires r <= |s| && forall i :: r <= i < |s| ==> s[i] == '0'
    ensures Reversed(s[..r]) == Reversed(s)
  {
    if r == |s| {
      assert s[..r] == s;
    } else {
      LeadingZeros(s[..|s| - 1], r);
      assert s[..|s| - 1][..r] == s[..r];
      TenZero(|s| - 1);
    }
  }

  /** x * 2^(29 k): dividing by 10^9 more than undoes one step. */
  function Chunks(x: int, k: nat): int {
    if k == 0 then x else 0x2000_0000 * Chunks(x, k - 1)
  }

  lemma {:induction false} ChunksStep(v: int, w: int, chunk: int, k: nat)
    requires v == w * 1000000000 + chunk && 0 <= w && 0 <= chunk
    ensures Chunks(w, k + 1) <= Chunks(v, k)
  {
    if k > 0 {
      ChunksStep(v, w, chunk, k - 1);
    }
  }

  lemma {:induction false} ChunksGrow(x: int, k: nat)
    requires x >= 1
    ensures Chunks(x, k) >= Doubled(1, 29 * k)
  {
    if k > 0 {
      ChunksGrow(x, k - 1);
      DoubledMore(1, 29 * (k - 1), 29);
      Doubled29(Doubled(1, 29 * (k - 1)));
    }
  }

  lemma Doubled29(y: int)
    ensures Doubled(y, 29) == 0x2000_0000 * y
  {
    DoubledBy(y);
    DoubledBy(0x1_0000 * y);
    DoubledMore(y, 16, 8);
    DoubledBy(0x100_0000 * y);
    DoubledMore(y, 24, 4);
    DoubledBy(0x1000_0000 * y);
    DoubledMore(y, 28, 1);
  }

  lemma {:induction false} ShiftIsDoubled(n: nat)
    ensures Shift(1, n) == Doubled(1, 32 * n)
  {
    if n > 0 {
      ShiftIsDoubled(n - 1);
      var y := Doubled(1, 32 * (n - 1));
      DoubledMore(1, 32 * (n - 1), 32);
      DoubledBy(y);
      DoubledBy(0x1_0000 * y);
      DoubledMore(y, 16, 16);
    }
  }

  /** A number of at most 128 limbs gives at most 142 chunks, so the digit buffer suffices. */
  lemma ChunkCount(v: int, total: int, k: nat)
    requires v >= 1 && Chunks(v, k) <= total < Shift(1, JBIG_MAX_LIMBS)
    ensures k < 142
  {
    hide Shift, Doubled;
    if k >= 142 {
      ChunksGrow(v, k);
      ShiftIsDoubled(JBIG_MAX_LIMBS);
      DoubledLonger(32 * JBIG_MAX_LIMBS, 29 * k);
    }
  }

  lemma {:induction false} DoubledLonger(m: nat, n: nat)
    requires m <= n
    ensures 0 < Doubled(1, m) <= Doubled(1, n)
  {
    if m < n {
      DoubledLonger(m, n - 1);
    } else if m > 0 {
      DoubledLonger(m - 1, m - 1);
    }
  }

  const REV_SIZE: nat := JBIG_MAX_LIMBS * 10 + 2

  /** Nine digits of one chunk, least significant first. */
  method EmitChunk(rev: array<char>, r0: nat, chunk0: u32) returns (r: nat)
    requires r0 + 9 <= rev.Length && chunk0 < 1000000000
    modifies rev
    ensures r == r0 + 9 && rev[..r0] == old(rev[..r0])
    ensures AllDigits(rev[r0..r])
    ensures Reversed(rev[..r]) == old(Reversed(rev[..r0])) + Ten(chunk0 as int, r0)
  {
    hide Reversed, Ten;
    r := r0;
    var chunk := chunk0;
    var k := 0;
    ghost var limit := 1000000000;
    while k < 9
      invariant 0 <= k <= 9 && r == r0 + k && rev[..r0] == old(rev[..r0])
      invariant AllDigits(rev[r0..r])
      invariant chunk as int < limit
      invariant limit == [1000000000, 100000000, 10000000, 1000000, 100000, 10000, 1000, 100, 10, 1][k]
      invariant Reversed(rev[..r]) + Ten(chunk as int, r) == old(Reversed(rev[..r0])) + Ten(chunk0 as int, r0)
    {
      ghost var before := rev[..r];
      rev[r] := DigitChar((chunk % 10) as int);
      assert rev[..r] == before && rev[..r + 1] == before + [rev[r]];
      assert rev[r0..r + 1] == rev[r0..r] + [rev[r]];
      ReversedPush(before, rev[r]);
      TenUp(chunk as int / 10, r);
      TenAdd(10 * (chunk as int / 10), chunk as int % 10, r);
      r := r + 1;
      chunk := chunk / 10;
      limit := limit / 10;
      k := k + 1;
    }
    TenZero(r);
  }

  method StripZeros(rev: array<char>, r0: nat) returns (r: nat)
    requires 1 <= r0 <= rev.Length && AllDigits(rev[..r0])
    ensures 1 <= r <= r0 && AllDigits(rev[..r]) && Reversed(rev[..r]) == Reversed(rev[..r0])
    ensures r == 1 || rev[r - 1] != '0'
  {
    r := r0;
    while r > 1 && rev[r - 1] == '0'
      invariant 1 <= r <= r0 && AllDigits(rev[..r])
      invariant Reversed(rev[..r]) == Reversed(rev[..r0])
    {
      LeadingZeros(rev[..r], r - 1);
      assert rev[..r][..r - 1] == rev[..r - 1];
      r := r - 1;
    }
  }

  /** `jacl_big_to_decimal`: the length written, or 0 when the text and its terminator do not fit. */
  method ToDecimal(p: Payload, buf: array<char>, cap: nat) returns (o: nat)
    requires p.Big? && WellFormed(p) && cap <= buf.Length
    modifies buf
    ensures o == 0 <==> |DecimalString(IntOf(p))| + 1 > cap
    ensures o > 0 ==> o < buf.Length && buf[..o] == DecimalString(IntOf(p)) && buf[o] == '\0'
  {
    hide Val, Shift, Reversed, Ten, Number, Digits, Times;
    var limbs := p.limbs;
    var n := |limbs|;
    o := 0;
    if n > JBIG_MAX_LIMBS {
      return;
    }
    var tmp := new u32[JBIG_MAX_LIMBS];
    var i := 0;
    while i < n
      invariant i <= n && tmp[..i] == limbs[..i]
    {
      tmp[i] := limbs[i];
      i := i + 1;
    }
    assert limbs[..n] == limbs;
    var rev := new char[REV_SIZE];
    PositiveIfAny(limbs);
    var r := PeelDigits(tmp, n, rev);
    r := StripZeros(rev, r);
    TopDigit(rev[..r]);
    TextOf(rev[..r], Val(limbs));
    var len := r + if p.negative then 1 else 0;
    if len + 1 > cap {
      return;
    }
    o := WriteText(rev, r, p.negative, buf);
    assert buf[..o] == DecimalString(IntOf(p));
    ghost var printed := buf[..o];
    buf[o] := '\0';
    assert buf[..o] == printed;
  }

  function Backwards(s: string): (t: string)
    ensures |t| == |s| && forall i :: 0 <= i < |t| ==> t[i] == s[|s| - 1 - i]
  {
    seq(|s|, i requires 0 <= i < |s| => s[|s| - 1 - i])
  }

  lemma TextOf(rev: string, v: int)
    requires rev != [] && AllDigits(rev) && rev[|rev| - 1] != '0' && Reversed(rev) == v
    ensures v > 0 && Backwards(rev) == Digits(v)
  {
    hide Reversed, Number, Digits;
    ReversedSpells(rev, Backwards(rev));
    SpellingUnique(Backwards(rev));
  }

  method WriteText(rev: array<char>, r0: nat, negative: bool, buf: array<char>) returns (o: nat)
    requires rev != buf && r0 <= rev.Length && r0 + (if negative then 1 else 0) < buf.Length
    modifies buf
    ensures o == r0 + if negative then 1 else 0
    ensures buf[..o] == (if negative then "-" else "") + Backwards(rev[..r0])
  {
    var r := r0;
    o := 0;
    if negative {
      buf[o] := '-';
      o := 1;
    }
    ghost var start, text := o, Backwards(rev[..r0]);
    while r > 0
      invariant 0 <= r <= r0 && o == start + (r0 - r)
      invariant buf[..start] == if negative then "-" else ""
      invariant buf[start..o] == text[..r0 - r]
    {
      r := r - 1;
      buf[o] := rev[r];
      o := o + 1;
      assert buf[start..o] == buf[start..o - 1] + [rev[r]];
    }
    assert buf[..o] == buf[..start] + buf[start..o];
  }

  /** A positive number's top digit, once padding is stripped, is not zero. */
  lemma TopDigit(rev: string)
    requires rev != [] && AllDigits(rev) && Reversed(rev) > 0
    requires |rev| > 1 ==> rev[|rev| - 1] != '0'
    ensures rev[|rev| - 1] != '0'
  {
    if |rev| == 1 {
      assert rev[..0] == [];
    }
  }

  method PeelDigits(tmp: array<u32>, n0: nat, rev: array<char>) returns (r: nat)
    requires n0 <= JBIG_MAX_LIMBS <= tmp.Length && rev.Length == REV_SIZE && 0 < Val(tmp[..n0])
    modifies tmp, rev
    ensures 1 <= r <= rev.Length && AllDigits(rev[..r])
    ensures Reversed(rev[..r]) == old(Val(tmp[..n0]))
  {
    hide Val, Shift, Reversed, Ten, Chunks, Times;
    ghost var total := Val(tmp[..n0]);
    var n := n0;
    ghost var k := 0;
    r := 0;
    ValBound(tmp[..n]);
    ShiftLonger(n, JBIG_MAX_LIMBS);
    PeelStart(total);
    assert tmp[..0] == [];
    while n > 0
      invariant 0 <= n <= n0 && r == 9 * k && r <= rev.Length
      invariant AllDigits(rev[..r])
      invariant total == Reversed(rev[..r]) + Ten(Val(tmp[..n]), r)
      invariant Chunks(Val(tmp[..n]), k) <= total < Shift(1, JBIG_MAX_LIMBS)
      invariant Trimmed(tmp[..n]) || k == 0
      invariant n > 0 ==> Val(tmp[..n]) >= 1
      invariant n == 0 ==> k > 0
      decreases Val(tmp[..n])
    {
      ghost var v := Val(tmp[..n]);
      ChunkCount(v, total, k);
      var chunk := DivModSmall(tmp, n, 1000000000);
      ghost var w := Val(tmp[..n]);
      ValBound(tmp[..n]);
      PeelStep(v, w, chunk as int, r, k);
      n := DropLeadingZeros(tmp, n);
      PositiveIfAny(tmp[..n]);
      ghost var r0, before := r, rev[..r];
      r := EmitChunk(rev, r, chunk);
      assert rev[..r] == rev[..r0] + rev[r0..r];
      k := k + 1;
    }
    assert tmp[..0] == [];
    PeelEnd(r);
  }

  lemma PeelStart(v: int)
    ensures Val([]) == 0 && Reversed([]) == 0 && Ten(v, 0) == v && Chunks(v, 0) == v
  {
  }

  lemma PeelEnd(r: nat)
    ensures Ten(Val([]), r) == 0
  {
    TenZero(r);
  }

  lemma PositiveIfAny(s: seq<u32>)
    requires Trimmed(s)
    ensures s != [] ==> Val(s) >= 1
  {
    if s != [] {
      ValTop(s);
      ShiftSign(s[|s| - 1] as int, |s| - 1);
    }
  }

  lemma PeelStep(v: int, w: int, chunk: int, r: nat, k: nat)
    requires v == Times(w, 1000000000) + chunk && 0 <= w && 0 <= chunk
    ensures Ten(v, r) == Ten(w, r + 9) + Ten(chunk, r)
    ensures Chunks(w, k + 1) <= Chunks(v, k)
    ensures v >= 1 ==> w < v
  {
    TenAdd(1000000000 * w, chunk, r);
    TenNine(w, r);
    ChunksStep(v, w, chunk, k);
  }

  // ---- parsing ----

  /** limb := limb * 10 + digit over the first n limbs; the new length, or no answer past the bound. */
  method TimesTenPlus(limb: array<u32>, n0: nat, digit: int) returns (n: nat, fits: bool)
    requires n0 <= limb.Length == JBIG_MAX_LIMBS && 0 <= digit < 10 && Trimmed(limb[..n0])
    modifies limb
    ensures fits ==> n <= limb.Length && Trimmed(limb[..n]) && Val(limb[..n]) == 10 * old(Val(limb[..n0])) + digit
    ensures !fits ==> 10 * old(Val(limb[..n0])) + digit >= Shift(1, JBIG_MAX_LIMBS)
  {
    hide Val, Shift;
    n, fits := n0, true;
    ghost var was := limb[..n];
    var carry: u64 := digit as u64;
    var k := 0;
    TenStart(was, carry as int);
    while k < n
      invariant 0 <= k <= n && carry < 10
      invariant limb[k..n] == was[k..]
      invariant Val(limb[..k]) + Shift(carry as int, k) == 10 * Val(was[..k]) + digit
      invariant k > 0 && limb[k - 1] == 0 && was[k - 1] != 0 ==> carry > 0
    {
      assert limb[k] == limb[k..n][0] == was[k];
      var t: u64 := limb[k] as u64 * 10 + carry;
      ghost var done, c0, rest := limb[..k], carry, limb[k + 1..n];
      limb[k] := Low32(t);
      carry := High32(t);
      assert limb[..k] == done && limb[k + 1..n] == rest == was[k + 1..];
      ArrayPush(limb, k);
      ValPush(was, k);
      Column(limb[k] as int, carry as int, t as int, k);
      TenColumn(was[k] as int, c0 as int, k);
      k := k + 1;
    }
    assert was[..n] == was;
    if carry > 0 {
      if n >= JBIG_MAX_LIMBS {
        ValBound(limb[..n]);
        ShiftMono(1, carry as int, n);
        fits := false;
        return;
      }
      ghost var low := limb[..n];
      limb[n] := Low32(carry);
      assert limb[..n] == low;
      ArrayPush(limb, n);
      n := n + 1;
    } else {
      ShiftSign(0, n);
    }
  }

  lemma TenStart(s: seq<u32>, c: int)
    ensures Val(s[..0]) == 0 && Val([]) == 0 && Shift(c, 0) == c
  {
  }

  lemma TenColumn(x: int, c: int, k: nat)
    ensures Shift(x * 10 + c, k) == 10 * Shift(x, k) + Shift(c, k)
  {
    ShiftAdd(10 * x, c, k);
    ShiftMul(10, x, k);
  }

  /** Longer digit strings spell larger numbers. */
  lemma {:induction false} PrefixSmaller(s: string, i: nat)
    requires i <= |s| && AllDigits(s)
    ensures 0 <= Number(s[..i]) <= Number(s)
  {
    if i < |s| {
      PrefixSmaller(s[..|s| - 1], i);
      assert s[..|s| - 1][..i] == s[..i];
      PrefixSmaller(s[..|s| - 1], |s| - 1);
      assert s[..|s| - 1][..|s| - 1] == s[..|s| - 1];
    } else {
      assert s[..i] == s;
      if i > 0 {
        PrefixSmaller(s[..i - 1], i - 1);
      }
    }
  }

  /** `jacl_big_from_decimal` on a string's bytes; bufSize is the size of its staging buffer. */
  method FromDecimal(s: string, bufSize: nat) returns (r: Value)
    ensures s == [] || |s| + 1 > bufSize ==> r == DOMAIN_ERROR
    ensures s != [] && |s| + 1 <= bufSize && WellSpelled(s) ==> Exact(r, Spelled(s))
    ensures s != [] && |s| + 1 <= bufSize && !WellSpelled(s) ==>
              var d := Unsigned(s);
              r == if Number(d[..Leading(d)]) >= Shift(1, JBIG_MAX_LIMBS) then DOMAIN_ERROR else TYPE_ERROR
  {
    hide Val, Shift, Number, Leading;
    var len := |s|;
    if len == 0 || len + 1 > bufSize {
      return DOMAIN_ERROR;
    }
    var i, negative := 0, false;
    if s[0] == '-' {
      negative := true;
      i := 1;
    }
    ParseStart(s[i..]);
    if i >= len {
      return TYPE_ERROR;
    }
    var limb := new u32[JBIG_MAX_LIMBS];
    var n, refused, why := ParseDigits(s, i, limb);
    if refused {
      return why;
    }
    r := Canon(negative, limb[..n]);
  }

  /** The digits of s from start on, accumulated in limb; refused at the first character that is no digit or
      when the limbs run out, whichever comes first. */
  method ParseDigits(s: string, start: nat, limb: array<u32>) returns (n: nat, refused: bool, why: Value)
    requires start < |s| && limb.Length == JBIG_MAX_LIMBS
    modifies limb
    ensures var d := s[start..];
      && (!refused ==> AllDigits(d) && n <= JBIG_MAX_LIMBS && Trimmed(limb[..n]) && Val(limb[..n]) == Number(d))
      && (refused ==> (why == if Number(d[..Leading(d)]) >= Shift(1, JBIG_MAX_LIMBS) then DOMAIN_ERROR else TYPE_ERROR)
                      && (AllDigits(d) ==> why == DOMAIN_ERROR && Number(d) >= Shift(1, JBIG_MAX_LIMBS)))
  {
    hide Val, Shift, Number, Leading;
    ghost var d := s[start..];
    var i := start;
    n, refused, why := 0, true, TYPE_ERROR;
    ParseStart(d);
    while i < |s|
      invariant start <= i <= |s| && n <= JBIG_MAX_LIMBS
      invariant AllDigits(d[..i - start])
      invariant Trimmed(limb[..n]) && Val(limb[..n]) == Number(d[..i - start])
    {
      assert s[i] == d[i - start];
      if s[i] < '0' || s[i] > '9' {
        LeadingEnds(d, i - start);
        ValBound(limb[..n]);
        ShiftLonger(n, JBIG_MAX_LIMBS);
        why := TYPE_ERROR;
        return;
      }
      NumberPush(d, i - start);
      var fits;
      n, fits := TimesTenPlus(limb, n, DigitVal(s[i]));
      if !fits {
        LeadingReaches(d, i - start + 1);
        why := DOMAIN_ERROR;
        return;
      }
      i := i + 1;
    }
    assert d[..i - start] == d;
    refused := false;
  }

  /** The first character that is no digit ends the leading ones. */
  lemma LeadingEnds(d: string, j: nat)
    requires j < |d| && AllDigits(d[..j]) && !IsDigit(d[j])
    ensures Leading(d) == j && !AllDigits(d)
  {
    assert forall i :: 0 <= i < j ==> d[i] == d[..j][i];
    assert forall i :: 0 <= i < Leading(d) ==> d[i] == d[..Leading(d)][i];
  }

  /** Digits d begins with are among its leading digits, and their number is no larger. */
  lemma LeadingReaches(d: string, j: nat)
    requires j <= |d| && AllDigits(d[..j])
    ensures j <= Leading(d) && Number(d[..j]) <= Number(d[..Leading(d)])
    ensures AllDigits(d) ==> d[..Leading(d)] == d
  {
    var p := Leading(d);
    assert forall i :: 0 <= i < j ==> d[i] == d[..j][i];
    PrefixSmaller(d[..p], j);
    assert d[..p][..j] == d[..j];
  }

  lemma ParseStart(d: string)
    ensures Val([]) == 0 && Number(d[..0]) == 0 && Shift(1, JBIG_MAX_LIMBS) > 0
  {
    ShiftSign(1, JBIG_MAX_LIMBS);
  }

  lemma NumberPush(d: string, i: nat)
    requires i < |d|
    ensures Number(d[..i + 1]) == 10 * Number(d[..i]) + DigitVal(d[i])
    ensures AllDigits(d[..i]) && IsDigit(d[i]) ==> AllDigits(d[..i + 1])
  {
    assert d[..i + 1][..i] == d[..i];
  }

  /** Reading back what was printed gives the same canonical cell. */
  lemma DecimalRoundTrip(p: Payload, r: Value)
    requires p.Big? && WellFormed(p)
    requires Exact(r, Spelled(DecimalString(IntOf(p))))
    ensures r == Plain(p) && WellSpelled(DecimalString(IntOf(p)))
  {
    hide Val, Shift;
    SpelledDecimal(IntOf(p));
    TrimmedSize(p.limbs);
    ValBound(p.limbs);
    CanonicalUnique(r.payload, p);
  }

  // ---- the buffer ----

  const JACL_BIG_DECIMAL_MAX: nat := 1300

  lemma {:induction false} LongMeansLarge(n: nat, k: nat)
    requires |Digits(n)| > k
    ensures k == 0 || n >= Ten(1, k)
    decreases n
  {
    if k > 0 {
      LongMeansLarge(n / 10, k - 1);
    }
  }

  lemma {:induction false} TenBeatsChunks(k: nat)
    ensures Ten(1, 9 * k) >= Chunks(1, k) > 0
  {
    if k > 0 {
      TenBeatsChunks(k - 1);
      TenNine(1, 9 * (k - 1));
      TenScale(1000000000, 9 * (k - 1));
    }
  }

  lemma {:induction false} TenScale(x: int, i: nat)
    ensures Ten(x, i) == x * Ten(1, i)
  {
    if i > 0 {
      TenScale(x, i - 1);
    }
  }

  /** The staging buffer every caller uses holds any bigint's text, its sign and its terminator. */
  lemma TextFits(p: Payload)
    requires p.Big? && WellFormed(p)
    ensures |DecimalString(IntOf(p))| + 1 <= 1280 < JACL_BIG_DECIMAL_MAX
  {
    hide Val, Shift, Digits, Ten, Chunks;
    var m := Val(p.limbs);
    TrimmedSize(p.limbs);
    ValBound(p.limbs);
    if |Digits(m)| > 1278 {
      LongMeansLarge(m, 1278);
      TenBeatsChunks(142);
      ChunkCount(1, m, 142);
      assert false;
    }
    ZeroText();
  }

  lemma ZeroText()
    ensures |Digits(0)| == 1
  {
  }

  /** Printing any bigint into the standard buffer and reading the text back gives the same cell. */
  method PrintAndParse(p: Payload) returns (r: Value)
    requires p.Big? && WellFormed(p)
    ensures r == Plain(p)
  {
    hide Val, Shift, Digits, Number;
    var buf := new char[JACL_BIG_DECIMAL_MAX];
    TextFits(p);
    var n := ToDecimal(p, buf, JACL_BIG_DECIMAL_MAX);
    SpelledDecimal(IntOf(p));
    r := FromDecimal(buf[..n], JACL_BIG_DECIMAL_MAX);
    DecimalRoundTrip(p, r);
  }
}
