/** What each emitted sequence computes when it runs: the truth and error tests, runtime calls, and
    the three arms of the inline i32 guard. */
module LoweringSteps {
  import opened Bits
  import opened WordArith
  import opened Ir
  import opened Source
  import opened Lowering
  import opened LocalSsa
  import opened LoweringRuns

  function Flag(b: bool): Word {
    if b then 1 else 0
  }

  lemma Cut64(w: Word)
    ensures Cut(w, W64) == w
  {
    CutSmall(w, W64);
  }

  lemma TruthyStraight(rt: Runtime, c: nat, vals: seq<Word>) returns (out: seq<Word>)
    requires c < |vals|
    ensures Straight(rt, TruthyInsts(|vals|, c), vals, out) && out[|vals| + 4] == Flag(Truthy(vals[c]))
  {
    var w, n := vals[c], |vals|;
    var x, y := Flag(w != WORD_FALSE), Flag(w != WORD_NIL);
    out := vals + [WORD_FALSE, WORD_NIL, x, y, And(x, y)];
    Booleans(x, y);
    Cut64(w);
    Cut64(WORD_FALSE);
    Cut64(WORD_NIL);
    CutSmall(x, W32);
    CutSmall(y, W32);
    CutSmall(And(x, y), W32);
    var code := TruthyInsts(n, c);
    forall j | 0 <= j < 5
      ensures Computes(rt, code[j], out, n + j)
    {
    }
  }

  lemma IsErrorStraight(rt: Runtime, v: nat, vals: seq<Word>) returns (out: seq<Word>)
    requires v < |vals|
    ensures Straight(rt, IsErrorInsts(|vals|, v), vals, out) && out[|vals| + 3] == Flag(IsError(vals[v]))
  {
    var w, n := vals[v], |vals|;
    out := vals + [FLAG_ERROR, And(w, FLAG_ERROR), 0, Flag(And(w, FLAG_ERROR) != 0)];
    TopBits(w);
    Cut64(w);
    Cut64(FLAG_ERROR);
    Cut64(And(w, FLAG_ERROR));
    Cut64(0);
    var code := IsErrorInsts(n, v);
    forall j | 0 <= j < 4
      ensures Computes(rt, code[j], out, n + j)
    {
    }
  }

  lemma CallStraight(rt: Runtime, fn: string, args: seq<nat>, vals: seq<Word>) returns (out: seq<Word>)
    requires AllBelow(args, |vals|)
    ensures Straight(rt, CallInsts(|vals|, fn, args), vals, out) && out[|vals| + 1] == rt(fn, Pick(vals, args))
  {
    var n := |vals|;
    var w := rt(fn, Pick(vals, args));
    out := vals + [0, w];
    assert Pick(out, args) == Pick(vals, args);
    CutSmall(0, W32);
    var code := CallInsts(n, fn, args);
    forall j | 0 <= j < 2
      ensures Computes(rt, code[j], out, n + j)
    {
    }
  }

  /** Two sequences one after the other. */
  lemma StraightThen(rt: Runtime, a: seq<Inst>, b: seq<Inst>, vals: seq<Word>, mid: seq<Word>, out: seq<Word>)
    requires Straight(rt, a, vals, mid) && Straight(rt, b, mid, out)
    ensures Straight(rt, a + b, vals, out)
  {
    forall j | 0 <= j < |a + b|
      ensures Computes(rt, (a + b)[j], out, |vals| + j)
    {
      if j < |a| {
        assert Computes(rt, a[j], mid, |vals| + j);
        assert out[..|mid|] == mid;
        ValuePrefix2(rt, a[j], mid, out);
      } else {
        assert Computes(rt, b[j - |a|], out, |mid| + (j - |a|));
      }
    }
  }

  lemma ValuePrefix2(rt: Runtime, i: Inst, mid: seq<Word>, out: seq<Word>)
    requires mid <= out && InstLocal(i, |mid|) && !Traps(i, mid)
    ensures !Traps(i, out) && Value(rt, i, out) == Value(rt, i, mid)
  {
    if i.CallImport? {
      assert Pick(out, i.args) == Pick(mid, i.args);
    }
  }

  lemma ConstStraight(rt: Runtime, w: Word, vals: seq<Word>)
    ensures Straight(rt, [ConstI64(w)], vals, vals + [w])
  {
    Cut64(w);
    var out := vals + [w];
    assert Computes(rt, ConstI64(w), out, |vals|);
  }

  // ---- plain i32 words ----

  /** The integer in a word whose top byte is exactly the i32 tag. */
  function Inner(w: Word): int {
    AsSigned(Cut(w, W32), W32)
  }

  lemma PlainWord(w: Word)
    requires w / TAG_UNIT == 2 && WellTagged(w)
    ensures w == I32Word(Inner(w)) && FitsI32(Inner(w)) && Cut(w, W32) == Cut(Inner(w), W32) == w - TAG_I32
  {
    var low := w % TAG_UNIT;
    assert w == TAG_I32 + low;
    assert TAG_I32 == W32 * 0x200_0000;
    CutShift(low, 0x200_0000, W32);
    CutSmall(low, W32);
    SignedRoundTrip(low, W32);
  }

  lemma I32WordTagged(x: int)
    ensures WellTagged(I32Word(x)) && WellTagged(BoolWord(true)) && WellTagged(BoolWord(false)) && WellTagged(WORD_NIL)
  {
    Quotient(I32Word(x), TAG_UNIT, Cut(x, W32), 2);
  }

  predicate Plain(w: Word) {
    w / TAG_UNIT == 2
  }

  lemma TagTestStraight(rt: Runtime, a: nat, b: nat, vals: seq<Word>) returns (out: seq<Word>)
    requires a < |vals| && b < |vals|
    ensures Straight(rt, TagTestInsts(|vals|, a, b), vals, out)
    ensures out[|vals| + 7] == Flag(Plain(vals[a]) && Plain(vals[b]))
  {
    var x, y, n := vals[a], vals[b], |vals|;
    var top: Word := 0xFF00_0000_0000_0000;
    var xa, xb := Xor(x, TAG_I32), Xor(y, TAG_I32);
    var both := Or(xa, xb);
    var hib := And(both, top);
    out := vals + [TAG_I32, xa, xb, both, top, hib, 0, Flag(hib == 0)];
    SameTopByte(x, y, 2);
    Cut64(x);
    Cut64(y);
    Cut64(TAG_I32);
    Cut64(xa);
    Cut64(xb);
    Cut64(both);
    Cut64(top);
    Cut64(hib);
    Cut64(0);
    var code := TagTestInsts(n, a, b);
    hide Xor, Or, And, Cut;
    forall j | 0 <= j < 8
      ensures Computes(rt, code[j], out, n + j)
    {
    }
  }

  lemma DivisorStraight(rt: Runtime, ok: nat, b: nat, vals: seq<Word>) returns (out: seq<Word>)
    requires ok < |vals| && b < |vals| && vals[ok] <= 1
    ensures Straight(rt, DivisorInsts(|vals|, ok, b), vals, out)
    ensures out[|vals| + 5] == Flag(vals[ok] == 1 && vals[b] != I32Word(0) && vals[b] != I32Word(-1))
  {
    var y, n, k := vals[b], |vals|, vals[ok];
    var n0, nm1 := Flag(y != I32Word(0)), Flag(y != I32Word(-1));
    var k1 := And(k, n0);
    Booleans(k, n0);
    Booleans(k1, nm1);
    out := vals + [I32Word(0), I32Word(-1), n0, nm1, k1, And(k1, nm1)];
    Cut64(y);
    Cut64(I32Word(0));
    Cut64(I32Word(-1));
    CutSmall(k, W32);
    CutSmall(n0, W32);
    CutSmall(nm1, W32);
    CutSmall(k1, W32);
    CutSmall(And(k1, nm1), W32);
    var code := DivisorInsts(n, ok, b);
    hide And, Cut;
    forall j | 0 <= j < 6
      ensures Computes(rt, code[j], out, n + j)
    {
    }
  }

  // ---- the fast arm ----

  /** Re-tagging a native result. */
  lemma Retag(low: nat, tag: nat)
    requires low < W32 && tag < 0x100
    ensures Or(low, tag * TAG_UNIT) == low + tag * TAG_UNIT
  {
    OrTag(low, tag);
  }

  predicate CmpAnswer(cmp: CmpOp, x: int, y: int) {
    match cmp
    case EQ => x == y
    case NE => x != y
    case LT_S => x < y
    case LE_S => x <= y
    case GT_S => x > y
    case GE_S => x >= y
    case _ => false
  }

  lemma TagValue(low: nat, tag: nat)
    requires low < W32 && tag < 0x100
    ensures Converted(EXTEND_I32U, low) == low && BinValue(I64, OR, low, tag * TAG_UNIT) == low + tag * TAG_UNIT
  {
    CutSmall(low, W32);
    Retag(low, tag);
    OrValue(low, tag * TAG_UNIT);
  }

  lemma FastCmpStraight(rt: Runtime, w: nat, cmp: CmpOp, vals: seq<Word>) returns (out: seq<Word>)
    requires |vals| == w + 2 && FitsI32(Inner(vals[w])) && FitsI32(Inner(vals[w + 1]))
    requires cmp in {EQ, NE, LT_S, LE_S, GT_S, GE_S}
    ensures Straight(rt, FastCmpInsts(w, cmp), vals, out)
    ensures out[w + 7] == BoolWord(CmpAnswer(cmp, Inner(vals[w]), Inner(vals[w + 1])))
  {
    hide Or, Cut, CmpHolds, CmpAnswer, BinValue, Converted, BoolWord, AsSigned;
    var a, b := Converted(WRAP_I64, vals[w]), Converted(WRAP_I64, vals[w + 1]);
    WrapValue(vals[w]);
    WrapValue(vals[w + 1]);
    CmpMeans(cmp, a, b);
    var c := Flag(CmpHolds(I32, cmp, a, b));
    TagValue(c, 1);
    BoolFlag(CmpHolds(I32, cmp, a, b));
    out := vals + [a, b, c, c, WORD_FALSE, c + TAG_UNIT];
    Cut64(WORD_FALSE);
    var code := FastCmpInsts(w, cmp);
    forall j | 0 <= j < 6
      ensures Computes(rt, code[j], out, w + 2 + j)
    {
    }
  }

  lemma WrapValue(v: Word)
    ensures Converted(WRAP_I64, v) == Cut(v, W32) < W32 && AsSigned(Converted(WRAP_I64, v), W32) == Inner(v)
  {
  }

  lemma BoolFlag(b: bool)
    ensures BoolWord(b) == Flag(b) + TAG_UNIT
  {
  }

  lemma CmpMeans(cmp: CmpOp, a: Word, b: Word)
    requires a < W32 && b < W32 && cmp in {EQ, NE, LT_S, LE_S, GT_S, GE_S}
    ensures CmpHolds(I32, cmp, a, b) <==> CmpAnswer(cmp, AsSigned(a, W32), AsSigned(b, W32))
  {
    CutSmall(a, W32);
    CutSmall(b, W32);
  }

  /** The bare i32 operation, tagged: division by a divisor that is neither 0 nor -1, or a wrapping operation. */
  function BareResult(op: BinOp, x: int, y: int): int {
    match op
    case ADD => x + y
    case SUB => x - y
    case MUL => x * y
    case DIV_S => if y == 0 then 0 else Quot(x, y)
    case REM_S => if y == 0 then 0 else Rem(x, y)
    case _ => 0
  }

  lemma BareMeans(op: BinOp, a: Word, b: Word)
    requires a < W32 && b < W32 && op in {ADD, SUB, MUL, DIV_S, REM_S}
    requires op == DIV_S || op == REM_S ==> AsSigned(b, W32) != 0 && AsSigned(b, W32) != -1
    ensures !BinTraps(I32, op, a, b)
    ensures BinValue(I32, op, a, b) == Cut(BareResult(op, AsSigned(a, W32), AsSigned(b, W32)), W32)
  {
    var x, y := AsSigned(a, W32), AsSigned(b, W32);
    CutSmall(a, W32);
    CutSmall(b, W32);
    SignedRoundTrip(a, W32);
    SignedRoundTrip(b, W32);
    CutAdd(x, y, W32);
    CutMul(x, y, W32);
  }

  lemma FastBareStraight(rt: Runtime, w: nat, op: BinOp, vals: seq<Word>) returns (out: seq<Word>)
    requires |vals| == w + 2 && op in {ADD, SUB, MUL, DIV_S, REM_S}
    requires op == DIV_S || op == REM_S ==> Inner(vals[w + 1]) != 0 && Inner(vals[w + 1]) != -1
    ensures Straight(rt, FastBareInsts(w, op), vals, out)
    ensures out[w + 7] == I32Word(BareResult(op, Inner(vals[w]), Inner(vals[w + 1])))
  {
    var a, b := Cut(vals[w], W32), Cut(vals[w + 1], W32);
    BareMeans(op, a, b);
    var q := BinValue(I32, op, a, b);
    CutSmall(q, W32);
    out := vals + [a, b, q, q, TAG_I32, Or(q, TAG_I32)];
    Retag(q, 2);
    Cut64(q);
    Cut64(TAG_I32);
    Cut64(Or(q, TAG_I32));
    var code := FastBareInsts(w, op);
    hide Or, Cut, BareResult;
    forall j | 0 <= j < 6
      ensures Computes(rt, code[j], out, w + 2 + j)
    {
    }
  }

  lemma WideMeans(op: BinOp, a: Word, b: Word)
    requires a < W32 && b < W32 && op in {ADD, SUB, MUL}
    ensures var r := BareResult(op, AsSigned(a, W32), AsSigned(b, W32));
      && -HALF64 <= r < HALF64
      && BinValue(I64, op, Converted(EXTEND_I32S, a), Converted(EXTEND_I32S, b)) == Cut(r, W64)
  {
    var x, y := AsSigned(a, W32), AsSigned(b, W32);
    SignedRoundTrip(a, W32);
    SignedRoundTrip(b, W32);
    CutSmall(a, W32);
    CutSmall(b, W32);
    ProductFits(x, y);
    CutAdd(x, y, W64);
    CutMul(x, y, W64);
    Cut64(Cut(x, W64));
    Cut64(Cut(y, W64));
  }

  /** What each instruction of the fast arithmetic arm computes on a and b. */
  lemma FastArithValues(op: BinOp, a: Word, b: Word)
    requires a < W32 && b < W32 && op in {ADD, SUB, MUL}
    ensures var n := BareResult(op, AsSigned(a, W32), AsSigned(b, W32));
      var ea, eb, r := Converted(EXTEND_I32S, a), Converted(EXTEND_I32S, b), Cut(n, W64);
      var narrow := Converted(WRAP_I64, r);
      && !BinTraps(I64, op, ea, eb) && BinValue(I64, op, ea, eb) == r
      && (CmpHolds(I64, EQ, Converted(EXTEND_I32S, narrow), r) <==> FitsI32(n))
      && Converted(EXTEND_I32U, narrow) == narrow
      && !BinTraps(I64, OR, narrow, TAG_I32) && BinValue(I64, OR, narrow, TAG_I32) == I32Word(n)
  {
    var n := BareResult(op, AsSigned(a, W32), AsSigned(b, W32));
    WideMeans(op, a, b);
    NarrowSigned(n);
    var narrow := Converted(WRAP_I64, Cut(n, W64));
    TagValue(narrow, 2);
    Cut64(Cut(n, W64));
    Cut64(Converted(EXTEND_I32S, narrow));
  }

  lemma FastArithStraight(rt: Runtime, w: nat, op: BinOp, vals: seq<Word>) returns (out: seq<Word>)
    requires |vals| == w + 2 && op in {ADD, SUB, MUL}
    ensures Straight(rt, FastArithInsts(w, op), vals, out)
    ensures var r := BareResult(op, Inner(vals[w]), Inner(vals[w + 1]));
      out[w + 9] == Flag(FitsI32(r)) && out[w + 12] == I32Word(r)
  {
    hide Or, Cut, CmpHolds, BinValue, BinTraps, Converted, AsSigned, BareResult, FitsI32, I32Word;
    var a, b := Converted(WRAP_I64, vals[w]), Converted(WRAP_I64, vals[w + 1]);
    WrapValue(vals[w]);
    WrapValue(vals[w + 1]);
    FastArithValues(op, a, b);
    var n := BareResult(op, AsSigned(a, W32), AsSigned(b, W32));
    var ea, eb, r: Word := Converted(EXTEND_I32S, a), Converted(EXTEND_I32S, b), Cut(n, W64);
    var narrow := Converted(WRAP_I64, r);
    out := vals + [a, b, ea, eb, r, narrow, Converted(EXTEND_I32S, narrow), Flag(FitsI32(n)), narrow, TAG_I32, I32Word(n)];
    Cut64(TAG_I32);
    var code := FastArithInsts(w, op);
    forall j | 0 <= j < 11
      ensures Computes(rt, code[j], out, w + 2 + j)
    {
    }
  }

  lemma OrValue(a: Word, b: Word)
    ensures BinValue(I64, OR, a, b) == Or(a, b)
  {
    Cut64(a);
    Cut64(b);
    Cut64(Or(a, b));
  }
}
