/** The raw return convention (codegen/codegen.c): a typed proc's entry returns (value, error) as two
    words, and its boxed adapter makes one tagged word of them again. */
module RawReturn {
  import opened Bits
  import opened WordArith
  import opened Ir
  import opened Source
  import opened LoweringRuns
  import opened LoweringSteps
  import opened TypedArith
  import Lowering
  import BigInt
  import DynInt
  import MachineWords

  type Value = BigInt.Value

  /** `emit_return_value`, up to the unboxing: is any flag set, and the masks that follow from it. */
  function FlagCode(n: nat, v: nat): (r: seq<Inst>)
    ensures |r| == 11
  {
    [ConstI64(0), ConstI64(FLAGS_ALL), IntBin(I64, AND, v, n + 1), ConstI64(0), IntCmp(I64, NE, n + 2, n + 3),
     Convert(EXTEND_I32U, n + 4), IntBin(I64, SUB, n, n + 5), ConstI64(-1), IntBin(I64, XOR, n + 6, n + 7),
     ConstI64(FLAG_ERROR), IntBin(I64, OR, v, n + 9)]
  }

  /** `emit_unbox_to_rep`: its last value is the raw word. */
  function UnboxCode(n: nat, sp: nat, ty: Ty, v: nat): seq<Inst> {
    match ty
    case TI32 => [Convert(WRAP_I64, v), Convert(EXTEND_I32S, n)]
    case TI64 => [ConstI32(0), CallImport("jacl_i64_unbox", n, [sp, v])]
    case TU64 => [ConstI32(0), CallImport("jacl_u64_unbox", n, [sp, v])]
    case TU32 => [ConstI32(0), CallImport("jacl_u64_unbox", n, [sp, v]), Convert(WRAP_I64, n + 1), Convert(EXTEND_I32U, n + 2)]
  }

  /** The whole return: the error word at n + 11, the value word last. */
  function ReturnCode(n: nat, sp: nat, ty: Ty, v: nat): seq<Inst> {
    var u := UnboxCode(n + 12, sp, ty, v);
    FlagCode(n, v) + [IntBin(I64, AND, n + 10, n + 6)] + u + [IntBin(I64, AND, n + 11 + |u|, n + 8)]
  }

  /** `emit_box_raw`. */
  function BoxCode(n: nat, sp: nat, ty: Ty, raw: nat): seq<Inst> {
    match ty
    case TI32 => [Convert(WRAP_I64, raw), Convert(EXTEND_I32U, n), ConstI64(TAG_I32), IntBin(I64, OR, n + 1, n + 2)]
    case TU64 => [ConstI32(0), CallImport("jacl_u64_box", n, [sp, raw])]
    case _ => [ConstI32(0), CallImport("jacl_i64_box", n, [sp, raw])]
  }

  /** `emit_select_nonzero(sel, sel, other)`. */
  function SelectCode(n: nat, sel: nat, other: nat): (r: seq<Inst>)
    ensures |r| == 9
  {
    [ConstI64(0), IntCmp(I64, NE, sel, n), Convert(EXTEND_I32U, n + 1), IntBin(I64, SUB, n, n + 2), ConstI64(-1),
     IntBin(I64, XOR, n + 3, n + 4), IntBin(I64, AND, sel, n + 3), IntBin(I64, AND, other, n + 5),
     IntBin(I64, OR, n + 6, n + 7)]
  }

  /** The adapter's code after the call that gave it raw and err. */
  function AdapterCode(n: nat, sp: nat, ty: Ty, raw: nat, err: nat): seq<Inst> {
    var b := BoxCode(n, sp, ty, raw);
    b + SelectCode(n + |b|, err, n + |b| - 1)
  }

  predicate Flagged(w: Word) {
    w >= FLAG_ERROR
  }

  /** The unboxed word, as each width's conversion gives it. */
  function Unboxed(rt: Runtime, ty: Ty, sp: Word, w: Word): Word {
    match ty
    case TI32 => Converted(EXTEND_I32S, Converted(WRAP_I64, w))
    case TI64 => rt("jacl_i64_unbox", [sp, w])
    case TU64 => rt("jacl_u64_unbox", [sp, w])
    case TU32 => Converted(EXTEND_I32U, Converted(WRAP_I64, rt("jacl_u64_unbox", [sp, w])))
  }

  function Boxed(rt: Runtime, ty: Ty, sp: Word, raw: Word): Word {
    match ty
    case TI32 => TAG_I32 + Converted(WRAP_I64, raw)
    case TU64 => rt("jacl_u64_box", [sp, raw])
    case _ => rt("jacl_i64_box", [sp, raw])
  }

  lemma AndAll(a: Word, keep: bool)
    ensures BinValue(I64, AND, a, if keep then ONES else 0) == if keep then a else 0
  {
    AndMasks(TI64, a);
    assert All(TI64) == ONES;
    hide BinValue;
  }

  lemma FlagBits(w: Word)
    ensures And(w, FLAGS_ALL) != 0 <==> Flagged(w)
  {
    TopBits(w);
  }

  lemma FlagRuns(rt: Runtime, v: nat, vals: seq<Word>) returns (out: seq<Word>)
    requires v < |vals|
    ensures var n := |vals|;
      && Straight(rt, FlagCode(n, v), vals, out)
      && out[n + 6] == (if Flagged(vals[v]) then ONES else 0) && out[n + 8] == (if Flagged(vals[v]) then 0 else ONES)
      && out[n + 10] == Or(vals[v], FLAG_ERROR)
  {
    hide BinValue, BinTraps, And, Or, Cut, Converted, CmpHolds, Flagged;
    var n, w := |vals|, vals[v];
    var bad := Flagged(w);
    var masked := And(w, FLAGS_ALL);
    FlagBits(w);
    AndWord(w, FLAGS_ALL);
    NotZero(masked);
    Extended(Flag(bad));
    SubMasks(TI64);
    XorMasks(TI64);
    AllOnes();
    OrValue(w, FLAG_ERROR);
    AllSafe(I64);
    Cut64(0);
    Cut64(FLAGS_ALL);
    Cut64(FLAG_ERROR);
    var code := FlagCode(n, v);
    if bad {
      out := vals + [0, FLAGS_ALL, masked, 0, 1, 1, ONES, ONES, 0, FLAG_ERROR, Or(w, FLAG_ERROR)];
      forall j | 0 <= j < 11
        ensures Computes(rt, code[j], out, n + j)
      {
      }
    } else {
      out := vals + [0, FLAGS_ALL, masked, 0, 0, 0, 0, ONES, ONES, FLAG_ERROR, Or(w, FLAG_ERROR)];
      forall j | 0 <= j < 11
        ensures Computes(rt, code[j], out, n + j)
      {
      }
    }
  }

  lemma AllOnes()
    ensures All(TI64) == ONES && Cut(-1, W64) == ONES
  {
  }

  lemma AndWord(a: Word, b: Word)
    ensures BinValue(I64, AND, a, b) == And(a, b)
  {
    Cut64(a);
    Cut64(b);
    Cut64(And(a, b));
  }

  lemma NotZero(a: Word)
    ensures CmpHolds(I64, NE, a, 0) <==> a != 0
  {
    Cut64(a);
    Cut64(0);
  }

  lemma UnboxRuns(rt: Runtime, sp: nat, ty: Ty, v: nat, vals: seq<Word>) returns (out: seq<Word>)
    requires v < |vals| && sp < |vals|
    ensures var u := UnboxCode(|vals|, sp, ty, v);
      && |u| > 0 && Straight(rt, u, vals, out) && out[|vals| + |u| - 1] == Unboxed(rt, ty, vals[sp], vals[v])
  {
    hide Converted, Cut;
    var n, w, p := |vals|, vals[v], vals[sp];
    var code := UnboxCode(n, sp, ty, v);
    if ty == TI32 {
      var low := Converted(WRAP_I64, w);
      OneInst(rt, code[0], vals, low);
      OneInst(rt, code[1], vals + [low], Converted(EXTEND_I32S, low));
      out := vals + [low] + [Converted(EXTEND_I32S, low)];
      StraightThen(rt, [code[0]], [code[1]], vals, vals + [low], out);
      assert [code[0]] + [code[1]] == code;
    } else {
      var fn := if ty == TI64 then "jacl_i64_unbox" else "jacl_u64_unbox";
      out := CallStraight(rt, fn, [sp, v], vals);
      assert Pick(vals, [sp, v]) == [p, w];
      TypedArith.Kept(rt, Lowering.CallInsts(n, fn, [sp, v]), vals, out);
      if ty == TU32 {
        var mid, x := out, out[n + 1];
        var low := Converted(WRAP_I64, x);
        OneInst(rt, code[2], mid, low);
        OneInst(rt, code[3], mid + [low], Converted(EXTEND_I32U, low));
        out := mid + [low] + [Converted(EXTEND_I32U, low)];
        StraightThen(rt, Lowering.CallInsts(n, fn, [sp, v]), [code[2]], vals, mid, mid + [low]);
        StraightThen(rt, Lowering.CallInsts(n, fn, [sp, v]) + [code[2]], [code[3]], vals, mid + [low], out);
        assert Lowering.CallInsts(n, fn, [sp, v]) + [code[2]] + [code[3]] == code;
      }
    }
  }

  /** Returning a tagged word: a flagged one becomes (0, the word with the error flag), any other its raw word and 0. */
  lemma ReturnRuns(rt: Runtime, sp: nat, ty: Ty, v: nat, vals: seq<Word>) returns (out: seq<Word>)
    requires v < |vals| && sp < |vals|
    ensures var n, code, w := |vals|, ReturnCode(|vals|, sp, ty, v), vals[v];
      && |code| > 12 && Straight(rt, code, vals, out)
      && out[n + 11] == (if Flagged(w) then Or(w, FLAG_ERROR) else 0)
      && out[n + |code| - 1] == (if Flagged(w) then 0 else Unboxed(rt, ty, vals[sp], w))
  {
    hide Straight, FlagCode, UnboxCode, Flagged, Unboxed, BinValue, BinTraps, Or;
    var n, w := |vals|, vals[v];
    var c0 := FlagCode(n, v);
    var o0 := FlagRuns(rt, v, vals);
    TypedArith.Kept(rt, c0, vals, o0);
    var flagged := Or(w, FLAG_ERROR);
    AndAll(flagged, Flagged(w));
    AllSafe(I64);
    var i1, err := IntBin(I64, AND, n + 10, n + 6), if Flagged(w) then flagged else 0;
    OneInst(rt, i1, o0, err);
    var o1 := o0 + [err];
    StraightThen(rt, c0, [i1], vals, o0, o1);
    var u := UnboxCode(n + 12, sp, ty, v);
    var o2 := UnboxRuns(rt, sp, ty, v, o1);
    TypedArith.Kept(rt, u, o1, o2);
    StraightThen(rt, c0 + [i1], u, vals, o1, o2);
    var raw := Unboxed(rt, ty, vals[sp], w);
    AndAll(raw, !Flagged(w));
    var i3, value := IntBin(I64, AND, n + 11 + |u|, n + 8), if Flagged(w) then 0 else raw;
    OneInst(rt, i3, o2, value);
    out := o2 + [value];
    StraightThen(rt, c0 + [i1] + u, [i3], vals, o2, out);
  }

  lemma BoxRuns(rt: Runtime, sp: nat, ty: Ty, raw: nat, vals: seq<Word>) returns (out: seq<Word>)
    requires raw < |vals| && sp < |vals|
    ensures var b := BoxCode(|vals|, sp, ty, raw);
      && |b| > 0 && Straight(rt, b, vals, out) && out[|vals| + |b| - 1] == Boxed(rt, ty, vals[sp], vals[raw])
  {
    hide Converted, Cut, BinValue, BinTraps;
    var n, w, p := |vals|, vals[raw], vals[sp];
    if ty == TI32 {
      var low := Converted(WRAP_I64, w);
      WrapValue(w);
      TagValue(low, 2);
      AllSafe(I64);
      Cut64(TAG_I32);
      out := vals + [low, low, TAG_I32, low + TAG_I32];
      var code := BoxCode(n, sp, ty, raw);
      forall j | 0 <= j < 4
        ensures Computes(rt, code[j], out, n + j)
      {
      }
    } else {
      out := CallStraight(rt, if ty == TU64 then "jacl_u64_box" else "jacl_i64_box", [sp, raw], vals);
      assert Pick(vals, [sp, raw]) == [p, w];
    }
  }

  lemma SelectRuns(rt: Runtime, sel: nat, other: nat, vals: seq<Word>) returns (out: seq<Word>)
    requires sel < |vals| && other < |vals|
    ensures Straight(rt, SelectCode(|vals|, sel, other), vals, out)
    ensures out[|vals| + 8] == if vals[sel] != 0 then vals[sel] else vals[other]
  {
    var n, s, x := |vals|, vals[sel], vals[other];
    var nz := s != 0;
    var mask: Word, keep: Word := if nz then ONES else 0, if nz then 0 else ONES;
    NotZero(s);
    Extended(Flag(nz));
    SubMasks(TI64);
    XorMasks(TI64);
    assert All(TI64) == ONES;
    AndAll(s, nz);
    AndAll(x, !nz);
    OrMasks(TI64, s);
    OrMasks(TI64, x);
    AllSafe(I64);
    Cut64(0);
    assert Cut(-1, W64) == ONES;
    hide BinValue, BinTraps, Cut, Converted, CmpHolds;
    out := vals + [0, Flag(nz), Flag(nz), mask, ONES, keep, if nz then s else 0, if nz then 0 else x, if nz then s else x];
    var code := SelectCode(n, sel, other);
    forall j | 0 <= j < 9
      ensures Computes(rt, code[j], out, n + j)
    {
    }
  }

  /** The adapter: the error word when there is one, else the value word boxed. */
  lemma AdapterRuns(rt: Runtime, sp: nat, ty: Ty, raw: nat, err: nat, vals: seq<Word>) returns (out: seq<Word>)
    requires sp < |vals| && raw < |vals| && err < |vals|
    ensures var code := AdapterCode(|vals|, sp, ty, raw, err);
      && |code| > 0 && Straight(rt, code, vals, out)
      && out[|vals| + |code| - 1] == if vals[err] != 0 then vals[err] else Boxed(rt, ty, vals[sp], vals[raw])
  {
    hide Straight, BoxCode, SelectCode, Boxed;
    var n := |vals|;
    var b := BoxCode(n, sp, ty, raw);
    var o1 := BoxRuns(rt, sp, ty, raw, vals);
    TypedArith.Kept(rt, b, vals, o1);
    var c := SelectCode(n + |b|, err, n + |b| - 1);
    out := SelectRuns(rt, err, n + |b| - 1, o1);
    TypedArith.Kept(rt, c, o1, out);
    StraightThen(rt, b, c, vals, o1, out);
  }

  // ---- both halves together ----

  /** The word a caller of the boxed adapter gets when the raw entry returns the tagged word w. */
  function Through(rt: Runtime, ty: Ty, sp: Word, w: Word): Word {
    if Flagged(w) then Or(w, FLAG_ERROR) else Boxed(rt, ty, sp, Unboxed(rt, ty, sp, w))
  }

  lemma FlagKept(w: Word)
    ensures Or(w, FLAG_ERROR) != 0
  {
    OrZero(w, FLAG_ERROR);
  }

  /** The callee's return code leaves this value word and this error word. */
  ghost predicate Returns(rt: Runtime, ty: Ty, vals: seq<Word>, sp: nat, v: nat, raw: Word, err: Word) {
    exists out :: Straight(rt, ReturnCode(|vals|, sp, ty, v), vals, out) && |out| > |vals| + 12
      && out[|vals| + 11] == err && out[|out| - 1] == raw
  }

  /** The adapter's code turns the pair into this word. */
  ghost predicate Adapts(rt: Runtime, ty: Ty, vals: seq<Word>, sp: nat, raw: Word, err: Word, result: Word) {
    exists out :: Straight(rt, AdapterCode(|vals| + 2, sp, ty, |vals|, |vals| + 1), vals + [raw, err], out)
      && |out| > 0 && out[|out| - 1] == result
  }

  lemma ReturnsPair(rt: Runtime, ty: Ty, vals: seq<Word>, sp: nat, v: nat) returns (raw: Word, err: Word)
    requires v < |vals| && sp < |vals|
    ensures Returns(rt, ty, vals, sp, v, raw, err)
    ensures err == (if Flagged(vals[v]) then Or(vals[v], FLAG_ERROR) else 0)
    ensures raw == (if Flagged(vals[v]) then 0 else Unboxed(rt, ty, vals[sp], vals[v]))
  {
    hide ReturnCode, Flagged, Unboxed, Or;
    var out := ReturnRuns(rt, sp, ty, v, vals);
    TypedArith.Kept(rt, ReturnCode(|vals|, sp, ty, v), vals, out);
    hide Straight;
    err, raw := out[|vals| + 11], out[|out| - 1];
  }

  lemma AdaptsPair(rt: Runtime, ty: Ty, vals: seq<Word>, sp: nat, raw: Word, err: Word) returns (result: Word)
    requires sp < |vals|
    ensures Adapts(rt, ty, vals, sp, raw, err, result)
    ensures result == if err != 0 then err else Boxed(rt, ty, vals[sp], raw)
  {
    hide AdapterCode, Boxed;
    var got := vals + [raw, err];
    var out := AdapterRuns(rt, sp, ty, |vals|, |vals| + 1, got);
    TypedArith.Kept(rt, AdapterCode(|got|, sp, ty, |vals|, |vals| + 1), got, out);
    hide Straight;
    result := out[|out| - 1];
  }

  /** Split into (value, error) and recombined: the value word is 0 whenever the error word is not, and
      the adapter gives the error word, or the box of the value. */
  lemma SplitAndRecombine(rt: Runtime, ty: Ty, w: Word, sp: Word, callee: seq<Word>, v: nat, p: nat, caller: seq<Word>, q: nat)
    returns (raw: Word, err: Word, result: Word)
    requires v < |callee| && callee[v] == w && p < |callee| && callee[p] == sp && q < |caller| && caller[q] == sp
    ensures Returns(rt, ty, callee, p, v, raw, err) && Adapts(rt, ty, caller, q, raw, err, result)
    ensures err != 0 <==> Flagged(w)
    ensures err != 0 ==> raw == 0
    ensures result == Through(rt, ty, sp, w)
  {
    hide Returns, Adapts, Or, Boxed, Unboxed;
    raw, err := ReturnsPair(rt, ty, callee, p, v);
    FlagKept(w);
    result := AdaptsPair(rt, ty, caller, q, raw, err);
  }

  // ---- integers through the convention ----

  /** w is a word of the unflagged integer v: an inline one carries it, any other is a live cell. The heap is
      the live cells. */
  ghost predicate Represents(heap: map<Word, Value>, w: Word, v: Value) {
    && v == BigInt.Plain(v.payload) && !Flagged(w)
    && (if v.payload.Inline? then w == I32Word(v.payload.v as int) else w in heap && heap[w] == v)
  }

  ghost predicate UnboxesTo(rt: Runtime, sp: Word, w: Word, v: Value) {
    && rt("jacl_i64_unbox", [sp, w]) == Cut(DynInt.I64Unbox(v) as int, W64)
    && rt("jacl_u64_unbox", [sp, w]) == DynInt.U64Unbox(v) as int
  }

  /** Boxing the number n gives a word of its canonical value, not necessarily one already in use. */
  ghost predicate BoxesNumber(rt: Runtime, heap: map<Word, Value>, sp: Word, n: int) {
    && (DynInt.InI64(n) ==> Represents(heap, rt("jacl_i64_box", [sp, Cut(n, W64)]), DynInt.I64Box(n as MachineWords.i64)))
    && (0 <= n < W64 ==> exists v: Value :: UnsignedCanonical(v) && BigInt.IntOf(v.payload) == n
                                            && Represents(heap, rt("jacl_u64_box", [sp, n]), v))
  }

  predicate UnsignedCanonical(v: Value) {
    v == BigInt.Plain(v.payload) && BigInt.Canonical(v.payload) && 0 <= BigInt.IntOf(v.payload) < W64
  }

  /** Every unflagged integer of the declared width comes back as a canonical word of the same number. */
  lemma IntegersComeBack(rt: Runtime, heap: map<Word, Value>, ty: Ty, sp: Word, w: Word, v: Value)
    requires Represents(heap, w, v) && BigInt.Canonical(v.payload) && InTy(ty, BigInt.IntOf(v.payload))
    requires UnboxesTo(rt, sp, w, v) && BoxesNumber(rt, heap, sp, BigInt.IntOf(v.payload))
    ensures Represents(heap, Through(rt, ty, sp, w), v)
  {
    var n := BigInt.IntOf(v.payload);
    match ty
    case TI32 => SmallComesBack(rt, heap, sp, w, v);
    case TI64 =>
      assert DynInt.I64Unbox(v) as int == n;
      SmallBox(rt, heap, sp, v);
    case TU64 =>
      DynInt.U64UnboxExact(v);
      var u: Value :| UnsignedCanonical(u) && BigInt.IntOf(u.payload) == n && Represents(heap, rt("jacl_u64_box", [sp, n]), u);
      BigInt.CanonicalUnique(u.payload, v.payload);
    case TU32 =>
      DynInt.U64UnboxExact(v);
      CutSmall(n, W32);
      CutSmall(n, W64);
      assert Unboxed(rt, TU32, sp, w) == n;
      SmallBox(rt, heap, sp, v);
  }

  lemma SmallComesBack(rt: Runtime, heap: map<Word, Value>, sp: Word, w: Word, v: Value)
    requires Represents(heap, w, v) && BigInt.Canonical(v.payload) && InTy(TI32, BigInt.IntOf(v.payload))
    ensures Boxed(rt, TI32, sp, Unboxed(rt, TI32, sp, w)) == w
  {
    var n := BigInt.IntOf(v.payload);
    assert v.payload.Inline? && w == I32Word(n);
    PlainI32(n);
    NarrowSigned(n);
    SignedOfCut(n, W32);
  }

  lemma PlainI32(n: int)
    ensures Cut(I32Word(n), W32) == Cut(n, W32)
  {
    assert I32Word(n) == Cut(n, W32) + W32 * 0x200_0000;
    CutShift(Cut(n, W32), 0x200_0000, W32);
    CutSmall(Cut(n, W32), W32);
  }

  lemma SmallBox(rt: Runtime, heap: map<Word, Value>, sp: Word, v: Value)
    requires BoxesNumber(rt, heap, sp, BigInt.IntOf(v.payload))
    requires v == BigInt.Plain(v.payload) && BigInt.Canonical(v.payload) && InTy(TI64, BigInt.IntOf(v.payload))
    ensures Represents(heap, rt("jacl_i64_box", [sp, Cut(BigInt.IntOf(v.payload), W64)]), v)
  {
    var x := BigInt.IntOf(v.payload) as MachineWords.i64;
    BigInt.CanonicalUnique(DynInt.I64Box(x).payload, v.payload);
  }

  /** A crossing whose every box answers w and whose every cell unboxes to v. */
  function SampleCrossing(w: Word, v: Value): Runtime {
    (fn: string, args: seq<Word>) =>
      if fn == "jacl_i64_unbox" then Cut(DynInt.I64Unbox(v) as int, W64)
      else if fn == "jacl_u64_unbox" then DynInt.U64Unbox(v) as int
      else w
  }

  /** The hypotheses can be met for every number a raw word can hold, a boxed i64 and a u64 beyond i64
      among them. */
  lemma CrossingExists(v: Value, sp: Word) returns (rt: Runtime, heap: map<Word, Value>, w: Word)
    requires v == BigInt.Plain(v.payload) && BigInt.Canonical(v.payload)
    requires DynInt.InI64(BigInt.IntOf(v.payload)) || 0 <= BigInt.IntOf(v.payload) < W64
    ensures Represents(heap, w, v) && UnboxesTo(rt, sp, w, v) && BoxesNumber(rt, heap, sp, BigInt.IntOf(v.payload))
  {
    var n := BigInt.IntOf(v.payload);
    w := if v.payload.Inline? then I32Word(v.payload.v as int) else 0x0E00_0000_0000_0010;
    heap := map[w := v];
    rt := SampleCrossing(w, v);
    if DynInt.InI64(n) {
      BigInt.CanonicalUnique(DynInt.I64Box(n as MachineWords.i64).payload, v.payload);
    }
    if 0 <= n < W64 {
      assert UnsignedCanonical(v) && Represents(heap, rt("jacl_u64_box", [sp, n]), v);
    }
  }

  /** Every flagged word comes back as itself with the error flag. */
  lemma FlaggedComeBack(rt: Runtime, ty: Ty, sp: Word, w: Word)
    requires Flagged(w)
    ensures var r := Through(rt, ty, sp, w);
      && IsError(r) && Flagged(r) && r % FLAG_ERROR == w % FLAG_ERROR
      && (r / FLAG_ERROR) / 2 == (w / FLAG_ERROR) / 2
  {
    var low, high := w % FLAG_ERROR, w / FLAG_ERROR;
    hide Or, Bitwise;
    SetBit(high);
    OrTop(w);
    Bits.Quotient(Or(w, FLAG_ERROR), FLAG_ERROR, low, Bitwise(OrOp, high, 1));
  }

  lemma SetBit(high: nat)
    ensures var z := Bitwise(OrOp, high, 1); z % 2 == 1 && z / 2 == high / 2
  {
    hide Bitwise;
    Unfold(OrOp, high, 1);
    WithZero(high / 2);
    assert Bitwise(OrOp, high, 1) == 1 + 2 * (high / 2);
  }

  lemma OrTop(w: Word)
    ensures Or(w, FLAG_ERROR) == w % FLAG_ERROR + FLAG_ERROR * Bitwise(OrOp, w / FLAG_ERROR, 1)
  {
    var low, high := w % FLAG_ERROR, w / FLAG_ERROR;
    UpValues(1);
    UpValues(high);
    UpValues(Bitwise(OrOp, high, 1));
    WithZero(low);
    hide Bitwise, Up;
    Join(OrOp, 61, low, 0, high, 1);
  }
}
