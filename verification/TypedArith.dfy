/** Typed integer arithmetic (codegen/codegen.c): branchless native code for trees over + - * / % and
    the wrapping operators at i32, i64, u32 and u64, with one sticky bit for every way to fail. */
module TypedArith {
  import opened MachineWords
  import opened Bits
  import opened WordArith
  import opened Ir
  import opened LoweringRuns
  import opened LoweringSteps

  // ---- what a typed tree means ----

  datatype Ty = TI32 | TI64 | TU32 | TU64
  datatype Op = Add | Sub | Mul | Div | Rem | WrapAdd | WrapSub | WrapMul

  /** Operands are literals, raw slots and trees of the same type; Node folds from the left. */
  datatype Tree = Lit(n: int) | Raw(id: nat) | Node(op: Op, first: Tree, rest: Trees)
  datatype Trees = NoTrees | MoreTrees(t: Tree, rest: Trees)

  datatype Option<T> = None | Some(val: T)

  predicate IsSigned(ty: Ty) {
    ty == TI32 || ty == TI64
  }

  predicate Is32(ty: Ty) {
    ty == TI32 || ty == TU32
  }

  function Mod(ty: Ty): nat {
    if Is32(ty) then W32 else W64
  }

  function Machine(ty: Ty): IntType {
    if Is32(ty) then I32 else I64
  }

  /** The number a word of the type stands for. */
  function NumOf(ty: Ty, w: nat): int {
    if IsSigned(ty) then AsSigned(Cut(w, Mod(ty)), Mod(ty)) else Cut(w, Mod(ty))
  }

  predicate InTy(ty: Ty, n: int) {
    if IsSigned(ty) then -(Mod(ty) as int / 2) <= n < Mod(ty) / 2 else 0 <= n < Mod(ty)
  }

  function Plain(op: Op, x: int, y: int): int
    requires op in {Div, Rem} ==> y != 0
  {
    match op
    case Add => x + y
    case WrapAdd => x + y
    case Sub => x - y
    case WrapSub => x - y
    case Mul => x * y
    case WrapMul => x * y
    case Div => Quot(x, y)
    case Rem => Ir.Rem(x, y)
  }

  predicate Wraps(op: Op) {
    op in {WrapAdd, WrapSub, WrapMul}
  }

  /** The exact result, where there is one of this type. */
  function Combine(ty: Ty, op: Op, x: int, y: int): Option<int> {
    if op in {Div, Rem} && y == 0 then None
    else if Wraps(op) then Some(NumOf(ty, Cut(Plain(op, x, y), Mod(ty))))
    else if InTy(ty, Plain(op, x, y)) then Some(Plain(op, x, y))
    else None
  }

  /** Exact evaluation; None once a division by zero, or a result outside the type, is met. A single
      operand of `-` is negated. */
  function Exact(ty: Ty, t: Tree, vals: seq<Word>): Option<int>
    decreases t
  {
    match t
    case Lit(n) => Some(n)
    case Raw(id) => if id < |vals| then Some(NumOf(ty, vals[id])) else None
    case Node(op, first, rest) =>
      var x := Exact(ty, first, vals);
      if op == Sub && rest == NoTrees then (if x.None? then None else Combine(ty, Sub, 0, x.val))
      else ExactFold(ty, op, x, rest, vals)
  }

  function ExactFold(ty: Ty, op: Op, acc: Option<int>, rest: Trees, vals: seq<Word>): Option<int>
    decreases rest
  {
    match rest
    case NoTrees => acc
    case MoreTrees(t, more) => ExactFold(ty, op, Both(ty, op, acc, Exact(ty, t, vals)), more, vals)
  }

  function Both(ty: Ty, op: Op, x: Option<int>, y: Option<int>): Option<int> {
    if x.None? || y.None? then None else Combine(ty, op, x.val, y.val)
  }

  /** No `-` with a single operand: the fold emits nothing for it. */
  predicate NoNegation(t: Tree)
    decreases t
  {
    match t
    case Node(op, first, rest) => !(op == Sub && rest == NoTrees) && NoNegation(first) && NoNegations(rest)
    case _ => true
  }

  predicate NoNegations(ts: Trees)
    decreases ts
  {
    match ts
    case NoTrees => true
    case MoreTrees(t, rest) => NoNegation(t) && NoNegations(rest)
  }

  /** Literals are in range (the typer and the lowering refuse others) and slots exist. */
  predicate Fit(ty: Ty, t: Tree, n: nat) {
    match t
    case Lit(k) => InTy(ty, k)
    case Raw(id) => id < n
    case Node(_, first, rest) => Fit(ty, first, n) && FitAll(ty, rest, n)
  }

  predicate FitAll(ty: Ty, ts: Trees, n: nat) {
    match ts
    case NoTrees => true
    case MoreTrees(t, rest) => Fit(ty, t, n) && FitAll(ty, rest, n)
  }

  // ---- what is emitted ----

  /** The code so far, from value id base on, and the id of the sticky bit. */
  datatype Tape = Tape(base: nat, code: seq<Inst>, ovf: nat)

  function Next(t: Tape): nat {
    t.base + |t.code|
  }

  function More(t: Tape, insts: seq<Inst>): Tape {
    t.(code := t.code + insts)
  }

  function BinFor(ty: Ty, op: Op): BinOp {
    match op
    case Add => ADD
    case WrapAdd => ADD
    case Sub => SUB
    case WrapSub => SUB
    case Mul => MUL
    case WrapMul => MUL
    case Div => if IsSigned(ty) then DIV_S else DIV_U
    case Rem => if IsSigned(ty) then REM_S else REM_U
  }

  function Const(ty: Ty, n: int): Inst {
    if Is32(ty) then ConstI32(n) else ConstI64(n)
  }

  /** `ovf_mark`: or a failure bit into the sticky one. */
  function Mark(t: Tape, bad: nat): Tape {
    var n := Next(t);
    More(t, [Convert(EXTEND_I32U, bad), IntBin(I64, OR, t.ovf, n)]).(ovf := n + 1)
  }

  /** `compile_i32` and the 32-bit half of `emit_uint_op`: compute in 64 bits, narrow, and see whether it fit. */
  function Narrowed(n: nat, ext: ConvOp, op: BinOp, a: nat, b: nat): (r: seq<Inst>)
    ensures |r| == 6
  {
    [Convert(ext, a), Convert(ext, b), IntBin(I64, op, n, n + 1), Convert(WRAP_I64, n + 2), Convert(ext, n + 3),
     IntCmp(I64, NE, n + 4, n + 2)]
  }

  /** `emit_i64_op` for + and -: overflow from the operands' and the result's signs. */
  function SignTest(n: nat, op: BinOp, a: nat, b: nat): (r: seq<Inst>)
    ensures |r| == 7
  {
    [IntBin(I64, op, a, b), ConstI64(0), IntBin(I64, XOR, a, b), IntBin(I64, XOR, a, n),
     IntCmp(I64, if op == ADD then GE_S else LT_S, n + 2, n + 1), IntCmp(I64, LT_S, n + 3, n + 1),
     IntBin(I32, AND, n + 4, n + 5)]
  }

  function Consts(ty: Ty): (r: seq<Inst>)
    ensures |r| == 4
  {
    [Const(ty, 0), Const(ty, 1), Const(ty, -1), Const(ty, -(Mod(ty) as int / 2))]
  }

  /** Zero divisor, and MIN / -1: n is the first of the constants. */
  function DivTests(ty: Ty, n: nat, a: nat, b: nat): (r: seq<Inst>)
    ensures |r| == 5
  {
    var m := Machine(ty);
    [IntCmp(m, EQ, b, n), IntCmp(m, EQ, a, n + 3), IntCmp(m, EQ, b, n + 2), IntBin(I32, AND, n + 5, n + 6),
     IntBin(I32, OR, n + 4, n + 7)]
  }

  /** `bad ? 1 : b` by masks; k is the id bad has at the type's width. */
  function SafeDivisor(ty: Ty, n: nat, b: nat, bad: nat, k: nat): (r: seq<Inst>)
    ensures |r| == 5
  {
    var m := Machine(ty);
    [IntBin(m, SUB, n, bad), IntBin(m, XOR, k, n + 2), IntBin(m, AND, b, k + 1), IntBin(m, AND, n + 1, k),
     IntBin(m, OR, k + 2, k + 3)]
  }

  /** `emit_i32_divrem`. */
  function I32DivRem(t: Tape, op: Op, a: nat, b: nat): (Tape, nat) {
    var n := Next(t);
    var code := Consts(TI32) + DivTests(TI32, n, a, b) + SafeDivisor(TI32, n, b, n + 8, n + 9)
             + [IntBin(I32, BinFor(TI32, op), a, n + 13), IntBin(I32, XOR, n + 4, n + 1), IntBin(I32, SUB, n, n + 15),
                IntBin(I32, AND, n + 14, n + 16)];
    (Mark(More(t, code), if op == Div then n + 8 else n + 4), n + 17)
  }

  /** `emit_i64_divrem`. */
  function I64DivRem(t: Tape, op: Op, a: nat, b: nat): (Tape, nat) {
    var n := Next(t);
    var code := Consts(TI64) + DivTests(TI64, n, a, b) + [Convert(EXTEND_I32U, n + 8)]
             + SafeDivisor(TI64, n, b, n + 9, n + 10)
             + [IntBin(I64, BinFor(TI64, op), a, n + 14), Convert(EXTEND_I32U, n + 4), IntBin(I64, SUB, n + 16, n + 1),
                IntBin(I64, AND, n + 15, n + 17)];
    (Mark(More(t, code), if op == Div then n + 8 else n + 4), n + 18)
  }

  /** `emit_uint_divrem`. */
  function UintDivRem(t: Tape, ty: Ty, op: Op, a: nat, b: nat): (Tape, nat) {
    var n, m := Next(t), Machine(ty);
    var head := [Const(ty, 0), Const(ty, 1), IntCmp(m, EQ, b, n)] + (if Is32(ty) then [] else [Convert(EXTEND_I32U, n + 2)]);
    var z := if Is32(ty) then n + 2 else n + 3;
    var code := head + [IntBin(m, OR, b, z), IntBin(m, BinFor(ty, op), a, z + 1), IntBin(m, SUB, z, n + 1),
                        IntBin(m, AND, z + 2, z + 3)];
    (Mark(More(t, code), n + 2), z + 4)
  }

  /** 64-bit multiplication asks the runtime whether it overflowed. */
  function MulAsked(t: Tape, sp: nat, fn: string, a: nat, b: nat): (Tape, nat) {
    var n := Next(t);
    (More(t, [IntBin(I64, MUL, a, b), ConstI32(0), CallImport(fn, n + 1, [sp, a, b]), IntBin(I64, OR, t.ovf, n + 2)]).(ovf := n + 3), n)
  }

  /** `emit_uint_op` at 64 bits for + and -: the carry and the borrow. */
  function CarryTest(t: Tape, op: Op, a: nat, b: nat): (Tape, nat) {
    var n := Next(t);
    var test := if op == Add then IntCmp(I64, LT_U, n, a) else IntCmp(I64, LT_U, a, b);
    (Mark(More(t, [IntBin(I64, BinFor(TU64, op), a, b), test]), n + 1), n)
  }

  /** One operator. */
  function EmitOp(t: Tape, sp: nat, ty: Ty, op: Op, a: nat, b: nat): (Tape, nat) {
    var n := Next(t);
    if Wraps(op) then (More(t, [IntBin(Machine(ty), BinFor(ty, op), a, b)]), n)
    else if op in {Div, Rem} then
      (match ty
       case TI32 => I32DivRem(t, op, a, b)
       case TI64 => I64DivRem(t, op, a, b)
       case _ => UintDivRem(t, ty, op, a, b))
    else
      match ty
      case TI32 => (Mark(More(t, Narrowed(n, EXTEND_I32S, BinFor(ty, op), a, b)), n + 5), n + 3)
      case TU32 => (Mark(More(t, Narrowed(n, EXTEND_I32U, BinFor(ty, op), a, b)), n + 5), n + 3)
      case TI64 =>
        if op == Mul then MulAsked(t, sp, "jacl_i64_mul_ovf", a, b)
        else (Mark(More(t, SignTest(n, BinFor(ty, op), a, b)), n + 6), n)
      case TU64 => if op == Mul then MulAsked(t, sp, "jacl_u64_mul_ovf", a, b) else CarryTest(t, op, a, b)
  }

  /** `compile_i32`, `compile_raw_i64`, `compile_uint` on operands that stay in the block. */
  function EmitTree(t: Tape, sp: nat, ty: Ty, e: Tree): (Tape, nat)
    decreases e
  {
    match e
    case Lit(k) => (More(t, [Const(ty, k)]), Next(t))
    case Raw(id) => if Is32(ty) then (More(t, [Convert(WRAP_I64, id)]), Next(t)) else (t, id)
    case Node(op, first, rest) =>
      var a := EmitTree(t, sp, ty, first);
      EmitFold(a.0, sp, ty, op, a.1, rest)
  }

  function EmitFold(t: Tape, sp: nat, ty: Ty, op: Op, acc: nat, rest: Trees): (Tape, nat)
    decreases rest
  {
    match rest
    case NoTrees => (t, acc)
    case MoreTrees(e, more) =>
      var b := EmitTree(t, sp, ty, e);
      var r := EmitOp(b.0, sp, ty, op, acc, b.1);
      EmitFold(r.0, sp, ty, op, r.1, more)
  }

  // ---- running a tape ----

  /** The tape's code, run on vals, has computed out; its sticky bit is 0 or 1. */
  ghost predicate Taped(rt: Runtime, t: Tape, vals: seq<Word>, out: seq<Word>) {
    |vals| == t.base && Straight(rt, t.code, vals, out) && t.ovf < |out| && out[t.ovf] <= 1
  }

  /** The runtime's answers about products that leave 64 bits. */
  ghost predicate MulHost(rt: Runtime) {
    forall sp: Word, a: Word, b: Word ::
      && rt("jacl_i64_mul_ovf", [sp, a, b]) == Flag(!InTy(TI64, NumOf(TI64, a) * NumOf(TI64, b)))
      && rt("jacl_u64_mul_ovf", [sp, a, b]) == Flag(!InTy(TU64, NumOf(TU64, a) * NumOf(TU64, b)))
  }

  lemma TapeSize(rt: Runtime, t: Tape, vals: seq<Word>, out: seq<Word>)
    requires Taped(rt, t, vals, out)
    ensures |out| == Next(t) && vals <= out && t.ovf < |out| && out[t.ovf] <= 1
  {
  }

  /** More code on the tape. */
  lemma TapeMore(rt: Runtime, t: Tape, vals: seq<Word>, out: seq<Word>, insts: seq<Inst>, out': seq<Word>)
    requires Taped(rt, t, vals, out) && Straight(rt, insts, out, out')
    ensures Taped(rt, More(t, insts), vals, out') && out <= out' && |out'| == |out| + |insts|
  {
    StraightThen(rt, t.code, insts, vals, out, out');
  }

  lemma MarkRuns(rt: Runtime, t: Tape, bad: nat, vals: seq<Word>, out: seq<Word>) returns (out': seq<Word>)
    requires Taped(rt, t, vals, out) && bad < |out| && out[bad] <= 1
    ensures var r := Mark(t, bad);
      && Taped(rt, r, vals, out') && out <= out'
      && out'[r.ovf] == (if out[t.ovf] == 1 || out[bad] == 1 then 1 else 0)
  {
    TapeSize(rt, t, vals, out);
    var n, x, y := |out|, out[t.ovf], out[bad];
    Booleans(x, y);
    MarkValues(x, y);
    hide Or, Taped, Straight, BinValue, BinTraps, Converted;
    var z := Or(x, y);
    out' := out + [y, z];
    assert out + [y] + [z] == out';
    var i0, i1 := Convert(EXTEND_I32U, bad), IntBin(I64, OR, t.ovf, n);
    OneInst(rt, i0, out, y);
    OneInst(rt, i1, out + [y], z);
    StraightThen(rt, [i0], [i1], out, out + [y], out');
    assert [i0] + [i1] == [i0, i1];
    TapeMore(rt, t, vals, out, [i0, i1], out');
    StickyAt(rt, t, [i0, i1], vals, out', n + 1);
  }

  lemma MarkValues(x: Word, y: Word)
    requires x <= 1 && y <= 1
    ensures Converted(EXTEND_I32U, y) == y && BinValue(I64, OR, x, y) == Or(x, y) && !BinTraps(I64, OR, x, y)
  {
    CutSmall(y, W32);
    OrValue(x, y);
  }

  lemma OneInst(rt: Runtime, i: Inst, vals: seq<Word>, w: Word)
    requires InstLocal(i, |vals|) && !Traps(i, vals) && Value(rt, i, vals) == w
    ensures Straight(rt, [i], vals, vals + [w])
  {
    ValuePrefix2(rt, i, vals, vals + [w]);
    assert Computes(rt, i, vals + [w], |vals|);
  }

  lemma StickyAt(rt: Runtime, t: Tape, insts: seq<Inst>, vals: seq<Word>, out: seq<Word>, ovf: nat)
    requires Taped(rt, More(t, insts), vals, out) && ovf < |out| && out[ovf] <= 1
    ensures Taped(rt, More(t, insts).(ovf := ovf), vals, out)
  {
  }

  // ---- each operator ----

  lemma LowBits(ty: Ty, a: Word)
    requires a < Mod(ty)
    ensures Cut(NumOf(ty, a), Mod(ty)) == a == Cut(a, Mod(ty))
  {
    CutSmall(a, Mod(ty));
    SignedRoundTrip(a, Mod(ty));
  }

  /** The machine's + - * on words give the low bits of the number's. */
  lemma WrapMeans(ty: Ty, op: Op, a: Word, b: Word)
    requires op != Div && op != Rem && a < Mod(ty) && b < Mod(ty)
    ensures !BinTraps(Machine(ty), BinFor(ty, op), a, b)
    ensures BinValue(Machine(ty), BinFor(ty, op), a, b) == Cut(Plain(op, NumOf(ty, a), NumOf(ty, b)), Mod(ty))
  {
    hide Cut, NumOf, Bitwise, Up;
    var m, x, y := Mod(ty), NumOf(ty, a), NumOf(ty, b);
    LowBits(ty, a);
    LowBits(ty, b);
    if op == Mul || op == WrapMul {
      CutMul(x, y, m);
    } else {
      CutAdd(x, y, m);
    }
  }

  /** A wrapped result's number is the wrapped number. */
  lemma WordOfNum(ty: Ty, w: nat)
    requires w < Mod(ty)
    ensures Cut(NumOf(ty, w), Mod(ty)) == w && InTy(ty, NumOf(ty, w))
  {
    CutSmall(w, Mod(ty));
    SignedRoundTrip(w, Mod(ty));
  }

  lemma NumOfWord(ty: Ty, n: int)
    requires InTy(ty, n)
    ensures NumOf(ty, Cut(n, Mod(ty))) == n
  {
    CutSmall(Cut(n, Mod(ty)), Mod(ty));
    if IsSigned(ty) {
      SignedOfCut(n, Mod(ty));
    } else {
      CutSmall(n, Mod(ty));
    }
  }

  /** 64-bit arithmetic on zero-extended 32-bit words. */
  lemma NarrowedUnsigned(op: BinOp, x: nat, y: nat)
    requires x < W32 && y < W32 && op in {ADD, SUB, MUL}
    ensures var n := BareResult(op, x, y);
      var r := BinValue(I64, op, x, y);
      && !BinTraps(I64, op, x, y) && r == Cut(n, W64)
      && Converted(WRAP_I64, r) == Cut(n, W32) && Converted(EXTEND_I32U, Cut(n, W32)) == Cut(n, W32)
      && (Cut(n, W32) != r <==> !(0 <= n < W32))
  {
    var n := BareResult(op, x, y);
    CutSmall(x, W64);
    CutSmall(y, W64);
    CutCut(n);
    CutSmall(Cut(n, W32), W32);
    SmallProduct(x, y);
    if n < 0 {
      CutShift(n, 1, W64);
      CutSmall(n + W64, W64);
    } else {
      CutSmall(n, W64);
      if n < W32 {
        CutSmall(n, W32);
      }
    }
  }

  lemma SmallProduct(x: nat, y: nat)
    requires x < W32 && y < W32
    ensures 0 <= x * y < W64
  {
    MulMono(x, W32 - 1, y);
    MulMono(y, W32 - 1, W32 - 1);
    MulMono(0, x, y);
    assert (W32 - 1) * y == y * (W32 - 1);
  }

  lemma NarrowedRuns(rt: Runtime, ty: Ty, op: Op, a: nat, b: nat, out: seq<Word>) returns (out': seq<Word>)
    requires Is32(ty) && op in {Add, Sub, Mul} && a < |out| && b < |out| && out[a] < W32 && out[b] < W32
    ensures var n, r := |out|, Plain(op, NumOf(ty, out[a]), NumOf(ty, out[b]));
      var ext := if ty == TI32 then EXTEND_I32S else EXTEND_I32U;
      && Straight(rt, Narrowed(n, ext, BinFor(ty, op), a, b), out, out')
      && out'[n + 3] == Cut(r, W32) && out'[n + 5] == Flag(!InTy(ty, r))
  {
    hide Converted, BinValue, BinTraps, CmpHolds, InTy, Cut, AsSigned, Plain, NumOf;
    var n, x, y, bin := |out|, out[a], out[b], BinFor(ty, op);
    var ext := if ty == TI32 then EXTEND_I32S else EXTEND_I32U;
    var ex, ey := Converted(ext, x), Converted(ext, y);
    var r := Plain(op, NumOf(ty, x), NumOf(ty, y));
    NarrowedValues(ty, op, x, y);
    var w := BinValue(I64, bin, ex, ey);
    var low: Word := Converted(WRAP_I64, w);
    var back := Converted(ext, low);
    out' := out + [ex, ey, w, low, back, Flag(!InTy(ty, r))];
    var code := Narrowed(n, ext, bin, a, b);
    forall j | 0 <= j < 6
      ensures Computes(rt, code[j], out', n + j)
    {
    }
  }

  lemma NarrowedValues(ty: Ty, op: Op, x: Word, y: Word)
    requires Is32(ty) && op in {Add, Sub, Mul} && x < W32 && y < W32
    ensures var ext := if ty == TI32 then EXTEND_I32S else EXTEND_I32U;
      var r, bin := Plain(op, NumOf(ty, x), NumOf(ty, y)), BinFor(ty, op);
      && !BinTraps(I64, bin, Converted(ext, x), Converted(ext, y))
      && var w := BinValue(I64, bin, Converted(ext, x), Converted(ext, y));
      && Converted(WRAP_I64, w) == Cut(r, W32)
      && (CmpHolds(I64, NE, Converted(ext, Converted(WRAP_I64, w)), w) <==> !InTy(ty, r))
  {
    if ty == TI32 {
      NarrowedSigned(op, x, y);
    } else {
      NarrowedZero(op, x, y);
    }
  }

  lemma NarrowedSigned(op: Op, x: Word, y: Word)
    requires op in {Add, Sub, Mul} && x < W32 && y < W32
    ensures var r, bin, ext := Plain(op, NumOf(TI32, x), NumOf(TI32, y)), BinFor(TI32, op), EXTEND_I32S;
      && !BinTraps(I64, bin, Converted(ext, x), Converted(ext, y))
      && var w := BinValue(I64, bin, Converted(ext, x), Converted(ext, y));
      && Converted(WRAP_I64, w) == Cut(r, W32)
      && (CmpHolds(I64, NE, Converted(ext, Converted(WRAP_I64, w)), w) <==> !InTy(TI32, r))
  {
    CutSmall(x, W32);
    CutSmall(y, W32);
    var r := Plain(op, NumOf(TI32, x), NumOf(TI32, y));
    assert BareResult(BinFor(TI32, op), AsSigned(x, W32), AsSigned(y, W32)) == r;
    hide Converted, BinValue, BinTraps, BareResult, Plain;
    FastArithValues(BinFor(TI32, op), x, y);
    CutCut(r);
    Cut64(Cut(r, W64));
    Cut64(Converted(EXTEND_I32S, Converted(WRAP_I64, Cut(r, W64))));
    WrapValue(Cut(r, W64));
  }

  lemma NarrowedZero(op: Op, x: Word, y: Word)
    requires op in {Add, Sub, Mul} && x < W32 && y < W32
    ensures var r, bin, ext := Plain(op, NumOf(TU32, x), NumOf(TU32, y)), BinFor(TU32, op), EXTEND_I32U;
      && !BinTraps(I64, bin, Converted(ext, x), Converted(ext, y))
      && var w := BinValue(I64, bin, Converted(ext, x), Converted(ext, y));
      && Converted(WRAP_I64, w) == Cut(r, W32)
      && (CmpHolds(I64, NE, Converted(ext, Converted(WRAP_I64, w)), w) <==> !InTy(TU32, r))
  {
    CutSmall(x, W32);
    CutSmall(y, W32);
    var r := Plain(op, NumOf(TU32, x), NumOf(TU32, y));
    NarrowedUnsigned(BinFor(TU32, op), x, y);
    hide BinValue, BinTraps;
    Cut64(Cut(r, W64));
    Cut64(Cut(r, W32));
  }

  // ---- 64-bit overflow ----

  /** A sum leaves i64 exactly when the operands agree in sign and the result does not; a difference,
      when they disagree and the result's sign is not the left one's. */
  lemma SignRule(op: Op, x: int, y: int, r: int)
    requires InTy(TI64, x) && InTy(TI64, y) && InTy(TI64, r) && op in {Add, Sub}
    requires Cut(r, W64) == Cut(Plain(op, x, y), W64)
    ensures !InTy(TI64, Plain(op, x, y))
       <==> ((op == Add) == ((x < 0) == (y < 0))) && (r < 0) != (x < 0)
  {
    var n := Plain(op, x, y);
    CutOf(n, W64);
    CutOf(r, W64);
    var k: int :| Cut(n, W64) == n + W64 * k;
    var l: int :| Cut(r, W64) == r + W64 * l;
    assert n - r == W64 * (l - k);
  }

  lemma SignTestValues(op: Op, x: Word, y: Word)
    requires op in {Add, Sub}
    ensures var r, z, bin := Cut(Plain(op, NumOf(TI64, x), NumOf(TI64, y)), W64), Xor(x, y), BinFor(TI64, op);
      && !BinTraps(I64, bin, x, y) && BinValue(I64, bin, x, y) == r
      && (CmpHolds(I64, if bin == ADD then GE_S else LT_S, z, 0) && CmpHolds(I64, LT_S, Xor(x, r), 0)
          <==> !InTy(TI64, Plain(op, NumOf(TI64, x), NumOf(TI64, y))))
  {
    var sx, sy := NumOf(TI64, x), NumOf(TI64, y);
    var r: Word := Cut(Plain(op, sx, sy), W64);
    hide Xor, Plain, BinValue, BinTraps;
    WrapMeans(TI64, op, x, y);
    SignBit(x);
    SignBit(y);
    SignBit(r);
    XorSign(x, y);
    XorSign(x, r);
    SignBit(Xor(x, y));
    SignBit(Xor(x, r));
    SignRule(op, sx, sy, AsSigned(r, W64));
  }

  lemma SignBit(w: Word)
    ensures CmpHolds(I64, LT_S, w, 0) <==> AsSigned(w, W64) < 0
    ensures CmpHolds(I64, GE_S, w, 0) <==> AsSigned(w, W64) >= 0
    ensures NumOf(TI64, w) == AsSigned(w, W64) && InTy(TI64, AsSigned(w, W64)) && Cut(AsSigned(w, W64), W64) == w
  {
    Cut64(w);
    Cut64(0);
    SignedRoundTrip(w, W64);
  }

  lemma SignTestRuns(rt: Runtime, op: Op, a: nat, b: nat, out: seq<Word>) returns (out': seq<Word>)
    requires op in {Add, Sub} && a < |out| && b < |out|
    ensures var n, r := |out|, Plain(op, NumOf(TI64, out[a]), NumOf(TI64, out[b]));
      && Straight(rt, SignTest(n, BinFor(TI64, op), a, b), out, out')
      && out'[n] == Cut(r, W64) && out'[n + 6] == Flag(!InTy(TI64, r))
  {
    var n, x, y, bin := |out|, out[a], out[b], BinFor(TI64, op);
    var exact := Plain(op, NumOf(TI64, x), NumOf(TI64, y));
    var r: Word := Cut(exact, W64);
    SignTestValues(op, x, y);
    var xy, xr := Xor(x, y), Xor(x, r);
    var cmp := if bin == ADD then GE_S else LT_S;
    var s, fl := Flag(CmpHolds(I64, cmp, xy, 0)), Flag(CmpHolds(I64, LT_S, xr, 0));
    Booleans(s, fl);
    hide CmpHolds, InTy, Cut, Plain, NumOf, BinValue, And, Xor, SignTest, Straight;
    out' := out + [r, 0, xy, xr, s, fl, And(s, fl)];
    SignTestSteps(rt, bin, a, b, out, r, s, fl);
  }

  lemma SignTestSteps(rt: Runtime, bin: BinOp, a: nat, b: nat, out: seq<Word>, r: Word, s: Word, f: Word)
    requires bin in {ADD, SUB} && a < |out| && b < |out| && r == BinValue(I64, bin, out[a], out[b])
    requires s == Flag(CmpHolds(I64, if bin == ADD then GE_S else LT_S, Xor(out[a], out[b]), 0))
    requires f == Flag(CmpHolds(I64, LT_S, Xor(out[a], r), 0))
    ensures Straight(rt, SignTest(|out|, bin, a, b), out,
                     out + [r, 0, Xor(out[a], out[b]), Xor(out[a], r), s, f, And(s, f)])
  {
    hide BinValue, BinTraps, CmpHolds, Cut, Xor, And;
    var n, x, y := |out|, out[a], out[b];
    XorValue(x, y);
    XorValue(x, r);
    AndValue(s, f);
    Cut64(0);
    AllSafe(I64);
    var out' := out + [r, 0, Xor(x, y), Xor(x, r), s, f, And(s, f)];
    var code := SignTest(n, bin, a, b);
    forall j | 0 <= j < 7
      ensures Computes(rt, code[j], out', n + j)
    {
    }
  }

  lemma XorValue(a: Word, b: Word)
    ensures BinValue(I64, XOR, a, b) == Xor(a, b) && !BinTraps(I64, XOR, a, b)
  {
    Cut64(a);
    Cut64(b);
    Cut64(Xor(a, b));
  }

  lemma AndValue(a: Word, b: Word)
    requires a <= 1 && b <= 1
    ensures BinValue(I32, AND, a, b) == And(a, b) && !BinTraps(I32, AND, a, b)
  {
    Booleans(a, b);
    CutSmall(a, W32);
    CutSmall(b, W32);
    CutSmall(And(a, b), W32);
  }

  /** Unsigned + carries when the result is below the left operand; - borrows when the left is the smaller. */
  lemma CarryValues(op: Op, x: Word, y: Word)
    requires op in {Add, Sub}
    ensures var n, bin := Plain(op, NumOf(TU64, x), NumOf(TU64, y)), BinFor(TU64, op);
      && !BinTraps(I64, bin, x, y) && BinValue(I64, bin, x, y) == Cut(n, W64)
      && ((if op == Add then CmpHolds(I64, LT_U, Cut(n, W64), x) else CmpHolds(I64, LT_U, x, y)) <==> !InTy(TU64, n))
  {
    Cut64(x);
    Cut64(y);
    var n := Plain(op, x, y);
    Cut64(Cut(n, W64));
    if op == Add && n >= W64 {
      CutShift(n, -1, W64);
      CutSmall(n - W64, W64);
    } else if n >= 0 {
      CutSmall(n, W64);
    }
  }

  lemma MulValues(ty: Ty, x: Word, y: Word)
    requires !Is32(ty)
    ensures BinValue(I64, MUL, x, y) == Cut(NumOf(ty, x) * NumOf(ty, y), W64) && !BinTraps(I64, MUL, x, y)
  {
    WrapMeans(ty, WrapMul, x, y);
  }

  // ---- division ----

  /** The all-ones word of a type's width. */
  function All(ty: Ty): Word {
    Mod(ty) - 1
  }

  lemma SubMasks(ty: Ty)
    ensures var m := Machine(ty);
      BinValue(m, SUB, 0, 0) == 0 && BinValue(m, SUB, 0, 1) == All(ty) && BinValue(m, SUB, 1, 1) == 0
  {
    CutSmall(0, Mod(ty));
    CutSmall(1, Mod(ty));
    CutShift(-1, 1, Mod(ty));
    CutSmall(All(ty), Mod(ty));
  }

  lemma XorAll(ty: Ty)
    ensures Xor(0, All(ty)) == All(ty) && Xor(All(ty), All(ty)) == 0
  {
    hide Xor, And, Or, Bitwise;
    if Is32(ty) {
      Masks32(0);
      Masks32(W32 - 1);
    } else {
      Masks(0);
      Masks(ONES);
    }
  }

  lemma XorMasks(ty: Ty)
    ensures var m := Machine(ty); BinValue(m, XOR, 0, All(ty)) == All(ty) && BinValue(m, XOR, All(ty), All(ty)) == 0
  {
    hide Xor;
    CutSmall(0, Mod(ty));
    CutSmall(All(ty), Mod(ty));
    XorAll(ty);
    hide Cut, All;
  }

  lemma AndMasks(ty: Ty, x: Word)
    requires x < Mod(ty)
    ensures var m := Machine(ty); BinValue(m, AND, x, All(ty)) == x && BinValue(m, AND, x, 0) == 0
  {
    CutSmall(0, Mod(ty));
    CutSmall(x, Mod(ty));
    CutSmall(All(ty), Mod(ty));
    if Is32(ty) {
      Masks32(x);
    } else {
      Masks(x);
    }
    hide And, Cut;
  }

  lemma OrMasks(ty: Ty, x: Word)
    requires x < Mod(ty)
    ensures var m := Machine(ty); BinValue(m, OR, x, 0) == x && BinValue(m, OR, 0, x) == x
  {
    CutSmall(0, Mod(ty));
    CutSmall(x, Mod(ty));
    if Is32(ty) {
      Masks32(x);
    } else {
      Masks(x);
    }
    hide Or, Cut;
  }

  function Picked(bad: Word, b: Word): Word {
    if bad == 1 then 1 else b
  }

  lemma SafeDivisorRuns(rt: Runtime, ty: Ty, n: nat, b: nat, bad: nat, out: seq<Word>) returns (out': seq<Word>)
    requires n + 2 < |out| && b < |out| && bad < |out| && out[bad] <= 1 && out[b] < Mod(ty)
    requires out[n] == 0 && out[n + 1] == 1 && out[n + 2] == All(ty)
    ensures var k := |out|;
      Straight(rt, SafeDivisor(ty, n, b, bad, k), out, out') && out'[k + 4] == Picked(out[bad], out[b])
  {
    hide BinValue, BinTraps, Mod, Machine;
    var k, y, all := |out|, out[b], All(ty);
    SubMasks(ty);
    XorMasks(ty);
    AndMasks(ty, y);
    AndMasks(ty, 1) by {
      OneFits(ty);
    }
    OrMasks(ty, y);
    OrMasks(ty, 1) by {
      OneFits(ty);
    }
    AllSafe(Machine(ty));
    var code := SafeDivisor(ty, n, b, bad, k);
    if out[bad] == 1 {
      out' := out + [all, 0, 0, 1, 1];
      forall j | 0 <= j < 5
        ensures Computes(rt, code[j], out', k + j)
      {
      }
    } else {
      out' := out + [0, all, y, 0, y];
      forall j | 0 <= j < 5
        ensures Computes(rt, code[j], out', k + j)
      {
      }
    }
  }

  lemma OneFits(ty: Ty)
    ensures 1 < Mod(ty)
  {
  }

  lemma AllSafe(m: IntType)
    ensures forall op: BinOp, a: Word, b: Word :: op in {ADD, SUB, MUL, AND, OR, XOR, SHL} ==> !BinTraps(m, op, a, b)
  {
  }

  /** MIN / -1 and a zero divisor: what the machine must not be given. */
  predicate Steered(ty: Ty, a: Word, b: Word) {
    b == 0 || (a == Mod(ty) / 2 && b == Mod(ty) - 1)
  }

  lemma ConstsRun(rt: Runtime, ty: Ty, out: seq<Word>) returns (out': seq<Word>)
    ensures var n := |out|;
      && Straight(rt, Consts(ty), out, out')
      && out'[n] == 0 && out'[n + 1] == 1 && out'[n + 2] == Mod(ty) - 1 && out'[n + 3] == Mod(ty) / 2
  {
    var n, m := |out|, Mod(ty);
    CutSmall(0, m);
    CutSmall(1, m);
    CutShift(-1, 1, m);
    CutSmall(m - 1, m);
    CutShift(-(m as int / 2), 1, m);
    CutSmall(m / 2, m);
    out' := out + [0, 1, m - 1, m / 2];
    var code := Consts(ty);
    hide Cut;
    forall j | 0 <= j < 4
      ensures Computes(rt, code[j], out', n + j)
    {
    }
  }

  lemma CmpEq(ty: Ty, a: Word, b: Word)
    requires a < Mod(ty) && b < Mod(ty)
    ensures CmpHolds(Machine(ty), EQ, a, b) <==> a == b
  {
    CutSmall(a, Mod(ty));
    CutSmall(b, Mod(ty));
  }

  lemma DivTestsRun(rt: Runtime, ty: Ty, n: nat, a: nat, b: nat, out: seq<Word>) returns (out': seq<Word>)
    requires |out| == n + 4 && a < |out| && b < |out| && out[a] < Mod(ty) && out[b] < Mod(ty)
    requires out[n] == 0 && out[n + 2] == Mod(ty) - 1 && out[n + 3] == Mod(ty) / 2
    ensures Straight(rt, DivTests(ty, n, a, b), out, out')
    ensures out'[n + 4] == Flag(out[b] == 0) && out'[n + 8] == Flag(Steered(ty, out[a], out[b]))
  {
    hide BinValue, BinTraps, CmpHolds, And, Or, Machine, Cut, Bitwise, Mod;
    var x, y := out[a], out[b];
    var z, mn, mo := Flag(y == 0), Flag(x == Mod(ty) / 2), Flag(y == Mod(ty) - 1);
    CmpEq(ty, y, 0);
    CmpEq(ty, x, Mod(ty) / 2);
    CmpEq(ty, y, Mod(ty) - 1);
    var o := And(mn, mo);
    Booleans(mn, mo);
    Booleans(z, o);
    AndValue(mn, mo);
    BoolOr(z, o);
    out' := out + [z, mn, mo, o, Or(z, o)];
    var code := DivTests(ty, n, a, b);
    forall j | 0 <= j < 5
      ensures Computes(rt, code[j], out', n + 4 + j)
    {
    }
  }

  lemma BoolOr(a: Word, b: Word)
    requires a <= 1 && b <= 1
    ensures BinValue(I32, OR, a, b) == Or(a, b) && !BinTraps(I32, OR, a, b)
  {
    Booleans(a, b);
    CutSmall(a, W32);
    CutSmall(b, W32);
    CutSmall(Or(a, b), W32);
  }

  /** The native division of a by the substituted divisor. */
  ghost predicate DividesAs(ty: Ty, op: Op, a: Word, b: Word)
    requires IsSigned(ty) && op in {Div, Rem} && a < Mod(ty) && b < Mod(ty)
  {
    var d := Picked(Flag(Steered(ty, a, b)), b);
    var x, y := NumOf(ty, a), NumOf(ty, b);
      && d < Mod(ty) && !BinTraps(Machine(ty), BinFor(ty, op), a, d)
      && BinValue(Machine(ty), BinFor(ty, op), a, d) < Mod(ty)
      && (b != 0 && Combine(ty, op, x, y).Some? ==>
            BinValue(Machine(ty), BinFor(ty, op), a, d) == Cut(Combine(ty, op, x, y).val, Mod(ty)))
      && (Combine(ty, op, x, y).None? <==> if op == Div then Steered(ty, a, b) else b == 0)
  }

  lemma SteeredQuotient(ty: Ty, op: Op, a: Word, b: Word)
    requires IsSigned(ty) && op in {Div, Rem} && a < Mod(ty) && b < Mod(ty)
    ensures DividesAs(ty, op, a, b)
  {
    hide DividesAs, Steered;
    if Steered(ty, a, b) {
      SteeredDivides(ty, op, a, b);
    } else {
      PlainDivides(ty, op, a, b);
    }
  }

  /** The machine's signed division on operands that do not trap. */
  lemma NativeDivides(ty: Ty, op: Op, a: Word, d: Word)
    requires IsSigned(ty) && op in {Div, Rem} && a < Mod(ty) && 0 < d < Mod(ty) && !(a == Mod(ty) / 2 && d == Mod(ty) - 1)
    ensures NumOf(ty, d) != 0 && !BinTraps(Machine(ty), BinFor(ty, op), a, d)
    ensures BinValue(Machine(ty), BinFor(ty, op), a, d) == Cut(Plain(op, NumOf(ty, a), NumOf(ty, d)), Mod(ty)) < Mod(ty)
  {
    hide Bitwise, Up, Quot, Ir.Rem, AsSigned, Cut;
    LowBits(ty, a);
    LowBits(ty, d);
    Signs(ty, a, d);
  }

  lemma SteeredDivides(ty: Ty, op: Op, a: Word, b: Word)
    requires IsSigned(ty) && op in {Div, Rem} && a < Mod(ty) && b < Mod(ty) && Steered(ty, a, b)
    ensures DividesAs(ty, op, a, b)
  {
    hide Bitwise, Up, Cut, NumOf, BinValue, BinTraps;
    var m := Mod(ty);
    NativeDivides(ty, op, a, 1);
    Signs(ty, a, b);
    if b != 0 {
      MinByMinusOne(m / 2);
    }
  }

  lemma PlainDivides(ty: Ty, op: Op, a: Word, b: Word)
    requires IsSigned(ty) && op in {Div, Rem} && a < Mod(ty) && b < Mod(ty) && !Steered(ty, a, b)
    ensures DividesAs(ty, op, a, b)
  {
    hide Bitwise, Up, Cut, NumOf, BinValue, BinTraps, Quot, Ir.Rem;
    NativeDivides(ty, op, a, b);
    WordOfNum(ty, a);
    WordOfNum(ty, b);
    Signs(ty, a, b);
    QuotRange(NumOf(ty, a), NumOf(ty, b), Mod(ty) / 2);
  }

  lemma Signs(ty: Ty, a: Word, b: Word)
    requires IsSigned(ty) && a < Mod(ty) && b < Mod(ty)
    ensures (NumOf(ty, b) == 0 <==> b == 0) && NumOf(ty, 0) == 0 && NumOf(ty, 1) == 1
    ensures a == Mod(ty) / 2 <==> NumOf(ty, a) == -(Mod(ty) as int / 2)
    ensures b == Mod(ty) - 1 <==> NumOf(ty, b) == -1
    ensures AsSigned(Cut(a, Mod(ty)), Mod(ty)) == NumOf(ty, a) && AsSigned(Cut(1, Mod(ty)), Mod(ty)) == 1
  {
    CutSmall(a, Mod(ty));
    CutSmall(b, Mod(ty));
    CutSmall(0, Mod(ty));
    CutSmall(1, Mod(ty));
  }

  lemma MinByMinusOne(half: int)
    requires half > 0
    ensures Quot(-half, -1) == half && Ir.Rem(-half, -1) == 0 && Ir.Rem(-half, 1) == 0
  {
  }

  // ---- one operator, run ----

  /** What an operator's code must give: the sticky bit rises exactly when there is no exact result of
      the type, and when there is one the word is it. */
  ghost predicate Gives(rt: Runtime, t: Tape, ty: Ty, op: Op, a: nat, b: nat, vals: seq<Word>, out: seq<Word>, r: (Tape, nat),
                        out': seq<Word>) {
    && a < |out| && b < |out| && t.ovf < |out| && Taped(rt, r.0, vals, out') && out <= out' && r.1 < |out'|
    && Answer(ty, Combine(ty, op, NumOf(ty, out[a]), NumOf(ty, out[b])), out[t.ovf], out'[r.1], out'[r.0.ovf])
  }

  predicate Answer(ty: Ty, c: Option<int>, before: Word, w: Word, after: Word) {
    && w < Mod(ty) && after == (if before == 1 || c.None? then 1 else 0)
    && (c.Some? ==> w == Cut(c.val, Mod(ty)))
  }

  /** The part common to both signed divisions: constants, tests, and room for the safe divisor. */
  lemma TestsRun(rt: Runtime, ty: Ty, a: nat, b: nat, out: seq<Word>) returns (out': seq<Word>)
    requires a < |out| && b < |out| && out[a] < Mod(ty) && out[b] < Mod(ty)
    ensures var n := |out|;
      && Straight(rt, Consts(ty) + DivTests(ty, n, a, b), out, out') && |out'| == n + 9 && out <= out'
      && out'[n] == 0 && out'[n + 1] == 1 && out'[n + 2] == All(ty)
      && out'[n + 4] == Flag(out[b] == 0) && out'[n + 8] == Flag(Steered(ty, out[a], out[b]))
  {
    hide Mod, Steered, Consts, DivTests;
    var n := |out|;
    var mid := ConstsRun(rt, ty, out);
    AllIs(ty);
    Kept(rt, Consts(ty), out, mid);
    out' := DivTestsRun(rt, ty, n, a, b, mid);
    Kept(rt, DivTests(ty, n, a, b), mid, out');
    StraightThen(rt, Consts(ty), DivTests(ty, n, a, b), out, mid, out');
  }

  lemma AllIs(ty: Ty)
    ensures All(ty) == Mod(ty) - 1
  {
  }

  lemma Kept(rt: Runtime, insts: seq<Inst>, out: seq<Word>, out': seq<Word>)
    requires Straight(rt, insts, out, out')
    ensures out <= out' && |out'| == |out| + |insts|
  {
  }

  /** Divide by the safe divisor and clear the result when the divisor was zero. */
  function Finish32(op: BinOp, n: nat, a: nat): (r: seq<Inst>)
    ensures |r| == 4
  {
    [IntBin(I32, op, a, n + 13), IntBin(I32, XOR, n + 4, n + 1), IntBin(I32, SUB, n, n + 15), IntBin(I32, AND, n + 14, n + 16)]
  }

  function Finish64(op: BinOp, n: nat, a: nat): (r: seq<Inst>)
    ensures |r| == 4
  {
    [IntBin(I64, op, a, n + 14), Convert(EXTEND_I32U, n + 4), IntBin(I64, SUB, n + 16, n + 1), IntBin(I64, AND, n + 15, n + 17)]
  }

  lemma Finish32Runs(rt: Runtime, op: BinOp, n: nat, a: nat, z: bool, out: seq<Word>) returns (out': seq<Word>)
    requires |out| == n + 14 && a < |out| && out[n] == 0 && out[n + 1] == 1 && out[n + 4] == Flag(z)
    requires !BinTraps(I32, op, out[a], out[n + 13]) && BinValue(I32, op, out[a], out[n + 13]) < W32
    ensures Straight(rt, Finish32(op, n, a), out, out')
    ensures out'[n + 17] == if z then 0 else BinValue(I32, op, out[a], out[n + 13])
  {
    hide BinValue, BinTraps;
    var q := BinValue(I32, op, out[a], out[n + 13]);
    SubMasks(TI32);
    AndMasks(TI32, q);
    NotBit(Flag(z));
    AllSafe(I32);
    var mask := if z then 0 else All(TI32);
    out' := out + [q, 1 - Flag(z), mask, if z then 0 else q];
    var code := Finish32(op, n, a);
    forall j | 0 <= j < 4
      ensures Computes(rt, code[j], out', n + 14 + j)
    {
    }
  }

  lemma NotBit(z: Word)
    requires z <= 1
    ensures BinValue(I32, XOR, z, 1) == 1 - z
  {
    Booleans(z, 1);
    CutSmall(z, W32);
    CutSmall(1, W32);
    CutSmall(1 - z, W32);
    hide Xor, Cut;
  }

  lemma Finish64Runs(rt: Runtime, op: BinOp, n: nat, a: nat, z: bool, out: seq<Word>) returns (out': seq<Word>)
    requires |out| == n + 15 && a < |out| && out[n + 1] == 1 && out[n + 4] == Flag(z)
    requires !BinTraps(I64, op, out[a], out[n + 14])
    ensures Straight(rt, Finish64(op, n, a), out, out')
    ensures out'[n + 18] == if z then 0 else BinValue(I64, op, out[a], out[n + 14])
  {
    hide BinValue, BinTraps;
    var q := BinValue(I64, op, out[a], out[n + 14]);
    SubMasks(TI64);
    AndMasks(TI64, q);
    CutSmall(Flag(z), W32);
    AllSafe(I64);
    var mask := if z then 0 else All(TI64);
    out' := out + [q, Flag(z), mask, if z then 0 else q];
    var code := Finish64(op, n, a);
    forall j | 0 <= j < 4
      ensures Computes(rt, code[j], out', n + 15 + j)
    {
    }
  }

  lemma I32DivRemRuns(rt: Runtime, t: Tape, op: Op, a: nat, b: nat, vals: seq<Word>, out: seq<Word>) returns (out': seq<Word>)
    requires Taped(rt, t, vals, out) && op in {Div, Rem} && a < |out| && b < |out| && out[a] < W32 && out[b] < W32
    ensures Gives(rt, t, TI32, op, a, b, vals, out, I32DivRem(t, op, a, b), out')
  {
    hide Consts, DivTests, SafeDivisor, Steered, Combine, NumOf, BinValue, BinTraps, Finish32, Cut, Taped, Straight, Answer, Picked;
    TapeSize(rt, t, vals, out);
    var n, bin, x, y := Next(t), BinFor(TI32, op), out[a], out[b];
    var c0 := Consts(TI32) + DivTests(TI32, n, a, b);
    var c1, c2 := SafeDivisor(TI32, n, b, n + 8, n + 9), Finish32(bin, n, a);
    var o0 := TestsRun(rt, TI32, a, b, out);
    var o1 := SafeDivisorRuns(rt, TI32, n, b, n + 8, o0);
    Kept(rt, c1, o0, o1);
    StraightThen(rt, c0, c1, out, o0, o1);
    SteeredQuotient(TI32, op, x, y);
    var o2 := Finish32Runs(rt, bin, n, a, y == 0, o1);
    Kept(rt, c2, o1, o2);
    StraightThen(rt, c0 + c1, c2, out, o1, o2);
    TapeMore(rt, t, vals, out, c0 + c1 + c2, o2);
    out' := MarkRuns(rt, More(t, c0 + c1 + c2), if op == Div then n + 8 else n + 4, vals, o2);
    I32Code(t, op, a, b);
    TapeSize(rt, I32DivRem(t, op, a, b).0, vals, out');
    Verdict(TI32, op, x, y, out[t.ovf], out'[n + 17], out'[I32DivRem(t, op, a, b).0.ovf]);
  }

  lemma I32Code(t: Tape, op: Op, a: nat, b: nat)
    ensures var n := Next(t);
      I32DivRem(t, op, a, b)
      == (Mark(More(t, Consts(TI32) + DivTests(TI32, n, a, b) + SafeDivisor(TI32, n, b, n + 8, n + 9)
                       + Finish32(BinFor(TI32, op), n, a)), if op == Div then n + 8 else n + 4), n + 17)
  {
  }

  /** The three facts about a signed division, put together. */
  lemma Verdict(ty: Ty, op: Op, x: Word, y: Word, before: Word, w: Word, after: Word)
    requires IsSigned(ty) && op in {Div, Rem} && x < Mod(ty) && y < Mod(ty)
    requires var d := Picked(Flag(Steered(ty, x, y)), y);
      && d < Mod(ty) && !BinTraps(Machine(ty), BinFor(ty, op), x, d)
      && w == if y == 0 then 0 else BinValue(Machine(ty), BinFor(ty, op), x, d)
    requires before <= 1
    requires after == if before == 1 || (if op == Div then Steered(ty, x, y) else y == 0) then 1 else 0
    ensures Answer(ty, Combine(ty, op, NumOf(ty, x), NumOf(ty, y)), before, w, after)
  {
    SteeredQuotient(ty, op, x, y);
    Signs(ty, x, y);
  }

  lemma I64DivRemRuns(rt: Runtime, t: Tape, op: Op, a: nat, b: nat, vals: seq<Word>, out: seq<Word>) returns (out': seq<Word>)
    requires Taped(rt, t, vals, out) && op in {Div, Rem} && a < |out| && b < |out|
    ensures Gives(rt, t, TI64, op, a, b, vals, out, I64DivRem(t, op, a, b), out')
  {
    hide Consts, DivTests, SafeDivisor, Steered, Combine, NumOf, BinValue, BinTraps, Finish64, Cut, Taped, Straight, Answer, Picked;
    TapeSize(rt, t, vals, out);
    var n, bin, x, y := Next(t), BinFor(TI64, op), out[a], out[b];
    var c0, c1 := Consts(TI64) + DivTests(TI64, n, a, b), [Convert(EXTEND_I32U, n + 8)];
    var c2, c3 := SafeDivisor(TI64, n, b, n + 9, n + 10), Finish64(bin, n, a);
    var o0 := TestsRun(rt, TI64, a, b, out);
    var o1 := o0 + [o0[n + 8]];
    Extended(o0[n + 8]);
    OneInst(rt, c1[0], o0, o0[n + 8]);
    StraightThen(rt, c0, c1, out, o0, o1);
    var o2 := SafeDivisorRuns(rt, TI64, n, b, n + 9, o1);
    Kept(rt, c2, o1, o2);
    StraightThen(rt, c0 + c1, c2, out, o1, o2);
    SteeredQuotient(TI64, op, x, y);
    var o3 := Finish64Runs(rt, bin, n, a, y == 0, o2);
    Kept(rt, c3, o2, o3);
    StraightThen(rt, c0 + c1 + c2, c3, out, o2, o3);
    TapeMore(rt, t, vals, out, c0 + c1 + c2 + c3, o3);
    out' := MarkRuns(rt, More(t, c0 + c1 + c2 + c3), if op == Div then n + 8 else n + 4, vals, o3);
    I64Code(t, op, a, b);
    TapeSize(rt, I64DivRem(t, op, a, b).0, vals, out');
    Verdict(TI64, op, x, y, out[t.ovf], out'[n + 18], out'[I64DivRem(t, op, a, b).0.ovf]);
  }

  lemma Extended(z: Word)
    requires z <= 1
    ensures Converted(EXTEND_I32U, z) == z
  {
    CutSmall(z, W32);
  }

  lemma I64Code(t: Tape, op: Op, a: nat, b: nat)
    ensures var n := Next(t);
      I64DivRem(t, op, a, b)
      == (Mark(More(t, Consts(TI64) + DivTests(TI64, n, a, b) + [Convert(EXTEND_I32U, n + 8)]
                       + SafeDivisor(TI64, n, b, n + 9, n + 10) + Finish64(BinFor(TI64, op), n, a)),
               if op == Div then n + 8 else n + 4), n + 18)
  {
  }

  // ---- unsigned division ----

  /** `b | (b == 0)`: 1 for a zero divisor, else the divisor. */
  lemma OrBit(ty: Ty, y: Word)
    requires y < Mod(ty)
    ensures BinValue(Machine(ty), OR, y, Flag(y == 0)) == if y == 0 then 1 else y
  {
    if y == 0 {
      OrMasks(ty, 1);
    } else {
      OrMasks(ty, y);
    }
    hide BinValue;
  }

  lemma UintQuotient(ty: Ty, op: Op, x: Word, y: Word)
    requires !IsSigned(ty) && op in {Div, Rem} && x < Mod(ty) && y < Mod(ty)
    ensures var d: Word, bin := if y == 0 then 1 else y, BinFor(ty, op);
      && !BinTraps(Machine(ty), bin, x, d) && BinValue(Machine(ty), bin, x, d) < Mod(ty)
      && (Combine(ty, op, NumOf(ty, x), NumOf(ty, y)).None? <==> y == 0)
      && (y != 0 ==> BinValue(Machine(ty), bin, x, d) == Cut(Combine(ty, op, NumOf(ty, x), NumOf(ty, y)).val, Mod(ty)))
  {
    var d: Word := if y == 0 then 1 else y;
    CutSmall(x, Mod(ty));
    CutSmall(y, Mod(ty));
    CutSmall(d, Mod(ty));
    Magnitudes(x, d);
    assert NumOf(ty, x) == x && NumOf(ty, y) == y;
    hide Cut;
  }

  function UintHead(ty: Ty, n: nat, b: nat): seq<Inst> {
    [Const(ty, 0), Const(ty, 1), IntCmp(Machine(ty), EQ, b, n)] + (if Is32(ty) then [] else [Convert(EXTEND_I32U, n + 2)])
  }

  /** The zero test of the divisor, at the type's width: its id is z. */
  lemma UintHeadRuns(rt: Runtime, ty: Ty, b: nat, out: seq<Word>) returns (out': seq<Word>)
    requires b < |out| && out[b] < Mod(ty)
    ensures var n := |out|;
      var z := if Is32(ty) then n + 2 else n + 3;
      && Straight(rt, UintHead(ty, n, b), out, out') && |out'| == z + 1 && out <= out'
      && out'[n + 1] == 1 && out'[n + 2] == Flag(out[b] == 0) && out'[z] == Flag(out[b] == 0)
  {
    var n, f := |out|, Flag(out[b] == 0);
    CutSmall(0, Mod(ty));
    CutSmall(1, Mod(ty));
    CmpEq(ty, out[b], 0);
    Extended(f);
    hide CmpHolds, Converted, Cut;
    var code := UintHead(ty, n, b);
    out' := if Is32(ty) then out + [0, 1, f] else out + [0, 1, f, f];
    forall j | 0 <= j < |code|
      ensures Computes(rt, code[j], out', n + j)
    {
    }
  }

  function UintTail(m: IntType, op: BinOp, n: nat, z: nat, a: nat, b: nat): (r: seq<Inst>)
    ensures |r| == 4
  {
    [IntBin(m, OR, b, z), IntBin(m, op, a, z + 1), IntBin(m, SUB, z, n + 1), IntBin(m, AND, z + 2, z + 3)]
  }

  lemma UintTailRuns(rt: Runtime, ty: Ty, op: Op, n: nat, z: nat, a: nat, b: nat, out: seq<Word>) returns (out': seq<Word>)
    requires !IsSigned(ty) && op in {Div, Rem} && |out| == z + 1 && n + 1 < |out| && a < |out| && b < |out|
    requires out[a] < Mod(ty) && out[b] < Mod(ty) && out[n + 1] == 1 && out[z] == Flag(out[b] == 0)
    ensures Straight(rt, UintTail(Machine(ty), BinFor(ty, op), n, z, a, b), out, out')
    ensures var c := Combine(ty, op, NumOf(ty, out[a]), NumOf(ty, out[b]));
      out'[z + 4] < Mod(ty) && (c.None? <==> out[b] == 0) && (c.Some? ==> out'[z + 4] == Cut(c.val, Mod(ty)))
  {
    hide BinValue, BinTraps, Cut, Combine, NumOf;
    var x, y, m, bin := out[a], out[b], Machine(ty), BinFor(ty, op);
    var d: Word := if y == 0 then 1 else y;
    OrBit(ty, y);
    UintQuotient(ty, op, x, y);
    var q := BinValue(m, bin, x, d);
    SubMasks(ty);
    AndMasks(ty, q);
    AllSafe(m);
    out' := out + [d, q, if y == 0 then 0 else All(ty), if y == 0 then 0 else q];
    var code := UintTail(m, bin, n, z, a, b);
    hide Mod, Machine;
    forall j | 0 <= j < 4
      ensures Computes(rt, code[j], out', z + 1 + j)
    {
    }
  }

  lemma UintCode(t: Tape, ty: Ty, op: Op, a: nat, b: nat)
    ensures var n := Next(t);
      var z := if Is32(ty) then n + 2 else n + 3;
      UintDivRem(t, ty, op, a, b)
      == (Mark(More(t, UintHead(ty, n, b) + UintTail(Machine(ty), BinFor(ty, op), n, z, a, b)), n + 2), z + 4)
  {
  }

  lemma UintDivRemRuns(rt: Runtime, t: Tape, ty: Ty, op: Op, a: nat, b: nat, vals: seq<Word>, out: seq<Word>)
    returns (out': seq<Word>)
    requires Taped(rt, t, vals, out) && !IsSigned(ty) && op in {Div, Rem} && a < |out| && b < |out|
    requires out[a] < Mod(ty) && out[b] < Mod(ty)
    ensures Gives(rt, t, ty, op, a, b, vals, out, UintDivRem(t, ty, op, a, b), out')
  {
    hide UintHead, UintTail, Combine, NumOf, Cut, Taped, Straight, Mod;
    TapeSize(rt, t, vals, out);
    var n := Next(t);
    var z := if Is32(ty) then n + 2 else n + 3;
    var c0, c1 := UintHead(ty, n, b), UintTail(Machine(ty), BinFor(ty, op), n, z, a, b);
    var o0 := UintHeadRuns(rt, ty, b, out);
    var o1 := UintTailRuns(rt, ty, op, n, z, a, b, o0);
    Kept(rt, c1, o0, o1);
    StraightThen(rt, c0, c1, out, o0, o1);
    TapeMore(rt, t, vals, out, c0 + c1, o1);
    out' := MarkRuns(rt, More(t, c0 + c1), n + 2, vals, o1);
    UintCode(t, ty, op, a, b);
    TapeSize(rt, UintDivRem(t, ty, op, a, b).0, vals, out');
  }

  lemma MulAskedSteps(rt: Runtime, ovf: nat, sp: nat, fn: string, a: nat, b: nat, out: seq<Word>, over: Word)
    requires a < |out| && b < |out| && sp < |out| && ovf < |out| && rt(fn, [out[sp], out[a], out[b]]) == over
    ensures var n := |out|;
      Straight(rt, [IntBin(I64, MUL, a, b), ConstI32(0), CallImport(fn, n + 1, [sp, a, b]), IntBin(I64, OR, ovf, n + 2)],
               out, out + [BinValue(I64, MUL, out[a], out[b]), 0, over, Or(out[ovf], over)])
  {
    hide BinValue, BinTraps, Or, Cut;
    var n, f := |out|, out[ovf];
    OrValue(f, over);
    CutSmall(0, W32);
    AllSafe(I64);
    var insts := [IntBin(I64, MUL, a, b), ConstI32(0), CallImport(fn, n + 1, [sp, a, b]), IntBin(I64, OR, ovf, n + 2)];
    var out' := out + [BinValue(I64, MUL, out[a], out[b]), 0, over, Or(f, over)];
    assert Pick(out', [sp, a, b]) == [out[sp], out[a], out[b]];
    forall j | 0 <= j < 4
      ensures Computes(rt, insts[j], out', n + j)
    {
    }
  }

  lemma MulAskedRuns(rt: Runtime, t: Tape, sp: nat, ty: Ty, fn: string, a: nat, b: nat, vals: seq<Word>, out: seq<Word>)
    returns (out': seq<Word>)
    requires Taped(rt, t, vals, out) && !Is32(ty) && a < |out| && b < |out| && sp < |out|
    requires rt(fn, [out[sp], out[a], out[b]]) == Flag(!InTy(ty, NumOf(ty, out[a]) * NumOf(ty, out[b])))
    ensures Gives(rt, t, ty, Mul, a, b, vals, out, MulAsked(t, sp, fn, a, b), out')
  {
    TapeSize(rt, t, vals, out);
    var n, x, y, f := Next(t), out[a], out[b], out[t.ovf];
    var p := NumOf(ty, x) * NumOf(ty, y);
    var w, over := BinValue(I64, MUL, x, y), Flag(!InTy(ty, p));
    MulValues(ty, x, y);
    Booleans(f, over);
    assert Combine(ty, Mul, NumOf(ty, x), NumOf(ty, y)) == if InTy(ty, p) then Some(p) else None;
    hide BinValue, BinTraps, Or, InTy, NumOf, Cut, Taped, Combine, Straight;
    var insts := [IntBin(I64, MUL, a, b), ConstI32(0), CallImport(fn, n + 1, [sp, a, b]), IntBin(I64, OR, t.ovf, n + 2)];
    out' := out + [w, 0, over, Or(f, over)];
    MulAskedSteps(rt, t.ovf, sp, fn, a, b, out, over);
    TapeMore(rt, t, vals, out, insts, out');
    StickyAt(rt, t, insts, vals, out', n + 3);
  }

  /** A result word computed with its failure bit, then marked. */
  lemma Judged(rt: Runtime, t: Tape, insts: seq<Inst>, w: nat, bad: nat, ty: Ty, op: Op, a: nat, b: nat, vals: seq<Word>,
               out: seq<Word>, mid: seq<Word>) returns (out': seq<Word>)
    requires Taped(rt, t, vals, out) && Straight(rt, insts, out, mid) && a < |out| && b < |out| && op in {Add, Sub, Mul}
    requires w < |mid| && bad < |mid| && mid[w] < Mod(ty)
    requires var r := Plain(op, NumOf(ty, out[a]), NumOf(ty, out[b]));
      mid[w] == Cut(r, Mod(ty)) && mid[bad] == Flag(!InTy(ty, r))
    ensures Gives(rt, t, ty, op, a, b, vals, out, (Mark(More(t, insts), bad), w), out')
  {
    TapeSize(rt, t, vals, out);
    Kept(rt, insts, out, mid);
    var r := Plain(op, NumOf(ty, out[a]), NumOf(ty, out[b]));
    assert Combine(ty, op, NumOf(ty, out[a]), NumOf(ty, out[b])) == if InTy(ty, r) then Some(r) else None;
    hide Taped, Straight, Combine, NumOf, Plain, InTy, Cut, Mod;
    TapeMore(rt, t, vals, out, insts, mid);
    out' := MarkRuns(rt, More(t, insts), bad, vals, mid);
    TapeSize(rt, Mark(More(t, insts), bad), vals, out');
  }

  lemma WrapRuns(rt: Runtime, t: Tape, sp: nat, ty: Ty, op: Op, a: nat, b: nat, vals: seq<Word>, out: seq<Word>)
    returns (out': seq<Word>)
    requires Taped(rt, t, vals, out) && Wraps(op) && a < |out| && b < |out| && out[a] < Mod(ty) && out[b] < Mod(ty)
    ensures Gives(rt, t, ty, op, a, b, vals, out, EmitOp(t, sp, ty, op, a, b), out')
  {
    TapeSize(rt, t, vals, out);
    var n, x, y := Next(t), out[a], out[b];
    WrapMeans(ty, op, x, y);
    var r := Plain(op, NumOf(ty, x), NumOf(ty, y));
    var w: Word := Cut(r, Mod(ty));
    LowBits(ty, w);
    assert Combine(ty, op, NumOf(ty, x), NumOf(ty, y)) == Some(NumOf(ty, w));
    hide Taped, Straight, Combine, NumOf, Plain, Cut, BinValue, BinTraps;
    var i := IntBin(Machine(ty), BinFor(ty, op), a, b);
    OneInst(rt, i, out, w);
    out' := out + [w];
    TapeMore(rt, t, vals, out, [i], out');
  }

  lemma CarryRuns(rt: Runtime, t: Tape, op: Op, a: nat, b: nat, vals: seq<Word>, out: seq<Word>) returns (out': seq<Word>)
    requires Taped(rt, t, vals, out) && op in {Add, Sub} && a < |out| && b < |out|
    ensures Gives(rt, t, TU64, op, a, b, vals, out, CarryTest(t, op, a, b), out')
  {
    TapeSize(rt, t, vals, out);
    var n, x, y := Next(t), out[a], out[b];
    var r := Plain(op, NumOf(TU64, x), NumOf(TU64, y));
    var w: Word := Cut(r, W64);
    CarryValues(op, x, y);
    var i0 := IntBin(I64, BinFor(TU64, op), a, b);
    var i1 := if op == Add then IntCmp(I64, LT_U, n, a) else IntCmp(I64, LT_U, a, b);
    hide Taped, Straight, NumOf, Plain, InTy, Cut, BinValue, BinTraps, CmpHolds;
    OneInst(rt, i0, out, w);
    OneInst(rt, i1, out + [w], Flag(!InTy(TU64, r)));
    var mid := out + [w] + [Flag(!InTy(TU64, r))];
    StraightThen(rt, [i0], [i1], out, out + [w], mid);
    assert [i0] + [i1] == [i0, i1];
    out' := Judged(rt, t, [i0, i1], n, n + 1, TU64, op, a, b, vals, out, mid);
  }

  /** Every operator at every type. */
  lemma OpRuns(rt: Runtime, t: Tape, sp: nat, ty: Ty, op: Op, a: nat, b: nat, vals: seq<Word>, out: seq<Word>)
    returns (out': seq<Word>)
    requires Taped(rt, t, vals, out) && a < |out| && b < |out| && sp < |out| && out[a] < Mod(ty) && out[b] < Mod(ty)
    requires MulHost(rt)
    ensures Gives(rt, t, ty, op, a, b, vals, out, EmitOp(t, sp, ty, op, a, b), out')
  {
    hide Gives, Taped, Straight, I32DivRem, I64DivRem, UintDivRem, MulAsked, CarryTest, Narrowed, SignTest, Mark, NumOf, Plain,
         InTy, Cut, Combine;
    TapeSize(rt, t, vals, out);
    var n, bin := Next(t), BinFor(ty, op);
    if Wraps(op) {
      out' := WrapRuns(rt, t, sp, ty, op, a, b, vals, out);
    } else if op == Div || op == Rem {
      match ty
      case TI32 => out' := I32DivRemRuns(rt, t, op, a, b, vals, out);
      case TI64 => out' := I64DivRemRuns(rt, t, op, a, b, vals, out);
      case _ => out' := UintDivRemRuns(rt, t, ty, op, a, b, vals, out);
    } else if Is32(ty) {
      var ext := if ty == TI32 then EXTEND_I32S else EXTEND_I32U;
      var mid := NarrowedRuns(rt, ty, op, a, b, out);
      Kept(rt, Narrowed(n, ext, bin, a, b), out, mid);
      out' := Judged(rt, t, Narrowed(n, ext, bin, a, b), n + 3, n + 5, ty, op, a, b, vals, out, mid);
    } else if op == Mul {
      AskedAnswers(rt, out[sp], out[a], out[b]);
      out' := MulAskedRuns(rt, t, sp, ty, if ty == TI64 then "jacl_i64_mul_ovf" else "jacl_u64_mul_ovf", a, b, vals, out);
    } else if ty == TI64 {
      var mid := SignTestRuns(rt, op, a, b, out);
      Kept(rt, SignTest(n, bin, a, b), out, mid);
      out' := Judged(rt, t, SignTest(n, bin, a, b), n, n + 6, ty, op, a, b, vals, out, mid);
    } else {
      out' := CarryRuns(rt, t, op, a, b, vals, out);
    }
  }

  lemma AskedAnswers(rt: Runtime, sp: Word, a: Word, b: Word)
    requires MulHost(rt)
    ensures rt("jacl_i64_mul_ovf", [sp, a, b]) == Flag(!InTy(TI64, NumOf(TI64, a) * NumOf(TI64, b)))
    ensures rt("jacl_u64_mul_ovf", [sp, a, b]) == Flag(!InTy(TU64, NumOf(TU64, a) * NumOf(TU64, b)))
  {
  }

  // ---- trees ----

  predicate Proper(ty: Ty, c: Option<int>) {
    c.Some? ==> InTy(ty, c.val)
  }

  lemma CombineProper(ty: Ty, op: Op, x: int, y: int)
    ensures Proper(ty, Combine(ty, op, x, y))
  {
    if Wraps(op) {
      WordOfNum(ty, Cut(Plain(op, x, y), Mod(ty)));
    }
  }

  lemma RawProper(ty: Ty, w: Word)
    ensures InTy(ty, NumOf(ty, w)) && Cut(NumOf(ty, w), Mod(ty)) == Cut(w, Mod(ty))
  {
    WordOfNum(ty, Cut(w, Mod(ty)));
    CutSmall(Cut(w, Mod(ty)), Mod(ty));
  }

  /** What lowering a tree gives: an exact word with the sticky bit as it was, or the sticky bit set. */
  ghost predicate TreeGives(rt: Runtime, ty: Ty, c: Option<int>, before: Word, vals: seq<Word>, out: seq<Word>, r: (Tape, nat),
                            out': seq<Word>) {
    && Taped(rt, r.0, vals, out') && out <= out' && r.1 < |out'| && r.0.ovf < |out'|
    && Answer(ty, c, before, out'[r.1], out'[r.0.ovf]) && Proper(ty, c)
  }

  lemma LitRuns(rt: Runtime, t: Tape, ty: Ty, k: int, vals: seq<Word>, out: seq<Word>) returns (out': seq<Word>)
    requires Taped(rt, t, vals, out) && InTy(ty, k)
    ensures t.ovf < |out| && TreeGives(rt, ty, Some(k), out[t.ovf], vals, out, (More(t, [Const(ty, k)]), Next(t)), out')
  {
    TapeSize(rt, t, vals, out);
    var w: Word := Cut(k, Mod(ty));
    OneInst(rt, Const(ty, k), out, w);
    out' := out + [w];
    TapeMore(rt, t, vals, out, [Const(ty, k)], out');
    hide Taped;
  }

  lemma RawRuns(rt: Runtime, t: Tape, sp: nat, ty: Ty, id: nat, vals: seq<Word>, out: seq<Word>) returns (out': seq<Word>)
    requires Taped(rt, t, vals, out) && id < |vals|
    ensures t.ovf < |out|
    ensures TreeGives(rt, ty, Some(NumOf(ty, vals[id])), out[t.ovf], vals, out, EmitTree(t, sp, ty, Raw(id)), out')
  {
    TapeSize(rt, t, vals, out);
    RawProper(ty, vals[id]);
    if Is32(ty) {
      var w := Converted(WRAP_I64, vals[id]);
      OneInst(rt, Convert(WRAP_I64, id), out, w);
      out' := out + [w];
      TapeMore(rt, t, vals, out, [Convert(WRAP_I64, id)], out');
    } else {
      Cut64(vals[id]);
      out' := out;
    }
    hide Taped;
  }

  /** Lowering a typed tree: the sticky bit rises exactly when exact evaluation divides by zero or
      leaves the type at an operator that does not wrap; otherwise the word is the exact result. */
  lemma {:induction false} TreeRuns(rt: Runtime, t: Tape, sp: nat, ty: Ty, e: Tree, vals: seq<Word>, out: seq<Word>)
    returns (out': seq<Word>)
    requires Taped(rt, t, vals, out) && Fit(ty, e, |vals|) && NoNegation(e) && sp < |vals| && MulHost(rt)
    ensures t.ovf < |out|
    ensures TreeGives(rt, ty, Exact(ty, e, vals), out[t.ovf], vals, out, EmitTree(t, sp, ty, e), out')
    decreases e
  {
    TapeSize(rt, t, vals, out);
    match e
    case Lit(k) => out' := LitRuns(rt, t, ty, k, vals, out);
    case Raw(id) => out' := RawRuns(rt, t, sp, ty, id, vals, out);
    case Node(op, first, rest) =>
      hide Taped, Answer, Proper, EmitOp, MulHost, Combine, NumOf;
      var a := EmitTree(t, sp, ty, first);
      var mid := TreeRuns(rt, t, sp, ty, first, vals, out);
      out' := FoldRuns(rt, a.0, sp, ty, op, a.1, Exact(ty, first, vals), out[t.ovf], rest, vals, mid);
  }

  lemma {:induction false} FoldRuns(rt: Runtime, t: Tape, sp: nat, ty: Ty, op: Op, acc: nat, c: Option<int>, before: Word,
                                    rest: Trees, vals: seq<Word>, out: seq<Word>) returns (out': seq<Word>)
    requires Taped(rt, t, vals, out) && FitAll(ty, rest, |vals|) && NoNegations(rest) && sp < |vals| && MulHost(rt)
    requires TreeGives(rt, ty, c, before, vals, out, (t, acc), out) && before <= 1
    ensures TreeGives(rt, ty, ExactFold(ty, op, c, rest, vals), before, vals, out, EmitFold(t, sp, ty, op, acc, rest), out')
    decreases rest
  {
    hide Taped, Proper, EmitOp, MulHost, Combine, NumOf, Answer, EmitTree, Fit, NoNegation;
    match rest
    case NoTrees => out' := out;
    case MoreTrees(e, more) =>
      TapeSize(rt, t, vals, out);
      var b := EmitTree(t, sp, ty, e);
      var y := Exact(ty, e, vals);
      var mid := TreeRuns(rt, t, sp, ty, e, vals, out);
      var r := EmitOp(b.0, sp, ty, op, acc, b.1);
      Words(ty, c, before, out[acc], out[t.ovf]);
      Words(ty, y, out[t.ovf], mid[b.1], mid[b.0.ovf]);
      var end := OpRuns(rt, b.0, sp, ty, op, acc, b.1, vals, mid);
      TapeSize(rt, r.0, vals, end);
      Joined(ty, op, c, y, before, out[acc], out[t.ovf], mid[b.1], mid[b.0.ovf], end[r.1], end[r.0.ovf]);
      out' := FoldRuns(rt, r.0, sp, ty, op, r.1, Both(ty, op, c, y), before, more, vals, end);
  }

  lemma Words(ty: Ty, c: Option<int>, before: Word, w: Word, after: Word)
    requires Answer(ty, c, before, w, after)
    ensures w < Mod(ty) && after <= 1
  {
  }

  /** Accumulator, operand and operator: the three answers make one. */
  lemma Joined(ty: Ty, op: Op, c: Option<int>, y: Option<int>, before: Word, x: Word, f0: Word, z: Word, f1: Word, w: Word, f2: Word)
    requires Answer(ty, c, before, x, f0) && Answer(ty, y, f0, z, f1) && Proper(ty, c) && Proper(ty, y)
    requires Answer(ty, Combine(ty, op, NumOf(ty, x), NumOf(ty, z)), f1, w, f2)
    ensures Answer(ty, Both(ty, op, c, y), before, w, f2) && Proper(ty, Both(ty, op, c, y))
  {
    if c.Some? && y.Some? {
      NumOfWord(ty, c.val);
      NumOfWord(ty, y.val);
      CombineProper(ty, op, c.val, y.val);
    }
    hide Combine, NumOf, Cut;
  }
}
