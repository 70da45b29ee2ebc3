/** Whole typed trees (codegen/codegen.c): what a tree with one-operand minuses is lowered to, and what
    happens to the sticky bit at the root, boxed or raw. */
module TypedRoots {
  import opened Bits
  import opened WordArith
  import opened Ir
  import opened Source
  import opened LoweringRuns
  import opened LoweringSteps
  import T = TypedArith
  import RawReturn
  import Lowering
  import BigInt
  import DynInt
  import Limbs
  import LongDivision

  type Ty = T.Ty
  type Tree = T.Tree
  type Tape = T.Tape

  // ---- a single operand of - ----

  /** The tree without its one-operand minuses. */
  function Strip(e: Tree): Tree
    decreases e
  {
    match e
    case Node(op, first, rest) =>
      if op == T.Sub && rest == T.NoTrees then Strip(first) else T.Node(op, Strip(first), StripAll(rest))
    case _ => e
  }

  function StripAll(es: T.Trees): T.Trees
    decreases es
  {
    match es
    case NoTrees => T.NoTrees
    case MoreTrees(e, rest) => T.MoreTrees(Strip(e), StripAll(rest))
  }

  lemma {:induction false} Stripped(e: Tree, ty: Ty, n: nat)
    requires T.Fit(ty, e, n)
    ensures T.NoNegation(Strip(e)) && T.Fit(ty, Strip(e), n)
    decreases e
  {
    if e.Node? {
      Stripped(e.first, ty, n);
      StrippedAll(e.rest, ty, n);
    }
  }

  lemma {:induction false} StrippedAll(es: T.Trees, ty: Ty, n: nat)
    requires T.FitAll(ty, es, n)
    ensures T.NoNegations(StripAll(es)) && T.FitAll(ty, StripAll(es), n)
    decreases es
  {
    if es.MoreTrees? {
      Stripped(es.t, ty, n);
      StrippedAll(es.rest, ty, n);
    }
  }

  lemma {:induction false} StripFixed(e: Tree)
    requires T.NoNegation(e)
    ensures Strip(e) == e
    decreases e
  {
    if e.Node? {
      StripFixed(e.first);
      StripAllFixed(e.rest);
    }
  }

  lemma {:induction false} StripAllFixed(es: T.Trees)
    requires T.NoNegations(es)
    ensures StripAll(es) == es
    decreases es
  {
    if es.MoreTrees? {
      StripFixed(es.t);
      StripAllFixed(es.rest);
    }
  }

  /** Lowering does not see a one-operand minus, anywhere in a tree. */
  lemma {:induction false} NegationsAreDropped(t: Tape, sp: nat, ty: Ty, e: Tree)
    ensures T.EmitTree(t, sp, ty, e) == T.EmitTree(t, sp, ty, Strip(e))
    decreases e
  {
    if e.Node? {
      NegationsAreDropped(t, sp, ty, e.first);
      var a := T.EmitTree(t, sp, ty, e.first);
      FoldDropped(a.0, sp, ty, e.op, a.1, e.rest);
    }
  }

  lemma {:induction false} FoldDropped(t: Tape, sp: nat, ty: Ty, op: T.Op, acc: nat, es: T.Trees)
    ensures T.EmitFold(t, sp, ty, op, acc, es) == T.EmitFold(t, sp, ty, op, acc, StripAll(es))
    decreases es
  {
    hide T.EmitOp;
    if es.MoreTrees? {
      NegationsAreDropped(t, sp, ty, es.t);
      var b := T.EmitTree(t, sp, ty, es.t);
      var r := T.EmitOp(b.0, sp, ty, op, acc, b.1);
      FoldDropped(r.0, sp, ty, op, r.1, es.rest);
    }
  }

  /** Every typed tree computes, exactly or with the sticky bit, what the tree without its one-operand
      minuses means. */
  lemma AnyTreeRuns(rt: Runtime, t: Tape, sp: nat, ty: Ty, e: Tree, vals: seq<Word>, out: seq<Word>)
    returns (out': seq<Word>)
    requires T.Taped(rt, t, vals, out) && T.Fit(ty, e, |vals|) && sp < |vals| && T.MulHost(rt)
    ensures t.ovf < |out|
    ensures T.TreeGives(rt, ty, T.Exact(ty, Strip(e), vals), out[t.ovf], vals, out, T.EmitTree(t, sp, ty, e), out')
  {
    hide T.Taped, T.TreeGives, T.Exact, T.MulHost;
    Stripped(e, ty, |vals|);
    NegationsAreDropped(t, sp, ty, e);
    out' := T.TreeRuns(rt, t, sp, ty, Strip(e), vals, out);
  }

  lemma {:induction false} ExactProper(ty: Ty, e: Tree, vals: seq<Word>)
    requires T.Fit(ty, e, |vals|)
    ensures T.Proper(ty, T.Exact(ty, e, vals))
    decreases e
  {
    hide T.Combine, T.NumOf, T.InTy;
    match e
    case Lit(k) => LitProper(ty, k, vals);
    case Raw(id) => T.RawProper(ty, vals[id]);
    case Node(op, first, rest) =>
      ExactProper(ty, first, vals);
      var x := T.Exact(ty, first, vals);
      if op == T.Sub && rest == T.NoTrees {
        if x.Some? {
          T.CombineProper(ty, T.Sub, 0, x.val);
        }
      } else {
        FoldProper(ty, op, x, rest, vals);
      }
  }

  lemma LitProper(ty: Ty, k: int, vals: seq<Word>)
    requires T.InTy(ty, k)
    ensures T.Proper(ty, T.Exact(ty, T.Lit(k), vals))
  {
  }

  lemma {:induction false} FoldProper(ty: Ty, op: T.Op, c: T.Option<int>, es: T.Trees, vals: seq<Word>)
    requires T.FitAll(ty, es, |vals|) && T.Proper(ty, c)
    ensures T.Proper(ty, T.ExactFold(ty, op, c, es, vals))
    decreases es
  {
    hide T.Combine, T.InTy;
    if es.MoreTrees? {
      var y := T.Exact(ty, es.t, vals);
      ExactProper(ty, es.t, vals);
      if c.Some? && y.Some? {
        T.CombineProper(ty, op, c.val, y.val);
      }
      FoldProper(ty, op, T.Both(ty, op, c, y), es.rest, vals);
    }
  }

  /** A word and a sticky bit answer for one outcome only. */
  lemma OneAnswer(ty: Ty, c: T.Option<int>, d: T.Option<int>, w: Word, f: Word)
    requires T.Proper(ty, c) && T.Proper(ty, d) && T.Answer(ty, c, 0, w, f)
    ensures T.Answer(ty, d, 0, w, f) <==> c == d
  {
    if c.Some? && d.Some? {
      T.NumOfWord(ty, c.val);
      T.NumOfWord(ty, d.val);
    }
    hide T.NumOf, Cut;
  }

  /** Where lowering is right: exactly when the minuses it drops do not matter to the tree's exact meaning
      on these operands. A tree without them is always right. */
  lemma RightExactlyWhen(rt: Runtime, t: Tape, sp: nat, ty: Ty, e: Tree, vals: seq<Word>, out: seq<Word>)
    returns (out': seq<Word>)
    requires T.Taped(rt, t, vals, out) && T.Fit(ty, e, |vals|) && sp < |vals| && T.MulHost(rt)
    requires t.ovf < |out| && out[t.ovf] == 0
    ensures var r := T.EmitTree(t, sp, ty, e);
      && T.Taped(rt, r.0, vals, out') && r.1 < |out'| && r.0.ovf < |out'|
      && (T.Answer(ty, T.Exact(ty, e, vals), 0, out'[r.1], out'[r.0.ovf])
          <==> T.Exact(ty, e, vals) == T.Exact(ty, Strip(e), vals))
    ensures T.NoNegation(e) ==> Strip(e) == e
  {
    hide T.Taped, T.Exact, T.MulHost, T.Proper, T.Answer, T.EmitTree;
    out' := AnyTreeRuns(rt, t, sp, ty, e, vals, out);
    Stripped(e, ty, |vals|);
    ExactProper(ty, e, vals);
    ExactProper(ty, Strip(e), vals);
    var r := T.EmitTree(t, sp, ty, e);
    OneAnswer(ty, T.Exact(ty, Strip(e), vals), T.Exact(ty, e, vals), out'[r.1], out'[r.0.ovf]);
    if T.NoNegation(e) {
      StripFixed(e);
    }
  }

  /** `[- 5]` inside a typed tree is lowered as 5. */
  lemma NegationIsLost(t: Tape, sp: nat)
    ensures var e := T.Node(T.Sub, T.Lit(5), T.NoTrees);
      && T.Exact(T.TI32, e, []) == T.Some(-5) && T.EmitTree(t, sp, T.TI32, e) == T.EmitTree(t, sp, T.TI32, T.Lit(5))
  {
    assert T.Combine(T.TI32, T.Sub, 0, 5) == T.Some(-5);
  }

  /** `[+ n [- 5]]` is wrong for every n: it never means what it is lowered to. */
  lemma NestedNegationIsLost(w: Word)
    ensures var e := T.Node(T.Add, T.Raw(0), T.MoreTrees(T.Node(T.Sub, T.Lit(5), T.NoTrees), T.NoTrees));
      T.Exact(T.TI32, e, [w]) != T.Exact(T.TI32, Strip(e), [w])
  {
    var minus := T.Node(T.Sub, T.Lit(5), T.NoTrees);
    var n := T.NumOf(T.TI32, w);
    T.RawProper(T.TI32, w);
    hide T.NumOf;
    assert T.Exact(T.TI32, minus, [w]) == T.Some(-5) by {
      assert T.Combine(T.TI32, T.Sub, 0, 5) == T.Some(-5);
    }
    assert Strip(minus) == T.Lit(5);
    AddOne(T.TI32, n, minus, -5, [w]);
    AddOne(T.TI32, n, T.Lit(5), 5, [w]);
  }

  lemma AddOne(ty: Ty, n: int, e: Tree, k: int, vals: seq<Word>)
    requires |vals| == 1 && T.NumOf(ty, vals[0]) == n && T.Exact(ty, e, vals) == T.Some(k)
    ensures T.Exact(ty, T.Node(T.Add, T.Raw(0), T.MoreTrees(e, T.NoTrees)), vals) == T.Combine(ty, T.Add, n, k)
  {
    hide T.NumOf, T.Combine;
    assert T.Exact(ty, T.Raw(0), vals) == T.Some(n);
    assert T.ExactFold(ty, T.Add, T.Combine(ty, T.Add, n, k), T.NoTrees, vals) == T.Combine(ty, T.Add, n, k);
  }

  /** At the root, it is right exactly when the operand is zero or fails by itself. */
  lemma RootNegation(ty: Ty, e: Tree, vals: seq<Word>)
    requires T.Fit(ty, e, |vals|) && T.NoNegation(e)
    ensures var neg := T.Node(T.Sub, e, T.NoTrees);
      T.Exact(ty, neg, vals) == T.Exact(ty, Strip(neg), vals)
      <==> T.Exact(ty, e, vals).None? || T.Exact(ty, e, vals).val == 0
  {
    StripFixed(e);
    ExactProper(ty, e, vals);
    var x := T.Exact(ty, e, vals);
    assert T.Exact(ty, T.Node(T.Sub, e, T.NoTrees), vals) == if x.None? then x else T.Combine(ty, T.Sub, 0, x.val);
  }

  // ---- the sticky bit at the root ----

  /** Everything up to the root, from an empty tape: the word and the sticky bit. */
  function RootTree(base: nat, sp: nat, ty: Ty, e: Tree): (Tape, nat) {
    T.EmitTree(T.Tape(base, [ConstI64(0)], base), sp, ty, e)
  }

  lemma RootRuns(rt: Runtime, sp: nat, ty: Ty, e: Tree, vals: seq<Word>) returns (out: seq<Word>)
    requires T.Fit(ty, e, |vals|) && sp < |vals| && T.MulHost(rt)
    ensures var r, c := RootTree(|vals|, sp, ty, e), T.Exact(ty, Strip(e), vals);
      && Straight(rt, r.0.code, vals, out) && |out| == T.Next(r.0) && vals <= out && r.1 < |out| && r.0.ovf < |out|
      && out[r.0.ovf] == Flag(c.None?) && out[r.1] < T.Mod(ty)
      && (c.Some? ==> out[r.1] == Cut(c.val, T.Mod(ty)) && T.InTy(ty, c.val))
  {
    hide T.Exact, T.MulHost, T.EmitTree, T.Fit, T.InTy, Cut, Straight;
    Cut64(0);
    T.OneInst(rt, ConstI64(0), vals, 0);
    var start := vals + [0];
    var t := T.Tape(|vals|, [ConstI64(0)], |vals|);
    assert T.Taped(rt, t, vals, start);
    out := AnyTreeRuns(rt, t, sp, ty, e, vals, start);
    T.TapeSize(rt, T.EmitTree(t, sp, ty, e).0, vals, out);
  }

  // ---- boxed roots ----

  /** The box of a raw word of the width, from value id n on: its last instruction's value. */
  function BoxInsts(n: nat, sp: nat, ty: Ty, v: nat): seq<Inst> {
    match ty
    case TI32 => [Convert(EXTEND_I32U, v), ConstI64(TAG_I32), IntBin(I64, OR, n, n + 1)]
    case TU32 => [Convert(EXTEND_I32U, v), ConstI32(0), CallImport("jacl_i64_box", n + 1, [sp, n])]
    case TU64 => [ConstI32(0), CallImport("jacl_u64_box", n, [sp, v])]
    case TI64 => [ConstI32(0), CallImport("jacl_i64_box", n, [sp, v])]
  }

  /** The sticky bit, shifted to the error flag and joined. */
  function FlagInsts(n: nat, ovf: nat, boxed: nat): (r: seq<Inst>)
    ensures |r| == 3
  {
    [ConstI64(61), IntBin(I64, SHL, ovf, n), IntBin(I64, OR, boxed, n + 1)]
  }

  /** `compile_i32_tree` and `compile_uint_tree` with their checked boxing. */
  function BoxedCode(base: nat, sp: nat, ty: Ty, e: Tree): seq<Inst> {
    var r := RootTree(base, sp, ty, e);
    var b := BoxInsts(T.Next(r.0), sp, ty, r.1);
    r.0.code + b + FlagInsts(T.Next(r.0) + |b|, r.0.ovf, T.Next(r.0) + |b| - 1)
  }

  function BoxOf(rt: Runtime, ty: Ty, sp: Word, w: Word): Word
    requires w < T.Mod(ty)
  {
    match ty
    case TI32 => TAG_I32 + w
    case TU64 => rt("jacl_u64_box", [sp, w])
    case _ => rt("jacl_i64_box", [sp, w])
  }

  lemma BoxInstsRun(rt: Runtime, sp: nat, ty: Ty, v: nat, vals: seq<Word>) returns (out: seq<Word>)
    requires v < |vals| && sp < |vals| && vals[v] < T.Mod(ty)
    ensures var b := BoxInsts(|vals|, sp, ty, v);
      && |b| > 0 && Straight(rt, b, vals, out) && |out| == |vals| + |b| && vals <= out
      && out[|out| - 1] == BoxOf(rt, ty, vals[sp], vals[v])
  {
    var n, w := |vals|, vals[v];
    if ty == T.TI32 {
      BoxSmallRun(rt, v, vals);
      out := vals + [w, TAG_I32, TAG_I32 + w];
    } else if ty == T.TU32 {
      CutSmall(w, W32);
      T.OneInst(rt, Convert(EXTEND_I32U, v), vals, w);
      var mid := vals + [w];
      out := CallStraight(rt, "jacl_i64_box", [sp, n], mid);
      assert Pick(mid, [sp, n]) == [vals[sp], w];
      hide Straight;
      var call := Lowering.CallInsts(n + 1, "jacl_i64_box", [sp, n]);
      T.Kept(rt, call, mid, out);
      StraightThen(rt, [Convert(EXTEND_I32U, v)], call, vals, mid, out);
      assert [Convert(EXTEND_I32U, v)] + call == BoxInsts(n, sp, ty, v);
    } else {
      var fn := if ty == T.TU64 then "jacl_u64_box" else "jacl_i64_box";
      out := CallStraight(rt, fn, [sp, v], vals);
      assert Pick(vals, [sp, v]) == [vals[sp], w];
      T.Kept(rt, Lowering.CallInsts(n, fn, [sp, v]), vals, out);
    }
  }

  lemma BoxSmallRun(rt: Runtime, v: nat, vals: seq<Word>)
    requires v < |vals| && vals[v] < W32
    ensures Straight(rt, BoxInsts(|vals|, 0, T.TI32, v), vals, vals + [vals[v], TAG_I32, TAG_I32 + vals[v]])
  {
    hide BinValue, BinTraps, Cut, Converted;
    var n, w := |vals|, vals[v];
    var out := vals + [w, TAG_I32, TAG_I32 + w];
    TagValue(w, 2);
    T.AllSafe(I64);
    Cut64(TAG_I32);
    var code := BoxInsts(n, 0, T.TI32, v);
    forall j | 0 <= j < 3
      ensures Computes(rt, code[j], out, n + j)
    {
    }
  }

  lemma FlagInstsRun(rt: Runtime, ovf: nat, boxed: nat, vals: seq<Word>) returns (out: seq<Word>)
    requires ovf < |vals| && boxed < |vals| && vals[ovf] <= 1
    ensures Straight(rt, FlagInsts(|vals|, ovf, boxed), vals, out) && |out| == |vals| + 3
    ensures out[|vals| + 2] == if vals[ovf] == 1 then Or(vals[boxed], FLAG_ERROR) else vals[boxed]
  {
    hide BinTraps, Or, Cut;
    var n, f, x := |vals|, vals[ovf], vals[boxed];
    var bit: Word := f * FLAG_ERROR;
    ShiftFlag(f);
    OrValue(x, bit);
    T.AllSafe(I64);
    Cut64(61);
    hide BinValue;
    out := vals + [61, bit, Or(x, bit)];
    var code := FlagInsts(n, ovf, boxed);
    forall j | 0 <= j < 3
      ensures Computes(rt, code[j], out, n + j)
    {
    }
    WithNothing(x);
  }

  lemma WithNothing(x: Word)
    ensures Or(x, 0) == x
  {
    Symmetric(OrOp, x, 0);
    WithZero(x);
  }

  lemma ShiftFlag(f: Word)
    requires f <= 1
    ensures BinValue(I64, SHL, f, 61) == f * FLAG_ERROR
  {
    hide Bitwise, Up, Cut;
    UpValues(1);
    UpValues(f);
    UpValues(0);
    Cut64(f);
    Cut64(61);
    CutSmall(61, 64);
    Cut64(f * FLAG_ERROR);
  }

  /** A boxed tree is the box of its exact result, or, where there is none of this type, a word with the
      error flag. */
  lemma BoxedRuns(rt: Runtime, sp: nat, ty: Ty, e: Tree, vals: seq<Word>) returns (out: seq<Word>)
    requires T.Fit(ty, e, |vals|) && sp < |vals| && T.MulHost(rt)
    ensures Straight(rt, BoxedCode(|vals|, sp, ty, e), vals, out) && |out| > 0
    ensures match T.Exact(ty, Strip(e), vals)
      case Some(n) => Cut(n, T.Mod(ty)) < T.Mod(ty) && out[|out| - 1] == BoxOf(rt, ty, vals[sp], Cut(n, T.Mod(ty)))
      case None => IsError(out[|out| - 1])
  {
    hide T.Exact, T.MulHost, T.Fit, RootTree, BoxInsts, FlagInsts, BoxOf, Straight, Cut, Or, T.InTy;
    var r := RootTree(|vals|, sp, ty, e);
    var o1 := RootRuns(rt, sp, ty, e, vals);
    var o2 := BoxInstsRun(rt, sp, ty, r.1, o1);
    var b := BoxInsts(|o1|, sp, ty, r.1);
    out := FlagInstsRun(rt, r.0.ovf, |o2| - 1, o2);
    StraightThen(rt, r.0.code, b, vals, o1, o2);
    StraightThen(rt, r.0.code + b, FlagInsts(|o2|, r.0.ovf, |o2| - 1), vals, o2, out);
    ErrorAfterOr(o2[|o2| - 1]);
  }

  lemma ErrorAfterOr(w: Word)
    ensures IsError(Or(w, FLAG_ERROR))
  {
    var low, high := w % FLAG_ERROR, w / FLAG_ERROR;
    hide Or, Bitwise;
    RawReturn.SetBit(high);
    RawReturn.OrTop(w);
    Bits.Quotient(Or(w, FLAG_ERROR), FLAG_ERROR, low, Bitwise(OrOp, high, 1));
  }

  // ---- comparisons ----

  /** `typed_cmp_op`. */
  function CmpFor(ty: Ty, c: DynInt.CmpOp): CmpOp {
    match c
    case Lt => if T.IsSigned(ty) then LT_S else LT_U
    case Le => if T.IsSigned(ty) then LE_S else LE_U
    case Gt => if T.IsSigned(ty) then GT_S else GT_U
    case Ge => if T.IsSigned(ty) then GE_S else GE_U
    case Eq => EQ
    case Ne => NE
  }

  /** Two trees on one tape: the tape and both words. */
  function BothTrees(base: nat, sp: nat, ty: Ty, a: Tree, b: Tree): (Tape, nat, nat) {
    var x := RootTree(base, sp, ty, a);
    var y := T.EmitTree(x.0, sp, ty, b);
    (y.0, x.1, y.1)
  }

  /** A comparison's result, as a boolean word. */
  function BoolInsts(n: nat, m: IntType, op: CmpOp, x: nat, y: nat): (r: seq<Inst>)
    ensures |r| == 4
  {
    [IntCmp(m, op, x, y), Convert(EXTEND_I32U, n), ConstI64(WORD_FALSE), IntBin(I64, OR, n + 1, n + 2)]
  }

  /** `compile_typed_cmp` on operands that stay in the block. */
  function CmpCode(base: nat, sp: nat, ty: Ty, c: DynInt.CmpOp, a: Tree, b: Tree): seq<Inst> {
    var r := BothTrees(base, sp, ty, a, b);
    var n := T.Next(r.0);
    r.0.code + BoolInsts(n, T.Machine(ty), CmpFor(ty, c), r.1, r.2) + FlagInsts(n + 4, r.0.ovf, n + 3)
  }

  lemma BothRun(rt: Runtime, sp: nat, ty: Ty, a: Tree, b: Tree, vals: seq<Word>) returns (out: seq<Word>)
    requires T.Fit(ty, a, |vals|) && T.Fit(ty, b, |vals|) && sp < |vals| && T.MulHost(rt)
    ensures var r := BothTrees(|vals|, sp, ty, a, b);
      var (c, d) := (T.Exact(ty, Strip(a), vals), T.Exact(ty, Strip(b), vals));
      && Straight(rt, r.0.code, vals, out) && |out| == T.Next(r.0) && r.1 < |out| && r.2 < |out| && r.0.ovf < |out|
      && out[r.0.ovf] == Flag(c.None? || d.None?) && out[r.1] < T.Mod(ty) && out[r.2] < T.Mod(ty)
      && (c.Some? ==> out[r.1] == Cut(c.val, T.Mod(ty)) && T.InTy(ty, c.val))
      && (d.Some? ==> out[r.2] == Cut(d.val, T.Mod(ty)) && T.InTy(ty, d.val))
  {
    hide T.Exact, T.MulHost, T.EmitTree, T.Fit, T.InTy, Cut, Straight;
    Cut64(0);
    T.OneInst(rt, ConstI64(0), vals, 0);
    var start := vals + [0];
    var t := T.Tape(|vals|, [ConstI64(0)], |vals|);
    assert T.Taped(rt, t, vals, start);
    var mid := AnyTreeRuns(rt, t, sp, ty, a, vals, start);
    var x := T.EmitTree(t, sp, ty, a);
    T.TapeSize(rt, x.0, vals, mid);
    out := AnyTreeRuns(rt, x.0, sp, ty, b, vals, mid);
    T.TapeSize(rt, T.EmitTree(x.0, sp, ty, b).0, vals, out);
  }

  /** The machine's comparison of two words of a type is that of their numbers. */
  lemma ComparesNumbers(ty: Ty, c: DynInt.CmpOp, x: int, y: int)
    requires T.InTy(ty, x) && T.InTy(ty, y)
    ensures CmpHolds(T.Machine(ty), CmpFor(ty, c), Cut(x, T.Mod(ty)), Cut(y, T.Mod(ty))) <==> DynInt.Holds(c, x, y)
  {
    var m := T.Mod(ty);
    CutSmall(Cut(x, m), m);
    CutSmall(Cut(y, m), m);
    if T.IsSigned(ty) {
      SignedOfCut(x, m);
      SignedOfCut(y, m);
    } else {
      CutSmall(x, m);
      CutSmall(y, m);
    }
    hide Cut, AsSigned;
  }

  lemma BoolInstsRun(rt: Runtime, m: IntType, op: CmpOp, x: nat, y: nat, vals: seq<Word>) returns (out: seq<Word>)
    requires x < |vals| && y < |vals|
    ensures Straight(rt, BoolInsts(|vals|, m, op, x, y), vals, out) && |out| == |vals| + 4 && vals <= out
    ensures out[|vals| + 3] == BoolWord(CmpHolds(m, op, vals[x], vals[y]))
  {
    hide BinValue, BinTraps, Cut, Converted, CmpHolds;
    var n, b := |vals|, CmpHolds(m, op, vals[x], vals[y]);
    TagValue(Flag(b), 1);
    BoolFlag(b);
    T.AllSafe(I64);
    Cut64(WORD_FALSE);
    out := vals + [Flag(b), Flag(b), WORD_FALSE, BoolWord(b)];
    var code := BoolInsts(n, m, op, x, y);
    forall j | 0 <= j < 4
      ensures Computes(rt, code[j], out, n + j)
    {
    }
  }

  /** A typed comparison is the boolean of the exact operands' order, or, where an operand has no exact value of
      the type, a word with the error flag. The operands lose their one-operand minuses like any tree. */
  lemma ComparisonRuns(rt: Runtime, sp: nat, ty: Ty, c: DynInt.CmpOp, a: Tree, b: Tree, vals: seq<Word>)
    returns (out: seq<Word>)
    requires T.Fit(ty, a, |vals|) && T.Fit(ty, b, |vals|) && sp < |vals| && T.MulHost(rt)
    ensures Straight(rt, CmpCode(|vals|, sp, ty, c, a, b), vals, out) && |out| > 0
    ensures var (x, y) := (T.Exact(ty, Strip(a), vals), T.Exact(ty, Strip(b), vals));
      if x.Some? && y.Some? then out[|out| - 1] == BoolWord(DynInt.Holds(c, x.val, y.val)) else IsError(out[|out| - 1])
  {
    hide T.Exact, T.MulHost, T.Fit, BothTrees, BoolInsts, FlagInsts, Straight, Cut, Or, T.InTy, CmpHolds, DynInt.Holds;
    var r := BothTrees(|vals|, sp, ty, a, b);
    var o1 := BothRun(rt, sp, ty, a, b, vals);
    var m, op := T.Machine(ty), CmpFor(ty, c);
    var o2 := BoolInstsRun(rt, m, op, r.1, r.2, o1);
    out := FlagInstsRun(rt, r.0.ovf, |o2| - 1, o2);
    StraightThen(rt, r.0.code, BoolInsts(|o1|, m, op, r.1, r.2), vals, o1, o2);
    StraightThen(rt, r.0.code + BoolInsts(|o1|, m, op, r.1, r.2), FlagInsts(|o2|, r.0.ovf, |o2| - 1), vals, o2, out);
    ErrorAfterOr(o2[|o2| - 1]);
    var x, y := T.Exact(ty, Strip(a), vals), T.Exact(ty, Strip(b), vals);
    if x.Some? && y.Some? {
      ComparesNumbers(ty, c, x.val, y.val);
    }
  }

  // ---- a one-operand minus at a boxed root ----

  /** The value is what a typed result should be: the canonical number, or an error. */
  predicate IsResult(r: BigInt.Value, c: T.Option<int>) {
    match c
    case Some(n) => r == BigInt.Plain(r.payload) && BigInt.Canonical(r.payload) && BigInt.IntOf(r.payload) == n
    case None => r.error
  }

  /** The typed meaning of a minus with one operand. */
  function Negated(ty: Ty, c: T.Option<int>): T.Option<int> {
    if c.None? then c else T.Combine(ty, T.Sub, 0, c.val)
  }

  /** `[- x]` as a boxed value does not reach the typed lowering: it is the runtime's 0 - x. */
  method NegateBoxed(x: BigInt.Value) returns (r: BigInt.Value)
    requires DynInt.Good(x)
    ensures if x.error then r == x
            else if BigInt.IsInt(x.payload) then DynInt.ExactFrom(r, -BigInt.IntOf(x.payload), ZERO, x)
            else r == BigInt.Value(BigInt.Nil, true, false, false)
  {
    r := DynInt.SubValues(ZERO, x);
  }

  const ZERO := BigInt.Plain(BigInt.Inline(0))

  /** That gives the typed meaning exactly when the operand failed or its negation is of the type; otherwise
      it is the negation itself, with no error flag. */
  lemma BoxedNegationExactlyWhen(ty: Ty, c: T.Option<int>, x: BigInt.Value, r: BigInt.Value)
    requires T.Proper(ty, c) && IsResult(x, c)
    requires if x.error then r == x else DynInt.ExactFrom(r, -BigInt.IntOf(x.payload), ZERO, x)
    ensures IsResult(r, Negated(ty, c)) <==> c.None? || T.InTy(ty, -c.val)
    ensures c.Some? ==> IsResult(r, T.Some(-c.val))
  {
    hide BigInt.Exact;
    if c.Some? {
      var e :| BigInt.Exact(e, -c.val) && r == BigInt.Value(e.payload, e.error, x.tainted, x.secret);
      SmallNumber(e, -c.val);
    }
  }

  lemma SmallNumber(e: BigInt.Value, n: int)
    requires BigInt.Exact(e, n) && -0x1_0000_0000_0000_0000 < n < 0x1_0000_0000_0000_0000
    ensures IsResult(e, T.Some(n))
  {
    BigInt.TwoLimbs();
    Limbs.ShiftLonger(2, LongDivision.JBIG_MAX_LIMBS);
  }

  /** The least i32 negated at a boxed root is 2^31, with no error flag. */
  lemma BoxedNegationEscapes(x: BigInt.Value, r: BigInt.Value)
    requires x == BigInt.Plain(BigInt.Inline(-0x8000_0000)) && DynInt.ExactFrom(r, 0x8000_0000, ZERO, x)
    ensures Negated(T.TI32, T.Some(-0x8000_0000)) == T.None && IsResult(r, T.Some(0x8000_0000)) && !r.error
  {
    BoxedNegationExactlyWhen(T.TI32, T.Some(-0x8000_0000), x, r);
  }

  // ---- raw roots ----

  /** `JACLVAL_FLAG_ERROR | JACL_TAG_I32_SHIFTED`. */
  const ROOT_ERROR: Word := 0x2200_0000_0000_0000

  /** The slot's form of a 32-bit word: sign- or zero-extended. */
  function SlotInsts(ty: Ty, v: nat): seq<Inst> {
    match ty
    case TI32 => [Convert(EXTEND_I32S, v)]
    case TU32 => [Convert(EXTEND_I32U, v)]
    case _ => []
  }

  function SlotId(ty: Ty, n: nat, v: nat): nat {
    if T.Is32(ty) then n else v
  }

  /** `compile_i64_tree`, `compile_i32_tree_raw`, `compile_uint_tree_raw`, up to the branch on the last but
      one value; the last is the error word. */
  function RawCode(base: nat, sp: nat, ty: Ty, e: Tree): seq<Inst> {
    var r := RootTree(base, sp, ty, e);
    var n := T.Next(r.0) + |SlotInsts(ty, r.1)|;
    r.0.code + SlotInsts(ty, r.1) + [ConstI64(0), IntCmp(I64, NE, r.0.ovf, n), ConstI64(ROOT_ERROR)]
  }

  function RawId(base: nat, sp: nat, ty: Ty, e: Tree): nat {
    var r := RootTree(base, sp, ty, e);
    SlotId(ty, T.Next(r.0), r.1)
  }

  lemma SlotRuns(rt: Runtime, ty: Ty, v: nat, c: int, vals: seq<Word>) returns (out: seq<Word>)
    requires v < |vals|
    ensures Straight(rt, SlotInsts(ty, v), vals, out) && SlotId(ty, |vals|, v) < |out|
    ensures vals[v] == Cut(c, T.Mod(ty)) && T.InTy(ty, c) ==> out[SlotId(ty, |vals|, v)] == Cut(c, W64)
  {
    match ty
    case TI32 =>
      var w := Converted(EXTEND_I32S, vals[v]);
      T.OneInst(rt, Convert(EXTEND_I32S, v), vals, w);
      out := vals + [w];
      if vals[v] == Cut(c, W32) && T.InTy(ty, c) {
        CutSmall(Cut(c, W32), W32);
        SignedOfCut(c, W32);
      }
    case TU32 =>
      var w := Converted(EXTEND_I32U, vals[v]);
      T.OneInst(rt, Convert(EXTEND_I32U, v), vals, w);
      out := vals + [w];
      if vals[v] == Cut(c, W32) && T.InTy(ty, c) {
        CutSmall(c, W32);
        CutSmall(c, W64);
      }
    case _ => out := vals;
  }

  lemma RawRuns(rt: Runtime, sp: nat, ty: Ty, e: Tree, vals: seq<Word>) returns (out: seq<Word>)
    requires T.Fit(ty, e, |vals|) && sp < |vals| && T.MulHost(rt)
    ensures Straight(rt, RawCode(|vals|, sp, ty, e), vals, out) && |out| > 2 && RawId(|vals|, sp, ty, e) < |out|
    ensures var c := T.Exact(ty, Strip(e), vals);
      && out[|out| - 2] == Flag(c.None?) && out[|out| - 1] == ROOT_ERROR
      && (c.Some? ==> out[RawId(|vals|, sp, ty, e)] == Cut(c.val, W64))
  {
    hide T.Exact, T.MulHost, T.Fit, RootTree, SlotInsts, Straight, Cut, T.InTy;
    var r, c := RootTree(|vals|, sp, ty, e), T.Exact(ty, Strip(e), vals);
    var o1 := RootRuns(rt, sp, ty, e, vals);
    var o2 := SlotRuns(rt, ty, r.1, if c.Some? then c.val else 0, o1);
    var s := SlotInsts(ty, r.1);
    T.Kept(rt, s, o1, o2);
    StraightThen(rt, r.0.code, s, vals, o1, o2);
    var tail := [ConstI64(0), IntCmp(I64, NE, r.0.ovf, |o2|), ConstI64(ROOT_ERROR)];
    out := TestRuns(rt, r.0.ovf, o2);
    StraightThen(rt, r.0.code + s, tail, vals, o2, out);
  }

  lemma TestRuns(rt: Runtime, ovf: nat, vals: seq<Word>) returns (out: seq<Word>)
    requires ovf < |vals| && vals[ovf] <= 1
    ensures Straight(rt, [ConstI64(0), IntCmp(I64, NE, ovf, |vals|), ConstI64(ROOT_ERROR)], vals, out)
    ensures out == vals + [0, vals[ovf], ROOT_ERROR]
  {
    hide Cut;
    var n, f := |vals|, vals[ovf];
    Cut64(0);
    Cut64(ROOT_ERROR);
    RawReturn.NotZero(f);
    hide CmpHolds;
    out := vals + [0, f, ROOT_ERROR];
    var code := [ConstI64(0), IntCmp(I64, NE, ovf, n), ConstI64(ROOT_ERROR)];
    forall j | 0 <= j < 3
      ensures Computes(rt, code[j], out, n + j)
    {
    }
  }

  /** A block whose instructions are straight-line runs to its end. */
  lemma {:induction false} BlockRuns(code: seq<Block>, rt: Runtime, b: nat, vals: seq<Word>, out: seq<Word>, j: nat)
    requires b < |code| && Straight(rt, code[b].insts, vals, out) && j <= |code[b].insts|
    ensures Reaches(code, rt, At(b, 0, vals), At(b, j, out[..|vals| + j]))
    decreases j
  {
    if j == 0 {
      assert out[..|vals|] == vals;
      Stay(code, rt, At(b, 0, vals));
    } else {
      BlockRuns(code, rt, b, vals, out, j - 1);
      var n := |vals| + j - 1;
      var i, c := code[b].insts[j - 1], At(b, j - 1, out[..n]);
      assert Computes(rt, i, out, n);
      ValuePrefix(rt, i, out, n);
      assert out[..n] + [out[n]] == out[..n + 1];
      OneStep(code, rt, c);
      Then(code, rt, At(b, 0, vals), c, At(b, j, out[..n + 1]));
    }
  }

  /** A raw root as control flow: where the tree has an exact value of its type the function goes on with that
      value in its slot's form, and otherwise it leaves by the error edge with the error word. */
  lemma RawRootBranches(code: seq<Block>, rt: Runtime, b: nat, sp: nat, ty: Ty, e: Tree, vals: seq<Word>,
                        bad: nat, badArgs: seq<nat>, good: nat, goodArgs: seq<nat>) returns (out: seq<Word>)
    requires T.Fit(ty, e, |vals|) && sp < |vals| && T.MulHost(rt) && b < |code|
    requires var insts := RawCode(|vals|, sp, ty, e); var n := |vals| + |insts|;
      && code[b] == Block(|vals|, insts, BrIf(n - 2, bad, badArgs, good, goodArgs))
      && EdgeOk(code, bad, badArgs, n) && EdgeOk(code, good, goodArgs, n)
    ensures |out| == |vals| + |RawCode(|vals|, sp, ty, e)| && vals <= out && |out| > 2 && RawId(|vals|, sp, ty, e) < |out|
    ensures match T.Exact(ty, Strip(e), vals)
      case Some(k) => && out[RawId(|vals|, sp, ty, e)] == Cut(k, W64)
                      && Reaches(code, rt, At(b, 0, vals), At(good, 0, Pick(out, goodArgs)))
      case None => && out[|out| - 1] == ROOT_ERROR == FLAG_ERROR + I32Word(0) && IsError(out[|out| - 1])
                   && Reaches(code, rt, At(b, 0, vals), At(bad, 0, Pick(out, badArgs)))
  {
    hide T.Exact, T.MulHost, T.Fit, RawCode, RawId;
    out := RawRuns(rt, sp, ty, e, vals);
    BlockRuns(code, rt, b, vals, out, |code[b].insts|);
    hide Straight;
    assert out[..|out|] == out;
    var c := At(b, |code[b].insts|, out);
    CutSmall(out[|out| - 2], W32);
    hide Cut;
    OneStep(code, rt, c);
    Then(code, rt, At(b, 0, vals), c, Step(code, rt, c));
  }
}
