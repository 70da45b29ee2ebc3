/** Lowering expressions to block-local SSA (codegen/codegen.c): what each compile function emits,
    as a function of the compile context. */
module Lowering {
  import opened Bits
  import opened Ir
  import opened Source

  const IRB_MAX_FRAME: nat := 256
  const CG_MAX_PARAMS: nat := 64

  /** A frame slot is a named local or an unnamed operand pin. */
  datatype Slot = Pin | Local(x: string, mutable: bool)

  /** The part of `Cx` that lowering moves: the code so far, the block being filled, and the value
      ids, in that block, of the stack pointer and of every slot. */
  datatype State = State(code: seq<Block>, cur: nat, sp: nat, slots: seq<Slot>, ids: seq<nat>, mark: nat)

  /** The loop and try targets, which lowering saves and restores. */
  datatype Targets = Targets(inLoop: bool, onContinue: nat, onBreak: nat, loopWidth: nat,
                             inTry: bool, onError: nat, tryWidth: nat)

  datatype Outcome = Fail | Ok(s: State, v: nat)

  // ---- emitting ----

  predicate Placed(s: State) {
    s.cur < |s.code|
  }

  predicate Sound(s: State) {
    Placed(s) && |s.slots| == |s.ids|
  }

  /** The targets' frames are prefixes of the current one. */
  predicate Reachable(k: Targets, w: nat) {
    (k.inLoop ==> 1 <= k.loopWidth <= w) && (k.inTry ==> 1 <= k.tryWidth <= w)
  }

  /** The next value id of the current block. */
  function Next(s: State): nat
    requires Placed(s)
  {
    s.code[s.cur].nparams + |s.code[s.cur].insts|
  }

  function Put(s: State, insts: seq<Inst>): (t: State)
    requires Placed(s)
    ensures Placed(t) && |t.code| == |s.code| && Next(t) == Next(s) + |insts|
    ensures t.cur == s.cur && t.sp == s.sp && t.slots == s.slots && t.ids == s.ids && t.mark == s.mark
  {
    s.(code := s.code[s.cur := s.code[s.cur].(insts := s.code[s.cur].insts + insts)])
  }

  function AddBlock(s: State, nparams: nat): State {
    s.(code := s.code + [Block(nparams, [], NoTerm)])
  }

  function SetTerm(s: State, t: Term): State
    requires Placed(s)
  {
    s.(code := s.code[s.cur := s.code[s.cur].(term := t)])
  }

  /** `enter_frame_block`: sp and every slot are the block's first parameters. */
  function Enter(s: State, b: nat): State {
    s.(cur := b, sp := 0, ids := seq(|s.ids|, i requires 0 <= i < |s.ids| => i + 1))
  }

  /** End the current block with t and go on in block b. */
  function Leave(s: State, t: Term, b: nat): State
    requires Placed(s)
  {
    Enter(SetTerm(s, t), b)
  }

  /** `fill_frame`. */
  function Frame(s: State): seq<nat> {
    [s.sp] + s.ids
  }

  function Width(s: State): nat {
    1 + |s.ids|
  }

  function Push(s: State, slot: Slot, v: nat): State {
    s.(slots := s.slots + [slot], ids := s.ids + [v])
  }

  /** `pin_release`: drop n pins above mark, unless something else lies above them. */
  function Release(s: State, mark: nat, n: nat): State {
    if |s.ids| == |s.slots| == mark + n then s.(slots := s.slots[..mark], ids := s.ids[..mark]) else s
  }

  /** `emit_rt_call`, given the id its handle constant takes; the result is the id after it. */
  function CallInsts(n: nat, fn: string, args: seq<nat>): (r: seq<Inst>)
    ensures |r| == 2
  {
    [ConstI32(0), CallImport(fn, n, args)]
  }

  function TruthyInsts(n: nat, c: nat): (r: seq<Inst>)
    ensures |r| == 5
  {
    [ConstI64(WORD_FALSE), ConstI64(WORD_NIL), IntCmp(I64, NE, c, n), IntCmp(I64, NE, c, n + 1),
     IntBin(I32, AND, n + 2, n + 3)]
  }

  function IsErrorInsts(n: nat, v: nat): (r: seq<Inst>)
    ensures |r| == 4
  {
    [ConstI64(FLAG_ERROR), IntBin(I64, AND, v, n), ConstI64(0), IntCmp(I64, NE, n + 1, n + 2)]
  }

  function Const64(s: State, c: int): (State, nat)
    requires Placed(s)
  {
    (Put(s, [ConstI64(c)]), Next(s))
  }

  /** `lit_int_val`. */
  function LitInt(s: State, n: Literal): (State, nat)
    requires Placed(s)
  {
    if FitsI32(n) then Const64(s, I32Word(n))
    else (Put(s, [ConstI64(n)] + CallInsts(Next(s) + 1, "jacl_i64_box", [s.sp, Next(s)])), Next(s) + 2)
  }

  // ---- the inline i32 guard ----

  datatype GuardKind = GuardArith(op: BinOp) | GuardDivRem(op: BinOp) | GuardCmp(cmp: CmpOp) | GuardWrap(op: BinOp)

  function GuardFor(h: Head): GuardKind {
    match h
    case Plus => GuardArith(ADD)
    case Minus => GuardArith(SUB)
    case Star => GuardArith(MUL)
    case Slash => GuardDivRem(DIV_S)
    case Percent => GuardDivRem(REM_S)
    case PlusPct => GuardWrap(ADD)
    case MinusPct => GuardWrap(SUB)
    case StarPct => GuardWrap(MUL)
    case Less => GuardCmp(LT_S)
    case LessEq => GuardCmp(LE_S)
    case Greater => GuardCmp(GT_S)
    case GreaterEq => GuardCmp(GE_S)
    case EqEq => GuardCmp(EQ)
    case BangEq => GuardCmp(NE)
  }

  /** Both operands have exactly the i32 tag byte. */
  function TagTestInsts(n: nat, a: nat, b: nat): (r: seq<Inst>)
    ensures |r| == 8
  {
    [ConstI64(TAG_I32), IntBin(I64, XOR, a, n), IntBin(I64, XOR, b, n), IntBin(I64, OR, n + 1, n + 2),
     ConstI64(0xFF00_0000_0000_0000), IntBin(I64, AND, n + 3, n + 4), ConstI64(0), IntCmp(I64, EQ, n + 5, n + 6)]
  }

  /** ok, and the divisor is neither 0 nor -1. */
  function DivisorInsts(n: nat, ok: nat, b: nat): (r: seq<Inst>)
    ensures |r| == 6
  {
    [ConstI64(I32Word(0)), ConstI64(I32Word(-1)), IntCmp(I64, NE, b, n), IntCmp(I64, NE, b, n + 1),
     IntBin(I32, AND, ok, n + 2), IntBin(I32, AND, n + 4, n + 3)]
  }

  /** The fast block's parameters are the frame, of width w, and the two operands. */
  function FastCmpInsts(w: nat, cmp: CmpOp): (r: seq<Inst>)
    ensures |r| == 6
  {
    [Convert(WRAP_I64, w), Convert(WRAP_I64, w + 1), IntCmp(I32, cmp, w + 2, w + 3), Convert(EXTEND_I32U, w + 4),
     ConstI64(WORD_FALSE), IntBin(I64, OR, w + 5, w + 6)]
  }

  function FastBareInsts(w: nat, op: BinOp): (r: seq<Inst>)
    ensures |r| == 6
  {
    [Convert(WRAP_I64, w), Convert(WRAP_I64, w + 1), IntBin(I32, op, w + 2, w + 3), Convert(EXTEND_I32U, w + 4),
     ConstI64(TAG_I32), IntBin(I64, OR, w + 5, w + 6)]
  }

  function FastArithInsts(w: nat, op: BinOp): (r: seq<Inst>)
    ensures |r| == 11
  {
    [Convert(WRAP_I64, w), Convert(WRAP_I64, w + 1), Convert(EXTEND_I32S, w + 2), Convert(EXTEND_I32S, w + 3),
     IntBin(I64, op, w + 4, w + 5), Convert(WRAP_I64, w + 6), Convert(EXTEND_I32S, w + 7),
     IntCmp(I64, EQ, w + 8, w + 6), Convert(EXTEND_I32U, w + 7), ConstI64(TAG_I32), IntBin(I64, OR, w + 10, w + 11)]
  }

  /** `emit_binop_call`. */
  function PlainCall(s: State, fn: string, a: nat, b: nat): (State, nat)
    requires Placed(s)
  {
    (Put(s, CallInsts(Next(s), fn, [s.sp, a, b])), Next(s) + 1)
  }

  /** The tag test and the branch into the fast block; the diamond's blocks are f, f+1 and f+2. */
  function GuardOpen(s: State, h: Head, a: nat, b: nat): (t: State)
    requires Placed(s)
    ensures Placed(t) && |t.code| == |s.code| + 3 && t.slots == s.slots && |t.ids| == |s.ids|
  {
    var w, f := Width(s), |s.code|;
    var s1 := AddBlock(AddBlock(AddBlock(s, w + 2), w + 2), w + 1);
    var n := Next(s1);
    var s2 := Put(s1, TagTestInsts(n, a, b));
    if GuardFor(h).GuardDivRem? then
      var s3 := Put(s2, DivisorInsts(n + 8, n + 7, b));
      Leave(s3, BrIf(n + 13, f, Frame(s3) + [a, b], f + 1, Frame(s3) + [a, b]), f)
    else
      Leave(s2, BrIf(n + 7, f, Frame(s2) + [a, b], f + 1, Frame(s2) + [a, b]), f)
  }

  /** The native operation, then on to the join, or to the slow block when the result left i32. */
  function GuardFast(s: State, h: Head, f: nat): (t: State)
    requires Placed(s) && f + 1 < |s.code|
    ensures Placed(t) && |t.code| == |s.code| && t.slots == s.slots && |t.ids| == |s.ids|
  {
    var w := Width(s);
    match GuardFor(h)
    case GuardCmp(cmp) =>
      var t := Put(s, FastCmpInsts(w, cmp));
      Leave(t, Br(f + 2, Frame(t) + [w + 7]), f + 1)
    case GuardDivRem(op) =>
      var t := Put(s, FastBareInsts(w, op));
      Leave(t, Br(f + 2, Frame(t) + [w + 7]), f + 1)
    case GuardWrap(op) =>
      var t := Put(s, FastBareInsts(w, op));
      Leave(t, Br(f + 2, Frame(t) + [w + 7]), f + 1)
    case GuardArith(op) =>
      var t := Put(s, FastArithInsts(w, op));
      Leave(t, BrIf(w + 9, f + 2, Frame(t) + [w + 12], f + 1, Frame(t) + [w, w + 1]), f + 1)
  }

  function GuardSlow(s: State, h: Head, f: nat): (t: State)
    requires Placed(s) && f + 2 < |s.code|
    ensures Placed(t) && |t.code| == |s.code| && t.slots == s.slots && |t.ids| == |s.ids|
  {
    var w := Width(s);
    var t := Put(s, CallInsts(w + 2, RuntimeFn(h), [s.sp, w, w + 1]));
    Leave(t, Br(f + 2, Frame(t) + [w + 3]), f + 2)
  }

  /** `emit_binop_guarded`. */
  function Guarded(s: State, mv: bool, h: Head, a: nat, b: nat): (o: (State, nat))
    requires Sound(s)
    ensures Sound(o.0) && o.0.slots == s.slots && |s.code| <= |o.0.code|
  {
    if !mv || Width(s) > IRB_MAX_FRAME - 1 then PlainCall(s, RuntimeFn(h), a, b)
    else (GuardSlow(GuardFast(GuardOpen(s, h, a, b), h, |s.code|), h, |s.code|), Width(s))
  }

  // ---- control ----

  /** `emit_error_branch_if`: to the handler, with the error after the try-entry frame, or out of the function. */
  function ErrorBranch(s: State, k: Targets, truth: nat, err: nat): (t: State)
    requires Sound(s) && Reachable(k, Width(s))
    ensures Sound(t) && t.slots == s.slots && t.mark == s.mark && |s.code| <= |t.code|
  {
    var w, b := Width(s), |s.code|;
    if k.inTry then
      var t := AddBlock(s, w);
      Leave(t, BrIf(truth, k.onError, Frame(t)[..k.tryWidth] + [err], b, Frame(t)), b)
    else
      var t := s.(code := s.code + [Block(w, [], NoTerm), Block(1, [], Return([0]))]);
      Leave(t, BrIf(truth, b + 1, [err], b, Frame(t)), b)
  }

  /** `emit_stmt_error_check`. */
  function StmtErrorCheck(s: State, k: Targets, v: nat): (t: State)
    requires Sound(s) && Reachable(k, Width(s))
    ensures Sound(t) && t.slots == s.slots && t.mark == s.mark && |s.code| <= |t.code|
  {
    ErrorBranch(Put(s, IsErrorInsts(Next(s), v)), k, Next(s) + 3, v)
  }

  /** The else block and the join already exist; the arm's value joins as the extra parameter. */
  function ArmEnd(s: State, join: nat, v: nat, next: nat): (t: State)
    requires Sound(s) && next < |s.code|
    ensures Sound(t) && t.slots == s.slots && t.mark == s.mark && |t.code| == |s.code|
  {
    Leave(s, Br(join, Frame(s) + [v]), next)
  }

  /** Test c and branch with the frame: blocks f (then), f+1 (else), f+2 (join). */
  function Fork(s: State, c: nat): (t: State)
    requires Sound(s)
    ensures Sound(t) && t.slots == s.slots && t.mark == s.mark && |t.code| == |s.code| + 3
  {
    var n, w, f := Next(s), Width(s), |s.code|;
    var t := AddBlock(AddBlock(AddBlock(Put(s, TruthyInsts(n, c)), w), w), w + 1);
    Leave(t, BrIf(n + 4, f, Frame(t), f + 1, Frame(t)), f)
  }

  /** A loop's blocks: f (header), f+1 (body), f+2 (exit). */
  function LoopOpen(s: State): (t: State)
    requires Sound(s)
    ensures Sound(t) && t.slots == s.slots && t.mark == s.mark && |t.code| == |s.code| + 3
  {
    var w, f := Width(s), |s.code|;
    var t := AddBlock(AddBlock(AddBlock(s, w), w), w);
    Leave(t, Br(f, Frame(t)), f)
  }

  function LoopTest(s: State, c: nat, f: nat): (t: State)
    requires Sound(s) && f + 1 < |s.code|
    ensures Sound(t) && t.slots == s.slots && t.mark == s.mark && |t.code| == |s.code|
  {
    var n := Next(s);
    var t := Put(s, TruthyInsts(n, c));
    Leave(t, BrIf(n + 4, f + 1, Frame(t), f + 2, Frame(t)), f + 1)
  }

  /** After a `break`, `continue` or `return`: go on emitting into an unreachable block. */
  function Dead(s: State, t: Term): (o: (State, nat))
    requires Sound(s)
    ensures Sound(o.0) && o.0.slots == s.slots && |o.0.code| == |s.code| + 1
  {
    Const64(Leave(AddBlock(s, Width(s)), t, |s.code|), WORD_NIL)
  }

  /** A try's blocks: f (handler, frame and error) and f+1 (join, frame and result). */
  function TryOpen(s: State): (t: State)
    requires Sound(s)
    ensures Sound(t) && t.slots == s.slots && t.mark == s.mark && |t.code| == |s.code| + 2
  {
    AddBlock(AddBlock(s, Width(s) + 1), Width(s) + 1)
  }

  /** The body's own value may be an error. */
  function TryTest(s: State, v: nat, f: nat): (t: State)
    requires Sound(s) && f < |s.code|
    ensures Sound(t) && t.slots == s.slots && t.mark == s.mark && |t.code| == |s.code|
  {
    var n := Next(s);
    var t := Put(s, IsErrorInsts(n, v));
    Leave(t, BrIf(n + 3, f, Frame(t) + [v], f + 1, Frame(t) + [v]), f)
  }

  /** The body's value is discarded; loop back, and go on in the exit block. */
  function LoopEnd(s: State, f: nat): (t: State)
    requires Sound(s) && f + 2 < |s.code|
    ensures Sound(t) && t.slots == s.slots && t.mark == s.mark && |t.code| == |s.code|
  {
    Leave(s, Br(f, Frame(s)), f + 2)
  }

  /** `0 - x`, through the runtime. */
  function EmitNegate(s: State, v: nat): (o: (State, nat))
    requires Placed(s)
    ensures Placed(o.0) && o.0.slots == s.slots && o.0.ids == s.ids && |o.0.code| == |s.code|
  {
    var n := Next(s);
    (Put(s, [ConstI64(I32Word(0))] + CallInsts(n + 1, "jacl_sub", [s.sp, n, v])), n + 2)
  }

  /** Read the operands' pins back from slot n on, release them, and call. */
  function EmitBuiltin(s: State, fn: string, n: nat): (o: (State, nat))
    requires Sound(s) && n <= |s.ids|
    ensures Sound(o.0) && o.0.slots == s.slots[..n] && |o.0.code| == |s.code|
  {
    var ops := s.ids[n..];
    var t := Release(s, n, |ops|);
    (Put(t, CallInsts(Next(t), fn, [t.sp] + ops)), Next(t) + 1)
  }

  /** The handler's scope binds the error, which follows the frame in the handler block. */
  function HandlerScope(s: State, x: string): (t: State)
    requires Sound(s)
    ensures Sound(t) && t.slots == s.slots + [Local(x, false)] && t.code == s.code
  {
    Push(s, Local(x, false), Width(s)).(mark := |s.slots|)
  }

  // ---- names ----

  /** `env_lookup`: the most recent slot of that name; pins have none. */
  function FindSlot(slots: seq<Slot>, x: string): (r: int)
    ensures -1 <= r < |slots|
    ensures r >= 0 ==> slots[r].Local? && slots[r].x == x
  {
    if slots == [] then -1
    else if slots[|slots| - 1].Local? && slots[|slots| - 1].x == x then |slots| - 1
    else FindSlot(slots[..|slots| - 1], x)
  }

  /** `env_define` inside a proc: an immutable name may not be defined twice in one scope, but for `_`. */
  function Define(s: State, x: string, v: nat, mutable: bool): Outcome {
    if x != "_" && exists i :: s.mark <= i < |s.slots| && s.slots[i] == Local(x, false) then Fail
    else Ok(Push(s, Local(x, mutable), v), v)
  }

  function AssignSlot(s: State, i: nat, v: nat): State
    requires i < |s.ids|
  {
    s.(ids := s.ids[i := v])
  }

  /** What a binding statement does with its value. */
  function Bind(s: State, st: Stmt, v: nat): (o: Outcome)
    requires Sound(s)
    ensures o.Ok? ==> Sound(o.s) && s.slots <= o.s.slots && o.s.code == s.code
  {
    match st
    case Do(_) => Ok(s, v)
    case Def(x, _) => Define(s, x, v, false)
    case Mut(x, _) =>
      var i := FindSlot(s.slots, x);
      if i >= 0 && s.slots[i].mutable then Ok(AssignSlot(s, i, v), v) else Define(s, x, v, true)
    case Set(x, _) =>
      var i := FindSlot(s.slots, x);
      if i >= 0 && s.slots[i].mutable then Ok(AssignSlot(s, i, v), v) else Fail
  }

  /** `scope_exit`: forget what was bound since the scope began. */
  function ScopeEnd(s: State, n: nat, mark: nat): State
    requires n <= |s.slots| == |s.ids|
  {
    s.(slots := s.slots[..n], ids := s.ids[..n], mark := mark)
  }

  // ---- expressions and statements ----

  function Same(o: (State, nat)): Outcome {
    Ok(o.0, o.1)
  }

  /** What every lowering keeps: the slots, and the blocks already there. */
  predicate Kept(s: State, o: Outcome) {
    o.Ok? ==> Sound(o.s) && o.s.slots == s.slots && |s.code| <= |o.s.code|
  }

  /** `compile_expr`; mv is the node's permission to move the emission point. */
  function Compile(e: Expr, s: State, k: Targets, mv: bool): (o: Outcome)
    requires Sound(s) && Reachable(k, Width(s))
    ensures Kept(s, o)
    decreases e, 1
  {
    match e
    case IntLit(n) => Same(LitInt(s, n))
    case Const(b) => Same(Const64(s, BareWord(b)))
    case Var(x) =>
      var i := FindSlot(s.slots, x);
      if i < 0 then Fail else Ok(s, s.ids[i])
    case Fold(h, first, rest) =>
      if rest == NoExprs then Fail else
        var o := Compile(first, s, k, mv);
        if o.Fail? then Fail else CompileFold(h, rest, o.s, o.v, k, mv)
    case Negate(e1) =>
      var o := Compile(e1, s, k, false);
      if o.Fail? then Fail else Same(EmitNegate(o.s, o.v))
    case Builtin(fn, args) =>
      var o := CompileOperands(args, s, k, mv);
      if o.Fail? then Fail else Same(EmitBuiltin(o.s, fn, |s.ids|))
    case If(_, _, _) => CompileIf(e, s, k)
    case While(_, _) => CompileWhile(e, s, k)
    case Break => if !k.inLoop then Fail else Same(Dead(s, Br(k.onBreak, Frame(s)[..k.loopWidth])))
    case Continue => if !k.inLoop then Fail else Same(Dead(s, Br(k.onContinue, Frame(s)[..k.loopWidth])))
    case ReturnEarly(e1) =>
      var o := Compile(e1, s, k, true);
      if o.Fail? then Fail else Same(Dead(o.s, Return([o.v])))
    case Try(_, _, _) => CompileTry(e, s, k)
    case Scope(stmts) =>
      var o := CompileStmts(stmts, s.(mark := |s.slots|), k);
      if o.Fail? then Fail else Ok(ScopeEnd(o.s, |s.slots|, s.mark), o.v)
  }

  /** `compile_if_chain`. */
  function CompileIf(e: Expr, s: State, k: Targets): (o: Outcome)
    requires e.If? && Sound(s) && Reachable(k, Width(s))
    ensures Kept(s, o)
    decreases e, 0
  {
    if Width(s) > IRB_MAX_FRAME then Fail else
      var o := Compile(e.cond, s, k, true);
      if o.Fail? then Fail else
        var b := |o.s.code|;
        var o1 := Compile(e.thn, Fork(o.s, o.v), k, false);
        if o1.Fail? then Fail else
          var o2 := Compile(e.els, ArmEnd(o1.s, b + 2, o1.v, b + 1), k, false);
          if o2.Fail? then Fail else Ok(ArmEnd(o2.s, b + 2, o2.v, b + 2), Width(o2.s))
  }

  /** `compile_while`. */
  function CompileWhile(e: Expr, s: State, k: Targets): (o: Outcome)
    requires e.While? && Sound(s) && Reachable(k, Width(s))
    ensures Kept(s, o)
    decreases e, 0
  {
    if Width(s) > IRB_MAX_FRAME then Fail else
      var b := |s.code|;
      var o := Compile(e.cond, LoopOpen(s), k, true);
      if o.Fail? then Fail else
        var o1 := Compile(e.body, LoopTest(o.s, o.v, b), LoopTargets(k, b, Width(s)), false);
        if o1.Fail? then Fail else Same(Const64(LoopEnd(o1.s, b), WORD_NIL))
  }

  /** `compile_try`. */
  function CompileTry(e: Expr, s: State, k: Targets): (o: Outcome)
    requires e.Try? && Sound(s) && Reachable(k, Width(s))
    ensures Kept(s, o)
    decreases e, 0
  {
    if Width(s) > IRB_MAX_FRAME then Fail else
      var b := |s.code|;
      var o := Compile(e.body, TryOpen(s), TryTargets(k, b, Width(s)), false);
      if o.Fail? then Fail else
        var t := TryTest(o.s, o.v, b);
        var o1 := Compile(e.handler, HandlerScope(t, e.x), k, false);
        if o1.Fail? then Fail else
          var u := ScopeEnd(o1.s, |t.slots|, t.mark);
          Ok(ArmEnd(u, b + 1, o1.v, b + 1), Width(u))
  }

  function LoopTargets(k: Targets, header: nat, w: nat): Targets {
    k.(inLoop := true, onContinue := header, onBreak := header + 2, loopWidth := w)
  }

  function TryTargets(k: Targets, handler: nat, w: nat): Targets {
    k.(inTry := true, onError := handler, tryWidth := w)
  }

  /** The dynamic fold: the accumulator is pinned across each operand. */
  function CompileFold(h: Head, args: Exprs, s: State, acc: nat, k: Targets, mv: bool): (o: Outcome)
    requires Sound(s) && Reachable(k, Width(s))
    ensures o.Ok? ==> Sound(o.s) && o.s.slots == s.slots && |s.code| <= |o.s.code|
    decreases args
  {
    match args
    case NoExprs => Ok(s, acc)
    case MoreExprs(e, rest) =>
      var o := Compile(e, Push(s, Pin, acc), k, mv);
      if o.Fail? then Fail else
        var g := Guarded(Release(o.s, |s.ids|, 1), mv, h, o.s.ids[|s.ids|], o.v);
        CompileFold(h, rest, g.0, g.1, k, mv)
  }

  /** `compile_operands`, up to reading the pins back: each operand is pinned across the next ones. */
  function CompileOperands(args: Exprs, s: State, k: Targets, mv: bool): (o: Outcome)
    requires Sound(s) && Reachable(k, Width(s))
    ensures o.Ok? ==> Sound(o.s) && o.s.slots == s.slots + Pins(args) && |s.code| <= |o.s.code|
    decreases args
  {
    match args
    case NoExprs => Ok(s, 0)
    case MoreExprs(e, rest) =>
      var o := Compile(e, s, k, mv);
      if o.Fail? then Fail else
        assert s.slots + Pins(args) == s.slots + [Pin] + Pins(rest);
        CompileOperands(rest, Push(o.s, Pin, o.v), k, mv)
  }

  function Pins(args: Exprs): seq<Slot> {
    match args
    case NoExprs => []
    case MoreExprs(_, rest) => [Pin] + Pins(rest)
  }

  function CompileStmts(stmts: Stmts, s: State, k: Targets): (o: Outcome)
    requires Sound(s) && Reachable(k, Width(s))
    ensures o.Ok? ==> Sound(o.s) && s.slots <= o.s.slots && |s.code| <= |o.s.code|
    decreases stmts
  {
    match stmts
    case NoStmts => Same(Const64(s, I32Word(0)))
    case MoreStmts(st, rest) =>
      var o := Compile(st.e, s, k, true);
      if o.Fail? then Fail else
        var o1 := Bind(o.s, st, o.v);
        if o1.Fail? || rest == NoStmts then o1
        else if Binds(st) then CompileStmts(rest, o1.s, k)
        else if Width(o1.s) > IRB_MAX_FRAME then Fail
        else CompileStmts(rest, StmtErrorCheck(o1.s, k, o1.v), k)
  }

  /** Parameters are the first bindings, immutable. */
  function ParamSlots(params: seq<string>): (r: seq<Slot>)
    ensures |r| == |params| && forall i :: 0 <= i < |r| ==> r[i] == Local(params[i], false)
  {
    seq(|params|, i requires 0 <= i < |params| => Local(params[i], false))
  }

  /** Entry: sp and the parameters are the entry block's parameters. */
  function ProcEntry(params: seq<string>): State {
    State([Block(1 + |params|, [], NoTerm)], 0, 0, ParamSlots(params), seq(|params|, i requires 0 <= i < |params| => i + 1), 0)
  }

  /** A parameter's name may not be used again, but for `_`. */
  predicate Repeats(params: seq<string>) {
    exists i, j :: 0 <= i < j < |params| && params[i] == params[j] != "_"
  }

  const NO_TARGETS := Targets(false, 0, 0, 0, false, 0, 0)

  /** One statement; last tells whether it is the block's last. */
  function StmtStep(st: Stmt, last: bool, s: State, k: Targets): (o: Outcome)
    requires Sound(s) && Reachable(k, Width(s))
    ensures o.Ok? ==> Sound(o.s) && s.slots <= o.s.slots && |s.code| <= |o.s.code|
  {
    var o := Compile(st.e, s, k, true);
    if o.Fail? then Fail else
      var o1 := Bind(o.s, st, o.v);
      if o1.Fail? || last || Binds(st) then o1
      else if Width(o1.s) > IRB_MAX_FRAME then Fail
      else Ok(StmtErrorCheck(o1.s, k, o1.v), o1.v)
  }

  /** `true`, `false` and `nil` are their words, one constant each. */
  lemma BareForms(s: State, k: Targets, mv: bool)
    requires Sound(s) && Reachable(k, Width(s))
    ensures Compile(Const(TrueWord), s, k, mv) == Ok(Put(s, [ConstI64(0x0100_0000_0000_0001)]), Next(s))
    ensures Compile(Const(FalseWord), s, k, mv) == Ok(Put(s, [ConstI64(0x0100_0000_0000_0000)]), Next(s))
    ensures Compile(Const(NilWord), s, k, mv) == Ok(Put(s, [ConstI64(0)]), Next(s))
  {
    BareWords();
  }

  // ---- tail position ----

  /** Lowering in tail position emits the returns itself and leaves only the code behind. */
  datatype Tail = Stuck | Ended(code: seq<Block>)

  function ReturnOf(o: Outcome): (t: Tail)
    requires o.Ok? ==> Placed(o.s)
  {
    if o.Fail? then Stuck else Ended(SetTerm(o.s, Return([o.v])).code)
  }

  /** The `if` command, and not a short circuit or the like: its arms are blocks. */
  predicate IfCommand(e: Expr) {
    e.If? && e.thn.Scope? && (e.els.Scope? || e.els == Const(NilWord) || IfCommand(e.els))
  }

  /** Test c and branch with the frame to two arms that never join: blocks f (then) and f+1 (else). */
  function TailFork(s: State, c: nat): (t: State)
    requires Sound(s)
    ensures Sound(t) && t.slots == s.slots && t.mark == s.mark && |t.code| == |s.code| + 2
  {
    var n, w, f := Next(s), Width(s), |s.code|;
    var t := AddBlock(AddBlock(Put(s, TruthyInsts(n, c)), w), w);
    Leave(t, BrIf(n + 4, f, Frame(t), f + 1, Frame(t)), f)
  }

  /** On to block b with what an arm left behind. */
  function NextArm(s: State, code: seq<Block>, b: nat): State {
    Enter(s.(code := code), b)
  }

  /** `compile_tail`: each path of e ends in a return of its own. */
  function CompileTail(e: Expr, s: State): (o: Tail)
    requires Sound(s)
    ensures o.Ended? ==> |s.code| <= |o.code|
    decreases e, 1
  {
    match e
    case ReturnEarly(e1) => CompileTail(e1, s)
    case Scope(stmts) => TailStmts(stmts, s.(mark := |s.slots|))
    case If(_, _, _) => if IfCommand(e) then IfTail(e, s) else ReturnOf(Compile(e, s, NO_TARGETS, true))
    case _ => ReturnOf(Compile(e, s, NO_TARGETS, true))
  }

  /** `compile_if_tail`. */
  function IfTail(e: Expr, s: State): (o: Tail)
    requires e.If? && Sound(s)
    ensures o.Ended? ==> |s.code| <= |o.code|
    decreases e, 0
  {
    if Width(s) > IRB_MAX_FRAME then Stuck else
      var o := Compile(e.cond, s, NO_TARGETS, true);
      if o.Fail? then Stuck else
        var g := TailFork(o.s, o.v);
        var a := CompileTail(e.thn, g);
        if a.Stuck? then Stuck else CompileTail(e.els, NextArm(g, a.code, |o.s.code| + 1))
  }

  /** Which conditionals fork into returning arms: an `if` with its blocks, or without an else, and its `elif`s; a short
      circuit is compiled for its value. */
  lemma TailForms(cond: Expr, x: Stmts, y: Expr, s: State)
    requires Sound(s)
    ensures y.Scope? || y == Const(NilWord) ==> CompileTail(If(cond, Scope(x), y), s) == IfTail(If(cond, Scope(x), y), s)
    ensures y.If? && y.thn.Scope? && (y.els.Scope? || y.els == Const(NilWord)) ==>
              CompileTail(If(cond, Scope(x), y), s) == IfTail(If(cond, Scope(x), y), s)
    ensures CompileTail(If(cond, y, Const(FalseWord)), s) == ReturnOf(Compile(If(cond, y, Const(FalseWord)), s, NO_TARGETS, true))
    ensures CompileTail(If(cond, Const(TrueWord), y), s) == ReturnOf(Compile(If(cond, Const(TrueWord), y), s, NO_TARGETS, true))
  {
    hide Compile, IfTail, TailStmts;
    assert !IfCommand(Const(FalseWord));
    assert y.If? && y.thn.Scope? && (y.els.Scope? || y.els == Const(NilWord)) ==> IfCommand(y);
  }

  /** The statements of a block in tail position: an early return among them drops the rest. */
  function TailStmts(stmts: Stmts, s: State): (o: Tail)
    requires Sound(s)
    ensures o.Ended? ==> |s.code| <= |o.code|
    decreases stmts
  {
    match stmts
    case NoStmts => ReturnOf(Same(Const64(s, I32Word(0))))
    case MoreStmts(st, rest) =>
      if st.Do? && (rest == NoStmts || st.e.ReturnEarly?) then CompileTail(st.e, s)
      else
        var o := StmtStep(st, rest == NoStmts, s, NO_TARGETS);
        if o.Fail? || rest == NoStmts then ReturnOf(o) else TailStmts(rest, o.s)
  }

  /** A proc body. */
  function CompileProc(params: seq<string>, body: Expr): Tail {
    if |params| > CG_MAX_PARAMS || Repeats(params) then Stuck else CompileTail(body, ProcEntry(params))
  }
}
