/** The compile context as codegen/codegen.c keeps it: one mutable `Cx` whose methods append
    instructions, move the current block and rebind the frame. Each method computes the
    corresponding function of module Lowering, so what is proved of those holds of it. */
module Emitter {
  import opened Bits
  import opened Ir
  import opened Source
  import opened Lowering
  import opened LoweringLocal
  import opened LoweringRuns
  import opened LoweringCorrect
  import opened Compilable

  lemma PutMore(s: State, a: seq<Inst>, b: seq<Inst>)
    requires Placed(s)
    ensures Put(Put(s, a), b) == Put(s, a + b)
  {
    assert s.code[s.cur].insts + a + b == s.code[s.cur].insts + (a + b);
    var x, y := Put(Put(s, a), b), Put(s, a + b);
    assert x.code == y.code;
  }

  // ---- one stage of a lowering at a time ----

  /** One operand of a fold. */
  function FoldStep(h: Head, e: Expr, s: State, acc: nat, k: Targets, mv: bool): (o: Outcome)
    requires Sound(s) && Reachable(k, Width(s))
    ensures Kept(s, o)
  {
    var o := Compile(e, Push(s, Pin, acc), k, mv);
    if o.Fail? then Fail else Same(Guarded(Release(o.s, |s.ids|, 1), mv, h, o.s.ids[|s.ids|], o.v))
  }

  lemma FoldUnrolled(h: Head, args: Exprs, s: State, acc: nat, k: Targets, mv: bool)
    requires args.MoreExprs? && Sound(s) && Reachable(k, Width(s))
    ensures CompileFold(h, args, s, acc, k, mv) == var o := FoldStep(h, args.e, s, acc, k, mv);
      if o.Fail? then Fail else CompileFold(h, args.rest, o.s, o.v, k, mv)
  {
  }

  /** The rest of an if, once its condition is lowered. */
  function IfRest(e: Expr, s: State, v: nat, k: Targets): (o: Outcome)
    requires e.If? && Sound(s) && Reachable(k, Width(s))
    ensures Kept(s, o)
  {
    var b := |s.code|;
    var o1 := Compile(e.thn, Fork(s, v), k, false);
    if o1.Fail? then Fail else
      var o2 := Compile(e.els, ArmEnd(o1.s, b + 2, o1.v, b + 1), k, false);
      if o2.Fail? then Fail else Ok(ArmEnd(o2.s, b + 2, o2.v, b + 2), Width(o2.s))
  }

  lemma IfUnrolled(e: Expr, s: State, k: Targets)
    requires e.If? && Sound(s) && Reachable(k, Width(s))
    ensures CompileIf(e, s, k) == if Width(s) > IRB_MAX_FRAME then Fail else
      var o := Compile(e.cond, s, k, true);
      if o.Fail? then Fail else IfRest(e, o.s, o.v, k)
  {
    hide Compile, LoopOpen, LoopTest, LoopEnd, Lowering.Const64, TryOpen, TryTest, Fork, ArmEnd, ScopeEnd, HandlerScope;
  }

  /** The rest of a loop, once its condition is lowered. */
  function LoopRest(e: Expr, s: State, v: nat, b: nat, k: Targets): (o: Outcome)
    requires e.While? && Sound(s) && Reachable(k, Width(s)) && b + 2 < |s.code|
    ensures Kept(s, o)
  {
    var o1 := Compile(e.body, LoopTest(s, v, b), LoopTargets(k, b, Width(s)), false);
    if o1.Fail? then Fail else Same(Lowering.Const64(LoopEnd(o1.s, b), WORD_NIL))
  }

  lemma LoopUnrolled(e: Expr, s: State, k: Targets)
    requires e.While? && Sound(s) && Reachable(k, Width(s))
    ensures CompileWhile(e, s, k) == if Width(s) > IRB_MAX_FRAME then Fail else
      var o := Compile(e.cond, LoopOpen(s), k, true);
      if o.Fail? then Fail else LoopRest(e, o.s, o.v, |s.code|, k)
  {
    hide Compile, LoopOpen, LoopTest, LoopEnd, Lowering.Const64, TryOpen, TryTest, Fork, ArmEnd, ScopeEnd, HandlerScope;
  }

  /** The rest of a try, once its body is lowered. */
  function TryRest(e: Expr, s: State, v: nat, b: nat, k: Targets): (o: Outcome)
    requires e.Try? && Sound(s) && Reachable(k, Width(s)) && b + 1 < |s.code|
    ensures Kept(s, o)
  {
    var t := TryTest(s, v, b);
    var o1 := Compile(e.handler, HandlerScope(t, e.x), k, false);
    if o1.Fail? then Fail else
      var u := ScopeEnd(o1.s, |t.slots|, t.mark);
      Ok(ArmEnd(u, b + 1, o1.v, b + 1), Width(u))
  }

  lemma TryUnrolled(e: Expr, s: State, k: Targets)
    requires e.Try? && Sound(s) && Reachable(k, Width(s))
    ensures CompileTry(e, s, k) == if Width(s) > IRB_MAX_FRAME then Fail else
      var o := Compile(e.body, TryOpen(s), TryTargets(k, |s.code|, Width(s)), false);
      if o.Fail? then Fail else TryRest(e, o.s, o.v, |s.code|, k)
  {
    hide Compile, LoopOpen, LoopTest, LoopEnd, Lowering.Const64, TryOpen, TryTest, Fork, ArmEnd, ScopeEnd, HandlerScope;
  }

  class Cx {
    var code: seq<Block>
    var cur: nat
    var sp: nat
    var slots: seq<Slot>
    var ids: seq<nat>
    var marks: seq<nat>
    var inLoop: bool
    var loopContinue: nat
    var loopBreak: nat
    var loopWidth: nat
    var inTry: bool
    var tryTarget: nat
    var tryWidth: nat
    var moveOk: bool
    var moveOkHere: bool
    var failed: bool

    ghost function St(): State
      reads this
    {
      State(code, cur, sp, slots, ids, if marks == [] then 0 else marks[|marks| - 1])
    }

    ghost function To(): Targets
      reads this
    {
      Targets(inLoop, loopContinue, loopBreak, loopWidth, inTry, tryTarget, tryWidth)
    }

    /** Fit to lower from. */
    ghost predicate Live()
      reads this
    {
      !failed && Sound(St()) && Reachable(To(), Width(St()))
    }

    /** The context holds the outcome o, whose value id is v. */
    ghost predicate Did(o: Outcome, v: nat)
      reads this
    {
      match o
      case Fail => failed
      case Ok(s, x) => !failed && St() == s && v == x
    }

    /** A function of n parameters, none of them named yet: the entry block's first is the stack pointer. */
    constructor (n: nat)
      ensures St() == State([Block(1 + n, [], NoTerm)], 0, 0, [], [], 0) && To() == NO_TARGETS && !failed && !moveOk
    {
      code, cur, sp, slots, ids := [Block(1 + n, [], NoTerm)], 0, 0, [], [];
      marks, failed, moveOk, moveOkHere := [], false, false, false;
      inLoop, loopContinue, loopBreak, loopWidth := false, 0, 0, 0;
      inTry, tryTarget, tryWidth := false, 0, 0;
    }

    /** The parameters are defined one by one, immutable, in a scope of their own. */
    method DefineParams(params: seq<string>)
      requires St() == State([Block(1 + |params|, [], NoTerm)], 0, 0, [], [], 0) && To() == NO_TARGETS && !failed && !moveOk
      modifies this
      ensures failed <==> Repeats(params)
      ensures !failed ==> St() == ProcEntry(params) && To() == NO_TARGETS && !moveOk
    {
      marks := marks + [|slots|];
      for k := 0 to |params|
        invariant !failed && !moveOk && To() == NO_TARGETS && !Repeats(params[..k])
        invariant St() == ProcEntry(params).(slots := ParamSlots(params[..k]), ids := ProcEntry(params).ids[..k])
      {
        Define(params[k], k + 1, false);
        OneMore(params, k);
        if failed {
          return;
        }
        assert ids == ProcEntry(params).ids[..k + 1];
        assert slots == ParamSlots(params[..k + 1]);
      }
      assert params[..|params|] == params;
    }

    /** A parameter is refused exactly when an earlier one has its name. */
    lemma OneMore(params: seq<string>, k: nat)
      requires k < |params| && !Repeats(params[..k])
      ensures Taken(Names(ParamSlots(params[..k]), 0, false), params[k]) <==> Repeats(params[..k + 1])
      ensures Repeats(params[..k + 1]) ==> Repeats(params)
    {
      var c := Names(ParamSlots(params[..k]), 0, false);
      if Taken(c, params[k]) {
        var i :| 0 <= i < k && c.live[i] == Local(params[k], false);
        assert params[..k + 1][i] == params[..k + 1][k] != "_";
      }
      if Repeats(params[..k + 1]) {
        var i, j :| 0 <= i < j < k + 1 && params[..k + 1][i] == params[..k + 1][j] != "_";
        Unrepeated(params, k);
        assert c.live[i] == Local(params[k], false);
        assert params[i] == params[j] != "_";
      }
    }

    lemma Unrepeated(params: seq<string>, k: nat)
      requires k <= |params| && !Repeats(params[..k])
      ensures forall i, j :: 0 <= i < j < k && params[i] == params[j] ==> params[i] == "_"
    {
      assert forall i :: 0 <= i < k ==> params[..k][i] == params[i];
    }

    // ---- emitting ----

    /** Append one instruction: the j-th of those this sequence appends to s. */
    method Emit(i: Inst, ghost s: State, ghost all: seq<Inst>, ghost j: nat) returns (v: nat)
      requires Placed(s) && j < |all| && all[j] == i && St() == Put(s, all[..j])
      modifies `code
      ensures St() == Put(s, all[..j + 1]) && v == Next(s) + j
    {
      v := code[cur].nparams + |code[cur].insts|;
      PutMore(s, all[..j], [i]);
      assert all[..j] + [i] == all[..j + 1];
      code := code[cur := code[cur].(insts := code[cur].insts + [i])];
    }

    lemma Ends(s: State, all: seq<Inst>)
      requires Placed(s)
      ensures Put(s, all[..0]) == s && Put(s, all[..|all|]) == Put(s, all)
    {
      assert all[..|all|] == all;
      assert s.code[s.cur].insts + all[..0] == s.code[s.cur].insts;
      assert Put(s, all[..0]).code == s.code;
    }

    method Const64(c: int) returns (v: nat)
      requires Placed(St())
      modifies `code
      ensures (St(), v) == Lowering.Const64(old(St()), c)
    {
      ghost var s, all := St(), [ConstI64(c)];
      Ends(s, all);
      v := Emit(ConstI64(c), s, all, 0);
    }

    /** `emit_rt_call`. */
    method RtCall(fn: string, args: seq<nat>) returns (v: nat)
      requires Placed(St())
      modifies `code
      ensures St() == Put(old(St()), CallInsts(Next(old(St())), fn, args)) && v == Next(old(St())) + 1
    {
      ghost var s := St();
      ghost var all := CallInsts(Next(s), fn, args);
      Ends(s, all);
      hide Put;
      var handle := Emit(ConstI32(0), s, all, 0);
      v := Emit(CallImport(fn, handle, args), s, all, 1);
    }

    method LitInt(n: Literal) returns (v: nat)
      requires Placed(St())
      modifies `code
      ensures (St(), v) == Lowering.LitInt(old(St()), n)
    {
      if FitsI32(n) {
        v := Const64(I32Word(n));
      } else {
        ghost var s := St();
        var c := Const64(n);
        v := RtCall("jacl_i64_box", [sp, c]);
        PutMore(s, [ConstI64(n)], CallInsts(Next(s) + 1, "jacl_i64_box", [s.sp, Next(s)]));
      }
    }

    method Truthy(cond: nat) returns (v: nat)
      requires Placed(St())
      modifies `code
      ensures St() == Put(old(St()), TruthyInsts(Next(old(St())), cond)) && v == Next(old(St())) + 4
    {
      ghost var s := St();
      ghost var all := TruthyInsts(Next(s), cond);
      Ends(s, all);
      hide Put;
      var cfalse := Emit(ConstI64(WORD_FALSE), s, all, 0);
      var cnil := Emit(ConstI64(WORD_NIL), s, all, 1);
      var neFalse := Emit(IntCmp(I64, NE, cond, cfalse), s, all, 2);
      var neNil := Emit(IntCmp(I64, NE, cond, cnil), s, all, 3);
      v := Emit(IntBin(I32, AND, neFalse, neNil), s, all, 4);
    }

    method IsErrorBit(x: nat) returns (v: nat)
      requires Placed(St())
      modifies `code
      ensures St() == Put(old(St()), IsErrorInsts(Next(old(St())), x)) && v == Next(old(St())) + 3
    {
      ghost var s := St();
      ghost var all := IsErrorInsts(Next(s), x);
      Ends(s, all);
      hide Put;
      var bit := Emit(ConstI64(FLAG_ERROR), s, all, 0);
      var masked := Emit(IntBin(I64, AND, x, bit), s, all, 1);
      var zero := Emit(ConstI64(0), s, all, 2);
      v := Emit(IntCmp(I64, NE, masked, zero), s, all, 3);
    }

    // ---- blocks and frames ----

    method NewBlock(nparams: nat) returns (b: nat)
      modifies `code
      ensures St() == AddBlock(old(St()), nparams) && b == |old(code)|
    {
      b := |code|;
      code := code + [Block(nparams, [], NoTerm)];
    }

    method Terminate(t: Term)
      requires Placed(St())
      modifies `code
      ensures St() == SetTerm(old(St()), t)
    {
      code := code[cur := code[cur].(term := t)];
    }

    /** `enter_frame_block`. */
    method EnterBlock(b: nat)
      modifies `cur, `sp, `ids
      ensures St() == Enter(old(St()), b)
    {
      cur := b;
      sp := 0;
      var n := |ids|;
      ids := seq(n, i requires 0 <= i < n => i + 1);
    }

    function FrameIds(): seq<nat>
      reads this
    {
      [sp] + ids
    }

    method PinPush(v: nat) returns (slot: nat)
      modifies `slots, `ids
      ensures St() == Push(old(St()), Pin, v) && slot == |old(ids)|
    {
      slot := |ids|;
      slots, ids := slots + [Pin], ids + [v];
    }

    method PinRelease(mark: nat, n: nat)
      requires |slots| == |ids|
      modifies `slots, `ids
      ensures St() == Release(old(St()), mark, n)
    {
      if |ids| == mark + n {
        slots, ids := slots[..mark], ids[..mark];
      }
    }

    // ---- names ----

    /** `env_lookup`, from the most recent slot back. */
    method Lookup(x: string) returns (i: int)
      ensures i == FindSlot(slots, x)
      ensures -1 <= i < |slots| && (i >= 0 ==> IsName(slots[i], x)) && forall j :: i < j < |slots| ==> !IsName(slots[j], x)
    {
      i := |slots| - 1;
      FindsLast(slots, x);
      assert slots[..|slots|] == slots;
      while i >= 0
        invariant -1 <= i < |slots|
        invariant FindSlot(slots, x) == FindSlot(slots[..i + 1], x)
      {
        if slots[i].Local? && slots[i].x == x { return; }
        assert slots[..i + 1][..i] == slots[..i];
        i := i - 1;
      }
    }

    /** `env_define` inside a proc. */
    method Define(x: string, v: nat, mutable: bool)
      requires !failed && Sound(St())
      modifies `slots, `ids, `failed
      ensures Did(Lowering.Define(old(St()), x, v, mutable), v)
      ensures failed <==> Taken(Names(old(slots), old(Top()), false), x)
      ensures !failed ==> slots == old(slots) + [Local(x, mutable)] && ids == old(ids) + [v]
    {
      if x != "_" {
        var i := if marks == [] then 0 else marks[|marks| - 1];
        while i < |slots|
          invariant St().mark <= i
          invariant forall j :: St().mark <= j < i && j < |slots| ==> slots[j] != Local(x, false)
          invariant !failed
        {
          if slots[i] == Local(x, false) {
            failed := true;
            return;
          }
          i := i + 1;
        }
      }
      slots, ids := slots + [Local(x, mutable)], ids + [v];
    }

    method Bind(st: Stmt, v: nat)
      requires !failed && Sound(St())
      modifies `slots, `ids, `failed
      ensures Did(Lowering.Bind(old(St()), st, v), v)
    {
      match st {
        case Do(_) =>
        case Def(x, _) => Define(x, v, false);
        case Mut(x, _) =>
          var i := Lookup(x);
          if i >= 0 && slots[i].mutable {
            ids := ids[i := v];
          } else {
            Define(x, v, true);
          }
        case Set(x, _) =>
          var i := Lookup(x);
          if i >= 0 && slots[i].mutable {
            ids := ids[i := v];
          } else {
            failed := true;
          }
      }
    }

    // ---- the inline guard ----

    method TagTest(a: nat, b: nat) returns (v: nat)
      requires Placed(St())
      modifies `code
      ensures St() == Put(old(St()), TagTestInsts(Next(old(St())), a, b)) && v == Next(old(St())) + 7
    {
      ghost var s := St();
      ghost var all := TagTestInsts(Next(s), a, b);
      Ends(s, all);
      hide Put;
      var tag := Emit(ConstI64(TAG_I32), s, all, 0);
      var xa := Emit(IntBin(I64, XOR, a, tag), s, all, 1);
      var xb := Emit(IntBin(I64, XOR, b, tag), s, all, 2);
      var both := Emit(IntBin(I64, OR, xa, xb), s, all, 3);
      var hi := Emit(ConstI64(0xFF00_0000_0000_0000), s, all, 4);
      var hib := Emit(IntBin(I64, AND, both, hi), s, all, 5);
      var zero := Emit(ConstI64(0), s, all, 6);
      v := Emit(IntCmp(I64, EQ, hib, zero), s, all, 7);
    }

    /** The diamond's blocks: fast, slow, join. */
    method ReserveDiamond(w: nat) returns (fast: nat)
      modifies `code
      ensures St() == AddBlock(AddBlock(AddBlock(old(St()), w + 2), w + 2), w + 1) && fast == |old(code)|
    {
      hide AddBlock;
      fast := NewBlock(w + 2);
      var slow := NewBlock(w + 2);
      var join := NewBlock(w + 1);
    }

    /** Branch with the frame and both operands; on in the fast block. */
    method GuardBranch(ok: nat, fast: nat, a: nat, b: nat)
      requires Placed(St())
      modifies `code, `cur, `sp, `ids
      ensures var s := old(St());
        St() == Leave(s, BrIf(ok, fast, Frame(s) + [a, b], fast + 1, Frame(s) + [a, b]), fast)
    {
      hide SetTerm, Enter;
      var frame := FrameIds();
      Terminate(BrIf(ok, fast, frame + [a, b], fast + 1, frame + [a, b]));
      EnterBlock(fast);
    }

    /** The three reserved blocks of the diamond, and the test that picks one. */
    method GuardTest(h: Head, a: nat, b: nat) returns (fast: nat)
      requires Sound(St())
      modifies `code, `cur, `sp, `ids
      ensures St() == GuardOpen(old(St()), h, a, b) && fast == |old(code)|
    {
      hide Put, TagTestInsts, DivisorInsts, Leave, Frame, AddBlock;
      ghost var s := St();
      StillPlaced(s, Width(s));
      fast := ReserveDiamond(1 + |ids|);
      var ok := TagTest(a, b);
      if GuardFor(h).GuardDivRem? {
        ok := DivisorTest(ok, b);
      }
      GuardBranch(ok, fast, a, b);
    }

    lemma StillPlaced(s: State, w: nat)
      requires Placed(s)
      ensures Placed(AddBlock(AddBlock(AddBlock(s, w + 2), w + 2), w + 1))
    {
    }

    method DivisorTest(ok: nat, b: nat) returns (v: nat)
      requires Placed(St())
      modifies `code
      ensures St() == Put(old(St()), DivisorInsts(Next(old(St())), ok, b)) && v == Next(old(St())) + 5
    {
      ghost var s := St();
      ghost var all := DivisorInsts(Next(s), ok, b);
      Ends(s, all);
      hide Put;
      var d0 := Emit(ConstI64(I32Word(0)), s, all, 0);
      var dm1 := Emit(ConstI64(I32Word(-1)), s, all, 1);
      var n0 := Emit(IntCmp(I64, NE, b, d0), s, all, 2);
      var nm1 := Emit(IntCmp(I64, NE, b, dm1), s, all, 3);
      var both := Emit(IntBin(I32, AND, ok, n0), s, all, 4);
      v := Emit(IntBin(I32, AND, both, nm1), s, all, 5);
    }

    /** Narrow both operands, the fast block's last parameters; w is the frame's width. */
    method FastCmp(cmp: CmpOp, w: nat) returns (v: nat)
      requires Placed(St()) && Next(St()) == w + 2
      modifies `code
      ensures St() == Put(old(St()), FastCmpInsts(w, cmp)) && v == w + 7
    {
      ghost var s := St();
      ghost var all := FastCmpInsts(w, cmp);
      Ends(s, all);
      hide Put;
      var ia := Emit(Convert(WRAP_I64, w), s, all, 0);
      var ib := Emit(Convert(WRAP_I64, w + 1), s, all, 1);
      var c := Emit(IntCmp(I32, cmp, ia, ib), s, all, 2);
      var cz := Emit(Convert(EXTEND_I32U, c), s, all, 3);
      var bt := Emit(ConstI64(WORD_FALSE), s, all, 4);
      v := Emit(IntBin(I64, OR, cz, bt), s, all, 5);
    }

    method FastBare(op: BinOp, w: nat) returns (v: nat)
      requires Placed(St()) && Next(St()) == w + 2
      modifies `code
      ensures St() == Put(old(St()), FastBareInsts(w, op)) && v == w + 7
    {
      ghost var s := St();
      ghost var all := FastBareInsts(w, op);
      Ends(s, all);
      hide Put;
      var ia := Emit(Convert(WRAP_I64, w), s, all, 0);
      var ib := Emit(Convert(WRAP_I64, w + 1), s, all, 1);
      var q := Emit(IntBin(I32, op, ia, ib), s, all, 2);
      var ext := Emit(Convert(EXTEND_I32U, q), s, all, 3);
      var tag := Emit(ConstI64(TAG_I32), s, all, 4);
      v := Emit(IntBin(I64, OR, ext, tag), s, all, 5);
    }

    method FastArith(op: BinOp, w: nat) returns (fits: nat, v: nat)
      requires Placed(St()) && Next(St()) == w + 2
      modifies `code
      ensures St() == Put(old(St()), FastArithInsts(w, op)) && fits == w + 9 && v == w + 12
    {
      ghost var s := St();
      ghost var all := FastArithInsts(w, op);
      Ends(s, all);
      hide Put;
      var r := WideOp(op, w, s, all);
      var narrow := Emit(Convert(WRAP_I64, r), s, all, 5);
      var wide := Emit(Convert(EXTEND_I32S, narrow), s, all, 6);
      fits := Emit(IntCmp(I64, EQ, wide, r), s, all, 7);
      var ext := Emit(Convert(EXTEND_I32U, narrow), s, all, 8);
      var tag := Emit(ConstI64(TAG_I32), s, all, 9);
      v := Emit(IntBin(I64, OR, ext, tag), s, all, 10);
    }

    /** The 64-bit operation on the sign-extended operands. */
    method WideOp(op: BinOp, w: nat, ghost s: State, ghost all: seq<Inst>) returns (r: nat)
      requires Placed(s) && Next(s) == w + 2 && |all| == 11 && St() == Put(s, all[..0])
      requires all[0] == Convert(WRAP_I64, w) && all[1] == Convert(WRAP_I64, w + 1) && all[2] == Convert(EXTEND_I32S, w + 2)
      requires all[3] == Convert(EXTEND_I32S, w + 3) && all[4] == IntBin(I64, op, w + 4, w + 5)
      modifies `code
      ensures St() == Put(s, all[..5]) && r == w + 6
    {
      hide Put;
      var ia := Emit(Convert(WRAP_I64, w), s, all, 0);
      var ib := Emit(Convert(WRAP_I64, w + 1), s, all, 1);
      var ea := Emit(Convert(EXTEND_I32S, ia), s, all, 2);
      var eb := Emit(Convert(EXTEND_I32S, ib), s, all, 3);
      r := Emit(IntBin(I64, op, ea, eb), s, all, 4);
    }

    method GuardFastArm(h: Head, fast: nat)
      requires Sound(St()) && fast + 1 < |code| && Next(St()) == Width(St()) + 2
      modifies `code, `cur, `sp, `ids
      ensures St() == GuardFast(old(St()), h, fast)
    {
      hide Put;
      var w := 1 + |ids|;
      var frame := FrameIds();
      match GuardFor(h) {
        case GuardCmp(cmp) =>
          var res := FastCmp(cmp, w);
          Terminate(Br(fast + 2, frame + [res]));
        case GuardDivRem(op) =>
          var res := FastBare(op, w);
          Terminate(Br(fast + 2, frame + [res]));
        case GuardWrap(op) =>
          var res := FastBare(op, w);
          Terminate(Br(fast + 2, frame + [res]));
        case GuardArith(op) =>
          var fits, res := FastArith(op, w);
          Terminate(BrIf(fits, fast + 2, frame + [res], fast + 1, frame + [w, w + 1]));
      }
      EnterBlock(fast + 1);
    }

    /** `emit_binop_guarded`. */
    method BinopGuarded(mv: bool, h: Head, a: nat, b: nat) returns (v: nat)
      requires Live()
      modifies `code, `cur, `sp, `ids
      ensures (St(), v) == Guarded(old(St()), mv, h, a, b)
    {
      hide Put, GuardOpen, GuardFast;
      var w := 1 + |ids|;
      if !mv || w > IRB_MAX_FRAME - 1 {
        v := RtCall(RuntimeFn(h), [sp, a, b]);
        return;
      }
      ghost var s := St();
      var fast := GuardTest(h, a, b);
      AtStart(s, St(), h, a, b, fast);
      GuardFastArm(h, fast);
      AtSlow(s, St(), h, a, b, fast);
      var sv := RtCall(RuntimeFn(h), [sp, w, w + 1]);
      Terminate(Br(fast + 2, FrameIds() + [sv]));
      EnterBlock(fast + 2);
      v := w;
    }

    lemma AtStart(s: State, t: State, h: Head, a: nat, b: nat, fast: nat)
      requires Sound(s) && fast == |s.code| && t == GuardOpen(s, h, a, b)
      ensures Next(t) == Width(t) + 2
    {
    }

    lemma AtSlow(s: State, t: State, h: Head, a: nat, b: nat, fast: nat)
      requires Sound(s) && fast == |s.code| && t == GuardFast(GuardOpen(s, h, a, b), h, fast)
      ensures Next(t) == Width(t) + 2
    {
    }

    // ---- control ----

    /** `emit_error_branch_if`. */
    method ErrorBranchIf(truth: nat, err: nat)
      requires Live()
      modifies `code, `cur, `sp, `ids
      ensures St() == ErrorBranch(old(St()), old(To()), truth, err)
    {
      var w := 1 + |ids|;
      var frame := FrameIds();
      var cont := NewBlock(w);
      if inTry {
        Terminate(BrIf(truth, tryTarget, frame[..tryWidth] + [err], cont, frame));
      } else {
        var errBlk := NewBlock(1);
        Terminate(BrIf(truth, errBlk, [err], cont, frame));
        code := code[errBlk := code[errBlk].(term := Return([0]))];
      }
      EnterBlock(cont);
    }

    method StmtErrorCheck(x: nat)
      requires Live()
      modifies `code, `cur, `sp, `ids
      ensures St() == Lowering.StmtErrorCheck(old(St()), old(To()), x)
    {
      var truth := IsErrorBit(x);
      ErrorBranchIf(truth, x);
    }

    /** After a jump: an unreachable block of the current frame's shape. */
    method DeadBlock(t: Term) returns (v: nat)
      requires Sound(St())
      modifies `code, `cur, `sp, `ids
      ensures (St(), v) == Dead(old(St()), t)
    {
      ghost var s := St();
      var w := 1 + |ids|;
      Terminate(t);
      var dead := NewBlock(w);
      EnterBlock(dead);
      assert St().code == Leave(AddBlock(s, w), t, dead).code;
      v := Const64(WORD_NIL);
    }

    // ---- expressions ----

    /** `compile_expr`: the node's permission to move is used up here and restored around it. */
    method CompileExpr(e: Expr) returns (v: nat)
      requires Live()
      modifies this
      ensures Did(Compile(e, old(St()), old(To()), old(moveOk)), v)
      ensures !failed ==> To() == old(To()) && marks == old(marks) && moveOkHere == old(moveOkHere) && !moveOk
      decreases e, 3
    {
      hide Compile, Sound, Reachable;
      var saved := moveOkHere;
      moveOkHere := moveOk;
      moveOk := false;
      v := CompileNode(e);
      moveOkHere := saved;
    }

    method CompileNode(e: Expr) returns (v: nat)
      requires Live() && !moveOk
      modifies this
      ensures Did(Compile(e, old(St()), old(To()), old(moveOkHere)), v)
      ensures !failed ==> To() == old(To()) && marks == old(marks) && moveOkHere == old(moveOkHere) && !moveOk
      decreases e, 2
    {
      hide Compile, CompileIf, CompileWhile, CompileTry;
      FormIs(e, St(), To(), moveOkHere);
      match e {
        case Fold(_, _, _) => v := Fold(e);
        case Builtin(_, _) => v := CallBuiltin(e);
        case If(_, _, _) => v := IfChain(e);
        case While(_, _) => v := Loop(e);
        case Try(_, _, _) => v := TryForm(e);
        case Scope(_) => v := BlockForm(e);
        case Negate(_) => v := Negation(e);
        case ReturnEarly(_) => v := Leaving(e);
        case _ => v := Leaf(e);
      }
    }

    lemma FormIs(e: Expr, s: State, k: Targets, mv: bool)
      requires Sound(s) && Reachable(k, Width(s))
      ensures e.If? ==> Compile(e, s, k, mv) == CompileIf(e, s, k)
      ensures e.While? ==> Compile(e, s, k, mv) == CompileWhile(e, s, k)
      ensures e.Try? ==> Compile(e, s, k, mv) == CompileTry(e, s, k)
    {
      hide CompileIf, CompileWhile, CompileTry, CompileFold, CompileOperands, CompileStmts, Lowering.Dead, Lowering.LitInt,
           EmitBuiltin, EmitNegate, ScopeEnd;
    }

    /** Literals, names, and the jumps of a loop. */
    method Leaf(e: Expr) returns (v: nat)
      requires Live() && !moveOk && (e.IntLit? || e.Const? || e.Var? || e.Break? || e.Continue?)
      modifies `code, `cur, `sp, `ids, `failed
      ensures Did(Compile(e, old(St()), old(To()), old(moveOkHere)), v)
    {
      hide Lowering.Dead, Lowering.LitInt, Lowering.Const64, FindSlot, CompileIf, CompileWhile, CompileTry, CompileFold,
           CompileOperands, CompileStmts;
      v := 0;
      match e {
        case IntLit(n) => v := LitInt(n);
        case Const(b) => v := Const64(BareWord(b));
        case Var(x) =>
          var i := Lookup(x);
          if i < 0 {
            failed := true;
          } else {
            v := ids[i];
          }
        case Break =>
          if inLoop {
            v := DeadBlock(Br(loopBreak, FrameIds()[..loopWidth]));
          } else {
            failed := true;
          }
        case Continue =>
          if inLoop {
            v := DeadBlock(Br(loopContinue, FrameIds()[..loopWidth]));
          } else {
            failed := true;
          }
      }
    }

    method Negation(e: Expr) returns (v: nat)
      requires e.Negate? && Live() && !moveOk
      modifies this
      ensures Did(Compile(e, old(St()), old(To()), old(moveOkHere)), v)
      ensures !failed ==> To() == old(To()) && marks == old(marks) && moveOkHere == old(moveOkHere) && !moveOk
      decreases e, 0
    {
      hide Compile, EmitNegate;
      NegateIs(e, St(), To(), moveOkHere);
      v := CompileExpr(e.e);
      if failed { return; }
      v := Minus(v);
    }

    lemma NegateIs(e: Expr, s: State, k: Targets, mv: bool)
      requires e.Negate? && Sound(s) && Reachable(k, Width(s))
      ensures Compile(e, s, k, mv) == var o := Compile(e.e, s, k, false); if o.Fail? then Fail else Same(EmitNegate(o.s, o.v))
    {
    }

    /** An early return. */
    method Leaving(e: Expr) returns (v: nat)
      requires e.ReturnEarly? && Live() && !moveOk
      modifies this
      ensures Did(Compile(e, old(St()), old(To()), old(moveOkHere)), v)
      ensures !failed ==> To() == old(To()) && marks == old(marks) && moveOkHere == old(moveOkHere) && !moveOk
      decreases e, 0
    {
      hide Compile, Lowering.Dead;
      ReturnIs(e, St(), To(), moveOkHere);
      moveOk := true;
      v := CompileExpr(e.e);
      if failed { return; }
      v := DeadBlock(Return([v]));
    }

    lemma ReturnIs(e: Expr, s: State, k: Targets, mv: bool)
      requires e.ReturnEarly? && Sound(s) && Reachable(k, Width(s))
      ensures Compile(e, s, k, mv) == var o := Compile(e.e, s, k, true); if o.Fail? then Fail else Same(Lowering.Dead(o.s, Return([o.v])))
    {
    }

    /** `0 - x`. */
    method Minus(x: nat) returns (v: nat)
      requires Placed(St())
      modifies `code
      ensures (St(), v) == EmitNegate(old(St()), x)
    {
      ghost var s := St();
      var zero := Const64(I32Word(0));
      v := RtCall("jacl_sub", [sp, zero, x]);
      PutMore(s, [ConstI64(I32Word(0))], CallInsts(Next(s) + 1, "jacl_sub", [s.sp, Next(s), x]));
    }

    lemma FoldStart(e: Expr, s: State, k: Targets, mv: bool)
      requires e.Fold? && Sound(s) && Reachable(k, Width(s))
      ensures e.rest == NoExprs ==> Compile(e, s, k, mv) == Fail
      ensures e.rest != NoExprs ==>
                Compile(e, s, k, mv) == var o := Compile(e.first, s, k, mv);
                if o.Fail? then Fail else CompileFold(e.head, e.rest, o.s, o.v, k, mv)
    {
    }

    /** The dynamic fold over the operands. */
    method Fold(e: Expr) returns (v: nat)
      requires e.Fold? && Live() && !moveOk
      modifies this
      ensures Did(Compile(e, old(St()), old(To()), old(moveOkHere)), v)
      ensures !failed ==> To() == old(To()) && marks == old(marks) && moveOkHere == old(moveOkHere) && !moveOk
      decreases e, 0
    {
      hide Compile, CompileFold, FoldStep;
      FoldStart(e, St(), To(), moveOkHere);
      v := 0;
      if e.rest == NoExprs {
        failed := true;
        return;
      }
      var mv := moveOkHere;
      moveOk := mv;
      v := CompileExpr(e.first);
      if failed { return; }
      ghost var goal := Compile(e, old(St()), old(To()), mv);
      var rest := e.rest;
      while rest.MoreExprs?
        invariant e decreases to rest
        invariant Live() && To() == old(To()) && marks == old(marks) && moveOkHere == mv && !moveOk
        invariant CompileFold(e.head, rest, St(), v, To(), mv) == goal
        decreases rest
      {
        FoldUnrolled(e.head, rest, St(), v, To(), mv);
        v := FoldOne(e.head, rest.e, v);
        if failed { return; }
        rest := rest.rest;
      }
      FoldEnd(e.head, St(), v, To(), mv);
    }

    lemma FoldEnd(h: Head, s: State, acc: nat, k: Targets, mv: bool)
      requires Sound(s) && Reachable(k, Width(s))
      ensures CompileFold(h, NoExprs, s, acc, k, mv) == Ok(s, acc)
    {
    }

    /** The accumulator is pinned while the operand is lowered, and read back where that ends. */
    method FoldOne(h: Head, e: Expr, acc: nat) returns (v: nat)
      requires Live() && !moveOk
      modifies this
      ensures Did(FoldStep(h, e, old(St()), acc, old(To()), old(moveOkHere)), v)
      ensures !failed ==> To() == old(To()) && marks == old(marks) && moveOkHere == old(moveOkHere) && !moveOk
      decreases e, 4
    {
      hide Compile, Guarded, Release;
      var mv := moveOkHere;
      var pin := PinPush(acc);
      moveOk := mv;
      v := 0;
      var rhs := CompileExpr(e);
      if failed { return; }
      v := Combine(mv, h, pin, rhs);
    }

    /** Read the pinned accumulator back, release its pin, and combine. */
    method Combine(mv: bool, h: Head, pin: nat, rhs: nat) returns (v: nat)
      requires Live() && |ids| == pin + 1 && Reachable(To(), 1 + pin)
      modifies `code, `cur, `sp, `ids, `slots
      ensures |old(ids)| == pin + 1 && Sound(Release(old(St()), pin, 1))
      ensures (St(), v) == Guarded(Release(old(St()), pin, 1), mv, h, old(ids)[pin], rhs)
    {
      hide Guarded;
      var lhs := ids[pin];
      PinRelease(pin, 1);
      v := BinopGuarded(mv, h, lhs, rhs);
    }

    /** `compile_operands`, then the call. */
    method CallBuiltin(e: Expr) returns (v: nat)
      requires e.Builtin? && Live() && !moveOk
      modifies this
      ensures Did(Compile(e, old(St()), old(To()), old(moveOkHere)), v)
      ensures !failed ==> To() == old(To()) && marks == old(marks) && moveOkHere == old(moveOkHere) && !moveOk
      decreases e, 1
    {
      hide Compile, CompileOperands, EmitBuiltin;
      BuiltinStart(e, St(), To(), moveOkHere);
      v := 0;
      var mark := |ids|;
      Operands(e);
      if failed { return; }
      v := CallOperands(e.fn, mark);
    }

    lemma BuiltinStart(e: Expr, s: State, k: Targets, mv: bool)
      requires e.Builtin? && Sound(s) && Reachable(k, Width(s))
      ensures Compile(e, s, k, mv) == var o := CompileOperands(e.args, s, k, mv);
        if o.Fail? then Fail else Same(EmitBuiltin(o.s, e.fn, |s.ids|))
    {
    }

    /** Read the pins back, release them, call. */
    method CallOperands(fn: string, mark: nat) returns (v: nat)
      requires Sound(St()) && mark <= |ids|
      modifies `code, `slots, `ids
      ensures (St(), v) == EmitBuiltin(old(St()), fn, mark)
    {
      hide Put;
      var ops := ids[mark..];
      PinRelease(mark, |ops|);
      v := RtCall(fn, [sp] + ops);
    }

    /** `compile_operands`: each operand is pinned across the next ones. */
    method Operands(e: Expr)
      requires e.Builtin? && Live() && !moveOk
      modifies this
      ensures SameState(CompileOperands(e.args, old(St()), old(To()), old(moveOkHere)), if failed then Fail else Ok(St(), 0))
      ensures !failed ==> To() == old(To()) && marks == old(marks) && moveOkHere == old(moveOkHere) && !moveOk
      decreases e, 0
    {
      hide Compile, CompileOperands;
      var mv := moveOkHere;
      ghost var goal := CompileOperands(e.args, St(), To(), mv);
      var rest := e.args;
      while rest.MoreExprs?
        invariant e decreases to rest
        invariant Live() && To() == old(To()) && marks == old(marks) && moveOkHere == mv && !moveOk
        invariant SameState(CompileOperands(rest, St(), To(), mv), goal)
        decreases rest
      {
        OperandUnrolled(rest, St(), To(), mv);
        moveOk := mv;
        var x := CompileExpr(rest.e);
        if failed { return; }
        var slot := PinPush(x);
        rest := rest.rest;
      }
      OperandsEnd(St(), To(), mv);
    }

    lemma OperandUnrolled(args: Exprs, s: State, k: Targets, mv: bool)
      requires args.MoreExprs? && Sound(s) && Reachable(k, Width(s))
      ensures CompileOperands(args, s, k, mv) == var o := Compile(args.e, s, k, mv);
        if o.Fail? then Fail else CompileOperands(args.rest, Push(o.s, Pin, o.v), k, mv)
    {
    }

    lemma OperandsEnd(s: State, k: Targets, mv: bool)
      requires Sound(s) && Reachable(k, Width(s))
      ensures CompileOperands(NoExprs, s, k, mv) == Ok(s, 0)
    {
    }

    /** Outcomes that differ at most in the value id, which operand lists do not use. */
    ghost predicate SameState(o: Outcome, p: Outcome) {
      o.Ok? == p.Ok? && (o.Ok? ==> o.s == p.s)
    }

    /** `compile_if_chain`. */
    method IfChain(e: Expr) returns (v: nat)
      requires e.If? && Live() && !moveOk
      modifies this
      ensures Did(CompileIf(e, old(St()), old(To())), v)
      ensures !failed ==> To() == old(To()) && marks == old(marks) && moveOkHere == old(moveOkHere) && !moveOk
      decreases e, 1
    {
      hide Compile, CompileIf, IfRest;
      IfUnrolled(e, St(), To());
      v := 0;
      if 1 + |ids| > IRB_MAX_FRAME {
        failed := true;
        return;
      }
      moveOk := true;
      var cond := CompileExpr(e.cond);
      if failed { return; }
      v := IfArms(e, cond);
    }

    /** Both arms, each on from the frame the condition left. */
    method IfArms(e: Expr, cond: nat) returns (v: nat)
      requires e.If? && Live() && !moveOk
      modifies this
      ensures Did(IfRest(e, old(St()), cond, old(To())), v)
      ensures !failed ==> To() == old(To()) && marks == old(marks) && moveOkHere == old(moveOkHere) && !moveOk
      decreases e, 0
    {
      hide Compile, Fork, ArmEnd;
      v := 0;
      var elseBlk, joinBlk := ForkOn(cond);
      var thenRes := CompileExpr(e.thn);
      if failed { return; }
      Join(joinBlk, thenRes, elseBlk);
      var elseRes := CompileExpr(e.els);
      if failed { return; }
      Join(joinBlk, elseRes, joinBlk);
      v := 1 + |ids|;
    }

    /** Test the condition, branch with the frame, and go on in the first new block. */
    method ForkOn(cond: nat) returns (elseBlk: nat, joinBlk: nat)
      requires Sound(St())
      modifies `code, `cur, `sp, `ids
      ensures St() == Fork(old(St()), cond) && elseBlk == |old(code)| + 1 && joinBlk == |old(code)| + 2
    {
      hide Put, TruthyInsts;
      var truth := Truthy(cond);
      var w := 1 + |ids|;
      var thenBlk := NewBlock(w);
      elseBlk := NewBlock(w);
      joinBlk := NewBlock(w + 1);
      var frame := FrameIds();
      Terminate(BrIf(truth, thenBlk, frame, elseBlk, frame));
      EnterBlock(thenBlk);
    }

    /** An arm's result to the join block. */
    method Join(joinBlk: nat, res: nat, next: nat)
      requires Sound(St()) && next < |code|
      modifies `code, `cur, `sp, `ids
      ensures St() == ArmEnd(old(St()), joinBlk, res, next)
    {
      Terminate(Br(joinBlk, FrameIds() + [res]));
      EnterBlock(next);
    }

    /** `compile_while`. */
    method Loop(e: Expr) returns (v: nat)
      requires e.While? && Live() && !moveOk
      modifies this
      ensures Did(CompileWhile(e, old(St()), old(To())), v)
      ensures !failed ==> To() == old(To()) && marks == old(marks) && moveOkHere == old(moveOkHere) && !moveOk
      decreases e, 0
    {
      hide Compile, CompileWhile, LoopOpen, LoopRest;
      LoopUnrolled(e, St(), To());
      v := 0;
      if 1 + |ids| > IRB_MAX_FRAME {
        failed := true;
        return;
      }
      var header := LoopHeader();
      moveOk := true;
      var cond := CompileExpr(e.cond);
      if failed { return; }
      v := LoopBody(e, cond, header);
    }

    /** The body, with the loop targets saved and restored around it. */
    method LoopBody(e: Expr, cond: nat, header: nat) returns (v: nat)
      requires e.While? && Live() && !moveOk && header + 2 < |code|
      modifies this
      ensures Did(LoopRest(e, old(St()), cond, header, old(To())), v)
      ensures !failed ==> To() == old(To()) && marks == old(marks) && moveOkHere == old(moveOkHere) && !moveOk
      decreases e.body, 5
    {
      hide Compile, LoopTest, LoopEnd, Lowering.Const64, LoopTargets;
      v := 0;
      LoopBranch(cond, header);
      var res := InLoop(e.body, header);
      if failed { return; }
      Repeat(header);
      v := Const64(WORD_NIL);
    }

    method InLoop(body: Expr, header: nat) returns (v: nat)
      requires Live() && !moveOk
      modifies this
      ensures Reachable(LoopTargets(old(To()), header, Width(old(St()))), Width(old(St())))
      ensures Did(Compile(body, old(St()), LoopTargets(old(To()), header, Width(old(St()))), false), v)
      ensures !failed ==> To() == old(To()) && marks == old(marks) && moveOkHere == old(moveOkHere) && !moveOk
      decreases body, 4
    {
      hide Compile;
      var si, sc, sb, sw := inLoop, loopContinue, loopBreak, loopWidth;
      inLoop, loopContinue, loopBreak, loopWidth := true, header, header + 2, 1 + |ids|;
      v := CompileExpr(body);
      if failed { return; }
      inLoop, loopContinue, loopBreak, loopWidth := si, sc, sb, sw;
    }

    /** Header, body and exit, each with the frame; on in the header. */
    method LoopHeader() returns (header: nat)
      requires Sound(St())
      modifies `code, `cur, `sp, `ids
      ensures St() == LoopOpen(old(St())) && header == |old(code)|
    {
      var w := 1 + |ids|;
      header := NewBlock(w);
      var body := NewBlock(w);
      var exit := NewBlock(w);
      Terminate(Br(header, FrameIds()));
      EnterBlock(header);
    }

    method LoopBranch(cond: nat, header: nat)
      requires Sound(St()) && header + 1 < |code|
      modifies `code, `cur, `sp, `ids
      ensures St() == LoopTest(old(St()), cond, header)
    {
      hide Put, TruthyInsts;
      var truth := Truthy(cond);
      var frame := FrameIds();
      Terminate(BrIf(truth, header + 1, frame, header + 2, frame));
      EnterBlock(header + 1);
    }

    method Repeat(header: nat)
      requires Sound(St()) && header + 2 < |code|
      modifies `code, `cur, `sp, `ids
      ensures St() == LoopEnd(old(St()), header)
    {
      Terminate(Br(header, FrameIds()));
      EnterBlock(header + 2);
    }

    /** `compile_try`; the error target is saved and restored around the body. */
    method TryForm(e: Expr) returns (v: nat)
      requires e.Try? && Live() && !moveOk
      modifies this
      ensures Did(CompileTry(e, old(St()), old(To())), v)
      ensures !failed ==> To() == old(To()) && marks == old(marks) && moveOkHere == old(moveOkHere) && !moveOk
      decreases e, 0
    {
      hide Compile, CompileTry, TryOpen, TryRest, TryTargets;
      TryUnrolled(e, St(), To());
      v := 0;
      if 1 + |ids| > IRB_MAX_FRAME {
        failed := true;
        return;
      }
      var handler := TryBlocks();
      var bv := InTry(e.body, handler);
      if failed { return; }
      v := TryHandler(e, bv, handler);
    }

    method InTry(body: Expr, handler: nat) returns (v: nat)
      requires Live() && !moveOk
      modifies this
      ensures Reachable(TryTargets(old(To()), handler, Width(old(St()))), Width(old(St())))
      ensures Did(Compile(body, old(St()), TryTargets(old(To()), handler, Width(old(St()))), false), v)
      ensures !failed ==> To() == old(To()) && marks == old(marks) && moveOkHere == old(moveOkHere) && !moveOk
      decreases body, 4
    {
      hide Compile;
      var st, stt, stw := inTry, tryTarget, tryWidth;
      inTry, tryTarget, tryWidth := true, handler, 1 + |ids|;
      v := CompileExpr(body);
      if failed { return; }
      inTry, tryTarget, tryWidth := st, stt, stw;
    }

    /** The handler and the join. */
    method TryBlocks() returns (handler: nat)
      requires Sound(St())
      modifies `code
      ensures St() == TryOpen(old(St())) && handler == |old(code)|
    {
      var w := 1 + |ids|;
      handler := NewBlock(w + 1);
      var join := NewBlock(w + 1);
    }

    method TryHandler(e: Expr, bv: nat, handler: nat) returns (v: nat)
      requires e.Try? && Live() && !moveOk && handler + 1 < |code|
      modifies this
      ensures Did(TryRest(e, old(St()), bv, handler, old(To())), v)
      ensures !failed ==> To() == old(To()) && marks == old(marks) && moveOkHere == old(moveOkHere) && !moveOk
      decreases e.handler, 4
    {
      hide Compile, TryTest, ArmEnd, HandlerScope;
      v := 0;
      TryBranch(bv, handler);
      ghost var t := St();
      HandlerEnter(e.x);
      var hv := CompileExpr(e.handler);
      if failed { return; }
      ScopeExit();
      assert St().mark == t.mark;
      Join(handler + 1, hv, handler + 1);
      v := 1 + |ids|;
    }

    /** The body's value may be an error: to the handler, else to the join. */
    method TryBranch(bv: nat, handler: nat)
      requires Sound(St()) && handler < |code|
      modifies `code, `cur, `sp, `ids
      ensures St() == TryTest(old(St()), bv, handler)
    {
      hide Put, IsErrorInsts;
      var truth := IsErrorBit(bv);
      var frame := FrameIds();
      Terminate(BrIf(truth, handler, frame + [bv], handler + 1, frame + [bv]));
      EnterBlock(handler);
    }

    /** The handler's scope, with the error as its first binding. */
    method HandlerEnter(x: string)
      requires Sound(St())
      modifies `slots, `ids, `marks
      ensures St() == HandlerScope(old(St()), x) && marks == old(marks) + [|old(slots)|]
    {
      var w := 1 + |ids|;
      marks := marks + [|slots|];
      slots, ids := slots + [Local(x, false)], ids + [w];
    }

    /** Where the innermost scope began. */
    function Top(): nat
      reads `marks
    {
      if marks == [] then 0 else marks[|marks| - 1]
    }

    /** `scope_exit`. */
    method ScopeExit()
      requires marks != [] && marks[|marks| - 1] <= |slots| == |ids|
      modifies `slots, `ids, `marks
      ensures marks == old(marks)[..|old(marks)| - 1]
      ensures St() == ScopeEnd(old(St()), old(marks)[|old(marks)| - 1], Top())
    {
      var n := marks[|marks| - 1];
      marks := marks[..|marks| - 1];
      slots, ids := slots[..n], ids[..n];
    }

    /** A block: its statements in a scope of their own; the last one's value. */
    method BlockForm(e: Expr) returns (v: nat)
      requires e.Scope? && Live() && !moveOk
      modifies this
      ensures Did(Compile(e, old(St()), old(To()), old(moveOkHere)), v)
      ensures !failed ==> To() == old(To()) && marks == old(marks) && moveOkHere == old(moveOkHere) && !moveOk
      decreases e, 1
    {
      hide Compile, CompileStmts, StmtStep, ScopeEnd;
      ghost var outer := St();
      ScopeStart(e, outer, To(), moveOkHere);
      marks := marks + [|slots|];
      v := Statements(e);
      if failed { return; }
      ScopeExit();
      assert Top() == outer.mark;
    }

    method Statements(e: Expr) returns (v: nat)
      requires e.Scope? && Live() && !moveOk
      modifies this
      ensures Did(CompileStmts(e.stmts, old(St()), old(To())), v)
      ensures !failed ==> To() == old(To()) && marks == old(marks) && moveOkHere == old(moveOkHere) && !moveOk
      decreases e, 0
    {
      hide Compile, CompileStmts, StmtStep;
      ghost var goal := CompileStmts(e.stmts, St(), To());
      v := 0;
      if e.stmts == NoStmts {
        EmptyScope(St(), To());
        v := Const64(I32Word(0));
      }
      var rest := e.stmts;
      while rest.MoreStmts?
        invariant e decreases to rest
        invariant Live() && To() == old(To()) && marks == old(marks) && moveOkHere == old(moveOkHere) && !moveOk
        invariant if rest.MoreStmts? then CompileStmts(rest, St(), To()) == goal else goal == Ok(St(), v)
        decreases rest
      {
        StmtsAre(rest, St(), To());
        v := Statement(rest.s, rest.rest == NoStmts);
        if failed { return; }
        rest := rest.rest;
      }
    }

    lemma ScopeStart(e: Expr, s: State, k: Targets, mv: bool)
      requires e.Scope? && Sound(s) && Reachable(k, Width(s))
      ensures Compile(e, s, k, mv) == var o := CompileStmts(e.stmts, s.(mark := |s.slots|), k);
        if o.Fail? then Fail else Ok(ScopeEnd(o.s, |s.slots|, s.mark), o.v)
    {
    }

    lemma EmptyScope(s: State, k: Targets)
      requires Sound(s) && Reachable(k, Width(s))
      ensures CompileStmts(NoStmts, s, k) == Same(Lowering.Const64(s, I32Word(0)))
    {
    }

    method Statement(st: Stmt, last: bool) returns (v: nat)
      requires Live() && !moveOk
      modifies this
      ensures Did(StmtStep(st, last, old(St()), old(To())), v)
      ensures !failed ==> To() == old(To()) && marks == old(marks) && moveOkHere == old(moveOkHere) && !moveOk
      decreases st, 4
    {
      hide Compile, Lowering.Bind, Lowering.StmtErrorCheck, IsError;
      moveOk := true;
      v := CompileExpr(st.e);
      if failed { return; }
      Bind(st, v);
      if failed { return; }
      if !last && !Binds(st) {
        if 1 + |ids| > IRB_MAX_FRAME {
          failed := true;
          return;
        }
        StmtErrorCheck(v);
      }
    }

    // ---- tail position ----

    /** The code is what lowering in tail position leaves behind. */
    ghost predicate Closed(o: Tail)
      reads this
    {
      match o
      case Stuck => failed
      case Ended(c) => !failed && code == c
    }

    /** `compile_tail`: the frame's shape and the scopes are as before. */
    method CompileTail(e: Expr)
      requires Live() && To() == NO_TARGETS && !moveOk
      modifies this
      ensures Closed(Lowering.CompileTail(e, old(St())))
      ensures !failed ==> To() == NO_TARGETS && slots == old(slots) && |ids| == |slots| && marks == old(marks) && !moveOk
      decreases e, 3
    {
      hide Lowering.TailStmts, Lowering.IfTail, IfCommand, Compile;
      match e {
        case ReturnEarly(e1) => CompileTail(e1);
        case Scope(_) => TailBlock(e);
        case If(_, _, _) =>
          if IfCommand(e) {
            IfTail(e);
          } else {
            ValueTail(e);
          }
        case _ => ValueTail(e);
      }
    }

    /** The value, returned. */
    method ValueTail(e: Expr)
      requires Live() && To() == NO_TARGETS && !moveOk
      modifies this
      ensures Closed(ReturnOf(Compile(e, old(St()), NO_TARGETS, true)))
      ensures !failed ==> To() == NO_TARGETS && slots == old(slots) && |ids| == |slots| && marks == old(marks) && !moveOk
    {
      hide Compile;
      moveOk := true;
      var v := CompileExpr(e);
      if failed { return; }
      Terminate(Return([v]));
    }

    /** `compile_if_tail`: two arms that each return. */
    method IfTail(e: Expr)
      requires e.If? && Live() && To() == NO_TARGETS && !moveOk
      modifies this
      ensures Closed(Lowering.IfTail(e, old(St())))
      ensures !failed ==> To() == NO_TARGETS && slots == old(slots) && |ids| == |slots| && marks == old(marks) && !moveOk
      decreases e, 1
    {
      hide Compile, Lowering.CompileTail, Lowering.IfTail, TailFork;
      IfTailIs(e, St());
      if 1 + |ids| > IRB_MAX_FRAME {
        failed := true;
        return;
      }
      moveOk := true;
      var cond := CompileExpr(e.cond);
      if failed { return; }
      var thn := ForkTail(cond);
      ghost var g := St();
      CompileTail(e.thn);
      if failed { return; }
      EnterBlock(thn + 1);
      assert St() == NextArm(g, code, thn + 1);
      CompileTail(e.els);
    }

    lemma IfTailIs(e: Expr, s: State)
      requires e.If? && Sound(s)
      ensures Lowering.IfTail(e, s) == if Width(s) > IRB_MAX_FRAME then Stuck else
        var o := Compile(e.cond, s, NO_TARGETS, true);
        if o.Fail? then Stuck else
          var g := TailFork(o.s, o.v);
          var a := Lowering.CompileTail(e.thn, g);
          if a.Stuck? then Stuck else Lowering.CompileTail(e.els, NextArm(g, a.code, |o.s.code| + 1))
    {
      hide Compile, Lowering.CompileTail, TailFork;
    }

    method ForkTail(cond: nat) returns (thn: nat)
      requires Sound(St())
      modifies `code, `cur, `sp, `ids
      ensures St() == TailFork(old(St()), cond) && thn == |old(code)|
    {
      hide Put, TruthyInsts;
      var w := 1 + |ids|;
      var truth := Truthy(cond);
      thn := NewBlock(w);
      var els := NewBlock(w);
      var frame := FrameIds();
      Terminate(BrIf(truth, thn, frame, els, frame));
      EnterBlock(thn);
    }

    /** A block in tail position: its last statement is, and a direct `return` among the others ends it. */
    method TailBlock(e: Expr)
      requires e.Scope? && Live() && To() == NO_TARGETS && !moveOk
      modifies this
      ensures Closed(Lowering.TailStmts(e.stmts, old(St()).(mark := |old(slots)|)))
      ensures !failed ==> To() == NO_TARGETS && slots == old(slots) && |ids| == |slots| && marks == old(marks) && !moveOk
      decreases e, 2
    {
      hide Compile, Lowering.CompileTail, Lowering.TailStmts, StmtStep;
      marks := marks + [|slots|];
      TailStatements(e);
      if failed { return; }
      assert slots[..|old(slots)|] == old(slots);
      ScopeExit();
      assert marks == old(marks) && slots == St().slots;
    }

    method TailStatements(e: Expr)
      requires e.Scope? && Live() && To() == NO_TARGETS && !moveOk
      modifies this
      ensures Closed(Lowering.TailStmts(e.stmts, old(St())))
      ensures !failed ==> To() == NO_TARGETS && old(slots) <= slots && |ids| == |slots| && marks == old(marks) && !moveOk
      decreases e, 1
    {
      hide Compile, Lowering.CompileTail, Lowering.TailStmts, StmtStep;
      TailStmtsIs(e.stmts, St());
      if e.stmts == NoStmts {
        var v := Const64(I32Word(0));
        Terminate(Return([v]));
        return;
      }
      ghost var goal := Lowering.TailStmts(e.stmts, St());
      var rest := e.stmts;
      while rest.rest.MoreStmts?
        invariant e decreases to rest
        invariant rest.MoreStmts?
        invariant Live() && To() == NO_TARGETS && marks == old(marks) && old(slots) <= slots && !moveOk
        invariant Lowering.TailStmts(rest, St()) == goal
        decreases rest
      {
        TailStmtsIs(rest, St());
        if rest.s.Do? && rest.s.e.ReturnEarly? {
          CompileTail(rest.s.e);
          return;
        }
        var v := Statement(rest.s, false);
        if failed { return; }
        rest := rest.rest;
      }
      TailStmtsIs(rest, St());
      LastTail(rest.s);
    }

    /** The last statement: an expression in tail position, or a binding whose value is returned. */
    method LastTail(st: Stmt)
      requires Live() && To() == NO_TARGETS && !moveOk
      modifies this
      ensures Closed(if st.Do? then Lowering.CompileTail(st.e, old(St())) else ReturnOf(StmtStep(st, true, old(St()), NO_TARGETS)))
      ensures !failed ==> To() == NO_TARGETS && old(slots) <= slots && |ids| == |slots| && marks == old(marks) && !moveOk
      decreases st, 0
    {
      hide Compile, Lowering.CompileTail, StmtStep;
      if st.Do? {
        CompileTail(st.e);
      } else {
        var v := Statement(st, true);
        if failed { return; }
        Terminate(Return([v]));
      }
    }

    lemma TailStmtsIs(stmts: Stmts, s: State)
      requires Sound(s)
      ensures stmts == NoStmts ==> Lowering.TailStmts(stmts, s) == ReturnOf(Same(Lowering.Const64(s, I32Word(0))))
      ensures stmts.MoreStmts? ==>
        Lowering.TailStmts(stmts, s) ==
        if stmts.s.Do? && (stmts.rest == NoStmts || stmts.s.e.ReturnEarly?) then Lowering.CompileTail(stmts.s.e, s)
        else
          var o := StmtStep(stmts.s, stmts.rest == NoStmts, s, NO_TARGETS);
          if o.Fail? || stmts.rest == NoStmts then ReturnOf(o) else Lowering.TailStmts(stmts.rest, o.s)
    {
      hide Compile, Lowering.CompileTail, StmtStep;
    }
  }

  /** The code returns, on every host and for all arguments, exactly what the source body gives. */
  ghost predicate MeansBody(code: seq<Block>, params: seq<string>, body: Expr) {
    forall host: Host, args: seq<Word>, w: Word :: ProperCall(host, params, args) ==>
      (SourceGives(host, body, Arguments(params, args), w) <==> Reaches(code, host.rt, Entry(host, args), Done([w])))
  }

  ghost predicate ProperCall(host: Host, params: seq<string>, args: seq<Word>) {
    HostOk(host) && |params| == |args| && forall i :: 0 <= i < |args| ==> WellTagged(args[i])
  }

  /** Compile a proc in one mutable context. It is refused exactly when its names, its jumps, its folds or the width
      of its frames say so; otherwise the code is complete, block-local and means the body. */
  method CompileFunction(params: seq<string>, body: Expr) returns (ok: bool, code: seq<Block>)
    ensures ok <==> ProcCompiles(params, body)
    ensures ok ==> CodeOk(code) && (forall b :: 0 <= b < |code| ==> code[b].term != NoTerm)
    ensures ok ==> MeansBody(code, params, body)
  {
    hide Compile, Lowering.CompileTail, ProcEntry, CodeOk, ProcCompiles, Repeats;
    ProcExactly(params, body);
    ok, code := false, [];
    if |params| > CG_MAX_PARAMS { return; }
    var cx := new Cx(|params|);
    cx.DefineParams(params);
    if cx.failed { return; }
    EntryOk(params);
    cx.CompileTail(body);
    if cx.failed { return; }
    ok, code := true, cx.code;
    ProcIsBlockLocal(params, body);
    forall host: Host, args: seq<Word>, w: Word | ProperCall(host, params, args)
      ensures SourceGives(host, body, Arguments(params, args), w) <==> Reaches(code, host.rt, Entry(host, args), Done([w]))
    {
      CompiledMeansSource(params, body, host, args, w);
    }
  }
}
