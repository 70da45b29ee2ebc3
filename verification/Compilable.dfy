/** Which bodies compile: a condition on the syntax and the names in scope alone, and the proof that lowering
    refuses exactly the others. */
module Compilable {
  import opened Bits
  import opened Ir
  import opened Source
  import opened Lowering

  /** The names and pins that are live, outermost first; where the innermost scope begins among them; whether a
      loop is around. */
  datatype Names = Names(live: seq<Slot>, from: nat, looping: bool)

  // ---- names ----

  predicate IsName(slot: Slot, x: string) {
    slot.Local? && slot.x == x
  }

  /** Some binding of x is live. */
  predicate Bound(c: Names, x: string) {
    exists i :: 0 <= i < |c.live| && IsName(c.live[i], x)
  }

  /** The binding of x that is live last is mutable. */
  predicate Settable(c: Names, x: string) {
    exists i :: 0 <= i < |c.live| && c.live[i] == Local(x, true) && forall j :: i < j < |c.live| ==> !IsName(c.live[j], x)
  }

  /** The innermost scope has an immutable x, which it may not bind again; `_` it may. */
  predicate Taken(c: Names, x: string) {
    x != "_" && exists i :: c.from <= i < |c.live| && c.live[i] == Local(x, false)
  }

  /** The stack pointer and what is live fit a block's parameters. */
  predicate Narrow(c: Names) {
    1 + |c.live| <= 256
  }

  function With(c: Names, slot: Slot): Names {
    c.(live := c.live + [slot])
  }

  function Inner(c: Names): Names {
    c.(from := |c.live|)
  }

  // ---- the condition ----

  predicate Compiles(e: Expr, c: Names)
    decreases e, 0
  {
    match e
    case IntLit(_) => true
    case Const(_) => true
    case Var(x) => Bound(c, x)
    case Fold(_, first, rest) => rest != NoExprs && Compiles(first, c) && EachCompiles(rest, With(c, Pin))
    case Negate(e1) => Compiles(e1, c)
    case Builtin(_, args) => AllCompile(args, c)
    case If(cond, thn, els) => Narrow(c) && Compiles(cond, c) && Compiles(thn, c) && Compiles(els, c)
    case While(cond, body) => Narrow(c) && Compiles(cond, c) && Compiles(body, c.(looping := true))
    case Break => c.looping
    case Continue => c.looping
    case ReturnEarly(e1) => Compiles(e1, c)
    case Try(body, x, handler) => Narrow(c) && Compiles(body, c) && Compiles(handler, With(Inner(c), Local(x, false)))
    case Scope(stmts) => StmtsCompile(stmts, Inner(c))
  }

  /** A fold holds one pin, the accumulator, while it lowers each further operand. */
  predicate EachCompiles(args: Exprs, c: Names)
    decreases args
  {
    args.MoreExprs? ==> Compiles(args.e, c) && EachCompiles(args.rest, c)
  }

  /** A call pins each operand while it lowers the ones after it. */
  predicate AllCompile(args: Exprs, c: Names)
    decreases args
  {
    args.MoreExprs? ==> Compiles(args.e, c) && AllCompile(args.rest, With(c, Pin))
  }

  predicate CanBind(s: Stmt, c: Names) {
    match s
    case Do(_) => true
    case Def(x, _) => !Taken(c, x)
    case Mut(x, _) => Settable(c, x) || !Taken(c, x)
    case Set(x, _) => Settable(c, x)
  }

  function AfterStmt(s: Stmt, c: Names): Names {
    match s
    case Do(_) => c
    case Def(x, _) => With(c, Local(x, false))
    case Mut(x, _) => if Settable(c, x) then c else With(c, Local(x, true))
    case Set(_, _) => c
  }

  /** A statement that is checked for an error forks the frame; a binding, and the last one, is not. */
  predicate StmtCompiles(s: Stmt, last: bool, c: Names)
    decreases s
  {
    Compiles(s.e, c) && CanBind(s, c) && (last || !s.Do? || Narrow(c))
  }

  predicate StmtsCompile(stmts: Stmts, c: Names)
    decreases stmts
  {
    stmts.MoreStmts? ==>
      && StmtCompiles(stmts.s, stmts.rest == NoStmts, c)
      && (stmts.rest.MoreStmts? ==> StmtsCompile(stmts.rest, AfterStmt(stmts.s, c)))
  }

  /** In tail position a direct `return` among the statements drops the rest, whatever it is. */
  predicate TailCompiles(e: Expr, c: Names)
    decreases e, 1
  {
    match e
    case ReturnEarly(e1) => TailCompiles(e1, c)
    case Scope(stmts) => TailStmtsCompile(stmts, Inner(c))
    case If(cond, thn, els) =>
      if IfCommand(e) then Narrow(c) && Compiles(cond, c) && TailCompiles(thn, c) && TailCompiles(els, c)
      else Compiles(e, c)
    case _ => Compiles(e, c)
  }

  predicate TailStmtsCompile(stmts: Stmts, c: Names)
    decreases stmts
  {
    stmts.MoreStmts? ==>
      if stmts.s.Do? && (stmts.rest == NoStmts || stmts.s.e.ReturnEarly?) then TailCompiles(stmts.s.e, c)
      else
        && StmtCompiles(stmts.s, stmts.rest == NoStmts, c)
        && (stmts.rest.MoreStmts? ==> TailStmtsCompile(stmts.rest, AfterStmt(stmts.s, c)))
  }

  /** A proc: parameters are distinct but for `_` and at most 64, and the body compiles among them. */
  predicate ProcCompiles(params: seq<string>, body: Expr) {
    && |params| <= 64 && (forall i, j :: 0 <= i < j < |params| && params[i] == params[j] ==> params[i] == "_")
    && TailCompiles(body, Names(seq(|params|, i requires 0 <= i < |params| => Local(params[i], false)), 0, false))
  }

  // ---- lowering's own tests ----

  function NamesOf(s: State, k: Targets): Names {
    Names(s.slots, s.mark, k.inLoop)
  }

  lemma {:induction false} FindsLast(slots: seq<Slot>, x: string)
    ensures forall j :: FindSlot(slots, x) < j < |slots| ==> !IsName(slots[j], x)
    decreases |slots|
  {
    var n := |slots| - 1;
    if n >= 0 && !IsName(slots[n], x) {
      FindsLast(slots[..n], x);
      assert forall j :: 0 <= j < n ==> slots[..n][j] == slots[j];
    }
  }

  lemma Finds(slots: seq<Slot>, x: string, from: nat, looping: bool)
    ensures var c, i := Names(slots, from, looping), FindSlot(slots, x);
      (i >= 0 <==> Bound(c, x)) && (i >= 0 && slots[i].mutable <==> Settable(c, x))
  {
    FindsLast(slots, x);
    var c, i := Names(slots, from, looping), FindSlot(slots, x);
    if i >= 0 {
      assert IsName(c.live[i], x);
      if slots[i].mutable {
        assert c.live[i] == Local(x, true);
      }
    }
    if Settable(c, x) {
      var j :| 0 <= j < |slots| && slots[j] == Local(x, true) && forall m :: j < m < |slots| ==> !IsName(slots[m], x);
      assert IsName(slots[j], x);
    }
  }

  /** A name is refused exactly when the scope has it already, immutable; otherwise it is live last. */
  lemma DefineExactly(s: State, k: Targets, x: string, v: nat, mutable: bool)
    ensures var o := Define(s, x, v, mutable);
      && (o.Ok? <==> !Taken(NamesOf(s, k), x))
      && (o.Ok? ==> o.s.slots == s.slots + [Local(x, mutable)] && o.s.ids == s.ids + [v] && o.s.mark == s.mark && o.v == v)
  {
    if Define(s, x, v, mutable).Fail? {
      var i :| s.mark <= i < |s.slots| && s.slots[i] == Local(x, false);
      assert NamesOf(s, k).live[i] == Local(x, false);
    }
  }

  lemma BindExactly(s: State, k: Targets, st: Stmt, v: nat)
    requires Sound(s)
    ensures var o := Bind(s, st, v);
      && (o.Ok? <==> CanBind(st, NamesOf(s, k)))
      && (o.Ok? ==> NamesOf(o.s, k) == AfterStmt(st, NamesOf(s, k)))
  {
    hide Define, Taken, Settable;
    match st
    case Do(_) =>
    case Def(x, _) => DefineExactly(s, k, x, v, false);
    case Mut(x, _) =>
      Finds(s.slots, x, s.mark, k.inLoop);
      DefineExactly(s, k, x, v, true);
    case Set(x, _) => Finds(s.slots, x, s.mark, k.inLoop);
  }

  // ---- the stages keep the names ----

  lemma GuardedMark(s: State, mv: bool, h: Head, a: nat, b: nat)
    requires Sound(s)
    ensures Guarded(s, mv, h, a, b).0.mark == s.mark
  {
    hide Put;
  }

  // ---- exactly these compile ----

  /** Lowering succeeds exactly on these, and the scope is then as it was. */
  lemma {:induction false} CompilesExactly(e: Expr, s: State, k: Targets, mv: bool)
    requires Sound(s) && Reachable(k, Width(s))
    ensures var o := Compile(e, s, k, mv);
      (o.Ok? <==> Compiles(e, NamesOf(s, k))) && (o.Ok? ==> NamesOf(o.s, k) == NamesOf(s, k))
    decreases e, 1
  {
    hide Put, LitInt, EmitNegate, EmitBuiltin, Dead, CompileIf, CompileWhile, CompileTry, CompileStmts, CompileFold,
         CompileOperands, Narrow, Bound;
    match e
    case IntLit(_) => StraightMark(e, s);
    case Const(_) => StraightMark(e, s);
    case Var(x) => Finds(s.slots, x, s.mark, k.inLoop);
    case Fold(_, _, _) => FoldExactly(e, s, k, mv);
    case Negate(e1) =>
      CompilesExactly(e1, s, k, false);
      var o := Compile(e1, s, k, false);
      if o.Ok? {
        NegateMark(o.s, o.v);
      }
    case Builtin(_, _) => BuiltinExactly(e, s, k, mv);
    case If(_, _, _) => IfExactly(e, s, k);
    case While(_, _) => WhileExactly(e, s, k);
    case Break =>
      if k.inLoop {
        DeadMark(s, Br(k.onBreak, Frame(s)[..k.loopWidth]));
      }
    case Continue =>
      if k.inLoop {
        DeadMark(s, Br(k.onContinue, Frame(s)[..k.loopWidth]));
      }
    case ReturnEarly(e1) =>
      CompilesExactly(e1, s, k, true);
      var o := Compile(e1, s, k, true);
      if o.Ok? {
        DeadMark(o.s, Return([o.v]));
      }
    case Try(_, _, _) => TryExactly(e, s, k);
    case Scope(stmts) =>
      StmtsExactly(stmts, s.(mark := |s.slots|), k);
  }

  lemma StraightMark(e: Expr, s: State)
    requires Placed(s)
    ensures e.IntLit? ==> LitInt(s, e.n).0.mark == s.mark && LitInt(s, e.n).0.slots == s.slots
    ensures forall c: int :: Const64(s, c).0.mark == s.mark && Const64(s, c).0.slots == s.slots
  {
    hide Put;
  }

  lemma NegateMark(s: State, v: nat)
    requires Placed(s)
    ensures EmitNegate(s, v).0.mark == s.mark
  {
    hide Put;
  }

  lemma BuiltinMark(s: State, fn: string, n: nat)
    requires Sound(s) && n <= |s.ids|
    ensures EmitBuiltin(s, fn, n).0.mark == s.mark
  {
    hide Put;
  }

  lemma DeadMark(s: State, t: Term)
    requires Sound(s)
    ensures Dead(s, t).0.mark == s.mark
  {
    hide Put;
  }

  lemma {:induction false} FoldExactly(e: Expr, s: State, k: Targets, mv: bool)
    requires e.Fold? && Sound(s) && Reachable(k, Width(s))
    ensures var o := Compile(e, s, k, mv);
      (o.Ok? <==> Compiles(e, NamesOf(s, k))) && (o.Ok? ==> NamesOf(o.s, k) == NamesOf(s, k))
    decreases e, 0
  {
    hide CompileFold, EachCompiles;
    CompilesExactly(e.first, s, k, mv);
    var o := Compile(e.first, s, k, mv);
    if o.Ok? {
      EachExactly(e.head, e.rest, o.s, o.v, k, mv);
    }
  }

  lemma {:induction false} BuiltinExactly(e: Expr, s: State, k: Targets, mv: bool)
    requires e.Builtin? && Sound(s) && Reachable(k, Width(s))
    ensures var o := Compile(e, s, k, mv);
      (o.Ok? <==> Compiles(e, NamesOf(s, k))) && (o.Ok? ==> NamesOf(o.s, k) == NamesOf(s, k))
    decreases e, 0
  {
    hide CompileOperands, AllCompile, EmitBuiltin;
    AllExactly(e.args, s, k, mv);
    var o := CompileOperands(e.args, s, k, mv);
    if o.Ok? {
      BuiltinMark(o.s, e.fn, |s.ids|);
    }
  }

  lemma {:induction false} EachExactly(h: Head, args: Exprs, s: State, acc: nat, k: Targets, mv: bool)
    requires Sound(s) && Reachable(k, Width(s))
    ensures var o := CompileFold(h, args, s, acc, k, mv);
      (o.Ok? <==> EachCompiles(args, With(NamesOf(s, k), Pin))) && (o.Ok? ==> NamesOf(o.s, k) == NamesOf(s, k))
    decreases args
  {
    hide Compile, Guarded, Compiles;
    if args.MoreExprs? {
      var p := Push(s, Pin, acc);
      assert NamesOf(p, k) == With(NamesOf(s, k), Pin);
      CompilesExactly(args.e, p, k, mv);
      var o := Compile(args.e, p, k, mv);
      if o.Ok? {
        var r := Release(o.s, |s.ids|, 1);
        assert r.slots == s.slots;
        GuardedMark(r, mv, h, o.s.ids[|s.ids|], o.v);
        var g := Guarded(r, mv, h, o.s.ids[|s.ids|], o.v);
        EachExactly(h, args.rest, g.0, g.1, k, mv);
      }
    }
  }

  lemma {:induction false} AllExactly(args: Exprs, s: State, k: Targets, mv: bool)
    requires Sound(s) && Reachable(k, Width(s))
    ensures var o := CompileOperands(args, s, k, mv);
      (o.Ok? <==> AllCompile(args, NamesOf(s, k))) && (o.Ok? ==> o.s.mark == s.mark)
    decreases args
  {
    hide Compile, Compiles;
    if args.MoreExprs? {
      CompilesExactly(args.e, s, k, mv);
      var o := Compile(args.e, s, k, mv);
      if o.Ok? {
        var p := Push(o.s, Pin, o.v);
        assert NamesOf(p, k) == With(NamesOf(s, k), Pin);
        AllExactly(args.rest, p, k, mv);
      }
    }
  }

  lemma {:induction false} IfExactly(e: Expr, s: State, k: Targets)
    requires e.If? && Sound(s) && Reachable(k, Width(s))
    ensures var o := CompileIf(e, s, k);
      (o.Ok? <==> Compiles(e, NamesOf(s, k))) && (o.Ok? ==> NamesOf(o.s, k) == NamesOf(s, k))
    decreases e, 0
  {
    hide Compile, Fork, ArmEnd;
    CompilesExactly(e.cond, s, k, true);
    var o := Compile(e.cond, s, k, true);
    if o.Ok? {
      var b, f := |o.s.code|, Fork(o.s, o.v);
      CompilesExactly(e.thn, f, k, false);
      var o1 := Compile(e.thn, f, k, false);
      if o1.Ok? {
        CompilesExactly(e.els, ArmEnd(o1.s, b + 2, o1.v, b + 1), k, false);
      }
    }
  }

  lemma {:induction false} WhileExactly(e: Expr, s: State, k: Targets)
    requires e.While? && Sound(s) && Reachable(k, Width(s))
    ensures var o := CompileWhile(e, s, k);
      (o.Ok? <==> Compiles(e, NamesOf(s, k))) && (o.Ok? ==> NamesOf(o.s, k) == NamesOf(s, k))
    decreases e, 0
  {
    hide Compile, LoopOpen, LoopTest, LoopEnd, Put;
    var b := |s.code|;
    CompilesExactly(e.cond, LoopOpen(s), k, true);
    var o := Compile(e.cond, LoopOpen(s), k, true);
    if o.Ok? {
      CompilesExactly(e.body, LoopTest(o.s, o.v, b), LoopTargets(k, b, Width(s)), false);
    }
  }

  lemma {:induction false} TryExactly(e: Expr, s: State, k: Targets)
    requires e.Try? && Sound(s) && Reachable(k, Width(s))
    ensures var o := CompileTry(e, s, k);
      (o.Ok? <==> Compiles(e, NamesOf(s, k))) && (o.Ok? ==> NamesOf(o.s, k) == NamesOf(s, k))
    decreases e, 0
  {
    hide Compile, TryOpen, TryTest, ArmEnd;
    var b := |s.code|;
    CompilesExactly(e.body, TryOpen(s), TryTargets(k, b, Width(s)), false);
    var o := Compile(e.body, TryOpen(s), TryTargets(k, b, Width(s)), false);
    if o.Ok? {
      var t := TryTest(o.s, o.v, b);
      CompilesExactly(e.handler, HandlerScope(t, e.x), k, false);
    }
  }

  lemma StepExactly(st: Stmt, last: bool, s: State, k: Targets)
    requires Sound(s) && Reachable(k, Width(s))
    ensures var o := StmtStep(st, last, s, k);
      && (o.Ok? <==> StmtCompiles(st, last, NamesOf(s, k)))
      && (o.Ok? ==> NamesOf(o.s, k) == AfterStmt(st, NamesOf(s, k)))
    decreases st, 2
  {
    hide Compile, Compiles, Bind, CanBind, AfterStmt, StmtErrorCheck;
    CompilesExactly(st.e, s, k, true);
    var o := Compile(st.e, s, k, true);
    if o.Ok? {
      BindExactly(o.s, k, st, o.v);
      DoAfter(st, NamesOf(s, k));
    }
  }

  lemma DoAfter(st: Stmt, c: Names)
    ensures st.Do? ==> AfterStmt(st, c) == c
  {
  }

  lemma {:induction false} StmtsExactly(stmts: Stmts, s: State, k: Targets)
    requires Sound(s) && Reachable(k, Width(s))
    ensures var o := CompileStmts(stmts, s, k);
      (o.Ok? <==> StmtsCompile(stmts, NamesOf(s, k))) && (o.Ok? ==> o.s.mark == s.mark)
    decreases stmts
  {
    hide Compile, Compiles, Bind, StmtErrorCheck, StmtCompiles, AfterStmt;
    match stmts
    case NoStmts => StraightMark(Const(NilWord), s);
    case MoreStmts(st, rest) =>
      StepExactly(st, rest == NoStmts, s, k);
      StmtsAre(stmts, s, k);
      var o := StmtStep(st, rest == NoStmts, s, k);
      if o.Ok? && rest != NoStmts {
        StmtsExactly(rest, o.s, k);
      }
      StepMark(st, NamesOf(s, k));
  }

  lemma StepMark(st: Stmt, c: Names)
    ensures AfterStmt(st, c).from == c.from
  {
  }

  lemma StmtsAre(stmts: Stmts, s: State, k: Targets)
    requires stmts.MoreStmts? && Sound(s) && Reachable(k, Width(s))
    ensures CompileStmts(stmts, s, k) == var o := StmtStep(stmts.s, stmts.rest == NoStmts, s, k);
      if o.Fail? || stmts.rest == NoStmts then o else CompileStmts(stmts.rest, o.s, k)
  {
    hide Compile, Bind, StmtErrorCheck;
  }

  lemma {:induction false} TailExactly(e: Expr, s: State)
    requires Sound(s)
    ensures CompileTail(e, s).Ended? <==> TailCompiles(e, NamesOf(s, NO_TARGETS))
    decreases e, 1
  {
    hide Compile, Compiles, TailStmts, TailStmtsCompile, IfTail, IfCommand;
    match e
    case ReturnEarly(e1) => TailExactly(e1, s);
    case Scope(stmts) => TailStmtsExactly(stmts, s.(mark := |s.slots|));
    case If(_, _, _) =>
      CompilesExactly(e, s, NO_TARGETS, true);
      if IfCommand(e) {
        IfTailExactly(e, s);
      }
    case _ => CompilesExactly(e, s, NO_TARGETS, true);
  }

  lemma {:induction false} IfTailExactly(e: Expr, s: State)
    requires e.If? && IfCommand(e) && Sound(s)
    ensures IfTail(e, s).Ended? <==> TailCompiles(e, NamesOf(s, NO_TARGETS))
    decreases e, 0
  {
    hide Compile, Compiles, CompileTail, TailFork;
    CompilesExactly(e.cond, s, NO_TARGETS, true);
    var o := Compile(e.cond, s, NO_TARGETS, true);
    if o.Ok? {
      var g := TailFork(o.s, o.v);
      TailExactly(e.thn, g);
      var a := CompileTail(e.thn, g);
      if a.Ended? {
        TailExactly(e.els, NextArm(g, a.code, |o.s.code| + 1));
      }
    }
  }

  lemma {:induction false} TailStmtsExactly(stmts: Stmts, s: State)
    requires Sound(s)
    ensures TailStmts(stmts, s).Ended? <==> TailStmtsCompile(stmts, NamesOf(s, NO_TARGETS))
    decreases stmts
  {
    hide Compile, Compiles, CompileTail, TailCompiles, StmtStep, StmtCompiles, AfterStmt;
    if stmts.MoreStmts? {
      if stmts.s.Do? && (stmts.rest == NoStmts || stmts.s.e.ReturnEarly?) {
        TailExactly(stmts.s.e, s);
      } else {
        StepExactly(stmts.s, stmts.rest == NoStmts, s, NO_TARGETS);
        var o := StmtStep(stmts.s, stmts.rest == NoStmts, s, NO_TARGETS);
        if o.Ok? && stmts.rest != NoStmts {
          TailStmtsExactly(stmts.rest, o.s);
        }
      }
    }
  }

  /** A proc is compiled exactly when the syntax says it can be. */
  lemma ProcExactly(params: seq<string>, body: Expr)
    ensures CompileProc(params, body).Ended? <==> ProcCompiles(params, body)
  {
    hide CompileTail, TailCompiles;
    TailExactly(body, ProcEntry(params));
    assert NamesOf(ProcEntry(params), NO_TARGETS)
        == Names(seq(|params|, i requires 0 <= i < |params| => Local(params[i], false)), 0, false);
    if Repeats(params) {
      var i, j :| 0 <= i < j < |params| && params[i] == params[j] != "_";
    }
  }
}
