/** Every lowering grows the code in the sense of LocalSsa, by induction over the source. */
module LoweringLocal {
  import opened Bits
  import opened Ir
  import opened Source
  import opened Lowering
  import opened LocalSsa

  /** What lowering e from s gives: grown code, and a value id of the block it ends in. */
  ghost predicate Lowered(s: State, o: Outcome) {
    o.Ok? && Grows(s, o.s, map[]) && o.v < Next(o.s) && o.s.mark == s.mark
  }

  /** A lowering leaves its targets good, also for the code after it. */
  lemma After(s: State, k: Targets, t: State)
    requires TargetsOk(k, s.code, Width(s)) && Grows(s, t, map[]) && Width(s) <= Width(t)
    ensures StateOk(t) && Sound(t) && TargetsOk(k, t.code, Width(t)) && Extends(s.code, t.code) && Reachable(k, Width(t))
  {
    TargetsStay(k, s.code, t.code, Width(s), Width(t));
  }

  lemma Compose(s: State, t: State, u: State)
    requires Grows(s, t, map[]) && Grows(t, u, map[])
    ensures Grows(s, u, map[])
  {
    InnerGrows(s, t, map[], u);
  }

  lemma Insts(s: State, insts: seq<Inst>)
    requires StateOk(s) && LocalFrom(insts, Next(s))
    ensures Sound(s) && Grows(s, Put(s, insts), map[])
  {
    Refl(s);
    PutGrows(s, s, map[], insts);
  }

  lemma Pushed(s: State, slot: Slot, v: nat)
    requires StateOk(s) && v < Next(s)
    ensures Sound(s) && StateOk(Push(s, slot, v)) && Width(Push(s, slot, v)) == Width(s) + 1
  {
  }

  lemma Dropped(s: State, n: nat)
    requires StateOk(s) && n <= |s.ids|
    ensures StateOk(s.(slots := s.slots[..n], ids := s.ids[..n]))
  {
  }

  /** The ids stay values of the block when slots are only forgotten, marked or reassigned. */
  lemma Remarked(s: State, m: nat)
    requires StateOk(s)
    ensures StateOk(s.(mark := m))
  {
  }

  lemma LitGrows(s: State, n: Literal)
    requires StateOk(s)
    ensures Sound(s) && Lowered(s, Same(LitInt(s, n)))
  {
    Insts(s, [ConstI64(I32Word(n))]);
    Insts(s, [ConstI64(n)] + CallInsts(Next(s) + 1, "jacl_i64_box", [s.sp, Next(s)]));
  }

  lemma NegateGrows(s: State, o: Outcome)
    requires Lowered(s, o)
    ensures Sound(o.s) && Lowered(s, Same(EmitNegate(o.s, o.v)))
  {
    var n := Next(o.s);
    Insts(o.s, [ConstI64(I32Word(0))] + CallInsts(n + 1, "jacl_sub", [o.s.sp, n, o.v]));
    Compose(s, o.s, EmitNegate(o.s, o.v).0);
  }

  lemma ReturnGrows(s: State, o: Outcome)
    requires Lowered(s, o)
    ensures Sound(o.s) && Lowered(s, Same(Dead(o.s, Return([o.v]))))
  {
    DeadGrows(o.s, Return([o.v]));
    Compose(s, o.s, Dead(o.s, Return([o.v])).0);
  }

  lemma {:induction false} CompileGrows(e: Expr, s: State, k: Targets, mv: bool)
    requires StateOk(s) && TargetsOk(k, s.code, Width(s))
    requires Sound(s) && Reachable(k, Width(s)) && Compile(e, s, k, mv).Ok?
    ensures Lowered(s, Compile(e, s, k, mv))
    decreases e, 1
  {
    hide Grows, StateOk, TargetsOk, Extends, CodeOk, Guarded, LitInt, EmitNegate, EmitBuiltin, Dead, CompileIf, CompileWhile,
         CompileTry, CompileStmts, CompileFold, CompileOperands, Next;
    match e
    case IntLit(n) => LitGrows(s, n);
    case Const(b) => Insts(s, [ConstI64(BareWord(b))]);
    case Var(x) =>
      Refl(s);
      Elements(s, FindSlot(s.slots, x));
    case Fold(h, first, rest) =>
      var o := Compile(first, s, k, mv);
      CompileGrows(first, s, k, mv);
      After(s, k, o.s);
      FoldGrows(h, rest, o.s, o.v, k, mv);
      Compose(s, o.s, Compile(e, s, k, mv).s);
    case Negate(e1) =>
      var o := Compile(e1, s, k, false);
      CompileGrows(e1, s, k, false);
      NegateGrows(s, o);
    case Builtin(fn, args) => BuiltinGrows(fn, args, s, k, mv);
    case If(_, _, _) => IfGrows(e, s, k);
    case While(_, _) => WhileGrows(e, s, k);
    case Break => JumpGrows(s, k, k.onBreak);
    case Continue => JumpGrows(s, k, k.onContinue);
    case ReturnEarly(e1) =>
      var o := Compile(e1, s, k, true);
      CompileGrows(e1, s, k, true);
      ReturnGrows(s, o);
    case Try(_, _, _) => TryGrows(e, s, k);
    case Scope(stmts) => ScopeGrows(stmts, s, k);
  }

  lemma JumpGrows(s: State, k: Targets, target: nat)
    requires StateOk(s) && TargetsOk(k, s.code, Width(s)) && k.inLoop && (target == k.onBreak || target == k.onContinue)
    ensures Sound(s) && k.loopWidth <= Width(s)
    ensures Lowered(s, Same(Dead(s, Br(target, Frame(s)[..k.loopWidth]))))
  {
    FrameBelow(s);
    DeadGrows(s, Br(target, Frame(s)[..k.loopWidth]));
  }

  lemma {:induction false} FoldGrows(h: Head, args: Exprs, s: State, acc: nat, k: Targets, mv: bool)
    requires StateOk(s) && TargetsOk(k, s.code, Width(s)) && acc < Next(s)
    requires Sound(s) && Reachable(k, Width(s)) && CompileFold(h, args, s, acc, k, mv).Ok?
    ensures Lowered(s, CompileFold(h, args, s, acc, k, mv))
    decreases args
  {
    hide Grows, TargetsOk, Extends, CodeOk, Guarded, AllBelow, Compile;
    match args
    case NoExprs => Refl(s);
    case MoreExprs(e, rest) =>
      var p := Push(s, Pin, acc);
      Pushed(s, Pin, acc);
      TargetsWider(k, s.code, Width(s), Width(p));
      var o := Compile(e, p, k, mv);
      CompileGrows(e, p, k, mv);
      var r := Release(o.s, |s.ids|, 1);
      Unpinned(s, p, o.s, r, 1);
      assert r.slots == s.slots;
      After(s, k, r);
      Elements(o.s, |s.ids|);
      var g := Guarded(r, mv, h, o.s.ids[|s.ids|], o.v);
      GuardedGrows(r, mv, h, o.s.ids[|s.ids|], o.v);
      Compose(s, r, g.0);
      After(s, k, g.0);
      FoldGrows(h, rest, g.0, g.1, k, mv);
      Compose(s, g.0, CompileFold(h, args, s, acc, k, mv).s);
  }

  lemma TargetsWider(k: Targets, code: seq<Block>, w: nat, v: nat)
    requires TargetsOk(k, code, w) && w <= v
    ensures TargetsOk(k, code, v) && Reachable(k, v)
  {
  }

  lemma Elements(s: State, i: nat)
    requires StateOk(s) && i < |s.ids|
    ensures s.ids[i] < Next(s)
  {
  }

  /** Releasing the pins pushed on s gives s's slots back, in the block the operands ended in. */
  lemma Unpinned(s: State, p: State, t: State, r: State, n: nat)
    requires Sound(s) && p.code == s.code && p.cur == s.cur && Grows(p, t, map[]) && |t.slots| == |s.slots| + n
    requires s.slots <= t.slots && r == Release(t, |s.ids|, n)
    ensures StateOk(t) && StateOk(r) && Grows(s, r, map[]) && r.slots == s.slots && r.mark == t.mark && Width(r) == Width(s)
    ensures Next(r) == Next(t)
  {
    Dropped(t, |s.ids|);
    SlotsFrom(s, p, t);
    SlotsGrow(s, t, map[], r);
  }

  lemma {:induction false} OperandsGrow(args: Exprs, s: State, k: Targets, mv: bool)
    requires StateOk(s) && TargetsOk(k, s.code, Width(s))
    requires Sound(s) && Reachable(k, Width(s)) && CompileOperands(args, s, k, mv).Ok?
    ensures var o := CompileOperands(args, s, k, mv); Grows(s, o.s, map[]) && o.s.mark == s.mark
    decreases args, 0
  {
    hide Grows, TargetsOk, Extends, CodeOk, Compile;
    match args
    case NoExprs => Refl(s);
    case MoreExprs(e, rest) =>
      var o := Compile(e, s, k, mv);
      CompileGrows(e, s, k, mv);
      After(s, k, o.s);
      var p := Push(o.s, Pin, o.v);
      Pushed(o.s, Pin, o.v);
      SlotsGrow(s, o.s, map[], p);
      TargetsWider(k, o.s.code, Width(o.s), Width(p));
      OperandsGrow(rest, p, k, mv);
      Compose(s, p, CompileOperands(args, s, k, mv).s);
  }

  lemma {:induction false} BuiltinGrows(fn: string, args: Exprs, s: State, k: Targets, mv: bool)
    requires StateOk(s) && TargetsOk(k, s.code, Width(s))
    requires Sound(s) && Reachable(k, Width(s)) && CompileOperands(args, s, k, mv).Ok?
    ensures Lowered(s, Same(EmitBuiltin(CompileOperands(args, s, k, mv).s, fn, |s.ids|)))
    decreases args, 1
  {
    hide Grows, TargetsOk, Extends, CodeOk, CompileOperands;
    var o := CompileOperands(args, s, k, mv);
    OperandsGrow(args, s, k, mv);
    var ops := o.s.ids[|s.ids|..];
    var r := Release(o.s, |s.ids|, |ops|);
    Unpinned(s, s, o.s, r, |ops|);
    Insts(r, CallInsts(Next(r), fn, [r.sp] + ops));
    Compose(s, r, EmitBuiltin(o.s, fn, |s.ids|).0);
  }

  /** The stages of a conditional: each starts in a fresh block and is followed by the next. */
  ghost predicate IfLinked(e: Expr, s: State, k: Targets)
    requires e.If? && Sound(s) && Reachable(k, Width(s)) && CompileIf(e, s, k).Ok?
  {
    var w, o := Width(s), Compile(e.cond, s, k, true);
    var b, f := |o.s.code|, Fork(o.s, o.v);
    var o1 := Compile(e.thn, f, k, false);
    var g := ArmEnd(o1.s, b + 2, o1.v, b + 1);
    var o2 := Compile(e.els, g, k, false);
    var t := ArmEnd(o2.s, b + 2, o2.v, b + 2);
    && Lowered(s, o) && Extends(o.s.code, f.code)
    && StateOk(f) && TargetsOk(k, f.code, Width(f)) && Fresh(f, b, w) && Lowered(f, o1) && Extends(o1.s.code, g.code)
    && StateOk(g) && TargetsOk(k, g.code, Width(g)) && Fresh(g, b + 1, w) && Lowered(g, o2) && Extends(o2.s.code, t.code)
    && Fresh(t, b + 2, w + 1) && f.code[b + 1].nparams == w && f.code[b + 2].nparams == w + 1
  }

  lemma {:induction false} IfGrows(e: Expr, s: State, k: Targets)
    requires e.If? && StateOk(s) && TargetsOk(k, s.code, Width(s))
    requires Sound(s) && Reachable(k, Width(s)) && CompileIf(e, s, k).Ok?
    ensures Lowered(s, CompileIf(e, s, k)) && IfLinked(e, s, k)
    decreases e, 0
  {
    hide Grows, StateOk, TargetsOk, Extends, CodeOk, Compile, Fork, ArmEnd, Next;
    var w := Width(s);
    var o := Compile(e.cond, s, k, true);
    CompileGrows(e.cond, s, k, true);
    After(s, k, o.s);
    var b, f := |o.s.code|, Fork(o.s, o.v);
    ForkGrows(s, o.s, map[], o.v);
    var r := map[b + 1 := w, b + 2 := w + 1];
    assert map[][b + 1 := w][b + 2 := w + 1] == r;
    AfterOpen(s, k, f, r);
    var o1 := Compile(e.thn, f, k, false);
    CompileGrows(e.thn, f, k, false);
    InnerGrows(s, f, r, o1.s);
    ArmGrows(s, o1.s, r, b + 2, o1.v, b + 1);
    var g := ArmEnd(o1.s, b + 2, o1.v, b + 1);
    assert r - {b + 1} == map[b + 2 := w + 1];
    AfterOpen(s, k, g, map[b + 2 := w + 1]);
    var o2 := Compile(e.els, g, k, false);
    CompileGrows(e.els, g, k, false);
    InnerGrows(s, g, map[b + 2 := w + 1], o2.s);
    ArmGrows(s, o2.s, map[b + 2 := w + 1], b + 2, o2.v, b + 2);
    ArmNext(s, o2.s, map[b + 2 := w + 1], b + 2, o2.v);
    assert map[b + 2 := w + 1] - {b + 2} == map[];
    ForkFresh(o.s, o.v);
    ArmFresh(s, o1.s, r, b + 2, o1.v, b + 1);
    ArmFresh(s, o2.s, map[b + 2 := w + 1], b + 2, o2.v, b + 2);
  }

  lemma ForkFresh(s: State, c: nat)
    requires StateOk(s)
    ensures Sound(s) && Fresh(Fork(s, c), |s.code|, Width(s))
  {
  }

  lemma ArmFresh(s0: State, s: State, r: map<nat, nat>, join: nat, v: nat, next: nat)
    requires Grows(s0, s, r) && next in r
    ensures Sound(s) && next < |s.code| && Fresh(ArmEnd(s, join, v, next), next, r[next])
  {
    FreshLeave(s0, s, r, Br(join, Frame(s) + [v]), next);
  }

  lemma ArmNext(s0: State, s: State, r: map<nat, nat>, join: nat, v: nat)
    requires Grows(s0, s, r) && join in r && Sound(s) && join < |s.code|
    ensures var t := ArmEnd(s, join, v, join); Next(t) == r[join] && t.mark == s.mark
  {
  }

  /** The same as After, with blocks reserved. */
  lemma AfterOpen(s: State, k: Targets, t: State, r: map<nat, nat>)
    requires TargetsOk(k, s.code, Width(s)) && Grows(s, t, r) && Width(s) <= Width(t)
    ensures StateOk(t) && Sound(t) && TargetsOk(k, t.code, Width(t)) && Reachable(k, Width(t))
    ensures forall b :: b in r ==> b < |t.code| && t.code[b].nparams == r[b]
  {
    Now(s, t, r);
    TargetsStay(k, s.code, t.code, Width(s), Width(t));
  }

  ghost predicate LoopLinked(e: Expr, s: State, k: Targets)
    requires e.While? && Sound(s) && Reachable(k, Width(s)) && CompileWhile(e, s, k).Ok?
  {
    var b, w, h := |s.code|, Width(s), LoopOpen(s);
    var o := Compile(e.cond, h, k, true);
    var t, k1 := LoopTest(o.s, o.v, b), LoopTargets(k, b, w);
    var o1 := Compile(e.body, t, k1, false);
    var x := LoopEnd(o1.s, b);
    && StateOk(h) && TargetsOk(k, h.code, Width(h)) && Fresh(h, b, w) && Lowered(h, o) && Extends(o.s.code, t.code)
    && StateOk(t) && TargetsOk(k1, t.code, Width(t)) && Fresh(t, b + 1, w) && Lowered(t, o1) && Extends(o1.s.code, x.code)
    && StateOk(x) && Fresh(x, b + 2, w) && t.code[b].nparams == w && t.code[b + 2].nparams == w
    && Extends(s.code, h.code)
  }

  lemma {:induction false} WhileGrows(e: Expr, s: State, k: Targets)
    requires e.While? && StateOk(s) && TargetsOk(k, s.code, Width(s))
    requires Sound(s) && Reachable(k, Width(s)) && CompileWhile(e, s, k).Ok?
    ensures Lowered(s, CompileWhile(e, s, k)) && LoopLinked(e, s, k)
    decreases e, 0
  {
    hide Grows, StateOk, TargetsOk, Extends, CodeOk, Compile, LoopOpen, LoopTest, LoopEnd;
    var b, w := |s.code|, Width(s);
    var h := LoopOpen(s);
    LoopOpenGrows(s);
    var r := map[b + 1 := w, b + 2 := w];
    AfterOpen(s, k, h, r);
    var o := Compile(e.cond, h, k, true);
    CompileGrows(e.cond, h, k, true);
    InnerGrows(s, h, r, o.s);
    LoopTestGrows(s, o.s, r, o.v, b);
    var t := LoopTest(o.s, o.v, b);
    assert r - {b + 1} == map[b + 2 := w];
    AfterOpen(s, k, t, map[b + 2 := w]);
    var k1 := LoopTargets(k, b, w);
    HeaderWidth(s, o.s, t);
    LoopTargetsOk(k, t.code, b, w);
    var o1 := Compile(e.body, t, k1, false);
    CompileGrows(e.body, t, k1, false);
    InnerGrows(s, t, map[b + 2 := w], o1.s);
    HeaderStays(t, o1.s, b);
    LoopEndGrows(s, o1.s, map[b + 2 := w], b);
    var x := LoopEnd(o1.s, b);
    assert map[b + 2 := w] - {b + 2} == map[];
    After(s, k, x);
    Insts(x, [ConstI64(WORD_NIL)]);
    Compose(s, x, Const64(x, WORD_NIL).0);
    LoopFresh(s, o.s, t, o1.s, w, o.v, b);
    Now(s, h, r);
  }

  lemma LoopFresh(s: State, c: State, t: State, body: State, w: nat, v: nat, b: nat)
    requires StateOk(s) && b == |s.code| && w == Width(s)
    requires Grows(s, c, map[b + 1 := w, b + 2 := w]) && Grows(s, body, map[b + 2 := w])
    ensures Sound(s) && Sound(c) && Sound(body) && b + 2 < |c.code| && b + 2 < |body.code|
    ensures Fresh(LoopOpen(s), b, w) && Fresh(LoopTest(c, v, b), b + 1, w) && Fresh(LoopEnd(body, b), b + 2, w)
  {
    hide Grows, Extends, CodeOk, AllBelow;
    var r, r1 := map[b + 1 := w, b + 2 := w], map[b + 2 := w];
    Now(s, c, r);
    Now(s, body, r1);
    assert b + 2 in r && b + 2 in r1;
    OpenFirst(s);
    TestFirst(s, c, r, v, b);
    FreshLeave(s, body, r1, Br(b, Frame(body)), b + 2);
  }

  lemma OpenFirst(s: State)
    requires Sound(s)
    ensures Fresh(LoopOpen(s), |s.code|, Width(s))
  {
  }

  lemma TestFirst(s: State, c: State, r: map<nat, nat>, v: nat, b: nat)
    requires Grows(s, c, r) && b + 1 in r
    ensures Sound(c) && b + 1 < |c.code| && Fresh(LoopTest(c, v, b), b + 1, r[b + 1])
  {
  }

  /** The loop header keeps its parameters while the condition is lowered. */
  lemma HeaderWidth(s: State, c: State, t: State)
    requires Sound(s) && Sound(c) && Sound(t) && Grows(LoopOpen(s), c, map[]) && Extends(c.code, t.code)
    ensures |s.code| < |t.code| && t.code[|s.code|].nparams == Width(s)
  {
    var h := LoopOpen(s);
    assert h.code[|s.code|].nparams == Width(s);
    assert Grown(h.code[|s.code|], c.code[|s.code|]);
    assert Grown(c.code[|s.code|], t.code[|s.code|]);
  }

  lemma HeaderStays(t: State, u: State, b: nat)
    requires Grows(t, u, map[]) && b < |t.code|
    ensures b < |u.code| && u.code[b].nparams == t.code[b].nparams
  {
    assert Grown(t.code[b], u.code[b]);
  }

  lemma LoopTargetsOk(k: Targets, code: seq<Block>, b: nat, w: nat)
    requires TargetsOk(k, code, w) && b + 2 < |code| && code[b].nparams == code[b + 2].nparams == w && 1 <= w
    ensures TargetsOk(LoopTargets(k, b, w), code, w)
  {
  }

  ghost predicate TryLinked(e: Expr, s: State, k: Targets)
    requires e.Try? && Sound(s) && Reachable(k, Width(s)) && CompileTry(e, s, k).Ok?
  {
    var b, w, h := |s.code|, Width(s), TryOpen(s);
    var k1 := TryTargets(k, b, w);
    var o := Compile(e.body, h, k1, false);
    var t := TryTest(o.s, o.v, b);
    var t1 := HandlerScope(t, e.x);
    var o1 := Compile(e.handler, t1, k, false);
    var u := ScopeEnd(o1.s, |t.slots|, t.mark);
    var x := ArmEnd(u, b + 1, o1.v, b + 1);
    && StateOk(h) && TargetsOk(k1, h.code, Width(h)) && Lowered(h, o) && Extends(o.s.code, t.code)
    && Fresh(t, b, w + 1) && StateOk(t1) && TargetsOk(k, t1.code, Width(t1)) && Lowered(t1, o1)
    && Extends(u.code, x.code) && Fresh(x, b + 1, w + 1) && t.code[b].nparams == t.code[b + 1].nparams == w + 1
    && Next(u) == Next(o1.s)
  }

  lemma {:induction false} TryGrows(e: Expr, s: State, k: Targets)
    requires e.Try? && StateOk(s) && TargetsOk(k, s.code, Width(s))
    requires Sound(s) && Reachable(k, Width(s)) && CompileTry(e, s, k).Ok?
    ensures Lowered(s, CompileTry(e, s, k)) && TryLinked(e, s, k)
    decreases e, 0
  {
    hide Grows, StateOk, TargetsOk, Extends, CodeOk, Compile, TryOpen, TryTest, ArmEnd, HandlerScope, ScopeEnd, Next;
    var b, w := |s.code|, Width(s);
    var h := TryOpen(s);
    TryOpenGrows(s);
    var r := map[b := w + 1, b + 1 := w + 1];
    AfterOpen(s, k, h, r);
    var k1 := TryTargets(k, b, w);
    TryTargetsOk(k, h.code, b, w);
    var o := Compile(e.body, h, k1, false);
    CompileGrows(e.body, h, k1, false);
    InnerGrows(s, h, r, o.s);
    TryTestGrows(s, o.s, r, o.v, b);
    var t := TryTest(o.s, o.v, b);
    var r1 := map[b + 1 := w + 1];
    assert r - {b} == r1;
    AfterOpen(s, k, t, r1);
    HandlerOk(s, o.s, t, r, o.v, b, e.x);
    var t1 := HandlerScope(t, e.x);
    TargetsWider(k, t.code, Width(t), Width(t1));
    var o1 := Compile(e.handler, t1, k, false);
    CompileGrows(e.handler, t1, k, false);
    var u := ScopeEnd(o1.s, |t.slots|, t.mark);
    HandlerDone(s, t, r1, t1, o1.s, u, e.x);
    ArmGrows(s, u, r1, b + 1, o1.v, b + 1);
    ArmNext(s, u, r1, b + 1, o1.v);
    assert r1 - {b + 1} == map[];
    TestFresh(s, o.s, r, o.v, b);
    ArmFresh(s, u, r1, b + 1, o1.v, b + 1);
  }

  lemma TestFresh(s0: State, s: State, r: map<nat, nat>, v: nat, f: nat)
    requires Grows(s0, s, r) && f in r
    ensures Sound(s) && f < |s.code| && Fresh(TryTest(s, v, f), f, r[f])
  {
  }

  lemma HandlerOk(s: State, o: State, t: State, r: map<nat, nat>, v: nat, b: nat, x: string)
    requires Sound(s) && Grows(s, o, r) && Sound(o) && b < |o.code| && t == TryTest(o, v, b) && StateOk(t)
    requires b in r && r[b] == Width(o) + 1
    ensures StateOk(HandlerScope(t, x))
  {
    assert Next(t) == r[b];
  }

  lemma HandlerDone(s: State, t: State, r: map<nat, nat>, t1: State, o: State, u: State, x: string)
    requires Grows(s, t, r) && StateOk(t) && t1 == HandlerScope(t, x) && Grows(t1, o, map[]) && o.slots == t1.slots
    requires Sound(o) && u == ScopeEnd(o, |t.slots|, t.mark)
    ensures Grows(s, u, r) && u.slots == t.slots && Width(u) == Width(t) && u.mark == t.mark
    ensures Next(u) == Next(o)
  {
    SlotsFrom(t, t1, o);
    InnerGrows(s, t, r, o);
    Dropped(o, |t.slots|);
    Remarked(o.(slots := o.slots[..|t.slots|], ids := o.ids[..|t.slots|]), t.mark);
    SlotsGrow(s, o, r, u);
  }

  lemma TryTargetsOk(k: Targets, code: seq<Block>, b: nat, w: nat)
    requires TargetsOk(k, code, w) && b < |code| && code[b].nparams == w + 1 && 1 <= w
    ensures TargetsOk(TryTargets(k, b, w), code, w)
  {
  }

  lemma {:induction false} ScopeGrows(stmts: Stmts, s: State, k: Targets)
    requires StateOk(s) && TargetsOk(k, s.code, Width(s)) && Sound(s) && Reachable(k, Width(s))
    requires CompileStmts(stmts, s.(mark := |s.slots|), k).Ok?
    ensures var o := CompileStmts(stmts, s.(mark := |s.slots|), k);
      Lowered(s, Ok(ScopeEnd(o.s, |s.slots|, s.mark), o.v))
    decreases stmts, 1
  {
    hide Grows, TargetsOk, Extends, CodeOk, CompileStmts;
    var s1 := s.(mark := |s.slots|);
    Remarked(s, |s.slots|);
    StmtsGrow(stmts, s1, k);
    var o := CompileStmts(stmts, s1, k);
    SlotsFrom(s, s1, o.s);
    Now(s, o.s, map[]);
    Dropped(o.s, |s.slots|);
    Remarked(o.s.(slots := o.s.slots[..|s.slots|], ids := o.s.ids[..|s.slots|]), s.mark);
    SlotsGrow(s, o.s, map[], ScopeEnd(o.s, |s.slots|, s.mark));
  }

  lemma BindOk(s: State, st: Stmt, v: nat)
    requires StateOk(s) && Sound(s) && v < Next(s) && Bind(s, st, v).Ok?
    ensures var o := Bind(s, st, v); StateOk(o.s) && o.s.code == s.code && o.s.cur == s.cur && o.v == v
  {
  }

  lemma {:induction false} StmtsGrow(stmts: Stmts, s: State, k: Targets)
    requires StateOk(s) && TargetsOk(k, s.code, Width(s)) && Sound(s) && Reachable(k, Width(s))
    requires CompileStmts(stmts, s, k).Ok?
    ensures var o := CompileStmts(stmts, s, k); Grows(s, o.s, map[]) && o.v < Next(o.s)
    decreases stmts, 0
  {
    hide Grows, StateOk, TargetsOk, Extends, CodeOk, Compile, Bind, StmtErrorCheck;
    match stmts
    case NoStmts => Insts(s, [ConstI64(I32Word(0))]);
    case MoreStmts(st, rest) =>
      var o := Compile(st.e, s, k, true);
      CompileGrows(st.e, s, k, true);
      After(s, k, o.s);
      var o1 := Bind(o.s, st, o.v);
      BindOk(o.s, st, o.v);
      SlotsGrow(s, o.s, map[], o1.s);
      After(s, k, o1.s);
      if rest != NoStmts {
        var t := if Binds(st) then o1.s else StmtErrorCheck(o1.s, k, o1.v);
        if !Binds(st) {
          ErrorCheckGrows(o1.s, k, o1.v);
          Compose(s, o1.s, t);
          After(s, k, t);
        }
        StmtsGrow(rest, t, k);
        Compose(s, t, CompileStmts(stmts, s, k).s);
      }
  }

  // ---- whole functions ----

  lemma EntryOk(params: seq<string>)
    ensures var s := ProcEntry(params); StateOk(s) && TargetsOk(NO_TARGETS, s.code, Width(s)) && Reachable(NO_TARGETS, Width(s))
  {
    var s := ProcEntry(params);
    assert BlockOk(s.code, s.code[0]);
  }

  /** Code that fills s's open block and leaves no new block open. */
  ghost predicate Closes(s: State, code: seq<Block>) {
    && CodeOk(code) && Extends(s.code, code)
    && (forall b :: 0 <= b < |s.code| && b != s.cur ==> code[b] == s.code[b])
    && (forall b :: 0 <= b < |code| ==> (code[b].term == NoTerm <==> StillOpen(s, b)))
  }

  predicate StillOpen(s: State, b: int) {
    0 <= b < |s.code| && b != s.cur && s.code[b].term == NoTerm
  }

  lemma ReturnCloses(s: State, o: Outcome)
    requires o.Ok? && Grows(s, o.s, map[]) && o.v < Next(o.s)
    ensures ReturnOf(o).Ended? && Closes(s, ReturnOf(o).code) && Extends(o.s.code, ReturnOf(o).code)
  {
    var t := SetTerm(o.s, Return([o.v]));
    BlockStays2(o.s.code, t.code, o.s.code[o.s.cur].(term := Return([o.v]))) by {
      assert BlockOk(o.s.code, o.s.code[o.s.cur]);
    }
    assert Extends(o.s.code, t.code);
    CodeStays(o.s.code, t.code, o.s.cur);
    ExtendsTrans(s.code, o.s.code, t.code);
    forall b | 0 <= b < |t.code|
      ensures t.code[b].term == NoTerm <==> StillOpen(s, b)
    {
      assert o.s.code[b].term == NoTerm <==> OpenIn(s, o.s, map[], b);
    }
  }

  lemma ClosesAfter(s: State, t: State, code: seq<Block>)
    requires Grows(s, t, map[]) && Closes(t, code)
    ensures Closes(s, code)
  {
    ExtendsTrans(s.code, t.code, code);
    forall b | 0 <= b < |code|
      ensures code[b].term == NoTerm <==> StillOpen(s, b)
    {
      assert b < |t.code| ==> (t.code[b].term == NoTerm <==> OpenIn(s, t, map[], b));
    }
  }

  lemma TailForkGrows(s: State, c: nat)
    requires StateOk(s) && c < Next(s)
    ensures Sound(s)
    ensures var f, w, g := |s.code|, Width(s), TailFork(s, c);
      Grows(s, g, map[f + 1 := w]) && Extends(s.code, g.code) && Fresh(g, f, w)
  {
    hide Grows, StateOk, Put, TruthyInsts, Extends, CodeOk, AllBelow;
    Refl(s);
    Now(s, s, map[]);
    var n, w, f := Next(s), Width(s), |s.code|;
    var s1 := Put(s, TruthyInsts(n, c));
    TruthyGrows(s, s, map[], c);
    var s2, s3 := AddBlock(s1, w), AddBlock(AddBlock(s1, w), w);
    AddGrows(s, s1, map[], w);
    AddGrows(s, s2, map[f := w], w);
    var r := map[f := w, f + 1 := w];
    assert map[f := w][f + 1 := w] == r;
    Now(s, s3, r);
    SplitGrows(s, s3, r, n + 4, f, Frame(s3), f + 1, Frame(s3));
    FreshLeave(s, s3, r, BrIf(n + 4, f, Frame(s3), f + 1, Frame(s3)), f);
    assert r - {f} == map[f + 1 := w];
    Now(s, TailFork(s, c), map[f + 1 := w]);
  }

  /** The other arm starts in its own empty block, which the first arm left alone. */
  lemma ArmStarts(s: State, g: State, x: nat, code: seq<Block>)
    requires Grows(s, g, map[x := Width(g)]) && Closes(g, code)
    ensures var h := NextArm(g, code, x); StateOk(h) && Sound(h) && Fresh(h, x, Width(g)) && h.slots == g.slots
    ensures Extends(g.code, code)
  {
    assert x in map[x := Width(g)];
  }

  /** Both arms closed: what forked is closed. */
  lemma ArmsClose(s: State, g: State, x: nat, code: seq<Block>, last: seq<Block>)
    requires Grows(s, g, map[x := Width(g)]) && Closes(g, code) && Closes(NextArm(g, code, x), last)
    ensures Closes(s, last)
  {
    var r, h := map[x := Width(g)], NextArm(g, code, x);
    assert x in r;
    ExtendsTrans(s.code, g.code, code);
    ExtendsTrans(s.code, code, last);
    forall b | 0 <= b < |last|
      ensures last[b].term == NoTerm <==> StillOpen(s, b)
    {
      assert last[b].term == NoTerm <==> StillOpen(h, b);
      if b < |code| {
        assert code[b].term == NoTerm <==> StillOpen(g, b);
      }
      if b < |g.code| {
        assert g.code[b].term == NoTerm <==> OpenIn(s, g, r, b);
      }
    }
  }

  /** Every lowering in tail position closes the code it opens. */
  lemma {:induction false} TailCloses(e: Expr, s: State)
    requires StateOk(s) && Sound(s) && CompileTail(e, s).Ended?
    ensures Closes(s, CompileTail(e, s).code)
    decreases e, 1
  {
    hide Grows, StateOk, Extends, CodeOk, Compile, TailStmts, IfTail, Closes, IfCommand;
    match e
    case ReturnEarly(e1) => TailCloses(e1, s);
    case Scope(stmts) =>
      var s1 := s.(mark := |s.slots|);
      Remarked(s, |s.slots|);
      TailStmtsClose(stmts, s1);
      MarkCloses(s, |s.slots|, TailStmts(stmts, s1).code);
    case If(_, _, _) =>
      if IfCommand(e) {
        IfTailCloses(e, s);
      } else {
        ValueCloses(e, s);
      }
    case _ => ValueCloses(e, s);
  }

  lemma MarkCloses(s: State, m: nat, code: seq<Block>)
    requires Closes(s.(mark := m), code)
    ensures Closes(s, code)
  {
  }

  /** Compiled for its value, and that returned. */
  lemma ValueCloses(e: Expr, s: State)
    requires StateOk(s) && Sound(s) && Compile(e, s, NO_TARGETS, true).Ok?
    ensures Closes(s, ReturnOf(Compile(e, s, NO_TARGETS, true)).code)
    ensures Extends(Compile(e, s, NO_TARGETS, true).s.code, ReturnOf(Compile(e, s, NO_TARGETS, true)).code)
  {
    hide Grows, StateOk, Extends, CodeOk, Compile, Closes;
    CompileGrows(e, s, NO_TARGETS, true);
    ReturnCloses(s, Compile(e, s, NO_TARGETS, true));
  }

  /** The stages of a conditional in tail position: the condition o, the fork g, the first arm's code a, the whole. */
  ghost predicate TailLinked(s: State, o: Outcome, g: State, a: seq<Block>, whole: seq<Block>) {
    && o.Ok? && Lowered(s, o) && StateOk(o.s) && Extends(o.s.code, g.code) && StateOk(g) && Fresh(g, |o.s.code|, Width(s))
    && Width(g) == Width(s) && |o.s.code| + 1 < |g.code| && g.code[|o.s.code| + 1].nparams == Width(s)
    && Extends(g.code, a) && Extends(a, whole)
    && var h := NextArm(g, a, |o.s.code| + 1);
    && StateOk(h) && Sound(h) && Fresh(h, |o.s.code| + 1, Width(s))
  }

  lemma {:induction false} IfTailCloses(e: Expr, s: State)
    requires e.If? && StateOk(s) && Sound(s) && IfTail(e, s).Ended?
    ensures Closes(s, IfTail(e, s).code)
    ensures var o := Compile(e.cond, s, NO_TARGETS, true);
      && o.Ok? && var g := TailFork(o.s, o.v);
      && var a := CompileTail(e.thn, g);
      && a.Ended? && TailLinked(s, o, g, a.code, IfTail(e, s).code)
    decreases e, 0
  {
    hide Grows, StateOk, Extends, CodeOk, Compile, CompileTail, Closes, TailFork, NextArm, Next, Fresh;
    var w, o := Width(s), Compile(e.cond, s, NO_TARGETS, true);
    CompileGrows(e.cond, s, NO_TARGETS, true);
    Now(s, o.s, map[]);
    var b, g := |o.s.code|, TailFork(o.s, o.v);
    TailForkGrows(o.s, o.v);
    var r := map[b + 1 := w];
    Now(o.s, g, r);
    assert b + 1 in r;
    var a := CompileTail(e.thn, g).code;
    TailCloses(e.thn, g);
    ArmStarts(o.s, g, b + 1, a);
    var h := NextArm(g, a, b + 1);
    TailCloses(e.els, h);
    ArmsClose(o.s, g, b + 1, a, CompileTail(e.els, h).code);
    ClosesAfter(s, o.s, CompileTail(e.els, h).code);
    ArmExtends(g, a, b + 1, CompileTail(e.els, h).code);
  }

  lemma ArmExtends(g: State, code: seq<Block>, x: nat, last: seq<Block>)
    requires Closes(NextArm(g, code, x), last)
    ensures Extends(code, last)
  {
  }

  lemma StepGrows(st: Stmt, last: bool, s: State, k: Targets)
    requires StateOk(s) && TargetsOk(k, s.code, Width(s)) && Sound(s) && Reachable(k, Width(s)) && StmtStep(st, last, s, k).Ok?
    ensures var o := StmtStep(st, last, s, k);
      Grows(s, o.s, map[]) && StateOk(o.s) && (last || Binds(st) ==> o.v < Next(o.s))
  {
    hide Grows, StateOk, TargetsOk, Extends, CodeOk, Compile, Bind, StmtErrorCheck;
    var o := Compile(st.e, s, k, true);
    CompileGrows(st.e, s, k, true);
    After(s, k, o.s);
    var o1 := Bind(o.s, st, o.v);
    BindOk(o.s, st, o.v);
    SlotsGrow(s, o.s, map[], o1.s);
    if !last && !Binds(st) {
      After(s, k, o1.s);
      ErrorCheckGrows(o1.s, k, o1.v);
      Compose(s, o1.s, StmtErrorCheck(o1.s, k, o1.v));
      Now(s, StmtErrorCheck(o1.s, k, o1.v), map[]);
    }
  }

  lemma {:induction false} TailStmtsClose(stmts: Stmts, s: State)
    requires StateOk(s) && Sound(s) && TailStmts(stmts, s).Ended?
    ensures Closes(s, TailStmts(stmts, s).code)
    decreases stmts
  {
    hide Grows, StateOk, Extends, CodeOk, StmtStep, CompileTail, Closes;
    match stmts
    case NoStmts =>
      Insts(s, [ConstI64(I32Word(0))]);
      ReturnCloses(s, Same(Const64(s, I32Word(0))));
    case MoreStmts(st, rest) =>
      if st.Do? && (rest == NoStmts || st.e.ReturnEarly?) {
        TailCloses(st.e, s);
      } else {
        var o := StmtStep(st, rest == NoStmts, s, NO_TARGETS);
        StepGrows(st, rest == NoStmts, s, NO_TARGETS);
        if rest == NoStmts {
          ReturnCloses(s, o);
        } else {
          TailStmtsClose(rest, o.s);
          ClosesAfter(s, o.s, TailStmts(rest, o.s).code);
        }
      }
  }

  /** Compiled code is block-local and complete: every operand is a parameter or an earlier result of
      its own block, every branch passes exactly its target's parameters, every block ends. */
  lemma ProcIsBlockLocal(params: seq<string>, body: Expr)
    requires CompileProc(params, body).Ended?
    ensures var code := CompileProc(params, body).code;
      CodeOk(code) && |code| > 0 && code[0].nparams == 1 + |params|
      && forall b :: 0 <= b < |code| ==> code[b].term != NoTerm
  {
    hide CompileTail, Repeats;
    var s := ProcEntry(params);
    EntryOk(params);
    TailCloses(body, s);
    assert Grown(s.code[0], CompileProc(params, body).code[0]);
  }

  /** Whatever the arguments and whatever the runtime answers, running a compiled function never
      names a missing value, a missing block or a wrong number of arguments. */
  lemma {:induction false} NeverGoesWrong(params: seq<string>, body: Expr, rt: Runtime, c: Config, n: nat)
    requires CompileProc(params, body).Ended?
    requires c != Broken && InBlock(CompileProc(params, body).code, c)
    ensures Run(CompileProc(params, body).code, rt, c, n) != Broken
    decreases n
  {
    hide CompileProc;
    ProcIsBlockLocal(params, body);
    if n > 0 {
      var code := CompileProc(params, body).code;
      NeverBroken(code, rt, c);
      NeverGoesWrong(params, body, rt, Step(code, rt, c), n - 1);
    }
  }

  /** At some instruction of some block, holding the values of those before it. */
  predicate InBlock(code: seq<Block>, c: Config) {
    c.At? ==> c.block < |code| && c.pc <= |code[c.block].insts| && |c.vals| == code[c.block].nparams + c.pc
  }
}
