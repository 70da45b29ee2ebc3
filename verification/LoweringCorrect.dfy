/** The simulation, by induction over the source and the loop fuel, and what it says of whole functions. */
module LoweringCorrect {
  import opened Bits
  import opened WordArith
  import opened Ir
  import opened Source
  import opened Lowering
  import opened LocalSsa
  import opened LoweringLocal
  import opened LoweringRuns
  import opened LoweringSteps
  import opened GuardRuns
  import opened LoweringMeaning
  import opened Compilable

  /** After a normal landing lowering can go on from there. */
  lemma GoOn(f: Final, s: State, k: Targets, t: State, vals: seq<Word>, fr: seq<Word>, env: Env, pins: seq<Word>)
    requires TargetsOk(k, s.code, Width(s)) && Grows(s, t, map[]) && Width(s) <= Width(t) && HostOk(f.host)
    requires Sound(t) && Holds(t, vals, f.host.sp, fr) && FrameIs(t.slots, fr, env, pins)
    ensures Ready(f, t, k, vals, fr, env, pins)
  {
    After(s, k, t);
  }

  lemma ExtendsInto(f: Final, s: State, t: State)
    requires Grows(s, t, map[]) && Extends(t.code, f.code)
    ensures Extends(s.code, f.code)
  {
    ExtendsTrans(s.code, t.code, f.code);
  }

  lemma Unready(f: Final, s: State, k: Targets, vals: seq<Word>, fr: seq<Word>, env: Env, pins: seq<Word>)
    requires Ready(f, s, k, vals, fr, env, pins)
    ensures StateOk(s) && TargetsOk(k, s.code, Width(s)) && Sound(s) && Reachable(k, Width(s)) && HostOk(f.host)
    ensures Holds(s, vals, f.host.sp, fr) && FrameIs(s.slots, fr, env, pins) && |vals| == Next(s) && |fr| == |s.ids|
    ensures |env| == Named(s.slots) && |pins| == |s.slots| - Named(s.slots)
  {
    FrameCounts(s.slots, fr, env, pins);
  }

  lemma {:induction false} Sim(f: Final, e: Expr, s: State, k: Targets, mv: bool, vals: seq<Word>, fr: seq<Word>, env: Env,
                               pins: seq<Word>, fuel: nat) returns (l: Land)
    requires f.rounds == fuel
    requires Ready(f, s, k, vals, fr, env, pins) && Sound(s) && Reachable(k, Width(s)) && Compile(e, s, k, mv).Ok?
    requires Extends(Compile(e, s, k, mv).s.code, f.code)
    ensures var o := Compile(e, s, k, mv);
      Landed(f, k, Here(s, vals), Eval(f.host, e, env, fuel), o.s, o.v, s.slots, pins, l)
    decreases fuel, e, 2
  {
    hide Ready, Landed, Extends, Grows, StateOk, TargetsOk, LitInt, EmitNegate, EmitBuiltin, Dead, CompileIf, CompileWhile,
         CompileTry, CompileStmts, CompileFold, CompileOperands, Put, WellTagged, HostOk, Here, Holds, FrameIs;
    match e
    case IntLit(n) => l := LitLands(f, k, s, n, vals, fr, env, pins);
    case Const(b) =>
      I32WordTagged(0);
      l := ConstLands(f, k, s, BareWord(b), vals, fr, env, pins);
    case Var(x) =>
      VarLands(f, k, s, x, vals, fr, env, pins);
      l := Land(vals, fr);
    case Fold(h, first, rest) => l := FoldLands(f, e, s, k, mv, vals, fr, env, pins, fuel);
    case Negate(e1) => l := NegateSim(f, e, s, k, mv, vals, fr, env, pins, fuel);
    case Builtin(fn, args) => l := BuiltinSim(f, e, s, k, mv, vals, fr, env, pins, fuel);
    case If(_, _, _) => l := IfSim(f, e, s, k, vals, fr, env, pins, fuel);
    case While(_, _) => l := WhileSim(f, e, s, k, vals, fr, env, pins, fuel);
    case Break => l := JumpLands(f, k, s, k.onBreak, Broke, vals, fr, env, pins);
    case Continue => l := JumpLands(f, k, s, k.onContinue, Continued, vals, fr, env, pins);
    case ReturnEarly(e1) => l := ReturnSim(f, e, s, k, mv, vals, fr, env, pins, fuel);
    case Try(_, _, _) => l := TrySim(f, e, s, k, vals, fr, env, pins, fuel);
    case Scope(stmts) => l := ScopeSim(f, e, s, k, mv, vals, fr, env, pins, fuel);
  }

  /** `break` and `continue`: the loop's prefix of the frame. */
  lemma JumpLands(f: Final, k: Targets, s: State, target: nat, why: Why, vals: seq<Word>, fr: seq<Word>, env: Env,
                  pins: seq<Word>) returns (l: Land)
    requires Ready(f, s, k, vals, fr, env, pins) && k.inLoop && Sound(s) && Reachable(k, Width(s))
    requires (why == Broke && target == k.onBreak) || (why == Continued && target == k.onContinue)
    requires Extends(Dead(s, Br(target, Frame(s)[..k.loopWidth])).0.code, f.code)
    ensures var o := Dead(s, Br(target, Frame(s)[..k.loopWidth]));
      Landed(f, k, Here(s, vals), Abrupt(env, why), o.0, o.1, s.slots, pins, l)
  {
    Unready(f, s, k, vals, fr, env, pins);
    var t := Br(target, Frame(s)[..k.loopWidth]);
    FrameBelow(s);
    DeadGrows(s, t);
    ExtendsTrans(SetTerm(s, t).code, Dead(s, t).0.code, f.code);
    Prefixed(s, vals, f.host.sp, fr, k.loopWidth);
    assert Grown(SetTerm(s, t).code[target], f.code[target]);
    RunBr(f, s, target, Frame(s)[..k.loopWidth], vals, 0);
    l := Land([], fr);
  }

  lemma Prefixed(s: State, vals: seq<Word>, sp: Word, fr: seq<Word>, n: nat)
    requires Placed(s) && Holds(s, vals, sp, fr) && n <= Width(s)
    ensures AllBelow(Frame(s)[..n], |vals|) && Pick(vals, Frame(s)[..n]) == ([sp] + fr)[..n]
  {
    PickFrame(s, vals, sp, fr);
    assert forall i :: 0 <= i < n ==> Pick(vals, Frame(s)[..n])[i] == Pick(vals, Frame(s))[i];
  }

  lemma ReturnLands(f: Final, k: Targets, s: State, v: nat, vals: seq<Word>, fr: seq<Word>, env: Env, pins: seq<Word>)
    returns (l: Land)
    requires Ready(f, s, k, vals, fr, env, pins) && v < |vals| && Sound(s)
    requires Extends(Dead(s, Return([v])).0.code, f.code)
    ensures var o := Dead(s, Return([v]));
      Landed(f, k, Here(s, vals), Abrupt(env, Returned(vals[v])), o.0, o.1, s.slots, pins, l)
  {
    Unready(f, s, k, vals, fr, env, pins);
    DeadGrows(s, Return([v]));
    ExtendsTrans(SetTerm(s, Return([v])).code, Dead(s, Return([v])).0.code, f.code);
    RunTerm(f, s, Return([v]), vals);
    assert Pick(vals, [v]) == [vals[v]];
    l := Land([], fr);
  }

  lemma {:induction false} ReturnSim(f: Final, e: Expr, s: State, k: Targets, mv: bool, vals: seq<Word>, fr: seq<Word>, env: Env,
                                     pins: seq<Word>, fuel: nat) returns (l: Land)
    requires f.rounds == fuel
    requires e.ReturnEarly? && Ready(f, s, k, vals, fr, env, pins) && Sound(s) && Reachable(k, Width(s))
    requires Compile(e, s, k, mv).Ok? && Extends(Compile(e, s, k, mv).s.code, f.code)
    ensures var o := Compile(e, s, k, mv);
      Landed(f, k, Here(s, vals), Eval(f.host, e, env, fuel), o.s, o.v, s.slots, pins, l)
    decreases fuel, e, 0
  {
    hide Ready, Grows, StateOk, TargetsOk, Extends, Dead, Holds, FrameIs, HostOk, WellTagged, Here;
    var o := Compile(e.e, s, k, true);
    var d := Dead(o.s, Return([o.v]));
    Unready(f, s, k, vals, fr, env, pins);
    CompileGrows(e.e, s, k, true);
    After(s, k, o.s);
    DeadGrows(o.s, Return([o.v]));
    ExtendsInto(f, o.s, d.0);
    var l1 := Sim(f, e.e, s, k, true, vals, fr, env, pins, fuel);
    match Eval(f.host, e.e, env, fuel)
    case Normal(env1, w) =>
      GoOn(f, s, k, o.s, l1.vals, l1.fr, env1, pins);
      Unready(f, o.s, k, l1.vals, l1.fr, env1, pins);
      l := ReturnLands(f, k, o.s, o.v, l1.vals, l1.fr, env1, pins);
      LandedFrom(f, k, Here(s, vals), Here(o.s, l1.vals), Eval(f.host, e, env, fuel), d.0, d.1, s.slots, pins, l);
    case Abrupt(_, _) => l := l1;
  }

  lemma {:induction false} NegateSim(f: Final, e: Expr, s: State, k: Targets, mv: bool, vals: seq<Word>, fr: seq<Word>, env: Env,
                                     pins: seq<Word>, fuel: nat) returns (l: Land)
    requires f.rounds == fuel
    requires e.Negate? && Ready(f, s, k, vals, fr, env, pins) && Sound(s) && Reachable(k, Width(s))
    requires Compile(e, s, k, mv).Ok? && Extends(Compile(e, s, k, mv).s.code, f.code)
    ensures var o := Compile(e, s, k, mv);
      Landed(f, k, Here(s, vals), Eval(f.host, e, env, fuel), o.s, o.v, s.slots, pins, l)
    decreases fuel, e, 0
  {
    hide Ready, Grows, StateOk, TargetsOk, Extends, EmitNegate, Holds, FrameIs, HostOk, WellTagged, Here;
    var o := Compile(e.e, s, k, false);
    var d := EmitNegate(o.s, o.v);
    Unready(f, s, k, vals, fr, env, pins);
    CompileGrows(e.e, s, k, false);
    After(s, k, o.s);
    NegateExtends(o.s, o.v);
    ExtendsTrans(o.s.code, d.0.code, f.code);
    var l1 := Sim(f, e.e, s, k, false, vals, fr, env, pins, fuel);
    match Eval(f.host, e.e, env, fuel)
    case Normal(env1, w) =>
      GoOn(f, s, k, o.s, l1.vals, l1.fr, env1, pins);
      Unready(f, o.s, k, l1.vals, l1.fr, env1, pins);
      l := NegateLands(f, k, o.s, o.v, l1.vals, l1.fr, env1, pins);
      LandedFrom(f, k, Here(s, vals), Here(o.s, l1.vals), Eval(f.host, e, env, fuel), d.0, d.1, s.slots, pins, l);
    case Abrupt(_, _) => l := l1;
  }

  lemma NegateExtends(s: State, v: nat)
    requires StateOk(s)
    ensures Placed(s) && Extends(s.code, EmitNegate(s, v).0.code)
  {
    ExtendsPut(s, [ConstI64(I32Word(0))] + CallInsts(Next(s) + 1, "jacl_sub", [s.sp, Next(s), v]));
  }

  // ---- folds ----

  lemma {:induction false} FoldLands(f: Final, e: Expr, s: State, k: Targets, mv: bool, vals: seq<Word>, fr: seq<Word>, env: Env,
                                     pins: seq<Word>, fuel: nat) returns (l: Land)
    requires f.rounds == fuel
    requires e.Fold? && Ready(f, s, k, vals, fr, env, pins) && Sound(s) && Reachable(k, Width(s))
    requires Compile(e, s, k, mv).Ok? && Extends(Compile(e, s, k, mv).s.code, f.code)
    ensures var o := Compile(e, s, k, mv);
      Landed(f, k, Here(s, vals), Eval(f.host, e, env, fuel), o.s, o.v, s.slots, pins, l)
    decreases fuel, e, 0
  {
    hide Grows, StateOk, TargetsOk, Extends, CompileFold;
    var o := Compile(e.first, s, k, mv);
    var d := CompileFold(e.head, e.rest, o.s, o.v, k, mv);
    Unready(f, s, k, vals, fr, env, pins);
    CompileGrows(e.first, s, k, mv);
    After(s, k, o.s);
    FoldGrows(e.head, e.rest, o.s, o.v, k, mv);
    ExtendsInto(f, o.s, d.s);
    var l1 := Sim(f, e.first, s, k, mv, vals, fr, env, pins, fuel);
    match Eval(f.host, e.first, env, fuel)
    case Normal(env1, w) =>
      GoOn(f, s, k, o.s, l1.vals, l1.fr, env1, pins);
      hide Ready;
      l := FoldSim(f, e.head, e.rest, o.s, o.v, k, mv, l1.vals, l1.fr, env1, pins, fuel);
      LandedFrom(f, k, Here(s, vals), Here(o.s, l1.vals), Eval(f.host, e, env, fuel), d.s, d.v, s.slots, pins, l);
    case Abrupt(_, _) => l := l1;
  }

  lemma PushReady(f: Final, s: State, k: Targets, v: nat, vals: seq<Word>, fr: seq<Word>, env: Env, pins: seq<Word>)
    requires Ready(f, s, k, vals, fr, env, pins) && v < |vals| && WellTagged(vals[v])
    ensures Ready(f, Push(s, Pin, v), k, vals, fr + [vals[v]], env, pins + [vals[v]])
    ensures Here(Push(s, Pin, v), vals) == Here(s, vals)
  {
    Unready(f, s, k, vals, fr, env, pins);
    Pushed(s, Pin, v);
    FramePin(s.slots, fr, env, pins, vals[v]);
    TargetsWider(k, s.code, Width(s), Width(s) + 1);
    hide FrameIs, StateOk, TargetsOk, HostOk, WellTagged, AllBelow;
    PushHolds(s, Pin, v, vals, f.host.sp, fr);
  }

  lemma PushHolds(s: State, slot: Slot, v: nat, vals: seq<Word>, sp: Word, fr: seq<Word>)
    requires Placed(s) && Holds(s, vals, sp, fr) && v < |vals|
    ensures Holds(Push(s, slot, v), vals, sp, fr + [vals[v]])
  {
  }

  lemma PopReady(f: Final, s: State, p: State, t: State, k: Targets, vals: seq<Word>, fr: seq<Word>, env: Env, pins: seq<Word>,
                 w: Word)
    requires Sound(s) && StateOk(s) && TargetsOk(k, s.code, Width(s)) && HostOk(f.host)
    requires p.code == s.code && p.cur == s.cur && p.slots == s.slots + [Pin] && Grows(p, t, map[]) && t.slots == p.slots
    requires Sound(t) && Holds(t, vals, f.host.sp, fr) && FrameIs(t.slots, fr, env, pins + [w])
    ensures var r := Release(t, |s.ids|, 1);
      && Ready(f, r, k, vals, fr[..|s.ids|], env, pins) && Here(r, vals) == Here(t, vals) && r.slots == s.slots
      && Grows(s, r, map[]) && Next(r) == Next(t)
    ensures |s.ids| < |t.ids| == |fr| && t.ids[|s.ids|] < |vals| && vals[t.ids[|s.ids|]] == w && WellTagged(w)
  {
    var r := Release(t, |s.ids|, 1);
    Unpinned(s, p, t, r, 1);
    FrameUnpin(s.slots, fr, env, pins, w);
    After(s, k, r);
    hide FrameIs, Grows, TargetsOk;
    assert fr[|s.ids|] == vals[t.ids[|s.ids|]];
  }

  lemma {:induction false} FoldSim(f: Final, h: Head, args: Exprs, s: State, acc: nat, k: Targets, mv: bool, vals: seq<Word>,
                                   fr: seq<Word>, env: Env, pins: seq<Word>, fuel: nat) returns (l: Land)
    requires f.rounds == fuel
    requires Ready(f, s, k, vals, fr, env, pins) && Sound(s) && Reachable(k, Width(s)) && acc < |vals| && WellTagged(vals[acc])
    requires CompileFold(h, args, s, acc, k, mv).Ok? && Extends(CompileFold(h, args, s, acc, k, mv).s.code, f.code)
    ensures var o := CompileFold(h, args, s, acc, k, mv);
      Landed(f, k, Here(s, vals), EvalFold(f.host, RuntimeFn(h), args, vals[acc], env, fuel), o.s, o.v, s.slots, pins, l)
    decreases fuel, args, 0
  {
    hide Ready, Landed, Extends, Grows, StateOk, TargetsOk, Guarded, WellTagged, HostOk, Holds, FrameIs, Compile, Eval, Leads, RuntimeFn;
    match args
    case NoExprs =>
      LandHere(f, k, s, acc, vals, fr, env, pins);
      l := Land(vals, fr);
    case MoreExprs(e, rest) =>
      Unready(f, s, k, vals, fr, env, pins);
      var a := vals[acc];
      var p := Push(s, Pin, acc);
      PushReady(f, s, k, acc, vals, fr, env, pins);
      Unready(f, p, k, vals, fr + [a], env, pins + [a]);
      var o := Compile(e, p, k, mv);
      CompileGrows(e, p, k, mv);
      var r := Release(o.s, |s.ids|, 1);
      Unpinned(s, p, o.s, r, 1);
      Elements(o.s, |s.ids|);
      var x := o.s.ids[|s.ids|];
      var g := Guarded(r, mv, h, x, o.v);
      GuardedGrows(r, mv, h, x, o.v);
      After(s, k, r);
      After(r, k, g.0);
      FoldGrows(h, rest, g.0, g.1, k, mv);
      var d := CompileFold(h, rest, g.0, g.1, k, mv);
      ExtendsInto(f, g.0, d.s);
      ExtendsInto(f, r, g.0);
      var l1 := Sim(f, e, p, k, mv, vals, fr + [a], env, pins + [a], fuel);
      l := FoldNext(f, h, e, rest, s, p, k, mv, vals, a, env, pins, fuel, l1);
  }

  /** One operand done: combine it with the accumulator and go on, or leave. */
  lemma {:induction false} FoldNext(f: Final, h: Head, e: Expr, rest: Exprs, s: State, p: State, k: Targets, mv: bool,
                                    vals: seq<Word>, a: Word, env: Env, pins: seq<Word>, fuel: nat, l1: Land) returns (l: Land)
    requires f.rounds == fuel
    requires StateOk(s) && Sound(s) && TargetsOk(k, s.code, Width(s)) && Reachable(k, Width(s)) && HostOk(f.host)
    requires |pins| == |s.slots| - Named(s.slots)
    requires p.code == s.code && p.cur == s.cur && p.slots == s.slots + [Pin] && Sound(p) && Reachable(k, Width(p))
    requires Compile(e, p, k, mv).Ok? && Lowered(p, Compile(e, p, k, mv))
    requires var o := Compile(e, p, k, mv);
      Landed(f, k, Here(s, vals), Eval(f.host, e, env, fuel), o.s, o.v, p.slots, pins + [a], l1)
    requires |env| == Named(s.slots)
    requires var o := Compile(e, p, k, mv);
      var r := Release(o.s, |s.ids|, 1);
      && r.slots == s.slots && Sound(r) && StateOk(r) && Grows(s, r, map[]) && |s.ids| < |o.s.ids|
      && o.s.ids[|s.ids|] < Next(r) && o.v < Next(r)
      && var g := Guarded(r, mv, h, o.s.ids[|s.ids|], o.v);
      && Grows(r, g.0, map[]) && Reachable(k, Width(g.0)) && CompileFold(h, rest, g.0, g.1, k, mv).Ok?
      && Extends(g.0.code, f.code) && Extends(CompileFold(h, rest, g.0, g.1, k, mv).s.code, f.code)
    ensures var o := Compile(e, p, k, mv);
      var g := Guarded(Release(o.s, |s.ids|, 1), mv, h, o.s.ids[|s.ids|], o.v);
      var d := CompileFold(h, rest, g.0, g.1, k, mv);
      Landed(f, k, Here(s, vals),
             match Eval(f.host, e, env, fuel)
             case Normal(env1, w) => EvalFold(f.host, RuntimeFn(h), rest, Call(f.host, RuntimeFn(h), [a, w]), env1, fuel)
             case Abrupt(env1, why) => Abrupt(env1, why),
             d.s, d.v, s.slots, pins, l)
    decreases fuel, rest, 1
  {
    hide Ready, Extends, Grows, StateOk, TargetsOk, Guarded, WellTagged, HostOk, Holds, FrameIs, Compile, CompileFold;
    var o := Compile(e, p, k, mv);
    var r := Release(o.s, |s.ids|, 1);
    var x := o.s.ids[|s.ids|];
    var g := Guarded(r, mv, h, x, o.v);
    match Eval(f.host, e, env, fuel)
    case Normal(env1, w) =>
      PopReady(f, s, p, o.s, k, l1.vals, l1.fr, env1, pins, a);
      var fr1 := l1.fr[..|s.ids|];
      Unready(f, r, k, l1.vals, fr1, env1, pins);
      var out := GuardedRun(f, r, mv, h, x, o.v, l1.vals, fr1);
      var c := Call(f.host, RuntimeFn(h), [a, w]);
      Answered(f.host, RuntimeFn(h), [a, w]);
      GoOn(f, r, k, g.0, out, fr1, env1, pins);
      l := FoldSim(f, h, rest, g.0, g.1, k, mv, out, fr1, env1, pins, fuel);
      var d := CompileFold(h, rest, g.0, g.1, k, mv);
      Chain(f, Here(s, vals), Here(r, l1.vals), Here(g.0, out));
      LandedFrom(f, k, Here(s, vals), Here(g.0, out), EvalFold(f.host, RuntimeFn(h), rest, c, env1, fuel), d.s, d.v, s.slots,
                 pins, l);
    case Abrupt(env1, why) =>
      if why == Unfinished {
        l := l1;
      } else {
        EnvKept(f, k, Here(s, vals), env1, why, s.slots, [Pin], pins, [a], l1);
        l := LeftOuter(f, k, Here(s, vals), env1, why, s.slots, [Pin], pins, [a], l1, env1);
      }
  }

  lemma Answered(host: Host, fn: string, args: seq<Word>)
    requires HostOk(host)
    ensures WellTagged(Call(host, fn, args))
  {
  }

  /** Pins add nothing to the environment. */
  lemma EnvKept(f: Final, k: Targets, c: Config, env: Env, why: Why, slots: seq<Slot>, more: seq<Slot>, pins: seq<Word>,
                extra: seq<Word>, l: Land)
    requires Left(f, k, c, env, why, slots + more, pins + extra, l) && |pins| == |slots| - Named(slots)
    requires forall i :: 0 <= i < |more| ==> more[i] == Pin
    ensures |env| == Named(slots) && env[..Named(slots)] == env
  {
    FrameCounts(slots + more, l.fr, env, pins + extra);
    NamedPins(slots, more);
  }

  lemma {:induction false} NamedPins(slots: seq<Slot>, more: seq<Slot>)
    requires forall i :: 0 <= i < |more| ==> more[i] == Pin
    ensures Named(slots + more) == Named(slots)
    decreases more
  {
    if more == [] {
      assert slots + more == slots;
    } else {
      NamedPins(slots, more[..|more| - 1]);
      assert (slots + more)[..|slots + more| - 1] == slots + more[..|more| - 1];
    }
  }

  // ---- builtins ----

  ghost predicate ArgsLanded(f: Final, k: Targets, c: Config, args: Exprs, r: Result<seq<Word>>, t: State, slots: seq<Slot>,
                             pins: seq<Word>, l: Land) {
    match r
    case Normal(env, ws) =>
      && Placed(t) && Leads(f, c, Here(t, l.vals)) && Holds(t, l.vals, f.host.sp, l.fr)
      && FrameIs(t.slots, l.fr, env, pins + ws) && |ws| == |Pins(args)|
    case Abrupt(env, why) => if why == Unfinished then Busy(f, c) else Left(f, k, c, env, why, slots, pins, l)
  }

  lemma {:induction false} OperandsSim(f: Final, args: Exprs, s: State, k: Targets, mv: bool, vals: seq<Word>, fr: seq<Word>,
                                       env: Env, pins: seq<Word>, fuel: nat) returns (l: Land)
    requires f.rounds == fuel
    requires Ready(f, s, k, vals, fr, env, pins) && Sound(s) && Reachable(k, Width(s))
    requires CompileOperands(args, s, k, mv).Ok? && Extends(CompileOperands(args, s, k, mv).s.code, f.code)
    ensures var o := CompileOperands(args, s, k, mv);
      ArgsLanded(f, k, Here(s, vals), args, EvalArgs(f.host, args, env, fuel), o.s, s.slots, pins, l)
    decreases fuel, args, 0
  {
    hide Ready, Landed, Extends, Grows, StateOk, TargetsOk, WellTagged, HostOk, Holds, FrameIs, Compile;
    Unready(f, s, k, vals, fr, env, pins);
    match args
    case NoExprs =>
      l := Land(vals, fr);
      assert pins + [] == pins;
      Stay(f.code, f.host.rt, Here(s, vals));
    case MoreExprs(e, rest) =>
      var o := Compile(e, s, k, mv);
      CompileGrows(e, s, k, mv);
      After(s, k, o.s);
      var p := Push(o.s, Pin, o.v);
      Pushed(o.s, Pin, o.v);
      TargetsWider(k, o.s.code, Width(o.s), Width(p));
      OperandsGrow(rest, p, k, mv);
      ExtendsInto(f, p, CompileOperands(rest, p, k, mv).s);
      var l1 := Sim(f, e, s, k, mv, vals, fr, env, pins, fuel);
      l := OperandNext(f, args, s, k, mv, vals, fr, env, pins, fuel, l1);
  }

  lemma {:induction false} OperandNext(f: Final, args: Exprs, s: State, k: Targets, mv: bool, vals: seq<Word>, fr: seq<Word>,
                                       env: Env, pins: seq<Word>, fuel: nat, l1: Land) returns (l: Land)
    requires f.rounds == fuel
    requires args.MoreExprs? && Ready(f, s, k, vals, fr, env, pins) && Sound(s) && Reachable(k, Width(s))
    requires CompileOperands(args, s, k, mv).Ok? && Extends(CompileOperands(args, s, k, mv).s.code, f.code)
    requires var o := Compile(args.e, s, k, mv);
      && Lowered(s, o) && Extends(Push(o.s, Pin, o.v).code, f.code)
      && Landed(f, k, Here(s, vals), Eval(f.host, args.e, env, fuel), o.s, o.v, s.slots, pins, l1)
    ensures var o := CompileOperands(args, s, k, mv);
      ArgsLanded(f, k, Here(s, vals), args, EvalArgs(f.host, args, env, fuel), o.s, s.slots, pins, l)
    decreases fuel, args.rest, 1
  {
    hide Ready, Extends, Grows, StateOk, TargetsOk, WellTagged, HostOk, Holds, FrameIs, Compile;
    var e, rest := args.e, args.rest;
    var o := Compile(e, s, k, mv);
    var p := Push(o.s, Pin, o.v);
    match Eval(f.host, e, env, fuel)
    case Abrupt(_, _) => l := l1;
    case Normal(env1, w) =>
      OperandPinned(f, s, k, o, vals, fr, env, env1, w, pins, l1);
      l := OperandsSim(f, rest, p, k, mv, l1.vals, l1.fr + [w], env1, pins + [w], fuel);
      var r, d := EvalArgs(f.host, rest, env1, fuel), CompileOperands(rest, p, k, mv).s;
      hide CompileOperands, EvalArgs;
      l := OperandsJoin(f, k, Here(s, vals), Here(p, l1.vals), rest, r, d, s.slots, pins, w, l);
  }

  /** The operand's value is pinned, and lowering goes on above it. */
  lemma OperandPinned(f: Final, s: State, k: Targets, o: Outcome, vals: seq<Word>, fr: seq<Word>, env: Env, env1: Env, w: Word,
                      pins: seq<Word>, l1: Land)
    requires Ready(f, s, k, vals, fr, env, pins) && Sound(s) && Lowered(s, o) && o.s.slots == s.slots
    requires Landed(f, k, Here(s, vals), Normal(env1, w), o.s, o.v, s.slots, pins, l1)
    ensures var p := Push(o.s, Pin, o.v);
      && Ready(f, p, k, l1.vals, l1.fr + [w], env1, pins + [w]) && Sound(p) && Reachable(k, Width(p))
      && Leads(f, Here(s, vals), Here(p, l1.vals)) && |pins| == |s.slots| - Named(s.slots)
  {
    Unready(f, s, k, vals, fr, env, pins);
    GoOn(f, s, k, o.s, l1.vals, l1.fr, env1, pins);
    hide Extends, Grows, StateOk, TargetsOk, HostOk, FrameIs, WellTagged;
    PushReady(f, o.s, k, o.v, l1.vals, l1.fr, env1, pins);
    Unready(f, Push(o.s, Pin, o.v), k, l1.vals, l1.fr + [w], env1, pins + [w]);
  }

  lemma OperandsJoin(f: Final, k: Targets, c: Config, d: Config, rest: Exprs, r: Result<seq<Word>>, t: State, slots: seq<Slot>,
                     pins: seq<Word>, w: Word, l1: Land) returns (l: Land)
    requires Leads(f, c, d) && ArgsLanded(f, k, d, rest, r, t, slots + [Pin], pins + [w], l1)
    requires Reachable(k, 1 + |slots|) && |pins| == |slots| - Named(slots)
    ensures forall e :: ArgsLanded(f, k, c, MoreExprs(e, rest),
                                   match r case Normal(env2, ws) => Normal(env2, [w] + ws) case Abrupt(env2, why) => Abrupt(env2, why),
                                   t, slots, pins, l)
  {
    l := l1;
    match r
    case Normal(env2, ws) =>
      assert pins + [w] + ws == pins + ([w] + ws);
      Chain(f, c, d, Here(t, l.vals));
    case Abrupt(env2, why) =>
      if why != Unfinished {
        EnvKept(f, k, d, env2, why, slots, [Pin], pins, [w], l1);
        l := LeftOuter(f, k, d, env2, why, slots, [Pin], pins, [w], l1, env2);
        Chain(f, c, d, LeaveTo(k, f.host.sp, l.fr, why));
      } else {
        BusyFrom(f, c, d);
      }
  }

  lemma {:induction false} BuiltinSim(f: Final, e: Expr, s: State, k: Targets, mv: bool, vals: seq<Word>, fr: seq<Word>,
                                      env: Env, pins: seq<Word>, fuel: nat) returns (l: Land)
    requires f.rounds == fuel
    requires e.Builtin? && Ready(f, s, k, vals, fr, env, pins) && Sound(s) && Reachable(k, Width(s))
    requires Compile(e, s, k, mv).Ok? && Extends(Compile(e, s, k, mv).s.code, f.code)
    ensures var o := Compile(e, s, k, mv);
      Landed(f, k, Here(s, vals), Eval(f.host, e, env, fuel), o.s, o.v, s.slots, pins, l)
    decreases fuel, e, 0
  {
    hide Grows, TargetsOk, Extends, CompileOperands, Holds, FrameIs, HostOk;
    var o := CompileOperands(e.args, s, k, mv);
    var d := EmitBuiltin(o.s, e.fn, |s.ids|);
    Unready(f, s, k, vals, fr, env, pins);
    OperandsGrow(e.args, s, k, mv);
    Now(s, o.s, map[]);
    BuiltinExtends(o.s, e.fn, |s.ids|);
    ExtendsTrans(o.s.code, d.0.code, f.code);
    hide Ready, StateOk, EmitBuiltin;
    var l1 := OperandsSim(f, e.args, s, k, mv, vals, fr, env, pins, fuel);
    match EvalArgs(f.host, e.args, env, fuel)
    case Normal(env1, ws) =>
      l := BuiltinLands(f, k, s, o.s, e.fn, e.args, l1.vals, l1.fr, env1, pins, ws);
      LandedFrom(f, k, Here(s, vals), Here(o.s, l1.vals), Eval(f.host, e, env, fuel), d.0, d.1, s.slots, pins, l);
    case Abrupt(_, _) => l := l1;
  }

  lemma BuiltinExtends(s: State, fn: string, n: nat)
    requires StateOk(s) && Sound(s) && n <= |s.ids|
    ensures Extends(s.code, EmitBuiltin(s, fn, n).0.code)
  {
  }

  // ---- conditionals ----

  /** A truth test in the current block. */
  lemma TestRun(f: Final, s: State, c: nat, x: nat, y: nat, t: State, br: Term, vals: seq<Word>, fr: seq<Word>)
    requires Placed(s) && c < |vals| && Holds(s, vals, f.host.sp, fr) && s.code[s.cur].term == NoTerm
    requires t == Put(s, TruthyInsts(Next(s), c)) && br == BrIf(Next(s) + 4, x, Frame(t), y, Frame(t))
    requires Extends(SetTerm(t, br).code, f.code) && x < |f.code| && y < |f.code|
    requires f.code[x].nparams == f.code[y].nparams == 1 + |fr|
    ensures Leads(f, Here(s, vals), At(if Truthy(vals[c]) then x else y, 0, [f.host.sp] + fr))
  {
    var insts := TruthyInsts(Next(s), c);
    PutThenTerm(f, s, insts, br);
    var out := TruthyStraight(f.host.rt, c, vals);
    RunStraight(f, s, insts, vals, out, fr);
    PickFrame(t, out, f.host.sp, fr);
    hide Extends, Straight, Put, TruthyInsts;
    RunBrIf(f, t, Next(s) + 4, x, Frame(t), y, Frame(t), out);
    Chain(f, Here(s, vals), Here(t, out), At(if Truthy(vals[c]) then x else y, 0, [f.host.sp] + fr));
  }

  lemma ForkRun(f: Final, s: State, c: nat, vals: seq<Word>, fr: seq<Word>)
    requires StateOk(s) && Sound(s) && c < |vals| && Holds(s, vals, f.host.sp, fr) && Extends(Fork(s, c).code, f.code)
    requires Fresh(Fork(s, c), |s.code|, Width(s)) && Fork(s, c).code[|s.code| + 1].nparams == Width(s)
    ensures Leads(f, Here(s, vals), At(if Truthy(vals[c]) then |s.code| else |s.code| + 1, 0, [f.host.sp] + fr))
  {
    var n, w, b := Next(s), Width(s), |s.code|;
    var t := Put(s, TruthyInsts(n, c));
    var t4 := AddBlock(AddBlock(AddBlock(t, w), w), w + 1);
    var s4 := AddBlock(AddBlock(AddBlock(s, w), w), w + 1);
    var br := BrIf(n + 4, b, Frame(t4), b + 1, Frame(t4));
    assert t4 == Put(s4, TruthyInsts(n, c)) && Next(s4) == n && Here(s4, vals) == Here(s, vals);
    assert Fork(s, c).code == SetTerm(t4, br).code;
    assert Grown(Fork(s, c).code[b], f.code[b]) && Grown(Fork(s, c).code[b + 1], f.code[b + 1]);
    assert Holds(s4, vals, f.host.sp, fr);
    hide StateOk, Extends, Fork, Put, TruthyInsts;
    TestRun(f, s4, c, b, b + 1, t4, br, vals, fr);
  }

  /** An arm's value joins the frame. */
  lemma ArmLands(f: Final, k: Targets, c: Config, r: Result<Word>, s: State, v: nat, join: nat, next: nat, t: State,
                 pins: seq<Word>, l1: Land) returns (l: Land)
    requires Sound(s) && next < |s.code| && s.code[s.cur].term == NoTerm
    requires Landed(f, k, c, r, s, v, s.slots, pins, l1) && Extends(ArmEnd(s, join, v, next).code, f.code)
    requires Fresh(t, join, Width(s) + 1) && t.slots == s.slots && join < |f.code| && f.code[join].nparams == Width(s) + 1
    ensures Landed(f, k, c, r, t, Width(s), s.slots, pins, l)
  {
    l := l1;
    if r.Normal? {
      var sp, w := f.host.sp, r.val;
      PickMore(s, l1.vals, sp, l1.fr, [v]);
      assert Pick(l1.vals, [v]) == [w];
      RunBr(f, s, join, Frame(s) + [v], l1.vals, 0);
      FreshArrive(t, join, sp, l1.fr, [w]);
      l := Land([sp] + l1.fr + [w], l1.fr);
      Chain(f, c, Here(s, l1.vals), At(join, 0, [sp] + l1.fr + [w]));
    }
  }

  /** Starting in a fresh block that was passed exactly the frame. */
  lemma FreshReady(f: Final, t: State, b: nat, k: Targets, fr: seq<Word>, env: Env, pins: seq<Word>)
    requires Fresh(t, b, 1 + |fr|) && StateOk(t) && TargetsOk(k, t.code, Width(t)) && HostOk(f.host)
    requires |t.ids| == |fr| && FrameIs(t.slots, fr, env, pins)
    ensures Ready(f, t, k, [f.host.sp] + fr, fr, env, pins) && Here(t, [f.host.sp] + fr) == At(b, 0, [f.host.sp] + fr)
  {
    FreshArrive(t, b, f.host.sp, fr, []);
    assert [f.host.sp] + fr + [] == [f.host.sp] + fr;
  }

  lemma {:induction false} IfSim(f: Final, e: Expr, s: State, k: Targets, vals: seq<Word>, fr: seq<Word>, env: Env,
                                 pins: seq<Word>, fuel: nat) returns (l: Land)
    requires f.rounds == fuel
    requires e.If? && Ready(f, s, k, vals, fr, env, pins) && Sound(s) && Reachable(k, Width(s))
    requires CompileIf(e, s, k).Ok? && Extends(CompileIf(e, s, k).s.code, f.code)
    ensures var o := CompileIf(e, s, k);
      Landed(f, k, Here(s, vals), Eval(f.host, e, env, fuel), o.s, o.v, s.slots, pins, l)
    decreases fuel, e, 1
  {
    hide Ready, Landed, Extends, Grows, StateOk, TargetsOk, HostOk, Holds, FrameIs, Compile, Fork, ArmEnd, Fresh, WellTagged, Here;
    Unready(f, s, k, vals, fr, env, pins);
    IfExtends(f, e, s, k);
    var w, o := Width(s), Compile(e.cond, s, k, true);
    var b, g := |o.s.code|, Fork(o.s, o.v);
    var l1 := Sim(f, e.cond, s, k, true, vals, fr, env, pins, fuel);
    match Eval(f.host, e.cond, env, fuel)
    case Abrupt(env1, why) =>
      var d := CompileIf(e, s, k);
      l := StillLeft(f, k, Here(s, vals), env1, why, o.s, o.v, d.s, d.v, s.slots, pins, l1);
    case Normal(env1, v) =>
      CondDone(f, k, Here(s, vals), s, o.s, o.v, env1, v, pins, l1, g, b, w);
      if Truthy(v) {
        l := ThenSim(f, e, s, k, Here(s, vals), l1.fr, env1, pins, fuel);
      } else {
        l := ElseSim(f, e, s, k, Here(s, vals), l1.fr, env1, pins, fuel);
      }
  }

  lemma {:induction false} ThenSim(f: Final, e: Expr, s: State, k: Targets, c: Config, fr: seq<Word>, env: Env, pins: seq<Word>,
                                   fuel: nat) returns (l: Land)
    requires f.rounds == fuel
    requires e.If? && StateOk(s) && TargetsOk(k, s.code, Width(s)) && Sound(s) && Reachable(k, Width(s)) && HostOk(f.host)
    requires CompileIf(e, s, k).Ok? && Extends(CompileIf(e, s, k).s.code, f.code)
    requires FrameIs(s.slots, fr, env, pins) && |fr| + 1 == Width(s)
    requires Leads(f, c, At(|Compile(e.cond, s, k, true).s.code|, 0, [f.host.sp] + fr))
    ensures var o := CompileIf(e, s, k); Landed(f, k, c, Eval(f.host, e.thn, env, fuel), o.s, o.v, s.slots, pins, l)
    decreases fuel, e, 0
  {
    hide Ready, Landed, Extends, Grows, StateOk, TargetsOk, HostOk, Holds, FrameIs, Compile, Fork, ArmEnd, Fresh, WellTagged, Here;
    IfExtends(f, e, s, k);
    var o := Compile(e.cond, s, k, true);
    var b, g := |o.s.code|, Fork(o.s, o.v);
    var o1, d := Compile(e.thn, g, k, false), CompileIf(e, s, k);
    var at := At(b, 0, [f.host.sp] + fr);
    FreshReady(f, g, b, k, fr, env, pins);
    var l2 := Sim(f, e.thn, g, k, false, [f.host.sp] + fr, fr, env, pins, fuel);
    OpenEnd(g, o1);
    l := ArmLands(f, k, at, Eval(f.host, e.thn, env, fuel), o1.s, o1.v, b + 2, b + 1, d.s, pins, l2);
    LandedFrom(f, k, c, at, Eval(f.host, e.thn, env, fuel), d.s, d.v, s.slots, pins, l);
  }

  lemma {:induction false} ElseSim(f: Final, e: Expr, s: State, k: Targets, c: Config, fr: seq<Word>, env: Env, pins: seq<Word>,
                                   fuel: nat) returns (l: Land)
    requires f.rounds == fuel
    requires e.If? && StateOk(s) && TargetsOk(k, s.code, Width(s)) && Sound(s) && Reachable(k, Width(s)) && HostOk(f.host)
    requires CompileIf(e, s, k).Ok? && Extends(CompileIf(e, s, k).s.code, f.code)
    requires FrameIs(s.slots, fr, env, pins) && |fr| + 1 == Width(s)
    requires Leads(f, c, At(|Compile(e.cond, s, k, true).s.code| + 1, 0, [f.host.sp] + fr))
    ensures var o := CompileIf(e, s, k); Landed(f, k, c, Eval(f.host, e.els, env, fuel), o.s, o.v, s.slots, pins, l)
    decreases fuel, e, 0
  {
    hide Ready, Landed, Extends, Grows, StateOk, TargetsOk, HostOk, Holds, FrameIs, Compile, Fork, ArmEnd, Fresh, WellTagged, Here;
    IfExtends(f, e, s, k);
    var o := Compile(e.cond, s, k, true);
    var b, g := |o.s.code|, Fork(o.s, o.v);
    var o1 := Compile(e.thn, g, k, false);
    var g2 := ArmEnd(o1.s, b + 2, o1.v, b + 1);
    var o2, d := Compile(e.els, g2, k, false), CompileIf(e, s, k);
    var at := At(b + 1, 0, [f.host.sp] + fr);
    FreshReady(f, g2, b + 1, k, fr, env, pins);
    var l2 := Sim(f, e.els, g2, k, false, [f.host.sp] + fr, fr, env, pins, fuel);
    OpenEnd(g2, o2);
    l := ArmLands(f, k, at, Eval(f.host, e.els, env, fuel), o2.s, o2.v, b + 2, b + 2, d.s, pins, l2);
    LandedFrom(f, k, c, at, Eval(f.host, e.els, env, fuel), d.s, d.v, s.slots, pins, l);
  }

  /** The finished code has each stage of a conditional. */
  ghost predicate IfInCode(code: seq<Block>, e: Expr, s: State, k: Targets)
    requires e.If? && Sound(s) && Reachable(k, Width(s)) && CompileIf(e, s, k).Ok?
  {
    var o := Compile(e.cond, s, k, true);
    var b, g := |o.s.code|, Fork(o.s, o.v);
    var o1 := Compile(e.thn, g, k, false);
    var g2 := ArmEnd(o1.s, b + 2, o1.v, b + 1);
    var o2 := Compile(e.els, g2, k, false);
    && StateOk(o.s) && Extends(o.s.code, code) && Extends(g.code, code) && Extends(o1.s.code, code)
    && Extends(g2.code, code) && Extends(o2.s.code, code)
    && b + 2 < |code| && code[b + 2].nparams == Width(s) + 1
  }

  lemma IfExtends(f: Final, e: Expr, s: State, k: Targets)
    requires e.If? && StateOk(s) && TargetsOk(k, s.code, Width(s)) && Sound(s) && Reachable(k, Width(s))
    requires CompileIf(e, s, k).Ok? && Extends(CompileIf(e, s, k).s.code, f.code)
    ensures IfLinked(e, s, k) && IfInCode(f.code, e, s, k)
  {
    hide Extends, Grows, StateOk, TargetsOk, Compile, Fork, ArmEnd, Fresh;
    IfGrows(e, s, k);
    var o := Compile(e.cond, s, k, true);
    var b, g := |o.s.code|, Fork(o.s, o.v);
    var o1 := Compile(e.thn, g, k, false);
    var g2 := ArmEnd(o1.s, b + 2, o1.v, b + 1);
    var o2 := Compile(e.els, g2, k, false);
    var t := ArmEnd(o2.s, b + 2, o2.v, b + 2);
    ExtendsTrans(o2.s.code, t.code, f.code);
    ExtendsInto(f, g2, o2.s);
    ExtendsTrans(o1.s.code, g2.code, f.code);
    ExtendsInto(f, g, o1.s);
    ExtendsTrans(o.s.code, g.code, f.code);
    BlockCounts(g.code, f.code, b);
    Now(s, o.s, map[]);
  }

  lemma BlockCounts(c: seq<Block>, d: seq<Block>, b: nat)
    requires Extends(c, d) && b + 2 < |c|
    ensures |c| <= |d| && d[b].nparams == c[b].nparams && d[b + 1].nparams == c[b + 1].nparams
    ensures d[b + 2].nparams == c[b + 2].nparams
  {
    assert Grown(c[b], d[b]) && Grown(c[b + 1], d[b + 1]) && Grown(c[b + 2], d[b + 2]);
  }

  lemma OpenEnd(s: State, o: Outcome)
    requires Lowered(s, o)
    ensures Sound(o.s) && o.s.code[o.s.cur].term == NoTerm
  {
  }

  /** An exit does not depend on the state a value would have landed in. */
  lemma StillLeft(f: Final, k: Targets, c: Config, env: Env, why: Why, t: State, v: nat, t2: State, v2: nat, slots: seq<Slot>,
                  pins: seq<Word>, l1: Land) returns (l: Land)
    requires Landed(f, k, c, Abrupt(env, why), t, v, slots, pins, l1)
    ensures Landed(f, k, c, Abrupt(env, why), t2, v2, slots, pins, l) && l == l1
  {
    l := l1;
  }

  /** The condition has its value: the machine goes to the arm it selects. */
  lemma CondDone(f: Final, k: Targets, from: Config, s: State, o: State, ov: nat, env1: Env, v: Word, pins: seq<Word>, l1: Land,
                 g: State, b: nat, w: nat)
    requires StateOk(o) && Sound(o) && Landed(f, k, from, Normal(env1, v), o, ov, s.slots, pins, l1) && o.slots == s.slots
    requires b == |o.code| && w == Width(o) && g == Fork(o, ov) && Extends(g.code, f.code) && Fresh(g, b, w)
    requires g.code[b + 1].nparams == w
    ensures Leads(f, from, At(if Truthy(v) then b else b + 1, 0, [f.host.sp] + l1.fr))
    ensures FrameIs(s.slots, l1.fr, env1, pins) && |l1.fr| + 1 == w
  {
    ForkRun(f, o, ov, l1.vals, l1.fr);
    Chain(f, from, Here(o, l1.vals), At(if Truthy(v) then b else b + 1, 0, [f.host.sp] + l1.fr));
  }

  // ---- loops ----

  /** The finished code has each stage of a loop. */
  ghost predicate LoopInCode(code: seq<Block>, e: Expr, s: State, k: Targets)
    requires e.While? && Sound(s) && Reachable(k, Width(s)) && CompileWhile(e, s, k).Ok?
  {
    var b, w, h := |s.code|, Width(s), LoopOpen(s);
    var o := Compile(e.cond, h, k, true);
    var t := LoopTest(o.s, o.v, b);
    var o1 := Compile(e.body, t, LoopTargets(k, b, w), false);
    && StateOk(o.s) && StateOk(o1.s) && Extends(h.code, code) && Extends(o.s.code, code) && Extends(t.code, code)
    && Extends(o1.s.code, code) && Extends(LoopEnd(o1.s, b).code, code) && b + 2 < |code|
    && code[b].nparams == code[b + 1].nparams == code[b + 2].nparams == w
  }

  lemma LoopExtends(f: Final, e: Expr, s: State, k: Targets)
    requires e.While? && StateOk(s) && TargetsOk(k, s.code, Width(s)) && Sound(s) && Reachable(k, Width(s))
    requires CompileWhile(e, s, k).Ok? && Extends(CompileWhile(e, s, k).s.code, f.code)
    ensures LoopLinked(e, s, k) && LoopInCode(f.code, e, s, k)
  {
    hide Extends, Grows, StateOk, TargetsOk, Compile, LoopOpen, LoopTest, LoopEnd, Fresh;
    WhileGrows(e, s, k);
    var b, w, h := |s.code|, Width(s), LoopOpen(s);
    var o := Compile(e.cond, h, k, true);
    var t := LoopTest(o.s, o.v, b);
    var o1 := Compile(e.body, t, LoopTargets(k, b, w), false);
    var x := LoopEnd(o1.s, b);
    ConstExtends(x, WORD_NIL);
    ExtendsTrans(x.code, Const64(x, WORD_NIL).0.code, f.code);
    ExtendsTrans(o1.s.code, x.code, f.code);
    ExtendsInto(f, t, o1.s);
    ExtendsTrans(o.s.code, t.code, f.code);
    ExtendsInto(f, h, o.s);
    FreshCount(t, b + 1, w);
    BlockCounts(t.code, f.code, b);
    Now(h, o.s, map[]);
    Now(t, o1.s, map[]);
  }

  lemma ConstExtends(s: State, c: int)
    requires StateOk(s)
    ensures Placed(s) && Extends(s.code, Const64(s, c).0.code)
  {
    ExtendsPut(s, [ConstI64(c)]);
  }

  lemma FreshCount(t: State, b: nat, n: nat)
    requires Fresh(t, b, n)
    ensures b < |t.code| && t.code[b].nparams == n
  {
  }

  lemma {:induction false} WhileSim(f: Final, e: Expr, s: State, k: Targets, vals: seq<Word>, fr: seq<Word>, env: Env,
                                    pins: seq<Word>, fuel: nat) returns (l: Land)
    requires f.rounds == fuel
    requires e.While? && Ready(f, s, k, vals, fr, env, pins) && Sound(s) && Reachable(k, Width(s))
    requires CompileWhile(e, s, k).Ok? && Extends(CompileWhile(e, s, k).s.code, f.code)
    ensures var o := CompileWhile(e, s, k);
      Landed(f, k, Here(s, vals), Eval(f.host, e, env, fuel), o.s, o.v, s.slots, pins, l)
    decreases fuel, e, 1
  {
    hide Ready, Landed, Extends, Grows, StateOk, TargetsOk, HostOk, Holds, FrameIs, Compile, LoopOpen, LoopTest, LoopEnd, Fresh,
         WellTagged, Here, Eval;
    Unready(f, s, k, vals, fr, env, pins);
    LoopExtends(f, e, s, k);
    LoopEntered(f, s, vals, fr);
    l := LoopSim(f, e, s, k, fr, env, pins, fuel);
    var d := CompileWhile(e, s, k);
    LandedFrom(f, k, Here(s, vals), At(|s.code|, 0, [f.host.sp] + fr), Eval(f.host, e, env, fuel), d.s, d.v, s.slots, pins, l);
  }

  lemma LoopEntered(f: Final, s: State, vals: seq<Word>, fr: seq<Word>)
    requires StateOk(s) && Sound(s) && Holds(s, vals, f.host.sp, fr) && Extends(LoopOpen(s).code, f.code)
    requires |s.code| < |f.code| && f.code[|s.code|].nparams == Width(s)
    ensures Leads(f, Here(s, vals), At(|s.code|, 0, [f.host.sp] + fr))
  {
    var w, b := Width(s), |s.code|;
    var t := AddBlock(AddBlock(AddBlock(s, w), w), w);
    assert LoopOpen(s).code == SetTerm(t, Br(b, Frame(t))).code && Here(t, vals) == Here(s, vals);
    assert Holds(t, vals, f.host.sp, fr);
    hide StateOk, Extends, LoopOpen;
    PickFrame(t, vals, f.host.sp, fr);
    RunBr(f, t, b, Frame(t), vals, 0);
  }

  /** From the header, whatever the frame it was reached with. */
  lemma {:induction false} LoopSim(f: Final, e: Expr, s: State, k: Targets, fr: seq<Word>, env: Env, pins: seq<Word>, fuel: nat)
    returns (l: Land)
    requires f.rounds == fuel
    requires e.While? && StateOk(s) && TargetsOk(k, s.code, Width(s)) && Sound(s) && Reachable(k, Width(s)) && HostOk(f.host)
    requires CompileWhile(e, s, k).Ok? && Extends(CompileWhile(e, s, k).s.code, f.code)
    requires FrameIs(s.slots, fr, env, pins) && |fr| + 1 == Width(s)
    ensures var o := CompileWhile(e, s, k);
      Landed(f, k, At(|s.code|, 0, [f.host.sp] + fr), Eval(f.host, e, env, fuel), o.s, o.v, s.slots, pins, l)
    decreases fuel, e, 0
  {
    hide Ready, Landed, Extends, Grows, StateOk, TargetsOk, HostOk, Holds, FrameIs, Compile, LoopOpen, LoopTest, LoopEnd, Fresh,
         WellTagged, Here;
    LoopExtends(f, e, s, k);
    var b, w, h, d := |s.code|, Width(s), LoopOpen(s), CompileWhile(e, s, k);
    var o := Compile(e.cond, h, k, true);
    var t := LoopTest(o.s, o.v, b);
    var from := At(b, 0, [f.host.sp] + fr);
    FreshReady(f, h, b, k, fr, env, pins);
    var l1 := Sim(f, e.cond, h, k, true, [f.host.sp] + fr, fr, env, pins, fuel);
    match Eval(f.host, e.cond, env, fuel)
    case Abrupt(env1, why) => l := StillLeft(f, k, from, env1, why, o.s, o.v, d.s, d.v, s.slots, pins, l1);
    case Normal(env1, v) =>
      LoopTested(f, k, from, s, o, env1, v, pins, l1);
      if !Truthy(v) {
        l := LoopLeft(f, e, s, k, from, l1.fr, env1, pins);
      } else if fuel > 0 {
        var at := At(b + 1, 0, [f.host.sp] + l1.fr);
        l := BodySim(f.(rounds := fuel - 1), e, s, k, l1.fr, env1, pins, fuel - 1);
        LandedNext(f, k, from, at, Eval(f.host, e, env, fuel), d.s, d.v, s.slots, pins, l);
      } else {
        l := l1;
        GaveUp(f, k, from, env1, d.s, d.v, s.slots, pins, l1);
      }
  }

  lemma GaveUp(f: Final, k: Targets, c: Config, env: Env, t: State, v: nat, slots: seq<Slot>, pins: seq<Word>, l: Land)
    requires f.rounds == 0 && c.At?
    ensures Landed(f, k, c, Abrupt(env, Unfinished), t, v, slots, pins, l)
  {
    assert Run(f.code, f.host.rt, c, 0) == c;
  }

  lemma LoopTested(f: Final, k: Targets, from: Config, s: State, o: Outcome, env1: Env, v: Word, pins: seq<Word>, l1: Land)
    requires o.Ok? && StateOk(o.s) && Sound(o.s) && o.s.slots == s.slots && |s.code| + 2 < |o.s.code| && Sound(s)
    requires Landed(f, k, from, Normal(env1, v), o.s, o.v, s.slots, pins, l1)
    requires Extends(LoopTest(o.s, o.v, |s.code|).code, f.code) && |s.code| + 2 < |f.code|
    requires f.code[|s.code| + 1].nparams == f.code[|s.code| + 2].nparams == Width(s)
    ensures Leads(f, from, At(if Truthy(v) then |s.code| + 1 else |s.code| + 2, 0, [f.host.sp] + l1.fr))
    ensures FrameIs(s.slots, l1.fr, env1, pins) && |l1.fr| + 1 == Width(s)
  {
    var b, n := |s.code|, Next(o.s);
    var t := Put(o.s, TruthyInsts(n, o.v));
    TestRun(f, o.s, o.v, b + 1, b + 2, t, BrIf(n + 4, b + 1, Frame(t), b + 2, Frame(t)), l1.vals, l1.fr);
    Chain(f, from, Here(o.s, l1.vals), At(if Truthy(v) then b + 1 else b + 2, 0, [f.host.sp] + l1.fr));
  }

  /** Out of the loop: its value is nil. */
  lemma LoopLeft(f: Final, e: Expr, s: State, k: Targets, from: Config, fr: seq<Word>, env: Env, pins: seq<Word>)
    returns (l: Land)
    requires e.While? && StateOk(s) && TargetsOk(k, s.code, Width(s)) && Sound(s) && Reachable(k, Width(s)) && HostOk(f.host)
    requires CompileWhile(e, s, k).Ok? && Extends(CompileWhile(e, s, k).s.code, f.code)
    requires FrameIs(s.slots, fr, env, pins) && |fr| + 1 == Width(s)
    requires Leads(f, from, At(|s.code| + 2, 0, [f.host.sp] + fr))
    ensures var o := CompileWhile(e, s, k); Landed(f, k, from, Normal(env, WORD_NIL), o.s, o.v, s.slots, pins, l)
  {
    hide Ready, Landed, Extends, Grows, StateOk, TargetsOk, HostOk, Holds, FrameIs, Compile, LoopOpen, LoopTest, LoopEnd, Fresh,
         WellTagged, Here;
    LoopExtends(f, e, s, k);
    var b, w, d := |s.code|, Width(s), CompileWhile(e, s, k);
    var o := Compile(e.cond, LoopOpen(s), k, true);
    var o1 := Compile(e.body, LoopTest(o.s, o.v, b), LoopTargets(k, b, w), false);
    var x := LoopEnd(o1.s, b);
    LoopExitOk(s, k, x, b, e);
    FreshReady(f, x, b + 2, k, fr, env, pins);
    I32WordTagged(0);
    l := ConstLands(f, k, x, WORD_NIL, [f.host.sp] + fr, fr, env, pins);
    LandedFrom(f, k, from, At(b + 2, 0, [f.host.sp] + fr), Normal(env, WORD_NIL), d.s, d.v, s.slots, pins, l);
  }

  lemma LoopExitOk(s: State, k: Targets, x: State, b: nat, e: Expr)
    requires e.While? && StateOk(s) && TargetsOk(k, s.code, Width(s)) && Sound(s) && Reachable(k, Width(s))
    requires CompileWhile(e, s, k).Ok? && b == |s.code|
    requires var o := Compile(e.cond, LoopOpen(s), k, true);
      && o.Ok? && var o1 := Compile(e.body, LoopTest(o.s, o.v, b), LoopTargets(k, b, Width(s)), false);
      o1.Ok? && x == LoopEnd(o1.s, b)
    ensures TargetsOk(k, x.code, Width(x)) && Width(x) == Width(s)
  {
    hide Extends, Grows, StateOk, TargetsOk, Compile, LoopOpen, LoopTest, LoopEnd, Fresh;
    WhileGrows(e, s, k);
    var w, h := Width(s), LoopOpen(s);
    var o := Compile(e.cond, h, k, true);
    var t := LoopTest(o.s, o.v, b);
    var o1 := Compile(e.body, t, LoopTargets(k, b, w), false);
    Now(h, o.s, map[]);
    Now(t, o1.s, map[]);
    ExtendsTrans(s.code, h.code, o.s.code);
    ExtendsTrans(s.code, o.s.code, t.code);
    ExtendsTrans(s.code, t.code, o1.s.code);
    ExtendsTrans(s.code, o1.s.code, x.code);
    TargetsStay(k, s.code, x.code, w, w);
  }

  /** One run of the body, and the loop again. */
  lemma {:induction false} BodySim(f: Final, e: Expr, s: State, k: Targets, fr: seq<Word>, env: Env, pins: seq<Word>, fuel: nat)
    returns (l: Land)
    requires f.rounds == fuel
    requires e.While? && StateOk(s) && TargetsOk(k, s.code, Width(s)) && Sound(s) && Reachable(k, Width(s)) && HostOk(f.host)
    requires CompileWhile(e, s, k).Ok? && Extends(CompileWhile(e, s, k).s.code, f.code)
    requires FrameIs(s.slots, fr, env, pins) && |fr| + 1 == Width(s)
    ensures var o := CompileWhile(e, s, k);
      Landed(f, k, At(|s.code| + 1, 0, [f.host.sp] + fr),
             match Eval(f.host, e.body, env, fuel)
             case Normal(env2, _) => Eval(f.host, e, env2, fuel)
             case Abrupt(env2, why) =>
               if why == Broke then Normal(env2, WORD_NIL)
               else if why == Continued then Eval(f.host, e, env2, fuel)
               else Abrupt(env2, why),
             o.s, o.v, s.slots, pins, l)
    decreases fuel, e, 1
  {
    hide Ready, Landed, Extends, Grows, StateOk, TargetsOk, HostOk, Holds, FrameIs, Compile, LoopOpen, LoopTest, LoopEnd, Fresh,
         WellTagged, Here, Eval;
    LoopExtends(f, e, s, k);
    var b, w, h, d := |s.code|, Width(s), LoopOpen(s), CompileWhile(e, s, k);
    var o := Compile(e.cond, h, k, true);
    var t, k1 := LoopTest(o.s, o.v, b), LoopTargets(k, b, w);
    var o1 := Compile(e.body, t, k1, false);
    var from := At(b + 1, 0, [f.host.sp] + fr);
    FreshReady(f, t, b + 1, k1, fr, env, pins);
    var l2 := Sim(f, e.body, t, k1, false, [f.host.sp] + fr, fr, env, pins, fuel);
    match Eval(f.host, e.body, env, fuel)
    case Normal(env2, w2) =>
      LoopedBack(f, k1, from, s, o1, env2, w2, pins, l2);
      l := LoopSim(f, e, s, k, l2.fr, env2, pins, fuel);
      LandedFrom(f, k, from, At(b, 0, [f.host.sp] + l2.fr), Eval(f.host, e, env2, fuel), d.s, d.v, s.slots, pins, l);
    case Abrupt(env2, why) =>
      BodyLeft(f, k, from, b, w, env2, why, o1.s, o1.v, d.s, d.v, s.slots, pins, l2);
      if why == Broke {
        l := LoopLeft(f, e, s, k, from, l2.fr, env2, pins);
      } else if why == Continued {
        l := LoopSim(f, e, s, k, l2.fr, env2, pins, fuel);
        LandedFrom(f, k, from, At(b, 0, [f.host.sp] + l2.fr), Eval(f.host, e, env2, fuel), d.s, d.v, s.slots, pins, l);
      } else {
        l := l2;
      }
  }

  lemma LoopedBack(f: Final, k1: Targets, from: Config, s: State, o: Outcome, env2: Env, w2: Word, pins: seq<Word>, l2: Land)
    requires o.Ok? && StateOk(o.s) && Sound(o.s) && o.s.slots == s.slots && |s.code| + 2 < |o.s.code| && Sound(s)
    requires Landed(f, k1, from, Normal(env2, w2), o.s, o.v, s.slots, pins, l2)
    requires Extends(LoopEnd(o.s, |s.code|).code, f.code) && |s.code| < |f.code| && f.code[|s.code|].nparams == Width(s)
    ensures Leads(f, from, At(|s.code|, 0, [f.host.sp] + l2.fr))
    ensures FrameIs(s.slots, l2.fr, env2, pins) && |l2.fr| + 1 == Width(s)
  {
    PickFrame(o.s, l2.vals, f.host.sp, l2.fr);
    RunBr(f, o.s, |s.code|, Frame(o.s), l2.vals, 0);
    Chain(f, from, Here(o.s, l2.vals), At(|s.code|, 0, [f.host.sp] + l2.fr));
  }

  /** `break` and `continue` reach this loop's exit and header; everything else passes through. */
  lemma BodyLeft(f: Final, k: Targets, from: Config, b: nat, w: nat, env2: Env, why: Why, t: State, v: nat, t2: State, v2: nat,
                 slots: seq<Slot>, pins: seq<Word>, l2: Land)
    requires Landed(f, LoopTargets(k, b, w), from, Abrupt(env2, why), t, v, slots, pins, l2) && w == 1 + |slots|
    requires Reachable(k, w)
    ensures why == Broke ==> Leads(f, from, At(b + 2, 0, [f.host.sp] + l2.fr))
    ensures why == Continued ==> Leads(f, from, At(b, 0, [f.host.sp] + l2.fr))
    ensures why == Broke || why == Continued ==> FrameIs(slots, l2.fr, env2, pins) && |l2.fr| + 1 == w
    ensures why != Broke && why != Continued ==> Landed(f, k, from, Abrupt(env2, why), t2, v2, slots, pins, l2)
  {
    assert why == Broke || why == Continued ==> ([f.host.sp] + l2.fr)[..w] == [f.host.sp] + l2.fr;
  }

  // ---- try ----

  ghost predicate TryInCode(code: seq<Block>, e: Expr, s: State, k: Targets)
    requires e.Try? && Sound(s) && Reachable(k, Width(s)) && CompileTry(e, s, k).Ok?
  {
    var b, w, h := |s.code|, Width(s), TryOpen(s);
    var o := Compile(e.body, h, TryTargets(k, b, w), false);
    var t := TryTest(o.s, o.v, b);
    var o1 := Compile(e.handler, HandlerScope(t, e.x), k, false);
    var u := ScopeEnd(o1.s, |t.slots|, t.mark);
    && StateOk(o.s) && StateOk(o1.s) && Extends(o.s.code, code) && Extends(t.code, code) && Extends(o1.s.code, code)
    && Extends(ArmEnd(u, b + 1, o1.v, b + 1).code, code) && b + 1 < |code|
    && code[b].nparams == code[b + 1].nparams == w + 1
  }

  lemma TryExtends(f: Final, e: Expr, s: State, k: Targets)
    requires e.Try? && StateOk(s) && TargetsOk(k, s.code, Width(s)) && Sound(s) && Reachable(k, Width(s))
    requires CompileTry(e, s, k).Ok? && Extends(CompileTry(e, s, k).s.code, f.code)
    ensures TryLinked(e, s, k) && TryInCode(f.code, e, s, k)
  {
    hide Extends, Grows, StateOk, TargetsOk, Compile, TryOpen, TryTest, ArmEnd, Fresh, HandlerScope;
    TryGrows(e, s, k);
    var b, w, h := |s.code|, Width(s), TryOpen(s);
    var o := Compile(e.body, h, TryTargets(k, b, w), false);
    var t := TryTest(o.s, o.v, b);
    var t1 := HandlerScope(t, e.x);
    var o1 := Compile(e.handler, t1, k, false);
    var u := ScopeEnd(o1.s, |t.slots|, t.mark);
    ExtendsTrans(u.code, ArmEnd(u, b + 1, o1.v, b + 1).code, f.code);
    assert u.code == o1.s.code;
    ExtendsInto(f, t1, o1.s);
    ExtendsTrans(o.s.code, t.code, f.code);
    PairCounts(t.code, f.code, b);
    Now(h, o.s, map[]);
    Now(t1, o1.s, map[]);
  }

  lemma PairCounts(c: seq<Block>, d: seq<Block>, b: nat)
    requires Extends(c, d) && b + 1 < |c|
    ensures |c| <= |d| && d[b].nparams == c[b].nparams && d[b + 1].nparams == c[b + 1].nparams
  {
    assert Grown(c[b], d[b]) && Grown(c[b + 1], d[b + 1]);
  }

  lemma {:induction false} TrySim(f: Final, e: Expr, s: State, k: Targets, vals: seq<Word>, fr: seq<Word>, env: Env,
                                  pins: seq<Word>, fuel: nat) returns (l: Land)
    requires f.rounds == fuel
    requires e.Try? && Ready(f, s, k, vals, fr, env, pins) && Sound(s) && Reachable(k, Width(s))
    requires CompileTry(e, s, k).Ok? && Extends(CompileTry(e, s, k).s.code, f.code)
    ensures var o := CompileTry(e, s, k);
      Landed(f, k, Here(s, vals), Eval(f.host, e, env, fuel), o.s, o.v, s.slots, pins, l)
    decreases fuel, e, 1
  {
    hide Ready, Landed, Extends, Grows, StateOk, TargetsOk, HostOk, Holds, FrameIs, Compile, TryOpen, TryTest, ArmEnd, Fresh,
         HandlerScope, WellTagged, Here, IsError;
    Unready(f, s, k, vals, fr, env, pins);
    TryExtends(f, e, s, k);
    var b, w, h, d := |s.code|, Width(s), TryOpen(s), CompileTry(e, s, k);
    var k1 := TryTargets(k, b, w);
    var o := Compile(e.body, h, k1, false);
    var from := Here(s, vals);
    TryEntered(f, s, k1, vals, fr, env, pins);
    var l1 := Sim(f, e.body, h, k1, false, vals, fr, env, pins, fuel);
    match Eval(f.host, e.body, env, fuel)
    case Normal(env1, v) =>
      TryTested(f, k1, from, s, o, env1, v, pins, l1);
      if IsError(v) {
        l := HandlerSim(f, e, s, k, from, l1.fr, v, env1, env, pins, fuel);
      } else {
        l := TryLands(f, k, from, d.s, b + 1, l1.fr, v, env1, s.slots, pins, w);
      }
    case Abrupt(env1, why) =>
      TryLeft(f, k, from, b, w, env1, why, o.s, o.v, d.s, d.v, s.slots, pins, l1);
      if why.Failed? {
        l := HandlerSim(f, e, s, k, from, l1.fr, why.w, env1, env, pins, fuel);
      } else {
        l := l1;
      }
  }

  lemma TryEntered(f: Final, s: State, k1: Targets, vals: seq<Word>, fr: seq<Word>, env: Env, pins: seq<Word>)
    requires Sound(s) && Holds(s, vals, f.host.sp, fr) && FrameIs(s.slots, fr, env, pins) && HostOk(f.host)
    requires StateOk(TryOpen(s)) && TargetsOk(k1, TryOpen(s).code, Width(TryOpen(s)))
    ensures Ready(f, TryOpen(s), k1, vals, fr, env, pins) && Here(TryOpen(s), vals) == Here(s, vals)
  {
  }

  lemma TryTested(f: Final, k1: Targets, from: Config, s: State, o: Outcome, env1: Env, v: Word, pins: seq<Word>, l1: Land)
    requires o.Ok? && StateOk(o.s) && Sound(o.s) && o.s.slots == s.slots && |s.code| + 1 < |o.s.code| && Sound(s)
    requires Landed(f, k1, from, Normal(env1, v), o.s, o.v, s.slots, pins, l1)
    requires Extends(TryTest(o.s, o.v, |s.code|).code, f.code) && |s.code| + 1 < |f.code|
    requires f.code[|s.code|].nparams == f.code[|s.code| + 1].nparams == Width(s) + 1
    ensures Leads(f, from, At(if IsError(v) then |s.code| else |s.code| + 1, 0, [f.host.sp] + l1.fr + [v]))
    ensures FrameIs(s.slots, l1.fr, env1, pins) && |l1.fr| + 1 == Width(s) && WellTagged(v)
  {
    hide FrameIs, WellTagged, IsError, CodeOk, EdgeGives;
    var b, n := |s.code|, Next(o.s);
    var t := Put(o.s, IsErrorInsts(n, o.v));
    var br := BrIf(n + 3, b, Frame(t) + [o.v], b + 1, Frame(t) + [o.v]);
    PutThenTerm(f, o.s, IsErrorInsts(n, o.v), br);
    hide StateOk, Extends, IsErrorInsts;
    BothEdges(f, o.s, o.v, b, t, l1.vals, l1.fr);
    ErrorTestRun(f, o.s, o.v, b, b + 1, t, Frame(t) + [o.v], Frame(t) + [o.v], l1.vals, l1.fr,
                 [f.host.sp] + l1.fr + [v], [f.host.sp] + l1.fr + [v]);
    Chain(f, from, Here(o.s, l1.vals), At(if IsError(v) then b else b + 1, 0, [f.host.sp] + l1.fr + [v]));
  }

  /** Both edges pass the frame and the value. */
  lemma BothEdges(f: Final, s: State, v: nat, b: nat, t: State, vals: seq<Word>, fr: seq<Word>)
    requires Placed(s) && v < |vals| && Holds(s, vals, f.host.sp, fr) && t.sp == s.sp && t.ids == s.ids && b + 1 < |f.code|
    requires f.code[b].nparams == f.code[b + 1].nparams == 2 + |fr|
    ensures var xs, ws := Frame(t) + [v], [f.host.sp] + fr + [vals[v]];
      EdgeGives(f.code, b, xs, vals, ws) && EdgeGives(f.code, b + 1, xs, vals, ws)
  {
    PickMore(s, vals, f.host.sp, fr, [v]);
    assert Pick(vals, [v]) == [vals[v]];
  }

  /** An error test in the current block, and the edge it takes. */
  lemma ErrorTestRun(f: Final, s: State, v: nat, x: nat, y: nat, t: State, xs: seq<nat>, ys: seq<nat>, vals: seq<Word>,
                     fr: seq<Word>, ifError: seq<Word>, ifNot: seq<Word>)
    requires Placed(s) && v < |vals| && Holds(s, vals, f.host.sp, fr) && s.code[s.cur].term == NoTerm
    requires t == Put(s, IsErrorInsts(Next(s), v))
    requires Extends(SetTerm(t, BrIf(Next(s) + 3, x, xs, y, ys)).code, f.code)
    requires EdgeGives(f.code, x, xs, vals, ifError) && EdgeGives(f.code, y, ys, vals, ifNot)
    ensures Leads(f, Here(s, vals), if IsError(vals[v]) then At(x, 0, ifError) else At(y, 0, ifNot))
  {
    var insts := IsErrorInsts(Next(s), v);
    PutThenTerm(f, s, insts, BrIf(Next(s) + 3, x, xs, y, ys));
    var out := IsErrorStraight(f.host.rt, v, vals);
    RunStraight(f, s, insts, vals, out, fr);
    PickGrows(vals, out, xs);
    PickGrows(vals, out, ys);
    hide Extends, Straight, Put, IsErrorInsts;
    RunBrIf(f, t, Next(s) + 3, x, xs, y, ys, out);
    Chain(f, Here(s, vals), Here(t, out), if IsError(vals[v]) then At(x, 0, ifError) else At(y, 0, ifNot));
  }

  ghost predicate EdgeGives(code: seq<Block>, x: nat, xs: seq<nat>, vals: seq<Word>, ws: seq<Word>) {
    x < |code| && AllBelow(xs, |vals|) && |xs| == code[x].nparams && Pick(vals, xs) == ws
  }

  lemma PickGrows(vals: seq<Word>, out: seq<Word>, ids: seq<nat>)
    requires vals <= out && AllBelow(ids, |vals|)
    ensures AllBelow(ids, |out|) && Pick(out, ids) == Pick(vals, ids)
  {
  }

  /** The body's own value, when it is no error, is the try's. */
  lemma TryLands(f: Final, k: Targets, from: Config, t: State, join: nat, fr: seq<Word>, v: Word, env: Env, slots: seq<Slot>,
                 pins: seq<Word>, w: nat) returns (l: Land)
    requires Leads(f, from, At(join, 0, [f.host.sp] + fr + [v])) && Fresh(t, join, w + 1) && t.slots == slots
    requires FrameIs(slots, fr, env, pins) && |fr| + 1 == w == Width(t) && WellTagged(v)
    ensures Landed(f, k, from, Normal(env, v), t, w, slots, pins, l)
  {
    FreshArrive(t, join, f.host.sp, fr, [v]);
    l := Land([f.host.sp] + fr + [v], fr);
  }

  /** An error reaches this try's handler; everything else passes through. */
  lemma TryLeft(f: Final, k: Targets, from: Config, b: nat, w: nat, env1: Env, why: Why, t: State, v: nat, t2: State, v2: nat,
                slots: seq<Slot>, pins: seq<Word>, l1: Land)
    requires Landed(f, TryTargets(k, b, w), from, Abrupt(env1, why), t, v, slots, pins, l1) && w == 1 + |slots|
    requires Reachable(k, w)
    ensures why.Failed? ==> Leads(f, from, At(b, 0, [f.host.sp] + l1.fr + [why.w])) && WellTagged(why.w)
    ensures why.Failed? ==> FrameIs(slots, l1.fr, env1, pins) && |l1.fr| + 1 == w
    ensures !why.Failed? ==> Landed(f, k, from, Abrupt(env1, why), t2, v2, slots, pins, l1)
  {
    assert why.Failed? ==> ([f.host.sp] + l1.fr)[..w] == [f.host.sp] + l1.fr;
  }

  /** The handler, with the error bound above the try-entry frame. */
  lemma {:induction false} HandlerSim(f: Final, e: Expr, s: State, k: Targets, from: Config, fr: seq<Word>, v: Word, env1: Env,
                                      env: Env, pins: seq<Word>, fuel: nat) returns (l: Land)
    requires f.rounds == fuel
    requires e.Try? && StateOk(s) && TargetsOk(k, s.code, Width(s)) && Sound(s) && Reachable(k, Width(s)) && HostOk(f.host)
    requires CompileTry(e, s, k).Ok? && Extends(CompileTry(e, s, k).s.code, f.code)
    requires FrameIs(s.slots, fr, env1, pins) && |fr| + 1 == Width(s) && WellTagged(v) && |env| == Named(s.slots)
    requires Leads(f, from, At(|s.code|, 0, [f.host.sp] + fr + [v]))
    ensures var o := CompileTry(e, s, k);
      Landed(f, k, from, Trim(Eval(f.host, e.handler, env1 + [Binding(e.x, false, v)], fuel), |env|), o.s, o.v, s.slots, pins, l)
    decreases fuel, e, 0
  {
    hide Ready, Landed, Extends, Grows, StateOk, TargetsOk, HostOk, Holds, FrameIs, Compile, TryOpen, TryTest, ArmEnd, Fresh,
         HandlerScope, WellTagged, Here, IsError, Eval;
    TryExtends(f, e, s, k);
    var b, w, h, d := |s.code|, Width(s), TryOpen(s), CompileTry(e, s, k);
    var o := Compile(e.body, h, TryTargets(k, b, w), false);
    var t := TryTest(o.s, o.v, b);
    var t1 := HandlerScope(t, e.x);
    var o1 := Compile(e.handler, t1, k, false);
    var u := ScopeEnd(o1.s, |t.slots|, t.mark);
    var vals, env2 := [f.host.sp] + fr + [v], env1 + [Binding(e.x, false, v)];
    HandlerReady(f, s, t, k, e.x, b, fr, v, env1, pins);
    var l2 := Sim(f, e.handler, t1, k, false, vals, fr + [v], env2, pins, fuel);
    var r := Eval(f.host, e.handler, env2, fuel);
    LandedFrom(f, k, from, Here(t1, vals), r, o1.s, o1.v, t1.slots, pins, l2);
    FrameCounts(s.slots, fr, env1, pins);
    var l3 := ScopeLands(f, k, from, r, o1.s, o1.v, u, s.slots, [Slot.Local(e.x, false)], pins, l2, |env|);
    UnscopedOpen(o1.s, u);
    l := ArmLands(f, k, from, Trim(r, |env|), u, o1.v, b + 1, b + 1, d.s, pins, l3);
  }

  lemma UnscopedOpen(s: State, u: State)
    requires StateOk(s) && u.code == s.code && u.cur == s.cur
    ensures Placed(u) && u.code[u.cur].term == NoTerm
  {
  }

  lemma HandlerReady(f: Final, s: State, t: State, k: Targets, x: string, b: nat, fr: seq<Word>, v: Word, env: Env,
                     pins: seq<Word>)
    requires Fresh(t, b, |fr| + 2) && t.slots == s.slots && Width(t) == |fr| + 1 && HostOk(f.host) && WellTagged(v)
    requires StateOk(HandlerScope(t, x)) && TargetsOk(k, HandlerScope(t, x).code, Width(HandlerScope(t, x)))
    requires FrameIs(s.slots, fr, env, pins)
    ensures var t1, vals := HandlerScope(t, x), [f.host.sp] + fr + [v];
      && Ready(f, t1, k, vals, fr + [v], env + [Binding(x, false, v)], pins) && Here(t1, vals) == At(b, 0, vals)
      && Reachable(k, Width(t1))
  {
    FreshArrive(t, b, f.host.sp, fr, [v]);
    FrameLocal(s.slots, fr, env, pins, x, false, v);
    hide FrameIs, TargetsOk, StateOk, HostOk;
    PushHolds(t, Slot.Local(x, false), Width(t), [f.host.sp] + fr + [v], f.host.sp, fr);
  }

  /** Leaving a scope: its bindings fall off the frame and off the environment. */
  lemma ScopeLands(f: Final, k: Targets, from: Config, r: Result<Word>, t: State, v: nat, u: State, slots: seq<Slot>,
                   more: seq<Slot>, pins: seq<Word>, l1: Land, n: nat) returns (l: Land)
    requires Landed(f, k, from, r, t, v, slots + more, pins, l1) && n == Named(slots) && |pins| == |slots| - n
    requires Sound(t) && t.slots == slots + more && Reachable(k, 1 + |slots|)
    requires u.code == t.code && u.cur == t.cur && u.sp == t.sp && u.slots == slots && u.ids == t.ids[..|slots|]
    ensures Landed(f, k, from, Trim(r, n), u, v, slots, pins, l)
  {
    match r
    case Normal(env, w) =>
      FramePrefix(slots, more, l1.fr, env, pins);
      assert pins[..|pins|] == pins;
      l := Land(l1.vals, l1.fr[..|slots|]);
    case Abrupt(env, why) =>
      if why == Unfinished {
        l := l1;
      } else {
        assert pins + [] == pins;
        FramePrefix(slots, more, l1.fr, env, pins);
        l := LeftOuter(f, k, from, env, why, slots, more, pins, [], l1, env[..n]);
      }
  }

  // ---- scopes and statements ----

  /** A result as the enclosing scope sees it when it is not a value. */
  function Cropped(r: Result<Word>, n: nat): Result<Word> {
    if r.Normal? then r else Trim(r, n)
  }

  lemma {:induction false} ScopeSim(f: Final, e: Expr, s: State, k: Targets, mv: bool, vals: seq<Word>, fr: seq<Word>, env: Env,
                                    pins: seq<Word>, fuel: nat) returns (l: Land)
    requires f.rounds == fuel
    requires e.Scope? && Ready(f, s, k, vals, fr, env, pins) && Sound(s) && Reachable(k, Width(s))
    requires Compile(e, s, k, mv).Ok? && Extends(Compile(e, s, k, mv).s.code, f.code)
    ensures var o := Compile(e, s, k, mv);
      Landed(f, k, Here(s, vals), Eval(f.host, e, env, fuel), o.s, o.v, s.slots, pins, l)
    decreases fuel, e, 0
  {
    hide Landed, Extends, Grows, StateOk, TargetsOk, HostOk, FrameIs, WellTagged, CompileStmts, EvalStmts;
    Unready(f, s, k, vals, fr, env, pins);
    var s1 := s.(mark := |s.slots|);
    Remarked(s, |s.slots|);
    assert Ready(f, s1, k, vals, fr, env, pins);
    hide Ready, Holds;
    var o := CompileStmts(e.stmts, s1, k);
    StmtsGrow(e.stmts, s1, k);
    Now(s1, o.s, map[]);
    var l1 := StmtsSim(f, e.stmts, s1, k, vals, fr, env, pins, fuel);
    var r := EvalStmts(f.host, e.stmts, env, fuel);
    l := Unscope(f, k, Here(s, vals), r, s, o, pins, l1, |env|);
  }

  lemma Unscope(f: Final, k: Targets, from: Config, r: Result<Word>, s: State, o: Outcome, pins: seq<Word>, l1: Land, n: nat)
    returns (l: Land)
    requires o.Ok? && Sound(s) && Sound(o.s) && s.slots <= o.s.slots && Reachable(k, Width(s))
    requires n == Named(s.slots) && |pins| == |s.slots| - n
    requires Landed(f, k, from, Cropped(r, n), o.s, o.v, s.slots, pins, l1)
    ensures Landed(f, k, from, Trim(r, n), ScopeEnd(o.s, |s.slots|, s.mark), o.v, s.slots, pins, l)
  {
    if r.Normal? {
      var more := o.s.slots[|s.slots|..];
      assert o.s.slots == s.slots + more;
      l := ScopeLands(f, k, from, r, o.s, o.v, ScopeEnd(o.s, |s.slots|, s.mark), s.slots, more, pins, l1, n);
    } else {
      l := l1;
    }
  }

  /** What a binding statement does to the slots it does to the environment. */
  lemma BindLands(f: Final, k: Targets, s: State, st: Stmt, v: nat, vals: seq<Word>, fr: seq<Word>, env: Env, pins: seq<Word>)
    returns (env2: Env, fr2: seq<Word>)
    requires StateOk(s) && Sound(s) && Holds(s, vals, f.host.sp, fr) && FrameIs(s.slots, fr, env, pins)
    requires v < |vals| && WellTagged(vals[v]) && Bind(s, st, v).Ok?
    ensures var o := Bind(s, st, v);
      && Holds(o.s, vals, f.host.sp, fr2) && FrameIs(o.s.slots, fr2, env2, pins) && o.v == v && Here(o.s, vals) == Here(s, vals)
      && Bound(st, env, vals[v]) == Normal(env2, vals[v]) && (st.Do? ==> env2 == env)
  {
    hide StateOk, FrameIs, Holds, WellTagged, Here;
    var w := vals[v];
    match st
    case Do(_) => env2, fr2 := env, fr;
    case Def(x, _) =>
      NewBinding(f, s, x, false, v, vals, fr, env, pins);
      env2, fr2 := env + [Binding(x, false, w)], fr + [w];
    case Mut(x, _) =>
      FindAgrees(s.slots, fr, env, pins, x, w);
      var i, j := FindSlot(s.slots, x), Find(env, x);
      if i >= 0 && s.slots[i].mutable {
        OldBinding(f, s, i, v, vals, fr);
        env2, fr2 := Assign(env, j, w), fr[i := w];
      } else {
        NewBinding(f, s, x, true, v, vals, fr, env, pins);
        env2, fr2 := env + [Binding(x, true, w)], fr + [w];
      }
    case Set(x, _) =>
      FindAgrees(s.slots, fr, env, pins, x, w);
      var i, j := FindSlot(s.slots, x), Find(env, x);
      OldBinding(f, s, i, v, vals, fr);
      env2, fr2 := Assign(env, j, w), fr[i := w];
  }

  lemma NewBinding(f: Final, s: State, x: string, m: bool, v: nat, vals: seq<Word>, fr: seq<Word>, env: Env, pins: seq<Word>)
    requires Sound(s) && Holds(s, vals, f.host.sp, fr) && FrameIs(s.slots, fr, env, pins) && v < |vals| && WellTagged(vals[v])
    ensures var t := Push(s, Slot.Local(x, m), v);
      && Holds(t, vals, f.host.sp, fr + [vals[v]]) && Here(t, vals) == Here(s, vals)
      && FrameIs(t.slots, fr + [vals[v]], env + [Binding(x, m, vals[v])], pins)
  {
    FrameLocal(s.slots, fr, env, pins, x, m, vals[v]);
    hide FrameIs;
    PushHolds(s, Slot.Local(x, m), v, vals, f.host.sp, fr);
  }

  lemma OldBinding(f: Final, s: State, i: nat, v: nat, vals: seq<Word>, fr: seq<Word>)
    requires Sound(s) && Holds(s, vals, f.host.sp, fr) && v < |vals| && i < |s.ids|
    ensures var t := AssignSlot(s, i, v);
      i < |fr| && Holds(t, vals, f.host.sp, fr[i := vals[v]]) && Here(t, vals) == Here(s, vals)
  {
  }

  /** The rest of a statement, once its expression has a value. */
  function Bound(st: Stmt, env1: Env, w: Word): Result<Word> {
    match st
    case Do(_) => Normal(env1, w)
    case Def(x, _) => Normal(env1 + [Binding(x, false, w)], w)
    case Mut(x, _) =>
      var i := Find(env1, x);
      if i >= 0 && env1[i].mutable then Normal(Assign(env1, i, w), w)
      else Normal(env1 + [Binding(x, true, w)], w)
    case Set(x, _) =>
      var i := Find(env1, x);
      if i >= 0 && env1[i].mutable then Normal(Assign(env1, i, w), w) else Abrupt(env1, Wrong)
  }

  lemma StmtIs(h: Host, st: Stmt, env: Env, fuel: nat)
    ensures EvalStmt(h, st, env, fuel) ==
            match Eval(h, st.e, env, fuel)
            case Abrupt(env1, why) => Abrupt(env1, why)
            case Normal(env1, w) => Bound(st, env1, w)
  {
  }

  /** `emit_stmt_error_check`: an error leaves, anything else goes on with the same frame. */
  lemma ErrorCheckRun(f: Final, s: State, k: Targets, v: nat, vals: seq<Word>, fr: seq<Word>)
    requires StateOk(s) && TargetsOk(k, s.code, Width(s)) && Sound(s) && Reachable(k, Width(s)) && v < |vals|
    requires Holds(s, vals, f.host.sp, fr) && Extends(StmtErrorCheck(s, k, v).code, f.code) && WellTagged(vals[v])
    ensures Reachable(k, 1 + |fr|)
    ensures Leads(f, Here(s, vals), if IsError(vals[v]) then LeaveTo(k, f.host.sp, fr, Failed(vals[v]))
                                    else At(|s.code|, 0, [f.host.sp] + fr))
  {
    var n, w, b := Next(s), Width(s), |s.code|;
    var t := Put(s, IsErrorInsts(n, v));
    ErrorCheckGrows(s, k, v);
    var d := StmtErrorCheck(s, k, v);
    assert Grown(d.code[b], f.code[b]);
    PickFrame(s, vals, f.host.sp, fr);
    if k.inTry {
      Prefixed(s, vals, f.host.sp, fr, k.tryWidth);
      ToHandlerRun(f, s, k, v, vals, fr);
    } else {
      assert Grown(d.code[b + 1], f.code[b + 1]);
      ToExitRun(f, s, k, v, vals, fr);
    }
  }

  lemma ToHandlerRun(f: Final, s: State, k: Targets, v: nat, vals: seq<Word>, fr: seq<Word>)
    requires StateOk(s) && TargetsOk(k, s.code, Width(s)) && Sound(s) && Reachable(k, Width(s)) && v < |vals| && k.inTry
    requires Holds(s, vals, f.host.sp, fr) && Extends(StmtErrorCheck(s, k, v).code, f.code) && WellTagged(vals[v])
    requires |s.code| < |f.code| && f.code[|s.code|].nparams == Width(s)
    ensures Reachable(k, 1 + |fr|)
    ensures Leads(f, Here(s, vals), if IsError(vals[v]) then LeaveTo(k, f.host.sp, fr, Failed(vals[v]))
                                    else At(|s.code|, 0, [f.host.sp] + fr))
  {
    var n, w, b := Next(s), Width(s), |s.code|;
    var s1 := AddBlock(s, w);
    var t := Put(s1, IsErrorInsts(n, v));
    var xs := Frame(t)[..k.tryWidth] + [v];
    var d := StmtErrorCheck(s, k, v);
    assert AddBlock(Put(s, IsErrorInsts(n, v)), w) == t;
    assert d.code == SetTerm(t, BrIf(n + 3, k.onError, xs, b, Frame(t))).code;
    assert Grown(s.code[k.onError], d.code[k.onError]) by {
      ErrorCheckGrows(s, k, v);
    }
    assert Grown(d.code[k.onError], f.code[k.onError]);
    hide Extends, StmtErrorCheck, Put, IsErrorInsts, StateOk;
    PickFrame(s, vals, f.host.sp, fr);
    Prefixed(s, vals, f.host.sp, fr, k.tryWidth);
    PickBoth(vals, Frame(s)[..k.tryWidth], [v]);
    assert Holds(s1, vals, f.host.sp, fr) && Here(s1, vals) == Here(s, vals);
    ErrorTestRun(f, s1, v, k.onError, b, t, xs, Frame(t), vals, fr, ([f.host.sp] + fr)[..k.tryWidth] + [vals[v]],
                 [f.host.sp] + fr);
  }

  lemma PickBoth(vals: seq<Word>, xs: seq<nat>, ys: seq<nat>)
    requires AllBelow(xs, |vals|) && AllBelow(ys, |vals|)
    ensures AllBelow(xs + ys, |vals|) && Pick(vals, xs + ys) == Pick(vals, xs) + Pick(vals, ys)
  {
  }

  lemma ToExitRun(f: Final, s: State, k: Targets, v: nat, vals: seq<Word>, fr: seq<Word>)
    requires StateOk(s) && Sound(s) && Reachable(k, Width(s)) && v < |vals| && !k.inTry
    requires Holds(s, vals, f.host.sp, fr) && Extends(StmtErrorCheck(s, k, v).code, f.code) && WellTagged(vals[v])
    requires |s.code| + 1 < |f.code| && f.code[|s.code|].nparams == Width(s) && f.code[|s.code| + 1] == Block(1, [], Return([0]))
    ensures Reachable(k, 1 + |fr|)
    ensures Leads(f, Here(s, vals), if IsError(vals[v]) then LeaveTo(k, f.host.sp, fr, Failed(vals[v]))
                                    else At(|s.code|, 0, [f.host.sp] + fr))
  {
    var n, w, b := Next(s), Width(s), |s.code|;
    var s1 := s.(code := s.code + [Block(w, [], NoTerm), Block(1, [], Return([0]))]);
    var t := Put(s1, IsErrorInsts(n, v));
    var d := StmtErrorCheck(s, k, v);
    assert d.code == SetTerm(t, BrIf(n + 3, b + 1, [v], b, Frame(t))).code;
    hide Extends, StmtErrorCheck, Put, IsErrorInsts, StateOk;
    PickFrame(s, vals, f.host.sp, fr);
    assert Pick(vals, [v]) == [vals[v]];
    assert Holds(s1, vals, f.host.sp, fr) && Here(s1, vals) == Here(s, vals);
    ErrorTestRun(f, s1, v, b + 1, b, t, [v], Frame(t), vals, fr, [vals[v]], [f.host.sp] + fr);
    if IsError(vals[v]) {
      var c := At(b + 1, 0, [vals[v]]);
      assert Pick([vals[v]], [0]) == [vals[v]];
      OneStep(f.code, f.host.rt, c);
      Chain(f, Here(s, vals), c, Done([vals[v]]));
    }
  }

  lemma {:induction false} StmtsSim(f: Final, stmts: Stmts, s: State, k: Targets, vals: seq<Word>, fr: seq<Word>, env: Env,
                                    pins: seq<Word>, fuel: nat) returns (l: Land)
    requires f.rounds == fuel
    requires Ready(f, s, k, vals, fr, env, pins) && Sound(s) && Reachable(k, Width(s))
    requires CompileStmts(stmts, s, k).Ok? && Extends(CompileStmts(stmts, s, k).s.code, f.code)
    ensures var o := CompileStmts(stmts, s, k);
      Landed(f, k, Here(s, vals), Cropped(EvalStmts(f.host, stmts, env, fuel), |env|), o.s, o.v, s.slots, pins, l)
    decreases fuel, stmts, 0
  {
    hide Ready, Extends, Grows, StateOk, TargetsOk, HostOk, Holds, FrameIs, Compile, WellTagged, Bind, StmtErrorCheck, EvalStmt;
    Unready(f, s, k, vals, fr, env, pins);
    match stmts
    case NoStmts =>
      I32WordTagged(0);
      l := ConstLands(f, k, s, I32Word(0), vals, fr, env, pins);
    case MoreStmts(st, rest) =>
      var o := Compile(st.e, s, k, true);
      CompileGrows(st.e, s, k, true);
      After(s, k, o.s);
      StmtExtends(f, stmts, s, k);
      var l1 := Sim(f, st.e, s, k, true, vals, fr, env, pins, fuel);
      StmtIs(f.host, st, env, fuel);
      match Eval(f.host, st.e, env, fuel)
      case Abrupt(env1, why) =>
        l := l1;
        SameEnv(f, k, Here(s, vals), env1, why, o.s, o.v, s.slots, pins, l1, |env|);
      case Normal(env1, w) =>
        l := StmtNext(f, stmts, s, k, Here(s, vals), env, env1, w, pins, fuel, l1);
  }

  lemma SameEnv(f: Final, k: Targets, c: Config, env1: Env, why: Why, t: State, v: nat, slots: seq<Slot>, pins: seq<Word>, l: Land,
                n: nat)
    requires Landed(f, k, c, Abrupt(env1, why), t, v, slots, pins, l) && n == Named(slots)
    ensures forall t2: State, v2: nat :: Landed(f, k, c, Abrupt(Keep(env1, n), why), t2, v2, slots, pins, l)
  {
    if why != Unfinished {
      FrameCounts(slots, l.fr, env1, pins);
      assert Keep(env1, n) == env1;
    }
  }

  /** The finished code has each stage of the statements. */
  lemma StmtExtends(f: Final, stmts: Stmts, s: State, k: Targets)
    requires stmts.MoreStmts? && StateOk(s) && TargetsOk(k, s.code, Width(s)) && Sound(s) && Reachable(k, Width(s))
    requires CompileStmts(stmts, s, k).Ok? && Extends(CompileStmts(stmts, s, k).s.code, f.code)
    ensures var st, rest, o := stmts.s, stmts.rest, Compile(stmts.s.e, s, k, true);
      && Extends(o.s.code, f.code) && StateOk(o.s) && TargetsOk(k, o.s.code, Width(o.s))
      && var o1 := Bind(o.s, st, o.v);
      && o1.Ok? && StateOk(o1.s) && o1.v == o.v && o1.s.code == o.s.code && TargetsOk(k, o1.s.code, Width(o1.s))
      && Reachable(k, Width(o1.s)) && o1.v < Next(o1.s)
      && (rest != NoStmts && !Binds(st) ==>
            var t := StmtErrorCheck(o1.s, k, o1.v);
            && StateOk(t) && TargetsOk(k, t.code, Width(t)) && Extends(t.code, f.code) && Fresh(t, |o1.s.code|, Width(o1.s)))
  {
    hide Extends, Grows, StateOk, TargetsOk, Compile, Bind, StmtErrorCheck;
    var st, rest, o := stmts.s, stmts.rest, Compile(stmts.s.e, s, k, true);
    CompileGrows(st.e, s, k, true);
    After(s, k, o.s);
    var o1 := Bind(o.s, st, o.v);
    BindOk(o.s, st, o.v);
    TargetsWider(k, o.s.code, Width(o.s), Width(o1.s));
    if rest != NoStmts {
      if Binds(st) {
        StmtsGrow(rest, o1.s, k);
        ExtendsInto(f, o1.s, CompileStmts(rest, o1.s, k).s);
      } else {
        var t := StmtErrorCheck(o1.s, k, o1.v);
        ErrorCheckGrows(o1.s, k, o1.v);
        After(o1.s, k, t);
        StmtsGrow(rest, t, k);
        ExtendsInto(f, t, CompileStmts(rest, t, k).s);
        ExtendsInto(f, o1.s, t);
        CheckFresh(o1.s, k, o1.v);
      }
    }
  }

  lemma CheckFresh(s: State, k: Targets, v: nat)
    requires Sound(s) && Reachable(k, Width(s)) && ErrorLinked(Put(s, IsErrorInsts(Next(s), v)), k, Next(s) + 3, v)
    ensures Fresh(StmtErrorCheck(s, k, v), |s.code|, Width(s))
  {
  }

  /** A statement has its value: bind it, check it, and go on. */
  lemma {:induction false} StmtNext(f: Final, stmts: Stmts, s: State, k: Targets, c: Config, env: Env, env1: Env, w: Word,
                                    pins: seq<Word>, fuel: nat, l1: Land) returns (l: Land)
    requires f.rounds == fuel
    requires stmts.MoreStmts? && StateOk(s) && TargetsOk(k, s.code, Width(s)) && Sound(s) && Reachable(k, Width(s))
    requires HostOk(f.host) && CompileStmts(stmts, s, k).Ok? && Extends(CompileStmts(stmts, s, k).s.code, f.code)
    requires |env| == Named(s.slots) && |pins| == |s.slots| - Named(s.slots)
    requires Eval(f.host, stmts.s.e, env, fuel) == Normal(env1, w)
    requires var o := Compile(stmts.s.e, s, k, true); Landed(f, k, c, Normal(env1, w), o.s, o.v, s.slots, pins, l1)
    ensures var o := CompileStmts(stmts, s, k);
      Landed(f, k, c, Cropped(EvalStmts(f.host, stmts, env, fuel), |env|), o.s, o.v, s.slots, pins, l)
    decreases fuel, stmts.rest, 1
  {
    hide Ready, Extends, Grows, StateOk, TargetsOk, HostOk, FrameIs, Compile, WellTagged, Bind, StmtErrorCheck, EvalStmt, Fresh, IsError;
    var st, rest, o := stmts.s, stmts.rest, Compile(stmts.s.e, s, k, true);
    StmtExtends(f, stmts, s, k);
    StmtIs(f.host, st, env, fuel);
    var o1 := Bind(o.s, st, o.v);
    var env2, fr2 := BindLands(f, k, o.s, st, o.v, l1.vals, l1.fr, env1, pins);
    hide Holds, Bound;
    FrameCounts(o1.s.slots, fr2, env2, pins);
    if rest == NoStmts {
      l := Land(l1.vals, fr2);
    } else if Binds(st) {
      MakeReady(f, o1.s, k, l1.vals, fr2, env2, pins);
      var l2 := StmtsSim(f, rest, o1.s, k, l1.vals, fr2, env2, pins, fuel);
      l := RestLands(f, k, c, Here(o1.s, l1.vals), EvalStmts(f.host, rest, env2, fuel), CompileStmts(stmts, s, k), s.slots,
                     o1.s.slots, pins, l2, |env|, |env2|);
    } else {
      var t := StmtErrorCheck(o1.s, k, o1.v);
      HoldsCount(o1.s, l1.vals, f.host.sp, fr2);
      ErrorCheckRun(f, o1.s, k, o1.v, l1.vals, fr2);
      if IsError(w) {
        l := Land([], fr2);
        Chain(f, c, Here(o1.s, l1.vals), LeaveTo(k, f.host.sp, fr2, Failed(w)));
        DoKeeps(o.s, st, o.v);
        assert Keep(env2, |env|) == env2;
      } else {
        FreshReady(f, t, |o1.s.code|, k, fr2, env2, pins);
        var vals2 := [f.host.sp] + fr2;
        var l2 := StmtsSim(f, rest, t, k, vals2, fr2, env2, pins, fuel);
        Chain(f, c, Here(o1.s, l1.vals), At(|o1.s.code|, 0, vals2));
        l := RestLands(f, k, c, Here(t, vals2), EvalStmts(f.host, rest, env2, fuel), CompileStmts(stmts, s, k), s.slots,
                       o1.s.slots, pins, l2, |env|, |env2|);
      }
    }
  }

  lemma DoKeeps(s: State, st: Stmt, v: nat)
    requires Sound(s) && st.Do?
    ensures Bind(s, st, v) == Ok(s, v)
  {
  }

  lemma HoldsCount(s: State, vals: seq<Word>, sp: Word, fr: seq<Word>)
    requires Placed(s) && Holds(s, vals, sp, fr)
    ensures |fr| == |s.ids| && |vals| == Next(s)
  {
  }

  lemma MakeReady(f: Final, s: State, k: Targets, vals: seq<Word>, fr: seq<Word>, env: Env, pins: seq<Word>)
    requires StateOk(s) && TargetsOk(k, s.code, Width(s)) && Sound(s) && HostOk(f.host)
    requires Holds(s, vals, f.host.sp, fr) && FrameIs(s.slots, fr, env, pins)
    ensures Ready(f, s, k, vals, fr, env, pins)
  {
  }

  /** The rest of the statements landed inside more slots; seen from the scope's own, the same. */
  lemma RestLands(f: Final, k: Targets, c: Config, d: Config, r: Result<Word>, o: Outcome, slots: seq<Slot>, inner: seq<Slot>,
                  pins: seq<Word>, l1: Land, n: nat, m: nat) returns (l: Land)
    requires o.Ok? && Leads(f, c, d) && Landed(f, k, d, Cropped(r, m), o.s, o.v, inner, pins, l1) && slots <= inner
    requires n == Named(slots) && m == Named(inner) && |pins| == |slots| - n && Reachable(k, 1 + |slots|)
    ensures Landed(f, k, c, Cropped(r, n), o.s, o.v, slots, pins, l)
  {
    LandedFrom(f, k, c, d, Cropped(r, m), o.s, o.v, inner, pins, l1);
    l := l1;
    if r.Abrupt? && r.why != Unfinished {
      var more := inner[|slots|..];
      var env := Keep(r.env, m);
      assert inner == slots + more && pins + [] == pins;
      FramePrefix(slots, more, l1.fr, env, pins);
      FrameCounts(inner, l1.fr, env, pins);
      l := LeftOuter(f, k, c, env, r.why, slots, more, pins, [], l1, env[..n]);
      assert Keep(r.env, n) == env[..n];
    }
  }

  // ---- tail position ----

  /** From c the code returns the source result's answer, or the source has rounds to go and so has the code. */
  ghost predicate Ends(f: Final, c: Config, r: Result<Word>) {
    if r.Abrupt? && r.why == Unfinished then Busy(f, c) else Finishes(r) && Leads(f, c, Done([Answer(r)]))
  }

  lemma EndsFrom(f: Final, c: Config, d: Config, r: Result<Word>)
    requires Leads(f, c, d) && Ends(f, d, r)
    ensures Ends(f, c, r)
  {
    if r.Abrupt? && r.why == Unfinished {
      BusyFrom(f, c, d);
    } else {
      Chain(f, c, d, Done([Answer(r)]));
    }
  }

  /** With no loop or try around, whatever is not a value leaves the function. */
  lemma AbruptEnds(f: Final, c: Config, env: Env, why: Why, t: State, v: nat, slots: seq<Slot>, pins: seq<Word>, l: Land)
    requires Landed(f, NO_TARGETS, c, Abrupt(env, why), t, v, slots, pins, l)
    ensures forall env2: Env :: Ends(f, c, Abrupt(env2, why))
  {
  }

  /** A value at the end of its block is returned. */
  lemma ValueEnds(f: Final, c: Config, s: State, v: nat, vals: seq<Word>, env: Env)
    requires Placed(s) && s.code[s.cur].term == NoTerm && v < |vals| && Leads(f, c, Here(s, vals))
    requires Extends(SetTerm(s, Return([v])).code, f.code)
    ensures Ends(f, c, Normal(env, vals[v]))
  {
    RunTerm(f, s, Return([v]), vals);
    assert Pick(vals, [v]) == [vals[v]];
    Chain(f, c, Here(s, vals), Done([vals[v]]));
  }

  lemma {:induction false} TailSim(f: Final, e: Expr, s: State, vals: seq<Word>, fr: seq<Word>, env: Env, pins: seq<Word>,
                                   fuel: nat)
    requires f.rounds == fuel && Ready(f, s, NO_TARGETS, vals, fr, env, pins) && Sound(s)
    requires CompileTail(e, s).Ended? && Extends(CompileTail(e, s).code, f.code)
    ensures Ends(f, Here(s, vals), Eval(f.host, e, env, fuel))
    decreases e, 1
  {
    hide Ready, Extends, Compile, TailStmts, IfTail, Ends, IfCommand, EvalStmts, Here;
    match e
    case ReturnEarly(e1) =>
      TailSim(f, e1, s, vals, fr, env, pins, fuel);
      ReturnsSame(f, Here(s, vals), f.host, e1, env, fuel);
    case Scope(stmts) =>
      var s1 := s.(mark := |s.slots|);
      MarkReady(f, s, |s.slots|, vals, fr, env, pins);
      TailStmtsSim(f, stmts, s1, vals, fr, env, pins, fuel);
      TrimEnds(f, Here(s, vals), EvalStmts(f.host, stmts, env, fuel), |env|);
    case If(_, _, _) =>
      if IfCommand(e) {
        IfTailSim(f, e, s, vals, fr, env, pins, fuel);
      } else {
        ValueSim(f, e, s, vals, fr, env, pins, fuel);
      }
    case _ => ValueSim(f, e, s, vals, fr, env, pins, fuel);
  }

  lemma MarkReady(f: Final, s: State, m: nat, vals: seq<Word>, fr: seq<Word>, env: Env, pins: seq<Word>)
    requires Ready(f, s, NO_TARGETS, vals, fr, env, pins)
    ensures var t := s.(mark := m); Ready(f, t, NO_TARGETS, vals, fr, env, pins) && Sound(t) && Here(t, vals) == Here(s, vals)
  {
    Remarked(s, m);
  }

  /** An early return in tail position is its value. */
  lemma ReturnsSame(f: Final, c: Config, h: Host, e: Expr, env: Env, fuel: nat)
    requires Ends(f, c, Eval(h, e, env, fuel))
    ensures Ends(f, c, Eval(h, ReturnEarly(e), env, fuel))
  {
  }

  lemma TrimEnds(f: Final, c: Config, r: Result<Word>, n: nat)
    requires Ends(f, c, r)
    ensures Ends(f, c, Trim(r, n))
  {
  }

  lemma ValueSim(f: Final, e: Expr, s: State, vals: seq<Word>, fr: seq<Word>, env: Env, pins: seq<Word>, fuel: nat)
    requires f.rounds == fuel && Ready(f, s, NO_TARGETS, vals, fr, env, pins) && Sound(s)
    requires Compile(e, s, NO_TARGETS, true).Ok? && Extends(ReturnOf(Compile(e, s, NO_TARGETS, true)).code, f.code)
    ensures Ends(f, Here(s, vals), Eval(f.host, e, env, fuel))
  {
    hide Ready, Extends, Compile, Ends, Eval, StateOk, TargetsOk, Grows, Here;
    Unready(f, s, NO_TARGETS, vals, fr, env, pins);
    var o := Compile(e, s, NO_TARGETS, true);
    CompileGrows(e, s, NO_TARGETS, true);
    OpenEnd(s, o);
    ValueCloses(e, s);
    ExtendsTrans(o.s.code, ReturnOf(o).code, f.code);
    var l := Sim(f, e, s, NO_TARGETS, true, vals, fr, env, pins, fuel);
    match Eval(f.host, e, env, fuel)
    case Normal(env1, w) => ValueEnds(f, Here(s, vals), o.s, o.v, l.vals, env1);
    case Abrupt(env1, why) => AbruptEnds(f, Here(s, vals), env1, why, o.s, o.v, s.slots, pins, l);
  }

  /** The finished code has each stage of a conditional in tail position. */
  lemma TailExtends(f: Final, e: Expr, s: State)
    requires e.If? && StateOk(s) && Sound(s) && IfTail(e, s).Ended? && Extends(IfTail(e, s).code, f.code)
    ensures var o := Compile(e.cond, s, NO_TARGETS, true);
      && o.Ok? && var g := TailFork(o.s, o.v);
      && var a := CompileTail(e.thn, g);
      && a.Ended? && TailLinked(s, o, g, a.code, IfTail(e, s).code)
      && Extends(o.s.code, f.code) && Extends(g.code, f.code) && Extends(a.code, f.code)
  {
    hide Extends, Grows, StateOk, Compile, CompileTail, TailFork, NextArm, Fresh;
    IfTailCloses(e, s);
    var o := Compile(e.cond, s, NO_TARGETS, true);
    var g := TailFork(o.s, o.v);
    var a := CompileTail(e.thn, g).code;
    ExtendsTrans(a, IfTail(e, s).code, f.code);
    ExtendsTrans(g.code, a, f.code);
    ExtendsTrans(o.s.code, g.code, f.code);
  }

  lemma TailForkRun(f: Final, s: State, c: nat, vals: seq<Word>, fr: seq<Word>)
    requires StateOk(s) && Sound(s) && c < |vals| && Holds(s, vals, f.host.sp, fr) && Extends(TailFork(s, c).code, f.code)
    requires Fresh(TailFork(s, c), |s.code|, Width(s)) && TailFork(s, c).code[|s.code| + 1].nparams == Width(s)
    ensures Leads(f, Here(s, vals), At(if Truthy(vals[c]) then |s.code| else |s.code| + 1, 0, [f.host.sp] + fr))
  {
    var n, w, b := Next(s), Width(s), |s.code|;
    var t := Put(s, TruthyInsts(n, c));
    var t3 := AddBlock(AddBlock(t, w), w);
    var s3 := AddBlock(AddBlock(s, w), w);
    var br := BrIf(n + 4, b, Frame(t3), b + 1, Frame(t3));
    assert t3 == Put(s3, TruthyInsts(n, c)) && Next(s3) == n && Here(s3, vals) == Here(s, vals);
    assert TailFork(s, c).code == SetTerm(t3, br).code;
    assert Grown(TailFork(s, c).code[b], f.code[b]) && Grown(TailFork(s, c).code[b + 1], f.code[b + 1]);
    assert Holds(s3, vals, f.host.sp, fr);
    hide StateOk, Extends, TailFork, Put, TruthyInsts;
    TestRun(f, s3, c, b, b + 1, t3, br, vals, fr);
  }

  lemma {:induction false} IfTailSim(f: Final, e: Expr, s: State, vals: seq<Word>, fr: seq<Word>, env: Env, pins: seq<Word>,
                                     fuel: nat)
    requires f.rounds == fuel && e.If? && Ready(f, s, NO_TARGETS, vals, fr, env, pins) && Sound(s)
    requires IfTail(e, s).Ended? && Extends(IfTail(e, s).code, f.code)
    ensures Ends(f, Here(s, vals), Eval(f.host, e, env, fuel))
    decreases e, 0
  {
    hide Ready, Extends, Grows, StateOk, HostOk, Holds, FrameIs, Compile, CompileTail, TailFork, NextArm, Fresh, Closes, Ends, Here;
    Unready(f, s, NO_TARGETS, vals, fr, env, pins);
    TailExtends(f, e, s);
    var o := Compile(e.cond, s, NO_TARGETS, true);
    var b, g := |o.s.code|, TailFork(o.s, o.v);
    var l := Sim(f, e.cond, s, NO_TARGETS, true, vals, fr, env, pins, fuel);
    match Eval(f.host, e.cond, env, fuel)
    case Abrupt(env1, why) => AbruptEnds(f, Here(s, vals), env1, why, o.s, o.v, s.slots, pins, l);
    case Normal(env1, v) =>
      TailForkRun(f, o.s, o.v, l.vals, l.fr);
      var x := if Truthy(v) then b else b + 1;
      var at := At(x, 0, [f.host.sp] + l.fr);
      Chain(f, Here(s, vals), Here(o.s, l.vals), at);
      FrameCounts(s.slots, l.fr, env1, pins);
      var arm, sub := if Truthy(v) then g else NextArm(g, CompileTail(e.thn, g).code, b + 1), if Truthy(v) then e.thn else e.els;
      ArmSlots(g, CompileTail(e.thn, g).code, b + 1);
      TailFreshReady(f, arm, x, l.fr, env1, pins);
      TailSim(f, sub, arm, [f.host.sp] + l.fr, l.fr, env1, pins, fuel);
      EndsFrom(f, Here(s, vals), at, Eval(f.host, sub, env1, fuel));
  }

  lemma ArmSlots(g: State, code: seq<Block>, x: nat)
    ensures NextArm(g, code, x).slots == g.slots && |NextArm(g, code, x).ids| == |g.ids|
  {
  }

  lemma TailFreshReady(f: Final, t: State, b: nat, fr: seq<Word>, env: Env, pins: seq<Word>)
    requires Fresh(t, b, 1 + |fr|) && StateOk(t) && HostOk(f.host) && |t.ids| == |fr| && FrameIs(t.slots, fr, env, pins)
    ensures Ready(f, t, NO_TARGETS, [f.host.sp] + fr, fr, env, pins) && Here(t, [f.host.sp] + fr) == At(b, 0, [f.host.sp] + fr)
  {
    hide FrameIs, HostOk, StateOk;
    FreshReady(f, t, b, NO_TARGETS, fr, env, pins);
  }

  /** A statement from c: it left, it failed as an error, or the code goes on in o with its value bound. */
  ghost predicate Stepped(f: Final, c: Config, o: Outcome, checked: bool, r: Result<Word>, pins: seq<Word>, l: Land) {
    match r
    case Abrupt(_, _) => Ends(f, c, r)
    case Normal(env, w) =>
      if checked && IsError(w) then Ends(f, c, Abrupt(env, Failed(w)))
      else o.Ok? && Ready(f, o.s, NO_TARGETS, l.vals, l.fr, env, pins) && Leads(f, c, Here(o.s, l.vals))
           && (!checked ==> o.v < |l.vals| && l.vals[o.v] == w)
  }

  /** The finished code has each stage of a statement. */
  lemma StepExtends(f: Final, st: Stmt, last: bool, s: State)
    requires StateOk(s) && Sound(s) && StmtStep(st, last, s, NO_TARGETS).Ok?
    requires Extends(StmtStep(st, last, s, NO_TARGETS).s.code, f.code)
    ensures var o, t := Compile(st.e, s, NO_TARGETS, true), StmtStep(st, last, s, NO_TARGETS);
      && Lowered(s, o) && Extends(o.s.code, f.code) && StateOk(o.s)
      && var o1 := Bind(o.s, st, o.v);
      && o1.Ok? && StateOk(o1.s) && o1.v == o.v && o1.s.code == o.s.code && StateOk(t.s)
      && (!last && !Binds(st) ==> t.s == StmtErrorCheck(o1.s, NO_TARGETS, o1.v) && Fresh(t.s, |o1.s.code|, Width(o1.s)))
      && (last || Binds(st) ==> t == o1)
  {
    hide Extends, Grows, StateOk, Compile, Bind, StmtErrorCheck;
    var o := Compile(st.e, s, NO_TARGETS, true);
    CompileGrows(st.e, s, NO_TARGETS, true);
    After(s, NO_TARGETS, o.s);
    var o1 := Bind(o.s, st, o.v);
    BindOk(o.s, st, o.v);
    if !last && !Binds(st) {
      ErrorCheckGrows(o1.s, NO_TARGETS, o1.v);
      After(o1.s, NO_TARGETS, StmtErrorCheck(o1.s, NO_TARGETS, o1.v));
      ExtendsInto(f, o1.s, StmtErrorCheck(o1.s, NO_TARGETS, o1.v));
      CheckFresh(o1.s, NO_TARGETS, o1.v);
    }
  }

  lemma StepSim(f: Final, st: Stmt, last: bool, s: State, vals: seq<Word>, fr: seq<Word>, env: Env, pins: seq<Word>, fuel: nat)
    returns (l: Land)
    requires f.rounds == fuel && Ready(f, s, NO_TARGETS, vals, fr, env, pins) && Sound(s)
    requires StmtStep(st, last, s, NO_TARGETS).Ok? && Extends(StmtStep(st, last, s, NO_TARGETS).s.code, f.code)
    ensures Stepped(f, Here(s, vals), StmtStep(st, last, s, NO_TARGETS), !last && !Binds(st), EvalStmt(f.host, st, env, fuel), pins, l)
  {
    hide Ready, Extends, Grows, StateOk, HostOk, FrameIs, Compile, WellTagged, Bind, StmtErrorCheck, EvalStmt, Fresh, IsError, Ends;
    Unready(f, s, NO_TARGETS, vals, fr, env, pins);
    StepExtends(f, st, last, s);
    StmtIs(f.host, st, env, fuel);
    var o := Compile(st.e, s, NO_TARGETS, true);
    var l1 := Sim(f, st.e, s, NO_TARGETS, true, vals, fr, env, pins, fuel);
    match Eval(f.host, st.e, env, fuel)
    case Abrupt(env1, why) =>
      l := l1;
      AbruptEnds(f, Here(s, vals), env1, why, o.s, o.v, s.slots, pins, l1);
    case Normal(env1, w) =>
      var env2, fr2 := BindLands(f, NO_TARGETS, o.s, st, o.v, l1.vals, l1.fr, env1, pins);
      l := StepNext(f, st, last, s, Here(s, vals), l1.vals, fr2, env2, w, pins);
  }

  /** The value is bound; a checked statement's error returns, anything else goes on. */
  lemma StepNext(f: Final, st: Stmt, last: bool, s: State, c: Config, vals: seq<Word>, fr: seq<Word>, env: Env, w: Word,
                 pins: seq<Word>) returns (l: Land)
    requires StateOk(s) && Sound(s) && HostOk(f.host) && StmtStep(st, last, s, NO_TARGETS).Ok?
    requires Extends(StmtStep(st, last, s, NO_TARGETS).s.code, f.code)
    requires var o := Compile(st.e, s, NO_TARGETS, true);
      && o.Ok? && var o1 := Bind(o.s, st, o.v);
      && o1.Ok? && o1.v == o.v && Leads(f, c, Here(o1.s, vals)) && Holds(o1.s, vals, f.host.sp, fr) && FrameIs(o1.s.slots, fr, env, pins)
      && o.v < |vals| && vals[o.v] == w && WellTagged(w)
    ensures Stepped(f, c, StmtStep(st, last, s, NO_TARGETS), !last && !Binds(st), Normal(env, w), pins, l)
  {
    hide Ready, Extends, Grows, StateOk, HostOk, FrameIs, Compile, WellTagged, Bind, StmtErrorCheck, Fresh, IsError, Holds;
    StepExtends(f, st, last, s);
    var o := Compile(st.e, s, NO_TARGETS, true);
    var o1, t := Bind(o.s, st, o.v), StmtStep(st, last, s, NO_TARGETS);
    HoldsCount(o1.s, vals, f.host.sp, fr);
    if last || Binds(st) {
      l := Land(vals, fr);
      MakeReady(f, o1.s, NO_TARGETS, vals, fr, env, pins);
    } else {
      ErrorCheckRun(f, o1.s, NO_TARGETS, o1.v, vals, fr);
      if IsError(w) {
        l := Land([], fr);
        Chain(f, c, Here(o1.s, vals), Done([w]));
      } else {
        l := Land([f.host.sp] + fr, fr);
        CheckSlots(o1.s, o1.v);
        TailFreshReady(f, t.s, |o1.s.code|, fr, env, pins);
        Chain(f, c, Here(o1.s, vals), At(|o1.s.code|, 0, l.vals));
      }
    }
  }

  lemma CheckSlots(s: State, v: nat)
    requires Sound(s)
    ensures var t := StmtErrorCheck(s, NO_TARGETS, v); t.slots == s.slots && |t.ids| == |s.ids|
  {
  }

  lemma StmtsIs(h: Host, stmts: Stmts, env: Env, fuel: nat)
    requires stmts.MoreStmts?
    ensures EvalStmts(h, stmts, env, fuel) ==
            match EvalStmt(h, stmts.s, env, fuel)
            case Abrupt(env1, why) => Abrupt(env1, why)
            case Normal(env1, w) =>
              if stmts.rest == NoStmts then Normal(env1, w)
              else if !Binds(stmts.s) && IsError(w) then Abrupt(env1, Failed(w))
              else EvalStmts(h, stmts.rest, env1, fuel)
  {
  }

  lemma DoIs(h: Host, st: Stmt, env: Env, fuel: nat)
    requires st.Do?
    ensures EvalStmt(h, st, env, fuel) == Eval(h, st.e, env, fuel)
    ensures st.e.ReturnEarly? ==> EvalStmt(h, st, env, fuel).Abrupt?
  {
  }

  lemma {:induction false} TailStmtsSim(f: Final, stmts: Stmts, s: State, vals: seq<Word>, fr: seq<Word>, env: Env,
                                        pins: seq<Word>, fuel: nat)
    requires f.rounds == fuel && Ready(f, s, NO_TARGETS, vals, fr, env, pins) && Sound(s)
    requires TailStmts(stmts, s).Ended? && Extends(TailStmts(stmts, s).code, f.code)
    ensures Ends(f, Here(s, vals), EvalStmts(f.host, stmts, env, fuel))
    decreases stmts
  {
    hide Ready, Extends, StateOk, Grows, StmtStep, CompileTail, Closes, Ends, EvalStmt, Eval, Here, IsError, EvalStmts;
    Unready(f, s, NO_TARGETS, vals, fr, env, pins);
    match stmts
    case NoStmts => EmptySim(f, s, vals, fr, env, pins, fuel);
    case MoreStmts(st, rest) =>
      StmtsIs(f.host, stmts, env, fuel);
      if st.Do? && (rest == NoStmts || st.e.ReturnEarly?) {
        DoIs(f.host, st, env, fuel);
        TailSim(f, st.e, s, vals, fr, env, pins, fuel);
      } else {
        var last := rest == NoStmts;
        var o := StmtStep(st, last, s, NO_TARGETS);
        StepGrows(st, last, s, NO_TARGETS);
        TailStep(f, stmts, s);
        var l := StepSim(f, st, last, s, vals, fr, env, pins, fuel);
        var r := EvalStmt(f.host, st, env, fuel);
        if r.Normal? && !(!last && !Binds(st) && IsError(r.val)) {
          if last {
            ValueEnds(f, Here(s, vals), o.s, o.v, l.vals, r.env);
          } else {
            TailStmtsSim(f, rest, o.s, l.vals, l.fr, r.env, pins, fuel);
            EndsFrom(f, Here(s, vals), Here(o.s, l.vals), EvalStmts(f.host, rest, r.env, fuel));
          }
        }
      }
  }

  lemma EmptySim(f: Final, s: State, vals: seq<Word>, fr: seq<Word>, env: Env, pins: seq<Word>, fuel: nat)
    requires Ready(f, s, NO_TARGETS, vals, fr, env, pins) && Sound(s)
    requires TailStmts(NoStmts, s).Ended? && Extends(TailStmts(NoStmts, s).code, f.code)
    ensures Ends(f, Here(s, vals), EvalStmts(f.host, NoStmts, env, fuel))
  {
    hide Extends, Ends, Here;
    var t := Const64(s, I32Word(0)).0;
    Insts(s, [ConstI64(I32Word(0))]);
    ReturnCloses(s, Same(Const64(s, I32Word(0))));
    ExtendsTrans(t.code, TailStmts(NoStmts, s).code, f.code);
    I32WordTagged(0);
    var l := ConstLands(f, NO_TARGETS, s, I32Word(0), vals, fr, env, pins);
    Now(s, t, map[]);
    ValueEnds(f, Here(s, vals), t, Next(s), l.vals, env);
  }

  /** The finished code has a statement's stage, and its state is open. */
  lemma TailStep(f: Final, stmts: Stmts, s: State)
    requires stmts.MoreStmts? && !(stmts.s.Do? && (stmts.rest == NoStmts || stmts.s.e.ReturnEarly?))
    requires StateOk(s) && Sound(s) && TailStmts(stmts, s).Ended? && Extends(TailStmts(stmts, s).code, f.code)
    ensures var o := StmtStep(stmts.s, stmts.rest == NoStmts, s, NO_TARGETS);
      && o.Ok? && Extends(o.s.code, f.code) && o.s.code[o.s.cur].term == NoTerm
  {
    hide Extends, Grows, StmtStep, CodeOk;
    var st, rest, o := stmts.s, stmts.rest, StmtStep(stmts.s, stmts.rest == NoStmts, s, NO_TARGETS);
    StepGrows(st, rest == NoStmts, s, NO_TARGETS);
    if rest == NoStmts {
      ReturnCloses(s, o);
    } else {
      TailStmtsClose(rest, o.s);
    }
    ExtendsTrans(o.s.code, TailStmts(stmts, s).code, f.code);
  }

  // ---- whole functions ----

  /** The environment a function body starts in. */
  function Arguments(params: seq<string>, args: seq<Word>): (env: Env)
    requires |params| == |args|
    ensures |env| == |params| && forall i :: 0 <= i < |env| ==> env[i] == Binding(params[i], false, args[i])
  {
    seq(|params|, i requires 0 <= i < |params| == |args| => Binding(params[i], false, args[i]))
  }

  lemma {:induction false} EntryFrame(params: seq<string>, args: seq<Word>)
    requires |params| == |args| && forall i :: 0 <= i < |args| ==> WellTagged(args[i])
    ensures FrameIs(ParamSlots(params), args, Arguments(params, args), [])
    decreases |params|
  {
    var n := |params| - 1;
    if n >= 0 {
      EntryFrame(params[..n], args[..n]);
      FrameLocal(ParamSlots(params[..n]), args[..n], Arguments(params[..n], args[..n]), [], params[n], false, args[n]);
      assert ParamSlots(params[..n]) + [Local(params[n], false)] == ParamSlots(params);
      assert args[..n] + [args[n]] == args;
      assert Arguments(params[..n], args[..n]) + [Binding(params[n], false, args[n])] == Arguments(params, args);
    }
  }

  /** A call of a compiled function. */
  function Entry(host: Host, args: seq<Word>): Config {
    At(0, 0, [host.sp] + args)
  }

  /** The compiled function against the source body, for any number of loop rounds: either the source
      finishes and the code returns its outcome, or the source needs more rounds and the code is still
      running after as many steps. A compiled body never goes wrong. */
  lemma ProcSim(params: seq<string>, body: Expr, host: Host, args: seq<Word>, fuel: nat)
    requires CompileProc(params, body).Ended? && HostOk(host) && |params| == |args|
    requires forall i :: 0 <= i < |args| ==> WellTagged(args[i])
    ensures var code, r := CompileProc(params, body).code, Eval(host, body, Arguments(params, args), fuel);
      if r.Abrupt? && r.why == Unfinished then Busy(Final(code, host, fuel), Entry(host, args))
      else Finishes(r) && Reaches(code, host.rt, Entry(host, args), Done([Answer(r)]))
  {
    hide CompileTail, Eval, StateOk, TargetsOk, Extends;
    var s, f, env := ProcEntry(params), Final(CompileProc(params, body).code, host, fuel), Arguments(params, args);
    EntryOk(params);
    EntryFrame(params, args);
    EntryReady(f, params, args, env);
    WholeExtends(f.code);
    TailSim(f, body, s, [host.sp] + args, args, env, [], fuel);
  }

  lemma WholeExtends(code: seq<Block>)
    ensures Extends(code, code)
  {
  }

  lemma EntryReady(f: Final, params: seq<string>, args: seq<Word>, env: Env)
    requires |params| == |args| && FrameIs(ParamSlots(params), args, env, []) && HostOk(f.host)
    requires var s := ProcEntry(params); StateOk(s) && TargetsOk(NO_TARGETS, s.code, Width(s))
    ensures Ready(f, ProcEntry(params), NO_TARGETS, [f.host.sp] + args, args, env, [])
    ensures Here(ProcEntry(params), [f.host.sp] + args) == Entry(f.host, args)
  {
  }

  ghost predicate SourceGives(host: Host, body: Expr, env: Env, w: Word) {
    exists fuel: nat :: var r := Eval(host, body, env, fuel); Finishes(r) && Answer(r) == w
  }

  /** The compiled function returns w exactly when the source body evaluates to w: neither side
      finishes, fails or diverges alone. */
  lemma CompiledMeansSource(params: seq<string>, body: Expr, host: Host, args: seq<Word>, w: Word)
    requires ProcCompiles(params, body) && HostOk(host) && |params| == |args|
    requires forall i :: 0 <= i < |args| ==> WellTagged(args[i])
    ensures var t := CompileProc(params, body);
      && t.Ended?
      && (SourceGives(host, body, Arguments(params, args), w) <==> Reaches(t.code, host.rt, Entry(host, args), Done([w])))
  {
    hide CompileProc, Eval, HostOk, WellTagged, ProcCompiles;
    ProcExactly(params, body);
    var code, env, c := CompileProc(params, body).code, Arguments(params, args), Entry(host, args);
    if SourceGives(host, body, env, w) {
      var fuel: nat :| var r := Eval(host, body, env, fuel); Finishes(r) && Answer(r) == w;
      ProcSim(params, body, host, args, fuel);
    }
    if Reaches(code, host.rt, c, Done([w])) {
      var n: nat :| Run(code, host.rt, c, n) == Done([w]);
      ProcSim(params, body, host, args, n);
      var r := Eval(host, body, env, n);
      if r.Abrupt? && r.why == Unfinished {
        var m: nat :| m >= n && Run(code, host.rt, c, m).At?;
        RunAdd(code, host.rt, c, n, m - n);
        Settled(code, host.rt, Done([w]), m - n);
      } else {
        OneOutcome(code, host.rt, c, Done([w]), Done([Answer(r)]));
        assert Finishes(r) && Answer(r) == w;
      }
    }
  }
}
