/** Lowered code means what the source means: running it from the current frame ends with the frame
    equal to the source environment and the result equal to the source value, or leaves the way the
    source does - to the loop's exit or header, to the handler, or out of the function. */
module LoweringMeaning {
  import opened Bits
  import opened WordArith
  import opened Ir
  import opened Source
  import opened Lowering
  import opened LocalSsa
  import opened LoweringLocal
  import opened LoweringRuns
  import opened LoweringSteps
  import opened GuardRuns

  /** Where control and the frame end up. */
  datatype Land = Land(vals: seq<Word>, fr: seq<Word>)

  /** What the source meets where lowering stands: the frame is the environment and the pins. */
  ghost predicate Ready(f: Final, s: State, k: Targets, vals: seq<Word>, fr: seq<Word>, env: Env, pins: seq<Word>) {
    && StateOk(s) && TargetsOk(k, s.code, Width(s)) && Sound(s) && Reachable(k, Width(s))
    && Holds(s, vals, f.host.sp, fr) && FrameIs(s.slots, fr, env, pins) && HostOk(f.host)
  }

  predicate CanLeave(k: Targets, why: Why) {
    match why
    case Broke => k.inLoop
    case Continued => k.inLoop
    case Failed(w) => WellTagged(w)
    case Returned(w) => true
    case _ => false
  }

  /** Where an evaluation that does not end in a value goes, with the frame it passes. */
  function LeaveTo(k: Targets, sp: Word, fr: seq<Word>, why: Why): Config
    requires Reachable(k, 1 + |fr|) && CanLeave(k, why)
  {
    match why
    case Broke => At(k.onBreak, 0, ([sp] + fr)[..k.loopWidth])
    case Continued => At(k.onContinue, 0, ([sp] + fr)[..k.loopWidth])
    case Failed(w) => if k.inTry then At(k.onError, 0, ([sp] + fr)[..k.tryWidth] + [w]) else Done([w])
    case Returned(w) => Done([w])
  }

  /** The run from c ends as the source result r says: a value in state t, or an exit with a frame
      for the given slots. */
  ghost predicate Landed(f: Final, k: Targets, c: Config, r: Result<Word>, t: State, v: nat, slots: seq<Slot>,
                         pins: seq<Word>, l: Land) {
    match r
    case Normal(env, w) =>
      && Placed(t) && Leads(f, c, Here(t, l.vals)) && Holds(t, l.vals, f.host.sp, l.fr) && FrameIs(t.slots, l.fr, env, pins)
      && v < |l.vals| && l.vals[v] == w && WellTagged(w)
    case Abrupt(env, why) => if why == Unfinished then Busy(f, c) else Left(f, k, c, env, why, slots, pins, l)
  }

  ghost predicate Left(f: Final, k: Targets, c: Config, env: Env, why: Why, slots: seq<Slot>, pins: seq<Word>, l: Land) {
    && CanLeave(k, why) && FrameIs(slots, l.fr, env, pins) && |l.fr| == |slots| && Reachable(k, 1 + |l.fr|)
    && Leads(f, c, LeaveTo(k, f.host.sp, l.fr, why))
  }

  lemma LandedFrom(f: Final, k: Targets, c: Config, d: Config, r: Result<Word>, t: State, v: nat, slots: seq<Slot>,
                   pins: seq<Word>, l: Land)
    requires Leads(f, c, d) && Landed(f, k, d, r, t, v, slots, pins, l)
    ensures Landed(f, k, c, r, t, v, slots, pins, l)
  {
    match r
    case Normal(_, _) => Chain(f, c, d, Here(t, l.vals));
    case Abrupt(_, why) =>
      if why != Unfinished {
        Chain(f, c, d, LeaveTo(k, f.host.sp, l.fr, why));
      } else {
        BusyFrom(f, c, d);
      }
  }

  /** One loop round on from c. */
  lemma LandedNext(f: Final, k: Targets, c: Config, d: Config, r: Result<Word>, t: State, v: nat, slots: seq<Slot>,
                   pins: seq<Word>, l: Land)
    requires f.rounds > 0 && Leads(f, c, d) && c != d
    requires Landed(f.(rounds := f.rounds - 1), k, d, r, t, v, slots, pins, l)
    ensures Landed(f, k, c, r, t, v, slots, pins, l)
  {
    match r
    case Normal(_, _) => Chain(f, c, d, Here(t, l.vals));
    case Abrupt(_, why) =>
      if why != Unfinished {
        Chain(f, c, d, LeaveTo(k, f.host.sp, l.fr, why));
      } else {
        BusyNext(f, c, d);
      }
  }

  /** An exit from inside more slots is an exit from the enclosing ones. */
  lemma LeftOuter(f: Final, k: Targets, c: Config, env: Env, why: Why, slots: seq<Slot>, more: seq<Slot>,
                  pins: seq<Word>, extra: seq<Word>, l: Land, outer: Env) returns (l': Land)
    requires Left(f, k, c, env, why, slots + more, pins + extra, l) && Reachable(k, 1 + |slots|)
    requires |pins| == |slots| - Named(slots) && outer == env[..if Named(slots) <= |env| then Named(slots) else |env|]
    ensures Left(f, k, c, outer, why, slots, pins, l')
  {
    FramePrefix(slots, more, l.fr, env, pins + extra);
    l' := Land([], l.fr[..|slots|]);
    assert (pins + extra)[..|slots| - Named(slots)] == pins;
    var sp := f.host.sp;
    assert ([sp] + l.fr)[..1 + |slots|] == [sp] + l'.fr;
    assert k.inLoop ==> ([sp] + l.fr)[..k.loopWidth] == ([sp] + l'.fr)[..k.loopWidth];
    assert k.inTry ==> ([sp] + l.fr)[..k.tryWidth] == ([sp] + l'.fr)[..k.tryWidth];
  }

  /** A state that has not changed, and one of its values. */
  lemma LandHere(f: Final, k: Targets, s: State, v: nat, vals: seq<Word>, fr: seq<Word>, env: Env, pins: seq<Word>)
    requires Ready(f, s, k, vals, fr, env, pins) && v < |vals| && WellTagged(vals[v])
    ensures Landed(f, k, Here(s, vals), Normal(env, vals[v]), s, v, s.slots, pins, Land(vals, fr))
  {
    Stay(f.code, f.host.rt, Here(s, vals));
  }

  /** Straight-line code and a value it computes. */
  lemma LandStraight(f: Final, k: Targets, s: State, insts: seq<Inst>, vals: seq<Word>, out: seq<Word>, fr: seq<Word>,
                     env: Env, pins: seq<Word>, v: nat)
    requires Ready(f, s, k, vals, fr, env, pins) && Extends(Put(s, insts).code, f.code)
    requires Straight(f.host.rt, insts, vals, out) && v < |out| && WellTagged(out[v])
    ensures Landed(f, k, Here(s, vals), Normal(env, out[v]), Put(s, insts), v, s.slots, pins, Land(out, fr))
  {
    RunStraight(f, s, insts, vals, out, fr);
  }

  lemma ConstLands(f: Final, k: Targets, s: State, w: Word, vals: seq<Word>, fr: seq<Word>, env: Env, pins: seq<Word>)
    returns (l: Land)
    requires Ready(f, s, k, vals, fr, env, pins) && Extends(Put(s, [ConstI64(w)]).code, f.code) && WellTagged(w)
    ensures Landed(f, k, Here(s, vals), Normal(env, w), Put(s, [ConstI64(w)]), Next(s), s.slots, pins, l)
  {
    ConstStraight(f.host.rt, w, vals);
    LandStraight(f, k, s, [ConstI64(w)], vals, vals + [w], fr, env, pins, Next(s));
    l := Land(vals + [w], fr);
  }

  lemma BigLitLands(f: Final, k: Targets, s: State, n: Literal, vals: seq<Word>, fr: seq<Word>, env: Env, pins: seq<Word>)
    returns (l: Land)
    requires Ready(f, s, k, vals, fr, env, pins) && Extends(LitInt(s, n).0.code, f.code) && !FitsI32(n)
    ensures var o := LitInt(s, n); Landed(f, k, Here(s, vals), Normal(env, LitValue(f.host, n)), o.0, o.1, s.slots, pins, l)
  {
    hide Landed, Extends;
    var w := Cut(n, W64);
    var mid := vals + [w];
    assert Straight(f.host.rt, [ConstI64(n)], vals, mid) by {
      assert Computes(f.host.rt, ConstI64(n), mid, |vals|);
    }
    var out := CallStraight(f.host.rt, "jacl_i64_box", [s.sp, |vals|], mid);
    assert Pick(mid, [s.sp, |vals|]) == [f.host.sp] + [w];
    StraightThen(f.host.rt, [ConstI64(n)], CallInsts(|mid|, "jacl_i64_box", [s.sp, |vals|]), vals, mid, out);
    LandStraight(f, k, s, [ConstI64(n)] + CallInsts(Next(s) + 1, "jacl_i64_box", [s.sp, Next(s)]), vals, out, fr, env, pins,
                 Next(s) + 2);
    l := Land(out, fr);
  }

  lemma LitLands(f: Final, k: Targets, s: State, n: Literal, vals: seq<Word>, fr: seq<Word>, env: Env, pins: seq<Word>)
    returns (l: Land)
    requires Ready(f, s, k, vals, fr, env, pins) && Extends(LitInt(s, n).0.code, f.code)
    ensures var o := LitInt(s, n); Landed(f, k, Here(s, vals), Normal(env, LitValue(f.host, n)), o.0, o.1, s.slots, pins, l)
  {
    I32WordTagged(n);
    if FitsI32(n) {
      l := ConstLands(f, k, s, I32Word(n), vals, fr, env, pins);
    } else {
      l := BigLitLands(f, k, s, n, vals, fr, env, pins);
    }
  }

  lemma VarLands(f: Final, k: Targets, s: State, x: string, vals: seq<Word>, fr: seq<Word>, env: Env, pins: seq<Word>)
    requires Ready(f, s, k, vals, fr, env, pins) && FindSlot(s.slots, x) >= 0
    ensures Find(env, x) >= 0
    ensures Landed(f, k, Here(s, vals), Normal(env, env[Find(env, x)].val), s, s.ids[FindSlot(s.slots, x)], s.slots, pins,
                   Land(vals, fr))
  {
    FindAgrees(s.slots, fr, env, pins, x, 0);
    LandHere(f, k, s, s.ids[FindSlot(s.slots, x)], vals, fr, env, pins);
  }

  /** 0 - x. */
  lemma NegateLands(f: Final, k: Targets, s: State, v: nat, vals: seq<Word>, fr: seq<Word>, env: Env, pins: seq<Word>)
    returns (l: Land)
    requires Ready(f, s, k, vals, fr, env, pins) && v < |vals| && Extends(EmitNegate(s, v).0.code, f.code)
    ensures var o := EmitNegate(s, v);
      Landed(f, k, Here(s, vals), Normal(env, Call(f.host, "jacl_sub", [I32Word(0), vals[v]])), o.0, o.1, s.slots, pins, l)
  {
    var mid := vals + [I32Word(0)];
    ConstStraight(f.host.rt, I32Word(0), vals);
    var out := CallStraight(f.host.rt, "jacl_sub", [s.sp, |vals|, v], mid);
    assert Pick(mid, [s.sp, |vals|, v]) == [f.host.sp] + [I32Word(0), vals[v]];
    StraightThen(f.host.rt, [ConstI64(I32Word(0))], CallInsts(|mid|, "jacl_sub", [s.sp, |vals|, v]), vals, mid, out);
    LandStraight(f, k, s, [ConstI64(I32Word(0))] + CallInsts(Next(s) + 1, "jacl_sub", [s.sp, Next(s), v]), vals, out, fr,
                 env, pins, Next(s) + 2);
    l := Land(out, fr);
  }

  /** The runtime call of a builtin on its pinned operands. */
  lemma BuiltinLands(f: Final, k: Targets, s: State, t: State, fn: string, args: Exprs, vals: seq<Word>, fr: seq<Word>,
                     env: Env, pins: seq<Word>, ws: seq<Word>) returns (l: Land)
    requires StateOk(t) && t.slots == s.slots + Pins(args) && Sound(s) && Sound(t) && HostOk(f.host)
    requires Holds(t, vals, f.host.sp, fr) && FrameIs(t.slots, fr, env, pins + ws) && |ws| == |Pins(args)|
    requires Extends(EmitBuiltin(t, fn, |s.ids|).0.code, f.code)
    ensures var o := EmitBuiltin(t, fn, |s.ids|);
      Landed(f, k, Here(t, vals), Normal(env, Call(f.host, fn, ws)), o.0, o.1, s.slots, pins, l)
  {
    var n := |s.ids|;
    var ops := t.ids[n..];
    var r := Release(t, n, |ops|);
    PinsRead(f, s, t, args, vals, fr, env, pins, ws);
    hide StateOk, FrameIs, Pick;
    var out := CallStraight(f.host.rt, fn, [r.sp] + ops, vals);
    assert Here(r, vals) == Here(t, vals);
    RunStraight(f, r, CallInsts(Next(r), fn, [r.sp] + ops), vals, out, fr[..n]);
    l := Land(out, fr[..n]);
  }

  lemma PinsRead(f: Final, s: State, t: State, args: Exprs, vals: seq<Word>, fr: seq<Word>, env: Env, pins: seq<Word>,
                 ws: seq<Word>)
    requires StateOk(t) && t.slots == s.slots + Pins(args) && Sound(s) && Sound(t)
    requires Holds(t, vals, f.host.sp, fr) && FrameIs(t.slots, fr, env, pins + ws) && |ws| == |Pins(args)|
    ensures var n := |s.ids|;
      var r, ops := Release(t, n, |t.ids[n..]|), t.ids[n..];
      && r.slots == s.slots && r.sp == t.sp && r.code == t.code && r.cur == t.cur
      && Holds(r, vals, f.host.sp, fr[..n]) && FrameIs(s.slots, fr[..n], env, pins)
      && AllBelow([r.sp] + ops, |vals|) && Pick(vals, [r.sp] + ops) == [f.host.sp] + ws
  {
    hide StateOk, FrameIs, Holds, Pick, AllBelow;
    var n := |s.ids|;
    assert t.slots[..n] == s.slots;
    PinsOff(s.slots, args, fr, env, pins, ws);
    ReleaseHolds(t, n, vals, f.host.sp, fr, ws);
  }

  lemma ReleaseHolds(t: State, n: nat, vals: seq<Word>, sp: Word, fr: seq<Word>, ws: seq<Word>)
    requires Sound(t) && Holds(t, vals, sp, fr) && n <= |fr| && fr[n..] == ws
    ensures n <= |t.ids|
    ensures var r, ops := Release(t, n, |t.ids[n..]|), t.ids[n..];
      && r.sp == t.sp && r.code == t.code && r.cur == t.cur && r.slots == t.slots[..n]
      && Holds(r, vals, sp, fr[..n])
      && AllBelow([r.sp] + ops, |vals|) && Pick(vals, [r.sp] + ops) == [sp] + ws
  {
    var ops := t.ids[n..];
    forall i | 0 <= i < |ops|
      ensures ops[i] < |vals| && vals[ops[i]] == ws[i]
    {
      assert ops[i] == t.ids[n + i] && ws[i] == fr[n + i];
    }
  }

  /** The pinned operands lie on top of the frame, in order. */
  lemma {:induction false} PinsOff(slots: seq<Slot>, args: Exprs, fr: seq<Word>, env: Env, pins: seq<Word>, ws: seq<Word>)
    requires FrameIs(slots + Pins(args), fr, env, pins + ws) && |ws| == |Pins(args)|
    ensures |fr| == |slots| + |ws| && fr[|slots|..] == ws && FrameIs(slots, fr[..|slots|], env, pins)
    decreases args
  {
    match args
    case NoExprs =>
      assert slots + Pins(args) == slots && pins + ws == pins && fr[..|slots|] == fr;
    case MoreExprs(_, rest) =>
      assert slots + Pins(args) == slots + [Pin] + Pins(rest);
      assert pins + ws == pins + [ws[0]] + ws[1..];
      PinsOff(slots + [Pin], rest, fr, env, pins + [ws[0]], ws[1..]);
      FrameUnpin(slots, fr[..|slots| + 1], env, pins, ws[0]);
      assert fr[..|slots| + 1][..|slots|] == fr[..|slots|];
      assert fr[|slots|..] == [fr[|slots|]] + fr[|slots| + 1..];
  }
}
