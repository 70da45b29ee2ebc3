/** Running emitted code: the machine at the point where lowering stands, and the frame it holds there. */
module LoweringRuns {
  import opened Bits
  import opened Ir
  import opened Source
  import opened Lowering
  import opened LocalSsa

  /** The finished code, what it runs on, and the loop rounds the source is given. */
  datatype Final = Final(code: seq<Block>, host: Host, rounds: nat)

  ghost predicate Leads(f: Final, c: Config, d: Config) {
    Reaches(f.code, f.host.rt, c, d)
  }

  lemma Chain(f: Final, c: Config, d: Config, e: Config)
    requires Leads(f, c, d) && Leads(f, d, e)
    ensures Leads(f, c, e)
  {
    Ir.Then(f.code, f.host.rt, c, d, e);
  }

  /** From c the machine is still running after at least that many steps. */
  ghost predicate Busy(f: Final, c: Config) {
    exists m: nat :: m >= f.rounds && Run(f.code, f.host.rt, c, m).At?
  }

  lemma BusyFrom(f: Final, c: Config, d: Config)
    requires Leads(f, c, d) && Busy(f, d)
    ensures Busy(f, c)
  {
    var m: nat :| Run(f.code, f.host.rt, c, m) == d;
    var n: nat :| n >= f.rounds && Run(f.code, f.host.rt, d, n).At?;
    RunAdd(f.code, f.host.rt, c, m, n);
    assert Run(f.code, f.host.rt, c, m + n).At?;
  }

  /** Getting somewhere else takes a step, so one more round. */
  lemma BusyNext(f: Final, c: Config, d: Config)
    requires f.rounds > 0 && Leads(f, c, d) && c != d && Busy(f.(rounds := f.rounds - 1), d)
    ensures Busy(f, c)
  {
    var m: nat :| Run(f.code, f.host.rt, c, m) == d;
    var n: nat :| n >= f.rounds - 1 && Run(f.code, f.host.rt, d, n).At?;
    assert m > 0 by {
      assert Run(f.code, f.host.rt, c, 0) == c;
    }
    RunAdd(f.code, f.host.rt, c, m, n);
    assert Run(f.code, f.host.rt, c, m + n).At?;
  }

  /** The machine where lowering stands in state s. */
  function Here(s: State, vals: seq<Word>): Config
    requires Placed(s)
  {
    At(s.cur, |s.code[s.cur].insts|, vals)
  }

  /** The values in the current block: the stack pointer, and the words of the frame. */
  predicate Holds(s: State, vals: seq<Word>, sp: Word, fr: seq<Word>)
    requires Placed(s)
  {
    && |vals| == Next(s) && s.sp < |vals| && vals[s.sp] == sp
    && |fr| == |s.ids| && AllBelow(s.ids, |vals|) && forall i :: 0 <= i < |fr| ==> vals[s.ids[i]] == fr[i]
  }

  /** The frame, slot by slot: named slots hold the environment's bindings in order, pins the pinned words. */
  predicate FrameIs(slots: seq<Slot>, fr: seq<Word>, env: Env, pins: seq<Word>)
    decreases slots
  {
    var n := |slots|;
    && |fr| == n && (n > 0 ==> WellTagged(fr[n - 1]))
    && if n == 0 then env == [] && pins == []
       else match slots[n - 1]
            case Pin => |pins| > 0 && fr[n - 1] == pins[|pins| - 1] && FrameIs(slots[..n - 1], fr[..n - 1], env, pins[..|pins| - 1])
            case Local(x, m) =>
              && |env| > 0 && env[|env| - 1] == Binding(x, m, fr[n - 1])
              && FrameIs(slots[..n - 1], fr[..n - 1], env[..|env| - 1], pins)
  }

  lemma FramePin(slots: seq<Slot>, fr: seq<Word>, env: Env, pins: seq<Word>, w: Word)
    requires FrameIs(slots, fr, env, pins) && WellTagged(w)
    ensures FrameIs(slots + [Pin], fr + [w], env, pins + [w])
  {
    assert (slots + [Pin])[..|slots|] == slots && (fr + [w])[..|slots|] == fr && (pins + [w])[..|pins|] == pins;
  }

  lemma FrameLocal(slots: seq<Slot>, fr: seq<Word>, env: Env, pins: seq<Word>, x: string, m: bool, w: Word)
    requires FrameIs(slots, fr, env, pins) && WellTagged(w)
    ensures FrameIs(slots + [Slot.Local(x, m)], fr + [w], env + [Binding(x, m, w)], pins)
  {
    assert (slots + [Slot.Local(x, m)])[..|slots|] == slots && (fr + [w])[..|slots|] == fr;
    assert (env + [Binding(x, m, w)])[..|env|] == env;
  }

  lemma FrameUnpin(slots: seq<Slot>, fr: seq<Word>, env: Env, pins: seq<Word>, w: Word)
    requires FrameIs(slots + [Pin], fr, env, pins + [w])
    ensures |fr| == |slots| + 1 && fr[|slots|] == w && WellTagged(w) && FrameIs(slots, fr[..|slots|], env, pins)
  {
    assert (slots + [Pin])[..|slots|] == slots && (pins + [w])[..|pins|] == pins;
  }

  /** How many of the slots are named. */
  function Named(slots: seq<Slot>): nat {
    if slots == [] then 0 else Named(slots[..|slots| - 1]) + if slots[|slots| - 1].Pin? then 0 else 1
  }

  lemma {:induction false} FrameCounts(slots: seq<Slot>, fr: seq<Word>, env: Env, pins: seq<Word>)
    requires FrameIs(slots, fr, env, pins)
    ensures |fr| == |slots| && |env| == Named(slots) && |pins| == |slots| - Named(slots)
    decreases slots
  {
    var n := |slots|;
    if n > 0 {
      if slots[n - 1].Pin? {
        FrameCounts(slots[..n - 1], fr[..n - 1], env, pins[..|pins| - 1]);
      } else {
        FrameCounts(slots[..n - 1], fr[..n - 1], env[..|env| - 1], pins);
      }
    }
  }

  /** The frame of an enclosing scope is a prefix. */
  lemma {:induction false} FramePrefix(slots: seq<Slot>, more: seq<Slot>, fr: seq<Word>, env: Env, pins: seq<Word>)
    requires FrameIs(slots + more, fr, env, pins)
    ensures |fr| == |slots| + |more|
    ensures Named(slots) <= |env| && |slots| - Named(slots) <= |pins| && Named(slots) <= |slots|
    ensures FrameIs(slots, fr[..|slots|], env[..Named(slots)], pins[..|slots| - Named(slots)])
    decreases more
  {
    if more == [] {
      assert slots + more == slots && fr[..|slots|] == fr;
      FrameCounts(slots, fr, env, pins);
      assert env[..Named(slots)] == env && pins[..|slots| - Named(slots)] == pins;
    } else {
      var all, m := slots + more, |more| - 1;
      var n := |all| - 1;
      assert all[..n] == slots + more[..m];
      if all[n].Pin? {
        FramePrefix(slots, more[..m], fr[..n], env, pins[..|pins| - 1]);
        assert pins[..|pins| - 1][..|slots| - Named(slots)] == pins[..|slots| - Named(slots)];
      } else {
        FramePrefix(slots, more[..m], fr[..n], env[..|env| - 1], pins);
        assert env[..|env| - 1][..Named(slots)] == env[..Named(slots)];
      }
      assert fr[..n][..|slots|] == fr[..|slots|];
    }
  }

  /** Looking a name up, and assigning to it, are the same in the slots and in the environment. */
  lemma {:induction false} FindAgrees(slots: seq<Slot>, fr: seq<Word>, env: Env, pins: seq<Word>, x: string, w: Word)
    requires FrameIs(slots, fr, env, pins) && WellTagged(w)
    ensures FindSlot(slots, x) < 0 <==> Find(env, x) < 0
    ensures FindSlot(slots, x) >= 0 ==>
              var i, j := FindSlot(slots, x), Find(env, x);
              && i < |fr| && fr[i] == env[j].val && WellTagged(fr[i]) && slots[i].mutable == env[j].mutable
              && FrameIs(slots, fr[i := w], Assign(env, j, w), pins)
    decreases slots
  {
    var n := |slots|;
    if n > 0 {
      match slots[n - 1]
      case Pin =>
        FindAgrees(slots[..n - 1], fr[..n - 1], env, pins[..|pins| - 1], x, w);
        var i := FindSlot(slots, x);
        if i >= 0 {
          assert fr[i := w][..n - 1] == fr[..n - 1][i := w];
        }
      case Local(y, m) =>
        var e := |env| - 1;
        if y == x {
          assert fr[n - 1 := w][..n - 1] == fr[..n - 1];
          assert Assign(env, e, w)[..e] == env[..e];
        } else {
          FindAgrees(slots[..n - 1], fr[..n - 1], env[..e], pins, x, w);
          var i, j := FindSlot(slots, x), Find(env, x);
          if i >= 0 {
            assert fr[i := w][..n - 1] == fr[..n - 1][i := w];
            assert Assign(env, j, w)[..e] == Assign(env[..e], j, w);
          }
        }
    }
  }

  // ---- straight-line code ----

  /** out extends vals with what the instructions compute, none of them trapping. */
  ghost predicate Straight(rt: Runtime, insts: seq<Inst>, vals: seq<Word>, out: seq<Word>) {
    && |out| == |vals| + |insts| && vals <= out
    && forall j :: 0 <= j < |insts| ==> Computes(rt, insts[j], out, |vals| + j)
  }

  ghost predicate Computes(rt: Runtime, i: Inst, out: seq<Word>, at: nat) {
    at < |out| && InstLocal(i, at) && !Traps(i, out) && out[at] == Value(rt, i, out)
  }

  /** An instruction's value depends on its operands only. */
  lemma ValuePrefix(rt: Runtime, i: Inst, out: seq<Word>, n: nat)
    requires n <= |out| && InstLocal(i, n) && !Traps(i, out)
    ensures !Traps(i, out[..n]) && Value(rt, i, out[..n]) == Value(rt, i, out)
  {
    if i.CallImport? {
      assert Pick(out[..n], i.args) == Pick(out, i.args);
    }
  }

  lemma {:induction false} RunPart(f: Final, s: State, insts: seq<Inst>, vals: seq<Word>, out: seq<Word>, j: nat)
    requires Placed(s) && s.cur < |f.code| && Grown(Put(s, insts).code[s.cur], f.code[s.cur])
    requires Straight(f.host.rt, insts, vals, out) && j <= |insts|
    ensures Leads(f, Here(s, vals), At(s.cur, |s.code[s.cur].insts| + j, out[..|vals| + j]))
    decreases j
  {
    if j == 0 {
      assert out[..|vals|] == vals;
      Stay(f.code, f.host.rt, Here(s, vals));
    } else {
      RunPart(f, s, insts, vals, out, j - 1);
      var n := |vals| + j - 1;
      var pc := |s.code[s.cur].insts| + j - 1;
      var c := At(s.cur, pc, out[..n]);
      assert Computes(f.host.rt, insts[j - 1], out, n);
      assert f.code[s.cur].insts[pc] == insts[j - 1];
      ValuePrefix(f.host.rt, insts[j - 1], out, n);
      assert out[..n] + [out[n]] == out[..n + 1];
      OneStep(f.code, f.host.rt, c);
      Chain(f, Here(s, vals), c, At(s.cur, pc + 1, out[..n + 1]));
    }
  }

  lemma RunStraight(f: Final, s: State, insts: seq<Inst>, vals: seq<Word>, out: seq<Word>, fr: seq<Word>)
    requires Placed(s) && Extends(Put(s, insts).code, f.code) && Holds(s, vals, f.host.sp, fr)
    requires Straight(f.host.rt, insts, vals, out)
    ensures Leads(f, Here(s, vals), Here(Put(s, insts), out)) && Holds(Put(s, insts), out, f.host.sp, fr)
  {
    assert Grown(Put(s, insts).code[s.cur], f.code[s.cur]);
    RunPart(f, s, insts, vals, out, |insts|);
    assert out[..|out|] == out;
  }

  // ---- edges ----

  lemma PickFrame(s: State, vals: seq<Word>, sp: Word, fr: seq<Word>)
    requires Placed(s) && Holds(s, vals, sp, fr)
    ensures AllBelow(Frame(s), |vals|) && Pick(vals, Frame(s)) == [sp] + fr
  {
  }

  lemma PickMore(s: State, vals: seq<Word>, sp: Word, fr: seq<Word>, more: seq<nat>)
    requires Placed(s) && Holds(s, vals, sp, fr) && AllBelow(more, |vals|)
    ensures AllBelow(Frame(s) + more, |vals|) && Pick(vals, Frame(s) + more) == [sp] + fr + Pick(vals, more)
  {
    var ids := Frame(s) + more;
    forall i | 0 <= i < |ids|
      ensures ids[i] < |vals| && Pick(vals, ids)[i] == ([sp] + fr + Pick(vals, more))[i]
    {
    }
  }

  /** A finished block runs into its terminator. */
  lemma RunTerm(f: Final, s: State, t: Term, vals: seq<Word>)
    requires Placed(s) && Extends(SetTerm(s, t).code, f.code) && t != NoTerm
    ensures s.cur < |f.code| && f.code[s.cur] == s.code[s.cur].(term := t)
    ensures Leads(f, Here(s, vals), Step(f.code, f.host.rt, Here(s, vals)))
  {
    assert Grown(SetTerm(s, t).code[s.cur], f.code[s.cur]);
    OneStep(f.code, f.host.rt, Here(s, vals));
  }

  lemma RunBr(f: Final, s: State, target: nat, args: seq<nat>, vals: seq<Word>, n: nat)
    requires Placed(s) && Extends(SetTerm(s, Br(target, args)).code, f.code)
    requires AllBelow(args, |vals|) && target < |f.code| && |args| == f.code[target].nparams
    ensures Leads(f, Here(s, vals), At(target, 0, Pick(vals, args)))
  {
    RunTerm(f, s, Br(target, args), vals);
  }

  lemma RunBrIf(f: Final, s: State, c: nat, x: nat, xs: seq<nat>, y: nat, ys: seq<nat>, vals: seq<Word>)
    requires Placed(s) && Extends(SetTerm(s, BrIf(c, x, xs, y, ys)).code, f.code)
    requires c < |vals| && vals[c] < W32
    requires vals[c] != 0 ==> AllBelow(xs, |vals|) && x < |f.code| && |xs| == f.code[x].nparams
    requires vals[c] == 0 ==> AllBelow(ys, |vals|) && y < |f.code| && |ys| == f.code[y].nparams
    ensures vals[c] != 0 ==> Leads(f, Here(s, vals), At(x, 0, Pick(vals, xs)))
    ensures vals[c] == 0 ==> Leads(f, Here(s, vals), At(y, 0, Pick(vals, ys)))
  {
    RunTerm(f, s, BrIf(c, x, xs, y, ys), vals);
  }

  /** Arriving in a fresh block with the frame, and what follows it. */
  lemma Arrive(s: State, t: State, b: nat, sp: Word, fr: seq<Word>, more: seq<Word>)
    requires Placed(t) && t.cur == b && t.code[b].insts == [] && t.code[b].nparams == 1 + |fr| + |more|
    requires t.sp == 0 && |t.ids| == |fr| && forall i :: 0 <= i < |t.ids| ==> t.ids[i] == i + 1
    ensures Here(t, [sp] + fr + more) == At(b, 0, [sp] + fr + more)
    ensures Holds(t, [sp] + fr + more, sp, fr)
  {
  }
}
