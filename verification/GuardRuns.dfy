/** The inline i32 guard, run: whichever arm it takes, the join receives the runtime's own answer. */
module GuardRuns {
  import opened Bits
  import opened WordArith
  import opened Ir
  import opened Source
  import opened Lowering
  import opened LocalSsa
  import opened LoweringRuns
  import opened LoweringSteps

  lemma ExtendsPut(s: State, insts: seq<Inst>)
    requires Placed(s) && s.code[s.cur].term == NoTerm
    ensures Extends(s.code, Put(s, insts).code)
  {
  }

  lemma ExtendsTerm(s: State, t: Term)
    requires Placed(s) && s.code[s.cur].term == NoTerm
    ensures Extends(s.code, SetTerm(s, t).code)
  {
  }

  /** Instructions and a terminator: what the final code must hold of them. */
  lemma PutThenTerm(f: Final, s: State, insts: seq<Inst>, t: Term)
    requires Placed(s) && s.code[s.cur].term == NoTerm && Extends(SetTerm(Put(s, insts), t).code, f.code)
    ensures Extends(Put(s, insts).code, f.code)
  {
    ExtendsTerm(Put(s, insts), t);
    ExtendsTrans(Put(s, insts).code, SetTerm(Put(s, insts), t).code, f.code);
  }

  /** When the native operation is the whole answer. */
  predicate Taken(h: Head, va: Word, vb: Word) {
    Plain(va) && Plain(vb) && (GuardFor(h).GuardDivRem? ==> vb != I32Word(0) && vb != I32Word(-1))
  }

  lemma GuardTest(f: Final, s: State, h: Head, a: nat, b: nat, vals: seq<Word>, fr: seq<Word>) returns (out: seq<Word>, ok: nat)
    requires Placed(s) && a < Next(s) && b < Next(s) && Holds(s, vals, f.host.sp, fr)
    requires var n := Next(s);
      Extends((if GuardFor(h).GuardDivRem? then Put(Put(s, TagTestInsts(n, a, b)), DivisorInsts(n + 8, n + 7, b))
               else Put(s, TagTestInsts(n, a, b))).code, f.code)
    requires s.code[s.cur].term == NoTerm
    ensures var n := Next(s);
      var t := if GuardFor(h).GuardDivRem? then Put(Put(s, TagTestInsts(n, a, b)), DivisorInsts(n + 8, n + 7, b))
               else Put(s, TagTestInsts(n, a, b));
      && Leads(f, Here(s, vals), Here(t, out)) && Holds(t, out, f.host.sp, fr) && vals <= out
      && ok == (if GuardFor(h).GuardDivRem? then n + 13 else n + 7) && ok < |out|
      && out[ok] == Flag(Taken(h, vals[a], vals[b]))
  {
    hide TagTestInsts, DivisorInsts, Extends, Put, Straight;
    var n := Next(s);
    var t1 := Put(s, TagTestInsts(n, a, b));
    PutOpen(s, TagTestInsts(n, a, b));
    if GuardFor(h).GuardDivRem? {
      ExtendsPut(t1, DivisorInsts(n + 8, n + 7, b));
      ExtendsTrans(t1.code, Put(t1, DivisorInsts(n + 8, n + 7, b)).code, f.code);
    }
    out := TagTestStraight(f.host.rt, a, b, vals);
    StraightGrows(f.host.rt, TagTestInsts(n, a, b), vals, out);
    RunStraight(f, s, TagTestInsts(n, a, b), vals, out, fr);
    ok := n + 7;
    if GuardFor(h).GuardDivRem? {
      var mid := out;
      out := DivisorStraight(f.host.rt, n + 7, b, mid);
      StraightGrows(f.host.rt, DivisorInsts(n + 8, n + 7, b), mid, out);
      RunStraight(f, t1, DivisorInsts(n + 8, n + 7, b), mid, out, fr);
      Chain(f, Here(s, vals), Here(t1, mid), Here(Put(t1, DivisorInsts(n + 8, n + 7, b)), out));
      ok := n + 13;
    }
  }

  lemma PutOpen(s: State, insts: seq<Inst>)
    requires Placed(s) && s.code[s.cur].term == NoTerm
    ensures var t := Put(s, insts); Placed(t) && t.code[t.cur].term == NoTerm && t.cur == s.cur
  {
  }

  lemma StraightGrows(rt: Runtime, insts: seq<Inst>, vals: seq<Word>, out: seq<Word>)
    requires Straight(rt, insts, vals, out)
    ensures vals <= out && |out| == |vals| + |insts|
  {
  }

  /** The frame and both operands, to the fast block or to the slow one. */
  lemma GuardOpenRun(f: Final, s: State, h: Head, a: nat, b: nat, vals: seq<Word>, fr: seq<Word>)
    requires StateOk(s) && a < Next(s) && b < Next(s) && Holds(s, vals, f.host.sp, fr)
    requires Extends(GuardOpen(s, h, a, b).code, f.code)
    requires Fresh(GuardOpen(s, h, a, b), |s.code|, Width(s) + 2)
    requires GuardOpen(s, h, a, b).code[|s.code| + 1].nparams == Width(s) + 2
    ensures var args := [f.host.sp] + fr + [vals[a], vals[b]];
      Leads(f, Here(s, vals), At(if Taken(h, vals[a], vals[b]) then |s.code| else |s.code| + 1, 0, args))
  {
    var w, c := Width(s), |s.code|;
    var s1 := AddBlock(AddBlock(AddBlock(s, w + 2), w + 2), w + 1);
    var n := Next(s1);
    var tag := TagTestInsts(n, a, b);
    var t := if GuardFor(h).GuardDivRem? then Put(Put(s1, tag), DivisorInsts(n + 8, n + 7, b)) else Put(s1, tag);
    var test := if GuardFor(h).GuardDivRem? then n + 13 else n + 7;
    var br := BrIf(test, c, Frame(t) + [a, b], c + 1, Frame(t) + [a, b]);
    var g := GuardOpen(s, h, a, b);
    assert g == Leave(t, br, c);
    assert Placed(t) && t.code[t.cur].term == NoTerm && Here(s, vals) == Here(s1, vals) && Holds(s1, vals, f.host.sp, fr);
    assert Grown(g.code[c], f.code[c]) && Grown(g.code[c + 1], f.code[c + 1]);
    ExtendsTerm(t, br);
    ExtendsTrans(t.code, g.code, f.code);
    hide StateOk, Extends, TagTestInsts, DivisorInsts, Put, AddBlock, GuardOpen, Taken, Holds;
    var out, ok := GuardTest(f, s1, h, a, b, vals, fr);
    GuardBranch(f, t, br, vals, out, fr, a, b, test, c, Here(s, vals), Taken(h, vals[a], vals[b]));
  }

  lemma GuardBranch(f: Final, t: State, br: Term, vals: seq<Word>, out: seq<Word>, fr: seq<Word>, a: nat, b: nat, ok: nat,
                    c: nat, from: Config, taken: bool)
    requires Placed(t) && Holds(t, out, f.host.sp, fr) && Extends(SetTerm(t, br).code, f.code)
    requires vals <= out && a < |vals| && b < |vals| && ok < |out| && out[ok] == Flag(taken)
    requires br == BrIf(ok, c, Frame(t) + [a, b], c + 1, Frame(t) + [a, b]) && c + 1 < |f.code|
    requires f.code[c].nparams == f.code[c + 1].nparams == |fr| + 3
    requires Leads(f, from, Here(t, out))
    ensures Leads(f, from, At(if taken then c else c + 1, 0, [f.host.sp] + fr + [vals[a], vals[b]]))
  {
    PickMore(t, out, f.host.sp, fr, [a, b]);
    assert Pick(out, [a, b]) == [vals[a], vals[b]];
    RunBrIf(f, t, ok, c, Frame(t) + [a, b], c + 1, Frame(t) + [a, b], out);
    Chain(f, from, Here(t, out), At(if taken then c else c + 1, 0, [f.host.sp] + fr + [vals[a], vals[b]]));
  }

  // ---- the answers ----

  lemma TakenMeans(h: Head, va: Word, vb: Word)
    requires Taken(h, va, vb) && WellTagged(va) && WellTagged(vb)
    ensures va == I32Word(Inner(va)) && vb == I32Word(Inner(vb)) && FitsI32(Inner(va)) && FitsI32(Inner(vb))
    ensures GuardFor(h).GuardDivRem? ==> Inner(vb) != 0 && Inner(vb) != -1
  {
    PlainWord(va);
    PlainWord(vb);
  }

  /** The fast arm's operation is the operator's inline answer. */
  lemma HeadAnswer(h: Head, x: int, y: int)
    ensures match GuardFor(h)
      case GuardArith(op) =>
        && op in {ADD, SUB, MUL} && (Inline(h, x, y) <==> FitsI32(BareResult(op, x, y)))
        && (Inline(h, x, y) ==> InlineAnswer(h, x, y) == I32Word(BareResult(op, x, y)))
      case GuardDivRem(op) =>
        && op in {DIV_S, REM_S} && (Inline(h, x, y) <==> y != 0 && y != -1)
        && (Inline(h, x, y) ==> InlineAnswer(h, x, y) == I32Word(BareResult(op, x, y)))
      case GuardWrap(op) =>
        op in {ADD, SUB, MUL} && Inline(h, x, y) && InlineAnswer(h, x, y) == I32Word(BareResult(op, x, y))
      case GuardCmp(cmp) =>
        cmp in {EQ, NE, LT_S, LE_S, GT_S, GE_S} && Inline(h, x, y) && InlineAnswer(h, x, y) == BoolWord(CmpAnswer(cmp, x, y))
  {
  }

  // ---- the fast arm ----

  /** Six instructions and a jump to the join with their last value. */
  lemma FastJump(f: Final, s: State, insts: seq<Inst>, c: nat, va: Word, vb: Word, fr: seq<Word>, out: seq<Word>)
    requires Fresh(s, c, |fr| + 3) && |insts| == 6 && |s.ids| == |fr| && c + 2 < |f.code|
    requires var vals := [f.host.sp] + fr + [va, vb]; Straight(f.host.rt, insts, vals, out)
    requires var w, t := Width(s), Put(s, insts); Extends(SetTerm(t, Br(c + 2, Frame(t) + [w + 7])).code, f.code)
    requires f.code[c + 2].nparams == |fr| + 2
    ensures Leads(f, At(c, 0, [f.host.sp] + fr + [va, vb]), At(c + 2, 0, [f.host.sp] + fr + [out[|fr| + 8]]))
  {
    var vals, w, t := [f.host.sp] + fr + [va, vb], Width(s), Put(s, insts);
    Arrive(s, s, c, f.host.sp, fr, [va, vb]);
    PutThenTerm(f, s, insts, Br(c + 2, Frame(t) + [w + 7]));
    RunStraight(f, s, insts, vals, out, fr);
    PickMore(t, out, f.host.sp, fr, [w + 7]);
    assert Pick(out, [w + 7]) == [out[w + 7]];
    RunBr(f, t, c + 2, Frame(t) + [w + 7], out, 0);
    Chain(f, At(c, 0, vals), Here(t, out), At(c + 2, 0, [f.host.sp] + fr + [out[w + 7]]));
  }

  /** Eleven instructions, and the join only when the result fits 32 bits. */
  lemma FastFork(f: Final, s: State, insts: seq<Inst>, c: nat, va: Word, vb: Word, fr: seq<Word>, out: seq<Word>, fits: bool)
    requires Fresh(s, c, |fr| + 3) && |insts| == 11 && |s.ids| == |fr| && c + 2 < |f.code|
    requires var vals := [f.host.sp] + fr + [va, vb]; Straight(f.host.rt, insts, vals, out)
    requires out[|fr| + 10] == Flag(fits)
    requires var w, t := Width(s), Put(s, insts);
      Extends(SetTerm(t, BrIf(w + 9, c + 2, Frame(t) + [w + 12], c + 1, Frame(t) + [w, w + 1])).code, f.code)
    requires f.code[c + 1].nparams == |fr| + 3 && f.code[c + 2].nparams == |fr| + 2
    ensures fits ==> Leads(f, At(c, 0, [f.host.sp] + fr + [va, vb]), At(c + 2, 0, [f.host.sp] + fr + [out[|fr| + 13]]))
    ensures !fits ==> Leads(f, At(c, 0, [f.host.sp] + fr + [va, vb]), At(c + 1, 0, [f.host.sp] + fr + [va, vb]))
  {
    var vals, w, t := [f.host.sp] + fr + [va, vb], Width(s), Put(s, insts);
    var br := BrIf(w + 9, c + 2, Frame(t) + [w + 12], c + 1, Frame(t) + [w, w + 1]);
    Arrive(s, s, c, f.host.sp, fr, [va, vb]);
    PutThenTerm(f, s, insts, br);
    RunStraight(f, s, insts, vals, out, fr);
    hide Extends, Put;
    assert vals <= out && |out| == |vals| + 11;
    hide Straight;
    PickMore(t, out, f.host.sp, fr, [w + 12]);
    PickMore(t, out, f.host.sp, fr, [w, w + 1]);
    assert Pick(out, [w + 12]) == [out[w + 12]];
    assert out[w] == vals[w] == va && out[w + 1] == vals[w + 1] == vb;
    assert Pick(out, [w, w + 1]) == [va, vb];
    RunBrIf(f, t, w + 9, c + 2, Frame(t) + [w + 12], c + 1, Frame(t) + [w, w + 1], out);
    Chain(f, At(c, 0, vals), Here(t, out), if fits then At(c + 2, 0, [f.host.sp] + fr + [out[w + 12]]) else At(c + 1, 0, vals));
  }

  /** From the fast block: the inline answer at the join, or the operands at the slow block. */
  lemma GuardFastRun(f: Final, s: State, h: Head, c: nat, va: Word, vb: Word, fr: seq<Word>)
    requires Fresh(s, c, |fr| + 3) && |s.ids| == |fr| && c + 2 < |s.code| <= |f.code|
    requires Extends(GuardFast(s, h, c).code, f.code)
    requires f.code[c + 1].nparams == |fr| + 3 && f.code[c + 2].nparams == |fr| + 2
    requires Taken(h, va, vb) && WellTagged(va) && WellTagged(vb)
    ensures var from, x, y := At(c, 0, [f.host.sp] + fr + [va, vb]), Inner(va), Inner(vb);
      if Inline(h, x, y) then Leads(f, from, At(c + 2, 0, [f.host.sp] + fr + [InlineAnswer(h, x, y)]))
      else Leads(f, from, At(c + 1, 0, [f.host.sp] + fr + [va, vb]))
  {
    TakenMeans(h, va, vb);
    var x, y, w := Inner(va), Inner(vb), Width(s);
    HeadAnswer(h, x, y);
    var vals := [f.host.sp] + fr + [va, vb];
    hide Extends, Put, Straight, Inline, InlineAnswer, Taken, BareResult, CmpAnswer, Leads, Inner, I32Word,
         FastCmpInsts, FastBareInsts, FastArithInsts, SetTerm, Enter, Frame, Fresh;
    match GuardFor(h)
    case GuardCmp(cmp) =>
      var out := FastCmpStraight(f.host.rt, w, cmp, vals);
      FastJump(f, s, FastCmpInsts(w, cmp), c, va, vb, fr, out);
    case GuardDivRem(op) =>
      var out := FastBareStraight(f.host.rt, w, op, vals);
      FastJump(f, s, FastBareInsts(w, op), c, va, vb, fr, out);
    case GuardWrap(op) =>
      var out := FastBareStraight(f.host.rt, w, op, vals);
      FastJump(f, s, FastBareInsts(w, op), c, va, vb, fr, out);
    case GuardArith(op) =>
      var out := FastArithStraight(f.host.rt, w, op, vals);
      FastFork(f, s, FastArithInsts(w, op), c, va, vb, fr, out, FitsI32(BareResult(op, x, y)));
  }

  lemma GuardSlowRun(f: Final, s: State, h: Head, c: nat, va: Word, vb: Word, fr: seq<Word>)
    requires Fresh(s, c + 1, |fr| + 3) && |s.ids| == |fr| && c + 2 < |s.code| <= |f.code|
    requires Extends(GuardSlow(s, h, c).code, f.code) && f.code[c + 2].nparams == |fr| + 2
    ensures Leads(f, At(c + 1, 0, [f.host.sp] + fr + [va, vb]),
                  At(c + 2, 0, [f.host.sp] + fr + [Call(f.host, RuntimeFn(h), [va, vb])]))
  {
    var vals, w := [f.host.sp] + fr + [va, vb], Width(s);
    var insts := CallInsts(w + 2, RuntimeFn(h), [s.sp, w, w + 1]);
    var t := Put(s, insts);
    Arrive(s, s, c + 1, f.host.sp, fr, [va, vb]);
    PutThenTerm(f, s, insts, Br(c + 2, Frame(t) + [w + 3]));
    var out := CallStraight(f.host.rt, RuntimeFn(h), [s.sp, w, w + 1], vals);
    assert Pick(vals, [s.sp, w, w + 1]) == [f.host.sp] + [va, vb];
    RunStraight(f, s, insts, vals, out, fr);
    PickMore(t, out, f.host.sp, fr, [w + 3]);
    assert Pick(out, [w + 3]) == [out[w + 3]];
    RunBr(f, t, c + 2, Frame(t) + [w + 3], out, 0);
    Chain(f, At(c + 1, 0, vals), Here(t, out), At(c + 2, 0, [f.host.sp] + fr + [out[w + 3]]));
  }

  /** `emit_binop_guarded` computes what the plain runtime call computes, on every path. */
  lemma GuardedRun(f: Final, s: State, mv: bool, h: Head, a: nat, b: nat, vals: seq<Word>, fr: seq<Word>)
    returns (out: seq<Word>)
    requires StateOk(s) && a < Next(s) && b < Next(s) && Holds(s, vals, f.host.sp, fr)
    requires Extends(Guarded(s, mv, h, a, b).0.code, f.code)
    requires WellTagged(vals[a]) && WellTagged(vals[b]) && HostOk(f.host)
    ensures var o := Guarded(s, mv, h, a, b);
      && Leads(f, Here(s, vals), Here(o.0, out)) && Holds(o.0, out, f.host.sp, fr)
      && o.1 < |out| && out[o.1] == Call(f.host, RuntimeFn(h), [vals[a], vals[b]])
  {
    hide HostOk, StateOk, Fresh, Extends, Holds, GuardOpen, GuardFast, GuardSlow, PlainCall, WellTagged;
    Start(s);
    FrameSize(s, vals, f.host.sp, fr);
    if !mv || Width(s) > IRB_MAX_FRAME - 1 {
      out := PlainRun(f, s, RuntimeFn(h), a, b, vals, fr);
    } else {
      var answer := Call(f.host, RuntimeFn(h), [vals[a], vals[b]]);
      out := [f.host.sp] + fr + [answer];
      DiamondRun(f, s, h, a, b, vals, fr);
      DiamondGrows(s, h, a, b);
      FreshArrive(Guarded(s, mv, h, a, b).0, |s.code| + 2, f.host.sp, fr, [answer]);
    }
  }

  /** On plain i32s with an inline answer the guard asks the runtime nothing: whatever the host would answer, the
      word is the machine's own. */
  lemma FastPathAlone(f: Final, s: State, h: Head, a: nat, b: nat, x: int, y: int, vals: seq<Word>, fr: seq<Word>)
    returns (out: seq<Word>)
    requires StateOk(s) && a < Next(s) && b < Next(s) && Holds(s, vals, f.host.sp, fr) && Width(s) < 256
    requires Extends(Guarded(s, true, h, a, b).0.code, f.code)
    requires FitsI32(x) && FitsI32(y) && vals[a] == I32Word(x) && vals[b] == I32Word(y) && Inline(h, x, y)
    ensures var o := Guarded(s, true, h, a, b);
      && Leads(f, Here(s, vals), Here(o.0, out)) && Holds(o.0, out, f.host.sp, fr)
      && o.1 < |out| && out[o.1] == InlineAnswer(h, x, y)
  {
    hide StateOk, Fresh, Extends, Holds, GuardOpen, GuardFast, GuardSlow, I32Word, Inline, InlineAnswer, Taken, Inner;
    Start(s);
    FrameSize(s, vals, f.host.sp, fr);
    var c, va, vb := |s.code|, vals[a], vals[b];
    out := [f.host.sp] + fr + [InlineAnswer(h, x, y)];
    DiamondGrows(s, h, a, b);
    var s1 := GuardOpen(s, h, a, b);
    var s2 := GuardFast(s1, h, c);
    var s3 := GuardSlow(s2, h, c);
    ExtendsTrans(s2.code, s3.code, f.code);
    ExtendsTrans(s1.code, s2.code, f.code);
    BlocksKept(s1.code, f.code, c);
    GuardOpenRun(f, s, h, a, b, vals, fr);
    PlainTaken(h, x, y);
    GuardFastRun(f, s1, h, c, va, vb, fr);
    Chain(f, Here(s, vals), At(c, 0, [f.host.sp] + fr + [va, vb]), At(c + 2, 0, out));
    FreshArrive(s3, c + 2, f.host.sp, fr, [InlineAnswer(h, x, y)]);
  }

  lemma PlainTaken(h: Head, x: int, y: int)
    requires FitsI32(x) && FitsI32(y) && Inline(h, x, y)
    ensures Taken(h, I32Word(x), I32Word(y)) && Inner(I32Word(x)) == x && Inner(I32Word(y)) == y
    ensures WellTagged(I32Word(x)) && WellTagged(I32Word(y))
  {
    InnerWord(x);
    InnerWord(y);
    InnerWord(0);
    InnerWord(-1);
    hide Inner, Cut;
  }

  lemma InnerWord(x: int)
    requires FitsI32(x)
    ensures Inner(I32Word(x)) == x && Plain(I32Word(x)) && WellTagged(I32Word(x))
  {
    I32WordTagged(x);
    Quotient(I32Word(x), TAG_UNIT, Cut(x, W32), 2);
    CutShift(Cut(x, W32), 0x200_0000, W32);
    CutSmall(Cut(x, W32), W32);
    SignedOfCut(x, W32);
  }

  lemma PlainRun(f: Final, s: State, fn: string, a: nat, b: nat, vals: seq<Word>, fr: seq<Word>) returns (out: seq<Word>)
    requires StateOk(s) && a < Next(s) && b < Next(s) && Holds(s, vals, f.host.sp, fr)
    requires Extends(PlainCall(s, fn, a, b).0.code, f.code)
    ensures var o := PlainCall(s, fn, a, b);
      && Leads(f, Here(s, vals), Here(o.0, out)) && Holds(o.0, out, f.host.sp, fr)
      && o.1 < |out| && out[o.1] == Call(f.host, fn, [vals[a], vals[b]])
  {
    out := CallStraight(f.host.rt, fn, [s.sp, a, b], vals);
    assert Pick(vals, [s.sp, a, b]) == [f.host.sp] + [vals[a], vals[b]];
    RunStraight(f, s, CallInsts(Next(s), fn, [s.sp, a, b]), vals, out, fr);
  }

  lemma FreshArrive(t: State, b: nat, sp: Word, fr: seq<Word>, more: seq<Word>)
    requires Fresh(t, b, 1 + |fr| + |more|) && |t.ids| == |fr|
    ensures Here(t, [sp] + fr + more) == At(b, 0, [sp] + fr + more) && Holds(t, [sp] + fr + more, sp, fr)
  {
  }

  lemma DiamondRun(f: Final, s: State, h: Head, a: nat, b: nat, vals: seq<Word>, fr: seq<Word>)
    requires StateOk(s) && a < Next(s) && b < Next(s) && Holds(s, vals, f.host.sp, fr)
    requires Sound(s) && Extends(GuardSlow(GuardFast(GuardOpen(s, h, a, b), h, |s.code|), h, |s.code|).code, f.code)
    requires WellTagged(vals[a]) && WellTagged(vals[b]) && HostOk(f.host)
    ensures Leads(f, Here(s, vals), At(|s.code| + 2, 0, [f.host.sp] + fr + [Call(f.host, RuntimeFn(h), [vals[a], vals[b]])]))
  {
    hide Inline, InlineAnswer, GuardOpen, GuardFast, GuardSlow, Fresh, Extends, StateOk, Holds, Taken;
    FrameSize(s, vals, f.host.sp, fr);
    var c, va, vb := |s.code|, vals[a], vals[b];
    DiamondGrows(s, h, a, b);
    var s1 := GuardOpen(s, h, a, b);
    var s2 := GuardFast(s1, h, c);
    var s3 := GuardSlow(s2, h, c);
    ExtendsTrans(s2.code, s3.code, f.code);
    ExtendsTrans(s1.code, s2.code, f.code);
    BlocksKept(s1.code, f.code, c);
    var args, slow := [f.host.sp] + fr + [va, vb], At(c + 2, 0, [f.host.sp] + fr + [Call(f.host, RuntimeFn(h), [va, vb])]);
    GuardOpenRun(f, s, h, a, b, vals, fr);
    GuardSlowRun(f, s2, h, c, va, vb, fr);
    if Taken(h, va, vb) {
      GuardFastRun(f, s1, h, c, va, vb, fr);
      var x, y := Inner(va), Inner(vb);
      if Inline(h, x, y) {
        TakenMeans(h, va, vb);
        assert Call(f.host, RuntimeFn(h), [I32Word(x), I32Word(y)]) == InlineAnswer(h, x, y);
        Chain(f, Here(s, vals), At(c, 0, args), slow);
      } else {
        Chain(f, Here(s, vals), At(c, 0, args), At(c + 1, 0, args));
        Chain(f, Here(s, vals), At(c + 1, 0, args), slow);
      }
    } else {
      Chain(f, Here(s, vals), At(c + 1, 0, args), slow);
    }
  }

  lemma BlocksKept(c: seq<Block>, d: seq<Block>, b: nat)
    requires Extends(c, d) && b + 2 < |c|
    ensures |c| <= |d| && d[b + 1].nparams == c[b + 1].nparams && d[b + 2].nparams == c[b + 2].nparams
  {
    assert Grown(c[b + 1], d[b + 1]) && Grown(c[b + 2], d[b + 2]);
  }

  lemma FrameSize(s: State, vals: seq<Word>, sp: Word, fr: seq<Word>)
    requires Placed(s) && Holds(s, vals, sp, fr)
    ensures |fr| == |s.ids| && |vals| == Next(s)
  {
  }
}
