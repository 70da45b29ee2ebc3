/** Lowering only ever extends the code, one open block at a time, and what it emits is block-local:
    each operand is a parameter or an earlier result of its own block, each branch passes exactly
    its target's parameters. */
module LocalSsa {
  import opened Bits
  import opened Ir
  import opened Source
  import opened Lowering

  ghost predicate StateOk(s: State) {
    && Sound(s) && s.code[s.cur].term == NoTerm
    && s.sp < Next(s) && AllBelow(s.ids, Next(s)) && CodeOk(s.code)
  }

  /** d has c's blocks: an unfinished one may have grown, a finished one is as it was. */
  ghost predicate Extends(c: seq<Block>, d: seq<Block>) {
    |c| <= |d| && forall b :: 0 <= b < |c| ==> Grown(c[b], d[b])
  }

  predicate Grown(x: Block, y: Block) {
    && x.nparams == y.nparams && x.insts <= y.insts
    && (x.term != NoTerm ==> x == y)
  }

  lemma ExtendsTrans(c: seq<Block>, d: seq<Block>, e: seq<Block>)
    requires Extends(c, d) && Extends(d, e)
    ensures Extends(c, e)
  {
    forall b | 0 <= b < |c|
      ensures Grown(c[b], e[b])
    {
      assert Grown(c[b], d[b]) && Grown(d[b], e[b]);
    }
  }

  /** From s to t only s's open block and new blocks changed; the blocks without a terminator are
      t's current one, the reserved ones (still empty, with their parameter counts), and those that
      were open in s beside its current one. */
  ghost predicate Grows(s: State, t: State, reserved: map<nat, nat>) {
    && StateOk(t) && Extends(s.code, t.code)
    && (forall b :: 0 <= b < |s.code| && b != s.cur ==> t.code[b] == s.code[b])
    && (t.cur == s.cur || t.cur >= |s.code|) && t.cur !in reserved
    && (forall b :: b in reserved ==> |s.code| <= b < |t.code| && t.code[b] == Block(reserved[b], [], NoTerm))
    && (forall b :: 0 <= b < |t.code| ==> (t.code[b].term == NoTerm <==> OpenIn(s, t, reserved, b)))
  }

  predicate OpenIn(s: State, t: State, reserved: map<nat, nat>, b: int) {
    b == t.cur || b in reserved || (0 <= b < |s.code| && b != s.cur && s.code[b].term == NoTerm)
  }

  /** The loop and try targets exist and take the frames they will be passed. */
  ghost predicate TargetsOk(k: Targets, code: seq<Block>, w: nat) {
    && Reachable(k, w)
    && (k.inLoop ==>
          && k.onContinue < |code| && code[k.onContinue].nparams == k.loopWidth
          && k.onBreak < |code| && code[k.onBreak].nparams == k.loopWidth)
    && (k.inTry ==> k.onError < |code| && code[k.onError].nparams == k.tryWidth + 1)
  }

  lemma TargetsStay(k: Targets, c: seq<Block>, d: seq<Block>, w: nat, v: nat)
    requires TargetsOk(k, c, w) && Extends(c, d) && w <= v
    ensures TargetsOk(k, d, v)
  {
    if k.inLoop {
      assert Grown(c[k.onContinue], d[k.onContinue]) && Grown(c[k.onBreak], d[k.onBreak]);
    }
    if k.inTry {
      assert Grown(c[k.onError], d[k.onError]);
    }
  }

  /** Instructions emitted from value id n on name only earlier values. */
  predicate LocalFrom(insts: seq<Inst>, n: nat) {
    forall j :: 0 <= j < |insts| ==> InstLocal(insts[j], n + j)
  }

  // ---- keeping code well formed ----

  lemma BlockStays(c: seq<Block>, d: seq<Block>, b: Block)
    requires BlockOk(c, b) && Extends(c, d)
    ensures BlockOk(d, b)
  {
    if b.term.Br? {
      assert Grown(c[b.term.target], d[b.term.target]);
    }
    if b.term.BrIf? {
      assert Grown(c[b.term.thn], d[b.term.thn]) && Grown(c[b.term.els], d[b.term.els]);
    }
  }

  lemma CodeStays(c: seq<Block>, d: seq<Block>, b: nat)
    requires CodeOk(c) && Extends(c, d) && b < |d| && BlockOk(d, d[b])
    requires forall j :: 0 <= j < |d| && j != b ==> (j < |c| && d[j] == c[j]) || BlockOk(d, d[j])
    ensures CodeOk(d)
  {
    forall j | 0 <= j < |d|
      ensures BlockOk(d, d[j])
    {
      if j != b && j < |c| && d[j] == c[j] {
        BlockStays(c, d, c[j]);
      }
    }
  }

  lemma Refl(s: State)
    requires StateOk(s)
    ensures Grows(s, s, map[])
  {
  }

  lemma PutOk(s: State, insts: seq<Inst>)
    requires StateOk(s) && LocalFrom(insts, Next(s))
    ensures StateOk(Put(s, insts)) && Extends(s.code, Put(s, insts).code)
  {
    var t := Put(s, insts);
    var x, y := s.code[s.cur], t.code[s.cur];
    assert BlockOk(s.code, x);
    assert Grown(x, y);
    assert InstsLocal(y) by {
      forall k | 0 <= k < |y.insts|
        ensures InstLocal(y.insts[k], y.nparams + k)
      {
        if k >= |x.insts| {
          assert y.insts[k] == insts[k - |x.insts|];
        } else {
          assert y.insts[k] == x.insts[k];
        }
      }
    }
    CodeStays(s.code, t.code, s.cur);
  }

  lemma PutGrows(s0: State, s: State, reserved: map<nat, nat>, insts: seq<Inst>)
    requires Grows(s0, s, reserved) && LocalFrom(insts, Next(s))
    ensures Grows(s0, Put(s, insts), reserved) && Extends(s.code, Put(s, insts).code)
  {
    PutOk(s, insts);
    ExtendsTrans(s0.code, s.code, Put(s, insts).code);
    hide StateOk, Extends;
  }

  lemma AddOk(s: State, n: nat)
    requires StateOk(s)
    ensures StateOk(AddBlock(s, n)) && Extends(s.code, AddBlock(s, n).code)
  {
    var t := AddBlock(s, n);
    assert BlockOk(t.code, t.code[|s.code|]);
    CodeStays(s.code, t.code, |s.code|);
  }

  lemma AddGrows(s0: State, s: State, reserved: map<nat, nat>, n: nat)
    requires Grows(s0, s, reserved)
    ensures Grows(s0, AddBlock(s, n), reserved[|s.code| := n]) && Extends(s.code, AddBlock(s, n).code)
  {
    AddOk(s, n);
    ExtendsTrans(s0.code, s.code, AddBlock(s, n).code);
    hide StateOk, Extends;
  }

  lemma LeaveOk(s: State, t: Term, b: nat)
    requires StateOk(s) && TermOk(s.code, s.code[s.cur].(term := t)) && t != NoTerm
    requires b < |s.code| && b != s.cur && s.code[b].term == NoTerm && Width(s) <= s.code[b].nparams
    ensures StateOk(Leave(s, t, b)) && Extends(s.code, Leave(s, t, b).code)
  {
    var u := Leave(s, t, b);
    var x := s.code[s.cur];
    assert BlockOk(s.code, x);
    assert Extends(s.code, u.code);
    assert BlockOk(s.code, x.(term := t));
    BlockStays2(s.code, u.code, x.(term := t));
    CodeStays(s.code, u.code, s.cur);
  }

  /** Only parameter counts matter to a block's edges. */
  lemma BlockStays2(c: seq<Block>, d: seq<Block>, b: Block)
    requires BlockOk(c, b) && |c| <= |d| && forall j :: 0 <= j < |c| ==> c[j].nparams == d[j].nparams
    ensures BlockOk(d, b)
  {
  }

  lemma LeaveGrows(s0: State, s: State, reserved: map<nat, nat>, t: Term, b: nat)
    requires Grows(s0, s, reserved) && TermOk(s.code, s.code[s.cur].(term := t)) && t != NoTerm
    requires b in reserved && Width(s) <= reserved[b]
    ensures Grows(s0, Leave(s, t, b), reserved - {b}) && Extends(s.code, Leave(s, t, b).code)
  {
    LeaveOk(s, t, b);
    ExtendsTrans(s0.code, s.code, Leave(s, t, b).code);
    hide StateOk, Extends, TermOk;
  }

  /** A whole lowering in the current block leaves what is reserved alone. */
  lemma InnerGrows(s0: State, s: State, reserved: map<nat, nat>, t: State)
    requires Grows(s0, s, reserved) && Grows(s, t, map[])
    ensures Grows(s0, t, reserved)
  {
    ExtendsTrans(s0.code, s.code, t.code);
    hide StateOk, Extends;
  }

  /** Slots and their ids may change while the code does not. */
  lemma SlotsGrow(s0: State, s: State, reserved: map<nat, nat>, t: State)
    requires Grows(s0, s, reserved) && t.code == s.code && t.cur == s.cur && StateOk(t)
    ensures Grows(s0, t, reserved)
  {
  }

  /** The same from a start that differs in slots only. */
  lemma SlotsFrom(s0: State, s: State, t: State)
    requires Grows(s, t, map[]) && s0.code == s.code && s0.cur == s.cur
    ensures Grows(s0, t, map[])
  {
  }

  // ---- the stages of each construct ----

  lemma FrameBelow(s: State)
    requires StateOk(s)
    ensures |Frame(s)| == Width(s) && AllBelow(Frame(s), Next(s))
  {
  }

  lemma Now(s0: State, s: State, r: map<nat, nat>)
    requires Grows(s0, s, r)
    ensures StateOk(s) && Sound(s) && |Frame(s)| == Width(s) && AllBelow(Frame(s), Next(s))
    ensures Extends(s0.code, s.code)
    ensures forall b :: b in r ==> b < |s.code| && s.code[b] == Block(r[b], [], NoTerm)
  {
  }

  /** A reserved block takes exactly its parameters. */
  lemma EdgeTo(s0: State, s: State, r: map<nat, nat>, b: nat, args: seq<nat>)
    requires Grows(s0, s, r) && b in r && |args| == r[b] && AllBelow(args, Next(s))
    ensures EdgeOk(s.code, b, args, Next(s))
  {
  }

  /** Both ends of a two-way branch on c. */
  lemma SplitGrows(s0: State, s: State, r: map<nat, nat>, c: nat, x: nat, xs: seq<nat>, y: nat, ys: seq<nat>)
    requires Grows(s0, s, r) && x in r && y in r && |xs| == r[x] && |ys| == r[y] && c < Next(s)
    requires AllBelow(xs, Next(s)) && AllBelow(ys, Next(s)) && Width(s) <= r[x]
    ensures Grows(s0, Leave(s, BrIf(c, x, xs, y, ys), x), r - {x})
    ensures Extends(s.code, Leave(s, BrIf(c, x, xs, y, ys), x).code)
  {
    EdgeTo(s0, s, r, x, xs);
    EdgeTo(s0, s, r, y, ys);
    LeaveGrows(s0, s, r, BrIf(c, x, xs, y, ys), x);
  }

  /** Standing at the start of an empty block, with the frame as its first parameters. */
  predicate Fresh(t: State, b: nat, n: nat) {
    && Sound(t) && t.cur == b && t.code[b] == Block(n, [], NoTerm) && t.sp == 0
    && forall i :: 0 <= i < |t.ids| ==> t.ids[i] == i + 1
  }

  lemma FreshLeave(s0: State, s: State, r: map<nat, nat>, t: Term, b: nat)
    requires Grows(s0, s, r) && b in r
    ensures Placed(s) && Fresh(Leave(s, t, b), b, r[b])
  {
  }

  lemma TruthyGrows(s0: State, s: State, r: map<nat, nat>, c: nat)
    requires Grows(s0, s, r) && c < Next(s)
    ensures var t := Put(s, TruthyInsts(Next(s), c)); Grows(s0, t, r) && Extends(s.code, t.code)
  {
    PutGrows(s0, s, r, TruthyInsts(Next(s), c));
  }

  lemma IsErrorGrows(s0: State, s: State, r: map<nat, nat>, v: nat)
    requires Grows(s0, s, r) && v < Next(s)
    ensures var t := Put(s, IsErrorInsts(Next(s), v)); Grows(s0, t, r) && Extends(s.code, t.code)
  {
    PutGrows(s0, s, r, IsErrorInsts(Next(s), v));
  }

  /** Three reserved blocks. */
  lemma AddThree(s0: State, s: State, r: map<nat, nat>, x: nat, y: nat, z: nat)
    requires Grows(s0, s, r)
    ensures var t := AddBlock(AddBlock(AddBlock(s, x), y), z);
      && Grows(s0, t, r[|s.code| := x][|s.code| + 1 := y][|s.code| + 2 := z]) && Extends(s.code, t.code)
      && Placed(t) && Next(t) == Next(s) && Width(t) == Width(s) && |t.code| == |s.code| + 3
  {
    Now(s0, s, r);
    hide Grows, StateOk, Extends;
    var s1, r1 := AddBlock(s, x), r[|s.code| := x];
    AddGrows(s0, s, r, x);
    var s2, r2 := AddBlock(s1, y), r1[|s.code| + 1 := y];
    AddGrows(s0, s1, r1, y);
    AddGrows(s0, s2, r2, z);
    ExtendsTrans(s.code, s1.code, s2.code);
    ExtendsTrans(s.code, s2.code, AddBlock(s2, z).code);
  }

  lemma DropFirst(r: map<nat, nat>, f: nat, x: nat, y: nat, z: nat)
    requires f !in r
    ensures r[f := x][f + 1 := y][f + 2 := z] - {f} == r[f + 1 := y][f + 2 := z]
  {
  }

  lemma ForkGrows(s0: State, s: State, r: map<nat, nat>, c: nat)
    requires Grows(s0, s, r) && c < Next(s) && |s.code| !in r
    ensures Sound(s)
    ensures var f, w := |s.code|, Width(s);
      Grows(s0, Fork(s, c), r[f + 1 := w][f + 2 := w + 1]) && Extends(s.code, Fork(s, c).code)
  {
    hide Grows, StateOk, Put, TruthyInsts, Extends, CodeOk, AllBelow, Leave, AddBlock, Next, Frame;
    Now(s0, s, r);
    var n, w, f := Next(s), Width(s), |s.code|;
    var s1 := Put(s, TruthyInsts(n, c));
    TruthyGrows(s0, s, r, c);
    var s4 := AddBlock(AddBlock(AddBlock(s1, w), w), w + 1);
    var r4 := r[f := w][f + 1 := w][f + 2 := w + 1];
    AddThree(s0, s1, r, w, w, w + 1);
    Now(s0, s4, r4);
    SplitGrows(s0, s4, r4, n + 4, f, Frame(s4), f + 1, Frame(s4));
    DropFirst(r, f, w, w, w + 1);
    ExtendsTrans(s.code, s1.code, s4.code);
    ExtendsTrans(s.code, s4.code, Fork(s, c).code);
  }

  lemma ArmGrows(s0: State, s: State, r: map<nat, nat>, join: nat, v: nat, next: nat)
    requires Grows(s0, s, r) && v < Next(s)
    requires join in r && r[join] == Width(s) + 1 && next in r && Width(s) <= r[next]
    ensures Sound(s) && next < |s.code|
    ensures Grows(s0, ArmEnd(s, join, v, next), r - {next}) && Extends(s.code, ArmEnd(s, join, v, next).code)
  {
    FrameBelow(s);
    EdgeTo(s0, s, r, join, Frame(s) + [v]);
    LeaveGrows(s0, s, r, Br(join, Frame(s) + [v]), next);
  }

  lemma LoopOpenGrows(s: State)
    requires StateOk(s)
    ensures Sound(s)
    ensures var f, w := |s.code|, Width(s);
      Grows(s, LoopOpen(s), map[f + 1 := w, f + 2 := w])
  {
    hide Grows, Extends, CodeOk, AllBelow;
    var f, w := |s.code|, Width(s);
    Refl(s);
    AddThree(s, s, map[], w, w, w);
    var s3 := AddBlock(AddBlock(AddBlock(s, w), w), w);
    var r := map[f := w][f + 1 := w][f + 2 := w];
    Now(s, s3, r);
    EdgeTo(s, s3, r, f, Frame(s3));
    LeaveGrows(s, s3, r, Br(f, Frame(s3)), f);
    assert r - {f} == map[f + 1 := w, f + 2 := w];
  }

  lemma LoopTestGrows(s0: State, s: State, r: map<nat, nat>, c: nat, f: nat)
    requires Grows(s0, s, r) && c < Next(s) && f + 1 in r && f + 2 in r && r[f + 1] == r[f + 2] == Width(s)
    ensures Sound(s) && f + 1 < |s.code|
    ensures Grows(s0, LoopTest(s, c, f), r - {f + 1}) && Extends(s.code, LoopTest(s, c, f).code)
  {
    hide Grows, StateOk, Put, TruthyInsts, Extends, CodeOk, AllBelow;
    Now(s0, s, r);
    var n := Next(s);
    var s1 := Put(s, TruthyInsts(n, c));
    TruthyGrows(s0, s, r, c);
    Now(s0, s1, r);
    SplitGrows(s0, s1, r, n + 4, f + 1, Frame(s1), f + 2, Frame(s1));
    ExtendsTrans(s.code, s1.code, LoopTest(s, c, f).code);
  }

  lemma LoopEndGrows(s0: State, s: State, r: map<nat, nat>, f: nat)
    requires Grows(s0, s, r) && f + 2 in r && r[f + 2] == Width(s)
    requires f < |s.code| && s.code[f].nparams == Width(s)
    ensures Sound(s) && f + 2 < |s.code|
    ensures Grows(s0, LoopEnd(s, f), r - {f + 2}) && Extends(s.code, LoopEnd(s, f).code)
  {
    FrameBelow(s);
    LeaveGrows(s0, s, r, Br(f, Frame(s)), f + 2);
  }

  lemma TryOpenGrows(s: State)
    requires StateOk(s)
    ensures Sound(s)
    ensures var f, w := |s.code|, Width(s) + 1;
      Grows(s, TryOpen(s), map[f := w, f + 1 := w])
  {
    hide Grows, Extends, CodeOk, AllBelow;
    var f, w := |s.code|, Width(s) + 1;
    Refl(s);
    AddGrows(s, s, map[], w);
    AddGrows(s, AddBlock(s, w), map[f := w], w);
    assert map[f := w][f + 1 := w] == map[f := w, f + 1 := w];
  }

  lemma TryTestGrows(s0: State, s: State, r: map<nat, nat>, v: nat, f: nat)
    requires Grows(s0, s, r) && v < Next(s) && f in r && f + 1 in r && r[f] == r[f + 1] == Width(s) + 1
    ensures Sound(s) && f < |s.code|
    ensures Grows(s0, TryTest(s, v, f), r - {f}) && Extends(s.code, TryTest(s, v, f).code)
  {
    hide Grows, StateOk, Put, IsErrorInsts, Extends, CodeOk;
    Now(s0, s, r);
    var n := Next(s);
    var s1 := Put(s, IsErrorInsts(n, v));
    IsErrorGrows(s0, s, r, v);
    Now(s0, s1, r);
    SplitGrows(s0, s1, r, n + 3, f, Frame(s1) + [v], f + 1, Frame(s1) + [v]);
    ExtendsTrans(s.code, s1.code, TryTest(s, v, f).code);
  }

  /** The unreachable block after a jump. */
  lemma DeadGrows(s: State, t: Term)
    requires StateOk(s) && t != NoTerm && TermOk(s.code, s.code[s.cur].(term := t))
    ensures Sound(s)
    ensures var o := Dead(s, t); Grows(s, o.0, map[]) && o.1 < Next(o.0) && o.0.mark == s.mark
    ensures Extends(SetTerm(s, t).code, Dead(s, t).0.code)
  {
    var w, b := Width(s), |s.code|;
    Refl(s);
    var s1 := AddBlock(s, w);
    AddGrows(s, s, map[], w);
    BlockStays2(s.code, s1.code, s.code[s.cur].(term := t)) by {
      assert BlockOk(s.code, s.code[s.cur]);
    }
    LeaveGrows(s, s1, map[b := w], t, b);
    assert map[b := w] - {b} == map[];
    PutGrows(s, Leave(s1, t, b), map[], [ConstI64(WORD_NIL)]);
  }

  /** The block an escaping error leaves through, when no try encloses it. */
  lemma ErrorExit(s: State, w: nat)
    requires StateOk(s)
    ensures var b := |s.code|;
      Grows(s, s.(code := s.code + [Block(w, [], NoTerm), Block(1, [], Return([0]))]), map[b := w])
  {
    var b := |s.code|;
    var s1 := AddBlock(s, w);
    Refl(s);
    AddGrows(s, s, map[], w);
    var s2 := s.(code := s.code + [Block(w, [], NoTerm), Block(1, [], Return([0]))]);
    assert s2.code == s1.code + [Block(1, [], Return([0]))];
    assert Extends(s1.code, s2.code);
    assert BlockOk(s2.code, s2.code[b + 1]);
    CodeStays(s1.code, s2.code, b + 1);
    ExtendsTrans(s.code, s1.code, s2.code);
  }

  lemma ErrorBranchGrows(s: State, k: Targets, truth: nat, err: nat)
    requires StateOk(s) && TargetsOk(k, s.code, Width(s)) && truth < Next(s) && err < Next(s)
    ensures Sound(s) && Grows(s, ErrorBranch(s, k, truth, err), map[])
    ensures ErrorBranch(s, k, truth, err).mark == s.mark
    ensures ErrorLinked(s, k, truth, err)
  {
    var w, b := Width(s), |s.code|;
    if k.inTry {
      ErrorToHandler(s, k, truth, err);
    } else {
      ErrorOut(s, truth, err);
    }
    assert map[b := w] - {b} == map[];
    hide Grows;
  }

  /** The code goes on in a fresh block; an error leaves to the handler or through a returning block. */
  ghost predicate ErrorLinked(s: State, k: Targets, truth: nat, err: nat)
    requires Sound(s) && Reachable(k, Width(s))
  {
    var t := ErrorBranch(s, k, truth, err);
    && Fresh(t, |s.code|, Width(s))
    && (!k.inTry ==> |s.code| + 1 < |t.code| && t.code[|s.code| + 1] == Block(1, [], Return([0])))
  }

  lemma ErrorToHandler(s: State, k: Targets, truth: nat, err: nat)
    requires StateOk(s) && TargetsOk(k, s.code, Width(s)) && k.inTry && truth < Next(s) && err < Next(s)
    ensures Sound(s)
    ensures var w, b, s1 := Width(s), |s.code|, AddBlock(s, Width(s));
      Grows(s, Leave(s1, BrIf(truth, k.onError, Frame(s1)[..k.tryWidth] + [err], b, Frame(s1)), b), map[b := w] - {b})
  {
    var w, b := Width(s), |s.code|;
    var s1 := AddBlock(s, w);
    Refl(s);
    AddGrows(s, s, map[], w);
    Now(s, s1, map[b := w]);
    LeaveGrows(s, s1, map[b := w], BrIf(truth, k.onError, Frame(s1)[..k.tryWidth] + [err], b, Frame(s1)), b);
    hide Grows;
  }

  lemma ErrorOut(s: State, truth: nat, err: nat)
    requires StateOk(s) && truth < Next(s) && err < Next(s)
    ensures Sound(s)
    ensures var w, b := Width(s), |s.code|;
      var s2 := s.(code := s.code + [Block(w, [], NoTerm), Block(1, [], Return([0]))]);
      Grows(s, Leave(s2, BrIf(truth, b + 1, [err], b, Frame(s2)), b), map[b := w] - {b})
  {
    var w, b := Width(s), |s.code|;
    var s2 := s.(code := s.code + [Block(w, [], NoTerm), Block(1, [], Return([0]))]);
    ErrorExit(s, w);
    Now(s, s2, map[b := w]);
    LeaveGrows(s, s2, map[b := w], BrIf(truth, b + 1, [err], b, Frame(s2)), b);
    hide Grows;
  }

  lemma ErrorCheckGrows(s: State, k: Targets, v: nat)
    requires StateOk(s) && TargetsOk(k, s.code, Width(s)) && v < Next(s)
    ensures Sound(s) && Grows(s, StmtErrorCheck(s, k, v), map[])
    ensures StmtErrorCheck(s, k, v).mark == s.mark
    ensures ErrorLinked(Put(s, IsErrorInsts(Next(s), v)), k, Next(s) + 3, v)
  {
    hide ErrorLinked, Grows, Put, IsErrorInsts, Extends, CodeOk, AllBelow;
    var n := Next(s);
    var s1 := Put(s, IsErrorInsts(n, v));
    Refl(s);
    IsErrorGrows(s, s, map[], v);
    Now(s, s1, map[]);
    TargetsStay(k, s.code, s1.code, Width(s), Width(s));
    ErrorBranchGrows(s1, k, n + 3, v);
    InnerGrows(s, s1, map[], ErrorBranch(s1, k, n + 3, v));
  }

  // ---- the guard ----

  lemma GuardOpenGrows(s: State, h: Head, a: nat, b: nat)
    requires StateOk(s) && a < Next(s) && b < Next(s)
    ensures Sound(s)
    ensures var f, w := |s.code|, Width(s);
      Grows(s, GuardOpen(s, h, a, b), map[f + 1 := w + 2, f + 2 := w + 1])
  {
    hide Grows, Extends, CodeOk, AllBelow, Leave, AddBlock, Next, Frame, TagTestInsts, DivisorInsts, StateOk, Put;
    var w, f := Width(s), |s.code|;
    Start(s);
    AddThree(s, s, map[], w + 2, w + 2, w + 1);
    var s1, r := AddBlock(AddBlock(AddBlock(s, w + 2), w + 2), w + 1), map[f := w + 2][f + 1 := w + 2][f + 2 := w + 1];
    var n := Next(s1);
    TagTestGrows(s, s1, r, a, b);
    var s2 := Put(s1, TagTestInsts(n, a, b));
    var s3 := if GuardFor(h).GuardDivRem? then Put(s2, DivisorInsts(n + 8, n + 7, b)) else s2;
    var ok := if GuardFor(h).GuardDivRem? then n + 13 else n + 7;
    if GuardFor(h).GuardDivRem? {
      DivisorGrows(s, s2, r, n + 7, b);
    }
    Now(s, s3, r);
    Appended(s3, a, b);
    SplitGrows(s, s3, r, ok, f, Frame(s3) + [a, b], f + 1, Frame(s3) + [a, b]);
    DropFirst(map[], f, w + 2, w + 2, w + 1);
  }

  lemma Start(s: State)
    requires StateOk(s)
    ensures Sound(s) && Grows(s, s, map[])
  {
    Refl(s);
  }

  lemma Appended(s: State, a: nat, b: nat)
    requires StateOk(s) && a < Next(s) && b < Next(s)
    ensures AllBelow(Frame(s) + [a, b], Next(s)) && |Frame(s) + [a, b]| == Width(s) + 2
  {
  }

  lemma TagTestGrows(s0: State, s: State, r: map<nat, nat>, a: nat, b: nat)
    requires Grows(s0, s, r) && a < Next(s) && b < Next(s)
    ensures Grows(s0, Put(s, TagTestInsts(Next(s), a, b)), r)
  {
    PutGrows(s0, s, r, TagTestInsts(Next(s), a, b));
  }

  lemma DivisorGrows(s0: State, s: State, r: map<nat, nat>, ok: nat, b: nat)
    requires Grows(s0, s, r) && ok < Next(s) && b < Next(s)
    ensures Grows(s0, Put(s, DivisorInsts(Next(s), ok, b)), r)
  {
    PutGrows(s0, s, r, DivisorInsts(Next(s), ok, b));
  }

  lemma FastLocal(w: nat, op: BinOp, cmp: CmpOp)
    ensures LocalFrom(FastCmpInsts(w, cmp), w + 2) && LocalFrom(FastBareInsts(w, op), w + 2)
    ensures LocalFrom(FastArithInsts(w, op), w + 2)
  {
  }

  /** The fast block's code, whatever the operator. */
  lemma FastGrows(s0: State, s: State, r: map<nat, nat>, h: Head, f: nat)
    requires Grows(s0, s, r) && Next(s) == Width(s) + 2
    requires f + 1 in r && f + 2 in r && r[f + 1] == Width(s) + 2 && r[f + 2] == Width(s) + 1
    ensures Sound(s) && f + 1 < |s.code|
    ensures Grows(s0, GuardFast(s, h, f), r - {f + 1}) && Extends(s.code, GuardFast(s, h, f).code)
  {
    hide Grows, Extends, CodeOk, StateOk, Put, LocalFrom, FastCmpInsts, FastBareInsts, FastArithInsts, Leave, Frame, Next;
    var w := Width(s);
    Now(s0, s, r);
    match GuardFor(h)
    case GuardCmp(cmp) =>
      FastLocal(w, ADD, cmp);
      FastEnd(s0, s, r, FastCmpInsts(w, cmp), f);
    case GuardDivRem(op) =>
      FastLocal(w, op, EQ);
      FastEnd(s0, s, r, FastBareInsts(w, op), f);
    case GuardWrap(op) =>
      FastLocal(w, op, EQ);
      FastEnd(s0, s, r, FastBareInsts(w, op), f);
    case GuardArith(op) =>
      FastLocal(w, op, EQ);
      FastArithGrows(s0, s, r, op, f);
  }

  lemma FastEnd(s0: State, s: State, r: map<nat, nat>, insts: seq<Inst>, f: nat)
    requires Grows(s0, s, r) && Next(s) == Width(s) + 2 && |insts| == 6 && LocalFrom(insts, Next(s))
    requires f + 1 in r && f + 2 in r && r[f + 1] == Width(s) + 2 && r[f + 2] == Width(s) + 1
    ensures Placed(s) && var t := Put(s, insts);
      Grows(s0, Leave(t, Br(f + 2, Frame(t) + [Width(s) + 7]), f + 1), r - {f + 1})
      && Extends(s.code, Leave(t, Br(f + 2, Frame(t) + [Width(s) + 7]), f + 1).code)
  {
    hide Grows, Extends, CodeOk, StateOk, Put;
    Now(s0, s, r);
    var t := Put(s, insts);
    PutGrows(s0, s, r, insts);
    Now(s0, t, r);
    EdgeTo(s0, t, r, f + 2, Frame(t) + [Width(s) + 7]);
    LeaveGrows(s0, t, r, Br(f + 2, Frame(t) + [Width(s) + 7]), f + 1);
    ExtendsTrans(s.code, t.code, Leave(t, Br(f + 2, Frame(t) + [Width(s) + 7]), f + 1).code);
  }

  lemma FastArithGrows(s0: State, s: State, r: map<nat, nat>, op: BinOp, f: nat)
    requires Grows(s0, s, r) && Next(s) == Width(s) + 2
    requires f + 1 in r && f + 2 in r && r[f + 1] == Width(s) + 2 && r[f + 2] == Width(s) + 1
    ensures Placed(s) && var w, t := Width(s), Put(s, FastArithInsts(Width(s), op));
      Grows(s0, Leave(t, BrIf(w + 9, f + 2, Frame(t) + [w + 12], f + 1, Frame(t) + [w, w + 1]), f + 1), r - {f + 1})
      && Extends(s.code, Leave(t, BrIf(w + 9, f + 2, Frame(t) + [w + 12], f + 1, Frame(t) + [w, w + 1]), f + 1).code)
  {
    hide Grows, Extends, CodeOk, StateOk, Put, FastArithInsts, LocalFrom;
    Now(s0, s, r);
    var w := Width(s);
    var t := Put(s, FastArithInsts(w, op));
    FastLocal(w, op, EQ);
    PutGrows(s0, s, r, FastArithInsts(w, op));
    Now(s0, t, r);
    EdgeTo(s0, t, r, f + 2, Frame(t) + [w + 12]);
    EdgeTo(s0, t, r, f + 1, Frame(t) + [w, w + 1]);
    var b := BrIf(w + 9, f + 2, Frame(t) + [w + 12], f + 1, Frame(t) + [w, w + 1]);
    LeaveGrows(s0, t, r, b, f + 1);
    ExtendsTrans(s.code, t.code, Leave(t, b, f + 1).code);
  }

  lemma StateSp(s: State)
    requires StateOk(s)
    ensures s.sp < Next(s)
  {
  }

  lemma CallLocal(n: nat, fn: string, args: seq<nat>)
    requires AllBelow(args, n)
    ensures LocalFrom(CallInsts(n, fn, args), n)
  {
  }

  lemma SlowGrows(s0: State, s: State, r: map<nat, nat>, h: Head, f: nat)
    requires Grows(s0, s, r) && Next(s) == Width(s) + 2 && f + 2 in r && r[f + 2] == Width(s) + 1
    ensures Sound(s) && f + 2 < |s.code|
    ensures Grows(s0, GuardSlow(s, h, f), r - {f + 2}) && Extends(s.code, GuardSlow(s, h, f).code)
  {
    hide Grows, Extends, CodeOk, StateOk, Put, LocalFrom, CallInsts;
    var w := Width(s);
    Now(s0, s, r);
    var t := Put(s, CallInsts(w + 2, RuntimeFn(h), [s.sp, w, w + 1]));
    CallLocal(w + 2, RuntimeFn(h), [s.sp, w, w + 1]) by {
      assert s.sp < w + 2 by {
        StateSp(s);
      }
    }
    PutGrows(s0, s, r, CallInsts(w + 2, RuntimeFn(h), [s.sp, w, w + 1]));
    Now(s0, t, r);
    EdgeTo(s0, t, r, f + 2, Frame(t) + [w + 3]);
    LeaveGrows(s0, t, r, Br(f + 2, Frame(t) + [w + 3]), f + 2);
    ExtendsTrans(s.code, t.code, Leave(t, Br(f + 2, Frame(t) + [w + 3]), f + 2).code);
  }

  /** Entering a reserved block: nothing but its parameters so far. */
  lemma GuardedGrows(s: State, mv: bool, h: Head, a: nat, b: nat)
    requires StateOk(s) && a < Next(s) && b < Next(s)
    ensures Sound(s)
    ensures var o := Guarded(s, mv, h, a, b); Grows(s, o.0, map[]) && o.1 < Next(o.0) && o.0.mark == s.mark
  {
    Refl(s);
    if !mv || Width(s) > IRB_MAX_FRAME - 1 {
      PutGrows(s, s, map[], CallInsts(Next(s), RuntimeFn(h), [s.sp, a, b]));
    } else {
      DiamondGrows(s, h, a, b);
    }
  }

  /** The diamond's stages: test, fast arm, slow arm, each followed by the next. */
  ghost predicate DiamondLinked(s: State, h: Head, a: nat, b: nat)
    requires Sound(s)
  {
    var f, w, s1 := |s.code|, Width(s), GuardOpen(s, h, a, b);
    var s2 := GuardFast(s1, h, f);
    var s3 := GuardSlow(s2, h, f);
    && Fresh(s1, f, w + 2) && Fresh(s2, f + 1, w + 2) && Fresh(s3, f + 2, w + 1)
    && Extends(s1.code, s2.code) && Extends(s2.code, s3.code)
    && s1.code[f + 1].nparams == w + 2 && s1.code[f + 2].nparams == w + 1
  }

  lemma DiamondGrows(s: State, h: Head, a: nat, b: nat)
    requires StateOk(s) && a < Next(s) && b < Next(s)
    ensures Sound(s)
    ensures var t := GuardSlow(GuardFast(GuardOpen(s, h, a, b), h, |s.code|), h, |s.code|);
      Grows(s, t, map[]) && Next(t) == Width(s) + 1 && t.mark == s.mark
    ensures DiamondLinked(s, h, a, b)
  {
    hide Grows, StateOk, Extends, GuardOpen, GuardFast, GuardSlow, Next;
    var w, f := Width(s), |s.code|;
    Start(s);
    GuardOpenGrows(s, h, a, b);
    var s1, r1 := GuardOpen(s, h, a, b), map[f + 1 := w + 2, f + 2 := w + 1];
    OpenFresh(s, h, a, b);
    Now(s, s1, r1);
    FreshNext(s1, f, w + 2);
    FastGrows(s, s1, r1, h, f);
    var s2, r2 := GuardFast(s1, h, f), r1 - {f + 1};
    FastFresh(s, s1, r1, h, f);
    FreshNext(s2, f + 1, w + 2);
    SlowGrows(s, s2, r2, h, f);
    SlowFresh(s, s2, r2, h, f);
    FreshNext(GuardSlow(s2, h, f), f + 2, w + 1);
    assert r2 - {f + 2} == map[];
  }

  lemma FreshNext(t: State, b: nat, n: nat)
    requires Fresh(t, b, n)
    ensures Next(t) == n
  {
  }

  lemma OpenFresh(s: State, h: Head, a: nat, b: nat)
    requires Sound(s)
    ensures Fresh(GuardOpen(s, h, a, b), |s.code|, Width(s) + 2) && GuardOpen(s, h, a, b).mark == s.mark
  {
  }

  lemma FastFresh(s0: State, s: State, r: map<nat, nat>, h: Head, f: nat)
    requires Grows(s0, s, r) && f + 1 in r
    ensures Sound(s) && f + 1 < |s.code|
    ensures Fresh(GuardFast(s, h, f), f + 1, r[f + 1]) && GuardFast(s, h, f).mark == s.mark
  {
  }

  lemma SlowFresh(s0: State, s: State, r: map<nat, nat>, h: Head, f: nat)
    requires Grows(s0, s, r) && f + 2 in r
    ensures Sound(s) && f + 2 < |s.code|
    ensures Fresh(GuardSlow(s, h, f), f + 2, r[f + 2]) && GuardSlow(s, h, f).mark == s.mark
  {
  }
}
