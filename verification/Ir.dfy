/** The block-local SSA form codegen emits (codegen/irbuilder.h) and a small-step machine for it.
    An instruction names only its own block's parameters and earlier results. */
module Ir {
  import opened Bits
  import opened MachineWords

  datatype IntType = I32 | I64
  datatype BinOp = ADD | SUB | MUL | DIV_S | DIV_U | REM_S | REM_U | AND | OR | XOR | SHL
  datatype CmpOp = EQ | NE | LT_S | LT_U | LE_S | LE_U | GT_S | GT_U | GE_S | GE_U
  datatype ConvOp = EXTEND_I32S | EXTEND_I32U | WRAP_I64

  /** Every instruction of this model has one result, the next value id of its block. */
  datatype Inst =
    | ConstI32(c: int)
    | ConstI64(c: int)
    | IntBin(ty: IntType, bin: BinOp, a: nat, x: nat)
    | IntCmp(ty: IntType, cmp: CmpOp, a: nat, x: nat)
    | Convert(conv: ConvOp, a: nat)
    | CallImport(name: string, handle: nat, args: seq<nat>)

  datatype Term =
    | NoTerm
    | Br(target: nat, args: seq<nat>)
    | BrIf(cond: nat, thn: nat, thnArgs: seq<nat>, els: nat, elsArgs: seq<nat>)
    | Return(vals: seq<nat>)

  datatype Block = Block(nparams: nat, insts: seq<Inst>, term: Term)

  /** What the linked runtime answers to a call, by name and argument words. */
  type Runtime = (string, seq<Word>) -> Word

  // ---- meaning of one instruction ----

  function Modulus(ty: IntType): nat {
    if ty == I32 then W32 else W64
  }

  /** C's division of machine integers, by the sign of the operands. */
  function Quot(x: int, y: int): int
    requires y != 0
  {
    var q := (if x < 0 then -x else x) / (if y < 0 then -y else y);
    if (x < 0) != (y < 0) then -q else q
  }

  function Rem(x: int, y: int): int
    requires y != 0
  {
    var r := (if x < 0 then -x else x) % (if y < 0 then -y else y);
    if x < 0 then -r else r
  }

  /** The host traps on these operands. */
  predicate BinTraps(ty: IntType, op: BinOp, a: Word, b: Word) {
    var m := Modulus(ty);
    match op
    case DIV_U => Cut(b, m) == 0
    case REM_U => Cut(b, m) == 0
    case DIV_S => Cut(b, m) == 0 || (Cut(a, m) == m / 2 && Cut(b, m) == m - 1)
    case REM_S => Cut(b, m) == 0 || (Cut(a, m) == m / 2 && Cut(b, m) == m - 1)
    case _ => false
  }

  function BinValue(ty: IntType, op: BinOp, a: Word, b: Word): Word
    requires !BinTraps(ty, op, a, b)
  {
    var m := Modulus(ty);
    var x, y := Cut(a, m), Cut(b, m);
    match op
    case ADD => Cut(x + y, m)
    case SUB => Cut(x - y, m)
    case MUL => Cut(x * y, m)
    case DIV_S => Cut(Quot(AsSigned(x, m), AsSigned(y, m)), m)
    case DIV_U => Cut(Quot(x, y), m)
    case REM_S => Cut(Rem(AsSigned(x, m), AsSigned(y, m)), m)
    case REM_U => Cut(Rem(x, y), m)
    case AND => Cut(And(x, y), m)
    case OR => Cut(Or(x, y), m)
    case XOR => Cut(Xor(x, y), m)
    case SHL => Cut(Up(x, y % (if ty == I32 then 32 else 64)), m)
  }

  predicate CmpHolds(ty: IntType, op: CmpOp, a: Word, b: Word) {
    var m := Modulus(ty);
    var x, y := Cut(a, m), Cut(b, m);
    var sx, sy := AsSigned(x, m), AsSigned(y, m);
    match op
    case EQ => x == y
    case NE => x != y
    case LT_S => sx < sy
    case LT_U => x < y
    case LE_S => sx <= sy
    case LE_U => x <= y
    case GT_S => sx > sy
    case GT_U => x > y
    case GE_S => sx >= sy
    case GE_U => x >= y
  }

  function Converted(op: ConvOp, a: Word): Word {
    match op
    case EXTEND_I32S => Cut(AsSigned(Cut(a, W32), W32), W64)
    case EXTEND_I32U => Cut(a, W32)
    case WRAP_I64 => Cut(a, W32)
  }

  /** Every operand is one of the first n values. */
  predicate InstLocal(i: Inst, n: nat) {
    match i
    case ConstI32(_) => true
    case ConstI64(_) => true
    case IntBin(_, _, a, x) => a < n && x < n
    case IntCmp(_, _, a, x) => a < n && x < n
    case Convert(_, a) => a < n
    case CallImport(_, h, args) => h < n && AllBelow(args, n)
  }

  predicate AllBelow(ids: seq<nat>, n: nat) {
    forall k :: 0 <= k < |ids| ==> ids[k] < n
  }

  function Pick(vals: seq<Word>, ids: seq<nat>): (r: seq<Word>)
    requires AllBelow(ids, |vals|)
    ensures |r| == |ids| && forall k :: 0 <= k < |ids| ==> r[k] == vals[ids[k]]
  {
    seq(|ids|, k requires 0 <= k < |ids| => vals[ids[k]])
  }

  predicate Traps(i: Inst, vals: seq<Word>)
    requires InstLocal(i, |vals|)
  {
    i.IntBin? && BinTraps(i.ty, i.bin, vals[i.a], vals[i.x])
  }

  function Value(rt: Runtime, i: Inst, vals: seq<Word>): Word
    requires InstLocal(i, |vals|) && !Traps(i, vals)
  {
    match i
    case ConstI32(c) => Cut(c, W32)
    case ConstI64(c) => Cut(c, W64)
    case IntBin(ty, op, a, x) => BinValue(ty, op, vals[a], vals[x])
    case IntCmp(ty, op, a, x) => if CmpHolds(ty, op, vals[a], vals[x]) then 1 else 0
    case Convert(op, a) => Converted(op, vals[a])
    case CallImport(name, _, args) => rt(name, Pick(vals, args))
  }

  // ---- the machine ----

  datatype Config =
    | At(block: nat, pc: nat, vals: seq<Word>)
    | Done(results: seq<Word>)
    | Trapped
    | Broken   // a reference outside the block, a missing block, a missing terminator

  function Jump(code: seq<Block>, target: nat, vals: seq<Word>, args: seq<nat>): Config {
    if target < |code| && AllBelow(args, |vals|) && |args| == code[target].nparams
    then At(target, 0, Pick(vals, args)) else Broken
  }

  function Step(code: seq<Block>, rt: Runtime, c: Config): Config {
    if !c.At? then c
    else if c.block >= |code| || c.pc > |code[c.block].insts| then Broken
    else if c.pc < |code[c.block].insts| then
      var i := code[c.block].insts[c.pc];
      if !InstLocal(i, |c.vals|) then Broken
      else if Traps(i, c.vals) then Trapped
      else At(c.block, c.pc + 1, c.vals + [Value(rt, i, c.vals)])
    else
      match code[c.block].term
      case NoTerm => Broken
      case Br(t, args) => Jump(code, t, c.vals, args)
      case BrIf(cond, t, targs, e, eargs) =>
        if cond >= |c.vals| then Broken
        else if Cut(c.vals[cond], W32) != 0 then Jump(code, t, c.vals, targs)
        else Jump(code, e, c.vals, eargs)
      case Return(ids) => if AllBelow(ids, |c.vals|) then Done(Pick(c.vals, ids)) else Broken
  }

  function Run(code: seq<Block>, rt: Runtime, c: Config, n: nat): Config
    decreases n
  {
    if n == 0 then c else Run(code, rt, Step(code, rt, c), n - 1)
  }

  /** c leads to d. */
  ghost predicate Reaches(code: seq<Block>, rt: Runtime, c: Config, d: Config) {
    exists n: nat :: Run(code, rt, c, n) == d
  }

  lemma {:induction false} RunAdd(code: seq<Block>, rt: Runtime, c: Config, m: nat, n: nat)
    ensures Run(code, rt, Run(code, rt, c, m), n) == Run(code, rt, c, m + n)
    decreases m
  {
    if m > 0 {
      RunAdd(code, rt, Step(code, rt, c), m - 1, n);
    }
  }

  lemma Then(code: seq<Block>, rt: Runtime, c: Config, d: Config, e: Config)
    requires Reaches(code, rt, c, d) && Reaches(code, rt, d, e)
    ensures Reaches(code, rt, c, e)
  {
    var m: nat :| Run(code, rt, c, m) == d;
    var n: nat :| Run(code, rt, d, n) == e;
    RunAdd(code, rt, c, m, n);
  }

  lemma Stay(code: seq<Block>, rt: Runtime, c: Config)
    ensures Reaches(code, rt, c, c)
  {
    assert Run(code, rt, c, 0) == c;
  }

  lemma OneStep(code: seq<Block>, rt: Runtime, c: Config)
    ensures Reaches(code, rt, c, Step(code, rt, c))
  {
    assert Run(code, rt, c, 1) == Step(code, rt, c) by {
      assert Run(code, rt, Step(code, rt, c), 0) == Step(code, rt, c);
    }
  }

  /** A function has one outcome: two finished runs from one start agree. */
  lemma {:induction false} OneOutcome(code: seq<Block>, rt: Runtime, c: Config, d: Config, e: Config)
    requires Reaches(code, rt, c, d) && Reaches(code, rt, c, e) && d.Done? && e.Done?
    ensures d == e
  {
    var m: nat :| Run(code, rt, c, m) == d;
    var n: nat :| Run(code, rt, c, n) == e;
    if m <= n {
      RunAdd(code, rt, c, m, n - m);
      Settled(code, rt, d, n - m);
    } else {
      RunAdd(code, rt, c, n, m - n);
      Settled(code, rt, e, m - n);
    }
  }

  lemma {:induction false} Settled(code: seq<Block>, rt: Runtime, c: Config, n: nat)
    requires !c.At?
    ensures Run(code, rt, c, n) == c
  {
    if n > 0 {
      Settled(code, rt, c, n - 1);
    }
  }

  // ---- code that is complete ----

  /** Each operand is an earlier value of its own block, and each branch passes its target's parameters. */
  predicate InstsLocal(b: Block) {
    forall k :: 0 <= k < |b.insts| ==> InstLocal(b.insts[k], b.nparams + k)
  }

  predicate EdgeOk(code: seq<Block>, target: nat, args: seq<nat>, n: nat) {
    target < |code| && |args| == code[target].nparams && AllBelow(args, n)
  }

  predicate TermOk(code: seq<Block>, b: Block) {
    var n := b.nparams + |b.insts|;
    match b.term
    case NoTerm => true
    case Br(t, args) => EdgeOk(code, t, args, n)
    case BrIf(c, t, targs, e, eargs) => c < n && EdgeOk(code, t, targs, n) && EdgeOk(code, e, eargs, n)
    case Return(ids) => AllBelow(ids, n)
  }

  predicate BlockOk(code: seq<Block>, b: Block) {
    InstsLocal(b) && TermOk(code, b)
  }

  predicate CodeOk(code: seq<Block>) {
    forall k :: 0 <= k < |code| ==> BlockOk(code, code[k])
  }

  /** In complete code the machine never goes wrong: it runs on, traps or returns. */
  lemma NeverBroken(code: seq<Block>, rt: Runtime, c: Config)
    requires CodeOk(code) && (forall k :: 0 <= k < |code| ==> code[k].term != NoTerm)
    requires c.At? ==> c.block < |code| && c.pc <= |code[c.block].insts| && |c.vals| == code[c.block].nparams + c.pc
    requires c != Broken
    ensures var d := Step(code, rt, c);
      && d != Broken
      && (d.At? ==> d.block < |code| && d.pc <= |code[d.block].insts| && |d.vals| == code[d.block].nparams + d.pc)
  {
    if c.At? {
      assert BlockOk(code, code[c.block]);
    }
  }
}
