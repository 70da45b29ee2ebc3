/** The source language of this model: the forms codegen/codegen.c lowers through frames and pins,
    with tagged words as values, and what each form means. */
module Source {
  import opened Bits
  import opened Ir

  // ---- tagged words (codegen/codegen.c:11-25) ----

  const TAG_UNIT: nat := 0x100_0000_0000_0000
  const TAG_I32: Word := 0x0200_0000_0000_0000
  const WORD_FALSE: Word := 0x0100_0000_0000_0000
  const WORD_TRUE: Word := 0x0100_0000_0000_0001
  const WORD_NIL: Word := 0
  const FLAG_ERROR: Word := 0x2000_0000_0000_0000
  const FLAGS_ALL: Word := 0xE000_0000_0000_0000

  /** The plain inline integer x, or its low 32 bits. */
  function I32Word(x: int): Word {
    TAG_I32 + Cut(x, W32)
  }

  function BoolWord(b: bool): Word {
    if b then WORD_TRUE else WORD_FALSE
  }

  predicate FitsI32(n: int) {
    -0x8000_0000 <= n < 0x8000_0000
  }

  predicate Truthy(w: Word) {
    w != WORD_FALSE && w != WORD_NIL
  }

  predicate IsError(w: Word) {
    (w / FLAG_ERROR) % 2 == 1
  }

  /** A word with the plain i32 tag has nothing between the tag and the payload. */
  predicate WellTagged(w: Word) {
    w / TAG_UNIT == 2 ==> w % TAG_UNIT < W32
  }

  // ---- syntax ----

  datatype Head = Plus | Minus | Star | Slash | Percent | PlusPct | MinusPct | StarPct
                | Less | LessEq | Greater | GreaterEq | EqEq | BangEq

  /** `binary_runtime_fn`. */
  function RuntimeFn(h: Head): string {
    match h
    case Plus => "jacl_add"
    case Minus => "jacl_sub"
    case Star => "jacl_mul"
    case Slash => "jacl_div"
    case Percent => "jacl_mod"
    case PlusPct => "jacl_wrap_add"
    case MinusPct => "jacl_wrap_sub"
    case StarPct => "jacl_wrap_mul"
    case Less => "jacl_lt"
    case LessEq => "jacl_le"
    case Greater => "jacl_gt"
    case GreaterEq => "jacl_ge"
    case EqEq => "jacl_eq"
    case BangEq => "jacl_ne"
  }

  datatype Bare = TrueWord | FalseWord | NilWord

  function BareWord(b: Bare): Word {
    match b
    case TrueWord => WORD_TRUE
    case FalseWord => WORD_FALSE
    case NilWord => WORD_NIL
  }

  /** What the lexer keeps as a number; a literal beyond an i64 stays a string of digits. */
  type Literal = n: int | -0x8000_0000_0000_0000 <= n < 0x8000_0000_0000_0000

  /** A missing else is Const(NilWord); `elif` is an If in the else position; `a && b` is
      If(a, b, Const(FalseWord)) and `a || b` is If(a, Const(TrueWord), b). */
  datatype Expr =
    | IntLit(n: Literal)
    | Const(bare: Bare)
    | Var(x: string)
    | Fold(head: Head, first: Expr, rest: Exprs)
    | Negate(e: Expr)
    | Builtin(fn: string, args: Exprs)
    | If(cond: Expr, thn: Expr, els: Expr)
    | While(cond: Expr, body: Expr)
    | Break
    | Continue
    | ReturnEarly(e: Expr)
    | Try(body: Expr, x: string, handler: Expr)
    | Scope(stmts: Stmts)

  datatype Exprs = NoExprs | MoreExprs(e: Expr, rest: Exprs)
  datatype Stmts = NoStmts | MoreStmts(s: Stmt, rest: Stmts)

  datatype Stmt =
    | Def(x: string, e: Expr)
    | Mut(x: string, e: Expr)
    | Set(x: string, e: Expr)
    | Do(e: Expr)

  /** `stmt_is_binding`. */
  predicate Binds(s: Stmt) {
    !s.Do?
  }

  // ---- environments ----

  datatype Binding = Binding(x: string, mutable: bool, val: Word)
  type Env = seq<Binding>

  /** The most recent binding of x, by position. */
  function Find(env: Env, x: string): (r: int)
    ensures -1 <= r < |env|
    ensures r >= 0 ==> env[r].x == x
    ensures forall k :: r < k < |env| ==> env[k].x != x
  {
    if env == [] then -1
    else if env[|env| - 1].x == x then |env| - 1
    else Find(env[..|env| - 1], x)
  }

  function Assign(env: Env, i: nat, w: Word): Env
    requires i < |env|
  {
    env[i := env[i].(val := w)]
  }

  function Keep(env: Env, n: nat): Env {
    if n <= |env| then env[..n] else env
  }

  // ---- meaning ----

  /** Why an evaluation did not end in a value. Unfinished: the fuel, which only loops use, ran out. */
  datatype Why = Unfinished | Wrong | Broke | Continued | Failed(w: Word) | Returned(w: Word)

  datatype Result<T> = Normal(env: Env, val: T) | Abrupt(env: Env, why: Why)

  function Trim<T>(r: Result<T>, n: nat): Result<T> {
    r.(env := Keep(r.env, n))
  }

  /** The runtime, and the data-stack pointer every runtime call is passed. */
  datatype Host = Host(rt: Runtime, sp: Word)

  function Call(h: Host, fn: string, args: seq<Word>): Word {
    h.rt(fn, [h.sp] + args)
  }

  /** A literal beyond i32 is boxed by the runtime. */
  function LitValue(h: Host, n: Literal): Word {
    if FitsI32(n) then I32Word(n) else Call(h, "jacl_i64_box", [Cut(n, W64)])
  }

  /** Where the machine's own i32 operation is the whole answer. */
  predicate Inline(h: Head, x: int, y: int) {
    match h
    case Plus => FitsI32(x + y)
    case Minus => FitsI32(x - y)
    case Star => FitsI32(x * y)
    case Slash => y != 0 && y != -1
    case Percent => y != 0 && y != -1
    case _ => true
  }

  function InlineAnswer(h: Head, x: int, y: int): Word
    requires Inline(h, x, y)
  {
    match h
    case Plus => I32Word(x + y)
    case Minus => I32Word(x - y)
    case Star => I32Word(x * y)
    case Slash => I32Word(Quot(x, y))
    case Percent => I32Word(Rem(x, y))
    case PlusPct => I32Word(x + y)
    case MinusPct => I32Word(x - y)
    case StarPct => I32Word(x * y)
    case Less => BoolWord(x < y)
    case LessEq => BoolWord(x <= y)
    case Greater => BoolWord(x > y)
    case GreaterEq => BoolWord(x >= y)
    case EqEq => BoolWord(x == y)
    case BangEq => BoolWord(x != y)
  }

  /** What lowering relies on: well-formed answers, and on plain i32s the exact or wrapped result. */
  ghost predicate HostOk(host: Host) {
    && (forall fn: string, args: seq<Word> :: WellTagged(host.rt(fn, args)))
    && (forall h: Head, x: int, y: int :: FitsI32(x) && FitsI32(y) && Inline(h, x, y) ==>
          Call(host, RuntimeFn(h), [I32Word(x), I32Word(y)]) == InlineAnswer(h, x, y))
  }

  function Eval(h: Host, e: Expr, env: Env, fuel: nat): Result<Word>
    decreases fuel, e
  {
    match e
    case IntLit(n) => Normal(env, LitValue(h, n))
    case Const(b) => Normal(env, BareWord(b))
    case Var(x) =>
      var i := Find(env, x);
      if i < 0 then Abrupt(env, Wrong) else Normal(env, env[i].val)
    case Fold(head, first, rest) =>
      (match Eval(h, first, env, fuel)
       case Normal(env1, a) => EvalFold(h, RuntimeFn(head), rest, a, env1, fuel)
       case Abrupt(env1, why) => Abrupt(env1, why))
    case Negate(e1) =>
      (match Eval(h, e1, env, fuel)
       case Normal(env1, a) => Normal(env1, Call(h, "jacl_sub", [I32Word(0), a]))
       case Abrupt(env1, why) => Abrupt(env1, why))
    case Builtin(fn, args) =>
      (match EvalArgs(h, args, env, fuel)
       case Normal(env1, ws) => Normal(env1, Call(h, fn, ws))
       case Abrupt(env1, why) => Abrupt(env1, why))
    case If(c, t, f) =>
      (match Eval(h, c, env, fuel)
       case Normal(env1, w) => if Truthy(w) then Eval(h, t, env1, fuel) else Eval(h, f, env1, fuel)
       case Abrupt(env1, why) => Abrupt(env1, why))
    case While(c, body) =>
      (match Eval(h, c, env, fuel)
       case Normal(env1, w) =>
         if !Truthy(w) then Normal(env1, WORD_NIL)
         else if fuel == 0 then Abrupt(env1, Unfinished)
         else (match Eval(h, body, env1, fuel - 1)
               case Normal(env2, _) => Eval(h, e, env2, fuel - 1)
               case Abrupt(env2, why) =>
                 if why == Broke then Normal(env2, WORD_NIL)
                 else if why == Continued then Eval(h, e, env2, fuel - 1)
                 else Abrupt(env2, why))
       case Abrupt(env1, why) => Abrupt(env1, why))
    case Break => Abrupt(env, Broke)
    case Continue => Abrupt(env, Continued)
    case ReturnEarly(e1) =>
      (match Eval(h, e1, env, fuel)
       case Normal(env1, w) => Abrupt(env1, Returned(w))
       case Abrupt(env1, why) => Abrupt(env1, why))
    case Try(body, x, handler) =>
      (match Eval(h, body, env, fuel)
       case Normal(env1, w) =>
         if IsError(w) then Trim(Eval(h, handler, env1 + [Binding(x, false, w)], fuel), |env|)
         else Normal(env1, w)
       case Abrupt(env1, why) =>
         if why.Failed? then Trim(Eval(h, handler, env1 + [Binding(x, false, why.w)], fuel), |env|)
         else Abrupt(env1, why))
    case Scope(stmts) => Trim(EvalStmts(h, stmts, env, fuel), |env|)
  }

  function EvalFold(h: Host, fn: string, args: Exprs, acc: Word, env: Env, fuel: nat): Result<Word>
    decreases fuel, args
  {
    match args
    case NoExprs => Normal(env, acc)
    case MoreExprs(e, rest) =>
      match Eval(h, e, env, fuel)
      case Normal(env1, w) => EvalFold(h, fn, rest, Call(h, fn, [acc, w]), env1, fuel)
      case Abrupt(env1, why) => Abrupt(env1, why)
  }

  function EvalArgs(h: Host, args: Exprs, env: Env, fuel: nat): Result<seq<Word>>
    decreases fuel, args
  {
    match args
    case NoExprs => Normal(env, [])
    case MoreExprs(e, rest) =>
      match Eval(h, e, env, fuel)
      case Abrupt(env1, why) => Abrupt(env1, why)
      case Normal(env1, w) =>
        match EvalArgs(h, rest, env1, fuel)
        case Normal(env2, ws) => Normal(env2, [w] + ws)
        case Abrupt(env2, why) => Abrupt(env2, why)
  }

  function EvalStmt(h: Host, s: Stmt, env: Env, fuel: nat): Result<Word>
    decreases fuel, s
  {
    match Eval(h, s.e, env, fuel)
    case Abrupt(env1, why) => Abrupt(env1, why)
    case Normal(env1, w) =>
      match s
      case Do(_) => Normal(env1, w)
      case Def(x, _) => Normal(env1 + [Binding(x, false, w)], w)
      case Mut(x, _) =>
        var i := Find(env1, x);
        if i >= 0 && env1[i].mutable then Normal(Assign(env1, i, w), w)
        else Normal(env1 + [Binding(x, true, w)], w)
      case Set(x, _) =>
        var i := Find(env1, x);
        if i >= 0 && env1[i].mutable then Normal(Assign(env1, i, w), w) else Abrupt(env1, Wrong)
  }

  /** A statement that is not the last and not a binding ends the block early when its value is an error. */
  function EvalStmts(h: Host, stmts: Stmts, env: Env, fuel: nat): Result<Word>
    decreases fuel, stmts
  {
    match stmts
    case NoStmts => Normal(env, I32Word(0))
    case MoreStmts(s, rest) =>
      match EvalStmt(h, s, env, fuel)
      case Abrupt(env1, why) => Abrupt(env1, why)
      case Normal(env1, w) =>
        if rest == NoStmts then Normal(env1, w)
        else if !Binds(s) && IsError(w) then Abrupt(env1, Failed(w))
        else EvalStmts(h, rest, env1, fuel)
  }

  /** The bare words as numbers, and which of them are true. */
  lemma BareWords()
    ensures BareWord(TrueWord) == 0x0100_0000_0000_0001 && BareWord(FalseWord) == 0x0100_0000_0000_0000 && BareWord(NilWord) == 0
    ensures forall w: Word :: !Truthy(w) <==> w == 0 || w == 0x0100_0000_0000_0000
    ensures forall b: bool :: BoolWord(b) == BareWord(if b then TrueWord else FalseWord)
  {
  }

  /** An error value ends a block when it is the value of an expression statement before the last; bound to a name
      it does not, and the last statement's is the block's value. */
  lemma ErrorStatements(h: Host, s: Stmt, rest: Stmts, env: Env, fuel: nat)
    requires EvalStmt(h, s, env, fuel).Normal? && IsError(EvalStmt(h, s, env, fuel).val)
    ensures var r, all := EvalStmt(h, s, env, fuel), EvalStmts(h, MoreStmts(s, rest), env, fuel);
      && (rest == NoStmts ==> all == r)
      && (rest != NoStmts && s.Do? ==> all == Abrupt(r.env, Failed(r.val)))
      && (rest != NoStmts && !s.Do? ==> all == EvalStmts(h, rest, r.env, fuel))
  {
  }

  /** A function body: its value, an error that escaped, or an early return. */
  function Answer(r: Result<Word>): (w: Word) {
    match r
    case Normal(_, v) => v
    case Abrupt(_, Failed(v)) => v
    case Abrupt(_, Returned(v)) => v
    case _ => WORD_NIL
  }

  predicate Finishes(r: Result<Word>) {
    r.Normal? || r.why.Failed? || r.why.Returned?
  }
}
