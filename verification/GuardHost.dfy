/** The inline guard against the numeric tower: a host whose operators are the tower's operations on
    tagged values answers, on plain i32s, exactly what the guard computes inline. */
module GuardHost {
  import opened MachineWords
  import opened Bits
  import opened WordArith
  import Ir
  import opened Source
  import BigInt
  import DynInt

  type Value = BigInt.Value

  /** The words of a value: an inline integer or a boolean is its payload under its tag; anything else is
      a cell, whose word says nothing. */
  predicate Stands(w: Word, r: Value) {
    && (r == BigInt.Plain(r.payload) && r.payload.Inline? ==> w == I32Word(r.payload.v as int))
    && (r == BigInt.Plain(r.payload) && r.payload.Boolean? ==> w == BoolWord(r.payload.b))
  }

  function Comparison(h: Head): DynInt.CmpOp {
    match h
    case LessEq => DynInt.Le
    case Greater => DynInt.Gt
    case GreaterEq => DynInt.Ge
    case EqEq => DynInt.Eq
    case BangEq => DynInt.Ne
    case _ => DynInt.Lt
  }

  function Wrapping(h: Head): DynInt.WrapOp {
    match h
    case MinusPct => DynInt.WrapSub
    case StarPct => DynInt.WrapMul
    case _ => DynInt.WrapAdd
  }

  /** What the tower's operation for each operator promises of its result. */
  ghost predicate TowerGives(h: Head, r: Value, a: Value, b: Value) {
    var x, y := BigInt.IntOf(a.payload), BigInt.IntOf(b.payload);
    var ok := DynInt.Computable(a, b);
    match h
    case Plus => if ok then DynInt.ExactFrom(r, x + y, a, b) else DynInt.Refused(r, a, b)
    case Minus => if ok then DynInt.ExactFrom(r, x - y, a, b) else DynInt.Refused(r, a, b)
    case Star => if ok then DynInt.ExactFrom(r, x * y, a, b) else DynInt.Refused(r, a, b)
    case Slash => if ok then DynInt.DividedBy(r, a, b, false) else DynInt.Refused(r, a, b)
    case Percent => if ok then DynInt.DividedBy(r, a, b, true) else DynInt.Refused(r, a, b)
    case PlusPct => r == DynInt.WrapValues(DynInt.WrapAdd, a, b)
    case MinusPct => r == DynInt.WrapValues(DynInt.WrapSub, a, b)
    case StarPct => r == DynInt.WrapValues(DynInt.WrapMul, a, b)
    case _ =>
      ok ==> r == BigInt.Value(BigInt.Boolean(DynInt.Holds(Comparison(h), x, y)), false, a.tainted || b.tainted,
                               a.secret || b.secret)
  }

  /** Every operator runs the tower's code. */
  method RunTower(h: Head, a: Value, b: Value) returns (r: Value)
    requires DynInt.Good(a) && DynInt.Good(b)
    ensures TowerGives(h, r, a, b)
  {
    hide DynInt.ExactFrom, DynInt.Refused, DynInt.DividedBy, DynInt.WrapValues, DynInt.Good;
    match h {
      case Plus => r := DynInt.AddValues(a, b);
      case Minus => r := DynInt.SubValues(a, b);
      case Star => r := DynInt.MulValues(a, b);
      case Slash => r := DynInt.DivValues(a, b);
      case Percent => r := DynInt.ModValues(a, b);
      case PlusPct => r := DynInt.WrapValues(DynInt.WrapAdd, a, b);
      case MinusPct => r := DynInt.WrapValues(DynInt.WrapSub, a, b);
      case StarPct => r := DynInt.WrapValues(DynInt.WrapMul, a, b);
      case EqEq => r := DynInt.EqValues(a, b, true);
      case BangEq => r := DynInt.EqValues(a, b, false);
      case _ => r := DynInt.OrderValues(Comparison(h), a, b);
    }
  }

  /** What each runtime function computes of two integers, by its name. */
  lemma NamesDenote(h: Head, r: Value, a: Value, b: Value)
    requires TowerGives(h, r, a, b) && DynInt.Computable(a, b)
    ensures var fn, x, y := RuntimeFn(h), BigInt.IntOf(a.payload), BigInt.IntOf(b.payload);
      && (fn == "jacl_add" ==> DynInt.ExactFrom(r, x + y, a, b))
      && (fn == "jacl_sub" ==> DynInt.ExactFrom(r, x - y, a, b))
      && (fn == "jacl_mul" ==> DynInt.ExactFrom(r, x * y, a, b))
      && (fn == "jacl_div" ==> DynInt.DividedBy(r, a, b, false))
      && (fn == "jacl_mod" ==> DynInt.DividedBy(r, a, b, true))
      && (fn == "jacl_wrap_add" ==> r == DynInt.WrapValues(DynInt.WrapAdd, a, b))
      && (fn == "jacl_wrap_sub" ==> r == DynInt.WrapValues(DynInt.WrapSub, a, b))
      && (fn == "jacl_wrap_mul" ==> r == DynInt.WrapValues(DynInt.WrapMul, a, b))
      && (fn == "jacl_lt" ==> r.payload == BigInt.Boolean(x < y)) && (fn == "jacl_le" ==> r.payload == BigInt.Boolean(x <= y))
      && (fn == "jacl_gt" ==> r.payload == BigInt.Boolean(x > y)) && (fn == "jacl_ge" ==> r.payload == BigInt.Boolean(x >= y))
      && (fn == "jacl_eq" ==> r.payload == BigInt.Boolean(x == y)) && (fn == "jacl_ne" ==> r.payload == BigInt.Boolean(x != y))
      && fn in {"jacl_add", "jacl_sub", "jacl_mul", "jacl_div", "jacl_mod", "jacl_wrap_add", "jacl_wrap_sub", "jacl_wrap_mul",
                "jacl_lt", "jacl_le", "jacl_gt", "jacl_ge", "jacl_eq", "jacl_ne"}
  {
    hide DynInt.ExactFrom, DynInt.DividedBy, DynInt.WrapValues, BigInt.IntOf, DynInt.Computable;
  }

  function Small(x: int): Value
    requires FitsI32(x)
  {
    BigInt.Plain(BigInt.Inline(x as i32))
  }

  lemma SameDivision(x: int, y: int)
    requires y != 0
    ensures DynInt.TruncDiv(x, y) == Ir.Quot(x, y) && DynInt.TruncMod(x, y) == Ir.Rem(x, y)
  {
  }

  /** An exact result in i32 range is the plain inline integer. */
  lemma ExactSmall(r: Value, n: int, x: int, y: int)
    requires FitsI32(x) && FitsI32(y) && FitsI32(n) && DynInt.ExactFrom(r, n, Small(x), Small(y))
    ensures r == Small(n)
  {
    var e :| BigInt.Exact(e, n) && r == BigInt.Value(e.payload, e.error, false, false);
    BigInt.SmallIsExact(Small(n), n);
    DynInt.ExactUnique(e, Small(n), n);
  }

  lemma WrapSmall(h: Head, x: int, y: int)
    requires FitsI32(x) && FitsI32(y) && h in {PlusPct, MinusPct, StarPct}
    ensures var r := DynInt.WrapValues(Wrapping(h), Small(x), Small(y));
      && r == BigInt.Plain(r.payload) && r.payload.Inline?
      && I32Word(r.payload.v as int) == InlineAnswer(h, x, y)
  {
    var r := DynInt.WrapValues(Wrapping(h), Small(x), Small(y));
    var n := DynInt.Apply(Wrapping(h), x, y);
    SameLowBits(r.payload.v as int, n);
  }

  lemma SameLowBits(a: int, n: int)
    requires (a - n) % 0x1_0000_0000 == 0
    ensures Cut(a, W32) == Cut(n, W32)
  {
    Euclid(a - n, 0x1_0000_0000);
    CutShift(n, (a - n) / 0x1_0000_0000, W32);
  }

  lemma InlineIsTower(h: Head, x: int, y: int, r: Value, w: Word)
    requires FitsI32(x) && FitsI32(y) && Inline(h, x, y) && TowerGives(h, r, Small(x), Small(y)) && Stands(w, r)
    ensures w == InlineAnswer(h, x, y)
  {
    hide DynInt.ExactFrom, DynInt.Refused, DynInt.WrapValues;
    match h
    case Plus => ExactSmall(r, x + y, x, y);
    case Minus => ExactSmall(r, x - y, x, y);
    case Star => ExactSmall(r, x * y, x, y);
    case Slash =>
      SameDivision(x, y);
      QuotRange(x, y, HALF32);
      ExactSmall(r, Ir.Quot(x, y), x, y);
    case Percent =>
      SameDivision(x, y);
      QuotRange(x, y, HALF32);
      ExactSmall(r, Ir.Rem(x, y), x, y);
    case PlusPct => WrapSmall(h, x, y);
    case MinusPct => WrapSmall(h, x, y);
    case StarPct => WrapSmall(h, x, y);
    case _ =>
  }

  /** On two plain i32s, every operator's runtime function answers with a word of a value the tower's
      operation can return. */
  ghost predicate TowerHost(host: Host) {
    && (forall fn: string, args: seq<Word> :: WellTagged(host.rt(fn, args)))
    && (forall h: Head, x: int, y: int :: FitsI32(x) && FitsI32(y) ==> Answers(host, h, x, y))
  }

  ghost predicate Answers(host: Host, h: Head, x: int, y: int)
    requires FitsI32(x) && FitsI32(y)
  {
    exists r: Value :: TowerGives(h, r, Small(x), Small(y)) && Stands(Call(host, RuntimeFn(h), [I32Word(x), I32Word(y)]), r)
  }

  /** What lowering relies on holds of the tower, so every lowering theorem applies to it. */
  lemma TowerIsHost(host: Host)
    requires TowerHost(host)
    ensures HostOk(host)
  {
    hide TowerGives, Inline, InlineAnswer, Stands;
    forall h: Head, x: int, y: int | FitsI32(x) && FitsI32(y) && Inline(h, x, y)
      ensures Call(host, RuntimeFn(h), [I32Word(x), I32Word(y)]) == InlineAnswer(h, x, y)
    {
      var w := Call(host, RuntimeFn(h), [I32Word(x), I32Word(y)]);
      assert Answers(host, h, x, y);
      var r: Value :| TowerGives(h, r, Small(x), Small(y)) && Stands(w, r);
      InlineIsTower(h, x, y, r, w);
    }
  }

  // ---- such a host exists ----

  /** The tower's result on two plain i32s. */
  function SmallResult(h: Head, x: int, y: int): Value
    requires FitsI32(x) && FitsI32(y)
  {
    match h
    case Plus => BigInt.IntResult((x + y) as i64)
    case Minus => BigInt.IntResult((x - y) as i64)
    case Star => ProductInI64(x, y); BigInt.IntResult((x * y) as i64)
    case Slash => if y == 0 then BigInt.DOMAIN_ERROR else QuotientInI64(x, y); BigInt.IntResult(Ir.Quot(x, y) as i64)
    case Percent => if y == 0 then BigInt.DOMAIN_ERROR else QuotientInI64(x, y); BigInt.IntResult(Ir.Rem(x, y) as i64)
    case PlusPct => DynInt.WrapValues(DynInt.WrapAdd, Small(x), Small(y))
    case MinusPct => DynInt.WrapValues(DynInt.WrapSub, Small(x), Small(y))
    case StarPct => DynInt.WrapValues(DynInt.WrapMul, Small(x), Small(y))
    case _ => BigInt.Plain(BigInt.Boolean(DynInt.Holds(Comparison(h), x, y)))
  }

  lemma ProductInI64(x: int, y: int)
    requires FitsI32(x) && FitsI32(y)
    ensures DynInt.InI64(x * y)
  {
    DynInt.InlineProduct(x, y);
  }

  lemma QuotientInI64(x: int, y: int)
    requires FitsI32(x) && FitsI32(y) && y != 0
    ensures -0x8000_0000 <= Ir.Quot(x, y) <= 0x8000_0000 && -0x8000_0000 <= Ir.Rem(x, y) <= 0x8000_0000
  {
    if y == -1 {
      assert Ir.Quot(x, y) == -x && Ir.Rem(x, y) == 0;
    } else {
      QuotRange(x, y, HALF32);
    }
  }

  lemma SmallResultIsTower(h: Head, x: int, y: int)
    requires FitsI32(x) && FitsI32(y)
    ensures TowerGives(h, SmallResult(h, x, y), Small(x), Small(y))
  {
    hide DynInt.ExactFrom, DynInt.WrapValues, DynInt.Refused, BigInt.IntResult;
    var a, b := Small(x), Small(y);
    var r := SmallResult(h, x, y);
    assert DynInt.PropFlags(r, a, b) == r;
    match h
    case Plus => DynInt.BoxedExact(x + y, a, b);
    case Minus => DynInt.BoxedExact(x - y, a, b);
    case Star =>
      ProductInI64(x, y);
      DynInt.BoxedExact(x * y, a, b);
    case Slash =>
      if y != 0 {
        QuotientInI64(x, y);
        SameDivision(x, y);
        DynInt.BoxedExact(Ir.Quot(x, y), a, b);
      }
    case Percent =>
      if y != 0 {
        QuotientInI64(x, y);
        SameDivision(x, y);
        DynInt.BoxedExact(Ir.Rem(x, y), a, b);
      }
    case _ =>
  }

  function WordFor(r: Value): Word {
    if r.payload.Inline? then I32Word(r.payload.v as int)
    else if r.payload.Boolean? then BoolWord(r.payload.b)
    else WORD_NIL
  }

  /** The operator of a runtime function's name. */
  function HeadOf(fn: string): Head {
    if fn == "jacl_add" then Plus else if fn == "jacl_sub" then Minus else if fn == "jacl_mul" then Star
    else if fn == "jacl_div" then Slash else if fn == "jacl_mod" then Percent
    else if fn == "jacl_wrap_add" then PlusPct else if fn == "jacl_wrap_sub" then MinusPct
    else if fn == "jacl_wrap_mul" then StarPct else if fn == "jacl_lt" then Less else if fn == "jacl_le" then LessEq
    else if fn == "jacl_gt" then Greater else if fn == "jacl_ge" then GreaterEq else if fn == "jacl_eq" then EqEq
    else BangEq
  }

  function SmallOf(w: Word): (x: int)
    ensures FitsI32(x)
  {
    SignedRoundTrip(Cut(w, W32), W32);
    AsSigned(Cut(w, W32), W32)
  }

  lemma SmallOfWord(x: int)
    requires FitsI32(x)
    ensures SmallOf(I32Word(x)) == x
  {
    var c := Cut(x, W32);
    CutShift(c, 0x200_0000, W32);
    CutSmall(c, W32);
    SignedOfCut(x, W32);
  }

  function SampleAnswer(fn: string, args: seq<Word>): Word {
    if |args| == 3 then WordFor(SmallResult(HeadOf(fn), SmallOf(args[1]), SmallOf(args[2]))) else WORD_NIL
  }

  /** The hypothesis can be met: a host that computes on plain i32s as the tower does. */
  lemma TowerHostExists(sp: Word) returns (host: Host)
    ensures TowerHost(host) && host.sp == sp
  {
    hide TowerGives, SmallResult, SmallOf, I32Word;
    host := Host(SampleAnswer, sp);
    forall fn: string, args: seq<Word>
      ensures WellTagged(host.rt(fn, args))
    {
      WordForTagged(if |args| == 3 then SmallResult(HeadOf(fn), SmallOf(args[1]), SmallOf(args[2])) else BigInt.TYPE_ERROR);
    }
    forall h: Head, x: int, y: int | FitsI32(x) && FitsI32(y)
      ensures Answers(host, h, x, y)
    {
      var r := SmallResult(h, x, y);
      SmallResultIsTower(h, x, y);
      SmallOfWord(x);
      SmallOfWord(y);
      HeadOfName(h);
      WordForTagged(r);
      assert Call(host, RuntimeFn(h), [I32Word(x), I32Word(y)]) == WordFor(r);
    }
  }

  lemma HeadOfName(h: Head)
    ensures HeadOf(RuntimeFn(h)) == h
  {
  }

  lemma WordForTagged(r: Value)
    ensures WellTagged(WordFor(r)) && Stands(WordFor(r), r)
  {
    if r.payload.Inline? {
      Quotient(I32Word(r.payload.v as int), TAG_UNIT, Cut(r.payload.v as int, W32), 2);
    }
  }
}
