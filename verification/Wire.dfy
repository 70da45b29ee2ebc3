/** The instruction, terminator, block and function encoding (codegen/irbuilder.c), and a decoder
    written from the opcode table. */
module Wire {
  import opened MachineWords
  import opened Leb

  /** A function type; a value type is its ordinal, 0 to 5. */
  datatype Sig = Sig(params: seq<nat>, results: seq<nat>)

  /** A name ends at its first zero byte, so it holds none. */
  type Name = s: Bytes | 0 !in s

  datatype Import = Import(name: Name, typeIdx: nat)

  /** The type and import sections. */
  datatype Tables = Tables(types: seq<Sig>, imports: seq<Import>)

  datatype Inst =
    | ConstI32(c32: int)
    | ConstI64(c64: int)
    | IntBin(is32: bool, op: nat, a: nat, x: nat)
    | IntCmp(is32: bool, op: nat, a: nat, x: nat)
    | Load(op: nat, addr: nat, offset: nat, align: nat)
    | Store(op: nat, addr: nat, value: nat, offset: nat, align: nat)
    | Call(callee: nat, args: seq<nat>)
    | CallImport(name: Name, sig: Sig, handle: nat, args: seq<nat>)
    | RefFunc(callee: nat)
    | DataSelf(offset: nat)
    | Convert(op: nat, a: nat)
    | CallIndirect(sig: Sig, addr: nat, args: seq<nat>)
    | Suspend(a: nat)

  datatype Term =
    | Br(target: nat, args: seq<nat>)
    | BrIf(cond: nat, thn: nat, thnArgs: seq<nat>, els: nat, elsArgs: seq<nat>)
    | Return(vals: seq<nat>)
    | ReturnCall(func: nat, args: seq<nat>)
    | Unset

  datatype Block = Block(params: seq<nat>, insts: seq<Inst>, term: Term)
  datatype Func = Func(params: seq<nat>, results: seq<nat>, blocks: seq<Block>)

  // ---- what can be encoded ----

  predicate TypesOk(ts: seq<nat>) {
    forall i :: 0 <= i < |ts| ==> ts[i] < 6
  }

  predicate SigOk(s: Sig) {
    TypesOk(s.params) && TypesOk(s.results)
  }

  /** Opcode indices are those of their enumerations. */
  predicate InstOk(i: Inst) {
    match i
    case IntBin(_, op, _, _) => op < 15
    case IntCmp(_, op, _, _) => op < 10
    case Load(op, _, _, _) => op < 14
    case Store(op, _, _, _, _) => op < 9
    case Convert(op, _) => op < 3
    case CallImport(_, sig, _, _) => SigOk(sig)
    case CallIndirect(sig, _, _) => SigOk(sig)
    case _ => true
  }

  /** Position of the first occurrence, or the length. */
  function PosOf<T(==)>(xs: seq<T>, x: T): (r: nat)
    ensures r <= |xs| && (x in xs ==> r < |xs| && xs[r] == x) && (x !in xs ==> r == |xs|)
  {
    if xs == [] then 0 else if xs[0] == x then 0 else 1 + PosOf(xs[1..], x)
  }

  /** The tables hold what the instruction refers to. */
  predicate Known(i: Inst, t: Tables) {
    match i
    case CallImport(name, sig, _, _) => sig in t.types && Import(name, PosOf(t.types, sig)) in t.imports
    case CallIndirect(sig, _, _) => sig in t.types
    case _ => true
  }

  // ---- writing ----

  function Byte(n: nat): u8 {
    (n % 256) as u8
  }

  function TypeTag(n: nat): Bytes {
    [Byte(n)]
  }

  function Types(ts: seq<nat>): Bytes {
    WriteList(ts, TypeTag)
  }

  function Idxs(ids: seq<nat>): Bytes {
    WriteList(ids, Uleb)
  }

  function Opcode(i: Inst): u8 {
    match i
    case ConstI32(_) => 0x10
    case ConstI64(_) => 0x11
    case IntBin(is32, _, _, _) => if is32 then 0x2F else 0x4F
    case IntCmp(is32, _, _, _) => if is32 then 0x3B else 0x5B
    case Load(op, _, _, _) => Byte(0xF0 + op)
    case Store(op, _, _, _, _) => Byte(0x84 + op)
    case Call(_, _) => 0x73
    case CallImport(_, _, _, _) => 0x7B
    case RefFunc(_) => 0x75
    case DataSelf(_) => 0x07
    case Convert(op, _) => if op == 0 then 0x60 else if op == 1 then 0x61 else 0x62
    case CallIndirect(_, _, _) => 0x74
    case Suspend(_) => 0xCC
  }

  function Fields(i: Inst, t: Tables): Bytes {
    match i
    case ConstI32(c) => Sleb(c)
    case ConstI64(c) => Sleb(c)
    case IntBin(_, op, a, x) => [Byte(op)] + (Uleb(a) + Uleb(x))
    case IntCmp(_, op, a, x) => [Byte(op)] + (Uleb(a) + Uleb(x))
    case Load(_, addr, offset, _) => Uleb(addr) + Uleb(offset)
    case Store(_, addr, value, offset, _) => Uleb(addr) + Uleb(value) + Uleb(offset)
    case Call(callee, args) => Uleb(callee) + Idxs(args)
    case CallImport(name, sig, handle, args) =>
      var ti := PosOf(t.types, sig);
      Uleb(PosOf(t.imports, Import(name, ti))) + Uleb(ti) + Uleb(handle) + Idxs(args)
    case RefFunc(callee) => Uleb(callee)
    case DataSelf(offset) => Uleb(offset) + [0]
    case Convert(_, a) => Uleb(a)
    case CallIndirect(sig, addr, args) => Uleb(PosOf(t.types, sig)) + Uleb(addr) + Idxs(args)
    case Suspend(a) => Uleb(a)
  }

  function EncInst(i: Inst, t: Tables): Bytes {
    [Opcode(i)] + Fields(i, t)
  }

  function TermCode(t: Term): u8 {
    match t
    case Br(_, _) => 0x80
    case BrIf(_, _, _, _, _) => 0x81
    case Return(_) => 0x83
    case ReturnCall(_, _) => 0x85
    case Unset => 0x8F
  }

  function TermFields(t: Term): Bytes {
    match t
    case Br(target, args) => Uleb(target) + Idxs(args)
    case BrIf(c, x, xs, y, ys) => Uleb(c) + Uleb(x) + Idxs(xs) + Uleb(y) + Idxs(ys)
    case Return(vals) => Idxs(vals)
    case ReturnCall(f, args) => Uleb(f) + Idxs(args)
    case Unset => []
  }

  function EncTerm(t: Term): Bytes {
    [TermCode(t)] + TermFields(t)
  }

  /** The block at position n: its parent is the entry, n blocks back; it captures nothing. */
  function EncBlock(b: Block, n: nat, t: Tables): Bytes {
    Uleb(n) + Types(b.params) + Uleb(0) + WriteList(b.insts, (i: Inst) => EncInst(i, t)) + EncTerm(b.term)
  }

  function EncBlocks(bs: seq<Block>, n: nat, t: Tables): Bytes {
    if bs == [] then [] else EncBlock(bs[0], n, t) + EncBlocks(bs[1..], n + 1, t)
  }

  function EncFunc(f: Func, t: Tables): Bytes {
    Types(f.params) + Types(f.results) + Uleb(|f.blocks|) + EncBlocks(f.blocks, 0, t)
  }

  // ---- reading ----

  function ReadType(s: Bytes): Read<nat> {
    if s == [] || s[0] >= 6 then Malformed else Got(s[0] as nat, s[1..])
  }

  function ReadTypes(s: Bytes): Read<seq<nat>> {
    ReadList(ReadType, s)
  }

  function ReadIdxs(s: Bytes): Read<seq<nat>> {
    ReadList(ReadUleb, s)
  }

  /** Two and three numbers in a row. */
  function Read2(s: Bytes): Read<(nat, nat)> {
    match ReadUleb(s)
    case Malformed => Malformed
    case Got(a, r) =>
      match ReadUleb(r)
      case Malformed => Malformed
      case Got(b, r2) => Got((a, b), r2)
  }

  function Read3(s: Bytes): Read<(nat, nat, nat)> {
    match ReadUleb(s)
    case Malformed => Malformed
    case Got(a, r) =>
      match Read2(r)
      case Malformed => Malformed
      case Got((b, c), r2) => Got((a, b, c), r2)
  }

  function ReadArgs(s: Bytes): Read<(nat, seq<nat>)> {
    match ReadUleb(s)
    case Malformed => Malformed
    case Got(a, r) =>
      match ReadIdxs(r)
      case Malformed => Malformed
      case Got(ids, r2) => Got((a, ids), r2)
  }

  function DecBin(is32: bool, s: Bytes): Read<Inst> {
    if s == [] || s[0] >= 15 then Malformed
    else match Read2(s[1..])
         case Malformed => Malformed
         case Got((a, x), r) => Got(IntBin(is32, s[0] as nat, a, x), r)
  }

  function DecCmp(is32: bool, s: Bytes): Read<Inst> {
    if s == [] || s[0] >= 10 then Malformed
    else match Read2(s[1..])
         case Malformed => Malformed
         case Got((a, x), r) => Got(IntCmp(is32, s[0] as nat, a, x), r)
  }

  function DecImport(s: Bytes, t: Tables): Read<Inst> {
    match Read3(s)
    case Malformed => Malformed
    case Got((idx, ti, handle), r) =>
      match ReadIdxs(r)
      case Malformed => Malformed
      case Got(args, r2) =>
        if idx < |t.imports| && ti < |t.types| && t.imports[idx].typeIdx == ti
        then Got(CallImport(t.imports[idx].name, t.types[ti], handle, args), r2) else Malformed
  }

  function DecIndirect(s: Bytes, t: Tables): Read<Inst> {
    match Read2(s)
    case Malformed => Malformed
    case Got((ti, addr), r) =>
      match ReadIdxs(r)
      case Malformed => Malformed
      case Got(args, r2) => if ti < |t.types| then Got(CallIndirect(t.types[ti], addr, args), r2) else Malformed
  }

  function DecDataSelf(s: Bytes): Read<Inst> {
    match ReadUleb(s)
    case Malformed => Malformed
    case Got(offset, r) => if r != [] && r[0] == 0 then Got(DataSelf(offset), r[1..]) else Malformed
  }

  function Wrap<A, B>(r: Read<A>, f: A -> B): Read<B> {
    match r
    case Malformed => Malformed
    case Got(x, rest) => Got(f(x), rest)
  }

  /** In instruction position: a byte between 0x84 and 0x8C is a store. */
  function DecFields(op: nat, r: Bytes, t: Tables): Read<Inst> {
    if op == 0x10 then Wrap(ReadSleb(r), (c: int) => ConstI32(c))
    else if op == 0x11 then Wrap(ReadSleb(r), (c: int) => ConstI64(c))
    else if op == 0x2F then DecBin(true, r)
    else if op == 0x4F then DecBin(false, r)
    else if op == 0x3B then DecCmp(true, r)
    else if op == 0x5B then DecCmp(false, r)
    else if 0xF0 <= op < 0xFE then Wrap(Read2(r), (p: (nat, nat)) => Load(op - 0xF0, p.0, p.1, 0))
    else if 0x84 <= op < 0x8D then Wrap(Read3(r), (p: (nat, nat, nat)) => Store(op - 0x84, p.0, p.1, p.2, 0))
    else if op == 0x73 then Wrap(ReadArgs(r), (p: (nat, seq<nat>)) => Call(p.0, p.1))
    else if op == 0x7B then DecImport(r, t)
    else if op == 0x75 then Wrap(ReadUleb(r), (n: nat) => RefFunc(n))
    else if op == 0x07 then DecDataSelf(r)
    else if 0x60 <= op < 0x63 then Wrap(ReadUleb(r), (n: nat) => Convert(op - 0x60, n))
    else if op == 0x74 then DecIndirect(r, t)
    else if op == 0xCC then Wrap(ReadUleb(r), (n: nat) => Suspend(n))
    else Malformed
  }

  function DecInst(s: Bytes, t: Tables): Read<Inst> {
    if s == [] then Malformed else DecFields(s[0] as nat, s[1..], t)
  }

  function DecBrIf(s: Bytes): Read<Term> {
    match ReadUleb(s)
    case Malformed => Malformed
    case Got(c, r) =>
      match ReadArgs(r)
      case Malformed => Malformed
      case Got(p, r2) =>
        match ReadArgs(r2)
        case Malformed => Malformed
        case Got(q, r3) => Got(BrIf(c, p.0, p.1, q.0, q.1), r3)
  }

  /** In terminator position the same bytes mean jumps and returns. */
  function DecTermFields(op: nat, r: Bytes): Read<Term> {
    if op == 0x80 then Wrap(ReadArgs(r), (p: (nat, seq<nat>)) => Br(p.0, p.1))
    else if op == 0x81 then DecBrIf(r)
    else if op == 0x83 then Wrap(ReadIdxs(r), (ids: seq<nat>) => Return(ids))
    else if op == 0x85 then Wrap(ReadArgs(r), (p: (nat, seq<nat>)) => ReturnCall(p.0, p.1))
    else if op == 0x8F then Got(Unset, r)
    else Malformed
  }

  function DecTerm(s: Bytes): Read<Term> {
    if s == [] then Malformed else DecTermFields(s[0] as nat, s[1..])
  }

  function DecBlock(s: Bytes, n: nat, t: Tables): Read<Block> {
    match ReadUleb(s)
    case Malformed => Malformed
    case Got(parent, r) =>
      if parent != n then Malformed else
        match ReadTypes(r)
        case Malformed => Malformed
        case Got(params, r1) =>
          match ReadUleb(r1)
          case Malformed => Malformed
          case Got(captures, r2) =>
            if captures != 0 then Malformed else DecBody(params, r2, t)
  }

  function DecBody(params: seq<nat>, s: Bytes, t: Tables): Read<Block> {
    match ReadList((b: Bytes) => DecInst(b, t), s)
    case Malformed => Malformed
    case Got(insts, r) => Wrap(DecTerm(r), (x: Term) => Block(params, insts, x))
  }

  function DecBlocks(count: nat, s: Bytes, n: nat, t: Tables): Read<seq<Block>> {
    if count == 0 then Got([], s)
    else match DecBlock(s, n, t)
         case Malformed => Malformed
         case Got(b, r) => Wrap(DecBlocks(count - 1, r, n + 1, t), (bs: seq<Block>) => [b] + bs)
  }

  function DecFunc(s: Bytes, t: Tables): Read<Func> {
    match ReadTypes(s)
    case Malformed => Malformed
    case Got(params, r) =>
      match ReadTypes(r)
      case Malformed => Malformed
      case Got(results, r1) =>
        match ReadUleb(r1)
        case Malformed => Malformed
        case Got(n, r2) => Wrap(DecBlocks(n, r2, 0, t), (bs: seq<Block>) => Func(params, results, bs))
  }

  // ---- round trips ----

  /** Alignment is the one thing the wire does not carry. */
  function Unaligned(i: Inst): Inst {
    match i
    case Load(op, addr, offset, _) => Load(op, addr, offset, 0)
    case Store(op, addr, value, offset, _) => Store(op, addr, value, offset, 0)
    case _ => i
  }

  function Same(n: nat): nat {
    n
  }

  lemma TypesRoundTrip(ts: seq<nat>, rest: Bytes)
    requires TypesOk(ts)
    ensures ReadTypes(Types(ts) + rest) == Got(ts, rest)
  {
    forall i | 0 <= i < |ts|
      ensures Inverse(TypeTag, ReadType, Same, ts[i])
    {
      forall r: Bytes
        ensures ReadType(TypeTag(ts[i]) + r) == Got(ts[i], r)
      {
        assert (TypeTag(ts[i]) + r)[1..] == r;
      }
    }
    ListRoundTrip(ts, TypeTag, ReadType, Same, rest);
    assert MapSeq(ts, Same) == ts;
  }

  lemma IdxsRoundTrip(ids: seq<nat>, rest: Bytes)
    ensures ReadIdxs(Idxs(ids) + rest) == Got(ids, rest)
  {
    forall i | 0 <= i < |ids|
      ensures Inverse(Uleb, ReadUleb, Same, ids[i])
    {
      forall r: Bytes
        ensures ReadUleb(Uleb(ids[i]) + r) == Got(ids[i], r)
      {
        UlebRoundTrip(ids[i], r);
      }
    }
    ListRoundTrip(ids, Uleb, ReadUleb, Same, rest);
    assert MapSeq(ids, Same) == ids;
  }

  lemma Both(a: nat, b: nat, rest: Bytes)
    ensures Read2(Uleb(a) + Uleb(b) + rest) == Got((a, b), rest)
  {
    hide Uleb, ReadUleb;
    assert Uleb(a) + Uleb(b) + rest == Uleb(a) + (Uleb(b) + rest);
    UlebRoundTrip(a, Uleb(b) + rest);
    UlebRoundTrip(b, rest);
  }

  lemma Three(a: nat, b: nat, c: nat, rest: Bytes)
    ensures Read3(Uleb(a) + Uleb(b) + Uleb(c) + rest) == Got((a, b, c), rest)
  {
    hide Uleb, ReadUleb;
    assert Uleb(a) + Uleb(b) + Uleb(c) + rest == Uleb(a) + (Uleb(b) + Uleb(c) + rest);
    UlebRoundTrip(a, Uleb(b) + Uleb(c) + rest);
    Both(b, c, rest);
  }

  lemma NumberAndArgs(a: nat, ids: seq<nat>, rest: Bytes)
    ensures ReadArgs(Uleb(a) + Idxs(ids) + rest) == Got((a, ids), rest)
  {
    hide Uleb, ReadUleb, Idxs, ReadIdxs;
    assert Uleb(a) + Idxs(ids) + rest == Uleb(a) + (Idxs(ids) + rest);
    UlebRoundTrip(a, Idxs(ids) + rest);
    IdxsRoundTrip(ids, rest);
  }

  /** Taking one byte off the front. */
  lemma Front(b: u8, body: Bytes, rest: Bytes)
    ensures ([b] + body + rest)[0] == b && ([b] + body + rest)[1..] == body + rest
  {
  }

  lemma BinRoundTrip(cmp: bool, is32: bool, op: nat, a: nat, x: nat, rest: Bytes)
    requires op < if cmp then 10 else 15
    ensures var s := [Byte(op)] + (Uleb(a) + Uleb(x)) + rest;
      if cmp then DecCmp(is32, s) == Got(IntCmp(is32, op, a, x), rest) else DecBin(is32, s) == Got(IntBin(is32, op, a, x), rest)
  {
    hide Uleb, ReadUleb, Read2;
    Front(Byte(op), Uleb(a) + Uleb(x), rest);
    Both(a, x, rest);
  }

  lemma ImportRoundTrip(i: Inst, t: Tables, rest: Bytes)
    requires i.CallImport? && Known(i, t)
    ensures var ti := PosOf(t.types, i.sig);
      DecImport(Uleb(PosOf(t.imports, Import(i.name, ti))) + Uleb(ti) + Uleb(i.handle) + Idxs(i.args) + rest, t) == Got(i, rest)
  {
    hide Uleb, ReadUleb, Idxs, ReadIdxs, PosOf, Read3;
    var ti := PosOf(t.types, i.sig);
    var idx := PosOf(t.imports, Import(i.name, ti));
    var head := Uleb(idx) + Uleb(ti) + Uleb(i.handle);
    assert head + Idxs(i.args) + rest == head + (Idxs(i.args) + rest);
    Three(idx, ti, i.handle, Idxs(i.args) + rest);
    IdxsRoundTrip(i.args, rest);
  }

  lemma IndirectRoundTrip(i: Inst, t: Tables, rest: Bytes)
    requires i.CallIndirect? && Known(i, t)
    ensures DecIndirect(Uleb(PosOf(t.types, i.sig)) + Uleb(i.addr) + Idxs(i.args) + rest, t) == Got(i, rest)
  {
    hide Uleb, ReadUleb, Idxs, ReadIdxs, PosOf, Read2;
    var ti := PosOf(t.types, i.sig);
    assert Uleb(ti) + Uleb(i.addr) + Idxs(i.args) + rest == Uleb(ti) + Uleb(i.addr) + (Idxs(i.args) + rest);
    Both(ti, i.addr, Idxs(i.args) + rest);
    IdxsRoundTrip(i.args, rest);
  }

  lemma DataSelfRoundTrip(offset: nat, rest: Bytes)
    ensures DecDataSelf(Uleb(offset) + [0] + rest) == Got(DataSelf(offset), rest)
  {
    hide Uleb, ReadUleb;
    assert Uleb(offset) + [0] + rest == Uleb(offset) + ([0] + rest);
    UlebRoundTrip(offset, [0] + rest);
    assert ([0] + rest)[1..] == rest;
  }

  lemma ArithFields(i: Inst, t: Tables, rest: Bytes)
    requires InstOk(i) && (i.ConstI32? || i.ConstI64? || i.IntBin? || i.IntCmp?)
    ensures DecFields(Opcode(i) as nat, Fields(i, t) + rest, t) == Got(i, rest)
  {
    hide Uleb, ReadUleb, Sleb, ReadSleb, Idxs, ReadIdxs, PosOf, DecBin, DecCmp, Byte;
    match i
    case ConstI32(c) => SlebRoundTrip(c, rest);
    case ConstI64(c) => SlebRoundTrip(c, rest);
    case IntBin(is32, op, a, x) => BinRoundTrip(false, is32, op, a, x, rest);
    case IntCmp(is32, op, a, x) => BinRoundTrip(true, is32, op, a, x, rest);
  }

  lemma MemoryFields(i: Inst, t: Tables, rest: Bytes)
    requires InstOk(i) && (i.Load? || i.Store?)
    ensures DecFields(Opcode(i) as nat, Fields(i, t) + rest, t) == Got(Unaligned(i), rest)
  {
    hide Uleb, ReadUleb, Read2, Read3;
    match i
    case Load(op, addr, offset, _) => Both(addr, offset, rest);
    case Store(op, addr, value, offset, _) => Three(addr, value, offset, rest);
  }

  lemma CallFields(i: Inst, t: Tables, rest: Bytes)
    requires Known(i, t) && (i.Call? || i.CallImport? || i.CallIndirect?)
    ensures DecFields(Opcode(i) as nat, Fields(i, t) + rest, t) == Got(i, rest)
  {
    hide Uleb, ReadUleb, Idxs, ReadIdxs, PosOf, ReadArgs, DecImport, DecIndirect;
    match i
    case Call(callee, args) => NumberAndArgs(callee, args, rest);
    case CallImport(_, _, _, _) => ImportRoundTrip(i, t, rest);
    case CallIndirect(_, _, _) => IndirectRoundTrip(i, t, rest);
  }

  lemma OtherFields(i: Inst, t: Tables, rest: Bytes)
    requires InstOk(i) && (i.RefFunc? || i.DataSelf? || i.Convert? || i.Suspend?)
    ensures DecFields(Opcode(i) as nat, Fields(i, t) + rest, t) == Got(i, rest)
  {
    hide Uleb, ReadUleb, DecDataSelf;
    match i
    case RefFunc(callee) => UlebRoundTrip(callee, rest);
    case DataSelf(offset) => DataSelfRoundTrip(offset, rest);
    case Convert(op, a) => UlebRoundTrip(a, rest);
    case Suspend(a) => UlebRoundTrip(a, rest);
  }

  /** Each instruction is read back, without its alignment, and nothing after it is touched. */
  lemma InstRoundTrip(i: Inst, t: Tables, rest: Bytes)
    requires InstOk(i) && Known(i, t)
    ensures DecInst(EncInst(i, t) + rest, t) == Got(Unaligned(i), rest)
  {
    hide Opcode, Fields, DecFields, InstOk, Known;
    Front(Opcode(i), Fields(i, t), rest);
    if i.ConstI32? || i.ConstI64? || i.IntBin? || i.IntCmp? {
      ArithFields(i, t, rest);
    } else if i.Load? || i.Store? {
      MemoryFields(i, t, rest);
    } else if i.Call? || i.CallImport? || i.CallIndirect? {
      CallFields(i, t, rest);
    } else {
      OtherFields(i, t, rest);
    }
  }

  lemma BrIfRoundTrip(c: nat, x: nat, xs: seq<nat>, y: nat, ys: seq<nat>, rest: Bytes)
    ensures DecBrIf(Uleb(c) + Uleb(x) + Idxs(xs) + Uleb(y) + Idxs(ys) + rest) == Got(BrIf(c, x, xs, y, ys), rest)
  {
    hide Uleb, ReadUleb, Idxs, ReadArgs;
    var tail := Uleb(y) + Idxs(ys) + rest;
    var mid := Uleb(x) + Idxs(xs) + tail;
    assert Uleb(c) + Uleb(x) + Idxs(xs) + Uleb(y) + Idxs(ys) + rest == Uleb(c) + mid;
    UlebRoundTrip(c, mid);
    NumberAndArgs(x, xs, tail);
    NumberAndArgs(y, ys, rest);
  }

  lemma TermRoundTrip(t: Term, rest: Bytes)
    ensures DecTerm(EncTerm(t) + rest) == Got(t, rest)
  {
    hide TermCode, TermFields, DecTermFields;
    Front(TermCode(t), TermFields(t), rest);
    TermFieldsRoundTrip(t, rest);
  }

  lemma TermFieldsRoundTrip(t: Term, rest: Bytes)
    ensures DecTermFields(TermCode(t) as nat, TermFields(t) + rest) == Got(t, rest)
  {
    hide Uleb, ReadUleb, Idxs, ReadIdxs, ReadArgs, DecBrIf;
    match t
    case Br(target, args) => NumberAndArgs(target, args, rest);
    case BrIf(c, x, xs, y, ys) => BrIfRoundTrip(c, x, xs, y, ys, rest);
    case Return(vals) => IdxsRoundTrip(vals, rest);
    case ReturnCall(f, args) => NumberAndArgs(f, args, rest);
    case Unset => assert [] + rest == rest;
  }

  predicate BlockOk(b: Block, t: Tables) {
    TypesOk(b.params) && forall i :: 0 <= i < |b.insts| ==> InstOk(b.insts[i]) && Known(b.insts[i], t)
  }

  predicate FuncOk(f: Func, t: Tables) {
    TypesOk(f.params) && TypesOk(f.results) && forall i :: 0 <= i < |f.blocks| ==> BlockOk(f.blocks[i], t)
  }

  function UnalignedBlock(b: Block): Block {
    b.(insts := MapSeq(b.insts, Unaligned))
  }

  lemma BodyRoundTrip(b: Block, t: Tables, rest: Bytes)
    requires BlockOk(b, t)
    ensures DecBody(b.params, WriteList(b.insts, (i: Inst) => EncInst(i, t)) + EncTerm(b.term) + rest, t)
         == Got(UnalignedBlock(b), rest)
  {
    hide EncInst, DecInst, EncTerm, DecTerm, WriteList, ReadList, InstOk, Known;
    var w, p := (i: Inst) => EncInst(i, t), (s: Bytes) => DecInst(s, t);
    forall k | 0 <= k < |b.insts|
      ensures Inverse(w, p, Unaligned, b.insts[k])
    {
      forall r: Bytes
        ensures p(w(b.insts[k]) + r) == Got(Unaligned(b.insts[k]), r)
      {
        InstRoundTrip(b.insts[k], t, r);
      }
    }
    var s := WriteList(b.insts, w);
    assert s + EncTerm(b.term) + rest == s + (EncTerm(b.term) + rest);
    ListRoundTrip(b.insts, w, p, Unaligned, EncTerm(b.term) + rest);
    TermRoundTrip(b.term, rest);
  }

  lemma BlockRoundTrip(b: Block, n: nat, t: Tables, rest: Bytes)
    requires BlockOk(b, t)
    ensures DecBlock(EncBlock(b, n, t) + rest, n, t) == Got(UnalignedBlock(b), rest)
  {
    hide Uleb, ReadUleb, Types, ReadTypes, WriteList, EncTerm, DecBody;
    var body := WriteList(b.insts, (i: Inst) => EncInst(i, t)) + EncTerm(b.term) + rest;
    var s1 := Uleb(0) + body;
    var s2 := Types(b.params) + s1;
    assert EncBlock(b, n, t) + rest == Uleb(n) + s2;
    UlebRoundTrip(n, s2);
    TypesRoundTrip(b.params, s1);
    UlebRoundTrip(0, body);
    BodyRoundTrip(b, t, rest);
  }

  lemma {:induction false} BlocksRoundTrip(bs: seq<Block>, n: nat, t: Tables, rest: Bytes)
    requires forall i :: 0 <= i < |bs| ==> BlockOk(bs[i], t)
    ensures DecBlocks(|bs|, EncBlocks(bs, n, t) + rest, n, t) == Got(MapSeq(bs, UnalignedBlock), rest)
    decreases |bs|
  {
    hide EncBlock, DecBlock, BlockOk;
    if bs == [] {
      assert EncBlocks(bs, n, t) + rest == rest;
    } else {
      var more := EncBlocks(bs[1..], n + 1, t) + rest;
      assert EncBlocks(bs, n, t) + rest == EncBlock(bs[0], n, t) + more;
      BlockRoundTrip(bs[0], n, t, more);
      BlocksRoundTrip(bs[1..], n + 1, t, rest);
    }
  }

  /** A whole function is read back from its bytes, but for alignment, and what follows is untouched:
      the encoding is self-delimiting and loses nothing else. */
  lemma FuncRoundTrip(f: Func, t: Tables, rest: Bytes)
    requires FuncOk(f, t)
    ensures DecFunc(EncFunc(f, t) + rest, t) == Got(f.(blocks := MapSeq(f.blocks, UnalignedBlock)), rest)
  {
    hide Uleb, ReadUleb, Types, ReadTypes, EncBlocks, DecBlocks, BlockOk, TypesOk;
    var s2 := EncBlocks(f.blocks, 0, t) + rest;
    var s1 := Uleb(|f.blocks|) + s2;
    var s0 := Types(f.results) + s1;
    assert EncFunc(f, t) + rest == Types(f.params) + s0;
    TypesRoundTrip(f.params, s0);
    TypesRoundTrip(f.results, s1);
    UlebRoundTrip(|f.blocks|, s2);
    BlocksRoundTrip(f.blocks, 0, t, rest);
  }

  /** A store and a tail call can have the same opcode; only their position tells them apart. */
  lemma OpcodesOverlap(addr: nat, value: nat, offset: nat, align: nat, f: nat, args: seq<nat>, t: Tables)
    ensures EncInst(Store(1, addr, value, offset, align), t)[0] == EncTerm(ReturnCall(f, args))[0] == 0x85
  {
  }
}
