/** The serializer itself (codegen/irbuilder.c): a byte buffer, the import table, the pass that fills the
    table and the pass that writes. */
module Writer {
  import opened MachineWords
  import opened Leb
  import opened Wire
  import opened Intern
  import opened HashIndex
  import opened ModuleWire

  // ---- appending piece by piece ----

  lemma Join2(s: Bytes, a: Bytes, b: Bytes)
    ensures s + a + b == s + (a + b)
  {
  }

  lemma Join3(s: Bytes, a: Bytes, b: Bytes, c: Bytes)
    ensures s + a + b + c == s + (a + b + c)
  {
  }

  lemma Join4(s: Bytes, a: Bytes, b: Bytes, c: Bytes, d: Bytes)
    ensures s + a + b + c + d == s + (a + b + c + d)
  {
    Join3(s, a, b, c);
    Join2(s, a + b + c, d);
  }

  lemma Join5(s: Bytes, a: Bytes, b: Bytes, c: Bytes, d: Bytes, e: Bytes)
    ensures s + a + b + c + d + e == s + (a + b + c + d + e)
  {
    Join4(s, a, b, c, d);
    Join2(s, a + b + c + d, e);
  }

  lemma UlebStep(s: Bytes, v: nat)
    ensures v / 128 == 0 ==> s + Uleb(v) == s + [(v % 128) as u8]
    ensures v / 128 != 0 ==> s + Uleb(v) == s + [(v % 128 + 128) as u8] + Uleb(v / 128)
  {
    if v >= 128 {
      Join2(s, [(v % 128 + 128) as u8], Uleb(v / 128));
    }
  }

  class Out {
    var buf: Bytes

    constructor ()
      ensures buf == []
    {
      buf := [];
    }

    method PutByte(b: u8)
      modifies this
      ensures buf == old(buf) + [b]
    {
      buf := buf + [b];
    }

    method PutRaw(p: Bytes)
      modifies this
      ensures buf == old(buf) + p
    {
      buf := buf + p;
    }

    /** Seven bits at a time, low first; the top bit says that more follow. */
    method PutUleb(n: nat)
      modifies this
      ensures buf == old(buf) + Uleb(n)
    {
      var v := n;
      while true
        invariant buf + Uleb(v) == old(buf) + Uleb(n)
        decreases v
      {
        UlebStep(buf, v);
        hide Uleb;
        var low := v % 128;
        v := v / 128;
        if v != 0 {
          PutByte((low + 128) as u8);
        } else {
          PutByte(low as u8);
          return;
        }
      }
    }

    method PutSleb(n: int)
      modifies this
      ensures buf == old(buf) + Sleb(n)
    {
      var v := n;
      while true
        invariant buf + Sleb(v) == old(buf) + Sleb(n)
        decreases if v >= 0 then v else -v - 1
      {
        var low := v % 128;
        v := v / 128;
        if (v == 0 && low < 64) || (v == -1 && low >= 64) {
          PutByte(low as u8);
          return;
        }
        PutByte((low + 128) as u8);
      }
    }

    method PutTypes(ts: seq<nat>)
      modifies this
      ensures buf == old(buf) + Types(ts)
    {
      hide Uleb;
      PutUleb(|ts|);
      for i := 0 to |ts|
        invariant buf == old(buf) + Uleb(|ts|) + WriteMany(ts[..i], TypeTag)
      {
        WriteManyPush(ts[..i], ts[i], TypeTag);
        assert ts[..i + 1] == ts[..i] + [ts[i]];
        PutByte(Byte(ts[i]));
      }
      assert ts[..|ts|] == ts;
    }

    method PutIdxs(ids: seq<nat>)
      modifies this
      ensures buf == old(buf) + Idxs(ids)
    {
      hide Uleb;
      PutUleb(|ids|);
      for i := 0 to |ids|
        invariant buf == old(buf) + Uleb(|ids|) + WriteMany(ids[..i], Uleb)
      {
        WriteManyPush(ids[..i], ids[i], Uleb);
        assert ids[..i + 1] == ids[..i] + [ids[i]];
        PutUleb(ids[i]);
      }
      assert ids[..|ids|] == ids;
    }

    method PutStr(s: Bytes)
      modifies this
      ensures buf == old(buf) + Str(s)
    {
      hide Uleb;
      PutUleb(|s|);
      PutRaw(s);
    }
  }

  class ImportTable {
    const types: Interner<Sig>
    const imports: Interner<Import>

    ghost predicate Valid()
      reads this, types, types.ix, imports, imports.ix
    {
      && (types as object) != (imports as object) && types.ix != imports.ix
      && types.Valid() && imports.Valid()
    }

    ghost function Contents(): Tables
      reads types, imports
    {
      Tables(types.items, imports.items)
    }

    constructor (sigHash: Sig -> nat, importHash: Import -> nat)
      ensures Valid() && Contents() == Tables([], [])
      ensures fresh(types) && fresh(types.ix) && fresh(imports) && fresh(imports.ix)
    {
      types := new Interner(sigHash);
      imports := new Interner(importHash);
    }

    method InternType(sig: Sig) returns (ti: nat)
      requires Valid()
      modifies types, types.ix
      ensures Valid() && Contents() == Tables(Add(old(types.items), sig), old(imports.items))
      ensures ti == PosOf(types.items, sig)
    {
      ti := types.InternItem(sig);
    }

    method InternImport(name: Name, ti: nat) returns (idx: nat)
      requires Valid()
      modifies imports, imports.ix
      ensures Valid() && Contents() == Tables(old(types.items), Add(old(imports.items), Import(name, ti)))
      ensures idx == PosOf(imports.items, Import(name, ti))
    {
      idx := imports.InternItem(Import(name, ti));
    }

    /** What the first pass does with one instruction. */
    method Meet(i: Inst)
      requires Valid()
      modifies types, types.ix, imports, imports.ix
      ensures Valid() && Contents() == Visit(i, old(Contents()))
    {
      hide PosOf, Add, types.Valid;
      match i {
        case CallImport(name, sig, _, _) =>
          var ti := InternType(sig);
          var idx := InternImport(name, ti);
        case CallIndirect(sig, _, _) =>
          var ti := InternType(sig);
        case _ =>
      }
    }
  }

  // ---- one instruction ----

  /** What follows the opcode of the two call forms that intern once more on the way. */
  method PutImportCall(o: Out, i: Inst, tab: ImportTable)
    requires tab.Valid() && i.CallImport?
    modifies o, tab.types, tab.types.ix, tab.imports, tab.imports.ix
    ensures tab.Valid() && tab.Contents() == Visit(i, old(tab.Contents()))
    ensures o.buf == old(o.buf) + EncInst(i, tab.Contents())
  {
    hide Uleb, Idxs, PosOf, Add, tab.types.Valid, tab.Valid;
    var ti := tab.InternType(i.sig);
    var idx := tab.InternImport(i.name, ti);
    ghost var s := o.buf;
    o.PutByte(0x7B);
    ghost var s1 := o.buf;
    o.PutUleb(idx);
    o.PutUleb(ti);
    o.PutUleb(i.handle);
    o.PutIdxs(i.args);
    Join4(s1, Uleb(idx), Uleb(ti), Uleb(i.handle), Idxs(i.args));
    Join2(s, [0x7B], Uleb(idx) + Uleb(ti) + Uleb(i.handle) + Idxs(i.args));
  }

  method PutIndirectCall(o: Out, i: Inst, tab: ImportTable)
    requires tab.Valid() && i.CallIndirect?
    modifies o, tab.types, tab.types.ix, tab.imports, tab.imports.ix
    ensures tab.Valid() && tab.Contents() == Visit(i, old(tab.Contents()))
    ensures o.buf == old(o.buf) + EncInst(i, tab.Contents())
  {
    hide Uleb, Idxs, PosOf, Add, tab.types.Valid, tab.Valid;
    var ti := tab.InternType(i.sig);
    ghost var s := o.buf;
    o.PutByte(0x74);
    ghost var s1 := o.buf;
    o.PutUleb(ti);
    o.PutUleb(i.addr);
    o.PutIdxs(i.args);
    Join3(s1, Uleb(ti), Uleb(i.addr), Idxs(i.args));
    Join2(s, [0x74], Uleb(ti) + Uleb(i.addr) + Idxs(i.args));
  }

  method PutFields(o: Out, i: Inst, ghost t: Tables)
    requires !i.CallImport? && !i.CallIndirect?
    modifies o
    ensures o.buf == old(o.buf) + Fields(i, t)
  {
    hide Uleb, Sleb, Idxs, Byte;
    match i {
      case ConstI32(c) => o.PutSleb(c);
      case ConstI64(c) => o.PutSleb(c);
      case IntBin(_, op, a, x) => PutOp2(o, Byte(op), a, x);
      case IntCmp(_, op, a, x) => PutOp2(o, Byte(op), a, x);
      case Load(_, addr, offset, _) =>
        o.PutUleb(addr);
        o.PutUleb(offset);
        Join2(old(o.buf), Uleb(addr), Uleb(offset));
      case Store(_, addr, value, offset, _) =>
        o.PutUleb(addr);
        o.PutUleb(value);
        o.PutUleb(offset);
        Join3(old(o.buf), Uleb(addr), Uleb(value), Uleb(offset));
      case Call(callee, args) =>
        o.PutUleb(callee);
        o.PutIdxs(args);
        Join2(old(o.buf), Uleb(callee), Idxs(args));
      case RefFunc(callee) => o.PutUleb(callee);
      case DataSelf(offset) =>
        o.PutUleb(offset);
        o.PutByte(0);
        Join2(old(o.buf), Uleb(offset), [0]);
      case Convert(_, a) => o.PutUleb(a);
      case Suspend(a) => o.PutUleb(a);
    }
  }

  method PutOp2(o: Out, op: u8, a: nat, x: nat)
    modifies o
    ensures o.buf == old(o.buf) + ([op] + (Uleb(a) + Uleb(x)))
  {
    hide Uleb;
    o.PutByte(op);
    ghost var s1 := o.buf;
    o.PutUleb(a);
    o.PutUleb(x);
    Join2(s1, Uleb(a), Uleb(x));
    Join2(old(o.buf), [op], Uleb(a) + Uleb(x));
  }

  method PutInst(o: Out, i: Inst, tab: ImportTable)
    requires tab.Valid()
    modifies o, tab.types, tab.types.ix, tab.imports, tab.imports.ix
    ensures tab.Valid() && tab.Contents() == Visit(i, old(tab.Contents()))
    ensures o.buf == old(o.buf) + EncInst(i, tab.Contents())
  {
    hide Fields, Opcode, tab.types.Valid, tab.Valid;
    if i.CallImport? {
      PutImportCall(o, i, tab);
    } else if i.CallIndirect? {
      PutIndirectCall(o, i, tab);
    } else {
      ghost var t := tab.Contents();
      o.PutByte(Opcode(i));
      PutFields(o, i, t);
      Join2(old(o.buf), [Opcode(i)], Fields(i, t));
    }
  }

  method PutTerm(o: Out, t: Term)
    modifies o
    ensures o.buf == old(o.buf) + EncTerm(t)
  {
    hide Uleb, Idxs;
    o.PutByte(TermCode(t));
    ghost var s := o.buf;
    match t {
      case Br(target, args) =>
        o.PutUleb(target);
        o.PutIdxs(args);
        Join2(s, Uleb(target), Idxs(args));
      case BrIf(c, x, xs, y, ys) =>
        o.PutUleb(c);
        o.PutUleb(x);
        o.PutIdxs(xs);
        o.PutUleb(y);
        o.PutIdxs(ys);
        Join5(s, Uleb(c), Uleb(x), Idxs(xs), Uleb(y), Idxs(ys));
      case Return(vals) => o.PutIdxs(vals);
      case ReturnCall(f, args) =>
        o.PutUleb(f);
        o.PutIdxs(args);
        Join2(s, Uleb(f), Idxs(args));
      case Unset =>
    }
    Join2(old(o.buf), [TermCode(t)], TermFields(t));
  }

  // ---- blocks and functions ----

  ghost predicate AllKnown(code: seq<Inst>, t: Tables) {
    forall k :: 0 <= k < |code| ==> Known(code[k], t)
  }

  method PutBlockHead(o: Out, params: seq<nat>, n: nat, count: nat)
    modifies o
    ensures o.buf == old(o.buf) + (Uleb(n) + Types(params) + Uleb(0) + Uleb(count))
  {
    hide Uleb, Types;
    o.PutUleb(n);
    o.PutTypes(params);
    o.PutUleb(0);
    o.PutUleb(count);
    Join4(old(o.buf), Uleb(n), Types(params), Uleb(0), Uleb(count));
  }

  method PutBlock(o: Out, b: Block, n: nat, tab: ImportTable)
    requires tab.Valid() && AllKnown(b.insts, tab.Contents())
    modifies o, tab.types, tab.types.ix, tab.imports, tab.imports.ix
    ensures tab.Valid() && tab.Contents() == old(tab.Contents())
    ensures o.buf == old(o.buf) + EncBlock(b, n, tab.Contents())
  {
    hide Uleb, Types, EncInst, EncTerm, Known, Visit, tab.types.Valid, tab.Valid;
    ghost var t := tab.Contents();
    ghost var w := (i: Inst) => EncInst(i, t);
    PutBlockHead(o, b.params, n, |b.insts|);
    ghost var head := o.buf;
    for i := 0 to |b.insts|
      invariant tab.Valid() && tab.Contents() == t
      invariant o.buf == head + WriteMany(b.insts[..i], w)
    {
      KnownVisit(b.insts[i], t);
      PutInst(o, b.insts[i], tab);
      WriteManyPush(b.insts[..i], b.insts[i], w);
      assert b.insts[..i + 1] == b.insts[..i] + [b.insts[i]];
    }
    assert b.insts[..|b.insts|] == b.insts;
    ghost var body := WriteMany(b.insts, w);
    PutTerm(o, b.term);
    Join3(old(o.buf), Uleb(n) + Types(b.params) + Uleb(0) + Uleb(|b.insts|), body, EncTerm(b.term));
    Join2(Uleb(n) + Types(b.params) + Uleb(0), Uleb(|b.insts|), body);
  }

  lemma {:induction false} EncBlocksPush(bs: seq<Block>, b: Block, n: nat, t: Tables)
    ensures EncBlocks(bs + [b], n, t) == EncBlocks(bs, n, t) + EncBlock(b, n + |bs|, t)
    decreases |bs|
  {
    hide EncBlock;
    if bs == [] {
      assert (bs + [b])[1..] == [];
      assert EncBlocks([], n + 1, t) == [];
    } else {
      assert (bs + [b])[1..] == bs[1..] + [b];
      EncBlocksPush(bs[1..], b, n + 1, t);
    }
  }

  method PutFunc(o: Out, f: Func, tab: ImportTable)
    requires tab.Valid() && forall i :: 0 <= i < |f.blocks| ==> AllKnown(f.blocks[i].insts, tab.Contents())
    modifies o, tab.types, tab.types.ix, tab.imports, tab.imports.ix
    ensures tab.Valid() && tab.Contents() == old(tab.Contents())
    ensures o.buf == old(o.buf) + EncFunc(f, tab.Contents())
  {
    hide Uleb, Types, EncBlock, AllKnown, tab.types.Valid, tab.Valid;
    ghost var t := tab.Contents();
    o.PutTypes(f.params);
    o.PutTypes(f.results);
    o.PutUleb(|f.blocks|);
    ghost var head := o.buf;
    for i := 0 to |f.blocks|
      invariant tab.Valid() && tab.Contents() == t
      invariant o.buf == head + EncBlocks(f.blocks[..i], 0, t)
    {
      PutBlock(o, f.blocks[i], i, tab);
      EncBlocksPush(f.blocks[..i], f.blocks[i], 0, t);
      assert f.blocks[..i + 1] == f.blocks[..i] + [f.blocks[i]];
    }
    assert f.blocks[..|f.blocks|] == f.blocks;
  }

  // ---- the first pass ----

  method MeetInsts(code: seq<Inst>, tab: ImportTable) returns (selfAddr: bool)
    requires tab.Valid()
    modifies tab.types, tab.types.ix, tab.imports, tab.imports.ix
    ensures tab.Valid() && tab.Contents() == VisitAll(code, old(tab.Contents()))
    ensures selfAddr <==> HasSelf(code)
  {
    hide Visit, VisitAll;
    selfAddr := false;
    ghost var t := tab.Contents();
    VisitNone(t);
    for i := 0 to |code|
      invariant tab.Valid() && tab.Contents() == VisitAll(code[..i], t)
      invariant selfAddr <==> HasSelf(code[..i])
    {
      tab.Meet(code[i]);
      selfAddr := selfAddr || code[i].DataSelf?;
      VisitAllPush(code[..i], code[i], t);
      assert code[..i + 1] == code[..i] + [code[i]];
      SelfJoins(code[..i], [code[i]]);
    }
    assert code[..|code|] == code;
  }

  lemma VisitNone(t: Tables)
    ensures VisitAll([], t) == t && forall code: seq<Inst> :: code == [] ==> VisitAll(code, t) == t && !HasSelf(code)
  {
  }

  lemma SelfJoins(a: seq<Inst>, b: seq<Inst>)
    ensures HasSelf(a + b) <==> HasSelf(a) || HasSelf(b)
    ensures |b| == 1 ==> (HasSelf(b) <==> b[0].DataSelf?)
  {
    assert forall i :: i in a + b <==> i in a || i in b;
    if |b| == 1 {
      assert b[0] in b;
    }
  }

  method MeetBlocks(bs: seq<Block>, tab: ImportTable) returns (selfAddr: bool)
    requires tab.Valid()
    modifies tab.types, tab.types.ix, tab.imports, tab.imports.ix
    ensures tab.Valid() && tab.Contents() == VisitAll(BlocksCode(bs), old(tab.Contents()))
    ensures selfAddr <==> HasSelf(BlocksCode(bs))
  {
    hide VisitAll, HasSelf;
    selfAddr := false;
    ghost var t := tab.Contents();
    VisitNone(t);
    for i := 0 to |bs|
      invariant tab.Valid() && tab.Contents() == VisitAll(BlocksCode(bs[..i]), t)
      invariant selfAddr <==> HasSelf(BlocksCode(bs[..i]))
    {
      var here := MeetInsts(bs[i].insts, tab);
      selfAddr := selfAddr || here;
      assert bs[..i + 1][..i] == bs[..i];
      VisitAllConcat(BlocksCode(bs[..i]), bs[i].insts, t);
      SelfJoins(BlocksCode(bs[..i]), bs[i].insts);
    }
    assert bs[..|bs|] == bs;
  }

  method MeetFuncs(fs: seq<Func>, tab: ImportTable) returns (selfAddr: bool)
    requires tab.Valid()
    modifies tab.types, tab.types.ix, tab.imports, tab.imports.ix
    ensures tab.Valid() && tab.Contents() == VisitAll(FuncsCode(fs), old(tab.Contents()))
    ensures selfAddr <==> HasSelf(FuncsCode(fs))
  {
    hide VisitAll, HasSelf, BlocksCode;
    selfAddr := false;
    ghost var t := tab.Contents();
    VisitNone(t);
    for i := 0 to |fs|
      invariant tab.Valid() && tab.Contents() == VisitAll(FuncsCode(fs[..i]), t)
      invariant selfAddr <==> HasSelf(FuncsCode(fs[..i]))
    {
      var here := MeetBlocks(fs[i].blocks, tab);
      selfAddr := selfAddr || here;
      assert fs[..i + 1][..i] == fs[..i];
      VisitAllConcat(FuncsCode(fs[..i]), BlocksCode(fs[i].blocks), t);
      SelfJoins(FuncsCode(fs[..i]), BlocksCode(fs[i].blocks));
    }
    assert fs[..|fs|] == fs;
  }

  // ---- the sections ----

  lemma HeaderParts(object_: bool)
    ensures [84, 69, 77, 69, 78, 0, 0, 0] + [if object_ then 1 else 0] + [0] + [16] + [0, 0, 0, 0, 0] == Header(object_)
  {
  }

  method PutHeader(o: Out, object_: bool)
    modifies o
    ensures o.buf == old(o.buf) + Header(object_)
  {
    hide Header;
    var magic: Bytes, zeros: Bytes := [84, 69, 77, 69, 78, 0, 0, 0], [0, 0, 0, 0, 0];
    var tag: u8 := if object_ then 1 else 0;
    HeaderParts(object_);
    o.PutRaw(magic);
    o.PutByte(tag);
    o.PutByte(0);
    o.PutByte(16);
    o.PutRaw(zeros);
    Join5(old(o.buf), magic, [tag], [0], [16], zeros);
  }

  method PutMemory(o: Out, memory: Memory)
    modifies o
    ensures o.buf == old(o.buf) + EncMemory(memory)
  {
    match memory {
      case Sized(log2) => o.PutRaw([1, log2, 0]);
      case NoMemory => o.PutByte(0);
    }
  }

  method PutData(o: Out, data: seq<Segment>)
    modifies o
    ensures o.buf == old(o.buf) + WriteList(data, EncSegment)
  {
    hide Uleb, Str;
    o.PutUleb(|data|);
    for i := 0 to |data|
      invariant o.buf == old(o.buf) + Uleb(|data|) + WriteMany(data[..i], EncSegment)
    {
      WriteManyPush(data[..i], data[i], EncSegment);
      assert data[..i + 1] == data[..i] + [data[i]];
      o.PutByte(1);
      o.PutUleb(data[i].offset);
      o.PutStr(data[i].bytes);
    }
    assert data[..|data|] == data;
  }

  method PutImport(o: Out, i: Import)
    modifies o
    ensures o.buf == old(o.buf) + EncImport(i)
  {
    hide Uleb, Str;
    o.PutStr(i.name);
    o.PutByte(0);
    o.PutUleb(i.typeIdx);
    o.PutByte(0);
    Join4(old(o.buf), Str(i.name), [0], Uleb(i.typeIdx), [0]);
  }

  method PutImports(o: Out, imports: seq<Import>)
    modifies o
    ensures o.buf == old(o.buf) + WriteList(imports, EncImport)
  {
    hide Uleb, EncImport;
    o.PutUleb(|imports|);
    for i := 0 to |imports|
      invariant o.buf == old(o.buf) + Uleb(|imports|) + WriteMany(imports[..i], EncImport)
    {
      WriteManyPush(imports[..i], imports[i], EncImport);
      assert imports[..i + 1] == imports[..i] + [imports[i]];
      PutImport(o, imports[i]);
    }
    assert imports[..|imports|] == imports;
  }

  method PutSigs(o: Out, types: seq<Sig>)
    modifies o
    ensures o.buf == old(o.buf) + WriteList(types, EncType)
  {
    hide Uleb, Types;
    o.PutUleb(|types|);
    for i := 0 to |types|
      invariant o.buf == old(o.buf) + Uleb(|types|) + WriteMany(types[..i], EncType)
    {
      WriteManyPush(types[..i], types[i], EncType);
      assert types[..i + 1] == types[..i] + [types[i]];
      o.PutByte(0);
      o.PutTypes(types[i].params);
      o.PutTypes(types[i].results);
    }
    assert types[..|types|] == types;
  }

  method PutFuncs(o: Out, m: Module, tab: ImportTable)
    requires tab.Valid() && tab.Contents() == ModuleTables(m)
    modifies o, tab.types, tab.types.ix, tab.imports, tab.imports.ix
    ensures tab.Valid() && tab.Contents() == ModuleTables(m)
    ensures o.buf == old(o.buf) + WriteList(m.funcs, (f: Func) => EncFunc(f, ModuleTables(m)))
  {
    hide Uleb, EncFunc, Known, ModuleTables, tab.types.Valid, tab.Valid;
    ghost var t := ModuleTables(m);
    ghost var w := (f: Func) => EncFunc(f, t);
    o.PutUleb(|m.funcs|);
    for j := 0 to |m.funcs|
      invariant tab.Valid() && tab.Contents() == t
      invariant o.buf == old(o.buf) + Uleb(|m.funcs|) + WriteMany(m.funcs[..j], w)
    {
      WriteManyPush(m.funcs[..j], m.funcs[j], w);
      assert m.funcs[..j + 1] == m.funcs[..j] + [m.funcs[j]];
      forall i, k | 0 <= i < |m.funcs[j].blocks| && 0 <= k < |m.funcs[j].blocks[i].insts|
        ensures Known(m.funcs[j].blocks[i].insts[k], t)
      {
        ModuleKnown(m, j, i, k);
      }
      PutFunc(o, m.funcs[j], tab);
    }
    assert m.funcs[..|m.funcs|] == m.funcs;
  }

  /** The sections between the memory descriptor and the functions. */
  method PutSections(o: Out, data: seq<Segment>, t: Tables, object_: bool)
    modifies o
    ensures o.buf == old(o.buf) + WriteList(data, EncSegment) + AfterData(object_) + EncTables(t, object_)
  {
    hide EncSegment, EncImport, EncType, WriteList;
    PutData(o, data);
    ghost var s := o.buf;
    o.PutRaw(if object_ then [0, 0, 0, 0] else [0]);
    ghost var s1 := o.buf;
    PutImports(o, t.imports);
    o.PutRaw(if object_ then [0, 0] else [0]);
    PutSigs(o, t.types);
    o.PutByte(0);
    Join4(s1, WriteList(t.imports, EncImport), AfterImports(object_), WriteList(t.types, EncType), [0]);
  }

  /** The whole encoder. The bytes are the specified ones whatever the two hash functions are, although
      every index in them came out of the hashed tables, in two passes. */
  method Encode(m: Module, sigHash: Sig -> nat, importHash: Import -> nat) returns (bytes: Bytes)
    ensures bytes == EncModule(m)
  {
    hide Header, EncMemory, EncTables, EncSegment, EncFunc, WriteList, FuncsCode, VisitAll, HasSelf, AfterData;
    var tab := new ImportTable(sigHash, importHash);
    hide tab.types.Valid, tab.Valid;
    var selfAddr := MeetFuncs(m.funcs, tab);
    var o := new Out();
    PutHeader(o, selfAddr);
    PutMemory(o, m.memory);
    PutSections(o, m.data, Tables(tab.types.items, tab.imports.items), selfAddr);
    PutFuncs(o, m, tab);
    bytes := o.buf;
    assert [] + Header(selfAddr) == Header(selfAddr);
  }
}
