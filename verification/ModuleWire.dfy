/** The module container (codegen/irbuilder.c): header, memory, data, tables, functions; and a decoder
    that rebuilds the module from the bytes alone. */
module ModuleWire {
  import opened MachineWords
  import opened Leb
  import opened Wire
  import opened Intern

  datatype Memory = NoMemory | Sized(log2: u8)
  datatype Segment = Segment(offset: nat, bytes: Bytes)
  datatype Module = Module(memory: Memory, data: seq<Segment>, funcs: seq<Func>)

  // ---- all the instructions of a module, in source order ----

  function BlocksCode(bs: seq<Block>): seq<Inst> {
    if bs == [] then [] else BlocksCode(bs[..|bs| - 1]) + bs[|bs| - 1].insts
  }

  function FuncsCode(fs: seq<Func>): seq<Inst> {
    if fs == [] then [] else FuncsCode(fs[..|fs| - 1]) + BlocksCode(fs[|fs| - 1].blocks)
  }

  function ModuleTables(m: Module): Tables {
    VisitAll(FuncsCode(m.funcs), Tables([], []))
  }

  predicate HasSelf(code: seq<Inst>) {
    exists i :: i in code && i.DataSelf?
  }

  /** Link-form addresses make the unit an object. */
  predicate IsObject(m: Module) {
    HasSelf(FuncsCode(m.funcs))
  }

  // ---- writing ----

  function Str(s: Bytes): Bytes {
    Uleb(|s|) + s
  }

  function EncSegment(d: Segment): Bytes {
    [1] + Uleb(d.offset) + Str(d.bytes)
  }

  function EncImport(i: Import): Bytes {
    Str(i.name) + [0] + Uleb(i.typeIdx) + [0]
  }

  function EncType(s: Sig): Bytes {
    [0] + Types(s.params) + Types(s.results)
  }

  function Header(object_: bool): (r: Bytes)
    ensures |r| == 16
  {
    [84, 69, 77, 69, 78, 0, 0, 0, if object_ then 1 else 0, 0, 16, 0, 0, 0, 0, 0]
  }

  function EncMemory(m: Memory): Bytes {
    match m
    case NoMemory => [0]
    case Sized(log2) => [1, log2, 0]
  }

  /** The sections of a unit that are always empty; an object has four more. */
  function AfterData(object_: bool): Bytes {
    if object_ then [0, 0, 0, 0] else [0]
  }

  function AfterImports(object_: bool): Bytes {
    if object_ then [0, 0] else [0]
  }

  function EncTables(t: Tables, object_: bool): Bytes {
    WriteList(t.imports, EncImport) + AfterImports(object_) + WriteList(t.types, EncType) + [0]
  }

  function EncModule(m: Module): Bytes {
    var t, o := ModuleTables(m), IsObject(m);
    Header(o) + EncMemory(m.memory) + WriteList(m.data, EncSegment) + AfterData(o) + EncTables(t, o)
    + WriteList(m.funcs, (f: Func) => EncFunc(f, t))
  }

  // ---- reading ----

  function Skip(b: Bytes, s: Bytes): Read<bool> {
    if b <= s then Got(true, s[|b|..]) else Malformed
  }

  function ReadStr(s: Bytes): Read<Bytes> {
    match ReadUleb(s)
    case Malformed => Malformed
    case Got(n, r) => if n <= |r| then Got(r[..n], r[n..]) else Malformed
  }

  function DecSegment(s: Bytes): Read<Segment> {
    if s == [] || s[0] != 1 then Malformed else
      match ReadUleb(s[1..])
      case Malformed => Malformed
      case Got(offset, r) => Wrap(ReadStr(r), (b: Bytes) => Segment(offset, b))
  }

  function DecImportEntry(s: Bytes): Read<Import> {
    match ReadStr(s)
    case Malformed => Malformed
    case Got(name, r) =>
      if 0 in name || r == [] || r[0] != 0 then Malformed else
        match ReadUleb(r[1..])
        case Malformed => Malformed
        case Got(ti, r1) => if r1 != [] && r1[0] == 0 then Got(Import(name, ti), r1[1..]) else Malformed
  }

  function DecType(s: Bytes): Read<Sig> {
    if s == [] || s[0] != 0 then Malformed else
      match ReadTypes(s[1..])
      case Malformed => Malformed
      case Got(ps, r) => Wrap(ReadTypes(r), (rs: seq<nat>) => Sig(ps, rs))
  }

  function DecHeader(s: Bytes): Read<bool> {
    if Header(false) <= s then Got(false, s[16..])
    else if Header(true) <= s then Got(true, s[16..])
    else Malformed
  }

  function DecMemory(s: Bytes): Read<Memory> {
    if [0] <= s then Got(NoMemory, s[1..])
    else if |s| >= 3 && s[0] == 1 && s[2] == 0 then Got(Sized(s[1]), s[3..])
    else Malformed
  }

  function DecTables(object_: bool, s: Bytes): Read<Tables> {
    match ReadList(DecImportEntry, s)
    case Malformed => Malformed
    case Got(imports, r) =>
      match Skip(AfterImports(object_), r)
      case Malformed => Malformed
      case Got(_, r1) =>
        match ReadList(DecType, r1)
        case Malformed => Malformed
        case Got(types, r2) => Wrap(Skip([0], r2), (_: bool) => Tables(types, imports))
  }

  function DecFuncs(t: Tables, s: Bytes): Read<seq<Func>> {
    ReadList((b: Bytes) => DecFunc(b, t), s)
  }

  function DecModule(s: Bytes): Read<Module> {
    match DecHeader(s)
    case Malformed => Malformed
    case Got(o, r) =>
      match DecMemory(r)
      case Malformed => Malformed
      case Got(memory, r1) =>
        match ReadList(DecSegment, r1)
        case Malformed => Malformed
        case Got(data, r2) =>
          match Skip(AfterData(o), r2)
          case Malformed => Malformed
          case Got(_, r3) =>
            match DecTables(o, r3)
            case Malformed => Malformed
            case Got(t, r4) => Wrap(DecFuncs(t, r4), (fs: seq<Func>) => Module(memory, data, fs))
  }

  // ---- round trip ----

  predicate FuncShapeOk(f: Func) {
    && TypesOk(f.params) && TypesOk(f.results)
    && forall i :: 0 <= i < |f.blocks| ==>
         TypesOk(f.blocks[i].params) && forall k :: 0 <= k < |f.blocks[i].insts| ==> InstOk(f.blocks[i].insts[k])
  }

  /** What the builder's types already guarantee. */
  predicate ModuleOk(m: Module) {
    forall i :: 0 <= i < |m.funcs| ==> FuncShapeOk(m.funcs[i])
  }

  function UnalignedFunc(f: Func): Func {
    f.(blocks := MapSeq(f.blocks, UnalignedBlock))
  }

  lemma {:induction false} BlocksCodeHolds(bs: seq<Block>, i: nat, k: nat)
    requires i < |bs| && k < |bs[i].insts|
    ensures bs[i].insts[k] in BlocksCode(bs)
    decreases |bs|
  {
    if i == |bs| - 1 {
      assert bs[i].insts[k] in bs[i].insts;
    } else {
      BlocksCodeHolds(bs[..|bs| - 1], i, k);
    }
  }

  lemma {:induction false} FuncsCodeHolds(fs: seq<Func>, j: nat, i: nat, k: nat)
    requires j < |fs| && i < |fs[j].blocks| && k < |fs[j].blocks[i].insts|
    ensures fs[j].blocks[i].insts[k] in FuncsCode(fs)
    decreases |fs|
  {
    BlocksCodeHolds(fs[j].blocks, i, k);
    if j < |fs| - 1 {
      FuncsCodeHolds(fs[..|fs| - 1], j, i, k);
    }
  }

  lemma {:induction false} BlocksCodeFrom(bs: seq<Block>, x: Inst) returns (i: nat, k: nat)
    requires x in BlocksCode(bs)
    ensures i < |bs| && k < |bs[i].insts| && bs[i].insts[k] == x
    decreases |bs|
  {
    i := |bs| - 1;
    if x in bs[i].insts {
      k :| 0 <= k < |bs[i].insts| && bs[i].insts[k] == x;
    } else {
      i, k := BlocksCodeFrom(bs[..i], x);
    }
  }

  lemma {:induction false} FuncsCodeFrom(fs: seq<Func>, x: Inst) returns (j: nat, i: nat, k: nat)
    requires x in FuncsCode(fs)
    ensures j < |fs| && i < |fs[j].blocks| && k < |fs[j].blocks[i].insts| && fs[j].blocks[i].insts[k] == x
    decreases |fs|
  {
    j := |fs| - 1;
    if x in BlocksCode(fs[j].blocks) {
      i, k := BlocksCodeFrom(fs[j].blocks, x);
    } else {
      j, i, k := FuncsCodeFrom(fs[..j], x);
    }
  }

  /** Some block of some function takes an address in the unit's own data. */
  ghost predicate TakesOwnAddress(m: Module) {
    exists j, i, k :: 0 <= j < |m.funcs| && 0 <= i < |m.funcs[j].blocks| && 0 <= k < |m.funcs[j].blocks[i].insts|
                      && m.funcs[j].blocks[i].insts[k].DataSelf?
  }

  /** The container: magic, kind, version 16 and flags, each little-endian, and then the sections. The kind is 1,
      and the sections of an object are there, exactly when some instruction takes such an address. */
  lemma Container(m: Module)
    ensures var e, o, t := EncModule(m), TakesOwnAddress(m), ModuleTables(m);
      && |e| > 16 && e[..8] == [84, 69, 77, 69, 78, 0, 0, 0]
      && e[8..16] == [if o then 1 else 0, 0] + [16, 0] + [0, 0, 0, 0]
      && e[16..] == EncMemory(m.memory) + WriteList(m.data, EncSegment) + (if o then [0, 0, 0, 0] else [0])
                    + WriteList(t.imports, EncImport) + (if o then [0, 0] else [0]) + WriteList(t.types, EncType) + [0]
                    + WriteList(m.funcs, (f: Func) => EncFunc(f, t))
  {
    hide EncMemory, WriteList, Header, AfterData, AfterImports, ModuleTables, IsObject, TakesOwnAddress;
    ObjectExactly(m);
    var t, o := ModuleTables(m), IsObject(m);
    Fixed(o);
    SomeMemory(m.memory);
    Regroup(Header(o), EncMemory(m.memory), WriteList(m.data, EncSegment), AfterData(o), WriteList(t.imports, EncImport),
            AfterImports(o), WriteList(t.types, EncType), [0], WriteList(m.funcs, (f: Func) => EncFunc(f, t)));
  }

  lemma Fixed(o: bool)
    ensures Header(o)[..8] == [84, 69, 77, 69, 78, 0, 0, 0]
    ensures Header(o)[8..16] == [if o then 1 else 0, 0] + [16, 0] + [0, 0, 0, 0]
    ensures AfterData(o) == if o then [0, 0, 0, 0] else [0]
    ensures AfterImports(o) == if o then [0, 0] else [0]
  {
  }

  lemma Regroup(h: Bytes, a: Bytes, b: Bytes, c: Bytes, d: Bytes, e: Bytes, f: Bytes, g: Bytes, z: Bytes)
    requires |h| == 16 && |a| > 0
    ensures var s := h + a + b + c + (d + e + f + g) + z;
      && |s| > 16 && s[..8] == h[..8] && s[8..16] == h[8..16] && s[16..] == a + b + c + d + e + f + g + z
  {
    var tail := a + b + c + (d + e + f + g) + z;
    assert h + a + b + c + (d + e + f + g) + z == h + tail;
    assert tail == a + b + c + d + e + f + g + z;
  }

  lemma SomeMemory(m: Memory)
    ensures |EncMemory(m)| > 0
  {
  }

  lemma ObjectExactly(m: Module)
    ensures IsObject(m) <==> TakesOwnAddress(m)
  {
    if IsObject(m) {
      var x :| x in FuncsCode(m.funcs) && x.DataSelf?;
      var j, i, k := FuncsCodeFrom(m.funcs, x);
    }
    if TakesOwnAddress(m) {
      var j: nat, i: nat, k: nat :| j < |m.funcs| && i < |m.funcs[j].blocks| && k < |m.funcs[j].blocks[i].insts|
                                    && m.funcs[j].blocks[i].insts[k].DataSelf?;
      FuncsCodeHolds(m.funcs, j, i, k);
    }
  }

  lemma {:induction false} BlocksCodeOk(bs: seq<Block>)
    requires forall i :: 0 <= i < |bs| ==> forall k :: 0 <= k < |bs[i].insts| ==> InstOk(bs[i].insts[k])
    ensures forall k :: 0 <= k < |BlocksCode(bs)| ==> InstOk(BlocksCode(bs)[k])
    decreases |bs|
  {
    hide InstOk;
    if bs != [] {
      BlocksCodeOk(bs[..|bs| - 1]);
    }
  }

  lemma {:induction false} FuncsCodeOk(fs: seq<Func>)
    requires forall i :: 0 <= i < |fs| ==> FuncShapeOk(fs[i])
    ensures forall k :: 0 <= k < |FuncsCode(fs)| ==> InstOk(FuncsCode(fs)[k])
    decreases |fs|
  {
    hide InstOk;
    if fs != [] {
      FuncsCodeOk(fs[..|fs| - 1]);
      BlocksCodeOk(fs[|fs| - 1].blocks);
    }
  }

  predicate TypesSectionOk(t: Tables) {
    forall k :: 0 <= k < |t.types| ==> SigOk(t.types[k])
  }

  lemma {:induction false} VisitedTypesOk(code: seq<Inst>, t: Tables)
    requires forall k :: 0 <= k < |code| ==> InstOk(code[k])
    requires TypesSectionOk(t)
    ensures TypesSectionOk(VisitAll(code, t))
    decreases |code|
  {
    hide SigOk;
    if code != [] {
      assert InstOk(code[0]);
      assert forall k :: 0 <= k < |code[1..]| ==> code[1..][k] == code[k + 1];
      VisitedTypesOk(code[1..], Visit(code[0], t));
    }
  }

  /** The tables of a module know all its instructions. */
  lemma ModuleKnown(m: Module, j: nat, i: nat, k: nat)
    requires j < |m.funcs| && i < |m.funcs[j].blocks| && k < |m.funcs[j].blocks[i].insts|
    ensures Known(m.funcs[j].blocks[i].insts[k], ModuleTables(m))
  {
    hide Known;
    FuncsCodeHolds(m.funcs, j, i, k);
    var n :| 0 <= n < |FuncsCode(m.funcs)| && FuncsCode(m.funcs)[n] == m.funcs[j].blocks[i].insts[k];
    VisitAllKnows(FuncsCode(m.funcs), Tables([], []), n);
  }

  lemma FuncFits(m: Module, j: nat)
    requires ModuleOk(m) && j < |m.funcs|
    ensures FuncOk(m.funcs[j], ModuleTables(m))
  {
    hide InstOk, Known, TypesOk;
    var f := m.funcs[j];
    assert FuncShapeOk(f);
    forall i, k | 0 <= i < |f.blocks| && 0 <= k < |f.blocks[i].insts|
      ensures Known(f.blocks[i].insts[k], ModuleTables(m))
    {
      ModuleKnown(m, j, i, k);
    }
  }

  lemma StrRoundTrip(b: Bytes, rest: Bytes)
    ensures ReadStr(Str(b) + rest) == Got(b, rest)
  {
    hide Uleb, ReadUleb;
    assert Str(b) + rest == Uleb(|b|) + (b + rest);
    UlebRoundTrip(|b|, b + rest);
  }

  lemma SegmentRoundTrip(d: Segment, rest: Bytes)
    ensures DecSegment(EncSegment(d) + rest) == Got(d, rest)
  {
    hide Uleb, ReadUleb, Str, ReadStr;
    var body := Uleb(d.offset) + (Str(d.bytes) + rest);
    assert EncSegment(d) + rest == [1] + body;
    assert (EncSegment(d) + rest)[1..] == body;
    UlebRoundTrip(d.offset, Str(d.bytes) + rest);
    StrRoundTrip(d.bytes, rest);
  }

  lemma ImportEntryRoundTrip(i: Import, rest: Bytes)
    ensures DecImportEntry(EncImport(i) + rest) == Got(i, rest)
  {
    hide Uleb, ReadUleb, Str, ReadStr;
    var end := [0] + rest;
    var mid := [0] + (Uleb(i.typeIdx) + end);
    assert EncImport(i) + rest == Str(i.name) + mid;
    StrRoundTrip(i.name, mid);
    assert mid[1..] == Uleb(i.typeIdx) + end;
    UlebRoundTrip(i.typeIdx, end);
    assert end[1..] == rest;
  }

  lemma TypeRoundTrip(s: Sig, rest: Bytes)
    requires SigOk(s)
    ensures DecType(EncType(s) + rest) == Got(s, rest)
  {
    hide Types, ReadTypes, TypesOk;
    var tail := Types(s.results) + rest;
    var body := Types(s.params) + tail;
    assert EncType(s) + rest == [0] + body;
    assert (EncType(s) + rest)[1..] == body;
    TypesRoundTrip(s.params, tail);
    TypesRoundTrip(s.results, rest);
  }

  function Itself<T>(x: T): T {
    x
  }

  lemma TablesRoundTrip(t: Tables, object_: bool, rest: Bytes)
    requires TypesSectionOk(t)
    ensures DecTables(object_, EncTables(t, object_) + rest) == Got(t, rest)
  {
    hide EncImport, DecImportEntry, EncType, DecType, SigOk, WriteList, ReadList;
    forall k, r: Bytes | 0 <= k < |t.imports|
      ensures DecImportEntry(EncImport(t.imports[k]) + r) == Got(t.imports[k], r)
    {
      ImportEntryRoundTrip(t.imports[k], r);
    }
    forall k, r: Bytes | 0 <= k < |t.types|
      ensures DecType(EncType(t.types[k]) + r) == Got(t.types[k], r)
    {
      TypeRoundTrip(t.types[k], r);
    }
    var end := [0] + rest;
    var r1 := WriteList(t.types, EncType) + end;
    var r := AfterImports(object_) + r1;
    assert EncTables(t, object_) + rest == WriteList(t.imports, EncImport) + r;
    ListRoundTrip(t.imports, EncImport, DecImportEntry, Itself<Import>, r);
    assert MapSeq(t.imports, Itself<Import>) == t.imports;
    assert r[|AfterImports(object_)|..] == r1;
    ListRoundTrip(t.types, EncType, DecType, Itself<Sig>, end);
    assert MapSeq(t.types, Itself<Sig>) == t.types;
    assert end[1..] == rest;
  }

  lemma FuncsRoundTrip(m: Module, rest: Bytes)
    requires ModuleOk(m)
    ensures DecFuncs(ModuleTables(m), WriteList(m.funcs, (f: Func) => EncFunc(f, ModuleTables(m))) + rest)
         == Got(MapSeq(m.funcs, UnalignedFunc), rest)
  {
    hide EncFunc, DecFunc, FuncOk, ModuleTables, WriteList, ReadList;
    var t := ModuleTables(m);
    var w, p := (f: Func) => EncFunc(f, t), (b: Bytes) => DecFunc(b, t);
    forall j | 0 <= j < |m.funcs|
      ensures Inverse(w, p, UnalignedFunc, m.funcs[j])
    {
      FuncFits(m, j);
      forall r: Bytes
        ensures p(w(m.funcs[j]) + r) == Got(UnalignedFunc(m.funcs[j]), r)
      {
        FuncRoundTrip(m.funcs[j], t, r);
      }
    }
    ListRoundTrip(m.funcs, w, p, UnalignedFunc, rest);
  }

  lemma HeaderRoundTrip(o: bool, rest: Bytes)
    ensures DecHeader(Header(o) + rest) == Got(o, rest)
  {
    var s := Header(o) + rest;
    assert s[16..] == rest;
    assert s[8] == Header(o)[8];
    if o {
      assert Header(false)[8] != s[8];
    }
  }

  lemma MemoryRoundTrip(m: Memory, rest: Bytes)
    ensures DecMemory(EncMemory(m) + rest) == Got(m, rest)
  {
    var s := EncMemory(m) + rest;
    match m
    case NoMemory =>
      assert s[1..] == rest;
    case Sized(log2) =>
      assert s[0] == 1 && s[1] == log2 && s[2] == 0;
      assert s[3..] == rest;
  }

  lemma DataRoundTrip(data: seq<Segment>, rest: Bytes)
    ensures ReadList(DecSegment, WriteList(data, EncSegment) + rest) == Got(data, rest)
  {
    hide EncSegment, DecSegment, WriteList, ReadList;
    forall k, r: Bytes | 0 <= k < |data|
      ensures DecSegment(EncSegment(data[k]) + r) == Got(data[k], r)
    {
      SegmentRoundTrip(data[k], r);
    }
    ListRoundTrip(data, EncSegment, DecSegment, Itself<Segment>, rest);
    assert MapSeq(data, Itself<Segment>) == data;
  }

  /** A module is rebuilt from its bytes alone, but for the alignment of its memory accesses: the decoder
      learns the tables the indices refer to from the stream itself. */
  lemma ModuleRoundTrip(m: Module, rest: Bytes)
    requires ModuleOk(m)
    ensures DecModule(EncModule(m) + rest) == Got(m.(funcs := MapSeq(m.funcs, UnalignedFunc)), rest)
  {
    hide ModuleTables, IsObject, ModuleOk, EncTables, DecTables, EncMemory, DecMemory, Header, DecHeader, WriteList,
      ReadList, DecFuncs, MapSeq;
    var t, o := ModuleTables(m), IsObject(m);
    var r4 := WriteList(m.funcs, (f: Func) => EncFunc(f, t)) + rest;
    var r3 := EncTables(t, o) + r4;
    var r2 := AfterData(o) + r3;
    var r1 := WriteList(m.data, EncSegment) + r2;
    var r := EncMemory(m.memory) + r1;
    assert EncModule(m) + rest == Header(o) + r;
    HeaderRoundTrip(o, r);
    MemoryRoundTrip(m.memory, r1);
    DataRoundTrip(m.data, r2);
    assert r2[|AfterData(o)|..] == r3;
    TableTypes(m);
    TablesRoundTrip(t, o, r4);
    FuncsRoundTrip(m, rest);
  }

  lemma TableTypes(m: Module)
    requires ModuleOk(m)
    ensures TypesSectionOk(ModuleTables(m))
  {
    FuncsCodeOk(m.funcs);
    VisitedTypesOk(FuncsCode(m.funcs), Tables([], []));
  }
}
