/** Strided views that share one blob (runtime/flatbuf.c). */
module FlatBuf {
  import opened MachineWords
  import opened Bits
  import opened Limbs
  import opened WordArith
  import opened LongDivision
  import opened BigInt
  import opened Shapes
  import DynInt

  const FB_MAX_DIMS: nat := 6

  /** What the buffer operations take and return; floats by their bits. */
  datatype Item = Buffer(view: View) | Num(v: Value) | Single(bits: nat) | Double(bits: nat)

  predicate Good(x: Item) {
    x.Num? ==> WellFormed(x.v.payload)
  }

  /** What the model takes from the machine: the word at the start of the cell an item points at, and its
      conversions to the two float formats. */
  datatype Machine = Machine(firstWord: Item -> i64, single: Item -> nat, double: Item -> nat)

  predicate IsInline(x: Item) {
    x.Num? && x.v.payload.Inline?
  }

  /** A header: element code, first leaf, blob and dimensions. */
  class View {
    const code: int
    const base: nat
    const blob: array<u8>
    const dims: seq<nat>

    ghost predicate Valid() {
      && 0 < |dims| <= FB_MAX_DIMS && (forall k :: 0 <= k < |dims| ==> dims[k] <= INT32_MAX)
      && (base + Total(dims)) * ElemSize(code) <= blob.Length <= INT32_MAX
    }

    /** The leaf an index path of this view names. */
    ghost function Reach(path: seq<nat>): nat
      requires |path| <= |dims|
    {
      base + Leaf(dims, path)
    }

    /** The bytes of one leaf of the blob. */
    ghost function Bytes(leaf: nat): seq<u8>
      requires (leaf + 1) * ElemSize(code) <= blob.Length
      reads blob
    {
      Peek(blob[..], ElemSize(code), leaf)
    }

    method Write(leaf: nat, s: seq<u8>)
      requires (leaf + 1) * ElemSize(code) <= blob.Length && |s| == ElemSize(code)
      modifies blob
      ensures blob[..] == Poke(old(blob[..]), ElemSize(code), leaf, s)
    {
      var at := leaf * ElemSize(code);
      forall k | 0 <= k < |s| {
        blob[at + k] := s[k];
      }
    }

    constructor (code: int, nd: int, dims: seq<i32>)
      requires ClampDims(nd) <= |dims| && TotalBytes(code, Clamped(nd, dims)) <= INT32_MAX
      ensures Valid() && fresh(blob)
      ensures this.code == code && base == 0 && this.dims == Clamped(nd, dims)
      ensures |this.dims| == (if nd < 1 then 1 else if nd > 6 then 6 else nd)
      ensures forall k :: 0 <= k < |this.dims| ==> this.dims[k] == if dims[k] < 0 then 0 else dims[k] as nat
      ensures blob.Length == TotalBytes(code, this.dims) && forall i :: 0 <= i < blob.Length ==> blob[i] == 0
    {
      var shape := Clamped(nd, dims);
      var total: i64 := 1;
      var k := 0;
      while k < |shape|
        invariant k <= |shape| && total as int == Wrapped(shape[..k])
      {
        NextProduct(shape, k);
        total := Mul64(total, shape[k]);
        k := k + 1;
      }
      assert shape[..k] == shape;
      TotalInBytes(code, shape);
      WrappedFits(shape);
      this.code, this.base, this.dims := code, 0, shape;
      this.blob := new u8[total as int * ElemSize(code)](_ => 0);
    }

    /** One dimension shallower, at the i-th row; the position is computed in 32 bits. */
    constructor Row(of: View, i: nat)
      requires of.Valid() && |of.dims| > 1 && i < of.dims[0]
      ensures Valid() && code == of.code && blob == of.blob && dims == of.dims[1..]
      ensures base == of.Reach([i])
    {
      ghost var inner := of.dims[1..];
      RowFits(of, i, Total(inner));
      var stride: i64 := 1;
      var k := 1;
      while k < |of.dims|
        invariant 1 <= k <= |of.dims| && stride as int == Wrapped(inner[..k - 1])
      {
        NextProduct(inner, k - 1);
        stride := Mul64(stride, of.dims[k]);
        k := k + 1;
      }
      assert inner[..k - 1] == inner;
      WrappedFits(inner);
      this.code, this.blob, this.dims := of.code, of.blob, of.dims[1..];
      this.base := (of.base as i32 + i as i32 * stride as i32) as nat;
    }
  }

  function ClampDims(nd: int): (r: nat)
    ensures 1 <= r <= FB_MAX_DIMS
  {
    if nd < 1 then 1 else if nd > FB_MAX_DIMS then FB_MAX_DIMS else nd
  }

  /** A negative dimension is empty. */
  function Clamped(nd: int, dims: seq<i32>): (r: seq<nat>)
    requires ClampDims(nd) <= |dims|
    ensures |r| == ClampDims(nd)
    ensures forall k :: 0 <= k < |r| ==> r[k] == if dims[k] < 0 then 0 else dims[k] as nat
  {
    seq(ClampDims(nd), k requires 0 <= k < ClampDims(nd) => if dims[k] < 0 then 0 else dims[k] as nat)
  }

  function TotalBytes(code: int, dims: seq<nat>): nat {
    Total(dims) * ElemSize(code)
  }

  /** A 64-bit multiplication, wrapping around. */
  function Mul64(x: i64, d: nat): (r: i64)
    ensures r as int == AsSigned(Cut(x as int * d, TWO64), TWO64)
  {
    SignedRoundTrip(Cut(x as int * d, TWO64), TWO64);
    AsSigned(Cut(x as int * d, TWO64), TWO64) as i64
  }

  lemma NextProduct(dims: seq<nat>, k: nat)
    requires k < |dims|
    ensures Wrapped(dims[..k + 1]) == AsSigned(Cut(Wrapped(dims[..k]) * dims[k], TWO64), TWO64)
  {
    assert dims[..k + 1] == dims[..k] + [dims[k]];
    WrappedPush(dims[..k], dims[k]);
  }

  lemma TotalInBytes(code: int, dims: seq<nat>)
    ensures Total(dims) <= TotalBytes(code, dims)
  {
    MulMono(1, ElemSize(code), Total(dims));
  }

  lemma RowFits(of: View, i: nat, stride: nat)
    requires of.Valid() && |of.dims| > 1 && i < of.dims[0] && stride == Total(of.dims[1..])
    ensures of.Reach([i]) == of.base + i * stride
    ensures of.base + i * stride + stride <= of.base + Total(of.dims) <= INT32_MAX
    ensures 0 <= i * stride && stride <= INT32_MAX
    ensures (of.base + i * stride + stride) * ElemSize(of.code) <= of.blob.Length
  {
    var d := of.dims;
    assert InRange(d, [i]);
    LeafFits(d, [i]);
    assert [i][1..] == [];
    var size := ElemSize(of.code);
    MulMono(1, size, of.base + Total(d));
    MulMono(of.base + i * stride + stride, of.base + Total(d), size);
  }

  // ---- scalars in the blob ----

  /** What a slot's bytes are read as: small codes inline, code 6 always boxed, code 7 through the canonical
      unsigned crossing, floats as they are; a code that is none of these reads as nil. */
  ghost predicate Shows(r: Item, code: int, s: seq<u8>) {
    if IntCode(code) then
      && r.Num? && r.v == Plain(r.v.payload) && IsInt(r.v.payload) && IntOf(r.v.payload) == ReadAs(code, s)
      && (code < 6 ==> r.v.payload.Inline?) && (code == 6 ==> r.v.payload.Wide?)
      && (code == 7 ==> Canonical(r.v.payload))
    else if code == 8 then r == Single(Gather(s))
    else if code == 9 then r == Double(Gather(s))
    else r == Num(Plain(Nil))
  }

  /** What a slot shows is a function of its bytes. */
  lemma ShowsUnique(r: Item, q: Item, code: int, s: seq<u8>)
    requires Shows(r, code, s) && Shows(q, code, s)
    ensures r == q
  {
    hide ReadAs;
    if code == 7 {
      CanonicalUnique(r.v.payload, q.v.payload);
    }
  }

  method LoadScalar(code: int, s: seq<u8>) returns (r: Item)
    requires |s| == ElemSize(code)
    ensures Shows(r, code, s)
  {
    hide WellFormed, Spread, Gather;
    if !IntCode(code) {
      return if code == 8 then Single(Gather(s)) else if code == 9 then Double(Gather(s)) else Num(Plain(Nil));
    }
    GatherBound(s);
    ReadInRange(code, s);
    Moduli();
    if code < 6 {
      r := Num(Plain(Inline(ReadAs(code, s) as i32)));
    } else if code == 6 {
      r := Num(Plain(Wide(ReadAs(code, s) as i64)));
    } else {
      var v := DynInt.U64Box(Gather(s) as u64);
      r := Num(v);
    }
  }

  /** A bigint cell's first word: its sign below its limb count. */
  function BigHeader(negative: bool, n: nat): (h: i64)
    requires n <= JBIG_MAX_LIMBS
    ensures 0 <= h
  {
    n as i64 * 0x1_0000_0000 + if negative then 0xFFFF_FFFF else 1
  }

  /** `jacl_int_val`: an inline integer, or the first word of whatever cell the item points at. */
  function IntVal(x: Item, m: Machine): i64
    requires Good(x)
  {
    if x.Num? then
      match x.v.payload
      case Inline(v) => v as i64
      case Wide(bits) => bits
      case Big(negative, limbs) => BigHeader(negative, |limbs|)
      case _ => m.firstWord(x)
    else m.firstWord(x)
  }

  predicate Known(code: int) {
    0 <= code < 10
  }

  /** The bytes a store writes. */
  function StoredBytes(code: int, x: Item, m: Machine): (s: seq<u8>)
    requires Known(code) && Good(x)
    ensures |s| == ElemSize(code)
  {
    if code == 8 then Spread(m.single(x), 4)
    else if code == 9 then Spread(m.double(x), 8)
    else Spread(IntVal(x, m) as int, ElemSize(code))
  }

  // ---- which integers come back ----

  /** An integer stored in an element is the integer read back exactly when it is not a bigint and lies where
      the element's reader can show it. */
  lemma StoredIntegerComesBack(code: int, v: Value, m: Machine, r: Item)
    requires IntCode(code) && IsInt(v.payload) && WellFormed(v.payload)
    requires Shows(r, code, StoredBytes(code, Num(v), m))
    ensures IntOf(r.v.payload) == IntOf(v.payload)
       <==> !v.payload.Big? && LowestRead(code) <= IntOf(v.payload) < AboveRead(code)
  {
    hide Val, Spread, ReadAs, Gather, AsSigned, Cut;
    var n := IntVal(Num(v), m) as int;
    StoredComesBack(code, n);
    if v.payload.Big? {
      HeaderShows(code, n);
    }
  }

  /** The same as numbers, code by code. */
  lemma IntegersThatComeBack(code: int, v: Value, m: Machine, r: Item)
    requires IntCode(code) && IsInt(v.payload) && WellFormed(v.payload)
    requires Shows(r, code, StoredBytes(code, Num(v), m))
    ensures var n, back := IntOf(v.payload), IntOf(r.v.payload) == IntOf(v.payload);
      && (code == 0 ==> (back <==> -128 <= n < 128)) && (code == 1 ==> (back <==> 0 <= n < 256))
      && (code == 2 ==> (back <==> -32768 <= n < 32768)) && (code == 3 ==> (back <==> 0 <= n < 65536))
      && (code == 4 || code == 5 ==> (back <==> INT32_MIN <= n <= INT32_MAX))
      && (code == 6 ==> (back <==> INT64_MIN <= n <= INT64_MAX))
      && (code == 7 ==> (back <==> 0 <= n <= INT64_MAX))
  {
    hide Val, Spread, ReadAs, Gather, LowestRead, AboveRead, Shows, StoredBytes;
    ElementTable();
    StoredIntegerComesBack(code, v, m, r);
  }

  /** Whatever an element shows of a number that is a non-negative i64, it is in i64's range. */
  lemma HeaderShows(code: int, n: int)
    requires IntCode(code) && 0 <= n <= INT64_MAX
    ensures INT64_MIN <= ReadAs(code, Spread(n, ElemSize(code))) <= INT64_MAX
  {
    hide Spread, Gather, AsSigned, Cut;
    var s := Spread(n, ElemSize(code));
    Moduli();
    GatherBound(s);
    ReadInRange(code, s);
    if code == 7 {
      StoredComesBack(code, n);
    }
  }

  /** A bigint stored in an i64 element shows its cell's header: the limb count above the sign, 1 or all ones. */
  lemma HeaderReads(v: Value, m: Machine, r: Item)
    requires v.payload.Big? && WellFormed(v.payload) && Shows(r, 6, StoredBytes(6, Num(v), m))
    ensures IntOf(r.v.payload) == |v.payload.limbs| * 0x1_0000_0000 + if v.payload.negative then 0xFFFF_FFFF else 1
  {
    hide Val, Spread, ReadAs, Gather, LowestRead, AboveRead;
    ElementTable();
    StoredComesBack(6, IntVal(Num(v), m) as int);
  }

  /** A u64 element whose top bit is set reads as a bigint; storing what was read, in any u64 element, leaves
      8589934593 there. */
  lemma CopiedElementIsLost(s: seq<u8>, r: Item, m: Machine)
    requires |s| == 8 && Gather(s) >= 0x8000_0000_0000_0000 && Shows(r, 7, s)
    ensures Good(r) && r.v.payload.Big? && ReadAs(7, StoredBytes(7, r, m)) == 8589934593
  {
    GatherBound(s);
    Moduli();
    TwoLimbsSuffice(r.v.payload);
    StoredComesBack(7, 8589934593);
    hide Gather, Spread, Val;
  }

  lemma TwoLimbsSuffice(p: Payload)
    requires Canonical(p) && INT64_MAX < IntOf(p) < 0x1_0000_0000_0000_0000
    ensures p.Big? && !p.negative && |p.limbs| == 2
  {
    TrimmedSize(p.limbs);
    ValBound(p.limbs);
    TwoLimbs();
  }

  /** 2^63 is in the range of a u64 element, and a bigint: stored there, it comes back as 8589934593. */
  lemma LeastBigIsLost(m: Machine, r: Item)
    requires var v := Plain(Big(false, [0, 0x8000_0000])); Good(Num(v)) && Shows(r, 7, StoredBytes(7, Num(v), m))
    ensures var v := Plain(Big(false, [0, 0x8000_0000]));
      && Good(Num(v)) && IntOf(v.payload) == 0x8000_0000_0000_0000 && LowestRead(7) <= IntOf(v.payload) < AboveRead(7)
      && IntOf(r.v.payload) == 8589934593
  {
    LeastBig();
    Moduli();
    StoredComesBack(7, 8589934593);
    hide Val, Spread, Gather, AsSigned, Cut;
  }

  lemma LeastBig()
    ensures Val([0, 0x8000_0000]) == 0x8000_0000_0000_0000 && Good(Num(Plain(Big(false, [0, 0x8000_0000]))))
  {
    SmallVal([0, 0x8000_0000]);
  }

  // ---- the operations ----

  /** w is the row that the index path names in v. */
  ghost predicate Under(w: View, v: View, path: seq<nat>)
    requires |path| <= |v.dims|
  {
    w.Valid() && w.code == v.code && w.blob == v.blob && w.dims == v.dims[|path|..] && w.base == v.Reach(path)
  }

  lemma LeafInside(v: View, path: seq<nat>)
    requires v.Valid() && InRange(v.dims, path) && |path| == |v.dims|
    ensures (v.Reach(path) + 1) * ElemSize(v.code) <= v.blob.Length
  {
    LeafFits(v.dims, path);
    assert v.dims[|path|..] == [];
    MulMono(v.Reach(path) + 1, v.base + Total(v.dims), ElemSize(v.code));
  }

  function IndexOf(idx: Item): int
    requires IsInline(idx)
  {
    idx.v.payload.v as int
  }

  /** Element or sub-view. A scalar read outside the row is nil, a nested one an error. */
  method Get(b: Item, idx: Item) returns (r: Item)
    requires b.Buffer? ==> b.view.Valid()
    ensures !b.Buffer? || !IsInline(idx) ==> r == Num(TYPE_ERROR)
    ensures b.Buffer? && IsInline(idx) && 0 <= IndexOf(idx) < b.view.dims[0] && |b.view.dims| == 1 ==>
              && InRange(b.view.dims, [IndexOf(idx)])
              && (b.view.Reach([IndexOf(idx)]) + 1) * ElemSize(b.view.code) <= b.view.blob.Length
              && Shows(r, b.view.code, b.view.Bytes(b.view.Reach([IndexOf(idx)])))
    ensures b.Buffer? && IsInline(idx) && 0 <= IndexOf(idx) < b.view.dims[0] && |b.view.dims| > 1 ==>
              r.Buffer? && Under(r.view, b.view, [IndexOf(idx)])
    ensures b.Buffer? && IsInline(idx) && !(0 <= IndexOf(idx) < b.view.dims[0]) ==>
              r == Num(if |b.view.dims| == 1 then Plain(Nil) else TYPE_ERROR)
  {
    if !b.Buffer? || !IsInline(idx) {
      return Num(TYPE_ERROR);
    }
    var v, i := b.view, IndexOf(idx);
    if |v.dims| <= 1 {
      if i < 0 || i >= v.dims[0] {
        return Num(Plain(Nil));
      }
      LeafInside(v, [i]);
      OneStep(v, i);
      r := LoadScalar(v.code, v.blob[(v.base + i) * ElemSize(v.code)..(v.base + i) * ElemSize(v.code) + ElemSize(v.code)]);
    } else if i < 0 || i >= v.dims[0] {
      return Num(TYPE_ERROR);
    } else {
      var w := new View.Row(v, i);
      r := Buffer(w);
    }
  }

  lemma OneStep(v: View, i: nat)
    requires |v.dims| == 1
    ensures v.Reach([i]) == v.base + i
  {
    assert v.dims[1..] == [] && [i][1..] == [];
    assert Total([]) == 1 && Leaf([], []) == 0;
  }

  predicate Settable(b: Item, idx: Item) {
    b.Buffer? && IsInline(idx) && |b.view.dims| == 1 && 0 <= IndexOf(idx) < b.view.dims[0]
  }

  /** Writes one scalar leaf, and nothing else in the blob; everything else is refused. */
  method Set(b: Item, idx: Item, x: Item, m: Machine) returns (r: Item)
    requires (b.Buffer? ==> b.view.Valid()) && Good(x)
    modifies if b.Buffer? then {b.view.blob} else {}
    ensures Settable(b, idx) && Known(b.view.code) ==>
              && r == x
              && (b.view.Reach([IndexOf(idx)]) + 1) * ElemSize(b.view.code) <= b.view.blob.Length
              && b.view.blob[..] == Poke(old(b.view.blob[..]), ElemSize(b.view.code), b.view.Reach([IndexOf(idx)]),
                                         StoredBytes(b.view.code, x, m))
    ensures Settable(b, idx) && !Known(b.view.code) ==> r == x
    ensures !Settable(b, idx) ==> r == Num(TYPE_ERROR)
    ensures b.Buffer? && !(Settable(b, idx) && Known(b.view.code)) ==> b.view.blob[..] == old(b.view.blob[..])
  {
    if !b.Buffer? || !IsInline(idx) {
      return Num(TYPE_ERROR);
    }
    var v, i := b.view, IndexOf(idx);
    if |v.dims| != 1 || i < 0 || i >= v.dims[0] {
      return Num(TYPE_ERROR);
    }
    LeafInside(v, [i]);
    OneStep(v, i);
    if Known(v.code) {
      v.Write(v.base + i, StoredBytes(v.code, x, m));
    }
    r := x;
  }

  /** A buffer of the same shape with the same leaves and a blob of its own. */
  method Copy(b: Item) returns (r: Item)
    requires b.Buffer? ==> b.view.Valid()
    ensures !b.Buffer? ==> r == b
    ensures b.Buffer? ==>
              && r.Buffer? && r.view.Valid() && fresh(r.view.blob) && r.view.base == 0
              && r.view.code == b.view.code && r.view.dims == b.view.dims
              && b.view.base * ElemSize(b.view.code) + r.view.blob.Length <= b.view.blob.Length
              && r.view.blob[..] == b.view.blob[b.view.base * ElemSize(b.view.code)..][..r.view.blob.Length]
  {
    if !b.Buffer? {
      return b;
    }
    var v := b.view;
    var dims := seq(|v.dims|, k requires 0 <= k < |v.dims| => v.dims[k] as i32);
    assert Clamped(|v.dims|, dims) == v.dims;
    CopyFits(v);
    var w := new View(v.code, |v.dims|, dims);
    var from, n := v.base * ElemSize(v.code), w.blob.Length;
    forall k | 0 <= k < n {
      w.blob[k] := v.blob[from + k];
    }
    assert w.blob[..] == v.blob[from..][..n];
    r := Buffer(w);
  }

  lemma CopyFits(v: View)
    requires v.Valid()
    ensures v.base * ElemSize(v.code) + TotalBytes(v.code, v.dims) <= v.blob.Length
  {
    assert (v.base + Total(v.dims)) * ElemSize(v.code) == v.base * ElemSize(v.code) + Total(v.dims) * ElemSize(v.code);
  }

  // ---- chains of operations ----

  function Idx(i: nat): Item
    requires i <= INT32_MAX
  {
    Num(Plain(Inline(i as i32)))
  }

  /** A chain of indexings, each on the view the one before returned. */
  method Descend(v: View, path: seq<nat>) returns (w: View)
    requires v.Valid() && InRange(v.dims, path) && |path| < |v.dims|
    ensures Under(w, v, path)
  {
    w := v;
    assert v.dims[0..] == v.dims;
    for k := 0 to |path|
      invariant Under(w, v, path[..k])
    {
      var r := Get(Buffer(w), Idx(path[k]));
      UnderStep(w, v, path, k);
      w := r.view;
    }
    assert path[..|path|] == path;
  }

  lemma UnderStep(w: View, v: View, path: seq<nat>, k: nat)
    requires k < |path| < |v.dims| && Under(w, v, path[..k])
    ensures |w.dims| > 1 && w.dims[0] == v.dims[k] && w.dims[1..] == v.dims[k + 1..]
    ensures w.Reach([path[k]]) == v.Reach(path[..k + 1])
  {
    assert path[..k + 1] == path[..k] + [path[k]];
    LeafSplit(v.dims, path[..k], [path[k]]);
  }

  /** Reading through any chain of sub-views shows the leaf the whole path names. */
  method Fetch(v: View, path: seq<nat>) returns (r: Item)
    requires v.Valid() && InRange(v.dims, path) && |path| == |v.dims|
    ensures (v.Reach(path) + 1) * ElemSize(v.code) <= v.blob.Length
    ensures Shows(r, v.code, v.Bytes(v.Reach(path)))
  {
    LeafInside(v, path);
    var n := |path| - 1;
    var w := Descend(v, path[..n]);
    LastStep(w, v, path);
    r := Get(Buffer(w), Idx(path[n]));
  }

  lemma LastStep(w: View, v: View, path: seq<nat>)
    requires 0 < |path| == |v.dims| && Under(w, v, path[..|path| - 1])
    ensures w.dims == [v.dims[|path| - 1]] && w.Reach([path[|path| - 1]]) == v.Reach(path)
  {
    var n := |path| - 1;
    assert path == path[..n] + [path[n]];
    LeafSplit(v.dims, path[..n], [path[n]]);
  }

  /** Writing through a chain changes the leaf the whole path names and no other byte. */
  method Assign(v: View, path: seq<nat>, x: Item, m: Machine)
    requires v.Valid() && InRange(v.dims, path) && |path| == |v.dims| && Good(x)
    modifies v.blob
    ensures (v.Reach(path) + 1) * ElemSize(v.code) <= v.blob.Length
    ensures v.blob[..] == if !Known(v.code) then old(v.blob[..]) else
              Poke(old(v.blob[..]), ElemSize(v.code), v.Reach(path), StoredBytes(v.code, x, m))
  {
    LeafInside(v, path);
    var n := |path| - 1;
    var w := Descend(v, path[..n]);
    LastStep(w, v, path);
    var r := Set(Buffer(w), Idx(path[n]), x, m);
  }

  /** Two views of one blob: what is written through one shows through the other exactly when both paths
      reach the same leaf; every other leaf of either view shows what it showed before. */
  method WriteShowsThrough(u: View, p: seq<nat>, v: View, q: seq<nat>, x: Item, m: Machine)
    returns (before: Item, after: Item)
    requires u.Valid() && v.Valid() && u.blob == v.blob && u.code == v.code && Good(x)
    requires InRange(u.dims, p) && |p| == |u.dims| && InRange(v.dims, q) && |q| == |v.dims|
    modifies u.blob
    ensures u.Reach(p) == v.Reach(q) && Known(v.code) ==> Shows(after, v.code, StoredBytes(v.code, x, m))
    ensures u.Reach(p) != v.Reach(q) || !Known(v.code) ==> after == before
  {
    before := Fetch(v, q);
    ghost var was := u.blob[..];
    Assign(u, p, x, m);
    after := Fetch(v, q);
    if Known(u.code) {
      PokePeek(was, ElemSize(u.code), u.Reach(p), StoredBytes(u.code, x, m), v.Reach(q));
    }
    if u.Reach(p) != v.Reach(q) || !Known(v.code) {
      ShowsUnique(before, after, v.code, v.Bytes(v.Reach(q)));
    }
  }

  /** A copy shares nothing: it shows what the original showed, and goes on showing it after the original is
      written. */
  method CopyStaysApart(v: View, p: seq<nat>, q: seq<nat>, x: Item, m: Machine) returns (before: Item, after: Item)
    requires v.Valid() && Good(x)
    requires InRange(v.dims, p) && |p| == |v.dims| && InRange(v.dims, q) && |q| == |v.dims|
    modifies v.blob
    ensures after == before
  {
    before := Fetch(v, q);
    var c := Copy(Buffer(v));
    CopiedLeaf(c.view, v, q);
    ghost var s := c.view.Bytes(c.view.Reach(q));
    Assign(v, p, x, m);
    after := Fetch(c.view, q);
    ShowsUnique(before, after, v.code, s);
  }

  lemma CopiedLeaf(c: View, v: View, q: seq<nat>)
    requires v.Valid() && c.Valid() && c.dims == v.dims && c.code == v.code && c.base == 0
    requires InRange(v.dims, q) && |q| == |v.dims|
    requires v.base * ElemSize(v.code) + c.blob.Length <= v.blob.Length
    requires c.blob[..] == v.blob[v.base * ElemSize(v.code)..][..c.blob.Length]
    ensures (c.Reach(q) + 1) * ElemSize(v.code) <= c.blob.Length && (v.Reach(q) + 1) * ElemSize(v.code) <= v.blob.Length
    ensures c.Bytes(c.Reach(q)) == v.Bytes(v.Reach(q))
  {
    LeafInside(c, q);
    LeafInside(v, q);
    var size, leaf := ElemSize(v.code), Leaf(v.dims, q);
    var o, a := v.base * size, leaf * size;
    assert (v.base + leaf) * size == o + a;
    SlicedTwice(v.blob[..], o, c.blob.Length, a, size);
    assert v.blob[o..] == v.blob[..][o..];
  }

  lemma SlicedTwice(s: seq<u8>, o: nat, n: nat, a: nat, size: nat)
    requires o + n <= |s| && a + size <= n
    ensures s[o..][..n][a..a + size] == s[o + a..o + a + size]
  {
  }
}
