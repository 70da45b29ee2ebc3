/** Row-major shapes and the scalars of a flat buffer (runtime/flatbuf.c), as values. */
module Shapes {
  import opened MachineWords
  import opened Bits
  import opened WordArith

  // ---- index paths and leaves ----

  /** Leaves of a shape; a row of no dimensions is one scalar. */
  function Total(dims: seq<nat>): nat {
    if dims == [] then 1 else dims[0] * Total(dims[1..])
  }

  predicate InRange(dims: seq<nat>, path: seq<nat>) {
    |path| <= |dims| && forall k :: 0 <= k < |path| ==> path[k] < dims[k]
  }

  /** The first leaf under an index path. */
  function Leaf(dims: seq<nat>, path: seq<nat>): nat
    requires |path| <= |dims|
  {
    if path == [] then 0 else path[0] * Total(dims[1..]) + Leaf(dims[1..], path[1..])
  }

  /** The path of a leaf. */
  function PathTo(dims: seq<nat>, leaf: nat): (p: seq<nat>)
    requires leaf < Total(dims)
    ensures |p| == |dims|
  {
    if dims == [] then [] else
      var t := Total(dims[1..]);
      TotalSplits(dims[0], t, leaf);
      [leaf / t] + PathTo(dims[1..], leaf % t)
  }

  lemma TotalSplits(d: nat, t: nat, leaf: nat)
    requires leaf < d * t
    ensures t > 0 && 0 <= leaf % t < t && leaf / t < d && leaf == leaf / t * t + leaf % t
  {
    if t == 0 {
      assert false;
    }
    Euclid(leaf, t);
    if leaf / t >= d {
      MulMono(d, leaf / t, t);
      assert false;
    }
  }

  /** A path stops inside its shape, and what hangs under it fits there too. */
  lemma {:induction false} LeafFits(dims: seq<nat>, path: seq<nat>)
    requires InRange(dims, path)
    ensures Leaf(dims, path) + Total(dims[|path|..]) <= Total(dims)
    decreases |dims|
  {
    if path == [] {
      assert dims[0..] == dims;
    } else {
      assert dims[1..][|path[1..]|..] == dims[|path|..];
      assert InRange(dims[1..], path[1..]);
      LeafFits(dims[1..], path[1..]);
      Row(path[0], dims[0], Total(dims[1..]));
    }
  }

  lemma Row(i: nat, d: nat, t: nat)
    requires i < d
    ensures i * t + t <= d * t
  {
    MulMono(i + 1, d, t);
    assert (i + 1) * t == i * t + t;
  }

  /** Index paths and leaves are in bijection, one direction ... */
  lemma {:induction false} PathOfLeaf(dims: seq<nat>, leaf: nat)
    requires leaf < Total(dims)
    ensures InRange(dims, PathTo(dims, leaf)) && Leaf(dims, PathTo(dims, leaf)) == leaf
    decreases |dims|
  {
    if dims != [] {
      var t := Total(dims[1..]);
      TotalSplits(dims[0], t, leaf);
      PathOfLeaf(dims[1..], leaf % t);
      var p := PathTo(dims, leaf);
      assert p[1..] == PathTo(dims[1..], leaf % t);
      assert forall k :: 1 <= k < |p| ==> p[k] == p[1..][k - 1];
    }
  }

  /** ... and the other. */
  lemma {:induction false} LeafOfPath(dims: seq<nat>, path: seq<nat>)
    requires InRange(dims, path) && |path| == |dims|
    ensures Leaf(dims, path) < Total(dims) && PathTo(dims, Leaf(dims, path)) == path
    decreases |dims|
  {
    LeafFits(dims, path);
    assert dims[|path|..] == [];
    if dims != [] {
      var t, rest := Total(dims[1..]), Leaf(dims[1..], path[1..]);
      assert InRange(dims[1..], path[1..]);
      LeafOfPath(dims[1..], path[1..]);
      QuotientOf(path[0], t, rest);
      assert path == [path[0]] + path[1..];
    }
  }

  lemma QuotientOf(q: nat, t: nat, r: nat)
    requires r < t
    ensures (q * t + r) / t == q && (q * t + r) % t == r
  {
    var n := q * t + r;
    Euclid(n, t);
    if n / t < q {
      Row(n / t, q, t);
    } else if n / t > q {
      Row(q, n / t, t);
    }
  }

  /** Two paths never meet in one leaf. */
  lemma DistinctPathsDistinctLeaves(dims: seq<nat>, p: seq<nat>, q: seq<nat>)
    requires InRange(dims, p) && InRange(dims, q) && |p| == |q| == |dims|
    ensures Leaf(dims, p) == Leaf(dims, q) <==> p == q
  {
    LeafOfPath(dims, p);
    LeafOfPath(dims, q);
  }

  /** Descending in two steps is descending at once: a sub-view's paths are paths of the whole. */
  lemma {:induction false} LeafSplit(dims: seq<nat>, p: seq<nat>, q: seq<nat>)
    requires |p| + |q| <= |dims|
    ensures Leaf(dims, p + q) == Leaf(dims, p) + Leaf(dims[|p|..], q)
    decreases |p|
  {
    if p == [] {
      assert p + q == q && dims[0..] == dims;
    } else {
      assert (p + q)[1..] == p[1..] + q;
      assert dims[1..][|p[1..]|..] == dims[|p|..];
      LeafSplit(dims[1..], p[1..], q);
    }
  }

  lemma {:induction false} TotalPush(dims: seq<nat>, d: nat)
    ensures Total(dims + [d]) == Total(dims) * d
    decreases |dims|
  {
    if dims == [] {
      assert (dims + [d])[1..] == [];
    } else {
      assert (dims + [d])[1..] == dims[1..] + [d];
      TotalPush(dims[1..], d);
      Associates(dims[0], Total(dims[1..]), d);
    }
  }

  lemma Associates(a: int, b: int, c: int)
    ensures a * b * c == a * (b * c)
  {
  }

  /** No product on the way, dimension by dimension, leaves a 64-bit word. */
  ghost predicate RunningFits(dims: seq<nat>) {
    forall k :: 0 <= k <= |dims| ==> Total(dims[..k]) <= INT64_MAX
  }

  /** Where the dimensions first are empty. */
  function FirstZero(dims: seq<nat>): (n: nat)
    ensures n <= |dims| && (n < |dims| ==> dims[n] == 0) && forall k :: 0 <= k < n ==> dims[k] > 0
  {
    if dims == [] || dims[0] == 0 then 0 else 1 + FirstZero(dims[1..])
  }

  /** The products on the way fit exactly when the product of the dimensions before the first empty one does. */
  lemma RunningFitsExactly(dims: seq<nat>)
    ensures RunningFits(dims) <==> Total(dims[..FirstZero(dims)]) <= INT64_MAX
  {
    var z := FirstZero(dims);
    if Total(dims[..z]) <= INT64_MAX {
      forall k | 0 <= k <= |dims|
        ensures Total(dims[..k]) <= INT64_MAX
      {
        if k <= z {
          ProductsGrow(dims, k, z);
        } else {
          NothingAfterZero(dims, z, k);
        }
      }
    }
  }

  lemma {:induction false} ProductsGrow(dims: seq<nat>, k: nat, z: nat)
    requires k <= z <= FirstZero(dims)
    ensures 0 < Total(dims[..k]) <= Total(dims[..z])
    decreases z
  {
    hide Total;
    if z == 0 {
      NoDimensions(dims);
    } else {
      ProductsGrow(dims, if k < z then k else k - 1, z - 1);
      LastFactor(dims, z);
    }
  }

  lemma NoDimensions(dims: seq<nat>)
    ensures Total(dims[..0]) == 1
  {
  }

  lemma LastFactor(dims: seq<nat>, z: nat)
    requires 0 < z <= |dims| && dims[z - 1] > 0 && Total(dims[..z - 1]) > 0
    ensures Total(dims[..z]) >= Total(dims[..z - 1])
  {
    hide Total;
    assert dims[..z] == dims[..z - 1] + [dims[z - 1]];
    TotalPush(dims[..z - 1], dims[z - 1]);
    MulMono(1, dims[z - 1], Total(dims[..z - 1]));
  }

  lemma {:induction false} NothingAfterZero(dims: seq<nat>, z: nat, k: nat)
    requires z < k <= |dims| && dims[z] == 0
    ensures Total(dims[..k]) == 0
    decreases k
  {
    assert dims[..k] == dims[..k - 1] + [dims[k - 1]];
    TotalPush(dims[..k - 1], dims[k - 1]);
    if k > z + 1 {
      NothingAfterZero(dims, z, k - 1);
    }
  }

  lemma {:induction false} NoZero(dims: seq<nat>)
    requires Total(dims) > 0
    ensures FirstZero(dims) == |dims|
    decreases |dims|
  {
    if dims != [] {
      TotalSplits(dims[0], Total(dims[1..]), 0);
      NoZero(dims[1..]);
    }
  }

  /** A total that is not empty bounds every product. */
  lemma RunningFitsUnlessEmpty(dims: seq<nat>)
    requires 0 < Total(dims) <= INT64_MAX
    ensures RunningFits(dims)
  {
    NoZero(dims);
    assert dims[..FirstZero(dims)] == dims;
    RunningFitsExactly(dims);
  }

  /** And it does fail: three of the largest dimensions before an empty one. */
  lemma RunningCanOverflow()
    ensures var dims := [INT32_MAX, INT32_MAX, INT32_MAX, 0]; Total(dims) == 0 && !RunningFits(dims)
  {
    var m: nat := INT32_MAX;
    var dims := [m, m, m, 0];
    assert dims[..3] == [m, m] + [m] && [m, m] == [m] + [m] && dims == dims[..3] + [0];
    TotalPush([m], m);
    TotalPush([m, m], m);
    TotalPush(dims[..3], 0);
    assert [m][1..] == [] && Total([m]) == m;
  }

  /** The product as a 64-bit multiplier leaves it, dimension by dimension. */
  function Wrapped(dims: seq<nat>): int {
    AsSigned(Cut(Total(dims), TWO64), TWO64)
  }

  const TWO64: nat := 0x1_0000_0000_0000_0000

  /** One more dimension, multiplied in 64 bits with wrap-around. */
  lemma WrappedPush(dims: seq<nat>, d: nat)
    ensures Wrapped(dims + [d]) == AsSigned(Cut(Wrapped(dims) * d, TWO64), TWO64)
  {
    hide AsSigned;
    var p := Total(dims);
    TotalPush(dims, d);
    SignedRoundTrip(Cut(p, TWO64), TWO64);
    CutMul(p, d, TWO64);
    CutMul(Wrapped(dims), d, TWO64);
  }

  /** Whatever happens on the way, a product that fits in the end is right. */
  lemma WrappedFits(dims: seq<nat>)
    requires Total(dims) <= INT64_MAX
    ensures Wrapped(dims) == Total(dims)
  {
    SignedOfCut(Total(dims), TWO64);
  }

  // ---- scalars ----

  /** Bytes of a leaf. An unknown code counts eight. */
  function ElemSize(code: int): (n: nat)
    ensures n in {1, 2, 4, 8}
  {
    if code == 0 || code == 1 then 1
    else if code == 2 || code == 3 then 2
    else if code == 4 || code == 5 || code == 8 then 4
    else 8
  }

  predicate IntCode(code: int) {
    0 <= code < 8
  }

  function Modulus(k: nat): (m: nat)
    ensures m > 0
  {
    if k == 0 then 1 else 256 * Modulus(k - 1)
  }

  /** The low k bytes of a number, lowest first. */
  function Spread(n: int, k: nat): (s: seq<u8>)
    ensures |s| == k
    decreases k
  {
    if k == 0 then [] else [(n % 256) as u8] + Spread(n / 256, k - 1)
  }

  function Gather(s: seq<u8>): nat {
    if s == [] then 0 else s[0] as nat + 256 * Gather(s[1..])
  }

  lemma {:induction false} GatherSpread(n: int, k: nat)
    ensures Gather(Spread(n, k)) == Cut(n, Modulus(k))
    decreases k
  {
    if k > 0 {
      GatherSpread(n / 256, k - 1);
      var m := Modulus(k - 1);
      CutOf(n / 256, m);
      var j: int :| Cut(n / 256, m) == n / 256 + m * j;
      var low := n % 256 + 256 * Cut(n / 256, m);
      assert Spread(n, k)[1..] == Spread(n / 256, k - 1);
      Euclid(n, 256);
      assert low == n + (256 * m) * j by {
        Regrouped(m, j);
      }
      Euclid(n / 256, m);
      CutShift(n, j, 256 * m);
      CutSmall(low, 256 * m);
    } else {
      assert n % 1 == 0;
    }
  }

  /** Little-endian: byte i holds bits 8 i to 8 i + 7 of the number. */
  lemma {:induction false} SpreadBytes(n: int, k: nat, i: nat)
    requires i < k
    ensures Spread(n, k)[i] as int == n / Modulus(i) % 256
    decreases i
  {
    if i > 0 {
      SpreadBytes(n / 256, k - 1, i - 1);
      DivTwice(n, 256, Modulus(i - 1));
    }
  }

  lemma Regrouped(m: int, j: int)
    ensures 256 * (m * j) == (256 * m) * j
  {
  }

  lemma Moduli()
    ensures Modulus(1) == 0x100 && Modulus(2) == 0x1_0000 && Modulus(4) == 0x1_0000_0000
    ensures Modulus(8) == 0x1_0000_0000_0000_0000
  {
    assert Modulus(1) == 256 && Modulus(2) == 256 * Modulus(1) && Modulus(3) == 256 * Modulus(2);
    assert Modulus(4) == 256 * Modulus(3) && Modulus(5) == 256 * Modulus(4) && Modulus(6) == 256 * Modulus(5);
    assert Modulus(7) == 256 * Modulus(6);
  }

  /** Which codes are read back through a signed type. The 32-bit ones both are: an unsigned element is
      cast to int32 on its way to an inline integer. */
  predicate ReadSigned(code: int) {
    code in {0, 2, 4, 5, 6}
  }

  /** The number a slot of this code shows. */
  function ReadAs(code: int, s: seq<u8>): int {
    if ReadSigned(code) then AsSigned(Gather(s), Modulus(|s|)) else Gather(s)
  }

  function LowestRead(code: int): int {
    if ReadSigned(code) then 0 - Modulus(ElemSize(code)) / 2 else 0
  }

  function AboveRead(code: int): int {
    if ReadSigned(code) then Modulus(ElemSize(code)) / 2 else Modulus(ElemSize(code))
  }

  /** Each code's size in bytes and the numbers its reader can show: a u32 element those of an i32. */
  lemma ElementTable()
    ensures ElemSize(0) == ElemSize(1) == 1 && ElemSize(2) == ElemSize(3) == 2
    ensures ElemSize(4) == ElemSize(5) == ElemSize(8) == 4 && ElemSize(6) == ElemSize(7) == ElemSize(9) == 8
    ensures LowestRead(0) == -128 && AboveRead(0) == 128 && LowestRead(1) == 0 && AboveRead(1) == 256
    ensures LowestRead(2) == -32768 && AboveRead(2) == 32768 && LowestRead(3) == 0 && AboveRead(3) == 65536
    ensures LowestRead(4) == LowestRead(5) == INT32_MIN && AboveRead(4) == AboveRead(5) == INT32_MAX + 1
    ensures LowestRead(6) == INT64_MIN && AboveRead(6) == INT64_MAX + 1
    ensures LowestRead(7) == 0 && AboveRead(7) == 0x1_0000_0000_0000_0000
  {
    Moduli();
  }

  lemma ReadInRange(code: int, s: seq<u8>)
    requires IntCode(code) && |s| == ElemSize(code) && Gather(s) < Modulus(|s|)
    ensures LowestRead(code) <= ReadAs(code, s) < AboveRead(code)
  {
    Moduli();
    if ReadSigned(code) {
      SignedRoundTrip(Gather(s), Modulus(|s|));
    }
  }

  lemma {:induction false} GatherBound(s: seq<u8>)
    ensures Gather(s) < Modulus(|s|)
    decreases |s|
  {
    if s != [] {
      GatherBound(s[1..]);
    }
  }

  /** A stored number comes back exactly when the code's reader can show it; otherwise another number
      with the same low bits does. */
  lemma StoredComesBack(code: int, n: int)
    requires IntCode(code)
    ensures ReadAs(code, Spread(n, ElemSize(code))) == n <==> LowestRead(code) <= n < AboveRead(code)
    ensures Cut(ReadAs(code, Spread(n, ElemSize(code))), Modulus(ElemSize(code))) == Cut(n, Modulus(ElemSize(code)))
  {
    hide Spread, Gather, Modulus, AsSigned, Cut;
    var k := ElemSize(code);
    GatherSpread(n, k);
    GatherBound(Spread(n, k));
    Moduli();
    LowBits(n, Modulus(k));
  }

  /** A number is what its low bits show, read unsigned or signed, exactly when it lies in that range. */
  lemma LowBits(n: int, m: nat)
    requires m > 0 && m % 2 == 0
    ensures Cut(n, m) == n <==> 0 <= n < m
    ensures AsSigned(Cut(n, m), m) == n <==> 0 - m / 2 <= n < m / 2
    ensures Cut(Cut(n, m), m) == Cut(AsSigned(Cut(n, m), m), m) == Cut(n, m)
  {
    hide Cut, AsSigned;
    CutBelow(n, m);
    CutSmall(Cut(n, m), m);
    SignedRoundTrip(Cut(n, m), m);
    if 0 <= n < m {
      CutSmall(n, m);
    }
    if 0 - m / 2 <= n < m / 2 {
      SignedOfCut(n, m);
    }
  }

  lemma CutBelow(n: int, m: nat)
    requires m > 0
    ensures 0 <= Cut(n, m) < m
  {
  }

  /** An element of an unsigned 32-bit buffer with its top bit set reads back negative. */
  lemma UnsignedElementReadsNegative()
    ensures 0x8000_0000 < 0x1_0000_0000 && ReadAs(5, Spread(0x8000_0000, 4)) == -0x8000_0000
  {
    GatherSpread(0x8000_0000, 4);
    Moduli();
    CutSmall(0x8000_0000, 0x1_0000_0000);
  }

  // ---- one leaf among the others ----

  function Peek(mem: seq<u8>, size: nat, leaf: nat): seq<u8>
    requires (leaf + 1) * size <= |mem|
  {
    mem[leaf * size..leaf * size + size]
  }

  function Poke(mem: seq<u8>, size: nat, leaf: nat, b: seq<u8>): (r: seq<u8>)
    requires (leaf + 1) * size <= |mem| && |b| == size
    ensures |r| == |mem|
  {
    mem[..leaf * size] + b + mem[leaf * size + size..]
  }

  /** A write is seen at its own leaf and nowhere else. */
  lemma PokePeek(mem: seq<u8>, size: nat, leaf: nat, b: seq<u8>, other: nat)
    requires (leaf + 1) * size <= |mem| && |b| == size && (other + 1) * size <= |mem|
    ensures Peek(Poke(mem, size, leaf, b), size, other) == if other == leaf then b else Peek(mem, size, other)
  {
    if other < leaf {
      Row(other, leaf, size);
    } else if other > leaf {
      Row(leaf, other, size);
    }
  }
}
