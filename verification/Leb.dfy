/** LEB128 integers as the serializer writes them (codegen/irbuilder.c), and a reader for them
    (section 7.6 of the DWARF 5 standard). */
module Leb {
  import opened MachineWords

  type Bytes = seq<u8>

  /** What a reader finds at the start of its input, and what is left. */
  datatype Read<T> = Got(val: T, rest: Bytes) | Malformed

  // ---- unsigned ----

  function Uleb(v: nat): (r: Bytes)
    ensures |r| > 0
  {
    if v < 128 then [v as u8] else [(v % 128 + 128) as u8] + Uleb(v / 128)
  }

  function ReadUleb(s: Bytes): Read<nat>
    decreases |s|
  {
    if s == [] then Malformed
    else if s[0] < 128 then Got(s[0] as nat, s[1..])
    else match ReadUleb(s[1..])
         case Got(v, rest) => Got((s[0] as nat - 128) + 128 * v, rest)
         case Malformed => Malformed
  }

  /** Every number comes back, and the reader stops exactly where the writer did. */
  lemma {:induction false} UlebRoundTrip(v: nat, rest: Bytes)
    ensures ReadUleb(Uleb(v) + rest) == Got(v, rest)
    decreases v
  {
    if v < 128 {
      assert ([v as u8] + rest)[1..] == rest;
    } else {
      UlebRoundTrip(v / 128, rest);
      var s := Uleb(v) + rest;
      assert s[1..] == Uleb(v / 128) + rest && s[0] as nat == v % 128 + 128;
      Euclid(v, 128);
    }
  }

  function Power128(k: nat): nat {
    if k == 0 then 1 else 128 * Power128(k - 1)
  }

  /** k bytes hold exactly the numbers below 128^k. */
  lemma {:induction false} UlebLength(v: nat, k: nat)
    requires k > 0
    ensures |Uleb(v)| <= k <==> v < Power128(k)
    decreases k
  {
    if v >= 128 && k > 1 {
      UlebLength(v / 128, k - 1);
    } else if k == 1 {
      assert Power128(1) == 128;
    } else {
      Power128Big(k);
    }
  }

  lemma {:induction false} Power128Big(k: nat)
    requires k > 0
    ensures Power128(k) >= 128
  {
    if k > 1 {
      Power128Big(k - 1);
    }
  }

  /** Byte i is the i-th group of seven bits, low first, and all but the last say that more follow. */
  lemma {:induction false} UlebBytes(v: nat, i: nat)
    requires i < |Uleb(v)|
    ensures Power128(i) > 0
    ensures Uleb(v)[i] as int == v / Power128(i) % 128 + if i < |Uleb(v)| - 1 then 128 else 0
    decreases i
  {
    if i > 0 {
      UlebBytes(v / 128, i - 1);
      DivTwice(v, 128, Power128(i - 1));
    }
  }

  // ---- signed ----

  /** The arithmetic shift rounds down; the last byte's bit 6 is the sign. */
  function Sleb(v: int): (r: Bytes)
    ensures |r| > 0
    decreases if v >= 0 then v else -v - 1
  {
    var byte, next := v % 128, v / 128;
    if (next == 0 && byte < 64) || (next == -1 && byte >= 64) then [byte as u8]
    else [(byte + 128) as u8] + Sleb(next)
  }

  function ReadSleb(s: Bytes): Read<int>
    decreases |s|
  {
    if s == [] then Malformed
    else if s[0] < 64 then Got(s[0] as int, s[1..])
    else if s[0] < 128 then Got(s[0] as int - 128, s[1..])
    else match ReadSleb(s[1..])
         case Got(v, rest) => Got((s[0] as int - 128) + 128 * v, rest)
         case Malformed => Malformed
  }

  /** Where a signed number ends: what is left is bit 6 of the byte, repeated. */
  lemma LastByte(v: int)
    ensures |Sleb(v)| == 1 <==> -64 <= v < 64
  {
    Euclid(v, 128);
  }

  /** k bytes hold exactly the numbers from -64 * 128^(k-1) up to but not including 64 * 128^(k-1). */
  lemma {:induction false} SlebLength(v: int, k: nat)
    requires k > 0
    ensures |Sleb(v)| <= k <==> -64 * Power128(k - 1) <= v < 64 * Power128(k - 1)
    decreases k
  {
    LastByte(v);
    PowerPositive(k - 1);
    if k > 1 && !(-64 <= v < 64) {
      SlebLength(v / 128, k - 1);
      Scaled(v, Power128(k - 2));
    }
  }

  lemma {:induction false} PowerPositive(k: nat)
    ensures Power128(k) > 0
  {
    if k > 0 {
      PowerPositive(k - 1);
    }
  }

  lemma Scaled(v: int, p: nat)
    ensures -64 * p <= v / 128 < 64 * p <==> -64 * (128 * p) <= v < 64 * (128 * p)
  {
    Euclid(v, 128);
  }

  /** Byte i is the i-th group of seven bits of the two's complement, low first. */
  lemma {:induction false} SlebBytes(v: int, i: nat)
    requires i < |Sleb(v)|
    ensures Power128(i) > 0
    ensures Sleb(v)[i] as int == v / Power128(i) % 128 + if i < |Sleb(v)| - 1 then 128 else 0
    decreases i
  {
    if i > 0 {
      SlebBytes(v / 128, i - 1);
      DivTwice(v, 128, Power128(i - 1));
    }
  }

  lemma {:induction false} SlebRoundTrip(v: int, rest: Bytes)
    ensures ReadSleb(Sleb(v) + rest) == Got(v, rest)
    decreases if v >= 0 then v else -v - 1
  {
    var byte, next := v % 128, v / 128;
    var s := Sleb(v) + rest;
    if (next == 0 && byte < 64) || (next == -1 && byte >= 64) {
      assert s[1..] == rest;
    } else {
      SlebRoundTrip(next, rest);
      assert s[1..] == Sleb(next) + rest && s[0] as int == byte + 128;
      Euclid(v, 128);
    }
  }

  /** Neither code is a prefix of another number's: equal bytes mean equal numbers. */
  lemma LebInjective(v: nat, w: nat, x: int, y: int)
    ensures Uleb(v) == Uleb(w) ==> v == w
    ensures Sleb(x) == Sleb(y) ==> x == y
  {
    UlebRoundTrip(v, []);
    UlebRoundTrip(w, []);
    SlebRoundTrip(x, []);
    SlebRoundTrip(y, []);
  }

  // ---- lists ----

  function WriteMany<T>(xs: seq<T>, w: T -> Bytes): Bytes {
    if xs == [] then [] else w(xs[0]) + WriteMany(xs[1..], w)
  }

  function ReadMany<T>(n: nat, p: Bytes -> Read<T>, s: Bytes): Read<seq<T>> {
    if n == 0 then Got([], s)
    else match p(s)
         case Malformed => Malformed
         case Got(x, rest) =>
           match ReadMany(n - 1, p, rest)
           case Malformed => Malformed
           case Got(xs, end) => Got([x] + xs, end)
  }

  /** p reads back what w writes, but for what g forgets. */
  ghost predicate Inverse<T(!new)>(w: T -> Bytes, p: Bytes -> Read<T>, g: T -> T, x: T) {
    forall rest: Bytes :: p(w(x) + rest) == Got(g(x), rest)
  }

  function MapSeq<T>(xs: seq<T>, g: T -> T): (r: seq<T>)
    ensures |r| == |xs| && forall i :: 0 <= i < |xs| ==> r[i] == g(xs[i])
  {
    if xs == [] then [] else [g(xs[0])] + MapSeq(xs[1..], g)
  }

  lemma {:induction false} ManyRoundTrip<T(!new)>(xs: seq<T>, w: T -> Bytes, p: Bytes -> Read<T>, g: T -> T, rest: Bytes)
    requires forall i :: 0 <= i < |xs| ==> Inverse(w, p, g, xs[i])
    ensures ReadMany(|xs|, p, WriteMany(xs, w) + rest) == Got(MapSeq(xs, g), rest)
    decreases |xs|
  {
    if xs == [] {
      assert WriteMany(xs, w) + rest == rest;
    } else {
      var more := WriteMany(xs[1..], w) + rest;
      assert WriteMany(xs, w) + rest == w(xs[0]) + more;
      assert Inverse(w, p, g, xs[0]);
      forall i | 0 <= i < |xs[1..]|
        ensures Inverse(w, p, g, xs[1..][i])
      {
        assert xs[1..][i] == xs[i + 1];
      }
      ManyRoundTrip(xs[1..], w, p, g, rest);
    }
  }

  /** A count, then the elements. */
  function WriteList<T>(xs: seq<T>, w: T -> Bytes): Bytes {
    Uleb(|xs|) + WriteMany(xs, w)
  }

  function ReadList<T>(p: Bytes -> Read<T>, s: Bytes): Read<seq<T>> {
    match ReadUleb(s)
    case Malformed => Malformed
    case Got(n, rest) => ReadMany(n, p, rest)
  }

  lemma ListRoundTrip<T(!new)>(xs: seq<T>, w: T -> Bytes, p: Bytes -> Read<T>, g: T -> T, rest: Bytes)
    requires forall i :: 0 <= i < |xs| ==> Inverse(w, p, g, xs[i])
    ensures ReadList(p, WriteList(xs, w) + rest) == Got(MapSeq(xs, g), rest)
  {
    hide Uleb, ReadUleb, WriteMany, ReadMany, Inverse, MapSeq;
    UlebRoundTrip(|xs|, WriteMany(xs, w) + rest);
    assert WriteList(xs, w) + rest == Uleb(|xs|) + (WriteMany(xs, w) + rest);
    ManyRoundTrip(xs, w, p, g, rest);
  }

  lemma {:induction false} WriteManyPush<T>(xs: seq<T>, x: T, w: T -> Bytes)
    ensures WriteMany(xs + [x], w) == WriteMany(xs, w) + w(x)
    decreases |xs|
  {
    if xs == [] {
      assert (xs + [x])[1..] == [];
    } else {
      assert (xs + [x])[1..] == xs[1..] + [x];
      WriteManyPush(xs[1..], x, w);
    }
  }
}
