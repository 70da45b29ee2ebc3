/** An open-addressed hash index over a growing list, as in the serializer's intern tables
    (codegen/irbuilder.c). */
module HashIndex {
  import opened Wire
  import opened Intern

  const CAP: nat := 1024

  /** How many items the index holds: it stops growing at three quarters. */
  function Hashed(n: nat): nat {
    if n * 4 < CAP * 3 then n else CAP * 3 / 4
  }

  function Below(n: nat): (r: set<nat>)
    ensures |r| == n && forall s: nat :: s in r <==> s < n
  {
    if n == 0 then {} else Below(n - 1) + {n - 1}
  }

  function Entries(at: seq<nat>): (r: set<nat>)
    ensures |r| <= |at| && forall s :: s in r <==> s in at
  {
    if at == [] then {} else {at[0]} + Entries(at[1..])
  }

  lemma {:induction false} SubsetSize(a: set<nat>, b: set<nat>)
    requires a <= b
    ensures |a| <= |b|
    decreases |a|
  {
    if a != {} {
      var x :| x in a;
      SubsetSize(a - {x}, b - {x});
    }
  }

  /** Fewer entries than slots leave a slot free. */
  lemma FreeSlot(at: seq<nat>) returns (s: nat)
    requires |at| < CAP
    ensures s < CAP && s !in at
  {
    hide Below, Entries;
    if Below(CAP) <= Entries(at) {
      SubsetSize(Below(CAP), Entries(at));
      assert false;
    }
    s :| s in Below(CAP) && s !in Entries(at);
  }

  /** d steps on from the home slot. */
  function Slot(h: nat, d: nat): (s: nat)
    ensures s < CAP
  {
    (h + d) % CAP
  }

  lemma SlotReached(h: nat, s: nat) returns (d: nat)
    requires s < CAP
    ensures d < CAP && Slot(h, d) == s
  {
    d := (s + CAP - h % CAP) % CAP;
  }

  /** The taken slots and the indexed items correspond one to one. */
  ghost predicate Paired(table: seq<nat>, at: seq<nat>) {
    && |table| == CAP
    && (forall k :: 0 <= k < |at| ==> at[k] < CAP && table[at[k]] == k + 1)
    && (forall s :: 0 <= s < CAP && table[s] != 0 ==> table[s] <= |at| && at[table[s] - 1] == s)
  }

  /** Between an item's home slot and its place no slot is free. */
  ghost predicate Chained<T>(items: seq<T>, table: seq<nat>, at: seq<nat>, steps: seq<nat>, hash: T -> nat) {
    && |table| == CAP && |at| == |steps| <= |items|
    && (forall k :: 0 <= k < |at| ==> steps[k] < CAP && at[k] == Slot(hash(items[k]), steps[k]))
    && (forall k, d :: 0 <= k < |at| && 0 <= d < steps[k] ==> table[Slot(hash(items[k]), d)] != 0)
  }

  lemma RecordKeepsPaired(table: seq<nat>, at: seq<nat>, h: nat)
    requires Paired(table, at) && h < CAP && table[h] == 0
    ensures Paired(table[h := |at| + 1], at + [h])
  {
    var t, more := table[h := |at| + 1], at + [h];
    forall k | 0 <= k < |more|
      ensures more[k] < CAP && t[more[k]] == k + 1
    {
      if k < |at| {
        assert at[k] != h;
      }
    }
  }

  lemma RecordKeepsChained<T>(items: seq<T>, x: T, table: seq<nat>, at: seq<nat>, steps: seq<nat>, hash: T -> nat, d: nat)
    requires Chained(items, table, at, steps, hash) && |at| == |items| && d < CAP
    requires forall e :: 0 <= e < d ==> table[Slot(hash(x), e)] != 0
    ensures Chained(items + [x], table[Slot(hash(x), d) := |at| + 1], at + [Slot(hash(x), d)], steps + [d], hash)
  {
    hide Slot;
    var t := table[Slot(hash(x), d) := |at| + 1];
    var all, far := items + [x], steps + [d];
    forall k, e | 0 <= k < |far| && 0 <= e < far[k]
      ensures t[Slot(hash(all[k]), e)] != 0
    {
      assert table[Slot(hash(all[k]), e)] != 0;
    }
  }

  lemma AddChained<T>(items: seq<T>, x: T, table: seq<nat>, at: seq<nat>, steps: seq<nat>, hash: T -> nat)
    requires Chained(items, table, at, steps, hash)
    ensures Chained(items + [x], table, at, steps, hash)
  {
    hide Slot;
  }

  lemma {:induction false} ScanHit<T>(items: seq<T>, k: nat)
    requires k < |items| && items[k] !in items[..k]
    ensures PosOf(items, items[k]) == k
    decreases k
  {
    if k > 0 {
      assert items[..k][0] == items[0];
      assert items[1..][..k - 1] == items[..k][1..];
      ScanHit(items[1..], k - 1);
    }
  }

  class Interner<T(==)> {
    const hash: T -> nat
    var items: seq<T>
    const ix: array<nat>
    /** Where each indexed item is: its slot, and how many steps from its home slot. */
    ghost var at: seq<nat>
    ghost var steps: seq<nat>

    ghost predicate Valid()
      reads this, ix
    {
      && Distinct(items)
      && |at| == Hashed(|items|)
      && Paired(ix[..], at)
      && Chained(items, ix[..], at, steps, hash)
    }

    constructor (hash: T -> nat)
      ensures Valid() && items == [] && fresh(ix) && this.hash == hash
    {
      this.hash := hash;
      items := [];
      ix := new nat[CAP](_ => 0);
      at, steps := [], [];
    }

    /** The index of x in first-encounter order, whatever the hash function: a hit changes nothing, a
        miss appends. */
    method InternItem(x: T) returns (idx: nat)
      requires Valid()
      modifies this`items, this`at, this`steps, ix
      ensures Valid()
      ensures items == Add(old(items), x)
      ensures idx == PosOf(items, x) < |items|
    {
      hide Distinct, PosOf, Chained, Paired, Slot;
      if |items| * 4 < CAP * 3 {
        var found, d := Probe(x);
        if found {
          idx := ix[Slot(hash(x), d)] - 1;
          PosOfAt(items, idx);
        } else {
          idx := |items|;
          Record(x, d);
        }
      } else {
        var found;
        found, idx := Scan(x);
        if !found {
          AddDistinct(items, x);
          AddChained(items, x, ix[..], at, steps, hash);
          items := items + [x];
          PosOfAt(items, idx);
        }
      }
    }

    method Record(x: T, d: nat)
      requires Valid() && |items| * 4 < CAP * 3 && x !in items
      requires d < CAP && ix[Slot(hash(x), d)] == 0
      requires forall e :: 0 <= e < d ==> ix[Slot(hash(x), e)] != 0
      modifies this`items, this`at, this`steps, ix
      ensures Valid()
      ensures items == old(items) + [x] && PosOf(items, x) == old(|items|)
    {
      hide Distinct, PosOf, Chained, Slot;
      var h := Slot(hash(x), d);
      AddDistinct(items, x);
      RecordKeepsPaired(ix[..], at, h);
      RecordKeepsChained(items, x, ix[..], at, steps, hash, d);
      items := items + [x];
      ix[h] := |items|;
      assert ix[..] == old(ix[..])[h := |items|];
      at, steps := at + [h], steps + [d];
      PosOfAt(items, |items| - 1);
    }

    method Scan(x: T) returns (found: bool, idx: nat)
      requires Valid()
      ensures found <==> x in items
      ensures idx == PosOf(items, x)
    {
      hide Valid;
      idx := 0;
      while idx < |items|
        invariant idx <= |items|
        invariant x !in items[..idx]
      {
        if items[idx] == x {
          ScanHit(items, idx);
          return true, idx;
        }
        assert items[..idx + 1] == items[..idx] + [items[idx]];
        idx := idx + 1;
      }
      assert items[..idx] == items;
      return false, idx;
    }

    /** Walks from the home slot to the item or to a free slot. There always is one. */
    method Probe(x: T) returns (found: bool, d: nat)
      requires Valid() && |items| * 4 < CAP * 3
      ensures ix.Length == CAP && d < CAP
      ensures found <==> x in items
      ensures found ==> 0 < ix[Slot(hash(x), d)] <= |items| && items[ix[Slot(hash(x), d)] - 1] == x
      ensures !found ==> ix[Slot(hash(x), d)] == 0
      ensures forall e :: 0 <= e < d ==> ix[Slot(hash(x), e)] != 0
    {
      hide Slot, Distinct;
      ghost var free := FreeStep(x);
      d := 0;
      while true
        invariant d <= free
        invariant forall e :: 0 <= e < d ==> ix[Slot(hash(x), e)] != 0 && items[ix[Slot(hash(x), e)] - 1] != x
        decreases free - d
      {
        var slot := ix[Slot(hash(x), d)];
        if slot == 0 {
          Absent(x, d);
          return false, d;
        }
        if items[slot - 1] == x {
          return true, d;
        }
        d := d + 1;
      }
    }

    /** A free slot on the way from the home slot means the item is not there. */
    lemma Absent(x: T, d: nat)
      requires Valid() && |items| * 4 < CAP * 3 && d < CAP
      requires ix[Slot(hash(x), d)] == 0
      requires forall e :: 0 <= e < d ==> ix[Slot(hash(x), e)] != 0 && items[ix[Slot(hash(x), e)] - 1] != x
      ensures x !in items
    {
      hide Slot;
      forall k | 0 <= k < |items|
        ensures items[k] != x
      {
        assert ix[Slot(hash(items[k]), steps[k])] == k + 1;
      }
    }

    /** Below three quarters, probing always meets a free slot. */
    lemma FreeStep(x: T) returns (d: nat)
      requires Valid() && |items| * 4 < CAP * 3
      ensures d < CAP && ix[Slot(hash(x), d)] == 0
    {
      var s := FreeSlot(at);
      d := SlotReached(hash(x), s);
    }
  }
}
