/** First-encounter tables: the order in which the serializer numbers signatures and imports
    (codegen/irbuilder.c). */
module Intern {
  import opened Leb
  import opened Wire

  /** A hit changes nothing, a miss appends. */
  function Add<T(==)>(items: seq<T>, x: T): (r: seq<T>)
    ensures items <= r && x in r
  {
    if x in items then items else items + [x]
  }

  predicate Distinct<T(==)>(items: seq<T>) {
    forall i, j :: 0 <= i < j < |items| ==> items[i] != items[j]
  }

  /** Positions are final: growing a table moves nothing. */
  lemma {:induction false} PosOfPrefix<T>(xs: seq<T>, ys: seq<T>, x: T)
    requires xs <= ys && x in xs
    ensures PosOf(ys, x) == PosOf(xs, x)
    decreases |xs|
  {
    if xs[0] != x {
      assert xs[1..] <= ys[1..];
      PosOfPrefix(xs[1..], ys[1..], x);
    }
  }

  /** In a table without repetitions an element's index is where it stands. */
  lemma {:induction false} PosOfAt<T>(xs: seq<T>, k: nat)
    requires k < |xs| && Distinct(xs)
    ensures PosOf(xs, xs[k]) == k
    decreases |xs|
  {
    if k > 0 {
      assert xs[0] != xs[k];
      forall i, j | 0 <= i < j < |xs[1..]|
        ensures xs[1..][i] != xs[1..][j]
      {
        assert xs[i + 1] != xs[j + 1];
      }
      PosOfAt(xs[1..], k - 1);
    }
  }

  /** Nothing before the first occurrence equals the element. */
  lemma {:induction false} PosOfFirst<T>(xs: seq<T>, x: T, k: nat)
    requires k < PosOf(xs, x)
    ensures xs[k] != x
    decreases |xs|
  {
    if k > 0 {
      PosOfFirst(xs[1..], x, k - 1);
    }
  }

  lemma AddDistinct<T>(items: seq<T>, x: T)
    requires Distinct(items)
    ensures Distinct(Add(items, x))
  {
    if x !in items {
      var r := items + [x];
      forall i, j | 0 <= i < j < |r|
        ensures r[i] != r[j]
      {
        if j == |items| {
          assert items[i] in items;
        }
      }
    }
  }

  // ---- the order is the order of first mention ----

  /** All of a list, interned one after the other. */
  function Firsts<T(==)>(xs: seq<T>): seq<T> {
    if xs == [] then [] else Add(Firsts(xs[..|xs| - 1]), xs[|xs| - 1])
  }

  lemma {:induction false} FirstsHolds<T>(xs: seq<T>)
    ensures Distinct(Firsts(xs)) && forall x :: x in Firsts(xs) <==> x in xs
    decreases |xs|
  {
    if xs != [] {
      var init := xs[..|xs| - 1];
      FirstsHolds(init);
      AddDistinct(Firsts(init), xs[|xs| - 1]);
      assert xs == init + [xs[|xs| - 1]];
      assert forall x :: x in xs <==> x in init || x == xs[|xs| - 1];
      assert forall x :: x in Firsts(xs) <==> x in Firsts(init) || x == xs[|xs| - 1];
    }
  }

  /** The table holds each mentioned thing once, and a is numbered before b exactly when a is
      mentioned before b. */
  lemma {:induction false} FirstEncounterOrder<T>(xs: seq<T>, a: T, b: T)
    requires a in xs && b in xs
    ensures Distinct(Firsts(xs)) && a in Firsts(xs) && b in Firsts(xs)
    ensures PosOf(Firsts(xs), a) < PosOf(Firsts(xs), b) <==> PosOf(xs, a) < PosOf(xs, b)
    decreases |xs|
  {
    FirstsHolds(xs);
    var n := |xs| - 1;
    var init, last := xs[..n], xs[n];
    assert xs == init + [last];
    FirstsHolds(init);
    if a in init && b in init {
      FirstEncounterOrder(init, a, b);
      Settled(xs, a);
      Settled(xs, b);
    } else if a in init {
      Settled(xs, a);
      Newest(xs);
    } else if b in init {
      Settled(xs, b);
      Newest(xs);
    }
  }

  lemma Settled<T>(xs: seq<T>, a: T)
    requires xs != [] && a in xs[..|xs| - 1]
    ensures a in Firsts(xs[..|xs| - 1]) && PosOf(xs, a) == PosOf(xs[..|xs| - 1], a) < |xs| - 1
    ensures PosOf(Firsts(xs), a) == PosOf(Firsts(xs[..|xs| - 1]), a) < |Firsts(xs[..|xs| - 1])|
  {
    var init := xs[..|xs| - 1];
    FirstsHolds(init);
    PosOfPrefix(init, xs, a);
    PosOfPrefix(Firsts(init), Firsts(xs), a);
  }

  lemma Newest<T>(xs: seq<T>)
    requires xs != [] && xs[|xs| - 1] !in xs[..|xs| - 1]
    ensures PosOf(xs, xs[|xs| - 1]) == |xs| - 1
    ensures PosOf(Firsts(xs), xs[|xs| - 1]) == |Firsts(xs[..|xs| - 1])|
  {
    var n := |xs| - 1;
    var init, last := xs[..n], xs[n];
    FirstsHolds(init);
    FirstsHolds(xs);
    assert Firsts(xs) == Firsts(init) + [last];
    PosOfAt(Firsts(xs), |Firsts(init)|);
    assert forall k :: 0 <= k < n ==> init[k] == xs[k] != last;
  }

  // ---- the two tables of a module ----

  function Visit(i: Inst, t: Tables): Tables {
    match i
    case CallImport(name, sig, _, _) =>
      var types := Add(t.types, sig);
      Tables(types, Add(t.imports, Import(name, PosOf(types, sig))))
    case CallIndirect(sig, _, _) => Tables(Add(t.types, sig), t.imports)
    case _ => t
  }

  function VisitAll(code: seq<Inst>, t: Tables): Tables {
    if code == [] then t else VisitAll(code[1..], Visit(code[0], t))
  }

  predicate Extends(s: Tables, t: Tables) {
    s.types <= t.types && s.imports <= t.imports
  }

  lemma VisitExtends(i: Inst, t: Tables)
    ensures Extends(t, Visit(i, t)) && Known(i, Visit(i, t))
  {
  }

  lemma KnownStays(i: Inst, s: Tables, t: Tables)
    requires Known(i, s) && Extends(s, t)
    ensures Known(i, t) && EncInst(i, t) == EncInst(i, s)
  {
    hide Uleb, Idxs, Opcode;
    match i
    case CallImport(name, sig, _, _) =>
      PosOfPrefix(s.types, t.types, sig);
      PosOfPrefix(s.imports, t.imports, Import(name, PosOf(s.types, sig)));
    case CallIndirect(sig, _, _) => PosOfPrefix(s.types, t.types, sig);
    case _ =>
  }

  /** What is known changes no table. */
  lemma KnownVisit(i: Inst, t: Tables)
    requires Known(i, t)
    ensures Visit(i, t) == t
  {
  }

  lemma {:induction false} VisitAllExtends(code: seq<Inst>, t: Tables)
    ensures Extends(t, VisitAll(code, t))
    decreases |code|
  {
    if code != [] {
      VisitExtends(code[0], t);
      VisitAllExtends(code[1..], Visit(code[0], t));
    }
  }

  /** After the first pass over a module every instruction finds its entries, at the indices it was
      given when it was first met. */
  lemma {:induction false} VisitAllKnows(code: seq<Inst>, t: Tables, k: nat)
    requires k < |code|
    ensures Known(code[k], VisitAll(code, t))
    decreases |code|
  {
    VisitExtends(code[0], t);
    if k == 0 {
      VisitAllExtends(code[1..], Visit(code[0], t));
      KnownStays(code[0], Visit(code[0], t), VisitAll(code, t));
    } else {
      VisitAllKnows(code[1..], Visit(code[0], t), k - 1);
    }
  }

  /** The second pass appends nothing to either table. */
  lemma {:induction false} SecondPassAppendsNothing(code: seq<Inst>, t: Tables)
    requires forall k :: 0 <= k < |code| ==> Known(code[k], t)
    ensures VisitAll(code, t) == t
    decreases |code|
  {
    if code != [] {
      KnownVisit(code[0], t);
      assert forall k :: 0 <= k < |code[1..]| ==> code[1..][k] == code[k + 1];
      SecondPassAppendsNothing(code[1..], t);
    }
  }

  lemma {:induction false} VisitAllConcat(a: seq<Inst>, b: seq<Inst>, t: Tables)
    ensures VisitAll(a + b, t) == VisitAll(b, VisitAll(a, t))
    decreases |a|
  {
    if a == [] {
      assert a + b == b;
    } else {
      assert (a + b)[1..] == a[1..] + b;
      VisitAllConcat(a[1..], b, Visit(a[0], t));
    }
  }

  lemma VisitAllPush(code: seq<Inst>, i: Inst, t: Tables)
    ensures VisitAll(code + [i], t) == Visit(i, VisitAll(code, t))
  {
    VisitAllConcat(code, [i], t);
    assert [i][1..] == [];
  }

  /** The signatures a list of instructions mentions, in order. */
  function Mentions(code: seq<Inst>): seq<Sig> {
    if code == [] then [] else
      match code[|code| - 1]
      case CallImport(_, sig, _, _) => Mentions(code[..|code| - 1]) + [sig]
      case CallIndirect(sig, _, _) => Mentions(code[..|code| - 1]) + [sig]
      case _ => Mentions(code[..|code| - 1])
  }

  /** The names with the final index of their signatures, in order. */
  function Wanted(code: seq<Inst>, types: seq<Sig>): seq<Import> {
    if code == [] then [] else
      match code[|code| - 1]
      case CallImport(name, sig, _, _) => Wanted(code[..|code| - 1], types) + [Import(name, PosOf(types, sig))]
      case _ => Wanted(code[..|code| - 1], types)
  }

  lemma FirstsNone<T>()
    ensures forall xs: seq<T> :: xs == [] ==> Firsts(xs) == []
  {
  }

  lemma FirstsPush<T>(xs: seq<T>, x: T)
    ensures Firsts(xs + [x]) == Add(Firsts(xs), x)
  {
    assert (xs + [x])[..|xs|] == xs;
  }

  /** Both tables are the things a module mentions, in order of first mention. The imports are keyed
      by the type index the signature has in the finished table. */
  lemma {:induction false} TablesAreFirsts(code: seq<Inst>, types: seq<Sig>)
    requires VisitAll(code, Tables([], [])).types <= types
    ensures VisitAll(code, Tables([], [])).types == Firsts(Mentions(code))
    ensures VisitAll(code, Tables([], [])).imports == Firsts(Wanted(code, types))
    decreases |code|
  {
    hide Firsts, Add, PosOf;
    if code == [] {
      FirstsNone<Sig>();
      FirstsNone<Import>();
    } else {
      var n := |code| - 1;
      var init, last := code[..n], code[n];
      assert code == init + [last];
      VisitAllPush(init, last, Tables([], []));
      var t := VisitAll(init, Tables([], []));
      VisitExtends(last, t);
      TablesAreFirsts(init, types);
      match last
      case CallImport(name, sig, _, _) =>
        PosOfPrefix(Visit(last, t).types, types, sig);
        FirstsPush(Wanted(init, types), Import(name, PosOf(types, sig)));
        FirstsPush(Mentions(init), sig);
      case CallIndirect(sig, _, _) => FirstsPush(Mentions(init), sig);
      case _ =>
    }
  }
}
