/** The mark phase of runtime/heap_gc.c: an explicit stack of fixed capacity that may overflow, and
    the rescan that recovers. Marking reads headers and payloads and writes only mark bytes. */
module Mark {
  import opened MachineWords
  import opened HeapCells

  /** What marking changes: the mark bytes, the queued cells, and the overflow note. */
  datatype Progress = Progress(mark: seq<bool>, queue: seq<nat>, overflow: bool)

  function Unmarked(mark: seq<bool>): set<nat> {
    set g: nat | g < |mark| && !mark[g]
  }

  /** From a to b marking only grew: the queue kept its old part, and each newly marked cell was
      queued or its loss noted. */
  ghost predicate Grew(a: Progress, b: Progress) {
    && |a.mark| == |b.mark| && a.queue <= b.queue && (a.overflow ==> b.overflow)
    && (forall g :: 0 <= g < |a.mark| && a.mark[g] ==> b.mark[g])
    && (forall g :: 0 <= g < |a.mark| && b.mark[g] && !a.mark[g] ==> g in b.queue || b.overflow)
    && (Unmarked(b.mark) < Unmarked(a.mark) || b == a)
  }

  lemma GrewTwice(a: Progress, b: Progress, c: Progress)
    requires Grew(a, b) && Grew(b, c)
    ensures Grew(a, c)
  {
    assert Unmarked(c.mark) <= Unmarked(b.mark) <= Unmarked(a.mark);
  }

  class Marker {
    const start: seq<bool>
    const cells: seq<Cell>
    const lo: int
    const top: nat               // granules below the claimed high-water mark
    const mark: array<bool>
    const stack: array<nat>
    var sp: nat
    var overflow: bool

    /** The heap's shape, which marking leaves alone. */
    ghost predicate Shape()
    {
      && |start| == |cells| == mark.Length && top % 8 == 0 && top <= |start|
      && forall g :: 0 <= g < |start| && start[g] ==> g < top
    }

    ghost predicate Valid()
      reads this, mark, stack
    {
      && Shape() && sp <= stack.Length
      && (forall g :: 0 <= g < |start| && mark[g] ==> start[g])
      && (forall g :: g in stack[..sp] ==> g < |start| && mark[g])
    }

    ghost function State(): Progress
      reads this, mark, stack
      requires sp <= stack.Length
    {
      Progress(mark[..], stack[..sp], overflow)
    }

    /** Everything g points to is marked. */
    ghost predicate Black(g: nat, s: Progress)
      requires Shape()
    {
      forall h: nat :: Points(start, cells, lo, g, h) ==> h < |s.mark| && s.mark[h]
    }

    /** Every marked cell is traced, queued, dropped by an overflow still noted, or lies at or past
        position p of a rescan. */
    ghost predicate Accounted(p: nat, s: Progress)
      requires Shape()
    {
      forall g: nat :: g < |s.mark| && s.mark[g] ==> Black(g, s) || g in s.queue || s.overflow || g >= p
    }

    ghost predicate Sound(roots: seq<int>, s: Progress)
      requires Shape()
    {
      forall g: nat :: g < |s.mark| && s.mark[g] ==> Reachable(start, cells, lo, roots, g)
    }

    constructor (start: seq<bool>, cells: seq<Cell>, lo: int, top: nat, mark: array<bool>, stack: array<nat>)
      ensures this.start == start && this.cells == cells && this.lo == lo && this.top == top
      ensures this.mark == mark && this.stack == stack && sp == 0 && !overflow
    {
      this.start, this.cells, this.lo, this.top := start, cells, lo, top;
      this.mark, this.stack := mark, stack;
      sp, overflow := 0, false;
    }

    method PushWord(word: int)
      requires Valid()
      modifies this, mark, stack
      ensures Valid() && Grew(old(State()), State())
      ensures var r := Resolve(start, cells, lo, word);
        && (r.Some? ==> mark[r.value])
        && forall g :: 0 <= g < mark.Length && mark[g] && !old(mark[g]) ==> r == Some(g)
    {
      var hi := lo + GRANULE * |start|;
      if word < lo || word >= hi {
        return;
      }
      var off := word - lo;
      var g, found := ScanBack(off / GRANULE);
      if !found {
        return;
      }
      if off >= GRANULE * g + cells[g].size {
        return;
      }
      if cells[g].kind.FreeCell? || mark[g] {
        return;
      }
      Note(g);
    }

    /** Mark an unmarked cell and queue it, or note that the queue had no room. */
    method Note(g: nat)
      requires Valid() && g < |start| && start[g] && !mark[g]
      modifies this, mark, stack
      ensures Valid() && Grew(old(State()), State())
      ensures mark[..] == old(mark[..])[g := true]
    {
      ghost var queue, was := stack[..sp], mark[..];
      mark[g] := true;
      assert mark[..] == was[g := true];
      assert g !in Unmarked(mark[..]) && g in Unmarked(was);
      if sp < stack.Length {
        stack[sp] := g;
        sp := sp + 1;
        assert stack[..sp] == queue + [g];
      } else {
        overflow := true;
      }
    }

    /** The nearest start bit at or below a candidate granule, within reach. */
    method ScanBack(candidate: nat) returns (g: nat, found: bool)
      requires Shape() && candidate < |start|
      ensures NearestStart(start, candidate, ScanLimit(candidate)) == if found then Some(g) else None
    {
      g := candidate;
      var limit := ScanLimit(g);
      while g > limit
        invariant limit <= g <= candidate
        invariant NearestStart(start, g, limit) == NearestStart(start, candidate, limit)
      {
        if start[g] {
          break;
        }
        g := g - 1;
      }
      found := start[g];
    }

    /** Push both readings of each payload word of a cell that has outgoing pointers. */
    method Trace(g: nat)
      requires Valid() && g < |start| && start[g]
      modifies this, mark, stack
      ensures Valid() && Grew(old(State()), State()) && Black(g, State())
      ensures forall h :: 0 <= h < mark.Length && mark[h] && !old(mark[h]) ==> Points(start, cells, lo, g, h)
    {
      hide Grew, PointsFrom, Resolve, Untagged, AsLong;
      var c := cells[g];
      SameState(State());
      if !c.kind.Node? && !c.kind.Func? {
        return;
      }
      var k := 0;
      while k < |c.words|
        invariant 0 <= k <= |c.words| && Valid() && Grew(old(State()), State())
        invariant forall i: nat :: i < k ==> Pushed(c.words[i], mark[..])
        invariant forall h :: 0 <= h < mark.Length && mark[h] && !old(mark[h]) ==> Points(start, cells, lo, g, h)
      {
        ghost var before := mark[..];
        PushBoth(c.words[k], g, k, old(State()));
        forall i: nat | i < k
          ensures Pushed(c.words[i], mark[..])
        {
          assert Pushed(c.words[i], before);
        }
        k := k + 1;
      }
    }

    /** Whatever the word points to is marked. */
    ghost predicate Pushed(w: u64, m: seq<bool>)
      requires Shape()
    {
      forall h: nat :: PointsFrom(start, cells, lo, w, h) ==> h < |m| && m[h]
    }

    method PushBoth(w: u64, g: nat, ghost k: nat, ghost base: Progress)
      requires Valid() && Grew(base, State())
      requires g < |cells| && Traced(cells[g]) && k < |cells[g].words| && cells[g].words[k] == w
      modifies this, mark, stack
      ensures Valid() && Grew(base, State())
      ensures forall h :: 0 <= h < mark.Length && old(mark[h]) ==> mark[h]
      ensures Pushed(w, mark[..])
      ensures forall h :: 0 <= h < mark.Length && mark[h] && !old(mark[h]) ==> Points(start, cells, lo, g, h)
    {
      hide Resolve, Untagged, AsLong, Points, Grew, Unmarked;
      ghost var s0 := State();
      PushWord(Untagged(w));
      ghost var s1 := State();
      PushWord(AsLong(w));
      ghost var s2 := State();
      GrewTwice(s0, s1, s2);
      GrewTwice(base, s0, s2);
      GrewKeeps(s0, s2);
      GrewKeeps(s1, s2);
      ResolvesInRange(Untagged(w));
      ResolvesInRange(AsLong(w));
      forall h | 0 <= h < mark.Length && mark[h] && !old(mark[h])
        ensures Points(start, cells, lo, g, h)
      {
        assert s2.mark[h] && !s0.mark[h];
        assert PointsFrom(start, cells, lo, cells[g].words[k], h) by {
          if s1.mark[h] {
            assert Resolve(start, cells, lo, Untagged(w)) == Some(h);
          }
        }
        PointsVia(g, k, h);
      }
    }

    lemma PointsVia(g: nat, k: nat, h: nat)
      requires Shape() && g < |cells| && Traced(cells[g]) && k < |cells[g].words|
      requires PointsFrom(start, cells, lo, cells[g].words[k], h)
      ensures Points(start, cells, lo, g, h)
    {
    }

    lemma GrewKeeps(a: Progress, b: Progress)
      requires Grew(a, b)
      ensures |a.mark| == |b.mark| && forall g :: 0 <= g < |a.mark| && a.mark[g] ==> b.mark[g]
    {
    }

    lemma ResolvesInRange(word: int)
      requires Shape()
      ensures Resolve(start, cells, lo, word).Some? ==> Resolve(start, cells, lo, word).value < mark.Length
    {
    }

    lemma SameState(s: Progress)
      ensures Grew(s, s)
    {
    }

    /** Tracing the cell just taken off the queue keeps every marked cell accounted for. */
    lemma TraceAccounts(p: nat, s: Progress, g: nat, taken: Progress, t: Progress)
      requires Shape() && Accounted(p, s) && Grew(taken, t) && Black(g, t)
      requires taken.mark == s.mark && taken.overflow == s.overflow
      requires forall h :: h in s.queue ==> h in taken.queue || h == g
      ensures Accounted(p, t)
    {
      hide Points;
      forall h: nat | h < |t.mark| && t.mark[h]
        ensures Black(h, t) || h in t.queue || t.overflow || h >= p
      {
        if s.mark[h] && Black(h, s) {
          assert Black(h, t);
        }
      }
    }

    lemma TraceSound(roots: seq<int>, g: nat, s: Progress, t: Progress)
      requires Shape() && Sound(roots, s) && g < |s.mark| == |t.mark| && s.mark[g]
      requires forall h :: 0 <= h < |t.mark| && t.mark[h] && !s.mark[h] ==> Points(start, cells, lo, g, h)
      ensures Sound(roots, t)
    {
      hide Points;
      forall h: nat | h < |t.mark| && t.mark[h] && !s.mark[h]
        ensures Reachable(start, cells, lo, roots, h)
      {
        ReachableNext(start, cells, lo, roots, g, h);
      }
    }

    /** `while (mark_sp) mark_trace(mark_stack[--mark_sp])`. */
    method DrainQueue(ghost p: nat, ghost roots: seq<int>)
      requires Valid() && Accounted(p, State()) && Sound(roots, State())
      modifies this, mark, stack
      ensures Valid() && Accounted(p, State()) && Sound(roots, State()) && sp == 0
      ensures forall g :: 0 <= g < mark.Length && old(mark[g]) ==> mark[g]
      ensures Unmarked(mark[..]) <= old(Unmarked(mark[..]))
      ensures old(overflow) ==> overflow
      ensures overflow && !old(overflow) ==> Unmarked(mark[..]) < old(Unmarked(mark[..]))
    {
      hide Points, Black, Accounted, Sound;
      while sp > 0
        invariant Valid() && Accounted(p, State()) && Sound(roots, State())
        invariant forall g :: 0 <= g < mark.Length && old(mark[g]) ==> mark[g]
        invariant Unmarked(mark[..]) <= old(Unmarked(mark[..]))
        invariant old(overflow) ==> overflow
        invariant overflow && !old(overflow) ==> Unmarked(mark[..]) < old(Unmarked(mark[..]))
        decreases Unmarked(mark[..]), sp
      {
        ghost var s := State();
        sp := sp - 1;
        var g := stack[sp];
        assert s.queue == stack[..sp] + [g] && g in s.queue;
        assert forall h :: h in stack[..sp] ==> h in s.queue;
        ghost var taken := State();
        Trace(g);
        TraceAccounts(p, s, g, taken, State());
        TraceSound(roots, g, s, State());
      }
    }

    /** Walk the start bitmap, re-tracing every marked cell and draining as it goes, until a pass
        drops nothing. */
    method Rescan(ghost roots: seq<int>)
      requires Valid() && sp == 0 && Sound(roots, State()) && Accounted(top, State())
      modifies this, mark, stack
      ensures Valid() && sp == 0 && !overflow && Accounted(top, State()) && Sound(roots, State())
      ensures forall g :: 0 <= g < mark.Length && old(mark[g]) ==> mark[g]
    {
      hide Points, Black, Accounted, Sound;
      while overflow
        invariant Valid() && sp == 0 && Sound(roots, State()) && Accounted(top, State())
        invariant forall g :: 0 <= g < mark.Length && old(mark[g]) ==> mark[g]
        decreases Unmarked(mark[..]), overflow
      {
        RescanPass(roots);
      }
    }

    method RescanPass(ghost roots: seq<int>)
      requires Valid() && sp == 0 && Sound(roots, State())
      modifies this, mark, stack
      ensures Valid() && sp == 0 && Accounted(top, State()) && Sound(roots, State())
      ensures forall g :: 0 <= g < mark.Length && old(mark[g]) ==> mark[g]
      ensures Unmarked(mark[..]) <= old(Unmarked(mark[..]))
      ensures overflow ==> Unmarked(mark[..]) < old(Unmarked(mark[..]))
    {
      hide Points, Black, Accounted, Sound;
      overflow := false;
      NothingVisited(State());
      SoundMarksOnly(roots, old(State()), State());
      var byte := 0;
      while byte < top / 8
        invariant 0 <= byte <= top / 8
        invariant Valid() && sp == 0 && Accounted(8 * byte, State()) && Sound(roots, State())
        invariant forall g :: 0 <= g < mark.Length && old(mark[g]) ==> mark[g]
        invariant Unmarked(mark[..]) <= old(Unmarked(mark[..]))
        invariant overflow ==> Unmarked(mark[..]) < old(Unmarked(mark[..]))
      {
        var b := 0;
        while b < 8
          invariant 0 <= b <= 8
          invariant Valid() && sp == 0 && Accounted(8 * byte + b, State()) && Sound(roots, State())
          invariant forall g :: 0 <= g < mark.Length && old(mark[g]) ==> mark[g]
          invariant Unmarked(mark[..]) <= old(Unmarked(mark[..]))
          invariant overflow ==> Unmarked(mark[..]) < old(Unmarked(mark[..]))
        {
          var g := 8 * byte + b;
          Visit(g, roots);
          b := b + 1;
        }
        byte := byte + 1;
      }
    }

    /** One bit of the walk: a clear bit or an unmarked cell is passed over. */
    method Visit(g: nat, ghost roots: seq<int>)
      requires Valid() && sp == 0 && g < top && Accounted(g, State()) && Sound(roots, State())
      modifies this, mark, stack
      ensures Valid() && sp == 0 && Accounted(g + 1, State()) && Sound(roots, State())
      ensures forall h :: 0 <= h < mark.Length && old(mark[h]) ==> mark[h]
      ensures Unmarked(mark[..]) <= old(Unmarked(mark[..]))
      ensures overflow && !old(overflow) ==> Unmarked(mark[..]) < old(Unmarked(mark[..]))
      ensures old(overflow) ==> overflow
    {
      hide Points, Black, Sound;
      if !start[g] || !mark[g] {
        return;
      }
      ghost var s := State();
      Trace(g);
      TraceSound(roots, g, s, State());
      VisitAccounts(g, s, State());
      DrainQueue(g + 1, roots);
    }

    lemma VisitAccounts(g: nat, s: Progress, t: Progress)
      requires Shape() && Accounted(g, s) && Grew(s, t) && Black(g, t)
      ensures Accounted(g + 1, t)
    {
      hide Points;
      forall h: nat | h < |t.mark| && t.mark[h]
        ensures Black(h, t) || h in t.queue || t.overflow || h >= g + 1
      {
        if s.mark[h] && Black(h, s) {
          assert Black(h, t);
        }
      }
    }

    lemma NothingVisited(s: Progress)
      requires Shape()
      ensures Accounted(0, s)
    {
    }

    lemma SoundMarksOnly(roots: seq<int>, s: Progress, t: Progress)
      requires Shape() && Sound(roots, s) && t.mark == s.mark
      ensures Sound(roots, t)
    {
    }

    /** `mark_drain`. */
    method Drain(ghost roots: seq<int>)
      requires Valid() && Accounted(top, State()) && Sound(roots, State())
      modifies this, mark, stack
      ensures Valid() && sp == 0 && !overflow && Accounted(top, State()) && Sound(roots, State())
      ensures forall g :: 0 <= g < mark.Length && old(mark[g]) ==> mark[g]
    {
      hide Points, Black, Accounted, Sound;
      DrainQueue(top, roots);
      if overflow {
        Rescan(roots);
      }
    }

    /** Steps 2 and 3 of a collection, on cleared marks: push the root words, of which only what the
        root buffer holds is scanned, then trace. Whatever the stack's capacity, exactly the cells
        reachable from the scanned words end up marked. */
    method MarkAll(rootbuf: seq<int>, count: nat)
      requires Shape() && count >= |rootbuf| && (count > |rootbuf| ==> |rootbuf| == 8192) && |rootbuf| <= 8192
      requires forall g :: 0 <= g < mark.Length ==> !mark[g]
      modifies this, mark, stack
      ensures Valid() && sp == 0 && !overflow
      ensures forall g: nat :: g < mark.Length ==> (mark[g] <==> Reachable(start, cells, lo, rootbuf, g))
    {
      hide Points, Black, Accounted, Sound, Reachable, Resolve;
      var scan := if count < 8192 then count else 8192;
      sp := 0;
      overflow := false;
      NothingMarked(rootbuf, State());
      var i := 0;
      while i < scan
        invariant 0 <= i <= scan && Valid() && Accounted(top, State()) && Sound(rootbuf, State())
        invariant forall k :: 0 <= k < i && Resolve(start, cells, lo, rootbuf[k]).Some? ==>
                    mark[Resolve(start, cells, lo, rootbuf[k]).value]
      {
        ghost var s := State();
        PushWord(rootbuf[i]);
        RootPushed(rootbuf, i, s, State());
        i := i + 1;
      }
      Drain(rootbuf);
      forall g: nat | g < mark.Length
        ensures mark[g] <==> Reachable(start, cells, lo, rootbuf, g)
      {
        if Reachable(start, cells, lo, rootbuf, g) {
          ClosedMarks(rootbuf, State(), g);
        }
        if mark[g] {
          SoundAt(rootbuf, State(), g);
        }
      }
    }

    lemma SoundAt(roots: seq<int>, s: Progress, g: nat)
      requires Shape() && Sound(roots, s) && g < |s.mark| && s.mark[g]
      ensures Reachable(start, cells, lo, roots, g)
    {
    }

    lemma NothingMarked(roots: seq<int>, s: Progress)
      requires Shape() && forall g :: 0 <= g < |s.mark| ==> !s.mark[g]
      ensures Accounted(top, s) && Sound(roots, s)
    {
    }

    lemma RootPushed(roots: seq<int>, i: nat, s: Progress, t: Progress)
      requires Shape() && i < |roots| && Grew(s, t) && Accounted(top, s) && Sound(roots, s)
      requires forall g :: 0 <= g < |t.mark| && t.mark[g] && !s.mark[g] ==>
                 Resolve(start, cells, lo, roots[i]) == Some(g)
      ensures Accounted(top, t) && Sound(roots, t)
    {
      hide Points;
      forall h: nat | h < |t.mark| && t.mark[h]
        ensures Black(h, t) || h in t.queue || t.overflow || h >= top
        ensures Reachable(start, cells, lo, roots, h)
      {
        if !s.mark[h] {
          assert Chain(start, cells, lo, roots, [h]);
        } else if Black(h, s) {
          assert Black(h, t);
        }
      }
    }

    /** A marked set that holds the roots' cells and is closed under pointers holds every chain. */
    lemma {:induction false} ChainMarked(roots: seq<int>, s: Progress, path: seq<nat>, i: nat)
      requires Shape() && Chain(start, cells, lo, roots, path) && i < |path| && |s.mark| == |start|
      requires forall k :: 0 <= k < |roots| && Resolve(start, cells, lo, roots[k]).Some? ==>
                 s.mark[Resolve(start, cells, lo, roots[k]).value]
      requires forall g: nat :: g < |s.mark| && s.mark[g] ==> Black(g, s)
      ensures path[i] < |s.mark| && s.mark[path[i]]
    {
      hide Points, Resolve;
      if i > 0 {
        ChainMarked(roots, s, path, i - 1);
        assert Points(start, cells, lo, path[i - 1], path[i]);
        assert Black(path[i - 1], s);
      }
    }

    lemma ClosedMarks(roots: seq<int>, s: Progress, g: nat)
      requires Shape() && |s.mark| == |start| && s.queue == [] && !s.overflow && Accounted(top, s)
      requires forall h :: 0 <= h < |s.mark| && s.mark[h] ==> h < top
      requires forall k :: 0 <= k < |roots| && Resolve(start, cells, lo, roots[k]).Some? ==>
                 s.mark[Resolve(start, cells, lo, roots[k]).value]
      requires Reachable(start, cells, lo, roots, g)
      ensures g < |s.mark| && s.mark[g]
    {
      hide Points, Resolve, Black;
      var path :| Chain(start, cells, lo, roots, path) && path[|path| - 1] == g;
      ChainMarked(roots, s, path, |path| - 1);
    }
  }

  /** A chain extends along a pointer. */
  lemma ReachableNext(start: seq<bool>, cells: seq<Cell>, lo: int, roots: seq<int>, g: nat, h: nat)
    requires |start| == |cells| && Reachable(start, cells, lo, roots, g) && Points(start, cells, lo, g, h)
    ensures Reachable(start, cells, lo, roots, h)
  {
    hide Points, Resolve;
    var path :| Chain(start, cells, lo, roots, path) && path[|path| - 1] == g;
    var longer := path + [h];
    assert longer[0] == path[0];
    forall i {:trigger longer[i]} | 0 <= i < |longer| - 1
      ensures Points(start, cells, lo, longer[i], longer[i + 1])
    {
      if i < |path| - 1 {
        assert longer[i] == path[i] && longer[i + 1] == path[i + 1];
      } else {
        assert longer[i] == g && longer[i + 1] == h;
      }
    }
    assert Chain(start, cells, lo, roots, longer);
  }
}
