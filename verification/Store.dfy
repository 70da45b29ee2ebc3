/** The allocator and the sweep of runtime/heap_gc.c over the layout of HeapView. One allocation is
    one step here; the interleaving of concurrent region claims is the subject of module Regions. */
module Store {
  import opened MachineWords
  import opened HeapCells
  import opened HeapView
  import opened SweepSteps
  import opened Mark

  /** A sweep handed back the k regions from r on, all below the high-water mark; region 0 never is. */
  predicate RunBack(free: seq<bool>, cursor: nat, r: nat, k: nat) {
    1 <= r && r + k <= cursor && r + k <= |free| && forall q :: r <= q < r + k ==> free[q]
  }

  /** Neither fresh regions nor such a run. */
  ghost predicate CannotClaim(v: View, k: nat) {
    v.cursor + k > |v.owner| && forall r: nat :: !RunBack(v.free, v.cursor, r, k)
  }

  class Store {
    var start: seq<bool>
    var size: seq<nat>
    var kind: seq<Kind>
    var words: seq<seq<u64>>
    var next: seq<nat>
    var owner: seq<nat>
    var free: seq<bool>
    var cursor: nat
    var ws: seq<Worker>
    const mark: array<bool>
    const stack: array<nat>       // the mark stack
    const lo: int                 // the heap's base address
    ghost var lists: Lists

    ghost function V(): View
      reads this
    {
      View(start, size, kind, next, owner, free, cursor, ws)
    }

    ghost predicate Valid()
      reads this, mark
    {
      && Inv(V(), lists) && mark.Length == |start| == |words|
      && forall g :: 0 <= g < |start| && mark[g] ==> Live(V(), g)
    }

    /** `jacl_heap_init`: nothing claimed, nothing allocated. */
    constructor (regions: nat, base: int, stackSize: nat)
      ensures Valid() && fresh(mark) && fresh(stack) && stack.Length == stackSize && lo == base
      ensures |owner| == regions && cursor == 0 && forall g: nat :: g < |start| ==> !start[g]
    {
      start := seq(Base(regions), _ => false);
      size := seq(Base(regions), _ => 0);
      kind := seq(Base(regions), _ => FreeCell);
      words := seq(Base(regions), _ => []);
      next := seq(Base(regions), _ => 0);
      owner := seq(regions, _ => 0);
      free := seq(regions, _ => false);
      cursor := 0;
      ws := seq(MAX_WORKERS, _ => Worker(0, 0, seq(NCLASS + 1, _ => 0)));
      mark := new bool[Base(regions)](_ => false);
      stack := new nat[stackSize];
      lo := base;
      lists := EMPTY_LISTS;
      new;
      EmptyInv(V());
    }

    /** Claim k regions for w: the first run handed back by a sweep, else fresh ones past the cursor. It fails
        exactly when there is neither; the cursor has then moved all the same. */
    method Grab(w: nat, k: nat) returns (ok: bool, b: nat)
      requires Inv(V(), lists) && w < MAX_WORKERS && 1 <= k
      modifies this`owner, this`free, this`cursor
      ensures Inv(V(), lists)
      ensures ok ==> Claimed(V(), b, k, w) && (b == 0 <==> old(cursor) == 0)
      ensures ok && b == 0 ==> cursor == k
      ensures !ok ==> owner == old(owner) && free == old(free)
      ensures ok <==> old(cursor) + k <= |old(owner)| || exists r: nat :: RunBack(old(free), old(cursor), r, k)
      ensures (exists r: nat :: RunBack(old(free), old(cursor), r, k)) ==>
                && cursor == old(cursor) && RunBack(old(free), cursor, b, k)
                && forall r: nat :: r < b ==> !RunBack(old(free), cursor, r, k)
      ensures !(exists r: nat :: RunBack(old(free), old(cursor), r, k)) ==> cursor == old(cursor) + k && (ok ==> b == old(cursor))
    {
      hide Layout, Bumps, ListsOk, Claimed, CellOk, RunOk, Inv, RunBack;
      ghost var v := V();
      SizedView(v, lists);
      var found;
      found, b := TakeBack(k);
      if found {
        RunIs(v.free, v.cursor, b, k);
        OwnRun(b, k, w);
        TakeKeeps(v, V(), b, k, w, lists);
        return true, b;
      }
      var base := cursor;
      cursor := cursor + k;
      if base + k > |owner| {
        CursorKeeps(v, V(), lists);
        return false, 0;
      }
      NotYetFree(v, base, k);
      OwnRun(base, k, w);
      TakeKeeps(v, V(), base, k, w, lists);
      return true, base;
    }

    lemma RunIs(free: seq<bool>, cursor: nat, r: nat, k: nat)
      requires RunBack(free, cursor, r, k)
      ensures 1 <= r && r + k <= cursor && r + k <= |free| && forall q :: r <= q < r + k ==> free[q]
    {
    }

    /** Take the first handed-back run of k regions, if there is one. */
    method TakeBack(k: nat) returns (found: bool, r: nat)
      requires |free| == |owner| && 1 <= k
      modifies this`free
      ensures found ==> RunBack(old(free), cursor, r, k) && |free| == |old(free)|
      ensures found ==> forall q :: 0 <= q < |free| ==> free[q] == (old(free)[q] && !(r <= q < r + k))
      ensures found ==> forall q: nat :: q < r ==> !RunBack(old(free), cursor, q, k)
      ensures !found ==> free == old(free) && forall q: nat :: !RunBack(free, cursor, q, k)
    {
      ghost var was := free;
      var top := if cursor > |owner| then |owner| else cursor;
      found, r := false, 1;
      while r + k <= top
        invariant 1 <= r && free == was
        invariant forall q: nat :: q < r ==> !RunBack(was, cursor, q, k)
        decreases top - r
      {
        if !free[r] {
          r := r + 1;
          continue;
        }
        var got := TakeRun(r, k);
        if got == k {
          return true, r;
        }
        assert !was[r + got];
        GiveBack(r, got);
        assert free == was;
        r := r + got + 1;
      }
    }

    /** CAS handed-back regions to taken until one is not free. */
    method TakeRun(r: nat, k: nat) returns (got: nat)
      requires r + k <= |free|
      modifies this`free
      ensures got <= k && |free| == |old(free)| && (forall q :: r <= q < r + got ==> old(free)[q])
      ensures got < k ==> !old(free)[r + got]
      ensures forall q :: 0 <= q < |free| ==> free[q] == (old(free)[q] && !(r <= q < r + got))
    {
      got := 0;
      while got < k && free[r + got]
        invariant got <= k && |free| == |old(free)| && (forall q :: r <= q < r + got ==> old(free)[q])
        invariant forall q :: 0 <= q < |free| ==> free[q] == (old(free)[q] && !(r <= q < r + got))
      {
        free := free[r + got := false];
        got := got + 1;
      }
    }

    /** A partly-taken run is given back. */
    method GiveBack(r: nat, got: nat)
      requires r + got <= |free|
      modifies this`free
      ensures |free| == |old(free)| && forall q :: 0 <= q < |free| ==> free[q] == (old(free)[q] || r <= q < r + got)
    {
      var i := 0;
      while i < got
        invariant i <= got && |free| == |old(free)|
        invariant forall q :: 0 <= q < |free| ==> free[q] == (old(free)[q] || r <= q < r + i)
      {
        free := free[r + i := true];
        i := i + 1;
      }
    }

    method OwnRun(r: nat, k: nat, w: nat)
      requires r + k <= |owner|
      modifies this`owner
      ensures |owner| == |old(owner)|
      ensures forall q :: 0 <= q < |owner| ==> owner[q] == if r <= q < r + k then w else old(owner)[q]
    {
      var i := 0;
      while i < k
        invariant i <= k && |owner| == |old(owner)|
        invariant forall q :: 0 <= q < |owner| ==> owner[q] == if r <= q < r + i then w else old(owner)[q]
      {
        owner := owner[r + i := w];
        i := i + 1;
      }
    }

    lemma SizedView(v: View, lists: Lists)
      requires Inv(v, lists)
      ensures Sized(v)
    {
    }

    lemma NotYetFree(v: View, b: nat, k: nat)
      requires Inv(v, lists) && v.cursor == b && b + k <= |v.owner|
      ensures forall q :: b <= q < b + k ==> !v.free[q]
    {
    }

    /** A freed cell of exactly n granules waits on the worker's list. */
    predicate Listed(x: Worker, n: nat)
      requires |x.heads| == NCLASS + 1
    {
      n <= NCLASS && x.heads[n] != 0
    }

    predicate Bumped(x: Worker, n: nat) {
      x.bump + n <= x.limit
    }

    /** `jacl_alloc_off` for worker w and a cell of n granules, with the header `jacl_alloc` then
        writes: from the exact-size list, the bump region, a run of its own, or a fresh region.
        0 means that the pool has no such run, or that the claim was the first ever and for a large cell,
        whose offset would be 0. The layout survives exactly when the cell is not a region's size and the
        first ever: that one starts a granule into region 0 and ends in region 1, which is still to be
        claimed. */
    method Allocate(w: nat, n: nat, k: Kind) returns (off: nat)
      requires Valid() && w < MAX_WORKERS && 0 < n && k != FreeCell
      modifies this, mark
      ensures Valid() <==> !(old(cursor) == 0 && n == REGION && |old(owner)| > 0)
      ensures old(cursor) == 0 && n == REGION && |old(owner)| > 0 ==>
                off == 1 && cursor == 1 && off + n == Base(1) + 1 && RegionOf(off + n - 1) == 1
      ensures off == 0 <==> !Listed(old(ws[w]), n) && !Bumped(old(ws[w]), n)
                            && (CannotClaim(old(V()), if n > REGION then Span(n) else 1) || (n > REGION && old(cursor) == 0))
      ensures Listed(old(ws[w]), n) ==> off == old(ws[w].heads[n])
      ensures !Listed(old(ws[w]), n) && Bumped(old(ws[w]), n) ==> off == old(ws[w].bump)
      ensures off == 0 ==> start == old(start) && size == old(size) && kind == old(kind) && words == old(words) && ws == old(ws)
      ensures off > 0 && Valid() ==> Fits(old(V()), off, n)
      ensures off > 0 ==> WroteCell(old(start), old(size), old(kind), old(words), off, n, k)
      ensures forall g :: 0 <= g < mark.Length && g != off ==> mark[g] == old(mark[g])
    {
      hide Layout, Bumps, ListsOk, Claimed, CellOk, RunOk, Inv, Fits, Area;
      ghost var v := V();
      SizedView(v, lists);
      if n <= NCLASS && ws[w].heads[n] != 0 {
        off := ws[w].heads[n];
        PopKeeps(v, w, n, k, lists);
        InvLayout(v, lists);
        PopFits(v, w, n, off);
        lists := SetList(lists, w, n, lists[w][n][1..]);
        ws := ws[w := ws[w].(heads := ws[w].heads[n := next[off]])];
        WriteHeader(off, n, k);
        return;
      }
      NoAreaYet(v, lists, w);
      if ws[w].bump + n <= ws[w].limit {
        off := ws[w].bump;
        InvLayout(v, lists);
        BumpIsArea(v, w);
        BumpInto(w, off, n, k, ws[w].limit);
        return;
      }
      if n > REGION {
        off := OwnRunFor(w, n, k);
      } else {
        off := Refill(w, n, k);
      }
    }

    /** A large cell gets a run of regions of its own. */
    method OwnRunFor(w: nat, n: nat, k: Kind) returns (off: nat)
      requires Valid() && w < MAX_WORKERS && n > REGION && k != FreeCell
      modifies this, mark
      ensures off == 0 <==> CannotClaim(old(V()), Span(n)) || old(cursor) == 0
      ensures Valid() && (old(cursor) == 0 ==> off == 0)
      ensures off == 0 ==> start == old(start) && size == old(size) && kind == old(kind) && words == old(words) && ws == old(ws)
      ensures off > 0 ==> Fits(old(V()), off, n) && WroteCell(old(start), old(size), old(kind), old(words), off, n, k)
      ensures forall g :: 0 <= g < mark.Length && g != off ==> mark[g] == old(mark[g])
    {
      hide Layout, Bumps, ListsOk, Claimed, CellOk, RunOk, Inv, Fits, Area;
      ghost var v := V();
      SizedView(v, lists);
      SpanCovers(n);
      var ok, b := Grab(w, Span(n));
      if !ok || b == 0 {
        return 0;
      }
      off := Base(b);
      InvLayout(V(), lists);
      SameCells(v, V(), off, n);
      RunFits(V(), w, b, n);
      PlaceLarge(V(), Put(V(), off, n, k), w, b, n, k, lists);
      WriteHeader(off, n, k);
    }

    /** A small cell at the front of a freshly claimed region. */
    method Refill(w: nat, n: nat, k: Kind) returns (off: nat)
      requires Valid() && w < MAX_WORKERS && 0 < n <= REGION && k != FreeCell
      modifies this, mark
      ensures off == 0 <==> CannotClaim(old(V()), 1)
      ensures Valid() <==> !(old(cursor) == 0 && n == REGION && |old(owner)| > 0)
      ensures old(cursor) == 0 && n == REGION && |old(owner)| > 0 ==>
                off == 1 && cursor == 1 && off + n == Base(1) + 1 && RegionOf(off + n - 1) == 1
      ensures off == 0 ==> start == old(start) && size == old(size) && kind == old(kind) && words == old(words) && ws == old(ws)
      ensures off > 0 && Valid() ==> Fits(old(V()), off, n)
      ensures off > 0 ==> WroteCell(old(start), old(size), old(kind), old(words), off, n, k)
      ensures forall g :: 0 <= g < mark.Length && g != off ==> mark[g] == old(mark[g])
    {
      hide Layout, Bumps, ListsOk, Claimed, CellOk, RunOk, Inv, Fits, Area;
      ghost var v := V();
      SizedView(v, lists);
      var ok, b := Grab(w, 1);
      if !ok {
        return 0;
      }
      off := if b == 0 then 1 else Base(b);
      if b == 0 && n == REGION {
        RegionZero(V(), lists, w);
        ws := ws[w := ws[w].(bump := off + n, limit := Base(1))];
        WriteHeader(off, n, k);
        Overrun(V(), lists);
        return;
      }
      InvLayout(V(), lists);
      SameCells(v, V(), off, n);
      ClaimIsArea(V(), w, b);
      RefillFitsExactly(b, n);
      BumpInto(w, off, n, k, Base(b + 1));
    }

    /** The cell at off is new, of n granules, cleared and unmarked; nothing else is different. */
    ghost predicate WroteCell(start0: seq<bool>, size0: seq<nat>, kind0: seq<Kind>, words0: seq<seq<u64>>, off: nat, n: nat, k: Kind)
      reads this, mark
    {
      && off < |start0| == |size0| == |kind0| == |words0| == mark.Length && 0 < n
      && start == start0[off := true] && size == size0[off := n] && kind == kind0[off := k]
      && words == words0[off := seq(2 * n - 1, _ => 0)] && !mark[off]
    }

    /** Before the first claim no worker has a bump area. */
    lemma NoAreaYet(v: View, lists: Lists, w: nat)
      requires Inv(v, lists) && w < MAX_WORKERS
      ensures |v.ws| == MAX_WORKERS && (v.cursor == 0 ==> v.ws[w].bump == v.ws[w].limit == 0)
    {
      hide ListsOk, CellOk, RunOk;
      assert BumpOk(v, w);
    }

    lemma RegionZero(v: View, lists: Lists, w: nat)
      requires Inv(v, lists) && Claimed(v, 0, 1, w) && w < MAX_WORKERS
      ensures 1 < |v.start| == |v.size| == |v.kind| && |v.ws| == MAX_WORKERS && RegionOf(1 + REGION - 1) == 1
    {
      hide CellOk, RunOk, Bumps, ListsOk;
      assert Top(v) <= |v.owner|;
      RegionIs(REGION, 1);
    }

    /** A region-sized cell at granule 1 is in no layout. */
    lemma Overrun(v: View, lists: Lists)
      requires 1 < |v.start| && |v.size| == |v.start| && v.start[1] && v.size[1] == REGION
      ensures !Inv(v, lists)
    {
      RegionIs(1, 0);
      assert Sized(v) ==> !CellOk(v, 1);
    }

    /** Bump n granules off the front of an area into w's region. */
    method BumpInto(w: nat, off: nat, n: nat, k: Kind, limit: nat)
      requires Inv(V(), lists) && mark.Length == |start| == |words| && w < MAX_WORKERS && k != FreeCell
      requires forall g :: 0 <= g < |start| && mark[g] ==> start[g] && kind[g] != FreeCell
      requires Sized(V()) && Area(V(), w, off, limit) && 0 < n && off + n <= limit
      modifies this, mark
      ensures Valid() && Fits(old(V()), off, n) && WroteCell(old(start), old(size), old(kind), old(words), off, n, k)
      ensures forall g :: 0 <= g < mark.Length && g != off ==> mark[g] == old(mark[g])
    {
      hide Layout, Bumps, ListsOk, CellOk, RunOk, Inv, Fits, Area;
      ghost var v := V();
      InvLayout(v, lists);
      AreaFits(v, w, off, limit, n);
      FitsInRange(v, off, n);
      ghost var t := Put(v, off, n, k).(ws := ws[w := ws[w].(bump := off + n, limit := limit)]);
      PlaceSmall(v, t, w, off, n, k, limit, lists);
      ws := ws[w := ws[w].(bump := off + n, limit := limit)];
      WriteHeader(off, n, k);
      assert V() == t;
    }

    /** The header and cleared payload of a new cell, and its start bit. */
    method WriteHeader(off: nat, n: nat, k: Kind)
      requires mark.Length == |start| == |size| == |kind| == |words| && off < |start| && 0 < n
      modifies this`start, this`size, this`kind, this`words, mark
      ensures WroteCell(old(start), old(size), old(kind), old(words), off, n, k)
      ensures forall g :: 0 <= g < mark.Length && g != off ==> mark[g] == old(mark[g])
    {
      size := size[off := n];
      kind := kind[off := k];
      mark[off] := false;
      words := words[off := seq(2 * n - 1, _ => 0)];
      start := start[off := true];
    }

    lemma InvLayout(v: View, lists: Lists)
      requires Inv(v, lists)
      ensures Layout(v) && Bumps(v) && Sized(v) && |v.start| == |v.size| == |v.kind|
    {
    }

    lemma FitsInRange(v: View, off: nat, n: nat)
      requires Sized(v) && Fits(v, off, n)
      ensures off < |v.start|
    {
    }

    /** A claim leaves the cells as they are. */
    lemma SameCells(v: View, t: View, off: nat, n: nat)
      requires Sized(v) && Sized(t) && t.start == v.start && t.size == v.size && t.kind == v.kind
      ensures Fits(t, off, n) <==> Fits(v, off, n)
    {
    }

    /** Step 4 of a collection: free every unmarked cell, hand back every region left with nothing
        live but region 0, rebuild all free lists. The result counts cells freed and regions handed
        back; 0 means there was nothing to reclaim. */
    method Sweep() returns (reclaimed: nat)
      requires Valid()
      modifies this`start, this`kind, this`next, this`free, this`ws, this`lists
      ensures Valid() && mark[..] == old(mark[..])
      ensures Swept(old(V()), mark[..], V(), |start|)
      ensures NoneIdle(V(), Top(V()))
      ensures reclaimed == 0 ==> free == old(free) && AllMarked(old(V()), mark[..], |start|)
    {
      hide Layout, Bumps, ListsOk, CellOk, RunOk, Inv, Partial, Swept, Ahead, NoneIdle, Boundary, Progressed, Kept;
      ghost var v0 := V();
      InvLayout(v0, lists);
      ResetKeeps(v0, v0.(ws := NoHeads(ws)), lists);
      ws := NoHeads(ws);
      lists := EMPTY_LISTS;
      SweepStart(v0, mark[..], V());
      var top := if cursor > |owner| then |owner| else cursor;
      reclaimed := 0;
      var r := 0;
      while r < top
        invariant 0 <= r <= top && top == Top(V()) && size == v0.size && words == old(words)
        invariant Progressed(v0, mark[..], V(), lists, r)
        invariant reclaimed == 0 ==> free == v0.free && AllMarked(v0, mark[..], Base(r))
      {
        var n, next_ := SweepRegion(r, v0);
        reclaimed := reclaimed + n;
        r := next_;
      }
      SweepDone(v0, mark[..], V(), lists);
      InvLayout(V(), lists);
      MarksLive(v0, mark[..], V());
    }

    /** One region, or one large cell's run: skip it, hand it back, or rebuild its lists. */
    method SweepRegion(r: nat, ghost v0: View) returns (n: nat, after: nat)
      requires Layout(v0) && Progressed(v0, mark[..], V(), lists, r) && r < Top(V())
      modifies this`start, this`kind, this`next, this`free, this`ws, this`lists
      ensures Progressed(v0, mark[..], V(), lists, after) && r < after <= Top(V()) == old(Top(V()))
      ensures n == 0 ==> free == old(free) && (AllMarked(v0, mark[..], Base(r)) ==> AllMarked(v0, mark[..], Base(after)))
    {
      hide Layout, Bumps, ListsOk, CellOk, RunOk, Inv, Partial, Swept, Ahead, NoneIdle, Boundary, Progressed, Kept;
      ghost var v := V();
      Lens(v0, mark[..], v, lists, r);
      n := 0;
      if free[r] {
        SkipFree(v0, mark[..], v, lists, r);
        NothingLive(v0, v, lists, mark[..], r);
        return n, r + 1;
      }
      if start[Base(r)] && size[Base(r)] > REGION {
        var span := Span(size[Base(r)]);
        RunAlone(v0, mark[..], v, lists, r);
        if !mark[Base(r)] {
          n := 1 + span;
          Release(r, span);
          DeadRun(v0, mark[..], v, V(), lists, r);
        } else {
          SkipRun(v0, mark[..], v, lists, r);
        }
        return n, r + span;
      }
      n, after := SweepSmall(r, v0);
    }

    /** A region of small cells: pass 0, then hand it back or pass 1. */
    method SweepSmall(r: nat, ghost v0: View) returns (n: nat, after: nat)
      requires Layout(v0) && Progressed(v0, mark[..], V(), lists, r) && r < Top(V())
      requires Sized(V()) && mark.Length == |start| && !free[r] && !IsLarge(V(), Base(r))
      modifies this`start, this`kind, this`next, this`free, this`ws, this`lists
      ensures Progressed(v0, mark[..], V(), lists, after) && r < after <= Top(V()) == old(Top(V()))
      ensures n == 0 ==> free == old(free) && (AllMarked(v0, mark[..], Base(r)) ==> AllMarked(v0, mark[..], Base(after)))
    {
      hide Layout, Bumps, ListsOk, CellOk, RunOk, Inv, Partial, Swept, NoneIdle, Boundary, Progressed, Kept;
      ghost var v := V();
      Lens(v0, mark[..], v, lists, r);
      SameAhead(v0, mark[..], v, lists, r);
      after := r + 1;
      var live, freed := FreeDead(r);
      ghost var f := V();
      AfterFree(v0, mark[..], v, f, lists, r);
      n := freed;
      if live == 0 && r != 0 {
        n := n + 1;
        Release(r, 1);
        DeadRegion(v0, mark[..], v, f, V(), lists, r);
      } else {
        PushFree(r);
        AfterPush(v0, mark[..], f, V(), lists, r);
      }
    }

    /** Pass 0 over a region's start bits: free the dead, count the live. */
    method FreeDead(r: nat) returns (live: nat, freed: nat)
      requires Sized(V()) && mark.Length == |start| && r < |owner|
      requires forall g: nat :: Base(r) <= g < Base(r + 1) && start[g] ==> size[g] <= REGION
      modifies this`kind
      ensures Sized(V()) && DeadFreed(old(V()), V(), mark[..], r)
      ensures live == 0 <==> forall g: nat :: Base(r) <= g < Base(r + 1) ==> !Live(V(), g)
      ensures freed == 0 <==> forall g: nat :: Base(r) <= g < Base(r + 1) && Live(old(V()), g) ==> mark[g]
    {
      hide Live, DeadFreed, FreedIn, RegionOf, Base;
      live, freed := 0, 0;
      var g, end := Base(r), Base(r + 1);
      ghost var k0, m, st := kind, mark[..], start;
      RegionInside(V(), r);
      while g < end
        invariant Base(r) <= g <= end <= |st| && start == st && |kind| == |k0| == |m| == |st| && mark[..] == m
        invariant forall h: nat :: h < |k0| && !(Base(r) <= h < g) ==> kind[h] == k0[h]
        invariant forall h: nat :: Base(r) <= h < g ==>
          kind[h] == if st[h] && k0[h] != FreeCell && !m[h] then FreeCell else k0[h]
        invariant live == 0 <==> forall h: nat :: Base(r) <= h < g ==> !(st[h] && kind[h] != FreeCell)
        invariant freed == 0 <==> forall h: nat :: Base(r) <= h < g && st[h] && k0[h] != FreeCell ==> m[h]
        decreases end - g
      {
        assert mark[g] == m[g];
        if start[g] && kind[g] != FreeCell {
          if !mark[g] {
            kind := kind[g := FreeCell];
            freed := freed + 1;
          } else {
            live := live + 1;
          }
        }
        g := g + 1;
      }
      PassZero(old(V()), V(), mark[..], r, live, freed);
    }

    /** Pass 1: push the region's free cells onto their owner's lists. */
    method PushFree(r: nat)
      requires Partial(V(), lists, Base(r)) && r < |owner|
      modifies this`next, this`ws, this`lists
      ensures Partial(V(), lists, Base(r + 1)) && V() == old(V()).(next := next, ws := ws)
    {
      hide Layout, Bumps, ListsOk, CellOk, RunOk, Partial;
      ghost var v := V();
      PartialLayout(v, lists, Base(r));
      var g := Base(r);
      while g < Base(r + 1)
        invariant Base(r) <= g <= Base(r + 1)
        invariant Partial(V(), lists, g) && V() == v.(next := next, ws := ws)
      {
        PartialLayout(V(), lists, g);
        var cls := size[g];
        if !start[g] || kind[g] != FreeCell || cls > NCLASS {
          SkipTo(V(), lists, g, g + 1);
        } else {
          var w := owner[r];
          RegionIs(g, r);
          ListsShape(V(), lists, g);
          PushKeeps(V(), g, w, cls, lists);
          next := next[g := ws[w].heads[cls]];
          ws := ws[w := ws[w].(heads := ws[w].heads[cls := g])];
          lists := SetList(lists, w, cls, [g] + lists[w][cls]);
        }
        g := g + 1;
      }
    }

    lemma ListsShape(v: View, lists: Lists, p: nat)
      requires Partial(v, lists, p)
      ensures |lists| == MAX_WORKERS && forall w :: 0 <= w < MAX_WORKERS ==> |lists[w]| == NCLASS + 1
    {
    }

    /** Hand regions r .. r+k back to the pool: clear their start bits, retire bump areas in them. */
    method Release(r: nat, k: nat)
      requires Sized(V()) && r + k <= |owner|
      modifies this`start, this`free, this`ws
      ensures Released(old(V()), V(), r, k)
    {
      ClearStarts(Base(r), Base(r + k));
      RetireIn(Base(r), Base(r + k));
      var i := 0;
      while i < k
        invariant 0 <= i <= k && |free| == |old(free)|
        invariant forall q: nat :: q < |free| ==> free[q] == (old(free)[q] || r <= q < r + i)
        invariant V() == old(V()).(start := start, ws := ws, free := free)
        invariant ws == Retired(old(ws), Base(r), Base(r + k)) && |start| == |old(start)|
        invariant forall h: nat :: h < |start| ==> start[h] == (old(start)[h] && !(Base(r) <= h < Base(r + k)))
      {
        free := free[r + i := true];
        i := i + 1;
      }
    }

    method ClearStarts(lo: nat, hi: nat)
      requires lo <= hi <= |start|
      modifies this`start
      ensures |start| == |old(start)|
      ensures forall h: nat :: h < |start| ==> start[h] == (old(start)[h] && !(lo <= h < hi))
    {
      var g := lo;
      while g < hi
        invariant lo <= g <= hi && |start| == |old(start)|
        invariant forall h: nat :: h < |start| ==> start[h] == (old(start)[h] && !(lo <= h < g))
      {
        start := start[g := false];
        g := g + 1;
      }
    }

    method RetireIn(lo: nat, hi: nat)
      modifies this`ws
      ensures ws == Retired(old(ws), lo, hi)
    {
      var w := 0;
      while w < |ws|
        invariant 0 <= w <= |ws| && |ws| == |old(ws)|
        invariant forall u :: 0 <= u < |ws| ==> ws[u] == if u < w then Retired(old(ws), lo, hi)[u] else old(ws)[u]
      {
        var lim := ws[w].limit;
        if lim > lo && lim <= hi {
          ws := ws[w := ws[w].(bump := 0, limit := 0)];
        }
        w := w + 1;
      }
    }

    /** The cells as the mark phase reads them, sizes in bytes. */
    function Cells(): (c: seq<Cell>)
      requires |start| == |size| == |kind| == |words|
      reads this
      ensures |c| == |start|
    {
      seq(|start|, g requires 0 <= g < |start| reads this requires |start| == |size| == |kind| == |words| =>
        Cell(GRANULE * size[g], kind[g], words[g]))
    }

    /** The stop-the-world collection: clear marks, mark from the root words, sweep. Afterwards the
        cells that hold objects are exactly those that did and that a chain of pointers from the
        scanned roots reaches; each is as it was. */
    method Collect(rootbuf: seq<int>, count: nat) returns (reclaimed: nat)
      requires Valid() && count >= |rootbuf| && (count > |rootbuf| ==> |rootbuf| == 8192) && |rootbuf| <= 8192
      modifies this`start, this`kind, this`next, this`free, this`ws, this`lists, mark, stack
      ensures Valid()
      ensures forall g: nat :: g < |start| ==>
        (Live(V(), g) <==> Live(old(V()), g) && Reachable(old(start), old(Cells()), lo, rootbuf, g))
      ensures forall g: nat :: g < |start| && Live(V(), g) ==> kind[g] == old(kind[g])
      ensures |start| == |old(start)| && NoneIdle(V(), Top(V()))
      ensures forall h: nat :: RootNames(old(start), old(Cells()), lo, rootbuf, h) ==> h < |start| && Live(V(), h)
      ensures forall g: nat, h: nat :: g < |start| && Live(V(), g) && HoldsAddress(old(start), old(Cells()), lo, g, h) ==>
                h < |start| && Live(V(), h)
    {
      hide Layout, Bumps, ListsOk, CellOk, RunOk, Inv, NoneIdle, Reachable, RootNames, HoldsAddress;
      ghost var v0 := V();
      InvLayout(v0, lists);
      InvPastTop(v0, lists);
      var g := 0;
      while g < |start|
        invariant 0 <= g <= |start| && V() == v0 && lists == old(lists) && words == old(words)
        invariant forall h :: 0 <= h < |start| && mark[h] ==> start[h] && h >= g
      {
        if start[g] {
          mark[g] := false;
        }
        g := g + 1;
      }
      var top := Base(if cursor > |owner| then |owner| else cursor);
      var m := new Marker(start, Cells(), lo, top, mark, stack);
      m.MarkAll(rootbuf, count);
      forall h: nat | h < |start| && mark[h]
        ensures Live(V(), h)
      {
        ReachableLive(start, Cells(), lo, rootbuf, h);
      }
      reclaimed := Sweep();
      InvLayout(V(), lists);
      Survivors(v0, mark[..], V());
      KeptRoots(old(start), old(Cells()), rootbuf);
      KeptTargets(old(start), old(Cells()), rootbuf);
    }

    lemma KeptRoots(s: seq<bool>, c: seq<Cell>, roots: seq<int>)
      requires |s| == |c|
      ensures forall h: nat :: RootNames(s, c, lo, roots, h) ==>
                h < |s| && s[h] && !c[h].kind.FreeCell? && Reachable(s, c, lo, roots, h)
    {
      forall h: nat | RootNames(s, c, lo, roots, h)
        ensures h < |s| && s[h] && !c[h].kind.FreeCell? && Reachable(s, c, lo, roots, h)
      {
        var i :| 0 <= i < |roots| && Names(s, c, lo, roots[i], h);
        ResolvesExactly(s, c, lo, roots[i], h);
        assert Chain(s, c, lo, roots, [h]);
      }
    }

    lemma KeptTargets(s: seq<bool>, c: seq<Cell>, roots: seq<int>)
      requires |s| == |c|
      ensures forall g: nat, h: nat :: Reachable(s, c, lo, roots, g) && HoldsAddress(s, c, lo, g, h) ==>
                h < |s| && s[h] && !c[h].kind.FreeCell? && Reachable(s, c, lo, roots, h)
    {
      forall g: nat, h: nat | Reachable(s, c, lo, roots, g) && HoldsAddress(s, c, lo, g, h)
        ensures h < |s| && s[h] && !c[h].kind.FreeCell? && Reachable(s, c, lo, roots, h)
      {
        PointsExactly(s, c, lo, g, h);
        ReachableNext(s, c, lo, roots, g, h);
        ReachableLive(s, c, lo, roots, h);
      }
    }

    lemma InvPastTop(v: View, lists: Lists)
      requires Inv(v, lists)
      ensures forall g: nat :: g < |v.start| && v.start[g] ==> g < Base(Top(v))
      ensures Base(Top(v)) % 8 == 0 && Base(Top(v)) <= |v.start|
    {
      hide CellOk, RunOk, Bumps, ListsOk, BumpOk;
      PastTop(v);
      ByteAligned(Top(v));
    }

    lemma ByteAligned(r: nat)
      ensures Base(r) % 8 == 0
    {
      assert Base(r) == 8 * (512 * r);
    }

    lemma Survivors(v0: View, m: seq<bool>, v: View)
      requires Sized(v0) && Sized(v) && |v.start| == |v0.start| == |m| && Swept(v0, m, v, |v.start|)
      ensures forall g: nat :: g < |v.start| ==> (Live(v, g) <==> Live(v0, g) && m[g])
      ensures forall g: nat :: g < |v.start| && Live(v, g) ==> v.kind[g] == v0.kind[g]
    {
    }
  }

  /** What a chain ends in is a cell that holds an object. */
  lemma ReachableLive(start: seq<bool>, cells: seq<Cell>, lo: int, roots: seq<int>, g: nat)
    requires |start| == |cells| && Reachable(start, cells, lo, roots, g)
    ensures g < |start| && start[g] && !cells[g].kind.FreeCell?
  {
    var path :| Chain(start, cells, lo, roots, path) && path[|path| - 1] == g;
    if |path| > 1 {
      assert Points(start, cells, lo, path[|path| - 2], path[|path| - 1]);
    }
  }
}
