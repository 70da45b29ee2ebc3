/** What the steps of the sweep of runtime/heap_gc.c do to the heap's invariant, which while it runs
    covers the free lists only below the granule reached. */
module SweepSteps {
  import opened HeapCells
  import opened HeapView

  /** The invariant with the lists rebuilt below granule p. */
  ghost predicate Partial(v: View, lists: Lists, p: nat) {
    Layout(v) && Bumps(v) && ListsOk(v, lists, p)
  }

  function NoHeads(ws: seq<Worker>): seq<Worker> {
    seq(|ws|, w requires 0 <= w < |ws| => ws[w].(heads := seq(NCLASS + 1, _ => 0)))
  }

  const EMPTY_LISTS: Lists := seq(MAX_WORKERS, _ => seq(NCLASS + 1, _ => []))

  /** A heap nothing was ever allocated from. */
  lemma EmptyInv(v: View)
    requires Sized(v) && v.cursor == 0 && (forall g :: 0 <= g < |v.start| ==> !v.start[g])
    requires (forall r :: 0 <= r < |v.free| ==> !v.free[r])
    requires forall w :: 0 <= w < |v.ws| ==> v.ws[w] == Worker(0, 0, seq(NCLASS + 1, _ => 0))
    ensures Inv(v, EMPTY_LISTS)
  {
    forall w: nat, c: nat | w < MAX_WORKERS && c <= NCLASS
      ensures ListOk(v, EMPTY_LISTS[w][c], w, c, |v.start|)
    {
      assert EMPTY_LISTS[w][c] == [];
    }
  }

  /** Emptying every list. */
  lemma ResetKeeps(v: View, t: View, lists: Lists)
    requires Inv(v, lists) && t == v.(ws := NoHeads(v.ws))
    ensures Partial(t, EMPTY_LISTS, 0)
  {
    assert Layout(t) by {
      SameLayout(v, t);
    }
    ReuseBumps(v, t);
    forall w: nat, c: nat | w < MAX_WORKERS && c <= NCLASS
      ensures ListOk(t, EMPTY_LISTS[w][c], w, c, 0)
    {
      assert EMPTY_LISTS[w][c] == [];
    }
  }

  lemma SameLayout(v: View, t: View)
    requires Layout(v) && Sized(t) && t == v.(ws := t.ws)
    requires forall u :: 0 <= u < |v.ws| ==> t.ws[u].limit == v.ws[u].limit
    ensures Layout(t)
  {
    forall g: nat | g < |t.start| && t.start[g]
      ensures CellOk(t, g)
    {
      assert CellOk(v, g);
    }
    forall g: nat | g < |t.start| && IsLarge(t, g)
      ensures RunOk(t, g)
    {
      assert IsLarge(v, g) && RunOk(v, g);
    }
  }

  /** Freeing small cells of one region, above the rebuilt lists. */
  ghost predicate FreedIn(v: View, t: View, r: nat)
    requires Sized(v)
  {
    && t == v.(kind := t.kind) && |t.kind| == |v.kind|
    && forall g: nat :: g < |v.kind| && t.kind[g] != v.kind[g] ==>
         t.kind[g] == FreeCell && RegionOf(g) == r && v.size[g] <= REGION
  }

  lemma FreeKeeps(v: View, t: View, r: nat, lists: Lists)
    requires Partial(v, lists, Base(r)) && FreedIn(v, t, r)
    ensures Partial(t, lists, Base(r))
  {
    hide ListsOk;
    FreeLayout(v, t, r);
    forall u: nat | u < |t.ws|
      ensures BumpOk(t, u)
    {
      assert BumpOk(v, u);
    }
    FreeLists(v, t, r, lists);
  }

  lemma FreeLayout(v: View, t: View, r: nat)
    requires Layout(v) && FreedIn(v, t, r)
    ensures Layout(t)
  {
    forall g: nat | g < |t.start| && t.start[g]
      ensures CellOk(t, g)
    {
      assert CellOk(v, g);
    }
    forall g: nat | g < |t.start| && IsLarge(t, g)
      ensures RunOk(t, g)
    {
      assert IsLarge(v, g) && RunOk(v, g);
    }
  }

  lemma FreeLists(v: View, t: View, r: nat, lists: Lists)
    requires Sized(v) && Sized(t) && ListsOk(v, lists, Base(r)) && FreedIn(v, t, r)
    ensures ListsOk(t, lists, Base(r))
  {
    forall u: nat, c: nat | u < MAX_WORKERS && c <= NCLASS
      ensures ListOk(t, lists[u][c], u, c, Base(r))
    {
      assert ListOk(v, lists[u][c], u, c, Base(r));
      forall g: nat | g < |t.start| && g < Base(r)
        ensures OnList(t, g, u, c) <==> OnList(v, g, u, c)
      {
        InRegion(g);
      }
    }
  }

  /** Regions r .. r+k hold whole cells and whole runs only. */
  ghost predicate Closed(v: View, r: nat, k: nat)
    requires Sized(v)
  {
    && 1 <= r && r + k <= Top(v)
    && forall g: nat :: g < |v.start| && IsLarge(v, g) ==>
         (r <= RegionOf(g) && RegionOf(g) + Span(v.size[g]) <= r + k)
         || RegionOf(g) + Span(v.size[g]) <= r || r + k <= RegionOf(g)
  }

  /** A region with no large head and outside every run is closed. */
  lemma SmallRegionClosed(v: View, r: nat)
    requires Layout(v) && 1 <= r < Top(v) && forall g: nat :: g < |v.start| ==> !InRun(v, g, r)
    ensures Closed(v, r, 1)
  {
    forall g: nat | g < |v.start| && IsLarge(v, g)
      ensures RegionOf(g) + Span(v.size[g]) <= r || r + 1 <= RegionOf(g)
    {
      assert !InRun(v, g, r);
    }
  }

  /** So is a large cell's run. */
  lemma RunClosed(v: View, g: nat)
    requires Layout(v) && g < |v.start| && IsLarge(v, g) && 1 <= RegionOf(g)
    ensures Closed(v, RegionOf(g), Span(v.size[g]))
  {
    assert CellOk(v, g) && RunOk(v, g);
    var r, k := RegionOf(g), Span(v.size[g]);
    forall h: nat | h < |v.start| && IsLarge(v, h)
      ensures h == g || RegionOf(h) + Span(v.size[h]) <= r || r + k <= RegionOf(h)
    {
      if h != g {
        RunsApart(v, g, h);
      }
    }
  }

  lemma RunsApart(v: View, g: nat, h: nat)
    requires Layout(v) && g < |v.start| && h < |v.start| && IsLarge(v, g) && IsLarge(v, h) && g != h
    ensures RegionOf(h) + Span(v.size[h]) <= RegionOf(g) || RegionOf(g) + Span(v.size[g]) <= RegionOf(h)
  {
    assert CellOk(v, g) && CellOk(v, h) && RunOk(v, g) && RunOk(v, h);
    InRegion(g);
    InRegion(h);
  }

  function Retired(ws: seq<Worker>, lo: nat, hi: nat): seq<Worker> {
    seq(|ws|, w requires 0 <= w < |ws| =>
      if lo < ws[w].limit <= hi then ws[w].(bump := 0, limit := 0) else ws[w])
  }

  /** v with regions r .. r+k handed back. */
  ghost predicate Released(v: View, t: View, r: nat, k: nat)
    requires Sized(v)
  {
    && t == v.(start := t.start, free := t.free, ws := Retired(v.ws, Base(r), Base(r + k)))
    && |t.start| == |v.start| && |t.free| == |v.free|
    && (forall g: nat :: g < |v.start| ==> t.start[g] == (v.start[g] && !(Base(r) <= g < Base(r + k))))
    && (forall q: nat :: q < |v.free| ==> t.free[q] == (v.free[q] || r <= q < r + k))
  }

  lemma ReleaseKeeps(v: View, t: View, r: nat, k: nat, lists: Lists)
    requires Partial(v, lists, Base(r)) && Closed(v, r, k) && Released(v, t, r, k)
    ensures Partial(t, lists, Base(r + k))
  {
    ReleaseLayout(v, t, r, k);
    ReleaseBumps(v, t, r, k);
    forall u: nat, c: nat | u < MAX_WORKERS && c <= NCLASS
      ensures ListOk(t, lists[u][c], u, c, Base(r + k))
    {
      assert ListOk(v, lists[u][c], u, c, Base(r));
      assert forall g: nat :: g < |t.start| && g < Base(r + k) ==>
               (OnList(t, g, u, c) <==> g < Base(r) && OnList(v, g, u, c));
    }
  }

  lemma ReleaseLayout(v: View, t: View, r: nat, k: nat)
    requires Layout(v) && Closed(v, r, k) && Released(v, t, r, k)
    ensures Layout(t)
  {
    hide CellOk, RunOk, Closed;
    ReleasedClaimed(v, r, k);
    assert Sized(t);
    forall g: nat | g < |t.start| && t.start[g]
      ensures CellOk(t, g)
    {
      ReleaseCell(v, t, r, k, g);
    }
    forall g: nat | g < |t.start| && IsLarge(t, g)
      ensures RunOk(t, g)
    {
      ReleaseRun(v, t, r, k, g);
    }
  }

  lemma ReleasedClaimed(v: View, r: nat, k: nat)
    requires Sized(v) && Closed(v, r, k)
    ensures 1 <= r && r + k <= Top(v)
  {
  }

  lemma ReleaseCell(v: View, t: View, r: nat, k: nat, g: nat)
    requires Layout(v) && Released(v, t, r, k) && Sized(t) && g < |t.start| && t.start[g]
    ensures CellOk(t, g)
  {
    hide RunOk;
    assert CellOk(v, g);
    InRegion(g);
  }

  lemma ReleaseRun(v: View, t: View, r: nat, k: nat, g: nat)
    requires Layout(v) && Closed(v, r, k) && Released(v, t, r, k) && Sized(t) && g < |t.start| && IsLarge(t, g)
    ensures RunOk(t, g)
  {
    hide CellOk;
    assert IsLarge(v, g) && RunOk(v, g);
    InRegion(g);
  }

  lemma ReleaseBumps(v: View, t: View, r: nat, k: nat)
    requires Layout(v) && Bumps(v) && Closed(v, r, k) && Released(v, t, r, k)
    ensures Sized(t) && Bumps(t)
  {
    hide CellOk, RunOk, Closed, BumpOk;
    forall u: nat | u < |t.ws|
      ensures BumpOk(t, u)
    {
      ReleaseBump(v, t, r, k, u);
    }
  }

  lemma ReleaseBump(v: View, t: View, r: nat, k: nat, u: nat)
    requires Sized(v) && Bumps(v) && Released(v, t, r, k) && Sized(t) && u < |v.ws|
    ensures BumpOk(t, u)
  {
    assert BumpOk(v, u);
    if v.ws[u].limit > 0 {
      InRegion(v.ws[u].limit - 1);
    }
  }

  /** Nothing between p and q belongs on a list. */
  lemma SkipTo(v: View, lists: Lists, p: nat, q: nat)
    requires Partial(v, lists, p) && p <= q
    requires forall g: nat :: p <= g < q && g < |v.start| ==> !(v.start[g] && v.kind[g] == FreeCell && v.size[g] <= NCLASS)
    ensures Partial(v, lists, q)
  {
    forall u: nat, c: nat | u < MAX_WORKERS && c <= NCLASS
      ensures ListOk(v, lists[u][c], u, c, q)
    {
      assert ListOk(v, lists[u][c], u, c, p);
    }
  }

  function Pushed(v: View, g: nat, w: nat, c: nat): View
    requires Sized(v) && g < |v.next| && w < |v.ws| && c <= NCLASS
  {
    v.(next := v.next[g := v.ws[w].heads[c]], ws := v.ws[w := v.ws[w].(heads := v.ws[w].heads[c := g])])
  }

  /** Pushing the next free cell onto its owner's list of its class. */
  lemma PushKeeps(v: View, g: nat, w: nat, c: nat, lists: Lists)
    requires Partial(v, lists, g) && g < |v.start| && w < MAX_WORKERS && c <= NCLASS && OnList(v, g, w, c)
    ensures Partial(Pushed(v, g, w, c), SetList(lists, w, c, [g] + lists[w][c]), g + 1)
  {
    var t, after := Pushed(v, g, w, c), SetList(lists, w, c, [g] + lists[w][c]);
    assert CellOk(v, g);
    LinkLayout(v, t);
    LinkBumps(v, t);
    forall u: nat, d: nat | u < MAX_WORKERS && d <= NCLASS
      ensures ListOk(t, after[u][d], u, d, g + 1)
    {
      PushList(v, g, w, c, lists, u, d);
    }
  }

  lemma PushList(v: View, g: nat, w: nat, c: nat, lists: Lists, u: nat, d: nat)
    requires Sized(v) && ListsOk(v, lists, g) && 0 < g < |v.start| && w < MAX_WORKERS && c <= NCLASS && OnList(v, g, w, c)
    requires u < MAX_WORKERS && d <= NCLASS
    ensures ListOk(Pushed(v, g, w, c), SetList(lists, w, c, [g] + lists[w][c])[u][d], u, d, g + 1)
  {
    var t, after := Pushed(v, g, w, c), SetList(lists, w, c, [g] + lists[w][c]);
    assert ListOk(v, lists[u][d], u, d, g);
    LinkedSame(v.next, t.next, v.ws[u].heads[d], lists[u][d]);
    assert forall h: nat :: h < |t.start| ==> (OnList(t, h, u, d) <==> OnList(v, h, u, d));
    if u == w && d == c {
      assert after[u][d] == [g] + lists[u][d];
      assert after[u][d][1..] == lists[u][d];
    } else {
      assert after[u][d] == lists[u][d];
    }
  }

  lemma LinkLayout(v: View, t: View)
    requires Layout(v) && Sized(t) && t == v.(next := t.next, ws := t.ws)
    requires forall u :: 0 <= u < |v.ws| ==> t.ws[u].limit == v.ws[u].limit
    ensures Layout(t)
  {
    forall g: nat | g < |t.start| && t.start[g]
      ensures CellOk(t, g)
    {
      assert CellOk(v, g);
    }
    forall g: nat | g < |t.start| && IsLarge(t, g)
      ensures RunOk(t, g)
    {
      assert IsLarge(v, g) && RunOk(v, g);
    }
  }

  lemma LinkBumps(v: View, t: View)
    requires Sized(v) && Bumps(v) && Sized(t) && t == v.(next := t.next, ws := t.ws)
    requires forall u :: 0 <= u < |v.ws| ==> t.ws[u].limit == v.ws[u].limit && t.ws[u].bump == v.ws[u].bump
    ensures Bumps(t)
  {
    forall u: nat | u < |t.ws|
      ensures BumpOk(t, u)
    {
      assert BumpOk(v, u);
    }
  }

  // ---- the sweep's progress ----

  /** Below granule p nothing live is unmarked. */
  ghost predicate AllMarked(v: View, mark: seq<bool>, p: nat)
    requires Sized(v) && |mark| == |v.start|
  {
    forall g: nat :: g < p && g < |v.start| && Live(v, g) ==> mark[g]
  }

  /** Below granule p exactly the marked live cells of v0 are left, each as it was. */
  ghost predicate Swept(v0: View, mark: seq<bool>, v: View, p: nat)
    requires Sized(v0) && Sized(v) && |v.start| == |v0.start| == |mark|
  {
    forall g: nat :: g < p && g < |v0.start| ==>
      (Live(v, g) <==> Live(v0, g) && mark[g]) && (Live(v, g) ==> v.kind[g] == v0.kind[g])
  }

  /** From region r on nothing was touched yet. */
  ghost predicate Ahead(v0: View, v: View, r: nat)
    requires Sized(v0) && Sized(v)
  {
    && v.size == v0.size && v.owner == v0.owner && v.cursor == v0.cursor && |v.start| == |v0.start|
    && (forall g: nat :: Base(r) <= g < |v.start| ==> v.start[g] == v0.start[g] && v.kind[g] == v0.kind[g])
    && (forall q: nat :: r <= q < |v.free| ==> v.free[q] == v0.free[q])
  }

  /** A survivor lies in region q, or q belongs to one's run. */
  ghost predicate Kept(v: View, q: nat)
    requires Sized(v)
  {
    exists g: nat :: g < |v.start| && Live(v, g) && (RegionOf(g) == q || InRun(v, g, q))
  }

  /** Every region below r but region 0 holds a survivor or was handed back. */
  ghost predicate NoneIdle(v: View, r: nat)
    requires Sized(v)
  {
    forall q: nat :: 1 <= q < r && q < |v.free| && !v.free[q] ==> Kept(v, q)
  }

  /** Region r starts no run's inside. */
  ghost predicate Boundary(v: View, r: nat)
    requires Sized(v)
  {
    forall g: nat :: g < |v.start| && IsLarge(v, g) ==> r <= RegionOf(g) || RegionOf(g) + Span(v.size[g]) <= r
  }

  ghost predicate Progressed(v0: View, mark: seq<bool>, v: View, lists: Lists, r: nat) {
    && Sized(v0) && Partial(v, lists, Base(r)) && |v.start| == |v0.start| == |mark| && r <= Top(v)
    && Swept(v0, mark, v, Base(r)) && Ahead(v0, v, r) && NoneIdle(v, r) && Boundary(v, r)
  }

  /** A region with no large cell at its start, reached by the sweep, is in no run. */
  lemma InNoRun(v: View, r: nat)
    requires Layout(v) && Boundary(v, r) && r < Top(v) && !IsLarge(v, Base(r))
    ensures forall g: nat :: g < |v.start| ==> !InRun(v, g, r)
    ensures forall g: nat :: Base(r) <= g < Base(r + 1) && v.start[g] ==> v.size[g] <= REGION
  {
    forall g: nat | g < |v.start|
      ensures !InRun(v, g, r)
    {
      assert IsLarge(v, g) ==> CellOk(v, g);
    }
    forall g: nat | Base(r) <= g < Base(r + 1) && v.start[g]
      ensures v.size[g] <= REGION
    {
      RegionIs(g, r);
      assert CellOk(v, g);
    }
  }

  lemma SkipFree(v0: View, mark: seq<bool>, v: View, lists: Lists, r: nat)
    requires Progressed(v0, mark, v, lists, r) && r < Top(v) && v.free[r]
    ensures Progressed(v0, mark, v, lists, r + 1)
  {
    EmptyIsEmpty(v, r);
    SkipTo(v, lists, Base(r), Base(r + 1));
    forall g: nat | g < |v.start| && IsLarge(v, g)
      ensures r + 1 <= RegionOf(g) || RegionOf(g) + Span(v.size[g]) <= r + 1
    {
      assert !InRun(v, g, r);
    }
  }

  lemma SkipRun(v0: View, mark: seq<bool>, v: View, lists: Lists, r: nat)
    requires Progressed(v0, mark, v, lists, r) && r < Top(v) && IsLarge(v, Base(r)) && mark[Base(r)]
    ensures Progressed(v0, mark, v, lists, r + Span(v.size[Base(r)]))
  {
    var g0, k := Base(r), Span(v.size[Base(r)]);
    RegionIs(g0, r);
    assert CellOk(v, g0) && RunOk(v, g0);
    SkipTo(v, lists, g0, Base(r + k));
    forall q: nat | r <= q < r + k
      ensures Kept(v, q)
    {
      assert InRun(v, g0, q) && Live(v, g0);
    }
    forall h: nat | h < |v.start| && IsLarge(v, h)
      ensures r + k <= RegionOf(h) || RegionOf(h) + Span(v.size[h]) <= r + k
    {
      if h != g0 {
        RunsApart(v, g0, h);
      }
    }
  }

  /** Handing back regions that hold no survivor. */
  lemma AfterRelease(v0: View, mark: seq<bool>, v: View, t: View, lists: Lists, r: nat, k: nat)
    requires Sized(v0) && Partial(v, lists, Base(r)) && |v.start| == |v0.start| == |mark| && r <= Top(v)
    requires Swept(v0, mark, v, Base(r)) && Ahead(v0, v, r + k) && NoneIdle(v, r) && Boundary(v, r)
    requires forall q: nat :: r <= q < |v.free| ==> v.free[q] == v0.free[q]
    requires Closed(v, r, k) && 1 <= k && Released(v, t, r, k)
    requires forall g: nat :: Base(r) <= g < Base(r + k) ==> !(Live(v0, g) && mark[g])
    ensures Progressed(v0, mark, t, lists, r + k)
  {
    ReleaseKeeps(v, t, r, k, lists);
    forall q: nat | 1 <= q < r + k && q < |t.free| && !t.free[q]
      ensures Kept(t, q)
    {
      KeptSurvives(v, t, r, k, q);
    }
    forall h: nat | h < |t.start| && IsLarge(t, h)
      ensures r + k <= RegionOf(h) || RegionOf(h) + Span(t.size[h]) <= r + k
    {
      InRegion(h);
      assert IsLarge(v, h);
    }
  }

  lemma KeptSurvives(v: View, t: View, r: nat, k: nat, q: nat)
    requires Sized(v) && Sized(t) && Released(v, t, r, k) && NoneIdle(v, r) && Closed(v, r, k)
    requires 1 <= q < r + k && q < |t.free| && !t.free[q] && Boundary(v, r)
    ensures Kept(t, q)
  {
    assert q < r && Kept(v, q);
    var g: nat :| g < |v.start| && Live(v, g) && (RegionOf(g) == q || InRun(v, g, q));
    InRegion(g);
    assert Live(t, g);
    assert InRun(v, g, q) ==> InRun(t, g, q);
  }

  /** After freeing the dead of a region in no run. */
  ghost predicate DeadFreed(v: View, t: View, mark: seq<bool>, r: nat)
    requires Sized(v) && Sized(t) && |v.start| == |mark|
  {
    && FreedIn(v, t, r)
    && forall g: nat :: Base(r) <= g < Base(r + 1) && g < |v.start| && v.start[g] ==>
         t.kind[g] == if v.kind[g] != FreeCell && !mark[g] then FreeCell else v.kind[g]
  }

  lemma AfterFree(v0: View, mark: seq<bool>, v: View, t: View, lists: Lists, r: nat)
    requires Progressed(v0, mark, v, lists, r) && r < Top(v) && Sized(t) && DeadFreed(v, t, mark, r)
    requires !IsLarge(v, Base(r))
    ensures Partial(t, lists, Base(r)) && Swept(v0, mark, t, Base(r + 1)) && Ahead(v0, t, r + 1)
    ensures NoneIdle(t, r) && Boundary(t, r) && forall q: nat :: r <= q < |t.free| ==> t.free[q] == v0.free[q]
    ensures forall g: nat :: g < |t.start| ==> !InRun(t, g, r)
  {
    hide Layout, Bumps, ListsOk, CellOk, RunOk;
    PartialLayout(v, lists, Base(r));
    InNoRun(v, r);
    FreeKeeps(v, t, r, lists);
    forall g: nat | g < Base(r + 1) && g < |v0.start|
      ensures (Live(t, g) <==> Live(v0, g) && mark[g]) && (Live(t, g) ==> t.kind[g] == v0.kind[g])
    {
      InRegion(g);
    }
    forall g: nat | Base(r + 1) <= g < |t.start|
      ensures t.start[g] == v0.start[g] && t.kind[g] == v0.kind[g]
    {
      InRegion(g);
    }
    forall q: nat | 1 <= q < r && q < |t.free| && !t.free[q]
      ensures Kept(t, q)
    {
      assert Kept(v, q);
      var g: nat :| g < |v.start| && Live(v, g) && (RegionOf(g) == q || InRun(v, g, q));
      assert IsLarge(v, g) ==> r <= RegionOf(g) || RegionOf(g) + Span(v.size[g]) <= r;
      InRegion(g);
      assert Live(t, g) && (InRun(v, g, q) ==> InRun(t, g, q));
    }
    forall g: nat | g < |t.start|
      ensures !InRun(t, g, r)
    {
      assert !InRun(v, g, r);
    }
    forall g: nat | g < |t.start| && IsLarge(t, g)
      ensures r <= RegionOf(g) || RegionOf(g) + Span(t.size[g]) <= r
    {
      assert IsLarge(v, g);
    }
  }

  lemma PartialLayout(v: View, lists: Lists, p: nat)
    requires Partial(v, lists, p)
    ensures Layout(v) && Sized(v)
  {
  }

  /** A region that keeps a survivor, or region 0, once its free cells are on their list. */
  lemma AfterPush(v0: View, mark: seq<bool>, v: View, t: View, lists: Lists, r: nat)
    requires Sized(v0) && Sized(v) && |v.start| == |v0.start| == |mark| && r < Top(v)
    requires Swept(v0, mark, v, Base(r + 1)) && Ahead(v0, v, r + 1) && NoneIdle(v, r) && Boundary(v, r)
    requires Partial(t, lists, Base(r + 1)) && t == v.(next := t.next, ws := t.ws)
    requires r == 0 || exists g: nat :: Base(r) <= g < Base(r + 1) && g < |v.start| && Live(v, g)
    requires forall g: nat :: g < |v.start| ==> !InRun(v, g, r)
    ensures Progressed(v0, mark, t, lists, r + 1)
  {
    hide Layout, Bumps, ListsOk, CellOk, RunOk;
    PartialLayout(t, lists, Base(r + 1));
    forall q: nat | 1 <= q < r + 1 && q < |t.free| && !t.free[q]
      ensures Kept(t, q)
    {
      if q == r {
        var g: nat :| Base(r) <= g < Base(r + 1) && g < |v.start| && Live(v, g);
        RegionIs(g, r);
        assert Live(t, g);
      } else {
        assert Kept(v, q);
        var g: nat :| g < |v.start| && Live(v, g) && (RegionOf(g) == q || InRun(v, g, q));
        assert Live(t, g) && (InRun(v, g, q) ==> InRun(t, g, q));
      }
    }
    forall g: nat | g < |t.start| && IsLarge(t, g)
      ensures r + 1 <= RegionOf(g) || RegionOf(g) + Span(t.size[g]) <= r + 1
    {
      assert IsLarge(v, g) && !InRun(v, g, r);
    }
  }

  lemma SweepDone(v0: View, mark: seq<bool>, v: View, lists: Lists)
    requires Progressed(v0, mark, v, lists, Top(v)) && Layout(v0)
    ensures Inv(v, lists) && Swept(v0, mark, v, |v.start|) && NoneIdle(v, Top(v))
    ensures AllMarked(v0, mark, Base(Top(v))) ==> AllMarked(v0, mark, |v.start|)
  {
    PastTop(v);
    PastTop(v0);
    SkipTo(v, lists, Base(Top(v)), |v.start|);
  }

  lemma PastTop(v: View)
    requires Layout(v)
    ensures forall g: nat :: Base(Top(v)) <= g < |v.start| ==> !v.start[g]
  {
    forall g: nat | Base(Top(v)) <= g < |v.start|
      ensures !v.start[g]
    {
      InRegion(g);
      assert v.start[g] ==> CellOk(v, g);
    }
  }

  // ---- facts the sweep's branches need ----

  lemma SweepStart(v0: View, mark: seq<bool>, v: View)
    requires Layout(v0) && |mark| == |v0.start| && v == v0.(ws := v.ws) && Partial(v, EMPTY_LISTS, 0)
    ensures Progressed(v0, mark, v, EMPTY_LISTS, 0)
  {
  }

  lemma Lens(v0: View, mark: seq<bool>, v: View, lists: Lists, r: nat)
    requires Progressed(v0, mark, v, lists, r) && r < Top(v)
    ensures Sized(v) && |v.start| == |mark| && r < |v.owner| && Base(r) < |v.start| && Partial(v, lists, Base(r))
    ensures !IsLarge(v, Base(r)) ==>
              forall g: nat :: Base(r) <= g < Base(r + 1) && v.start[g] ==> v.size[g] <= REGION
  {
    if !IsLarge(v, Base(r)) {
      InNoRun(v, r);
    }
  }

  /** A handed-back region had nothing live to lose. */
  lemma NothingLive(v0: View, v: View, lists: Lists, mark: seq<bool>, r: nat)
    requires Progressed(v0, mark, v, lists, r) && r < Top(v) && v.free[r]
    ensures forall g: nat :: Base(r) <= g < Base(r + 1) && g < |v0.start| ==> !Live(v0, g)
  {
    EmptyIsEmpty(v, r);
  }

  /** A run holds only its large cell. */
  lemma RunAlone(v0: View, mark: seq<bool>, v: View, lists: Lists, r: nat)
    requires Progressed(v0, mark, v, lists, r) && r < Top(v) && IsLarge(v, Base(r))
    ensures var k := Span(v.size[Base(r)]);
      && r + k <= Top(v) && k >= 1
      && Live(v0, Base(r))
      && forall g: nat :: Base(r) < g < Base(r + k) && g < |v0.start| ==> !Live(v0, g)
  {
    RegionIs(Base(r), r);
    assert CellOk(v, Base(r)) && RunOk(v, Base(r));
    SpanCovers(v.size[Base(r)]);
  }

  lemma DeadRun(v0: View, mark: seq<bool>, v: View, t: View, lists: Lists, r: nat)
    requires Progressed(v0, mark, v, lists, r) && r < Top(v) && IsLarge(v, Base(r)) && !mark[Base(r)]
    requires Released(v, t, r, Span(v.size[Base(r)]))
    ensures Progressed(v0, mark, t, lists, r + Span(v.size[Base(r)]))
  {
    RunAlone(v0, mark, v, lists, r);
    RegionIs(Base(r), r);
    assert CellOk(v, Base(r));
    RunClosed(v, Base(r));
    AfterRelease(v0, mark, v, t, lists, r, Span(v.size[Base(r)]));
  }

  lemma DeadRegion(v0: View, mark: seq<bool>, v: View, f: View, t: View, lists: Lists, r: nat)
    requires Progressed(v0, mark, v, lists, r) && 1 <= r < Top(v) && Sized(f) && DeadFreed(v, f, mark, r)
    requires !IsLarge(v, Base(r)) && Released(f, t, r, 1)
    requires forall g: nat :: Base(r) <= g < Base(r + 1) ==> !Live(f, g)
    ensures Progressed(v0, mark, t, lists, r + 1)
  {
    AfterFree(v0, mark, v, f, lists, r);
    SmallRegionClosed(f, r);
    forall g: nat | Base(r) <= g < Base(r + 1)
      ensures !(Live(v0, g) && mark[g])
    {
      assert !Live(f, g);
    }
    AfterRelease(v0, mark, f, t, lists, r, 1);
  }

  lemma MarksLive(v0: View, mark: seq<bool>, v: View)
    requires Sized(v0) && Sized(v) && |v.start| == |v0.start| == |mark| && Swept(v0, mark, v, |v.start|)
    requires forall g :: 0 <= g < |mark| && mark[g] ==> Live(v0, g)
    ensures forall g :: 0 <= g < |mark| && mark[g] ==> Live(v, g)
  {
  }

  lemma SameAhead(v0: View, mark: seq<bool>, v: View, lists: Lists, r: nat)
    requires Progressed(v0, mark, v, lists, r)
    ensures |mark| == |v0.start| && Sized(v0) && Sized(v) && Ahead(v0, v, r)
  {
  }

  /** What pass 0 wrote and counted, in terms of live cells. */
  lemma PassZero(v: View, t: View, mark: seq<bool>, r: nat, live: nat, freed: nat)
    requires Sized(v) && t == v.(kind := t.kind) && |t.kind| == |v.kind| && |mark| == |v.start| && r < |v.owner|
    requires forall g: nat :: Base(r) <= g < Base(r + 1) && v.start[g] ==> v.size[g] <= REGION
    requires forall h: nat :: h < |v.kind| && !(Base(r) <= h < Base(r + 1)) ==> t.kind[h] == v.kind[h]
    requires forall h: nat :: Base(r) <= h < Base(r + 1) ==>
               t.kind[h] == if v.start[h] && v.kind[h] != FreeCell && !mark[h] then FreeCell else v.kind[h]
    requires live == 0 <==> forall h: nat :: Base(r) <= h < Base(r + 1) ==> !(v.start[h] && t.kind[h] != FreeCell)
    requires freed == 0 <==>
               forall h: nat :: Base(r) <= h < Base(r + 1) && v.start[h] && v.kind[h] != FreeCell ==> mark[h]
    ensures Sized(t) && DeadFreed(v, t, mark, r)
    ensures live == 0 <==> forall g: nat :: Base(r) <= g < Base(r + 1) ==> !Live(t, g)
    ensures freed == 0 <==> forall g: nat :: Base(r) <= g < Base(r + 1) && Live(v, g) ==> mark[g]
  {
    assert forall h: nat :: Base(r) <= h < Base(r + 1) ==> (Live(t, h) <==> v.start[h] && t.kind[h] != FreeCell);
    assert forall h: nat :: Base(r) <= h < Base(r + 1) ==> (Live(v, h) <==> v.start[h] && v.kind[h] != FreeCell);
    forall h: nat | h < |v.kind| && t.kind[h] != v.kind[h]
      ensures RegionOf(h) == r
    {
      RegionIs(h, r);
    }
  }

  lemma RegionInside(v: View, r: nat)
    requires Sized(v) && r < |v.owner|
    ensures Base(r) <= Base(r + 1) <= |v.start|
  {
  }
}
