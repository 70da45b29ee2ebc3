/** The layout of the heap of runtime/heap_gc.c: regions, cells, bump areas and free lists, and what
    claiming regions and placing cells does to them. Offsets and sizes are in 16-byte granules. */
module HeapView {
  import opened MachineWords
  import opened HeapCells

  const REGION: nat := 4096             // JACL_REGION_BYTES / JACL_GRANULE
  const NCLASS: nat := 64               // cells up to this many granules get an exact-size list
  const MAX_WORKERS: nat := 64

  /** A worker's bump region and the heads of its free lists (0: empty). */
  datatype Worker = Worker(bump: nat, limit: nat, heads: seq<nat>)

  /** Everything the allocator and the sweep read and write. cursor counts claimed regions and runs
      past the heap's end after a failed claim. */
  datatype View = View(
    start: seq<bool>, size: seq<nat>, kind: seq<Kind>, next: seq<nat>,
    owner: seq<nat>, free: seq<bool>, cursor: nat, ws: seq<Worker>)

  /** A region's first granule. */
  function Base(r: nat): nat {
    4096 * r
  }

  function RegionOf(g: nat): nat {
    g / 4096
  }

  lemma InRegion(g: nat)
    ensures Base(RegionOf(g)) <= g < Base(RegionOf(g) + 1) && Base(RegionOf(g) + 1) == Base(RegionOf(g)) + REGION
  {
  }

  lemma RegionIs(g: nat, r: nat)
    requires Base(r) <= g < Base(r + 1)
    ensures RegionOf(g) == r
  {
  }

  /** Regions below the claimed high-water mark (`jacl_region_hwm`). */
  function Top(v: View): nat {
    if v.cursor > |v.owner| then |v.owner| else v.cursor
  }

  /** Regions a cell of n granules spans from a region's first granule. */
  function Span(n: nat): nat {
    (n + 4095) / 4096
  }

  predicate Sized(v: View) {
    && |v.start| == |v.size| == |v.kind| == |v.next| == Base(|v.owner|)
    && |v.free| == |v.owner| && |v.ws| == MAX_WORKERS
    && (forall w :: 0 <= w < |v.ws| ==> |v.ws[w].heads| == NCLASS + 1)
    && (forall r :: 0 <= r < |v.owner| ==> v.owner[r] < MAX_WORKERS)
  }

  predicate IsLarge(v: View, g: nat)
    requires Sized(v) && g < |v.start|
  {
    v.start[g] && v.size[g] > REGION
  }

  /** A cell lies inside one claimed region that is not handed back, or heads a run of its own
      that holds nothing else. */
  ghost predicate CellOk(v: View, g: nat)
    requires Sized(v) && g < |v.start| && v.start[g]
  {
    var r := RegionOf(g);
    && g > 0 && v.size[g] > 0 && r < Top(v) && !v.free[r]
    && (if v.size[g] <= REGION then g + v.size[g] <= Base(r + 1)
        else g == Base(r) && r + Span(v.size[g]) <= Top(v) && v.kind[g] != FreeCell)
  }

  /** Nothing else starts in the rest of a large cell's run, and none of it is handed back. */
  ghost predicate RunOk(v: View, g: nat)
    requires Sized(v) && g < |v.start| && IsLarge(v, g)
  {
    var r := RegionOf(g);
    && r + Span(v.size[g]) <= |v.owner|
    && (forall x :: g < x < Base(r + Span(v.size[g])) ==> !v.start[x])
    && (forall q :: r <= q < r + Span(v.size[g]) ==> !v.free[q])
    && (forall w :: 0 <= w < |v.ws| && v.ws[w].limit > 0 ==>
          !(Base(r) < v.ws[w].limit <= Base(r + Span(v.size[g]))))
  }

  ghost predicate Layout(v: View) {
    && Sized(v)
    && (forall g :: 0 <= g < |v.start| && v.start[g] ==> CellOk(v, g))
    && (forall g, h :: 0 <= g < h < |v.start| && v.start[g] && v.start[h] ==> g + v.size[g] <= h)
    && (forall g :: 0 <= g < |v.start| && IsLarge(v, g) ==> RunOk(v, g))
    && (forall r :: 0 <= r < |v.free| && v.free[r] ==> 0 < r < Top(v))
  }

  /** A worker's bump area is the unused end of a region of its own. */
  ghost predicate BumpOk(v: View, w: nat)
    requires Sized(v) && w < |v.ws|
  {
    var x := v.ws[w];
    x.limit > 0 ==>
      && x.limit == Base(RegionOf(x.limit - 1) + 1) && RegionOf(x.limit - 1) < Top(v)
      && !v.free[RegionOf(x.limit - 1)] && v.owner[RegionOf(x.limit - 1)] == w
      && Base(RegionOf(x.limit - 1)) <= x.bump <= x.limit && 0 < x.bump
      && (forall g :: Base(RegionOf(x.limit - 1)) <= g < x.limit && v.start[g] ==> g + v.size[g] <= x.bump)
  }

  ghost predicate Bumps(v: View)
    requires Sized(v)
  {
    && (forall w :: 0 <= w < |v.ws| ==> BumpOk(v, w))
    && (forall w :: 0 <= w < |v.ws| && v.ws[w].limit == 0 ==> v.ws[w].bump == 0)
    && (forall w, u :: 0 <= w < u < |v.ws| && v.ws[w].limit > 0 ==> v.ws[w].limit != v.ws[u].limit)
  }

  // ---- free lists ----

  /** The cells on a list, front first: one sequence for each worker and class. */
  type Lists = seq<seq<seq<nat>>>

  /** A list threaded through the cells' link words, ending in 0. */
  ghost predicate Linked(next: seq<nat>, head: nat, list: seq<nat>)
    decreases |list|
  {
    if list == [] then head == 0
    else head == list[0] && head != 0 && head < |next| && Linked(next, next[head], list[1..])
  }

  predicate OnList(v: View, g: nat, w: nat, c: nat)
    requires Sized(v) && g < |v.start|
  {
    && v.start[g] && v.kind[g] == FreeCell && v.size[g] == c
    && RegionOf(g) < |v.owner| && v.owner[RegionOf(g)] == w
  }

  ghost predicate Distinct(list: seq<nat>) {
    forall i, j :: 0 <= i < j < |list| ==> list[i] != list[j]
  }

  /** The list of worker w and class c holds exactly the free cells of that size in w's regions
      below granule `bound`, once each. */
  ghost predicate ListOk(v: View, list: seq<nat>, w: nat, c: nat, bound: nat)
    requires Sized(v) && w < |v.ws| && c <= NCLASS
  {
    && Linked(v.next, v.ws[w].heads[c], list) && Distinct(list)
    && (forall g :: g in list ==> g < |v.start| && g < bound && OnList(v, g, w, c))
    && (forall g :: 0 <= g < |v.start| && g < bound && OnList(v, g, w, c) ==> g in list)
  }

  ghost predicate ListsOk(v: View, lists: Lists, bound: nat)
    requires Sized(v)
  {
    && |lists| == MAX_WORKERS && (forall w :: 0 <= w < MAX_WORKERS ==> |lists[w]| == NCLASS + 1)
    && forall w, c :: 0 <= w < MAX_WORKERS && 0 <= c <= NCLASS ==> ListOk(v, lists[w][c], w, c, bound)
  }

  ghost predicate Inv(v: View, lists: Lists) {
    Layout(v) && Bumps(v) && ListsOk(v, lists, |v.start|)
  }

  // ---- claiming regions ----

  /** k regions from b are claimed for w and empty: no cell, no worker's bump area, not handed back. */
  ghost predicate Claimed(v: View, b: nat, k: nat, w: nat)
    requires Sized(v)
  {
    && b + k <= Top(v)
    && (forall r :: b <= r < b + k ==> !v.free[r] && v.owner[r] == w)
    && (forall g :: Base(b) <= g < Base(b + k) ==> !v.start[g])
    && (forall u :: 0 <= u < |v.ws| && v.ws[u].limit > 0 ==> !(Base(b) < v.ws[u].limit <= Base(b + k)))
    && (forall g :: 0 <= g < |v.start| && IsLarge(v, g) ==>
          RegionOf(g) + Span(v.size[g]) <= b || b + k <= RegionOf(g))
  }

  /** v with regions b .. b+k taken from the handed-back set by w. */
  ghost predicate Took(v: View, t: View, b: nat, k: nat, w: nat)
    requires Sized(v) && Sized(t)
  {
    && t == v.(owner := t.owner, free := t.free, cursor := t.cursor) && |t.owner| == |v.owner|
    && (forall r :: 0 <= r < |v.owner| && !(b <= r < b + k) ==> t.owner[r] == v.owner[r] && t.free[r] == v.free[r])
    && (forall r :: b <= r < b + k && r < |v.owner| ==> t.owner[r] == w && !t.free[r])
  }

  /** Region r is part of the large cell g's run. */
  predicate InRun(v: View, g: nat, r: nat) {
    Sized(v) && g < |v.start| && IsLarge(v, g) && RegionOf(g) <= r < RegionOf(g) + Span(v.size[g])
  }

  /** Worker u bumps in region r. */
  predicate BumpsIn(v: View, u: nat, r: nat) {
    u < |v.ws| && v.ws[u].limit > 0 && Base(r) < v.ws[u].limit <= Base(r + 1)
  }

  lemma BumpRegion(v: View, u: nat, r: nat)
    requires Sized(v) && u < |v.ws|
    ensures BumpsIn(v, u, r) <==> v.ws[u].limit > 0 && RegionOf(v.ws[u].limit - 1) == r
  {
    if v.ws[u].limit > 0 {
      InRegion(v.ws[u].limit - 1);
    }
  }

  predicate EmptyRegion(v: View, r: nat)
    requires Sized(v) && r < |v.owner|
  {
    v.free[r] || Top(v) <= r
  }

  /** A region handed back, or past the cursor, is empty in every sense. */
  lemma EmptyIsEmpty(v: View, r: nat)
    requires Layout(v) && Bumps(v) && r < |v.owner| && EmptyRegion(v, r)
    ensures forall g :: Base(r) <= g < Base(r + 1) ==> !v.start[g]
    ensures forall u :: 0 <= u < |v.ws| ==> !BumpsIn(v, u, r)
    ensures forall g :: 0 <= g < |v.start| ==> !InRun(v, g, r)
  {
    forall g | Base(r) <= g < Base(r + 1)
      ensures !v.start[g]
    {
      assert v.start[g] ==> CellOk(v, g);
    }
    forall u | 0 <= u < |v.ws|
      ensures !BumpsIn(v, u, r)
    {
      assert BumpOk(v, u);
      BumpRegion(v, u, r);
    }
    forall g | 0 <= g < |v.start|
      ensures !InRun(v, g, r)
    {
      assert IsLarge(v, g) ==> RunOk(v, g) && CellOk(v, g);
    }
  }

  /** Claiming a run of empty regions keeps the invariant. */
  lemma TakeKeeps(v: View, t: View, b: nat, k: nat, w: nat, lists: Lists)
    requires Inv(v, lists) && Sized(t) && Took(v, t, b, k, w) && w < MAX_WORKERS && 1 <= k && b + k <= |v.owner|
    requires forall r :: b <= r < b + k ==> EmptyRegion(v, r)
    requires v.cursor <= t.cursor && b + k <= Top(t)
    ensures Inv(t, lists) && Claimed(t, b, k, w)
  {
    TakeEmpty(v, b, k);
    TakeLayout(v, t, b, k, w);
    TakeBumps(v, t, b, k, w);
    TakeLists(v, t, b, k, w, lists);
    TakeClaims(v, t, b, k, w);
  }

  lemma TakeEmpty(v: View, b: nat, k: nat)
    requires Layout(v) && Bumps(v) && b + k <= |v.owner|
    requires forall r :: b <= r < b + k ==> EmptyRegion(v, r)
    ensures forall g :: Base(b) <= g < Base(b + k) ==> !v.start[g]
    ensures forall u: nat, r: nat :: u < |v.ws| && b <= r < b + k ==> !BumpsIn(v, u, r)
    ensures forall g: nat, r: nat :: g < |v.start| && b <= r < b + k ==> !InRun(v, g, r)
  {
    hide CellOk, RunOk, Bumps, InRun, BumpsIn;
    forall g: nat | Base(b) <= g < Base(b + k)
      ensures !v.start[g]
    {
      InRegion(g);
      assert EmptyRegion(v, RegionOf(g));
      EmptyIsEmpty(v, RegionOf(g));
    }
    forall u: nat, r: nat | u < |v.ws| && b <= r < b + k
      ensures !BumpsIn(v, u, r)
    {
      EmptyIsEmpty(v, r);
    }
    forall g: nat, r: nat | g < |v.start| && b <= r < b + k
      ensures !InRun(v, g, r)
    {
      EmptyIsEmpty(v, r);
    }
  }

  lemma TakeLayout(v: View, t: View, b: nat, k: nat, w: nat)
    requires Layout(v) && Bumps(v) && Sized(t) && Took(v, t, b, k, w) && b + k <= |v.owner|
    requires v.cursor <= t.cursor && b + k <= Top(t)
    ensures Layout(t)
  {
    forall g | 0 <= g < |t.start| && t.start[g]
      ensures CellOk(t, g)
    {
      assert CellOk(v, g);
    }
    forall g | 0 <= g < |t.start| && IsLarge(t, g)
      ensures RunOk(t, g)
    {
      assert IsLarge(v, g) && RunOk(v, g);
    }
  }

  lemma TakeBumps(v: View, t: View, b: nat, k: nat, w: nat)
    requires Layout(v) && Bumps(v) && Sized(t) && Took(v, t, b, k, w) && b + k <= |v.owner|
    requires v.cursor <= t.cursor && b + k <= Top(t)
    requires forall u: nat, r: nat :: u < |v.ws| && b <= r < b + k ==> !BumpsIn(v, u, r)
    ensures Bumps(t)
  {
    forall u | 0 <= u < |t.ws|
      ensures BumpOk(t, u)
    {
      assert BumpOk(v, u);
      if v.ws[u].limit > 0 {
        BumpRegion(v, u, RegionOf(v.ws[u].limit - 1));
      }
    }
  }

  lemma TakeLists(v: View, t: View, b: nat, k: nat, w: nat, lists: Lists)
    requires Layout(v) && Sized(t) && Took(v, t, b, k, w) && b + k <= |v.owner|
    requires ListsOk(v, lists, |v.start|)
    requires forall g :: Base(b) <= g < Base(b + k) ==> !v.start[g]
    ensures ListsOk(t, lists, |t.start|)
  {
    forall u, c | 0 <= u < MAX_WORKERS && 0 <= c <= NCLASS
      ensures ListOk(t, lists[u][c], u, c, |t.start|)
    {
      assert ListOk(v, lists[u][c], u, c, |v.start|);
      forall g | 0 <= g < |t.start|
        ensures OnList(t, g, u, c) <==> OnList(v, g, u, c)
      {
        InRegion(g);
      }
    }
  }

  lemma TakeClaims(v: View, t: View, b: nat, k: nat, w: nat)
    requires Layout(v) && Sized(t) && Took(v, t, b, k, w) && 1 <= k && b + k <= |v.owner| && b + k <= Top(t)
    requires forall g :: Base(b) <= g < Base(b + k) ==> !v.start[g]
    requires forall u: nat, r: nat :: u < |v.ws| && b <= r < b + k ==> !BumpsIn(v, u, r)
    requires forall g: nat, r: nat :: g < |v.start| && b <= r < b + k ==> !InRun(v, g, r)
    ensures Claimed(t, b, k, w)
  {
    forall u: nat | u < |t.ws| && t.ws[u].limit > 0
      ensures !(Base(b) < t.ws[u].limit <= Base(b + k))
    {
      var r: nat := RegionOf(t.ws[u].limit - 1);
      InRegion(t.ws[u].limit - 1);
      BumpRegion(v, u, r);
      assert b <= r < b + k ==> !BumpsIn(v, u, r);
    }
    forall g: nat | g < |t.start| && IsLarge(t, g)
      ensures RegionOf(g) + Span(t.size[g]) <= b || b + k <= RegionOf(g)
    {
      var q := RegionOf(g);
      assert IsLarge(v, g) && !InRun(v, g, b);
      assert b <= q < b + k ==> !InRun(v, g, q);
    }
  }

  /** A claim that failed only moved the cursor. */
  lemma CursorKeeps(v: View, t: View, lists: Lists)
    requires Inv(v, lists) && t == v.(cursor := t.cursor) && v.cursor <= t.cursor
    ensures Inv(t, lists)
  {
    TakeLayout(v, t, 0, 0, 0);
    TakeBumps(v, t, 0, 0, 0);
    TakeLists(v, t, 0, 0, 0, lists);
  }

  // ---- placing a cell ----

  function Put(v: View, off: nat, n: nat, kind: Kind): View
    requires Sized(v) && off < |v.start|
  {
    v.(start := v.start[off := true], size := v.size[off := n], kind := v.kind[off := kind])
  }

  /** From off to limit lies the unused end of a region of w's own. */
  ghost predicate Area(v: View, w: nat, off: nat, limit: nat)
    requires Sized(v)
  {
    var r := RegionOf(off);
    && off > 0 && limit == Base(r + 1) && r < Top(v) && !v.free[r] && v.owner[r] == w
    && (forall g :: Base(r) <= g < limit && v.start[g] ==> g + v.size[g] <= off)
    && (forall u :: 0 <= u < |v.ws| && u != w ==> v.ws[u].limit != limit)
    && (forall g: nat :: g < |v.start| ==> !InRun(v, g, r))
  }

  lemma SpanCovers(n: nat)
    ensures n <= Base(Span(n)) && (n > REGION ==> Span(n) >= 2) && (0 < n <= REGION ==> Span(n) == 1)
  {
  }

  /** And no fewer regions hold it. */
  lemma SpanLeast(n: nat, k: nat)
    ensures n <= 4096 * k <==> Span(n) <= k
  {
  }

  lemma BumpIsArea(v: View, w: nat)
    requires Layout(v) && Bumps(v) && w < |v.ws| && v.ws[w].bump < v.ws[w].limit
    ensures Area(v, w, v.ws[w].bump, v.ws[w].limit)
  {
    var x := v.ws[w];
    assert BumpOk(v, w);
    var r: nat := RegionOf(x.limit - 1);
    RegionIs(x.bump, r);
    forall g: nat | g < |v.start|
      ensures !InRun(v, g, r)
    {
      assert IsLarge(v, g) ==> RunOk(v, g);
    }
  }

  lemma ClaimIsArea(v: View, w: nat, b: nat)
    requires Layout(v) && Claimed(v, b, 1, w)
    ensures Area(v, w, if b == 0 then 1 else Base(b), Base(b + 1))
  {
    RegionIs(if b == 0 then 1 else Base(b), b);
  }

  /** No existing cell reaches into an area, and none starts in it. */
  lemma AreaClear(v: View, w: nat, off: nat, limit: nat)
    requires Layout(v) && Area(v, w, off, limit)
    ensures off < limit <= |v.start|
    ensures forall g :: off <= g < limit ==> !v.start[g]
    ensures forall g :: 0 <= g < off && v.start[g] ==> g + v.size[g] <= off
  {
    var r := RegionOf(off);
    InRegion(off);
    forall g | off <= g < limit
      ensures !v.start[g]
    {
      assert v.start[g] ==> CellOk(v, g);
    }
    forall g: nat | g < off && v.start[g]
      ensures g + v.size[g] <= off
    {
      InRegion(g);
      assert CellOk(v, g);
      SpanCovers(v.size[g]);
      assert !InRun(v, g, r);
    }
  }

  /** Bumping a cell off the front of the area keeps the invariant. */
  lemma PlaceSmall(v: View, t: View, w: nat, off: nat, n: nat, kind: Kind, limit: nat, lists: Lists)
    requires Inv(v, lists) && w < MAX_WORKERS && Area(v, w, off, limit)
    requires 0 < n && off + n <= limit && kind != FreeCell && off < |v.start|
    requires t == Put(v, off, n, kind).(ws := v.ws[w := v.ws[w].(bump := off + n, limit := limit)])
    ensures Inv(t, lists)
  {
    AreaClear(v, w, off, limit);
    PlaceSmallLayout(v, t, w, off, n, kind, limit);
    PlaceSmallBumps(v, t, w, off, n, kind, limit);
    PlaceLists(v, t, off, n, kind, lists);
  }

  lemma PlaceSmallLayout(v: View, t: View, w: nat, off: nat, n: nat, kind: Kind, limit: nat)
    requires Layout(v) && Bumps(v) && w < |v.ws| && Area(v, w, off, limit)
    requires 0 < n && off + n <= limit <= |v.start| && kind != FreeCell
    requires t == Put(v, off, n, kind).(ws := v.ws[w := v.ws[w].(bump := off + n, limit := limit)])
    requires forall g :: off <= g < limit ==> !v.start[g]
    requires forall g :: 0 <= g < off && v.start[g] ==> g + v.size[g] <= off
    ensures Layout(t)
  {
    InRegion(off);
    forall g | 0 <= g < |t.start| && t.start[g]
      ensures CellOk(t, g)
    {
      if g != off {
        assert CellOk(v, g);
      }
    }
    forall g: nat | g < |t.start| && IsLarge(t, g)
      ensures RunOk(t, g)
    {
      PlaceSmallRun(v, t, w, off, n, kind, limit, g);
    }
  }

  lemma PlaceSmallRun(v: View, t: View, w: nat, off: nat, n: nat, kind: Kind, limit: nat, g: nat)
    requires Layout(v) && w < |v.ws| && Area(v, w, off, limit) && Sized(t) && off < |v.start|
    requires n <= REGION && limit <= |v.start|
    requires t == Put(v, off, n, kind).(ws := v.ws[w := v.ws[w].(bump := off + n, limit := limit)])
    requires g < |t.start| && IsLarge(t, g)
    ensures RunOk(t, g)
  {
    assert IsLarge(v, g) && RunOk(v, g) && CellOk(v, g);
    assert !InRun(v, g, RegionOf(off));
    InRegion(off);
    InRegion(g);
  }

  lemma PlaceSmallBumps(v: View, t: View, w: nat, off: nat, n: nat, kind: Kind, limit: nat)
    requires Layout(v) && Bumps(v) && w < |v.ws| && Area(v, w, off, limit)
    requires 0 < n && off + n <= limit <= |v.start|
    requires t == Put(v, off, n, kind).(ws := v.ws[w := v.ws[w].(bump := off + n, limit := limit)])
    requires forall g :: off <= g < limit ==> !v.start[g]
    ensures Bumps(t)
  {
    hide CellOk, RunOk, BumpOk;
    forall u: nat | u < |t.ws|
      ensures BumpOk(t, u)
    {
      if u == w {
        OwnBumpPlaced(v, t, w, off, n, kind, limit);
      } else {
        OtherBumpPlaced(v, t, w, u, off, n, kind, limit);
      }
    }
  }

  lemma OwnBumpPlaced(v: View, t: View, w: nat, off: nat, n: nat, kind: Kind, limit: nat)
    requires Sized(v) && w < |v.ws| && Area(v, w, off, limit) && 0 < n && off + n <= limit <= |v.start|
    requires t == Put(v, off, n, kind).(ws := v.ws[w := v.ws[w].(bump := off + n, limit := limit)])
    requires Sized(t)
    ensures BumpOk(t, w)
  {
    var r := RegionOf(off);
    InRegion(off);
    RegionIs(limit - 1, r);
    forall g | Base(r) <= g < limit && t.start[g]
      ensures g + t.size[g] <= off + n
    {
      if g != off {
        assert v.start[g];
      }
    }
  }

  /** Another worker's bump area is in another region. */
  lemma OtherBumpPlaced(v: View, t: View, w: nat, u: nat, off: nat, n: nat, kind: Kind, limit: nat)
    requires Sized(v) && w < |v.ws| && u < |v.ws| && u != w && BumpOk(v, u)
    requires Area(v, w, off, limit) && 0 < n && off + n <= limit <= |v.start|
    requires t == Put(v, off, n, kind).(ws := v.ws[w := v.ws[w].(bump := off + n, limit := limit)])
    requires Sized(t)
    ensures BumpOk(t, u)
  {
    if v.ws[u].limit > 0 {
      var q := RegionOf(v.ws[u].limit - 1);
      InRegion(v.ws[u].limit - 1);
      InRegion(off);
      assert v.ws[u].limit != limit;
      forall g | Base(q) <= g < v.ws[u].limit && t.start[g]
        ensures g + t.size[g] <= v.ws[u].bump
      {
        assert g != off;
        assert v.start[g];
      }
    }
  }

  lemma PlaceLists(v: View, t: View, off: nat, n: nat, kind: Kind, lists: Lists)
    requires Sized(v) && Sized(t) && ListsOk(v, lists, |v.start|) && off < |v.start| && !v.start[off] && kind != FreeCell
    requires t == Put(v, off, n, kind).(ws := t.ws) && forall u :: 0 <= u < |v.ws| ==> t.ws[u].heads == v.ws[u].heads
    ensures ListsOk(t, lists, |t.start|)
  {
    forall u, c | 0 <= u < MAX_WORKERS && 0 <= c <= NCLASS
      ensures ListOk(t, lists[u][c], u, c, |t.start|)
    {
      assert ListOk(v, lists[u][c], u, c, |v.start|);
      assert forall g :: 0 <= g < |t.start| ==> (OnList(t, g, u, c) <==> OnList(v, g, u, c));
    }
  }

  /** A large cell heads a run claimed for it. */
  lemma PlaceLarge(v: View, t: View, w: nat, b: nat, n: nat, kind: Kind, lists: Lists)
    requires Inv(v, lists) && n > REGION && b > 0 && Claimed(v, b, Span(n), w) && kind != FreeCell && Base(b) < |v.start|
    requires t == Put(v, Base(b), n, kind)
    ensures Inv(t, lists)
  {
    SpanCovers(n);
    RegionIs(Base(b), b);
    BeforeRun(v, w, b, Span(n));
    PlaceLargeCells(v, t, w, b, n, kind);
    PlaceLargeBumps(v, t, w, b, n, kind);
    PlaceLists(v, t, Base(b), n, kind, lists);
  }

  lemma BeforeRun(v: View, w: nat, b: nat, k: nat)
    requires Layout(v) && Claimed(v, b, k, w) && k >= 1
    ensures forall g :: 0 <= g < Base(b) && g < |v.start| && v.start[g] ==> g + v.size[g] <= Base(b)
  {
    forall g: nat | g < Base(b) && g < |v.start| && v.start[g]
      ensures g + v.size[g] <= Base(b)
    {
      InRegion(g);
      assert CellOk(v, g);
      SpanCovers(v.size[g]);
      assert IsLarge(v, g) ==> RegionOf(g) + Span(v.size[g]) <= b || b + k <= RegionOf(g);
    }
  }

  lemma PlaceLargeCells(v: View, t: View, w: nat, b: nat, n: nat, kind: Kind)
    requires Layout(v) && n > REGION && b > 0 && Claimed(v, b, Span(n), w) && kind != FreeCell && Base(b) < |v.start|
    requires RegionOf(Base(b)) == b && n <= Base(Span(n)) && Span(n) >= 2
    requires forall g :: 0 <= g < Base(b) && v.start[g] ==> g + v.size[g] <= Base(b)
    requires t == Put(v, Base(b), n, kind)
    ensures Layout(t)
  {
    hide RunOk;
    var off := Base(b);
    forall g: nat | g < |t.start| && t.start[g]
      ensures CellOk(t, g)
    {
      if g != off {
        assert CellOk(v, g);
      }
    }
    forall g: nat | g < |t.start| && IsLarge(t, g)
      ensures RunOk(t, g)
    {
      PlaceLargeRun(v, t, w, b, n, kind, g);
    }
  }

  lemma PlaceLargeRun(v: View, t: View, w: nat, b: nat, n: nat, kind: Kind, g: nat)
    requires Layout(v) && Sized(t) && n > REGION && Claimed(v, b, Span(n), w) && Base(b) < |v.start| && Span(n) >= 2
    requires RegionOf(Base(b)) == b && t == Put(v, Base(b), n, kind) && g < |t.start| && IsLarge(t, g)
    ensures RunOk(t, g)
  {
    hide CellOk;
    if g != Base(b) {
      assert IsLarge(v, g) && RunOk(v, g);
      assert RegionOf(g) + Span(v.size[g]) <= b || b + Span(n) <= RegionOf(g);
      InRegion(g);
    }
  }

  lemma PlaceLargeBumps(v: View, t: View, w: nat, b: nat, n: nat, kind: Kind)
    requires Layout(v) && Bumps(v) && n > REGION && Claimed(v, b, Span(n), w) && Base(b) < |v.start| && Span(n) >= 1
    requires RegionOf(Base(b)) == b && t == Put(v, Base(b), n, kind)
    ensures Bumps(t)
  {
    hide CellOk, RunOk, BumpOk, Claimed;
    forall u: nat | u < |t.ws|
      ensures BumpOk(t, u)
    {
      BumpBesideRun(v, t, w, u, b, n, kind);
    }
  }

  lemma BumpBesideRun(v: View, t: View, w: nat, u: nat, b: nat, n: nat, kind: Kind)
    requires Sized(v) && Sized(t) && u < |v.ws| && BumpOk(v, u) && n > REGION && Claimed(v, b, Span(n), w) && Span(n) >= 1
    requires Base(b) < |v.start| && RegionOf(Base(b)) == b && t == Put(v, Base(b), n, kind)
    ensures BumpOk(t, u)
  {
    if v.ws[u].limit > 0 {
      var q := RegionOf(v.ws[u].limit - 1);
      InRegion(v.ws[u].limit - 1);
      assert !(Base(b) < v.ws[u].limit <= Base(b + Span(n)));
      forall g | Base(q) <= g < v.ws[u].limit && t.start[g]
        ensures g + t.size[g] <= v.ws[u].bump
      {
        assert g != Base(b);
        assert v.start[g];
      }
    }
  }

  // ---- free lists ----

  lemma {:induction false} LinkedSame(next: seq<nat>, next': seq<nat>, head: nat, list: seq<nat>)
    requires Linked(next, head, list) && |next'| == |next|
    requires forall g :: g in list && g < |next| ==> next'[g] == next[g]
    ensures Linked(next', head, list)
    decreases |list|
  {
    if list != [] {
      assert list[0] in list;
      assert forall g :: g in list[1..] ==> g in list;
      LinkedSame(next, next', next[head], list[1..]);
    }
  }

  function SetList(lists: Lists, w: nat, c: nat, list: seq<nat>): Lists
    requires w < |lists| && c < |lists[w]|
  {
    lists[w := lists[w][c := list]]
  }

  /** v with the front cell of w's list of class c reused. */
  function Popped(v: View, w: nat, c: nat, kind: Kind): View
    requires Sized(v) && w < |v.ws| && c <= NCLASS && v.ws[w].heads[c] < |v.next|
  {
    var off := v.ws[w].heads[c];
    Put(v, off, c, kind).(ws := v.ws[w := v.ws[w].(heads := v.ws[w].heads[c := v.next[off]])])
  }

  /** Taking the front cell of a list keeps the invariant. */
  lemma PopKeeps(v: View, w: nat, c: nat, kind: Kind, lists: Lists)
    requires Inv(v, lists) && w < MAX_WORKERS && c <= NCLASS && v.ws[w].heads[c] != 0 && kind != FreeCell
    ensures v.ws[w].heads[c] < |v.next| && OnList(v, v.ws[w].heads[c], w, c)
    ensures |lists| == MAX_WORKERS && |lists[w]| == NCLASS + 1
    ensures lists[w][c] != [] && Inv(Popped(v, w, c, kind), SetList(lists, w, c, lists[w][c][1..]))
  {
    assert ListOk(v, lists[w][c], w, c, |v.start|);
    var off := v.ws[w].heads[c];
    assert off in lists[w][c];
    assert OnList(v, off, w, c) && CellOk(v, off);
    var t := Popped(v, w, c, kind);
    assert t.start == v.start && t.size == v.size;
    ReuseCells(v, t, off);
    ReuseBumps(v, t);
    PopLists(v, t, w, c, kind, lists);
  }

  /** Changing only the kind of one small cell keeps the layout. */
  lemma ReuseCells(v: View, t: View, off: nat)
    requires Layout(v) && Sized(t) && t == v.(kind := t.kind, ws := t.ws) && off < |v.start| && v.start[off]
    requires v.size[off] <= REGION && t.kind == v.kind[off := t.kind[off]]
    requires forall u :: 0 <= u < |v.ws| ==> t.ws[u].limit == v.ws[u].limit
    ensures Layout(t)
  {
    forall g: nat | g < |t.start| && t.start[g]
      ensures CellOk(t, g)
    {
      assert CellOk(v, g);
    }
    forall g: nat | g < |t.start| && IsLarge(t, g)
      ensures RunOk(t, g)
    {
      assert IsLarge(v, g) && RunOk(v, g);
    }
  }

  lemma ReuseBumps(v: View, t: View)
    requires Sized(v) && Bumps(v) && Sized(t) && t == v.(kind := t.kind, ws := t.ws)
    requires forall u :: 0 <= u < |v.ws| ==> t.ws[u].limit == v.ws[u].limit && t.ws[u].bump == v.ws[u].bump
    ensures Bumps(t)
  {
    forall u: nat | u < |t.ws|
      ensures BumpOk(t, u)
    {
      assert BumpOk(v, u);
    }
  }

  lemma PopLists(v: View, t: View, w: nat, c: nat, kind: Kind, lists: Lists)
    requires Sized(v) && ListsOk(v, lists, |v.start|) && w < MAX_WORKERS && c <= NCLASS && kind != FreeCell
    requires v.ws[w].heads[c] < |v.next| && lists[w][c] != [] && lists[w][c][0] == v.ws[w].heads[c]
    requires OnList(v, v.ws[w].heads[c], w, c) && t == Popped(v, w, c, kind)
    ensures Sized(t) && ListsOk(t, SetList(lists, w, c, lists[w][c][1..]), |t.start|)
  {
    var off := v.ws[w].heads[c];
    var after := SetList(lists, w, c, lists[w][c][1..]);
    assert t.start == v.start && t.size == v.size;
    forall u: nat, d: nat | u < MAX_WORKERS && d <= NCLASS
      ensures ListOk(t, after[u][d], u, d, |t.start|)
    {
      assert ListOk(v, lists[u][d], u, d, |v.start|);
      assert forall g: nat :: g < |t.start| ==> (OnList(t, g, u, d) <==> OnList(v, g, u, d) && g != off);
      if u == w && d == c {
        assert after[u][d] == lists[u][d][1..];
        assert lists[u][d] == [off] + lists[u][d][1..];
        assert forall g :: g in after[u][d] ==> g in lists[u][d];
      } else {
        assert off !in lists[u][d];
      }
    }
  }

  // ---- the allocator ----

  /** A cell that holds an object. */
  predicate Live(v: View, g: nat)
    requires Sized(v) && g < |v.start|
  {
    v.start[g] && v.kind[g] != FreeCell
  }

  predicate Overlap(a: nat, m: nat, b: nat, n: nat) {
    a < b + n && b < a + m
  }

  /** The new cell is its own, and touches nothing that was live. */
  ghost predicate Fits(v: View, off: nat, n: nat)
    requires Sized(v)
  {
    && 0 < off < |v.start| && off + n <= |v.start|
    && (forall g :: 0 <= g < |v.start| && Live(v, g) ==> !Overlap(g, v.size[g], off, n))
    && (v.start[off] ==> v.kind[off] == FreeCell && v.size[off] == n)
  }

  lemma PopFits(v: View, w: nat, c: nat, off: nat)
    requires Layout(v) && off < |v.start| && OnList(v, off, w, c)
    ensures Fits(v, off, c)
  {
    assert CellOk(v, off);
    InRegion(off);
  }

  lemma AreaFits(v: View, w: nat, off: nat, limit: nat, n: nat)
    requires Layout(v) && Area(v, w, off, limit) && 0 < n && off + n <= limit
    ensures Fits(v, off, n) && off < |v.start|
  {
    AreaClear(v, w, off, limit);
  }

  lemma RunFits(v: View, w: nat, b: nat, n: nat)
    requires Layout(v) && n > REGION && b > 0 && Claimed(v, b, Span(n), w)
    ensures Fits(v, Base(b), n) && Base(b) < |v.start|
  {
    SpanCovers(n);
    BeforeRun(v, w, b, Span(n));
  }

  /** Refilling bumps inside the claimed region, but for one case: region 0 gives its first granule
      to the null offset, and a cell of exactly a region's size then runs one granule past it. */
  lemma RefillFitsExactly(b: nat, n: nat)
    requires 0 < n <= REGION
    ensures (if b == 0 then 1 else Base(b)) + n <= Base(b + 1) <==> !(b == 0 && n == REGION)
  {
  }
}
