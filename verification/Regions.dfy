/** Concurrent region claims (`jacl_grab_regions` in runtime/heap_gc.c): any number of workers, each
    atomic load, CAS, store and add one step; and sweeps, each one step while no claim is in progress. */
module Regions {

  /** Where a worker is in its claim of k regions. */
  datatype Pc =
    | Idle
    | LoadTop(k: nat)                                      // read the high-water mark
    | Look(k: nat, top: nat, r: nat)                       // load free[r]
    | Take(k: nat, top: nat, r: nat, got: nat)             // CAS free[r + got] from 1 to 0
    | Own(k: nat, r: nat, i: nat)                          // owner[r + i] := self
    | GiveBack(k: nat, top: nat, r: nat, got: nat, i: nat) // free[r + i] := 1
    | Bump(k: nat)                                         // atomic add on the cursor

  /** Who has a region: nobody yet, the pool, a claim in progress, a worker, or no one until the next sweep,
      because a failed bump ran the cursor past it. */
  datatype Status = Beyond | Pooled | Claiming(w: nat) | Owned(w: nat) | Stranded

  /** `status` is a history variable; the program has only cursor, free flags and owner bytes. */
  datatype State = State(pc: seq<Pc>, free: seq<bool>, owner: seq<nat>, cursor: nat, status: seq<Status>)

  function Put<T>(s: seq<T>, i: nat, x: T): seq<T> {
    if i < |s| then s[i := x] else s
  }

  /** status[r .. r+n] := x. */
  function Fill(s: seq<Status>, r: nat, n: nat, x: Status): seq<Status> {
    seq(|s|, i requires 0 <= i < |s| => if r <= i < r + n then x else s[i])
  }

  /** `jacl_region_hwm`, in regions. */
  function Top(s: State): nat {
    if s.cursor > |s.free| then |s.free| else s.cursor
  }

  function At(s: State, w: nat, pc: Pc): State
    requires w < |s.pc|
  {
    s.(pc := s.pc[w := pc])
  }

  /** The loop head: a run of k regions starting at r, or the cursor. */
  function Seek(k: nat, top: nat, r: nat): Pc {
    if r + k <= top then Look(k, top, r) else Bump(k)
  }

  /** One step of worker w; want is the size of its next claim. */
  function Step(s: State, w: nat, want: nat): State
    requires w < |s.pc| && |s.free| == |s.owner| == |s.status|
  {
    match s.pc[w]
    case Idle => if want > 0 then At(s, w, LoadTop(want)) else s
    case LoadTop(k) => At(s, w, Seek(k, Top(s), 1))
    case Look(k, top, r) =>
      At(s, w, if r < |s.free| && s.free[r] then Take(k, top, r, 0) else Seek(k, top, r + 1))
    case Take(k, top, r, got) =>
      if got >= k then At(s, w, Own(k, r, 0))
      else if r + got < |s.free| && s.free[r + got] then
        At(s.(free := s.free[r + got := false], status := s.status[r + got := Claiming(w)]), w, Take(k, top, r, got + 1))
      else At(s, w, GiveBack(k, top, r, got, 0))
    case GiveBack(k, top, r, got, i) =>
      if i >= got then At(s, w, Seek(k, top, r + got + 1))
      else
        At(s.(free := Put(s.free, r + i, true), status := Put(s.status, r + i, Pooled)),
           w, GiveBack(k, top, r, got, i + 1))
    case Own(k, r, i) =>
      if i >= k then At(s.(status := Fill(s.status, r, k, Owned(w))), w, Idle)
      else At(s.(owner := Put(s.owner, r + i, w)), w, Own(k, r, i + 1))
    case Bump(k) =>
      var t := s.(cursor := s.cursor + k);
      if s.cursor + k > |s.free| then At(t.(status := Fill(s.status, s.cursor, |s.free|, Stranded)), w, Idle)
      else At(t.(status := Fill(s.status, s.cursor, k, Claiming(w))), w, Own(k, s.cursor, 0))
  }

  /** Some worker takes a step. */
  ghost predicate Works(s: State, t: State) {
    |s.free| == |s.owner| == |s.status| && exists w: nat, want: nat :: w < |s.pc| && t == Step(s, w, want)
  }

  /** The world is stopped, so no claim is in progress. A sweep hands back claimed regions, those a worker
      owns or a failed bump lost, but never region 0: which ones depends on the cells. */
  ghost predicate Sweeps(s: State, t: State) {
    && |s.free| == |s.owner| == |s.status| == |t.free| == |t.status|
    && (forall w: nat :: w < |s.pc| ==> s.pc[w] == Idle)
    && t == s.(free := t.free, status := t.status)
    && forall q: nat :: q < |s.free| ==> SweptRegion(s, t, q)
  }

  predicate SweptRegion(s: State, t: State, q: nat)
    requires q < |s.free| == |s.status| == |t.free| == |t.status|
  {
    || (t.free[q] == s.free[q] && t.status[q] == s.status[q])
    || (0 < q < s.cursor && !s.free[q] && t.free[q] && t.status[q] == Pooled)
  }

  ghost predicate Next(s: State, t: State) {
    Works(s, t) || Sweeps(s, t)
  }

  /** The regions a claim in progress has taken. */
  predicate Holds(pc: Pc, q: nat) {
    match pc
    case Take(_, _, r, got) => r <= q < r + got
    case GiveBack(_, _, r, got, i) => r + i <= q < r + got
    case Own(k, r, _) => r <= q < r + k
    case _ => false
  }

  /** What the program's words say of a region with each status. */
  predicate Agrees(s: State, q: nat)
    requires |s.free| == |s.owner| == |s.status| && q < |s.free|
  {
    match s.status[q]
    case Beyond => !s.free[q] && q >= s.cursor
    case Pooled => s.free[q] && 0 < q < s.cursor
    case Claiming(w) => !s.free[q] && q < s.cursor && w < |s.pc| && Holds(s.pc[w], q)
    case Owned(w) => !s.free[q] && q < s.cursor && s.owner[q] == w
    case Stranded => !s.free[q] && q < s.cursor
  }

  predicate PcOk(s: State, w: nat)
    requires w < |s.pc| && |s.free| == |s.owner|
  {
    match s.pc[w]
    case Idle => true
    case LoadTop(k) => k > 0
    case Look(k, top, r) => k > 0 && 0 < r && r + k <= top <= Top(s)
    case Take(k, top, r, got) => k > 0 && 0 < r && r + k <= top <= Top(s) && got <= k
    case GiveBack(k, top, r, got, i) => k > 0 && 0 < r && r + k <= top <= Top(s) && i <= got <= k
    case Own(k, r, i) => k > 0 && r + k <= Top(s) && i <= k && forall q: nat :: r <= q < r + i ==> s.owner[q] == w
    case Bump(k) => k > 0
  }

  /** A region held by w's claim is marked so. */
  predicate HeldOk(s: State, w: nat, q: nat)
    requires w < |s.pc| && |s.free| == |s.status|
  {
    Holds(s.pc[w], q) ==> q < |s.free| && s.status[q] == Claiming(w)
  }

  ghost predicate Inv(s: State) {
    && |s.free| == |s.owner| == |s.status|
    && (forall q: nat :: q < |s.free| ==> Agrees(s, q))
    && (forall w: nat :: w < |s.pc| ==> PcOk(s, w))
    && (forall w: nat, q: nat :: w < |s.pc| ==> HeldOk(s, w, q))
  }

  /** After a sweep: no claim in progress; what it handed back is pooled, the rest below the cursor
      is owned. */
  ghost predicate Initial(s: State) {
    && |s.free| == |s.owner| == |s.status| && (forall w: nat :: w < |s.pc| ==> s.pc[w] == Idle)
    && forall q: nat :: q < |s.free| ==> Agrees(s, q) && !s.status[q].Claiming? && !s.status[q].Stranded?
  }

  /** What any step of w leaves alone. */
  lemma StepShape(s: State, w: nat, want: nat)
    requires w < |s.pc| && |s.free| == |s.owner| == |s.status|
    ensures var t := Step(s, w, want);
      && |t.free| == |t.owner| == |t.status| == |s.free| && |t.pc| == |s.pc|
      && Top(s) <= Top(t) && s.cursor <= t.cursor
      && (!s.pc[w].Own? ==> t.owner == s.owner)
      && forall u: nat :: u < |s.pc| && u != w ==> t.pc[u] == s.pc[u]
  {
  }

  /** What the invariant says of one worker and one region. */
  lemma Instance(s: State, u: nat, q: nat)
    requires Inv(s) && u < |s.pc|
    ensures |s.free| == |s.owner| == |s.status| && PcOk(s, u)
    ensures q < |s.free| ==> Agrees(s, q)
    ensures HeldOk(s, u, q)
  {
  }

  /** A region whose status a step of w does not touch, claimed by no one or by someone else. */
  lemma AgreesFrame(s: State, w: nat, want: nat, q: nat)
    requires Inv(s) && w < |s.pc| && q < |s.free|
    requires |s.free| == |s.owner| == |s.status|
    requires Step(s, w, want).status[q] == s.status[q] != Claiming(w)
    ensures Agrees(Step(s, w, want), q)
  {
    Instance(s, w, q);
    if s.pc[w].Own? {
      Instance(s, w, s.pc[w].r + s.pc[w].i);
    }
    hide Inv;
  }

  lemma AgreesMoved(s: State, w: nat, want: nat, q: nat)
    requires Inv(s) && w < |s.pc| && q < |s.free|
    requires |s.free| == |s.owner| == |s.status|
    requires Step(s, w, want).status[q] != s.status[q] || s.status[q] == Claiming(w)
    ensures Agrees(Step(s, w, want), q)
  {
    Instance(s, w, q);
    hide Inv;
  }

  /** Everything a region's words must say still holds after a step of any worker. */
  lemma AgreesKept(s: State, w: nat, want: nat, q: nat)
    requires Inv(s) && w < |s.pc| && q < |s.free|
    ensures |s.free| == |s.owner| == |s.status|
    ensures Agrees(Step(s, w, want), q)
  {
    var t := Step(s, w, want);
    Instance(s, w, q);
    if t.status[q] == s.status[q] && s.status[q] != Claiming(w) {
      AgreesFrame(s, w, want, q);
    } else {
      AgreesMoved(s, w, want, q);
    }
  }

  lemma PcKept(s: State, w: nat, want: nat, u: nat)
    requires Inv(s) && w < |s.pc| && u < |s.pc|
    ensures |s.free| == |s.owner| == |s.status|
    ensures PcOk(Step(s, w, want), u)
  {
    hide Inv, Holds, Agrees, HeldOk, PcOk, Step;
    Instance(s, w, 0);
    Instance(s, u, 0);
    if u == w {
      OwnPcKept(s, w, want);
    } else if s.pc[w].Own? && s.pc[u].Own? {
      OwnBytesKept(s, w, want, u);
    } else {
      OtherPcKept(s, w, want, u);
    }
  }

  lemma OwnPcKept(s: State, w: nat, want: nat)
    requires w < |s.pc| && |s.free| == |s.owner| == |s.status| && PcOk(s, w)
    ensures PcOk(Step(s, w, want), w)
  {
  }

  lemma OtherPcKept(s: State, w: nat, want: nat, u: nat)
    requires w < |s.pc| && u < |s.pc| && u != w && |s.free| == |s.owner| == |s.status| && PcOk(s, u)
    requires !(s.pc[w].Own? && s.pc[u].Own?)
    ensures PcOk(Step(s, w, want), u)
  {
    hide Step, Top;
    StepShape(s, w, want);
  }

  /** Another claim never covers the owner byte a claim writes. */
  lemma OwnBytesKept(s: State, w: nat, want: nat, u: nat)
    requires Inv(s) && w < |s.pc| && u < |s.pc| && u != w && s.pc[w].Own? && s.pc[u].Own?
    ensures |s.free| == |s.owner| == |s.status|
    ensures PcOk(Step(s, w, want), u)
  {
    Instance(s, w, s.pc[w].r + s.pc[w].i);
    Instance(s, u, s.pc[w].r + s.pc[w].i);
    hide Inv;
  }

  lemma HoldsKept(s: State, w: nat, want: nat, u: nat, q: nat)
    requires Inv(s) && w < |s.pc| && u < |s.pc|
    requires |s.free| == |s.owner| == |s.status|
    ensures HeldOk(Step(s, w, want), u, q)
  {
    hide Inv;
    Instance(s, w, q);
    Instance(s, u, q);
    if s.pc[w].GiveBack? {
      Instance(s, w, s.pc[w].r + s.pc[w].i);
    }
  }

  lemma StepKeepsInv(s: State, w: nat, want: nat)
    requires Inv(s) && w < |s.pc|
    ensures |s.free| == |s.owner| == |s.status| && Inv(Step(s, w, want))
  {
    var t := Step(s, w, want);
    StepShape(s, w, want);
    hide HeldOk, PcOk, Agrees;
    forall q: nat | q < |t.free|
      ensures Agrees(t, q)
    {
      AgreesKept(s, w, want, q);
    }
    forall u: nat | u < |t.pc|
      ensures PcOk(t, u)
    {
      PcKept(s, w, want, u);
    }
    forall u: nat, q: nat | u < |t.pc|
      ensures HeldOk(t, u, q)
    {
      HoldsKept(s, w, want, u, q);
    }
  }

  lemma SweepKeepsInv(s: State, t: State)
    requires Inv(s) && Sweeps(s, t)
    ensures Inv(t)
  {
    forall q: nat | q < |t.free|
      ensures Agrees(t, q)
    {
      assert Agrees(s, q) && SweptRegion(s, t, q);
    }
    forall w: nat | w < |t.pc|
      ensures PcOk(t, w)
    {
      assert PcOk(s, w);
    }
    assert forall w: nat, q: nat :: w < |t.pc| ==> HeldOk(t, w, q);
  }

  /** A run: any interleaving of any workers' steps, with sweeps between claims. */
  ghost predicate Run(ss: seq<State>) {
    |ss| > 0 && Initial(ss[0]) && forall i: nat :: i + 1 < |ss| ==> Next(ss[i], ss[i + 1])
  }

  /** In every interleaving each region has exactly one status, and the cursor, the free flags and
      the owner bytes agree with it. */
  lemma {:induction false} EveryStateConsistent(ss: seq<State>, n: nat)
    requires Run(ss) && n < |ss|
    ensures Inv(ss[n])
  {
    if n == 0 {
      var s := ss[0];
      assert forall w: nat :: w < |s.pc| ==> s.pc[w] == Idle && PcOk(s, w);
      assert forall w: nat, q: nat :: w < |s.pc| ==> HeldOk(s, w, q);
    } else {
      EveryStateConsistent(ss, n - 1);
      assert Next(ss[n - 1], ss[n - 1 + 1]);
      if Works(ss[n - 1], ss[n]) {
        var w: nat, want: nat :| w < |ss[n - 1].pc| && ss[n] == Step(ss[n - 1], w, want);
        StepKeepsInv(ss[n - 1], w, want);
      } else {
        SweepKeepsInv(ss[n - 1], ss[n]);
      }
    }
  }

  /** Two claims never hold the same region, and neither holds one that is in the pool, owned or lost. */
  lemma ClaimsDisjoint(s: State, u: nat, v: nat, q: nat)
    requires Inv(s) && u < |s.pc| && v < |s.pc| && Holds(s.pc[u], q) && Holds(s.pc[v], q)
    ensures u == v && q < |s.free| && !s.free[q] && s.status[q] == Claiming(u)
  {
    Instance(s, u, q);
    Instance(s, v, q);
  }

  /** With no claim in progress nothing is half taken: a region below the cursor is in the pool,
      owned as its owner byte says, or lost to a failed bump until a sweep. */
  lemma NothingHalfTaken(s: State, q: nat)
    requires Inv(s) && (forall w: nat :: w < |s.pc| ==> s.pc[w] == Idle) && q < |s.free|
    ensures q < s.cursor ==>
              (s.free[q] && s.status[q] == Pooled) || (!s.free[q] && s.status[q] == Stranded)
              || (!s.free[q] && s.status[q] == Owned(s.owner[q]))
    ensures q >= s.cursor ==> !s.free[q]
  {
    assert Agrees(s, q);
  }

  /** A claim that returns has k adjacent regions below the cursor, each with its owner byte. */
  lemma FinishedClaimOwns(s: State, w: nat, want: nat, q: nat)
    requires Inv(s) && w < |s.pc| && s.pc[w].Own? && s.pc[w].i >= s.pc[w].k
    requires s.pc[w].r <= q < s.pc[w].r + s.pc[w].k
    ensures var t := Step(s, w, want);
      q < |t.free| && t.pc[w] == Idle && t.status[q] == Owned(w) && t.owner[q] == w && !t.free[q] && q < t.cursor
  {
    Instance(s, w, q);
  }

  /** What a worker owns, no later step of any claim takes from it. */
  lemma OwnedStays(s: State, w: nat, want: nat, q: nat, u: nat)
    requires Inv(s) && w < |s.pc| && q < |s.free| && s.status[q] == Owned(u)
    ensures var t := Step(s, w, want);
      |t.status| == |t.owner| == |s.free| && t.status[q] == Owned(u) && t.owner[q] == u
  {
    StepShape(s, w, want);
    Instance(s, w, q);
    if s.pc[w].Own? {
      Instance(s, w, s.pc[w].r + s.pc[w].i);
    }
    if s.pc[w].GiveBack? {
      Instance(s, w, s.pc[w].r + s.pc[w].i);
    }
    hide Inv;
  }

  /** What a worker owns stays its own, through any interleaving, until a sweep. */
  lemma {:induction false} OwnedUntilSweep(ss: seq<State>, m: nat, n: nat, q: nat, u: nat)
    requires Run(ss) && m <= n < |ss| && forall i: nat :: m <= i < n ==> Works(ss[i], ss[i + 1])
    requires q < |ss[m].status| && ss[m].status[q] == Owned(u)
    ensures q < |ss[n].owner| && q < |ss[n].status| && ss[n].status[q] == Owned(u) && ss[n].owner[q] == u
  {
    hide Inv, Step, Agrees, Initial;
    EveryStateConsistent(ss, n);
    if n == m {
      WordsOf(ss[n], q);
    } else {
      OwnedUntilSweep(ss, m, n - 1, q, u);
      EveryStateConsistent(ss, n - 1);
      assert Works(ss[n - 1], ss[n - 1 + 1]);
      var w: nat, want: nat :| w < |ss[n - 1].pc| && ss[n] == Step(ss[n - 1], w, want);
      OwnedStays(ss[n - 1], w, want, q, u);
    }
  }

  lemma WordsOf(s: State, q: nat)
    requires Inv(s) && q < |s.status|
    ensures |s.free| == |s.owner| == |s.status| && Agrees(s, q)
  {
  }

  // ---- a claim that runs alone ----

  /** n steps of w, claiming k regions, while every other worker stands still. */
  function Alone(s: State, w: nat, k: nat, n: nat): (t: State)
    requires w < |s.pc| && |s.free| == |s.owner| == |s.status|
    ensures |t.pc| == |s.pc| && |t.free| == |t.owner| == |t.status| == |s.free|
    decreases n
  {
    if n == 0 then s else
      StepShape(s, w, k);
      Alone(Step(s, w, k), w, k, n - 1)
  }

  lemma {:induction false} AloneAdd(s: State, w: nat, k: nat, m: nat, n: nat)
    requires w < |s.pc| && |s.free| == |s.owner| == |s.status|
    ensures Alone(Alone(s, w, k, m), w, k, n) == Alone(s, w, k, m + n)
    decreases m
  {
    hide Step;
    if m > 0 {
      StepShape(s, w, k);
      AloneAdd(Step(s, w, k), w, k, m - 1, n);
    }
  }

  /** Regions a .. b taken by w's claim, put back in the pool, or w's own. */
  function TakenFor(s: State, w: nat, a: nat, b: nat): (t: State)
    requires a <= b
    ensures t.pc == s.pc && t.owner == s.owner && t.cursor == s.cursor && |t.free| == |s.free| && |t.status| == |s.status|
  {
    s.(free := seq(|s.free|, i requires 0 <= i < |s.free| => s.free[i] && !(a <= i < b)),
       status := Fill(s.status, a, b - a, Claiming(w)))
  }

  function PutBack(s: State, a: nat, b: nat): (t: State)
    requires a <= b
    ensures t.pc == s.pc && t.owner == s.owner && t.cursor == s.cursor && |t.free| == |s.free| && |t.status| == |s.status|
  {
    s.(free := seq(|s.free|, i requires 0 <= i < |s.free| => s.free[i] || a <= i < b), status := Fill(s.status, a, b - a, Pooled))
  }

  function Written(owner: seq<nat>, w: nat, a: nat, b: nat): (r: seq<nat>)
    ensures |r| == |owner| && forall i :: 0 <= i < |r| ==> r[i] == if a <= i < b then w else owner[i]
  {
    seq(|owner|, i requires 0 <= i < |owner| => if a <= i < b then w else owner[i])
  }

  lemma {:induction false} TakeUp(s: State, w: nat, k: nat, top: nat, r: nat, got: nat) returns (n: nat, m: nat)
    requires w < |s.pc| && |s.free| == |s.owner| == |s.status|
    requires s.pc[w] == Take(k, top, r, got) && got <= k && r + k <= |s.free|
    ensures got <= m <= k && (forall q :: r + got <= q < r + m ==> s.free[q]) && (m < k ==> !s.free[r + m])
    ensures Alone(s, w, k, n) == At(TakenFor(s, w, r + got, r + m), w, Take(k, top, r, m))
    decreases k - got
  {
    hide TakenFor;
    if got < k && s.free[r + got] {
      var t := Step(s, w, k);
      StepShape(s, w, k);
      var n1;
      n1, m := TakeUp(t, w, k, top, r, got + 1);
      n := n1 + 1;
      TakenMore(s, t, w, k, top, r, got, m);
    } else {
      n, m := 0, got;
      TakenNone(s, w, k, top, r, got);
    }
  }

  /** One region more. */
  lemma TakenMore(s: State, t: State, w: nat, k: nat, top: nat, r: nat, got: nat, m: nat)
    requires w < |s.pc| && |s.free| == |s.owner| == |s.status| && s.pc[w] == Take(k, top, r, got) && got < m <= k
    requires r + k <= |s.free| && s.free[r + got] && t == Step(s, w, k)
    requires forall q :: r + got < q < r + m ==> t.free[q]
    ensures forall q :: r + got <= q < r + m ==> s.free[q]
    ensures At(TakenFor(t, w, r + got + 1, r + m), w, Take(k, top, r, m)) == At(TakenFor(s, w, r + got, r + m), w, Take(k, top, r, m))
  {
    var x, y := At(TakenFor(t, w, r + got + 1, r + m), w, Take(k, top, r, m)), At(TakenFor(s, w, r + got, r + m), w, Take(k, top, r, m));
    assert x.free == y.free && x.status == y.status && x.pc == y.pc;
    forall q | r + got <= q < r + m
      ensures s.free[q]
    {
      assert q > r + got ==> t.free[q];
    }
  }

  lemma TakenNone(s: State, w: nat, k: nat, top: nat, r: nat, got: nat)
    requires w < |s.pc| && s.pc[w] == Take(k, top, r, got)
    ensures At(TakenFor(s, w, r + got, r + got), w, Take(k, top, r, got)) == s
  {
    var y := At(TakenFor(s, w, r + got, r + got), w, Take(k, top, r, got));
    assert y.free == s.free && y.status == s.status && y.pc == s.pc;
  }

  lemma {:induction false} GiveUp(s: State, w: nat, k: nat, top: nat, r: nat, got: nat, i: nat) returns (n: nat)
    requires w < |s.pc| && |s.free| == |s.owner| == |s.status|
    requires s.pc[w] == GiveBack(k, top, r, got, i) && i <= got && r + got <= |s.free|
    ensures n > 0 && Alone(s, w, k, n) == At(PutBack(s, r + i, r + got), w, Seek(k, top, r + got + 1))
    decreases got - i
  {
    var t := Step(s, w, k);
    StepShape(s, w, k);
    var y := At(PutBack(s, r + i, r + got), w, Seek(k, top, r + got + 1));
    if i < got {
      var n1 := GiveUp(t, w, k, top, r, got, i + 1);
      n := n1 + 1;
      var x := At(PutBack(t, r + i + 1, r + got), w, Seek(k, top, r + got + 1));
      assert x.free == y.free && x.status == y.status && x.pc == y.pc;
    } else {
      n := 1;
      assert Alone(t, w, k, 0) == t;
      assert y.free == s.free && y.status == s.status;
    }
  }

  lemma {:induction false} OwnUp(s: State, w: nat, k: nat, r: nat, i: nat) returns (n: nat)
    requires w < |s.pc| && |s.free| == |s.owner| == |s.status|
    requires s.pc[w] == Own(k, r, i) && i <= k && r + k <= |s.free|
    ensures n > 0
    ensures Alone(s, w, k, n)
         == At(s.(owner := Written(s.owner, w, r + i, r + k), status := Fill(s.status, r, k, Owned(w))), w, Idle)
    decreases k - i
  {
    var t := Step(s, w, k);
    StepShape(s, w, k);
    if i < k {
      var n1 := OwnUp(t, w, k, r, i + 1);
      n := n1 + 1;
      assert Written(t.owner, w, r + i + 1, r + k) == Written(s.owner, w, r + i, r + k);
      assert t.pc[w := Idle] == s.pc[w := Idle];
    } else {
      n := 1;
      assert Alone(t, w, k, 0) == t;
      assert Written(s.owner, w, r + i, r + k) == s.owner;
    }
  }

  /** The k regions from r on are all in the pool. */
  predicate PooledRun(s: State, r: nat, k: nat) {
    1 <= r && r + k <= Top(s) && forall q :: r <= q < r + k ==> s.free[q]
  }

  /** The scan from r on: the first pooled run is taken; without one the claim goes to the cursor, and the pool is as
      it was. */
  lemma {:induction false} SeekUp(s: State, w: nat, k: nat, r: nat) returns (n: nat, found: bool, b: nat)
    requires w < |s.pc| && |s.free| == |s.owner| == |s.status| && 0 < k && 1 <= r && s.pc[w] == Seek(k, Top(s), r)
    requires forall q :: 0 <= q < |s.free| && s.free[q] ==> s.status[q] == Pooled
    ensures found ==> r <= b && PooledRun(s, b, k) && forall q: nat :: r <= q < b ==> !PooledRun(s, q, k)
    ensures !found ==> forall q: nat :: r <= q ==> !PooledRun(s, q, k)
    ensures Alone(s, w, k, n) == if found then At(TakenFor(s, w, b, b + k), w, Own(k, b, 0)) else At(s, w, Bump(k))
    decreases if r <= Top(s) then Top(s) - r + 1 else 0
  {
    hide Step, TakenFor, Alone;
    var top := Top(s);
    if r + k > top {
      n, found, b := 0, false, 0;
      NoSteps(s, w, k, Bump(k));
    } else if !s.free[r] {
      var t := At(s, w, Seek(k, top, r + 1));
      Skip(s, t, w, k, r);
      var n1;
      n1, found, b := SeekUp(t, w, k, r + 1);
      AloneAdd(s, w, k, 1, n1);
      n := n1 + 1;
      SameRuns(s, t, k);
      Rebased(s, t, w, k, b);
    } else {
      n, found, b := SeekHere(s, w, k, r);
    }
  }

  lemma NoSteps(s: State, w: nat, k: nat, pc: Pc)
    requires w < |s.pc| && |s.free| == |s.owner| == |s.status| && s.pc[w] == pc
    ensures Alone(s, w, k, 0) == s == At(s, w, pc)
  {
  }

  /** A region that is not free is passed over. */
  lemma Skip(s: State, t: State, w: nat, k: nat, r: nat)
    requires w < |s.pc| && |s.free| == |s.owner| == |s.status| && s.pc[w] == Seek(k, Top(s), r)
    requires r + k <= Top(s) && 0 < k && !s.free[r] && t == At(s, w, Seek(k, Top(s), r + 1))
    ensures Alone(s, w, k, 1) == t
  {
    assert Step(s, w, k) == t;
    assert Alone(t, w, k, 0) == t;
  }

  /** Only the program counter differs. */
  lemma SameRuns(s: State, t: State, k: nat)
    requires t == s.(pc := t.pc)
    ensures forall q: nat :: PooledRun(t, q, k) <==> PooledRun(s, q, k)
  {
  }

  lemma Rebased(s: State, t: State, w: nat, k: nat, b: nat)
    requires w < |s.pc| && |t.pc| == |s.pc| && t == At(s, w, t.pc[w])
    ensures At(TakenFor(t, w, b, b + k), w, Own(k, b, 0)) == At(TakenFor(s, w, b, b + k), w, Own(k, b, 0))
    ensures At(t, w, Bump(k)) == At(s, w, Bump(k))
  {
    assert t.pc[w := Own(k, b, 0)] == s.pc[w := Own(k, b, 0)] && t.pc[w := Bump(k)] == s.pc[w := Bump(k)];
  }

  /** A free region at r: take what follows it, and keep it or give it back. */
  lemma {:induction false} SeekHere(s: State, w: nat, k: nat, r: nat) returns (n: nat, found: bool, b: nat)
    requires w < |s.pc| && |s.free| == |s.owner| == |s.status| && 0 < k && 1 <= r && s.pc[w] == Seek(k, Top(s), r)
    requires forall q :: 0 <= q < |s.free| && s.free[q] ==> s.status[q] == Pooled
    requires r + k <= Top(s) && s.free[r]
    ensures found ==> r <= b && PooledRun(s, b, k) && forall q: nat :: r <= q < b ==> !PooledRun(s, q, k)
    ensures !found ==> forall q: nat :: r <= q ==> !PooledRun(s, q, k)
    ensures Alone(s, w, k, n) == if found then At(TakenFor(s, w, b, b + k), w, Own(k, b, 0)) else At(s, w, Bump(k))
    decreases Top(s) - r + 1, 0
  {
    hide Alone, Step, TakenFor, PutBack, Seek;
    var top := Top(s);
    var t0 := At(s, w, Take(k, top, r, 0));
    ToTake(s, t0, w, k, r);
    var n1, m := TakeUp(t0, w, k, top, r, 0);
    var t1 := At(TakenFor(t0, w, r, r + m), w, Take(k, top, r, m));
    AloneAdd(s, w, k, 1, n1);
    Retaken(s, t0, t1, w, r, m);
    var t2 := At(TakenFor(s, w, r, r + m), w, if m == k then Own(k, r, 0) else GiveBack(k, top, r, m, 0));
    FromTake(s, t1, t2, w, k, r, m);
    AloneAdd(s, w, k, 1 + n1, 1);
    if m == k {
      n, found, b := 1 + n1 + 1, true, r;
    } else {
      var n2 := GiveUp(t2, w, k, top, r, m, 0);
      var t3 := At(s, w, Seek(k, top, r + m + 1));
      Restored(s, t2, t3, w, k, r, m);
      AloneAdd(s, w, k, 2 + n1, n2);
      var n3;
      n3, found, b := SeekUp(t3, w, k, r + m + 1);
      AloneAdd(s, w, k, 2 + n1 + n2, n3);
      n := 2 + n1 + n2 + n3;
      SameRuns(s, t3, k);
      Rebased(s, t3, w, k, b);
      NoRunAcross(s, k, r, m);
    }
  }

  /** A free region seen: the claim begins to take. */
  lemma ToTake(s: State, t0: State, w: nat, k: nat, r: nat)
    requires w < |s.pc| && |s.free| == |s.owner| == |s.status| && s.pc[w] == Seek(k, Top(s), r)
    requires r + k <= Top(s) && 0 < k && s.free[r] && t0 == At(s, w, Take(k, Top(s), r, 0))
    ensures Alone(s, w, k, 1) == t0
  {
    assert Step(s, w, k) == t0;
    assert Alone(t0, w, k, 0) == t0;
  }

  /** All k taken, or not: the step after the last CAS. */
  lemma FromTake(s: State, t1: State, t2: State, w: nat, k: nat, r: nat, m: nat)
    requires w < |s.pc| && |s.free| == |s.owner| == |s.status| && m <= k && r + k <= Top(s)
    requires t1 == At(TakenFor(s, w, r, r + m), w, Take(k, Top(s), r, m)) && (m < k ==> !s.free[r + m])
    requires t2 == At(TakenFor(s, w, r, r + m), w, if m == k then Own(k, r, 0) else GiveBack(k, Top(s), r, m, 0))
    ensures Alone(t1, w, k, 1) == t2
  {
    assert Step(t1, w, k).pc == t2.pc;
    assert Alone(t2, w, k, 0) == t2;
  }

  lemma Retaken(s: State, t0: State, t1: State, w: nat, r: nat, m: nat)
    requires w < |s.pc| == |t0.pc| == |t1.pc| && t0 == At(s, w, t0.pc[w]) && t1 == At(TakenFor(t0, w, r, r + m), w, t1.pc[w])
    ensures t1 == At(TakenFor(s, w, r, r + m), w, t1.pc[w])
  {
    assert t1.pc == s.pc[w := t1.pc[w]];
  }

  /** What was taken from the pool and put back is as it was. */
  lemma Restored(s: State, t2: State, t3: State, w: nat, k: nat, r: nat, m: nat)
    requires w < |s.pc| && |s.free| == |s.owner| == |s.status| && r + k <= Top(s) && m < k
    requires forall q :: 0 <= q < |s.free| && s.free[q] ==> s.status[q] == Pooled
    requires forall q :: r <= q < r + m ==> s.free[q]
    requires t2 == At(TakenFor(s, w, r, r + m), w, GiveBack(k, Top(s), r, m, 0))
    requires t3 == At(s, w, Seek(k, Top(s), r + m + 1))
    ensures At(PutBack(t2, r, r + m), w, Seek(k, Top(s), r + m + 1)) == t3
  {
    var x := At(PutBack(t2, r, r + m), w, Seek(k, Top(s), r + m + 1));
    assert x.pc == t3.pc && x.free == t3.free && x.status == t3.status;
  }

  lemma NoRunAcross(s: State, k: nat, r: nat, m: nat)
    requires 1 <= r && m < k && r + k <= Top(s) && !s.free[r + m]
    ensures forall q: nat :: r <= q <= r + m ==> !PooledRun(s, q, k)
  {
    forall q: nat | r <= q <= r + m
      ensures !PooledRun(s, q, k)
    {
      assert q <= r + m < q + k;
    }
  }

  /** From any reachable state, whatever the other workers are in the middle of, a claim that runs alone ends: with
      the first pooled run of k regions if there is one, else with the k at the cursor if they are left, else with
      nothing. Then every owner byte of the run is the worker's, and nothing else of the pool has changed. */
  lemma SoloClaim(s: State, w: nat, k: nat) returns (n: nat, got: bool, b: nat)
    requires Inv(s) && w < |s.pc| && s.pc[w] == Idle && 0 < k
    ensures |s.free| == |s.owner| == |s.status| && n > 0
    ensures got <==> s.cursor + k <= |s.free| || exists r: nat :: PooledRun(s, r, k)
    ensures (exists r: nat :: PooledRun(s, r, k)) ==> PooledRun(s, b, k) && forall r: nat :: r < b ==> !PooledRun(s, r, k)
    ensures got && !(exists r: nat :: PooledRun(s, r, k)) ==> b == s.cursor
    ensures var t, run := Alone(s, w, k, n), if got then k else 0;
      && t.pc == s.pc && t.owner == Written(s.owner, w, b, b + run)
      && t.cursor == s.cursor + (if exists r: nat :: PooledRun(s, r, k) then 0 else k)
      && (forall q :: 0 <= q < |s.free| ==> t.free[q] == (s.free[q] && !(b <= q < b + run)))
      && forall q :: b <= q < b + run ==> q < |s.free| && t.status[q] == Owned(w)
  {
    hide Inv, Agrees, Step, Alone, TakenFor, Seek;
    PoolAgrees(s);
    var t1 := At(s, w, Seek(k, Top(s), 1));
    Opening(s, At(s, w, LoadTop(k)), t1, w, k);
    var n1, found;
    n1, found, b := SeekUp(t1, w, k, 1);
    AloneAdd(s, w, k, 2, n1);
    SameRuns(s, t1, k);
    Rebased(s, t1, w, k, b);
    if found {
      var t2 := At(TakenFor(s, w, b, b + k), w, Own(k, b, 0));
      var n2 := OwnUp(t2, w, k, b, 0);
      AloneAdd(s, w, k, 2 + n1, n2);
      n, got := 2 + n1 + n2, true;
      Settled(s, t2, w, k, b);
    } else {
      var t2 := At(s, w, Bump(k));
      n, got, b := Bumped(s, t2, w, k);
      AloneAdd(s, w, k, 2 + n1, n);
      n := 2 + n1 + n;
      NoRun(s, k);
    }
  }

  lemma NoRun(s: State, k: nat)
    requires forall q: nat :: 1 <= q ==> !PooledRun(s, q, k)
    ensures !exists r: nat :: PooledRun(s, r, k)
  {
  }

  /** The state a claim of pooled regions ends in. */
  lemma Settled(s: State, t2: State, w: nat, k: nat, b: nat)
    requires w < |s.pc| && |s.free| == |s.owner| == |s.status| && s.pc[w] == Idle && b + k <= |s.free|
    requires t2 == At(TakenFor(s, w, b, b + k), w, Own(k, b, 0))
    ensures var t := At(t2.(owner := Written(t2.owner, w, b, b + k), status := Fill(t2.status, b, k, Owned(w))), w, Idle);
      && t.pc == s.pc && t.owner == Written(s.owner, w, b, b + k) && t.cursor == s.cursor
      && (forall q :: 0 <= q < |s.free| ==> t.free[q] == (s.free[q] && !(b <= q < b + k)))
      && forall q :: b <= q < b + k ==> q < |s.free| && t.status[q] == Owned(w)
  {
    assert t2.pc[w := Idle] == s.pc;
  }

  /** A free region is in the pool and below the cursor. */
  lemma PoolAgrees(s: State)
    requires Inv(s)
    ensures |s.free| == |s.owner| == |s.status|
    ensures forall q :: 0 <= q < |s.free| && s.free[q] ==> s.status[q] == Pooled && q < s.cursor
  {
    forall q: nat | q < |s.free| && s.free[q]
      ensures s.status[q] == Pooled && q < s.cursor
    {
      assert Agrees(s, q);
    }
  }

  lemma Opening(s: State, t0: State, t1: State, w: nat, k: nat)
    requires w < |s.pc| && |s.free| == |s.owner| == |s.status| && s.pc[w] == Idle && 0 < k
    requires t0 == At(s, w, LoadTop(k)) && t1 == At(s, w, Seek(k, Top(s), 1))
    ensures Alone(s, w, k, 2) == t1
  {
    assert Step(s, w, k) == t0 && Top(t0) == Top(s);
    assert Step(t0, w, k).pc == t1.pc;
    assert Alone(t0, w, k, 1) == Alone(t1, w, k, 0) == t1;
  }

  /** At the cursor: the regions there, if they are left. */
  lemma Bumped(s: State, t: State, w: nat, k: nat) returns (n: nat, got: bool, b: nat)
    requires w < |s.pc| && |s.free| == |s.owner| == |s.status| && s.pc[w] == Idle && t == At(s, w, Bump(k))
    requires forall q :: s.cursor <= q < |s.free| ==> !s.free[q]
    ensures got <==> s.cursor + k <= |s.free|
    ensures got ==> b == s.cursor
    ensures var u, run := Alone(t, w, k, n), if got then k else 0;
      && n > 0 && u.pc == s.pc && u.owner == Written(s.owner, w, b, b + run) && u.cursor == s.cursor + k
      && (forall q :: 0 <= q < |s.free| ==> u.free[q] == (s.free[q] && !(b <= q < b + run)))
      && forall q :: b <= q < b + run ==> q < |s.free| && u.status[q] == Owned(w)
  {
    var u := Step(t, w, k);
    StepShape(t, w, k);
    assert Alone(t, w, k, 1) == Alone(u, w, k, 0) == u;
    got, b, n := s.cursor + k <= |s.free|, s.cursor, 1;
    if got {
      var n1 := OwnUp(u, w, k, s.cursor, 0);
      AloneAdd(t, w, k, 1, n1);
      n := 1 + n1;
      assert u.pc[w := Idle] == s.pc;
    } else {
      assert u.pc == s.pc;
      assert Written(s.owner, w, b, b) == s.owner;
    }
  }
}
