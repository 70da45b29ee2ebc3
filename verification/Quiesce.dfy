/** The stop-the-world protocol of runtime/heap_gc.c: any number of workers, one program counter
    each, every atomic operation one step. Futex waits re-check on a timeout, so a wait is a step
    back to the test it guards. Epochs are unbounded here; the source's are 32-bit counters. */
module Quiesce {

  /** Where a worker is. The comment names the operation its next step performs. */
  datatype Pc =
    | Off                                   // not in the quiesce set
    | ClearInTask                           // register: in_task := 0
    | Activate                              // register: active := 1
    | Run                                   // between runtime calls, in a task or bare
    | Top                                   // park check: load in_task
    | TopHandoff                            // load handoff
    | TakeHandoff                           // handoff := 0
    | TopCollector                          // load collector
    | TopEpoch                              // load epoch
    | TopDone(e: nat)                       // load done
    | Publish(e: nat)                       // parked := e
    | AwaitDone(e: nat)                     // load done and compare
    | Blocked(e: nat, d: nat)               // futex wait on done
    | SafeEpoch(alloc: bool)                // safepoint: load epoch
    | SafeDone(alloc: bool, e: nat)         // load done
    | SafeInTask(alloc: bool)               // load in_task
    | SafeCollector(alloc: bool)            // load collector; suspend when another collects
    | ProbeStopped                          // allocator: load stopped
    | ProbeCollector                        // load collector
    | Violate                               // violations += 1
    | Mutate                                // bump, free list, region grab, start bit
    | Elect                                 // collect: CAS lock
    | SetCollector                          // collector := self
    | BumpEpoch                             // epoch += 1
    | AskInTask                             // load in_task
    | SetHandoff                            // handoff := 1, then suspend
    | EndTask                               // in_task := 0
    | ReadEpoch                             // barrier: load epoch
    | AskActive(e: nat, i: nat)             // load active[i]
    | AskParked(e: nat, i: nat)             // load parked[i]
    | AwaitParked(e: nat, i: nat)           // futex wait on parked[i]
    | Stop(e: nat)                          // stopped := 1
    | Sweep(e: nat)                         // mark and sweep
    | Unstop(e: nat)                        // stopped := 0
    | DropCollector(e: nat)                 // collector := -1
    | SetDone(e: nat)                       // done := e
    | Unlock                                // lock := 0

  datatype Worker = Worker(pc: Pc, active: bool, inTask: bool, parked: nat, handoff: bool)

  /** The shared words. `owner` records whose CAS took the lock; the program has only the lock word.
      `heap` counts mutations. */
  datatype Shared = Shared(
    epoch: nat, done: nat, lock: bool, collector: int, stopped: bool, violations: nat, heap: nat, owner: int)

  datatype State = State(ws: seq<Worker>, g: Shared)

  /** What a worker does next where its program leaves it a choice. */
  datatype Choice = BeginTask | FinishTask | Allocate | ResumeAllocation | BackEdge | Collect | LoopTop | Leave

  /** Joining the set, and the choices between runtime calls. */
  function Lifecycle(x: Worker, c: Choice): Worker {
    match x.pc
    case Off => x.(pc := ClearInTask)
    case ClearInTask => x.(pc := Activate, inTask := false)
    case Activate => x.(pc := Top, active := true)
    case _ =>
      match c
      case BeginTask => x.(inTask := true)
      case FinishTask => if x.inTask then x.(pc := EndTask) else x
      case Allocate => x.(pc := SafeEpoch(true))
      case ResumeAllocation => x.(pc := ProbeStopped)
      case BackEdge => x.(pc := SafeEpoch(false))
      case Collect => x.(pc := Elect)
      case LoopTop => x.(pc := Top)
      case Leave => if x.inTask then x else x.(pc := Off, active := false)
  }

  /** The scheduler's park check. */
  function ParkCheck(x: Worker, g: Shared, w: nat): Worker {
    match x.pc
    case Top => x.(pc := if x.inTask then Run else TopHandoff)
    case TopHandoff => x.(pc := if x.handoff then TakeHandoff else TopCollector)
    case TakeHandoff => x.(pc := ReadEpoch, handoff := false)
    case TopCollector => x.(pc := if g.collector == w then Run else TopEpoch)
    case TopEpoch => x.(pc := TopDone(g.epoch))
    case TopDone(e) => x.(pc := if e == g.done then Run else Publish(e))
    case Publish(e) => x.(pc := AwaitDone(e), parked := e)
    case AwaitDone(e) => x.(pc := if g.done == e then Run else Blocked(e, g.done))
    case Blocked(e, d) => x.(pc := AwaitDone(e))
    case _ => x
  }

  function AfterSafepoint(alloc: bool): Pc {
    if alloc then ProbeStopped else Run
  }

  /** The task safepoint and the allocator's mutual-exclusion probe. */
  function Allocator(x: Worker, g: Shared, w: nat): (Worker, Shared) {
    match x.pc
    case SafeEpoch(alloc) => (x.(pc := SafeDone(alloc, g.epoch)), g)
    case SafeDone(alloc, e) => (x.(pc := if e == g.done then AfterSafepoint(alloc) else SafeInTask(alloc)), g)
    case SafeInTask(alloc) => (x.(pc := if x.inTask then SafeCollector(alloc) else AfterSafepoint(alloc)), g)
    case SafeCollector(alloc) => (x.(pc := if g.collector == w then AfterSafepoint(alloc) else EndTask), g)
    case ProbeStopped => (x.(pc := if g.stopped then ProbeCollector else Mutate), g)
    case ProbeCollector => (x.(pc := if g.collector == w then Mutate else Violate), g)
    case Violate => (x.(pc := Mutate), g.(violations := g.violations + 1))
    case Mutate => (x.(pc := Run), g.(heap := g.heap + 1))
    case _ => (x, g)
  }

  /** Electing a collector, and handing the collection to the scheduler loop. */
  function Election(x: Worker, g: Shared, w: nat): (Worker, Shared) {
    match x.pc
    case Elect =>
      if g.lock then (x.(pc := SafeEpoch(false)), g)
      else (x.(pc := SetCollector), g.(lock := true, owner := w))
    case SetCollector => (x.(pc := BumpEpoch), g.(collector := w))
    case BumpEpoch => (x.(pc := AskInTask), g.(epoch := g.epoch + 1))
    case AskInTask => (x.(pc := if x.inTask then SetHandoff else ReadEpoch), g)
    case SetHandoff => (x.(pc := EndTask, handoff := true), g)
    case EndTask => (x.(pc := Top, inTask := false), g)
    case _ => (x, g)
  }

  /** The barrier over n workers, the collection, and its publication; peer is the worker asked about. */
  function Barrier(x: Worker, g: Shared, w: nat, n: nat, peer: Worker): (Worker, Shared) {
    match x.pc
    case ReadEpoch => (x.(pc := AskActive(g.epoch, 0)), g)
    case AskActive(e, i) =>
      if i >= n then (x.(pc := Stop(e)), g)
      else if i == w || !peer.active then (x.(pc := AskActive(e, i + 1)), g)
      else (x.(pc := AskParked(e, i)), g)
    case AskParked(e, i) => (x.(pc := if peer.parked < e then AwaitParked(e, i) else AskActive(e, i + 1)), g)
    case AwaitParked(e, i) => (x.(pc := AskActive(e, i)), g)
    case Stop(e) => (x.(pc := Sweep(e)), g.(stopped := true))
    case Sweep(e) => (x.(pc := Unstop(e)), g.(heap := g.heap + 1))
    case Unstop(e) => (x.(pc := DropCollector(e)), g.(stopped := false))
    case DropCollector(e) => (x.(pc := SetDone(e)), g.(collector := -1))
    case SetDone(e) => (x.(pc := Unlock), g.(done := e))
    case Unlock => (x.(pc := Run), g.(lock := false, owner := -1))
    case _ => (x, g)
  }

  predicate LifePc(pc: Pc) {
    pc.Off? || pc.ClearInTask? || pc.Activate? || pc.Run?
  }

  predicate ParkPc(pc: Pc) {
    || pc.Top? || pc.TopHandoff? || pc.TakeHandoff? || pc.TopCollector? || pc.TopEpoch? || pc.TopDone?
    || pc.Publish? || pc.AwaitDone? || pc.Blocked?
  }

  predicate AllocPc(pc: Pc) {
    || pc.SafeEpoch? || pc.SafeDone? || pc.SafeInTask? || pc.SafeCollector?
    || pc.ProbeStopped? || pc.ProbeCollector? || pc.Violate? || pc.Mutate?
  }

  predicate ElectPc(pc: Pc) {
    || pc.Elect? || pc.SetCollector? || pc.BumpEpoch? || pc.AskInTask? || pc.SetHandoff? || pc.EndTask?
  }

  function WorkerStep(x: Worker, g: Shared, w: nat, n: nat, peer: Worker, c: Choice): (Worker, Shared) {
    if LifePc(x.pc) then (Lifecycle(x, c), g)
    else if ParkPc(x.pc) then (ParkCheck(x, g, w), g)
    else if AllocPc(x.pc) then Allocator(x, g, w)
    else if ElectPc(x.pc) then Election(x, g, w)
    else Barrier(x, g, w, n, peer)
  }

  /** The worker whose words a barrier step reads. */
  function Peer(s: State, w: nat): Worker
    requires w < |s.ws|
  {
    var pc := s.ws[w].pc;
    if ScanPc(pc) && pc.i < |s.ws| then s.ws[pc.i] else s.ws[w]
  }

  /** One step of worker w. */
  function Step(s: State, w: nat, c: Choice): State
    requires w < |s.ws|
  {
    var (x, g) := WorkerStep(s.ws[w], s.g, w, |s.ws|, Peer(s, w), c);
    State(s.ws[w := x], g)
  }

  /** The main thread starts as worker 0, registered and bare; the others are off. */
  predicate Initial(s: State) {
    && |s.ws| > 0
    && s.g == Shared(0, 0, false, -1, false, 0, s.g.heap, -1)
    && s.ws[0] == Worker(Run, true, false, 0, false)
    && forall i :: 1 <= i < |s.ws| ==> s.ws[i] == Worker(Off, false, false, 0, false)
  }

  ghost predicate Next(s: State, t: State) {
    exists w: nat, c :: w < |s.ws| && t == Step(s, w, c)
  }

  /** Steps of any workers, in any interleaving. */
  ghost predicate Steps(run: seq<State>) {
    run != [] && forall k {:trigger run[k]} :: 0 <= k < |run| - 1 ==> Next(run[k], run[k + 1])
  }

  ghost predicate Execution(run: seq<State>) {
    Steps(run) && Initial(run[0])
  }

  // ---- the invariant ----

  predicate ScanPc(pc: Pc) {
    pc.AskActive? || pc.AskParked? || pc.AwaitParked?
  }

  predicate StoppedPc(pc: Pc) {
    pc.Sweep? || pc.Unstop?
  }

  /** The barrier, the collection, and publishing its end: always outside a task. */
  predicate BarrierPc(pc: Pc) {
    pc.ReadEpoch? || ScanPc(pc) || pc.Stop? || StoppedPc(pc) || pc.DropCollector? || pc.SetDone?
  }

  /** From taking the lock to giving it back. */
  predicate Owns(x: Worker) {
    || x.handoff || x.pc.SetCollector? || x.pc.BumpEpoch? || x.pc.AskInTask? || x.pc.SetHandoff?
    || BarrierPc(x.pc) || x.pc.Unlock?
  }

  /** Between bumping the epoch and publishing `done`. */
  predicate Collecting(x: Worker) {
    x.handoff || x.pc.AskInTask? || x.pc.SetHandoff? || BarrierPc(x.pc)
  }

  predicate NamedCollector(x: Worker) {
    x.pc.BumpEpoch? || (Collecting(x) && !x.pc.SetDone?)
  }

  /** How many workers the owner has found quiescent. */
  function Scanned(x: Worker, n: nat): nat {
    if ScanPc(x.pc) then x.pc.i
    else if x.pc.Stop? || StoppedPc(x.pc) || x.pc.DropCollector? || x.pc.SetDone? then n
    else 0
  }

  /** The barrier's loop counter in worker w; it never asks about itself. */
  predicate ScanInRange(x: Worker, n: nat, w: nat) {
    && (x.pc.AskActive? ==> x.pc.i <= n)
    && (x.pc.AskParked? || x.pc.AwaitParked? ==> x.pc.i < n && x.pc.i != w)
  }

  predicate ParkedPc(pc: Pc) {
    pc.AwaitDone? || pc.Blocked?
  }

  /** Cannot touch the heap before the collection with this epoch is over: out of the set, on the
      way to its first park check, or parked. */
  predicate Quiescent(x: Worker, epoch: nat) {
    && !x.handoff
    && (|| x.pc.Off? || x.pc.ClearInTask? || x.pc.Activate?
        || (x.pc.Top? && !x.inTask) || x.pc.TopHandoff? || x.pc.TopCollector? || x.pc.TopEpoch?
        || ((x.pc.TopDone? || x.pc.Publish? || ParkedPc(x.pc)) && x.pc.e == epoch))
  }

  /** What holds of one worker on its own. */
  predicate Local(x: Worker, epoch: nat, done: nat) {
    && (x.active <==> !(x.pc.Off? || x.pc.ClearInTask? || x.pc.Activate?))
    && (x.pc.Activate? ==> !x.inTask)
    && x.parked <= epoch
    && !x.pc.ProbeCollector? && !x.pc.Violate?
    && (x.pc.TopDone? || x.pc.Publish? ==> x.parked <= x.pc.e && done <= x.pc.e <= epoch)
    && (ParkedPc(x.pc) ==> x.parked == x.pc.e && done <= x.pc.e)
    && (x.handoff ==> x.pc.EndTask? || (x.pc.Top? && !x.inTask) || x.pc.TopHandoff? || x.pc.TakeHandoff?)
    && (x.pc.TakeHandoff? ==> x.handoff)
    && (BarrierPc(x.pc) && !x.pc.ReadEpoch? ==> x.pc.e == epoch)
  }

  /** The shared words in terms of the lock's owner o, which is worker w. */
  predicate Held(g: Shared, o: Worker, w: nat) {
    && g.owner == w && g.lock
    && g.collector == (if NamedCollector(o) then w else -1)
    && g.epoch == g.done + (if Collecting(o) then 1 else 0)
    && (g.stopped <==> StoppedPc(o.pc))
    && g.violations == 0
  }

  predicate Free(g: Shared) {
    g.owner == -1 && !g.lock && g.collector == -1 && g.epoch == g.done && !g.stopped && g.violations == 0
  }

  /** Parked for the collection in progress means waiting for its end. */
  predicate ParkedWaits(x: Worker, g: Shared) {
    g.done < g.epoch && x.parked == g.epoch ==> ParkedPc(x.pc)
  }

  ghost predicate Inv(s: State) {
    && (forall j :: 0 <= j < |s.ws| ==> Local(s.ws[j], s.g.epoch, s.g.done))
    && (forall j :: 0 <= j < |s.ws| ==> (Owns(s.ws[j]) <==> j == s.g.owner))
    && (forall j :: 0 <= j < |s.ws| ==> ScanInRange(s.ws[j], |s.ws|, j))
    && (forall j :: 0 <= j < |s.ws| && j != s.g.owner ==> ParkedWaits(s.ws[j], s.g))
    && (Free(s.g) || (0 <= s.g.owner < |s.ws| && Held(s.g, s.ws[s.g.owner], s.g.owner)))
    && (0 <= s.g.owner < |s.ws| ==>
          forall j :: 0 <= j < |s.ws| && j != s.g.owner && j < Scanned(s.ws[s.g.owner], |s.ws|) ==>
            Quiescent(s.ws[j], s.g.epoch))
  }

  lemma InitialInv(s: State)
    requires Initial(s)
    ensures Inv(s)
  {
  }

  // ---- a step of a worker that does not hold the lock ----

  predicate Bystander(x: Worker, g: Shared, w: nat) {
    && Local(x, g.epoch, g.done) && !Owns(x) && g.owner != w && g.collector != w && ParkedWaits(x, g)
    && (g.stopped ==> Quiescent(x, g.epoch)) && g.done <= g.epoch
  }

  /** It keeps its own invariant, changes the shared words only by taking a free lock or mutating
      the heap, and stays quiescent while a collection that counted on it is in progress. */
  predicate BystanderKeeps(x: Worker, g: Shared, w: nat, y: Worker, h: Shared) {
    && Local(y, h.epoch, h.done) && ParkedWaits(y, h) && x.parked <= y.parked
    && (if Owns(y) then !g.lock && h == g.(lock := true, owner := w) && y.pc.SetCollector? && !y.handoff
        else h == g.(heap := h.heap))
    && (g.done < g.epoch && Quiescent(x, g.epoch) ==> Quiescent(y, g.epoch) && h == g)
    && !BarrierPc(y.pc)
  }

  lemma BystanderLife(x: Worker, g: Shared, w: nat, c: Choice)
    requires Bystander(x, g, w) && LifePc(x.pc)
    ensures BystanderKeeps(x, g, w, Lifecycle(x, c), g)
  {
  }

  lemma BystanderPark(x: Worker, g: Shared, w: nat)
    requires Bystander(x, g, w) && ParkPc(x.pc)
    ensures BystanderKeeps(x, g, w, ParkCheck(x, g, w), g)
  {
  }

  lemma BystanderAlloc(x: Worker, g: Shared, w: nat)
    requires Bystander(x, g, w) && AllocPc(x.pc)
    ensures var (y, h) := Allocator(x, g, w); BystanderKeeps(x, g, w, y, h)
  {
  }

  lemma BystanderElect(x: Worker, g: Shared, w: nat)
    requires Bystander(x, g, w) && ElectPc(x.pc)
    ensures var (y, h) := Election(x, g, w); BystanderKeeps(x, g, w, y, h)
  {
  }

  lemma BystanderStep(x: Worker, g: Shared, w: nat, n: nat, peer: Worker, c: Choice)
    requires Bystander(x, g, w)
    ensures var (y, h) := WorkerStep(x, g, w, n, peer, c); BystanderKeeps(x, g, w, y, h)
  {
    if LifePc(x.pc) {
      BystanderLife(x, g, w, c);
    } else if ParkPc(x.pc) {
      BystanderPark(x, g, w);
    } else if AllocPc(x.pc) {
      BystanderAlloc(x, g, w);
    } else {
      BystanderElect(x, g, w);
    }
  }

  // ---- a step of the lock's owner ----

  predicate Owner(x: Worker, g: Shared, w: nat) {
    Local(x, g.epoch, g.done) && Owns(x) && Held(g, x, w)
  }

  /** The owner keeps its invariant and everyone's picture of the epochs: it bumps the epoch over
      parked words that are all behind it, publishes `done` only with every other worker quiescent,
      and finds a worker quiescent only from that worker's own words. */
  predicate OwnerKeeps(x: Worker, g: Shared, w: nat, n: nat, peer: Worker, y: Worker, h: Shared) {
    && Local(y, h.epoch, h.done) && g.epoch <= h.epoch && g.done <= h.done
    && (if Owns(y) then Held(h, y, w) else Free(h) && ParkedWaits(y, h))
    && (h.epoch != g.epoch ==> x.pc.BumpEpoch? && h.epoch == g.epoch + 1 && h.done == g.done && g.done == g.epoch)
    && (h.done != g.done ==> x.pc.SetDone? && h.done == h.epoch == g.epoch && Scanned(x, n) == n)
    && (Scanned(y, n) <= Scanned(x, n)
        || (Scanned(y, n) == Scanned(x, n) + 1 && ScanPc(x.pc) && g.done < g.epoch
            && (x.pc.i == w || !peer.active || peer.parked >= g.epoch))
        || (x.pc.AskActive? && x.pc.i >= n && Scanned(y, n) == n))
    && (Scanned(y, n) > 0 ==> h.epoch == g.epoch)
    && (ScanInRange(x, n, w) ==> ScanInRange(y, n, w))
  }

  lemma OwnerPark(x: Worker, g: Shared, w: nat, n: nat, peer: Worker)
    requires Owner(x, g, w) && ParkPc(x.pc)
    ensures OwnerKeeps(x, g, w, n, peer, ParkCheck(x, g, w), g)
  {
  }

  lemma OwnerElect(x: Worker, g: Shared, w: nat, n: nat, peer: Worker)
    requires Owner(x, g, w) && ElectPc(x.pc)
    ensures var (y, h) := Election(x, g, w); OwnerKeeps(x, g, w, n, peer, y, h)
  {
    hide Owner, OwnerKeeps;
    if x.pc.Elect? || x.pc.SetCollector? || x.pc.BumpEpoch? {
      OwnerElected(x, g, w, n, peer);
    } else {
      OwnerHandsOff(x, g, w, n, peer);
    }
  }

  lemma OwnerElected(x: Worker, g: Shared, w: nat, n: nat, peer: Worker)
    requires Owner(x, g, w) && (x.pc.Elect? || x.pc.SetCollector? || x.pc.BumpEpoch?)
    ensures var (y, h) := Election(x, g, w); OwnerKeeps(x, g, w, n, peer, y, h)
  {
  }

  lemma OwnerHandsOff(x: Worker, g: Shared, w: nat, n: nat, peer: Worker)
    requires Owner(x, g, w) && (x.pc.AskInTask? || x.pc.SetHandoff? || x.pc.EndTask?)
    ensures var (y, h) := Election(x, g, w); OwnerKeeps(x, g, w, n, peer, y, h)
  {
  }

  lemma OwnerScan(x: Worker, g: Shared, w: nat, n: nat, peer: Worker)
    requires Owner(x, g, w) && (ScanPc(x.pc) || x.pc.ReadEpoch?)
    ensures var (y, h) := Barrier(x, g, w, n, peer); OwnerKeeps(x, g, w, n, peer, y, h)
  {
  }

  lemma OwnerBarrier(x: Worker, g: Shared, w: nat, n: nat, peer: Worker)
    requires Owner(x, g, w) && (BarrierPc(x.pc) || x.pc.Unlock?)
    ensures var (y, h) := Barrier(x, g, w, n, peer); OwnerKeeps(x, g, w, n, peer, y, h)
  {
    if ScanPc(x.pc) || x.pc.ReadEpoch? {
      OwnerScan(x, g, w, n, peer);
    }
  }

  lemma OwnerStep(x: Worker, g: Shared, w: nat, n: nat, peer: Worker, c: Choice)
    requires Owner(x, g, w)
    ensures var (y, h) := WorkerStep(x, g, w, n, peer, c); OwnerKeeps(x, g, w, n, peer, y, h)
  {
    hide OwnerKeeps, Held, ParkCheck, Election, Barrier, Lifecycle, Allocator;
    if ParkPc(x.pc) {
      OwnerPark(x, g, w, n, peer);
    } else if ElectPc(x.pc) {
      OwnerElect(x, g, w, n, peer);
    } else {
      OwnerBarrier(x, g, w, n, peer);
    }
  }

  // ---- every interleaving ----

  /** A worker found inactive, or parked for this epoch, is quiescent: the barrier's whole test. */
  lemma FoundQuiescent(p: Worker, g: Shared)
    requires Local(p, g.epoch, g.done) && !Owns(p) && ParkedWaits(p, g) && g.done < g.epoch
    requires !p.active || p.parked >= g.epoch
    ensures Quiescent(p, g.epoch)
  {
  }

  /** What the owner's step does to another worker's invariant. */
  lemma OtherKeeps(p: Worker, g: Shared, h: Shared)
    requires Local(p, g.epoch, g.done) && !Owns(p) && ParkedWaits(p, g)
    requires g.done <= h.done <= h.epoch && g.epoch <= h.epoch <= g.epoch + 1
    requires h.epoch != g.epoch ==> g.done == g.epoch && h.done == g.done
    requires h.done != g.done ==> h.done == h.epoch && Quiescent(p, g.epoch)
    ensures Local(p, h.epoch, h.done) && ParkedWaits(p, h)
  {
  }

  lemma OwnerStepKeepsInv(s: State, w: nat, c: Choice)
    requires w < |s.ws| && Inv(s) && w == s.g.owner
    ensures Inv(Step(s, w, c))
  {
    hide Local, Owns, Quiescent, ParkedWaits, WorkerStep, ParkedPc, BarrierPc, StoppedPc, ScanInRange;
    var t, n := Step(s, w, c), |s.ws|;
    var x, y, p := s.ws[w], t.ws[w], Peer(s, w);
    OwnerStep(x, s.g, w, n, p, c);
    forall j | 0 <= j < n && j != w
      ensures Local(t.ws[j], t.g.epoch, t.g.done) && ParkedWaits(t.ws[j], t.g) && !Owns(t.ws[j])
      ensures j < Scanned(y, n) ==> Quiescent(t.ws[j], t.g.epoch)
    {
      assert t.ws[j] == s.ws[j];
      OtherKeeps(s.ws[j], s.g, t.g);
      if Scanned(x, n) <= j < Scanned(y, n) {
        if x.pc.AskActive? && x.pc.i >= n {
          assert false;
        }
        assert j == x.pc.i && p == s.ws[j];
        FoundQuiescent(p, s.g);
      }
    }
  }

  lemma BystanderStepKeepsInv(s: State, w: nat, c: Choice)
    requires w < |s.ws| && Inv(s) && w != s.g.owner
    ensures Inv(Step(s, w, c))
  {
    hide Local, Owns, Quiescent, WorkerStep, ParkedPc, BarrierPc, Scanned, Collecting, NamedCollector, StoppedPc;
    var t, n := Step(s, w, c), |s.ws|;
    var x, y := s.ws[w], t.ws[w];
    StoppedMeansScanned(s, w);
    BystanderStep(x, s.g, w, n, Peer(s, w), c);
    NothingScanned(y, n);
    if 0 <= s.g.owner < n {
      ScannedOnlyWhileCollecting(s);
    }
    forall j | 0 <= j < n && j != w && j != s.g.owner
      ensures t.ws[j] == s.ws[j] && ParkedWaits(t.ws[j], t.g)
    {
    }
  }

  lemma StoppedMeansScanned(s: State, w: nat)
    requires w < |s.ws| && Inv(s) && w != s.g.owner
    ensures s.g.stopped ==> Quiescent(s.ws[w], s.g.epoch)
    ensures s.g.done <= s.g.epoch && s.g.collector != w
  {
    if s.g.stopped {
      assert Scanned(s.ws[s.g.owner], |s.ws|) == |s.ws|;
    }
  }

  lemma NothingScanned(y: Worker, n: nat)
    ensures !BarrierPc(y.pc) ==> forall w: nat :: ScanInRange(y, n, w)
    ensures y.pc.SetCollector? && !y.handoff ==>
              Scanned(y, n) == 0 && !Collecting(y) && !NamedCollector(y) && !StoppedPc(y.pc)
  {
  }

  lemma ScannedOnlyWhileCollecting(s: State)
    requires Inv(s) && 0 <= s.g.owner < |s.ws|
    ensures Scanned(s.ws[s.g.owner], |s.ws|) > 0 ==> s.g.done < s.g.epoch
  {
  }

  lemma StepKeepsInv(s: State, w: nat, c: Choice)
    requires w < |s.ws| && Inv(s)
    ensures Inv(Step(s, w, c))
  {
    if w == s.g.owner {
      OwnerStepKeepsInv(s, w, c);
    } else {
      BystanderStepKeepsInv(s, w, c);
    }
  }

  lemma NextKeepsInv(s: State, t: State)
    requires Inv(s) && Next(s, t)
    ensures Inv(t) && |t.ws| == |s.ws|
  {
    hide Inv, WorkerStep;
    var w: nat, c :| w < |s.ws| && t == Step(s, w, c);
    StepKeepsInv(s, w, c);
  }

  lemma {:induction false} ExecutionKeepsInv(run: seq<State>, k: nat)
    requires Execution(run) && k < |run|
    ensures Inv(run[k]) && |run[k].ws| == |run[0].ws|
  {
    hide Inv, Next, Initial;
    if k == 0 {
      InitialInv(run[0]);
    } else {
      ExecutionKeepsInv(run, k - 1);
      assert Next(run[k - 1], run[k]);
      NextKeepsInv(run[k - 1], run[k]);
    }
  }

  // ---- safety over whole runs ----

  predicate MutatingPc(pc: Pc) {
    pc.ProbeStopped? || pc.ProbeCollector? || pc.Violate? || pc.Mutate?
  }

  /** While the world is stopped one worker holds the lock and is the named collector, every other
      worker is parked for this epoch, out of the set, or cannot touch the heap before parking;
      the probe never counts a violation. */
  lemma StoppedWorld(run: seq<State>, k: nat)
    requires Execution(run) && k < |run|
    ensures var s := run[k];
      && s.g.violations == 0
      && (s.g.stopped ==>
            && s.g.lock && 0 <= s.g.collector < |s.ws| && StoppedPc(s.ws[s.g.collector].pc)
            && forall j :: 0 <= j < |s.ws| && j != s.g.collector ==>
                 Quiescent(s.ws[j], s.g.epoch) && !MutatingPc(s.ws[j].pc) && !Owns(s.ws[j]))
  {
    ExecutionKeepsInv(run, k);
    var s := run[k];
    forall j | 0 <= j < |s.ws| && j != s.g.owner && s.g.stopped
      ensures Quiescent(s.ws[j], s.g.epoch)
    {
      StoppedMeansScanned(s, j);
    }
  }

  /** In the stopped window only the collector's own step changes the heap. */
  lemma HeapStillWhileStopped(s: State, w: nat, c: Choice)
    requires Inv(s) && w < |s.ws| && s.g.stopped && w != s.g.collector
    ensures Step(s, w, c).g == s.g
  {
    hide WorkerStep;
    StoppedMeansScanned(s, if w == s.g.owner then 0 else w);
    if w != s.g.owner {
      BystanderStep(s.ws[w], s.g, w, |s.ws|, Peer(s, w), c);
    }
  }

  /** At most one worker is between taking the lock and releasing it, and the lock word says whether
      one is. */
  lemma OneOwner(run: seq<State>, k: nat)
    requires Execution(run) && k < |run|
    ensures var s := run[k];
      && (forall i, j :: 0 <= i < |s.ws| && 0 <= j < |s.ws| && Owns(s.ws[i]) && Owns(s.ws[j]) ==> i == j)
      && (s.g.lock <==> exists i :: 0 <= i < |s.ws| && Owns(s.ws[i]))
  {
    hide Owns, Local, Quiescent, ParkedWaits, Scanned, ScanInRange;
    ExecutionKeepsInv(run, k);
    var s := run[k];
    if s.g.lock {
      assert Owns(s.ws[s.g.owner]);
    }
  }

  /** Each worker's parked epoch only grows, as do the two shared epochs. */
  lemma StepMonotone(s: State, t: State)
    requires Inv(s) && Next(s, t)
    ensures s.g.epoch <= t.g.epoch && s.g.done <= t.g.done && |s.ws| == |t.ws|
    ensures forall j :: 0 <= j < |s.ws| ==> s.ws[j].parked <= t.ws[j].parked
  {
    hide WorkerStep, Quiescent, Scanned, Owns;
    var w: nat, c :| w < |s.ws| && t == Step(s, w, c);
    if w == s.g.owner {
      OwnerStep(s.ws[w], s.g, w, |s.ws|, Peer(s, w), c);
      OwnerParkedSame(s.ws[w], s.g, w, |s.ws|, Peer(s, w), c);
    } else {
      StoppedMeansScanned(s, w);
      BystanderStep(s.ws[w], s.g, w, |s.ws|, Peer(s, w), c);
    }
  }

  /** The elected collector never parks. */
  lemma OwnerParkedSame(x: Worker, g: Shared, w: nat, n: nat, peer: Worker, c: Choice)
    requires Owner(x, g, w)
    ensures WorkerStep(x, g, w, n, peer, c).0.parked == x.parked
  {
  }

  lemma {:induction false} EpochsMonotone(run: seq<State>, k: nat, m: nat)
    requires Execution(run) && k <= m < |run|
    ensures run[k].g.epoch <= run[m].g.epoch && run[k].g.done <= run[m].g.done && |run[k].ws| == |run[m].ws|
    ensures forall j :: 0 <= j < |run[k].ws| ==> run[k].ws[j].parked <= run[m].ws[j].parked
  {
    hide Inv, Next, Initial;
    if k < m {
      EpochsMonotone(run, k, m - 1);
      ExecutionKeepsInv(run, m - 1);
      assert Next(run[m - 1], run[m]);
      StepMonotone(run[m - 1], run[m]);
    }
  }

  /** While a worker waits for `done` to equal e, `done` has not passed e; and once it equals e the
      worker's next test lets it go. */
  lemma NoMissedWake(run: seq<State>, k: nat, j: nat, c: Choice)
    requires Execution(run) && k < |run| && j < |run[k].ws| && ParkedPc(run[k].ws[j].pc)
    ensures var (s, e) := (run[k], run[k].ws[j].pc.e);
      && s.g.done <= e <= s.g.epoch && s.ws[j].parked == e
      && (s.ws[j].pc.AwaitDone? && s.g.done == e ==> Step(s, j, c).ws[j].pc == Run)
      && (s.ws[j].pc.Blocked? ==> Step(s, j, c).ws[j].pc == AwaitDone(e))
  {
    ExecutionKeepsInv(run, k);
    assert Local(run[k].ws[j], run[k].g.epoch, run[k].g.done);
  }

  /** The worker named collector is never on the way to parking, whichever way it was elected:
      in-task it hands the collection to its own scheduler loop, which takes it before that test. */
  lemma CollectorNeverParks(run: seq<State>, k: nat)
    requires Execution(run) && k < |run| && 0 <= run[k].g.collector < |run[k].ws|
    ensures var pc := run[k].ws[run[k].g.collector].pc;
      !(pc.TopCollector? || pc.TopEpoch? || pc.TopDone? || pc.Publish? || ParkedPc(pc))
  {
    ExecutionKeepsInv(run, k);
    var s := run[k];
    assert Local(s.ws[s.g.owner], s.g.epoch, s.g.done);
    assert Owns(s.ws[s.g.owner]);
  }

  // ---- no deadlock ----

  /** Steps a worker needs to be parked for the epoch in progress, when it heads for the park check. */
  function ToParked(x: Worker, epoch: nat): nat {
    match x.pc
    case TopEpoch => 3
    case TopCollector => 4
    case TopHandoff => 5
    case Top => if x.inTask then 9 else 6
    case EndTask => 7
    case Run => 8
    case TopDone(e) => if e == epoch then 2 else 9
    case Publish(e) => if e == epoch then 1 else 11
    case AwaitDone(e) => if e == epoch then 0 else 9
    case Blocked(e, d) => if e == epoch then 1 else 10
    case Mutate => 9
    case ProbeStopped => 10
    case SafeCollector(_) => 11
    case SafeInTask(_) => 12
    case SafeDone(_, _) => 13
    case SafeEpoch(_) => 14
    case Elect => 15
    case _ => 0
  }

  function HeadForTop(x: Worker): Choice {
    if x.inTask then FinishTask else LoopTop
  }

  /** The barrier still waits for this worker. */
  predicate Awaited(x: Worker, epoch: nat) {
    x.active && x.parked < epoch
  }

  lemma ApproachesPark(x: Worker, g: Shared, w: nat, n: nat, peer: Worker)
    requires Bystander(x, g, w) && g.lock && g.epoch == g.done + 1 && !g.stopped && Awaited(x, g.epoch)
    ensures var (y, h) := WorkerStep(x, g, w, n, peer, HeadForTop(x));
      h == g.(heap := h.heap) && 1 <= ToParked(x, g.epoch)
      && (Awaited(y, g.epoch) ==> ToParked(y, g.epoch) < ToParked(x, g.epoch))
  {
  }

  /** What remains of the owner's own program, the barrier counting 20 for each worker left to ask. */
  function OwnerSteps(x: Worker, n: nat, peer: Worker, epoch: nat): nat {
    var scan := 20 * n;
    match x.pc
    case Unlock => 1
    case SetDone(_) => 2
    case DropCollector(_) => 3
    case Unstop(_) => 4
    case Sweep(_) => 5
    case Stop(_) => 6
    case AskParked(_, i) => (if peer.parked < epoch then 10 else 7) + 20 * (if i < n then n - i else 0)
    case AskActive(_, i) => 8 + 20 * (if i < n then n - i else 0)
    case AwaitParked(_, i) => 9 + 20 * (if i < n then n - i else 0)
    case ReadEpoch => scan + 30
    case TakeHandoff => scan + 31
    case TopHandoff => scan + 32
    case Top => scan + 33
    case EndTask => scan + 34
    case SetHandoff => scan + 35
    case AskInTask => scan + 36
    case BumpEpoch => scan + 37
    case SetCollector => scan + 38
    case _ => 0
  }

  predicate Advances(x: Worker, y: Worker, n: nat, peer: Worker, epoch: nat) {
    && (Owns(y) ==> OwnerSteps(y, n, peer, epoch) < OwnerSteps(x, n, peer, epoch))
    && (ScanPc(y.pc) && !(ScanPc(x.pc) && x.pc.i == y.pc.i) ==>
          !y.pc.AskParked? && OwnerSteps(y, n, peer, epoch) + 15 < OwnerSteps(x, n, peer, epoch))
  }

  lemma BarrierAdvances(x: Worker, g: Shared, w: nat, n: nat, peer: Worker)
    requires Owner(x, g, w) && ScanInRange(x, n, w) && (BarrierPc(x.pc) || x.pc.Unlock?)
    requires ScanPc(x.pc) && x.pc.i < n && x.pc.i != w ==> !Awaited(peer, g.epoch)
    ensures Advances(x, Barrier(x, g, w, n, peer).0, n, peer, g.epoch)
  {
  }

  lemma OwnerAdvances(x: Worker, g: Shared, w: nat, n: nat, peer: Worker, c: Choice)
    requires Owner(x, g, w) && ScanInRange(x, n, w)
    requires ScanPc(x.pc) && x.pc.i < n && x.pc.i != w ==> !Awaited(peer, g.epoch)
    ensures Advances(x, WorkerStep(x, g, w, n, peer, c).0, n, peer, g.epoch)
  {
    if BarrierPc(x.pc) || x.pc.Unlock? {
      BarrierAdvances(x, g, w, n, peer);
    }
  }

  lemma PeerIrrelevant(x: Worker, n: nat, p: Worker, e: nat, q: Worker, f: nat)
    requires !x.pc.AskParked?
    ensures OwnerSteps(x, n, p, e) == OwnerSteps(x, n, q, f)
  {
  }

  predicate AsksAbout(s: State)
    requires 0 <= s.g.owner < |s.ws|
  {
    var pc := s.ws[s.g.owner].pc;
    ScanPc(pc) && pc.i < |s.ws| && pc.i != s.g.owner && Awaited(s.ws[pc.i], s.g.epoch)
  }

  /** A measure of what is left of the collection in progress. */
  function Remaining(s: State): nat
    requires 0 <= s.g.owner < |s.ws|
  {
    OwnerSteps(s.ws[s.g.owner], |s.ws|, Peer(s, s.g.owner), s.g.epoch)
    + if AsksAbout(s) then ToParked(s.ws[s.ws[s.g.owner].pc.i], s.g.epoch) else 0
  }

  /** The step to schedule: the worker the barrier waits for, else the owner. */
  function Schedule(s: State): (r: (nat, Choice))
    requires 0 <= s.g.owner < |s.ws|
    ensures r.0 < |s.ws|
  {
    if AsksAbout(s) then (s.ws[s.g.owner].pc.i, HeadForTop(s.ws[s.ws[s.g.owner].pc.i])) else (s.g.owner, LoopTop)
  }

  lemma ScheduleAdvances(s: State)
    requires Inv(s) && 0 <= s.g.owner < |s.ws|
    ensures var (w, c) := Schedule(s); var t := Step(s, w, c);
      Inv(t) && (t.g.owner == -1 || (t.g.owner == s.g.owner && |t.ws| == |s.ws| && Remaining(t) < Remaining(s)))
  {
    hide Inv, WorkerStep;
    var (w, c) := Schedule(s);
    StepKeepsInv(s, w, c);
    if AsksAbout(s) {
      PeerScheduled(s);
    } else {
      OwnerScheduled(s, c);
    }
  }

  lemma PeerScheduled(s: State)
    requires Inv(s) && 0 <= s.g.owner < |s.ws| && AsksAbout(s)
    ensures var (w, c) := Schedule(s); var t := Step(s, w, c);
      t.g.owner == s.g.owner && |t.ws| == |s.ws| && Remaining(t) < Remaining(s)
  {
    hide WorkerStep, Local, Quiescent, Owns, ToParked, HeadForTop;
    var (w, c) := Schedule(s);
    var t, o, n := Step(s, w, c), s.g.owner, |s.ws|;
    StoppedMeansScanned(s, w);
    ScanFacts(s.ws[o], n);
    ApproachesPark(s.ws[w], s.g, w, n, Peer(s, w));
    assert t.ws[o] == s.ws[o] && Peer(t, o) == t.ws[w] && Peer(s, o) == s.ws[w];
    StillParked(s, w, c);
  }

  lemma StillParked(s: State, w: nat, c: Choice)
    requires Inv(s) && w < |s.ws| && w != s.g.owner
    ensures s.ws[w].parked <= Step(s, w, c).ws[w].parked
  {
    hide WorkerStep, Local, Quiescent, Owns, Scanned;
    StoppedMeansScanned(s, w);
    BystanderStep(s.ws[w], s.g, w, |s.ws|, Peer(s, w), c);
  }

  lemma OwnerScheduled(s: State, c: Choice)
    requires Inv(s) && 0 <= s.g.owner < |s.ws| && !AsksAbout(s)
    ensures var t := Step(s, s.g.owner, c);
      |t.ws| == |s.ws| && (t.g.owner == -1 || (t.g.owner == s.g.owner && Remaining(t) < Remaining(s)))
  {
    hide WorkerStep, Local, Quiescent, Owns, OwnerSteps, ToParked;
    var o, n := s.g.owner, |s.ws|;
    var t := Step(s, o, c);
    var x, y, p := s.ws[o], t.ws[o], Peer(s, o);
    StepKeepsInv(s, o, c);
    OwnerAdvances(x, s.g, o, n, p, c);
    OwnerStep(x, s.g, o, n, p, c);
    if t.g.owner == o {
      assert Owns(y);
      if ScanPc(y.pc) && y.pc.i < n {
        ParkBound(t.ws[y.pc.i], t.g.epoch);
        assert y.pc.i != o ==> t.ws[y.pc.i] == s.ws[y.pc.i];
      }
      if !y.pc.AskParked? {
        PeerIrrelevant(y, n, p, s.g.epoch, Peer(t, o), t.g.epoch);
      }
    }
  }

  lemma ScanFacts(x: Worker, n: nat)
    requires ScanPc(x.pc)
    ensures Collecting(x) && !StoppedPc(x.pc) && NamedCollector(x)
  {
  }

  lemma ParkBound(x: Worker, epoch: nat)
    ensures ToParked(x, epoch) <= 15
  {
  }

  /** From every reachable state the collection in progress can be run to completion: no
      interleaving leads to a deadlock of the barrier, the parked workers and the handoff. */
  lemma {:induction false} CanFinish(s: State) returns (run: seq<State>)
    requires Inv(s)
    ensures Steps(run) && run[0] == s
    ensures var t := run[|run| - 1]; Inv(t) && Free(t.g)
    decreases if 0 <= s.g.owner < |s.ws| then Remaining(s) + 1 else 0
  {
    hide WorkerStep, Inv, Free, Remaining, Schedule, Steps, Next;
    if s.g.owner == -1 {
      NothingToFinish(s);
      return [s];
    }
    OwnerInRange(s);
    var (w, c) := Schedule(s);
    ScheduleAdvances(s);
    var rest := CanFinish(Step(s, w, c));
    run := [s] + rest;
    OneMore(s, w, c, rest);
  }

  lemma OwnerInRange(s: State)
    requires Inv(s) && s.g.owner != -1
    ensures 0 <= s.g.owner < |s.ws|
  {
  }

  lemma NothingToFinish(s: State)
    requires Inv(s) && s.g.owner == -1
    ensures Free(s.g) && Steps([s])
  {
  }

  lemma OneMore(s: State, w: nat, c: Choice, rest: seq<State>)
    requires w < |s.ws| && Steps(rest) && rest[0] == Step(s, w, c)
    ensures Steps([s] + rest) && ([s] + rest)[|rest|] == rest[|rest| - 1]
  {
    hide WorkerStep;
    var run := [s] + rest;
    assert Next(s, rest[0]);
    forall k {:trigger run[k]} | 0 <= k < |run| - 1
      ensures Next(run[k], run[k + 1])
    {
      if k > 0 {
        assert run[k] == rest[k - 1] && run[k + 1] == rest[k];
      }
    }
  }
}
