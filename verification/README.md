# A verified model of the runtime core, the code generator and the serializer

This project models five parts of the system in Dafny and proves what each is for.

- **The dynamic integer tower** (`Limbs`, `Magnitude`, `LongDivision`, `BigInt`, `DynInt`, `Decimal`). Limb arrays of
  32-bit words are filled and updated in place by the loops of `runtime/bigint.c`, against the integers they denote.
  Word types are newtypes, so that every 64-bit intermediate fits is part of each proof. On top of them, the
  inline / boxed / bigint dispatch of `runtime/builtins.c` and the decimal conversions.
- **The heap and its collector** (`HeapCells`, `HeapView`, `SweepSteps`, `Store`, `Mark`, `Regions`, `Quiesce`). The
  allocator, mark phase and sweep of `runtime/heap_gc.c` as mutable classes; concurrent region claims and the
  stop-the-world protocol as transition systems in which each atomic operation is a step and any number of workers
  interleave.
- **The code generator** (`Bits`, `WordArith`, `Ir`, `Source`, `Lowering*`, `LocalSsa`, `GuardRuns`, `GuardHost`, `Emitter`,
  `Compilable`, `TypedArith`, `TypedRoots`, `RawReturn`). A small-step machine for the block-local SSA, a meaning for the source forms,
  lowering as functions, the mutable context of `codegen/codegen.c` proved equal to them, the simulation
  between both sides, and the exact syntactic condition under which a proc compiles. The typed and raw lowerings are proved on the instructions they emit.
- **The serializer** (`Leb`, `Wire`, `Intern`, `HashIndex`, `ModuleWire`, `Writer`). The byte encoding of
  `codegen/irbuilder.c`, a decoder written from its opcode table, the hash-indexed intern tables, and the two-pass
  encoder over a byte buffer. LEB128 is that of section 7.6 of the DWARF 5 standard.
- **N-dimensional flat buffers** (`Shapes`, `FlatBuf`). Strided views over one byte array of `runtime/flatbuf.c`.

Tagged words follow codegen/codegen.c:10-24. Offsets in the heap model are in 16-byte granules.

`dafny verify dfyconfig.toml` checks everything.

## Findings

Properties that the code does not have as one would state them, each with an input and its exact condition.

| where | what happens | members |
|---|---|---|
| codegen/codegen.c:1014-1040, 1175-1193, 1404-1423 | Typed lowering has no case for a `-` with one operand, which the typer accepts (src/typer.c:6315-6328): nested in a typed tree, at the root of a raw slot or in a typed comparison, it is lowered as its operand. `[+ n [- 5]]` computes n + 5. | `TypedRoots.NestedNegationIsLost`, exact condition `TypedRoots.RightExactlyWhen` |
| codegen/codegen.c:4819-4825 | At a boxed root that minus is a runtime subtraction, which promotes where the type would fail: the least i32 becomes 2^31, and any unsigned number but 0 a negative one, with no error flag. | `TypedRoots.BoxedNegationEscapes`, exact condition `TypedRoots.BoxedNegationExactlyWhen` |
| runtime/flatbuf.c:64, 70, 81-82; runtime/builtins.c:72-81 | An element of an unsigned 32-bit buffer is cast to a signed one when read: 2^31 comes back as -2^31. A negative number stored in an unsigned 64-bit buffer comes back as its value modulo 2^64: -1 as 2^64 - 1. A bigint is stored as its cell's header, its sign and limb count: 2^63 in an unsigned 64-bit buffer comes back as 8589934593, also when it was read from such a buffer. | `Shapes.UnsignedElementReadsNegative`, `FlatBuf.LeastBigIsLost`, `FlatBuf.CopiedElementIsLost`, exact condition `FlatBuf.StoredIntegerComesBack` |
| runtime/heap_gc.c:246-255 | Region 0 gives its first granule to the null offset; a first cell of exactly a region's size then ends one granule inside region 1, which the next claim hands out. | `Store.Store.Refill`, exact condition `Store.Store.Allocate` |
| runtime/flatbuf.c:93-94 | The product of the dimensions can leave its 64-bit word before a dimension of size zero: three dimensions of 2^31 - 1 and an empty one. With wrap-around the total is still right (`Shapes.WrappedFits`). | `Shapes.RunningCanOverflow`, exact condition `Shapes.RunningFitsExactly` |

## Model

| member | source | states |
|---|---|---|
| `Magnitude.Compare` | runtime/bigint.c:89-95 | the sign of the difference of the two limb arrays' numbers |
| `Magnitude.Add` | runtime/bigint.c:98-109 | the limbs written are exactly the sum, and from trimmed operands it has no leading zero; every 64-bit intermediate fits |
| `Magnitude.Sub` | runtime/bigint.c:112-122 | the limbs written are exactly the difference, trimmed; no borrow is left over when a >= b |
| `Magnitude.Mul` | runtime/bigint.c:126-141 | the limbs written are exactly the product, trimmed; each row's carry fits 64 bits |
| `Magnitude.DivModSmall` | runtime/bigint.c:146-154 | in place: old number = new number * d + remainder, remainder below d |
| `LongDivision.CountLeadingZeros` | runtime/bigint.c:158-166 | the shift that brings a nonzero limb's top bit to bit 31, and no other |
| `LongDivision.EstimateDigit` | runtime/bigint.c:216-225 | the corrected two-limb estimate passes the three-limb test: it is the quotient of the top three limbs by the top two, capped at a limb |
| `LongDivision.DigitBounds` | runtime/bigint.c:216-225 | for a normalized divisor that estimate is the true digit or one above it |
| `LongDivision.MulSub` | runtime/bigint.c:226-237 | subtracts digit * divisor from the window; the top limb is the signed overflow |
| `LongDivision.AddBack` | runtime/bigint.c:239-249 | adds the divisor back into the window, and the carry out of it |
| `LongDivision.DivideWindow` | runtime/bigint.c:214-251 | one digit: window = digit * divisor + remainder below the divisor, with at most one add-back |
| `LongDivision.DivideAll` | runtime/bigint.c:214-251 | all digits in place: dividend = quotient * divisor + what is left, which is below the divisor |
| `LongDivision.DivMod` | runtime/bigint.c:202-256 | algorithm D for every dividend and divisor it is called on: u = q*v + r and 0 <= r < v |
| `BigInt.CanonicalUnique` | runtime/bigint.c:66-85 | two canonical integers with one number are one representation |
| `BigInt.Canon` | runtime/bigint.c:68-85 | any sign and limbs become the one canonical value of that number: inline, boxed or trimmed bigint; over 128 limbs is the domain error |
| `BigInt.AddSub` | runtime/bigint.c:260-276 | the exact sum or difference of any two integers, canonical, or the domain error exactly beyond 128 limbs |
| `BigInt.MulBig` | runtime/bigint.c:278-287 | the exact product, canonical, or the domain error exactly beyond 128 limbs |
| `BigInt.CompareBig` | runtime/bigint.c:292-305 | the order of the numbers, whatever the representations |
| `BigInt.TruncatedUnique` | runtime/bigint.c:351-380 | a = q*b + r with |r| < |b| and r of a's sign determines q and r |
| `BigInt.DivModBig` | runtime/bigint.c:357-380 | truncating quotient or remainder, canonical, for every divisor but zero |
| `DynInt.AddValues` | runtime/builtins.c:150-170 | on any two integers the exact sum in narrowest form, tainted or secret exactly when an operand is; errors and non-integers are refused as the code does |
| `DynInt.SubValues` | runtime/builtins.c:171-191 | the same for the difference |
| `DynInt.MulValues` | runtime/builtins.c:192-212 | the same for the product, through all three tiers |
| `DynInt.DivValues` | runtime/builtins.c:213-243 | truncation toward zero on the whole tower; a zero divisor is the only failure, and the minimum over -1 is promoted |
| `DynInt.ModValues` | runtime/builtins.c:244-262 | the remainder of that division, with the dividend's sign |
| `DynInt.WrapValues` | runtime/builtins.c:269-301 | the wrapped result in 32 or 64 bits by the operands' tier; a bigint operand is a type error |
| `DynInt.OrderValues` | runtime/builtins.c:467-514 | `< <= > >=` hold exactly when the integers stand so, across tiers |
| `DynInt.EqualPayloads` | runtime/builtins.c:383-396 | equality of integers is equality of numbers, across tiers |
| `DynInt.EqValues` | runtime/builtins.c:455-466 | `==` and `!=` answer that equality with the operands' flags |
| `DynInt.EqualityIsIdentityOnCanonical` | runtime/builtins.c:383-396 | on canonical values equality is sameness of representation |
| `DynInt.I64RoundTrip` | runtime/builtins.c:308-319 | every i64 comes back from its box |
| `DynInt.U64Box` | runtime/builtins.c:338-342 | a raw u64 becomes the canonical integer of its magnitude |
| `DynInt.I64UnboxExact` | runtime/builtins.c:308-318 | unboxing gives an unflagged integer that an i64 holds, and 0 for everything else |
| `DynInt.U64UnboxExact` | runtime/builtins.c:349-364 | the same for a u64 |
| `Decimal.PeelDigits` | runtime/bigint.c:328-349 | repeated in-place division by 10^9 writes digits whose number is the original magnitude |
| `Decimal.ToDecimal` | runtime/bigint.c:328-349 | prints the unique decimal without leading zeros, or nothing exactly when it does not fit the buffer |
| `Decimal.SpellingUnique` | runtime/bigint.c:328-349 | a digit string without a leading zero is the only spelling of its number |
| `Decimal.FromDecimal` | runtime/bigint.c:411-437 | every well-spelled string gives the exact canonical integer; an empty or too long one the domain error; an ill-spelled one the type error, unless the digits before its first bad character already exceed 128 limbs |
| `Decimal.ParseDigits` | runtime/bigint.c:420-435 | digit by digit in place: the number so far, refused at the first bad character or when the limbs run out, whichever is first |
| `Decimal.DecimalRoundTrip` | runtime/bigint.c:328-437 | parsing what was printed gives the same canonical cell |
| `Decimal.TextFits` | runtime/jaclrt.h:446-447 | the standard buffer holds every bigint's text, its sign and its terminator: 1280 characters suffice |
| `Decimal.PrintAndParse` | runtime/bigint.c:328-437 | both operations run in sequence on the standard buffer return the cell they started from, for every bigint |
| `Quiesce.StepKeepsInv` | runtime/heap_gc.c:258-334 | every atomic step of every worker keeps the protocol invariant |
| `Quiesce.ExecutionKeepsInv` | runtime/heap_gc.c:622-685 | so every state of every interleaving of any number of workers has it |
| `Quiesce.StoppedWorld` | runtime/heap_gc.c:622-685 | while `stopped` is set one collector holds the lock, every other registered worker is parked for this epoch or cannot mutate before parking, and no violation is counted |
| `Quiesce.HeapStillWhileStopped` | runtime/heap_gc.c:215-223 | in that window no other worker's step changes shared state |
| `Quiesce.OneOwner` | runtime/heap_gc.c:622-650 | at most one worker is between taking and releasing the lock, and the lock word says whether one is |
| `Quiesce.EpochsMonotone` | runtime/heap_gc.c:304-334 | parked, requested and finished epochs never decrease along a run |
| `Quiesce.NoMissedWake` | runtime/heap_gc.c:322-333 | a waiting worker's epoch is never passed by `done`, and when they are equal its next test releases it |
| `Quiesce.CollectorNeverParks` | runtime/heap_gc.c:304-320 | the elected collector is never on the way to parking, handed off or not |
| `Quiesce.CanFinish` | runtime/heap_gc.c:663-685 | from every reachable state of a collection there is a run that finishes it: the protocol cannot deadlock |
| `Mark.Marker.ScanBack` | runtime/heap_gc.c:405-424 | an interior address resolves to the object whose start bit precedes it within the bounded scan, or to nothing |
| `HeapCells.ResolvesExactly` | runtime/heap_gc.c:405-424 | an address resolves to the live cell it lies in, when that is the nearest start at or below it and within 8192 granules, and to nothing else |
| `HeapCells.PointsExactly` | runtime/heap_gc.c:441-454 | tracing a node pushes exactly the cells some payload word is an address inside, under any tag byte or as it stands |
| `Mark.Marker.PushWord` | runtime/heap_gc.c:405-424 | marks the object a word resolves to and queues it, or notes an overflow |
| `Mark.Marker.Trace` | runtime/heap_gc.c:441-454 | pushes both readings of each payload word of a node |
| `Mark.Marker.DrainQueue` | runtime/heap_gc.c:483-484 | empties the stack; what was traced and not dropped is closed under pointers |
| `Mark.Marker.Rescan` | runtime/heap_gc.c:465-480 | repeats passes over the heap until none overflows; terminates because each adds a mark |
| `Mark.Marker.Drain` | runtime/heap_gc.c:483-486 | with any stack capacity, ends with the marks closed under pointers |
| `Mark.Marker.MarkAll` | runtime/heap_gc.c:536-544 | the marked objects are exactly those a chain of pointers reaches from the scanned roots, despite dropped pushes |
| `Store.Store.constructor` | runtime/heap_gc.c:146-166 | the empty heap has the layout invariant |
| `Store.Store.Grab` | runtime/heap_gc.c:178-204 | a claim takes the first run of handed-back regions, else fresh ones, all empty and owned by the caller; it fails exactly when there is neither, and gives back what it took |
| `Store.Store.TakeBack` | runtime/heap_gc.c:184-197 | the scan finds the first handed-back run of that length, if there is one, and leaves every other region as it was |
| `Store.Store.Allocate` | runtime/heap_gc.c:215-256 | from the exact-size list, else the bump area, else a claim; it answers 0 exactly when all three fail, or for a first-ever large cell; the new cell overlaps no live one and nothing else changes; the layout survives exactly when the cell is not the first one ever and of a region's size |
| `Store.Store.Refill` | runtime/heap_gc.c:246-255 | the refill step, with the failing case: a cell from granule 1 whose last granule is in region 1 |
| `HeapView.SpanLeast` | runtime/heap_gc.c:179-181 | a claim asks for the least number of regions that hold the cell |
| `HeapView.RefillFitsExactly` | runtime/heap_gc.c:246-255 | a refilled cell ends inside its region except a region-sized one in region 0 |
| `HeapView.TakeKeeps` | runtime/heap_gc.c:178-204 | claiming empty regions keeps cells, bump areas and free lists intact |
| `HeapView.PopKeeps` | runtime/heap_gc.c:228-234 | reusing the front cell of an exact-size list keeps every list exact |
| `Store.Store.Release` | runtime/heap_gc.c:490-499 | handed-back regions hold no start bit and no worker bumps in them |
| `Store.Store.FreeDead` | runtime/heap_gc.c:565-580 | in one region exactly the unmarked cells become free; the counts say whether any lives or died |
| `Store.Store.Sweep` | runtime/heap_gc.c:545-594 | marked cells are untouched, every other is free or gone, the free lists hold exactly the free cells of the kept regions once each, and no kept region but region 0 is empty |
| `Store.Store.Collect` | runtime/heap_gc.c:512-595 | after a collection the live cells are exactly those that were live and reachable from the scanned roots, each as it was; so every cell a scanned root or a surviving node holds an address inside, tagged or not, survives |
| `Regions.StepKeepsInv` | runtime/heap_gc.c:178-204 | every atomic step of a claim keeps each region in one status that the program's words agree with |
| `Regions.SweepKeepsInv` | runtime/heap_gc.c:490-499 | so does a sweep that hands back any claimed regions while no claim is in progress |
| `Regions.EveryStateConsistent` | runtime/heap_gc.c:174-204 | in every interleaving of claims and sweeps each region is beyond the cursor, pooled, being claimed by one worker, owned, or lost until a sweep |
| `Regions.ClaimsDisjoint` | runtime/heap_gc.c:189-196 | two claims never hold one region |
| `Regions.NothingHalfTaken` | runtime/heap_gc.c:189-197 | with no claim in progress nothing is half taken |
| `Regions.FinishedClaimOwns` | runtime/heap_gc.c:193-196 | a returning claim owns adjacent regions below the cursor, owner bytes written |
| `Regions.OwnedUntilSweep` | runtime/heap_gc.c:174-204 | what a worker owns no interleaving of claims takes from it before a sweep |
| `Regions.SoloClaim` | runtime/heap_gc.c:178-204 | from any reachable state, whatever other claims are in the middle of, a claim that runs alone ends: with the first pooled run, else with the regions at the cursor, else with nothing, and it succeeds exactly when one of them is there |
| `LoweringLocal.CompileGrows` | codegen/codegen.c:472-531 | lowering any form appends block-local code, fills every block it opens and leaves the frame's shape |
| `LoweringLocal.TailCloses` | codegen/codegen.c:6133-6247 | lowering in tail position ends every path it opens, and its code is block-local |
| `LoweringLocal.ProcIsBlockLocal` | codegen/codegen.c:742-764 | a compiled body is block-local: each operand is a parameter or earlier result of its own block, each edge carries its target's frame, each block ends |
| `LoweringLocal.NeverGoesWrong` | codegen/codegen.c:742-764 | running it never reaches a missing operand, block or terminator |
| `Source.BareWords` | codegen/codegen.c:11-14 | `true`, `false` and `nil` as words, and which words are true |
| `Source.ErrorStatements` | codegen/codegen.c:3022-3038 | an error value ends a block early exactly when its statement is no binding and not the last |
| `Lowering.BareForms` | codegen/codegen.c:11-14 | the bare words lower to those constants |
| `Compilable.DefineExactly` | codegen/codegen.c:457-470 | a name is refused exactly when it is not `_` and its scope already has it, immutable |
| `Compilable.BindExactly` | codegen/codegen.c:457-470 | a binding statement is accepted exactly when its name may be bound or set, and leaves that name live last |
| `Compilable.CompilesExactly` | codegen/codegen.c:472-531 | lowering succeeds exactly on the expressions whose names are bound, whose jumps are in loops, whose folds have two operands and whose frames are at most 256 wide where they fork |
| `Compilable.TailExactly` | codegen/codegen.c:6133-6247 | the same in tail position, where a direct return drops the statements after it |
| `Compilable.ProcExactly` | codegen/codegen.c:6469-6578 | a proc compiles exactly when its parameters are at most 64 and distinct but for `_`, and its body does among them |
| `GuardRuns.FastPathAlone` | codegen/codegen.c:1851-1955 | on plain i32s with an inline answer the guard's word is the machine's own, whatever the runtime would answer |
| `GuardRuns.GuardedRun` | codegen/codegen.c:1851-1955 | for every operator and every pair of well-formed words the guard's diamond yields the plain runtime call's word, on the fast, overflow and slow paths |
| `LoweringCorrect.Sim` | codegen/codegen.c:472-531 | simulation: from a frame equal to the source environment, the emitted code ends in a frame equal to the new environment with the source value, or leaves by the edge the source's break, continue, error or return takes |
| `LoweringCorrect.FoldSim` | codegen/codegen.c:4845-4864 | the pinned fold computes the left-to-right fold |
| `LoweringCorrect.LoopSim` | codegen/codegen.c:2442-2479 | the loop's blocks compute its unrolling, for any number of rounds |
| `Lowering.TailForms` | codegen/codegen.c:6176-6178 | in tail position an `if` with its `elif`s forks into arms that return; a short circuit is compiled for its value |
| `LoweringCorrect.TailSim` | codegen/codegen.c:6133-6247 | in tail position every path returns what the source gives there: the arms of an if without a join, a direct return and the statements it drops, the last statement, an error that escapes |
| `LoweringCorrect.CompiledMeansSource` | codegen/codegen.c:6469-6578 | every proc the syntax allows compiles, and its code returns w exactly when the source body evaluates to w: neither side finishes, fails or diverges alone |
| `Emitter.Cx.CompileExpr` | codegen/codegen.c:5833-5841 | the mutable context's lowering of a node is the specified one, and its permissions and targets are restored |
| `Emitter.Cx.BinopGuarded` | codegen/codegen.c:1874-1955 | the guard as emitted instruction by instruction |
| `Emitter.Cx.IfChain` | codegen/codegen.c:2348-2400 | the conditional as emitted |
| `Emitter.Cx.Loop` | codegen/codegen.c:2442-2479 | the loop as emitted, its targets saved and restored |
| `Emitter.Cx.TryForm` | codegen/codegen.c:3510-3555 | the try as emitted, its target saved and restored |
| `Emitter.Cx.Operands` | codegen/codegen.c:512-523 | operands pinned across one another as emitted |
| `Emitter.Cx.ErrorBranchIf` | codegen/codegen.c:2991-3020 | the error edge as emitted, to the handler or out |
| `Emitter.Cx.Lookup` | codegen/codegen.c:299-303 | the most recent binding of a name |
| `Emitter.Cx.Define` | codegen/codegen.c:457-470 | a new slot, unless that very name is immutable in its scope already and not `_` |
| `Emitter.Cx.DefineParams` | codegen/codegen.c:6493-6526 | the parameters as immutable bindings, refused exactly when a name but `_` is repeated |
| `Emitter.Cx.CompileTail` | codegen/codegen.c:6133-6247 | a body as emitted in tail position, its scopes left as they were found |
| `Emitter.Cx.IfTail` | codegen/codegen.c:6098-6131 | the conditional whose arms return |
| `Emitter.Cx.TailStatements` | codegen/codegen.c:6156-6175 | a block's statements, ended by a direct return among them |
| `Emitter.CompileFunction` | codegen/codegen.c:6469-6578 | compiling in one mutable context succeeds exactly on the procs the syntax allows, and gives complete block-local code that returns exactly what the source body gives, on every host and for all arguments |
| `GuardHost.RunTower` | runtime/builtins.c:118-301 | each operator's runtime function is the tower's operation |
| `GuardHost.NamesDenote` | codegen/codegen.c:28-46 | which operation of the tower each runtime function is, by its name |
| `GuardHost.TowerIsHost` | codegen/codegen.c:1851-1873 | a host answering plain i32s as the tower does meets what lowering assumes of the runtime |
| `GuardHost.TowerHostExists` | codegen/codegen.c:1851-1873 | such a host exists |
| `TypedArith.OpRuns` | codegen/codegen.c:1138-1162 | one typed operator at each of the four widths: the word is exact or the sticky bit rises |
| `TypedArith.I32DivRemRuns` | codegen/codegen.c:959-986 | branchless 32-bit division never traps, and reports a zero divisor and the minimum over -1 |
| `TypedArith.I64DivRemRuns` | codegen/codegen.c:1107-1136 | the same at 64 bits |
| `TypedArith.UintDivRemRuns` | codegen/codegen.c:1306-1318 | unsigned division with the divisor steered around zero |
| `TypedRoots.NegationsAreDropped` | codegen/codegen.c:1014-1040 | lowering emits nothing for a one-operand minus, anywhere in a typed tree |
| `TypedRoots.AnyTreeRuns` | codegen/codegen.c:1175-1193 | every typed tree at every width computes what the tree without its one-operand minuses means |
| `TypedRoots.RightExactlyWhen` | codegen/codegen.c:1404-1423 | every typed tree is lowered rightly exactly when that tree and its stripped form have the same exact meaning on the operands; a tree without such minuses always is |
| `TypedRoots.RootNegation` | codegen/codegen.c:1014-1040 | for a minus at the root that is when its operand is zero or fails by itself |
| `TypedRoots.NegationIsLost` | codegen/codegen.c:1014-1040 | `[- 5]` in a typed tree is lowered as 5 |
| `TypedRoots.NestedNegationIsLost` | codegen/codegen.c:1014-1040 | `[+ n [- 5]]` is lowered wrongly for every n |
| `TypedRoots.BoxedRuns` | codegen/codegen.c:1459-1475 | a boxed tree at i32, u32 or u64 is the box of the exact result or an error-flagged word |
| `TypedRoots.NegateBoxed` | codegen/codegen.c:4819-4825 | a one-operand minus on a boxed value is the runtime's exact 0 - x, promoted as it must be |
| `TypedRoots.BoxedNegationExactlyWhen` | codegen/codegen.c:4819-4825 | that gives the typed meaning exactly when the operand failed or its negation is of the type |
| `TypedRoots.BoxedNegationEscapes` | codegen/codegen.c:4819-4825 | the least i32 negated at a boxed root is 2^31 without an error flag |
| `TypedRoots.ComparesNumbers` | codegen/codegen.c:1610-1621 | the machine comparison chosen for each operator and type is the order of the numbers |
| `TypedRoots.ComparisonRuns` | codegen/codegen.c:1627-1653 | a typed comparison is the boolean of the exact operands' order, or an error-flagged word when an operand has no exact value |
| `TypedRoots.RawRootBranches` | codegen/codegen.c:1235-1248 | a raw root at any width goes on with the exact word in its slot's form, or leaves by the error edge with the error-flagged plain 0 |
| `RawReturn.ReturnRuns` | codegen/codegen.c:6079-6096 | a tagged return becomes (0, the word with the error flag) when any flag is set, else (its raw word, 0) |
| `RawReturn.AdapterRuns` | codegen/codegen.c:6551-6576 | the boxed adapter gives the error word when there is one, else the value boxed |
| `RawReturn.SplitAndRecombine` | codegen/codegen.c:1796-1824 | split and recombined: the value word is 0 whenever the error word is not, and the result is the word or its box |
| `RawReturn.IntegersComeBack` | codegen/codegen.c:1809-1824 | every unflagged integer in range comes back as a canonical word of the same number, at each width |
| `RawReturn.CrossingExists` | codegen/codegen.c:1809-1824 | the runtime crossing that asks for can be met for every such number |
| `RawReturn.FlaggedComeBack` | codegen/codegen.c:6079-6096 | every flagged word comes back as itself with the error flag set |
| `Leb.UlebRoundTrip` | codegen/irbuilder.c:611-618 | every unsigned number is read back from its LEB128 bytes and what follows is untouched |
| `Leb.SlebRoundTrip` | codegen/irbuilder.c:620-628 | the same for signed numbers |
| `Leb.LebInjective` | codegen/irbuilder.c:611-628 | different numbers have different bytes |
| `Leb.UlebBytes` | codegen/irbuilder.c:611-618 | byte i is the i-th group of seven bits, low first, with the top bit on all but the last |
| `Leb.SlebBytes` | codegen/irbuilder.c:620-628 | the same for the two's complement |
| `Leb.SlebLength` | codegen/irbuilder.c:620-628 | k bytes hold exactly the numbers from -64 * 128^(k-1) up to 64 * 128^(k-1): no spelling is longer than it must be |
| `Leb.UlebLength` | codegen/irbuilder.c:611-618 | k bytes hold exactly the numbers below 128^k |
| `Wire.InstRoundTrip` | codegen/irbuilder.c:751-804 | every instruction is read back from its bytes, but for its alignment |
| `Wire.TermRoundTrip` | codegen/irbuilder.c:806-822 | every terminator is read back |
| `Wire.OpcodesOverlap` | codegen/irbuilder.c:770-773 | a store and a tail call can begin with the same byte: position tells them apart |
| `Wire.FuncRoundTrip` | codegen/irbuilder.c:824-840 | a function is read back from its bytes alone and the encoding ends where it says |
| `ModuleWire.ModuleRoundTrip` | codegen/irbuilder.c:842-964 | a whole module is rebuilt from its bytes, the decoder learning both tables from the stream |
| `ModuleWire.Container` | codegen/irbuilder.c:868-964 | magic, kind, version 16, flags and sections in their order; kind 1 and an object's sections exactly when some instruction takes an address in the unit's own data |
| `Intern.FirstEncounterOrder` | codegen/irbuilder.c:660-664 | entries are numbered in order of first mention, once each |
| `Intern.TablesAreFirsts` | codegen/irbuilder.c:843-864 | after the first pass each table is the module's mentions in that order |
| `Intern.VisitAllKnows` | codegen/irbuilder.c:843-864 | every instruction then finds its entries at the indices it was first given |
| `Intern.SecondPassAppendsNothing` | codegen/irbuilder.c:824-840 | interning again while writing changes neither table |
| `HashIndex.FreeSlot` | codegen/irbuilder.c:700-712 | below three quarters full some slot is free |
| `HashIndex.Interner.Probe` | codegen/irbuilder.c:706-713 | probing meets the item or a free slot, and a free slot means the item is absent |
| `HashIndex.Interner.InternItem` | codegen/irbuilder.c:700-749 | the index and the list of a linear first-encounter scan, for any hash function, across the switch at three quarters |
| `Writer.Out.PutUleb` | codegen/irbuilder.c:611-618 | the loop appends exactly the specified bytes |
| `Writer.Out.PutSleb` | codegen/irbuilder.c:620-628 | the loop appends exactly the specified bytes |
| `Writer.PutInst` | codegen/irbuilder.c:751-804 | appends the instruction's encoding under the tables it leaves |
| `Writer.PutFunc` | codegen/irbuilder.c:824-840 | appends the function's encoding and leaves both tables alone |
| `Writer.MeetFuncs` | codegen/irbuilder.c:847-864 | the first pass fills the tables as specified and finds link-form addresses |
| `Writer.Encode` | codegen/irbuilder.c:842-973 | the two-pass encoder writes exactly the specified bytes whatever the hash functions |
| `Shapes.PathOfLeaf` | runtime/flatbuf.c:48-54 | every leaf of any shape has an index path that reaches it |
| `Shapes.LeafOfPath` | runtime/flatbuf.c:48-54 | every in-range path reaches one leaf below the total, and is that leaf's path |
| `Shapes.DistinctPathsDistinctLeaves` | runtime/flatbuf.c:48-54 | different paths reach different leaves |
| `Shapes.LeafSplit` | runtime/flatbuf.c:108-126 | descending in two steps is descending at once |
| `Shapes.RunningFitsExactly` | runtime/flatbuf.c:93-94 | no running product of the dimensions leaves 64 bits exactly when the product before the first empty dimension does not |
| `Shapes.RunningFitsUnlessEmpty` | runtime/flatbuf.c:93-94 | a non-empty total that fits bounds every running product of the dimensions |
| `Shapes.WrappedFits` | runtime/flatbuf.c:93-94 | a total that fits 64 bits is right whatever wrapped around on the way |
| `Shapes.RunningCanOverflow` | runtime/flatbuf.c:93-94 | a running product can overflow before an empty dimension makes the total zero |
| `Shapes.StoredComesBack` | runtime/flatbuf.c:57-87 | the bytes of a number read back as that number exactly when the code's reader can show it, and otherwise as one with the same low bits |
| `Shapes.ElementTable` | runtime/flatbuf.c:31-34 | each code's size and the numbers its reader can show |
| `Shapes.SpreadBytes` | runtime/flatbuf.c:77-86 | a stored number's bytes are little-endian |
| `Shapes.UnsignedElementReadsNegative` | runtime/flatbuf.c:64-64 | 2^31 in an unsigned 32-bit element reads back as -2^31 |
| `Shapes.PokePeek` | runtime/flatbuf.c:76-87 | a write is seen at its own leaf and at no other |
| `FlatBuf.StoredIntegerComesBack` | runtime/flatbuf.c:57-86 | an integer stored in an element of any integer code is the integer read back exactly when it is not a bigint and lies in the reader's range |
| `FlatBuf.IntegersThatComeBack` | runtime/flatbuf.c:57-86 | the same as a range of numbers for each code |
| `FlatBuf.HeaderReads` | runtime/builtins.c:72-81 | a bigint stored in an i64 element reads as its limb count times 2^32 plus its sign, 1 or 2^32 - 1 |
| `FlatBuf.CopiedElementIsLost` | runtime/builtins.c:72-81 | a u64 element with its top bit set, read and stored again, becomes 8589934593 |
| `FlatBuf.LeastBigIsLost` | runtime/builtins.c:72-81 | 2^63 is in a u64 element's range and comes back as 8589934593 |
| `FlatBuf.View.constructor` | runtime/flatbuf.c:88-107 | a fresh zeroed blob of the clamped shape, at base 0, for every shape whose bytes fit, whatever its running products do |
| `FlatBuf.View.Row` | runtime/flatbuf.c:108-126 | a sub-view shares the blob, at the base its row begins at; the position fits 32 bits |
| `FlatBuf.Get` | runtime/flatbuf.c:167-177 | the element's value for every code, or the row's view; outside, nil for a scalar row and an error for a nested one |
| `FlatBuf.Set` | runtime/flatbuf.c:178-186 | for every value and code: writes that leaf's bytes and no others, or refuses and writes nothing |
| `FlatBuf.Copy` | runtime/flatbuf.c:145-154 | the same shape and leaves in a blob of its own |
| `FlatBuf.Fetch` | runtime/flatbuf.c:167-177 | reading through any chain of sub-views shows the leaf of the whole path |
| `FlatBuf.WriteShowsThrough` | runtime/flatbuf.c:12-17 | through two views of one blob a write shows exactly when both paths reach the same leaf; every other leaf shows what it did |
| `FlatBuf.CopyStaysApart` | runtime/flatbuf.c:145-154 | a copy goes on showing what the original showed after the original is written |

## Left out

- Store.Store.Allocate: one allocation is one step; the interleaving of concurrent claims is the subject of `Regions`. The retry loop around it, and the trap on exhaustion, are not modelled.
- TypedArith.OpRuns: operands are those that stay in their block; an operand that moves the emission point, and so a pinned accumulator, is modelled only in the dynamic fold. These lowerings are functions on instruction lists, not the mutable context.
- TypedRoots.ComparisonRuns: for operands that stay in their block, as above.
- FlatBuf.Set: the conversions of a number to the two float formats, and the word at the start of a cell that is no integer's, are parameters of the machine.
- FlatBuf.View.constructor: a blob's size fits a positive 32-bit integer, and a 64-bit multiplication wraps around; a header's word slots are fields.
- Emitter.CompileFunction: no proc call, so no tail call; no trace push, which calls the runtime and changes no value; parameters are names, passed in tagged form.
- Emitter.Cx.ErrorBranchIf: the pair a raw entry returns on this edge is not modelled; `RawReturn.ReturnRuns` is the pair a raw entry returns elsewhere.
- Emitter.Cx.Define: the rebinding the outermost module scope allows is not modelled; bodies here are those of procs.
- Source.Literal: a literal beyond an i64 goes to the runtime as its digits (codegen/codegen.c:443-456), which is not modelled in the lowering; `Decimal.FromDecimal` is what the runtime does with them.
- RawReturn.IntegersComeBack: the runtime's answers for the one number in hand are a hypothesis, met by `RawReturn.CrossingExists`; allocation of the box is not modelled.
- Quiesce.StoppedWorld: epochs do not wrap around; a wait may end at any time; atomics are sequentially consistent.
- Mark.Marker.MarkAll: root words beyond the first 8192 and resolutions farther than 8192 granules are out of reach in the source too; runtime-internal roots are not modelled.
- Source language: bindings only as block statements; no for-loops, closures, captured cells, globals, tail calls, `break` with a value, or raw bindings. A runtime call is a function of its name and its words: addresses of fresh cells and effects on them are not modelled. Operands are evaluated left to right. Every runtime answer is assumed well tagged.
- A call's handle constant is modelled; how the host binds it is not.
- Arity and other compile errors beyond those of the modelled forms.
- Floats, strings, collections, structures, macros and printing.
- Pointers into buffers (`addr`, flat pointers) and the byte-string view of a buffer.
- The text form of the IR, and the debug section, which the encoder never writes.
- Wait, notify, fibers and vCPUs as mechanisms; the scheduler's own code is not part of this model.
- Memory exhaustion and growth of the C arrays: lists that grow in the source are sequences here.
- The hash functions of the intern tables, which may be any functions here.
