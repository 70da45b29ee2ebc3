/** Cells of the runtime heap (runtime/heap_gc.c): 16-byte granules, a start bit for each cell,
    a header, and payload words that may or may not be pointers. */
module HeapCells {
  import opened MachineWords

  const GRANULE := 16
  const INTERIOR_SCAN_GRANULES := 8192

  /** JOBJ_FREE, JOBJ_BLOB (no outgoing pointers), JOBJ_NODE and JOBJ_FUNC. */
  datatype Kind = FreeCell | Blob | Node | Func

  /** A cell's header without its mark byte, and its payload as 8-byte words. */
  datatype Cell = Cell(size: nat, kind: Kind, words: seq<u64>)

  datatype Option<T> = None | Some(value: T)

  /** The granule of the nearest start bit at or below g, not looking below limit. */
  function NearestStart(start: seq<bool>, g: nat, limit: nat): (r: Option<nat>)
    requires limit <= g < |start|
    ensures r.Some? ==> limit <= r.value <= g && start[r.value] && forall k :: r.value < k <= g ==> !start[k]
    ensures r.None? ==> forall k :: limit <= k <= g ==> !start[k]
  {
    if start[g] then Some(g) else if g == limit then None else NearestStart(start, g - 1, limit)
  }

  function ScanLimit(g: nat): (l: nat)
    ensures l <= g
  {
    if g > INTERIOR_SCAN_GRANULES then g - INTERIOR_SCAN_GRANULES else 0
  }

  /** The live cell a word points into, interior pointers included; lo is the heap's base address. */
  function Resolve(start: seq<bool>, cells: seq<Cell>, lo: int, word: int): (r: Option<nat>)
    requires |start| == |cells|
    ensures r.Some? ==> r.value < |start| && start[r.value] && !cells[r.value].kind.FreeCell?
  {
    if word < lo || word >= lo + GRANULE * |start| then None
    else
      var off := word - lo;
      var g := off / GRANULE;
      match NearestStart(start, g, ScanLimit(g))
      case None => None
      case Some(s) =>
        if off >= GRANULE * s + cells[s].size || cells[s].kind.FreeCell? then None else Some(s)
  }

  /** The cast `(long)w`. */
  function AsLong(w: u64): int {
    if w < 0x8000_0000_0000_0000 then w as int else w as int - 0x1_0000_0000_0000_0000
  }

  /** `w & JACL_PAYLOAD_MASK`: the top byte cleared. */
  function Untagged(w: u64): int {
    (w % 0x100_0000_0000_0000) as int
  }

  predicate Traced(c: Cell) {
    c.kind.Node? || c.kind.Func?
  }

  /** h is a cell that tracing g's payload pushes. */
  ghost predicate Points(start: seq<bool>, cells: seq<Cell>, lo: int, g: nat, h: nat)
    requires |start| == |cells|
  {
    && g < |cells| && Traced(cells[g])
    && exists k :: 0 <= k < |cells[g].words| && PointsFrom(start, cells, lo, cells[g].words[k], h)
  }

  predicate PointsFrom(start: seq<bool>, cells: seq<Cell>, lo: int, w: u64, h: nat)
    requires |start| == |cells|
  {
    Resolve(start, cells, lo, Untagged(w)) == Some(h) || Resolve(start, cells, lo, AsLong(w)) == Some(h)
  }

  /** The address a lies inside the live cell h, whose start is the nearest one at or below a and within the scan. */
  ghost predicate Names(start: seq<bool>, cells: seq<Cell>, lo: int, a: int, h: nat)
    requires |start| == |cells|
  {
    && lo <= a < lo + 16 * |start| && h < |start| && start[h] && !cells[h].kind.FreeCell?
    && lo + 16 * h <= a < lo + 16 * h + cells[h].size
    && (a - lo) / 16 - h <= 8192 && forall x :: h < x <= (a - lo) / 16 ==> !start[x]
  }

  /** Some root word is an address inside h. */
  ghost predicate RootNames(start: seq<bool>, cells: seq<Cell>, lo: int, roots: seq<int>, h: nat)
    requires |start| == |cells|
  {
    exists i :: 0 <= i < |roots| && Names(start, cells, lo, roots[i], h)
  }

  lemma ResolvesExactly(start: seq<bool>, cells: seq<Cell>, lo: int, a: int, h: nat)
    requires |start| == |cells|
    ensures Resolve(start, cells, lo, a) == Some(h) <==> Names(start, cells, lo, a, h)
  {
  }

  /** w is the tag byte t over the 56 bits a. */
  predicate Splits(w: int, t: int, a: int) {
    0 <= t < 0x100 && 0 <= a < 0x100_0000_0000_0000 && w == t * 0x100_0000_0000_0000 + a
  }

  /** The word t * 2^56 + a as a signed number. */
  function SignedWord(t: int, a: int): int {
    (if t < 0x80 then t else t - 0x100) * 0x100_0000_0000_0000 + a
  }

  ghost predicate EitherNames(start: seq<bool>, cells: seq<Cell>, lo: int, t: int, a: int, h: nat)
    requires |start| == |cells|
  {
    Names(start, cells, lo, a, h) || Names(start, cells, lo, SignedWord(t, a), h)
  }

  /** A word is an address inside h: under some tag byte, or as it stands, read as signed. */
  ghost predicate WordNames(start: seq<bool>, cells: seq<Cell>, lo: int, w: u64, h: nat)
    requires |start| == |cells|
  {
    exists t, a :: Splits(w as int, t, a) && EitherNames(start, cells, lo, t, a, h)
  }

  /** Some payload word of g is an address inside h. */
  ghost predicate HoldsAddress(start: seq<bool>, cells: seq<Cell>, lo: int, g: nat, h: nat)
    requires |start| == |cells|
  {
    && g < |cells| && (cells[g].kind == Node || cells[g].kind == Func)
    && exists k :: 0 <= k < |cells[g].words| && WordNames(start, cells, lo, cells[g].words[k], h)
  }

  lemma TagApart(w: u64, t: int, a: int)
    requires Splits(w as int, t, a)
    ensures Untagged(w) == a && AsLong(w) == SignedWord(t, a)
  {
  }

  lemma WordExactly(start: seq<bool>, cells: seq<Cell>, lo: int, w: u64, h: nat)
    requires |start| == |cells|
    ensures PointsFrom(start, cells, lo, w, h) <==> WordNames(start, cells, lo, w, h)
  {
    hide Resolve, Names, Untagged, AsLong, SignedWord;
    var t, a := w as int / 0x100_0000_0000_0000, w as int % 0x100_0000_0000_0000;
    assert Splits(w as int, t, a);
    TagApart(w, t, a);
    ResolvesExactly(start, cells, lo, a, h);
    ResolvesExactly(start, cells, lo, SignedWord(t, a), h);
    assert PointsFrom(start, cells, lo, w, h) ==> EitherNames(start, cells, lo, t, a, h);
    if WordNames(start, cells, lo, w, h) {
      var u, b :| Splits(w as int, u, b) && EitherNames(start, cells, lo, u, b, h);
      TagApart(w, u, b);
      ResolvesExactly(start, cells, lo, b, h);
      ResolvesExactly(start, cells, lo, SignedWord(u, b), h);
    }
  }

  /** What tracing pushes is what the payload holds addresses of. */
  lemma PointsExactly(start: seq<bool>, cells: seq<Cell>, lo: int, g: nat, h: nat)
    requires |start| == |cells|
    ensures Points(start, cells, lo, g, h) <==> HoldsAddress(start, cells, lo, g, h)
  {
    hide PointsFrom, WordNames;
    if g < |cells| {
      forall k | 0 <= k < |cells[g].words|
        ensures PointsFrom(start, cells, lo, cells[g].words[k], h) <==> WordNames(start, cells, lo, cells[g].words[k], h)
      {
        WordExactly(start, cells, lo, cells[g].words[k], h);
      }
    }
  }

  /** A chain of cells from one a root word resolves to. */
  ghost predicate Chain(start: seq<bool>, cells: seq<Cell>, lo: int, roots: seq<int>, path: seq<nat>)
    requires |start| == |cells|
  {
    && path != []
    && (exists k :: 0 <= k < |roots| && Resolve(start, cells, lo, roots[k]) == Some(path[0]))
    && forall i {:trigger path[i]} :: 0 <= i < |path| - 1 ==> Points(start, cells, lo, path[i], path[i + 1])
  }

  ghost predicate Reachable(start: seq<bool>, cells: seq<Cell>, lo: int, roots: seq<int>, g: nat)
    requires |start| == |cells|
  {
    exists path :: Chain(start, cells, lo, roots, path) && path[|path| - 1] == g
  }
}
