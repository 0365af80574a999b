/** Allocator::allocate: 64-byte aligned blocks out of regions obtained from the global pool. */
module WorkerAllocator {

  import opened Numbers
  import opened Ranges

  /** The fields of a worker's allocator, the regions the pool has handed to it, and the blocks it has
      handed out. */
  datatype Worker = Worker(allocSize: nat, start: nat, free: nat, regions: seq<Range>, blocks: seq<Range>)

  const INITIAL: Worker := Worker(1024 * 1024 * 2, 0, 0, [], [])

  /** Bytes skipped so that the next block is aligned. */
  function Gap(start: nat): nat { 64 - start % 64 }

  lemma AlignUp(a: nat)
    ensures (a + Gap(a)) % 64 == 0 && 0 < Gap(a) <= 64
  {}

  ghost predicate Ok(w: Worker) {
    && PairwiseDisjoint(w.regions) && PairwiseDisjoint(w.blocks)
    && (forall k :: 0 <= k < |w.blocks| ==> InRegion(w, w.blocks[k]))
    && (forall k :: 0 <= k < |w.blocks| ==> w.blocks[k].at % 64 == 0)
    && if w.regions == [] then w.free == 0
       else
         && Within(Range(w.start, w.free), w.regions[|w.regions| - 1])
         && forall k :: 0 <= k < |w.blocks| ==> Disjoint(w.blocks[k], Range(w.start, w.free))
  }

  ghost predicate InRegion(w: Worker, b: Range) {
    exists r :: 0 <= r < |w.regions| && Within(b, w.regions[r])
  }

  /** The pool's promise: a new region overlaps none that it has handed out before. */
  ghost predicate NewRegion(w: Worker, r: Range) {
    AllDisjoint(w.regions, [r])
  }

  /** How many bytes allocate(size) takes from the pool, 0 if the current region suffices. */
  function Refill(w: Worker, size: nat): nat {
    var padded := size + Gap(w.start);
    if w.free < padded then Max(w.allocSize * 2, padded + 64) else 0
  }

  /** A region of allocSize bytes at the address that the pool returned. */
  function TakeRegion(w: Worker, source: nat): Worker {
    w.(start := source, free := w.allocSize, regions := w.regions + [Range(source, w.allocSize)])
  }

  /** A block of `size` bytes, the first aligned one; the block and `extra` bytes are used up. */
  function Cut(w: Worker, size: nat, extra: nat): Worker
    requires size + Gap(w.start) + extra <= w.free
  {
    var used := size + Gap(w.start) + extra;
    w.(start := w.start + used, free := w.free - used, blocks := w.blocks + [Range(w.start + Gap(w.start), size)])
  }

  /** allocate(size), the pool returning `source` if it is asked for a new region.  After a refill the
      gap of the old region is used up together with that of the new one. */
  function Allocated(w: Worker, size: nat, source: nat): Worker {
    var refill := Refill(w, size);
    if refill == 0 then
      Cut(w, size, 0)
    else
      Cut(TakeRegion(w.(allocSize := refill), source), size, Gap(w.start))
  }

  lemma TakeRegionKeepsOk(w: Worker, source: nat)
    requires Ok(w) && NewRegion(w, Range(source, w.allocSize))
    ensures Ok(TakeRegion(w, source))
  {
    var r, w' := Range(source, w.allocSize), TakeRegion(w, source);
    forall k | 0 <= k < |w.blocks|
      ensures InRegion(w', w.blocks[k]) && Disjoint(w.blocks[k], r)
    {
      var j :| 0 <= j < |w.regions| && Within(w.blocks[k], w.regions[j]);
      assert Disjoint(w.regions[j], [r][0]);
      assert w'.regions[j] == w.regions[j];
    }
  }

  lemma CutKeepsOk(w: Worker, size: nat, extra: nat)
    requires Ok(w) && w.regions != [] && size + Gap(w.start) + extra <= w.free
    ensures Ok(Cut(w, size, extra))
  {
    hide Gap;
    AlignUp(w.start);
    var w' := Cut(w, size, extra);
    assert Within(w'.blocks[|w.blocks|], w.regions[|w.regions| - 1]);
    forall k | 0 <= k < |w.blocks|
      ensures InRegion(w', w.blocks[k])
    {
      assert InRegion(w, w.blocks[k]);
    }
  }

  /** A block is returned, aligned, inside the regions and apart from all earlier blocks; free bytes
      never go below zero. */
  lemma AllocateKeepsOk(w: Worker, size: nat, source: nat)
    requires Ok(w) && (Refill(w, size) > 0 ==> NewRegion(w, Range(source, Refill(w, size))))
    ensures var w' := Allocated(w, size, source);
      && Ok(w') && |w'.blocks| == |w.blocks| + 1 && w'.blocks[..|w.blocks|] == w.blocks
      && w'.blocks[|w.blocks|].size == size && w'.blocks[|w.blocks|].at % 64 == 0
  {
    hide Ok, Gap, NewRegion;
    AlignUp(w.start);
    var refill := Refill(w, size);
    if refill == 0 {
      EmptyHasNothing(w);
      CutKeepsOk(w, size, 0);
    } else {
      OtherSize(w, refill, source);
      TakeRegionKeepsOk(w.(allocSize := refill), source);
      AlignUp(source);
      CutKeepsOk(TakeRegion(w.(allocSize := refill), source), size, Gap(w.start));
    }
    LastAligned(Allocated(w, size, source));
  }

  lemma EmptyHasNothing(w: Worker)
    requires Ok(w)
    ensures w.regions == [] ==> w.free == 0
  {}

  lemma OtherSize(w: Worker, n: nat, source: nat)
    requires Ok(w) && NewRegion(w, Range(source, n))
    ensures Ok(w.(allocSize := n)) && NewRegion(w.(allocSize := n), Range(source, n))
  {}

  lemma LastAligned(w: Worker)
    requires Ok(w) && |w.blocks| > 0
    ensures w.blocks[|w.blocks| - 1].at % 64 == 0
  {}

  class Allocator {
    var allocSize: nat
    var start: nat
    var free: nat
    ghost var regions: seq<Range>
    ghost var blocks: seq<Range>

    ghost function W(): Worker
      reads this
    {
      Worker(allocSize, start, free, regions, blocks)
    }

    constructor ()
      ensures W() == INITIAL
    {
      allocSize, start, free := 1024 * 1024 * 2, 0, 0;
      regions, blocks := [], [];
    }

    /** A new pool: take a first region of allocSize bytes at the address `source` that it returns. */
    method SetSource(source: nat)
      requires Ok(W()) && NewRegion(W(), Range(source, allocSize))
      modifies this
      ensures Ok(W()) && W() == TakeRegion(old(W()), source)
    {
      TakeRegionKeepsOk(W(), source);
      start := source;
      free := allocSize;
      regions := regions + [Range(source, allocSize)];
    }

    /** allocate: `source` is the address the pool returns if it is asked for a new region. */
    method Allocate(size: nat, source: nat) returns (alloc: nat)
      requires Ok(W()) && (Refill(W(), size) > 0 ==> NewRegion(W(), Range(source, Refill(W(), size))))
      modifies this
      ensures Ok(W()) && W() == Allocated(old(W()), size, source)
      ensures alloc % 64 == 0 && blocks == old(blocks) + [Range(alloc, size)]
      ensures if size + 64 - old(start) % 64 <= old(free) then
                regions == old(regions) && allocSize == old(allocSize) && old(start) < alloc <= old(start) + 64
              else
                && regions == old(regions) + [Range(source, allocSize)] && allocSize >= 2 * old(allocSize)
                && source < alloc <= source + 64
    {
      hide Ok, NewRegion;
      AllocateKeepsOk(W(), size, source);
      var aligndiff := 64 - start % 64;
      var padded := size + aligndiff;
      if free < padded {
        allocSize := Max(allocSize * 2, padded + 64);
        start := source;
        regions := regions + [Range(source, allocSize)];
        aligndiff := 64 - start % 64;
        padded := padded + aligndiff;
        free := allocSize;
      }
      alloc := start + aligndiff;
      blocks := blocks + [Range(alloc, size)];
      start := start + padded;
      free := free - padded;
    }
  }
}
