/** Spill storage: one chunked queue per hash partition. */
module PartitionedDeque {

  import opened Capacity
  import opened Words

  const CHUNK_SIZE: nat := 1024

  /** A partition's chunks in link order, each with the entries written to it so far.  `current` is
      how far the last chunk is filled. */
  datatype Partition<T> = Partition(chunks: seq<seq<T>>, current: nat) {

    /** Every chunk but the last is full, the last one is not empty. */
    ghost predicate Valid() {
      && (forall c :: 0 <= c < |chunks| - 1 ==> |chunks[c]| == CHUNK_SIZE)
      && (chunks != [] ==> 0 < |chunks[|chunks| - 1]| == current <= CHUNK_SIZE)
    }

    /** Append, opening a chunk when there is none or the last one is full. */
    function PushBack(element: T): (p: Partition<T>)
      requires Valid()
      ensures p.Valid() && p.Content() == Content() + [element]
    {
      PushKeepsOrder(element);
      if chunks == [] then
        Partition([[element]], 1)
      else if current == CHUNK_SIZE then
        Partition(chunks + [[element]], 1)
      else
        var last := |chunks| - 1;
        Partition(chunks[last := chunks[last] + [element]], current + 1)
    }

    /** Entries of a chunk: all but the last are taken to be full. */
    function Size(c: nat): (n: nat)
      requires Valid() && c < |chunks|
      ensures n == |chunks[c]|
    {
      if c == |chunks| - 1 then current else CHUNK_SIZE
    }

    /** All entries, in the order they were pushed. */
    ghost function Content(): seq<T> { Concat(chunks) }

    lemma PushKeepsOrder(element: T)
      requires Valid()
      ensures Concat([[element]]) == [element]
      ensures Concat(chunks + [[element]]) == Concat(chunks) + [element]
      ensures chunks != []
              ==> Concat(chunks[|chunks| - 1 := chunks[|chunks| - 1] + [element]]) == Concat(chunks) + [element]
    {
      assert [[element]][..0] == [];
      assert (chunks + [[element]])[..|chunks|] == chunks;
      if chunks != [] {
        assert chunks[|chunks| - 1 := chunks[|chunks| - 1] + [element]][..|chunks| - 1] == chunks[..|chunks| - 1];
      }
    }
  }

  function Concat<T>(s: seq<seq<T>>): seq<T> {
    if s == [] then [] else Concat(s[..|s| - 1]) + s[|s| - 1]
  }

  /** The upper exp bits of a 64-bit hash select the partition. */
  function PartitionOf(hash: nat, exp: nat): nat
    requires exp <= 64
  {
    ShiftRight(hash, 64 - exp)
  }

  /** Every 64-bit hash has a partition. */
  lemma PartitionExists(hash: nat, exp: nat)
    requires exp <= 64 && hash < Shift(64)
    ensures PartitionOf(hash, exp) < Shift(exp)
  {
    ShiftRightBound(hash, 64 - exp, exp);
  }

  /** Partitions are ranges of hashes, all of the same size and in order. */
  lemma PartitionIsRange(hash: nat, exp: nat, p: nat)
    requires exp <= 64
    ensures PartitionOf(hash, exp) == p <==> p * Shift(64 - exp) <= hash < (p + 1) * Shift(64 - exp)
  {
    hide Shift, ShiftRight;
    var n := 64 - exp;
    SomeWidth(n);
    var w := Shift(n);
    DivMod(hash, w);
    ShiftRightIs(hash / w, hash % w, n);
    QuotientIs(hash / w, hash % w, w, p);
  }

  lemma {:induction false} SomeWidth(n: nat)
    ensures Shift(n) > 0
  {
    if n > 0 { SomeWidth(n - 1); }
  }

  lemma QuotientIs(q: nat, r: nat, w: nat, p: nat)
    requires r < w
    ensures q == p <==> p * w <= q * w + r < (p + 1) * w
  {
    if p * w <= q * w + r < (p + 1) * w {
      assert (q - p) * w == q * w - p * w;
      assert (p + 1) * w == p * w + w;
      SmallMultiple(q - p, w);
    }
  }

  class Deque<T> {
    var partitions: seq<Partition<T>>
    var exp: nat

    ghost predicate Valid()
      reads this
    {
      && exp <= 64 && |partitions| == Shift(exp)
      && forall p :: 0 <= p < |partitions| ==> partitions[p].Valid()
    }

    /** More partitions than asked for, a power of two, and the shift that goes with it. */
    constructor PostConstruct(nrPartitions: nat)
      requires 0 < nrPartitions < Shift(63)
      ensures Valid() && exp == BitLength(nrPartitions) && nrPartitions < |partitions|
      ensures forall p :: 0 <= p < |partitions| ==> partitions[p] == Partition([], 0)
    {
      exp := BitLength(nrPartitions);
      partitions := seq(Shift(BitLength(nrPartitions)), _ => Partition([], 0));
      new;
      hide Shift, BitLength;
      BitLengthBounds(nrPartitions);
      BitLengthBelow(nrPartitions, 63);
    }

    method PushBack(element: T, hash: nat)
      requires Valid() && hash < Shift(64)
      modifies `partitions
      ensures Valid() && PartitionOf(hash, exp) < |partitions| == |old(partitions)|
      ensures partitions == old(partitions)[PartitionOf(hash, exp) :=
              old(partitions)[PartitionOf(hash, exp)].PushBack(element)]
    {
      hide Shift, PartitionOf;
      PartitionExists(hash, exp);
      var p := PartitionOf(hash, exp);
      partitions := partitions[p := partitions[p].PushBack(element)];
    }
  }

  lemma {:induction false} BitLengthBelow(n: nat, e: nat)
    requires n < Shift(e)
    ensures BitLength(n) <= e
  {
    if n > 0 { BitLengthBelow(n / 2, e - 1); }
  }
}
