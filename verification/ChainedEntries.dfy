/** Hash table entries chained by bucket, over any end-of-chain mark.  The small map of the engine
    links array positions and ends a chain with the largest int; the tables with memory blocks link
    pointers and end with null, written -1 here. */
module ChainedEntries {

  import opened Chains

  datatype Entry<K, V> = Entry(next: int, hash: nat, key: K, value: V) {
    function Data(): (nat, K, V) { (hash, key, value) }
  }

  /** Where a hash goes: its low bits, the capacity being a power of two. */
  function Slot(hash: nat, capacity: nat): (b: nat)
    requires capacity > 0
    ensures b < capacity
  {
    hash % capacity
  }

  /** A reference: the position of an entry, or the table's end-of-chain mark. */
  function Ref(r: int, end: int): int { if r < 0 then end else r }

  // ---- the linked structure, on sequences

  function Buckets<K, V>(st: seq<Entry<K, V>>, capacity: nat): (bs: seq<nat>)
    requires capacity > 0
    ensures |bs| == |st| && forall i :: 0 <= i < |st| ==> bs[i] == Slot(st[i].hash, capacity)
  {
    if st == [] then [] else Buckets(st[..|st| - 1], capacity) + [Slot(st[|st| - 1].hash, capacity)]
  }

  function Data<K, V>(st: seq<Entry<K, V>>): (r: seq<(nat, K, V)>)
    ensures |r| == |st| && forall i :: 0 <= i < |st| ==> r[i] == st[i].Data()
  {
    seq(|st|, i requires 0 <= i < |st| => st[i].Data())
  }

  /** Slot b heads the chain of exactly its bucket. */
  ghost predicate HeadOk(bs: seq<nat>, dir: seq<int>, b: nat, end: int)
    requires b < |dir|
  {
    dir[b] == Ref(Last(bs, b), end)
  }

  /** Entry i continues that chain with the newest earlier entry of its bucket. */
  ghost predicate NextOk<K, V>(bs: seq<nat>, st: seq<Entry<K, V>>, i: nat, end: int)
    requires i < |st| == |bs|
  {
    st[i].next == Ref(Chains.Next(bs, i), end)
  }

  ghost predicate Linked<K, V>(st: seq<Entry<K, V>>, dir: seq<int>, capacity: nat, end: int)
    requires capacity > 0
  {
    && capacity <= |dir|
    && (forall b {:trigger HeadOk(Buckets(st, capacity), dir, b, end)} ::
        0 <= b < capacity ==> HeadOk(Buckets(st, capacity), dir, b, end))
    && (forall i {:trigger NextOk(Buckets(st, capacity), st, i, end)} ::
        0 <= i < |st| ==> NextOk(Buckets(st, capacity), st, i, end))
  }

  lemma EmptyLinked<K, V>(dir: seq<int>, capacity: nat, end: int)
    requires 0 < capacity <= |dir| && forall b :: 0 <= b < capacity ==> dir[b] == end
    ensures Linked<K, V>([], dir, capacity, end)
  {}

  lemma BucketsPush<K, V>(st: seq<Entry<K, V>>, capacity: nat, e: Entry<K, V>)
    requires capacity > 0
    ensures Buckets(st + [e], capacity) == Buckets(st, capacity) + [Slot(e.hash, capacity)]
  {
    assert (st + [e])[..|st|] == st;
  }

  /** Putting an entry in front of its chain. */
  lemma LinkPush<K, V>(st: seq<Entry<K, V>>, dir: seq<int>, capacity: nat, end: int, e: Entry<K, V>)
    requires capacity > 0 && Linked(st, dir, capacity, end) && e.next == dir[Slot(e.hash, capacity)]
    ensures Linked(st + [e], dir[Slot(e.hash, capacity) := |st|], capacity, end)
  {
    hide Slot, HeadOk, NextOk, Buckets;
    var bs, s := Buckets(st, capacity), Slot(e.hash, capacity);
    BucketsPush(st, capacity, e);
    var bs', dir' := bs + [s], dir[s := |bs|];
    forall b: nat {:trigger HeadOk(bs', dir', b, end)} | b < capacity
      ensures HeadOk(bs', dir', b, end)
    {
      HeadPush(bs, dir, s, b, end);
    }
    assert HeadOk(bs, dir, s, end);
    forall i | 0 <= i <= |st| { NextPush(bs, st, dir, e, s, i, end); }
  }

  lemma HeadPush(bs: seq<nat>, dir: seq<int>, s: nat, b: nat, end: int)
    requires b < |dir| && s < |dir| && HeadOk(bs, dir, b, end)
    ensures HeadOk(bs + [s], dir[s := |bs|], b, end)
  {
    LastAppend(bs, s, b);
  }

  lemma NextPush<K, V>(bs: seq<nat>, st: seq<Entry<K, V>>, dir: seq<int>, e: Entry<K, V>, s: nat, i: nat, end: int)
    requires i <= |st| == |bs| && s < |dir| && HeadOk(bs, dir, s, end) && e.next == dir[s]
             && (i < |st| ==> NextOk(bs, st, i, end))
    ensures NextOk(bs + [s], st + [e], i, end)
  {
    if i < |st| {
      NextAppend(bs, s, i);
    } else {
      assert (bs + [s])[..|bs|] == bs;
    }
  }

  /** The links do not depend on the values. */
  lemma SameLinks<K, V>(st: seq<Entry<K, V>>, dir: seq<int>, capacity: nat, end: int, i: nat, v: V)
    requires capacity > 0 && i < |st| && Linked(st, dir, capacity, end)
    ensures Linked(st[i := st[i].(value := v)], dir, capacity, end)
  {
    hide Slot, HeadOk;
    var st' := st[i := st[i].(value := v)];
    assert Buckets(st, capacity) == Buckets(st', capacity);
    forall k | 0 <= k < |st|
      ensures NextOk(Buckets(st', capacity), st', k, end)
    {
      assert NextOk(Buckets(st, capacity), st, k, end);
    }
  }

  /** The position of a reference, -1 for the end of a chain. */
  function Rank(cand: int, end: int): int { if cand == end then -1 else cand }

  lemma HeadIs<K, V>(st: seq<Entry<K, V>>, dir: seq<int>, capacity: nat, end: int, b: nat)
    requires b < capacity && Linked(st, dir, capacity, end) && (end < 0 || |st| <= end)
    ensures -1 <= Rank(dir[b], end) < |st| && dir[b] == Ref(Rank(dir[b], end), end)
    ensures dir[b] != end ==> Buckets(st, capacity)[dir[b]] == b
    ensures forall j :: Rank(dir[b], end) < j < |st| ==> Buckets(st, capacity)[j] != b
  {
    hide Buckets;
    assert HeadOk(Buckets(st, capacity), dir, b, end);
  }

  lemma NextIs<K, V>(st: seq<Entry<K, V>>, dir: seq<int>, capacity: nat, end: int, i: nat)
    requires capacity > 0 && Linked(st, dir, capacity, end) && i < |st| && (end < 0 || |st| <= end)
    ensures -1 <= Rank(st[i].next, end) < i && st[i].next == Ref(Rank(st[i].next, end), end)
    ensures st[i].next != end ==> Buckets(st, capacity)[st[i].next] == Buckets(st, capacity)[i]
    ensures forall j :: Rank(st[i].next, end) < j < i ==> Buckets(st, capacity)[j] != Buckets(st, capacity)[i]
  {
    hide Buckets;
    assert NextOk(Buckets(st, capacity), st, i, end);
  }
}
