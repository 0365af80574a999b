/** Two-phase grouping: every worker pre-aggregates into a small table that it spills to hash
    partitions when full; then each partition is aggregated on its own in a growing table. */
module GroupBy {

  import opened Capacity
  import opened GroupFold
  import opened PartitionedDeque
  import opened Words
  import CE = ChainedEntries
  import CT = ChainedTable

  type Partitions<K, V> = seq<Partition<(nat, K, V)>>

  ghost predicate Hash64<K(!new)>(h: K -> nat) {
    forall k :: h(k) < Shift(64)
  }

  /** Every row carries the hash of its key. */
  ghost predicate Hashed<K, V>(rows: Rows<K, V>, h: K -> nat) {
    forall i :: 0 <= i < |rows| ==> rows[i].0 == h(rows[i].1)
  }

  /** ... and that hash selects partition p. */
  ghost predicate InPartition<K, V>(rows: Rows<K, V>, exp: nat, p: nat, h: K -> nat)
    requires exp <= 64
  {
    Hashed(rows, h) && forall i :: 0 <= i < |rows| ==> PartitionOf(rows[i].0, exp) == p
  }

  ghost function AllRows<K, V>(parts: Partitions<K, V>): Rows<K, V> {
    if parts == [] then [] else AllRows(parts[..|parts| - 1]) + parts[|parts| - 1].Content()
  }

  ghost predicate Sorted<K, V>(parts: Partitions<K, V>, exp: nat, h: K -> nat)
    requires exp <= 64
  {
    forall p {:trigger parts[p]} :: 0 <= p < |parts| ==> InPartition(parts[p].Content(), exp, p, h)
  }

  /** A worker's table: one entry per key. */
  ghost predicate TableOk<K, V>(t: CT.Table<K, V>, h: K -> nat)
    reads t, t.dir
  {
    t.Valid() && t.inserted == |t.store| && Limit(t.dir.Length) > 0 && OneEntryPerKey(t.Content())
        && Hashed(t.Content(), h)
  }

  /** The table holds at most maxFill entries, which its directory takes at the load factor. */
  ghost predicate Loaded<K, V>(t: CT.Table<K, V>, maxFill: nat)
    reads t`dir, t`store
  {
    0 < maxFill && |t.store| <= maxFill <= Limit(t.dir.Length)
  }

  lemma LoadFacts<K, V>(t: CT.Table<K, V>, maxFill: nat, h: K -> nat)
    requires TableOk(t, h) && Loaded(t, maxFill)
    ensures t.inserted == |t.store| == |t.Content()| && 0 < maxFill && |t.store| <= maxFill <= Limit(t.dir.Length)
  {
    t.SameLength();
  }

  lemma IsLoaded<K, V>(t: CT.Table<K, V>, maxFill: nat)
    requires 0 < maxFill && |t.store| <= maxFill <= Limit(t.dir.Length)
    ensures Loaded(t, maxFill)
  {}

  lemma EmptyIsLoaded<K, V>(t: CT.Table<K, V>, h: K -> nat)
    requires TableOk(t, h) && t.Content() == []
    ensures Loaded(t, Limit(t.dir.Length))
  {
    t.SameLength();
  }

  /** The entry of a key, or -1. */
  method FindOne<K(==), V>(t: CT.Table<K, V>, key: K, h: K -> nat) returns (r: int)
    requires TableOk(t, h)
    ensures -1 <= r < |t.Content()| && (r >= 0 ==> t.Content()[r].1 == key)
    ensures r < 0 ==> forall j :: 0 <= j < |t.Content()| ==> t.Content()[j].1 != key
  {
    hide CE.Slot;
    r := t.Find(h(key), (hash, k) => hash == h(key) && k == key);
  }

  method Emplace<K, V>(t: CT.Table<K, V>, key: K, h: K -> nat, init: V) returns (r: nat)
    requires TableOk(t, h) && forall j :: 0 <= j < |t.Content()| ==> t.Content()[j].1 != key
    modifies t, t.dir
    ensures TableOk(t, h) && t.dir == old(t.dir)
    ensures r == |old(t.Content())| && t.Content() == old(t.Content()) + [(h(key), key, init)]
    ensures |t.store| == |old(t.store)| + 1
  {
    hide CE.Linked, IsPow2, CE.Data;
    t.SameLength();
    r := |t.store|;
    t.Allocate(h(key), key, init);
    t.SameLength();
    t.Insert();
    t.SameLength();
  }

  /** Fold a value into an entry's aggregate. */
  method Update<K(!new), V(!new)>(t: CT.Table<K, V>, r: nat, v: V, g: Agg<V>, h: K -> nat)
    requires TableOk(t, h) && r < |t.Content()| && CommutativeMonoid(g)
    modifies t
    ensures TableOk(t, h) && t.dir == old(t.dir) && |t.store| == |old(t.store)|
    ensures Same(t.Content(), old(t.Content()) + [(h(old(t.Content())[r].1), old(t.Content())[r].1, v)], g)
  {
    hide CE.Linked, IsPow2, CE.Data, Same, CommutativeMonoid;
    t.SameLength();
    UpdateSame(t.Content(), r, v, g);
    assert t.Content()[r].2 == t.store[r].value;
    t.SetValue(r, g.op(t.store[r].value, v));
    t.SameLength();
  }

  /** Pushing rows into a deque. */
  method SpillRows<K(!new), V(!new)>(deque: Deque<(nat, K, V)>, entries: Rows<K, V>, g: Agg<V>, h: K -> nat)
    requires deque.Valid() && Sorted(deque.partitions, deque.exp, h) && Hashed(entries, h) && Hash64(h)
             && CommutativeMonoid(g)
    modifies deque`partitions
    ensures deque.Valid() && Sorted(deque.partitions, deque.exp, h)
    ensures Same(AllRows(deque.partitions), AllRows(old(deque.partitions)) + entries, g)
  {
    hide *;
    DequeIs(deque);
    assert entries[..0] == [];
    SameSelf(AllRows(deque.partitions), g);
    assert AllRows(deque.partitions) + [] == AllRows(deque.partitions);
    for i := 0 to |entries|
      invariant deque.Valid() && Sorted(deque.partitions, deque.exp, h)
      invariant Same(AllRows(deque.partitions), AllRows(old(deque.partitions)) + entries[..i], g)
    {
      ghost var before := deque.partitions;
      HashOf(entries, h, i);
      DequeIs(deque);
      deque.PushBack(entries[i], entries[i].0);
      PushSame(before, deque.exp, entries[i], g, h);
      assert entries[..i + 1] == entries[..i] + [entries[i]];
      SameAppend(AllRows(deque.partitions), AllRows(before), AllRows(old(deque.partitions)) + entries[..i],
          [entries[i]], g);
      assert AllRows(old(deque.partitions)) + entries[..i] + [entries[i]] == AllRows(old(deque.partitions))
             + entries[..i + 1];
    }
    assert entries[..|entries|] == entries;
  }

  lemma DequeIs<T>(deque: Deque<T>)
    requires deque.Valid()
    ensures deque.exp <= 64 && |deque.partitions| == Shift(deque.exp)
    ensures forall p :: 0 <= p < |deque.partitions| ==> deque.partitions[p].Valid()
  {}

  lemma HashOf<K(!new), V>(rows: Rows<K, V>, h: K -> nat, i: nat)
    requires Hashed(rows, h) && Hash64(h) && i < |rows|
    ensures rows[i].0 == h(rows[i].1) < Shift(64)
  {}

  /** a is b plus x and b is c, so a is c plus x. */
  lemma SameAppend<K(!new), V(!new)>(a: Rows<K, V>, b: Rows<K, V>, c: Rows<K, V>, x: Rows<K, V>, g: Agg<V>)
    requires CommutativeMonoid(g) && Same(a, b + x, g) && Same(b, c, g)
    ensures Same(a, c + x, g)
  {
    hide *;
    SameSelf(x, g);
    SameConcat(b, c, x, x, g);
    SameTrans(a, b + x, c + x, g);
  }

  lemma PushSame<K(!new), V(!new)>(parts: Partitions<K, V>, exp: nat, e: (nat, K, V), g: Agg<V>, h: K -> nat)
    requires exp <= 64 && Sorted(parts, exp, h) && e.0 == h(e.1) && PartitionOf(e.0, exp) < |parts|
             && CommutativeMonoid(g)
    requires parts[PartitionOf(e.0, exp)].Valid()
    ensures var p := PartitionOf(e.0, exp);
      && Sorted(parts[p := parts[p].PushBack(e)], exp, h)
      && Same(AllRows(parts[p := parts[p].PushBack(e)]), AllRows(parts) + [e], g)
  {
    hide PartitionOf, AllRows, CommutativeMonoid, Same, Partition.PushBack, Partition.Content, Partition.Valid;
    var p := PartitionOf(e.0, exp);
    assert InPartition(parts[p].Content(), exp, p, h);
    GrowSame(parts, p, parts[p].PushBack(e), e, g);
  }

  lemma {:induction false} GrowSame<K(!new), V(!new)>(parts: Partitions<K, V>, p: nat, q: Partition<(nat, K, V)>,
      e: (nat, K, V), g: Agg<V>)
    requires p < |parts| && q.Content() == parts[p].Content() + [e] && CommutativeMonoid(g)
    ensures Same(AllRows(parts[p := q]), AllRows(parts) + [e], g)
  {
    hide CommutativeMonoid, Same, Partition.Content;
    var n := |parts| - 1;
    var front, last := parts[..n], parts[n].Content();
    if p == n {
      assert parts[p := q][..n] == front;
      assert AllRows(front) + (last + [e]) == AllRows(front) + last + [e];
      SameSelf(AllRows(parts) + [e], g);
    } else {
      assert parts[p := q][..n] == front[p := q];
      GrowSame(front, p, q, e, g);
      SameSelf(last, g);
      SameConcat(AllRows(front[p := q]), AllRows(front) + [e], last, last, g);
      SameSwap(AllRows(front), [e], last, g);
      SameTrans(AllRows(front[p := q]) + last, AllRows(front) + [e] + last, AllRows(front) + last + [e], g);
    }
  }

  lemma NewTableOk<K, V>(t: CT.Table<K, V>, n: nat, h: K -> nat)
    requires n > 0 && t.Valid() && t.store == [] && t.inserted == 0 && t.dir.Length == CapacityFor(n)
    ensures TableOk(t, h) && t.Content() == [] && Limit(t.dir.Length) > 0
  {
    hide CT.Table.Valid, Limit, CapacityFor;
    CapacityIsEnough(n);
  }

  /** Thread-local state of the pre-aggregation phase. */
  class Locals<K(==, !new), V(!new)> {
    const groups: CT.Table<K, V>
    const spillStorage: Deque<(nat, K, V)>
    const maxFill: nat

    ghost predicate Valid(h: K -> nat)
      reads groups, groups.dir, spillStorage
    {
      TableOk(groups, h) && Loaded(groups, maxFill) && spillStorage.Valid()
          && Sorted(spillStorage.partitions, spillStorage.exp, h)
    }

    /** All this worker holds: what it spilled and what is in its table. */
    ghost function Held(): Rows<K, V>
      reads groups, spillStorage
    {
      AllRows(spillStorage.partitions) + groups.Content()
    }

    constructor (nrThreads: nat, ghost h: K -> nat)
      requires 0 < nrThreads * 4 < Shift(63)
      ensures Valid(h) && fresh(groups) && fresh(groups.dir) && fresh(spillStorage)
      ensures Held() == [] && spillStorage.exp == BitLength(nrThreads * 4)
      ensures maxFill == Limit(groups.dir.Length)
    {
      hide *;
      var t := new CT.Table<K, V>(1024);
      NewTableOk(t, 1024, h);
      var limit := Limit(t.dir.Length);
      var d := new Deque<(nat, K, V)>.PostConstruct(nrThreads * 4);
      BitLengthBelow(nrThreads * 4, 63);
      NothingSpilled(d.partitions, d.exp, h);
      groups, spillStorage, maxFill := t, d, limit;
      new;
      EmptyIsLoaded(groups, h);
      Pack(h);
    }

    lemma Unpack(h: K -> nat)
      requires Valid(h)
      ensures TableOk(groups, h) && Loaded(groups, maxFill)
      ensures spillStorage.Valid() && Sorted(spillStorage.partitions, spillStorage.exp, h)
      ensures Held() == AllRows(spillStorage.partitions) + groups.Content()
    {}

    lemma Pack(h: K -> nat)
      requires TableOk(groups, h) && Loaded(groups, maxFill)
      requires spillStorage.Valid() && Sorted(spillStorage.partitions, spillStorage.exp, h)
      ensures Valid(h) && Held() == AllRows(spillStorage.partitions) + groups.Content()
    {}

    /** Write all entries of the table to the spill partitions. */
    method Spill(g: Agg<V>, h: K -> nat)
      requires Valid(h) && Hash64(h) && CommutativeMonoid(g)
      modifies spillStorage`partitions
      ensures Valid(h)
      ensures Same(AllRows(spillStorage.partitions), AllRows(old(spillStorage.partitions)) + groups.Content(), g)
    {
      hide Sorted, AllRows, Same, CommutativeMonoid, CE.Linked, IsPow2, OneEntryPerKey, Hash64;
      SpillRows(spillStorage, groups.Content(), g, h);
    }

    /** Make room in a full table, and only then: afterwards there is room for one more entry. */
    method OnGroup(g: Agg<V>, h: K -> nat)
      requires Valid(h) && Hash64(h) && CommutativeMonoid(g)
      modifies groups, groups.dir, spillStorage`partitions
      ensures Valid(h) && groups.dir == old(groups.dir) && |groups.store| < maxFill
      ensures if |old(groups.store)| < maxFill
              then groups.Content() == old(groups.Content()) && spillStorage.partitions == old(spillStorage.partitions)
              else groups.Content() == []
      ensures Same(Held(), old(Held()), g)
    {
      hide *;
      Unpack(h);
      SameSelf(Held(), g);
      LoadFacts(groups, maxFill, h);
      if groups.inserted >= maxFill {
        Spill(g, h);
        Unpack(h);
        ClearTable(groups, h);
        groups.SameLength();
        IsLoaded(groups, maxFill);
        assert AllRows(spillStorage.partitions) + [] == AllRows(spillStorage.partitions);
        Pack(h);
      }
    }

    /** Aggregate one tuple. */
    method Consume(key: K, value: V, g: Agg<V>, h: K -> nat)
      requires Valid(h) && Hash64(h) && CommutativeMonoid(g)
      modifies groups, groups.dir, spillStorage`partitions
      ensures Valid(h) && groups.dir == old(groups.dir)
      ensures Same(Held(), old(Held()) + [(h(key), key, value)], g)
      ensures (|old(groups.store)| < maxFill
               || exists j: nat :: j < |old(groups.Content())| && old(groups.Content())[j].1 == key)
              ==> spillStorage.partitions == old(spillStorage.partitions)
    {
      hide *;
      Unpack(h);
      ghost var held := Held();
      SameSelf(held, g);
      LoadFacts(groups, maxFill, h);
      var r := FindOne(groups, key, h);
      if r < 0 {
        OnGroup(g, h);
        Unpack(h);
        LoadFacts(groups, maxFill, h);
      }
      ghost var entries := groups.Content();
      if r < 0 { r := Emplace(groups, key, h, g.init); }
      ghost var created := groups.Content();
      Update(groups, r, value, g, h);
      IsLoaded(groups, maxFill);
      Updated(entries, created, groups.Content(), (h(key), key, value), g);
      HeldAfter(held, AllRows(spillStorage.partitions), entries, groups.Content(), (h(key), key, value), g);
      Pack(h);
    }
  }

  /** An empty table of the same capacity. */
  method ClearTable<K, V>(t: CT.Table<K, V>, h: K -> nat)
    requires TableOk(t, h)
    modifies t, t.dir
    ensures TableOk(t, h) && t.Content() == [] && t.dir == old(t.dir)
  {
    hide CE.Linked, IsPow2;
    t.Clear();
    t.SameLength();
  }

  lemma NothingSpilled<K(!new), V>(parts: Partitions<K, V>, exp: nat, h: K -> nat)
    requires exp <= 64 && forall p :: 0 <= p < |parts| ==> parts[p] == Partition([], 0)
    ensures AllRows(parts) == [] && Sorted(parts, exp, h)
  {
    hide PartitionOf;
    if parts != [] { NothingSpilled(parts[..|parts| - 1], exp, h); }
  }

  /** A value reached the aggregate of its key, in an entry that was there or was just created. */
  lemma Updated<K(!new), V(!new)>(entries: Rows<K, V>, created: Rows<K, V>, after: Rows<K, V>, row: (nat, K, V),
      g: Agg<V>)
    requires CommutativeMonoid(g) && (created == entries || created == entries + [(row.0, row.1, g.init)])
    requires Same(after, created + [row], g)
    ensures Same(after, entries + [row], g)
  {
    hide *;
    var e := (row.0, row.1, g.init);
    if created == entries + [e] {
      Unit(g, row.2);
      MergeSame(e, row, row, g);
      SameSym([row], [e] + [row], g);
      SameSelf(entries, g);
      SameConcat(entries, entries, [e] + [row], [row], g);
      assert entries + [e] + [row] == entries + ([e] + [row]);
      SameTrans(after, created + [row], entries + [row], g);
    }
  }

  lemma HeldAfter<K(!new), V(!new)>(held: Rows<K, V>, spilled: Rows<K, V>, entries: Rows<K, V>, after: Rows<K, V>,
      row: (nat, K, V), g: Agg<V>)
    requires CommutativeMonoid(g) && Same(spilled + entries, held, g) && Same(after, entries + [row], g)
    ensures Same(spilled + after, held + [row], g)
  {
    hide *;
    SameSelf(spilled, g);
    SameConcat(spilled, spilled, after, entries + [row], g);
    assert spilled + (entries + [row]) == spilled + entries + [row];
    SameAppend(spilled + after, spilled + entries, held, [row], g);
  }

  // ---- phase 2: one partition

  /** Double the directory and link all entries again. */
  method Grow<K, V>(t: CT.Table<K, V>, h: K -> nat) returns (maxFill: nat)
    requires TableOk(t, h) && t.inserted > 0
    modifies t, t.dir
    ensures TableOk(t, h) && fresh(t.dir) && t.Content() == old(t.Content())
    ensures Loaded(t, maxFill) && |t.store| == |old(t.store)| && maxFill >= 2 * |t.store|
  {
    hide CE.Linked, IsPow2, CapacityFor, CE.Data;
    var n := t.inserted;
    maxFill := t.SetSize(n * 2);
    t.InsertAll(n);
    t.SameLength();
  }

  /** Merge one spilled aggregate into the table. */
  method Absorb<K(==, !new), V(!new)>(t: CT.Table<K, V>, limit: nat, row: (nat, K, V), g: Agg<V>, h: K -> nat)
    returns (maxFill: nat)
    requires TableOk(t, h) && Loaded(t, limit) && row.0 == h(row.1) && CommutativeMonoid(g)
    modifies t, t.dir
    ensures TableOk(t, h) && (t.dir == old(t.dir) || fresh(t.dir)) && Loaded(t, maxFill)
    ensures |old(t.store)| < limit ==> t.dir == old(t.dir) && maxFill == limit
    ensures Same(t.Content(), old(t.Content()) + [row], g)
  {
    hide *;
    maxFill := limit;
    LoadFacts(t, limit, h);
    var r := FindOne(t, row.1, h);
    if r < 0 {
      if t.inserted >= maxFill { maxFill := Grow(t, h); }
      LoadFacts(t, maxFill, h);
      r := Emplace(t, row.1, h, g.init);
    }
    ghost var created := t.Content();
    Update(t, r, row.2, g, h);
    IsLoaded(t, maxFill);
    Updated(old(t.Content()), created, t.Content(), row, g);
  }

  lemma ConcatNext<T>(s: seq<seq<T>>, c: nat)
    requires c < |s|
    ensures Concat(s[..c + 1]) == Concat(s[..c]) + s[c]
  {
    assert s[..c + 1][..c] == s[..c];
  }

  lemma {:induction false} ConcatAt<T>(s: seq<seq<T>>, c: nat, i: nat)
    requires c < |s| && i < |s[c]|
    ensures s[c][i] in Concat(s)
  {
    if c < |s| - 1 {
      ConcatAt(s[..|s| - 1], c, i);
    }
  }

  lemma HashedIn<K, V>(rows: Rows<K, V>, h: K -> nat, row: (nat, K, V))
    requires Hashed(rows, h) && row in rows
    ensures row.0 == h(row.1)
  {}

  /** Merge all entries of one chunk. */
  method AbsorbChunk<K(==, !new), V(!new)>(t: CT.Table<K, V>, limit: nat, part: Partition<(nat, K, V)>, c: nat,
      g: Agg<V>, h: K -> nat) returns (maxFill: nat)
    requires TableOk(t, h) && Loaded(t, limit) && part.Valid() && Hashed(part.Content(), h) && c < |part.chunks|
             && CommutativeMonoid(g)
    modifies t, t.dir
    ensures TableOk(t, h) && (t.dir == old(t.dir) || fresh(t.dir)) && Loaded(t, maxFill)
    ensures Same(t.Content(), old(t.Content()) + part.chunks[c], g)
  {
    hide TableOk, Loaded, Hashed, CommutativeMonoid, Same, Concat, Partition.Valid;
    maxFill := limit;
    var chunk := part.chunks[c];
    SameSelf(t.Content(), g);
    assert t.Content() + chunk[..0] == t.Content();
    for i := 0 to part.Size(c)
      invariant TableOk(t, h) && (t.dir == old(t.dir) || fresh(t.dir)) && Loaded(t, maxFill)
      invariant Same(t.Content(), old(t.Content()) + chunk[..i], g)
    {
      ghost var before := t.Content();
      ConcatAt(part.chunks, c, i);
      HashedIn(part.Content(), h, chunk[i]);
      maxFill := Absorb(t, maxFill, chunk[i], g, h);
      SameAppend(t.Content(), before, old(t.Content()) + chunk[..i], [chunk[i]], g);
      assert old(t.Content()) + chunk[..i] + [chunk[i]] == old(t.Content()) + chunk[..i + 1];
    }
    assert chunk[..|chunk|] == chunk;
  }

  /** Merge one worker's part of a partition. */
  method AbsorbPartition<K(==, !new), V(!new)>(t: CT.Table<K, V>, limit: nat, part: Partition<(nat, K, V)>, g: Agg<V>,
      h: K -> nat) returns (maxFill: nat)
    requires TableOk(t, h) && Loaded(t, limit) && part.Valid() && Hashed(part.Content(), h) && CommutativeMonoid(g)
    modifies t, t.dir
    ensures TableOk(t, h) && (t.dir == old(t.dir) || fresh(t.dir)) && Loaded(t, maxFill)
    ensures Same(t.Content(), old(t.Content()) + part.Content(), g)
  {
    hide TableOk, Loaded, Hashed, CommutativeMonoid, Same, Concat, Partition.Valid;
    maxFill := limit;
    SameSelf(t.Content(), g);
    EmptyConcat(part.chunks);
    assert t.Content() + Concat(part.chunks[..0]) == t.Content();
    for c := 0 to |part.chunks|
      invariant TableOk(t, h) && (t.dir == old(t.dir) || fresh(t.dir)) && Loaded(t, maxFill)
      invariant Same(t.Content(), old(t.Content()) + Concat(part.chunks[..c]), g)
    {
      ghost var before := t.Content();
      maxFill := AbsorbChunk(t, maxFill, part, c, g, h);
      SameAppend(t.Content(), before, old(t.Content()) + Concat(part.chunks[..c]), part.chunks[c], g);
      ConcatNext(part.chunks, c);
      assert old(t.Content()) + Concat(part.chunks[..c]) + part.chunks[c] == old(t.Content())
             + Concat(part.chunks[..c + 1]);
    }
    assert part.chunks[..|part.chunks|] == part.chunks;
  }

  lemma EmptyConcat<T>(s: seq<seq<T>>)
    ensures Concat(s[..0]) == []
  {}

  // ---- what the partitions of all workers hold

  /** The spill partitions of one worker. */
  ghost predicate SpillOk<K, V>(parts: Partitions<K, V>, exp: nat, h: K -> nat) {
    && exp <= 64 && |parts| == Shift(exp) && Sorted(parts, exp, h)
    && forall p :: 0 <= p < |parts| ==> parts[p].Valid()
  }

  ghost predicate AllSpillOk<K, V>(ps: seq<Partitions<K, V>>, exp: nat, h: K -> nat) {
    forall d {:trigger ps[d]} :: 0 <= d < |ps| ==> SpillOk(ps[d], exp, h)
  }

  ghost function AllDeques<K, V>(ps: seq<Partitions<K, V>>): Rows<K, V> {
    if ps == [] then [] else AllDeques(ps[..|ps| - 1]) + AllRows(ps[|ps| - 1])
  }

  ghost function PartitionRows<K, V>(ps: seq<Partitions<K, V>>, p: nat): Rows<K, V>
    requires forall d :: 0 <= d < |ps| ==> p < |ps[d]|
  {
    if ps == [] then [] else PartitionRows(ps[..|ps| - 1], p) + ps[|ps| - 1][p].Content()
  }

  lemma NotIn<K(!new), V(!new)>(rows: Rows<K, V>, exp: nat, p: nat, h: K -> nat, k: K, g: Agg<V>)
    requires exp <= 64 && InPartition(rows, exp, p, h) && PartitionOf(h(k), exp) != p
    ensures !Has(rows, k) && GroupFold.Fold(rows, k, g) == g.init
  {
    hide PartitionOf, GroupFold.Fold;
    FoldOfNone(rows, k, g);
  }

  /** In one worker's deque, a key is only in its own partition. */
  lemma {:induction false} OwnPartition<K(!new), V(!new)>(parts: Partitions<K, V>, n: nat, exp: nat, h: K -> nat, k: K,
      g: Agg<V>)
    requires n <= |parts| && SpillOk(parts, exp, h) && CommutativeMonoid(g)
    ensures SameFor(AllRows(parts[..n]), if PartitionOf(h(k), exp) < n
            then parts[PartitionOf(h(k), exp)].Content() else [], k, g)
  {
    hide PartitionOf, GroupFold.Fold, CommutativeMonoid, Has, Partition.Content, Partition.Valid, InPartition;
    if n > 0 {
      var part := PartitionOf(h(k), exp);
      OwnPartition(parts, n - 1, exp, h, k, g);
      assert parts[..n][..n - 1] == parts[..n - 1];
      var last := parts[n - 1].Content();
      assert InPartition(last, exp, n - 1, h);
      FoldConcat(AllRows(parts[..n - 1]), last, k, g);
      NothingOf<K, V>(k, g);
      Unit(g, GroupFold.Fold(last, k, g));
      Unit(g, GroupFold.Fold(AllRows(parts[..n - 1]), k, g));
      if part != n - 1 { NotIn(last, exp, n - 1, h, k, g); }
    }
  }

  lemma NothingOf<K(!new), V(!new)>(k: K, g: Agg<V>)
    ensures GroupFold.Fold<K, V>([], k, g) == g.init && !Has<K, V>([], k)
  {}

  /** Over all workers, a key is only in its own partition. */
  lemma {:induction false} OnlyOwnPartition<K(!new), V(!new)>(ps: seq<Partitions<K, V>>, exp: nat, h: K -> nat, k: K,
      g: Agg<V>)
    requires exp <= 64 && AllSpillOk(ps, exp, h) && CommutativeMonoid(g) && PartitionOf(h(k), exp) < Shift(exp)
    ensures SameFor(AllDeques(ps), PartitionRows(ps, PartitionOf(h(k), exp)), k, g)
  {
    hide PartitionOf, GroupFold.Fold, CommutativeMonoid, Has, Partition.Content, Partition.Valid, InPartition, AllRows;
    if ps != [] {
      var front, last, p := ps[..|ps| - 1], ps[|ps| - 1], PartitionOf(h(k), exp);
      assert SpillOk(last, exp, h);
      OnlyOwnPartition(front, exp, h, k, g);
      OwnPartition(last, |last|, exp, h, k, g);
      assert last[..|last|] == last;
      FoldConcat(AllDeques(front), AllRows(last), k, g);
      FoldConcat(PartitionRows(front, p), last[p].Content(), k, g);
    }
  }

  /** Partition rows are in their partition. */
  lemma {:induction false} PartitionRowsOk<K, V>(ps: seq<Partitions<K, V>>, exp: nat, h: K -> nat, p: nat)
    requires exp <= 64 && AllSpillOk(ps, exp, h) && p < Shift(exp)
    ensures InPartition(PartitionRows(ps, p), exp, p, h)
  {
    hide PartitionOf, Partition.Content, Partition.Valid;
    if ps != [] {
      var front, last := ps[..|ps| - 1], ps[|ps| - 1];
      assert SpillOk(last, exp, h);
      PartitionRowsOk(front, exp, h, p);
      assert InPartition(last[p].Content(), exp, p, h);
    }
  }

  /** Aggregate a partition over all workers in an empty table. */
  method AggregatePartition<K(==, !new), V(!new)>(t: CT.Table<K, V>, ps: seq<Partitions<K, V>>, exp: nat, p: nat,
      g: Agg<V>, h: K -> nat)
    requires TableOk(t, h) && t.Content() == [] && CommutativeMonoid(g) && exp <= 64 && AllSpillOk(ps, exp, h)
             && p < Shift(exp)
    modifies t, t.dir
    ensures TableOk(t, h) && (t.dir == old(t.dir) || fresh(t.dir)) && |t.store| <= Limit(t.dir.Length)
    ensures Same(t.Content(), PartitionRows(ps, p), g)
  {
    hide TableOk, Loaded, Hashed, CommutativeMonoid, Same, Shift, PartitionOf, Limit, Partition.Valid,
        Partition.Content, Sorted;
    EmptyIsLoaded(t, h);
    var maxFill := Limit(t.dir.Length);
    SameSelf<K, V>([], g);
    for d := 0 to |ps|
      invariant TableOk(t, h) && (t.dir == old(t.dir) || fresh(t.dir)) && Loaded(t, maxFill)
      invariant Same(t.Content(), PartitionRows(ps[..d], p), g)
    {
      ghost var before := t.Content();
      assert SpillOk(ps[d], exp, h);
      PartIsHashed(ps[d], exp, p, h);
      maxFill := AbsorbPartition(t, maxFill, ps[d][p], g, h);
      SameAppend(t.Content(), before, PartitionRows(ps[..d], p), ps[d][p].Content(), g);
      assert ps[..d + 1][..d] == ps[..d];
    }
    assert ps[..|ps|] == ps;
    LoadFacts(t, maxFill, h);
  }

  lemma PartIsHashed<K, V>(parts: Partitions<K, V>, exp: nat, p: nat, h: K -> nat)
    requires SpillOk(parts, exp, h) && p < |parts|
    ensures parts[p].Valid() && Hashed(parts[p].Content(), h)
  {
    assert InPartition(parts[p].Content(), exp, p, h);
  }

  // ---- the result

  /** `out` has one row per key of `all`, holding the fold of all its values. */
  ghost predicate Delivers<K(!new), V>(out: Rows<K, V>, all: Rows<K, V>, g: Agg<V>) {
    && OneEntryPerKey(out)
    && (forall i {:trigger out[i]} :: 0 <= i < |out| ==> out[i].2 == GroupFold.Fold(all, out[i].1, g))
    && (forall k :: Has(out, k) <==> Has(all, k))
  }

  /** The same after the first n partitions. */
  ghost predicate DeliversPart<K(!new), V>(out: Rows<K, V>, all: Rows<K, V>, exp: nat, n: nat, g: Agg<V>, h: K -> nat)
    requires exp <= 64
  {
    && OneEntryPerKey(out) && Hashed(out, h)
    && (forall i {:trigger out[i]} ::
        0 <= i < |out| ==> PartitionOf(out[i].0, exp) < n && out[i].2 == GroupFold.Fold(all, out[i].1, g))
    && (forall k :: PartitionOf(h(k), exp) < n ==> (Has(out, k) <==> Has(all, k)))
  }

  lemma WideEnough<K, V>(ps: seq<Partitions<K, V>>, exp: nat, h: K -> nat, p: nat)
    requires exp <= 64 && AllSpillOk(ps, exp, h) && p < Shift(exp)
    ensures forall d :: 0 <= d < |ps| ==> p < |ps[d]|
  {
    hide Shift, Sorted;
    assert forall d :: 0 <= d < |ps| ==> SpillOk(ps[d], exp, h);
  }

  lemma AggregateOk<K(!new), V(!new)>(groups: Rows<K, V>, ps: seq<Partitions<K, V>>, exp: nat, p: nat, i: nat,
      g: Agg<V>, h: K -> nat)
    requires exp <= 64 && AllSpillOk(ps, exp, h) && p < Shift(exp) && CommutativeMonoid(g) && i < |groups|
    requires Same(groups, PartitionRows(ps, p), g) && OneEntryPerKey(groups) && Hashed(groups, h)
    ensures PartitionOf(groups[i].0, exp) == p && groups[i].2 == GroupFold.Fold(AllDeques(ps), groups[i].1, g)
  {
    hide PartitionOf, CommutativeMonoid, GroupFold.Fold, AllSpillOk, PartitionRows, AllDeques, Shift;
    var k := groups[i].1;
    WideEnough(ps, exp, h, p);
    PartitionRowsOk(ps, exp, h, p);
    assert SameFor(groups, PartitionRows(ps, p), k, g);
    var rows := PartitionRows(ps, p);
    assert Has(groups, k);
    var j :| 0 <= j < |rows| && rows[j].1 == k;
    assert PartitionOf(h(k), exp) == p;
    OnlyOwnPartition(ps, exp, h, k, g);
    FoldOfOne(groups, i, g);
  }

  lemma HasOk<K(!new), V(!new)>(groups: Rows<K, V>, ps: seq<Partitions<K, V>>, exp: nat, p: nat, k: K, g: Agg<V>,
      h: K -> nat)
    requires exp <= 64 && AllSpillOk(ps, exp, h) && p < Shift(exp) && CommutativeMonoid(g)
             && PartitionOf(h(k), exp) == p
    requires Same(groups, PartitionRows(ps, p), g)
    ensures Has(groups, k) <==> Has(AllDeques(ps), k)
  {
    hide PartitionOf, CommutativeMonoid, GroupFold.Fold, AllSpillOk, PartitionRows, AllDeques, Shift, Has;
    WideEnough(ps, exp, h, p);
    assert SameFor(groups, PartitionRows(ps, p), k, g);
    OnlyOwnPartition(ps, exp, h, k, g);
  }

  /** The groups of the next partition join those delivered before. */
  lemma DeliverNext<K(!new), V(!new)>(out: Rows<K, V>, groups: Rows<K, V>, ps: seq<Partitions<K, V>>, exp: nat, n: nat,
      g: Agg<V>, h: K -> nat)
    requires exp <= 64 && AllSpillOk(ps, exp, h) && n < Shift(exp) && CommutativeMonoid(g)
    requires DeliversPart(out, AllDeques(ps), exp, n, g, h)
    requires Same(groups, PartitionRows(ps, n), g) && OneEntryPerKey(groups) && Hashed(groups, h)
    ensures DeliversPart(out + groups, AllDeques(ps), exp, n + 1, g, h)
  {
    hide PartitionOf, CommutativeMonoid, GroupFold.Fold, AllSpillOk, PartitionRows, AllDeques, Shift, Has, Same;
    forall i | 0 <= i < |groups| { AggregateOk(groups, ps, exp, n, i, g, h); }
    forall k | PartitionOf(h(k), exp) < n + 1
      ensures Has(out + groups, k) <==> Has(AllDeques(ps), k)
    {
      HasConcat(out, groups, k);
      if PartitionOf(h(k), exp) == n {
        HasOk(groups, ps, exp, n, k, g, h);
        KeyIsHigh(out, exp, n, k, h);
      } else {
        KeyIsOther(groups, exp, n, k, h);
      }
    }
  }

  lemma KeyIsHigh<K, V>(out: Rows<K, V>, exp: nat, n: nat, k: K, h: K -> nat)
    requires exp <= 64 && Hashed(out, h) && PartitionOf(h(k), exp) >= n
    requires forall i {:trigger out[i]} :: 0 <= i < |out| ==> PartitionOf(out[i].0, exp) < n
    ensures !Has(out, k)
  {
    hide PartitionOf;
  }

  lemma KeyIsOther<K, V>(groups: Rows<K, V>, exp: nat, n: nat, k: K, h: K -> nat)
    requires exp <= 64 && Hashed(groups, h) && PartitionOf(h(k), exp) != n
    requires forall i {:trigger groups[i]} :: 0 <= i < |groups| ==> PartitionOf(groups[i].0, exp) == n
    ensures !Has(groups, k)
  {
    hide PartitionOf;
  }

  lemma AllDelivered<K(!new), V>(out: Rows<K, V>, all: Rows<K, V>, exp: nat, g: Agg<V>, h: K -> nat)
    requires exp <= 64 && DeliversPart(out, all, exp, Shift(exp), g, h) && Hash64(h)
    ensures Delivers(out, all, g)
  {
    hide PartitionOf, GroupFold.Fold, Has;
    forall k { PartitionExists(h(k), exp); }
  }

  lemma NothingDelivered<K(!new), V(!new)>(all: Rows<K, V>, exp: nat, g: Agg<V>, h: K -> nat)
    requires exp <= 64
    ensures DeliversPart([], all, exp, 0, g, h)
  {}

  /** Aggregate every partition and deliver its groups.  Which worker aggregates a partition, hence
      which table it uses, makes no difference to the groups. */
  method ForallGroups<K(==, !new), V(!new)>(t: CT.Table<K, V>, ps: seq<Partitions<K, V>>, exp: nat, g: Agg<V>,
      h: K -> nat) returns (out: Rows<K, V>)
    requires TableOk(t, h) && CommutativeMonoid(g) && Hash64(h) && exp <= 64 && AllSpillOk(ps, exp, h) && |ps| > 0
    modifies t, t.dir
    ensures Delivers(out, AllDeques(ps), g)
  {
    hide *;
    PartitionCount(ps, exp, h);
    out := [];
    NothingDelivered(AllDeques(ps), exp, g, h);
    for p := 0 to |ps[0]|
      invariant TableOk(t, h) && (t.dir == old(t.dir) || fresh(t.dir))
      invariant DeliversPart(out, AllDeques(ps), exp, p, g, h)
    {
      ClearTable(t, h);
      AggregatePartition(t, ps, exp, p, g, h);
      TableHas(t, h);
      DeliverNext(out, t.Content(), ps, exp, p, g, h);
      if |t.store| > 0 {
        out := out + t.Content();
      } else {
        t.SameLength();
        assert out + t.Content() == out;
      }
    }
    AllDelivered(out, AllDeques(ps), exp, g, h);
  }

  lemma PartitionCount<K, V>(ps: seq<Partitions<K, V>>, exp: nat, h: K -> nat)
    requires AllSpillOk(ps, exp, h) && |ps| > 0
    ensures |ps[0]| == Shift(exp)
  {
    assert SpillOk(ps[0], exp, h);
  }

  lemma TableHas<K, V>(t: CT.Table<K, V>, h: K -> nat)
    requires TableOk(t, h)
    ensures OneEntryPerKey(t.Content()) && Hashed(t.Content(), h)
  {}

  lemma SameDelivers<K(!new), V(!new)>(out: Rows<K, V>, a: Rows<K, V>, b: Rows<K, V>, g: Agg<V>)
    requires Delivers(out, a, g) && Same(a, b, g)
    ensures Delivers(out, b, g)
  {
    hide GroupFold.Fold, Has;
    forall i {:trigger out[i]} | 0 <= i < |out|
      ensures out[i].2 == GroupFold.Fold(b, out[i].1, g)
    {
      assert SameFor(a, b, out[i].1, g);
    }
    forall k
      ensures Has(out, k) <==> Has(b, k)
    {
      assert SameFor(a, b, k, g);
    }
  }

  // ---- the whole operator

  /** Tuples as rows. */
  function Tagged<K, V>(tuples: seq<(K, V)>, h: K -> nat): (rows: Rows<K, V>)
    ensures |rows| == |tuples| && forall i :: 0 <= i < |rows| ==> rows[i] == (h(tuples[i].0), tuples[i].0, tuples[i].1)
  {
    seq(|tuples|, i requires 0 <= i < |tuples| => (h(tuples[i].0), tuples[i].0, tuples[i].1))
  }

  /** All tuples of all workers. */
  function AllTuples<K, V>(inputs: seq<seq<(K, V)>>, h: K -> nat): Rows<K, V> {
    if inputs == [] then [] else AllTuples(inputs[..|inputs| - 1], h) + Tagged(inputs[|inputs| - 1], h)
  }

  /** One worker pre-aggregates its tuples. */
  method PreAggregate<K(==, !new), V(!new)>(nrThreads: nat, tuples: seq<(K, V)>, g: Agg<V>, h: K -> nat)
    returns (w: Locals<K, V>)
    requires 0 < nrThreads * 4 < Shift(63) && Hash64(h) && CommutativeMonoid(g)
    ensures fresh(w) && fresh(w.spillStorage) && w.Valid(h) && w.spillStorage.exp == BitLength(nrThreads * 4)
    ensures Same(w.Held(), Tagged(tuples, h), g)
  {
    hide *;
    w := new Locals<K, V>(nrThreads, h);
    var rows := Tagged(tuples, h);
    SameSelf<K, V>([], g);
    assert rows[..0] == [];
    for i := 0 to |tuples|
      invariant fresh(w.groups) && fresh(w.groups.dir) && fresh(w.spillStorage)
      invariant w.Valid(h) && w.spillStorage.exp == BitLength(nrThreads * 4)
      invariant Same(w.Held(), rows[..i], g)
    {
      ghost var before := w.Held();
      w.Consume(tuples[i].0, tuples[i].1, g, h);
      SameAppend(w.Held(), before, rows[..i], [rows[i]], g);
      assert rows[..i + 1] == rows[..i] + [rows[i]];
    }
    assert rows[..|tuples|] == rows;
  }

  /** What is in the spill partitions and in the tables of all workers. */
  ghost function InFlight<K, V>(ps: seq<Partitions<K, V>>, left: seq<Rows<K, V>>): Rows<K, V> {
    AllDeques(ps) + Concat(left)
  }

  /** The deques of the workers, their spill partitions being ps. */
  ghost predicate Holds<K, V>(deques: seq<Deque<(nat, K, V)>>, ps: seq<Partitions<K, V>>, exp: nat)
    reads deques
  {
    && |deques| == |ps|
    && (forall d, e :: 0 <= d < e < |deques| ==> deques[d] != deques[e])
    && (forall d :: 0 <= d < |deques| ==> deques[d].exp == exp && deques[d].partitions == ps[d])
  }

  /** Phase 1 of all workers: their deques and the entries left in their tables. */
  method PreAggregateAll<K(==, !new), V(!new)>(nrThreads: nat, inputs: seq<seq<(K, V)>>, g: Agg<V>, h: K -> nat)
    returns (deques: seq<Deque<(nat, K, V)>>, left: seq<Rows<K, V>>, ghost ps: seq<Partitions<K, V>>)
    requires 0 < nrThreads * 4 < Shift(63) && Hash64(h) && CommutativeMonoid(g)
    ensures |ps| == |left| == |inputs| && BitLength(nrThreads * 4) <= 64 && AllSpillOk(ps, BitLength(nrThreads * 4), h)
    ensures Holds(deques, ps, BitLength(nrThreads * 4)) && fresh(deques)
    ensures forall w :: 0 <= w < |left| ==> Hashed(left[w], h)
    ensures Same(InFlight(ps, left), AllTuples(inputs, h), g)
  {
    hide Shift, BitLength, Hash64, CommutativeMonoid, AllSpillOk, Hashed, InFlight, AllTuples, Same, Sorted, Limit,
        OneEntryPerKey, CE.Linked, IsPow2, Locals.Held, Locals.Valid;
    deques, ps, left := [], [], [];
    BitLengthBelow(nrThreads * 4, 63);
    NothingInFlight(inputs, nrThreads, g, h);
    for w := 0 to |inputs|
      invariant |ps| == |left| == w && AllSpillOk(ps, BitLength(nrThreads * 4), h)
      invariant Holds(deques, ps, BitLength(nrThreads * 4)) && fresh(deques)
      invariant forall v :: 0 <= v < |left| ==> Hashed(left[v], h)
      invariant Same(InFlight(ps, left), AllTuples(inputs[..w], h), g)
    {
      var locals := PreAggregate(nrThreads, inputs[w], g, h);
      LocalsAre(locals, h);
      ghost var parts := locals.spillStorage.partitions;
      var entries := locals.groups.Content();
      OneMoreWorker(ps, left, inputs, w, parts, entries, nrThreads, g, h);
      deques, ps, left := deques + [locals.spillStorage], ps + [parts], left + [entries];
    }
    assert inputs[..|inputs|] == inputs;
  }

  lemma LocalsAre<K(!new), V(!new)>(w: Locals<K, V>, h: K -> nat)
    requires w.Valid(h)
    ensures SpillOk(w.spillStorage.partitions, w.spillStorage.exp, h) && Hashed(w.groups.Content(), h)
    ensures w.Held() == AllRows(w.spillStorage.partitions) + w.groups.Content()
  {}

  lemma NothingInFlight<K(!new), V(!new)>(inputs: seq<seq<(K, V)>>, nrThreads: nat, g: Agg<V>, h: K -> nat)
    ensures AllSpillOk<K, V>([], BitLength(nrThreads * 4), h)
    ensures Same(InFlight([], []), AllTuples(inputs[..0], h), g)
  {}

  lemma OneMoreWorker<K(!new), V(!new)>(ps: seq<Partitions<K, V>>, left: seq<Rows<K, V>>, inputs: seq<seq<(K, V)>>,
      w: nat, parts: Partitions<K, V>, entries: Rows<K, V>, nrThreads: nat, g: Agg<V>, h: K -> nat)
    requires w < |inputs| && CommutativeMonoid(g) && AllSpillOk(ps, BitLength(nrThreads * 4), h)
             && SpillOk(parts, BitLength(nrThreads * 4), h)
    requires Same(InFlight(ps, left), AllTuples(inputs[..w], h), g)
             && Same(AllRows(parts) + entries, Tagged(inputs[w], h), g)
    ensures AllSpillOk(ps + [parts], BitLength(nrThreads * 4), h)
    ensures Same(InFlight(ps + [parts], left + [entries]), AllTuples(inputs[..w + 1], h), g)
  {
    hide SpillOk, BitLength, Same, CommutativeMonoid, AllRows, Tagged;
    assert inputs[..w + 1][..w] == inputs[..w];
    assert (ps + [parts])[..|ps|] == ps;
    assert (left + [entries])[..|left|] == left;
    var a, b, c, d := AllDeques(ps), Concat(left), AllRows(parts), entries;
    SameConcat(a + b, AllTuples(inputs[..w], h), c + d, Tagged(inputs[w], h), g);
    assert a + b + (c + d) == a + b + c + d && a + c + (b + d) == a + c + b + d;
    SameSwap(a, c, b, g);
    SameSelf(d, g);
    SameConcat(a + c + b, a + b + c, d, d, g);
    SameTrans(a + c + b + d, a + b + c + d, AllTuples(inputs[..w], h) + Tagged(inputs[w], h), g);
  }

  lemma {:induction false} DequeGrows<K(!new), V(!new)>(ps: seq<Partitions<K, V>>, d: nat, q: Partitions<K, V>,
      rows: Rows<K, V>, g: Agg<V>)
    requires d < |ps| && CommutativeMonoid(g) && Same(AllRows(q), AllRows(ps[d]) + rows, g)
    ensures Same(AllDeques(ps[d := q]), AllDeques(ps) + rows, g)
  {
    hide CommutativeMonoid, Same, AllRows;
    var n := |ps| - 1;
    var front, last := ps[..n], AllRows(ps[n]);
    if d == n {
      assert ps[d := q][..n] == front;
      SameSelf(AllDeques(front), g);
      SameConcat(AllDeques(front), AllDeques(front), AllRows(q), last + rows, g);
      assert AllDeques(front) + (last + rows) == AllDeques(front) + last + rows;
    } else {
      assert ps[d := q][..n] == front[d := q];
      DequeGrows(front, d, q, rows, g);
      SameSelf(last, g);
      SameConcat(AllDeques(front[d := q]), AllDeques(front) + rows, last, last, g);
      SameSwap(AllDeques(front), rows, last, g);
      SameTrans(AllDeques(front[d := q]) + last, AllDeques(front) + rows + last, AllDeques(front) + last + rows, g);
    }
  }

  /** Spill what is left in the workers' tables.  Any worker may take over any table: the entries of
      table w go to the deque of worker to[w]. */
  method SpillAll<K(!new), V(!new)>(deques: seq<Deque<(nat, K, V)>>, ghost was: seq<Partitions<K, V>>,
      left: seq<Rows<K, V>>, to: seq<nat>, exp: nat, g: Agg<V>, h: K -> nat)
    returns (ghost ps: seq<Partitions<K, V>>)
    requires Holds(deques, was, exp) && AllSpillOk(was, exp, h) && exp <= 64 && Hash64(h) && CommutativeMonoid(g)
    requires |to| == |left| && forall w :: 0 <= w < |left| ==> to[w] < |deques| && Hashed(left[w], h)
    modifies deques
    ensures Holds(deques, ps, exp) && AllSpillOk(ps, exp, h)
    ensures Same(AllDeques(ps), AllDeques(was) + Concat(left), g)
  {
    hide AllSpillOk, Shift, Hash64, CommutativeMonoid, Hashed, Same, Sorted, AllDeques, AllRows, Concat;
    ps := was;
    SameSelf(AllDeques(was), g);
    EmptyConcat(left);
    assert AllDeques(was) + [] == AllDeques(was);
    for w := 0 to |left|
      invariant Holds(deques, ps, exp) && AllSpillOk(ps, exp, h)
      invariant Same(AllDeques(ps), AllDeques(was) + Concat(left[..w]), g)
    {
      var t := to[w];
      SpillOkIs(deques[t], ps, t, exp, h);
      ghost var before := AllDeques(ps);
      SpillRows(deques[t], left[w], g, h);
      ghost var q := deques[t].partitions;
      DequeGrows(ps, t, q, left[w], g);
      StillSpillOk(deques[t], ps, t, exp, h);
      ps := ps[t := q];
      SameAppend(AllDeques(ps), before, AllDeques(was) + Concat(left[..w]), left[w], g);
      ConcatNext(left, w);
      assert AllDeques(was) + Concat(left[..w]) + left[w] == AllDeques(was) + Concat(left[..w + 1]);
    }
    assert left[..|left|] == left;
  }

  lemma SpillOkIs<K, V>(deque: Deque<(nat, K, V)>, ps: seq<Partitions<K, V>>, d: nat, exp: nat, h: K -> nat)
    requires d < |ps| && AllSpillOk(ps, exp, h) && deque.partitions == ps[d] && deque.exp == exp
    ensures deque.Valid() && Sorted(deque.partitions, deque.exp, h)
  {
    hide Sorted;
    assert SpillOk(ps[d], exp, h);
  }

  lemma StillSpillOk<K, V>(deque: Deque<(nat, K, V)>, ps: seq<Partitions<K, V>>, d: nat, exp: nat, h: K -> nat)
    requires d < |ps| && AllSpillOk(ps, exp, h) && deque.exp == exp && deque.Valid() && Sorted(deque.partitions, exp, h)
    ensures AllSpillOk(ps[d := deque.partitions], exp, h)
  {
    hide Sorted;
  }

  /** Two-phase grouping is exact: for any split of the tuples among the workers, any hash function
      with any collisions, any spilling it causes, and any takeover of left-over tables, every key
      is delivered exactly once, with the fold of all its values. */
  method GroupAll<K(==, !new), V(!new)>(nrThreads: nat, inputs: seq<seq<(K, V)>>, to: seq<nat>, g: Agg<V>, h: K -> nat)
    returns (out: Rows<K, V>)
    requires 0 < nrThreads * 4 < Shift(63) && Hash64(h) && CommutativeMonoid(g)
    requires |inputs| > 0 && |to| == |inputs| && forall w :: 0 <= w < |to| ==> to[w] < |inputs|
    ensures Delivers(out, AllTuples(inputs, h), g)
  {
    hide Shift, BitLength, Hash64, CommutativeMonoid, AllSpillOk, Hashed, AllTuples, Same, Sorted, Limit,
        OneEntryPerKey, CE.Linked, IsPow2, AllDeques, Concat, Delivers, Partition.Valid;
    var deques, left, ps := PreAggregateAll(nrThreads, inputs, g, h);
    ghost var spilled := SpillAll(deques, ps, left, to, BitLength(nrThreads * 4), g, h);
    SameTrans(AllDeques(spilled), InFlight(ps, left), AllTuples(inputs, h), g);
    var parts := PartitionsOf(deques, spilled, BitLength(nrThreads * 4));
    var t := FreshTable(h);
    out := ForallGroups(t, parts, BitLength(nrThreads * 4), g, h);
    SameDelivers(out, AllDeques(spilled), AllTuples(inputs, h), g);
  }

  method PartitionsOf<K, V>(deques: seq<Deque<(nat, K, V)>>, ghost ps: seq<Partitions<K, V>>, ghost exp: nat)
    returns (parts: seq<Partitions<K, V>>)
    requires Holds(deques, ps, exp)
    ensures parts == ps
  {
    parts := [];
    for d := 0 to |deques|
      invariant parts == ps[..d]
    {
      parts := parts + [deques[d].partitions];
    }
  }

  method FreshTable<K, V>(ghost h: K -> nat) returns (t: CT.Table<K, V>)
    ensures fresh(t) && fresh(t.dir) && TableOk(t, h)
  {
    hide CE.Linked, IsPow2;
    t := new CT.Table<K, V>(1024);
    CapacityIsEnough(1024);
  }
}
