/** The vectorised hash aggregation: workers pre-aggregate batches and spill, then the partitions are
    aggregated batch by batch. */
module HashGroup {

  import opened GroupFold
  import opened Numbers
  import opened PartitionedDeque
  import opened Words
  import Capacity
  import CT = ChainedTable
  import D = GroupDelivery
  import GB = GroupBy
  import GL = GroupLookup
  import HS = HashmapSmall
  import Murmur
  import S = GroupStreams

  /** No two keys share their full hash. */
  ghost predicate Injective<K(!new)>(h: K -> nat) {
    forall k, l :: h(k) == h(l) ==> k == l
  }

  type Key64 = k: nat | k < Murmur.W64

  function MurmurOf(seed: nat): Key64 -> nat {
    (k: Key64) => Murmur.Hash64(k, seed)
  }

  /** Murmur on 64-bit keys is such a hash, for every seed. */
  lemma MurmurIsInjective(seed: nat)
    requires seed < Murmur.W64
    ensures Injective(MurmurOf(seed)) && GB.Hash64(MurmurOf(seed))
  {
    hide Murmur.Hash64, Shift;
    forall k: Key64, l: Key64 | MurmurOf(seed)(k) == MurmurOf(seed)(l)
      ensures k == l
    {
      Murmur.NoCollision64(k, l, seed);
    }
    forall k: Key64
      ensures MurmurOf(seed)(k) < Shift(64)
    {
      Murmur.UnhashHash64(k, seed);
      Murmur.Widths();
    }
  }

  /** All objects a group lookup works on. */
  ghost function Parts<K, V>(w: GL.GroupLookup<K, V>): set<object>
    reads w.ht`dir, w.groupHt`dir, w.groupHt`storage
  {
    {w, w.ht, w.ht.dir, w.groupHt, w.groupHt.dir, w.groupHt.storage, w.htMatches, w.groupsFound, w.partitionedRows,
        w.partitionEndsOut, w.groupRepresentatives}
  }

  /** Ready for batches of up to n rows. */
  ghost predicate Ready<K, V>(w: GL.GroupLookup<K, V>, n: nat, g: Agg<V>, h: K -> nat)
    reads w, w.ht, w.ht.dir, w.groupHt, w.groupHt.dir, w.groupHt.storage
  {
    w.Valid() && w.Room(n) && w.init == g.init && GB.Hashed(w.ht.Content(), h)
  }

  /** Row number i of a batch; any row past its end. */
  function KeyOf<K, V>(rows: Rows<K, V>, i: nat): K
    requires rows != []
  {
    if i < |rows| then rows[i].1 else rows[0].1
  }

  function HashOf<K, V>(rows: Rows<K, V>, i: nat): nat
    requires rows != []
  {
    if i < |rows| then rows[i].0 else rows[0].0
  }

  /** The columns of a batch: key and hash of row i. */
  ghost predicate Columns<K, V>(rows: Rows<K, V>, key: nat -> K, hash: nat -> nat) {
    forall i :: 0 <= i < |rows| ==> key(i) == rows[i].1 && hash(i) == rows[i].0
  }

  lemma ColumnsOf<K, V>(rows: Rows<K, V>, key: nat -> K, hash: nat -> nat)
    requires rows != [] && key == ((i: nat) => KeyOf(rows, i)) && hash == ((i: nat) => HashOf(rows, i))
    ensures Columns(rows, key, hash)
  {}

  lemma InjectiveNeverClashes<K(!new), V>(c: Rows<K, V>, rows: Rows<K, V>, key: nat -> K, hash: nat -> nat, h: K -> nat)
    requires Injective(h) && GB.Hashed(c, h) && GB.Hashed(rows, h) && Columns(rows, key, hash)
    ensures GL.NoClash(c, |rows|, key, hash)
  {
    forall i | 0 <= i < |rows|
      ensures hash(i) == h(key(i))
    {}
  }

  // ---- one batch

  /** The new entries a lookup creates add nothing to any fold. */
  lemma {:induction false} FoldOfInits<K(!new), V(!new)>(added: Rows<K, V>, k: K, g: Agg<V>)
    requires CommutativeMonoid(g) && forall e :: 0 <= e < |added| ==> added[e].2 == g.init
    ensures GroupFold.Fold(added, k, g) == g.init
  {
    if added != [] {
      FoldOfInits(added[..|added| - 1], k, g);
      Unit(g, g.init);
    }
  }

  lemma CreatedEntriesAreNeutral<K(!new), V(!new)>(c: Rows<K, V>, added: Rows<K, V>, rows: Rows<K, V>, g: Agg<V>)
    requires CommutativeMonoid(g) && forall e :: 0 <= e < |added| ==> added[e].2 == g.init && Has(rows, added[e].1)
    ensures Same(c + added + rows, c + rows, g)
  {
    hide CommutativeMonoid, GroupFold.Fold;
    forall k
      ensures SameFor(c + added + rows, c + rows, k, g)
    {
      FoldOfInits(added, k, g);
      FoldConcat(c, added, k, g);
      FoldConcat(c + added, rows, k, g);
      FoldConcat(c, rows, k, g);
      Unit(g, GroupFold.Fold(c, k, g));
      HasOnly(added, rows, k);
    }
  }

  lemma HasOnly<K(!new), V>(added: Rows<K, V>, rows: Rows<K, V>, k: K)
    requires forall e :: 0 <= e < |added| ==> Has(rows, added[e].1)
    ensures Has(added, k) ==> Has(rows, k)
  {}

  /** Every row's match is the entry with its key. */
  ghost predicate Matched<K, V>(w: GL.GroupLookup<K, V>, rows: Rows<K, V>)
    reads w.ht`store, w.htMatches
  {
    forall i :: 0 <= i < |rows| ==>
          i < w.htMatches.Length && 0 <= w.htMatches[i] < |w.ht.Content()|
          && w.ht.Content()[w.htMatches[i]].1 == rows[i].1
  }

  /** Find or create the entries of a batch. */
  method LookUp<K(==, !new), V(!new)>(w: GL.GroupLookup<K, V>, rows: Rows<K, V>, allowResize: bool, n: nat, g: Agg<V>,
      h: K -> nat)
    requires Ready(w, n, g, h) && 0 < |rows| <= n && GB.Hashed(rows, h) && Injective(h) && CommutativeMonoid(g)
    modifies Parts(w)
    ensures Ready(w, n, g, h) && (w.ht.dir == old(w.ht.dir) || fresh(w.ht.dir)) && w.groupHt.dir == old(w.groupHt.dir)
            && w.groupHt.storage == old(w.groupHt.storage)
    ensures Same(w.ht.Content() + rows, old(w.ht.Content()) + rows, g)
    ensures Matched(w, rows) && |w.ht.Content()| >= |old(w.ht.Content())|
    ensures allowResize && old(w.InLoad()) ==> w.InLoad()
  {
    hide *;
    var key, hash := (i: nat) => KeyOf(rows, i), (i: nat) => HashOf(rows, i);
    ColumnsOf(rows, key, hash);
    Unpack(w, n, g, h);
    Smaller(w, |rows|, n);
    InjectiveNeverClashes(w.ht.Content(), rows, key, hash, h);
    ghost var c := w.ht.Content();
    w.LookupBatch(|rows|, key, hash, allowResize);
    LookedUp(c, w.ht.Content(), rows, key, hash, g, h);
    Pack(w, n, g, h);
    MatchesAre(w, rows, key, hash);
  }

  lemma Unpack<K, V>(w: GL.GroupLookup<K, V>, n: nat, g: Agg<V>, h: K -> nat)
    requires Ready(w, n, g, h)
    ensures w.Valid() && w.Room(n) && w.init == g.init && GB.Hashed(w.ht.Content(), h)
    ensures Parts(w) == {w, w.ht, w.ht.dir, w.groupHt, w.groupHt.dir, w.groupHt.storage, w.htMatches, w.groupsFound,
            w.partitionedRows, w.partitionEndsOut, w.groupRepresentatives}
  {}

  lemma Pack<K, V>(w: GL.GroupLookup<K, V>, n: nat, g: Agg<V>, h: K -> nat)
    requires w.Valid() && w.Room(n) && w.init == g.init && GB.Hashed(w.ht.Content(), h)
    ensures Ready(w, n, g, h)
    ensures Parts(w) == {w, w.ht, w.ht.dir, w.groupHt, w.groupHt.dir, w.groupHt.storage, w.htMatches, w.groupsFound,
            w.partitionedRows, w.partitionEndsOut, w.groupRepresentatives}
  {}

  lemma Smaller<K, V>(w: GL.GroupLookup<K, V>, m: nat, n: nat)
    requires m <= n && w.Room(n)
    ensures w.Room(m)
  {}

  lemma MatchesAre<K, V>(w: GL.GroupLookup<K, V>, rows: Rows<K, V>, key: nat -> K, hash: nat -> nat)
    requires w.Room(|rows|) && Columns(rows, key, hash)
    requires forall i ::
             0 <= i < |rows| ==> i < w.htMatches.Length && 0 <= w.htMatches[i] == GL.EntryOf(w.ht.Content(), key(i))
    ensures Matched(w, rows)
  {}

  lemma LookedUp<K(!new), V(!new)>(c: Rows<K, V>, c': Rows<K, V>, rows: Rows<K, V>, key: nat -> K, hash: nat -> nat,
      g: Agg<V>, h: K -> nat)
    requires c <= c' && GB.Hashed(c, h) && GB.Hashed(rows, h) && CommutativeMonoid(g) && Columns(rows, key, hash)
    requires forall e :: |c| <= e < |c'| ==> GL.IsNewEntry(c, |rows|, key, hash, g.init, c'[e])
    ensures Same(c' + rows, c + rows, g) && GB.Hashed(c', h)
  {
    hide Same, CommutativeMonoid, GB.Hashed, GL.IsNewEntry, Has, Columns;
    var added := c'[|c|..];
    assert c' == c + added;
    forall e | 0 <= e < |added|
      ensures added[e].2 == g.init && Has(rows, added[e].1) && added[e].0 == h(added[e].1)
    {
      assert added[e] == c'[|c| + e];
      NewIsOfRow(c, rows, key, hash, g.init, c'[|c| + e], h);
    }
    CreatedEntriesAreNeutral(c, added, rows, g);
    StillHashed(c, added, h);
  }

  lemma NewIsOfRow<K(!new), V>(c: Rows<K, V>, rows: Rows<K, V>, key: nat -> K, hash: nat -> nat, init: V,
      e: (nat, K, V), h: K -> nat)
    requires GL.IsNewEntry(c, |rows|, key, hash, init, e) && GB.Hashed(rows, h) && Columns(rows, key, hash)
    ensures e.2 == init && Has(rows, e.1) && e.0 == h(e.1)
  {
    var x: nat :| x < |rows| && GL.EntryOf(c, key(x)) < 0 && e == (hash(x), key(x), init);
    assert rows[x].1 == e.1;
  }

  lemma StillHashed<K, V>(c: Rows<K, V>, added: Rows<K, V>, h: K -> nat)
    requires GB.Hashed(c, h) && forall e :: 0 <= e < |added| ==> added[e].0 == h(added[e].1)
    ensures GB.Hashed(c + added, h)
  {}

  /** Fold every row into the entry it matched. */
  method UpdateGroups<K(!new), V(!new)>(w: GL.GroupLookup<K, V>, rows: Rows<K, V>, n: nat, g: Agg<V>, h: K -> nat)
    requires Ready(w, n, g, h) && GB.Hashed(rows, h) && CommutativeMonoid(g)
    requires Matched(w, rows)
    modifies w.ht`store
    ensures Ready(w, n, g, h) && |w.ht.Content()| == |old(w.ht.Content())|
    ensures Same(w.ht.Content(), old(w.ht.Content()) + rows, g)
  {
    hide Same, CommutativeMonoid, GL.DistinctEntries, CT.Table.Valid, CT.Table.Content;
    SameSelf(w.ht.Content(), g);
    assert w.ht.Content() + rows[..0] == w.ht.Content();
    MatchesApart(w, n, g, h);
    for i := 0 to |rows|
      invariant Ready(w, n, g, h) && |w.ht.Content()| == |old(w.ht.Content())|
      invariant forall e :: 0 <= e < |w.ht.Content()| ==> w.ht.Content()[e].1 == old(w.ht.Content())[e].1
      invariant Same(w.ht.Content(), old(w.ht.Content()) + rows[..i], g)
    {
      ghost var before := w.ht.Content();
      var row := rows[i];
      var e := w.htMatches[i];
      UpdateSame(before, e, rows[i].2, g);
      w.ht.SameLength();
      w.SetAggregate(e, g.op(AggregateOf(w, e, n, g, h), row.2));
      assert (before[e].0, before[e].1, rows[i].2) == rows[i];
      SameAppendRows(w.ht.Content(), before, old(w.ht.Content()), rows, i, g);
    }
    assert rows[..|rows|] == rows;
  }

  function AggregateOf<K, V>(w: GL.GroupLookup<K, V>, e: nat, ghost n: nat, ghost g: Agg<V>, ghost h: K -> nat): (v: V)
    requires Ready(w, n, g, h) && e < |w.ht.Content()|
    reads w, w.ht, w.ht.dir, w.groupHt, w.groupHt.dir, w.groupHt.storage
    ensures v == w.ht.Content()[e].2
  {
    w.ht.store[e].value
  }

  lemma MatchesApart<K, V>(w: GL.GroupLookup<K, V>, n: nat, g: Agg<V>, h: K -> nat)
    requires Ready(w, n, g, h)
    ensures w.htMatches as object != w.ht as object
  {}

  lemma SameAppendRows<K(!new), V(!new)>(a: Rows<K, V>, b: Rows<K, V>, c: Rows<K, V>, rows: Rows<K, V>, i: nat,
      g: Agg<V>)
    requires CommutativeMonoid(g) && i < |rows| && Same(a, b + [rows[i]], g) && Same(b, c + rows[..i], g)
    ensures Same(a, c + rows[..i + 1], g)
  {
    hide *;
    GB.SameAppend(a, b, c + rows[..i], [rows[i]], g);
    assert c + rows[..i] + [rows[i]] == c + rows[..i + 1];
  }

  /** Aggregate one batch. */
  method AggregateBatch<K(==, !new), V(!new)>(w: GL.GroupLookup<K, V>, rows: Rows<K, V>, allowResize: bool, n: nat,
      g: Agg<V>, h: K -> nat)
    requires Ready(w, n, g, h) && |rows| <= n && GB.Hashed(rows, h) && Injective(h) && CommutativeMonoid(g)
    modifies Parts(w)
    ensures Ready(w, n, g, h) && (w.ht.dir == old(w.ht.dir) || fresh(w.ht.dir)) && w.groupHt.dir == old(w.groupHt.dir)
            && w.groupHt.storage == old(w.groupHt.storage)
    ensures Same(w.ht.Content(), old(w.ht.Content()) + rows, g) && |w.ht.Content()| >= |old(w.ht.Content())|
    ensures allowResize && old(w.InLoad()) ==> w.InLoad()
  {
    hide *;
    if rows == [] {
      SameSelf(w.ht.Content(), g);
      assert w.ht.Content() + [] == w.ht.Content();
      return;
    }
    ghost var c := w.ht.Content();
    LookUp(w, rows, allowResize, n, g, h);
    ghost var c' := w.ht.Content();
    HtIsPart(w);
    w.LoadIs();
    UpdateGroups(w, rows, n, g, h);
    w.LoadIs();
    SameTrans(w.ht.Content(), c' + rows, c + rows, g);
  }

  lemma HtIsPart<K, V>(w: GL.GroupLookup<K, V>)
    ensures w.ht in Parts(w)
  {}

  // ---- phase 1: pre-aggregation and spilling

  /** Move all entries to the spill partitions. */
  method FlushAndClear<K(!new), V(!new)>(w: GL.GroupLookup<K, V>, deque: Deque<(nat, K, V)>, n: nat, g: Agg<V>,
      h: K -> nat)
    requires Ready(w, n, g, h) && CommutativeMonoid(g) && GB.Hash64(h)
    requires deque.Valid() && GB.Sorted(deque.partitions, deque.exp, h)
    modifies Parts(w), deque`partitions
    ensures Ready(w, n, g, h) && w.ht.dir == old(w.ht.dir) && w.groupHt.dir == old(w.groupHt.dir)
            && w.groupHt.storage == old(w.groupHt.storage) && w.ht.Content() == []
    ensures deque.Valid() && GB.Sorted(deque.partitions, deque.exp, h)
    ensures Same(GB.AllRows(deque.partitions), GB.AllRows(old(deque.partitions)) + old(w.ht.Content()), g)
  {
    hide Same, CommutativeMonoid, GB.Hash64, GB.Sorted, GB.AllRows, GL.DistinctEntries, CT.Table.Valid;
    Unpack(w, n, g, h);
    GB.SpillRows(deque, w.ht.Content(), g, h);
    w.ClearHashtable();
    Pack(w, n, g, h);
  }

  lemma BatchHeld<K(!new), V(!new)>(spilled: Rows<K, V>, c: Rows<K, V>, c': Rows<K, V>, rows: Rows<K, V>,
      all: Rows<K, V>, g: Agg<V>)
    requires CommutativeMonoid(g) && Same(spilled + c, all, g) && Same(c', c + rows, g)
    ensures Same(spilled + c', all + rows, g)
  {
    hide *;
    SameSelf(spilled, g);
    SameConcat(spilled, spilled, c', c + rows, g);
    assert spilled + (c + rows) == spilled + c + rows;
    GB.SameAppend(spilled + c', spilled + c, all, rows, g);
  }

  /** One batch of a worker.  Once maxFill groups have been created, the table is flushed, and before that
      nothing is: so it never goes on with maxFill groups or more. */
  method PreAggregateBatch<K(==, !new), V(!new)>(w: GL.GroupLookup<K, V>, deque: Deque<(nat, K, V)>,
      rows: Rows<K, V>, groups: nat, maxFill: nat, n: nat, g: Agg<V>, h: K -> nat) returns (groups': nat)
    requires Ready(w, n, g, h) && CommutativeMonoid(g) && GB.Hash64(h) && Injective(h)
    requires deque.Valid() && GB.Sorted(deque.partitions, deque.exp, h) && |rows| <= n && GB.Hashed(rows, h)
    modifies Parts(w), deque`partitions
    ensures Ready(w, n, g, h) && (w.ht.dir == old(w.ht.dir) || fresh(w.ht.dir))
            && w.groupHt.dir == old(w.groupHt.dir) && w.groupHt.storage == old(w.groupHt.storage)
    ensures deque.Valid() && GB.Sorted(deque.partitions, deque.exp, h)
    ensures Same(GB.AllRows(deque.partitions) + w.ht.Content(),
                 old(GB.AllRows(deque.partitions) + w.ht.Content()) + rows, g)
    ensures groups <= groups'
    ensures if groups' >= maxFill then w.ht.Content() == []
            else
              && deque.partitions == old(deque.partitions)
              && |w.ht.Content()| == |old(w.ht.Content())| + (groups' - groups)
  {
    hide *;
    PartsAre(w);
    DequeIs(deque);
    ghost var c, spilled := w.ht.Content(), GB.AllRows(deque.partitions);
    ghost var all := spilled + c;
    w.ht.SameLength();
    var before := |w.ht.store|;
    AggregateBatch(w, rows, false, n, g, h);
    w.ht.SameLength();
    groups' := groups + (|w.ht.store| - before);
    SameSelf(all, g);
    BatchHeld(spilled, c, w.ht.Content(), rows, all, g);
    if groups' >= maxFill {
      ghost var held := spilled + w.ht.Content();
      PartsAre(w);
      FlushAndClear(w, deque, n, g, h);
      assert GB.AllRows(deque.partitions) + [] == GB.AllRows(deque.partitions);
      SameTrans(GB.AllRows(deque.partitions), held, all + rows, g);
    }
  }

  /** One worker aggregates its batches and spills everything. */
  method PreAggregate<K(==, !new), V(!new)>(w: GL.GroupLookup<K, V>, deque: Deque<(nat, K, V)>,
      batches: seq<Rows<K, V>>, maxFill: nat, n: nat, g: Agg<V>, h: K -> nat)
    requires Ready(w, n, g, h) && w.ht.Content() == [] && CommutativeMonoid(g) && GB.Hash64(h) && Injective(h)
    requires deque.Valid() && GB.Sorted(deque.partitions, deque.exp, h) && GB.AllRows(deque.partitions) == []
    requires forall b :: 0 <= b < |batches| ==> |batches[b]| <= n && GB.Hashed(batches[b], h)
    modifies Parts(w), deque`partitions
    ensures deque.Valid() && GB.Sorted(deque.partitions, deque.exp, h)
    ensures Same(GB.AllRows(deque.partitions), Concat(batches), g)
  {
    hide *;
    PartsAre(w);
    DequeIs(deque);
    var groups := 0;
    GB.EmptyConcat(batches);
    SameSelf<K, V>([], g);
    assert GB.AllRows(deque.partitions) + w.ht.Content() == [];
    for b := 0 to |batches|
      invariant Ready(w, n, g, h) && (w.ht.dir == old(w.ht.dir) || fresh(w.ht.dir))
                && w.groupHt.dir == old(w.groupHt.dir) && w.groupHt.storage == old(w.groupHt.storage)
      invariant deque.Valid() && GB.Sorted(deque.partitions, deque.exp, h)
      invariant w.ht.Content() == [] || |w.ht.Content()| <= groups < maxFill
      invariant Same(GB.AllRows(deque.partitions) + w.ht.Content(), Concat(batches[..b]), g)
    {
      ghost var held := GB.AllRows(deque.partitions) + w.ht.Content();
      PartsAre(w);
      groups := PreAggregateBatch(w, deque, batches[b], groups, maxFill, n, g, h);
      GB.ConcatNext(batches, b);
      GB.SameAppend(GB.AllRows(deque.partitions) + w.ht.Content(), held, Concat(batches[..b]), batches[b], g);
    }
    assert batches[..|batches|] == batches;
    ghost var held := GB.AllRows(deque.partitions) + w.ht.Content();
    PartsAre(w);
    FlushAndClear(w, deque, n, g, h);
    SameTrans(GB.AllRows(deque.partitions), held, Concat(batches), g);
  }

  lemma PartsAre<K, V>(w: GL.GroupLookup<K, V>)
    ensures Parts(w) == {w, w.ht, w.ht.dir, w.groupHt, w.groupHt.dir, w.groupHt.storage, w.htMatches, w.groupsFound,
            w.partitionedRows, w.partitionEndsOut, w.groupRepresentatives}
  {}

  lemma DequeIs<T>(deque: Deque<T>)
    requires deque.Valid()
    ensures deque.exp <= 64
  {}

  // ---- phase 2: one partition, batch by batch

  /** Aggregate one chunk of spilled rows in batches of at most n. */
  method AggregateChunk<K(==, !new), V(!new)>(w: GL.GroupLookup<K, V>, part: Partition<(nat, K, V)>, c: nat, n: nat,
      g: Agg<V>, h: K -> nat)
    requires Ready(w, n, g, h) && CommutativeMonoid(g) && Injective(h) && n > 0
    requires part.Valid() && c < |part.chunks| && GB.Hashed(part.chunks[c], h)
    modifies Parts(w)
    ensures Ready(w, n, g, h) && (w.ht.dir == old(w.ht.dir) || fresh(w.ht.dir)) && w.groupHt.dir == old(w.groupHt.dir)
            && w.groupHt.storage == old(w.groupHt.storage)
    ensures Same(w.ht.Content(), old(w.ht.Content()) + part.chunks[c], g)
    ensures old(w.InLoad()) ==> w.InLoad()
  {
    hide Ready, GL.GroupLookup.InLoad, Same, CommutativeMonoid, Injective, GB.Hashed, Partition.Valid, CT.Table.Content;
    var chunk := part.chunks[c];
    var nPart := part.Size(c);
    var pos := 0;
    var m := Min(nPart, n);
    SameSelf(w.ht.Content(), g);
    assert w.ht.Content() + chunk[..0] == w.ht.Content();
    while m != 0
      decreases nPart
      invariant pos + nPart == |chunk| && m == Min(nPart, n)
      invariant Ready(w, n, g, h) && (w.ht.dir == old(w.ht.dir) || fresh(w.ht.dir))
                && w.groupHt.dir == old(w.groupHt.dir) && w.groupHt.storage == old(w.groupHt.storage)
      invariant Same(w.ht.Content(), old(w.ht.Content()) + chunk[..pos], g)
      invariant old(w.InLoad()) ==> w.InLoad()
    {
      ghost var before := w.ht.Content();
      HashedSlice(chunk, pos, pos + m, h);
      AggregateBatch(w, chunk[pos..pos + m], true, n, g, h);
      GB.SameAppend(w.ht.Content(), before, old(w.ht.Content()) + chunk[..pos], chunk[pos..pos + m], g);
      assert old(w.ht.Content()) + chunk[..pos] + chunk[pos..pos + m] == old(w.ht.Content()) + chunk[..pos + m];
      nPart := nPart - m;
      pos := pos + m;
      m := Min(nPart, n);
    }
    assert chunk[..pos] == chunk;
  }

  lemma HashedSlice<K, V>(rows: Rows<K, V>, a: nat, b: nat, h: K -> nat)
    requires GB.Hashed(rows, h) && a <= b <= |rows|
    ensures GB.Hashed(rows[a..b], h)
  {}

  lemma ChunkHashed<K, V>(part: Partition<(nat, K, V)>, c: nat, h: K -> nat)
    requires GB.Hashed(part.Content(), h) && c < |part.chunks|
    ensures GB.Hashed(part.chunks[c], h)
  {
    forall i | 0 <= i < |part.chunks[c]|
      ensures part.chunks[c][i].0 == h(part.chunks[c][i].1)
    {
      GB.ConcatAt(part.chunks, c, i);
    }
  }

  /** Aggregate one worker's part of a partition. */
  method AggregatePart<K(==, !new), V(!new)>(w: GL.GroupLookup<K, V>, part: Partition<(nat, K, V)>, n: nat, g: Agg<V>,
      h: K -> nat)
    requires Ready(w, n, g, h) && CommutativeMonoid(g) && Injective(h) && n > 0 && part.Valid()
             && GB.Hashed(part.Content(), h)
    modifies Parts(w)
    ensures Ready(w, n, g, h) && (w.ht.dir == old(w.ht.dir) || fresh(w.ht.dir)) && w.groupHt.dir == old(w.groupHt.dir)
            && w.groupHt.storage == old(w.groupHt.storage)
    ensures Same(w.ht.Content(), old(w.ht.Content()) + part.Content(), g)
    ensures old(w.InLoad()) ==> w.InLoad()
  {
    hide Ready, GL.GroupLookup.InLoad, Same, CommutativeMonoid, Injective, GB.Hashed, Partition.Valid,
        CT.Table.Content, Concat;
    SameSelf(w.ht.Content(), g);
    GB.EmptyConcat(part.chunks);
    assert w.ht.Content() + Concat(part.chunks[..0]) == w.ht.Content();
    for c := 0 to |part.chunks|
      invariant Ready(w, n, g, h) && (w.ht.dir == old(w.ht.dir) || fresh(w.ht.dir))
                && w.groupHt.dir == old(w.groupHt.dir) && w.groupHt.storage == old(w.groupHt.storage)
      invariant Same(w.ht.Content(), old(w.ht.Content()) + Concat(part.chunks[..c]), g)
      invariant old(w.InLoad()) ==> w.InLoad()
    {
      ghost var before := w.ht.Content();
      ChunkHashed(part, c, h);
      AggregateChunk(w, part, c, n, g, h);
      GB.SameAppend(w.ht.Content(), before, old(w.ht.Content()) + Concat(part.chunks[..c]), part.chunks[c], g);
      GB.ConcatNext(part.chunks, c);
      assert old(w.ht.Content()) + Concat(part.chunks[..c]) + part.chunks[c] == old(w.ht.Content())
             + Concat(part.chunks[..c + 1]);
    }
    assert part.chunks[..|part.chunks|] == part.chunks;
  }

  /** Aggregate a partition over all workers. */
  method AggregatePartition<K(==, !new), V(!new)>(w: GL.GroupLookup<K, V>, ps: seq<GB.Partitions<K, V>>, exp: nat,
      p: nat, n: nat, g: Agg<V>, h: K -> nat)
    requires Ready(w, n, g, h) && w.ht.Content() == [] && CommutativeMonoid(g) && Injective(h) && n > 0
    requires exp <= 64 && GB.AllSpillOk(ps, exp, h) && p < Shift(exp)
    modifies Parts(w)
    ensures Ready(w, n, g, h) && (w.ht.dir == old(w.ht.dir) || fresh(w.ht.dir)) && w.groupHt.dir == old(w.groupHt.dir)
            && w.groupHt.storage == old(w.groupHt.storage)
    ensures Same(w.ht.Content(), GB.PartitionRows(ps, p), g)
    ensures old(w.InLoad()) ==> w.InLoad()
  {
    hide Ready, GL.GroupLookup.InLoad, Same, CommutativeMonoid, Injective, GB.Hashed, Partition.Valid,
        Partition.Content, CT.Table.Content,
        Shift, GB.Sorted;
    SameSelf<K, V>([], g);
    for d := 0 to |ps|
      invariant Ready(w, n, g, h) && (w.ht.dir == old(w.ht.dir) || fresh(w.ht.dir))
                && w.groupHt.dir == old(w.groupHt.dir) && w.groupHt.storage == old(w.groupHt.storage)
      invariant Same(w.ht.Content(), GB.PartitionRows(ps[..d], p), g)
      invariant old(w.InLoad()) ==> w.InLoad()
    {
      ghost var before := w.ht.Content();
      assert GB.SpillOk(ps[d], exp, h);
      GB.PartIsHashed(ps[d], exp, p, h);
      AggregatePart(w, ps[d][p], n, g, h);
      GB.SameAppend(w.ht.Content(), before, GB.PartitionRows(ps[..d], p), ps[d][p].Content(), g);
      assert ps[..d + 1][..d] == ps[..d];
    }
    assert ps[..|ps|] == ps;
  }

  /** The counter of partitions that all workers share. */
  class Counter {
    var partition: nat

    constructor ()
      ensures partition == 0
    {
      partition := 0;
    }

    /** fetch_add(1).  Other workers may have claimed any number of partitions before. */
    method FetchAdd() returns (r: nat)
      modifies this
      ensures old(partition) <= r && partition == r + 1
    {
      var others :| partition <= partition + others;
      r := partition + others;
      partition := r + 1;
    }
  }

  /** The entries of memory block b are where the blocks before end. */
  lemma BlockIs<K, V>(w: GL.GroupLookup<K, V>, n: nat, g: Agg<V>, h: K -> nat, b: nat)
    requires Ready(w, n, g, h) && b < |w.allocations|
    ensures w.allocations[b] > 0
    ensures GL.Sum(w.allocations[..b + 1]) == GL.Sum(w.allocations[..b]) + w.allocations[b] <= |w.ht.Content()|
  {
    hide GL.Sum;
    GL.SumNext(w.allocations, b);
    w.ht.SameLength();
  }

  lemma AllSent<K, V>(w: GL.GroupLookup<K, V>, n: nat, g: Agg<V>, h: K -> nat)
    requires Ready(w, n, g, h)
    ensures GL.Sum(w.allocations[..|w.allocations|]) == |w.ht.Content()|
  {
    hide GL.Sum;
    assert w.allocations[..|w.allocations|] == w.allocations;
    w.ht.SameLength();
  }

  /** A worker in the second phase of next. */
  class PhaseTwo<K(==, !new), V(!new)> {
    const w: GL.GroupLookup<K, V>
    const ps: seq<GB.Partitions<K, V>>
    const exp: nat
    const n: nat
    const g: Agg<V>
    const h: K -> nat
    const nrPartitions: nat
    // continuation
    var started: bool
    var partition: nat
    var partitionNeedsAggregation: bool
    var iter: nat

    ghost function Env(): D.Env<K, V> { D.Env(ps, exp, g, h) }

    ghost predicate Sizes() {
      D.EnvOk(Env()) && Injective(h) && n > 0 && nrPartitions == Env().Count()
    }

    ghost predicate Valid()
      reads this, w, w.ht, w.ht.dir, w.groupHt, w.groupHt.dir, w.groupHt.storage
    {
      && Sizes() && Ready(w, n, g, h) && iter <= |w.allocations|
      && if started && partition < nrPartitions
      && !partitionNeedsAggregation then D.IsTable(Env(), partition, w.ht.Content())
         else w.ht.Content() == []
    }

    /** Where the worker stands. */
    ghost function State(): D.Worker<K, V>
      reads this, w`allocations, w.ht`store
      requires iter <= |w.allocations|
    {
      if !started then D.Start
      else if partition >= nrPartitions then D.Done
      else if partitionNeedsAggregation then D.Claimed(partition)
      else D.Sending(partition, w.ht.Content(), GL.Sum(w.allocations[..iter]))
    }

    constructor (w: GL.GroupLookup<K, V>, ps: seq<GB.Partitions<K, V>>, exp: nat, n: nat, g: Agg<V>, h: K -> nat)
      requires Ready(w, n, g, h) && w.ht.Content() == [] && Injective(h) && n > 0
      requires exp <= 64 && GB.AllSpillOk(ps, exp, h) && CommutativeMonoid(g) && GB.Hash64(h)
      ensures Valid() && State() == D.Start && Env() == D.Env(ps, exp, g, h)
    {
      this.w, this.ps, this.exp, this.n, this.g, this.h := w, ps, exp, n, g, h;
      nrPartitions := Shift(exp);
      started, partition, partitionNeedsAggregation, iter := false, 0, false, 0;
    }

    /** Claim the next partition; the groups of the last one were all returned. */
    method Claim(counter: Counter) returns (ghost move: D.Move<K, V>)
      requires Valid()
      requires !started || (partition < nrPartitions && !partitionNeedsAggregation && iter == |w.allocations|)
      modifies `started, `partition, `partitionNeedsAggregation, `iter, counter, Parts(w)
      ensures Valid() && D.Moves(Env(), old(State()), move, State()) && move.Claim?
      ensures started && (partition < nrPartitions ==> partitionNeedsAggregation)
      ensures old(counter.partition) <= move.ticket == partition && counter.partition == partition + 1
      ensures (w.ht.dir == old(w.ht.dir) || fresh(w.ht.dir))
      ensures w.groupHt.dir == old(w.groupHt.dir) && w.groupHt.storage == old(w.groupHt.storage)
    {
      hide Ready, D.IsTable, D.EnvOk, Injective, CT.Table.Content, CT.Table.Valid, GL.Sum;
      PartsAre(w);
      if started {
        AllSent(w, n, g, h);
        Unpack(w, n, g, h);
        w.ClearHashtable();
        NoneHashed<K, V>(h);
        Pack(w, n, g, h);
      }
      started, iter := true, 0;
      partition := counter.FetchAdd();
      partitionNeedsAggregation := true;
      move := D.Claim(partition);
    }

    /** Aggregate the claimed partition. */
    method Aggregate() returns (ghost move: D.Move<K, V>)
      requires Valid() && started && partition < nrPartitions && partitionNeedsAggregation
      modifies `partitionNeedsAggregation, `iter, Parts(w)
      ensures Valid() && D.Moves(Env(), old(State()), move, State()) && move.Aggregate?
      ensures !partitionNeedsAggregation
      ensures (w.ht.dir == old(w.ht.dir) || fresh(w.ht.dir))
      ensures w.groupHt.dir == old(w.groupHt.dir) && w.groupHt.storage == old(w.groupHt.storage)
    {
      hide Ready, Injective, CT.Table.Content, CT.Table.Valid, Same, GroupFold.OneEntryPerKey, GB.Hashed;
      PartsAre(w);
      AggregatePartition(w, ps, exp, partition, n, g, h);
      GroupsAre(w, n, g, h);
      GB.WideEnough(ps, exp, h, partition);
      GL.NoSum();
      partitionNeedsAggregation, iter := false, 0;
      move := D.Aggregate(w.ht.Content());
    }

    /** Return the next block of groups. */
    method SendBlock() returns (block: Rows<K, V>, ghost move: D.Move<K, V>)
      requires Valid() && started && partition < nrPartitions && !partitionNeedsAggregation && iter < |w.allocations|
      modifies `iter
      ensures Valid() && D.Moves(Env(), old(State()), move, State()) && move.Send?
      ensures block == D.Output(old(State()), move) != [] && iter == old(iter) + 1 <= |w.allocations|
    {
      hide D.IsTable, D.EnvOk, Injective, CT.Table.Valid, GL.DistinctEntries;
      BlockIs(w, n, g, h, iter);
      var begin, size := GL.Sum(w.allocations[..iter]), w.allocations[iter];
      block := w.ht.Content()[begin..begin + size];
      iter := iter + 1;
      move := D.Send(size);
    }

    /** HashGroup::next after the first phase: the next block of groups, or none at the end.  Between its
        claims other workers may claim partitions of their own. */
    method Next(counter: Counter) returns (block: Rows<K, V>, ghost tr: D.Trace<K, V>, ghost last: D.Move<K, V>)
      requires Valid() && (started ==> partition < counter.partition)
      modifies `started, `partition, `partitionNeedsAggregation, `iter, counter, Parts(w)
      ensures Valid() && started && partition < counter.partition && iter <= |w.allocations|
      ensures if block == [] then
                State().Done? && D.Leads(Env(), tr, old(State()), State(), old(counter.partition), counter.partition)
              else exists mid ::
                && D.Leads(Env(), tr, old(State()), mid, old(counter.partition), counter.partition)
                && last.Send? && D.Moves(Env(), mid, last, State()) && block == D.Output(mid, last)
      ensures old(counter.partition) <= counter.partition
      ensures block == [] <==> partition >= nrPartitions
      ensures block != [] && old(started) && partition <= old(partition) ==>
                && partition == old(partition) && !partitionNeedsAggregation
                && (old(partitionNeedsAggregation) || |w.allocations| - iter < old(|w.allocations| - iter))
      ensures (w.ht.dir == old(w.ht.dir) || fresh(w.ht.dir))
      ensures w.groupHt.dir == old(w.groupHt.dir) && w.groupHt.storage == old(w.groupHt.storage)
    {
      hide *;
      PartsAre(w);
      ghost var lo, start := counter.partition, StateOf();
      tr, block, last := D.Trace([start], []), [], D.Claim(0);
      ghost var asWas := started;
      D.NoMoves(Env(), start, lo);
      if !started {
        tr := ClaimNext(counter, tr, start, lo);
      }
      while partition < nrPartitions
        invariant Valid() && iter <= |w.allocations| && started && partition < counter.partition
        invariant D.Leads(Env(), tr, start, State(), lo, counter.partition) && lo <= counter.partition
        invariant if asWas then
                    && partition == old(partition) && partitionNeedsAggregation == old(partitionNeedsAggregation)
                    && |w.allocations| - iter == old(|w.allocations| - iter)
                  else old(started) ==> partition > old(partition)
        invariant (w.ht.dir == old(w.ht.dir) || fresh(w.ht.dir))
        invariant w.groupHt.dir == old(w.groupHt.dir) && w.groupHt.storage == old(w.groupHt.storage)
        decreases nrPartitions - partition, partitionNeedsAggregation
      {
        PartsAre(w);
        if partitionNeedsAggregation {
          ghost var mid := StateOf();
          ghost var move := Aggregate();
          ghost var now := StateOf();
          D.Grow(Env(), tr, start, mid, lo, counter.partition, move, now, counter.partition);
          tr := D.Add(tr, move, now);
        }
        if iter != |w.allocations| {
          block, last := SendBlock();
          return;
        }
        PartsAre(w);
        asWas := false;
        tr := ClaimNext(counter, tr, start, lo);
      }
      Ended();
    }

    /** All calls of this worker until the end of its stream, with other workers claiming in between. */
    method Drain(counter: Counter) returns (out: Rows<K, V>, ghost life: D.Trace<K, V>)
      requires Valid() && !started
      modifies `started, `partition, `partitionNeedsAggregation, `iter, counter, Parts(w)
      ensures Valid() && S.IsLife(Env(), life) && life.path[|life.moves|].Done?
      ensures S.ClaimsRise(life, counter.partition) && S.Stream(life, |life.moves|) == out
    {
      hide *;
      PartsAre(w);
      out, life := [], D.Trace([StateOf()], []);
      NotStarted();
      S.Newborn(Env(), life, counter.partition);
      var block: Rows<K, V>;
      ghost var tr: D.Trace<K, V>, last: D.Move<K, V>;
      ghost var lo, before := counter.partition, StateOf();
      block, tr, last := Next(counter);
      life := AddNext(life, before, lo, block, tr, last, counter.partition);
      out := out + block;
      while block != []
        invariant Valid() && iter <= |w.allocations| && started && partition < counter.partition
        invariant block == [] <==> partition >= nrPartitions
        invariant S.IsLife(Env(), life) && |life.path| == |life.moves| + 1 && life.path[|life.moves|] == State()
        invariant S.ClaimsRise(life, counter.partition) && S.Stream(life, |life.moves|) == out
        invariant block == [] ==> State().Done?
        invariant (w.ht.dir == old(w.ht.dir) || fresh(w.ht.dir))
        invariant w.groupHt.dir == old(w.groupHt.dir) && w.groupHt.storage == old(w.groupHt.storage)
        decreases nrPartitions - partition, partitionNeedsAggregation, |w.allocations| - iter
      {
        PartsAre(w);
        lo, before := counter.partition, StateOf();
        block, tr, last := Next(counter);
        life := AddNext(life, before, lo, block, tr, last, counter.partition);
        out := out + block;
      }
    }

    lemma NotStarted()
      requires Valid() && !started
      ensures iter <= |w.allocations| && State() == D.Start
    {}

    /** What a call adds to the worker's trace. */
    lemma AddNext(life: D.Trace<K, V>, before: D.Worker<K, V>, lo: nat, block: Rows<K, V>, tr: D.Trace<K, V>,
        last: D.Move<K, V>, hi: nat) returns (life': D.Trace<K, V>)
      requires Valid() && S.IsLife(Env(), life) && life.path[|life.moves|] == before && S.ClaimsRise(life, lo)
      requires iter <= |w.allocations|
      requires if block == [] then State().Done? && D.Leads(Env(), tr, before, State(), lo, hi)
               else exists mid ::
                 && D.Leads(Env(), tr, before, mid, lo, hi)
                 && last.Send? && D.Moves(Env(), mid, last, State()) && block == D.Output(mid, last)
      ensures S.IsLife(Env(), life') && |life'.path| == |life'.moves| + 1 && life'.path[|life'.moves|] == State()
      ensures S.ClaimsRise(life', hi) && S.Stream(life', |life'.moves|) == S.Stream(life, |life.moves|) + block
    {
      hide *;
      S.LifeIs(Env(), life);
      if block == [] {
        S.AddCall(Env(), life, tr, State(), lo, hi);
        life' := S.Append(life, tr);
      } else {
        var mid :| D.Leads(Env(), tr, before, mid, lo, hi)
          && last.Send? && D.Moves(Env(), mid, last, State()) && block == D.Output(mid, last);
        S.AddCall(Env(), life, tr, mid, lo, hi);
        S.AddBlock(Env(), S.Append(life, tr), last, State(), hi);
        life' := D.Add(S.Append(life, tr), last, State());
      }
      S.LifeIs(Env(), life');
    }

    ghost function StateOf(): (s: D.Worker<K, V>)
      reads this, w, w.ht, w.ht.dir, w.groupHt, w.groupHt.dir, w.groupHt.storage
      requires Valid()
      ensures iter <= |w.allocations| && s == State()
    {
      State()
    }

    lemma Ended()
      requires Valid() && started && partition >= nrPartitions
      ensures iter <= |w.allocations| && State().Done?
    {}

    /** A claim as one more move. */
    method ClaimNext(counter: Counter, ghost tr: D.Trace<K, V>, ghost start: D.Worker<K, V>, ghost lo: nat)
      returns (ghost tr': D.Trace<K, V>)
      requires Valid() && D.Leads(Env(), tr, start, State(), lo, counter.partition)
      requires !started || (partition < nrPartitions && !partitionNeedsAggregation && iter == |w.allocations|)
      modifies `started, `partition, `partitionNeedsAggregation, `iter, counter, Parts(w)
      ensures Valid() && iter <= |w.allocations|
      ensures D.Leads(Env(), tr', start, State(), lo, counter.partition)
      ensures started && (partition < nrPartitions ==> partitionNeedsAggregation)
      ensures old(counter.partition) <= partition < counter.partition
      ensures (w.ht.dir == old(w.ht.dir) || fresh(w.ht.dir))
      ensures w.groupHt.dir == old(w.groupHt.dir) && w.groupHt.storage == old(w.groupHt.storage)
    {
      hide *;
      ghost var hi, mid := counter.partition, StateOf();
      ghost var move := Claim(counter);
      ghost var now := StateOf();
      D.Grow(Env(), tr, start, mid, lo, hi, move, now, counter.partition);
      tr' := D.Add(tr, move, now);
    }
  }

  lemma NoneHashed<K, V>(h: K -> nat)
    ensures GB.Hashed<K, V>([], h)
  {}

  lemma GroupsAre<K, V>(w: GL.GroupLookup<K, V>, n: nat, g: Agg<V>, h: K -> nat)
    requires Ready(w, n, g, h)
    ensures GroupFold.OneEntryPerKey(w.ht.Content()) && GB.Hashed(w.ht.Content(), h)
  {}

  // ---- the whole operator

  /** All rows of all workers. */
  function AllBatches<K, V>(inputs: seq<seq<Rows<K, V>>>): Rows<K, V> {
    if inputs == [] then [] else AllBatches(inputs[..|inputs| - 1]) + Concat(inputs[|inputs| - 1])
  }

  /** The tables and buffers of a worker. */
  method NewLookup<K(==), V>(n: nat, g: Agg<V>, ghost h: K -> nat) returns (w: GL.GroupLookup<K, V>)
    requires 0 < n <= HS.EMPTY
    ensures Ready(w, n, g, h) && w.ht.Content() == [] && fresh(Parts(w))
  {
    hide *;
    var ht := new CT.Table<K, V>(1024);
    var groupHt := new HS.Table<nat, nat>(n);
    w := new GL.GroupLookup<K, V>(ht, groupHt, g.init, n);
    NothingStored(ht);
    NoneHashed<K, V>(h);
    Pack(w, n, g, h);
  }

  lemma NothingStored<K, V>(ht: CT.Table<K, V>)
    requires ht.store == []
    ensures ht.Content() == []
  {}

  /** Phase 1 of all workers. */
  method PreAggregateAll<K(==, !new), V(!new)>(inputs: seq<seq<Rows<K, V>>>, nrPartitions: nat, maxFill: nat, n: nat,
      g: Agg<V>, h: K -> nat) returns (ps: seq<GB.Partitions<K, V>>)
    requires 0 < n <= HS.EMPTY && 0 < nrPartitions < Shift(63) && CommutativeMonoid(g) && GB.Hash64(h) && Injective(h)
    requires forall t, b ::
             0 <= t < |inputs| && 0 <= b < |inputs[t]| ==> |inputs[t][b]| <= n && GB.Hashed(inputs[t][b], h)
    ensures |ps| == |inputs| && Capacity.BitLength(nrPartitions) <= 64
            && GB.AllSpillOk(ps, Capacity.BitLength(nrPartitions), h)
    ensures Same(GB.AllDeques(ps), AllBatches(inputs), g)
  {
    hide Ready, Same, CommutativeMonoid, Injective, GB.Hash64, GB.Hashed, Shift, GB.Sorted, GB.AllRows, GB.AllDeques,
        Concat, Capacity.BitLength, Partition.Valid, Parts, GB.AllSpillOk, GB.SpillOk, AllBatches, Deque.Valid;
    ps := [];
    BitLengthBelow(nrPartitions, 63);
    NoWorkers(inputs, Capacity.BitLength(nrPartitions), g, h);
    for t := 0 to |inputs|
      invariant |ps| == t && GB.AllSpillOk(ps, Capacity.BitLength(nrPartitions), h)
      invariant Same(GB.AllDeques(ps), AllBatches(inputs[..t]), g)
    {
      var w := NewLookup(n, g, h);
      var deque := new Deque<(nat, K, V)>.PostConstruct(nrPartitions);
      GB.NothingSpilled(deque.partitions, deque.exp, h);
      PartsAre(w);
      PreAggregate(w, deque, inputs[t], maxFill, n, g, h);
      OneMoreWorker(ps, deque, inputs, t, Capacity.BitLength(nrPartitions), g, h);
      ps := ps + [deque.partitions];
    }
    assert inputs[..|inputs|] == inputs;
  }

  lemma NoWorkers<K(!new), V(!new)>(inputs: seq<seq<Rows<K, V>>>, exp: nat, g: Agg<V>, h: K -> nat)
    ensures GB.AllSpillOk<K, V>([], exp, h) && Same(GB.AllDeques([]), AllBatches(inputs[..0]), g)
  {}

  lemma OneMoreWorker<K(!new), V(!new)>(ps: seq<GB.Partitions<K, V>>, deque: Deque<(nat, K, V)>,
      inputs: seq<seq<Rows<K, V>>>, t: nat, exp: nat, g: Agg<V>, h: K -> nat)
    requires t < |inputs| && CommutativeMonoid(g) && GB.AllSpillOk(ps, exp, h) && deque.Valid() && deque.exp == exp
             && GB.Sorted(deque.partitions, exp, h)
    requires Same(GB.AllDeques(ps), AllBatches(inputs[..t]), g)
             && Same(GB.AllRows(deque.partitions), Concat(inputs[t]), g)
    ensures GB.AllSpillOk(ps + [deque.partitions], exp, h)
    ensures Same(GB.AllDeques(ps + [deque.partitions]), AllBatches(inputs[..t + 1]), g)
  {
    hide Same, CommutativeMonoid, GB.Sorted, GB.AllRows, Concat, Partition.Valid;
    assert inputs[..t + 1][..t] == inputs[..t];
    assert (ps + [deque.partitions])[..|ps|] == ps;
    SameConcat(GB.AllDeques(ps), AllBatches(inputs[..t]), GB.AllRows(deque.partitions), Concat(inputs[t]), g);
  }

  /** Whatever any number of workers return in the second phase, as a run of all of them ... */
  ghost predicate RunsDeliver<K(!new), V(!new)>(e: D.Env<K, V>, all: Rows<K, V>) {
    forall run: seq<D.System<K, V>>, who: seq<nat>, moves: seq<D.Move<K, V>> {:trigger D.IsRun(e, run, who, moves)} ::
      D.IsRun(e, run, who, moves) && D.AllDone(run[|who|]) ==> GB.Delivers(run[|who|].out, all, e.g)
  }

  /** ... or as the streams of their calls, is the result of grouping. */
  ghost predicate StreamsDeliver<K(!new), V(!new)>(e: D.Env<K, V>, all: Rows<K, V>) {
    forall lives: seq<D.Trace<K, V>>, c: nat {:trigger S.AreLives(e, lives, c)} ::
      S.AreLives(e, lives, c) && S.ClaimsOnce(lives, c) ==> GB.Delivers(S.Streams(lives, |lives|), all, e.g)
  }

  lemma SecondPhase<K(!new), V(!new)>(e: D.Env<K, V>, all: Rows<K, V>)
    requires D.EnvOk(e) && Same(GB.AllDeques(e.ps), all, e.g)
    ensures RunsDeliver(e, all) && StreamsDeliver(e, all)
  {
    hide Same, D.EnvOk, GB.AllDeques, GB.Delivers, D.Step, D.Init, D.AllDone, S.ClaimsOnce, S.IsLife;
    forall run: seq<D.System<K, V>>, who: seq<nat>, moves: seq<D.Move<K, V>> {:trigger D.IsRun(e, run, who, moves)}
      | D.IsRun(e, run, who, moves) && D.AllDone(run[|who|])
      ensures GB.Delivers(run[|who|].out, all, e.g)
    {
      D.RunDelivers(e, run, who, moves);
      GB.SameDelivers(run[|who|].out, GB.AllDeques(e.ps), all, e.g);
    }
    forall lives: seq<D.Trace<K, V>>, c: nat {:trigger S.AreLives(e, lives, c)}
      | S.AreLives(e, lives, c) && S.ClaimsOnce(lives, c)
      ensures GB.Delivers(S.Streams(lives, |lives|), all, e.g)
    {
      S.LivesDeliver(e, lives, c);
      GB.SameDelivers(S.Streams(lives, |lives|), GB.AllDeques(e.ps), all, e.g);
    }
  }

  /** Vectorised grouping is exact when no two keys share their full hash: for any split of the rows
      into workers and batches and any spilling, and for any number of workers and any interleaving in
      the second phase, every key is returned exactly once, with the fold of all its values. */
  method GroupAll<K(==, !new), V(!new)>(inputs: seq<seq<Rows<K, V>>>, nrPartitions: nat, maxFill: nat, n: nat,
      g: Agg<V>, h: K -> nat)
    returns (e: D.Env<K, V>)
    requires 0 < n <= HS.EMPTY && 0 < nrPartitions < Shift(63) && CommutativeMonoid(g) && GB.Hash64(h) && Injective(h)
    requires forall t, b ::
             0 <= t < |inputs| && 0 <= b < |inputs[t]| ==> |inputs[t][b]| <= n && GB.Hashed(inputs[t][b], h)
    ensures D.EnvOk(e) && e.exp == Capacity.BitLength(nrPartitions) && e.g == g && e.h == h
    ensures RunsDeliver(e, AllBatches(inputs)) && StreamsDeliver(e, AllBatches(inputs))
  {
    hide Ready, Same, CommutativeMonoid, Injective, GB.Hash64, GB.Hashed, Shift, GB.AllDeques, Capacity.BitLength,
        GB.AllSpillOk, AllBatches, RunsDeliver, StreamsDeliver;
    var ps := PreAggregateAll(inputs, nrPartitions, maxFill, n, g, h);
    e := D.Env(ps, Capacity.BitLength(nrPartitions), g, h);
    SecondPhase(e, AllBatches(inputs));
  }
}
