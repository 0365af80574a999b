/** The vectorised hash join: probe batches against the shared chained table, with join functions
    that stop when the output vectors are full and go on in the next call. */
module HashJoin {
  import opened Chains
  import opened Hashmap
  import opened JoinSpec

  /** The build phase is over: the table holds the materialised tuples, hashed by their keys. */
  ghost predicate Built<T(!new), K>(t: Table<T>, log: seq<T>, keyOf: map<T, K>, hash: K -> T) {
    && Represents(t, log)
    && forall i :: 0 <= i < |log| ==> log[i] in keyOf && t.mem[log[i]].hash == hash(keyOf[log[i]])
  }

  /** The build side as the probe phase sees it. */
  ghost function SideOf<T(!new), K>(t: Table<T>, log: seq<T>, keyOf: map<T, K>): (s: Side<T, K>)
    requires forall i :: 0 <= i < |log| ==> log[i] in t.mem && log[i] in keyOf
    ensures s.Ok()
  {
    Side(log, Buckets(t, log),
         seq(|log|, i requires 0 <= i < |log| => t.mem[log[i]].hash),
         seq(|log|, i requires 0 <= i < |log| => keyOf[log[i]]))
  }

  /** Where find_chain_tagged lets a probe row start. */
  ghost function HeadIndex<T(!new)>(t: Table<T>, log: seq<T>, h: T): (r: int)
    requires Represents(t, log)
    ensures -1 <= r < |log|
    ensures FindChain(t, h) == At(t.format.end, log, r)
    ensures r >= 0 ==> r == Last(Buckets(t, log), t.format.bucket(h))
  {
    FindChainIsComplete(t, log, h);
    if FindChain(t, h) == t.format.end then -1 else Last(Buckets(t, log), t.format.bucket(h))
  }

  /** The join that the probe of `rows` against the table is to compute. */
  ghost function JoinOf<T(!new), K>(t: Table<T>, log: seq<T>, keyOf: map<T, K>, hash: K -> T,
      rows: seq<K>): (c: Join<T, K>)
    requires Built(t, log, keyOf, hash)
    ensures c.Ok() && c.hash == hash && c.rows == rows && c.side.addrs == log
  {
    Join(SideOf(t, log, keyOf), hash, rows,
         seq(|rows|, r requires 0 <= r < |rows| => HeadIndex(t, log, hash(rows[r]))))
  }

  // ---- what the join functions read from the table, entry by entry and row by row

  ghost predicate EntryOk<T(!new), K>(t: Table<T>, keyOf: map<T, K>, c: Join<T, K>, i: nat)
    requires c.Ok() && i < |c.side.addrs|
  {
    var a := c.side.addrs[i];
    && a in t.mem && a in keyOf && a != t.format.end
    && t.mem[a] == Header(At(t.format.end, c.side.addrs, Next(c.side.buckets, i)), c.side.hashes[i])
  }

  ghost predicate HeadOk<T(!new), K>(t: Table<T>, c: Join<T, K>, row: nat)
    requires c.Ok() && row < |c.rows|
  {
    && t.format.bucket(c.hash(c.rows[row])) in t.words
    && FindChain(t, c.hash(c.rows[row])) == At(t.format.end, c.side.addrs, c.heads[row])
  }

  ghost predicate Linked<T(!new), K>(t: Table<T>, keyOf: map<T, K>, c: Join<T, K>) {
    && c.Ok()
    && (forall i {:trigger EntryOk(t, keyOf, c, i)} :: 0 <= i < |c.side.addrs| ==> EntryOk(t, keyOf, c, i))
    && (forall r {:trigger HeadOk(t, c, r)} :: 0 <= r < |c.rows| ==> HeadOk(t, c, r))
  }

  lemma BuiltIsLinked<T(!new), K>(t: Table<T>, log: seq<T>, keyOf: map<T, K>, hash: K -> T, rows: seq<K>)
    requires Built(t, log, keyOf, hash)
    ensures Linked(t, keyOf, JoinOf(t, log, keyOf, hash, rows))
  {}

  lemma BuiltIsHashedByKey<T(!new), K>(t: Table<T>, log: seq<T>, keyOf: map<T, K>, hash: K -> T, rows: seq<K>)
    requires Built(t, log, keyOf, hash)
    ensures KeysKnown(JoinOf(t, log, keyOf, hash, rows), keyOf)
    ensures HashedByKey(JoinOf(t, log, keyOf, hash, rows))
  {}

  /** The head a probe row starts from leads to all its key matches. */
  lemma BuiltHeadIsComplete<T(!new), K>(t: Table<T>, log: seq<T>, keyOf: map<T, K>, hash: K -> T, rows: seq<K>,
      row: nat)
    requires Built(t, log, keyOf, hash) && row < |rows|
    ensures HeadComplete(JoinOf(t, log, keyOf, hash, rows), row)
  {
    var c := JoinOf(t, log, keyOf, hash, rows);
    var p, b := ProbeOf(c, row), t.format.bucket(hash(rows[row]));
    assert c.side.buckets[..|log|] == c.side.buckets;
    RestIsNested(c.side, |log|, b, row, p);
    FindChainIsComplete(t, log, p.hash);
    if FindChain(t, p.hash) == t.format.end {
      AbsentHashFindsNothing(c.side, Newest(c.side, |log|, b), row, p);
    }
  }

  lemma BuiltIsComplete<T(!new), K>(t: Table<T>, log: seq<T>, keyOf: map<T, K>, hash: K -> T, rows: seq<K>)
    requires Built(t, log, keyOf, hash)
    ensures Complete(JoinOf(t, log, keyOf, hash, rows))
  {
    forall row | 0 <= row < |rows| { BuiltHeadIsComplete(t, log, keyOf, hash, rows, row); }
  }

  lemma NextAddress<T(!new), K>(t: Table<T>, keyOf: map<T, K>, c: Join<T, K>, i: nat)
    requires Linked(t, keyOf, c) && i < |c.side.addrs|
    ensures EntryOk(t, keyOf, c, i)
    ensures t.mem[c.side.addrs[i]].next == t.format.end <==> Next(c.side.buckets, i) < 0
  {
    assert EntryOk(t, keyOf, c, i);
    if Next(c.side.buckets, i) >= 0 {
      assert EntryOk(t, keyOf, c, Next(c.side.buckets, i));
    }
  }

  lemma HeadAddress<T(!new), K>(t: Table<T>, keyOf: map<T, K>, c: Join<T, K>, row: nat)
    requires Linked(t, keyOf, c) && row < |c.rows|
    ensures HeadOk(t, c, row)
    ensures FindChain(t, c.hash(c.rows[row])) == t.format.end <==> c.heads[row] < 0
  {
    assert HeadOk(t, c, row);
    if c.heads[row] >= 0 {
      assert EntryOk(t, keyOf, c, c.heads[row]);
    }
  }

  ghost predicate Apart(a: object, b: object, c: object, d: object, e: object) {
    a != b && a != c && a != d && a != e && b != c && b != d && b != e && c != d && c != e && d != e
  }

  /** A vector of probe tuples: a column of keys and the positions selected from it. */
  datatype Vector<K> = Vector(column: seq<K>, sel: seq<nat>) {
    ghost predicate Selects(keys: seq<K>) {
      |sel| == |keys| && forall i :: 0 <= i < |sel| ==> sel[i] < |column| && column[sel[i]] == keys[i]
    }

    /** No tuple was filtered out. */
    ghost predicate Dense() { forall i :: 0 <= i < |sel| ==> sel[i] == i }
  }

  /** The vectors hold the keys of the rows from `from` on, at most batchSize each. */
  ghost predicate Delivers<K>(batches: seq<Vector<K>>, rows: seq<K>, from: nat, batchSize: nat) {
    if batches == [] then from == |rows|
    else
      var n := |batches[0].sel|;
      0 < n <= batchSize && from + n <= |rows| && batches[0].Selects(rows[from..from + n])
          && Delivers(batches[1..], rows, from + n, batchSize)
  }

  ghost predicate AllDense<K>(batches: seq<Vector<K>>) {
    forall b :: 0 <= b < |batches| ==> batches[b].Dense()
  }

  /** The join functions: joinAllParallel and joinBoncz for whole vectors, joinSelParallel for vectors with
      a selection. */
  datatype Variant = JoinAllParallel | JoinSelParallel | JoinBoncz

  class Hashjoin<T(0, ==, !new), K(==, !new)> {
    // build side, shared and read-only in the probe phase
    const table: Table<T>
    const keyOf: map<T, K>
    const hash: K -> T
    ghost const c: Join<T, K>       // the join to be computed

    // probe input: the vectors that `right` still has to deliver, the current one, and the keys of
    // all probe tuples in order, of which the current vector holds those from `base` on
    ghost const rows: seq<K>
    var batches: seq<Vector<K>>
    var column: seq<K>
    var probeSel: seq<nat>
    ghost var base: nat

    // continuation
    const join: Variant
    const globalFound: nat
    const batchSize: nat
    const followupBufferSize: nat
    var consumed: bool
    var nextProbe: nat
    var numProbes: nat
    var followup: nat
    var followupWrite: nat
    const followupIds: array<nat>
    const followupEntries: array<T>
    ghost var ring: seq<Followup>   // the queued follow-ups, oldest first

    // vectors
    const probeHashes: array<T>
    const buildMatches: array<T>
    const probeMatches: array<nat>

    constructor (table: Table<T>, keyOf: map<T, K>, hash: K -> T, ghost log: seq<T>, globalFound: nat,
                 ghost rows: seq<K>, batches: seq<Vector<K>>, batchSize: nat, join: Variant)
      requires Built(table, log, keyOf, hash) && globalFound == |log|
      requires 0 < batchSize && Delivers(batches, rows, 0, batchSize)
      requires join.JoinSelParallel? || AllDense(batches)
      ensures Valid() && c == JoinOf(table, log, keyOf, hash, rows)
      ensures Remaining() == NestedJoin(c, 0)
      ensures fresh(probeHashes) && fresh(followupIds) && fresh(followupEntries) && fresh(buildMatches)
              && fresh(probeMatches)
    {
      hide Built, Complete, KeysKnown, HashedByKey, JoinOf, Linked, NestedJoin, Pending, Remaining, Valid, Delivers,
          AllDense;
      this.table, this.keyOf, this.hash, this.globalFound := table, keyOf, hash, globalFound;
      this.rows, this.batches, this.batchSize, this.join := rows, batches, batchSize, join;
      followupBufferSize := batchSize + 1;
      consumed, base, nextProbe, numProbes, followup, followupWrite := false, 0, 0, 0, 0, 0;
      followupIds, followupEntries := new nat[batchSize + 1], new T[batchSize + 1];
      probeHashes, buildMatches, probeMatches := new T[batchSize], new T[batchSize], new nat[batchSize];
      c := JoinOf(table, log, keyOf, hash, rows);
      column, probeSel, ring := [], [], [];
      new;
      BuiltIsLinked(table, log, keyOf, hash, rows);
      BuiltIsHashedByKey(table, log, keyOf, hash, rows);
      BuiltIsComplete(table, log, keyOf, hash, rows);
      NoProbes();
      ReadyIsValid();
      RemainingBetweenBatches();
    }

    lemma NoProbes()
      requires Shape() && base == 0 && numProbes == 0 && probeSel == []
      ensures BatchOk()
    {}

    /** The operator with a probe vector none of whose rows was probed. */
    lemma ReadyIsValid()
      requires Shape() && BatchOk() && Complete(c) && KeysKnown(c, keyOf) && HashedByKey(c)
      requires ring == [] && followup == followupWrite == nextProbe == 0
      requires Delivers(batches, rows, base + numProbes, batchSize) && (join.JoinSelParallel? || AllDense(batches))
      ensures Valid()
    {
      hide Linked, Complete, KeysKnown, HashedByKey, Delivers, AllDense, BatchOk;
    }

    lemma ValidFacts()
      requires Valid() && nextProbe >= numProbes
      ensures Shape() && BatchOk() && Complete(c) && KeysKnown(c, keyOf) && HashedByKey(c)
      ensures c.Ok() && ring == [] && followup == followupWrite == 0 && base + numProbes <= |rows|
      ensures Delivers(batches, rows, base + numProbes, batchSize) && (join.JoinSelParallel? || AllDense(batches))
    {
      hide Linked, Complete, KeysKnown, HashedByKey, Delivers, AllDense;
      JoinIsOk();
    }

    ghost predicate Shape() {
      && 0 < batchSize && followupBufferSize == batchSize + 1
      && followupIds.Length == followupBufferSize && followupEntries.Length == followupBufferSize
      && probeHashes.Length == batchSize && buildMatches.Length == batchSize && probeMatches.Length == batchSize
      && Apart(followupIds, followupEntries, probeHashes, buildMatches, probeMatches)
      && Linked(table, keyOf, c) && c.hash == hash && c.rows == rows && globalFound == |c.side.addrs|
    }

    /** The current probe vector. */
    ghost predicate BatchOk()
      reads `base, `numProbes, `column, `probeSel, probeHashes
      requires Shape()
    {
      && base + numProbes <= |rows| && numProbes <= batchSize && |probeSel| == numProbes
      && forall i :: 0 <= i < numProbes ==>
           && probeHashes[i] == hash(rows[base + i])
           && probeSel[i] < |column| && column[probeSel[i]] == rows[base + i]
           && (join.JoinSelParallel? || probeSel[i] == i)
    }

    ghost function Slot(f: nat, k: nat): nat {
      if f + k < followupBufferSize then f + k else f + k - followupBufferSize
    }

    /** Slots f, f+1, ... of the ring hold the follow-ups fs, and w is the slot after them. */
    ghost predicate RingOk(f: nat, w: nat, fs: seq<Followup>)
      reads `base, `numProbes, followupIds, followupEntries
      requires Shape()
    {
      && |fs| <= batchSize && f < followupBufferSize && w == Slot(f, |fs|)
      && (forall k :: 0 <= k < |fs| ==>
            && base <= fs[k].0 < base + numProbes && 0 <= fs[k].1 < |c.side.addrs|
            && followupIds[Slot(f, k)] == fs[k].0 - base
            && followupEntries[Slot(f, k)] == c.side.addrs[fs[k].1])
    }

    /** The first |out| positions of the output vectors hold the candidates `out`: the entry, and the
        position in the column that the probe row was selected from. */
    ghost predicate Wrote(out: seq<Pair<T>>)
      reads `base, `numProbes, `probeSel, buildMatches, probeMatches
      requires Shape()
    {
      && |out| <= batchSize && |probeSel| == numProbes
      && forall k :: 0 <= k < |out| ==>
           && base <= out[k].1 < base + numProbes
           && buildMatches[k] == out[k].0 && buildMatches[k] in keyOf
           && probeMatches[k] == probeSel[out[k].1 - base]
    }

    lemma Wrap(x: nat)
      requires x < followupBufferSize
      ensures (x + 1) % followupBufferSize == if x + 1 == followupBufferSize then 0 else x + 1
    {}

    lemma SlotAfter(f: nat, f': nat, k: nat)
      requires Shape() && f < followupBufferSize && k < batchSize
      requires f' == if f + 1 == followupBufferSize then 0 else f + 1
      ensures Slot(f', k) == Slot(f, k + 1)
    {}

    lemma TakeOldest(f: nat, f': nat, w: nat, fs: seq<Followup>)
      requires Shape() && RingOk(f, w, fs) && fs != []
      requires f' == if f + 1 == followupBufferSize then 0 else f + 1
      ensures RingOk(f', w, fs[1..])
    {
      SlotAfter(f, f', |fs| - 1);
      forall k | 0 <= k < |fs| - 1 { SlotAfter(f, f', k); }
    }

    lemma HitIs(i: nat, g: Followup)
      requires Shape() && BatchOk() && base <= g.0 < base + numProbes && 0 <= g.1 < |c.side.addrs| && i == g.0 - base
      ensures Follows(c, g)
      ensures var entry := c.side.addrs[g.1];
        && entry in table.mem && entry in keyOf
        && HitSeq(c, SameHash, g) == (if table.mem[entry].hash == probeHashes[i] then [(entry, g.0)] else [])
        && HitSeq(c, AnyEntry, g) == [(entry, g.0)]
    {
      NextAddress(table, keyOf, c, g.1);
      assert probeHashes[i] == ProbeOf(c, g.0).hash;
    }

    /** Write one candidate. */
    method Emit(found: nat, entry: T, position: nat, ghost row: nat, ghost out: seq<Pair<T>>)
      requires Shape() && found == |out| < batchSize && Wrote(out)
      requires entry in keyOf && base <= row < base + numProbes && position == probeSel[row - base]
      modifies buildMatches, probeMatches
      ensures Wrote(out + [(entry, row)])
    {
      hide Linked;
      buildMatches[found] := entry;
      probeMatches[found] := position;
    }

    /** Emit the entry if its hash is the probe's. */
    method EmitIfHashMatches(found: nat, i: nat, entry: T, ghost g: Followup, ghost out: seq<Pair<T>>)
      returns (found': nat)
      requires Shape() && BatchOk() && found == |out| < batchSize && Wrote(out)
      requires base <= g.0 < base + numProbes && 0 <= g.1 < |c.side.addrs| && i == g.0 - base
               && entry == c.side.addrs[g.1]
      modifies buildMatches, probeMatches
      ensures Wrote(out + HitSeq(c, SameHash, g)) && found' == |out + HitSeq(c, SameHash, g)|
    {
      hide Linked, Wrote, HitSeq;
      HitIs(i, g);
      found' := found;
      if table.mem[entry].hash == probeHashes[i] {
        Emit(found, entry, if join.JoinSelParallel? then probeSel[i] else i, g.0, out);
        found' := found + 1;
      } else {
        assert out + HitSeq(c, SameHash, g) == out;
      }
    }

    /** Queue the successor of an entry as the newest follow-up. */
    method QueueNext(i: nat, entry: T, ghost f: nat, w: nat, ghost g: Followup, ghost fs: seq<Followup>)
      returns (w': nat)
      requires Shape() && RingOk(f, w, fs) && |fs| < batchSize && base + numProbes <= |rows|
      requires base <= g.0 < base + numProbes && 0 <= g.1 < |c.side.addrs| && i == g.0 - base
               && entry == c.side.addrs[g.1]
      modifies followupIds, followupEntries
      ensures RingOk(f, w', fs + Onward(c, g))
      ensures f == 0 ==> forall k ::
              w < k < followupBufferSize
              ==> followupIds[k] == old(followupIds[k]) && followupEntries[k] == old(followupEntries[k])
    {
      NextAddress(table, keyOf, c, g.1);
      w' := w;
      if table.mem[entry].next != table.format.end {
        followupIds[w] := i;
        followupEntries[w] := table.mem[entry].next;
        Wrap(w);
        w' := (w + 1) % followupBufferSize;
        assert Onward(c, g) == [(g.0, Chains.Next(c.side.buckets, g.1))];
      } else {
        assert fs + Onward(c, g) == fs;
      }
    }

    /** Positions f to w of the ring and the first `found` output positions hold the progress p. */
    ghost predicate At(p: Progress<T>, found: nat, f: nat, w: nat)
      reads `base, `numProbes, `column, `probeSel, probeHashes, followupIds, followupEntries, buildMatches, probeMatches
      requires Shape()
    {
      BatchOk() && AllFollow(c, p.fs) && RingOk(f, w, p.fs) && Wrote(p.out) && found == |p.out|
    }

    /** Look at one entry of a chain. */
    method LookAt(found: nat, i: nat, entry: T, ghost f: nat, w: nat, ghost g: Followup, ghost p: Progress<T>)
      returns (found': nat, w': nat)
      requires Shape() && At(p, found, f, w) && |p.fs| < batchSize && found < batchSize
      requires base <= g.0 < base + numProbes && 0 <= g.1 < |c.side.addrs| && i == g.0 - base
               && entry == c.side.addrs[g.1]
      modifies followupIds, followupEntries, buildMatches, probeMatches
      ensures At(Look(c, SameHash, p, g), found', f, w')
    {
      found' := EmitIfHashMatches(found, i, entry, g, p.out);
      w' := QueueNext(i, entry, f, w, g, p.fs);
    }

    /** Body of the follow-up loop: take the oldest follow-up. */
    method FollowOne(found: nat, f: nat, w: nat, ghost p: Progress<T>) returns (found': nat, f': nat, w': nat)
      requires Shape() && At(p, found, f, w) && p.fs != [] && found < batchSize
      modifies followupIds, followupEntries, buildMatches, probeMatches
      ensures At(Step(c, SameHash, p), found', f', w') && found <= found' <= found + 1
    {
      assert Slot(f, 0) == f;
      var i := followupIds[f];
      var entry := followupEntries[f];
      f' := f + 1;
      if f' == followupBufferSize { f' := 0; }
      TakeOldest(f, f', w, p.fs);
      found', w' := LookAt(found, i, entry, f', w, p.fs[0], Progress(p.out, p.fs[1..]));
    }

    /** Body of the first loop of joinAllParallel: look at a chain head. */
    method ProbeHead(i: nat, found: nat, w: nat, ghost p: Progress<T>) returns (found': nat, w': nat)
      requires Shape() && At(p, found, 0, w) && i < numProbes && p == AfterHeads(c, SameHash, base, i)
      modifies followupIds, followupEntries, buildMatches, probeMatches
      ensures At(AfterHeads(c, SameHash, base, i + 1), found', 0, w')
    {
      found', w' := found, w;
      HeadAddress(table, keyOf, c, base + i);
      var entry := FindChain(table, probeHashes[i]);
      if entry != table.format.end {
        found', w' := LookAt(found, i, entry, 0, w, Head(c, base + i), p);
      }
    }

    lemma AtNothing()
      requires Shape() && BatchOk()
      ensures At(Progress([], []), 0, 0, 0) && RingOk(0, 0, [])
    {}

    /** First loop of joinAllParallel. */
    method ProbeHeads() returns (found: nat, w: nat)
      requires Shape() && BatchOk()
      modifies followupIds, followupEntries, buildMatches, probeMatches
      ensures At(AfterHeads(c, SameHash, base, numProbes), found, 0, w)
    {
      hide RingOk, Wrote, Look;
      found, w := 0, 0;
      var i := 0;
      AtNothing();
      while i < numProbes
        invariant i <= numProbes && BatchOk()
        invariant At(AfterHeads(c, SameHash, base, i), found, 0, w)
      {
        found, w := ProbeHead(i, found, w, AfterHeads(c, SameHash, base, i));
        i := i + 1;
      }
    }

    lemma RingSize(f: nat, w: nat, fs: seq<Followup>)
      requires Shape() && RingOk(f, w, fs)
      ensures f == w <==> fs == []
    {}

    lemma OldestHasEntry(p: Progress<T>, found: nat, f: nat, w: nat)
      requires Shape() && At(p, found, f, w) && p.fs != []
      ensures p.fs[0].1 >= 0
      ensures |Step(c, SameHash, p).fs| >= |p.fs| - 1
    {}

    /** One pass of the follow-up loop over n follow-ups. */
    method FollowMany(n: nat, found: nat, f: nat, w: nat, ghost p: Progress<T>, ghost done: nat)
      returns (found': nat, f': nat, w': nat)
      requires Shape() && AllFollow(c, p.fs) && At(Steps(c, SameHash, p, done), found, f, w)
      requires n <= |Steps(c, SameHash, p, done).fs| && found + n <= batchSize
      modifies followupIds, followupEntries, buildMatches, probeMatches
      ensures At(Steps(c, SameHash, p, done + n), found', f', w') && found <= found' <= found + n
      ensures |Steps(c, SameHash, p, done + n).fs| >= |Steps(c, SameHash, p, done).fs| - n
      ensures Work(c, Steps(c, SameHash, p, done + n).fs) + n == Work(c, Steps(c, SameHash, p, done).fs)
    {
      hide BatchOk, RingOk, Wrote, Step, Linked, Work, AllFollow;
      found', f', w' := found, f, w;
      var j := 0;
      while j < n
        invariant j <= n && found <= found' <= found + j
        invariant At(Steps(c, SameHash, p, done + j), found', f', w')
        invariant |Steps(c, SameHash, p, done + j).fs| >= |Steps(c, SameHash, p, done).fs| - j
        invariant Work(c, Steps(c, SameHash, p, done + j).fs) + j == Work(c, Steps(c, SameHash, p, done).fs)
      {
        ghost var q := Steps(c, SameHash, p, done + j);
        OldestHasEntry(q, found', f', w');
        StepWorks(c, SameHash, q);
        found', f', w' := FollowOne(found', f', w', q);
        j := j + 1;
      }
    }

    /** Where the join function starts or goes on. */
    ghost function Resume(fs: seq<Followup>): (p: Progress<T>)
      reads `base, `numProbes
      requires Shape() && base + numProbes <= |rows| && AllFollow(c, fs)
      ensures AllFollow(c, p.fs)
    {
      if fs == [] then AfterHeads(c, SameHash, base, numProbes) else Progress([], fs)
    }

    lemma AtStart(f: nat, w: nat, fs: seq<Followup>)
      requires Shape() && BatchOk() && RingOk(f, w, fs) && AllFollow(c, fs) && fs != []
      ensures Steps(c, SameHash, Resume(fs), 0).fs == fs
      ensures At(Steps(c, SameHash, Resume(fs), 0), 0, f, w) && Resume(fs).out == []
    {}

    lemma AtStartOfBatch(found: nat, w: nat)
      requires Shape() && BatchOk() && At(AfterHeads(c, SameHash, base, numProbes), found, 0, w)
      ensures At(Steps(c, SameHash, Resume([]), 0), found, 0, w) && found == |Resume([]).out|
    {}

    // ---- joinBoncz

    /** Body of the first loop of joinBoncz. */
    method QueueHead(i: nat, w: nat, ghost fs: seq<Followup>) returns (w': nat)
      requires Shape() && BatchOk() && i < numProbes && RingOk(0, w, fs) && |fs| <= i
      modifies followupIds, followupEntries
      ensures RingOk(0, w', fs + if c.heads[base + i] < 0 then [] else [Head(c, base + i)])
    {
      w' := w;
      HeadAddress(table, keyOf, c, base + i);
      var entry := FindChain(table, probeHashes[i]);
      if entry != table.format.end {
        followupIds[w] := i;
        followupEntries[w] := entry;
        w' := w + 1;
      } else {
        assert fs + [] == fs;
      }
    }

    /** First loop of joinBoncz: queue the chain heads. */
    method QueueHeads() returns (w: nat)
      requires Shape() && BatchOk()
      modifies followupIds, followupEntries
      ensures BatchOk() && RingOk(0, w, PresentHeads(c, base, numProbes))
    {
      hide RingOk, Head;
      w := 0;
      var i := 0;
      AtNothing();
      while i < numProbes
        invariant i <= numProbes && BatchOk() && RingOk(0, w, PresentHeads(c, base, i))
      {
        w := QueueHead(i, w, PresentHeads(c, base, i));
        i := i + 1;
      }
    }

    /** Positions j to e of the queue still hold the follow-ups fs[j..]. */
    ghost predicate Holds(fs: seq<Followup>, j: nat)
      reads `base, `numProbes, followupIds, followupEntries
      requires Shape() && j <= |fs| <= batchSize
    {
      forall k :: j <= k < |fs| ==>
        && base <= fs[k].0 < base + numProbes && 0 <= fs[k].1 < |c.side.addrs|
        && followupIds[k] == fs[k].0 - base
        && followupEntries[k] == c.side.addrs[fs[k].1]
    }

    /** Emit without comparing hashes. */
    method EmitAny(found: nat, i: nat, entry: T, ghost g: Followup, ghost out: seq<Pair<T>>)
      requires Shape() && BatchOk() && found == |out| < batchSize && Wrote(out) && join.JoinBoncz?
      requires base <= g.0 < base + numProbes && 0 <= g.1 < |c.side.addrs| && i == g.0 - base
               && entry == c.side.addrs[g.1]
      modifies buildMatches, probeMatches
      ensures Wrote(out + HitSeq(c, AnyEntry, g)) && |HitSeq(c, AnyEntry, g)| == 1
    {
      hide Linked, Wrote, HitSeq;
      HitIs(i, g);
      Emit(found, entry, i, g.0, out);
    }

    /** Body of the inner loop of joinBoncz: the j-th entry is a candidate, its successor is queued
        at or before position j. */
    method BonczOne(j: nat, found: nat, w: nat, ghost fs: seq<Followup>, ghost queued: seq<Followup>,
        ghost out: seq<Pair<T>>)
      returns (w': nat)
      requires Shape() && BatchOk() && |fs| <= batchSize && j < |fs| && Holds(fs, j)
      requires RingOk(0, w, queued) && w == |queued| <= j
      requires Wrote(out) && found == |out| < batchSize && join.JoinBoncz?
      modifies followupIds, followupEntries, buildMatches, probeMatches
      ensures Follows(c, fs[j]) && fs[j].1 >= 0 && BatchOk() && Holds(fs, j + 1)
      ensures RingOk(0, w', queued + Onward(c, fs[j])) && w' == |queued + Onward(c, fs[j])|
      ensures Wrote(out + HitSeq(c, AnyEntry, fs[j])) && |HitSeq(c, AnyEntry, fs[j])| == 1
    {
      ghost var g := fs[j];
      var i := followupIds[j];
      var entry := followupEntries[j];
      EmitAny(found, i, entry, g, out);
      w' := QueueNext(i, entry, 0, w, g, queued);
    }

    lemma BonczStep(p: Progress<T>, j: nat, queued: seq<Followup>)
      requires c.Ok() && AllFollow(c, p.fs) && AllFollow(c, queued) && j < |p.fs| && p.fs[j].1 >= 0
      requires p.fs[j..] + queued == Steps(c, AnyEntry, p, j).fs
      ensures p.fs[j + 1..] + (queued + Onward(c, p.fs[j])) == Steps(c, AnyEntry, p, j + 1).fs
      ensures Steps(c, AnyEntry, p, j + 1).out == Steps(c, AnyEntry, p, j).out + HitSeq(c, AnyEntry, p.fs[j])
      ensures Work(c, Steps(c, AnyEntry, p, j + 1).fs) + 1 == Work(c, Steps(c, AnyEntry, p, j).fs)
    {
      var q := Steps(c, AnyEntry, p, j);
      assert q.fs[0] == p.fs[j] && q.fs[1..] == p.fs[j + 1..] + queued;
      StepWorks(c, AnyEntry, q);
    }

    /** In the middle of a pass: entries before j are candidates, `queued` are the new follow-ups. */
    ghost predicate PassAt(p: Progress<T>, j: nat, queued: seq<Followup>, found: nat, w: nat)
      reads `base, `numProbes, `column, `probeSel, probeHashes, followupIds, followupEntries, buildMatches, probeMatches
      requires Shape() && AllFollow(c, p.fs)
    {
      var q := Steps(c, AnyEntry, p, j);
      && j <= |p.fs| <= batchSize && BatchOk() && AllFollow(c, queued) && Holds(p.fs, j)
      && (forall k :: 0 <= k < |p.fs| ==> p.fs[k].1 >= 0)
      && p.fs[j..] + queued == q.fs
      && RingOk(0, w, queued) && w == |queued| <= j
      && Wrote(q.out) && found == |q.out| == |p.out| + j && |p.out| + |p.fs| <= batchSize
      && Work(c, q.fs) + j == Work(c, p.fs)
    }

    lemma PassStarts(found: nat, e: nat, p: Progress<T>)
      requires Shape() && At(p, found, 0, e) && e == |p.fs| && found + e <= batchSize
      ensures PassAt(p, 0, [], found, 0)
    {
      assert p.fs[0..] + [] == p.fs;
    }

    lemma PassEnds(p: Progress<T>, queued: seq<Followup>, found: nat, w: nat)
      requires Shape() && AllFollow(c, p.fs) && PassAt(p, |p.fs|, queued, found, w)
      ensures At(Steps(c, AnyEntry, p, |p.fs|), found, 0, w) && found == |p.out| + |p.fs|
      ensures w == |Steps(c, AnyEntry, p, |p.fs|).fs| <= |p.fs|
      ensures Work(c, Steps(c, AnyEntry, p, |p.fs|).fs) + |p.fs| == Work(c, p.fs)
    {
      assert p.fs[|p.fs|..] + queued == queued;
    }

    method BonczTurn(j: nat, found: nat, w: nat, ghost p: Progress<T>, ghost queued: seq<Followup>) returns (w': nat)
      requires Shape() && AllFollow(c, p.fs) && j < |p.fs| && PassAt(p, j, queued, found, w) && join.JoinBoncz?
      modifies followupIds, followupEntries, buildMatches, probeMatches
      ensures Follows(c, p.fs[j]) && p.fs[j].1 >= 0
      ensures PassAt(p, j + 1, queued + Onward(c, p.fs[j]), found + 1, w')
    {
      hide Step, Look, Work, HitSeq;
      BonczStep(p, j, queued);
      w' := BonczOne(j, found, w, p.fs, queued, Steps(c, AnyEntry, p, j).out);
    }

    /** One pass over the queue: every queued entry becomes a candidate, and the entries after them
        are queued from the front of the same buffers. */
    method BonczPass(e: nat, found: nat, ghost p: Progress<T>) returns (found': nat, w: nat)
      requires Shape() && At(p, found, 0, e) && e == |p.fs| && found + e <= batchSize && join.JoinBoncz?
      modifies followupIds, followupEntries, buildMatches, probeMatches
      ensures At(Steps(c, AnyEntry, p, e), found', 0, w) && found' == found + e
      ensures w == |Steps(c, AnyEntry, p, e).fs| <= e
      ensures Work(c, Steps(c, AnyEntry, p, e).fs) + e == Work(c, p.fs)
    {
      hide PassAt, RingOk, Wrote, BatchOk, Work, Steps, Follows, Linked, Onward;
      PassStarts(found, e, p);
      found', w := found, 0;
      var j := 0;
      ghost var queued: seq<Followup> := [];
      while j < e
        invariant j <= e && found' == found + j && PassAt(p, j, queued, found', w)
      {
        w := BonczTurn(j, found', w, p, queued);
        queued := queued + Onward(c, p.fs[j]);
        found', j := found' + 1, j + 1;
      }
      PassEnds(p, queued, found', w);
    }

    /** What the ring counters say; the ring cannot overflow. */
    lemma RingCount(p: Progress<T>, found: nat, f: nat, w: nat)
      requires Shape() && At(p, found, f, w)
      ensures |p.fs| == if f <= w then w - f else followupBufferSize - (f - w)
      ensures |p.fs| <= batchSize && found == |p.out| <= batchSize
      ensures f == w <==> p.fs == []
      ensures p.fs == [] ==> At(p, found, 0, 0)
      ensures w < followupBufferSize
    {
      hide BatchOk, Linked, AllFollow;
    }

    lemma NoWrap(w: nat, size: nat)
      requires w < size
      ensures w % size == w
    {}

    /** The pass that began after k steps was the last: what was queued then did not fit into the rest of the
        output vectors, and as many entries as fit were looked at. */
    ghost predicate DidNotFit(p: Progress<T>, k: nat, steps: nat)
      requires Shape() && AllFollow(c, p.fs)
    {
      k <= steps && var q := Steps(c, SameHash, p, k);
      |q.out| + (steps - k) == batchSize && |q.fs| > steps - k
    }

    /** The follow-up loop: passes over the ring until it is empty or the output vectors might overflow. */
    method FollowAll(found: nat, f: nat, w: nat, ghost p: Progress<T>)
      returns (found': nat, f': nat, w': nat, ghost steps: nat)
      requires Shape() && AllFollow(c, p.fs) && At(Steps(c, SameHash, p, 0), found, f, w)
      modifies followupIds, followupEntries, buildMatches, probeMatches
      ensures At(Steps(c, SameHash, p, steps), found', f', w')
      ensures f' == w' <==> Steps(c, SameHash, p, steps).fs == []
      ensures f' == w' ==> f' == 0
      ensures f' != w' ==> found' > 0 && (found == 0 ==> steps > 0)
      ensures f' != w' ==> found + steps >= batchSize && exists k :: DidNotFit(p, k, steps)
      ensures Work(c, Steps(c, SameHash, p, steps).fs) + steps == Work(c, Steps(c, SameHash, p, 0).fs)
    {
      hide BatchOk, Wrote, RingOk, At, Step, Steps, Linked, Work, AllFollow;
      found', f', w', steps := found, f, w, 0;
      while f' != w'
        invariant At(Steps(c, SameHash, p, steps), found', f', w')
        invariant found == 0 && found' > 0 ==> steps > 0
        invariant found' <= found + steps
        invariant Work(c, Steps(c, SameHash, p, steps).fs) + steps == Work(c, Steps(c, SameHash, p, 0).fs)
        decreases Work(c, Steps(c, SameHash, p, steps).fs)
      {
        RingCount(Steps(c, SameHash, p, steps), found', f', w');
        var remainingSpace := batchSize - found';
        var nrFollowups := if f' <= w' then w' - f' else followupBufferSize - (f' - w');
        var fittingElements := if nrFollowups < remainingSpace then nrFollowups else remainingSpace;
        found', f', w' := FollowMany(fittingElements, found', f', w', p, steps);
        steps := steps + fittingElements;
        RingCount(Steps(c, SameHash, p, steps), found', f', w');
        if fittingElements < nrFollowups {
          assert DidNotFit(p, steps - fittingElements, steps);
          return;
        }
      }
      RingCount(Steps(c, SameHash, p, steps), found', f', w');
      f', w' := 0, 0;
    }

    /** joinAllParallel: writes the candidates with the probe's hash.  When the output vectors might
        overflow, it stops with the remaining follow-ups in the ring: then those queued at the start of the
        last pass did not fit. */
    method JoinParallel() returns (found: nat, ghost steps: nat)
      requires Shape() && BatchOk() && RingOk(followup, followupWrite, ring) && AllFollow(c, ring)
      requires ring == [] ==> followup == 0
      requires base + numProbes <= |rows|
      modifies `nextProbe, `followup, `followupWrite, `ring
      modifies followupIds, followupEntries, buildMatches, probeMatches
      ensures ring == Steps(c, SameHash, Resume(old(ring)), steps).fs
      ensures At(Steps(c, SameHash, Resume(old(ring)), steps), found, followup, followupWrite)
      ensures ring == [] ==> followup == 0 && nextProbe == numProbes
      ensures ring != [] ==> found > 0 && nextProbe == old(nextProbe)
      ensures ring != [] ==>
                |Resume(old(ring)).out| + steps >= batchSize && exists k :: DidNotFit(Resume(old(ring)), k, steps)
      ensures old(ring) != [] && ring != [] ==> Work(c, ring) < Work(c, old(ring))
    {
      hide BatchOk, Wrote, At, Step, Steps, Linked, Work, AllFollow, RingOk, Resume;
      found, steps := 0, 0;
      var f: nat, w: nat := followup, followupWrite;
      ghost var p := Resume(ring);
      RingSize(f, w, ring);
      if f == w {
        found, w := ProbeHeads();
        AtStartOfBatch(found, w);
      } else {
        AtStart(f, w, ring);
      }
      RingCount(Steps(c, SameHash, p, 0), found, f, w);
      NoWrap(w, followupBufferSize);
      w := w % followupBufferSize;
      found, f, w, steps := FollowAll(found, f, w, p);
      if f == w {
        nextProbe := numProbes;
      }
      followupWrite, followup, ring := w, f, Steps(c, SameHash, p, steps).fs;
    }

    ghost function BonczResume(fs: seq<Followup>): (p: Progress<T>)
      reads `base, `numProbes
      requires Shape() && base + numProbes <= |rows| && AllFollow(c, fs)
      ensures AllFollow(c, p.fs)
    {
      Progress([], if fs == [] then PresentHeads(c, base, numProbes) else fs)
    }

    lemma BonczStarts(w: nat, fs: seq<Followup>)
      requires Shape() && BatchOk() && AllFollow(c, fs)
      requires RingOk(0, w, if fs == [] then PresentHeads(c, base, numProbes) else fs)
      ensures At(Steps(c, AnyEntry, BonczResume(fs), 0), 0, 0, w) && w == |Steps(c, AnyEntry, BonczResume(fs), 0).fs|
      ensures w <= batchSize && (fs != [] ==> Steps(c, AnyEntry, BonczResume(fs), 0).fs == fs)
    {}

    lemma StepsCompose(m: Match, p: Progress<T>, k: nat, n: nat)
      requires AllFollow(c, p.fs)
      ensures Steps(c, m, Steps(c, m, p, k), n) == Steps(c, m, p, k + n)
      decreases n
    {
      if n > 0 { StepsCompose(m, p, k, n - 1); }
    }

    /** The passes of joinBoncz. */
    method BonczPasses(w: nat, ghost p: Progress<T>) returns (found: nat, w': nat, ghost steps: nat)
      requires Shape() && AllFollow(c, p.fs) && join.JoinBoncz?
      requires At(Steps(c, AnyEntry, p, 0), 0, 0, w) && w == |Steps(c, AnyEntry, p, 0).fs| <= batchSize
      modifies followupIds, followupEntries, buildMatches, probeMatches
      ensures At(Steps(c, AnyEntry, p, steps), found, 0, w') && w' == |Steps(c, AnyEntry, p, steps).fs|
      ensures w' > 0 ==> found > 0 && found + w' >= batchSize && steps > 0
      ensures Work(c, Steps(c, AnyEntry, p, steps).fs) + steps == Work(c, Steps(c, AnyEntry, p, 0).fs)
    {
      hide Wrote, BatchOk, At, Work, Steps, Follows, Linked;
      found, w', steps := 0, w, 0;
      while w' > 0
        invariant At(Steps(c, AnyEntry, p, steps), found, 0, w') && w' == |Steps(c, AnyEntry, p, steps).fs|
        invariant if found == 0 then w' <= batchSize && steps == 0 else w' > 0 && found + w' < batchSize
        invariant Work(c, Steps(c, AnyEntry, p, steps).fs) + steps == Work(c, Steps(c, AnyEntry, p, 0).fs)
        decreases Work(c, Steps(c, AnyEntry, p, steps).fs)
      {
        var e := w';
        found, w' := BonczPass(e, found, Steps(c, AnyEntry, p, steps));
        StepsCompose(AnyEntry, p, steps, e);
        steps := steps + e;
        if w' == 0 {
          return;
        } else if found + w' >= batchSize {
          return;
        }
      }
    }

    /** joinBoncz: every entry of a chain is a candidate.  It stops when the next pass might not fit
        into the output vectors and leaves the follow-ups at the front of the buffers. */
    method JoinAny() returns (found: nat, ghost steps: nat)
      requires Shape() && BatchOk() && RingOk(0, followupWrite, ring) && AllFollow(c, ring)
      requires base + numProbes <= |rows| && followup == 0 && join.JoinBoncz?
      modifies `nextProbe, `followupWrite, `ring
      modifies followupIds, followupEntries, buildMatches, probeMatches
      ensures ring == Steps(c, AnyEntry, BonczResume(old(ring)), steps).fs
      ensures At(Steps(c, AnyEntry, BonczResume(old(ring)), steps), found, 0, followupWrite)
      ensures ring == [] ==> nextProbe == numProbes
      ensures ring != [] ==> found > 0 && found + |ring| >= batchSize && nextProbe == old(nextProbe)
      ensures old(ring) != [] && ring != [] ==> Work(c, ring) < Work(c, old(ring))
    {
      hide Wrote, BatchOk, At, Work, Steps, Follows, BonczResume, PresentHeads, Linked, AllFollow;
      var w: nat := followupWrite;
      ghost var p := BonczResume(ring);
      RingSize(0, w, ring);
      if w == 0 {
        w := QueueHeads();
      }
      BonczStarts(w, ring);
      found, w, steps := BonczPasses(w, p);
      if w == 0 {
        nextProbe := numProbes;
      }
      followupWrite, ring := w, Steps(c, AnyEntry, p, steps).fs;
    }

    // ---- keys_equal

    ghost predicate WroteFrom(out: seq<Pair<T>>, i: nat)
      reads `base, `numProbes, `probeSel, buildMatches, probeMatches
      requires Shape() && i <= |out| <= batchSize
    {
      && |probeSel| == numProbes
      && forall k :: i <= k < |out| ==>
           && base <= out[k].1 < base + numProbes
           && buildMatches[k] == out[k].0 && buildMatches[k] in keyOf
           && probeMatches[k] == probeSel[out[k].1 - base]
    }

    lemma CandidateIs(i: nat, out: seq<Pair<T>>)
      requires Shape() && BatchOk() && i < |out| <= batchSize && WroteFrom(out, i)
      ensures probeMatches[i] < |column| && buildMatches[i] in keyOf && out[i].1 < |c.rows|
      ensures KeyHit(c, keyOf, out[i]) <==> keyOf[buildMatches[i]] == column[probeMatches[i]]
    {
      hide Linked;
    }

    method KeysEqualOne(i: nat, found: nat, ghost out: seq<Pair<T>>, ghost kept: seq<Pair<T>>) returns (found': nat)
      requires Shape() && BatchOk() && i < |out| <= batchSize && WroteFrom(out, i)
      requires Wrote(kept) && found == |kept| <= i
      modifies buildMatches, probeMatches
      ensures WroteFrom(out, i + 1)
      ensures Wrote(if KeyHit(c, keyOf, out[i]) then kept + [out[i]] else kept)
      ensures found' == if KeyHit(c, keyOf, out[i]) then found + 1 else found
    {
      hide Linked, BatchOk, KeyHit, Wrote;
      CandidateIs(i, out);
      found' := found;
      if keyOf[buildMatches[i]] == column[probeMatches[i]] {
        MoveCandidate(i, found, out, kept);
        found' := found + 1;
      }
    }

    method MoveCandidate(i: nat, found: nat, ghost out: seq<Pair<T>>, ghost kept: seq<Pair<T>>)
      requires Shape() && i < |out| <= batchSize && WroteFrom(out, i)
      requires Wrote(kept) && found == |kept| <= i
      modifies buildMatches, probeMatches
      ensures WroteFrom(out, i + 1) && Wrote(kept + [out[i]])
    {
      hide Linked;
      buildMatches[found] := buildMatches[i];
      probeMatches[found] := probeMatches[i];
    }

    /** keys_equal: compacts the candidates to those with equal keys, in place and in order. */
    method KeysEqual(n: nat, ghost out: seq<Pair<T>>) returns (found: nat)
      requires Shape() && BatchOk() && Wrote(out) && n == |out|
      modifies buildMatches, probeMatches
      ensures Wrote(KeepKeys(c, keyOf, out)) && found == |KeepKeys(c, keyOf, out)|
    {
      hide KeyHit, BatchOk, Linked;
      found := 0;
      var i := 0;
      while i < n
        invariant i <= n && BatchOk() && WroteFrom(out, i)
        invariant Wrote(KeepKeys(c, keyOf, out[..i])) && found == |KeepKeys(c, keyOf, out[..i])| <= i
      {
        KeepKeysStep(c, keyOf, out, i);
        found := KeysEqualOne(i, found, out, KeepKeys(c, keyOf, out[..i]));
        i := i + 1;
      }
      assert out[..n] == out;
    }

    // ---- next

    /** The operator between two calls of next. */
    ghost predicate Valid()
      reads this, probeHashes, followupIds, followupEntries
    {
      && Shape() && BatchOk()
      && Complete(c) && KeysKnown(c, keyOf) && HashedByKey(c)
      && AllFollow(c, ring) && RingOk(followup, followupWrite, ring)
      && (ring == [] || join.JoinBoncz? ==> followup == 0)
      && (nextProbe == 0 || nextProbe == numProbes)
      && (nextProbe == numProbes ==> ring == [])
      && Delivers(batches, rows, base + numProbes, batchSize)
      && (join.JoinSelParallel? || AllDense(batches))
    }

    /** The follow-ups of the current probe vector. */
    ghost function Todo(): (fs: seq<Followup>)
      reads `base, `numProbes, `nextProbe, `ring
      requires Shape() && base + numProbes <= |rows| && AllFollow(c, ring)
      ensures AllFollow(c, fs)
    {
      if nextProbe >= numProbes then [] else if ring == [] then Heads(c, base, numProbes) else ring
    }

    /** The part of the equijoin that has not been returned yet. */
    ghost function Remaining(): multiset<Pair<T>>
      reads `base, `numProbes, `nextProbe, `ring
      requires Shape() && base + numProbes <= |rows| && AllFollow(c, ring)
    {
      Pending(c, SameKey, Todo()) + NestedJoin(c, base + numProbes)
    }

    /** What joinAllParallel and keys_equal write and leave accounts for all key matches. */
    lemma ParallelAccount(fs: seq<Followup>, steps: nat)
      requires Shape() && KeysKnown(c, keyOf) && HashedByKey(c)
      requires base + numProbes <= |rows| && AllFollow(c, fs)
      ensures var q := Steps(c, SameHash, Resume(fs), steps);
        Account(c, SameKey, Progress(KeepKeys(c, keyOf, q.out), q.fs))
        == Pending(c, SameKey, if fs == [] then Heads(c, base, numProbes) else fs)
    {
      hide Steps, KeepKeys, Pending, AfterHeads, Heads, KeysKnown, HashedByKey;
      var q := Steps(c, SameHash, Resume(fs), steps);
      StepsConserve(c, SameHash, Resume(fs), steps);
      if fs == [] {
        AfterHeadsConserves(c, SameHash, base, numProbes);
      } else {
        EmptyUnion(Pending(c, SameHash, fs));
      }
      KeyAccount(c, keyOf, SameHash, q, if fs == [] then Heads(c, base, numProbes) else fs);
    }

    /** So does what joinBoncz and keys_equal write and leave. */
    lemma BonczAccount(fs: seq<Followup>, steps: nat)
      requires Shape() && KeysKnown(c, keyOf) && HashedByKey(c)
      requires base + numProbes <= |rows| && AllFollow(c, fs)
      ensures var q := Steps(c, AnyEntry, BonczResume(fs), steps);
        Account(c, SameKey, Progress(KeepKeys(c, keyOf, q.out), q.fs))
        == Pending(c, SameKey, if fs == [] then Heads(c, base, numProbes) else fs)
    {
      hide Steps, KeepKeys, Pending, PresentHeads, Heads, KeysKnown, HashedByKey;
      var q := Steps(c, AnyEntry, BonczResume(fs), steps);
      var all := BonczResume(fs).fs;
      StepsConserve(c, AnyEntry, BonczResume(fs), steps);
      EmptyUnion(Pending(c, AnyEntry, all));
      KeyAccount(c, keyOf, AnyEntry, q, all);
      PresentHeadsAreHeads(c, SameKey, base, numProbes);
    }

    method ParallelAndCompare() returns (n: nat, ghost out: seq<Pair<T>>)
      requires Valid() && nextProbe < numProbes
      modifies `nextProbe, `followup, `followupWrite, `ring
      modifies followupIds, followupEntries, buildMatches, probeMatches
      ensures BatchOk() && AllFollow(c, ring) && RingOk(followup, followupWrite, ring) && Wrote(out) && n == |out|
      ensures ring == [] ==> followup == 0
      ensures Account(c, SameKey, Progress(out, ring)) == Pending(c, SameKey, old(Todo()))
      ensures if ring == [] then nextProbe == numProbes else nextProbe == old(nextProbe)
      ensures old(ring) != [] && ring != [] ==> Work(c, ring) < Work(c, old(ring))
    {
      hide Steps, KeepKeys, Pending, Account, Work, Resume, Heads, Complete, KeysKnown, HashedByKey;
      ghost var fs, p := ring, Resume(ring);
      ghost var steps: nat;
      n, steps := JoinParallel();
      ParallelAccount(fs, steps);
      out := Steps(c, SameHash, p, steps).out;
      n := KeysEqual(n, out);
      out := KeepKeys(c, keyOf, out);
    }

    method BonczAndCompare() returns (n: nat, ghost out: seq<Pair<T>>)
      requires Valid() && nextProbe < numProbes && followup == 0 && join.JoinBoncz?
      modifies `nextProbe, `followup, `followupWrite, `ring
      modifies followupIds, followupEntries, buildMatches, probeMatches
      ensures BatchOk() && AllFollow(c, ring) && RingOk(followup, followupWrite, ring) && Wrote(out) && n == |out|
      ensures followup == 0
      ensures Account(c, SameKey, Progress(out, ring)) == Pending(c, SameKey, old(Todo()))
      ensures if ring == [] then nextProbe == numProbes else nextProbe == old(nextProbe)
      ensures old(ring) != [] && ring != [] ==> Work(c, ring) < Work(c, old(ring))
    {
      hide Steps, KeepKeys, Pending, Account, Work, BonczResume, Heads, Complete, KeysKnown, HashedByKey;
      ghost var fs, p := ring, BonczResume(ring);
      ghost var steps: nat;
      n, steps := JoinAny();
      BonczAccount(fs, steps);
      out := Steps(c, AnyEntry, p, steps).out;
      n := KeysEqual(n, out);
      out := KeepKeys(c, keyOf, out);
    }

    /** The join function chosen for the operator, then keys_equal. */
    method JoinAndCompare() returns (n: nat, ghost out: seq<Pair<T>>)
      requires Valid() && nextProbe < numProbes
      modifies `nextProbe, `followup, `followupWrite, `ring
      modifies followupIds, followupEntries, buildMatches, probeMatches
      ensures Valid() && Wrote(out) && n == |out|
      ensures Account(c, SameKey, Progress(out, ring)) == Pending(c, SameKey, old(Todo()))
      ensures if ring == [] then nextProbe == numProbes else nextProbe == old(nextProbe)
      ensures old(ring) != [] && ring != [] ==> Work(c, ring) < Work(c, old(ring))
    {
      hide RingOk, BatchOk, Wrote, Linked, Complete, KeysKnown, HashedByKey, Account, Pending, Work, AllFollow, Heads;
      if !join.JoinBoncz? {
        n, out := ParallelAndCompare();
      } else {
        n, out := BonczAndCompare();
      }
    }

    /** probeHash.evaluate: hashes the keys of a new probe vector. */
    method EvaluateProbeHash()
      requires Shape() && base + numProbes <= |rows| && numProbes <= batchSize
      requires Vector(column, probeSel).Selects(rows[base..base + numProbes])
      requires join.JoinSelParallel? || Vector(column, probeSel).Dense()
      modifies probeHashes
      ensures BatchOk()
    {
      var i := 0;
      while i < numProbes
        invariant i <= numProbes
        invariant forall k :: 0 <= k < i ==> probeHashes[k] == hash(rows[base + k])
      {
        probeHashes[i] := hash(column[probeSel[i]]);
        i := i + 1;
      }
    }

    lemma PullConserves(first: nat, n: nat)
      requires Complete(c) && first + n <= |c.rows|
      ensures Pending(c, SameKey, Heads(c, first, n)) + NestedJoin(c, first + n) == NestedJoin(c, first)
    {
      hide Pending, NestedJoin, Heads;
      HeadsAreComplete(c, first, n);
      OwedAtFirst(c, first);
    }

    lemma RemainingBetweenBatches()
      requires Shape() && base + numProbes <= |rows| && AllFollow(c, ring) && nextProbe >= numProbes
      ensures Remaining() == NestedJoin(c, base + numProbes)
    {
      EmptyUnion(NestedJoin(c, base + numProbes));
    }

    lemma JoinIsOk()
      requires Shape()
      ensures c.Ok()
    {}

    /** right->next(): the next vector, or none. */
    method NextVector()
      requires base + numProbes <= |rows| && Delivers(batches, rows, base + numProbes, batchSize)
               && (join.JoinSelParallel? || AllDense(batches))
      modifies `base, `numProbes, `nextProbe, `batches, `column, `probeSel
      ensures base == old(base + numProbes) && nextProbe == 0
      ensures base + numProbes <= |rows| && Delivers(batches, rows, base + numProbes, batchSize)
              && (join.JoinSelParallel? || AllDense(batches))
      ensures Vector(column, probeSel).Selects(rows[base..base + numProbes])
              && (join.JoinSelParallel? || Vector(column, probeSel).Dense())
      ensures numProbes <= batchSize && (numProbes == 0 <==> old(batches) == [])
      ensures numProbes == 0 ==> base == |rows|
      ensures numProbes > 0 ==> |batches| < |old(batches)|
    {
      base := base + numProbes;
      if batches == [] {
        numProbes, column, probeSel := 0, [], [];
      } else {
        assert batches[0].Dense() || join.JoinSelParallel?;
        numProbes, column, probeSel := |batches[0].sel|, batches[0].column, batches[0].sel;
        batches := batches[1..];
      }
      nextProbe := 0;
    }

    /** Pull the next probe vector from `right`; an empty one is the end of the stream. */
    method Pull()
      requires Valid() && nextProbe >= numProbes
      modifies `base, `numProbes, `nextProbe, `batches, `column, `probeSel, probeHashes
      ensures Valid() && nextProbe == 0
      ensures Remaining() == old(Remaining())
      ensures numProbes == 0 <==> old(batches) == []
      ensures numProbes == 0 ==> Remaining() == multiset{}
      ensures numProbes > 0 ==> |batches| < |old(batches)| && ring == []
    {
      hide Pending, NestedJoin, Heads, Complete, KeysKnown, HashedByKey, Linked, Valid, Delivers, AllDense, BatchOk;
      ValidFacts();
      RemainingBetweenBatches();
      ghost var first := base + numProbes;
      NextVector();
      EvaluateProbeHash();
      ReadyIsValid();
      if numProbes == 0 {
        RemainingBetweenBatches();
        AllRowsDone();
      } else {
        PullConserves(first, numProbes);
      }
    }

    lemma AllRowsDone()
      requires c.Ok()
      ensures NestedJoin(c, |c.rows|) == multiset{}
    {}

    lemma JoinConserves(out: seq<Pair<T>>, todo: seq<Followup>)
      requires Shape() && base + numProbes <= |rows| && AllFollow(c, ring) && AllFollow(c, todo)
      requires Account(c, SameKey, Progress(out, ring)) == Pending(c, SameKey, todo)
      requires if ring == [] then nextProbe == numProbes else nextProbe < numProbes
      ensures multiset(out) + Remaining() == Pending(c, SameKey, todo) + NestedJoin(c, base + numProbes)
    {
      hide Pending, NestedJoin;
      assert Todo() == ring;
      MultisetUnion(multiset(out), Pending(c, SameKey, ring), NestedJoin(c, base + numProbes));
    }

    /** The join function and keys_equal, as a step of next. */
    method JoinStep() returns (n: nat, ghost out: seq<Pair<T>>)
      requires Valid() && nextProbe < numProbes
      modifies `nextProbe, `followup, `followupWrite, `ring
      modifies followupIds, followupEntries, buildMatches, probeMatches
      ensures Valid() && Wrote(out) && n == |out|
      ensures multiset(out) + Remaining() == old(Remaining())
      ensures if ring == [] then nextProbe == numProbes else nextProbe == old(nextProbe)
      ensures old(ring) != [] && ring != [] ==> Work(c, ring) < Work(c, old(ring))
    {
      hide Pending, NestedJoin, Heads, Account, RingOk, Wrote, Complete, KeysKnown, HashedByKey, Work;
      ghost var todo := Todo();
      n, out := JoinAndCompare();
      JoinConserves(out, todo);
    }

    lemma NothingBuilt()
      requires Shape() && base + numProbes <= |rows| && AllFollow(c, ring) && globalFound == 0
      ensures Remaining() == multiset{}
    {
      EmptyBuildPending(c, SameKey, Todo());
      EmptyBuildNested(c, base + numProbes);
    }

    /** Hashjoin::next after the build phase: one vector of join results, 0 at the end. */
    method Next() returns (n: nat, ghost out: seq<Pair<T>>)
      requires Valid()
      modifies this, probeHashes, followupIds, followupEntries, buildMatches, probeMatches
      ensures Valid() && Wrote(out) && n == |out|
      ensures multiset(out) + Remaining() == old(Remaining())
      ensures n == 0 ==> Remaining() == multiset{}
    {
      hide Pending, NestedJoin, Heads, RingOk, Wrote, Complete, KeysKnown, HashedByKey, Remaining, Linked, Work;
      if !consumed {
        consumed := true;
        if globalFound == 0 {
          NothingBuilt();
          WroteNothing();
          return 0, [];
        }
      }
      while true
        invariant Valid() && Remaining() == old(Remaining())
        decreases |batches|, nextProbe < numProbes, ring == [], Work(c, ring)
      {
        if nextProbe >= numProbes {
          Pull();
          if numProbes == 0 {
            WroteNothing();
            return 0, [];
          }
        }
        n, out := JoinStep();
        if n == 0 {
          assert out == [];
          continue;
        }
        return;
      }
    }

    lemma WroteNothing()
      requires Shape() && BatchOk()
      ensures Wrote([])
    {}

    /** The loop of a parent operator: calls next until the end of the stream. */
    method Drain() returns (found: nat, ghost result: multiset<Pair<T>>)
      requires Valid()
      modifies this, probeHashes, followupIds, followupEntries, buildMatches, probeMatches
      ensures Valid()
      ensures result == old(Remaining()) && found == |result|
    {
      hide Wrote, Remaining, Complete, KeysKnown, HashedByKey, RingOk, BatchOk, Linked;
      found, result := 0, multiset{};
      ghost var out: seq<Pair<T>>;
      var n: nat;
      n, out := Next();
      while n != 0
        invariant Valid() && n == |out| && found == |result|
        invariant result + multiset(out) + Remaining() == old(Remaining())
        invariant n == 0 ==> Remaining() == multiset{}
        decreases |Remaining()| + n
      {
        found, result := found + n, result + multiset(out);
        n, out := Next();
      }
    }
  }
}
