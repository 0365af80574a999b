/** The hash join end to end: concurrent build, then the probe of one worker. */
module ParallelHashJoin {
  import opened Hashmap
  import CI = ConcurrentInsert
  import opened JoinSpec
  import HJ = HashJoin

  lemma {:induction false} NestedCount<T, K>(s: Side<T, K>, n: nat, row: nat, p: Probe<T, K>, x: Pair<T>)
    requires s.Ok() && n <= |s.addrs|
    requires forall i, j :: 0 <= i < j < |s.addrs| ==> s.addrs[i] != s.addrs[j]
    ensures Nested(s, n, row, p)[x]
      == if x.1 == row && exists i :: 0 <= i < n && s.addrs[i] == x.0 && s.keys[i] == p.key then 1 else 0
  {
    if n > 0 {
      NestedCount(s, n - 1, row, p, x);
    }
  }

  ghost predicate Joins<T, K>(c: Join<T, K>, x: Pair<T>)
    requires c.side.Ok()
  {
    x.1 < |c.rows| && exists i :: 0 <= i < |c.side.addrs| && c.side.addrs[i] == x.0 && c.side.keys[i] == c.rows[x.1]
  }

  lemma CountOfUnion<A>(a: multiset<A>, b: multiset<A>, x: A)
    ensures (a + b)[x] == a[x] + b[x]
  {}

  /** The nested loop over distinct entries holds every joining pair once. */
  lemma {:induction false} NestedJoinCount<T, K>(c: Join<T, K>, row: nat, x: Pair<T>)
    requires c.side.Ok() && row <= |c.rows|
    requires forall i, j :: 0 <= i < j < |c.side.addrs| ==> c.side.addrs[i] != c.side.addrs[j]
    ensures NestedJoin(c, row)[x] == if row <= x.1 && Joins(c, x) then 1 else 0
    decreases |c.rows| - row
  {
    hide Nested;
    if row < |c.rows| {
      NestedCount(c.side, |c.side.addrs|, row, ProbeOf(c, row), x);
      NestedJoinCount(c, row + 1, x);
      CountOfUnion(Nested(c.side, |c.side.addrs|, row, ProbeOf(c, row)), NestedJoin(c, row + 1), x);
    }
  }

  /** The tuples of all workers have been materialised with the hashes of their keys. */
  ghost predicate Scattered<T(!new), K>(s: CI.State<T>, all: iset<T>, keyOf: map<T, K>, hash: K -> T) {
    forall a :: a in all ==> a in s.table.mem && a in keyOf && s.table.mem[a].hash == hash(keyOf[a])
  }

  lemma BuildIsBuilt<T(!new), K>(run: seq<CI.State<T>>, who: seq<nat>, all: iset<T>, keyOf: map<T, K>, hash: K -> T)
    requires CI.IsRun(run, who, all) && CI.Finished(run[|who|])
    requires Scattered(run[0], all, keyOf, hash)
    ensures HJ.Built(run[|who|].table, run[|who|].log, keyOf, hash)
    ensures forall a :: a in all <==> a in run[|who|].log
    ensures CI.NoDuplicates(run[|who|].log)
  {
    hide CI.Init, CI.Step, Represents;
    CI.FinishedTableHoldsAll(run, who, all);
    var log := run[|who|].log;
    forall i | 0 <= i < |log|
      ensures log[i] in keyOf && log[i] in run[|who|].table.mem
              && run[|who|].table.mem[log[i]].hash == hash(keyOf[log[i]])
    {
      assert log[i] in all;
      CI.HashesAreKept(run, who, all, |who|, log[i]);
    }
  }

  lemma JoinIsExact<T(!new), K>(table: Table<T>, log: seq<T>, all: iset<T>, keyOf: map<T, K>, hash: K -> T,
      rows: seq<K>, a: T, r: nat)
    requires HJ.Built(table, log, keyOf, hash) && CI.NoDuplicates(log)
    requires forall b :: b in all <==> b in log
    ensures NestedJoin(HJ.JoinOf(table, log, keyOf, hash, rows), 0)[(a, r)]
      == if a in all && r < |rows| && keyOf[a] == rows[r] then 1 else 0
  {
    hide Represents, NestedJoin;
    var c := HJ.JoinOf(table, log, keyOf, hash, rows);
    NestedJoinCount(c, 0, (a, r));
    if a in all {
      var i :| 0 <= i < |log| && log[i] == a;
      assert c.side.addrs[i] == a;
    }
  }

  /** Any interleaving of the concurrent insertions followed by the probe of a worker, in batches of
      any sizes and with any of the join functions, returns exactly the equijoin of the worker's rows with
      the tuples of all workers: each pair once. */
  method ProbeAfterBuild<T(0, ==, !new), K(==, !new)>(
      ghost run: seq<CI.State<T>>, ghost who: seq<nat>, ghost all: iset<T>,
      table: Table<T>, keyOf: map<T, K>, hash: K -> T, globalFound: nat,
      ghost rows: seq<K>, batches: seq<HJ.Vector<K>>, batchSize: nat, join: HJ.Variant)
    returns (found: nat, ghost result: multiset<Pair<T>>)
    requires CI.IsRun(run, who, all) && CI.Finished(run[|who|])
    requires Scattered(run[0], all, keyOf, hash)
    requires table == run[|who|].table && globalFound == |run[|who|].log|
    requires 0 < batchSize && HJ.Delivers(batches, rows, 0, batchSize)
    requires join.JoinSelParallel? || HJ.AllDense(batches)
    ensures found == |result|
    ensures forall a, r: nat :: result[(a, r)] == if a in all && r < |rows| && keyOf[a] == rows[r] then 1 else 0
  {
    hide CI.Init, CI.Step, CI.Finished, HJ.Built, HJ.JoinOf, Complete, HJ.Linked, NestedJoin, CI.NoDuplicates;
    BuildIsBuilt(run, who, all, keyOf, hash);
    ghost var log := run[|who|].log;
    var op := new HJ.Hashjoin(table, keyOf, hash, log, globalFound, rows, batches, batchSize, join);
    found, result := op.Drain();
    forall a, r: nat { JoinIsExact(table, log, all, keyOf, hash, rows, a, r); }
  }
}
