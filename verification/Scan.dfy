/** Morsel-driven table scan: workers claim chunks of vectors from a shared counter and return them
    vector by vector. */
module Scan {

  import opened Numbers

  /** Sizes fixed by the constructor. */
  datatype Config = Config(nrTuples: nat, vecSize: nat, chunkSize: nat) {
    ghost predicate Ok() { vecSize > 0 && chunkSize > 0 }
  }

  const MORSEL_SIZE: nat := 1024 * 10

  function MakeConfig(nrTuples: nat, vecSize: nat): Config
    requires vecSize > 0
  {
    Config(nrTuples, vecSize, if vecSize < MORSEL_SIZE then MORSEL_SIZE / vecSize + 1 else 1)
  }

  /** A chunk is the fewest vectors that hold more than a morsel of tuples, or one vector if that is not
      smaller than a morsel. */
  lemma ChunkIsMorsel(nrTuples: nat, vecSize: nat)
    requires vecSize > 0
    ensures var c := MakeConfig(nrTuples, vecSize);
      && c.nrTuples == nrTuples && c.vecSize == vecSize && c.chunkSize >= 1
      && (vecSize < 10240 ==> (c.chunkSize - 1) * vecSize <= 10240 < c.chunkSize * vecSize)
      && (vecSize >= 10240 ==> c.chunkSize == 1)
  {
    var q := MORSEL_SIZE / vecSize;
    assert MORSEL_SIZE == vecSize * q + MORSEL_SIZE % vecSize;
  }

  /** The fields of one worker's operator. */
  datatype Worker = Worker(needsInit: bool, vecInChunk: nat, currentChunk: nat, lastOffset: nat)

  /** One call of next: the worker, the shared counter and the batch size after it, 0 at the end.
      The only access to shared state is one fetch_add. */
  function NextBatch(c: Config, w: Worker, pos: nat): (Worker, nat, nat)
  {
    if w.vecInChunk == c.chunkSize then
      // claim chunk number pos
      var skip := pos - w.currentChunk;
      var step := if w.needsInit then skip * c.chunkSize else (skip - 1) * c.chunkSize + 1;
      var claimed := Worker(false, 0, pos, w.lastOffset);
      var r := Advance(c, claimed, step);
      (r.0, pos + 1, r.1)
    else
      var r := Advance(c, w, 1);
      (r.0, pos, r.1)
  }

  function Advance(c: Config, w: Worker, step: int): (Worker, nat) {
    var nextBegin := w.lastOffset + step * c.vecSize;
    if nextBegin < 0 || nextBegin >= c.nrTuples then (w, 0)
    else (w.(lastOffset := nextBegin, vecInChunk := w.vecInChunk + 1), Min(c.nrTuples - nextBegin, c.vecSize))
  }

  class Shared {
    var pos: nat
    constructor () ensures pos == 0 { pos := 0; }
  }

  /** A registered column pointer and the bytes of one vector of it. */
  datatype Consumer = Consumer(ptr: int, stride: nat)

  class Operator {
    const shared: Shared
    const nrTuples: nat
    const vecSize: nat
    var scanChunkSize: nat
    var needsInit: bool
    var vecInChunk: nat
    var currentChunk: nat
    var lastOffset: nat
    var consumers: seq<Consumer>
    ghost var columns: seq<(int, nat)>   // every consumer's address of tuple 0 and type size

    ghost function C(): Config reads this { Config(nrTuples, vecSize, scanChunkSize) }

    ghost function W(): Worker reads this { Worker(needsInit, vecInChunk, currentChunk, lastOffset) }

    /** Every consumer points to tuple `offset` of its column and knows the bytes of a vector of it. */
    ghost predicate PointAt(offset: int)
      reads `consumers, `columns
    {
      && |consumers| == |columns|
      && forall i :: 0 <= i < |consumers| ==>
           && consumers[i].stride == vecSize * columns[i].1
           && consumers[i].ptr == columns[i].0 + offset * columns[i].1
    }

    /** Every consumer points to the first tuple of the last batch. */
    ghost predicate PointersOk()
      reads `consumers, `columns, `lastOffset
    {
      PointAt(lastOffset)
    }

    constructor (shared: Shared, n: nat, v: nat)
      requires v > 0
      ensures this.shared == shared && C() == MakeConfig(n, v) && PointersOk() && columns == []
      ensures W() == Worker(true, C().chunkSize, 0, 0)
    {
      this.shared, needsInit, currentChunk, lastOffset, nrTuples, vecSize := shared, true, 0, 0, n, v;
      scanChunkSize := 1;
      vecInChunk := 1;
      consumers, columns := [], [];
      new;
      var scanMorselSize := MORSEL_SIZE;
      if vecSize < scanMorselSize { scanChunkSize := scanMorselSize / vecSize + 1; }
      vecInChunk := scanChunkSize;
    }

    /** Register a column pointer.  It keeps its distance from where the scan is when it is registered;
        before the first batch that makes `ptr` the column's base. */
    method AddConsumer(ptr: int, typeSize: nat)
      requires PointersOk()
      modifies `consumers, `columns
      ensures PointersOk() && columns == old(columns) + [(ptr - lastOffset * typeSize, typeSize)]
      ensures consumers == old(consumers) + [Consumer(ptr, vecSize * typeSize)]
    {
      consumers := consumers + [Consumer(ptr, vecSize * typeSize)];
      columns := columns + [(ptr - lastOffset * typeSize, typeSize)];
    }

    method Next() returns (n: nat)
      requires PointersOk() && currentChunk <= shared.pos
               && (needsInit || currentChunk < shared.pos || vecInChunk < scanChunkSize)
      modifies this, shared
      ensures PointersOk() && C() == old(C()) && columns == old(columns)
      ensures (W(), shared.pos, n) == NextBatch(C(), old(W()), old(shared.pos))
    {
      hide PointAt;
      var step: int := 1;
      if vecInChunk == scanChunkSize {
        var prevChunk := currentChunk;
        currentChunk := shared.pos;
        shared.pos := shared.pos + 1;
        var chunkSkip := currentChunk - prevChunk;
        StepsForward(chunkSkip, scanChunkSize);
        if needsInit {
          step := chunkSkip * scanChunkSize;
          needsInit := false;
        } else {
          chunkSkip := chunkSkip - 1;
          StepsForward(chunkSkip, scanChunkSize);
          step := chunkSkip * scanChunkSize + 1;
        }
        vecInChunk := 0;
      }
      StepsForward(step, vecSize);
      var nextBegin := lastOffset + step * vecSize;
      if nextBegin >= nrTuples {
        return 0;
      }
      var nextBatchSize := Min(nrTuples - nextBegin, vecSize);
      MoveConsumers(step);
      lastOffset := nextBegin;
      vecInChunk := vecInChunk + 1;
      return nextBatchSize;
    }

    lemma StepsForward(step: int, v: nat)
      requires step >= 0
      ensures step * v >= 0
    {}

    method MoveConsumers(step: int)
      requires PointersOk()
      modifies `consumers
      ensures PointAt(lastOffset + step * vecSize)
    {
      var i := 0;
      while i < |consumers|
        invariant i <= |consumers| == |columns|
        invariant forall k :: 0 <= k < |consumers| ==>
          && consumers[k].stride == vecSize * columns[k].1
          && consumers[k].ptr == columns[k].0
             + (if k < i then lastOffset + step * vecSize else lastOffset) * columns[k].1
      {
        var cons := consumers[i];
        MovesByVectors(lastOffset, step, vecSize, columns[i].1);
        consumers := consumers[i := cons.(ptr := cons.ptr + step * cons.stride)];
        i := i + 1;
      }
    }
  }

  lemma MovesByVectors(offset: nat, step: int, vecSize: nat, typeSize: nat)
    ensures offset * typeSize + step * (vecSize * typeSize) == (offset + step * vecSize) * typeSize
  {}

  // ---- any number of workers

  /** Workers by number, the shared counter, which workers have seen the end of the stream, who
      claimed each chunk, and what was returned so far: the batches as (first tuple, size), and for each
      the vector of the table it is, as (chunk, vector in chunk). */
  datatype System = System(
    pos: nat, workers: map<nat, Worker>, done: set<nat>, owner: seq<nat>, batches: seq<(nat, nat)>,
        log: seq<(nat, nat)>)

  function Begin(c: Config, v: (nat, nat)): nat {
    (v.0 * c.chunkSize + v.1) * c.vecSize
  }

  ghost predicate Init(c: Config, s: System) {
    && c.Ok() && s.pos == 0 && s.done == {} && s.owner == [] && s.batches == [] && s.log == []
    && forall t :: t in s.workers ==> s.workers[t] == Worker(true, c.chunkSize, 0, 0)
  }

  /** A worker that has not seen the end of the stream calls next. */
  ghost predicate Step(c: Config, s: System, s': System, t: nat) {
    && t in s.workers && t !in s.done
    && var (w, pos, n) := NextBatch(c, s.workers[t], s.pos);
       && s'.workers == s.workers[t := w] && s'.pos == pos
       && s'.owner == (if pos > s.pos then s.owner + [t] else s.owner)
       && if n == 0 then s'.done == s.done + {t} && s'.batches == s.batches && s'.log == s.log
          else
            && s'.done == s.done && s'.batches == s.batches + [(w.lastOffset, n)]
            && w.vecInChunk > 0 && s'.log == s.log + [(w.currentChunk, w.vecInChunk - 1)]
  }

  /** Where a worker stands. */
  ghost predicate WorkerOk(c: Config, s: System, t: nat)
    requires t in s.workers
  {
    var w := s.workers[t];
    if w.needsInit then
      && w == Worker(true, c.chunkSize, 0, 0) && t !in s.done
      && forall k :: 0 <= k < |s.owner| ==> s.owner[k] != t
    else
      && w.currentChunk < |s.owner| && s.owner[w.currentChunk] == t
      && (forall k :: w.currentChunk < k < |s.owner| ==> s.owner[k] != t)
      && w.vecInChunk <= c.chunkSize
      && if t in s.done then Begin(c, (w.currentChunk, w.vecInChunk)) >= c.nrTuples
         else w.vecInChunk > 0 && w.lastOffset == Begin(c, (w.currentChunk, w.vecInChunk - 1))
  }

  /** A vector has been returned: its chunk is claimed and its owner is past it. */
  ghost predicate Returned(c: Config, s: System, v: (nat, nat)) {
    && v.0 < |s.owner| && v.1 < c.chunkSize && Begin(c, v) < c.nrTuples
    && s.owner[v.0] in s.workers
    && var w := s.workers[s.owner[v.0]];
       v.0 < w.currentChunk || (v.0 == w.currentChunk && v.1 < w.vecInChunk)
  }

  ghost predicate Inv(c: Config, s: System) {
    && c.Ok() && s.pos == |s.owner| && s.done <= s.workers.Keys
    && (forall k :: 0 <= k < |s.owner| ==> s.owner[k] in s.workers && !s.workers[s.owner[k]].needsInit)
    && (forall t :: t in s.workers ==> WorkerOk(c, s, t))
    && (forall v :: v in s.log <==> Returned(c, s, v))
    && (forall i, j :: 0 <= i < j < |s.log| ==> s.log[i] != s.log[j])
    && BatchesOk(c, s)
  }

  /** The tuples of a vector of the table, cut off at the table's end. */
  ghost predicate IsBatch(c: Config, b: (nat, nat), v: (nat, nat)) {
    b.0 == Begin(c, v) < c.nrTuples && b.1 == Min(c.nrTuples - Begin(c, v), c.vecSize)
  }

  ghost predicate BatchesOk(c: Config, s: System) {
    |s.batches| == |s.log| && forall i {:trigger s.batches[i]} ::
        0 <= i < |s.log| ==> IsBatch(c, s.batches[i], s.log[i])
  }

  lemma BeginNext(c: Config, k: nat, i: nat)
    ensures Begin(c, (k, i)) + c.vecSize == Begin(c, (k, i + 1))
  {}

  lemma BeginClaim(c: Config, prev: nat, k: nat)
    requires prev < k && c.chunkSize > 0
    ensures Begin(c, (prev, c.chunkSize - 1)) + ((k - prev - 1) * c.chunkSize + 1) * c.vecSize == Begin(c, (k, 0))
    ensures ((k - prev - 1) * c.chunkSize + 1) * c.vecSize >= 0
  {
    var m := k - prev - 1;
    Distribute(prev, m + 1, c.chunkSize);
    Distribute(m, 1, c.chunkSize);
    Distribute(prev * c.chunkSize + (c.chunkSize - 1), m * c.chunkSize + 1, c.vecSize);
  }

  lemma Distribute(a: nat, b: nat, x: nat)
    ensures a * x + b * x == (a + b) * x
    ensures a * x >= 0 && b * x >= 0
  {}

  lemma BeginFirst(c: Config, k: nat)
    ensures 0 + (k * c.chunkSize) * c.vecSize == Begin(c, (k, 0))
  {}

  /** Vectors are ordered by their first tuple. */
  lemma BeginOrder(c: Config, u: (nat, nat), v: (nat, nat))
    requires c.Ok() && u.1 <= c.chunkSize && v.1 <= c.chunkSize
    requires u.0 < v.0 || (u.0 == v.0 && u.1 <= v.1)
    ensures Begin(c, u) <= Begin(c, v)
  {
    if u.0 < v.0 {
      assert (u.0 + 1) * c.chunkSize <= v.0 * c.chunkSize;
    }
    assert u.0 * c.chunkSize + u.1 <= v.0 * c.chunkSize + v.1;
  }

  /** What one call of next does, in terms of vectors. */
  lemma NextIs(c: Config, s: System, t: nat)
    requires Inv(c, s) && t in s.workers && t !in s.done
    ensures var w := s.workers[t];
      var (w', pos, n) := NextBatch(c, w, s.pos);
      var v := if w.vecInChunk == c.chunkSize then (s.pos, 0) else (w.currentChunk, w.vecInChunk);
      && pos == (if w.vecInChunk == c.chunkSize then s.pos + 1 else s.pos)
      && !w'.needsInit && w'.currentChunk == v.0
      && if Begin(c, v) >= c.nrTuples then
           n == 0 && w'.vecInChunk == v.1
         else
           && n > 0 && w'.vecInChunk == v.1 + 1 && w'.lastOffset == Begin(c, v)
           && n == Min(c.nrTuples - Begin(c, v), c.vecSize)
  {
    var w := s.workers[t];
    assert WorkerOk(c, s, t);
    if w.vecInChunk == c.chunkSize {
      if w.needsInit {
        BeginFirst(c, s.pos);
      } else {
        BeginClaim(c, w.currentChunk, s.pos);
      }
    } else {
      BeginNext(c, w.currentChunk, w.vecInChunk - 1);
    }
  }

  /** The vector a call of next is about. */
  function Target(c: Config, s: System, t: nat): (nat, nat)
    requires t in s.workers
  {
    var w := s.workers[t];
    if w.vecInChunk == c.chunkSize then (s.pos, 0) else (w.currentChunk, w.vecInChunk)
  }

  lemma OtherWorkerStays(c: Config, s: System, s': System, t: nat, u: nat)
    requires Inv(c, s) && Step(c, s, s', t) && u in s.workers && u != t
    ensures WorkerOk(c, s', u)
  {
    hide Begin, Returned;
    assert WorkerOk(c, s, u);
    NextIs(c, s, t);
  }

  lemma OwnWorkerStays(c: Config, s: System, s': System, t: nat)
    requires Inv(c, s) && Step(c, s, s', t)
    ensures WorkerOk(c, s', t)
  {
    hide Begin, Returned, NextBatch;
    assert WorkerOk(c, s, t);
    NextIs(c, s, t);
  }

  /** A step returns exactly its target, if that begins within the table. */
  lemma ReturnedGrows(c: Config, s: System, s': System, t: nat, v: (nat, nat))
    requires Inv(c, s) && Step(c, s, s', t)
    ensures Returned(c, s', v) <==> Returned(c, s, v) || (v == Target(c, s, t) && Begin(c, v) < c.nrTuples)
    ensures !Returned(c, s, Target(c, s, t))
  {
    hide Begin, NextBatch, Inv, Min;
    OneWorker(c, s, t);
    NextIs(c, s, t);
    if v.0 < |s.owner| { OneOwner(c, s, v.0); }
  }

  lemma OneWorker(c: Config, s: System, t: nat)
    requires Inv(c, s) && t in s.workers
    ensures c.Ok() && s.pos == |s.owner| && WorkerOk(c, s, t)
  {
    hide WorkerOk, Returned, BatchesOk;
  }

  lemma OneOwner(c: Config, s: System, k: nat)
    requires Inv(c, s) && k < |s.owner|
    ensures s.owner[k] in s.workers && !s.workers[s.owner[k]].needsInit && WorkerOk(c, s, s.owner[k])
  {
    hide WorkerOk, Returned, BatchesOk;
  }

  lemma LogStays(c: Config, s: System, s': System, t: nat)
    requires Inv(c, s) && Step(c, s, s', t)
    ensures forall v :: v in s'.log <==> Returned(c, s', v)
    ensures forall i, j :: 0 <= i < j < |s'.log| ==> s'.log[i] != s'.log[j]
  {
    hide Begin, Returned, NextBatch, WorkerOk;
    NextIs(c, s, t);
    ReturnedGrows(c, s, s', t, Target(c, s, t));
    forall v
      ensures v in s'.log <==> Returned(c, s', v)
    {
      ReturnedGrows(c, s, s', t, v);
    }
  }

  /** What a call returns is the batch of its target vector. */
  lemma BatchesStay(c: Config, s: System, s': System, t: nat)
    requires Inv(c, s) && Step(c, s, s', t)
    ensures BatchesOk(c, s')
  {
    hide Begin, Returned, NextBatch, WorkerOk, Min;
    NextIs(c, s, t);
  }

  lemma StepKeepsInv(c: Config, s: System, s': System, t: nat)
    requires Inv(c, s) && Step(c, s, s', t)
    ensures Inv(c, s')
  {
    hide Begin, Returned, NextBatch, WorkerOk, BatchesOk;
    NextIs(c, s, t);
    BatchesStay(c, s, s', t);
    OwnWorkerStays(c, s, s', t);
    forall u | u in s.workers && u != t { OtherWorkerStays(c, s, s', t, u); }
    LogStays(c, s, s', t);
  }

  ghost predicate IsRun(c: Config, run: seq<System>, who: seq<nat>) {
    && |run| == |who| + 1 && Init(c, run[0])
    && forall i :: 0 <= i < |who| ==> Step(c, run[i], run[i + 1], who[i])
  }

  lemma {:induction false} RunKeepsInv(c: Config, run: seq<System>, who: seq<nat>, n: nat)
    requires IsRun(c, run, who) && n < |run|
    ensures Inv(c, run[n]) && run[n].workers.Keys == run[0].workers.Keys
  {
    hide Step, Inv;
    if n == 0 {
      InitInv(c, run[0]);
    } else {
      RunKeepsInv(c, run, who, n - 1);
      StepKeepsInv(c, run[n - 1], run[n], who[n - 1]);
      StepKeepsWorkers(c, run[n - 1], run[n], who[n - 1]);
    }
  }

  lemma InitInv(c: Config, s: System)
    requires Init(c, s)
    ensures Inv(c, s)
  {}

  lemma StepKeepsWorkers(c: Config, s: System, s': System, t: nat)
    requires Step(c, s, s', t)
    ensures s'.workers.Keys == s.workers.Keys
  {
    hide NextBatch;
  }

  /** A vector of the table that begins before the end has been returned once all workers are done. */
  lemma DoneMeansReturned(c: Config, s: System, v: (nat, nat))
    requires Inv(c, s) && s.done == s.workers.Keys != {}
    requires v.1 < c.chunkSize && Begin(c, v) < c.nrTuples
    ensures Returned(c, s, v)
  {
    hide Begin;
    var t :| t in s.workers;
    assert WorkerOk(c, s, t);
    var w := s.workers[t];
    if v.0 >= |s.owner| {
      BeginOrder(c, (w.currentChunk, w.vecInChunk), v);
    } else {
      var u := s.owner[v.0];
      assert u in s.workers && WorkerOk(c, s, u);
      if v.0 == s.workers[u].currentChunk && v.1 >= s.workers[u].vecInChunk {
        BeginOrder(c, (s.workers[u].currentChunk, s.workers[u].vecInChunk), v);
      }
    }
  }

  /** The tuple `row` lies in the batch of vector v. */
  ghost predicate InBatch(c: Config, v: (nat, nat), row: nat) {
    Begin(c, v) <= row < Begin(c, v) + c.vecSize
  }

  lemma BatchOf(c: Config, row: nat) returns (v: (nat, nat))
    requires c.Ok()
    ensures v.1 < c.chunkSize && InBatch(c, v, row)
  {
    var k := row / c.vecSize;
    v := (k / c.chunkSize, k % c.chunkSize);
    assert v.0 * c.chunkSize + v.1 == k;
    DivBounds(row, c.vecSize);
  }

  lemma DivBounds(a: nat, b: nat)
    requires b > 0
    ensures a / b * b <= a < a / b * b + b
  {}

  lemma OneBatch(c: Config, u: (nat, nat), v: (nat, nat), row: nat)
    requires c.Ok() && u.1 < c.chunkSize && v.1 < c.chunkSize && InBatch(c, u, row) && InBatch(c, v, row)
    ensures u == v
  {
    hide Begin;
    if u != v {
      var lo := if u.0 < v.0 || (u.0 == v.0 && u.1 < v.1) then u else v;
      var hi := if lo == u then v else u;
      BeginNext(c, lo.0, lo.1);
      BeginOrder(c, (lo.0, lo.1 + 1), hi);
    }
  }

  /** The tuple lies in a returned batch. */
  ghost predicate Covers(b: (nat, nat), row: nat) { b.0 <= row < b.0 + b.1 }

  lemma BatchCovers(c: Config, b: (nat, nat), v: (nat, nat), row: nat)
    requires IsBatch(c, b, v)
    ensures Covers(b, row) <==> InBatch(c, v, row) && row < c.nrTuples
    ensures b.0 + b.1 <= c.nrTuples
  {
    hide Begin;
  }

  /** For any number of workers and any interleaving of their calls: when every worker has seen the
      end of the stream, every tuple has been in exactly one returned batch. */
  lemma ScanIsPartition(c: Config, run: seq<System>, who: seq<nat>, row: nat) returns (k: nat)
    requires IsRun(c, run, who) && run[|who|].done == run[0].workers.Keys != {} && row < c.nrTuples
    ensures k < |run[|who|].batches| && Covers(run[|who|].batches[k], row)
    ensures forall j :: 0 <= j < |run[|who|].batches| && Covers(run[|who|].batches[j], row) ==> j == k
  {
    hide Begin, Step, Init, InBatch, Covers, IsBatch;
    var s := run[|who|];
    RunKeepsInv(c, run, who, |who|);
    var v := BatchOf(c, row);
    BatchBeginsBefore(c, v, row);
    DoneMeansReturned(c, s, v);
    k :| 0 <= k < |s.log| && s.log[k] == v;
    BatchCovers(c, s.batches[k], v, row);
    forall j | 0 <= j < |s.batches| && Covers(s.batches[j], row)
      ensures j == k
    {
      NoTupleTwice(c, run, who, |who|, j, k, row);
    }
  }

  lemma BatchBeginsBefore(c: Config, v: (nat, nat), row: nat)
    requires InBatch(c, v, row) && row < c.nrTuples
    ensures Begin(c, v) < c.nrTuples
  {}

  /** In every reachable state, no tuple is in two returned batches and no batch reaches outside the
      table. */
  lemma NoTupleTwice(c: Config, run: seq<System>, who: seq<nat>, n: nat, j: nat, k: nat, row: nat)
    requires IsRun(c, run, who) && n < |run| && j < |run[n].batches| && k < |run[n].batches|
    requires Covers(run[n].batches[j], row) && Covers(run[n].batches[k], row)
    ensures j == k && run[n].batches[j].0 + run[n].batches[j].1 <= c.nrTuples
  {
    hide Begin, Step, Init, InBatch, Covers, IsBatch;
    RunKeepsInv(c, run, who, n);
    var s := run[n];
    assert s.log[j] in s.log && s.log[k] in s.log;
    BatchCovers(c, s.batches[j], s.log[j], row);
    BatchCovers(c, s.batches[k], s.log[k], row);
    OneBatch(c, s.log[j], s.log[k], row);
  }

  // ---- progress

  /** A worker that has not seen the end can call next; what it turns to then lies further on in the table. */
  lemma CanCall(c: Config, s: System, t: nat) returns (s': System)
    requires Inv(c, s) && t in s.workers && t !in s.done
    ensures Step(c, s, s', t) && Inv(c, s') && s'.workers.Keys == s.workers.Keys && t in s'.workers
    ensures if Begin(c, Target(c, s, t)) >= c.nrTuples then s'.done == s.done + {t}
            else s'.done == s.done && Begin(c, Target(c, s', t)) > Begin(c, Target(c, s, t))
  {
    hide Begin, Returned, WorkerOk, BatchesOk, NextBatch;
    NextIs(c, s, t);
    var (w, pos, n) := NextBatch(c, s.workers[t], s.pos);
    s' := s.(workers := s.workers[t := w], pos := pos, owner := if pos > s.pos then s.owner + [t] else s.owner);
    if n == 0 {
      s' := s'.(done := s.done + {t});
    } else {
      s' := s'.(batches := s.batches + [(w.lastOffset, n)], log := s.log + [(w.currentChunk, w.vecInChunk - 1)]);
    }
    StepKeepsInv(c, s, s', t);
    if n > 0 { TargetMoves(c, s, s', t); }
  }

  lemma TargetMoves(c: Config, s: System, s': System, t: nat)
    requires Inv(c, s) && Inv(c, s') && Step(c, s, s', t) && s'.done == s.done
    ensures t in s'.workers && Begin(c, Target(c, s', t)) > Begin(c, Target(c, s, t))
  {
    hide Begin, Returned, BatchesOk, NextBatch;
    NextIs(c, s, t);
    OneWorker(c, s', t);
    var v, w := Target(c, s, t), s'.workers[t];
    BeginNext(c, v.0, v.1);
    BeginOrder(c, (v.0, v.1 + 1), Target(c, s', t));
  }

  lemma {:induction false} WorkerFinishes(c: Config, run: seq<System>, who: seq<nat>, t: nat)
    returns (run': seq<System>, who': seq<nat>)
    requires IsRun(c, run, who) && t in run[|who|].workers && t !in run[|who|].done
    ensures IsRun(c, run', who') && run <= run' && run'[|who'|].done == run[|who|].done + {t}
    decreases var s := run[|who|]; c.nrTuples - Begin(c, Target(c, s, t))
  {
    hide Inv, Step, Init, Begin, Target;
    var s := run[|who|];
    RunKeepsInv(c, run, who, |who|);
    var s' := CanCall(c, s, t);
    run', who' := run + [s'], who + [t];
    RunGrows(c, run, who, s', t);
    if t !in s'.done {
      var before := run';
      run', who' := WorkerFinishes(c, run', who', t);
      assert run <= before <= run';
    }
  }

  lemma RunGrows(c: Config, run: seq<System>, who: seq<nat>, s': System, t: nat)
    requires IsRun(c, run, who) && Step(c, run[|who|], s', t)
    ensures IsRun(c, run + [s'], who + [t])
  {
    hide Step, Init;
    var run', who' := run + [s'], who + [t];
    forall i | 0 <= i < |who'|
      ensures Step(c, run'[i], run'[i + 1], who'[i])
    {
      if i < |who| { assert Step(c, run[i], run[i + 1], who[i]); }
    }
  }

  /** Every run can be continued until all workers have seen the end of the stream. */
  lemma {:induction false} ScanFinishes(c: Config, run: seq<System>, who: seq<nat>)
    returns (run': seq<System>, who': seq<nat>)
    requires IsRun(c, run, who)
    ensures IsRun(c, run', who') && run <= run' && run'[|who'|].done == run[0].workers.Keys
    decreases |run[0].workers.Keys - run[|who|].done|
  {
    hide Step, Init, Begin, WorkerOk, Returned, BatchesOk;
    RunKeepsInv(c, run, who, |who|);
    run', who' := run, who;
    if t :| t in run[0].workers && t !in run[|who|].done {
      var run1, who1 := WorkerFinishes(c, run, who, t);
      assert run1[0] == run[0];
      assert run[0].workers.Keys - run1[|who1|].done == run[0].workers.Keys - run[|who|].done - {t};
      run', who' := ScanFinishes(c, run1, who1);
      assert run <= run1 <= run';
    }
  }
}
