/** All workers with their allocators on one global pool: a transition system of allocator calls and of
    the pool's own steps. */
module WorkerMemory {

  import GP = GlobalPool
  import opened Ranges
  import opened WorkerAllocator

  /** What a worker waits for the pool to return: nothing, the first region of a new source, or a region
      for allocate(size). */
  datatype Request = None | Source | Block(size: nat)

  datatype Thread = Thread(worker: Worker, request: Request)

  datatype System = System(pool: GP.State, threads: map<nat, Thread>)

  /** How many bytes the pool is asked for. */
  function Bytes(th: Thread): nat {
    match th.request
    case None => 0
    case Source => th.worker.allocSize
    case Block(size) => Refill(th.worker, size)
  }

  /** The pool has returned an address. */
  function Served(th: Thread, source: nat): Thread {
    match th.request
    case None => th
    case Source => Thread(TakeRegion(th.worker, source), None)
    case Block(size) => Thread(Allocated(th.worker, size, source), None)
  }

  /** allocate(size) out of the current region. */
  ghost predicate LocalStep(s: System, s': System, t: nat, size: nat)
    requires t in s.threads
  {
    && Refill(s.threads[t].worker, size) == 0
    && s' == s.(threads := s.threads[t := Thread(Allocated(s.threads[t].worker, size, 0), None)])
  }

  /** A call of the pool begins. */
  ghost predicate CallStep(s: System, s': System, t: nat, request: Request)
    requires t in s.threads && t in s.pool.pcs
  {
    var th := Thread(s.threads[t].worker, request);
    && request != None && (request.Block? ==> Bytes(th) > 0)
    && s' == System(GP.Goto(s.pool, t, GP.LoadStart(Bytes(th))), s.threads[t := th])
  }

  /** A step of GlobalPool::allocate; when it returns, the allocator goes on with the address. */
  ghost predicate PoolStep(s: System, s': System, t: nat)
    requires t in s.threads && t in s.pool.pcs
  {
    && GP.Step(s.pool, s'.pool, t)
    && t in s'.pool.pcs
    && s'.threads == (if s'.pool.pcs[t].Idle? && s'.pool.blocks != []
                      then s.threads[t := Served(s.threads[t], s'.pool.blocks[|s'.pool.blocks| - 1].range.at)]
                      else s.threads)
  }

  ghost predicate Step(s: System, s': System, t: nat) {
    && t in s.threads && t in s.pool.pcs
    && if s.threads[t].request == None then
         || (exists size: nat :: LocalStep(s, s', t, size))
         || (exists request: Request :: CallStep(s, s', t, request))
       else
         PoolStep(s, s', t)
  }

  ghost predicate Init(s: System) {
    && GP.Init(s.pool) && s.threads.Keys == s.pool.pcs.Keys
    && forall t :: t in s.threads ==> s.threads[t] == Thread(INITIAL, None)
  }

  /** The regions that the pool has handed to thread t. */
  function Owned(blocks: seq<GP.Block>, t: nat): seq<Range> {
    if blocks == [] then []
    else
      var b := blocks[|blocks| - 1];
      Owned(blocks[..|blocks| - 1], t) + if b.owner == t then [b.range] else []
  }

  lemma OwnedPush(blocks: seq<GP.Block>, b: GP.Block, t: nat)
    ensures Owned(blocks + [b], t) == Owned(blocks, t) + if b.owner == t then [b.range] else []
  {
    assert (blocks + [b])[..|blocks|] == blocks;
  }

  lemma {:induction false} OwnedIs(blocks: seq<GP.Block>, t: nat, i: nat) returns (k: nat)
    requires i < |Owned(blocks, t)|
    ensures k < |blocks| && blocks[k].owner == t && blocks[k].range == Owned(blocks, t)[i]
  {
    var n := |blocks| - 1;
    if i < |Owned(blocks[..n], t)| {
      k := OwnedIs(blocks[..n], t, i);
    } else {
      k := n;
    }
  }

  ghost predicate ThreadOk(s: System, t: nat)
    requires t in s.threads && t in s.pool.pcs
  {
    var th, pc := s.threads[t], s.pool.pcs[t];
    && Ok(th.worker) && th.worker.regions == Owned(s.pool.blocks, t)
    && (th.request == None <==> pc.Idle?)
    && (!pc.Idle? ==> pc.size == Bytes(th))
    && (th.request.Block? ==> Bytes(th) > 0)
  }

  ghost predicate Inv(s: System) {
    && GP.Inv(s.pool) && s.threads.Keys == s.pool.pcs.Keys
    && forall t {:trigger ThreadOk(s, t)} :: t in s.threads ==> ThreadOk(s, t)
  }

  lemma InitInv(s: System)
    requires Init(s)
    ensures Inv(s)
  {
    GP.InitInv(s.pool);
  }

  /** A pool step of a thread that is inside allocate: it stays inside with the same size, or returns a
      block of that size. */
  lemma PoolStepIs(p: GP.State, p': GP.State, t: nat)
    requires GP.Step(p, p', t) && !p.pcs[t].Idle?
    ensures t in p'.pcs && forall u :: u in p.pcs && u != t ==> u in p'.pcs && p'.pcs[u] == p.pcs[u]
    ensures p'.pcs.Keys == p.pcs.Keys
    ensures if p'.pcs[t].Idle? then
              && |p'.blocks| == |p.blocks| + 1 && p'.blocks[..|p.blocks|] == p.blocks
              && p'.blocks[|p.blocks|].owner == t && p'.blocks[|p.blocks|].range.size == p.pcs[t].size
            else
              p'.blocks == p.blocks && p'.pcs[t].size == p.pcs[t].size
  {}

  /** A region handed out last overlaps no region that its thread had before. */
  lemma NewBlockIsNew(p: GP.State, blocks: seq<GP.Block>, b: GP.Block, w: Worker)
    requires GP.Inv(p) && p.blocks == blocks + [b] && w.regions == Owned(blocks, b.owner)
    ensures NewRegion(w, b.range)
  {
    hide GP.Stage, GP.MutexOk, GP.ChunksOk;
    forall i | 0 <= i < |w.regions|
      ensures Disjoint(w.regions[i], b.range)
    {
      var k := OwnedIs(blocks, b.owner, i);
      assert p.blocks[k] == blocks[k] && p.blocks[|blocks|] == b;
    }
  }

  lemma LocalKeepsInv(s: System, s': System, t: nat, size: nat)
    requires Inv(s) && t in s.threads && t in s.pool.pcs && s.threads[t].request == None && LocalStep(s, s', t, size)
    ensures Inv(s')
  {
    hide Ok, Allocated, Refill, GP.Inv;
    assert ThreadOk(s, t);
    AllocateKeepsOk(s.threads[t].worker, size, 0);
    SameRegions(s.threads[t].worker, size);
    forall u | u in s'.threads
      ensures ThreadOk(s', u)
    {
      assert ThreadOk(s, u);
    }
  }

  lemma SameRegions(w: Worker, size: nat)
    requires Refill(w, size) == 0
    ensures Allocated(w, size, 0).regions == w.regions
  {}

  lemma CallKeepsInv(s: System, s': System, t: nat, request: Request)
    requires Inv(s) && t in s.threads && t in s.pool.pcs && s.threads[t].request == None && CallStep(s, s', t, request)
    ensures Inv(s')
  {
    hide Ok, Allocated, Refill;
    assert ThreadOk(s, t);
    PoolCall(s.pool, t, Bytes(s'.threads[t]));
    forall u | u in s'.threads
      ensures ThreadOk(s', u)
    {
      assert ThreadOk(s, u);
    }
  }

  lemma PoolCall(p: GP.State, t: nat, size: nat)
    requires GP.Inv(p) && t in p.pcs && p.pcs[t].Idle?
    ensures GP.Inv(GP.Goto(p, t, GP.LoadStart(size)))
  {
    hide GP.Inv;
    var p' := GP.Goto(p, t, GP.LoadStart(size));
    assert GP.Step(p, p', t);
    GP.StepKeepsInv(p, p', t);
  }

  /** The thread that was served. */
  lemma ServedIsOk(s: System, s': System, t: nat)
    requires Inv(s) && t in s.threads && t in s.pool.pcs && s.threads[t].request != None && PoolStep(s, s', t)
    requires GP.Inv(s'.pool) && s'.pool.pcs[t].Idle?
    ensures t in s'.threads && ThreadOk(s', t)
  {
    hide Ok, GP.Inv, GP.Step, Refill, NewRegion;
    assert ThreadOk(s, t);
    PoolStepIs(s.pool, s'.pool, t);
    var th, b := s.threads[t], s'.pool.blocks[|s.pool.blocks|];
    assert s'.pool.blocks == s.pool.blocks + [b];
    OwnedPush(s.pool.blocks, b, t);
    NewBlockIsNew(s'.pool, s.pool.blocks, b, th.worker);
    assert b.range == Range(b.range.at, Bytes(th));
    if th.request.Source? {
      TakeRegionKeepsOk(th.worker, b.range.at);
    } else {
      AllocateKeepsOk(th.worker, th.request.size, b.range.at);
    }
  }

  lemma OtherIsOk(s: System, s': System, t: nat, u: nat)
    requires Inv(s) && t in s.threads && t in s.pool.pcs && s.threads[t].request != None && PoolStep(s, s', t)
    requires u in s.threads && (u != t || !s'.pool.pcs[t].Idle?)
    ensures u in s'.threads && u in s'.pool.pcs && ThreadOk(s', u)
  {
    hide Ok, GP.Inv, GP.Step, Refill, Allocated, TakeRegion;
    assert ThreadOk(s, u) && ThreadOk(s, t);
    PoolStepIs(s.pool, s'.pool, t);
    if s'.pool.pcs[t].Idle? {
      var b := s'.pool.blocks[|s.pool.blocks|];
      assert s'.pool.blocks == s.pool.blocks + [b];
      OwnedPush(s.pool.blocks, b, u);
    }
  }

  lemma PoolKeepsInv(s: System, s': System, t: nat)
    requires Inv(s) && t in s.threads && t in s.pool.pcs && s.threads[t].request != None && PoolStep(s, s', t)
    ensures Inv(s')
  {
    hide ThreadOk, GP.Inv, GP.Step;
    GP.StepKeepsInv(s.pool, s'.pool, t);
    IsCalling(s, t);
    PoolStepIs(s.pool, s'.pool, t);
    forall u | u in s'.threads
      ensures ThreadOk(s', u)
    {
      if u == t && s'.pool.pcs[t].Idle? { ServedIsOk(s, s', t); } else { OtherIsOk(s, s', t, u); }
    }
  }

  lemma IsCalling(s: System, t: nat)
    requires Inv(s) && t in s.threads && s.threads[t].request != None
    ensures !s.pool.pcs[t].Idle?
  {
    assert ThreadOk(s, t);
  }

  lemma StepKeepsInv(s: System, s': System, t: nat)
    requires Inv(s) && Step(s, s', t)
    ensures Inv(s')
  {
    hide Inv, LocalStep, CallStep, PoolStep;
    if s.threads[t].request != None {
      PoolKeepsInv(s, s', t);
    } else if size: nat :| LocalStep(s, s', t, size) {
      LocalKeepsInv(s, s', t, size);
    } else {
      var request: Request :| CallStep(s, s', t, request);
      CallKeepsInv(s, s', t, request);
    }
  }

  ghost predicate IsRun(run: seq<System>, who: seq<nat>) {
    && |run| == |who| + 1 && Init(run[0])
    && forall i :: 0 <= i < |who| ==> Step(run[i], run[i + 1], who[i])
  }

  lemma {:induction false} RunKeepsInv(run: seq<System>, who: seq<nat>, n: nat)
    requires IsRun(run, who) && n < |run|
    ensures Inv(run[n])
  {
    hide Init, Inv, Step;
    if n == 0 {
      InitInv(run[0]);
    } else {
      RunKeepsInv(run, who, n - 1);
      StepKeepsInv(run[n - 1], run[n], who[n - 1]);
    }
  }

  /** Blocks inside disjoint regions are disjoint. */
  lemma ApartByRegions(w: Worker, w': Worker, j: nat, k: nat)
    requires Ok(w) && Ok(w') && AllDisjoint(w.regions, w'.regions) && j < |w.blocks| && k < |w'.blocks|
    ensures Disjoint(w.blocks[j], w'.blocks[k])
  {
    assert InRegion(w, w.blocks[j]) && InRegion(w', w'.blocks[k]);
    var r :| 0 <= r < |w.regions| && Within(w.blocks[j], w.regions[r]);
    var r' :| 0 <= r' < |w'.regions| && Within(w'.blocks[k], w'.regions[r']);
    assert Disjoint(w.regions[r], w'.regions[r']);
  }

  lemma RegionsApart(p: GP.State, t: nat, u: nat)
    requires GP.Inv(p) && t != u
    ensures AllDisjoint(Owned(p.blocks, t), Owned(p.blocks, u))
  {
    hide GP.Stage, GP.MutexOk, GP.ChunksOk;
    var a, b := Owned(p.blocks, t), Owned(p.blocks, u);
    forall i, j | 0 <= i < |a| && 0 <= j < |b|
      ensures Disjoint(a[i], b[j])
    {
      var k := OwnedIs(p.blocks, t, i);
      var l := OwnedIs(p.blocks, u, j);
    }
  }

  /** Under every interleaving of all allocator calls and all pool steps, workers never share memory:
      any two blocks, of one worker or of two, are disjoint, and every block is 64-byte aligned. */
  lemma WorkersNeverShareMemory(run: seq<System>, who: seq<nat>, n: nat, t: nat, u: nat, j: nat, k: nat)
    requires IsRun(run, who) && n < |run| && t in run[n].threads && u in run[n].threads
    requires j < |run[n].threads[t].worker.blocks| && k < |run[n].threads[u].worker.blocks|
    requires t != u || j != k
    ensures Disjoint(run[n].threads[t].worker.blocks[j], run[n].threads[u].worker.blocks[k])
    ensures run[n].threads[t].worker.blocks[j].at % 64 == 0
  {
    hide GP.Inv, Init, Step;
    RunKeepsInv(run, who, n);
    var s := run[n];
    assert ThreadOk(s, t) && ThreadOk(s, u);
    if t != u {
      RegionsApart(s.pool, t, u);
      ApartByRegions(s.threads[t].worker, s.threads[u].worker, j, k);
    }
  }
}
