/** Every request of a worker to the pool can be completed, whatever the other workers are doing. */
module WorkerProgress {

  import GP = GlobalPool
  import PP = PoolProgress
  import opened Ranges
  import opened WorkerAllocator
  import opened WorkerMemory

  /** Thread t got what it asked for: a first region, or a block of the size. */
  ghost predicate Answered(th: Thread, th': Thread) {
    && th'.request == None
    && th.worker.regions <= th'.worker.regions && |th'.worker.regions| == |th.worker.regions| + 1
    && (th.request.Source? ==> th'.worker.blocks == th.worker.blocks)
    && (th.request.Block? ==>
          && |th'.worker.blocks| == |th.worker.blocks| + 1 && th.worker.blocks <= th'.worker.blocks
          && th'.worker.blocks[|th.worker.blocks|].size == th.request.size)
  }

  lemma ServedIsAnswered(th: Thread, source: nat)
    requires th.request != None && (th.request.Block? ==> Bytes(th) > 0)
    ensures Answered(th, Served(th, source))
  {}

  /** A step of the pool towards the end of the call, seen from the workers. */
  lemma Advance(s: System, t: nat) returns (s': System)
    requires Inv(s) && t in s.threads && s.threads[t].request != None && PP.CanRun(s.pool, t)
    ensures Step(s, s', t) && (s'.pool.mutex.Free? || s'.pool.mutex == GP.Held(t))
    ensures t in s'.pool.pcs && s'.pool.pcs == s.pool.pcs[t := s'.pool.pcs[t]]
    ensures if s'.pool.pcs[t].Idle? then
              t in s'.threads && s'.threads == s.threads[t := s'.threads[t]] && Answered(s.threads[t], s'.threads[t])
            else
              s'.threads == s.threads
              && PP.Rank(s'.pool, s'.pool.pcs[t]) < PP.Rank(s.pool, s.pool.pcs[t])
  {
    hide GP.Inv, GP.Step, PP.Rank, Answered, Served, Ok;
    assert ThreadOk(s, t);
    var pool := PP.Advance(s.pool, t);
    if pool.pcs[t].Idle? {
      var source := pool.blocks[|pool.blocks| - 1].range.at;
      s' := System(pool, s.threads[t := Served(s.threads[t], source)]);
      ServedIsAnswered(s.threads[t], source);
    } else {
      s' := System(pool, s.threads);
    }
    assert PoolStep(s, s', t);
  }

  lemma RunGrows(run: seq<System>, who: seq<nat>, s': System, t: nat)
    requires IsRun(run, who) && Step(run[|who|], s', t)
    ensures IsRun(run + [s'], who + [t])
  {
    hide Step, Init;
    var run', who' := run + [s'], who + [t];
    forall i | 0 <= i < |who'|
      ensures Step(run'[i], run'[i + 1], who'[i])
    {
      if i < |who| { assert Step(run[i], run[i + 1], who[i]); }
    }
  }

  /** The run goes on and thread t is answered; the other threads stay as they are. */
  ghost predicate Answers(run: seq<System>, who: seq<nat>, run': seq<System>, who': seq<nat>, t: nat)
    requires IsRun(run, who) && t in run[|who|].threads
  {
    && IsRun(run', who') && run <= run' && who <= who'
    && var s, s' := run[|who|], run'[|who'|];
       && t in s'.threads && s'.threads == s.threads[t := s'.threads[t]] && Answered(s.threads[t], s'.threads[t])
       && s'.pool.mutex.Free?
  }

  lemma {:induction false} AnsweredAlone(run: seq<System>, who: seq<nat>, t: nat)
    returns (run': seq<System>, who': seq<nat>)
    requires IsRun(run, who) && t in run[|who|].threads && run[|who|].threads[t].request != None
    requires PP.CanRun(run[|who|].pool, t)
    ensures Answers(run, who, run', who', t)
    decreases PP.Rank(run[|who|].pool, run[|who|].pool.pcs[t])
  {
    hide Inv, Step, Init, PP.Rank, Answered;
    var s := run[|who|];
    RunKeepsInv(run, who, |who|);
    var s' := Advance(s, t);
    run', who' := run + [s'], who + [t];
    RunGrows(run, who, s', t);
    if s'.pool.pcs[t].Idle? {
      RunKeepsInv(run', who', |who'|);
      IdleIsFree(s', t);
    } else {
      var before := run';
      run', who' := AnsweredAlone(run', who', t);
      assert run <= before <= run';
    }
  }

  lemma IdleIsFree(s: System, t: nat)
    requires Inv(s) && t in s.pool.pcs && s.pool.pcs[t].Idle? && (s.pool.mutex.Free? || s.pool.mutex == GP.Held(t))
    ensures s.pool.mutex.Free?
  {
    hide ThreadOk, GP.Stage, GP.BlocksOk;
  }

  /** From every reachable state a worker that waits for the pool can be answered, after the worker that
      holds the lock, if there is one. */
  lemma RequestCompletes(run: seq<System>, who: seq<nat>, t: nat) returns (run': seq<System>, who': seq<nat>)
    requires IsRun(run, who) && t in run[|who|].threads && run[|who|].threads[t].request != None
    ensures IsRun(run', who') && run <= run' && who <= who'
    ensures t in run'[|who'|].threads && Answered(run[|who|].threads[t], run'[|who'|].threads[t])
  {
    hide Inv, Step, Init, Answered;
    RunKeepsInv(run, who, |who|);
    var s := run[|who|];
    WaitsOrHolds(s, t);
    if PP.CanRun(s.pool, t) {
      run', who' := AnsweredAlone(run, who, t);
    } else {
      var u := s.pool.mutex.owner;
      var run1, who1 := AnsweredAlone(run, who, u);
      RunKeepsInv(run1, who1, |who1|);
      WaitsOrHolds(run1[|who1|], t);
      run', who' := AnsweredAlone(run1, who1, t);
      assert run <= run1 <= run';
    }
  }

  /** A waiting worker can go on, or another one, which holds the lock, can. */
  lemma WaitsOrHolds(s: System, t: nat)
    requires Inv(s) && t in s.threads && s.threads[t].request != None
    ensures s.pool.mutex.Free? ==> PP.CanRun(s.pool, t)
    ensures !PP.CanRun(s.pool, t) ==>
              && s.pool.mutex.Held? && s.pool.mutex.owner != t && s.pool.mutex.owner in s.threads
              && s.threads[s.pool.mutex.owner].request != None && PP.CanRun(s.pool, s.pool.mutex.owner)
  {
    hide GP.Stage, GP.BlocksOk, Ok, Bytes;
    assert ThreadOk(s, t);
    if s.pool.mutex.Held? {
      assert s.pool.mutex.owner in s.threads;
      assert ThreadOk(s, s.pool.mutex.owner);
    }
  }

  /** From every reachable state a worker that is not waiting can allocate any number of bytes: out of its
      region, or with a new one from the pool. */
  lemma AllocationCompletes(run: seq<System>, who: seq<nat>, t: nat, size: nat)
    returns (run': seq<System>, who': seq<nat>)
    requires IsRun(run, who) && t in run[|who|].threads && run[|who|].threads[t].request == None
    ensures IsRun(run', who') && run <= run' && who <= who'
    ensures t in run'[|who'|].threads && run'[|who'|].threads[t].request == None
    ensures var w, w' := run[|who|].threads[t].worker, run'[|who'|].threads[t].worker;
      |w'.blocks| == |w.blocks| + 1 && w.blocks <= w'.blocks && w'.blocks[|w.blocks|].size == size
      && |w'.regions| == |w.regions| + if Refill(w, size) == 0 then 0 else 1
  {
    hide Inv, Step, Init;
    RunKeepsInv(run, who, |who|);
    var s := run[|who|];
    var s' := Begins(s, t, size);
    run', who' := run + [s'], who + [t];
    RunGrows(run, who, s', t);
    if Refill(s.threads[t].worker, size) > 0 {
      var before := run';
      run', who' := RequestCompletes(run', who', t);
      assert run <= before <= run';
    }
  }

  lemma Begins(s: System, t: nat, size: nat) returns (s': System)
    requires Inv(s) && t in s.threads && s.threads[t].request == None
    ensures Step(s, s', t) && t in s'.threads
    ensures var w := s.threads[t].worker;
      s'.threads[t] == if Refill(w, size) == 0 then Thread(Allocated(w, size, 0), None) else Thread(w, Block(size))
  {
    hide GP.Inv, Ok, Allocated, Refill;
    assert ThreadOk(s, t);
    var w := s.threads[t].worker;
    if Refill(w, size) == 0 {
      s' := s.(threads := s.threads[t := Thread(Allocated(w, size, 0), None)]);
      assert LocalStep(s, s', t, size);
    } else {
      var th := Thread(w, Block(size));
      s' := System(GP.Goto(s.pool, t, GP.LoadStart(Bytes(th))), s.threads[t := th]);
      assert CallStep(s, s', t, Block(size));
    }
  }
}
