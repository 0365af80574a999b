/** Progress of GlobalPool::allocate: a call that runs alone returns, out of the current chunk if there is
    room and otherwise out of a new one, and from every reachable state every call can be completed. */
module PoolProgress {

  import opened GlobalPool
  import opened Numbers
  import opened Ranges

  // ---- a call that runs alone

  /** Steps of thread t alone. */
  ghost predicate Alone(path: seq<State>, t: nat) {
    |path| > 0 && forall i {:trigger path[i]} :: 0 <= i < |path| - 1 ==> Step(path[i], path[i + 1], t)
  }

  lemma AloneJoin(a: seq<State>, b: seq<State>, t: nat)
    requires Alone(a, t) && Alone(b, t) && a[|a| - 1] == b[0]
    ensures Alone(a + b[1..], t)
  {
    var c := a + b[1..];
    forall i | 0 <= i < |c| - 1
      ensures Step(c[i], c[i + 1], t)
    {
      if i < |a| - 1 {
        assert c[i] == a[i] && c[i + 1] == a[i + 1];
      } else {
        var j := i - |a| + 1;
        assert c[i] == b[j] && c[i + 1] == b[j + 1];
      }
    }
  }

  /** The current chunk has room. */
  predicate Room(s: State, size: nat) { s.start + size < s.end }

  /** With room, a call that runs alone takes its block from the start of the free space: no lock is taken
      and nothing is mapped. */
  lemma AllocatesInPlace(s: State, t: nat, size: nat) returns (path: seq<State>)
    requires t in s.pcs && s.pcs[t] == LoadStart(size) && Room(s, size)
    ensures Alone(path, t) && path[0] == s
    ensures path[|path| - 1] == s.(start := s.start + size, pcs := s.pcs[t := Idle],
                                   blocks := s.blocks + [Block(Range(s.start, size), s.from, t)])
    ensures forall i :: 0 <= i < |path| ==> path[i].mutex == s.mutex && path[i].chunks == s.chunks
  {
    var s1 := Goto(s, t, LoadEnd(size, s.start, s.from));
    var s2 := Goto(s1, t, Swap(size, s.start, s.from));
    var s3 := Goto(s2, t, Idle).(start := s.start + size,
                                 blocks := s.blocks + [Block(Range(s.start, size), s.from, t)]);
    path := [s, s1, s2, s3];
    assert s3.pcs == s.pcs[t := Idle];
    assert Step(s, s1, t) && Step(s1, s2, t) && Step(s2, s3, t);
  }

  /** The first call of all, if it asks for less than a chunk, gets the first byte of the first chunk. */
  lemma FirstAllocation(s: State, t: nat, size: nat) returns (path: seq<State>)
    requires Init(s) && t in s.pcs && size < s.allocSize
    ensures Alone(path, t) && path[0] == s
    ensures path[|path| - 1].pcs == s.pcs
    ensures path[|path| - 1].blocks == [Block(Range(First(s.chunks[0]), size), 0, t)]
    ensures forall i :: 0 <= i < |path| ==> path[i].mutex.Free? && path[i].chunks == s.chunks
  {
    var s1 := Goto(s, t, LoadStart(size));
    assert Step(s, s1, t);
    path := AllocatesInPlace(s1, t, size);
    assert path[|path| - 1].pcs == s.pcs;
    AloneJoin([s, s1], path, t);
    path := [s, s1] + path[1..];
  }

  /** The chunk that a refill maps. */
  function Refilled(s: State, size: nat, base: nat): Chunk { Chunk(base, Max(s.allocSize * 2, size)) }

  /** Taking the lock and closing the current chunk. */
  lemma Closes(s: State, t: nat, size: nat) returns (path: seq<State>)
    requires t in s.pcs && s.pcs[t] == LoadStart(size) && !Room(s, size) && s.mutex.Free?
    ensures Alone(path, t) && path[0] == s
    ensures path[|path| - 1] == s.(start := s.end, pcs := s.pcs[t := NewChunk(size)], mutex := Held(t))
  {
    var s1 := Goto(s, t, LoadEnd(size, s.start, s.from));
    var s2 := Goto(s1, t, Lock(size));
    var s3 := Goto(s2, t, RecheckStart(size)).(mutex := Held(t));
    var s4 := Goto(s3, t, RecheckEnd(size, s.start, s.from));
    var s5 := Goto(s4, t, CloseLoadEnd(size, s.start, s.from));
    var s6 := Goto(s5, t, CloseSwap(size, s.start, s.from, s.end));
    var s7 := Goto(s6, t, NewChunk(size)).(start := s.end);
    path := [s, s1, s2, s3, s4, s5, s6, s7];
    assert s7.pcs == s.pcs[t := NewChunk(size)];
    assert Step(s, s1, t) && Step(s1, s2, t) && Step(s2, s3, t) && Step(s3, s4, t);
    assert Step(s4, s5, t) && Step(s5, s6, t) && Step(s6, s7, t);
  }

  /** The new chunk is in place: start and end of the pool are its own. */
  function InUse(s: State): State {
    s.(start := First(Newest(s)), end := End(Newest(s)), from := Last(s))
  }

  lemma StoresBelow(s: State, t: nat, size: nat) returns (path: seq<State>)
    requires t in s.pcs && s.pcs[t] == StoreEnd(size)
    ensures Alone(path, t) && path[0] == s && path[|path| - 1] == Goto(InUse(s), t, SetCurrent(size))
  {
    var s1 := Goto(s, t, StoreStartLast(size)).(end := End(Newest(s)));
    var s2 := Goto(s1, t, SetCurrent(size)).(start := First(Newest(s)), from := Last(s));
    path := [s, s1, s2];
    assert s2.pcs == s.pcs[t := SetCurrent(size)];
    assert Step(s, s1, t) && Step(s1, s2, t);
  }

  lemma StoresAbove(s: State, t: nat, size: nat) returns (path: seq<State>)
    requires t in s.pcs && s.pcs[t] == StoreStart(size)
    ensures Alone(path, t) && path[0] == s && path[|path| - 1] == Goto(InUse(s), t, SetCurrent(size))
  {
    var s1 := Goto(s, t, StoreEndLast(size)).(start := First(Newest(s)), from := Last(s));
    var s2 := Goto(s1, t, SetCurrent(size)).(end := End(Newest(s)));
    path := [s, s1, s2];
    assert s2.pcs == s.pcs[t := SetCurrent(size)];
    assert Step(s, s1, t) && Step(s1, s2, t);
  }

  lemma Releases(s: State, t: nat, size: nat) returns (path: seq<State>)
    requires t in s.pcs && s.pcs[t] == SetCurrent(size)
    ensures Alone(path, t) && path[0] == s
    ensures path[|path| - 1] == Goto(s, t, Swap(size, First(Newest(s)), Last(s))).(current := Last(s), mutex := Free)
  {
    var s1 := Goto(s, t, Unlock(size)).(current := Last(s));
    var s2 := Goto(s1, t, Swap(size, First(Newest(s)), Last(s))).(mutex := Free);
    path := [s, s1, s2];
    assert s2.pcs == s.pcs[t := Swap(size, First(Newest(s)), Last(s))];
    assert Step(s, s1, t) && Step(s1, s2, t);
  }

  lemma MapsOne(s: State, t: nat, size: nat, base: nat) returns (s': State)
    requires t in s.pcs && s.pcs[t] == NewChunk(size) && s.current < |s.chunks|
    requires Unmapped(s.chunks, Refilled(s, size, base))
    ensures Alone([s, s'], t)
    ensures var c := Refilled(s, size, base);
      s' == Goto(s, t, if base < s.chunks[s.current].base then StoreEnd(size) else StoreStart(size))
            .(chunks := s.chunks + [c], allocSize := c.size)
  {
    var c := Refilled(s, size, base);
    s' := Goto(s, t, if base < s.chunks[s.current].base then StoreEnd(size) else StoreStart(size))
          .(chunks := s.chunks + [c], allocSize := c.size);
    assert MapChunk(s, s', t, size, base);
  }

  /** Mapping a chunk and making it the current one, with the stores in the order that its place asks for. */
  lemma Maps(s: State, t: nat, size: nat, base: nat) returns (path: seq<State>)
    requires t in s.pcs && s.pcs[t] == NewChunk(size) && s.mutex == Held(t) && s.current < |s.chunks|
    requires Unmapped(s.chunks, Refilled(s, size, base))
    ensures var c := Refilled(s, size, base);
      && Alone(path, t) && path[0] == s
      && path[|path| - 1] == s.(start := First(c), end := End(c), from := |s.chunks|, current := |s.chunks|,
                                chunks := s.chunks + [c], allocSize := c.size, mutex := Free,
                                pcs := s.pcs[t := Swap(size, First(c), |s.chunks|)])
  {
    hide Step, Unmapped, Alone;
    var s1 := MapsOne(s, t, size, base);
    var stores;
    if base < s.chunks[s.current].base {
      stores := StoresBelow(s1, t, size);
    } else {
      stores := StoresAbove(s1, t, size);
    }
    var releases := Releases(stores[|stores| - 1], t, size);
    var c := Refilled(s, size, base);
    assert releases[|releases| - 1].pcs == s.pcs[t := Swap(size, First(c), |s.chunks|)];
    AloneJoin(stores, releases, t);
    AloneJoin([s, s1], stores + releases[1..], t);
    path := [s, s1] + (stores + releases[1..])[1..];
  }

  /** Without room, a call that runs alone maps one chunk, twice as large as the last or as large as asked,
      and takes its block from the first byte of it. */
  lemma AllocatesInNewChunk(s: State, t: nat, size: nat, base: nat) returns (path: seq<State>)
    requires t in s.pcs && s.pcs[t] == LoadStart(size) && !Room(s, size) && s.mutex.Free? && s.current < |s.chunks|
    requires Unmapped(s.chunks, Refilled(s, size, base))
    ensures Alone(path, t) && path[0] == s
    ensures var c := Refilled(s, size, base);
      path[|path| - 1] == s.(start := First(c) + size, end := End(c), from := |s.chunks|, current := |s.chunks|,
                             chunks := s.chunks + [c], allocSize := c.size, pcs := s.pcs[t := Idle],
                             blocks := s.blocks + [Block(Range(First(c), size), |s.chunks|, t)])
  {
    hide Step;
    var c := Refilled(s, size, base);
    var closing := Closes(s, t, size);
    var s7 := closing[|closing| - 1];
    var mapping := Maps(s7, t, size, base);
    var s12 := mapping[|mapping| - 1];
    var s13 := Taken(s12, t);
    assert s13.pcs == s.pcs[t := Idle];
    AloneJoin(mapping, [s12, s13], t);
    AloneJoin(closing, mapping + [s13], t);
    path := closing + (mapping + [s13])[1..];
  }

  lemma Taken(s: State, t: nat) returns (s': State)
    requires t in s.pcs && s.pcs[t].Swap? && s.pcs[t].at == s.start
    ensures var pc := s.pcs[t];
      && Alone([s, s'], t)
      && s' == Goto(s, t, Idle).(start := pc.at + pc.size,
                                 blocks := s.blocks + [Block(Range(pc.at, pc.size), pc.i, t)])
  {
    var pc := s.pcs[t];
    s' := Goto(s, t, Idle).(start := pc.at + pc.size, blocks := s.blocks + [Block(Range(pc.at, pc.size), pc.i, t)]);
  }

  // ---- from any reachable state

  /** How far a call is from its end when its thread runs alone and its exchanges succeed whenever they can. */
  function Rank(s: State, pc: Pc): nat {
    match pc
    case Idle => 0
    case Swap(_, at, _) => if at == s.start then 1 else 17
    case Unlock(_) => if s.start == First(Newest(s)) then 2 else 20
    case SetCurrent(_) => if s.start == First(Newest(s)) then 3 else 21
    case StoreStartLast(_) => 4
    case StoreEndLast(_) => if s.start == First(Newest(s)) then 4 else 22
    case StoreEnd(_) => 5
    case StoreStart(_) => 5
    case NewChunk(_) => 6
    case CloseSwap(_, at, _, _) => if at == s.start then 7 else 9
    case CloseLoadEnd(_, at, _) => if at == s.start then 8 else 10
    case LoadStart(size) => if Room(s, size) then 3 else 15
    case LoadEnd(size, at, _) => if at != s.start then 22 else if Room(s, size) then 2 else 14
    case Restart(size) => 16
    case RecheckEnd(size, at, _) => if at == s.start && !Room(s, size) then 11 else 18
    case RecheckStart(size) => if Room(s, size) then 19 else 12
    case Lock(size) => if Room(s, size) then 20 else 13
  }

  /** Nobody else holds the lock. */
  ghost predicate CanRun(s: State, t: nat) {
    t in s.pcs && !s.pcs[t].Idle? && (s.mutex.Free? || s.mutex == Held(t))
  }

  /** A step of thread t towards the end of its call, or the last one, which returns a block of the size. */
  ghost predicate Towards(s: State, s': State, t: nat)
    requires t in s.pcs && !s.pcs[t].Idle?
  {
    && Step(s, s', t) && t in s'.pcs && s'.pcs == s.pcs[t := s'.pcs[t]]
    && if s'.pcs[t].Idle? then
         exists r: Range, i: nat :: r.size == s.pcs[t].size && s'.blocks == s.blocks + [Block(r, i, t)]
       else
         s'.pcs[t].size == s.pcs[t].size && s'.blocks == s.blocks && Rank(s', s'.pcs[t]) < Rank(s, s.pcs[t])
  }

  /** An address at which a chunk can be mapped. */
  lemma {:induction false} Unused(chunks: seq<Chunk>) returns (base: nat)
    ensures forall k :: 0 <= k < |chunks| ==> End(chunks[k]) <= base
  {
    if chunks == [] {
      base := 0;
    } else {
      var b := Unused(chunks[..|chunks| - 1]);
      base := Max(b, End(chunks[|chunks| - 1]));
    }
  }

  lemma AdvanceLoad(s: State, t: nat) returns (s': State)
    requires Inv(s) && CanRun(s, t)
    requires s.pcs[t].LoadStart? || s.pcs[t].LoadEnd? || s.pcs[t].Lock? || s.pcs[t].Swap?
    ensures Towards(s, s', t) && (s'.mutex.Free? || s'.mutex == Held(t))
  {
    hide BlocksOk, PcOk, ChunksOk, Stage, MutexOk;
    MutexIsFree(s, t);
    match s.pcs[t]
    case LoadStart(size) => s' := Goto(s, t, LoadEnd(size, s.start, s.from));
    case LoadEnd(size, at, i) => s' := Goto(s, t, if at + size >= s.end then Lock(size) else Swap(size, at, i));
    case Lock(size) => s' := Goto(s, t, RecheckStart(size)).(mutex := Held(t));
    case Swap(size, at, i) =>
      if at == s.start {
        s' := Taken(s, t);
        assert [s, s'][0] == s && [s, s'][1] == s';
        assert Range(at, size).size == s.pcs[t].size;
      } else {
        s' := Goto(s, t, LoadStart(size));
      }
  }

  /** Outside the critical section a thread does not hold the lock. */
  lemma MutexIsFree(s: State, t: nat)
    requires MutexOk(s) && CanRun(s, t) && !HoldsLock(s.pcs[t])
    ensures s.mutex.Free?
  {}

  lemma AdvanceClose(s: State, t: nat) returns (s': State)
    requires Inv(s) && CanRun(s, t)
    requires s.pcs[t].RecheckStart? || s.pcs[t].RecheckEnd? || s.pcs[t].Restart? || s.pcs[t].CloseLoadEnd?
             || s.pcs[t].CloseSwap?
    ensures Towards(s, s', t) && (s'.mutex.Free? || s'.mutex == Held(t))
  {
    hide BlocksOk, PcOk, ChunksOk, Stage;
    InsideIs(s, t);
    match s.pcs[t]
    case RecheckStart(size) => s' := Goto(s, t, RecheckEnd(size, s.start, s.from));
    case RecheckEnd(size, at, i) =>
      s' := Goto(s, t, if at + size >= s.end then CloseLoadEnd(size, at, i) else Restart(size));
    case Restart(size) => s' := Goto(s, t, LoadStart(size)).(mutex := Free);
    case CloseLoadEnd(size, at, i) => s' := Goto(s, t, CloseSwap(size, at, i, s.end));
    case CloseSwap(size, at, i, end) =>
      if at == s.start {
        s' := Goto(s, t, NewChunk(size)).(start := end);
      } else {
        s' := Goto(s, t, CloseLoadEnd(size, s.start, s.from));
      }
  }

  lemma AdvanceStore(s: State, t: nat) returns (s': State)
    requires Inv(s) && CanRun(s, t)
    requires s.pcs[t].StoreEnd? || s.pcs[t].StoreStartLast? || s.pcs[t].StoreStart? || s.pcs[t].StoreEndLast?
    ensures Towards(s, s', t) && (s'.mutex.Free? || s'.mutex == Held(t))
  {
    hide BlocksOk, PcOk, ChunksOk, Stage;
    InsideIs(s, t);
    match s.pcs[t]
    case StoreEnd(size) => s' := Goto(s, t, StoreStartLast(size)).(end := End(Newest(s)));
    case StoreStartLast(size) => s' := Goto(s, t, SetCurrent(size)).(start := First(Newest(s)), from := Last(s));
    case StoreStart(size) => s' := Goto(s, t, StoreEndLast(size)).(start := First(Newest(s)), from := Last(s));
    case StoreEndLast(size) => s' := Goto(s, t, SetCurrent(size)).(end := End(Newest(s)));
  }

  lemma AdvanceRelease(s: State, t: nat) returns (s': State)
    requires Inv(s) && CanRun(s, t) && (s.pcs[t].SetCurrent? || s.pcs[t].Unlock?)
    ensures Towards(s, s', t) && (s'.mutex.Free? || s'.mutex == Held(t))
  {
    hide BlocksOk, PcOk, ChunksOk, Stage;
    InsideIs(s, t);
    match s.pcs[t]
    case SetCurrent(size) => s' := Goto(s, t, Unlock(size)).(current := Last(s));
    case Unlock(size) => s' := Goto(s, t, Swap(size, First(Newest(s)), Last(s))).(mutex := Free);
  }

  lemma AdvanceMap(s: State, t: nat) returns (s': State)
    requires Inv(s) && CanRun(s, t) && s.pcs[t].NewChunk?
    ensures Towards(s, s', t) && (s'.mutex.Free? || s'.mutex == Held(t))
  {
    hide BlocksOk, PcOk, ChunksOk;
    InsideIs(s, t);
    var size := s.pcs[t].size;
    var base := Unused(s.chunks);
    var c := Refilled(s, size, base);
    assert Unmapped(s.chunks, c);
    s' := Goto(s, t, if base < s.chunks[s.current].base then StoreEnd(size) else StoreStart(size))
          .(allocSize := c.size, chunks := s.chunks + [c]);
    assert MapChunk(s, s', t, size, base);
  }

  lemma Advance(s: State, t: nat) returns (s': State)
    requires Inv(s) && CanRun(s, t)
    ensures Towards(s, s', t) && (s'.mutex.Free? || s'.mutex == Held(t))
  {
    hide Inv, Towards;
    match s.pcs[t]
    case LoadStart(_) => s' := AdvanceLoad(s, t);
    case LoadEnd(_, _, _) => s' := AdvanceLoad(s, t);
    case Lock(_) => s' := AdvanceLoad(s, t);
    case Swap(_, _, _) => s' := AdvanceLoad(s, t);
    case NewChunk(_) => s' := AdvanceMap(s, t);
    case StoreEnd(_) => s' := AdvanceStore(s, t);
    case StoreStartLast(_) => s' := AdvanceStore(s, t);
    case StoreStart(_) => s' := AdvanceStore(s, t);
    case StoreEndLast(_) => s' := AdvanceStore(s, t);
    case SetCurrent(_) => s' := AdvanceRelease(s, t);
    case Unlock(_) => s' := AdvanceRelease(s, t);
    case _ => s' := AdvanceClose(s, t);
  }

  /** The run goes on with steps of the threads ts. */
  ghost predicate GoesOn(run: seq<State>, who: seq<nat>, run': seq<State>, who': seq<nat>, ts: set<nat>) {
    && IsRun(run', who') && run <= run' && who <= who'
    && forall i :: |who| <= i < |who'| ==> who'[i] in ts
  }

  /** What a call of thread t adds to the blocks. */
  ghost predicate Returns(s: State, s': State, t: nat)
    requires t in s.pcs && !s.pcs[t].Idle?
  {
    && s'.pcs == s.pcs[t := Idle] && s'.mutex.Free?
    && exists r: Range, i: nat :: r.size == s.pcs[t].size && s'.blocks == s.blocks + [Block(r, i, t)]
  }

  /** If nobody else holds the lock, a call can be completed by its own steps. */
  lemma {:induction false} CompletesAlone(run: seq<State>, who: seq<nat>, t: nat)
    returns (run': seq<State>, who': seq<nat>)
    requires IsRun(run, who) && CanRun(run[|who|], t)
    ensures GoesOn(run, who, run', who', {t}) && Returns(run[|who|], run'[|who'|], t)
    decreases Rank(run[|who|], run[|who|].pcs[t])
  {
    hide Inv, Step, Init, Rank;
    var s := run[|who|];
    RunKeepsInv(run, who, |who|);
    var s' := Advance(s, t);
    run', who' := run + [s'], who + [t];
    RunGrows(run, who, s', t);
    if s'.pcs[t].Idle? {
      IdleIsFree(run', who', t);
    } else {
      var before := run';
      run', who' := CompletesAlone(run', who', t);
      assert run <= before <= run';
    }
  }

  lemma IdleIsFree(run: seq<State>, who: seq<nat>, t: nat)
    requires IsRun(run, who) && t in run[|who|].pcs && run[|who|].pcs[t].Idle?
    requires run[|who|].mutex.Free? || run[|who|].mutex == Held(t)
    ensures run[|who|].mutex.Free?
  {
    hide Step, Init, Stage, BlocksOk;
    RunKeepsInv(run, who, |who|);
  }

  lemma RunGrows(run: seq<State>, who: seq<nat>, s': State, t: nat)
    requires IsRun(run, who) && Step(run[|who|], s', t)
    ensures IsRun(run + [s'], who + [t])
  {
    hide Step, Init;
    var run', who' := run + [s'], who + [t];
    forall i | 0 <= i < |who'|
      ensures Step(run'[i], run'[i + 1], who'[i])
    {
      if i < |who| { assert Step(run[i], run[i + 1], who[i]); }
    }
  }

  /** From every reachable state every call can be completed: by its own steps, after those of the thread
      that holds the lock, if any. */
  lemma Completes(run: seq<State>, who: seq<nat>, t: nat) returns (run': seq<State>, who': seq<nat>)
    requires IsRun(run, who) && t in run[|who|].pcs && !run[|who|].pcs[t].Idle?
    ensures IsRun(run', who') && run <= run' && who <= who'
    ensures var s, s' := run[|who|], run'[|who'|];
      && t in s'.pcs && s'.pcs[t].Idle?
      && |s.blocks| < |s'.blocks| <= |s.blocks| + 2 && s.blocks <= s'.blocks
      && s'.blocks[|s'.blocks| - 1].owner == t && s'.blocks[|s'.blocks| - 1].range.size == s.pcs[t].size
      && (|s'.blocks| == |s.blocks| + 2 ==> s'.blocks[|s.blocks|].owner != t && s.mutex.Held?)
  {
    hide Inv, Step, Init;
    var s := run[|who|];
    if CanRun(s, t) {
      run', who' := CompletesAlone(run, who, t);
    } else {
      HolderCanRun(run, who);
      var u := s.mutex.owner;
      var run1, who1 := CompletesAlone(run, who, u);
      run', who' := CompletesAlone(run1, who1, t);
      assert run <= run1 <= run' && who <= who1 <= who';
    }
  }

  lemma HolderCanRun(run: seq<State>, who: seq<nat>)
    requires IsRun(run, who) && run[|who|].mutex.Held?
    ensures CanRun(run[|who|], run[|who|].mutex.owner)
  {
    hide Step, Init, Stage, BlocksOk;
    RunKeepsInv(run, who, |who|);
  }
}
