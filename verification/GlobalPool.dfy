/** GlobalPool::allocate: lock-free bump allocation out of the current chunk, with a refill under a
    mutex.  Every load, store, compare-and-swap and lock operation is one step of one of any number
    of threads. */
module GlobalPool {

  import opened Numbers
  import opened Ranges

  /** A mapped chunk: its header of HEADER bytes, then `size` bytes to hand out. */
  datatype Chunk = Chunk(base: nat, size: nat)

  const HEADER: nat := 16

  function First(c: Chunk): nat { c.base + HEADER }

  function End(c: Chunk): nat { c.base + HEADER + c.size }

  /** Where a thread stands in allocate(size).  `at` is its local start_, and `i` records which chunk
      that address was read from. */
  datatype Pc =
    | Idle
    | LoadStart(size: nat)
    | LoadEnd(size: nat, at: nat, i: nat)
    | Lock(size: nat)
    | RecheckStart(size: nat)
    | RecheckEnd(size: nat, at: nat, i: nat)
    | Restart(size: nat)
    | CloseLoadEnd(size: nat, at: nat, i: nat)
    | CloseSwap(size: nat, at: nat, i: nat, end: nat)
    | NewChunk(size: nat)
    | StoreEnd(size: nat)            // new chunk below the current one: first end ...
    | StoreStartLast(size: nat)      // ... then start
    | StoreStart(size: nat)          // new chunk above the current one: first start ...
    | StoreEndLast(size: nat)        // ... then end
    | SetCurrent(size: nat)
    | Unlock(size: nat)
    | Swap(size: nat, at: nat, i: nat)

  /** A block returned by allocate, the chunk it was cut from, and the thread that got it. */
  datatype Block = Block(range: Range, i: nat, owner: nat)

  /** `chunks` are in the order of their mapping; `from` is the chunk that `start` points into. */
  datatype State = State(
    start: nat, end: nat, from: nat,
    chunks: seq<Chunk>, current: nat, allocSize: nat,
    mutex: Mutex,
    pcs: map<nat, Pc>,
    blocks: seq<Block>)

  datatype Mutex = Free | Held(owner: nat)

  predicate HoldsLock(pc: Pc) {
    pc.RecheckStart? || pc.RecheckEnd? || pc.Restart? || pc.CloseLoadEnd? || pc.CloseSwap? || pc.NewChunk?
    || pc.StoreEnd? || pc.StoreStartLast? || pc.StoreStart? || pc.StoreEndLast? || pc.SetCurrent? || pc.Unlock?
  }

  /** A new mapping overlaps no existing one. */
  ghost predicate Unmapped(chunks: seq<Chunk>, c: Chunk) {
    forall k :: 0 <= k < |chunks| ==> Apart(chunks[k], c)
  }

  ghost predicate Apart(a: Chunk, b: Chunk) {
    End(a) <= b.base || End(b) <= a.base
  }

  function Goto(s: State, t: nat, pc: Pc): State {
    s.(pcs := s.pcs[t := pc])
  }

  ghost predicate Step(s: State, s': State, t: nat) {
    t in s.pcs &&
    match s.pcs[t]
    case Idle => exists size: nat :: s' == Goto(s, t, LoadStart(size))
    case LoadStart(size) => s' == Goto(s, t, LoadEnd(size, s.start, s.from))
    case LoadEnd(size, at, i) =>
      s' == Goto(s, t, if at + size >= s.end then Lock(size) else Swap(size, at, i))
    case Lock(size) => s.mutex.Free? && s' == Goto(s, t, RecheckStart(size)).(mutex := Held(t))
    case RecheckStart(size) => s' == Goto(s, t, RecheckEnd(size, s.start, s.from))
    case RecheckEnd(size, at, i) =>
      s' == Goto(s, t, if at + size >= s.end then CloseLoadEnd(size, at, i) else Restart(size))
    case Restart(size) => s' == Goto(s, t, LoadStart(size)).(mutex := Free)
    case CloseLoadEnd(size, at, i) => s' == Goto(s, t, CloseSwap(size, at, i, s.end))
    case CloseSwap(size, at, i, end) =>
      || (s.start == at && s' == Goto(s, t, NewChunk(size)).(start := end))
      || s' == Goto(s, t, CloseLoadEnd(size, s.start, s.from))     // a weak swap may always fail
    case NewChunk(size) => exists base: nat :: MapChunk(s, s', t, size, base)
    case StoreEnd(size) => s' == Goto(s, t, StoreStartLast(size)).(end := End(Newest(s)))
    case StoreStartLast(size) =>
      s' == Goto(s, t, SetCurrent(size)).(start := First(Newest(s)), from := Last(s))
    case StoreStart(size) =>
      s' == Goto(s, t, StoreEndLast(size)).(start := First(Newest(s)), from := Last(s))
    case StoreEndLast(size) => s' == Goto(s, t, SetCurrent(size)).(end := End(Newest(s)))
    case SetCurrent(size) => s' == Goto(s, t, Unlock(size)).(current := Last(s))
    case Unlock(size) =>
      s' == Goto(s, t, Swap(size, First(Newest(s)), Last(s))).(mutex := Free)
    case Swap(size, at, i) =>
      || (s.start == at
          && s' == Goto(s, t, Idle).(start := at + size, blocks := s.blocks + [Block(Range(at, size), i, t)]))
      || s' == Goto(s, t, LoadStart(size))                          // a weak swap may always fail
  }

  function Last(s: State): nat {
    if s.chunks == [] then 0 else |s.chunks| - 1
  }

  function Newest(s: State): Chunk {
    if s.chunks == [] then Chunk(0, 0) else s.chunks[|s.chunks| - 1]
  }

  ghost predicate MapChunk(s: State, s': State, t: nat, size: nat, base: nat) {
    var allocSize := Max(s.allocSize * 2, size);
    var c := Chunk(base, allocSize);
    && Unmapped(s.chunks, c)
    && s.current < |s.chunks|
    && s' == Goto(s, t, if base < s.chunks[s.current].base then StoreEnd(size) else StoreStart(size))
              .(allocSize := allocSize, chunks := s.chunks + [c])
  }

  ghost predicate Init(s: State) {
    && |s.chunks| == 1 && s.chunks[0].size == s.allocSize
    && s.start == First(s.chunks[0]) && s.end == End(s.chunks[0]) && s.from == 0 && s.current == 0
    && s.mutex.Free? && s.blocks == []
    && forall t :: t in s.pcs ==> s.pcs[t].Idle?
  }

  // ---- invariant

  ghost predicate ChunksOk(chunks: seq<Chunk>) {
    |chunks| > 0 && forall i, j :: 0 <= i < j < |chunks| ==> Apart(chunks[i], chunks[j])
  }

  /** An address that `start` had while it pointed into chunk i. */
  ghost predicate WasStart(s: State, at: nat, i: nat) {
    && i <= s.from < |s.chunks|
    && First(s.chunks[i]) <= at <= End(s.chunks[i])
    && (i == s.from ==> at <= s.start)
  }

  /** How `end`, `from` and `current` relate, given the step of the refill that is due. */
  ghost predicate Stage(s: State, pc: Pc) {
    var n := |s.chunks|;
    match pc
    case StoreEnd(size) =>
      && n >= 2 && s.from == n - 2 == s.current && s.end == s.start == End(s.chunks[n - 2])
      && s.chunks[n - 1].base < s.chunks[n - 2].base && size <= s.chunks[n - 1].size
    case StoreStartLast(size) =>
      && n >= 2 && s.from == n - 2 == s.current && s.start == End(s.chunks[n - 2]) && s.end == End(s.chunks[n - 1])
      && s.chunks[n - 1].base < s.chunks[n - 2].base && size <= s.chunks[n - 1].size
    case StoreStart(size) =>
      && n >= 2 && s.from == n - 2 == s.current && s.end == s.start == End(s.chunks[n - 2])
      && s.chunks[n - 1].base >= s.chunks[n - 2].base && size <= s.chunks[n - 1].size
    case StoreEndLast(size) =>
      && n >= 2 && s.from == n - 1 && s.current == n - 2 && s.end == End(s.chunks[n - 2])
      && s.chunks[n - 1].base >= s.chunks[n - 2].base && size <= s.chunks[n - 1].size
    case SetCurrent(size) =>
      && n >= 2 && s.from == n - 1 && s.current == n - 2 && s.end == End(s.chunks[n - 1])
      && size <= s.chunks[n - 1].size
    case Unlock(size) =>
      s.from == n - 1 == s.current && s.end == End(s.chunks[n - 1]) && size <= s.chunks[n - 1].size
    case NewChunk(_) =>
      s.from == n - 1 == s.current && s.end == End(s.chunks[n - 1]) == s.start
    case _ => s.from == n - 1 == s.current && s.end == End(s.chunks[n - 1])
  }

  /** What a thread's locals promise. */
  ghost predicate PcOk(s: State, pc: Pc) {
    match pc
    case LoadEnd(_, at, i) => WasStart(s, at, i)
    case RecheckEnd(_, at, i) => WasStart(s, at, i)
    case CloseLoadEnd(_, at, i) => WasStart(s, at, i)
    case CloseSwap(_, at, i, end) => WasStart(s, at, i) && end == s.end
    case Swap(size, at, i) =>
      WasStart(s, at, i) && (i == s.from && at == s.start ==> at + size <= End(s.chunks[i]))
    case _ => true
  }

  ghost predicate BlockOk(s: State, b: Block) {
    && b.i <= s.from < |s.chunks|
    && First(s.chunks[b.i]) <= b.range.at && b.range.at + b.range.size <= End(s.chunks[b.i])
    && (b.i == s.from ==> b.range.at + b.range.size <= s.start)
  }

  ghost predicate BlocksOk(s: State) {
    && (forall k :: 0 <= k < |s.blocks| ==> BlockOk(s, s.blocks[k]))
    && (forall j, k :: 0 <= j < k < |s.blocks| ==> Disjoint(s.blocks[j].range, s.blocks[k].range))
  }

  ghost predicate MutexOk(s: State) {
    && (forall t :: t in s.pcs && HoldsLock(s.pcs[t]) ==> s.mutex == Held(t))
    && (s.mutex.Held? ==> s.mutex.owner in s.pcs && HoldsLock(s.pcs[s.mutex.owner]))
  }

  /** The pc of the thread in the critical section. */
  ghost function Critical(s: State): Pc {
    if s.mutex.Held? && s.mutex.owner in s.pcs then s.pcs[s.mutex.owner] else Idle
  }

  ghost predicate Inv(s: State) {
    && ChunksOk(s.chunks)
    && WasStart(s, s.start, s.from)
    && MutexOk(s)
    && Stage(s, Critical(s))
    && (forall t :: t in s.pcs ==> PcOk(s, s.pcs[t]))
    && BlocksOk(s)
  }

  lemma InitInv(s: State)
    requires Init(s)
    ensures Inv(s)
  {}

  /** Mapped chunks overlap nowhere, so an address that is a start of two chunks is of one chunk. */
  lemma OneChunk(s: State, at: nat, i: nat, j: nat)
    requires ChunksOk(s.chunks) && i < |s.chunks| && j < |s.chunks|
    requires First(s.chunks[i]) <= at <= End(s.chunks[i]) && First(s.chunks[j]) <= at <= End(s.chunks[j])
    ensures i == j
  {}

  /** `start` has moved on: forward within its chunk or to a newer chunk. */
  ghost predicate MovesOn(s: State, s': State) {
    && s.chunks <= s'.chunks && s.from <= s'.from < |s'.chunks|
    && (s.from == s'.from ==> s.start <= s'.start)
  }

  /** A swap that was safe stays safe: `start` never comes back to an address it has left. */
  lemma PcStays(s: State, s': State, pc: Pc)
    requires PcOk(s, pc) && MovesOn(s, s') && ChunksOk(s'.chunks) && WasStart(s, s.start, s.from)
    requires s.from < |s.chunks|
    requires s'.from == s.from ==> s'.start == s.start || s.start < s'.start
    requires pc.CloseSwap? ==> s'.end == s.end
    ensures PcOk(s', pc)
  {}

  /** Thread t goes to pc, and what changes besides leaves the locals of the others valid. */
  ghost predicate Frame(s: State, s': State, t: nat, pc: Pc) {
    && t in s.pcs && s'.pcs == s.pcs[t := pc]
    && MovesOn(s, s') && ChunksOk(s'.chunks)
    && (s'.from == s.from ==> s'.start == s.start || s.start < s'.start)
    && (s'.end == s.end || s.mutex == Held(t))
  }

  lemma OthersStay(s: State, s': State, t: nat, pc: Pc)
    requires Inv(s) && Frame(s, s', t, pc) && PcOk(s', pc)
    ensures forall u :: u in s'.pcs ==> PcOk(s', s'.pcs[u])
  {
    hide Stage, BlocksOk, PcOk;
    forall u | u in s'.pcs
      ensures PcOk(s', s'.pcs[u])
    {
      if u != t {
        NotClosing(s, s', t, u);
        PcStays(s, s', s.pcs[u]);
      }
    }
  }

  lemma NotClosing(s: State, s': State, t: nat, u: nat)
    requires MutexOk(s) && t in s.pcs && u in s.pcs && u != t && (s'.end == s.end || s.mutex == Held(t))
    ensures s.pcs[u].CloseSwap? ==> s'.end == s.end
  {}

  lemma BlocksStay(s: State, s': State)
    requires BlocksOk(s) && MovesOn(s, s') && s'.blocks == s.blocks
    ensures BlocksOk(s')
  {}

  lemma MutexStays(s: State, s': State, t: nat, pc: Pc)
    requires MutexOk(s) && t in s.pcs && s'.pcs == s.pcs[t := pc]
    requires s'.mutex == s.mutex && HoldsLock(pc) == HoldsLock(s.pcs[t])
    ensures MutexOk(s')
    ensures Critical(s') == if HoldsLock(pc) then pc else Critical(s)
  {}

  /** The test against a possibly stale `end` lets only safe swaps pass. */
  lemma TestIsSafe(s: State, size: nat, at: nat, i: nat)
    requires ChunksOk(s.chunks) && Stage(s, Critical(s)) && WasStart(s, s.start, s.from)
    requires WasStart(s, at, i) && at + size < s.end
    ensures PcOk(s, Swap(size, at, i))
  {
    var n := |s.chunks|;
    if n >= 2 && i == s.from && at == s.start {
      assert Apart(s.chunks[n - 2], s.chunks[n - 1]);
    }
  }

  /** Steps that only change the thread's own pc, and no lock is taken or released. */
  lemma LocalKeepsInv(s: State, s': State, t: nat, pc: Pc)
    requires Inv(s) && t in s.pcs && s' == Goto(s, t, pc) && PcOk(s', pc)
    requires HoldsLock(pc) == HoldsLock(s.pcs[t])
    requires HoldsLock(pc) ==> Stage(s, pc)
    ensures Inv(s')
  {
    hide PcOk, BlocksOk, MutexOk, ChunksOk;
    assert MovesOn(s, s');
    OthersStay(s, s', t, pc);
    BlocksStay(s, s');
    MutexStays(s, s', t, pc);
  }

  lemma InsideIs(s: State, t: nat)
    requires MutexOk(s) && t in s.pcs && HoldsLock(s.pcs[t])
    ensures Critical(s) == s.pcs[t] && s.mutex == Held(t)
  {}

  /** Idle, the loads, the tests and a failed swap. */
  lemma LoadKeepsInv(s: State, s': State, t: nat)
    requires Inv(s) && Step(s, s', t)
    requires s.pcs[t].Idle? || s.pcs[t].LoadStart? || s.pcs[t].LoadEnd? || s.pcs[t].RecheckStart?
             || s.pcs[t].RecheckEnd? || s.pcs[t].CloseLoadEnd?
    ensures Inv(s')
  {
    hide MutexOk, BlocksOk, ChunksOk;
    if HoldsLock(s.pcs[t]) { InsideIs(s, t); }
    if s.pcs[t].LoadEnd? && s.pcs[t].at + s.pcs[t].size < s.end {
      TestIsSafe(s, s.pcs[t].size, s.pcs[t].at, s.pcs[t].i);
    }
    LocalKeepsInv(s, s', t, s'.pcs[t]);
  }

  lemma LockKeepsInv(s: State, s': State, t: nat)
    requires Inv(s) && Step(s, s', t)
    requires s.pcs[t].Lock? || s.pcs[t].Restart? || s.pcs[t].Unlock?
    ensures Inv(s')
  {
    hide BlocksOk;
    if HoldsLock(s.pcs[t]) { InsideIs(s, t); }
    assert MovesOn(s, s');
    OthersStay(s, s', t, s'.pcs[t]);
    BlocksStay(s, s');
  }

  /** Closing the chunk: `start` jumps to `end`, so that no other thread gets memory. */
  lemma CloseKeepsInv(s: State, s': State, t: nat)
    requires Inv(s) && Step(s, s', t) && s.pcs[t].CloseSwap?
    ensures Inv(s')
  {
    hide BlocksOk, ChunksOk;
    InsideIs(s, t);
    if s'.pcs[t].NewChunk? {
      OthersStay(s, s', t, s'.pcs[t]);
      BlocksStay(s, s');
      MutexStays(s, s', t, s'.pcs[t]);
    } else {
      LocalKeepsInv(s, s', t, s'.pcs[t]);
    }
  }

  lemma MapKeepsInv(s: State, s': State, t: nat)
    requires Inv(s) && Step(s, s', t) && s.pcs[t].NewChunk?
    ensures Inv(s')
  {
    hide BlocksOk;
    InsideIs(s, t);
    OthersStay(s, s', t, s'.pcs[t]);
    BlocksStay(s, s');
    MutexStays(s, s', t, s'.pcs[t]);
  }

  /** The two stores of a refill, in either order, and the store of `current`. */
  lemma StoreKeepsInv(s: State, s': State, t: nat)
    requires Inv(s) && Step(s, s', t)
    requires s.pcs[t].StoreEnd? || s.pcs[t].StoreStartLast? || s.pcs[t].StoreStart? || s.pcs[t].StoreEndLast?
             || s.pcs[t].SetCurrent?
    ensures Inv(s')
  {
    hide BlocksOk, ChunksOk;
    InsideIs(s, t);
    OthersStay(s, s', t, s'.pcs[t]);
    BlocksStay(s, s');
    MutexStays(s, s', t, s'.pcs[t]);
  }

  /** A successful swap cuts a new block out of the chunk that `start` points into. */
  lemma SwapAddsBlock(s: State, s': State, t: nat)
    requires Inv(s) && Step(s, s', t) && s.pcs[t].Swap? && s'.pcs[t].Idle?
    ensures BlocksOk(s')
  {
    hide MutexOk, Stage;
    var b := s'.blocks[|s.blocks|];
    OneChunk(s, b.range.at, b.i, s.from);
    forall k | 0 <= k < |s.blocks|
      ensures Disjoint(s.blocks[k].range, b.range)
    {
      assert BlockOk(s, s.blocks[k]);
      var a := s.blocks[k];
      if a.i < b.i { assert Apart(s.chunks[a.i], s.chunks[b.i]); }
    }
  }

  lemma SwapKeepsInv(s: State, s': State, t: nat)
    requires Inv(s) && Step(s, s', t) && s.pcs[t].Swap?
    ensures Inv(s')
  {
    hide BlocksOk, ChunksOk;
    if s'.pcs[t].Idle? {
      SwapAddsBlock(s, s', t);
      OneChunk(s, s.pcs[t].at, s.pcs[t].i, s.from);
      OthersStay(s, s', t, Idle);
      MutexStays(s, s', t, Idle);
    } else {
      LocalKeepsInv(s, s', t, s'.pcs[t]);
    }
  }

  lemma StepKeepsInv(s: State, s': State, t: nat)
    requires Inv(s) && Step(s, s', t)
    ensures Inv(s')
  {
    hide Inv, Step;
    assert t in s.pcs by { StepOf(s, s', t); }
    match s.pcs[t]
    case Lock(_) => LockKeepsInv(s, s', t);
    case Restart(_) => LockKeepsInv(s, s', t);
    case Unlock(_) => LockKeepsInv(s, s', t);
    case CloseSwap(_, _, _, _) => CloseKeepsInv(s, s', t);
    case NewChunk(_) => MapKeepsInv(s, s', t);
    case StoreEnd(_) => StoreKeepsInv(s, s', t);
    case StoreStartLast(_) => StoreKeepsInv(s, s', t);
    case StoreStart(_) => StoreKeepsInv(s, s', t);
    case StoreEndLast(_) => StoreKeepsInv(s, s', t);
    case SetCurrent(_) => StoreKeepsInv(s, s', t);
    case Swap(_, _, _) => SwapKeepsInv(s, s', t);
    case _ => LoadKeepsInv(s, s', t);
  }

  lemma StepOf(s: State, s': State, t: nat)
    requires Step(s, s', t)
    ensures t in s.pcs
  {}

  /** A run: any interleaving; `who[i]` takes step i. */
  ghost predicate IsRun(run: seq<State>, who: seq<nat>) {
    && |run| == |who| + 1 && Init(run[0])
    && forall i :: 0 <= i < |who| ==> Step(run[i], run[i + 1], who[i])
  }

  lemma {:induction false} RunKeepsInv(run: seq<State>, who: seq<nat>, n: nat)
    requires IsRun(run, who) && n < |run|
    ensures Inv(run[n])
  {
    hide Init, Inv, Step;
    if n == 0 {
      InitInv(run[0]);
    } else {
      RunKeepsInv(run, who, n - 1);
      StepKeepsInv(run[n - 1], run[n], who[n - 1]);
    }
  }

  ghost predicate InOneChunk(chunks: seq<Chunk>, r: Range) {
    exists i :: 0 <= i < |chunks| && First(chunks[i]) <= r.at && r.at + r.size <= End(chunks[i])
  }

  /** Under every interleaving, all blocks handed out are pairwise disjoint, and each lies inside the
      payload of one mapped chunk. */
  lemma BlocksAreDisjoint(run: seq<State>, who: seq<nat>, n: nat)
    requires IsRun(run, who) && n < |run|
    ensures forall j, k :: 0 <= j < k < |run[n].blocks| ==> Disjoint(run[n].blocks[j].range, run[n].blocks[k].range)
    ensures forall k :: 0 <= k < |run[n].blocks| ==> InOneChunk(run[n].chunks, run[n].blocks[k].range)
  {
    hide Init, Step, Stage, PcOk;
    RunKeepsInv(run, who, n);
    var s := run[n];
    forall k | 0 <= k < |s.blocks|
      ensures InOneChunk(s.chunks, s.blocks[k].range)
    {
      assert BlockOk(s, s.blocks[k]);
      assert First(s.chunks[s.blocks[k].i]) <= s.blocks[k].range.at;
    }
  }
}
