/** The group reduction kernel: the threads of a block sum strided parts of their group's segment in
    shared memory and add these up in a tree, with barriers between the rounds.  With any number of
    threads the result is the sum of the parts of the first Top(threads) of them, so it is the sum of
    the segment for all inputs exactly when the number of threads is a power of two. */
module ParallelAggregate {

  import opened Capacity
  import opened Words

  /** One block: the values, its segment, the number of threads, and what a read outside the shared
      array would give. */
  datatype Config = Config(values: seq<int>, start: nat, end: nat, threads: nat, outside: int) {
    ghost predicate Ok() { end <= |values| && threads > 0 }
  }

  /** The segment of group idx: up to the next group's start, or to the end of the table. */
  function SegmentEnd(startPos: seq<nat>, idx: nat, rLen: nat): nat
    requires idx < |startPos|
  {
    if idx == |startPos| - 1 then rLen else startPos[idx + 1]
  }

  // ---- the sums

  function SegmentSum(s: seq<int>, a: nat, end: nat): int
    requires end <= |s|
    decreases end - a
  {
    if a >= end then 0 else s[a] + SegmentSum(s, a + 1, end)
  }

  /** Every n-th value from a on. */
  function Strided(s: seq<int>, a: nat, end: nat, n: nat): int
    requires end <= |s| && n > 0
    decreases end - a
  {
    if a >= end then 0 else s[a] + Strided(s, a + n, end, n)
  }

  /** What thread number t has to add up, for the threads lo..hi. */
  function Parts(c: Config, lo: nat, hi: nat): int
    requires c.end <= |c.values| && c.threads > 0
    decreases hi
  {
    if hi <= lo then 0 else Parts(c, lo, hi - 1) + Strided(c.values, c.start + (hi - 1), c.end, c.threads)
  }

  lemma {:induction false} PartsSplit(c: Config, lo: nat, mid: nat, hi: nat)
    requires c.end <= |c.values| && c.threads > 0 && lo <= mid <= hi
    ensures Parts(c, lo, hi) == Parts(c, lo, mid) + Parts(c, mid, hi)
    decreases hi
  {
    if mid < hi { PartsSplit(c, lo, mid, hi - 1); }
  }

  /** Moving the start by one shifts the parts by one thread. */
  lemma {:induction false} PartsShift(c: Config, hi: nat)
    requires c.end <= |c.values| && c.threads > 0
    ensures Parts(c.(start := c.start + 1), 0, hi) == Parts(c, 1, hi + 1)
    decreases hi
  {
    if hi > 0 { PartsShift(c, hi - 1); }
  }

  lemma {:induction false} PartsOfNothing(c: Config, hi: nat)
    requires c.end <= |c.values| && c.threads > 0 && c.start >= c.end
    ensures Parts(c, 0, hi) == 0
  {
    if hi > 0 { PartsOfNothing(c, hi - 1); }
  }

  /** The strided parts of all threads make up the segment. */
  lemma {:induction false} PartsAreSegment(c: Config)
    requires c.end <= |c.values| && c.threads > 0
    ensures Parts(c, 0, c.threads) == SegmentSum(c.values, c.start, c.end)
    decreases c.end - c.start
  {
    hide Parts;
    if c.start >= c.end {
      PartsOfNothing(c, c.threads);
    } else {
      PartsAreSegment(c.(start := c.start + 1));
      PartsShift(c, c.threads);
      PartsSplit(c, 0, 1, c.threads + 1);
      PartsSplit(c, 0, c.threads, c.threads + 1);
      OnePart(c, 0);
      OnePart(c, c.threads);
    }
  }

  lemma OnePart(c: Config, t: nat)
    requires c.end <= |c.values| && c.threads > 0
    ensures Parts(c, t, t + 1) == Strided(c.values, c.start + t, c.end, c.threads)
  {
    assert Parts(c, t, t) == 0;
  }

  /** The sums of the first n groups. */
  function GroupSums(s: seq<int>, startPos: seq<nat>, n: nat): int
    requires n <= |startPos| && forall i :: 0 <= i < |startPos| ==> startPos[i] <= |s|
  {
    if n == 0 then 0
        else GroupSums(s, startPos, n - 1) + SegmentSum(s, startPos[n - 1], SegmentEnd(startPos, n - 1, |s|))
  }

  /** The segments of sorted start positions cover the table: their sums add up to its sum. */
  lemma {:induction false} SegmentsCoverTable(s: seq<int>, startPos: seq<nat>, n: nat)
    requires 0 < n <= |startPos| && startPos[0] == 0
    requires forall i :: 0 <= i < |startPos| ==> startPos[i] <= |s|
    requires forall i, j :: 0 <= i < j < |startPos| ==> startPos[i] <= startPos[j]
    ensures GroupSums(s, startPos, n) == SegmentSum(s, 0, SegmentEnd(startPos, n - 1, |s|))
  {
    if n == 1 {
      assert GroupSums(s, startPos, 0) == 0;
    } else {
      SegmentsCoverTable(s, startPos, n - 1);
      SegmentsJoin(s, 0, startPos[n - 1], SegmentEnd(startPos, n - 1, |s|));
    }
  }

  lemma {:induction false} SegmentsJoin(s: seq<int>, a: nat, b: nat, end: nat)
    requires a <= b <= end <= |s|
    ensures SegmentSum(s, a, end) == SegmentSum(s, a, b) + SegmentSum(s, b, end)
    decreases b - a
  {
    if a < b { SegmentsJoin(s, a + 1, b, end); }
  }

  // ---- where a thread works in round e of the tree, delta being 2^e

  /** delta * tx */
  function Cell(e: nat, t: nat): nat { Shift(e) * t }

  lemma CellHalves(e: nat, t: nat)
    requires e > 0
    ensures Cell(e, t) == Cell(e - 1, 2 * t) && Cell(e, t) + Shift(e - 1) == Cell(e - 1, 2 * t + 1)
    ensures Shift(e) == 2 * Shift(e - 1)
  {
    var h := Shift(e - 1);
    assert 2 * h * t == h * (2 * t);
    assert h * (2 * t + 1) == h * (2 * t) + h;
  }

  /** Different threads work in different stretches of delta cells. */
  lemma CellsApart(e: nat, t: nat, u: nat)
    requires t < u
    ensures Cell(e, t) + Shift(e) <= Cell(e, u)
  {
    assert Shift(e) * (t + 1) <= Shift(e) * u;
    assert Shift(e) * (t + 1) == Shift(e) * t + Shift(e);
  }

  /** With 2^k threads, every stretch that begins inside the shared array lies inside it. */
  lemma CellInside(e: nat, t: nat, k: nat)
    requires e <= k && Cell(e, t) < Shift(k)
    ensures Cell(e, t) + Shift(e) <= Shift(k)
  {
    hide Shift;
    ShiftAdds(e, k - e);
    Stretch(Shift(e), Shift(k - e), t);
  }

  lemma Stretch(d: nat, n: nat, t: nat)
    requires d * t < d * n
    ensures d * t + d <= d * n
  {
    Factor(d, t, n);
    Mono(d, t + 1, n);
    assert d * (t + 1) == d * t + d;
  }

  lemma Factor(d: nat, t: nat, n: nat)
    requires d * t < d * n
    ensures t < n
  {
    if t >= n { Mono(d, n, t); }
  }

  lemma Mono(d: nat, a: nat, b: nat)
    requires a <= b
    ensures d * a <= d * b
  {}

  /** No tree step of a block of n threads leaves the shared array. */
  ghost predicate StaysInside(n: nat) {
    forall e: nat, t: nat {:trigger Cell(e, t)} ::
        e > 0 && Shift(e) <= n && Cell(e, t) < n ==> Cell(e, t) + Shift(e - 1) < n
  }

  /** The tree stays inside the shared array exactly when the number of threads is a power of two. */
  lemma InsideIffPow2(n: nat)
    requires n > 0
    ensures StaysInside(n) <==> IsPow2(n)
  {
    if IsPow2(n) {
      var k := Exponent(n);
      forall e: nat, t: nat | e > 0 && Shift(e) <= n && Cell(e, t) < n
        ensures Cell(e, t) + Shift(e - 1) < n
      {
        if e > k { ShiftGrows(k + 1, e); }
        CellInside(e, t, k);
      }
    } else {
      var a, q := OddPart(n);
      var e, t := a + 1, q / 2;
      OddFactor(a, q);
      assert Cell(e, t) < n && Cell(e, t) + Shift(e - 1) >= n;
    }
  }

  /** The largest power of two up to n. */
  function Top(n: nat): (r: nat)
    requires n > 0
    ensures r <= n < 2 * r
  {
    if n == 1 then 1 else 2 * Top(n / 2)
  }

  lemma {:induction false} TopIsShift(n: nat, e: nat)
    requires Shift(e) <= n < 2 * Shift(e)
    ensures Top(n) == Shift(e)
  {
    if n > 1 {
      TopIsShift(n / 2, e - 1);
    }
  }

  lemma {:induction false} TopIff(n: nat)
    requires n > 0
    ensures Top(n) == n <==> IsPow2(n)
  {
    if n > 1 { TopIff(n / 2); }
  }

  lemma {:induction false} Exponent(n: nat) returns (k: nat)
    requires IsPow2(n)
    ensures Shift(k) == n
  {
    if n == 1 {
      k := 0;
    } else {
      k := Exponent(n / 2);
      k := k + 1;
    }
  }

  /** n is a power of two times an odd number, above 1 when n is not a power of two. */
  lemma {:induction false} OddPart(n: nat) returns (a: nat, q: nat)
    requires n > 0 && !IsPow2(n)
    ensures n == Shift(a) * q && q % 2 == 1 && q >= 3
  {
    if n % 2 == 1 {
      a, q := 0, n;
    } else {
      a, q := OddPart(n / 2);
      assert 2 * (Shift(a) * q) == 2 * Shift(a) * q;
      a := a + 1;
    }
  }

  lemma OddFactor(a: nat, q: nat)
    requires q % 2 == 1 && q >= 3
    ensures Shift(a + 1) <= Shift(a) * q
    ensures Cell(a + 1, q / 2) + Shift(a) == Shift(a) * q
  {
    var s := Shift(a);
    assert s * 2 <= s * q;
    assert 2 * s * (q / 2) + s == s * (2 * (q / 2) + 1);
  }

  // ---- a block as a transition system

  /** Between two barriers: adding up strided values, a round of the tree, or storing the result. */
  datatype Phase = Load | Reduce(e: nat) | Store

  /** Shared cells, and per thread the next value to add (-1 before its cell is cleared) and whether
      it has reached the barrier. */
  datatype Block = Block(phase: Phase, cells: seq<int>, next: seq<int>, done: seq<bool>, result: seq<int>)

  ghost predicate Sized(c: Config, s: Block) {
    |s.cells| == |s.next| == |s.done| == c.threads
  }

  ghost predicate Init(c: Config, s: Block) {
    && Sized(c, s) && s.phase == Load && s.result == []
    && forall t :: 0 <= t < c.threads ==> s.next[t] == -1 && !s.done[t]
  }

  /** A read of the shared array. */
  function Read(c: Config, s: Block, k: nat): int { if k < |s.cells| then s.cells[k] else c.outside }

  /** The block after a step of thread t: it adds one more value to its cell, adds up two cells of
      the tree, stores the result, or only reaches the barrier. */
  function Stepped(c: Config, s: Block, t: nat): Block
    requires Sized(c, s) && t < c.threads && c.end <= |c.values|
  {
    match s.phase
    case Load =>
      if s.next[t] < 0 then s.(cells := s.cells[t := 0], next := s.next[t := c.start + t])
      else if s.next[t] < c.end then
        s.(cells := s.cells[t := s.cells[t] + c.values[s.next[t]]], next := s.next[t := s.next[t] + c.threads])
      else s.(done := s.done[t := true])
    case Reduce(e) =>
      if e > 0 && Cell(e, t) < c.threads then
        var sum := Read(c, s, Cell(e, t)) + Read(c, s, Cell(e, t) + Shift(e - 1));
        s.(cells := s.cells[Cell(e, t) := sum], done := s.done[t := true])
      else s.(done := s.done[t := true])
    case Store =>
      s.(result := if t == 0 then [Read(c, s, 0)] else s.result, done := s.done[t := true])
  }

  /** One step of thread t that has not reached the barrier. */
  ghost predicate Step(c: Config, s: Block, s': Block, t: nat) {
    Sized(c, s) && t < c.threads && c.end <= |c.values| && !s.done[t] && s' == Stepped(c, s, t)
  }

  function NextRound(c: Config, e: nat): Phase { if Shift(e) <= c.threads then Reduce(e) else Store }

  /** The block behind a barrier. */
  function Passed(c: Config, s: Block): Block
    requires s.phase != Store
  {
    var next := NextRound(c, if s.phase == Load then 1 else s.phase.e + 1);
    s.(phase := next, done := seq(c.threads, _ => false))
  }

  /** All threads have reached the barrier and go on to the next phase. */
  ghost predicate Barrier(c: Config, s: Block, s': Block) {
    Sized(c, s) && (forall t :: 0 <= t < c.threads ==> s.done[t]) && s.phase != Store && s' == Passed(c, s)
  }

  /** Step number who >= 0 is one of thread who, any other is a barrier. */
  ghost predicate Next(c: Config, s: Block, s': Block, who: int) {
    if who >= 0 then Step(c, s, s', who) else Barrier(c, s, s')
  }

  // ---- what holds in every reachable state

  /** Thread t while loading: its cell and what it still has to add make up its part. */
  ghost predicate LoadOk(c: Config, s: Block, t: nat)
    requires Sized(c, s) && t < c.threads && c.end <= |c.values|
  {
    && (s.next[t] == -1
        || (s.next[t] >= 0 && s.cells[t] + Strided(c.values, s.next[t], c.end, c.threads) == Parts(c, t, t + 1)))
    && (s.done[t] ==> s.next[t] >= c.end)
  }

  /** Thread t in round e: its stretch, when inside the array, is summed in its first cell, before its
      step in its two halves. */
  ghost predicate TreeOk(c: Config, s: Block, e: nat, t: nat)
    requires Sized(c, s) && e > 0 && c.end <= |c.values| && c.threads > 0
  {
    var a, h := Cell(e, t), Shift(e - 1);
    a + 2 * h <= c.threads ==>
      if t < c.threads && s.done[t] then s.cells[a] == Parts(c, a, a + 2 * h)
      else s.cells[a] == Parts(c, a, a + h) && s.cells[a + h] == Parts(c, a + h, a + 2 * h)
  }

  ghost predicate Inv(c: Config, s: Block) {
    && c.Ok() && Sized(c, s)
    && match s.phase
       case Load => s.result == [] && forall t {:trigger LoadOk(c, s, t)} :: 0 <= t < c.threads ==> LoadOk(c, s, t)
       case Reduce(e) => s.result == [] && e > 0 && Shift(e) <= c.threads
           && forall t: nat {:trigger TreeOk(c, s, e, t)} :: TreeOk(c, s, e, t)
       case Store => s.cells[0] == Parts(c, 0, Top(c.threads)) && s.result == if s.done[0] then [s.cells[0]] else []
  }

  lemma LoadStep(c: Config, s: Block, s': Block, t: nat)
    requires Inv(c, s) && Step(c, s, s', t) && s.phase == Load
    ensures Inv(c, s')
  {
    hide Parts;
    OnePart(c, t);
    assert LoadOk(c, s, t);
    forall u | 0 <= u < c.threads
      ensures LoadOk(c, s', u)
    {
      assert LoadOk(c, s, u);
    }
  }

  /** A thread's own tree step adds its two halves. */
  lemma TreeOwn(c: Config, s: Block, s': Block, t: nat)
    requires Inv(c, s) && Step(c, s, s', t) && s.phase.Reduce?
    ensures TreeOk(c, s', s.phase.e, t)
  {
    hide Parts, Shift;
    var e := s.phase.e;
    var a, h := Cell(e, t), Shift(e - 1);
    assert TreeOk(c, s, e, t);
    if a + 2 * h <= c.threads { PartsSplit(c, a, a + h, a + 2 * h); }
  }

  /** ... and touches no cell of another thread's stretch. */
  lemma TreeOther(c: Config, s: Block, s': Block, t: nat, u: nat)
    requires Inv(c, s) && Step(c, s, s', t) && s.phase.Reduce? && u != t
    ensures TreeOk(c, s', s.phase.e, u)
  {
    hide Parts, Shift, Cell;
    var e := s.phase.e;
    assert TreeOk(c, s, e, t) && TreeOk(c, s, e, u);
    Doubles(e);
    if t < u { CellsApart(e, t, u); } else { CellsApart(e, u, t); }
  }

  lemma Doubles(e: nat)
    requires e > 0
    ensures Shift(e) == 2 * Shift(e - 1)
  {}

  lemma TreeStep(c: Config, s: Block, s': Block, t: nat)
    requires Inv(c, s) && Step(c, s, s', t) && s.phase.Reduce?
    ensures Inv(c, s')
  {
    hide TreeOk, Shift, Cell;
    TreeOwn(c, s, s', t);
    forall u: nat {:trigger TreeOk(c, s', s.phase.e, u)}
      ensures TreeOk(c, s', s.phase.e, u)
    {
      if u != t { TreeOther(c, s, s', t, u); }
    }
  }

  /** The first round starts from single parts. */
  lemma FirstRound(c: Config, s: Block, s': Block, t: nat)
    requires Inv(c, s) && Barrier(c, s, s') && s.phase == Load && s'.phase == Reduce(1)
    ensures TreeOk(c, s', 1, t)
  {
    hide Parts;
    CellHalves(1, t);
    if Cell(1, t) + 2 <= c.threads {
      assert LoadOk(c, s, 2 * t) && LoadOk(c, s, 2 * t + 1);
    }
  }

  lemma FitsRounds(e: nat, k: nat)
    requires Shift(e) <= Shift(k)
    ensures e <= k
  {
    if e > k { ShiftGrows(k + 1, e); }
  }

  /** Every further round starts from the stretches of the round before. */
  lemma NextRoundOk(c: Config, s: Block, s': Block, t: nat)
    requires Inv(c, s) && Barrier(c, s, s') && s.phase.Reduce? && s'.phase == Reduce(s.phase.e + 1)
    ensures TreeOk(c, s', s.phase.e + 1, t)
  {
    hide Parts, Shift, Cell;
    var e := s.phase.e;
    CellHalves(e + 1, t);
    Doubles(e);
    if Cell(e + 1, t) + Shift(e + 1) <= c.threads {
      assert TreeOk(c, s, e, 2 * t) && TreeOk(c, s, e, 2 * t + 1);
      CellAtLeast(e, 2 * t);
      CellAtLeast(e, 2 * t + 1);
    }
  }

  lemma CellAtLeast(e: nat, t: nat)
    ensures t <= Cell(e, t)
  {
    assert Shift(e) * t >= 1 * t;
  }

  /** After the last round the first cell holds the sum of the first parts. */
  lemma LastRound(c: Config, s: Block, s': Block)
    requires Inv(c, s) && Barrier(c, s, s') && s'.phase == Store
    ensures s.cells[0] == Parts(c, 0, Top(c.threads))
  {
    hide Parts, Top;
    if s.phase == Load {
      assert Shift(1) == 2 && Shift(0) == 1;
      TopIsShift(c.threads, 0);
      assert LoadOk(c, s, 0);
    } else {
      var e := s.phase.e;
      assert TreeOk(c, s, e, 0);
      Doubles(e);
      Doubles(e + 1);
      TopIsShift(c.threads, e);
    }
  }

  lemma BarrierKeepsInv(c: Config, s: Block, s': Block)
    requires Inv(c, s) && Barrier(c, s, s')
    ensures Inv(c, s')
  {
    hide TreeOk, LoadOk, Shift, Cell, Parts;
    if s'.phase == Store {
      LastRound(c, s, s');
    } else {
      forall t: nat {:trigger TreeOk(c, s', s'.phase.e, t)}
        ensures TreeOk(c, s', s'.phase.e, t)
      {
        if s.phase == Load { FirstRound(c, s, s', t); } else { NextRoundOk(c, s, s', t); }
      }
    }
  }

  lemma NextKeepsInv(c: Config, s: Block, s': Block, who: int)
    requires Inv(c, s) && Next(c, s, s', who)
    ensures Inv(c, s')
  {
    if who < 0 {
      BarrierKeepsInv(c, s, s');
    } else if s.phase == Load {
      LoadStep(c, s, s', who);
    } else if s.phase.Reduce? {
      TreeStep(c, s, s', who);
    }
  }

  ghost predicate IsRun(c: Config, run: seq<Block>, who: seq<int>) {
    && |run| == |who| + 1 && Init(c, run[0])
    && forall i :: 0 <= i < |who| ==> Next(c, run[i], run[i + 1], who[i])
  }

  lemma {:induction false} RunKeepsInv(c: Config, run: seq<Block>, who: seq<int>, n: nat)
    requires c.Ok() && IsRun(c, run, who) && n < |run|
    ensures Inv(c, run[n])
  {
    hide Next;
    if n > 0 {
      RunKeepsInv(c, run, who, n - 1);
      NextKeepsInv(c, run[n - 1], run[n], who[n - 1]);
    }
  }

  /** For any number of threads and any interleaving between the barriers, what the block writes is the
      sum of the parts of the first Top(threads) threads. */
  lemma ResultIs(c: Config, run: seq<Block>, who: seq<int>, n: nat)
    requires c.Ok() && IsRun(c, run, who) && n < |run| && run[n].result != []
    ensures run[n].result == [Parts(c, 0, Top(c.threads))]
  {
    RunKeepsInv(c, run, who, n);
  }

  // ---- every block can finish

  function FirstOpen(done: seq<bool>): (t: nat)
    ensures t <= |done| && (t < |done| ==> !done[t]) && forall u :: 0 <= u < t ==> done[u]
  {
    if done == [] || !done[0] then 0 else 1 + FirstOpen(done[1..])
  }

  /** Phases that are still to come. */
  function PhasesLeft(c: Config, phase: Phase): nat {
    match phase
    case Load => c.threads + 2
    case Reduce(e) => if e <= c.threads then c.threads + 1 - e else 1
    case Store => 0
  }

  /** Steps the thread has left in its phase. */
  function StepsLeft(c: Config, s: Block, t: nat): nat {
    if s.phase != Load || t >= |s.next| then 0
    else if s.next[t] < 0 then c.end + 2
    else if s.next[t] <= c.end then c.end - s.next[t] + 1
    else 0
  }

  lemma {:induction false} RoundIsSmall(e: nat)
    ensures e < Shift(e)
  {
    if e > 0 { RoundIsSmall(e - 1); }
  }

  lemma {:induction false} OpenRises(done: seq<bool>, t: nat)
    requires t == FirstOpen(done) < |done|
    ensures FirstOpen(done[t := true]) > t
  {
    if t > 0 {
      OpenRises(done[1..], t - 1);
      assert done[t := true][1..] == done[1..][t - 1 := true];
    }
  }

  /** A step of the first thread that has not reached the barrier is progress. */
  lemma StepProgress(c: Config, s: Block, t: nat)
    requires Inv(c, s) && t == FirstOpen(s.done) < c.threads
    ensures var s' := Stepped(c, s, t);
            s'.phase == s.phase
                && (FirstOpen(s'.done) > t || (s'.done == s.done && StepsLeft(c, s', t) < StepsLeft(c, s, t)))
  {
    hide FirstOpen, Parts, Shift, Cell, TreeOk, Strided;
    OpenRises(s.done, t);
    if s.phase == Load { assert LoadOk(c, s, t); }
  }

  lemma PassProgress(c: Config, s: Block)
    requires Inv(c, s) && s.phase != Store
    ensures PhasesLeft(c, Passed(c, s).phase) < PhasesLeft(c, s.phase)
  {
    hide Parts, Shift, TreeOk, LoadOk, Top;
    if s.phase.Reduce? { RoundIsSmall(s.phase.e); }
  }

  lemma Extend(c: Config, run: seq<Block>, who: seq<int>, s: Block, w: int)
    requires IsRun(c, run, who) && Next(c, run[|who|], s, w)
    ensures IsRun(c, run + [s], who + [w])
  {
    hide Next;
    var run', who' := run + [s], who + [w];
    forall i | 0 <= i < |who'|
      ensures Next(c, run'[i], run'[i + 1], who'[i])
    {
      if i < |who| { assert Next(c, run[i], run[i + 1], who[i]); }
    }
  }

  lemma EndOf(c: Config, run: seq<Block>, who: seq<int>)
    requires c.Ok() && IsRun(c, run, who)
    ensures |run| == |who| + 1
    ensures var s := run[|who|];
            Inv(c, s) && Sized(c, s) && (s.phase == Store && FirstOpen(s.done) == c.threads ==> s.result != [])
  {
    hide Next, Init;
    RunKeepsInv(c, run, who, |who|);
  }

  /** Every run can be continued until the result is written. */
  lemma {:induction false} Finishes(c: Config, run: seq<Block>, who: seq<int>)
    returns (run': seq<Block>, who': seq<int>)
    requires c.Ok() && IsRun(c, run, who)
    ensures IsRun(c, run', who') && run <= run' && run'[|who'|].result != []
    decreases PhasesLeft(c, run[|who|].phase), c.threads - FirstOpen(run[|who|].done),
              StepsLeft(c, run[|who|], FirstOpen(run[|who|].done))
  {
    hide Inv, IsRun, FirstOpen, PhasesLeft, StepsLeft, Stepped, Passed;
    EndOf(c, run, who);
    var s := run[|who|];
    var t := FirstOpen(s.done);
    if s.result != [] {
      run', who' := run, who;
    } else if t < c.threads {
      StepProgress(c, s, t);
      Extend(c, run, who, Stepped(c, s, t), t);
      run', who' := Finishes(c, run + [Stepped(c, s, t)], who + [t]);
    } else {
      PassProgress(c, s);
      Extend(c, run, who, Passed(c, s), -1);
      run', who' := Finishes(c, run + [Passed(c, s)], who + [-1]);
    }
  }

  lemma StartOf(c: Config) returns (s: Block)
    requires c.Ok()
    ensures Init(c, s) && IsRun(c, [s], [])
  {
    s := Block(Load, seq(c.threads, _ => 0), seq(c.threads, _ => -1), seq(c.threads, _ => false), []);
  }

  // ---- for which numbers of threads the result is right

  /** Whatever a block of n threads writes is the sum of its segment. */
  ghost predicate SumsRight(n: nat) {
    forall c: Config, run: seq<Block>, who: seq<int> {:trigger IsRun(c, run, who)} ::
      c.Ok() && c.threads == n && IsRun(c, run, who) && run[|who|].result != []
      ==> run[|who|].result == [SegmentSum(c.values, c.start, c.end)]
  }

  /** One value per thread, all of them 1. */
  function Ones(n: nat): (c: Config)
    ensures n > 0 ==> c.Ok()
  {
    Config(seq(n, _ => 1), 0, n, n, 0)
  }

  lemma {:induction false} OnesParts(n: nat, k: nat)
    requires k <= n && n > 0
    ensures Parts(Ones(n), 0, k) == k
  {
    if k > 0 {
      OnesParts(n, k - 1);
      assert Strided(Ones(n).values, k - 1, n, n) == 1;
    }
  }

  /** The result is right for all inputs and interleavings exactly when the number of threads is a power
      of two. */
  lemma SumsRightIffPow2(n: nat)
    requires n > 0
    ensures SumsRight(n) <==> IsPow2(n)
  {
    hide Next, Init, Parts, SegmentSum, IsPow2, Top;
    TopIff(n);
    if Top(n) == n {
      forall c: Config, run: seq<Block>, who: seq<int>
        | c.Ok() && c.threads == n && IsRun(c, run, who) && run[|who|].result != []
        ensures run[|who|].result == [SegmentSum(c.values, c.start, c.end)]
      {
        ResultIs(c, run, who, |who|);
        PartsAreSegment(c);
      }
    } else {
      var c := Ones(n);
      var s := StartOf(c);
      var run, who := Finishes(c, [s], []);
      ResultIs(c, run, who, |who|);
      PartsAreSegment(c);
      OnesParts(n, n);
      OnesParts(n, Top(n));
    }
  }

  /** Three threads: the tree leaves the array, and of the values 1, 1, 1 only two are added up. */
  lemma ThreeThreads(run: seq<Block>, who: seq<int>)
    requires IsRun(Ones(3), run, who) && run[|who|].result != []
    ensures !StaysInside(3) && run[|who|].result == [2] && SegmentSum(Ones(3).values, 0, 3) == 3
  {
    hide Next, Init, Parts, SegmentSum, StaysInside;
    assert Top(3) == 2 * Top(1);
    assert !IsPow2(3);
    InsideIffPow2(3);
    ResultIs(Ones(3), run, who, |who|);
    PartsAreSegment(Ones(3));
    OnesParts(3, 3);
    OnesParts(3, 2);
  }

  // ---- races

  /** The shared cells that thread t's step in a phase reads or writes. */
  function Touches(c: Config, phase: Phase, t: nat): set<nat> {
    match phase
    case Load => {t}
    case Reduce(e) => if e > 0 && Cell(e, t) < c.threads then {Cell(e, t), Cell(e, t) + Shift(e - 1)} else {}
    case Store => if t == 0 then {0} else {}
  }

  /** Between two barriers no two threads touch a common cell; with a power of two of threads every cell
      touched exists. */
  lemma NoRaces(c: Config, phase: Phase, t: nat, u: nat)
    requires c.Ok() && t < c.threads && u < c.threads && t != u
    requires phase.Reduce? ==> phase.e > 0 && Shift(phase.e) <= c.threads
    ensures Touches(c, phase, t) !! Touches(c, phase, u)
    ensures IsPow2(c.threads) ==> forall k :: k in Touches(c, phase, t) ==> k < c.threads
  {
    hide IsPow2, Shift, Cell;
    if phase.Reduce? {
      Doubles(phase.e);
      if IsPow2(c.threads) && Cell(phase.e, t) < c.threads {
        var k := Exponent(c.threads);
        FitsRounds(phase.e, k);
        CellInside(phase.e, t, k);
      }
      if t < u { CellsApart(phase.e, t, u); } else { CellsApart(phase.e, u, t); }
    }
  }

  /** Two blocks that agree on what thread t can see: the cells of its footprint and its own place. */
  ghost predicate SameFor(c: Config, s: Block, u: Block, t: nat)
    requires Sized(c, s) && Sized(c, u) && t < c.threads
  {
    && s.phase == u.phase && s.next[t] == u.next[t] && s.done[t] == u.done[t]
    && forall k: nat {:trigger k in Touches(c, s.phase, t)} ::
       k in Touches(c, s.phase, t) && k < c.threads ==> s.cells[k] == u.cells[k]
  }

  /** A step neither changes a cell outside its footprint nor depends on one. */
  lemma StepIsLocal(c: Config, s: Block, u: Block, t: nat, k: nat)
    requires Sized(c, s) && Sized(c, u) && c.Ok() && t < c.threads && SameFor(c, s, u, t) && k < c.threads
    ensures Stepped(c, s, t).cells[k] != s.cells[k] ==> k in Touches(c, s.phase, t)
    ensures SameFor(c, Stepped(c, s, t), Stepped(c, u, t), t)
    ensures s.phase == Store && t == 0 ==> Stepped(c, s, t).result == Stepped(c, u, t).result
  {
    hide IsPow2, Shift, Parts, Strided, Cell;
    var ks := Touches(c, s.phase, t);
    match s.phase
    case Load => assert t in ks;
    case Reduce(e) =>
      if e > 0 && Cell(e, t) < c.threads {
        assert Cell(e, t) in ks && Cell(e, t) + Shift(e - 1) in ks;
      }
    case Store => assert t == 0 ==> 0 in ks;
  }

  lemma UpdatesCommute<T>(xs: seq<T>, i: nat, x: T, j: nat, y: T)
    requires i < |xs| && j < |xs| && i != j
    ensures xs[i := x][j := y] == xs[j := y][i := x]
  {}

  /** So the steps of two threads between two barriers commute. */
  lemma StepsCommute(c: Config, s: Block, t: nat, u: nat)
    requires c.Ok() && Sized(c, s) && t < c.threads && u < c.threads && t != u
    requires s.phase.Reduce? ==> s.phase.e > 0 && Shift(s.phase.e) <= c.threads
    ensures Stepped(c, Stepped(c, s, t), u) == Stepped(c, Stepped(c, s, u), t)
  {
    hide IsPow2, Shift, Cell;
    UpdatesCommute(s.done, t, true, u, true);
    if s.phase == Load {
      LoadsCommute(c, s, t, u);
    } else if s.phase.Reduce? {
      ReducesCommute(c, s, s.phase.e, t, u);
    }
  }

  lemma LoadsCommute(c: Config, s: Block, t: nat, u: nat)
    requires c.Ok() && Sized(c, s) && t < c.threads && u < c.threads && t != u && s.phase == Load
    ensures Stepped(c, Stepped(c, s, t), u) == Stepped(c, Stepped(c, s, u), t)
  {
    var a, b := Stepped(c, s, t), Stepped(c, s, u);
    UpdatesCommute(s.cells, t, a.cells[t], u, b.cells[u]);
    UpdatesCommute(s.next, t, a.next[t], u, b.next[u]);
    UpdatesCommute(s.done, t, a.done[t], u, b.done[u]);
  }

  lemma ReducesCommute(c: Config, s: Block, e: nat, t: nat, u: nat)
    requires c.Ok() && Sized(c, s) && t < c.threads && u < c.threads && t != u
    requires s.phase == Reduce(e) && e > 0 && Shift(e) <= c.threads
    ensures Stepped(c, Stepped(c, s, t), u) == Stepped(c, Stepped(c, s, u), t)
  {
    hide IsPow2, Shift, Cell;
    Doubles(e);
    if t < u { CellsApart(e, t, u); } else { CellsApart(e, u, t); }
    var i, j, h := Cell(e, t), Cell(e, u), Shift(e - 1);
    UpdatesCommute(s.done, t, true, u, true);
    if i < c.threads && j < c.threads {
      UpdatesCommute(s.cells, i, Read(c, s, i) + Read(c, s, i + h), j, Read(c, s, j) + Read(c, s, j + h));
    }
  }
}
