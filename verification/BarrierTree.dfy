/** HierarchicBarrier::create and destroy, and the assignment of workers to leaf barriers. */
module BarrierTree {
  import opened Barrier
  import opened Numbers

  const THREADS_PER_BARRIER: nat := 8

  /** A created barrier: its thread count and the place of its parent in the level above, or -1. */
  datatype Node = Node(threadCount: nat, parent: int)

  /** Barriers needed for n participants. */
  function Needed(n: nat): nat {
    (n + 7) / 8
  }

  ghost predicate IsLevel(n: nat, level: seq<Node>, top: bool) {
    && |level| == Needed(n)
    && forall j {:trigger level[j]} ::
       0 <= j < |level| ==> 8 * j < n && level[j] == Node(Min(8, n - 8 * j), if top then -1 else j / 8)
  }

  /** levels[0] are the leaf barriers for n threads, the last level is the root alone. */
  ghost predicate LevelsOk(n: nat, levels: seq<seq<Node>>) {
    && |levels| > 0
    && IsLevel(n, levels[0], |levels| == 1)
    && (|levels| == 1 <==> n <= 8)
    && (|levels| > 1 ==> LevelsOk(Needed(n), levels[1..]))
  }

  method Create(nrThreads: nat) returns (levels: seq<seq<Node>>)
    requires nrThreads > 0
    ensures LevelsOk(nrThreads, levels)
  {
    if nrThreads <= THREADS_PER_BARRIER {
      return [[Node(nrThreads, -1)]];
    }
    var nrBarriersFull := nrThreads / THREADS_PER_BARRIER;
    var threadsInRestBarrier := nrThreads % THREADS_PER_BARRIER;
    var nrBarriers := nrBarriersFull + if threadsInRestBarrier > 0 then 1 else 0;
    var parentLevel := Create(nrBarriers);
    var parent: int := -1;
    var result := [];
    var i := 0;
    while i < nrBarriersFull
      invariant i <= nrBarriersFull && |result| == i && parent == Needed(i) - 1
      invariant forall j {:trigger result[j]} :: 0 <= j < i ==> result[j] == Node(8, j / 8)
    {
      if i % THREADS_PER_BARRIER == 0 { parent := parent + 1; }
      result := result + [Node(THREADS_PER_BARRIER, parent)];
      i := i + 1;
    }
    if threadsInRestBarrier > 0 {
      result := result + [Node(threadsInRestBarrier, |parentLevel[0]| - 1)];
    }
    levels := [result] + parentLevel;
    assert levels[1..] == parentLevel;
  }

  /** WorkerGroup::run: the leaf barrier of every worker; the calling thread comes last. */
  method AssignWorkers(size: nat, nrLeaves: nat) returns (leaf: seq<nat>)
    requires size > 0 && nrLeaves == Needed(size)
    ensures |leaf| == size && forall i {:trigger leaf[i]} :: 0 <= i < size ==> leaf[i] == i / 8
  {
    leaf := [];
    var group: int := -1;
    var i := 0;
    while i < size - 1
      invariant i <= size - 1 && |leaf| == i && group == Needed(i) - 1
      invariant forall j {:trigger leaf[j]} :: 0 <= j < i ==> leaf[j] == j / 8
    {
      if i % THREADS_PER_BARRIER == 0 { group := group + 1; }
      leaf := leaf + [group];
      i := i + 1;
    }
    leaf := leaf + [nrLeaves - 1];
  }

  // ---- the tree that creation and assignment make

  ghost function Parts(n: nat, l: nat): nat {
    if l == 0 then n else Needed(Parts(n, l - 1))
  }

  lemma {:induction false} PartsShift(n: nat, l: nat)
    ensures Parts(Needed(n), l) == Parts(n, l + 1)
  {
    if l > 0 { PartsShift(n, l - 1); }
  }

  lemma {:induction false} LevelAt(n: nat, levels: seq<seq<Node>>, l: nat)
    requires LevelsOk(n, levels) && l < |levels|
    ensures IsLevel(Parts(n, l), levels[l], l == |levels| - 1)
    ensures l == |levels| - 1 <==> Parts(n, l) <= 8
    decreases l
  {
    if l > 0 {
      LevelAt(Needed(n), levels[1..], l - 1);
      PartsShift(n, l - 1);
    }
  }

  lemma {:induction false} PartsPositive(n: nat, l: nat)
    requires n > 0
    ensures Parts(n, l) > 0
  {
    if l > 0 { PartsPositive(n, l - 1); }
  }

  /** The participants numbered lo, ..., hi - 1 of a level. */
  ghost function Range(l: nat, lo: nat, hi: nat): (s: set<Part>)
    ensures forall p :: p in s <==> exists i :: lo <= i < hi && p == PartOf(l, i)
    ensures |s| == if lo < hi then hi - lo else 0
    decreases hi
  {
    if hi <= lo then {} else
      var rest := Range(l, lo, hi - 1);
      assert PartOf(l, hi - 1) !in rest;
      rest + {PartOf(l, hi - 1)}
  }

  /** The i-th participant of level l: a thread, or a barrier of the level below. */
  ghost function PartOf(l: nat, i: nat): Part {
    if l == 0 then Thread(i) else Child(Bar(l - 1, i))
  }

  ghost predicate LeavesOk(leaf: seq<nat>) {
    forall i {:trigger leaf[i]} :: 0 <= i < |leaf| ==> leaf[i] == i / 8
  }

  ghost function AllParts(levels: seq<seq<Node>>, n: nat): set<Part> {
    (set t: nat | 0 <= t < n :: Thread(t))
    + (set l: nat, j: nat | 0 <= l < |levels| - 1 && 0 <= j < |levels[l]| :: Child(Bar(l, j)))
  }

  ghost function AllBars(levels: seq<seq<Node>>): set<Bar> {
    set l: nat, j: nat | 0 <= l < |levels| && 0 <= j < |levels[l]| :: Bar(l, j)
  }

  /** Where a participant arrives, read off the created barriers and the assignment. */
  ghost function Target(levels: seq<seq<Node>>, leaf: seq<nat>, p: Part): Bar
    requires p in AllParts(levels, |leaf|)
  {
    match p
    case Thread(t) => Bar(0, leaf[t])
    case Child(b) =>
      var parent := levels[b.level][b.index].parent;
      Bar(b.level + 1, if parent >= 0 then parent else 0)
  }

  ghost function TreeFrom(levels: seq<seq<Node>>, leaf: seq<nat>): Tree
    requires |levels| > 0
  {
    Tree(map p | p in AllParts(levels, |leaf|) :: Target(levels, leaf, p),
         map b | b in AllBars(levels) :: levels[b.level][b.index].threadCount,
         Bar(|levels| - 1, 0))
  }

  /** The i-th participant of a level arrives at barrier i / 8 of that level. */
  lemma PartArrives(levels: seq<seq<Node>>, leaf: seq<nat>, l: nat, i: nat)
    requires LevelsOk(|leaf|, levels) && LeavesOk(leaf) && |leaf| > 0
    requires l < |levels| && i < Parts(|leaf|, l)
    ensures PartOf(l, i) in TreeFrom(levels, leaf).at
    ensures TreeFrom(levels, leaf).at[PartOf(l, i)] == Bar(l, i / 8)
  {
    if l > 0 { LevelAt(|leaf|, levels, l - 1); }
  }

  /** Every participant is the i-th one of some level. */
  lemma PartIs(levels: seq<seq<Node>>, leaf: seq<nat>, p: Part) returns (l: nat, i: nat)
    requires LevelsOk(|leaf|, levels) && p in AllParts(levels, |leaf|)
    ensures l < |levels| && i < Parts(|leaf|, l) && p == PartOf(l, i)
  {
    match p
    case Thread(t) => l, i := 0, t;
    case Child(b) =>
      l, i := b.level + 1, b.index;
      LevelAt(|leaf|, levels, b.level);
  }

  lemma MemberIsInRange(levels: seq<seq<Node>>, leaf: seq<nat>, l: nat, j: nat, p: Part)
    requires LevelsOk(|leaf|, levels) && LeavesOk(leaf) && |leaf| > 0 && l < |levels|
    requires p in Members(TreeFrom(levels, leaf), Bar(l, j))
    ensures p in Range(l, 8 * j, Min(8 * j + 8, Parts(|leaf|, l)))
  {
    hide LevelsOk, LeavesOk, Target;
    var l', i := PartIs(levels, leaf, p);
    PartArrives(levels, leaf, l', i);
  }

  lemma InRangeIsMember(levels: seq<seq<Node>>, leaf: seq<nat>, l: nat, j: nat, p: Part)
    requires LevelsOk(|leaf|, levels) && LeavesOk(leaf) && |leaf| > 0 && l < |levels|
    requires p in Range(l, 8 * j, Min(8 * j + 8, Parts(|leaf|, l)))
    ensures p in Members(TreeFrom(levels, leaf), Bar(l, j))
  {
    hide LevelsOk, LeavesOk, Target, AllParts;
    var i :| 8 * j <= i < Min(8 * j + 8, Parts(|leaf|, l)) && p == PartOf(l, i);
    PartArrives(levels, leaf, l, i);
  }

  lemma MembersAreRange(levels: seq<seq<Node>>, leaf: seq<nat>, l: nat, j: nat)
    requires LevelsOk(|leaf|, levels) && LeavesOk(leaf) && |leaf| > 0
    requires l < |levels| && j < |levels[l]|
    ensures Members(TreeFrom(levels, leaf), Bar(l, j)) == Range(l, 8 * j, Min(8 * j + 8, Parts(|leaf|, l)))
    ensures 8 * j < Parts(|leaf|, l) && levels[l][j].threadCount == Min(8, Parts(|leaf|, l) - 8 * j)
  {
    hide LevelsOk, LeavesOk, Members, Range, TreeFrom, Parts;
    LevelAt(|leaf|, levels, l);
    assert levels[l][j].threadCount == Min(8, Parts(|leaf|, l) - 8 * j);
    NonEmpty(levels, |leaf|);
    var members, range := Members(TreeFrom(levels, leaf), Bar(l, j)), Range(l, 8 * j, Min(8 * j + 8, Parts(|leaf|, l)));
    forall p | p in members
      ensures p in range
    {
      MemberIsInRange(levels, leaf, l, j, p);
    }
    forall p | p in range
      ensures p in members
    {
      InRangeIsMember(levels, leaf, l, j, p);
    }
  }

  lemma NonEmpty(levels: seq<seq<Node>>, n: nat)
    requires LevelsOk(n, levels)
    ensures |levels| > 0
  {}

  lemma BarIsCounted(levels: seq<seq<Node>>, leaf: seq<nat>, b: Bar)
    requires LevelsOk(|leaf|, levels) && LeavesOk(leaf) && |leaf| > 0
    requires b in AllBars(levels)
    ensures |Members(TreeFrom(levels, leaf), b)| == TreeFrom(levels, leaf).count[b] > 0
    ensures b == TreeFrom(levels, leaf).root || Child(b) in TreeFrom(levels, leaf).at
  {
    hide AllBars, AllParts, LevelsOk, LeavesOk, Members, Range, TreeFrom;
    NonEmpty(levels, |leaf|);
    BarFacts(levels, leaf, b);
    MembersAreRange(levels, leaf, b.level, b.index);
    LevelAt(|leaf|, levels, b.level);
  }

  lemma BarFacts(levels: seq<seq<Node>>, leaf: seq<nat>, b: Bar)
    requires |levels| > 0 && b in AllBars(levels)
    ensures b.level < |levels| && b.index < |levels[b.level]|
    ensures b in TreeFrom(levels, leaf).count && TreeFrom(levels, leaf).count[b] == levels[b.level][b.index].threadCount
    ensures TreeFrom(levels, leaf).root == Bar(|levels| - 1, 0)
    ensures b.level < |levels| - 1 ==> Child(b) in TreeFrom(levels, leaf).at
  {}

  lemma PartIsPlaced(levels: seq<seq<Node>>, leaf: seq<nat>, p: Part)
    requires LevelsOk(|leaf|, levels) && LeavesOk(leaf) && |leaf| > 0
    requires p in AllParts(levels, |leaf|)
    ensures var tree := TreeFrom(levels, leaf);
      tree.at[p] in tree.count && tree.at[p].level <= tree.root.level
          && (p.Child? ==> p.b in tree.count && tree.at[p].level == p.b.level + 1)
  {
    var l, i := PartIs(levels, leaf, p);
    PartArrives(levels, leaf, l, i);
    LevelAt(|leaf|, levels, l);
  }

  /** Every barrier that create makes gets exactly threadCount participants: the workers assigned to
      it by run, or the barriers below it.  So the guarantees of the barrier hold for any number of
      workers. */
  lemma CreatedTreeIsOk(levels: seq<seq<Node>>, leaf: seq<nat>)
    requires LevelsOk(|leaf|, levels) && LeavesOk(leaf) && |leaf| > 0
    ensures TreeOk(TreeFrom(levels, leaf))
    ensures forall t: nat :: Thread(t) in TreeFrom(levels, leaf).at <==> t < |leaf|
  {
    hide LeavesOk, LevelsOk, Target, Members, TreeFrom, AllBars, AllParts;
    NonEmpty(levels, |leaf|);
    var tree := TreeFrom(levels, leaf);
    TreeHas(levels, leaf);
    RootIsCounted(levels, leaf);
    forall b | b in tree.count
      ensures |Members(tree, b)| == tree.count[b] > 0
      ensures b == tree.root || Child(b) in tree.at
    {
      BarIsCounted(levels, leaf, b);
    }
    forall p | p in tree.at
      ensures tree.at[p] in tree.count && tree.at[p].level <= tree.root.level
      ensures p.Child? ==> p.b in tree.count && tree.at[p].level > p.b.level
    {
      PartIsPlaced(levels, leaf, p);
    }
  }

  lemma TreeHas(levels: seq<seq<Node>>, leaf: seq<nat>)
    requires |levels| > 0
    ensures TreeFrom(levels, leaf).count.Keys == AllBars(levels)
    ensures TreeFrom(levels, leaf).at.Keys == AllParts(levels, |leaf|)
    ensures forall t: nat :: Thread(t) in TreeFrom(levels, leaf).at <==> t < |leaf|
  {}

  lemma RootIsCounted(levels: seq<seq<Node>>, leaf: seq<nat>)
    requires LevelsOk(|leaf|, levels) && |leaf| > 0
    ensures TreeFrom(levels, leaf).root in TreeFrom(levels, leaf).count
  {
    LevelAt(|leaf|, levels, |levels| - 1);
    PartsPositive(|leaf|, |levels| - 1);
  }

  // ---- destroy

  /** All barriers of the levels from l on, leaves first. */
  ghost function AllFrom(levels: seq<seq<Node>>, l: nat): seq<Bar> {
    if levels == []
        then [] else seq(|levels[0]|, j requires 0 <= j < |levels[0]| => Bar(l, j)) + AllFrom(levels[1..], l + 1)
  }

  /** destroy follows the parent pointers of every eighth barrier and frees level by level.  The
      parents it collects are the whole next level, so every barrier is freed exactly once; the
      null parent of a lone root is not freed. */
  method Destroy(levels: seq<seq<Node>>, l: nat, ghost n: nat) returns (freed: seq<Bar>)
    requires n > 0 && LevelsOk(n, levels)
    ensures freed == AllFrom(levels, l)
    decreases |levels|
  {
    var these := levels[0];
    var parents: seq<int> := [];
    var i := 0;
    while i < |these|
      invariant i % 8 == 0 && |parents| == i / 8 && i < |these| + 8
      invariant forall k {:trigger parents[k]} :: 0 <= k < |parents| ==> parents[k] == if |levels| == 1 then -1 else k
    {
      parents := parents + [these[i].parent];
      i := i + THREADS_PER_BARRIER;
    }
    assert |parents| == Needed(|these|);
    freed := [];
    i := 0;
    while i < |these|
      invariant i <= |these| && freed == seq(i, j requires 0 <= j < i => Bar(l, j))
    {
      freed := freed + [Bar(l, i)];
      i := i + 1;
    }
    assert |these| == Needed(n);
    if |parents| > 1 {
      var above := Destroy(levels[1..], l + 1, Needed(n));
      freed := freed + above;
    } else if parents[|parents| - 1] >= 0 {
      freed := freed + [Bar(l + 1, parents[|parents| - 1])];
      assert |levels[1..]| == 1 && |levels[1..][0]| == 1;
      assert AllFrom(levels[1..], l + 1) == [Bar(l + 1, 0)] + AllFrom(levels[1..][1..], l + 2);
    } else {
      assert AllFrom(levels[1..], l + 1) == [];
    }
  }
}
