/** Scheduling a graph of kernels: every kernel gets a level, and the kernels are queued in vertex
    order with event wait lists (section 5.8 of the OpenCL 1.2 specification).  A kernel starts only
    after all events on its wait list. */
module DagScheduler {

  /** Vertices 0..n and the edges between them as (source, target). */
  datatype Graph = Graph(n: nat, edges: seq<(nat, nat)>) {
    ghost predicate Ok() {
      forall e :: 0 <= e < |edges| ==> edges[e].0 < n && edges[e].1 < n
    }
  }

  ghost predicate IsTarget(g: Graph, v: nat) {
    exists e {:trigger g.edges[e]} :: 0 <= e < |g.edges| && g.edges[e].1 == v
  }

  /** What the topological sort promises: every vertex once, sources before targets. */
  ghost predicate Topological(g: Graph, order: seq<nat>) {
    && (forall k :: 0 <= k < |order| ==> order[k] < g.n)
    && (forall j, k :: 0 <= j < k < |order| ==> order[j] != order[k])
    && (forall v: nat :: v < g.n ==> v in order)
    && (forall e, j, k ::
        0 <= e < |g.edges| && 0 <= j < |order| && 0 <= k < |order| && g.edges[e] == (order[j], order[k]) ==> j < k)
  }

  /** Edge e leads into one of the first k vertices of the order. */
  ghost predicate Into(g: Graph, order: seq<nat>, e: nat, k: nat)
    requires k <= |order| && e < |g.edges|
  {
    g.edges[e].1 in order[..k]
  }

  lemma IntoNext(g: Graph, order: seq<nat>, e: nat, k: nat)
    requires k < |order| && e < |g.edges|
    ensures Into(g, order, e, k + 1) <==> Into(g, order, e, k) || g.edges[e].1 == order[k]
  {
    assert order[..k + 1] == order[..k] + [order[k]];
  }

  /** The source of such an edge is neither the next vertex nor any later one. */
  lemma SourceIsBefore(g: Graph, order: seq<nat>, e: nat, k: nat)
    requires g.Ok() && Topological(g, order) && k <= |order| && e < |g.edges| && Into(g, order, e, k)
    ensures g.edges[e].0 in order[..k] && (k < |order| ==> g.edges[e].0 != order[k])
  {
    var j :| 0 <= j < k && order[..k][j] == g.edges[e].1;
    assert g.edges[e].0 in order;
    var i :| 0 <= i < |order| && order[i] == g.edges[e].0;
    assert order[j] == g.edges[e].1;
    assert g.edges[e] == (order[i], order[j]);
    assert order[..k][i] == g.edges[e].0;
  }

  // ---- levels

  ghost predicate OrderOk(g: Graph, order: seq<nat>) {
    g.Ok() && forall j :: 0 <= j < |order| ==> order[j] < g.n
  }

  /** The level of vertex number k of the order: 0 without incoming edge, otherwise one more than the
      highest level of any source of an edge into it or into a vertex before it. */
  ghost predicate LevelOk(g: Graph, order: seq<nat>, time: seq<nat>, k: nat)
    requires OrderOk(g, order) && |time| == g.n && k < |order|
  {
    if IsTarget(g, order[k]) then
      && (forall e {:trigger Into(g, order, e, k + 1)} ::
          0 <= e < |g.edges| && Into(g, order, e, k + 1) ==> time[g.edges[e].0] < time[order[k]])
      && (exists e {:trigger Into(g, order, e, k + 1)} ::
          0 <= e < |g.edges| && Into(g, order, e, k + 1) && time[order[k]] == time[g.edges[e].0] + 1)
    else time[order[k]] == 0
  }

  /** maxdist is the highest level of any source of an edge into the first k vertices. */
  ghost predicate MaxOk(g: Graph, order: seq<nat>, time: seq<nat>, maxdist: nat, k: nat)
    requires g.Ok() && |time| == g.n && k <= |order|
  {
    && (forall e {:trigger Into(g, order, e, k)} ::
        0 <= e < |g.edges| && Into(g, order, e, k) ==> time[g.edges[e].0] <= maxdist)
    && (maxdist > 0 ==> exists e {:trigger Into(g, order, e, k)} ::
        0 <= e < |g.edges| && Into(g, order, e, k) && time[g.edges[e].0] == maxdist)
  }

  /** What the level computation has done after the first k vertices. */
  ghost predicate Computed(g: Graph, order: seq<nat>, time: seq<nat>, maxdist: nat, k: nat)
    requires OrderOk(g, order) && |time| == g.n && k <= |order|
  {
    && (forall j {:trigger LevelOk(g, order, time, j)} :: 0 <= j < k ==> LevelOk(g, order, time, j))
    && (forall j {:trigger order[j]} :: k <= j < |order| ==> time[order[j]] == 0)
    && MaxOk(g, order, time, maxdist, k)
  }

  /** Setting the level of a later vertex changes nothing for the vertices before. */
  lemma LevelStays(g: Graph, order: seq<nat>, time: seq<nat>, k: nat, t: nat, j: nat)
    requires OrderOk(g, order) && Topological(g, order) && |time| == g.n && j < k < |order|
             && LevelOk(g, order, time, j)
    ensures LevelOk(g, order, time[order[k] := t], j)
  {
    hide Into, IsTarget, Topological;
    OrderDistinct(g, order, j, k);
    var time' := time[order[k] := t];
    forall e {:trigger Into(g, order, e, j + 1)} | 0 <= e < |g.edges| && Into(g, order, e, j + 1)
      ensures time'[g.edges[e].0] == time[g.edges[e].0]
    {
      SourceNot(g, order, e, j + 1, k);
    }
  }

  lemma OrderDistinct(g: Graph, order: seq<nat>, j: nat, k: nat)
    requires Topological(g, order) && j < |order| && k < |order| && j != k
    ensures order[j] != order[k]
  {}

  lemma SourceNot(g: Graph, order: seq<nat>, e: nat, j: nat, k: nat)
    requires g.Ok() && Topological(g, order) && j <= k < |order| && e < |g.edges| && Into(g, order, e, j)
    ensures g.edges[e].0 != order[k]
  {
    SourceIsBefore(g, order, e, j);
    var i :| 0 <= i < j && order[..j][i] == g.edges[e].0;
    assert order[i] == g.edges[e].0;
  }

  /** A vertex without incoming edge keeps level 0. */
  lemma NextSource(g: Graph, order: seq<nat>, time: seq<nat>, maxdist: nat, k: nat)
    requires OrderOk(g, order) && |time| == g.n && k < |order| && Computed(g, order, time, maxdist, k)
             && !IsTarget(g, order[k])
    ensures Computed(g, order, time, maxdist, k + 1)
  {
    hide Into;
    forall e {:trigger Into(g, order, e, k)} {:trigger Into(g, order, e, k + 1)} | 0 <= e < |g.edges|
      ensures Into(g, order, e, k + 1) <==> Into(g, order, e, k)
    {
      IntoNext(g, order, e, k);
      assert g.edges[e].1 != order[k];
    }
  }

  /** A target is placed one level above maxdist, which first rises to the levels of its sources. */
  lemma NextTarget(g: Graph, order: seq<nat>, time: seq<nat>, maxdist: nat, m: nat, k: nat)
    requires OrderOk(g, order) && Topological(g, order) && |time| == g.n && k < |order|
             && Computed(g, order, time, maxdist, k) && IsTarget(g, order[k])
    requires m >= maxdist && forall e {:trigger g.edges[e]} ::
             0 <= e < |g.edges| && g.edges[e].1 == order[k] ==> time[g.edges[e].0] <= m
    requires m == maxdist || exists e {:trigger g.edges[e]} ::
             0 <= e < |g.edges| && g.edges[e].1 == order[k] && time[g.edges[e].0] == m
    ensures Computed(g, order, time[order[k] := m + 1], m, k + 1)
  {
    hide Into, Topological, LevelOk, MaxOk, IsTarget;
    var time' := time[order[k] := m + 1];
    forall j {:trigger LevelOk(g, order, time', j)} | 0 <= j < k
      ensures LevelOk(g, order, time', j)
    {
      LevelStays(g, order, time, k, m + 1, j);
    }
    forall j | k + 1 <= j < |order|
      ensures time'[order[j]] == 0
    {
      OrderDistinct(g, order, j, k);
    }
    MaxRises(g, order, time, maxdist, m, k);
    TargetLevel(g, order, time', m, k);
  }

  lemma MaxRises(g: Graph, order: seq<nat>, time: seq<nat>, maxdist: nat, m: nat, k: nat)
    requires OrderOk(g, order) && Topological(g, order) && |time| == g.n && k < |order|
             && MaxOk(g, order, time, maxdist, k) && IsTarget(g, order[k])
    requires m >= maxdist && forall e {:trigger g.edges[e]} ::
             0 <= e < |g.edges| && g.edges[e].1 == order[k] ==> time[g.edges[e].0] <= m
    requires m == maxdist || exists e {:trigger g.edges[e]} ::
             0 <= e < |g.edges| && g.edges[e].1 == order[k] && time[g.edges[e].0] == m
    ensures MaxOk(g, order, time[order[k] := m + 1], m, k + 1)
    ensures exists e {:trigger Into(g, order, e, k + 1)} ::
            0 <= e < |g.edges| && Into(g, order, e, k + 1) && time[order[k] := m + 1][g.edges[e].0] == m
  {
    hide Into, Topological;
    var time' := time[order[k] := m + 1];
    forall e {:trigger Into(g, order, e, k + 1)} | 0 <= e < |g.edges| && Into(g, order, e, k + 1)
      ensures time'[g.edges[e].0] == time[g.edges[e].0] <= m
    {
      IntoNext(g, order, e, k);
      SourceIsBelow(g, order, e, k);
    }
    var w: nat :| w < |g.edges| && g.edges[w].1 == order[k] && (m == maxdist || time[g.edges[w].0] == m);
    IntoNext(g, order, w, k);
    if m == maxdist && m > 0 {
      var e :| 0 <= e < |g.edges| && Into(g, order, e, k) && time[g.edges[e].0] == maxdist;
      IntoNext(g, order, e, k);
    }
  }

  /** No edge into the first k + 1 vertices starts at the last of them. */
  lemma SourceIsBelow(g: Graph, order: seq<nat>, e: nat, k: nat)
    requires g.Ok() && Topological(g, order) && k < |order| && e < |g.edges| && Into(g, order, e, k + 1)
    ensures g.edges[e].0 != order[k]
  {
    var j :| 0 <= j < k + 1 && order[..k + 1][j] == g.edges[e].1;
    assert order[j] == g.edges[e].1;
    assert g.edges[e] == (g.edges[e].0, order[j]);
  }

  lemma TargetLevel(g: Graph, order: seq<nat>, time: seq<nat>, m: nat, k: nat)
    requires OrderOk(g, order) && |time| == g.n && k < |order| && MaxOk(g, order, time, m, k + 1)
             && IsTarget(g, order[k]) && time[order[k]] == m + 1
    requires exists e {:trigger Into(g, order, e, k + 1)} ::
             0 <= e < |g.edges| && Into(g, order, e, k + 1) && time[g.edges[e].0] == m
    ensures LevelOk(g, order, time, k)
  {
    hide Into, IsTarget;
  }

  /** The largest of a bound and the levels of the sources of v. */
  method MaxOverSources(g: Graph, time: array<nat>, v: nat, maxdist: nat) returns (m: nat, inDegree: nat)
    requires g.Ok() && time.Length == g.n && v < g.n
    ensures inDegree > 0 <==> IsTarget(g, v)
    ensures m >= maxdist && forall e {:trigger g.edges[e]} ::
            0 <= e < |g.edges| && g.edges[e].1 == v ==> time[g.edges[e].0] <= m
    ensures m == maxdist || exists e {:trigger g.edges[e]} ::
            0 <= e < |g.edges| && g.edges[e].1 == v && time[g.edges[e].0] == m
  {
    m, inDegree := maxdist, 0;
    for i := 0 to |g.edges|
      invariant inDegree > 0 <==> exists e {:trigger g.edges[e]} :: 0 <= e < i && g.edges[e].1 == v
      invariant m >= maxdist && forall e {:trigger g.edges[e]} ::
                0 <= e < i && g.edges[e].1 == v ==> time[g.edges[e].0] <= m
      invariant m == maxdist || exists e {:trigger g.edges[e]} ::
                0 <= e < i && g.edges[e].1 == v && time[g.edges[e].0] == m
    {
      if g.edges[i].1 == v {
        inDegree := inDegree + 1;
        if time[g.edges[i].0] > m { m := time[g.edges[i].0]; }
      }
    }
  }

  /** Compute the levels; maxdist carries over from vertex to vertex. */
  method Levels(g: Graph, order: seq<nat>) returns (levels: seq<nat>)
    requires g.Ok() && Topological(g, order)
    ensures |levels| == g.n && forall k :: 0 <= k < |order| ==> LevelOk(g, order, levels, k)
  {
    hide LevelOk, IsTarget, MaxOk;
    NothingComputed(g, order);
    var time := new nat[g.n](_ => 0);
    var maxdist := 0;
    assert time[..] == seq(g.n, _ => 0);
    for k := 0 to |order|
      invariant Computed(g, order, time[..], maxdist, k)
    {
      var v := order[k];
      var m, inDegree := MaxOverSources(g, time, v, maxdist);
      ghost var before := time[..];
      if inDegree > 0 {
        ghost var was := maxdist;
        maxdist := m;
        time[v] := maxdist + 1;
        NextTarget(g, order, before, was, m, k);
      } else {
        NextSource(g, order, before, maxdist, k);
      }
    }
    levels := time[..];
  }

  lemma NothingComputed(g: Graph, order: seq<nat>)
    requires OrderOk(g, order)
    ensures Computed(g, order, seq(g.n, _ => 0), 0, 0)
  {}

  /** Levels strictly increase along every edge, although maxdist is never reset. */
  lemma LevelsIncrease(g: Graph, order: seq<nat>, time: seq<nat>, e: nat)
    requires g.Ok() && Topological(g, order) && |time| == g.n && e < |g.edges|
    requires forall k :: 0 <= k < |order| ==> LevelOk(g, order, time, k)
    ensures time[g.edges[e].0] < time[g.edges[e].1]
  {
    assert g.edges[e].1 in order;
    var k :| 0 <= k < |order| && order[k] == g.edges[e].1;
    assert LevelOk(g, order, time, k);
    assert order[..k + 1][k] == g.edges[e].1;
    assert Into(g, order, e, k + 1);
  }

  // ---- event wait lists

  /** The level as kept in a 16-bit variable. */
  function ToShort(t: nat): int { (t + 0x8000) % 0x1_0000 - 0x8000 }

  /** The level remembered when vertex v is reached. */
  function PrevTime(time: seq<nat>, v: nat): int
    requires v <= |time|
  {
    if v == 0 then 0
    else if time[v - 1] == PrevTime(time, v - 1) then PrevTime(time, v - 1)
    else ToShort(time[v - 1])
  }

  /** The first vertex of the run of vertex v: the consecutive vertices queued with one wait list. */
  function RunStart(time: seq<nat>, v: nat): (r: nat)
    requires v < |time|
    ensures r <= v
  {
    if v == 0 then 0 else if time[v] == PrevTime(time, v) then RunStart(time, v - 1) else v
  }

  /** The vertices a..b in order. */
  function Range(a: nat, b: nat): (r: seq<nat>)
    ensures a <= b ==> |r| == b - a && forall k :: 0 <= k < |r| ==> r[k] == a + k
    ensures b <= a ==> r == []
  {
    if b <= a then [] else Range(a, b - 1) + [b - 1]
  }

  /** A kernel waits for the run before its own. */
  function WaitList(time: seq<nat>, v: nat): seq<nat>
    requires v < |time|
  {
    var r := RunStart(time, v);
    if r == 0 then [] else Range(RunStart(time, r - 1), r)
  }

  /** Queue the kernels in vertex order.  An event is named by the vertex of its kernel. */
  method Queue(time: seq<nat>) returns (waits: seq<seq<nat>>)
    ensures |waits| == |time| && forall v :: 0 <= v < |time| ==> waits[v] == WaitList(time, v)
  {
    hide ToShort, WaitList;
    waits := [];
    var relatedEvents: seq<nat>, returnedEvents: seq<nat> := [], [];
    var prevTime: int := 0;
    for v := 0 to |time|
      invariant prevTime == PrevTime(time, v)
      invariant |waits| == v && forall u :: 0 <= u < v ==> waits[u] == WaitList(time, u)
      invariant returnedEvents == if v == 0 then [] else Range(RunStart(time, v - 1), v)
      invariant relatedEvents == if v == 0 then [] else WaitList(time, v - 1)
    {
      if time[v] == prevTime {
        SameRun(time, v);
        waits := waits + [relatedEvents];
        returnedEvents := returnedEvents + [v];
      } else {
        relatedEvents := returnedEvents;
        returnedEvents := [];
        NewRun(time, v);
        waits := waits + [relatedEvents];
        returnedEvents := returnedEvents + [v];
        prevTime := ToShort(time[v]);
      }
    }
  }

  lemma SameRun(time: seq<nat>, v: nat)
    requires v < |time| && time[v] == PrevTime(time, v)
    ensures WaitList(time, v) == if v == 0 then [] else WaitList(time, v - 1)
    ensures RunStart(time, v) == (if v == 0 then 0 else RunStart(time, v - 1))
    ensures Range(RunStart(time, v), v + 1) == (if v == 0 then [] else Range(RunStart(time, v - 1), v)) + [v]
  {
    hide ToShort, WaitList;
    SameStart(time, v);
    SameWait(time, v);
  }

  lemma SameStart(time: seq<nat>, v: nat)
    requires v < |time| && time[v] == PrevTime(time, v)
    ensures RunStart(time, v) == (if v == 0 then 0 else RunStart(time, v - 1))
  {}

  lemma SameWait(time: seq<nat>, v: nat)
    requires v < |time| && RunStart(time, v) == (if v == 0 then 0 else RunStart(time, v - 1))
    ensures WaitList(time, v) == if v == 0 then [] else WaitList(time, v - 1)
  {
    hide RunStart, Range;
  }

  lemma NewRun(time: seq<nat>, v: nat)
    requires v < |time| && time[v] != PrevTime(time, v)
    ensures RunStart(time, v) == v
    ensures WaitList(time, v) == if v == 0 then [] else Range(RunStart(time, v - 1), v)
    ensures Range(RunStart(time, v), v + 1) == [v]
  {
    hide ToShort, PrevTime, Range;
    OneVertex(v);
  }

  lemma OneVertex(v: nat)
    ensures Range(v, v + 1) == [v]
  {}

  // ---- waiting, directly or transitively

  /** Kernel v starts only after kernel u has ended. */
  ghost predicate After(waits: seq<seq<nat>>, u: nat, v: nat)
    requires v < |waits| && WaitsBack(waits)
    decreases v
  {
    exists k {:trigger waits[v][k]} :: 0 <= k < |waits[v]| && (waits[v][k] == u || After(waits, u, waits[v][k]))
  }

  /** Every wait is for an earlier vertex, so there is no cycle of waits. */
  ghost predicate WaitsBack(waits: seq<seq<nat>>) {
    forall v, k {:trigger waits[v][k]} :: 0 <= v < |waits| && 0 <= k < |waits[v]| ==> waits[v][k] < v
  }

  ghost predicate Queued(time: seq<nat>, waits: seq<seq<nat>>) {
    |waits| == |time| && forall v {:trigger waits[v]} :: 0 <= v < |time| ==> waits[v] == WaitList(time, v)
  }

  lemma NoCyclicWaits(time: seq<nat>, waits: seq<seq<nat>>)
    requires Queued(time, waits)
    ensures WaitsBack(waits)
  {}

  /** Along a run, the remembered level is that of the run's first vertex. */
  lemma {:induction false} RunIsOneLevel(time: seq<nat>, v: nat)
    requires v < |time|
    ensures PrevTime(time, v + 1) == (if time[RunStart(time, v)] == PrevTime(time, RunStart(time, v))
            then PrevTime(time, RunStart(time, v)) else ToShort(time[RunStart(time, v)]))
    ensures RunStart(time, v) < v ==> time[v] == PrevTime(time, v + 1)
  {
    hide ToShort;
    if v > 0 && time[v] == PrevTime(time, v) { RunIsOneLevel(time, v - 1); }
  }

  lemma {:induction false} RunsGrow(time: seq<nat>, u: nat, v: nat)
    requires u <= v < |time|
    ensures RunStart(time, u) <= RunStart(time, v)
    ensures RunStart(time, v) <= u ==> RunStart(time, u) == RunStart(time, v)
  {
    if u < v { RunsGrow(time, u, v - 1); }
  }

  lemma ShortIsSmaller(t: nat)
    ensures ToShort(t) <= t
  {}

  /** A later vertex of a run never has a higher level than an earlier one, even when the 16-bit copy
      of the level wraps around. */
  lemma RunLevels(time: seq<nat>, u: nat, v: nat)
    requires u < v < |time| && RunStart(time, v) <= u
    ensures time[v] <= time[u]
  {
    hide ToShort;
    var r := RunStart(time, v);
    RunsGrow(time, u, v);
    RunIsOneLevel(time, v);
    RunIsOneLevel(time, u);
    ShortIsSmaller(time[r]);
  }

  /** A kernel is after exactly the kernels of all earlier runs. */
  lemma {:induction false} AfterIsEarlierRun(time: seq<nat>, waits: seq<seq<nat>>, u: nat, v: nat)
    requires Queued(time, waits) && v < |time| && WaitsBack(waits)
    ensures After(waits, u, v) <==> u < RunStart(time, v)
    decreases v
  {
    hide RunStart, Range;
    var r := RunStart(time, v);
    assert waits[v] == WaitList(time, v);
    forall k | 0 <= k < |waits[v]|
      ensures waits[v][k] < r && (After(waits, u, waits[v][k]) <==> u < RunStart(time, r - 1))
    {
      var w := waits[v][k];
      InRange(time, r, k);
      AfterIsEarlierRun(time, waits, u, w);
      RunsGrow(time, w, r - 1);
    }
    if u < r {
      if u < RunStart(time, r - 1) {
        assert waits[v][0] < r;
      } else {
        assert waits[v][u - RunStart(time, r - 1)] == u;
      }
    }
  }

  lemma InRange(time: seq<nat>, r: nat, k: nat)
    requires 0 < r <= |time| && k < |Range(RunStart(time, r - 1), r)|
    ensures RunStart(time, r - 1) <= Range(RunStart(time, r - 1), r)[k] <= r - 1
  {}

  // ---- what runs together

  /** The level changes somewhere from vertex u to vertex v. */
  ghost predicate LevelChanges(time: seq<nat>, u: nat, v: nat)
    requires u <= v < |time|
  {
    exists w {:trigger time[w]} :: u < w <= v && time[w] != time[w - 1]
  }

  /** The levels from vertex u to vertex v fit into the 16-bit copy. */
  ghost predicate FitShort(time: seq<nat>, u: nat, v: nat)
    requires u <= v < |time|
  {
    forall w :: u <= w <= v ==> time[w] < 0x8000
  }

  lemma ShortIsExact(t: nat)
    requires t < 0x8000
    ensures ToShort(t) == t
  {}

  /** Behind a level that fits, a new run begins exactly where the level changes. */
  lemma RunAfter(time: seq<nat>, v: nat)
    requires 0 < v < |time| && time[v - 1] < 0x8000
    ensures RunStart(time, v) == if time[v] == time[v - 1] then RunStart(time, v - 1) else v
  {
    ShortIsExact(time[v - 1]);
  }

  lemma {:induction false} RunStartIs(time: seq<nat>, u: nat, v: nat)
    requires u <= v < |time| && FitShort(time, u, v)
    ensures u < RunStart(time, v) <==> LevelChanges(time, u, v)
  {
    hide RunStart;
    StartBound(time, u);
    if u < v {
      RunStartIs(time, u, v - 1);
      RunAfter(time, v);
      if LevelChanges(time, u, v) && time[v] == time[v - 1] {
        var w :| u < w <= v && time[w] != time[w - 1];
        assert LevelChanges(time, u, v - 1);
      }
    }
  }

  lemma StartBound(time: seq<nat>, v: nat)
    requires v < |time|
    ensures RunStart(time, v) <= v
  {}

  /** Of two kernels, the later starts after the earlier exactly if the level changes between them: kernels
      of one level may run at the same time, and kernels of different levels may not. */
  lemma AfterIffLevelChanges(time: seq<nat>, waits: seq<seq<nat>>, u: nat, v: nat)
    requires Queued(time, waits) && WaitsBack(waits) && u <= v < |time| && FitShort(time, u, v)
    ensures After(waits, u, v) <==> LevelChanges(time, u, v)
  {
    hide After, RunStart, Queued, WaitsBack;
    AfterIsEarlierRun(time, waits, u, v);
    RunStartIs(time, u, v);
  }

  lemma PrevTimeIsShort(time: seq<nat>, v: nat)
    requires 0 < v <= |time|
    ensures PrevTime(time, v) == ToShort(time[v - 1]) && -0x8000 <= PrevTime(time, v) < 0x8000
  {
    if v > 1 { PrevTimeIsShort(time, v - 1); }
    if time[v - 1] < 0x8000 { ShortIsExact(time[v - 1]); }
  }

  /** For levels of any size: a kernel may run with the one before it exactly if its level fits into 16 bits
      and the two levels have the same lower 16 bits. */
  lemma TogetherIff(time: seq<nat>, waits: seq<seq<nat>>, v: nat)
    requires Queued(time, waits) && WaitsBack(waits) && 0 < v < |time|
    ensures After(waits, v - 1, v) <==> time[v] >= 0x8000 || time[v - 1] % 0x1_0000 != time[v] % 0x1_0000
  {
    hide After, Queued, WaitsBack, PrevTime;
    AfterIsEarlierRun(time, waits, v - 1, v);
    PrevTimeIsShort(time, v);
    StartBound(time, v - 1);
  }

  /** Consecutive kernels of one level are queued with the same wait list. */
  lemma OneLevelOneList(time: seq<nat>, waits: seq<seq<nat>>, u: nat, v: nat)
    requires Queued(time, waits) && u <= v < |time| && FitShort(time, u, v) && !LevelChanges(time, u, v)
    ensures waits[u] == waits[v]
  {
    hide RunStart, Range;
    RunStartIs(time, u, v);
    RunsGrow(time, u, v);
  }

  /** Some kernel starts after kernel u, and kernel v after it. */
  ghost predicate Between(waits: seq<seq<nat>>, u: nat, v: nat)
    requires v < |waits| && WaitsBack(waits)
  {
    exists w: nat :: w < v && After(waits, u, w) && After(waits, w, v)
  }

  /** A wait list names, in ascending order, the kernels that its kernel has to be after with no other in
      between. */
  lemma WaitsAreDirect(time: seq<nat>, waits: seq<seq<nat>>, v: nat)
    requires Queued(time, waits) && WaitsBack(waits) && v < |time|
    ensures |waits| == |time| && forall i, j :: 0 <= i < j < |waits[v]| ==> waits[v][i] < waits[v][j]
    ensures forall u: nat :: u in waits[v] <==> After(waits, u, v) && !Between(waits, u, v)
  {
    hide RunStart, After, Between, Range, WaitsBack;
    forall u: nat
      ensures u in waits[v] <==> After(waits, u, v) && !Between(waits, u, v)
    {
      AfterIsEarlierRun(time, waits, u, v);
      InWaitList(time, u, v);
      BetweenIs(time, waits, u, v);
    }
    assert waits[v] == WaitList(time, v);
  }

  lemma InWaitList(time: seq<nat>, u: nat, v: nat)
    requires v < |time|
    ensures u in WaitList(time, v) <==>
            u < RunStart(time, v) && RunStart(time, RunStart(time, v) - 1) <= u
  {
    hide RunStart, Range;
    StartBound(time, v);
    var r := RunStart(time, v);
    if r > 0 { InList(RunStart(time, r - 1), r, u); }
  }

  lemma BetweenIs(time: seq<nat>, waits: seq<seq<nat>>, u: nat, v: nat)
    requires Queued(time, waits) && WaitsBack(waits) && v < |time|
    ensures |waits| == |time|
    ensures Between(waits, u, v) <==> RunStart(time, v) > 0 && u < RunStart(time, RunStart(time, v) - 1)
  {
    hide RunStart, After, Range, WaitsBack, WaitList;
    var r := RunStart(time, v);
    StartBound(time, v);
    if r > 0 && u < RunStart(time, r - 1) {
      AfterIsEarlierRun(time, waits, u, r - 1);
      AfterIsEarlierRun(time, waits, r - 1, v);
    } else if Between(waits, u, v) {
      var w: nat :| w < v && After(waits, u, w) && After(waits, w, v);
      AfterIsEarlierRun(time, waits, u, w);
      AfterIsEarlierRun(time, waits, w, v);
      RunsGrow(time, w, r - 1);
    }
  }

  lemma InList(a: nat, b: nat, u: nat)
    ensures u in Range(a, b) <==> a <= u < b
  {
    if a <= u < b { assert Range(a, b)[u - a] == u; }
  }

  /** An edge is respected, the target being after the source, exactly when the source has the smaller
      vertex number. */
  lemma EdgeRespectedIff(g: Graph, order: seq<nat>, time: seq<nat>, waits: seq<seq<nat>>, e: nat)
    requires g.Ok() && Topological(g, order) && |time| == g.n && e < |g.edges| && Queued(time, waits)
             && WaitsBack(waits)
    requires forall k :: 0 <= k < |order| ==> LevelOk(g, order, time, k)
    ensures After(waits, g.edges[e].0, g.edges[e].1) <==> g.edges[e].0 < g.edges[e].1
  {
    hide After, RunStart, LevelOk, Queued, WaitsBack, Topological;
    var u, v := g.edges[e].0, g.edges[e].1;
    SameLength(time, waits);
    LevelsIncrease(g, order, time, e);
    AfterIsEarlierRun(time, waits, u, v);
    if u < v && RunStart(time, v) <= u {
      RunLevels(time, u, v);
    }
  }

  lemma SameLength(time: seq<nat>, waits: seq<seq<nat>>)
    requires Queued(time, waits)
    ensures |waits| == |time|
  {}

  // ---- a graph whose edge is not respected: its only edge leads from vertex 1 to vertex 0

  const BACKWARD: Graph := Graph(2, [(1, 0)])

  lemma BackwardIsOk()
    ensures BACKWARD.Ok() && Topological(BACKWARD, [1, 0])
  {
    var order: seq<nat> := [1, 0];
    assert order[1] == 0 && order[0] == 1;
  }

  lemma BackwardLevels()
    ensures OrderOk(BACKWARD, [1, 0])
    ensures LevelOk(BACKWARD, [1, 0], [1, 0], 0) && LevelOk(BACKWARD, [1, 0], [1, 0], 1)
  {
    var g, order, time := BACKWARD, [1, 0], [1, 0];
    assert g.edges[0] == (1, 0);
    assert Into(g, order, 0, 2) by {
      assert order[..2][1] == 0;
    }
  }

  lemma BackwardWaits()
    ensures Queued([1, 0], [[], [0]]) && WaitsBack([[], [0]])
    ensures RunStart([1, 0], 0) == 0 && RunStart([1, 0], 1) == 1
  {
    var time: seq<nat> := [1, 0];
    assert PrevTime(time, 0) == 0;
    assert PrevTime(time, 1) == 1;
    assert Range(0, 1) == [0];
  }

  /** The source of the edge even starts after its target. */
  lemma TargetFirst() returns (g: Graph, order: seq<nat>, time: seq<nat>, waits: seq<seq<nat>>)
    ensures g == Graph(2, [(1, 0)]) && order == [1, 0] && time == [1, 0] && waits == [[], [0]]
    ensures g.Ok() && Topological(g, order) && Queued(time, waits) && WaitsBack(waits)
    ensures forall k :: 0 <= k < |order| ==> LevelOk(g, order, time, k)
    ensures !After(waits, 1, 0) && After(waits, 0, 1)
  {
    hide After, RunStart, LevelOk, Queued, WaitsBack, Topological;
    g, order, time, waits := BACKWARD, [1, 0], [1, 0], [[], [0]];
    BackwardIsOk();
    BackwardLevels();
    BackwardWaits();
    AfterIsEarlierRun(time, waits, 1, 0);
    AfterIsEarlierRun(time, waits, 0, 1);
  }

  /** The vertices are numbered in topological order. */
  ghost predicate Numbered(g: Graph) {
    forall e :: 0 <= e < |g.edges| ==> g.edges[e].0 < g.edges[e].1
  }

  /** A path of edges. */
  ghost predicate Path(g: Graph, path: seq<nat>) {
    |path| > 0 && forall i {:trigger path[i]} :: 0 <= i < |path| - 1 ==> (path[i], path[i + 1]) in g.edges
  }

  /** With vertices numbered in topological order, every kernel starts after all its ancestors. */
  lemma {:induction false} AncestorsFirst(g: Graph, order: seq<nat>, time: seq<nat>, waits: seq<seq<nat>>,
      path: seq<nat>)
    requires g.Ok() && Topological(g, order) && |time| == g.n && Queued(time, waits) && WaitsBack(waits)
    requires forall k :: 0 <= k < |order| ==> LevelOk(g, order, time, k)
    requires Numbered(g) && Path(g, path) && |path| > 1 && path[|path| - 1] < g.n
    ensures After(waits, path[0], path[|path| - 1])
  {
    hide After, RunStart, LevelOk, Queued, WaitsBack, Topological;
    var n := |path| - 1;
    SameLength(time, waits);
    assert (path[n - 1], path[n - 1 + 1]) in g.edges;
    var e :| 0 <= e < |g.edges| && g.edges[e] == (path[n - 1], path[n]);
    EdgeRespectedIff(g, order, time, waits, e);
    AfterIsEarlierRun(time, waits, path[n - 1], path[n]);
    if n > 1 {
      assert Path(g, path[..n]) by { PathPrefix(g, path); }
      AncestorsFirst(g, order, time, waits, path[..n]);
      AfterIsEarlierRun(time, waits, path[0], path[n - 1]);
      RunsGrow(time, path[n - 1], path[n]);
      AfterIsEarlierRun(time, waits, path[0], path[n]);
    }
  }

  lemma PathPrefix(g: Graph, path: seq<nat>)
    requires Path(g, path) && |path| > 1
    ensures Path(g, path[..|path| - 1])
  {
    var p := path[..|path| - 1];
    forall i | 0 <= i < |p| - 1
      ensures (p[i], p[i + 1]) in g.edges
    {
      assert p[i] == path[i] && p[i + 1] == path[i + 1];
    }
  }

  /** Levels and wait lists of one graph. */
  method ExecuteGraph(g: Graph, order: seq<nat>) returns (time: seq<nat>, waits: seq<seq<nat>>)
    requires g.Ok() && Topological(g, order)
    ensures |time| == |waits| == g.n && WaitsBack(waits)
    ensures forall e :: 0 <= e < |g.edges| ==>
      && time[g.edges[e].0] < time[g.edges[e].1]
      && (After(waits, g.edges[e].0, g.edges[e].1) <==> g.edges[e].0 < g.edges[e].1)
    ensures forall u: nat, v: nat ::
      u <= v < g.n && FitShort(time, u, v) ==> (After(waits, u, v) <==> LevelChanges(time, u, v))
    ensures forall u: nat, v: nat ::
      u <= v < g.n && FitShort(time, u, v) && !LevelChanges(time, u, v) ==> waits[u] == waits[v]
    ensures forall u: nat, v: nat {:trigger u in waits[v]} ::
      v < g.n ==> (u in waits[v] <==> After(waits, u, v) && !Between(waits, u, v))
  {
    hide LevelOk, Topological, After, WaitList, WaitsBack, FitShort, LevelChanges, Between;
    time := Levels(g, order);
    waits := Queue(time);
    NoCyclicWaits(time, waits);
    forall e | 0 <= e < |g.edges|
      ensures time[g.edges[e].0] < time[g.edges[e].1]
      ensures After(waits, g.edges[e].0, g.edges[e].1) <==> g.edges[e].0 < g.edges[e].1
    {
      LevelsIncrease(g, order, time, e);
      EdgeRespectedIff(g, order, time, waits, e);
    }
    forall u: nat, v: nat | u <= v < g.n && FitShort(time, u, v)
      ensures After(waits, u, v) <==> LevelChanges(time, u, v)
      ensures !LevelChanges(time, u, v) ==> waits[u] == waits[v]
    {
      AfterIffLevelChanges(time, waits, u, v);
      if !LevelChanges(time, u, v) { OneLevelOneList(time, waits, u, v); }
    }
    forall v: nat | v < g.n { WaitsAreDirect(time, waits, v); }
  }
}
