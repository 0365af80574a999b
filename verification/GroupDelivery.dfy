/** The second phase of the vectorised aggregation, run by any number of workers: they claim partitions
    from a shared counter, aggregate what they claimed, and return its groups block by block, one block
    for each call of next. */
module GroupDelivery {

  import opened GroupFold
  import opened PartitionedDeque
  import opened Words
  import GB = GroupBy

  /** The spilled partitions of all workers, and how to aggregate. */
  datatype Env<!K, !V> = Env(ps: seq<GB.Partitions<K, V>>, exp: nat, g: Agg<V>, h: K -> nat) {
    /** Number of partitions. */
    function Count(): nat { Shift(exp) }
  }

  ghost predicate EnvOk<K(!new), V(!new)>(e: Env<K, V>) {
    e.exp <= 64 && GB.AllSpillOk(e.ps, e.exp, e.h) && CommutativeMonoid(e.g) && GB.Hash64(e.h)
  }

  /** One entry for each key of partition p over all workers, with the fold of its values. */
  ghost predicate IsTable<K(!new), V(!new)>(e: Env<K, V>, p: nat, table: Rows<K, V>) {
    && EnvOk(e) && p < e.Count() && OneEntryPerKey(table) && GB.Hashed(table, e.h)
    && (forall d :: 0 <= d < |e.ps| ==> p < |e.ps[d]|)
    && Same(table, GB.PartitionRows(e.ps, p), e.g)
  }

  // ---- one worker

  /** Before its first claim, with a partition to aggregate, with groups to return, or at the end of its
      stream. */
  datatype Worker<!K, !V> = Start | Claimed(p: nat) | Sending(p: nat, table: Rows<K, V>, sent: nat) | Done

  datatype Move<!K, !V> = Claim(ticket: nat) | Aggregate(table: Rows<K, V>) | Send(n: nat)

  ghost predicate Moves<K(!new), V(!new)>(e: Env<K, V>, w: Worker<K, V>, move: Move<K, V>, w': Worker<K, V>) {
    match move
    case Claim(k) =>
      (w.Start? || (w.Sending? && w.sent == |w.table|)) && w' == if k < e.Count() then Claimed(k) else Done
    case Aggregate(table) => w.Claimed? && IsTable(e, w.p, table) && w' == Sending(w.p, table, 0)
    case Send(n) => w.Sending? && 0 < n && w.sent + n <= |w.table| && w' == w.(sent := w.sent + n)
  }

  /** The groups a move returns. */
  function Output<K, V>(w: Worker<K, V>, move: Move<K, V>): Rows<K, V> {
    if move.Send? && w.Sending? && w.sent + move.n <= |w.table| then w.table[w.sent..w.sent + move.n] else []
  }

  /** Moves one after the other, and where the worker stands in between. */
  datatype Trace<!K, !V> = Trace(path: seq<Worker<K, V>>, moves: seq<Move<K, V>>)

  /** The moves lead from w to w' without returning groups; the claims took increasing numbers from lo..hi. */
  ghost predicate Leads<K(!new), V(!new)>(e: Env<K, V>, tr: Trace<K, V>, w: Worker<K, V>, w': Worker<K, V>, lo: nat,
      hi: nat) {
    var path, moves := tr.path, tr.moves;
    && |path| == |moves| + 1 && path[0] == w && path[|moves|] == w' && lo <= hi
    && (forall i {:trigger moves[i]} ::
        0 <= i < |moves| ==> !moves[i].Send? && Moves(e, path[i], moves[i], path[i + 1]))
    && (forall i {:trigger moves[i]} :: 0 <= i < |moves| && moves[i].Claim? ==> lo <= moves[i].ticket < hi)
    && (forall i, j :: 0 <= i < j < |moves| && moves[i].Claim? && moves[j].Claim? ==> moves[i].ticket < moves[j].ticket)
  }

  lemma NoMoves<K(!new), V(!new)>(e: Env<K, V>, w: Worker<K, V>, lo: nat)
    ensures Leads(e, Trace([w], []), w, w, lo, lo)
  {}

  function Add<K, V>(tr: Trace<K, V>, move: Move<K, V>, w: Worker<K, V>): Trace<K, V> {
    Trace(tr.path + [w], tr.moves + [move])
  }

  /** One more move. */
  lemma Grow<K(!new), V(!new)>(e: Env<K, V>, tr: Trace<K, V>, w: Worker<K, V>, w': Worker<K, V>, lo: nat, hi: nat,
                               move: Move<K, V>, w'': Worker<K, V>, hi': nat)
    requires Leads(e, tr, w, w', lo, hi) && Moves(e, w', move, w'') && !move.Send?
    requires hi <= hi' && (move.Claim? ==> hi <= move.ticket < hi')
    ensures Leads(e, Add(tr, move, w''), w, w'', lo, hi')
  {
    hide Moves;
    var path', moves' := tr.path + [w''], tr.moves + [move];
    forall i {:trigger moves'[i]} | 0 <= i < |moves'|
      ensures !moves'[i].Send? && Moves(e, path'[i], moves'[i], path'[i + 1])
    {
      if i < |tr.moves| { assert tr.moves[i] == moves'[i]; }
    }
  }

  // ---- all workers

  /** The shared counter, the workers, all groups returned so far, and for the proof: the table of every
      aggregated partition, how much of it was returned, and which of its entries each returned group is. */
  datatype System<!K, !V> = System(
    counter: nat, workers: seq<Worker<K, V>>, out: Rows<K, V>,
    tables: map<nat, Rows<K, V>>, sent: map<nat, nat>, log: seq<(nat, nat)>)

  ghost predicate Init<K, V>(s: System<K, V>) {
    && s.counter == 0 && s.out == [] && s.log == [] && s.tables == map[] && s.sent == map[] && |s.workers| > 0
    && forall t :: 0 <= t < |s.workers| ==> s.workers[t] == Start
  }

  /** Entries a..b of partition p. */
  function Entries(p: nat, a: nat, n: nat): (r: seq<(nat, nat)>)
    ensures |r| == n && forall i {:trigger r[i]} :: 0 <= i < n ==> r[i] == (p, a + i)
  {
    seq(n, i requires 0 <= i < n => (p, a + i))
  }

  /** Worker t moves; a claim takes the number the counter shows. */
  ghost predicate Step<K(!new), V(!new)>(e: Env<K, V>, s: System<K, V>, s': System<K, V>, t: nat, move: Move<K, V>) {
    && t < |s.workers| == |s'.workers|
    && var w, w' := s.workers[t], s'.workers[t];
       && Moves(e, w, move, w') && s'.workers == s.workers[t := w'] && s'.out == s.out + Output(w, move)
       && match move
          case Claim(k) => k == s.counter && s' == s.(counter := k + 1, workers := s'.workers, out := s'.out)
          case Aggregate(table) =>
            s' == s.(workers := s'.workers, out := s'.out, tables := s.tables[w.p := table], sent := s.sent[w.p := 0])
          case Send(n) =>
            s' == s.(workers := s'.workers, out := s'.out, sent := s.sent[w.p := w.sent + n],
                log := s.log + Entries(w.p, w.sent, n))
  }

  predicate IsAt<K, V>(w: Worker<K, V>, p: nat) { (w.Claimed? || w.Sending?) && w.p == p }

  ghost predicate WorkerOk<K, V>(e: Env<K, V>, s: System<K, V>, t: nat)
    requires t < |s.workers|
  {
    match s.workers[t]
    case Start => true
    case Claimed(p) => p < e.Count() && p < s.counter && p !in s.tables
    case Sending(p, table, sent) =>
      && p < e.Count() && p < s.counter && p in s.tables && s.tables[p] == table
      && p in s.sent && s.sent[p] == sent <= |table|
    case Done => s.counter >= e.Count()
  }

  /** Two workers are never at one partition. */
  ghost predicate Apart<K, V>(s: System<K, V>, t: nat, u: nat)
    requires t < |s.workers| && u < |s.workers|
  {
    forall p :: !(IsAt(s.workers[t], p) && IsAt(s.workers[u], p))
  }

  /** A claimed partition is at a worker or has been returned completely. */
  ghost predicate PartOk<K, V>(s: System<K, V>, p: nat) {
    || (exists t {:trigger s.workers[t]} :: 0 <= t < |s.workers| && IsAt(s.workers[t], p))
    || (p in s.tables && p in s.sent && s.sent[p] == |s.tables[p]|)
  }

  ghost predicate TableOk<K(!new), V(!new)>(e: Env<K, V>, s: System<K, V>, p: nat)
    requires p in s.tables
  {
    && p < s.counter && p in s.sent && s.sent[p] <= |s.tables[p]| && IsTable(e, p, s.tables[p])
    && forall j {:trigger (p, j)} :: 0 <= j < s.sent[p] ==> (p, j) in s.log
  }

  /** The i-th returned group is the entry it was logged as. */
  ghost predicate GroupOk<K, V>(s: System<K, V>, i: nat)
    requires i < |s.log| == |s.out|
  {
    var (p, j) := s.log[i];
    p in s.tables && p in s.sent && j < s.sent[p] <= |s.tables[p]| && s.out[i] == s.tables[p][j]
  }

  ghost predicate Inv<K(!new), V(!new)>(e: Env<K, V>, s: System<K, V>) {
    && EnvOk(e) && |s.workers| > 0 && |s.log| == |s.out|
    && (forall t {:trigger WorkerOk(e, s, t)} :: 0 <= t < |s.workers| ==> WorkerOk(e, s, t))
    && (forall t, u {:trigger Apart(s, t, u)} ::
        0 <= t < |s.workers| && 0 <= u < |s.workers| && t != u ==> Apart(s, t, u))
    && (forall p: nat {:trigger PartOk(s, p)} :: p < e.Count() && p < s.counter ==> PartOk(s, p))
    && (forall p {:trigger TableOk(e, s, p)} :: p in s.tables ==> TableOk(e, s, p))
    && (forall i {:trigger GroupOk(s, i)} :: 0 <= i < |s.log| ==> GroupOk(s, i))
    && (forall i, j :: 0 <= i < j < |s.log| ==> s.log[i] != s.log[j])
  }

  lemma InitInv<K(!new), V(!new)>(e: Env<K, V>, s: System<K, V>)
    requires EnvOk(e) && Init(s)
    ensures Inv(e, s)
  {}

  // ---- what a move keeps

  /** What the workers that do not move know stays true. */
  lemma OtherWorker<K(!new), V(!new)>(e: Env<K, V>, s: System<K, V>, s': System<K, V>, t: nat, move: Move<K, V>, u: nat)
    requires Inv(e, s) && Step(e, s, s', t, move) && u < |s.workers| && u != t
    ensures WorkerOk(e, s', u) && Apart(s', t, u) && Apart(s', u, t)
  {
    hide IsTable, PartOk, GroupOk, TableOk;
    assert WorkerOk(e, s, u) && WorkerOk(e, s, t) && Apart(s, t, u);
    var w, x := s.workers[t], s.workers[u];
    if x.Claimed? || x.Sending? {
      assert IsAt(x, x.p);
      assert w.Claimed? || w.Sending? ==> w.p != x.p;
    }
  }

  lemma OwnWorker<K(!new), V(!new)>(e: Env<K, V>, s: System<K, V>, s': System<K, V>, t: nat, move: Move<K, V>)
    requires Inv(e, s) && Step(e, s, s', t, move)
    ensures WorkerOk(e, s', t)
  {
    hide IsTable, PartOk, GroupOk, Apart;
    assert WorkerOk(e, s, t);
    if move.Claim? && s.counter in s.tables { TableIsClaimed(e, s, s.counter); }
  }

  lemma TableIsClaimed<K(!new), V(!new)>(e: Env<K, V>, s: System<K, V>, p: nat)
    requires Inv(e, s) && p in s.tables
    ensures p < s.counter
  {
    hide IsTable, PartOk, GroupOk, Apart;
    assert TableOk(e, s, p);
  }

  lemma WorkersStay<K(!new), V(!new)>(e: Env<K, V>, s: System<K, V>, s': System<K, V>, t: nat, move: Move<K, V>)
    requires Inv(e, s) && Step(e, s, s', t, move)
    ensures forall u {:trigger WorkerOk(e, s', u)} :: 0 <= u < |s'.workers| ==> WorkerOk(e, s', u)
    ensures forall u, v {:trigger Apart(s', u, v)} ::
            0 <= u < |s'.workers| && 0 <= v < |s'.workers| && u != v ==> Apart(s', u, v)
  {
    hide IsTable, PartOk, GroupOk, TableOk, WorkerOk, Moves;
    OwnWorker(e, s, s', t, move);
    forall u {:trigger WorkerOk(e, s', u)} | 0 <= u < |s'.workers|
      ensures WorkerOk(e, s', u)
    {
      if u != t { OtherWorker(e, s, s', t, move, u); }
    }
    forall u, v {:trigger Apart(s', u, v)} | 0 <= u < |s'.workers| && 0 <= v < |s'.workers| && u != v
      ensures Apart(s', u, v)
    {
      if u == t {
        OtherWorker(e, s, s', t, move, v);
      } else if v == t {
        OtherWorker(e, s, s', t, move, u);
      } else {
        assert Apart(s, u, v);
      }
    }
  }

  lemma PartsStay<K(!new), V(!new)>(e: Env<K, V>, s: System<K, V>, s': System<K, V>, t: nat, move: Move<K, V>, p: nat)
    requires Inv(e, s) && Step(e, s, s', t, move) && p < e.Count() && p < s'.counter
    ensures PartOk(s', p)
  {
    hide IsTable, GroupOk, TableOk, Apart;
    assert WorkerOk(e, s, t);
    if move.Claim? && p == s.counter {
      assert IsAt(s'.workers[t], p);
    } else {
      assert PartOk(s, p);
      if u :| 0 <= u < |s.workers| && IsAt(s.workers[u], p) {
        assert u != t ==> IsAt(s'.workers[u], p);
        assert move.Claim? || IsAt(s'.workers[t], s.workers[t].p);
      }
    }
  }

  lemma TablesStay<K(!new), V(!new)>(e: Env<K, V>, s: System<K, V>, s': System<K, V>, t: nat, move: Move<K, V>, p: nat)
    requires Inv(e, s) && Step(e, s, s', t, move) && p in s'.tables
    ensures TableOk(e, s', p)
  {
    hide IsTable, PartOk, GroupOk, Apart;
    assert WorkerOk(e, s, t);
    if p in s.tables { assert TableOk(e, s, p); }
    if move.Send? && p == s.workers[t].p {
      var sent := s.workers[t].sent;
      forall j {:trigger (p, j)} | 0 <= j < s'.sent[p]
        ensures (p, j) in s'.log
      {
        if j >= sent { assert Entries(p, sent, move.n)[j - sent] == (p, j); }
      }
    }
  }

  lemma GroupsStay<K(!new), V(!new)>(e: Env<K, V>, s: System<K, V>, s': System<K, V>, t: nat, move: Move<K, V>, i: nat)
    requires Inv(e, s) && Step(e, s, s', t, move) && i < |s'.log|
    ensures |s'.log| == |s'.out| && GroupOk(s', i)
  {
    hide IsTable, PartOk, Apart, TableOk;
    assert WorkerOk(e, s, t);
    if i < |s.log| { assert GroupOk(s, i); }
  }

  lemma LogStays<K(!new), V(!new)>(e: Env<K, V>, s: System<K, V>, s': System<K, V>, t: nat, move: Move<K, V>)
    requires Inv(e, s) && Step(e, s, s', t, move)
    ensures forall i, j :: 0 <= i < j < |s'.log| ==> s'.log[i] != s'.log[j]
  {
    hide IsTable, PartOk, Apart, TableOk;
    assert WorkerOk(e, s, t);
    forall i, j | 0 <= i < j < |s'.log|
      ensures s'.log[i] != s'.log[j]
    {
      if i < |s.log| { assert GroupOk(s, i); }
    }
  }

  lemma StepKeepsInv<K(!new), V(!new)>(e: Env<K, V>, s: System<K, V>, s': System<K, V>, t: nat, move: Move<K, V>)
    requires Inv(e, s) && Step(e, s, s', t, move)
    ensures Inv(e, s')
  {
    hide IsTable, PartOk, Apart, TableOk, GroupOk, WorkerOk, Step;
    WorkersStay(e, s, s', t, move);
    SameNumber(e, s, s', t, move);
    forall p: nat {:trigger PartOk(s', p)} | p < e.Count() && p < s'.counter
      ensures PartOk(s', p)
    {
      PartsStay(e, s, s', t, move, p);
    }
    forall p {:trigger TableOk(e, s', p)} | p in s'.tables
      ensures TableOk(e, s', p)
    {
      TablesStay(e, s, s', t, move, p);
    }
    forall i {:trigger GroupOk(s', i)} | 0 <= i < |s'.log|
      ensures GroupOk(s', i)
    {
      GroupsStay(e, s, s', t, move, i);
    }
    LogStays(e, s, s', t, move);
  }

  lemma SameNumber<K(!new), V(!new)>(e: Env<K, V>, s: System<K, V>, s': System<K, V>, t: nat, move: Move<K, V>)
    requires Inv(e, s) && Step(e, s, s', t, move)
    ensures |s'.workers| == |s.workers| && |s'.log| == |s'.out|
  {
    hide IsTable, PartOk, Apart, TableOk, GroupOk;
    assert WorkerOk(e, s, t);
  }

  ghost predicate IsRun<K(!new), V(!new)>(e: Env<K, V>, run: seq<System<K, V>>, who: seq<nat>, moves: seq<Move<K, V>>) {
    && |run| == |who| + 1 == |moves| + 1 && Init(run[0])
    && forall i :: 0 <= i < |who| ==> Step(e, run[i], run[i + 1], who[i], moves[i])
  }

  lemma {:induction false} RunKeepsInv<K(!new), V(!new)>(e: Env<K, V>, run: seq<System<K, V>>, who: seq<nat>,
      moves: seq<Move<K, V>>, n: nat)
    requires EnvOk(e) && IsRun(e, run, who, moves) && n < |run|
    ensures Inv(e, run[n])
  {
    hide Step, Inv;
    if n == 0 {
      InitInv(e, run[0]);
    } else {
      RunKeepsInv(e, run, who, moves, n - 1);
      StepKeepsInv(e, run[n - 1], run[n], who[n - 1], moves[n - 1]);
    }
  }

  // ---- what is returned

  /** Every returned group belongs to its partition and holds the fold of all values of its key. */
  lemma GroupIsRight<K(!new), V(!new)>(e: Env<K, V>, s: System<K, V>, i: nat)
    requires Inv(e, s) && i < |s.out|
    ensures PartitionOf(s.out[i].0, e.exp) == s.log[i].0 && s.out[i].0 == e.h(s.out[i].1)
    ensures s.out[i].2 == GroupFold.Fold(GB.AllDeques(e.ps), s.out[i].1, e.g)
  {
    hide PartitionOf, GroupFold.Fold, Same, PartOk, WorkerOk, Apart, CommutativeMonoid, GB.AllSpillOk;
    assert GroupOk(s, i);
    var (p, j) := s.log[i];
    assert TableOk(e, s, p);
    GB.AggregateOk(s.tables[p], e.ps, e.exp, p, j, e.g, e.h);
  }

  /** At any time, whatever was returned so far: no key twice, and only final aggregates. */
  lemma NoKeyTwice<K(!new), V(!new)>(e: Env<K, V>, s: System<K, V>)
    requires Inv(e, s)
    ensures OneEntryPerKey(s.out)
    ensures forall i :: 0 <= i < |s.out| ==> s.out[i].2 == GroupFold.Fold(GB.AllDeques(e.ps), s.out[i].1, e.g)
  {
    hide PartitionOf, GroupFold.Fold, Same, PartOk, WorkerOk, Apart, EnvOk;
    forall i, j | 0 <= i < j < |s.out|
      ensures s.out[i].1 != s.out[j].1
    {
      GroupIsRight(e, s, i);
      GroupIsRight(e, s, j);
      assert GroupOk(s, i) && GroupOk(s, j);
      var p := s.log[i].0;
      assert TableOk(e, s, p);
      if s.log[j].0 == p && s.out[i].1 == s.out[j].1 {
        SameEntry(s.tables[p], s.log[i].1, s.log[j].1);
      }
    }
    forall i | 0 <= i < |s.out| { GroupIsRight(e, s, i); }
  }

  lemma SameEntry<K, V>(table: Rows<K, V>, i: nat, j: nat)
    requires OneEntryPerKey(table) && i < |table| && j < |table| && table[i].1 == table[j].1
    ensures i == j
  {}

  /** Every worker has seen the end of its stream. */
  ghost predicate AllDone<K, V>(s: System<K, V>) {
    forall t :: 0 <= t < |s.workers| ==> s.workers[t].Done?
  }

  /** At the end of all streams, the groups of every key were returned. */
  lemma KeyIsReturned<K(!new), V(!new)>(e: Env<K, V>, s: System<K, V>, k: K)
    requires Inv(e, s) && AllDone(s)
    ensures Has(s.out, k) <==> Has(GB.AllDeques(e.ps), k)
  {
    hide PartitionOf, GroupFold.Fold, Same, Apart, CommutativeMonoid, GB.AllSpillOk, Shift;
    var p := PartitionOf(e.h(k), e.exp);
    PartitionExists(e.h(k), e.exp);
    assert WorkerOk(e, s, 0) && PartOk(s, p);
    assert TableOk(e, s, p);
    var table := s.tables[p];
    GB.HasOk(table, e.ps, e.exp, p, k, e.g, e.h);
    if Has(table, k) {
      var j :| 0 <= j < |table| && table[j].1 == k;
      assert (p, j) in s.log;
      var i :| 0 <= i < |s.log| && s.log[i] == (p, j);
      assert GroupOk(s, i);
    }
    if i :| 0 <= i < |s.out| && s.out[i].1 == k {
      GroupIsRight(e, s, i);
      assert GroupOk(s, i);
    }
  }

  /** For any number of workers and any interleaving of their calls, claims and blocks: when all have
      seen the end of their streams, every key was returned exactly once, with the fold of its values. */
  lemma RunDelivers<K(!new), V(!new)>(e: Env<K, V>, run: seq<System<K, V>>, who: seq<nat>, moves: seq<Move<K, V>>)
    requires EnvOk(e) && IsRun(e, run, who, moves) && AllDone(run[|who|])
    ensures GB.Delivers(run[|who|].out, GB.AllDeques(e.ps), e.g)
  {
    hide Step, Inv, EnvOk, Init, AllDone, GroupFold.Fold, Has;
    var s := run[|who|];
    RunKeepsInv(e, run, who, moves, |who|);
    NoKeyTwice(e, s);
    forall k
      ensures Has(s.out, k) <==> Has(GB.AllDeques(e.ps), k)
    {
      KeyIsReturned(e, s, k);
    }
  }
}
