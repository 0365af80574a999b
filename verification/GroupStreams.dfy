/** From the calls of next to the system of all workers: what each worker does from its first claim to
    the end of its stream is one trace, and traces whose claims took the numbers of the shared counter,
    each once, are the workers' shares of a run. */
module GroupStreams {

  import opened GroupDelivery
  import opened GroupFold
  import GB = GroupBy

  /** A worker's moves from the start. */
  ghost predicate IsLife<K(!new), V(!new)>(e: Env<K, V>, l: Trace<K, V>) {
    && |l.path| == |l.moves| + 1 && l.path[0] == Start
    && forall i {:trigger l.moves[i]} :: 0 <= i < |l.moves| ==> Moves(e, l.path[i], l.moves[i], l.path[i + 1])
  }

  lemma LifeIs<K(!new), V(!new)>(e: Env<K, V>, l: Trace<K, V>)
    requires IsLife(e, l)
    ensures |l.path| == |l.moves| + 1
  {}

  /** Its claims took increasing numbers below hi. */
  ghost predicate ClaimsRise<K, V>(l: Trace<K, V>, hi: nat) {
    && (forall i {:trigger l.moves[i]} :: 0 <= i < |l.moves| && l.moves[i].Claim? ==> l.moves[i].ticket < hi)
    && (forall i, j ::
        0 <= i < j < |l.moves| && l.moves[i].Claim? && l.moves[j].Claim? ==> l.moves[i].ticket < l.moves[j].ticket)
  }

  /** The groups returned by the first n moves. */
  function Stream<K, V>(l: Trace<K, V>, n: nat): Rows<K, V>
    requires n <= |l.moves| < |l.path|
  {
    if n == 0 then [] else Stream(l, n - 1) + Output(l.path[n - 1], l.moves[n - 1])
  }

  // ---- one call after the other

  lemma Newborn<K(!new), V(!new)>(e: Env<K, V>, l: Trace<K, V>, hi: nat)
    requires l == Trace([Start], [])
    ensures IsLife(e, l) && ClaimsRise(l, hi) && Stream(l, 0) == []
  {}

  /** Further moves. */
  function Append<K, V>(l: Trace<K, V>, tr: Trace<K, V>): Trace<K, V>
    requires |l.path| == |l.moves| + 1
  {
    Trace(l.path[..|l.moves|] + tr.path, l.moves + tr.moves)
  }

  lemma {:induction false} StreamOfPrefix<K, V>(l: Trace<K, V>, l': Trace<K, V>, n: nat)
    requires n <= |l.moves| < |l.path| && |l.moves| <= |l'.moves| < |l'.path|
    requires forall i :: 0 <= i < n ==> l'.path[i] == l.path[i] && l'.moves[i] == l.moves[i]
    ensures Stream(l', n) == Stream(l, n)
  {
    hide Output;
    if n > 0 { StreamOfPrefix(l, l', n - 1); }
  }

  /** Silent moves return nothing. */
  lemma {:induction false} SilentStream<K, V>(l: Trace<K, V>, m: nat, n: nat)
    requires m <= n <= |l.moves| < |l.path|
    requires forall i {:trigger l.moves[i]} :: m <= i < n ==> !l.moves[i].Send?
    ensures Stream(l, n) == Stream(l, m)
  {
    hide Output;
    if m < n {
      SilentStream(l, m, n - 1);
      assert !l.moves[n - 1].Send?;
      SilentMove(l.path[n - 1], l.moves[n - 1]);
    }
  }

  lemma SilentMove<K, V>(w: Worker<K, V>, move: Move<K, V>)
    requires !move.Send?
    ensures Output(w, move) == []
  {}

  lemma AddCall<K(!new), V(!new)>(e: Env<K, V>, l: Trace<K, V>, tr: Trace<K, V>, w: Worker<K, V>, lo: nat, hi: nat)
    requires IsLife(e, l) && ClaimsRise(l, lo) && Leads(e, tr, l.path[|l.moves|], w, lo, hi)
    ensures var l' := Append(l, tr);
      && IsLife(e, l') && ClaimsRise(l', hi) && l'.path[|l'.moves|] == w
      && Stream(l', |l'.moves|) == Stream(l, |l.moves|)
  {
    hide Moves, Stream, Output;
    var l', n := Append(l, tr), |l.moves|;
    assert forall i :: 0 <= i <= n ==> l'.path[i] == l.path[i];
    forall i {:trigger l'.moves[i]} | 0 <= i < |l'.moves|
      ensures Moves(e, l'.path[i], l'.moves[i], l'.path[i + 1])
    {
      if i < n { assert l'.moves[i] == l.moves[i]; } else { assert l'.moves[i] == tr.moves[i - n]; }
    }
    StreamOfPrefix(l, l', n);
    SilentStream(l', n, |l'.moves|);
  }

  /** The block that ends a call. */
  lemma AddBlock<K(!new), V(!new)>(e: Env<K, V>, l: Trace<K, V>, move: Move<K, V>, w: Worker<K, V>, hi: nat)
    requires IsLife(e, l) && ClaimsRise(l, hi) && move.Send? && Moves(e, l.path[|l.moves|], move, w)
    ensures var l' := Add(l, move, w);
      && IsLife(e, l') && ClaimsRise(l', hi) && l'.path[|l'.moves|] == w
      && Stream(l', |l'.moves|) == Stream(l, |l.moves|) + Output(l.path[|l.moves|], move)
  {
    hide Moves, Output, Stream;
    var l' := Add(l, move, w);
    forall i {:trigger l'.moves[i]} | 0 <= i < |l'.moves|
      ensures Moves(e, l'.path[i], l'.moves[i], l'.path[i + 1])
    {
      if i < |l.moves| { assert l'.moves[i] == l.moves[i]; }
    }
    StreamOfPrefix(l, l', |l.moves|);
    StreamStep(l', |l'.moves|);
  }

  lemma StreamStep<K, V>(l: Trace<K, V>, n: nat)
    requires 0 < n <= |l.moves| < |l.path|
    ensures Stream(l, n) == Stream(l, n - 1) + Output(l.path[n - 1], l.moves[n - 1])
  {}

  // ---- all workers

  ghost predicate Paths<K, V>(lives: seq<Trace<K, V>>) {
    forall t {:trigger lives[t]} :: 0 <= t < |lives| ==> |lives[t].moves| < |lives[t].path|
  }

  /** Every worker has seen the end of its stream. */
  ghost predicate AreLives<K(!new), V(!new)>(e: Env<K, V>, lives: seq<Trace<K, V>>, c: nat) {
    && |lives| > 0 && Paths(lives)
    && forall t {:trigger lives[t]} :: 0 <= t < |lives| ==>
         IsLife(e, lives[t]) && ClaimsRise(lives[t], c) && lives[t].path[|lives[t].moves|].Done?
  }

  /** Move i of worker t claims number k. */
  predicate ClaimAt<K(==), V(==)>(lives: seq<Trace<K, V>>, k: nat, t: nat, i: nat) {
    t < |lives| && i < |lives[t].moves| && lives[t].moves[i] == Claim(k)
  }

  /** Together the claims took 0, 1, ..., c - 1, each once. */
  ghost predicate ClaimsOnce<K, V>(lives: seq<Trace<K, V>>, c: nat) {
    && (forall k: nat {:trigger IsClaimed(lives, k)} :: k < c ==> IsClaimed(lives, k))
    && (forall k: nat, t: nat, i: nat, u: nat, j: nat
        {:trigger ClaimAt(lives, k, t, i), ClaimAt(lives, k, u, j)} ::
        ClaimAt(lives, k, t, i) && ClaimAt(lives, k, u, j) ==> t == u && i == j)
  }

  ghost predicate IsClaimed<K, V>(lives: seq<Trace<K, V>>, k: nat) {
    exists t: nat, i: nat :: ClaimAt(lives, k, t, i)
  }

  /** All groups that the first n workers returned, worker by worker. */
  function Streams<K, V>(lives: seq<Trace<K, V>>, n: nat): Rows<K, V>
    requires n <= |lives| && Paths(lives)
  {
    if n == 0 then [] else Streams(lives, n - 1) + Stream(lives[n - 1], |lives[n - 1].moves|)
  }

  // ---- the run that the workers' traces are shares of

  /** Worker t has made pos[t] of its moves. */
  ghost predicate PosOk<K, V>(lives: seq<Trace<K, V>>, pos: seq<nat>) {
    Paths(lives) && |pos| == |lives| && forall t {:trigger pos[t]} :: 0 <= t < |pos| ==> pos[t] <= |lives[t].moves|
  }

  /** What the first n workers have returned by then. */
  ghost function SoFar<K, V>(lives: seq<Trace<K, V>>, pos: seq<nat>, n: nat): multiset<(nat, K, V)>
    requires PosOk(lives, pos) && n <= |lives|
  {
    if n == 0 then multiset{} else SoFar(lives, pos, n - 1) + multiset(Stream(lives[n - 1], pos[n - 1]))
  }

  /** Moves left. */
  ghost function Left<K, V>(lives: seq<Trace<K, V>>, pos: seq<nat>, n: nat): nat
    requires PosOk(lives, pos) && n <= |lives|
  {
    if n == 0 then 0 else Left(lives, pos, n - 1) + (|lives[n - 1].moves| - pos[n - 1])
  }

  /** Exactly the claims of numbers below the counter have been made. */
  ghost predicate CounterOk<K, V>(lives: seq<Trace<K, V>>, pos: seq<nat>, counter: nat)
    requires PosOk(lives, pos)
  {
    forall k: nat, t: nat, i: nat {:trigger ClaimAt(lives, k, t, i)} ::
      ClaimAt(lives, k, t, i) ==> (i < pos[t] <==> k < counter)
  }

  ghost predicate Follows<K(!new), V(!new)>(lives: seq<Trace<K, V>>, pos: seq<nat>, s: System<K, V>) {
    && PosOk(lives, pos) && |s.workers| == |lives| && CounterOk(lives, pos, s.counter)
    && (forall t {:trigger pos[t]} :: 0 <= t < |lives| ==> s.workers[t] == lives[t].path[pos[t]])
    && multiset(s.out) == SoFar(lives, pos, |lives|)
  }

  /** The worker's next move is possible now: it claims nothing or what the counter shows. */
  ghost predicate CanMove<K, V>(lives: seq<Trace<K, V>>, pos: seq<nat>, counter: nat, t: nat)
    requires PosOk(lives, pos) && t < |lives|
  {
    pos[t] < |lives[t].moves|
    && var move := lives[t].moves[pos[t]]; move.Claim? ==> move.ticket == counter
  }

  /** While a worker has a move left, some worker can move. */
  lemma SomeoneCanMove<K(!new), V(!new)>(e: Env<K, V>, lives: seq<Trace<K, V>>, c: nat, pos: seq<nat>, counter: nat,
      u: nat)
    returns (t: nat)
    requires AreLives(e, lives, c) && ClaimsOnce(lives, c) && PosOk(lives, pos) && CounterOk(lives, pos, counter)
    requires u < |lives| && pos[u] < |lives[u].moves|
    ensures t < |lives| && CanMove(lives, pos, counter, t)
  {
    hide IsLife;
    if CanMove(lives, pos, counter, u) {
      t := u;
    } else {
      var k := lives[u].moves[pos[u]].ticket;
      assert ClaimAt(lives, k, u, pos[u]);
      assert ClaimsRise(lives[u], c);
      assert IsClaimed(lives, counter);
      var j: nat;
      t, j :| ClaimAt(lives, counter, t, j);
      if pos[t] < j && lives[t].moves[pos[t]].Claim? {
        assert ClaimAt(lives, lives[t].moves[pos[t]].ticket, t, pos[t]);
        assert ClaimsRise(lives[t], c);
      }
    }
  }

  lemma {:induction false} SoFarMoves<K, V>(lives: seq<Trace<K, V>>, pos: seq<nat>, t: nat, n: nat)
    requires PosOk(lives, pos) && n <= |lives| && t < |lives| && pos[t] < |lives[t].moves|
    ensures PosOk(lives, pos[t := pos[t] + 1])
    ensures SoFar(lives, pos[t := pos[t] + 1], n) == SoFar(lives, pos, n)
            + (if t < n then multiset(Output(lives[t].path[pos[t]], lives[t].moves[pos[t]])) else multiset{})
    ensures Left(lives, pos[t := pos[t] + 1], n) == Left(lives, pos, n) - (if t < n then 1 else 0)
  {
    hide Output, Stream, PosOk, SoFar, Left;
    PosMoves(lives, pos, t);
    var pos' := pos[t := pos[t] + 1];
    SoFarStep(lives, pos, n);
    SoFarStep(lives, pos', n);
    if n > 0 {
      SoFarMoves(lives, pos, t, n - 1);
      if t == n - 1 { StreamNext(lives[t], pos[t]); }
    }
  }

  lemma PosMoves<K, V>(lives: seq<Trace<K, V>>, pos: seq<nat>, t: nat)
    requires PosOk(lives, pos) && t < |lives| && pos[t] < |lives[t].moves|
    ensures PosOk(lives, pos[t := pos[t] + 1]) && |pos| == |lives|
  {}

  lemma SoFarStep<K, V>(lives: seq<Trace<K, V>>, pos: seq<nat>, n: nat)
    requires PosOk(lives, pos) && n <= |lives|
    ensures n > 0 ==> pos[n - 1] <= |lives[n - 1].moves| < |lives[n - 1].path|
    ensures SoFar(lives, pos, n)
            == if n == 0 then multiset{} else SoFar(lives, pos, n - 1) + multiset(Stream(lives[n - 1], pos[n - 1]))
    ensures Left(lives, pos, n) == if n == 0 then 0 else Left(lives, pos, n - 1) + (|lives[n - 1].moves| - pos[n - 1])
  {}

  lemma StreamNext<K, V>(l: Trace<K, V>, n: nat)
    requires n < |l.moves| < |l.path|
    ensures multiset(Stream(l, n + 1)) == multiset(Stream(l, n)) + multiset(Output(l.path[n], l.moves[n]))
  {}

  /** The system after that move. */
  ghost function Moved<K, V>(s: System<K, V>, t: nat, move: Move<K, V>, w': Worker<K, V>): System<K, V>
    requires t < |s.workers|
  {
    var w := s.workers[t];
    var s' := s.(workers := s.workers[t := w'], out := s.out + Output(w, move));
    match move
    case Claim(k) => s'.(counter := k + 1)
    case Aggregate(table) =>
      if w.Claimed? then s'.(tables := s.tables[w.p := table], sent := s.sent[w.p := 0]) else s'
    case Send(n) =>
      if w.Sending? then s'.(sent := s.sent[w.p := w.sent + n], log := s.log + Entries(w.p, w.sent, n)) else s'
  }

  lemma MovedIsStep<K(!new), V(!new)>(e: Env<K, V>, s: System<K, V>, t: nat, move: Move<K, V>, w': Worker<K, V>)
    requires t < |s.workers| && Moves(e, s.workers[t], move, w') && (move.Claim? ==> move.ticket == s.counter)
    ensures Step(e, s, Moved(s, t, move, w'), t, move)
  {
    hide IsTable, Entries;
  }

  lemma CounterMoves<K(!new), V(!new)>(e: Env<K, V>, lives: seq<Trace<K, V>>, c: nat, pos: seq<nat>, counter: nat,
      t: nat)
    requires AreLives(e, lives, c) && ClaimsOnce(lives, c) && PosOk(lives, pos) && CounterOk(lives, pos, counter)
    requires t < |lives| && CanMove(lives, pos, counter, t)
    ensures PosOk(lives, pos[t := pos[t] + 1])
    ensures CounterOk(lives, pos[t := pos[t] + 1], if lives[t].moves[pos[t]].Claim? then counter + 1 else counter)
  {
    hide IsLife, AreLives;
    PosMoves(lives, pos, t);
    var pos', move := pos[t := pos[t] + 1], lives[t].moves[pos[t]];
    if move.Claim? { assert ClaimAt(lives, counter, t, pos[t]); }
    forall k: nat, u: nat, i: nat {:trigger ClaimAt(lives, k, u, i)} | ClaimAt(lives, k, u, i)
      ensures i < pos'[u] <==> k < if move.Claim? then counter + 1 else counter
    {}
  }

  lemma FollowsOn<K(!new), V(!new)>(e: Env<K, V>, lives: seq<Trace<K, V>>, c: nat, pos: seq<nat>, s: System<K, V>,
      t: nat)
    requires AreLives(e, lives, c) && ClaimsOnce(lives, c) && Follows(lives, pos, s)
    requires t < |lives| && CanMove(lives, pos, s.counter, t)
    ensures var s' := Moved(s, t, lives[t].moves[pos[t]], lives[t].path[pos[t] + 1]);
      && Step(e, s, s', t, lives[t].moves[pos[t]]) && Follows(lives, pos[t := pos[t] + 1], s')
  {
    hide SoFar, CounterOk, Moves, Step, Output, ClaimsOnce;
    var move, w' := lives[t].moves[pos[t]], lives[t].path[pos[t] + 1];
    assert IsLife(e, lives[t]);
    assert s.workers[t] == lives[t].path[pos[t]];
    MovedIsStep(e, s, t, move, w');
    CounterMoves(e, lives, c, pos, s.counter, t);
    SoFarMoves(lives, pos, t, |lives|);
  }

  lemma RunGrows<K(!new), V(!new)>(e: Env<K, V>, run: seq<System<K, V>>, who: seq<nat>, moves: seq<Move<K, V>>,
      s: System<K, V>, t: nat, move: Move<K, V>)
    requires IsRun(e, run, who, moves) && Step(e, run[|who|], s, t, move)
    ensures IsRun(e, run + [s], who + [t], moves + [move])
  {
    hide Step, Init;
    var run', who', moves' := run + [s], who + [t], moves + [move];
    forall i | 0 <= i < |who'|
      ensures Step(e, run'[i], run'[i + 1], who'[i], moves'[i])
    {
      if i < |who| { assert Step(e, run[i], run[i + 1], who[i], moves[i]); }
    }
  }

  /** From any point of a run that follows the traces, the rest of them can be followed. */
  lemma {:induction false} Interleave<K(!new), V(!new)>(e: Env<K, V>, lives: seq<Trace<K, V>>, c: nat, pos: seq<nat>,
      run: seq<System<K, V>>, who: seq<nat>, moves: seq<Move<K, V>>)
    returns (pos': seq<nat>, run': seq<System<K, V>>, who': seq<nat>, moves': seq<Move<K, V>>)
    requires AreLives(e, lives, c) && ClaimsOnce(lives, c)
    requires IsRun(e, run, who, moves) && Follows(lives, pos, run[|who|])
    ensures IsRun(e, run', who', moves') && Follows(lives, pos', run'[|who'|])
    ensures forall t :: 0 <= t < |lives| ==> pos'[t] == |lives[t].moves|
    decreases if PosOk(lives, pos) then Left(lives, pos, |lives|) else 0
  {
    hide IsRun, AreLives, ClaimsOnce, SoFar, CounterOk, Left, CanMove, Step;
    RunIs(e, run, who, moves);
    var s := run[|who|];
    if u: nat :| u < |lives| && pos[u] < |lives[u].moves| {
      var t := SomeoneCanMove(e, lives, c, pos, s.counter, u);
      CanMoveIs(lives, pos, s.counter, t);
      var move, w' := lives[t].moves[pos[t]], lives[t].path[pos[t] + 1];
      FollowsOn(e, lives, c, pos, s, t);
      RunGrows(e, run, who, moves, Moved(s, t, move, w'), t, move);
      SoFarMoves(lives, pos, t, |lives|);
      pos', run', who', moves' := Interleave(e, lives, c, pos[t := pos[t] + 1],
        run + [Moved(s, t, move, w')], who + [t], moves + [move]);
    } else {
      pos', run', who', moves' := pos, run, who, moves;
    }
  }

  lemma RunIs<K(!new), V(!new)>(e: Env<K, V>, run: seq<System<K, V>>, who: seq<nat>, moves: seq<Move<K, V>>)
    requires IsRun(e, run, who, moves)
    ensures |run| == |who| + 1 == |moves| + 1
  {}

  lemma CanMoveIs<K, V>(lives: seq<Trace<K, V>>, pos: seq<nat>, counter: nat, t: nat)
    requires PosOk(lives, pos) && t < |lives| && CanMove(lives, pos, counter, t)
    ensures pos[t] < |lives[t].moves| && |lives[t].moves| < |lives[t].path|
  {}

  /** The start of such a run. */
  lemma Beginning<K(!new), V(!new)>(e: Env<K, V>, lives: seq<Trace<K, V>>, c: nat)
    returns (pos: seq<nat>, s: System<K, V>)
    requires AreLives(e, lives, c)
    ensures IsRun(e, [s], [], []) && Follows(lives, pos, s)
  {
    pos := seq(|lives|, _ => 0);
    s := System(0, seq(|lives|, _ => Start), [], map[], map[], []);
    forall t | 0 <= t < |lives|
      ensures lives[t].path[0] == Start
    {
      assert IsLife(e, lives[t]);
    }
    NothingSoFar(lives, pos, |lives|);
  }

  lemma {:induction false} NothingSoFar<K, V>(lives: seq<Trace<K, V>>, pos: seq<nat>, n: nat)
    requires PosOk(lives, pos) && n <= |lives| && forall t {:trigger pos[t]} :: 0 <= t < |pos| ==> pos[t] == 0
    ensures SoFar(lives, pos, n) == multiset{}
  {
    if n > 0 { NothingSoFar(lives, pos, n - 1); }
  }

  lemma {:induction false} AllSoFar<K, V>(lives: seq<Trace<K, V>>, pos: seq<nat>, n: nat)
    requires PosOk(lives, pos) && n <= |lives|
    requires forall t :: 0 <= t < |lives| ==> pos[t] == |lives[t].moves|
    ensures SoFar(lives, pos, n) == multiset(Streams(lives, n))
  {
    hide Stream;
    if n > 0 { AllSoFar(lives, pos, n - 1); }
  }

  /** Traces of any number of workers whose claims took the counter's numbers, each once, are the
      workers' shares of one run of the whole system, which returns the same groups. */
  lemma LivesAreRun<K(!new), V(!new)>(e: Env<K, V>, lives: seq<Trace<K, V>>, c: nat)
    returns (run: seq<System<K, V>>, who: seq<nat>, moves: seq<Move<K, V>>)
    requires AreLives(e, lives, c) && ClaimsOnce(lives, c)
    ensures IsRun(e, run, who, moves) && AllDone(run[|who|])
    ensures multiset(run[|who|].out) == multiset(Streams(lives, |lives|))
  {
    hide IsRun, ClaimsOnce, SoFar, CounterOk, Stream, Streams;
    var pos, s := Beginning(e, lives, c);
    pos, run, who, moves := Interleave(e, lives, c, pos, [s], [], []);
    RunIs(e, run, who, moves);
    AllSoFar(lives, pos, |lives|);
    forall t | 0 <= t < |run[|who|].workers|
      ensures run[|who|].workers[t].Done?
    {
      assert lives[t].path[|lives[t].moves|].Done? && pos[t] == |lives[t].moves|;
    }
  }

  // ---- the groups in any order

  lemma HasPermuted<K, V>(a: Rows<K, V>, b: Rows<K, V>, k: K)
    requires multiset(a) == multiset(b) && Has(a, k)
    ensures Has(b, k)
  {
    var i :| 0 <= i < |a| && a[i].1 == k;
    assert a[i] in multiset(b);
    var j :| 0 <= j < |b| && b[j] == a[i];
  }

  /** A row that occurs twice occurs at two places. */
  lemma {:induction false} TwoPlaces<T>(a: seq<T>, x: T) returns (i: nat, j: nat)
    requires multiset(a)[x] >= 2
    ensures i < j < |a| && a[i] == x == a[j]
  {
    var n := |a| - 1;
    assert a == a[..n] + [a[n]];
    if a[n] == x {
      assert multiset(a[..n])[x] >= 1;
      i, j :| 0 <= i < n && a[..n][i] == x && j == n;
    } else {
      i, j := TwoPlaces(a[..n], x);
    }
  }

  lemma TwiceCounted<T>(a: seq<T>, i: nat, j: nat)
    requires i < j < |a| && a[i] == a[j]
    ensures multiset(a)[a[i]] >= 2
  {
    assert a == a[..j] + [a[j]] + a[j + 1..];
    assert a[..j][i] == a[i] && a[i] in multiset(a[..j]);
  }

  lemma DistinctPermuted<K, V>(a: Rows<K, V>, b: Rows<K, V>)
    requires multiset(a) == multiset(b) && OneEntryPerKey(a)
    ensures OneEntryPerKey(b)
  {
    forall i, j | 0 <= i < j < |b|
      ensures b[i].1 != b[j].1
    {
      assert b[i] in multiset(a) && b[j] in multiset(a);
      if b[i] == b[j] {
        TwiceCounted(b, i, j);
        var k, l := TwoPlaces(a, b[i]);
      } else {
        var k :| 0 <= k < |a| && a[k] == b[i];
        var l :| 0 <= l < |a| && a[l] == b[j];
        assert a[k].1 != a[l].1;
      }
    }
  }

  lemma DeliversPermuted<K(!new), V(!new)>(a: Rows<K, V>, b: Rows<K, V>, all: Rows<K, V>, g: Agg<V>)
    requires multiset(a) == multiset(b) && GB.Delivers(a, all, g)
    ensures GB.Delivers(b, all, g)
  {
    hide Has, GroupFold.Fold;
    DistinctPermuted(a, b);
    forall i {:trigger b[i]} | 0 <= i < |b|
      ensures b[i].2 == GroupFold.Fold(all, b[i].1, g)
    {
      assert b[i] in multiset(a);
      var j :| 0 <= j < |a| && a[j] == b[i];
    }
    forall k
      ensures Has(b, k) <==> Has(all, k)
    {
      if Has(a, k) { HasPermuted(a, b, k); }
      if Has(b, k) { HasPermuted(b, a, k); }
    }
  }

  /** So what the workers return together, worker by worker, is every key exactly once with the fold of
      its values. */
  lemma LivesDeliver<K(!new), V(!new)>(e: Env<K, V>, lives: seq<Trace<K, V>>, c: nat)
    requires EnvOk(e) && AreLives(e, lives, c) && ClaimsOnce(lives, c)
    ensures GB.Delivers(Streams(lives, |lives|), GB.AllDeques(e.ps), e.g)
  {
    hide IsRun, ClaimsOnce, Stream, Streams, EnvOk, AllDone, GB.Delivers;
    var run, who, moves := LivesAreRun(e, lives, c);
    RunIs(e, run, who, moves);
    RunDelivers(e, run, who, moves);
    DeliversPermuted(run[|who|].out, Streams(lives, |lives|), GB.AllDeques(e.ps), e.g);
  }
}
