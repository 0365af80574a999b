/** What a chained hash join must produce, without batches, follow-ups or suspension. */
module JoinSpec {
  import opened Chains

  /** The build side, entry by entry in the order of insertion. */
  datatype Side<T, K> = Side(addrs: seq<T>, buckets: seq<T>, hashes: seq<T>, keys: seq<K>) {
    predicate Ok() {
      |addrs| == |buckets| == |hashes| == |keys|
    }
  }

  datatype Probe<T, K> = Probe(hash: T, key: K)

  /** Which entries of a chain are meant. */
  datatype Match = AnyEntry | SameHash | SameKey

  /** A join candidate: entry address and probe row. */
  type Pair<T> = (T, nat)

  predicate Hits<T(==), K(==)>(s: Side<T, K>, m: Match, i: nat, p: Probe<T, K>)
    requires s.Ok() && i < |s.addrs|
  {
    match m
    case AnyEntry => true
    case SameHash => s.hashes[i] == p.hash
    case SameKey => s.keys[i] == p.key
  }

  function Hit<T(==), K(==)>(s: Side<T, K>, m: Match, i: nat, row: nat, p: Probe<T, K>): multiset<Pair<T>>
    requires s.Ok() && i < |s.addrs|
  {
    if Hits(s, m, i, p) then multiset{(s.addrs[i], row)} else multiset{}
  }

  /** The pairs a probe row still finds when its chain is followed from entry i. */
  function Rest<T(==), K(==)>(s: Side<T, K>, m: Match, i: int, row: nat, p: Probe<T, K>): multiset<Pair<T>>
    requires s.Ok() && -1 <= i < |s.addrs|
    decreases i
  {
    if i < 0 then multiset{} else Hit(s, m, i, row, p) + Rest(s, m, Next(s.buckets, i), row, p)
  }

  /** The nested loop: every one of the first n entries is compared by key. */
  function Nested<T(==), K(==)>(s: Side<T, K>, n: nat, row: nat, p: Probe<T, K>): multiset<Pair<T>>
    requires s.Ok() && n <= |s.addrs|
  {
    if n == 0 then multiset{} else Hit(s, SameKey, n - 1, row, p) + Nested(s, n - 1, row, p)
  }

  /** Equal keys have equal hashes, and the hash decides the bucket b. */
  ghost predicate Agrees<T, K>(s: Side<T, K>, b: T, p: Probe<T, K>)
    requires s.Ok()
  {
    && (forall i :: 0 <= i < |s.addrs| && s.keys[i] == p.key ==> s.hashes[i] == p.hash)
    && (forall i :: 0 <= i < |s.addrs| && s.hashes[i] == p.hash ==> s.buckets[i] == b)
  }

  /** The newest of n entries in bucket b. */
  function Newest<T(==), K(==)>(s: Side<T, K>, n: nat, b: T): (r: int)
    requires s.Ok() && n <= |s.addrs|
    ensures -1 <= r < n
  {
    Last(s.buckets[..n], b)
  }

  lemma NewestStep<T, K>(s: Side<T, K>, n: nat, b: T)
    requires s.Ok() && n < |s.addrs|
    ensures Newest(s, n + 1, b) == if s.buckets[n] == b then n else Newest(s, n, b)
    ensures s.buckets[n] == b ==> Next(s.buckets, n) == Newest(s, n, b)
  {
    assert s.buckets[..n + 1][..n] == s.buckets[..n];
  }

  lemma EmptyUnion<X>(a: multiset<X>)
    ensures multiset{} + a == a && a + multiset{} == a
  {}

  /** Following a whole chain finds what the nested loop finds. */
  lemma {:induction false} RestIsNested<T, K>(s: Side<T, K>, n: nat, b: T, row: nat, p: Probe<T, K>)
    requires s.Ok() && n <= |s.addrs| && Agrees(s, b, p)
    ensures Rest(s, SameKey, Newest(s, n, b), row, p) == Nested(s, n, row, p)
  {
    hide Rest, Nested, Newest, Hit, Hits, Agrees;
    NestedStep(s, n, row, p);
    if n == 0 {
      RestStep(s, -1, row, p);
    } else {
      RestIsNested(s, n - 1, b, row, p);
      NewestStep(s, n - 1, b);
      if s.buckets[n - 1] == b {
        RestStep(s, n - 1, row, p);
      } else {
        ForeignMisses(s, n - 1, b, row, p);
        EmptyUnion(Nested(s, n - 1, row, p));
      }
    }
  }

  lemma RestStep<T, K>(s: Side<T, K>, i: int, row: nat, p: Probe<T, K>)
    requires s.Ok() && -1 <= i < |s.addrs|
    ensures Rest(s, SameKey, i, row, p)
            == if i < 0 then multiset{} else Hit(s, SameKey, i, row, p) + Rest(s, SameKey, Next(s.buckets, i), row, p)
  {}

  lemma NestedStep<T, K>(s: Side<T, K>, n: nat, row: nat, p: Probe<T, K>)
    requires s.Ok() && n <= |s.addrs|
    ensures Nested(s, n, row, p)
            == if n == 0 then multiset{} else Hit(s, SameKey, n - 1, row, p) + Nested(s, n - 1, row, p)
  {}

  /** An entry of another bucket has another key. */
  lemma ForeignMisses<T, K>(s: Side<T, K>, i: nat, b: T, row: nat, p: Probe<T, K>)
    requires s.Ok() && i < |s.addrs| && Agrees(s, b, p) && s.buckets[i] != b
    ensures Hit(s, SameKey, i, row, p) == multiset{}
  {}

  /** A hash that no entry has finds no key. */
  lemma {:induction false} AbsentHashFindsNothing<T, K>(s: Side<T, K>, i: int, row: nat, p: Probe<T, K>)
    requires s.Ok() && -1 <= i < |s.addrs|
    requires forall k :: 0 <= k < |s.addrs| && s.keys[k] == p.key ==> s.hashes[k] == p.hash
    requires forall k :: 0 <= k < |s.addrs| ==> s.hashes[k] != p.hash
    ensures Rest(s, SameKey, i, row, p) == multiset{}
    decreases i
  {
    if i >= 0 {
      AbsentHashFindsNothing(s, Next(s.buckets, i), row, p);
    }
  }

  lemma MultisetUnion<X>(a: multiset<X>, b: multiset<X>, c: multiset<X>)
    ensures a + (b + c) == (a + b) + c
  {}

  lemma Regroup<X>(a: multiset<X>, b: multiset<X>, c: multiset<X>)
    ensures a + (b + c) == (a + c) + b
  {}

  /** The candidates of a batch whose keys are equal, in order: what keys_equal leaves. */
  function Keep<T>(pairs: seq<Pair<T>>, keep: Pair<T> -> bool): (r: seq<Pair<T>>)
    ensures |r| <= |pairs|
  {
    if pairs == [] then []
    else
      var rest := Keep(pairs[..|pairs| - 1], keep);
      if keep(pairs[|pairs| - 1]) then rest + [pairs[|pairs| - 1]] else rest
  }

  lemma {:induction false} KeepCount<T>(pairs: seq<Pair<T>>, keep: Pair<T> -> bool, x: Pair<T>)
    ensures multiset(Keep(pairs, keep))[x] == if keep(x) then multiset(pairs)[x] else 0
  {
    if pairs != [] {
      var front, last := pairs[..|pairs| - 1], pairs[|pairs| - 1];
      KeepCount(front, keep, x);
      assert pairs == front + [last];
    }
  }

  // ---- the whole join and its follow-ups

  /** A join: build side, hash function, the keys of the probe side, row by row, and for each row
      the entry where the table lets it start, or -1. */
  datatype Join<!T, !K> = Join(side: Side<T, K>, hash: K -> T, rows: seq<K>, heads: seq<int>) {
    ghost predicate Ok() {
      && side.Ok() && |heads| == |rows|
      && forall r :: 0 <= r < |rows| ==> -1 <= heads[r] < |side.addrs|
    }
  }

  function ProbeOf<T, K>(c: Join<T, K>, row: nat): Probe<T, K>
    requires row < |c.rows|
  {
    Probe(c.hash(c.rows[row]), c.rows[row])
  }

  /** The nested-loop equijoin of the probe rows from `row` on. */
  function NestedJoin<T(==), K(==)>(c: Join<T, K>, row: nat): multiset<Pair<T>>
    requires c.side.Ok() && row <= |c.rows|
    decreases |c.rows| - row
  {
    if row == |c.rows| then multiset{}
    else Nested(c.side, |c.side.addrs|, row, ProbeOf(c, row)) + NestedJoin(c, row + 1)
  }

  lemma NestedJoinUnfold<T, K>(c: Join<T, K>, row: nat)
    requires c.side.Ok() && row < |c.rows|
    ensures NestedJoin(c, row) == Nested(c.side, |c.side.addrs|, row, ProbeOf(c, row)) + NestedJoin(c, row + 1)
  {}

  /** A follow-up: probe row and the entry where its chain goes on. */
  type Followup = (nat, int)

  ghost predicate Follows<T, K>(c: Join<T, K>, f: Followup) {
    c.side.Ok() && f.0 < |c.rows| && -1 <= f.1 < |c.side.addrs|
  }

  ghost predicate AllFollow<T, K>(c: Join<T, K>, fs: seq<Followup>) {
    forall k :: 0 <= k < |fs| ==> Follows(c, fs[k])
  }

  ghost function Of<T, K>(c: Join<T, K>, m: Match, f: Followup): multiset<Pair<T>>
    requires Follows(c, f)
  {
    Rest(c.side, m, f.1, f.0, ProbeOf(c, f.0))
  }

  ghost function Pending<T, K>(c: Join<T, K>, m: Match, fs: seq<Followup>): multiset<Pair<T>>
    requires AllFollow(c, fs)
  {
    if fs == [] then multiset{} else Of(c, m, fs[0]) + Pending(c, m, fs[1..])
  }

  lemma {:induction false} PendingConcat<T, K>(c: Join<T, K>, m: Match, fs: seq<Followup>, gs: seq<Followup>)
    requires AllFollow(c, fs) && AllFollow(c, gs)
    ensures Pending(c, m, fs + gs) == Pending(c, m, fs) + Pending(c, m, gs)
  {
    if fs == [] {
      assert fs + gs == gs;
    } else {
      assert (fs + gs)[1..] == fs[1..] + gs;
      PendingConcat(c, m, fs[1..], gs);
      MultisetUnion(Of(c, m, fs[0]), Pending(c, m, fs[1..]), Pending(c, m, gs));
    }
  }

  lemma PendingOne<T, K>(c: Join<T, K>, m: Match, f: Followup)
    requires Follows(c, f)
    ensures Pending(c, m, [f]) == Of(c, m, f)
  {
    assert Pending(c, m, [f]) == Of(c, m, f) + Pending(c, m, [f][1..]);
  }

  /** The next entry of the chain, if there is one. */
  ghost function Onward<T, K>(c: Join<T, K>, f: Followup): seq<Followup>
    requires Follows(c, f) && f.1 >= 0
  {
    if Next(c.side.buckets, f.1) >= 0 then [(f.0, Next(c.side.buckets, f.1))] else []
  }

  ghost function HitOf<T, K>(c: Join<T, K>, m: Match, f: Followup): multiset<Pair<T>>
    requires Follows(c, f) && f.1 >= 0
  {
    Hit(c.side, m, f.1, f.0, ProbeOf(c, f.0))
  }

  lemma LookAt<T, K>(c: Join<T, K>, m: Match, f: Followup)
    requires Follows(c, f) && f.1 >= 0
    ensures Of(c, m, f) == HitOf(c, m, f) + Pending(c, m, Onward(c, f))
  {
    var g := (f.0, Next(c.side.buckets, f.1));
    assert Of(c, m, f) == HitOf(c, m, f) + Of(c, m, g);
    PendingOne(c, m, g);
  }

  /** Looking at an entry and queueing its successor neither loses nor repeats a pair. */
  lemma FollowConserves<T, K>(c: Join<T, K>, m: Match, fs: seq<Followup>, f: Followup)
    requires AllFollow(c, fs) && Follows(c, f) && f.1 >= 0
    ensures HitOf(c, m, f) + Pending(c, m, fs + Onward(c, f)) == Of(c, m, f) + Pending(c, m, fs)
  {
    LookAt(c, m, f);
    PendingConcat(c, m, fs, Onward(c, f));
    Regroup(HitOf(c, m, f), Pending(c, m, fs), Pending(c, m, Onward(c, f)));
  }

  /** Entries still to be looked at. */
  ghost function Length<T, K>(c: Join<T, K>, f: Followup): nat
    requires Follows(c, f)
  {
    |Walk(c.side.buckets, f.1)|
  }

  ghost function Work<T, K>(c: Join<T, K>, fs: seq<Followup>): nat
    requires AllFollow(c, fs)
  {
    if fs == [] then 0 else Length(c, fs[0]) + Work(c, fs[1..])
  }

  lemma {:induction false} WorkAppend<T, K>(c: Join<T, K>, fs: seq<Followup>, f: Followup)
    requires AllFollow(c, fs) && Follows(c, f)
    ensures Work(c, fs + [f]) == Work(c, fs) + Length(c, f)
  {
    if fs != [] {
      assert (fs + [f])[1..] == fs[1..] + [f];
      WorkAppend(c, fs[1..], f);
    }
  }

  lemma FollowWorks<T, K>(c: Join<T, K>, fs: seq<Followup>, f: Followup)
    requires AllFollow(c, fs) && Follows(c, f) && f.1 >= 0
    ensures Work(c, fs + Onward(c, f)) + 1 == Work(c, fs) + Length(c, f)
  {
    var next := Onward(c, f);
    assert Walk(c.side.buckets, f.1) == [f.1] + Walk(c.side.buckets, Next(c.side.buckets, f.1));
    if next == [] {
      assert fs + next == fs;
      assert Walk(c.side.buckets, -1) == [];
    } else {
      assert fs + next == fs + [next[0]];
      WorkAppend(c, fs, next[0]);
    }
  }

  /** Does the entry at an address have the key of a probe row? */
  ghost predicate KeyHit<T, K>(c: Join<T, K>, keyOf: map<T, K>, x: Pair<T>) {
    x.0 in keyOf && x.1 < |c.rows| && keyOf[x.0] == c.rows[x.1]
  }

  ghost predicate KeysKnown<T, K>(c: Join<T, K>, keyOf: map<T, K>) {
    c.side.Ok() && forall i ::
        0 <= i < |c.side.addrs| ==> c.side.addrs[i] in keyOf && keyOf[c.side.addrs[i]] == c.side.keys[i]
  }

  /** Equal keys have equal hashes. */
  ghost predicate HashedByKey<T, K>(c: Join<T, K>) {
    c.side.Ok() && forall i :: 0 <= i < |c.side.addrs| ==> c.side.hashes[i] == c.hash(c.side.keys[i])
  }

  /** Comparing keys turns the candidates of a chain walk into the walk's key matches. */
  lemma {:induction false} KeyPartOfRest<T, K>(c: Join<T, K>, keyOf: map<T, K>, m: Match, f: Followup, x: Pair<T>)
    requires Follows(c, f) && KeysKnown(c, keyOf) && HashedByKey(c)
    ensures Of(c, SameKey, f)[x] == if KeyHit(c, keyOf, x) then Of(c, m, f)[x] else 0
    decreases f.1
  {
    if f.1 >= 0 {
      KeyPartOfRest(c, keyOf, m, (f.0, Next(c.side.buckets, f.1)), x);
    }
  }

  lemma {:induction false} KeyPartOfPending<T, K>(c: Join<T, K>, keyOf: map<T, K>, m: Match, fs: seq<Followup>,
      x: Pair<T>)
    requires AllFollow(c, fs) && KeysKnown(c, keyOf) && HashedByKey(c)
    ensures Pending(c, SameKey, fs)[x] == if KeyHit(c, keyOf, x) then Pending(c, m, fs)[x] else 0
  {
    if fs != [] {
      KeyPartOfRest(c, keyOf, m, fs[0], x);
      KeyPartOfPending(c, keyOf, m, fs[1..], x);
    }
  }

  // ---- the heads of a probe vector

  ghost function Head<T, K>(c: Join<T, K>, row: nat): Followup
    requires c.Ok() && row < |c.rows|
  {
    (row, c.heads[row])
  }

  /** The heads of rows base, ..., base + n - 1. */
  ghost function Heads<T, K>(c: Join<T, K>, base: nat, n: nat): (fs: seq<Followup>)
    requires c.Ok() && base + n <= |c.rows|
    ensures |fs| == n && AllFollow(c, fs)
  {
    if n == 0 then [] else Heads(c, base, n - 1) + [Head(c, base + n - 1)]
  }

  lemma HeadsGrow<T, K>(c: Join<T, K>, m: Match, base: nat, n: nat)
    requires c.Ok() && base + n < |c.rows|
    ensures Pending(c, m, Heads(c, base, n + 1)) == Pending(c, m, Heads(c, base, n)) + Of(c, m, Head(c, base + n))
  {
    PendingConcat(c, m, Heads(c, base, n), [Head(c, base + n)]);
    PendingOne(c, m, Head(c, base + n));
  }

  /** Every row's head leads to all its key matches. */
  ghost predicate HeadComplete<T, K>(c: Join<T, K>, row: nat)
    requires c.Ok() && row < |c.rows|
  {
    Of(c, SameKey, Head(c, row)) == Nested(c.side, |c.side.addrs|, row, ProbeOf(c, row))
  }

  ghost predicate Complete<T, K>(c: Join<T, K>) {
    c.Ok() && forall row {:trigger HeadComplete(c, row)} :: 0 <= row < |c.rows| ==> HeadComplete(c, row)
  }

  /** What the heads of n rows and the nested loop over all later rows owe together. */
  ghost function Owed<T, K>(c: Join<T, K>, base: nat, n: nat): multiset<Pair<T>>
    requires c.Ok() && base + n <= |c.rows|
  {
    Pending(c, SameKey, Heads(c, base, n)) + NestedJoin(c, base + n)
  }

  lemma HeadsStep<T, K>(c: Join<T, K>, base: nat, n: nat)
    requires Complete(c) && base + n < |c.rows|
    ensures Owed(c, base, n + 1) == Owed(c, base, n)
  {
    assert HeadComplete(c, base + n);
    HeadsGrow(c, SameKey, base, n);
    NestedJoinUnfold(c, base + n);
    MultisetUnion(Pending(c, SameKey, Heads(c, base, n)), Of(c, SameKey, Head(c, base + n)),
        NestedJoin(c, base + n + 1));
  }

  /** The heads of a batch lead to the nested-loop join of its rows. */
  lemma {:induction false} HeadsAreComplete<T, K>(c: Join<T, K>, base: nat, n: nat)
    requires Complete(c) && base + n <= |c.rows|
    ensures Owed(c, base, n) == Owed(c, base, 0)
  {
    hide *;
    if n > 0 {
      HeadsAreComplete(c, base, n - 1);
      HeadsStep(c, base, n - 1);
    }
  }

  lemma OwedAtFirst<T, K>(c: Join<T, K>, base: nat)
    requires c.Ok() && base <= |c.rows|
    ensures Owed(c, base, 0) == NestedJoin(c, base)
  {
    EmptyUnion(NestedJoin(c, base));
  }

  // ---- progress through a batch

  /** Candidates written so far and follow-ups still queued, oldest first. */
  datatype Progress<T> = Progress(out: seq<Pair<T>>, fs: seq<Followup>)

  ghost function HitSeq<T, K>(c: Join<T, K>, m: Match, f: Followup): seq<Pair<T>>
    requires Follows(c, f) && f.1 >= 0
  {
    if Hits(c.side, m, f.1, ProbeOf(c, f.0)) then [(c.side.addrs[f.1], f.0)] else []
  }

  /** Look at one entry: emit it if it matches, queue its successor. */
  ghost function Look<T, K>(c: Join<T, K>, m: Match, p: Progress<T>, f: Followup): (q: Progress<T>)
    requires AllFollow(c, p.fs) && Follows(c, f) && f.1 >= 0
    ensures AllFollow(c, q.fs)
  {
    Progress(p.out + HitSeq(c, m, f), p.fs + Onward(c, f))
  }

  /** After the heads of n rows. */
  ghost function AfterHeads<T, K>(c: Join<T, K>, m: Match, base: nat, n: nat): (p: Progress<T>)
    requires c.Ok() && base + n <= |c.rows|
    ensures AllFollow(c, p.fs) && |p.fs| <= n && |p.out| <= n
  {
    if n == 0 then Progress([], [])
    else
      var p := AfterHeads(c, m, base, n - 1);
      if c.heads[base + n - 1] < 0 then p else Look(c, m, p, Head(c, base + n - 1))
  }

  /** One step of the follow-up loop: look at the oldest follow-up. */
  ghost function Step<T, K>(c: Join<T, K>, m: Match, p: Progress<T>): (q: Progress<T>)
    requires AllFollow(c, p.fs)
    ensures AllFollow(c, q.fs)
  {
    if p.fs == [] || p.fs[0].1 < 0 then p else Look(c, m, Progress(p.out, p.fs[1..]), p.fs[0])
  }

  ghost function Steps<T, K>(c: Join<T, K>, m: Match, p: Progress<T>, k: nat): (q: Progress<T>)
    requires AllFollow(c, p.fs)
    ensures AllFollow(c, q.fs)
  {
    if k == 0 then p else Step(c, m, Steps(c, m, p, k - 1))
  }

  // ---- accounting

  /** The pairs that candidates and follow-ups stand for together. */
  ghost function Account<T, K>(c: Join<T, K>, m: Match, p: Progress<T>): multiset<Pair<T>>
    requires AllFollow(c, p.fs)
  {
    multiset(p.out) + Pending(c, m, p.fs)
  }

  lemma AddHit<X>(out: seq<X>, hit: seq<X>, pending: multiset<X>, pending': multiset<X>, here: multiset<X>)
    requires multiset(hit) + pending' == here + pending
    ensures multiset(out + hit) + pending' == (multiset(out) + pending) + here
  {
    assert multiset(out + hit) + pending' == multiset(out) + (multiset(hit) + pending');
  }

  lemma LookConserves<T, K>(c: Join<T, K>, m: Match, p: Progress<T>, f: Followup)
    requires AllFollow(c, p.fs) && Follows(c, f) && f.1 >= 0
    ensures Account(c, m, Look(c, m, p, f)) == Account(c, m, p) + Of(c, m, f)
  {
    FollowConserves(c, m, p.fs, f);
    assert multiset(HitSeq(c, m, f)) == HitOf(c, m, f);
    AddHit(p.out, HitSeq(c, m, f), Pending(c, m, p.fs), Pending(c, m, p.fs + Onward(c, f)), Of(c, m, f));
  }

  lemma AfterHeadConserves<T, K>(c: Join<T, K>, m: Match, base: nat, n: nat)
    requires c.Ok() && base + n < |c.rows|
    ensures Account(c, m, AfterHeads(c, m, base, n + 1)) == Account(c, m, AfterHeads(c, m, base, n))
            + Of(c, m, Head(c, base + n))
  {
    if c.heads[base + n] >= 0 {
      LookConserves(c, m, AfterHeads(c, m, base, n), Head(c, base + n));
    } else {
      EmptyUnion(Account(c, m, AfterHeads(c, m, base, n)));
    }
  }

  lemma NothingYet<T, K>(c: Join<T, K>, m: Match, base: nat)
    requires c.Ok() && base <= |c.rows|
    ensures Account(c, m, AfterHeads(c, m, base, 0)) == Pending(c, m, Heads(c, base, 0))
  {
    assert AfterHeads(c, m, base, 0) == Progress([], []);
    EmptyUnion<Pair<T>>(multiset{});
  }

  /** The first loop of a join function loses and repeats nothing. */
  lemma {:induction false} AfterHeadsConserves<T, K>(c: Join<T, K>, m: Match, base: nat, n: nat)
    requires c.Ok() && base + n <= |c.rows|
    ensures Account(c, m, AfterHeads(c, m, base, n)) == Pending(c, m, Heads(c, base, n))
  {
    hide *;
    if n == 0 {
      NothingYet(c, m, base);
    } else {
      AfterHeadsConserves(c, m, base, n - 1);
      AfterHeadConserves(c, m, base, n - 1);
      HeadsGrow(c, m, base, n - 1);
    }
  }

  lemma StepConserves<T, K>(c: Join<T, K>, m: Match, p: Progress<T>)
    requires AllFollow(c, p.fs)
    ensures Account(c, m, Step(c, m, p)) == Account(c, m, p)
  {
    if p.fs != [] && p.fs[0].1 >= 0 {
      LookConserves(c, m, Progress(p.out, p.fs[1..]), p.fs[0]);
      Regroup(multiset(p.out), Of(c, m, p.fs[0]), Pending(c, m, p.fs[1..]));
    }
  }

  /** Nor does any number of follow-up steps. */
  lemma {:induction false} StepsConserve<T, K>(c: Join<T, K>, m: Match, p: Progress<T>, k: nat)
    requires AllFollow(c, p.fs)
    ensures Account(c, m, Steps(c, m, p, k)) == Account(c, m, p)
  {
    hide Account, Step;
    if k > 0 {
      StepsConserve(c, m, p, k - 1);
      StepConserves(c, m, Steps(c, m, p, k - 1));
    }
  }

  /** Every step looks at one entry, so the work left is a termination measure. */
  lemma StepWorks<T, K>(c: Join<T, K>, m: Match, p: Progress<T>)
    requires AllFollow(c, p.fs) && p.fs != [] && p.fs[0].1 >= 0
    ensures Work(c, Step(c, m, p).fs) + 1 == Work(c, p.fs)
  {
    FollowWorks(c, p.fs[1..], p.fs[0]);
  }

  // ---- key comparison

  ghost function KeepKeys<T, K>(c: Join<T, K>, keyOf: map<T, K>, out: seq<Pair<T>>): (r: seq<Pair<T>>)
    ensures |r| <= |out|
  {
    Keep(out, x => KeyHit(c, keyOf, x))
  }

  lemma KeepKeysStep<T, K>(c: Join<T, K>, keyOf: map<T, K>, out: seq<Pair<T>>, i: nat)
    requires i < |out|
    ensures KeepKeys(c, keyOf, out[..i + 1])
      == if KeyHit(c, keyOf, out[i]) then KeepKeys(c, keyOf, out[..i]) + [out[i]] else KeepKeys(c, keyOf, out[..i])
  {
    assert out[..i + 1][..i] == out[..i];
  }

  lemma KeyAccountAt<T, K>(c: Join<T, K>, keyOf: map<T, K>, m: Match, p: Progress<T>, all: seq<Followup>, x: Pair<T>)
    requires AllFollow(c, p.fs) && AllFollow(c, all) && KeysKnown(c, keyOf) && HashedByKey(c)
    requires Account(c, m, p) == Pending(c, m, all)
    ensures multiset(KeepKeys(c, keyOf, p.out))[x] + Pending(c, SameKey, p.fs)[x] == Pending(c, SameKey, all)[x]
  {
    hide Pending, Keep;
    assert multiset(p.out)[x] + Pending(c, m, p.fs)[x] == Account(c, m, p)[x];
    KeepCount(p.out, x => KeyHit(c, keyOf, x), x);
    KeyPartOfPending(c, keyOf, m, p.fs, x);
    KeyPartOfPending(c, keyOf, m, all, x);
  }

  /** Comparing keys turns an account of candidates into an account of key matches. */
  lemma KeyAccount<T, K>(c: Join<T, K>, keyOf: map<T, K>, m: Match, p: Progress<T>, all: seq<Followup>)
    requires AllFollow(c, p.fs) && AllFollow(c, all) && KeysKnown(c, keyOf) && HashedByKey(c)
    requires Account(c, m, p) == Pending(c, m, all)
    ensures Account(c, SameKey, Progress(KeepKeys(c, keyOf, p.out), p.fs)) == Pending(c, SameKey, all)
  {
    hide Pending, KeepKeys, KeysKnown, HashedByKey, AllFollow;
    forall x: Pair<T> { KeyAccountAt(c, keyOf, m, p, all, x); }
  }

  // ---- the first loop of joinBoncz queues the heads themselves

  ghost function PresentHeads<T, K>(c: Join<T, K>, base: nat, n: nat): (fs: seq<Followup>)
    requires c.Ok() && base + n <= |c.rows|
    ensures |fs| <= n && AllFollow(c, fs)
  {
    if n == 0 then []
    else PresentHeads(c, base, n - 1) + if c.heads[base + n - 1] < 0 then [] else [Head(c, base + n - 1)]
  }

  lemma PresentHeadStep<T, K>(c: Join<T, K>, m: Match, base: nat, n: nat)
    requires c.Ok() && base + n < |c.rows|
    ensures Pending(c, m, PresentHeads(c, base, n + 1))
      == Pending(c, m, PresentHeads(c, base, n)) + Of(c, m, Head(c, base + n))
  {
    var g := Head(c, base + n);
    if g.1 < 0 {
      assert PresentHeads(c, base, n + 1) == PresentHeads(c, base, n);
      EmptyUnion(Pending(c, m, PresentHeads(c, base, n)));
    } else {
      PendingConcat(c, m, PresentHeads(c, base, n), [g]);
      PendingOne(c, m, g);
    }
  }

  lemma {:induction false} PresentHeadsAreHeads<T, K>(c: Join<T, K>, m: Match, base: nat, n: nat)
    requires c.Ok() && base + n <= |c.rows|
    ensures Pending(c, m, PresentHeads(c, base, n)) == Pending(c, m, Heads(c, base, n))
  {
    hide Pending, Of;
    if n > 0 {
      PresentHeadsAreHeads(c, m, base, n - 1);
      PresentHeadStep(c, m, base, n - 1);
      HeadsGrow(c, m, base, n - 1);
    }
  }

  // ---- an empty build side

  lemma {:induction false} EmptyBuildPending<T, K>(c: Join<T, K>, m: Match, fs: seq<Followup>)
    requires AllFollow(c, fs) && |c.side.addrs| == 0
    ensures Pending(c, m, fs) == multiset{}
  {
    if fs != [] {
      EmptyBuildPending(c, m, fs[1..]);
    }
  }

  lemma {:induction false} EmptyBuildNested<T, K>(c: Join<T, K>, row: nat)
    requires c.side.Ok() && row <= |c.rows| && |c.side.addrs| == 0
    ensures NestedJoin(c, row) == multiset{}
    decreases |c.rows| - row
  {
    if row < |c.rows| {
      EmptyBuildNested(c, row + 1);
    }
  }
}
