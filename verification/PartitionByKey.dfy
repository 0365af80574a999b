/** The counting scatter that splits every partition of a selection vector by key. */
module PartitionByKey {

  import Capacity
  import CE = ChainedEntries
  import HS = HashmapSmall

  // ---- what the scatter computes

  /** The rows of s with key k, in order. */
  function Filter<T(==)>(s: seq<nat>, key: nat -> T, k: T): seq<nat> {
    if s == [] then []
    else
      var r := Filter(s[..|s| - 1], key, k);
      if key(s[|s| - 1]) == k then r + [s[|s| - 1]] else r
  }

  ghost predicate NoneEmpty(gs: seq<seq<nat>>) {
    forall g :: 0 <= g < |gs| ==> |gs[g]| > 0
  }

  /** The group whose first row has key k, or -1. */
  function Find<T(==)>(gs: seq<seq<nat>>, key: nat -> T, k: T): (r: int)
    requires NoneEmpty(gs)
    ensures -1 <= r < |gs| && (r >= 0 ==> key(gs[r][0]) == k)
    ensures forall g :: r < g < |gs| ==> key(gs[g][0]) != k
  {
    if gs == [] then -1
    else if key(gs[|gs| - 1][0]) == k then |gs| - 1
    else Find(gs[..|gs| - 1], key, k)
  }

  /** Add a row to the group of its key, behind the rows already there. */
  function Put<T(==)>(gs: seq<seq<nat>>, key: nat -> T, x: nat): (r: seq<seq<nat>>)
    requires NoneEmpty(gs)
    ensures NoneEmpty(r)
  {
    var g := Find(gs, key, key(x));
    if g < 0 then gs + [[x]] else gs[g := gs[g] + [x]]
  }

  /** The rows of s by key, groups in the order of their first rows. */
  function Groups<T(==)>(s: seq<nat>, key: nat -> T): (gs: seq<seq<nat>>)
    ensures NoneEmpty(gs)
  {
    if s == [] then [] else Put(Groups(s[..|s| - 1], key), key, s[|s| - 1])
  }

  /** Rows in the first n groups. */
  function End(gs: seq<seq<nat>>, n: nat): nat
    requires n <= |gs|
  {
    if n == 0 then 0 else End(gs, n - 1) + |gs[n - 1]|
  }

  function Flat(gs: seq<seq<nat>>): (r: seq<nat>)
  {
    if gs == [] then [] else Flat(gs[..|gs| - 1]) + gs[|gs| - 1]
  }

  ghost predicate DistinctKeys<T>(gs: seq<seq<nat>>, key: nat -> T)
    requires NoneEmpty(gs)
  {
    forall g, h :: 0 <= g < h < |gs| ==> key(gs[g][0]) != key(gs[h][0])
  }

  lemma FindIs<T>(gs: seq<seq<nat>>, key: nat -> T, k: T, r: int)
    requires NoneEmpty(gs) && -1 <= r < |gs| && (r >= 0 ==> key(gs[r][0]) == k)
    requires forall g :: r < g < |gs| ==> key(gs[g][0]) != k
    ensures Find(gs, key, k) == r
  {}

  lemma NoGroups<T>(key: nat -> T, k: T)
    ensures DistinctKeys<T>([], key) && Find([], key, k) == -1
  {}

  /** What adding row x does to the groups. */
  lemma PutIs<T>(gs: seq<seq<nat>>, key: nat -> T, x: nat, k: T)
    requires NoneEmpty(gs) && DistinctKeys(gs, key)
    ensures var r, f, f' := Put(gs, key, x), Find(gs, key, k), Find(Put(gs, key, x), key, k);
      && DistinctKeys(r, key)
      && (key(x) != k ==> f' == f && (f >= 0 ==> r[f] == gs[f]))
      && (key(x) == k ==> f' >= 0 && r[f'] == (if f >= 0 then gs[f] else []) + [x])
  {
    hide Find;
    var r, f := Put(gs, key, x), Find(gs, key, k);
    FindIs(r, key, k, if key(x) == k && f < 0 then |gs| else f);
  }

  /** Every group holds exactly the rows of its key, in their original order; no two groups have the
      same key; every row is in a group. */
  lemma {:induction false} GroupsAreFilters<T>(s: seq<nat>, key: nat -> T, k: T)
    ensures var gs := Groups(s, key);
      && DistinctKeys(gs, key)
      && Filter(s, key, k) == (if Find(gs, key, k) < 0 then [] else gs[Find(gs, key, k)])
  {
    hide Find, Put, DistinctKeys;
    if s == [] {
      NoGroups(key, k);
    } else {
      var front, x := s[..|s| - 1], s[|s| - 1];
      GroupsAreFilters(front, key, k);
      PutIs(Groups(front, key), key, x, k);
    }
  }

  lemma FindOwn<T>(gs: seq<seq<nat>>, key: nat -> T, g: nat)
    requires NoneEmpty(gs) && DistinctKeys(gs, key) && g < |gs|
    ensures Find(gs, key, key(gs[g][0])) == g
  {}

  lemma GroupIsFilter<T>(s: seq<nat>, key: nat -> T, g: nat)
    requires g < |Groups(s, key)|
    ensures Groups(s, key)[g] == Filter(s, key, key(Groups(s, key)[g][0]))
  {
    hide Groups, Filter, Find;
    var gs := Groups(s, key);
    GroupsAreFilters(s, key, key(gs[g][0]));
    FindOwn(gs, key, g);
  }

  /** Filtering is stable: its result lists, in increasing order, exactly the indices of s with key k. */
  lemma {:induction false} FilterIsStable<T>(s: seq<nat>, key: nat -> T, k: T) returns (idx: seq<nat>)
    ensures |idx| == |Filter(s, key, k)|
    ensures forall m :: 0 <= m < |idx| ==> idx[m] < |s| && Filter(s, key, k)[m] == s[idx[m]]
    ensures forall m, n :: 0 <= m < n < |idx| ==> idx[m] < idx[n]
    ensures forall i :: 0 <= i < |s| ==> (i in idx <==> key(s[i]) == k)
  {
    idx := [];
    if s != [] {
      idx := FilterIsStable(s[..|s| - 1], key, k);
      if key(s[|s| - 1]) == k { idx := idx + [|s| - 1]; }
    }
  }

  lemma {:induction false} FilterHas<T>(s: seq<nat>, key: nat -> T, k: T, x: nat)
    ensures x in Filter(s, key, k) <==> x in s && key(x) == k
  {
    if s != [] { FilterHas(s[..|s| - 1], key, k, x); }
  }

  /** Two rows of one partition come out in a common group exactly when their keys are equal. */
  lemma SameGroupIffSameKey<T>(s: seq<nat>, key: nat -> T, x: nat, y: nat)
    requires x in s && y in s
    ensures (exists g :: 0 <= g < |Groups(s, key)| && x in Groups(s, key)[g] && y in Groups(s, key)[g])
            <==> key(x) == key(y)
  {
    hide Groups, Filter, Find;
    var gs := Groups(s, key);
    forall g | 0 <= g < |gs|
      ensures x in gs[g] <==> key(x) == key(gs[g][0])
      ensures y in gs[g] <==> key(y) == key(gs[g][0])
    {
      GroupIsFilter(s, key, g);
      FilterHas(s, key, key(gs[g][0]), x);
      FilterHas(s, key, key(gs[g][0]), y);
    }
    GroupsAreFilters(s, key, key(x));
    FilterHas(s, key, key(x), x);
    assert Find(gs, key, key(x)) >= 0;
  }

  lemma {:induction false} FlatPut(gs: seq<seq<nat>>, g: nat, x: nat)
    requires g < |gs|
    ensures multiset(Flat(gs[g := gs[g] + [x]])) == multiset(Flat(gs)) + multiset{x}
  {
    var gs' := gs[g := gs[g] + [x]];
    var n := |gs| - 1;
    if g == n {
      assert gs'[..n] == gs[..n];
    } else {
      FlatPut(gs[..n], g, x);
      assert gs'[..n] == gs[..n][g := gs[..n][g] + [x]];
    }
  }

  lemma PutFlat<T>(gs: seq<seq<nat>>, key: nat -> T, x: nat)
    requires NoneEmpty(gs)
    ensures multiset(Flat(Put(gs, key, x))) == multiset(Flat(gs)) + multiset{x}
  {
    hide Find;
    var g := Find(gs, key, key(x));
    if g < 0 {
      assert (gs + [[x]])[..|gs|] == gs;
    } else {
      FlatPut(gs, g, x);
    }
  }

  lemma NothingFlat()
    ensures Flat([]) == []
  {}

  /** The groups laid end to end are a permutation of the partition. */
  lemma {:induction false} GroupsArePermutation<T>(s: seq<nat>, key: nat -> T)
    ensures multiset(Flat(Groups(s, key))) == multiset(s)
    ensures |Flat(Groups(s, key))| == |s| == End(Groups(s, key), |Groups(s, key)|)
  {
    hide Put, Flat;
    if s == [] {
      NothingFlat();
    } else {
      var front, x := s[..|s| - 1], s[|s| - 1];
      GroupsArePermutation(front, key);
      PutFlat(Groups(front, key), key, x);
      assert s == front + [x];
    }
    SameSize(Flat(Groups(s, key)), s);
    FlatLength(Groups(s, key));
  }

  lemma SameSize(a: seq<nat>, b: seq<nat>)
    requires multiset(a) == multiset(b)
    ensures |a| == |b|
  {
    assert |multiset(a)| == |a| && |multiset(b)| == |b|;
  }

  lemma {:induction false} FlatLength(gs: seq<seq<nat>>)
    ensures |Flat(gs)| == End(gs, |gs|)
  {
    if gs != [] {
      FlatLength(gs[..|gs| - 1]);
      EndOfPrefix(gs, |gs| - 1, |gs| - 1);
    }
  }

  lemma {:induction false} EndOfPrefix(gs: seq<seq<nat>>, m: nat, n: nat)
    requires n <= m <= |gs|
    ensures End(gs[..m], n) == End(gs, n)
  {
    if n > 0 { EndOfPrefix(gs, m, n - 1); }
  }

  lemma {:induction false} EndGrows(gs: seq<seq<nat>>, m: nat, n: nat)
    requires m <= n <= |gs| && NoneEmpty(gs)
    ensures End(gs, m) + (n - m) <= End(gs, n)
  {
    if m < n { EndGrows(gs, m, n - 1); }
  }

  lemma {:induction false} NoMoreGroupsThanRows<T>(s: seq<nat>, key: nat -> T)
    ensures |Groups(s, key)| <= |s|
  {
    if s != [] { NoMoreGroupsThanRows(s[..|s| - 1], key); }
  }

  lemma {:induction false} GroupsGrow<T>(s: seq<nat>, key: nat -> T, n: nat)
    requires n <= |s|
    ensures |Groups(s[..n], key)| <= |Groups(s, key)|
  {
    if n == |s| {
      assert s[..n] == s;
    } else {
      GroupsGrow(s[..|s| - 1], key, n);
      assert s[..|s| - 1][..n] == s[..n];
    }
  }

  lemma {:induction false} FilterGrows<T>(s: seq<nat>, key: nat -> T, k: T, n: nat)
    requires n <= |s|
    ensures Filter(s[..n], key, k) <= Filter(s, key, k)
  {
    if n == |s| {
      assert s[..n] == s;
    } else {
      FilterGrows(s[..|s| - 1], key, k, n);
      assert s[..|s| - 1][..n] == s[..n];
    }
  }

  lemma FilterSnoc<T>(s: seq<nat>, key: nat -> T, k: T, x: nat)
    ensures Filter(s + [x], key, k) == if key(x) == k then Filter(s, key, k) + [x] else Filter(s, key, k)
  {
    assert (s + [x])[..|s|] == s;
  }

  lemma GroupsSnoc<T>(s: seq<nat>, key: nat -> T, x: nat)
    ensures Groups(s + [x], key) == Put(Groups(s, key), key, x)
  {
    assert (s + [x])[..|s|] == s;
  }

  // ---- the passes over one partition

  /** Equal keys have equal hashes, among these rows. */
  ghost predicate HashByKey<T>(s: seq<nat>, key: nat -> T, hash: nat -> nat) {
    forall x, y :: x in s && y in s && key(x) == key(y) ==> hash(x) == hash(y)
  }

  /** The helper table: one entry per group, keyed by its first row. */
  function Slots(gs: seq<seq<nat>>, hash: nat -> nat, vals: seq<nat>): (r: seq<(nat, nat, nat)>)
    requires NoneEmpty(gs) && |vals| == |gs|
    ensures |r| == |gs|
  {
    seq(|gs|, g requires 0 <= g < |gs| => (hash(gs[g][0]), gs[g][0], vals[g]))
  }

  function Sizes(gs: seq<seq<nat>>): (r: seq<nat>)
    ensures |r| == |gs| && forall g :: 0 <= g < |gs| ==> r[g] == |gs[g]|
  {
    seq(|gs|, g requires 0 <= g < |gs| => |gs[g]|)
  }

  /** The rows of the groups are rows of s. */
  lemma {:induction false} FirstsAreRows<T>(s: seq<nat>, key: nat -> T, g: nat)
    requires g < |Groups(s, key)|
    ensures Groups(s, key)[g][0] in s
  {
    hide Find;
    if g < |Groups(s[..|s| - 1], key)| { FirstsAreRows(s[..|s| - 1], key, g); }
  }

  /** Look up the group of row x. */
  method FindGroup<T(==)>(ht: HS.Table<nat, nat>, ghost gs: seq<seq<nat>>, ghost vals: seq<nat>, key: nat -> T,
      hash: nat -> nat, x: nat) returns (r: int)
    requires ht.Valid() && NoneEmpty(gs) && |vals| == |gs| && ht.Content() == Slots(gs, hash, vals)
    requires forall g :: 0 <= g < |gs| && key(gs[g][0]) == key(x) ==> hash(gs[g][0]) == hash(x)
    ensures r == Find(gs, key, key(x))
  {
    hide Find, CE.Slot, CE.Linked, Capacity.IsPow2;
    r := ht.FindFirst(hash(x), (y: nat) => key(y) == key(x));
    forall g | r < g < |gs|
      ensures key(gs[g][0]) != key(x)
    {
      assert ht.Content()[g] == (hash(gs[g][0]), gs[g][0], vals[g]);
    }
    FindIs(gs, key, key(x), r);
  }

  lemma CountedOne<T>(gs: seq<seq<nat>>, key: nat -> T, hash: nat -> nat, x: nat)
    requires NoneEmpty(gs)
    ensures var g, c, gs' := Find(gs, key, key(x)), Slots(gs, hash, Sizes(gs)), Put(gs, key, x);
      Slots(gs', hash, Sizes(gs')) == if g >= 0 then c[g := (c[g].0, c[g].1, c[g].2 + 1)] else c + [(hash(x), x, 1)]
  {
    hide Find;
  }

  /** Count row x. */
  method CountRow<T(==)>(ht: HS.Table<nat, nat>, ghost gs: seq<seq<nat>>, key: nat -> T, hash: nat -> nat, x: nat)
    requires ht.Valid() && NoneEmpty(gs) && ht.Content() == Slots(gs, hash, Sizes(gs))
    requires |Put(gs, key, x)| <= ht.storage.Length
    requires forall g :: 0 <= g < |gs| && key(gs[g][0]) == key(x) ==> hash(gs[g][0]) == hash(x)
    modifies ht, ht.dir, ht.storage
    ensures ht.Valid() && ht.dir == old(ht.dir) && ht.storage == old(ht.storage)
    ensures ht.Content() == Slots(Put(gs, key, x), hash, Sizes(Put(gs, key, x)))
  {
    hide Find, CE.Slot, CE.Linked, Capacity.IsPow2, Put, Slots, Sizes;
    var el := FindGroup(ht, gs, Sizes(gs), key, hash, x);
    CountedOne(gs, key, hash, x);
    if el >= 0 {
      ht.SetValue(el, ht.storage[el].value + 1);
    } else {
      ht.Insert(x, hash(x), 1);
    }
  }

  /** Pass 1: one entry per key with the number of its rows. */
  method CountRows<T(==)>(ht: HS.Table<nat, nat>, sel: seq<nat>, lo: nat, hi: nat, key: nat -> T, hash: nat -> nat)
    requires lo <= hi <= |sel| && ht.Valid() && ht.Content() == [] && HashByKey(sel[lo..hi], key, hash)
    requires |Groups(sel[lo..hi], key)| <= ht.storage.Length
    modifies ht, ht.dir, ht.storage
    ensures ht.Valid() && ht.dir == old(ht.dir) && ht.storage == old(ht.storage)
    ensures ht.Content() == Slots(Groups(sel[lo..hi], key), hash, Sizes(Groups(sel[lo..hi], key)))
  {
    hide Find, CE.Slot, CE.Linked, Capacity.IsPow2, Groups, Put, CE.Data, Slots, Sizes;
    NoSlots(key, hash);
    assert sel[lo..lo] == [];
    for i := lo to hi
      invariant ht.Valid() && ht.dir == old(ht.dir) && ht.storage == old(ht.storage)
      invariant ht.Content() == Slots(Groups(sel[lo..i], key), hash, Sizes(Groups(sel[lo..i], key)))
    {
      OneHashPerKey(sel, lo, i, hi, key, hash);
      GroupsOfNext(sel, lo, i, hi, key);
      CountRow(ht, Groups(sel[lo..i], key), key, hash, sel[i]);
    }
  }

  lemma GroupsOfNext<T>(sel: seq<nat>, lo: nat, i: nat, hi: nat, key: nat -> T)
    requires lo <= i < hi <= |sel|
    ensures Groups(sel[lo..i + 1], key) == Put(Groups(sel[lo..i], key), key, sel[i])
    ensures |Groups(sel[lo..i + 1], key)| <= |Groups(sel[lo..hi], key)|
  {
    hide Groups, Put;
    assert sel[lo..i + 1] == sel[lo..i] + [sel[i]];
    GroupsSnoc(sel[lo..i], key, sel[i]);
    assert sel[lo..hi][..i + 1 - lo] == sel[lo..i + 1];
    GroupsGrow(sel[lo..hi], key, i + 1 - lo);
  }

  lemma NoSlots<T>(key: nat -> T, hash: nat -> nat)
    ensures Groups([], key) == [] && Slots([], hash, Sizes([])) == []
  {}

  lemma OneHashPerKey<T>(sel: seq<nat>, lo: nat, i: nat, hi: nat, key: nat -> T, hash: nat -> nat)
    requires lo <= i < hi <= |sel| && HashByKey(sel[lo..hi], key, hash)
    ensures var gs := Groups(sel[lo..i], key);
      forall g :: 0 <= g < |gs| && key(gs[g][0]) == key(sel[i]) ==> hash(gs[g][0]) == hash(sel[i])
  {
    hide Groups;
    var gs := Groups(sel[lo..i], key);
    assert sel[i] == sel[lo..hi][i - lo];
    forall g | 0 <= g < |gs| && key(gs[g][0]) == key(sel[i])
      ensures hash(gs[g][0]) == hash(sel[i])
    {
      FirstsAreRows(sel[lo..i], key, g);
      var m :| 0 <= m < |sel[lo..i]| && sel[lo..i][m] == gs[g][0];
      assert sel[lo..hi][m] == gs[g][0];
    }
  }

  /** Entry values after the first n frequencies became offsets. */
  function Mixed(gs: seq<seq<nat>>, start: nat, n: nat): (r: seq<nat>)
    ensures |r| == |gs|
    ensures forall g :: 0 <= g < |gs| ==> r[g] == if g < n then start + End(gs, g) else |gs[g]|
  {
    seq(|gs|, g requires 0 <= g < |gs| => if g < n then start + End(gs, g) else |gs[g]|)
  }

  /** Where every group ends. */
  function Ends(gs: seq<seq<nat>>, start: nat): (r: seq<nat>)
    ensures |r| == |gs| && forall g :: 0 <= g < |gs| ==> r[g] == start + End(gs, g + 1)
  {
    seq(|gs|, g requires 0 <= g < |gs| => start + End(gs, g + 1))
  }

  /** Convert group frequencies into write offsets and note where every group will end. */
  method Offsets(ht: HS.Table<nat, nat>, ghost gs: seq<seq<nat>>, ghost hash: nat -> nat, start: nat,
      boundsOut: array<nat>, out: nat)
    requires ht.Valid() && NoneEmpty(gs) && ht.Content() == Slots(gs, hash, Sizes(gs))
    requires out + |gs| <= boundsOut.Length && boundsOut as object != ht.dir as object
             && boundsOut as object != ht.storage as object
    modifies ht.storage, boundsOut
    ensures ht.Valid() && ht.Content() == Slots(gs, hash, Mixed(gs, start, |gs|))
    ensures boundsOut[..out + |gs|] == old(boundsOut[..out]) + Ends(gs, start)
  {
    hide *;
    assert Mixed(gs, start, 0) == Sizes(gs);
    StoredCount(ht);
    EndNext(gs);
    var cur := start;
    for g := 0 to ht.storageUsed
      invariant ht.storageUsed == |gs|
      invariant ht.Valid() && ht.Content() == Slots(gs, hash, Mixed(gs, start, g)) && cur == start + End(gs, g)
      invariant boundsOut[..out + g] == old(boundsOut[..out]) + Ends(gs, start)[..g]
    {
      var count := ValueAt(ht, gs, hash, Mixed(gs, start, g), g);
      ht.SetValue(g, cur);
      MixedNext(gs, hash, start, g);
      cur := cur + count;
      boundsOut[out + g] := cur;
    }
  }

  lemma StoredCount(ht: HS.Table<nat, nat>)
    requires ht.Valid()
    ensures ht.storageUsed == |ht.Content()| <= ht.storage.Length
  {}

  lemma EndNext(gs: seq<seq<nat>>)
    ensures forall n :: 0 <= n < |gs| ==> End(gs, n + 1) == End(gs, n) + |gs[n]|
    ensures End(gs, 0) == 0
  {}

  lemma MixedNext(gs: seq<seq<nat>>, hash: nat -> nat, start: nat, g: nat)
    requires NoneEmpty(gs) && g < |gs|
    ensures var c := Slots(gs, hash, Mixed(gs, start, g));
      Slots(gs, hash, Mixed(gs, start, g + 1)) == c[g := (c[g].0, c[g].1, start + End(gs, g))]
  {
    hide End;
  }

  method ValueAt(ht: HS.Table<nat, nat>, ghost gs: seq<seq<nat>>, ghost hash: nat -> nat, ghost vals: seq<nat>, g: nat)
    returns (v: nat)
    requires ht.Valid() && NoneEmpty(gs) && |vals| == |gs| && ht.Content() == Slots(gs, hash, vals) && g < |gs|
    ensures v == vals[g]
  {
    hide CE.Slot, CE.Linked, Capacity.IsPow2;
    v := ht.storage[g].value;
    assert ht.Content()[g].2 == v;
  }

  /** Group g has been filled with `rows` so far. */
  ghost predicate Filled(out: seq<nat>, start: nat, gs: seq<seq<nat>>, vals: seq<nat>, rows: seq<nat>, g: nat)
    requires g < |gs| == |vals|
  {
    vals[g] == start + End(gs, g) + |rows| <= |out| && out[start + End(gs, g)..vals[g]] == rows
  }

  ghost predicate AllFilled<T>(out: seq<nat>, start: nat, gs: seq<seq<nat>>, vals: seq<nat>, pre: seq<nat>,
      key: nat -> T)
    requires |gs| == |vals| && NoneEmpty(gs)
  {
    forall g {:trigger Filled(out, start, gs, vals, Filter(pre, key, key(gs[g][0])), g)} :: 0 <= g < |gs| ==>
      Filled(out, start, gs, vals, Filter(pre, key, key(gs[g][0])), g)
  }

  /** The next row has a group, whose offset still lies within the group's part of the output. */
  lemma RoomFor<T>(s: seq<nat>, n: nat, key: nat -> T, out: seq<nat>, start: nat, vals: seq<nat>)
    requires n < |s| && |vals| == |Groups(s, key)| && AllFilled(out, start, Groups(s, key), vals, s[..n], key)
    ensures var gs := Groups(s, key);
      var f := Find(gs, key, key(s[n]));
      f >= 0 && start + End(gs, f) <= vals[f] < start + End(gs, f + 1) <= start + |s|
  {
    hide Groups, Find, Filter;
    var gs, k := Groups(s, key), key(s[n]);
    GroupsAreFilters(s, key, k);
    FilterSnoc(s[..n], key, k, s[n]);
    assert s[..n + 1] == s[..n] + [s[n]];
    FilterGrows(s, key, k, n + 1);
    var f := Find(gs, key, k);
    assert Filled(out, start, gs, vals, Filter(s[..n], key, key(gs[f][0])), f);
    GroupsArePermutation(s, key);
    EndGrows(gs, f + 1, |gs|);
  }

  lemma FillOther<T>(s: seq<nat>, n: nat, key: nat -> T, out: seq<nat>, start: nat, vals: seq<nat>, f: nat, g: nat)
    requires n < |s| && |vals| == |Groups(s, key)| && AllFilled(out, start, Groups(s, key), vals, s[..n], key)
    requires f < |vals| && g < |vals| && f == Find(Groups(s, key), key, key(s[n])) && vals[f] < |out|
    ensures Filled(out[vals[f] := s[n]], start, Groups(s, key), vals[f := vals[f] + 1],
            Filter(s[..n + 1], key, key(Groups(s, key)[g][0])), g)
  {
    hide Groups, Find, Filter, Filled, DistinctKeys, End;
    var gs := Groups(s, key);
    var k := key(gs[g][0]);
    RoomFor(s, n, key, out, start, vals);
    assert Filled(out, start, gs, vals, Filter(s[..n], key, k), g);
    assert s[..n + 1] == s[..n] + [s[n]];
    FilterSnoc(s[..n], key, k, s[n]);
    GroupsAreFilters(s, key, k);
    FindOwn(gs, key, g);
    if g != f {
      FilterGrows(s, key, k, n);
      GroupIsFilter(s, key, g);
      FilledElsewhere(out, start, gs, vals, Filter(s[..n], key, k), g, f, s[n]);
    } else {
      FilledHere(out, start, gs, vals, Filter(s[..n], key, k), g, s[n]);
    }
  }

  lemma FilledHere(out: seq<nat>, start: nat, gs: seq<seq<nat>>, vals: seq<nat>, rows: seq<nat>, g: nat, x: nat)
    requires g < |gs| == |vals| && vals[g] < |out| && Filled(out, start, gs, vals, rows, g)
    ensures Filled(out[vals[g] := x], start, gs, vals[g := vals[g] + 1], rows + [x], g)
  {}

  lemma FilledElsewhere(out: seq<nat>, start: nat, gs: seq<seq<nat>>, vals: seq<nat>, rows: seq<nat>, g: nat, f: nat,
      x: nat)
    requires g < |gs| == |vals| && f < |gs| && f != g && vals[f] < |out| && NoneEmpty(gs)
             && Filled(out, start, gs, vals, rows, g)
    requires |rows| <= |gs[g]| && start + End(gs, f) <= vals[f] < start + End(gs, f + 1)
    ensures Filled(out[vals[f] := x], start, gs, vals[f := vals[f] + 1], rows, g)
  {
    if g < f { EndGrows(gs, g + 1, f); } else { EndGrows(gs, f + 1, g); }
  }

  /** Pass 2: scatter the rows to their groups, in order. */
  method Scatter<T(==)>(ht: HS.Table<nat, nat>, sel: seq<nat>, lo: nat, hi: nat, key: nat -> T, hash: nat -> nat,
      selOut: array<nat>) returns (ghost vals: seq<nat>)
    requires lo <= hi <= |sel| && hi <= selOut.Length && HashByKey(sel[lo..hi], key, hash)
    requires selOut as object != ht.dir as object && selOut as object != ht.storage as object
    requires ht.Valid()
             && ht.Content() == Slots(Groups(sel[lo..hi], key), hash,
             Mixed(Groups(sel[lo..hi], key), lo, |Groups(sel[lo..hi], key)|))
    modifies ht.storage, selOut
    ensures ht.Valid() && |vals| == |Groups(sel[lo..hi], key)|
            && ht.Content() == Slots(Groups(sel[lo..hi], key), hash, vals)
    ensures selOut[..lo] == old(selOut[..lo]) && selOut[lo..hi] == Flat(Groups(sel[lo..hi], key))
  {
    hide *;
    ghost var s := sel[lo..hi];
    ghost var gs := Groups(s, key);
    vals := Mixed(gs, lo, |gs|);
    NothingFilled(selOut[..], lo, gs, s, key);
    assert sel[lo..lo] == [];
    for i := lo to hi
      invariant ht.Valid() && |vals| == |gs| && ht.Content() == Slots(gs, hash, vals)
      invariant selOut[..lo] == old(selOut[..lo])
      invariant AllFilled(selOut[..], lo, gs, vals, sel[lo..i], key)
    {
      ghost var f := ScatterStep(sel, lo, i, hi, key, hash, selOut[..], vals);
      ScatterRow(ht, gs, vals, key, hash, sel[i], selOut);
      vals := vals[f := vals[f] + 1];
    }
    AllScattered(s, key, selOut[..], lo, vals);
  }

  lemma ScatterStep<T>(sel: seq<nat>, lo: nat, i: nat, hi: nat, key: nat -> T, hash: nat -> nat, out: seq<nat>,
      vals: seq<nat>) returns (f: nat)
    requires lo <= i < hi <= |sel| && hi <= |out| && HashByKey(sel[lo..hi], key, hash)
             && |vals| == |Groups(sel[lo..hi], key)|
    requires AllFilled(out, lo, Groups(sel[lo..hi], key), vals, sel[lo..i], key)
    ensures var gs := Groups(sel[lo..hi], key);
      && f < |gs| && f == Find(gs, key, key(sel[i])) && lo <= vals[f] < hi
      && (forall g :: 0 <= g < |gs| && key(gs[g][0]) == key(sel[i]) ==> hash(gs[g][0]) == hash(sel[i]))
      && AllFilled(out[vals[f] := sel[i]], lo, gs, vals[f := vals[f] + 1], sel[lo..i + 1], key)
  {
    hide Find, Groups, AllFilled, Filter, HashByKey;
    var s, n := sel[lo..hi], i - lo;
    assert s[n] == sel[i] && s[..n] == sel[lo..i] && s[..n + 1] == sel[lo..i + 1];
    RoomFor(s, n, key, out, lo, vals);
    f := Find(Groups(s, key), key, key(sel[i]));
    SameHash(s, key, hash, sel[i]);
    FillAll(s, n, key, out, lo, vals, f);
  }

  /** Write one row at its group's offset and advance the offset. */
  method ScatterRow<T(==)>(ht: HS.Table<nat, nat>, ghost gs: seq<seq<nat>>, ghost vals: seq<nat>, key: nat -> T,
      hash: nat -> nat, x: nat, selOut: array<nat>)
    requires ht.Valid() && NoneEmpty(gs) && |vals| == |gs| && ht.Content() == Slots(gs, hash, vals)
    requires forall g :: 0 <= g < |gs| && key(gs[g][0]) == key(x) ==> hash(gs[g][0]) == hash(x)
    requires selOut as object != ht.dir as object && selOut as object != ht.storage as object
    requires Find(gs, key, key(x)) >= 0 && vals[Find(gs, key, key(x))] < selOut.Length
    modifies ht.storage, selOut
    ensures ht.Valid()
    ensures var f := Find(gs, key, key(x));
      ht.Content() == Slots(gs, hash, vals[f := vals[f] + 1]) && selOut[..] == old(selOut[..])[vals[f] := x]
  {
    hide Find, CE.Slot, CE.Linked, Capacity.IsPow2, CE.Data;
    var r := FindGroup(ht, gs, vals, key, hash, x);
    var groupOffset := ValueAt(ht, gs, hash, vals, r);
    selOut[groupOffset] := x;
    ht.SetValue(r, groupOffset + 1);
  }

  lemma SameHash<T>(s: seq<nat>, key: nat -> T, hash: nat -> nat, x: nat)
    requires HashByKey(s, key, hash) && x in s
    ensures var gs := Groups(s, key); forall g :: 0 <= g < |gs| && key(gs[g][0]) == key(x) ==> hash(gs[g][0]) == hash(x)
  {
    hide Groups;
    var gs := Groups(s, key);
    forall g | 0 <= g < |gs| && key(gs[g][0]) == key(x)
      ensures hash(gs[g][0]) == hash(x)
    {
      FirstsAreRows(s, key, g);
    }
  }

  lemma FillAll<T>(s: seq<nat>, n: nat, key: nat -> T, out: seq<nat>, start: nat, vals: seq<nat>, f: nat)
    requires n < |s| && |vals| == |Groups(s, key)| && AllFilled(out, start, Groups(s, key), vals, s[..n], key)
    requires f < |vals| && f == Find(Groups(s, key), key, key(s[n])) && vals[f] < |out|
    ensures AllFilled(out[vals[f] := s[n]], start, Groups(s, key), vals[f := vals[f] + 1], s[..n + 1], key)
  {
    hide Groups, Find, Filter, Filled;
    var gs := Groups(s, key);
    var out', vals' := out[vals[f] := s[n]], vals[f := vals[f] + 1];
    forall g {:trigger Filled(out', start, gs, vals', Filter(s[..n + 1], key, key(gs[g][0])), g)} | 0 <= g < |gs|
      ensures Filled(out', start, gs, vals', Filter(s[..n + 1], key, key(gs[g][0])), g)
    {
      FillOther(s, n, key, out, start, vals, f, g);
    }
  }

  lemma NothingFilled<T>(out: seq<nat>, start: nat, gs: seq<seq<nat>>, s: seq<nat>, key: nat -> T)
    requires gs == Groups(s, key) && start + |s| <= |out|
    ensures AllFilled(out, start, gs, Mixed(gs, start, |gs|), [], key)
  {
    hide Groups, Filter, Filled;
    forall g | 0 <= g < |gs|
      ensures Filled(out, start, gs, Mixed(gs, start, |gs|), Filter([], key, key(gs[g][0])), g)
    {
      EmptyFilled(out, start, s, key, g);
    }
  }

  lemma EmptyFilled<T>(out: seq<nat>, start: nat, s: seq<nat>, key: nat -> T, g: nat)
    requires g < |Groups(s, key)| && start + |s| <= |out|
    ensures var gs := Groups(s, key); Filled(out, start, gs, Mixed(gs, start, |gs|), Filter([], key, key(gs[g][0])), g)
  {
    hide Groups;
    GroupsArePermutation(s, key);
    EndGrows(Groups(s, key), g, |Groups(s, key)|);
  }

  /** Group g lies in its part of the output. */
  ghost predicate Placed(gs: seq<seq<nat>>, out: seq<nat>, start: nat, g: nat)
    requires g < |gs|
  {
    start + End(gs, g + 1) <= |out| && out[start + End(gs, g)..start + End(gs, g + 1)] == gs[g]
  }

  /** Filled groups laid end to end. */
  lemma {:induction false} FlatIs(gs: seq<seq<nat>>, out: seq<nat>, start: nat, n: nat)
    requires n <= |gs| && start <= |out|
    requires forall g :: 0 <= g < |gs| ==> Placed(gs, out, start, g)
    ensures start + End(gs, n) <= |out| && out[start..start + End(gs, n)] == Flat(gs[..n])
  {
    if n > 0 {
      FlatIs(gs, out, start, n - 1);
      assert gs[..n][..n - 1] == gs[..n - 1];
      assert Placed(gs, out, start, n - 1);
      Joined(out, start, start + End(gs, n - 1), start + End(gs, n));
    }
  }

  lemma Joined(out: seq<nat>, a: nat, b: nat, c: nat)
    requires a <= b <= c <= |out|
    ensures out[a..c] == out[a..b] + out[b..c]
  {}

  lemma AllScattered<T>(s: seq<nat>, key: nat -> T, out: seq<nat>, start: nat, vals: seq<nat>)
    requires |vals| == |Groups(s, key)| && start + |s| <= |out| && AllFilled(out, start, Groups(s, key), vals, s, key)
    ensures out[start..start + |s|] == Flat(Groups(s, key))
  {
    hide Groups, Filter, Filled, Placed;
    var gs := Groups(s, key);
    GroupsArePermutation(s, key);
    forall g | 0 <= g < |gs|
      ensures Placed(gs, out, start, g)
    {
      assert Filled(out, start, gs, vals, Filter(s, key, key(gs[g][0])), g);
      GroupIsFilter(s, key, g);
      FilledIsPlaced(out, start, gs, vals, g);
    }
    FlatIs(gs, out, start, |gs|);
    assert gs[..|gs|] == gs;
  }

  lemma FilledIsPlaced(out: seq<nat>, start: nat, gs: seq<seq<nat>>, vals: seq<nat>, g: nat)
    requires g < |gs| == |vals| && Filled(out, start, gs, vals, gs[g], g)
    ensures Placed(gs, out, start, g)
  {}

  lemma StoredAreNamed<T>(ht: HS.Table<nat, nat>, s: seq<nat>, key: nat -> T, hash: nat -> nat, vals: seq<nat>,
      hs: seq<nat>)
    requires ht.Valid() && |vals| == |Groups(s, key)| && ht.Content() == Slots(Groups(s, key), hash, vals)
    requires forall x :: x in s ==> hash(x) in hs
    ensures forall i :: 0 <= i < ht.storageUsed ==> ht.storage[i].hash in hs
  {
    hide Groups, CE.Slot, CE.Linked, Capacity.IsPow2;
    forall i | 0 <= i < ht.storageUsed
      ensures ht.storage[i].hash in hs
    {
      assert ht.Content()[i].0 == ht.storage[i].hash;
      assert ht.Content()[i] == Slots(Groups(s, key), hash, vals)[i];
      FirstsAreRows(s, key, i);
    }
  }

  method HashesOf(sel: seq<nat>, lo: nat, hi: nat, hash: nat -> nat) returns (hs: seq<nat>)
    requires lo <= hi <= |sel|
    ensures forall x :: x in sel[lo..hi] ==> hash(x) in hs
  {
    hs := [];
    for i := lo to hi
      invariant |hs| == i - lo && forall k :: lo <= k < i ==> hs[k - lo] == hash(sel[k])
    {
      hs := hs + [hash(sel[i])];
    }
    forall x | x in sel[lo..hi]
      ensures hash(x) in hs
    {
      var k :| 0 <= k < hi - lo && sel[lo..hi][k] == x;
      assert hs[lo + k - lo] == hash(sel[lo + k]);
    }
  }

  // ---- all partitions

  /** Partition ends are in order and within the selection vector. */
  ghost predicate BoundsOk(bounds: seq<nat>, rows: nat) {
    && (forall p, q :: 0 <= p <= q < |bounds| ==> bounds[p] <= bounds[q])
    && (forall p :: 0 <= p < |bounds| ==> bounds[p] <= rows)
  }

  function Start(bounds: seq<nat>, p: nat): nat
    requires p <= |bounds|
  {
    if p == 0 then 0 else bounds[p - 1]
  }

  function Part(sel: seq<nat>, bounds: seq<nat>, p: nat): seq<nat>
    requires p < |bounds| && BoundsOk(bounds, |sel|)
  {
    sel[Start(bounds, p)..bounds[p]]
  }

  /** The groups of the first p partitions. */
  function AllGroups<T(==)>(sel: seq<nat>, bounds: seq<nat>, p: nat, key: nat -> T): (gs: seq<seq<nat>>)
    requires p <= |bounds| && BoundsOk(bounds, |sel|)
    ensures NoneEmpty(gs)
  {
    if p == 0 then [] else AllGroups(sel, bounds, p - 1, key) + Groups(Part(sel, bounds, p - 1), key)
  }

  /** Inside every partition, rows with equal keys have equal hashes, and the helper table has room for
      the different keys. */
  ghost predicate PartsOk<T>(sel: seq<nat>, bounds: seq<nat>, key: nat -> T, hash: nat -> nat, room: nat)
    requires BoundsOk(bounds, |sel|)
  {
    forall p :: 0 <= p < |bounds| ==>
      HashByKey(Part(sel, bounds, p), key, hash) && |Groups(Part(sel, bounds, p), key)| <= room
  }

  lemma NoPartitions<T>(sel: seq<nat>, bounds: seq<nat>, key: nat -> T)
    requires BoundsOk(bounds, |sel|)
    ensures Start(bounds, 0) == 0 && AllGroups(sel, bounds, 0, key) == [] && Flat([]) == [] && Ends([], 0) == []
  {}

  lemma PartIs<T>(sel: seq<nat>, bounds: seq<nat>, key: nat -> T, hash: nat -> nat, room: nat, p: nat)
    requires p < |bounds| && BoundsOk(bounds, |sel|) && PartsOk(sel, bounds, key, hash, room)
    ensures Start(bounds, p) <= bounds[p] == Start(bounds, p + 1) <= Start(bounds, |bounds|) <= |sel|
    ensures Part(sel, bounds, p) == sel[Start(bounds, p)..bounds[p]]
    ensures |Groups(sel[Start(bounds, p)..bounds[p]], key)| <= room
    ensures HashByKey(sel[Start(bounds, p)..bounds[p]], key, hash)
  {
    hide HashByKey, Groups;
    assert HashByKey(Part(sel, bounds, p), key, hash);
  }

  lemma {:induction false} FlatConcat(a: seq<seq<nat>>, b: seq<seq<nat>>)
    ensures Flat(a + b) == Flat(a) + Flat(b)
  {
    if b == [] {
      assert a + b == a;
    } else {
      assert (a + b)[..|a + b| - 1] == a + b[..|b| - 1];
      FlatConcat(a, b[..|b| - 1]);
    }
  }

  lemma {:induction false} EndConcat(a: seq<seq<nat>>, b: seq<seq<nat>>, n: nat)
    requires n <= |b|
    ensures End(a + b, |a| + n) == End(a, |a|) + End(b, n)
  {
    if n == 0 {
      EndOfPrefix(a + b, |a|, |a|);
      assert (a + b)[..|a|] == a;
    } else {
      EndConcat(a, b, n - 1);
    }
  }

  lemma EndOfConcat(a: seq<seq<nat>>, b: seq<seq<nat>>, n: nat)
    requires n <= |a| + |b|
    ensures End(a + b, n) == if n <= |a| then End(a, n) else End(a, |a|) + End(b, n - |a|)
  {
    hide End;
    if n <= |a| {
      EndOfPrefix(a + b, |a|, n);
      assert (a + b)[..|a|] == a;
    } else {
      EndConcat(a, b, n - |a|);
    }
  }

  lemma EndsAt(a: seq<seq<nat>>, b: seq<seq<nat>>, g: nat)
    requires g < |a| + |b|
    ensures Ends(a + b, 0)[g] == if g < |a| then Ends(a, 0)[g] else Ends(b, End(a, |a|))[g - |a|]
  {
    hide *;
    EndOfConcat(a, b, g + 1);
  }

  lemma EndsConcat(a: seq<seq<nat>>, b: seq<seq<nat>>)
    ensures Ends(a + b, 0) == Ends(a, 0) + Ends(b, End(a, |a|))
  {
    hide *;
    var l, r := Ends(a + b, 0), Ends(a, 0) + Ends(b, End(a, |a|));
    assert |l| == |r|;
    forall g | 0 <= g < |l|
      ensures l[g] == r[g]
    {
      EndsAt(a, b, g);
    }
  }

  lemma {:induction false} AllGroupsSize<T>(sel: seq<nat>, bounds: seq<nat>, key: nat -> T, p: nat)
    requires p <= |bounds| && BoundsOk(bounds, |sel|)
    ensures |Flat(AllGroups(sel, bounds, p, key))| == Start(bounds, p)
            == End(AllGroups(sel, bounds, p, key), |AllGroups(sel, bounds, p, key)|)
  {
    hide Groups, Flat, End;
    FlatLength(AllGroups(sel, bounds, p, key));
    if p == 0 {
      NoPartitions(sel, bounds, key);
    } else {
      AllGroupsSize(sel, bounds, key, p - 1);
      FlatConcat(AllGroups(sel, bounds, p - 1, key), Groups(Part(sel, bounds, p - 1), key));
      GroupsArePermutation(Part(sel, bounds, p - 1), key);
    }
  }

  lemma {:induction false} AllGroupsGrow<T>(sel: seq<nat>, bounds: seq<nat>, key: nat -> T, m: nat, n: nat)
    requires m <= n <= |bounds| && BoundsOk(bounds, |sel|)
    ensures |AllGroups(sel, bounds, m, key)| <= |AllGroups(sel, bounds, n, key)|
  {
    hide Groups, Part, BoundsOk;
    if m < n { AllGroupsGrow(sel, bounds, key, m, n - 1); }
  }

  lemma AddPart<T>(sel: seq<nat>, bounds: seq<nat>, key: nat -> T, p: nat)
    requires p < |bounds| && BoundsOk(bounds, |sel|)
    ensures var a, a', gs := AllGroups(sel, bounds, p, key), AllGroups(sel, bounds, p + 1, key),
            Groups(Part(sel, bounds, p), key);
      && |a'| == |a| + |gs| && |a'| <= |AllGroups(sel, bounds, |bounds|, key)|
      && Flat(a') == Flat(a) + Flat(gs)
      && Ends(a', 0) == Ends(a, 0) + Ends(gs, Start(bounds, p))
  {
    hide Groups, Flat, End, Part, BoundsOk;
    AllGroupsGrow(sel, bounds, key, p + 1, |bounds|);
    AllGroupsSize(sel, bounds, key, p);
    FlatConcat(AllGroups(sel, bounds, p, key), Groups(Part(sel, bounds, p), key));
    EndsConcat(AllGroups(sel, bounds, p, key), Groups(Part(sel, bounds, p), key));
  }

  /** Output bounds strictly increase from above 0 and end at the last input bound. */
  lemma BoundsIncrease<T>(sel: seq<nat>, bounds: seq<nat>, key: nat -> T)
    requires BoundsOk(bounds, |sel|)
    ensures var ends := Ends(AllGroups(sel, bounds, |bounds|, key), 0);
      && (forall g, h :: 0 <= g < h < |ends| ==> 0 < ends[g] < ends[h])
      && (|ends| > 0 ==> 0 < ends[|ends| - 1] == Start(bounds, |bounds|))
      && (|ends| == 0 ==> Start(bounds, |bounds|) == 0)
  {
    hide AllGroups, Start;
    var gs := AllGroups(sel, bounds, |bounds|, key);
    AllGroupsSize(sel, bounds, key, |bounds|);
    if |gs| > 0 { EndGrows(gs, 0, |gs|); }
    var ends := Ends(gs, 0);
    forall g, h | 0 <= g < h < |ends|
      ensures 0 < ends[g] < ends[h]
    {
      EndGrows(gs, 0, g + 1);
      EndGrows(gs, g + 1, h + 1);
    }
  }

  /** The output is a permutation of the selected rows, partition by partition: the output partitions
      made from input partition p are its groups, consecutive, behind those of the partitions before. */
  lemma {:induction false} OutputOfPart<T>(sel: seq<nat>, bounds: seq<nat>, key: nat -> T, p: nat, n: nat)
    requires p < n <= |bounds| && BoundsOk(bounds, |sel|)
    ensures var before, gs, all := AllGroups(sel, bounds, p, key), Groups(Part(sel, bounds, p), key),
            AllGroups(sel, bounds, n, key);
      && |before| + |gs| <= |all| && all[..|before|] == before && all[|before|..|before| + |gs|] == gs
      && multiset(Flat(gs)) == multiset(Part(sel, bounds, p))
      && |Flat(before)| == Start(bounds, p)
  {
    hide Groups, Part, Flat, BoundsOk;
    GroupsArePermutation(Part(sel, bounds, p), key);
    AllGroupsSize(sel, bounds, key, p);
    if p < n - 1 {
      OutputOfPart(sel, bounds, key, p, n - 1);
    }
  }

  /** Split every partition by key.  `selOut` becomes the groups laid end to end, `boundsOut` their
      ends; the helper table is empty again. */
  method Partition<T(==)>(sel: seq<nat>, key: nat -> T, hash: nat -> nat, bounds: seq<nat>, selOut: array<nat>,
      boundsOut: array<nat>, ht: HS.Table<nat, nat>) returns (n: nat)
    requires BoundsOk(bounds, |sel|) && PartsOk(sel, bounds, key, hash, ht.storage.Length)
    requires Start(bounds, |bounds|) <= selOut.Length && |AllGroups(sel, bounds, |bounds|, key)| <= boundsOut.Length
    requires selOut != boundsOut && selOut as object != ht.dir as object && selOut as object != ht.storage as object
    requires boundsOut as object != ht.dir as object && boundsOut as object != ht.storage as object
    requires ht.Valid() && ht.Content() == []
    modifies selOut, boundsOut, ht, ht.dir, ht.storage
    ensures ht.Valid() && ht.Content() == [] && ht.dir == old(ht.dir) && ht.storage == old(ht.storage)
    ensures n == |AllGroups(sel, bounds, |bounds|, key)| <= boundsOut.Length
    ensures selOut[..Start(bounds, |bounds|)] == Flat(AllGroups(sel, bounds, |bounds|, key))
    ensures boundsOut[..n] == Ends(AllGroups(sel, bounds, |bounds|, key), 0)
  {
    hide *;
    n := 0;
    var startCurPart := 0;
    NoPartitions(sel, bounds, key);
    for p := 0 to |bounds|
      invariant startCurPart == Start(bounds, p) <= Start(bounds, |bounds|)
      invariant ht.Valid() && ht.Content() == [] && ht.dir == old(ht.dir) && ht.storage == old(ht.storage)
      invariant n == |AllGroups(sel, bounds, p, key)| <= boundsOut.Length
      invariant selOut[..Start(bounds, p)] == Flat(AllGroups(sel, bounds, p, key))
      invariant boundsOut[..n] == Ends(AllGroups(sel, bounds, p, key), 0)
    {
      PartIs(sel, bounds, key, hash, ht.storage.Length, p);
      AddPart(sel, bounds, key, p);
      ghost var gs := Groups(sel[startCurPart..bounds[p]], key);
      CountRows(ht, sel, startCurPart, bounds[p], key, hash);
      Offsets(ht, gs, hash, startCurPart, boundsOut, n);
      n := n + ht.storageUsed;
      ghost var vals := Scatter(ht, sel, startCurPart, bounds[p], key, hash, selOut);
      var hs := HashesOf(sel, startCurPart, bounds[p], hash);
      StoredAreNamed(ht, sel[startCurPart..bounds[p]], key, hash, vals, hs);
      StoredCount(ht);
      ht.Clear(hs);
      startCurPart := bounds[p];
    }
  }
}
