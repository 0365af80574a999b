/** Group lookup of the vectorised aggregation: find the entries of a batch of rows, create entries
    for the groups that are missing. */
module GroupLookup {

  import Capacity
  import CE = ChainedEntries
  import CT = ChainedTable
  import HS = HashmapSmall
  import P = PartitionByKey

  /** Stored entries as (hash, key, aggregate). */
  type Stored<K, V> = seq<(nat, K, V)>

  /** No two entries for one key, and none with a common hash. */
  ghost predicate DistinctEntries<K, V>(c: Stored<K, V>) {
    forall d, e :: 0 <= d < e < |c| ==> c[d].1 != c[e].1 && c[d].0 != c[e].0
  }

  /** No two keys of the batch and the table share their full hash. */
  ghost predicate NoClash<K, V>(c: Stored<K, V>, n: nat, key: nat -> K, hash: nat -> nat) {
    && (forall i, j :: 0 <= i < n && 0 <= j < n ==> (hash(i) == hash(j) <==> key(i) == key(j)))
    && (forall e, i :: 0 <= e < |c| && 0 <= i < n ==> (c[e].0 == hash(i) <==> c[e].1 == key(i)))
  }

  /** The entry with key k, or -1. */
  function EntryOf<K(==), V>(c: Stored<K, V>, k: K): (r: int)
    ensures -1 <= r < |c| && (r >= 0 ==> c[r].1 == k)
    ensures forall e :: r < e < |c| ==> c[e].1 != k
  {
    if c == [] then -1 else if c[|c| - 1].1 == k then |c| - 1 else EntryOf(c[..|c| - 1], k)
  }

  lemma EntryIs<K, V>(c: Stored<K, V>, k: K, r: int)
    requires -1 <= r < |c| && (r >= 0 ==> c[r].1 == k)
    requires forall e :: r < e < |c| ==> c[e].1 != k
    ensures EntryOf(c, k) == r
  {}

  /** Rows below n that have no entry. */
  function Missing<K(==), V>(c: Stored<K, V>, n: nat, key: nat -> K): (s: seq<nat>)
    ensures |s| <= n && forall x: nat :: x in s <==> x < n && EntryOf(c, key(x)) < 0
  {
    if n == 0 then []
    else if EntryOf(c, key(n - 1)) < 0 then Missing(c, n - 1, key) + [n - 1]
    else Missing(c, n - 1, key)
  }

  /** Rows below n that have one. */
  function Present<K(==), V>(c: Stored<K, V>, n: nat, key: nat -> K): (s: seq<nat>)
    ensures |s| <= n && forall x: nat :: x in s <==> x < n && EntryOf(c, key(x)) >= 0
  {
    if n == 0 then []
    else if EntryOf(c, key(n - 1)) >= 0 then Present(c, n - 1, key) + [n - 1]
    else Present(c, n - 1, key)
  }

  /** The row's match has the row's key. */
  predicate HasKey<K(==), V>(c: Stored<K, V>, matches: seq<int>, key: nat -> K, x: nat) {
    x < |matches| && 0 <= matches[x] < |c| && c[matches[x]].1 == key(x)
  }

  /** The rows of s whose match has their key, or those whose match has not. */
  function Split<K(==), V>(c: Stored<K, V>, matches: seq<int>, key: nat -> K, s: seq<nat>, equal: bool): (r: seq<nat>)
    ensures |r| <= |s|
  {
    if s == [] then []
    else
      var r := Split(c, matches, key, s[..|s| - 1], equal);
      if HasKey(c, matches, key, s[|s| - 1]) == equal then r + [s[|s| - 1]] else r
  }

  lemma NothingSplit<K, V>(c: Stored<K, V>, matches: seq<int>, key: nat -> K, s: seq<nat>)
    ensures Split(c, matches, key, s[..0], true) == [] == Split(c, matches, key, s[..0], false)
  {}

  lemma SplitNext<K, V>(c: Stored<K, V>, matches: seq<int>, key: nat -> K, s: seq<nat>, f: nat)
    requires f < |s|
    ensures Split(c, matches, key, s[..f + 1], true) == if HasKey(c, matches, key, s[f])
            then Split(c, matches, key, s[..f], true) + [s[f]] else Split(c, matches, key, s[..f], true)
    ensures Split(c, matches, key, s[..f + 1], false) == if HasKey(c, matches, key, s[f])
            then Split(c, matches, key, s[..f], false) else Split(c, matches, key, s[..f], false) + [s[f]]
  {
    assert s[..f + 1][..f] == s[..f];
  }

  /** When every match has the row's key, all rows are kept. */
  lemma {:induction false} AllSplit<K, V>(c: Stored<K, V>, matches: seq<int>, key: nat -> K, s: seq<nat>)
    requires forall x :: x in s ==> HasKey(c, matches, key, x)
    ensures Split(c, matches, key, s, true) == s && Split(c, matches, key, s, false) == []
  {
    if s != [] { AllSplit(c, matches, key, s[..|s| - 1]); }
  }

  /** The first i rows that have an entry are matched with it. */
  ghost predicate RowsMatched<K, V>(c: Stored<K, V>, matches: seq<int>, i: nat, key: nat -> K) {
    i <= |matches| && forall k :: 0 <= k < i && EntryOf(c, key(k)) >= 0 ==> matches[k] == EntryOf(c, key(k))
  }

  lemma NoneMatched<K, V>(c: Stored<K, V>, matches: seq<int>, key: nat -> K)
    ensures RowsMatched(c, matches, 0, key)
  {}

  lemma OneMatched<K, V>(c: Stored<K, V>, m: seq<int>, m': seq<int>, i: nat, el: int, key: nat -> K)
    requires RowsMatched(c, m, i, key) && i < |m| && el == EntryOf(c, key(i)) && m' == if el >= 0 then m[i := el] else m
    ensures RowsMatched(c, m', i + 1, key)
  {
    hide EntryOf;
  }

  /** No memory block is empty. */
  ghost predicate NoneZero(s: seq<nat>) {
    forall b :: 0 <= b < |s| ==> s[b] > 0
  }

  class GroupLookup<K(==), V> {
    const ht: CT.Table<K, V>
    const groupHt: HS.Table<nat, nat>
    const init: V                       // initial aggregate
    var allocations: seq<nat>           // entries of every memory block, in order
    var entriesInHt: nat
    var maxFill: nat
    const htMatches: array<int>
    const groupsFound: array<nat>
    var groupsNotFound: seq<nat>
    const partitionedRows: array<nat>
    const partitionEndsOut: array<nat>
    const groupRepresentatives: array<nat>

    /** Buffers and tables are distinct objects. */
    ghost predicate Apart()
      reads ht, groupHt
    {
      && groupsFound != partitionedRows && groupsFound != partitionEndsOut && groupsFound != groupRepresentatives
      && partitionedRows != partitionEndsOut && partitionedRows != groupRepresentatives
      && partitionEndsOut != groupRepresentatives
      && ht.dir != groupHt.dir
      && {htMatches as object, groupsFound, partitionedRows, partitionEndsOut,
         groupRepresentatives} !! {ht.dir as object, groupHt.dir, groupHt.storage}
    }

    ghost predicate Valid()
      reads `allocations, `entriesInHt, ht, ht.dir, groupHt, groupHt.dir, groupHt.storage
    {
      && Apart() && ht.Valid() && ht.inserted == |ht.store| && groupHt.Valid() && groupHt.Content() == []
      && DistinctEntries(ht.Content()) && entriesInHt == Sum(allocations) == |ht.store| && NoneZero(allocations)
    }

    /** Buffers are long enough for a batch of n rows. */
    ghost predicate Room(n: nat)
      reads groupHt
    {
      && n <= htMatches.Length && n <= groupsFound.Length && n <= partitionedRows.Length && n <= partitionEndsOut.Length
      && n <= groupRepresentatives.Length && n <= groupHt.storage.Length
    }

    lemma HasRoom(n: nat)
      requires Room(n)
      ensures n <= htMatches.Length && n <= groupsFound.Length && n <= partitionedRows.Length
              && n <= partitionEndsOut.Length
      ensures n <= groupRepresentatives.Length && n <= groupHt.storage.Length
    {}

    lemma StillRoom(n: nat)
      requires n <= htMatches.Length && n <= groupsFound.Length && n <= partitionedRows.Length
               && n <= partitionEndsOut.Length
      requires n <= groupRepresentatives.Length && n <= groupHt.storage.Length
      ensures Room(n)
    {}

    lemma AllValid()
      requires groupsFound != partitionedRows && groupsFound != partitionEndsOut && groupsFound != groupRepresentatives
      requires partitionedRows != partitionEndsOut && partitionedRows != groupRepresentatives
               && partitionEndsOut != groupRepresentatives
      requires ht.dir != groupHt.dir
      requires {htMatches as object, groupsFound, partitionedRows, partitionEndsOut,
               groupRepresentatives} !! {ht.dir as object, groupHt.dir, groupHt.storage}
      requires ht.Valid() && ht.inserted == |ht.store| && groupHt.Valid() && groupHt.Content() == []
      requires DistinctEntries(ht.Content()) && entriesInHt == Sum(allocations) == |ht.store| && NoneZero(allocations)
      ensures Valid()
    {}

    lemma BuffersApart()
      requires Valid()
      ensures ht.Valid() && ht.inserted == |ht.store| && groupHt.Valid() && groupHt.Content() == []
      ensures DistinctEntries(ht.Content()) && entriesInHt == Sum(allocations) == |ht.store| && ht.dir != groupHt.dir
      ensures NoneZero(allocations)
      ensures groupsFound != partitionedRows && groupsFound != partitionEndsOut && groupsFound != groupRepresentatives
      ensures partitionedRows != partitionEndsOut && partitionedRows != groupRepresentatives
              && partitionEndsOut != groupRepresentatives
      ensures Apart()
              && {htMatches as object, groupsFound, partitionedRows, partitionEndsOut,
              groupRepresentatives} !! {ht.dir as object, groupHt.dir, groupHt.storage}
    {}

    constructor (ht: CT.Table<K, V>, groupHt: HS.Table<nat, nat>, init: V, vecSize: nat)
      requires ht.Valid() && ht.store == [] && groupHt.Valid() && groupHt.Content() == [] && ht.dir != groupHt.dir
      ensures Valid() && this.ht == ht && this.groupHt == groupHt && this.init == init
      ensures maxFill == Capacity.Limit(ht.dir.Length)
      ensures vecSize <= groupHt.storage.Length ==> Room(vecSize)
      ensures fresh(htMatches) && fresh(groupsFound) && fresh(partitionedRows) && fresh(partitionEndsOut)
              && fresh(groupRepresentatives)
    {
      this.ht, this.groupHt, this.init := ht, groupHt, init;
      allocations, entriesInHt, maxFill, groupsNotFound := [], 0, Capacity.Limit(ht.dir.Length), [];
      htMatches := new int[vecSize];
      groupsFound := new nat[vecSize];
      partitionedRows := new nat[vecSize];
      partitionEndsOut := new nat[vecSize];
      groupRepresentatives := new nat[vecSize];
    }

    /** Find the entry of every row by its hash; note found rows and missing ones. */
    method HtLookup(n: nat, ghost key: nat -> K, hash: nat -> nat) returns (found: nat)
      requires Valid() && NoClash(ht.Content(), n, key, hash) && n <= htMatches.Length && n <= groupsFound.Length
      requires groupsNotFound == []
      modifies `groupsNotFound, htMatches, groupsFound
      ensures Valid()
      ensures found <= n && groupsFound[..found] == Present(ht.Content(), n, key)
      ensures groupsNotFound == Missing(ht.Content(), n, key)
      ensures forall i ::
              0 <= i < n && EntryOf(ht.Content(), key(i)) >= 0 ==> htMatches[i] == EntryOf(ht.Content(), key(i))
    {
      hide *;
      BuffersApart();
      ghost var c := ht.Content();
      NoRows(c, key);
      NoneMatched(c, htMatches[..], key);
      found := 0;
      for i := 0 to n
        invariant Valid() && ht.Content() == c
        invariant found <= i && groupsFound[..found] == Present(c, i, key)
        invariant groupsNotFound == Missing(c, i, key)
        invariant RowsMatched(c, htMatches[..], i, key)
      {
        ghost var m := htMatches[..];
        var el := FindHash(n, key, hash, i);
        OneRow(c, i, key);
        if el >= 0 {
          found := NoteFound(i, el, found);
        } else {
          groupsNotFound := groupsNotFound + [i];
        }
        OneMatched(c, m, htMatches[..], i, el, key);
      }
      MatchedRows(c, n, key);
    }

    method NoteFound(i: nat, el: nat, found: nat) returns (found': nat)
      requires i < htMatches.Length && found < groupsFound.Length
      modifies htMatches, groupsFound
      ensures htMatches[..] == old(htMatches[..])[i := el]
      ensures found' == found + 1 && groupsFound[..found'] == old(groupsFound[..found]) + [i]
    {
      htMatches[i] := el;
      groupsFound[found] := i;
      found' := found + 1;
    }

    lemma MatchedRows(c: Stored<K, V>, n: nat, key: nat -> K)
      requires RowsMatched(c, htMatches[..], n, key) && n <= htMatches.Length
      ensures forall i :: 0 <= i < n && EntryOf(c, key(i)) >= 0 ==> htMatches[i] == EntryOf(c, key(i))
    {
      hide EntryOf;
    }

    method FindHash(n: nat, ghost key: nat -> K, hash: nat -> nat, i: nat) returns (el: int)
      requires Valid() && i < n && NoClash(ht.Content(), n, key, hash)
      ensures el == EntryOf(ht.Content(), key(i))
    {
      hide EntryOf, CE.Slot;
      el := ht.Find(hash(i), (h, _) => h == hash(i));
      EntryIs(ht.Content(), key(i), el);
    }

    /** keys_not_equal: keep the found rows whose entry has the row's key, in place and in order;
        collect the others. */
    method KeyEquality(found: nat, key: nat -> K) returns (kept: nat, keysNEq: seq<nat>)
      requires Valid() && found <= groupsFound.Length
      requires forall f ::
               0 <= f < found ==> groupsFound[f] < htMatches.Length && 0 <= htMatches[groupsFound[f]] < |ht.store|
      modifies groupsFound
      ensures Valid() && kept <= found
      ensures groupsFound[..kept] == Split(ht.Content(), htMatches[..], key, old(groupsFound[..found]), true)
      ensures keysNEq == Split(ht.Content(), htMatches[..], key, old(groupsFound[..found]), false)
    {
      hide Split, HasKey, DistinctEntries, CE.Linked, Sum;
      kept, keysNEq := 0, [];
      ghost var c, m, s := ht.Content(), htMatches[..], groupsFound[..found];
      NothingSplit(c, m, key, s);
      for f := 0 to found
        invariant kept <= f && groupsFound[f..found] == s[f..]
        invariant groupsFound[..kept] == Split(c, m, key, s[..f], true)
        invariant keysNEq == Split(c, m, key, s[..f], false)
      {
        var i := groupsFound[f];
        assert i == s[f..][0] == s[f];
        SplitNext(c, m, key, s, f);
        KeyOfMatch(i, key);
        if ht.store[htMatches[i]].key == key(i) {
          groupsFound[kept] := i;
          kept := kept + 1;
        } else {
          keysNEq := keysNEq + [i];
        }
      }
      assert s[..found] == s;
    }

    lemma KeyOfMatch(i: nat, key: nat -> K)
      requires i < htMatches.Length && 0 <= htMatches[i] < |ht.store|
      ensures ht.store[htMatches[i]].key == key(i) <==> HasKey(ht.Content(), htMatches[..], key, i)
    {}

    /** Find the entries of a batch.  No full-hash collision means that the first candidate is the
        only one, so no row has to follow its chain. */
    method FindGroups(n: nat, key: nat -> K, hash: nat -> nat) returns (kept: nat)
      requires Valid() && NoClash(ht.Content(), n, key, hash) && n <= htMatches.Length && n <= groupsFound.Length
      modifies `groupsNotFound, htMatches, groupsFound
      ensures Valid()
      ensures kept == |Present(ht.Content(), n, key)| <= groupsFound.Length
              && groupsFound[..kept] == Present(ht.Content(), n, key)
      ensures groupsNotFound == Missing(ht.Content(), n, key)
      ensures forall i ::
              0 <= i < n && EntryOf(ht.Content(), key(i)) >= 0 ==> htMatches[i] == EntryOf(ht.Content(), key(i))
    {
      hide EntryOf, Missing, Present, CE.Linked, DistinctEntries, NoClash, CE.Data, Sum;
      groupsNotFound := [];
      var found := HtLookup(n, key, hash);
      forall f | 0 <= f < found
        ensures groupsFound[f] < n && EntryOf(ht.Content(), key(groupsFound[f])) >= 0
      {
        assert groupsFound[..found][f] in Present(ht.Content(), n, key);
      }
      var keysNEq;
      kept, keysNEq := KeyEquality(found, key);
      AllSplit(ht.Content(), htMatches[..], key, Present(ht.Content(), n, key));
      assert keysNEq == [];
    }

    /** The first row of every group. */
    method GetGroupRepresentatives(nrGroups: nat, ghost gs: seq<seq<nat>>)
      requires P.NoneEmpty(gs) && nrGroups == |gs| <= partitionEndsOut.Length && nrGroups <= groupRepresentatives.Length
      requires |P.Flat(gs)| <= partitionedRows.Length && partitionedRows[..|P.Flat(gs)|] == P.Flat(gs)
               && partitionEndsOut[..nrGroups] == P.Ends(gs, 0)
      requires groupRepresentatives != partitionedRows && groupRepresentatives != partitionEndsOut
      modifies groupRepresentatives
      ensures forall g :: 0 <= g < nrGroups ==> groupRepresentatives[g] == gs[g][0]
    {
      hide P.Flat, P.Ends, P.End, CT.Table.Valid;
      P.EndNext(gs);
      var groupId := 0;
      for i := 0 to nrGroups
        invariant groupId == P.End(gs, i)
        invariant forall g :: 0 <= g < i ==> groupRepresentatives[g] == gs[g][0]
      {
        FlatAt(gs, i, 0);
        assert P.Flat(gs)[groupId] == partitionedRows[groupId];
        groupRepresentatives[i] := partitionedRows[groupId];
        groupId := partitionEndsOut[i];
        assert groupId == partitionEndsOut[..nrGroups][i];
      }
    }

    /** Write hash, key and initial aggregate of every group to fresh memory. */
    method BuildScatter(groups: nat, ghost gs: seq<seq<nat>>, key: nat -> K, hash: nat -> nat)
      requires ht.Valid() && P.NoneEmpty(gs) && groups == |gs| <= groupRepresentatives.Length
      requires forall g :: 0 <= g < groups ==> groupRepresentatives[g] == gs[g][0]
      modifies ht`store
      ensures ht.Valid() && ht.Content() == old(ht.Content()) + NewEntries(gs, key, hash, init)
    {
      hide *;
      ghost var added := NewEntries(gs, key, hash, init);
      for g := 0 to groups
        invariant ht.Valid() && ht.Content() == old(ht.Content()) + added[..g]
      {
        var r := groupRepresentatives[g];
        ht.Allocate(hash(r), key(r), init);
        assert added[..g + 1] == added[..g] + [added[g]];
      }
    }

    /** The directory is large enough for all entries. */
    ghost predicate InLoad()
      reads this, ht`store, ht`dir
    {
      |ht.Content()| <= maxFill == Capacity.Limit(ht.dir.Length)
    }

    /** Link the new entries; past the load limit build a larger directory and link all of them. */
    method InsertGroups(groups: nat, allowResize: bool)
      requires ht.Valid() && |allocations| > 0 && groups == allocations[|allocations| - 1]
      requires entriesInHt == Sum(allocations) == |ht.store| && ht.inserted == entriesInHt - groups && entriesInHt > 0
      modifies `maxFill, ht, ht.dir
      ensures ht.Valid() && (ht.dir == old(ht.dir) || fresh(ht.dir))
      ensures ht.inserted == |ht.store| && ht.Content() == old(ht.Content())
      ensures if allowResize && |ht.store| > old(maxFill) then
                fresh(ht.dir) && maxFill == Capacity.Limit(ht.dir.Length) >= 2 * |ht.store|
              else
                ht.dir == old(ht.dir) && maxFill == old(maxFill)
    {
      hide *;
      ht.SameLength();
      if allowResize && entriesInHt > maxFill {
        maxFill := ht.SetSize(entriesInHt * 2);
        NoSum();
        for b := 0 to |allocations|
          invariant ht.Valid() && fresh(ht.dir) && ht.inserted == Sum(allocations[..b])
                    && ht.Content() == old(ht.Content())
          invariant maxFill == Capacity.Limit(ht.dir.Length) >= 2 * entriesInHt
        {
          ht.SameLength();
          SumNext(allocations, b);
          ht.InsertAll(allocations[b]);
        }
        assert allocations[..|allocations|] == allocations;
      } else {
        ht.InsertAll(groups);
      }
      ht.SameLength();
    }

    /** Point the rows of every group to its new entry. */
    method WriteBack(groups: nat, ghost s: seq<nat>, ghost key: nat -> K, base: nat)
      requires groups == |P.Groups(s, key)| <= partitionEndsOut.Length && |s| <= partitionedRows.Length
      requires partitionedRows[..|s|] == P.Flat(P.Groups(s, key))
               && partitionEndsOut[..groups] == P.Ends(P.Groups(s, key), 0)
      requires forall x :: x in s ==> x < htMatches.Length
      modifies htMatches
      ensures forall x :: x in s ==> htMatches[x] == base + P.Find(P.Groups(s, key), key, key(x))
      ensures forall x :: 0 <= x < htMatches.Length && x !in s ==> htMatches[x] == old(htMatches[x])
    {
      hide *;
      ghost var gs := P.Groups(s, key);
      ghost var rows := P.Flat(gs);
      P.EndNext(gs);
      P.GroupsArePermutation(s, key);
      SameRows(rows, s);
      var pStart, entry := 0, base;
      for p := 0 to groups
        invariant pStart == P.End(gs, p) && entry == base + p
        invariant forall k ::
                  0 <= k < pStart <= |s|
                  ==> rows[k] < htMatches.Length && htMatches[rows[k]] == base + P.Find(gs, key, key(rows[k]))
        invariant forall x :: 0 <= x < htMatches.Length && x !in s ==> htMatches[x] == old(htMatches[x])
      {
        var end := partitionEndsOut[p];
        assert end == partitionEndsOut[..groups][p];
        P.EndGrows(gs, p + 1, |gs|);
        for i := pStart to end
          invariant forall k ::
                    0 <= k < i <= |s|
                    ==> rows[k] < htMatches.Length && htMatches[rows[k]] == base + P.Find(gs, key, key(rows[k]))
          invariant forall x :: 0 <= x < htMatches.Length && x !in s ==> htMatches[x] == old(htMatches[x])
        {
          RowAt(s, key, p, i);
          assert partitionedRows[i] == partitionedRows[..|s|][i] == rows[i];
          htMatches[partitionedRows[i]] := entry;
        }
        entry := entry + 1;
        pStart := end;
      }
      forall x | x in s
        ensures htMatches[x] == base + P.Find(gs, key, key(x))
      {
        assert x in rows;
      }
    }

    /** Group the rows that found no entry and write a new entry for every group, not yet linked. */
    method ScatterGroups(n: nat, key: nat -> K, hash: nat -> nat) returns (groups: nat)
      requires Valid() && NoClash(ht.Content(), n, key, hash) && groupsNotFound == Missing(ht.Content(), n, key)
      requires Room(n) && groupsNotFound != []
      modifies ht`store, groupHt, groupHt.dir, groupHt.storage, partitionedRows, partitionEndsOut, groupRepresentatives
      ensures ht.Valid()
              && ht.Content() == old(ht.Content()) + NewEntries(P.Groups(groupsNotFound, key), key, hash, init)
      ensures |ht.store| == old(|ht.store|) + groups
      ensures groupHt.Valid() && groupHt.Content() == []
      ensures groupHt.dir == old(groupHt.dir) && groupHt.storage == old(groupHt.storage)
      ensures 0 < groups == |P.Groups(groupsNotFound, key)| <= partitionEndsOut.Length
      ensures |groupsNotFound| <= partitionedRows.Length
      ensures partitionedRows[..|groupsNotFound|] == P.Flat(P.Groups(groupsNotFound, key))
      ensures partitionEndsOut[..groups] == P.Ends(P.Groups(groupsNotFound, key), 0)
    {
      hide *;
      BuffersApart();
      HasRoom(n);
      ht.SameLength();
      ghost var gs := P.Groups(groupsNotFound, key);
      OnePartition(ht.Content(), n, key, hash, groupsNotFound, groupHt.storage.Length);
      groups := P.Partition(groupsNotFound, key, hash, [|groupsNotFound|], partitionedRows, partitionEndsOut, groupHt);
      P.GroupsArePermutation(groupsNotFound, key);
      P.EndNext(gs);
      GetGroupRepresentatives(groups, gs);
      BuildScatter(groups, gs, key, hash);
      ht.SameLength();
    }

    /** Create one entry per key among the rows that found none. */
    method CreateMissingGroups(n: nat, key: nat -> K, hash: nat -> nat, allowResize: bool) returns (groups: nat)
      requires Valid() && NoClash(ht.Content(), n, key, hash) && groupsNotFound == Missing(ht.Content(), n, key)
      requires Room(n)
      modifies `allocations, `entriesInHt, `maxFill, ht, ht.dir, groupHt, groupHt.dir, groupHt.storage
      modifies htMatches, partitionedRows, partitionEndsOut, groupRepresentatives
      ensures Valid() && Room(n) && (ht.dir == old(ht.dir) || fresh(ht.dir))
      ensures groupHt.dir == old(groupHt.dir) && groupHt.storage == old(groupHt.storage)
      ensures groups == |P.Groups(groupsNotFound, key)|
      ensures if groups > 0 && allowResize && |ht.Content()| > old(maxFill) then
                fresh(ht.dir) && maxFill == Capacity.Limit(ht.dir.Length) >= 2 * |ht.Content()|
              else
                ht.dir == old(ht.dir) && maxFill == old(maxFill)
      ensures ht.Content() == old(ht.Content()) + NewEntries(P.Groups(groupsNotFound, key), key, hash, init)
      ensures forall x :: x in groupsNotFound ==>
                htMatches[x] == |old(ht.Content())| + P.Find(P.Groups(groupsNotFound, key), key, key(x))
      ensures forall x :: 0 <= x < htMatches.Length && x !in groupsNotFound ==> htMatches[x] == old(htMatches[x])
    {
      hide *;
      BuffersApart();
      HasRoom(n);
      ghost var c := ht.Content();
      ht.SameLength();
      var alloc := |ht.store|;
      if |groupsNotFound| == 0 {
        NoGroups(groupsNotFound, key, hash, init);
        return 0;
      }
      groups := ScatterGroups(n, key, hash);
      LinkGroups(groups, allowResize);
      WriteBack(groups, groupsNotFound, key, alloc);
      StillDistinct(c, n, key, hash, init);
      AllValid();
      StillRoom(n);
    }

    /** Note the block of new entries and link it. */
    method LinkGroups(groups: nat, allowResize: bool)
      requires ht.Valid() && entriesInHt == Sum(allocations) == ht.inserted && NoneZero(allocations)
      requires groups > 0 && |ht.store| == entriesInHt + groups
      modifies `allocations, `entriesInHt, `maxFill, ht, ht.dir
      ensures ht.Valid() && (ht.dir == old(ht.dir) || fresh(ht.dir))
      ensures ht.inserted == |ht.store| == entriesInHt == Sum(allocations) && ht.Content() == old(ht.Content())
      ensures NoneZero(allocations)
      ensures if allowResize && |ht.Content()| > old(maxFill) then
                fresh(ht.dir) && maxFill == Capacity.Limit(ht.dir.Length) >= 2 * |ht.Content()|
              else
                ht.dir == old(ht.dir) && maxFill == old(maxFill)
    {
      hide *;
      ht.SameLength();
      ghost var before := allocations;
      allocations := allocations + [groups];
      entriesInHt := entriesInHt + groups;
      SumPush(before, groups);
      NoneZeroPush(before, groups);
      InsertGroups(groups, allowResize);
      ht.SameLength();
    }

    lemma LoadIs()
      ensures InLoad() <==> |ht.Content()| <= maxFill == Capacity.Limit(ht.dir.Length)
    {}

    /** Change the aggregate of an entry. */
    method SetAggregate(e: nat, v: V)
      requires Valid() && e < |ht.Content()|
      modifies ht`store
      ensures Valid() && ht.Content() == old(ht.Content())[e := (old(ht.Content())[e].0, old(ht.Content())[e].1, v)]
    {
      hide CE.Linked, Capacity.IsPow2, CE.Data;
      ht.SameLength();
      ht.SetValue(e, v);
      ht.SameLength();
    }

    /** Forget all entries. */
    method ClearHashtable()
      requires Valid()
      modifies `allocations, `entriesInHt, ht, ht.dir
      ensures Valid() && ht.Content() == [] && ht.dir == old(ht.dir)
    {
      hide CE.Linked, Capacity.IsPow2;
      ht.Clear();
      ht.SameLength();
      entriesInHt := 0;
      allocations := [];
    }

    /** One batch: afterwards every row's match is the one entry with the row's key.  Entries that
        were there stay as they were, new ones are exactly those of keys that had none. */
    method LookupBatch(n: nat, key: nat -> K, hash: nat -> nat, allowResize: bool)
      requires Valid() && Room(n) && NoClash(ht.Content(), n, key, hash)
      modifies `groupsNotFound, `allocations, `entriesInHt, `maxFill, ht, ht.dir, groupHt, groupHt.dir, groupHt.storage
      modifies htMatches, groupsFound, partitionedRows, partitionEndsOut, groupRepresentatives
      ensures Valid() && Room(n)
      ensures (ht.dir == old(ht.dir) || fresh(ht.dir)) && groupHt.dir == old(groupHt.dir)
              && groupHt.storage == old(groupHt.storage)
      ensures old(ht.Content()) <= ht.Content()
      ensures forall e :: |old(ht.Content())| <= e < |ht.Content()| ==>
        IsNewEntry(old(ht.Content()), n, key, hash, init, ht.Content()[e])
      ensures forall i :: 0 <= i < n ==> 0 <= htMatches[i] == EntryOf(ht.Content(), key(i))
      ensures allowResize && old(InLoad()) ==> InLoad()
    {
      hide *;
      HasRoom(n);
      BuffersApart();
      ghost var c := ht.Content();
      LoadIs();
      var kept := FindGroups(n, key, hash);
      ghost var matches := htMatches[..];
      var groups := CreateMissingGroups(n, key, hash, allowResize);
      LoadIs();
      HasRoom(n);
      forall i | 0 <= i < n
        ensures 0 <= htMatches[i] == EntryOf(ht.Content(), key(i))
      {
        RowMatches(c, n, key, hash, init, i);
      }
      NewEntriesAreRows(c, n, key, hash, init);
    }
  }

  /** The entries of new groups. */
  function NewEntries<K, V>(gs: seq<seq<nat>>, key: nat -> K, hash: nat -> nat, init: V): (c: Stored<K, V>)
    requires P.NoneEmpty(gs)
    ensures |c| == |gs| && forall g :: 0 <= g < |gs| ==> c[g] == (hash(gs[g][0]), key(gs[g][0]), init)
  {
    seq(|gs|, g requires 0 <= g < |gs| => (hash(gs[g][0]), key(gs[g][0]), init))
  }

  lemma NoGroups<K, V>(s: seq<nat>, key: nat -> K, hash: nat -> nat, init: V)
    requires |s| == 0
    ensures P.Groups(s, key) == [] && NewEntries(P.Groups(s, key), key, hash, init) == []
  {}

  /** Partitioning one input partition gives its groups. */
  lemma OnePartition<K, V>(c: Stored<K, V>, n: nat, key: nat -> K, hash: nat -> nat, s: seq<nat>, room: nat)
    requires NoClash(c, n, key, hash) && s == Missing(c, n, key) && n <= room
    ensures P.BoundsOk([|s|], |s|) && P.PartsOk(s, [|s|], key, hash, room) && P.Start([|s|], 1) == |s|
    ensures P.AllGroups(s, [|s|], 1, key) == P.Groups(s, key) && |P.Groups(s, key)| <= |s|
  {
    hide Missing, P.Groups;
    P.NoMoreGroupsThanRows(s, key);
    assert P.Part(s, [|s|], 0) == s;
    assert P.AllGroups(s, [|s|], 0, key) == [];
  }

  lemma NoneZeroPush(s: seq<nat>, x: nat)
    requires NoneZero(s) && x > 0
    ensures NoneZero(s + [x])
  {}

  lemma SumPush(s: seq<nat>, x: nat)
    ensures Sum(s + [x]) == Sum(s) + x
  {
    assert (s + [x])[..|s|] == s;
  }

  /** New groups have keys and hashes that no entry had. */
  lemma StillDistinct<K, V>(c: Stored<K, V>, n: nat, key: nat -> K, hash: nat -> nat, init: V)
    requires DistinctEntries(c) && NoClash(c, n, key, hash)
    ensures DistinctEntries(c + NewEntries(P.Groups(Missing(c, n, key), key), key, hash, init))
  {
    hide Missing, EntryOf, P.Groups;
    var s := Missing(c, n, key);
    var gs := P.Groups(s, key);
    if gs != [] { P.GroupsAreFilters(s, key, key(gs[0][0])); }
    forall g | 0 <= g < |gs|
      ensures gs[g][0] < n && EntryOf(c, key(gs[g][0])) < 0
    {
      P.FirstsAreRows(s, key, g);
    }
  }

  /** Where the entry of row i is after creating the missing groups. */
  lemma RowMatches<K, V>(c: Stored<K, V>, n: nat, key: nat -> K, hash: nat -> nat, init: V, i: nat)
    requires i < n
    ensures var s := Missing(c, n, key);
      var gs := P.Groups(s, key);
      var e := EntryOf(c + NewEntries(gs, key, hash, init), key(i));
      e >= 0 && (i in s <==> EntryOf(c, key(i)) < 0)
          && e == if i in s then |c| + P.Find(gs, key, key(i)) else EntryOf(c, key(i))
  {
    hide Missing, EntryOf, P.Groups, P.Filter, P.Find;
    var s := Missing(c, n, key);
    var gs := P.Groups(s, key);
    P.GroupsAreFilters(s, key, key(i));
    P.FilterHas(s, key, key(i), i);
    var f := P.Find(gs, key, key(i));
    if f < 0 {
      EntryIs(c + NewEntries(gs, key, hash, init), key(i), EntryOf(c, key(i)));
    } else {
      EntryIs(c + NewEntries(gs, key, hash, init), key(i), |c| + f);
      P.FirstsAreRows(s, key, f);
    }
  }

  /** The entry belongs to a row of the batch whose key had none. */
  ghost predicate IsNewEntry<K, V>(c: Stored<K, V>, n: nat, key: nat -> K, hash: nat -> nat, init: V, e: (nat, K, V)) {
    exists x: nat {:trigger key(x)} :: x < n && EntryOf(c, key(x)) < 0 && e == (hash(x), key(x), init)
  }

  lemma NewEntriesAreRows<K, V>(c: Stored<K, V>, n: nat, key: nat -> K, hash: nat -> nat, init: V)
    ensures var c' := c + NewEntries(P.Groups(Missing(c, n, key), key), key, hash, init);
      forall e :: |c| <= e < |c'| ==> IsNewEntry(c, n, key, hash, init, c'[e])
  {
    hide Missing, EntryOf, P.Groups;
    var s := Missing(c, n, key);
    var gs := P.Groups(s, key);
    var c' := c + NewEntries(gs, key, hash, init);
    forall e | |c| <= e < |c'|
      ensures IsNewEntry(c, n, key, hash, init, c'[e])
    {
      P.FirstsAreRows(s, key, e - |c|);
      var x := gs[e - |c|][0];
      assert x in s;
    }
  }

  lemma NoSum()
    ensures Sum([]) == 0
  {}

  lemma SumNext(s: seq<nat>, b: nat)
    requires b < |s|
    ensures Sum(s[..b + 1]) == Sum(s[..b]) + s[b] <= Sum(s)
  {
    assert s[..b + 1][..b] == s[..b];
    SumOfPrefix(s, b + 1);
  }

  lemma {:induction false} SumOfPrefix(s: seq<nat>, n: nat)
    requires n <= |s|
    ensures Sum(s[..n]) <= Sum(s)
  {
    if n == |s| {
      assert s[..n] == s;
    } else {
      SumOfPrefix(s[..|s| - 1], n);
      assert s[..|s| - 1][..n] == s[..n];
    }
  }

  lemma SameRows(a: seq<nat>, b: seq<nat>)
    requires multiset(a) == multiset(b)
    ensures forall x :: x in a <==> x in b
  {
    assert forall x :: x in a <==> x in multiset(a);
    assert forall x :: x in b <==> x in multiset(b);
  }

  lemma {:induction false} FlatAt(gs: seq<seq<nat>>, g: nat, i: nat)
    requires g < |gs| && i < |gs[g]|
    ensures P.End(gs, g) + i < |P.Flat(gs)| && P.Flat(gs)[P.End(gs, g) + i] == gs[g][i]
  {
    var n := |gs| - 1;
    P.FlatLength(gs[..n]);
    if g == n {
      P.EndOfPrefix(gs, n, n);
    } else {
      FlatAt(gs[..n], g, i);
      P.EndOfPrefix(gs, n, g);
    }
  }

  /** The row at position i of the partitioned rows, when that lies in group p, belongs to group p. */
  lemma RowAt<K>(s: seq<nat>, key: nat -> K, p: nat, i: nat)
    requires p < |P.Groups(s, key)| && P.End(P.Groups(s, key), p) <= i < P.End(P.Groups(s, key), p + 1)
    ensures i < |P.Flat(P.Groups(s, key))| == |s|
    ensures P.Flat(P.Groups(s, key))[i] in s && P.Find(P.Groups(s, key), key, key(P.Flat(P.Groups(s, key))[i])) == p
  {
    hide *;
    var gs := P.Groups(s, key);
    P.EndNext(gs);
    P.GroupsArePermutation(s, key);
    FlatAt(gs, p, i - P.End(gs, p));
    P.GroupIsFilter(s, key, p);
    P.FilterHas(s, key, key(gs[p][0]), P.Flat(gs)[i]);
    P.GroupsAreFilters(s, key, key(gs[p][0]));
    P.FindOwn(gs, key, p);
  }

  function Sum(s: seq<nat>): nat { if s == [] then 0 else Sum(s[..|s| - 1]) + s[|s| - 1] }

  lemma NoRows<K, V>(c: Stored<K, V>, key: nat -> K)
    ensures Present(c, 0, key) == [] && Missing(c, 0, key) == []
  {}

  lemma OneRow<K, V>(c: Stored<K, V>, i: nat, key: nat -> K)
    ensures Present(c, i + 1, key) == if EntryOf(c, key(i)) >= 0 then Present(c, i, key) + [i] else Present(c, i, key)
    ensures Missing(c, i + 1, key) == if EntryOf(c, key(i)) < 0 then Missing(c, i, key) + [i] else Missing(c, i, key)
  {}
}
