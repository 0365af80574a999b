/** What the filter in the high bits of a bucket word lets pass: exactly the hashes that share their top
    four bits with an entry of the bucket. */
module TagFilter {

  import opened BucketWords
  import opened ConcurrentInsert
  import opened Hashmap

  /** The word of every bucket lets pass exactly what is alike to one of its entries. */
  ghost predicate FilterIs<T(!new)>(s: State<T>, alike: (T, T) -> bool) {
    && (forall i :: 0 <= i < |s.log| ==> s.log[i] in s.table.mem)
    && forall b, o {:trigger Admits(s, b, o)} :: b in s.table.words ==> (Admits(s, b, o) <==> Alike(s, alike, b, o))
  }

  ghost predicate Admits<T(!new)>(s: State<T>, b: T, o: T)
    requires b in s.table.words
  {
    s.table.format.admits(s.table.words[b], o)
  }

  /** Some inserted entry of the bucket is alike. */
  ghost predicate Alike<T(!new)>(s: State<T>, alike: (T, T) -> bool, b: T, o: T)
    requires forall i :: 0 <= i < |s.log| ==> s.log[i] in s.table.mem
  {
    exists i: nat {:trigger s.log[i]} ::
        i < |s.log| && BucketOf(s.table, s.log[i]) == b && alike(s.table.mem[s.log[i]].hash, o)
  }

  lemma SwapFilter<T(!new)>(s: State<T>, s': State<T>, all: iset<T>, t: nat, alike: (T, T) -> bool, b: T, o: T)
    requires Inv(s, all) && SwapStep(s, s', t) && Exact(s.table.format, alike) && FilterIs(s, alike)
    requires b in s.table.words
    ensures b in s'.table.words && (forall i :: 0 <= i < |s'.log| ==> s'.log[i] in s'.table.mem)
    ensures Admits(s', b, o) <==> Alike(s', alike, b, o)
  {
    hide Represents, Owned, Conserved;
    var entry := s.threads[t].todo[0];
    assert entry in s.threads[t].todo;
    assert Admits(s, b, o) <==> Alike(s, alike, b, o);
    if i: nat :| i < |s.log| && BucketOf(s.table, s.log[i]) == b && alike(s.table.mem[s.log[i]].hash, o) {
      assert s'.log[i] == s.log[i];
    }
    assert s'.log[|s.log|] == entry;
  }

  lemma StepKeepsFilter<T(!new)>(s: State<T>, s': State<T>, all: iset<T>, t: nat, alike: (T, T) -> bool)
    requires Inv(s, all) && Step(s, s', t) && Exact(s.table.format, alike) && FilterIs(s, alike)
    ensures s'.table.format == s.table.format && FilterIs(s', alike)
  {
    hide Inv, Exact;
    if SwapStep(s, s', t) {
      forall b, o | b in s'.table.words
        ensures Admits(s', b, o) <==> Alike(s', alike, b, o)
      {
        SwapFilter(s, s', all, t, alike, b, o);
      }
    } else {
      forall b, o | b in s'.table.words
        ensures Admits(s', b, o) <==> Alike(s', alike, b, o)
      {
        assert Admits(s, b, o) <==> Alike(s, alike, b, o);
        SameHashes(s, s', t, alike, b, o);
      }
    }
  }

  lemma SameHashes<T(!new)>(s: State<T>, s': State<T>, t: nat, alike: (T, T) -> bool, b: T, o: T)
    requires Step(s, s', t) && !SwapStep(s, s', t) && b in s.table.words
    requires forall i :: 0 <= i < |s.log| ==> s.log[i] in s.table.mem
    ensures s'.log == s.log && s'.table.words == s.table.words && s'.table.format == s.table.format
    ensures forall i :: 0 <= i < |s.log| ==> s'.log[i] in s'.table.mem
    ensures Alike(s', alike, b, o) <==> Alike(s, alike, b, o)
  {}

  lemma {:induction false} RunKeepsFilter<T(!new)>(run: seq<State<T>>, who: seq<nat>, all: iset<T>, n: nat,
      alike: (T, T) -> bool)
    requires IsRun(run, who, all) && n < |run| && Exact(run[0].table.format, alike)
    ensures run[n].table.format == run[0].table.format && FilterIs(run[n], alike)
  {
    hide Inv, Step;
    if n > 0 {
      RunKeepsFilter(run, who, all, n - 1, alike);
      RunKeepsInv(run, who, all, n - 1);
      StepKeepsFilter(run[n - 1], run[n], all, who[n - 1], alike);
    }
  }

  lemma RejectsIff<T(!new)>(s: State<T>, all: iset<T>, hash: T, alike: (T, T) -> bool)
    requires Inv(s, all) && FilterIs(s, alike)
    ensures s.table.format.bucket(hash) in s.table.words && forall i :: 0 <= i < |s.log| ==> s.log[i] in s.table.mem
    ensures FindChain(s.table, hash) == s.table.format.end <==> !Alike(s, alike, s.table.format.bucket(hash), hash)
  {
    var b := s.table.format.bucket(hash);
    hide Owned, Conserved, Alike;
    assert Admits(s, b, hash) <==> Alike(s, alike, b, hash);
    if Alike(s, alike, b, hash) { BucketIsNotEmpty(s, all, b, hash, alike); }
  }

  lemma BucketIsNotEmpty<T(!new)>(s: State<T>, all: iset<T>, b: T, hash: T, alike: (T, T) -> bool)
    requires Inv(s, all) && b in s.table.words && FilterIs(s, alike) && Alike(s, alike, b, hash)
    ensures s.table.format.pointer(s.table.words[b]) != s.table.format.end
  {
    hide Owned, Conserved, FilterIs;
    var i: nat :| i < |s.log| && BucketOf(s.table, s.log[i]) == b;
    assert Buckets(s.table, s.log)[i] == b;
  }

  /** In every reachable state of a concurrent build with tagged words, the lookup rejects a hash exactly if
      no inserted entry of its bucket shares its top four bits. */
  lemma RejectsExactly(run: seq<State<bv64>>, who: seq<nat>, all: iset<bv64>, n: nat, mask: bv64, hash: bv64)
    requires IsRun(run, who, all) && n < |run| && run[0].table.format == Tagged(mask)
    ensures run[n].table.format == Tagged(mask) && run[n].table.format.bucket(hash) in run[n].table.words
    ensures forall i :: 0 <= i < |run[n].log| ==> run[n].log[i] in run[n].table.mem
    ensures FindChain(run[n].table, hash) == run[n].table.format.end
            <==> !Alike(run[n], SameTop, run[n].table.format.bucket(hash), hash)
  {
    hide *;
    RunKeepsInv(run, who, all, n);
    TaggedIsExact(mask);
    FirstState(run, who, all);
    RunKeepsFilter(run, who, all, n, SameTop);
    RejectsIff(run[n], all, hash, SameTop);
  }

  lemma FirstState<T(!new)>(run: seq<State<T>>, who: seq<nat>, all: iset<T>)
    requires IsRun(run, who, all)
    ensures |run| == |who| + 1 > 0
  {}
}
