/** The bucket words of the chained hash table.

    A word holds the address of the first entry of its bucket.  With tags, the high 16 bits of the
    word are a filter over the hashes of the bucket.  The theory of tables below needs only the
    laws of such words, so it serves the tagged and the untagged table alike. */
module BucketWords {

  const MASK_POINTER: bv64 := 0x0000_FFFF_FFFF_FFFF
  const MASK_TAG: bv64 := 0xFFFF_0000_0000_0000

  function Tag(hash: bv64): bv64 {
    1 << ((hash >> 60) + 48)
  }

  function Ptr(p: bv64): bv64 {
    p & MASK_POINTER
  }

  function Update(word: bv64, p: bv64, hash: bv64): bv64 {
    p | (word & MASK_TAG) | Tag(hash)
  }

  /** Does the filter of a word let a hash pass? */
  predicate Passes(word: bv64, hash: bv64) { word & Tag(hash) != 0 }

  predicate IsAddress(a: bv64) { a != 0 && a & MASK_TAG == 0 }

  /** How a table reads and writes its words; T is the machine word. */
  datatype Format<!T> = Format(
    end: T,                      // the null pointer, also the word of an empty bucket
    address: T -> bool,          // what may be stored as an entry address
    bucket: T -> T,              // hash to directory slot
    pointer: T -> T,             // word to first entry
    admits: (T, T) -> bool,      // does the filter of a word let a hash pass?
    update: (T, T, T) -> T)      // word, new first entry, its hash

  ghost predicate Lawful<T(!new)>(f: Format<T>) {
    && !f.address(f.end)
    && f.pointer(f.end) == f.end
    && (forall w, p, h :: f.address(p) ==> f.pointer(f.update(w, p, h)) == p)
    && (forall w, p, h :: f.address(p) ==> f.admits(f.update(w, p, h), h))
    && (forall w, p, h, other :: f.admits(w, other) ==> f.admits(f.update(w, p, h), other))
  }

  /** find_chain_tagged and insert_tagged. */
  function Tagged(mask: bv64): Format<bv64> {
    Format(0,
           (a: bv64) => IsAddress(a),
           (hash: bv64) => hash & mask,
           (w: bv64) => Ptr(w),
           (w: bv64, hash: bv64) => Passes(w, hash),
           (w: bv64, p: bv64, hash: bv64) => Update(w, p, hash))
  }

  /** find_chain and insert. */
  function Untagged(mask: bv64): Format<bv64> {
    Format(0,
           (a: bv64) => a != 0,
           (hash: bv64) => hash & mask,
           (w: bv64) => w,
           (w: bv64, hash: bv64) => true,
           (w: bv64, p: bv64, hash: bv64) => p)
  }

  lemma TagIsAboveThePointer(hash: bv64)
    ensures Tag(hash) & MASK_POINTER == 0
    ensures Tag(hash) & MASK_TAG == Tag(hash)
    ensures Tag(hash) != 0
  {}

  lemma UpdateKeepsPointer(word: bv64, p: bv64, hash: bv64)
    requires p & MASK_TAG == 0
    ensures Ptr(Update(word, p, hash)) == p
  {
    TagIsAboveThePointer(hash);
  }

  lemma UpdateSetsTag(word: bv64, p: bv64, hash: bv64)
    ensures Update(word, p, hash) & Tag(hash) != 0
  {
    TagIsAboveThePointer(hash);
  }

  lemma UpdateKeepsTags(word: bv64, p: bv64, hash: bv64, other: bv64)
    requires word & Tag(other) != 0
    ensures Update(word, p, hash) & Tag(other) != 0
  {
    TagIsAboveThePointer(other);
  }

  lemma TaggedIsLawful(mask: bv64)
    ensures Lawful(Tagged(mask))
  {
    hide Ptr, Tag, Update, Passes, IsAddress;
    var f := Tagged(mask);
    EndIsNull();
    forall w, p, h | f.address(p)
      ensures f.pointer(f.update(w, p, h)) == p && f.admits(f.update(w, p, h), h)
    {
      KeepsPointer(w, p, h);
      PassesNew(w, p, h);
    }
    forall w, p, h, other | f.admits(w, other)
      ensures f.admits(f.update(w, p, h), other)
    {
      PassesOld(w, p, h, other);
    }
  }

  lemma EndIsNull()
    ensures Ptr(0) == 0 && !IsAddress(0)
  {}

  lemma KeepsPointer(w: bv64, p: bv64, h: bv64)
    requires IsAddress(p)
    ensures Ptr(Update(w, p, h)) == p
  {
    hide Ptr, Update;
    UpdateKeepsPointer(w, p, h);
  }

  lemma PassesNew(w: bv64, p: bv64, h: bv64)
    ensures Passes(Update(w, p, h), h)
  {
    hide Update, Tag;
    UpdateSetsTag(w, p, h);
  }

  lemma PassesOld(w: bv64, p: bv64, h: bv64, other: bv64)
    requires Passes(w, other)
    ensures Passes(Update(w, p, h), other)
  {
    hide Update, Tag;
    UpdateKeepsTags(w, p, h, other);
  }

  lemma UntaggedIsLawful(mask: bv64)
    ensures Lawful(Untagged(mask))
  {}

  // ---- what exactly the filter lets pass

  /** The filter of a word lets pass what is alike to one of the hashes it was updated with. */
  ghost predicate Exact<T(!new)>(f: Format<T>, alike: (T, T) -> bool) {
    && (forall o :: !f.admits(f.end, o))
    && (forall w, p, h, o :: f.address(p) ==> (f.admits(f.update(w, p, h), o) <==> f.admits(w, o) || alike(h, o)))
  }

  function SameTop(h: bv64, o: bv64): bool { h >> 60 == o >> 60 }

  lemma PassesNothingElse(word: bv64, p: bv64, h: bv64, o: bv64)
    requires IsAddress(p) && !Passes(word, o) && !SameTop(h, o)
    ensures !Passes(Update(word, p, h), o)
  {}

  lemma PassesAlike(word: bv64, p: bv64, h: bv64, o: bv64)
    requires SameTop(h, o)
    ensures Passes(Update(word, p, h), o)
  {}

  lemma WordAdmits(word: bv64, p: bv64, h: bv64, o: bv64)
    requires IsAddress(p)
    ensures Passes(Update(word, p, h), o) <==> Passes(word, o) || SameTop(h, o)
  {
    hide *;
    if SameTop(h, o) {
      PassesAlike(word, p, h, o);
    } else if Passes(word, o) {
      PassesOld(word, p, h, o);
    } else {
      PassesNothingElse(word, p, h, o);
    }
  }

  lemma TaggedIsExact(mask: bv64)
    ensures Exact(Tagged(mask), SameTop)
  {
    hide Tag, Update, SameTop, Ptr, Passes, IsAddress;
    var f := Tagged(mask);
    forall w, p, h, o | f.address(p)
      ensures f.admits(f.update(w, p, h), o) <==> f.admits(w, o) || SameTop(h, o)
    {
      WordAdmits(w, p, h, o);
    }
    forall o
      ensures !f.admits(f.end, o)
    {
      ZeroPasses(o);
    }
  }

  lemma ZeroPasses(o: bv64)
    ensures !Passes(0, o)
  {}
}

/** The chained hash table over such words. */
module Hashmap {
  import opened Chains
  import opened BucketWords

  datatype Header<T> = Header(next: T, hash: T)

  /** The words of the directory and the headers of all materialised entries. */
  datatype Table<!T> = Table(format: Format<T>, words: map<T, T>, mem: map<T, Header<T>>)

  function BucketOf<T(==, !new)>(t: Table<T>, a: T): T
    requires a in t.mem
  {
    t.format.bucket(t.mem[a].hash)
  }

  /** The address of the i-th inserted entry; -1 is the end of a chain. */
  function At<T>(end: T, log: seq<T>, i: int): T
    requires -1 <= i < |log|
  {
    if i < 0 then end else log[i]
  }

  ghost function Buckets<T(!new)>(t: Table<T>, log: seq<T>): (bs: seq<T>)
    requires forall i :: 0 <= i < |log| ==> log[i] in t.mem
  {
    seq(|log|, i requires 0 <= i < |log| => BucketOf(t, log[i]))
  }

  /** `log` lists the inserted entries in the order of their insertion: `next` pointers and bucket
      words link exactly these entries, and each word's filter covers its whole bucket. */
  ghost predicate Represents<T(!new)>(t: Table<T>, log: seq<T>) {
    && Lawful(t.format)
    && (forall h :: t.format.bucket(h) in t.words)
    && (forall i :: 0 <= i < |log| ==> log[i] in t.mem && t.format.address(log[i]))
    && (forall i, j :: 0 <= i < j < |log| ==> log[i] != log[j])
    && (forall b :: b in t.words ==> t.format.pointer(t.words[b]) == At(t.format.end, log, Last(Buckets(t, log), b)))
    && (forall i :: 0 <= i < |log| ==> t.mem[log[i]].next == At(t.format.end, log, Next(Buckets(t, log), i)))
    && (forall i :: 0 <= i < |log| ==> t.format.admits(t.words[BucketOf(t, log[i])], t.mem[log[i]].hash))
  }

  /** First entry of the chain for a hash, or end when the filter excludes the hash. */
  function FindChain<T(==, !new)>(t: Table<T>, hash: T): T
    requires t.format.bucket(hash) in t.words
  {
    var candidate := t.words[t.format.bucket(hash)];
    if t.format.admits(candidate, hash) then t.format.pointer(candidate) else t.format.end
  }

  /** A present hash is never rejected, and what is found is the newest entry of the bucket. */
  lemma FindChainIsComplete<T(!new)>(t: Table<T>, log: seq<T>, hash: T)
    requires Represents(t, log)
    ensures FindChain(t, hash) == t.format.end ==> forall i :: 0 <= i < |log| ==> t.mem[log[i]].hash != hash
    ensures FindChain(t, hash) != t.format.end ==>
      var newest := Last(Buckets(t, log), t.format.bucket(hash));
      newest >= 0 && FindChain(t, hash) == log[newest]
  {
    var bs := Buckets(t, log);
    var newest := Last(bs, t.format.bucket(hash));
    forall i | 0 <= i < |log| && t.mem[log[i]].hash == hash
      ensures FindChain(t, hash) != t.format.end
    {
      assert bs[i] == t.format.bucket(hash);
      assert newest >= i;
    }
  }

  /** What a successful compare-and-swap publishes, or a plain store without concurrency. */
  function Publish<T(==, !new)>(t: Table<T>, entry: T): Table<T>
    requires entry in t.mem && BucketOf(t, entry) in t.words
  {
    var b := BucketOf(t, entry);
    t.(words := t.words[b := t.format.update(t.words[b], entry, t.mem[entry].hash)])
  }

  /** The new entry is linked in front of its bucket, as the insert loop does before its swap. */
  ghost predicate ReadyToPublish<T(!new)>(t: Table<T>, log: seq<T>, entry: T) {
    && Represents(t, log)
    && entry in t.mem && entry !in log && t.format.address(entry)
    && t.mem[entry].next == t.format.pointer(t.words[BucketOf(t, entry)])
  }

  lemma PublishBuckets<T(!new)>(t: Table<T>, log: seq<T>, entry: T)
    requires ReadyToPublish(t, log, entry)
    ensures Buckets(Publish(t, entry), log + [entry]) == Buckets(t, log) + [BucketOf(t, entry)]
  {}

  lemma PublishWord<T(!new)>(t: Table<T>, log: seq<T>, entry: T, c: T)
    requires ReadyToPublish(t, log, entry) && c in t.words
    ensures c in Publish(t, entry).words
    ensures t.format.pointer(Publish(t, entry).words[c])
      == At(t.format.end, log + [entry], Last(Buckets(t, log) + [BucketOf(t, entry)], c))
  {
    LastAppend(Buckets(t, log), BucketOf(t, entry), c);
  }

  lemma PublishNext<T(!new)>(t: Table<T>, log: seq<T>, entry: T, i: nat)
    requires ReadyToPublish(t, log, entry) && i <= |log|
    ensures t.mem[(log + [entry])[i]].next
      == At(t.format.end, log + [entry], Next(Buckets(t, log) + [BucketOf(t, entry)], i))
  {
    var bs := Buckets(t, log);
    if i < |log| {
      NextAppend(bs, BucketOf(t, entry), i);
    } else {
      assert (bs + [BucketOf(t, entry)])[..i] == bs;
    }
  }

  lemma PublishInserts<T(!new)>(t: Table<T>, log: seq<T>, entry: T)
    requires ReadyToPublish(t, log, entry)
    ensures Represents(Publish(t, entry), log + [entry])
  {
    PublishBuckets(t, log, entry);
    forall c | c in t.words { PublishWord(t, log, entry, c); }
    forall i | 0 <= i <= |log| { PublishNext(t, log, entry, i); }
  }

  /** Headers outside the log are not part of the represented table. */
  lemma RepresentsFrame<T(!new)>(t: Table<T>, t': Table<T>, log: seq<T>)
    requires Represents(t, log)
    requires t'.format == t.format && t'.words == t.words
    requires forall i :: 0 <= i < |log| ==> log[i] in t'.mem && t'.mem[log[i]] == t.mem[log[i]]
    ensures Represents(t', log)
  {
    assert Buckets(t', log) == Buckets(t, log);
  }

  /** An empty directory. */
  lemma EmptyRepresents<T(!new)>(t: Table<T>)
    requires Lawful(t.format)
    requires forall h :: t.format.bucket(h) in t.words
    requires forall b :: b in t.words ==> t.words[b] == t.format.end
    ensures Represents(t, [])
  {}

  /** Following `next` from `a` visits exactly `chain` and then reaches the null pointer. */
  ghost predicate IsChain<T(!new)>(t: Table<T>, a: T, chain: seq<T>) {
    if chain == [] then a == t.format.end
    else a == chain[0] && a != t.format.end && a in t.mem && IsChain(t, t.mem[a].next, chain[1..])
  }

  ghost function Addresses<T>(log: seq<T>, w: seq<nat>): (chain: seq<T>)
    requires forall k :: 0 <= k < |w| ==> w[k] < |log|
    ensures |chain| == |w| && forall k :: 0 <= k < |w| ==> chain[k] == log[w[k]]
  {
    if w == [] then [] else [log[w[0]]] + Addresses(log, w[1..])
  }

  lemma {:induction false} ChainIsWalk<T(!new)>(t: Table<T>, log: seq<T>, i: int)
    requires Represents(t, log) && -1 <= i < |log|
    ensures IsChain(t, At(t.format.end, log, i), Addresses(log, Walk(Buckets(t, log), i)))
    decreases i
  {
    var bs := Buckets(t, log);
    if i >= 0 {
      var rest := Walk(bs, Next(bs, i));
      ChainIsWalk(t, log, Next(bs, i));
      assert ([i] + rest)[1..] == rest;
      assert ([log[i]] + Addresses(log, rest))[1..] == Addresses(log, rest);
    }
  }

  /** Every bucket is a finite acyclic chain of exactly the inserted entries of that bucket. */
  lemma BucketIsChain<T(!new)>(t: Table<T>, log: seq<T>, b: T) returns (chain: seq<T>)
    requires Represents(t, log) && b in t.words
    ensures IsChain(t, t.format.pointer(t.words[b]), chain)
    ensures forall a :: a in chain <==> a in log && BucketOf(t, a) == b
    ensures forall j, k :: 0 <= j < k < |chain| ==> chain[j] != chain[k]
  {
    var bs := Buckets(t, log);
    var w := Walk(bs, Last(bs, b));
    WalkIsBucket(bs, b);
    ChainIsWalk(t, log, Last(bs, b));
    chain := Addresses(log, w);
    forall a
      ensures a in chain <==> a in log && BucketOf(t, a) == b
    {
      if a in log && BucketOf(t, a) == b {
        var i :| 0 <= i < |log| && log[i] == a;
        assert bs[i] == b;
        var k :| 0 <= k < |w| && w[k] == i;
        assert chain[k] == a;
      }
      if a in chain {
        var k :| 0 <= k < |chain| && chain[k] == a;
        assert w[k] in w;
      }
    }
  }
}
