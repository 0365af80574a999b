/** Insertion-ordered bucket chains.

    Every chained table of the engine links a new entry in front of its bucket.  So the entry
    inserted as number i points to the newest earlier entry of the same bucket, and a directory
    slot points to the newest entry of its bucket.  This module states that shape once; `bs[i]`
    is the bucket of the i-th inserted entry and -1 stands for the end of a chain. */
module Chains {

  /** The newest entry of bucket b, or -1. */
  function Last<B(==)>(bs: seq<B>, b: B): (r: int)
    ensures -1 <= r < |bs|
    ensures r >= 0 ==> bs[r] == b
    ensures forall j :: r < j < |bs| ==> bs[j] != b
  {
    if bs == [] then -1
    else if bs[|bs| - 1] == b then |bs| - 1
    else Last(bs[..|bs| - 1], b)
  }

  /** What `next` of entry i holds: the newest earlier entry of its bucket. */
  function Next<B(==)>(bs: seq<B>, i: nat): (r: int)
    requires i < |bs|
    ensures -1 <= r < i
    ensures r >= 0 ==> bs[r] == bs[i]
    ensures forall j :: r < j < i ==> bs[j] != bs[i]
  {
    Last(bs[..i], bs[i])
  }

  /** The indices a walk from entry i visits. */
  function Walk<B(==)>(bs: seq<B>, i: int): (w: seq<nat>)
    requires -1 <= i < |bs|
    ensures forall k :: 0 <= k < |w| ==> w[k] <= i && bs[w[k]] == bs[i]
    decreases i
  {
    if i < 0 then [] else [i] + Walk(bs, Next(bs, i))
  }

  lemma LastAppend<B>(bs: seq<B>, c: B, b: B)
    ensures Last(bs + [c], b) == if c == b then |bs| else Last(bs, b)
  {
    assert (bs + [c])[..|bs|] == bs;
  }

  lemma NextAppend<B>(bs: seq<B>, c: B, i: nat)
    requires i < |bs|
    ensures Next(bs + [c], i) == Next(bs, i)
  {
    assert (bs + [c])[..i] == bs[..i];
  }

  /** A walk from a directory slot visits every entry of the bucket exactly once, newest first. */
  lemma {:induction false} WalkIsBucket<B>(bs: seq<B>, b: B)
    ensures forall i :: i in Walk(bs, Last(bs, b)) <==> 0 <= i < |bs| && bs[i] == b
    ensures forall j, k :: 0 <= j < k < |Walk(bs, Last(bs, b))| ==> Walk(bs, Last(bs, b))[j] > Walk(bs, Last(bs, b))[k]
  {
    WalkFrom(bs, Last(bs, b));
  }

  lemma {:induction false} WalkFrom<B>(bs: seq<B>, i: int)
    requires -1 <= i < |bs|
    ensures i >= 0 ==> forall k :: k in Walk(bs, i) <==> 0 <= k <= i && bs[k] == bs[i]
    ensures forall j, k :: 0 <= j < k < |Walk(bs, i)| ==> Walk(bs, i)[j] > Walk(bs, i)[k]
    decreases i
  {
    if i >= 0 {
      WalkFrom(bs, Next(bs, i));
    }
  }
}
