/** Ranges of addresses. */
module Ranges {

  datatype Range = Range(at: nat, size: nat)

  ghost predicate Disjoint(a: Range, b: Range) {
    a.at + a.size <= b.at || b.at + b.size <= a.at
  }

  ghost predicate Within(a: Range, b: Range) {
    b.at <= a.at && a.at + a.size <= b.at + b.size
  }

  ghost predicate PairwiseDisjoint(a: seq<Range>) {
    forall i, j :: 0 <= i < j < |a| ==> Disjoint(a[i], a[j])
  }

  /** No range of a overlaps a range of b. */
  ghost predicate AllDisjoint(a: seq<Range>, b: seq<Range>) {
    forall i, j :: 0 <= i < |a| && 0 <= j < |b| ==> Disjoint(a[i], b[j])
  }
}
