/** What grouping computes: for every key, the fold of all its values.  Rows are (hash, key, value)
    triples; two sequences of rows are the same to grouping when they have the same keys with the
    same folds. */
module GroupFold {

  /** Rows and entries as (hash, key, value). */
  type Rows<K, V> = seq<(nat, K, V)>

  /** The aggregate's update function and initial value. */
  datatype Agg<!V> = Agg(op: (V, V) -> V, init: V)

  ghost predicate CommutativeMonoid<V(!new)>(g: Agg<V>) {
    && (forall x :: g.op(g.init, x) == x)
    && (forall x, y :: g.op(x, y) == g.op(y, x))
    && (forall x, y, z :: g.op(g.op(x, y), z) == g.op(x, g.op(y, z)))
  }

  /** The fold of the values of key k, in row order. */
  function Fold<K(==), V>(rows: Rows<K, V>, k: K, g: Agg<V>): V {
    if rows == [] then g.init
    else
      var t := Fold(rows[..|rows| - 1], k, g);
      if rows[|rows| - 1].1 == k then g.op(t, rows[|rows| - 1].2) else t
  }

  ghost predicate Has<K, V>(rows: Rows<K, V>, k: K) {
    exists i {:trigger rows[i]} :: 0 <= i < |rows| && rows[i].1 == k
  }

  ghost predicate SameFor<K, V>(a: Rows<K, V>, b: Rows<K, V>, k: K, g: Agg<V>) {
    Fold(a, k, g) == Fold(b, k, g) && (Has(a, k) <==> Has(b, k))
  }

  ghost predicate Same<K(!new), V>(a: Rows<K, V>, b: Rows<K, V>, g: Agg<V>) {
    forall k {:trigger SameFor(a, b, k, g)} :: SameFor(a, b, k, g)
  }

  // ---- monoid laws, one instance at a time

  lemma Unit<V(!new)>(g: Agg<V>, x: V)
    requires CommutativeMonoid(g)
    ensures g.op(g.init, x) == x == g.op(x, g.init)
  {
    assert g.op(x, g.init) == g.op(g.init, x);
  }

  lemma Commutes<V(!new)>(g: Agg<V>, x: V, y: V)
    requires CommutativeMonoid(g)
    ensures g.op(x, y) == g.op(y, x)
  {}

  lemma Assoc<V(!new)>(g: Agg<V>, x: V, y: V, z: V)
    requires CommutativeMonoid(g)
    ensures g.op(g.op(x, y), z) == g.op(x, g.op(y, z))
  {}

  lemma Swap<V(!new)>(g: Agg<V>, x: V, y: V, z: V)
    requires CommutativeMonoid(g)
    ensures g.op(g.op(x, y), z) == g.op(g.op(x, z), y)
  {
    hide CommutativeMonoid;
    Assoc(g, x, y, z);
    Commutes(g, y, z);
    Assoc(g, x, z, y);
  }

  // ---- folds of parts

  /** Folding is a homomorphism. */
  lemma {:induction false} FoldConcat<K(!new), V(!new)>(a: Rows<K, V>, b: Rows<K, V>, k: K, g: Agg<V>)
    requires CommutativeMonoid(g)
    ensures Fold(a + b, k, g) == g.op(Fold(a, k, g), Fold(b, k, g))
    ensures Has(a + b, k) <==> Has(a, k) || Has(b, k)
  {
    hide CommutativeMonoid, Has;
    HasConcat(a, b, k);
    if b == [] {
      assert a + b == a;
      Unit(g, Fold(a, k, g));
    } else {
      var b', v := b[..|b| - 1], b[|b| - 1].2;
      assert (a + b)[..|a + b| - 1] == a + b';
      FoldConcat(a, b', k, g);
      Assoc(g, Fold(a, k, g), Fold(b', k, g), v);
    }
  }

  lemma HasConcat<K(!new), V(!new)>(a: Rows<K, V>, b: Rows<K, V>, k: K)
    ensures Has(a + b, k) <==> Has(a, k) || Has(b, k)
  {
    if Has(a, k) {
      var i :| 0 <= i < |a| && a[i].1 == k;
      assert (a + b)[i].1 == k;
    }
    if Has(b, k) {
      var i :| 0 <= i < |b| && b[i].1 == k;
      assert (a + b)[|a| + i].1 == k;
    }
  }

  /** A key that does not occur folds to the initial value. */
  lemma {:induction false} FoldOfNone<K(!new), V(!new)>(a: Rows<K, V>, k: K, g: Agg<V>)
    requires !Has(a, k)
    ensures Fold(a, k, g) == g.init
  {
    if a != [] {
      assert a[|a| - 1].1 != k;
      assert forall i :: 0 <= i < |a| - 1 ==> a[i] == a[..|a| - 1][i];
      FoldOfNone(a[..|a| - 1], k, g);
    }
  }

  /** A key that occurs once folds to its value. */
  lemma FoldOfOne<K(!new), V(!new)>(a: Rows<K, V>, i: nat, g: Agg<V>)
    requires CommutativeMonoid(g) && i < |a|
    requires forall j :: 0 <= j < |a| && j != i ==> a[j].1 != a[i].1
    ensures Fold(a, a[i].1, g) == a[i].2
  {
    hide CommutativeMonoid, Fold;
    var k := a[i].1;
    assert a == a[..i] + [a[i]] + a[i + 1..];
    FoldOfNone(a[..i], k, g);
    FoldOfNone(a[i + 1..], k, g);
    FoldOfSingle(a[i], k, g);
    FoldConcat(a[..i], [a[i]], k, g);
    FoldConcat(a[..i] + [a[i]], a[i + 1..], k, g);
    Unit(g, a[i].2);
  }

  lemma FoldOfSingle<K(!new), V(!new)>(e: (nat, K, V), k: K, g: Agg<V>)
    requires CommutativeMonoid(g)
    ensures Fold([e], k, g) == if e.1 == k then e.2 else g.init
    ensures Has([e], k) <==> e.1 == k
  {
    assert [e][..0] == [];
    Unit(g, e.2);
    if e.1 == k { assert [e][0].1 == k; }
  }

  // ---- Same is a congruence

  lemma SameSelf<K(!new), V(!new)>(a: Rows<K, V>, g: Agg<V>)
    ensures Same(a, a, g)
  {}

  lemma SameSym<K(!new), V(!new)>(a: Rows<K, V>, b: Rows<K, V>, g: Agg<V>)
    requires Same(a, b, g)
    ensures Same(b, a, g)
  {
    hide Fold, Has;
    forall k
      ensures SameFor(b, a, k, g)
    {
      assert SameFor(a, b, k, g);
    }
  }

  lemma SameTrans<K(!new), V(!new)>(a: Rows<K, V>, b: Rows<K, V>, c: Rows<K, V>, g: Agg<V>)
    requires Same(a, b, g) && Same(b, c, g)
    ensures Same(a, c, g)
  {
    hide Fold, Has;
    forall k
      ensures SameFor(a, c, k, g)
    {
      assert SameFor(a, b, k, g) && SameFor(b, c, k, g);
    }
  }

  lemma SameConcat<K(!new), V(!new)>(a: Rows<K, V>, a': Rows<K, V>, b: Rows<K, V>, b': Rows<K, V>, g: Agg<V>)
    requires CommutativeMonoid(g) && Same(a, a', g) && Same(b, b', g)
    ensures Same(a + b, a' + b', g)
  {
    hide Fold, Has, CommutativeMonoid;
    forall k
      ensures SameFor(a + b, a' + b', k, g)
    {
      assert SameFor(a, a', k, g) && SameFor(b, b', k, g);
      FoldConcat(a, b, k, g);
      FoldConcat(a', b', k, g);
    }
  }

  lemma SameSwap<K(!new), V(!new)>(a: Rows<K, V>, b: Rows<K, V>, c: Rows<K, V>, g: Agg<V>)
    requires CommutativeMonoid(g)
    ensures Same(a + b + c, a + c + b, g)
  {
    hide Fold, Has, CommutativeMonoid;
    forall k
      ensures SameFor(a + b + c, a + c + b, k, g)
    {
      FoldConcat(a, b, k, g);
      FoldConcat(a + b, c, k, g);
      FoldConcat(a, c, k, g);
      FoldConcat(a + c, b, k, g);
      Swap(g, Fold(a, k, g), Fold(b, k, g), Fold(c, k, g));
    }
  }

  // ---- adding one value to a table of aggregates

  /** No two entries for one key. */
  ghost predicate OneEntryPerKey<K, V>(c: Rows<K, V>) {
    forall i, j :: 0 <= i < j < |c| ==> c[i].1 != c[j].1
  }

  /** Updating the aggregate of entry i with v. */
  lemma UpdateSame<K(!new), V(!new)>(c: Rows<K, V>, i: nat, v: V, g: Agg<V>)
    requires CommutativeMonoid(g) && i < |c|
    ensures Same(c[i := (c[i].0, c[i].1, g.op(c[i].2, v))], c + [(c[i].0, c[i].1, v)], g)
  {
    hide Fold, Has, CommutativeMonoid;
    var e, e', n := c[i], (c[i].0, c[i].1, g.op(c[i].2, v)), (c[i].0, c[i].1, v);
    var a, b := c[..i], c[i + 1..];
    assert c == a + [e] + b && c[i := e'] == a + [e'] + b && c + [n] == a + [e] + b + [n];
    MergeSame(e, e', n, g);
    SameSelf(a, g);
    SameSelf(b, g);
    SameConcat(a, a, [e'], [e] + [n], g);
    SameConcat(a + [e'], a + ([e] + [n]), b, b, g);
    assert a + ([e] + [n]) + b == a + [e] + [n] + b;
    SameSwap(a + [e], [n], b, g);
    SameTrans(a + [e'] + b, a + [e] + [n] + b, a + [e] + b + [n], g);
  }

  lemma MergeSame<K(!new), V(!new)>(e: (nat, K, V), e': (nat, K, V), n: (nat, K, V), g: Agg<V>)
    requires CommutativeMonoid(g) && e.1 == e'.1 == n.1 && e'.2 == g.op(e.2, n.2)
    ensures Same([e'], [e] + [n], g)
  {
    hide Fold, Has, CommutativeMonoid;
    forall k
      ensures SameFor([e'], [e] + [n], k, g)
    {
      FoldOfSingle(e', k, g);
      FoldOfSingle(e, k, g);
      FoldOfSingle(n, k, g);
      FoldConcat([e], [n], k, g);
      Unit(g, g.init);
    }
  }

}
