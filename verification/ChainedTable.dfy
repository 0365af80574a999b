/** The pointer-linked hash table of the runtime, used by one thread: entries live in memory blocks
    owned by the caller, the table links them.  An entry is named by its position in allocation
    order; -1 is the null pointer. */
module ChainedTable {

  import opened Capacity
  import opened ChainedEntries

  const NULL: int := -1

  class Table<K, V> {
    var dir: array<int>
    var store: seq<Entry<K, V>>   // all entries in memory blocks
    var inserted: nat             // how many of them are linked

    ghost predicate Valid()
      reads this, dir
    {
      && IsPow2(dir.Length) && dir.Length > 0 && inserted <= |store|
      && Linked(store[..inserted], dir[..], dir.Length, NULL)
    }

    /** All entries as (hash, key, value), oldest first. */
    function Content(): seq<(nat, K, V)>
      reads `store
    {
      Data(store)
    }

    constructor (n: nat)
      requires n > 0
      ensures Valid() && fresh(dir) && store == [] && inserted == 0 && dir.Length == CapacityFor(n)
    {
      dir := new int[CapacityFor(n)](_ => NULL);
      store, inserted := [], 0;
      new;
      CapacityIsEnough(n);
      EmptyLinked<K, V>(dir[..], dir.Length, NULL);
      assert store[..0] == [];
    }

    /** A new, empty directory for n entries; nothing is linked any more. */
    method SetSize(n: nat) returns (maxFill: nat)
      requires n > 0
      modifies `dir, `inserted
      ensures Valid() && fresh(dir) && inserted == 0 && dir.Length == CapacityFor(n)
      ensures maxFill == Limit(dir.Length) >= n
    {
      dir := new int[CapacityFor(n)](_ => NULL);
      inserted := 0;
      CapacityIsEnough(n);
      EmptyLinked<K, V>(dir[..], dir.Length, NULL);
      assert store[..0] == [];
      maxFill := Limit(dir.Length);
    }

    method Clear()
      requires Valid()
      modifies `store, `inserted, dir
      ensures Valid() && Content() == [] && inserted == 0
    {
      var i := 0;
      while i < dir.Length
        invariant 0 <= i <= dir.Length
        invariant forall b :: 0 <= b < i ==> dir[b] == NULL
      {
        dir[i] := NULL;
        i := i + 1;
      }
      store, inserted := [], 0;
      EmptyLinked<K, V>(dir[..], dir.Length, NULL);
    }

    /** A new entry in a memory block, not linked yet. */
    method Allocate(hash: nat, key: K, value: V)
      requires Valid()
      modifies `store
      ensures Valid() && Content() == old(Content()) + [(hash, key, value)]
    {
      store := store + [Entry(NULL, hash, key, value)];
      assert store[..inserted] == old(store)[..inserted];
    }

    /** Link the next entry in front of its chain. */
    method Insert()
      requires Valid() && inserted < |store|
      modifies `store, `inserted, dir
      ensures Valid() && inserted == old(inserted) + 1 && Content() == old(Content())
    {
      hide Slot, Linked, IsPow2;
      ghost var st, d := store[..inserted], dir[..];
      var e := store[inserted];
      var pos := Slot(e.hash, dir.Length);
      store := store[inserted := e.(next := dir[pos])];
      dir[pos] := inserted;
      LinkPush(st, d, dir.Length, NULL, store[inserted]);
      assert dir[..] == d[pos := |st|];
      inserted := inserted + 1;
      assert store[..inserted] == st + [store[inserted - 1]];
    }

    /** Link the next n entries. */
    method InsertAll(n: nat)
      requires Valid() && inserted + n <= |store|
      modifies `store, `inserted, dir
      ensures Valid() && inserted == old(inserted) + n && Content() == old(Content())
    {
      hide *;
      SameLength();
      for i := 0 to n
        invariant Valid() && inserted == old(inserted) + i && Content() == old(Content())
      {
        SameLength();
        Insert();
      }
    }

    lemma SameLength()
      ensures |store| == |Content()|
    {}

    /** The newest linked entry of the hash's bucket that the caller accepts, or -1. */
    method Find(hash: nat, accept: (nat, K) -> bool) returns (r: int)
      requires Valid() && inserted == |store|
      ensures -1 <= r < |Content()|
      ensures r >= 0
              ==> Slot(Content()[r].0, dir.Length) == Slot(hash, dir.Length) && accept(Content()[r].0, Content()[r].1)
      ensures forall j ::
              r < j < |Content()| && Slot(Content()[j].0, dir.Length) == Slot(hash, dir.Length)
              ==> !accept(Content()[j].0, Content()[j].1)
    {
      hide Slot, Linked, IsPow2;
      assert store[..inserted] == store;
      ghost var bs := Buckets(store, dir.Length);
      HeadIs(store, dir[..], dir.Length, NULL, Slot(hash, dir.Length));
      var cand := dir[Slot(hash, dir.Length)];
      while cand != NULL
        invariant -1 <= cand < inserted && (cand >= 0 ==> bs[cand] == Slot(hash, dir.Length))
        invariant forall j ::
                  cand < j < inserted && bs[j] == Slot(hash, dir.Length) ==> !accept(store[j].hash, store[j].key)
      {
        if accept(store[cand].hash, store[cand].key) { return cand; }
        NextIs(store, dir[..], dir.Length, NULL, cand);
        cand := store[cand].next;
      }
      return -1;
    }

    method SetValue(i: nat, v: V)
      requires Valid() && i < |store|
      modifies `store
      ensures Valid() && Content() == old(Content())[i := (old(Content())[i].0, old(Content())[i].1, v)]
    {
      hide Slot, Linked, IsPow2;
      ghost var st := store[..inserted];
      store := store[i := store[i].(value := v)];
      if i < inserted {
        SameLinks(st, dir[..], dir.Length, NULL, i, v);
        assert store[..inserted] == st[i := st[i].(value := v)];
      } else {
        assert store[..inserted] == st;
      }
    }
  }
}
