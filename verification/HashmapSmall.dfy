/** The small map of the vectorised engine: chains linked by index inside one array, and a
    directory that doubles in place. */
module HashmapSmall {

  import opened Capacity
  import opened ChainedEntries
  import opened Chains
  import opened Words

  /** End of chain. */
  const EMPTY: int := 0x7FFF_FFFF

  // ---- the table

  class Table<K(0), V(0)> {
    var dir: array<int>
    var storage: array<Entry<K, V>>
    var storageUsed: nat
    var capacity: nat
    var capLimit: nat
    var maxCapacity: nat

    ghost predicate Sizes()
      reads `dir, `storage, `storageUsed, `capacity, `capLimit, `maxCapacity
    {
      && IsPow2(capacity) && IsPow2(maxCapacity) && 0 < capacity <= maxCapacity == dir.Length
      && capLimit == Limit(capacity) && storageUsed <= capLimit
      && storageUsed <= storage.Length <= Limit(maxCapacity) && storage.Length <= EMPTY
    }

    ghost predicate Valid()
      reads this, dir, storage
    {
      Sizes() && Linked(storage[..storageUsed], dir[..], capacity, EMPTY)
    }

    /** The entries in insertion order, as (hash, key, value). */
    ghost function Content(): seq<(nat, K, V)>
      reads this, storage
    {
      if storageUsed <= storage.Length then Data(storage[..storageUsed]) else []
    }

    constructor (size: nat)
      requires 0 < size <= EMPTY
      ensures Valid() && fresh(dir) && fresh(storage) && storage.Length == size && Content() == []
    {
      var max := CapacityFor(size);
      var initial := if 256 < max then 256 else max;
      maxCapacity, capacity, capLimit, storageUsed := max, initial, Limit(initial), 0;
      dir := new int[max];
      storage := new Entry<K, V>[size];
      new;
      CapacityIsEnough(size);
      ShiftIsPow2(8);
      assert Shift(8) == 256;
      ClearByFill();
      EmptyLinked<K, V>(dir[..], capacity, EMPTY);
      assert storage[..0] == [];
    }

    /** Forget one bucket. */
    method ClearSlot(hash: nat)
      requires 0 < capacity <= dir.Length
      modifies dir
      ensures dir[..] == old(dir[..])[Slot(hash, capacity) := EMPTY]
    {
      dir[Slot(hash, capacity)] := EMPTY;
    }

    /** Every slot of the current directory becomes the end-of-chain mark. */
    method ClearByFill()
      requires capacity <= dir.Length
      modifies dir
      ensures forall b :: 0 <= b < capacity ==> dir[b] == EMPTY
    {
      var i := 0;
      while i < capacity
        invariant 0 <= i <= capacity
        invariant forall b :: 0 <= b < i ==> dir[b] == EMPTY
      {
        dir[i] := EMPTY;
        i := i + 1;
      }
    }

    /** Drop all entries: a sparsely used directory is cleaned slot by slot by the caller, who names
        the hashes it inserted, a fuller one as a whole. */
    method Clear(hashes: seq<nat>)
      requires Valid()
      requires forall i :: 0 <= i < storageUsed ==> storage[i].hash in hashes
      modifies `storageUsed, dir
      ensures Valid() && Content() == []
    {
      if 10 * storageUsed < 3 * capacity {
        ClearSlots(hashes);
      } else {
        ClearByFill();
      }
      storageUsed := 0;
      EmptyLinked<K, V>(dir[..], capacity, EMPTY);
      assert storage[..0] == [];
    }

    method ClearSlots(hashes: seq<nat>)
      requires Valid()
      requires forall i :: 0 <= i < storageUsed ==> storage[i].hash in hashes
      modifies dir
      ensures forall b :: 0 <= b < capacity ==> dir[b] == EMPTY
    {
      hide Slot, Last, IsPow2;
      ghost var bs := Buckets(storage[..storageUsed], capacity);
      forall b | 0 <= b < capacity
        ensures dir[b] == Ref(Last(bs, b), EMPTY)
      {
        assert HeadOk(bs, dir[..], b, EMPTY);
      }
      var i := 0;
      while i < |hashes|
        invariant 0 <= i <= |hashes|
        invariant forall b :: 0 <= b < capacity ==> dir[b] == EMPTY || dir[b] == Ref(Last(bs, b), EMPTY)
        invariant forall k :: 0 <= k < i ==> dir[Slot(hashes[k], capacity)] == EMPTY
      {
        ClearSlot(hashes[i]);
        i := i + 1;
      }
      forall b | 0 <= b < capacity
        ensures dir[b] == EMPTY
      {
        var r := Last(bs, b);
        if r >= 0 {
          assert storage[r].hash in hashes;
        }
      }
    }

    /** The newest entry of the hash's bucket that the caller's comparison accepts, or -1. */
    method FindFirst(hash: nat, comp: K -> bool) returns (r: int)
      requires Valid()
      ensures -1 <= r < |Content()|
      ensures r >= 0 ==> Slot(Content()[r].0, capacity) == Slot(hash, capacity) && comp(Content()[r].1)
      ensures forall j ::
              r < j < |Content()| && Slot(Content()[j].0, capacity) == Slot(hash, capacity) ==> !comp(Content()[j].1)
    {
      hide Slot, Last, IsPow2, Linked;
      ghost var st := storage[..storageUsed];
      ghost var bs := Buckets(st, capacity);
      HeadIs(st, dir[..], capacity, EMPTY, Slot(hash, capacity));
      var cand := dir[Slot(hash, capacity)];
      while cand != EMPTY
        invariant cand == EMPTY || (0 <= cand < storageUsed && bs[cand] == Slot(hash, capacity))
        invariant forall j ::
                  Rank(cand, EMPTY) < j < storageUsed && bs[j] == Slot(hash, capacity) ==> !comp(storage[j].key)
        decreases Rank(cand, EMPTY)
      {
        if comp(storage[cand].key) { return cand; }
        NextIs(st, dir[..], capacity, EMPTY, cand);
        cand := storage[cand].next;
      }
      return -1;
    }

    method SetValue(i: nat, v: V)
      requires Valid() && i < storageUsed
      modifies storage
      ensures Valid() && Content() == old(Content())[i := (old(Content())[i].0, old(Content())[i].1, v)]
    {
      hide Slot, Last, IsPow2, Linked;
      ghost var st := storage[..storageUsed];
      storage[i] := storage[i].(value := v);
      assert storage[..storageUsed] == st[i := st[i].(value := v)];
      SameLinks(st, dir[..], capacity, EMPTY, i, v);
    }

    /** Add an entry in front of its chain; double the directory when the load limit is passed.
        There is room for as many entries as the constructor was asked for. */
    method Insert(key: K, hash: nat, value: V)
      requires Valid() && storageUsed < storage.Length
      modifies this, dir, storage
      ensures Valid() && dir == old(dir) && storage == old(storage)
      ensures Content() == old(Content()) + [(hash, key, value)]
      ensures capacity == if |Content()| > Limit(old(capacity)) then 2 * old(capacity) else old(capacity)
    {
      hide Slot, Last, IsPow2;
      ghost var st := storage[..storageUsed];
      ghost var d := dir[..];
      var s := Slot(hash, capacity);
      var e := Entry(dir[s], hash, key, value);
      storage[storageUsed] := e;
      dir[s] := storageUsed;
      storageUsed := storageUsed + 1;
      LinkPush(st, d, capacity, EMPTY, e);
      assert dir[..] == d[s := |st|];
      assert storage[..storageUsed] == st + [e];
      if storageUsed > capLimit {
        DoublingFits(capacity, maxCapacity);
        capacity := capacity * 2;
        capLimit := Limit(capacity);
        ClearByFill();
        Relink();
      }
    }

    /** Insert all stored entries again, in storage order. */
    method Relink()
      requires Sizes() && forall b :: 0 <= b < capacity ==> dir[b] == EMPTY
      modifies dir, storage
      ensures Valid() && Content() == old(Content()) && |Content()| == storageUsed
    {
      hide Slot, Last, IsPow2, Linked;
      EmptyLinked<K, V>(dir[..], capacity, EMPTY);
      assert storage[..0] == [];
      var i := 0;
      while i < storageUsed
        invariant 0 <= i <= storageUsed
        invariant Linked(storage[..i], dir[..], capacity, EMPTY)
        invariant Content() == old(Content())
      {
        ghost var st, d, all := storage[..i], dir[..], storage[..storageUsed];
        var s := Slot(storage[i].hash, capacity);
        storage[i] := storage[i].(next := dir[s]);
        dir[s] := i;
        LinkPush(st, d, capacity, EMPTY, storage[i]);
        assert storage[..i + 1] == st + [storage[i]];
        assert dir[..] == d[s := i];
        i := i + 1;
      }
    }
  }

  // ---- agreement with a plain map

  /** The map the entries stand for: a later entry hides an earlier one of the same key. */
  function AsMap<K, V>(c: seq<(nat, K, V)>): map<K, V> {
    if c == [] then map[] else AsMap(c[..|c| - 1])[c[|c| - 1].1 := c[|c| - 1].2]
  }

  /** Every entry carries the hash of its key. */
  ghost predicate Keyed<K, V>(c: seq<(nat, K, V)>, h: K -> nat) {
    forall i :: 0 <= i < |c| ==> c[i].0 == h(c[i].1)
  }

  lemma {:induction false} NewestIsMapped<K, V>(c: seq<(nat, K, V)>, key: K, r: int)
    requires -1 <= r < |c| && (r >= 0 ==> c[r].1 == key)
    requires forall j :: r < j < |c| ==> c[j].1 != key
    ensures r >= 0 <==> key in AsMap(c)
    ensures r >= 0 ==> AsMap(c)[key] == c[r].2
  {
    if |c| > 0 && r < |c| - 1 {
      NewestIsMapped(c[..|c| - 1], key, r);
    }
  }

  datatype Op<K, V> = Lookup(key: K) | Insert(key: K, value: V) | Clear

  datatype Answer<V> = Found(value: V) | NotFound | Done

  /** What a plain map answers. */
  function PlainAnswer<K, V>(m: map<K, V>, op: Op<K, V>): Answer<V> {
    match op
    case Lookup(k) => if k in m then Found(m[k]) else NotFound
    case Insert(_, _) => Done
    case Clear => Done
  }

  function PlainStep<K, V>(m: map<K, V>, op: Op<K, V>): map<K, V> {
    match op
    case Lookup(_) => m
    case Insert(k, v) => m[k := v]
    case Clear => map[]
  }

  function PlainRun<K, V>(ops: seq<Op<K, V>>): map<K, V> {
    if ops == [] then map[] else PlainStep(PlainRun(ops[..|ops| - 1]), ops[|ops| - 1])
  }

  /** Entries live after the operations. */
  function Live<K, V>(ops: seq<Op<K, V>>): nat {
    if ops == [] then 0
    else match ops[|ops| - 1]
      case Lookup(_) => Live(ops[..|ops| - 1])
      case Insert(_, _) => Live(ops[..|ops| - 1]) + 1
      case Clear => 0
  }

  method {:induction false} Perform<K(0,==), V(0)>(t: Table<K, V>, h: K -> nat, op: Op<K, V>) returns (a: Answer<V>)
    requires t.Valid() && Keyed(t.Content(), h) && (op.Insert? ==> |t.Content()| < t.storage.Length)
    modifies t, t.dir, t.storage
    ensures t.Valid() && t.dir == old(t.dir) && t.storage == old(t.storage)
    ensures Keyed(t.Content(), h)
    ensures |t.Content()| == if op.Insert? then |old(t.Content())| + 1 else if op.Clear? then 0 else |old(t.Content())|
    ensures a == PlainAnswer(AsMap(old(t.Content())), op)
    ensures AsMap(t.Content()) == PlainStep(AsMap(old(t.Content())), op)
  {
    hide Slot, Linked, IsPow2;
    match op
    case Lookup(k) =>
      var r := t.FindFirst(h(k), x => x == k);
      NewestIsMapped(t.Content(), k, r);
      a := if r >= 0 then Found(t.storage[r].value) else NotFound;
    case Insert(k, v) =>
      t.Insert(k, h(k), v);
      assert t.Content()[..|t.Content()| - 1] == old(t.Content());
      a := Done;
    case Clear =>
      var hs := StoredHashes(t);
      t.Clear(hs);
      a := Done;
  }

  method StoredHashes<K(0), V(0)>(t: Table<K, V>) returns (hs: seq<nat>)
    requires t.storageUsed <= t.storage.Length
    ensures forall i :: 0 <= i < t.storageUsed ==> t.storage[i].hash in hs
  {
    hs := [];
    for i := 0 to t.storageUsed
      invariant |hs| == i && forall k :: 0 <= k < i ==> hs[k] == t.storage[k].hash
    {
      hs := hs + [t.storage[i].hash];
    }
  }

  lemma OneMore<K, V>(ops: seq<Op<K, V>>, i: nat)
    requires i < |ops|
    ensures PlainRun(ops[..i + 1]) == PlainStep(PlainRun(ops[..i]), ops[i])
    ensures Live(ops[..i + 1]) == if ops[i].Insert?
            then Live(ops[..i]) + 1 else if ops[i].Clear? then 0 else Live(ops[..i])
  {
    assert ops[..i + 1][..i] == ops[..i];
  }

  lemma NothingYet<K, V>(ops: seq<Op<K, V>>)
    ensures PlainRun(ops[..0]) == map[] && Live(ops[..0]) == 0 && AsMap<K, V>([]) == map[]
  {}

  /** Over any sequence of lookups, inserts and clears that never has more than `size` live entries,
      the table answers as a plain map does. */
  method AgreesWithMap<K(0,==), V(0)>(size: nat, h: K -> nat, ops: seq<Op<K, V>>) returns (answers: seq<Answer<V>>)
    requires 0 < size <= EMPTY
    requires forall n :: 0 <= n <= |ops| ==> Live(ops[..n]) <= size
    ensures |answers| == |ops|
    ensures forall n :: 0 <= n < |ops| ==> answers[n] == PlainAnswer(PlainRun(ops[..n]), ops[n])
  {
    hide Slot, Linked, IsPow2, PlainAnswer, PlainStep, PlainRun, Live;
    var t := new Table<K, V>(size);
    answers := [];
    var i := 0;
    NothingYet(ops);
    while i < |ops|
      invariant 0 <= i <= |ops| && |answers| == i
      invariant fresh(t) && fresh(t.dir) && fresh(t.storage) && t.storage.Length == size
      invariant t.Valid() && Keyed(t.Content(), h) && |t.Content()| == Live(ops[..i])
      invariant AsMap(t.Content()) == PlainRun(ops[..i])
      invariant forall n :: 0 <= n < i ==> answers[n] == PlainAnswer(PlainRun(ops[..n]), ops[n])
    {
      OneMore(ops, i);
      assert Live(ops[..i + 1]) <= size;
      var a := Perform(t, h, ops[i]);
      answers := answers + [a];
      i := i + 1;
    }
  }

  // ---- the byte fill

  /** What filling a 32-bit word with the low byte of e leaves in it. */
  function ByteFill(e: bv32): bv32 {
    (e & 0xFF) | ((e & 0xFF) << 8) | ((e & 0xFF) << 16) | ((e & 0xFF) << 24)
  }

  /** Filling bytewise writes the mark itself exactly when its four bytes are equal. */
  lemma FillIsMark(e: bv32)
    ensures ByteFill(e) == e <==> (e >> 8) & 0xFF == e & 0xFF && (e >> 16) & 0xFF == e & 0xFF && e >> 24 == e & 0xFF
  {}

  /** The largest int is not such a mark: its byte fill is the word of all ones, which reads as -1. */
  lemma FillOfMaxIsNotTheMark()
    ensures ByteFill(0x7FFF_FFFF) == 0xFFFF_FFFF != 0x7FFF_FFFF
  {}
}
