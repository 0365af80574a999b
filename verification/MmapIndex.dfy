/** The memory-mapped hash index: a directory and linked records in one buffer of bytes, addressed by
    offsets, for keys and values of any size. */
module MmapIndex {

  import opened Chains
  import opened MurmurBytes
  import opened Words
  import Murmur

  /** Sizes of a key and a value, and where a record's values begin and its header ends: with padding the
      values may begin before the end of the header.  Keys may be of a signed type; a key is given as the
      unsigned number of its bits. */
  datatype Layout = Layout(keySize: nat, signed: bool, valueSize: nat, valuesAt: nat, header: nat) {
    ghost predicate Ok() { 0 < keySize <= 8 && 0 < valueSize && 16 + keySize <= valuesAt <= header }

    /** Bytes of n values, and of a record with n values. */
    function Values(n: nat): nat { valueSize * n }

    function Size(n: nat): nat { header + Values(n) }
  }

  /** The key-value lists to write, in the iteration order of the map. */
  type Entries = seq<(nat, seq<seq<Byte>>)>

  /** Keys and values have the sizes of the layout. */
  ghost predicate Fits(l: Layout, m: Entries) {
    forall i {:trigger m[i]} :: 0 <= i < |m| ==>
      m[i].0 < Shift(8 * l.keySize) && forall k {:trigger m[i].1[k]} :: 0 <= k < |m[i].1| ==> |m[i].1[k]| == l.valueSize
  }

  // ---- bytes

  /** The values one after the other. */
  function Pack(vs: seq<seq<Byte>>): seq<Byte> {
    if vs == [] then [] else vs[0] + Pack(vs[1..])
  }

  /** n values of a given size. */
  function Unpack(b: seq<Byte>, n: nat, size: nat): seq<seq<Byte>>
    requires |b| == size * n
    decreases n
  {
    if n == 0 then [] else OneMore(size, n); [b[..size]] + Unpack(b[size..], n - 1, size)
  }

  lemma OneMore(size: nat, n: nat)
    requires n > 0
    ensures size * n == size + size * (n - 1) && size * (n - 1) >= 0
  {}

  lemma {:induction false} UnpackPack(vs: seq<seq<Byte>>, size: nat)
    requires forall k {:trigger vs[k]} :: 0 <= k < |vs| ==> |vs[k]| == size
    ensures |Pack(vs)| == size * |vs| && Unpack(Pack(vs), |vs|, size) == vs
  {
    hide Pack, Unpack;
    PackStep(vs);
    if vs == [] {
      NothingPacked(size);
    } else {
      UnpackPack(vs[1..], size);
      OneMore(size, |vs|);
      UnpackStep(Pack(vs), |vs|, size);
      assert Pack(vs)[..size] == vs[0] && Pack(vs)[size..] == Pack(vs[1..]);
    }
  }

  lemma PackStep(vs: seq<seq<Byte>>)
    ensures Pack(vs) == if vs == [] then [] else vs[0] + Pack(vs[1..])
  {}

  lemma NothingPacked(size: nat)
    ensures size * 0 == 0 && Unpack([], 0, size) == []
  {}

  lemma UnpackStep(b: seq<Byte>, n: nat, size: nat)
    requires n > 0 && |b| == size * n
    ensures size <= |b| && |b[size..]| == size * (n - 1)
    ensures Unpack(b, n, size) == [b[..size]] + Unpack(b[size..], n - 1, size)
  {
    OneMore(size, n);
  }

  /** The 8-byte number at offset o. */
  function Word(ws: seq<Byte>, o: nat): nat
    requires o + 8 <= |ws|
  {
    Value(ws[o..o + 8])
  }

  function Patch(ws: seq<Byte>, o: nat, bs: seq<Byte>): (r: seq<Byte>)
    requires o + |bs| <= |ws|
    ensures |r| == |ws|
  {
    ws[..o] + bs + ws[o + |bs|..]
  }

  lemma PatchHere(ws: seq<Byte>, o: nat, bs: seq<Byte>)
    requires o + |bs| <= |ws|
    ensures Patch(ws, o, bs)[o..o + |bs|] == bs
  {}

  lemma PatchElsewhere(ws: seq<Byte>, o: nat, bs: seq<Byte>, a: nat, b: nat)
    requires o + |bs| <= |ws| && a <= b <= |ws| && (b <= o || o + |bs| <= a)
    ensures Patch(ws, o, bs)[a..b] == ws[a..b]
  {}

  lemma PatchOutside(ws: seq<Byte>, o: nat, bs: seq<Byte>, k: nat)
    requires o + |bs| <= |ws| && k < |ws| && !(o <= k < o + |bs|)
    ensures Patch(ws, o, bs)[k] == ws[k]
  {}

  lemma RestStays(ws: seq<Byte>, bs: seq<Byte>)
    requires |bs| <= |ws|
    ensures forall k :: |bs| <= k < |ws| ==> Patch(ws, 0, bs)[k] == ws[k]
  {}

  lemma PatchWord(ws: seq<Byte>, o: nat, x: nat)
    requires o + 8 <= |ws| && x < Murmur.W64
    ensures Word(Patch(ws, o, Bytes(x, 8)), o) == x
  {
    hide Value, Bytes, Patch;
    PatchHere(ws, o, Bytes(x, 8));
    Murmur.Widths();
    ValueOfBytes(x, 8);
  }

  // ---- slots

  /** The key as a 64-bit word: a signed one is extended by its sign. */
  function Extend(l: Layout, key: nat): nat {
    if l.signed && 0 < l.keySize <= 8 && key >= Shift(8 * l.keySize - 1) then
      ShiftGrows(8 * l.keySize, 64); Shift(64) - Shift(8 * l.keySize) + key
    else key
  }

  /** For a signed key v, extending its bits is the conversion to an unsigned word. */
  lemma ExtendIsCast(l: Layout, v: int)
    requires l.Ok() && l.signed && 0 <= v + Shift(8 * l.keySize - 1) && v < Shift(8 * l.keySize - 1)
    ensures var bits := if v < 0 then v + Shift(8 * l.keySize) else v;
      0 <= bits < Shift(8 * l.keySize) && Extend(l, bits) == if v < 0 then v + Shift(64) else v
  {
    hide Shift;
    ShiftStep(8 * l.keySize);
    ShiftGrows(8 * l.keySize, 64);
  }

  /** Murmur of the key with the highest bit set. */
  function Hash(l: Layout, key: nat): nat { Or(Murmur.Hash64(Extend(l, key), 0), Shift(63)) }

  lemma {:induction false} OrTop(a: nat, n: nat)
    requires a < Shift(n + 1)
    ensures Or(a, Shift(n)) == Shift(n) + (if a < Shift(n) then a else a - Shift(n))
  {
    if n == 0 {
      assert Or(a, 1) == 1;
    } else {
      OrTop(a / 2, n - 1);
    }
  }

  lemma ExtendDecides(l: Layout, j: nat, k: nat)
    requires l.Ok() && j < Shift(8 * l.keySize) && k < Shift(8 * l.keySize)
    ensures Extend(l, j) < Shift(64) && (Extend(l, j) == Extend(l, k) <==> j == k)
  {
    hide Shift;
    ShiftStep(8 * l.keySize);
    ShiftGrows(8 * l.keySize, 64);
  }

  /** Every hash has its highest bit set and is that of at most two keys. */
  lemma AtMostTwoKeys(l: Layout, i: nat, j: nat, k: nat)
    requires l.Ok() && i < Shift(8 * l.keySize) && j < Shift(8 * l.keySize) && k < Shift(8 * l.keySize)
    requires i != j && j != k && i != k
    ensures Shift(63) <= Hash(l, i) < Shift(64)
    ensures !(Hash(l, i) == Hash(l, j) == Hash(l, k))
  {
    hide Shift, Or, Extend, Murmur.Hash64, Murmur.Unhash64;
    Murmur.Widths();
    ShiftStep(64);
    ExtendDecides(l, i, j);
    ExtendDecides(l, j, k);
    ExtendDecides(l, k, i);
    var a, b, c := Extend(l, i), Extend(l, j), Extend(l, k);
    Murmur.NoCollision64(a, b, 0);
    Murmur.NoCollision64(b, c, 0);
    Murmur.NoCollision64(a, c, 0);
    Murmur.UnhashHash64(a, 0);
    Murmur.UnhashHash64(b, 0);
    Murmur.UnhashHash64(c, 0);
    OrTop(Murmur.Hash64(a, 0), 63);
    OrTop(Murmur.Hash64(b, 0), 63);
    OrTop(Murmur.Hash64(c, 0), 63);
  }

  /** hash & mask, the mask being size - 1 for a power of two. */
  function Slot(l: Layout, key: nat, size: nat): (b: nat)
    requires size > 0
    ensures b < size
  {
    Hash(l, key) % size
  }

  function Slots(l: Layout, m: Entries, size: nat): (bs: seq<nat>)
    requires size > 0
    ensures |bs| == |m| && forall i :: 0 <= i < |m| ==> bs[i] == Slot(l, m[i].0, size)
  {
    seq(|m|, i requires 0 <= i < |m| => Slot(l, m[i].0, size))
  }

  /** The offset of record i. */
  function At(l: Layout, m: Entries, size: nat, i: nat): (w: nat)
    requires i <= |m|
    ensures w >= 8 + 8 * size
  {
    if i == 0 then 8 + 8 * size else At(l, m, size, i - 1) + l.Size(|m[i - 1].1|)
  }

  /** The offset stored for record r; 0 says that there is none. */
  function Offset(l: Layout, m: Entries, size: nat, r: int): (o: nat)
    requires r < |m|
    ensures o == 0 <==> r < 0
  {
    if r < 0 then 0 else At(l, m, size, r)
  }

  // ---- what is in the buffer

  /** A record at offset w. */
  ghost predicate IsRecord(l: Layout, ws: seq<Byte>, w: nat, next: nat, key: nat, vs: seq<seq<Byte>>) {
    && l.Ok() && w + l.Size(|vs|) <= |ws| && |Pack(vs)| == l.Values(|vs|)
    && Word(ws, w) == |vs| && Word(ws, w + 8) == next && Value(ws[w + 16..w + 16 + l.keySize]) == key
    && ws[w + l.valuesAt..w + l.valuesAt + l.Values(|vs|)] == Pack(vs)
  }

  ghost predicate HeadAt(l: Layout, ws: seq<Byte>, m: Entries, size: nat, n: nat, b: nat)
    requires size > 0 && b < size && 8 + 8 * size <= |ws| && n <= |m|
  {
    Word(ws, 8 + 8 * b) == Offset(l, m, size, Last(Slots(l, m[..n], size), b))
  }

  ghost predicate ChainAt(l: Layout, ws: seq<Byte>, m: Entries, size: nat, i: nat)
    requires size > 0 && i < |m|
  {
    IsRecord(l, ws, At(l, m, size, i), Offset(l, m, size, Chains.Next(Slots(l, m, size), i)), m[i].0, m[i].1)
  }

  /** The first n entries are written and linked by slot, newest first. */
  ghost predicate Written(l: Layout, ws: seq<Byte>, m: Entries, size: nat, n: nat) {
    && 0 < size && At(l, m, size, |m|) == |ws| && n <= |m|
    && (forall b {:trigger HeadAt(l, ws, m, size, n, b)} :: 0 <= b < size ==> HeadAt(l, ws, m, size, n, b))
    && (forall i {:trigger ChainAt(l, ws, m, size, i)} :: 0 <= i < n ==> ChainAt(l, ws, m, size, i))
  }

  /** The whole index: the mask, and all entries. */
  ghost predicate Image(l: Layout, ws: seq<Byte>, m: Entries) {
    l.Ok() && Fits(l, m) && |ws| >= 8 && Written(l, ws, m, Word(ws, 0) + 1, |m|)
  }

  /** Records follow each other without overlap and end exactly at the end of the buffer. */
  lemma {:induction false} RecordsInOrder(l: Layout, m: Entries, size: nat, i: nat, j: nat)
    requires i < j <= |m|
    ensures At(l, m, size, i) + l.Size(|m[i].1|) <= At(l, m, size, j) <= At(l, m, size, |m|)
  {
    AtGrows(l, m, size, j, |m|);
    if i < j - 1 { RecordsInOrder(l, m, size, i, j - 1); }
  }

  lemma {:induction false} AtGrows(l: Layout, m: Entries, size: nat, i: nat, j: nat)
    requires i <= j <= |m|
    ensures At(l, m, size, i) <= At(l, m, size, j)
  {
    if i < j { AtGrows(l, m, size, i, j - 1); }
  }

  // ---- writing

  lemma WordStays(ws: seq<Byte>, ws': seq<Byte>, o: nat)
    requires o + 8 <= |ws| == |ws'| && forall k :: o <= k < o + 8 ==> ws'[k] == ws[k]
    ensures Word(ws', o) == Word(ws, o)
  {
    assert ws'[o..o + 8] == ws[o..o + 8];
  }

  lemma RecordStays(l: Layout, ws: seq<Byte>, ws': seq<Byte>, w: nat, next: nat, key: nat, vs: seq<seq<Byte>>)
    requires |ws| == |ws'| && IsRecord(l, ws, w, next, key, vs)
    requires forall k :: w <= k < w + l.Size(|vs|) ==> ws'[k] == ws[k]
    ensures IsRecord(l, ws', w, next, key, vs)
  {
    hide Value, Pack, Word;
    var n := l.Values(|vs|);
    WordStays(ws, ws', w);
    WordStays(ws, ws', w + 8);
    assert ws'[w + 16..w + 16 + l.keySize] == ws[w + 16..w + 16 + l.keySize];
    assert ws'[w + l.valuesAt..w + l.valuesAt + n] == ws[w + l.valuesAt..w + l.valuesAt + n];
  }

  /** Nothing before record n was written but the head of bucket pos. */
  ghost predicate OnlyHead(l: Layout, ws: seq<Byte>, ws': seq<Byte>, m: Entries, size: nat, n: nat, pos: nat)
    requires n <= |m|
  {
    |ws| == |ws'| && forall k {:trigger ws'[k]} ::
      0 <= k < |ws| && k < At(l, m, size, n) && !(8 + 8 * pos <= k < 16 + 8 * pos) ==> ws'[k] == ws[k]
  }

  /** The next record and its directory slot leave the records before as they were. */
  lemma ChainStays(l: Layout, ws: seq<Byte>, ws': seq<Byte>, m: Entries, size: nat, i: nat, n: nat, pos: nat)
    requires size > 0 && i < n < |m| && pos < size && ChainAt(l, ws, m, size, i)
             && OnlyHead(l, ws, ws', m, size, n, pos)
    ensures ChainAt(l, ws', m, size, i)
  {
    hide Slots, Chains.Next, At, Slot, Offset, IsRecord;
    RecordsInOrder(l, m, size, i, n);
    var next := Offset(l, m, size, Chains.Next(Slots(l, m, size), i));
    RecordInside(l, ws, At(l, m, size, i), next, m[i].0, m[i].1);
    RecordStays(l, ws, ws', At(l, m, size, i), next, m[i].0, m[i].1);
  }

  lemma RecordInside(l: Layout, ws: seq<Byte>, w: nat, next: nat, key: nat, vs: seq<seq<Byte>>)
    requires IsRecord(l, ws, w, next, key, vs)
    ensures w + l.Size(|vs|) <= |ws|
  {}

  lemma SlotsGrow(l: Layout, m: Entries, size: nat, n: nat)
    requires size > 0 && n < |m|
    ensures Slots(l, m[..n + 1], size) == Slots(l, m[..n], size) + [Slot(l, m[n].0, size)]
    ensures Last(Slots(l, m[..n], size), Slot(l, m[n].0, size)) == Chains.Next(Slots(l, m, size), n)
  {
    hide Slot, Last;
    assert Slots(l, m, size)[..n] == Slots(l, m[..n], size);
  }

  lemma HeadMoves(l: Layout, ws: seq<Byte>, ws': seq<Byte>, m: Entries, size: nat, n: nat, b: nat)
    requires size > 0 && n < |m| && b < size && 8 + 8 * size <= |ws| == |ws'| && HeadAt(l, ws, m, size, n, b)
    requires Word(ws', 8 + 8 * b) == if b == Slot(l, m[n].0, size) then At(l, m, size, n) else Word(ws, 8 + 8 * b)
    ensures HeadAt(l, ws', m, size, n + 1, b)
  {
    hide Slot, Last, Slots, Word, At;
    SlotsGrow(l, m, size, n);
    LastAppend(Slots(l, m[..n], size), Slot(l, m[n].0, size), b);
  }

  lemma WriteOne(l: Layout, ws: seq<Byte>, ws': seq<Byte>, m: Entries, size: nat, n: nat)
    requires Written(l, ws, m, size, n) && n < |m| && 8 + 8 * size <= |ws|
    requires var pos := Slot(l, m[n].0, size);
      && OnlyHead(l, ws, ws', m, size, n, pos)
      && IsRecord(l, ws', At(l, m, size, n), Word(ws, 8 + 8 * pos), m[n].0, m[n].1)
      && Word(ws', 8 + 8 * pos) == At(l, m, size, n)
    ensures Written(l, ws', m, size, n + 1)
  {
    hide Slot, Last, Slots, HeadAt, ChainAt, IsRecord, Word, At, OnlyHead;
    var pos := Slot(l, m[n].0, size);
    SameLength(l, ws, ws', m, size, n, pos);
    forall b {:trigger HeadAt(l, ws', m, size, n + 1, b)} | 0 <= b < size
      ensures HeadAt(l, ws', m, size, n + 1, b)
    {
      if b != pos { OtherHead(l, ws, ws', m, size, n, pos, b); }
      HeadMoves(l, ws, ws', m, size, n, b);
    }
    forall i {:trigger ChainAt(l, ws', m, size, i)} | 0 <= i < n + 1
      ensures ChainAt(l, ws', m, size, i)
    {
      if i < n {
        ChainStays(l, ws, ws', m, size, i, n, pos);
      } else {
        LinkOne(l, ws, ws', m, size, n);
      }
    }
  }

  lemma SameLength(l: Layout, ws: seq<Byte>, ws': seq<Byte>, m: Entries, size: nat, n: nat, pos: nat)
    requires n <= |m| && OnlyHead(l, ws, ws', m, size, n, pos)
    ensures |ws'| == |ws|
  {}

  lemma OtherHead(l: Layout, ws: seq<Byte>, ws': seq<Byte>, m: Entries, size: nat, n: nat, pos: nat, b: nat)
    requires n <= |m| && OnlyHead(l, ws, ws', m, size, n, pos) && b < size && 8 + 8 * size <= |ws| && b != pos
    ensures Word(ws', 8 + 8 * b) == Word(ws, 8 + 8 * b)
  {
    hide Word;
    AtGrows(l, m, size, 0, n);
    WordStays(ws, ws', 8 + 8 * b);
  }

  lemma LinkOne(l: Layout, ws: seq<Byte>, ws': seq<Byte>, m: Entries, size: nat, n: nat)
    requires Written(l, ws, m, size, n) && n < |m| && 8 + 8 * size <= |ws|
    requires IsRecord(l, ws', At(l, m, size, n), Word(ws, 8 + 8 * Slot(l, m[n].0, size)), m[n].0, m[n].1)
    ensures ChainAt(l, ws', m, size, n)
  {
    hide Slot, Last, Slots, IsRecord, Word, At;
    assert HeadAt(l, ws, m, size, n, Slot(l, m[n].0, size));
    SlotsGrow(l, m, size, n);
  }

  /** The directory: a power of two with 1.5 slots per key. */
  function Bits(keys: nat, from: nat): (bits: nat)
    ensures bits >= from && 2 * Shift(bits) >= 3 * keys
    ensures bits > from ==> 2 * Shift(bits - 1) < 3 * keys
    decreases 3 * keys - 2 * Shift(from)
  {
    if 2 * Shift(from) < 3 * keys then Bits(keys, from + 1) else from
  }

  method DirectoryBits(keys: nat) returns (bits: nat)
    ensures bits == Bits(keys, 1)
    ensures bits >= 1 && 2 * Shift(bits) >= 3 * keys
    ensures bits > 1 ==> 2 * Shift(bits - 1) < 3 * keys
  {
    bits := 1;
    while 2 * Shift(bits) < 3 * keys
      invariant Bits(keys, bits) == Bits(keys, 1)
      decreases 3 * keys - 2 * Shift(bits)
    {
      bits := bits + 1;
    }
  }

  /** Bytes of the directory and all records: the file size, computed first. */
  method Space(l: Layout, m: Entries, size: nat) returns (bytes: nat)
    ensures bytes == At(l, m, size, |m|)
  {
    bytes := 8 + 8 * size;
    for i := 0 to |m|
      invariant bytes == At(l, m, size, i)
    {
      bytes := bytes + l.header + l.valueSize * |m[i].1|;
    }
  }

  /** Copy bytes into the buffer. */
  method Store(data: array<Byte>, o: nat, bs: seq<Byte>)
    requires o + |bs| <= data.Length
    modifies data
    ensures data[..] == Patch(old(data[..]), o, bs)
  {
    ghost var ws := data[..];
    var k := 0;
    while k < |bs|
      invariant k <= |bs|
      invariant forall j :: 0 <= j < data.Length ==> data[j] == if o <= j < o + k then bs[j - o] else ws[j]
    {
      data[o + k] := bs[k];
      k := k + 1;
    }
    assert data[..] == Patch(ws, o, bs);
  }

  /** The buffer after a record was stored, field by field. */
  function Recorded(l: Layout, ws: seq<Byte>, w: nat, next: nat, key: nat, vs: seq<seq<Byte>>): (r: seq<Byte>)
    requires l.Ok() && w + l.Size(|vs|) <= |ws| && |Pack(vs)| == l.Values(|vs|)
    ensures |r| == |ws|
  {
    var a := Patch(ws, w + 16, Bytes(key, l.keySize));
    var b := Patch(a, w, Bytes(|vs|, 8));
    var c := Patch(b, w + 8, Bytes(next, 8));
    Patch(c, w + l.valuesAt, Pack(vs))
  }

  lemma RecordedIs(l: Layout, ws: seq<Byte>, w: nat, next: nat, key: nat, vs: seq<seq<Byte>>)
    requires l.Ok() && w + l.Size(|vs|) <= |ws| && |Pack(vs)| == l.Values(|vs|)
    requires |vs| < Murmur.W64 && next < Murmur.W64 && key < Shift(8 * l.keySize)
    ensures IsRecord(l, Recorded(l, ws, w, next, key, vs), w, next, key, vs)
  {
    hide Value, Pack, Word, Bytes, Patch, Shift;
    var r := Recorded(l, ws, w, next, key, vs);
    var a := Patch(ws, w + 16, Bytes(key, l.keySize));
    var b := Patch(a, w, Bytes(|vs|, 8));
    var c := Patch(b, w + 8, Bytes(next, 8));
    PatchHere(ws, w + 16, Bytes(key, l.keySize));
    PatchElsewhere(a, w, Bytes(|vs|, 8), w + 16, w + 16 + l.keySize);
    PatchElsewhere(b, w + 8, Bytes(next, 8), w + 16, w + 16 + l.keySize);
    PatchElsewhere(c, w + l.valuesAt, Pack(vs), w + 16, w + 16 + l.keySize);
    ValueOfBytes(key, l.keySize);
    PatchWord(a, w, |vs|);
    PatchElsewhere(b, w + 8, Bytes(next, 8), w, w + 8);
    PatchElsewhere(c, w + l.valuesAt, Pack(vs), w, w + 8);
    WordIs(b, r, w);
    PatchWord(b, w + 8, next);
    PatchElsewhere(c, w + l.valuesAt, Pack(vs), w + 8, w + 16);
    WordIs(c, r, w + 8);
    PatchHere(c, w + l.valuesAt, Pack(vs));
  }

  lemma WordIs(a: seq<Byte>, b: seq<Byte>, o: nat)
    requires o + 8 <= |a| && o + 8 <= |b| && a[o..o + 8] == b[o..o + 8]
    ensures Word(a, o) == Word(b, o)
  {}

  lemma RecordedStays(l: Layout, ws: seq<Byte>, w: nat, next: nat, key: nat, vs: seq<seq<Byte>>, k: nat)
    requires l.Ok() && w + l.Size(|vs|) <= |ws| && |Pack(vs)| == l.Values(|vs|)
    requires k < |ws| && !(w <= k < w + l.Size(|vs|))
    ensures Recorded(l, ws, w, next, key, vs)[k] == ws[k]
  {
    hide Value, Pack, Word, Bytes, Patch;
    var a := Patch(ws, w + 16, Bytes(key, l.keySize));
    var b := Patch(a, w, Bytes(|vs|, 8));
    var c := Patch(b, w + 8, Bytes(next, 8));
    PatchOutside(ws, w + 16, Bytes(key, l.keySize), k);
    PatchOutside(a, w, Bytes(|vs|, 8), k);
    PatchOutside(b, w + 8, Bytes(next, 8), k);
    PatchOutside(c, w + l.valuesAt, Pack(vs), k);
  }

  /** Write one record; the rest of the buffer stays. */
  method WriteRecord(data: array<Byte>, l: Layout, w: nat, next: nat, key: nat, vs: seq<seq<Byte>>)
    requires l.Ok() && w + l.Size(|vs|) <= data.Length
    requires |vs| < Murmur.W64 && next < Murmur.W64 && key < Shift(8 * l.keySize)
    requires forall k {:trigger vs[k]} :: 0 <= k < |vs| ==> |vs[k]| == l.valueSize
    modifies data
    ensures IsRecord(l, data[..], w, next, key, vs)
    ensures forall k :: 0 <= k < data.Length && !(w <= k < w + l.Size(|vs|)) ==> data[k] == old(data[k])
  {
    hide Value, Pack, Word, Bytes, Patch, Shift, IsRecord;
    ghost var ws := data[..];
    UnpackPack(vs, l.valueSize);
    Store(data, w + 16, Bytes(key, l.keySize));
    Store(data, w, Bytes(|vs|, 8));
    Store(data, w + 8, Bytes(next, 8));
    Store(data, w + l.valuesAt, Pack(vs));
    RecordedIs(l, ws, w, next, key, vs);
    forall k | 0 <= k < data.Length && !(w <= k < w + l.Size(|vs|))
      ensures data[k] == ws[k]
    {
      RecordedStays(l, ws, w, next, key, vs, k);
      assert data[k] == data[..][k];
    }
  }

  /** Write entry n at its offset and put it in front of the chain of its slot. */
  method WriteEntry(data: array<Byte>, l: Layout, m: Entries, size: nat, n: nat, offset: nat)
    requires l.Ok() && Fits(l, m) && n < |m| && Written(l, data[..], m, size, n) && offset == At(l, m, size, n)
    requires data.Length < Murmur.W64
    modifies data
    ensures Written(l, data[..], m, size, n + 1) && data[..8] == old(data[..8])
  {
    hide Slot, Last, Slots, HeadAt, ChainAt, IsRecord, At, Written, Word, Shift, Patch, Bytes, Value;
    ghost var before := data[..];
    WrittenFits(l, before, m, size, n);
    EntryFits(l, m, n, size);
    var pos := Slot(l, m[n].0, size);
    ValueFits(before[8 + 8 * pos..16 + 8 * pos]);
    Murmur.Widths();
    var next := ReadWord(data, 8 + 8 * pos);
    WriteRecord(data, l, offset, next, m[n].0, m[n].1);
    ghost var middle := data[..];
    Store(data, 8 + 8 * pos, Bytes(offset, 8));
    HeadStored(l, before, middle, data[..], m, size, n, pos);
    WriteOne(l, before, data[..], m, size, n);
  }

  method ReadWord(data: array<Byte>, o: nat) returns (x: nat)
    requires o + 8 <= data.Length
    ensures x == Word(data[..], o) < Murmur.W64
  {
    hide Value, Shift;
    assert data[..][o..o + 8] == data[o..o + 8];
    ValueFits(data[o..o + 8]);
    Murmur.Widths();
    x := Value(data[o..o + 8]);
  }

  lemma WrittenFits(l: Layout, ws: seq<Byte>, m: Entries, size: nat, n: nat)
    requires n < |m| && Written(l, ws, m, size, n)
    ensures 0 < size && 8 + 8 * size <= At(l, m, size, n) && At(l, m, size, n) + l.Size(|m[n].1|) <= |ws|
  {
    NextRecord(l, m, size, n);
  }

  lemma EntryFits(l: Layout, m: Entries, n: nat, size: nat)
    requires l.Ok() && Fits(l, m) && n < |m|
    ensures m[n].0 < Shift(8 * l.keySize) && |m[n].1| <= l.Size(|m[n].1|)
    ensures forall k {:trigger m[n].1[k]} :: 0 <= k < |m[n].1| ==> |m[n].1[k]| == l.valueSize
  {}

  /** Storing the offset in the directory keeps the record and moves the head. */
  lemma HeadStored(l: Layout, before: seq<Byte>, middle: seq<Byte>, after: seq<Byte>, m: Entries, size: nat, n: nat,
      pos: nat)
    requires l.Ok() && n < |m| && pos < size && 8 + 8 * size <= At(l, m, size, n) < Murmur.W64
    requires |before| == |middle| && At(l, m, size, n) + l.Size(|m[n].1|) <= |middle|
    requires forall k ::
             0 <= k < |before| && !(At(l, m, size, n) <= k < At(l, m, size, n) + l.Size(|m[n].1|))
             ==> middle[k] == before[k]
    requires IsRecord(l, middle, At(l, m, size, n), Word(before, 8 + 8 * pos), m[n].0, m[n].1)
    requires after == Patch(middle, 8 + 8 * pos, Bytes(At(l, m, size, n), 8))
    ensures OnlyHead(l, before, after, m, size, n, pos)
    ensures IsRecord(l, after, At(l, m, size, n), Word(before, 8 + 8 * pos), m[n].0, m[n].1)
    ensures Word(after, 8 + 8 * pos) == At(l, m, size, n) && after[..8] == before[..8]
  {
    hide Value, Word, Bytes, IsRecord, At;
    PatchWord(middle, 8 + 8 * pos, At(l, m, size, n));
    RecordStays(l, middle, after, At(l, m, size, n), Word(before, 8 + 8 * pos), m[n].0, m[n].1);
  }

  /** Write the index; the last record ends exactly at the end of the buffer. */
  method WriteBinary(l: Layout, m: Entries) returns (data: array<Byte>)
    requires l.Ok() && Fits(l, m) && At(l, m, Shift(Bits(|m|, 1)), |m|) < Murmur.W64
    ensures fresh(data) && Image(l, data[..], m)
    ensures data.Length == At(l, m, Shift(Bits(|m|, 1)), |m|)
  {
    hide Slot, Last, Slots, HeadAt, ChainAt, IsRecord, At, Written, Word, Shift, Patch, Bytes, Value, Bits;
    var bits := DirectoryBits(|m|);
    var size := Shift(bits);
    var space := Space(l, m, size);
    data := new Byte[space](_ => 0);
    ghost var zeros := data[..];
    Store(data, 0, Bytes(size - 1, 8));
    PatchWord(zeros, 0, size - 1);
    RestStays(zeros, Bytes(size - 1, 8));
    NothingWritten(l, data[..], m, size);
    FirstRecord(l, m, size);
    var offset := 8 + 8 * size;
    for n := 0 to |m|
      invariant data.Length == space && Word(data[..], 0) == size - 1 && offset == At(l, m, size, n)
      invariant Written(l, data[..], m, size, n)
    {
      NextRecord(l, m, size, n);
      ghost var before := data[..];
      WriteEntry(data, l, m, size, n, offset);
      WordIs(before, data[..], 0);
      offset := offset + l.header + l.valueSize * |m[n].1|;
    }
    assert offset == space;
  }

  lemma NothingWritten(l: Layout, ws: seq<Byte>, m: Entries, size: nat)
    requires size > 0 && |ws| == At(l, m, size, |m|) && forall k :: 8 <= k < |ws| ==> ws[k] == 0
    ensures Written(l, ws, m, size, 0) && |ws| >= 8 + 8 * size
  {
    hide Word, Last;
    AtGrows(l, m, size, 0, |m|);
    assert Slots(l, m[..0], size) == [];
    forall b {:trigger HeadAt(l, ws, m, size, 0, b)} | 0 <= b < size
      ensures HeadAt(l, ws, m, size, 0, b)
    {
      ZeroWord(ws, 8 + 8 * b);
    }
  }

  lemma ZeroWord(ws: seq<Byte>, o: nat)
    requires o + 8 <= |ws| && forall k :: o <= k < o + 8 ==> ws[k] == 0
    ensures Word(ws, o) == 0
  {
    ZeroValue(ws[o..o + 8]);
  }

  lemma {:induction false} ZeroValue(b: seq<Byte>)
    requires forall k :: 0 <= k < |b| ==> b[k] == 0
    ensures Value(b) == 0
  {
    if b != [] { ZeroValue(b[1..]); }
  }

  lemma FirstRecord(l: Layout, m: Entries, size: nat)
    ensures At(l, m, size, 0) == 8 + 8 * size
  {}

  lemma NextRecord(l: Layout, m: Entries, size: nat, n: nat)
    requires n < |m|
    ensures At(l, m, size, n) + l.Size(|m[n].1|) == At(l, m, size, n + 1) <= At(l, m, size, |m|)
  {
    AtGrows(l, m, size, n + 1, |m|);
  }

  // ---- reading

  /** What the map holds for a key: the values of its entry, or nothing. */
  function ValuesOf(m: Entries, key: nat): seq<seq<Byte>> {
    if m == [] then [] else if m[|m| - 1].0 == key then m[|m| - 1].1 else ValuesOf(m[..|m| - 1], key)
  }

  lemma {:induction false} ValuesAre(m: Entries, key: nat, i: int)
    requires -1 <= i < |m| && (i >= 0 ==> m[i].0 == key) && forall j :: i < j < |m| ==> m[j].0 != key
    ensures ValuesOf(m, key) == if i >= 0 then m[i].1 else []
  {
    if m != [] && i < |m| - 1 { ValuesAre(m[..|m| - 1], key, i); }
  }

  /** Look a key up by walking the chain of its slot. */
  method Get(data: array<Byte>, l: Layout, key: nat, ghost m: Entries) returns (values: seq<seq<Byte>>)
    requires Image(l, data[..], m)
    ensures values == ValuesOf(m, key)
  {
    hide Slot, Last, Slots, Written, IsRecord, At, Word, Value, Unpack, Fits;
    ghost var ws := data[..];
    var mask := ReadWord(data, 0);
    ghost var size := mask + 1;
    ghost var bs := Slots(l, m, size);
    DirectoryInside(l, ws, m, size);
    var b := Slot(l, key, mask + 1);
    var pos := ReadWord(data, 8 + 8 * b);
    ghost var r := FirstOf(l, ws, m, size, b);
    while pos != 0
      invariant -1 <= r < |m| && pos == Offset(l, m, size, r)
      invariant r >= 0 ==> bs[r] == b
      invariant forall j :: r < j < |m| && bs[j] == b ==> m[j].0 != key
      decreases r
    {
      RecordOf(l, ws, m, size, r);
      RecordRead(l, ws, pos, Offset(l, m, size, Chains.Next(bs, r)), m[r].0, m[r].1);
      assert ws[pos + 16..pos + 16 + l.keySize] == data[pos + 16..pos + 16 + l.keySize];
      if Value(data[pos + 16..pos + 16 + l.keySize]) == key {
        ValuesAre(m, key, r);
        var count := ReadWord(data, pos);
        var bytes := data[pos + l.valuesAt..pos + l.valuesAt + l.Values(count)];
        assert bytes == ws[pos + l.valuesAt..pos + l.valuesAt + l.Values(count)];
        return Unpack(bytes, count, l.valueSize);
      }
      pos := ReadWord(data, pos + 8);
      r := Chains.Next(bs, r);
    }
    ValuesAre(m, key, -1);
    return [];
  }

  lemma DirectoryInside(l: Layout, ws: seq<Byte>, m: Entries, size: nat)
    requires Written(l, ws, m, size, |m|)
    ensures 0 < size && 8 + 8 * size <= |ws|
  {
    AtGrows(l, m, size, 0, |m|);
  }

  lemma FirstOf(l: Layout, ws: seq<Byte>, m: Entries, size: nat, b: nat) returns (r: int)
    requires Written(l, ws, m, size, |m|) && b < size && 8 + 8 * size <= |ws|
    ensures -1 <= r < |m| && Word(ws, 8 + 8 * b) == Offset(l, m, size, r)
    ensures r >= 0 ==> Slots(l, m, size)[r] == b
    ensures forall j :: r < j < |m| ==> Slots(l, m, size)[j] != b
  {
    hide Slots, Last, Word;
    assert HeadAt(l, ws, m, size, |m|, b);
    assert m[..|m|] == m;
    r := Last(Slots(l, m, size), b);
  }

  lemma RecordOf(l: Layout, ws: seq<Byte>, m: Entries, size: nat, i: nat)
    requires l.Ok() && Fits(l, m) && Written(l, ws, m, size, |m|) && i < |m|
    ensures IsRecord(l, ws, At(l, m, size, i), Offset(l, m, size, Chains.Next(Slots(l, m, size), i)), m[i].0, m[i].1)
    ensures forall k {:trigger m[i].1[k]} :: 0 <= k < |m[i].1| ==> |m[i].1[k]| == l.valueSize
  {
    hide Slots, Last, At, Offset, HeadAt, Chains.Next, IsRecord;
    assert ChainAt(l, ws, m, size, i);
  }

  /** What is read at a record. */
  lemma RecordRead(l: Layout, ws: seq<Byte>, w: nat, next: nat, key: nat, vs: seq<seq<Byte>>)
    requires IsRecord(l, ws, w, next, key, vs)
    requires forall k {:trigger vs[k]} :: 0 <= k < |vs| ==> |vs[k]| == l.valueSize
    ensures l.Ok() && w + l.Size(|vs|) <= |ws| && Word(ws, w) == |vs| && Word(ws, w + 8) == next
    ensures Value(ws[w + 16..w + 16 + l.keySize]) == key
    ensures w + l.valuesAt + l.Values(|vs|) <= |ws|
    ensures Unpack(ws[w + l.valuesAt..w + l.valuesAt + l.Values(|vs|)], |vs|, l.valueSize) == vs
  {
    hide Word, Value, Pack, Unpack;
    UnpackPack(vs, l.valueSize);
  }

  /** Writing a map and reading any key gives what the map holds. */
  method RoundTrip(l: Layout, m: Entries, key: nat) returns (values: seq<seq<Byte>>)
    requires l.Ok() && Fits(l, m) && At(l, m, Shift(Bits(|m|, 1)), |m|) < Murmur.W64
    requires forall i, j :: 0 <= i < j < |m| ==> m[i].0 != m[j].0
    ensures (exists i :: 0 <= i < |m| && m[i] == (key, values))
            || (values == [] && forall i :: 0 <= i < |m| ==> m[i].0 != key)
  {
    var data := WriteBinary(l, m);
    values := Get(data, l, key, m);
    KeyIsOnce(m, key);
  }

  lemma {:induction false} KeyIsOnce(m: Entries, key: nat)
    ensures (exists i :: 0 <= i < |m| && m[i] == (key, ValuesOf(m, key)))
            || (ValuesOf(m, key) == [] && forall i :: 0 <= i < |m| ==> m[i].0 != key)
  {
    if m != [] && m[|m| - 1].0 != key {
      var front := m[..|m| - 1];
      KeyIsOnce(front, key);
      if i :| 0 <= i < |front| && front[i] == (key, ValuesOf(front, key)) {
        assert m[i] == (key, ValuesOf(m, key));
      }
    } else if m != [] {
      assert m[|m| - 1] == (key, ValuesOf(m, key));
    }
  }
}
