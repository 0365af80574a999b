/** Murmur hash of a byte string: the string is absorbed word by word, the bytes behind the last whole
    word as one shorter word.  For a fixed length every single word decides the hash, and the whole
    string does exactly up to a length of eight bytes. */
module MurmurBytes {

  import opened Murmur
  import opened Words

  type Byte = b: nat | b < 0x100

  // ---- little-endian words

  function Value(b: seq<Byte>): nat {
    if b == [] then 0 else b[0] + 0x100 * Value(b[1..])
  }

  function Bytes(w: nat, n: nat): (r: seq<Byte>)
    ensures |r| == n
  {
    if n == 0 then [] else [w % 0x100] + Bytes(w / 0x100, n - 1)
  }

  lemma {:induction false} ValueFits(b: seq<Byte>)
    ensures Value(b) < Shift(8 * |b|)
  {
    if b != [] {
      ValueFits(b[1..]);
      ByteShift(|b[1..]|);
    }
  }

  lemma ByteShift(n: nat)
    ensures Shift(8 * (n + 1)) == 0x100 * Shift(8 * n)
  {
    hide Shift;
    ShiftAdds(8, 8 * n);
    Murmur.Byte();
  }

  lemma {:induction false} ValueOfBytes(w: nat, n: nat)
    requires w < Shift(8 * n)
    ensures Value(Bytes(w, n)) == w
  {
    if n > 0 {
      ByteShift(n - 1);
      ValueOfBytes(w / 0x100, n - 1);
    }
  }

  lemma {:induction false} ValueDecides(a: seq<Byte>, b: seq<Byte>)
    requires |a| == |b| && Value(a) == Value(b)
    ensures a == b
  {
    if a != [] {
      ValueDecides(a[1..], b[1..]);
      assert a == [a[0]] + a[1..] && b == [b[0]] + b[1..];
    }
  }

  // ---- absorbing words

  ghost predicate AreWords(ws: seq<nat>) {
    forall i {:trigger ws[i]} :: 0 <= i < |ws| ==> ws[i] < W64
  }

  /** Each word is xored into the state, and the state scaled. */
  function Absorb(ws: seq<nat>, h: nat): nat {
    if ws == [] then h else Scale(Xor(Absorb(ws[..|ws| - 1], h), ws[|ws| - 1]))
  }

  /** The state from which a given state was reached. */
  function Unabsorb(ws: seq<nat>, g: nat): nat {
    if ws == [] then g else Unabsorb(ws[..|ws| - 1], Xor(Unscale(g), ws[|ws| - 1]))
  }

  /** One step, done and undone. */
  lemma StepInverse(w: nat, h: nat)
    requires w < W64 && h < W64
    ensures Xor(Unscale(Scale(Xor(h, w))), w) == h
    ensures Xor(Unscale(h), w) < W64 && Scale(Xor(Xor(Unscale(h), w), w)) == h
  {
    hide Xor, Scale, Unscale;
    XorFits(h, w);
    ScaleInverse(Xor(h, w));
    XorTwice(h, w);
    XorFits(Unscale(h), w);
    XorTwice(Unscale(h), w);
    ScaleInverse(h);
  }

  /** For fixed words, the state afterwards and the state before determine each other: absorbing,
      then undoing ... */
  lemma {:induction false} UnabsorbAbsorb(ws: seq<nat>, h: nat)
    requires AreWords(ws) && h < W64
    ensures Absorb(ws, h) < W64 && Unabsorb(ws, Absorb(ws, h)) == h
  {
    hide Xor, Scale, Unscale;
    if ws != [] {
      UnabsorbAbsorb(ws[..|ws| - 1], h);
      StepInverse(ws[|ws| - 1], Absorb(ws[..|ws| - 1], h));
    }
  }

  /** ... and undoing, then absorbing. */
  lemma {:induction false} AbsorbUnabsorb(ws: seq<nat>, g: nat)
    requires AreWords(ws) && g < W64
    ensures Unabsorb(ws, g) < W64 && Absorb(ws, Unabsorb(ws, g)) == g
  {
    hide Xor, Scale, Unscale;
    if ws != [] {
      StepInverse(ws[|ws| - 1], g);
      AbsorbUnabsorb(ws[..|ws| - 1], Xor(Unscale(g), ws[|ws| - 1]));
    }
  }

  lemma {:induction false} AbsorbConcat(a: seq<nat>, b: seq<nat>, h: nat)
    ensures Absorb(a + b, h) == Absorb(b, Absorb(a, h))
  {
    hide Xor, Scale;
    if b == [] {
      assert a + b == a;
    } else {
      AbsorbConcat(a, b[..|b| - 1], h);
      assert (a + b)[..|a + b| - 1] == a + b[..|b| - 1];
    }
  }

  /** The word between a and b that leads from state h to state g. */
  function WordBetween(a: seq<nat>, b: seq<nat>, h: nat, g: nat): nat {
    Xor(Absorb(a, h), Unscale(Unabsorb(b, g)))
  }

  /** With the other words fixed, each word leads to one state and each state comes from one word. */
  lemma OneWordDecides(a: seq<nat>, w: nat, b: seq<nat>, h: nat, g: nat)
    requires AreWords(a) && AreWords(b) && w < W64 && h < W64 && g < W64
    ensures WordBetween(a, b, h, g) < W64
    ensures Absorb(a + [w] + b, h) == g <==> w == WordBetween(a, b, h, g)
  {
    hide Xor, Scale, Unscale, Unabsorb;
    var x, y := Absorb(a, h), Unabsorb(b, g);
    UnabsorbAbsorb(a, h);
    AbsorbUnabsorb(b, g);
    AbsorbConcat(a + [w], b, h);
    AbsorbConcat(a, [w], h);
    assert Absorb([w], x) == Scale(Xor(x, w)) by {
      assert [w][..0] == [];
    }
    UnabsorbAbsorb(b, Scale(Xor(x, w)));
    XorFits(x, w);
    ScaleInverse(Xor(x, w));
    ScaleInverse(y);
    XorTwice(x, w);
    XorFits(x, Unscale(y));
    XorTwice(x, Unscale(y));
  }

  // ---- the words of a byte string

  /** Mixing of a whole word before it is absorbed. */
  function Mix(k: nat): (r: nat)
    ensures r < W64
  {
    Scale(Fold(Scale(k)))
  }

  function Unmix(k: nat): (r: nat)
    ensures r < W64
  {
    Unscale(Fold(Unscale(k)))
  }

  lemma MixInverse(k: nat)
    requires k < W64
    ensures Unmix(Mix(k)) == k && Mix(Unmix(k)) == k
  {
    hide Scale, Unscale, Fold;
    ScaleInverse(k);
    FoldInverse(Scale(k));
    ScaleInverse(Fold(Scale(k)));
    FoldInverse(Unscale(k));
    ScaleInverse(Fold(Unscale(k)));
  }

  /** Words of a string of n bytes, the last one maybe short. */
  function Count(n: nat): nat { (n + 7) / 8 }

  /** What is absorbed for the i-th word: a whole word is mixed, a short one taken as it is. */
  function Part(s: seq<Byte>, i: nat): nat
    requires i < Count(|s|)
  {
    if 8 * i + 8 <= |s| then Mix(Value(s[8 * i..8 * i + 8])) else Value(s[8 * i..])
  }

  function Parts(s: seq<Byte>): (r: seq<nat>)
    ensures |r| == Count(|s|) && forall i {:trigger r[i]} :: 0 <= i < |r| ==> r[i] == Part(s, i)
  {
    seq(Count(|s|), i requires 0 <= i < Count(|s|) => Part(s, i))
  }

  lemma PartFits(s: seq<Byte>, i: nat)
    requires i < Count(|s|)
    ensures Part(s, i) < W64
  {
    hide Shift, Value, Mix;
    if 8 * i + 8 > |s| {
      ValueFits(s[8 * i..]);
      ShiftGrows(8 * |s[8 * i..]|, 64);
      Widths();
    }
  }

  lemma PartsFit(s: seq<Byte>)
    ensures AreWords(Parts(s))
  {
    hide Part;
    forall i | 0 <= i < Count(|s|)
      ensures Parts(s)[i] < W64
    {
      PartFits(s, i);
    }
  }

  /** The bytes of the i-th word. */
  function Slice(s: seq<Byte>, i: nat): (r: seq<Byte>)
    requires i < Count(|s|)
    ensures |r| == if 8 * i + 8 <= |s| then 8 else |s| - 8 * i
  {
    if 8 * i + 8 <= |s| then s[8 * i..8 * i + 8] else s[8 * i..]
  }

  lemma PartDecides(s: seq<Byte>, t: seq<Byte>, i: nat)
    requires |s| == |t| && i < Count(|s|)
    ensures Part(s, i) == Part(t, i) <==> Slice(s, i) == Slice(t, i)
  {
    hide Shift, Value, Mix, Unmix;
    if Part(s, i) == Part(t, i) {
      var a, b := Slice(s, i), Slice(t, i);
      if 8 * i + 8 <= |s| {
        ValueFits(a);
        ValueFits(b);
        Widths();
        MixInverse(Value(a));
        MixInverse(Value(b));
      }
      ValueDecides(a, b);
    }
  }

  // ---- the hash

  function Finish(h: nat): nat { Fold(Scale(Fold(h))) }

  function Unfinish(g: nat): nat { Fold(Unscale(Fold(g))) }

  lemma FinishInverse(h: nat)
    requires h < W64
    ensures Finish(h) < W64 && Unfinish(Finish(h)) == h
    ensures Unfinish(h) < W64 && Finish(Unfinish(h)) == h
  {
    hide Scale, Unscale, Fold;
    FoldInverse(h);
    ScaleInverse(Fold(h));
    FoldInverse(Scale(Fold(h)));
    FoldInverse(Unscale(Fold(h)));
  }

  function Begin(n: nat, seed: nat): nat { Xor(seed, Times(n, M, W64)) }

  function Hash(s: seq<Byte>, seed: nat): nat {
    Finish(Absorb(Parts(s), Begin(|s|, seed)))
  }

  lemma BeginFits(n: nat, seed: nat)
    requires seed < W64
    ensures Begin(n, seed) < W64
  {
    hide Xor, Times;
    XorFits(seed, Times(n, M, W64));
  }

  lemma Regroup(x: nat, p: nat)
    ensures 0x100 * (x * p) == x * (0x100 * p)
  {}

  lemma {:induction false} ValueAppend(a: seq<Byte>, x: Byte)
    ensures Value(a + [x]) == Value(a) + x * Shift(8 * |a|)
  {
    hide Shift;
    if a == [] {
      NoShift();
      assert a + [x] == [x] && [x][1..] == [];
    } else {
      ValueAppend(a[1..], x);
      ByteShift(|a[1..]|);
      Regroup(x, Shift(8 * |a[1..]|));
      assert (a + [x])[1..] == a[1..] + [x];
    }
  }

  /** The bytes behind the last whole word are xored in one by one, the last one first. */
  lemma TailByte(h: nat, b: seq<Byte>, j: nat)
    requires j < |b|
    ensures b[j] * Shift(8 * j) >= 0
    ensures Xor(Xor(h, b[j] * Shift(8 * j)), Value(b[..j])) == Xor(h, Value(b[..j + 1]))
  {
    hide Xor, Shift, Value;
    assert b[..j + 1] == b[..j] + [b[j]];
    ValueAppend(b[..j], b[j]);
    ValueFits(b[..j]);
    XorDisjoint(b[j], Value(b[..j]), 8 * j);
    XorAssoc(h, b[j] * Shift(8 * j), Value(b[..j]));
  }

  method HashBytes(key: seq<Byte>, seed: nat) returns (h: nat)
    requires seed < W64
    ensures h == Hash(key, seed) < W64
  {
    hide ShiftRight, Xor, Value, Shift;
    ghost var ws := Parts(key);
    h := Xor(seed, Times(|key|, M, W64));
    BeginFits(|key|, seed);
    PartsFit(key);
    var i := 0;
    while i < |key| / 8
      invariant 0 <= i <= |key| / 8 && h == Absorb(ws[..i], Begin(|key|, seed))
    {
      var k := Value(key[8 * i..8 * i + 8]);
      k := Times(k, M, W64);
      k := Xor(k, ShiftRight(k, 47));
      k := Times(k, M, W64);
      h := Xor(h, k);
      h := Times(h, M, W64);
      assert ws[..i + 1][..i] == ws[..i];
      i := i + 1;
    }
    h := AddTail(h, key[8 * i..]);
    assert |key| % 8 == 0 ==> ws[..i] == ws;
    assert |key| % 8 > 0 ==> ws[..|ws| - 1] == ws[..i];
    UnabsorbAbsorb(ws, Begin(|key|, seed));
    FinishInverse(h);
    h := Xor(h, ShiftRight(h, 47));
    h := Times(h, M, W64);
    h := Xor(h, ShiftRight(h, 47));
  }

  /** The fall-through cases for up to seven bytes behind the last whole word. */
  method AddTail(start: nat, rest: seq<Byte>) returns (h: nat)
    ensures h == if rest == [] then start else Scale(Xor(start, Value(rest)))
  {
    hide Xor, Value, Shift;
    h := start;
    var j := |rest|;
    assert rest[..j] == rest;
    while j > 0
      invariant 0 <= j <= |rest| && Xor(h, Value(rest[..j])) == Xor(start, Value(rest))
    {
      j := j - 1;
      TailByte(h, rest, j);
      h := Xor(h, rest[j] * Shift(8 * j));
    }
    XorZero(h);
    XorZero(start);
    assert rest[..0] == [];
    EmptyValue();
    if rest != [] { h := Times(h, M, W64); }
  }

  lemma EmptyValue()
    ensures Value([]) == 0
  {}

  // ---- what decides the hash

  /** The length is part of what is hashed: strings with the same words but of different lengths, such as a
      string and the same with a zero byte behind it, have different hashes. */
  lemma LengthDecides(s: seq<Byte>, t: seq<Byte>, seed: nat)
    requires Parts(s) == Parts(t) && |s| < W64 && |t| < W64 && seed < W64
    ensures Hash(s, seed) == Hash(t, seed) <==> |s| == |t|
  {
    hide Absorb, Unabsorb, Finish, Unfinish, Xor, Times, Parts, Scale, Unscale;
    var ws, a, b := Parts(s), Begin(|s|, seed), Begin(|t|, seed);
    PartsFit(s);
    BeginFits(|s|, seed);
    BeginFits(|t|, seed);
    UnabsorbAbsorb(ws, a);
    UnabsorbAbsorb(ws, b);
    FinishInverse(Absorb(ws, a));
    FinishInverse(Absorb(ws, b));
    if a == b { SameBegin(|s|, |t|, seed); }
  }

  lemma SameBegin(m: nat, n: nat, seed: nat)
    requires m < W64 && n < W64 && seed < W64 && Begin(m, seed) == Begin(n, seed)
    ensures m == n
  {
    hide Xor, Times;
    var x, y := Times(m, M, W64), Times(n, M, W64);
    XorCommutes(seed, x);
    XorCommutes(seed, y);
    XorTwice(x, seed);
    XorTwice(y, seed);
    ScaleInverse(m);
    ScaleInverse(n);
  }

  lemma ZeroByteCounts(a: Byte, seed: nat)
    requires seed < W64
    ensures Parts([a]) == Parts([a, 0]) && Hash([a], seed) != Hash([a, 0], seed)
  {
    hide Hash, Mix;
    ZeroByteIsNoWord(a);
    Widths();
    LengthDecides([a], [a, 0], seed);
  }

  lemma ZeroByteIsNoWord(a: Byte)
    ensures Parts([a]) == Parts([a, 0])
  {
    hide Mix;
    assert Value([a]) == a + 0x100 * Value([a][1..]) == a;
    assert [a, 0][1..] == [0] && Value([0]) == 0 + 0x100 * Value([0][1..]) == 0;
    assert Value([a, 0]) == a;
    assert [a][8 * 0..] == [a] && [a, 0][8 * 0..] == [a, 0];
  }

  /** For a fixed string the hash and the seed determine each other. */
  lemma SeedDecides(s: seq<Byte>, seed: nat, other: nat)
    requires seed < W64 && other < W64
    ensures Hash(s, seed) == Hash(s, other) <==> seed == other
  {
    hide Absorb, Unabsorb, Finish, Unfinish, Xor, Times, Parts;
    var ws, a, b := Parts(s), Begin(|s|, seed), Begin(|s|, other);
    PartsFit(s);
    BeginFits(|s|, seed);
    BeginFits(|s|, other);
    UnabsorbAbsorb(ws, a);
    UnabsorbAbsorb(ws, b);
    FinishInverse(Absorb(ws, a));
    FinishInverse(Absorb(ws, b));
    if a == b { XorCancel(Times(|s|, M, W64), seed, other); }
  }

  lemma XorCancel(m: nat, a: nat, b: nat)
    requires Xor(a, m) == Xor(b, m)
    ensures a == b
  {
    hide Xor;
    XorTwice(a, m);
    XorTwice(b, m);
  }

  ghost predicate SameOutside(s: seq<Byte>, t: seq<Byte>, i: nat) {
    |s| == |t| && forall j {:trigger s[j]} :: 0 <= j < |s| && j / 8 != i ==> s[j] == t[j]
  }

  lemma SameOtherParts(s: seq<Byte>, t: seq<Byte>, i: nat)
    requires SameOutside(s, t, i) && i < Count(|s|)
    ensures Parts(s)[..i] == Parts(t)[..i] && Parts(s)[i + 1..] == Parts(t)[i + 1..]
    ensures s == t <==> Slice(s, i) == Slice(t, i)
  {
    hide Mix, Value;
    forall k | 0 <= k < Count(|s|) && k != i
      ensures Part(s, k) == Part(t, k)
    {
      assert Slice(s, k) == Slice(t, k);
    }
    if Slice(s, i) == Slice(t, i) {
      forall j | 0 <= j < |s|
        ensures s[j] == t[j]
      {
        if j / 8 == i {
          assert s[j] == Slice(s, i)[j - 8 * i] && t[j] == Slice(t, i)[j - 8 * i];
        }
      }
    }
  }

  lemma HashFits(s: seq<Byte>, seed: nat)
    requires seed < W64
    ensures Hash(s, seed) < W64
  {
    hide Absorb, Finish, Begin, Parts;
    PartsFit(s);
    BeginFits(|s|, seed);
    UnabsorbAbsorb(Parts(s), Begin(|s|, seed));
    FinishInverse(Absorb(Parts(s), Begin(|s|, seed)));
  }

  /** The hash as a function of the i-th word. */
  lemma HashBetween(s: seq<Byte>, i: nat, seed: nat, g: nat)
    requires i < Count(|s|) && seed < W64 && g < W64
    ensures Hash(s, seed) == g <==>
            Part(s, i) == WordBetween(Parts(s)[..i], Parts(s)[i + 1..], Begin(|s|, seed), Unfinish(g))
    ensures WordBetween(Parts(s)[..i], Parts(s)[i + 1..], Begin(|s|, seed), Unfinish(g)) < W64
  {
    hide Absorb, Finish, Unfinish, Begin, Part, WordBetween;
    var ws, h := Parts(s), Begin(|s|, seed);
    PartsFit(s);
    BeginFits(|s|, seed);
    FinishInverse(g);
    UnabsorbAbsorb(ws, h);
    FinishInverse(Absorb(ws, h));
    OneWordDecides(ws[..i], ws[i], ws[i + 1..], h, Unfinish(g));
    assert ws == ws[..i] + [ws[i]] + ws[i + 1..];
  }

  /** Strings of one length that differ only inside one word, whole or short, have different hashes. */
  lemma WordDecides(s: seq<Byte>, t: seq<Byte>, i: nat, seed: nat)
    requires SameOutside(s, t, i) && i < Count(|s|) && seed < W64
    ensures Hash(s, seed) == Hash(t, seed) <==> s == t
  {
    hide Hash, Part, WordBetween, Unfinish, Begin, Slice;
    HashFits(s, seed);
    HashBetween(s, i, seed, Hash(s, seed));
    HashBetween(t, i, seed, Hash(s, seed));
    SameOtherParts(s, t, i);
    PartDecides(s, t, i);
  }

  /** A whole word can be chosen so that the string gets any hash. */
  lemma WordForHash(s: seq<Byte>, i: nat, seed: nat, g: nat) returns (t: seq<Byte>)
    requires 8 * i + 8 <= |s| && seed < W64 && g < W64
    ensures SameOutside(s, t, i) && Hash(t, seed) == g
  {
    hide Hash, Mix, Unmix, Value, WordBetween, Unfinish, Begin;
    var w := WordBetween(Parts(s)[..i], Parts(s)[i + 1..], Begin(|s|, seed), Unfinish(g));
    HashBetween(s, i, seed, g);
    var b := Bytes(Unmix(w), 8);
    t := s[..8 * i] + b + s[8 * i + 8..];
    SameOtherParts(s, t, i);
    assert t[8 * i..8 * i + 8] == b;
    Widths();
    ValueOfBytes(Unmix(w), 8);
    MixInverse(w);
    HashBetween(t, i, seed, g);
  }

  ghost predicate NoCollision(n: nat, seed: nat) {
    forall s: seq<Byte>, t: seq<Byte> {:trigger Hash(s, seed), Hash(t, seed)} ::
      |s| == n && |t| == n && Hash(s, seed) == Hash(t, seed) ==> s == t
  }

  /** Strings of one length never share their hash exactly when they have at most eight bytes. */
  lemma NoCollisionIff(n: nat, seed: nat)
    requires seed < W64
    ensures NoCollision(n, seed) <==> n <= 8
  {
    hide Hash;
    if n <= 8 {
      forall s: seq<Byte>, t: seq<Byte> | |s| == n && |t| == n && Hash(s, seed) == Hash(t, seed)
        ensures s == t
      {
        if n > 0 { WordDecides(s, t, 0, seed); }
      }
    } else {
      var s, u := Bytes(0, n), Bytes(0, n)[n - 1 := if Bytes(0, n)[n - 1] == 0 then 1 else 0];
      HashFits(s, seed);
      var t := WordForHash(u, 0, seed, Hash(s, seed));
      assert t[n - 1] == u[n - 1] != s[n - 1];
    }
  }

  /** The form for words is the form for strings of eight bytes, under a changed seed. */
  lemma WordIsString(k: nat, seed: nat)
    requires k < W64
    ensures Hash64(k, seed) == Hash(Bytes(k, 8), Xor(seed, 0x8445d61a4e774912))
  {
    hide Scale, Fold, Xor, Value, Bytes;
    var s := Bytes(k, 8);
    Widths();
    ValueOfBytes(k, 8);
    assert s[0..8] == s;
    assert Parts(s) == [Mix(k)];
    var h := Begin(8, Xor(seed, 0x8445d61a4e774912));
    assert Absorb([Mix(k)], h) == Scale(Xor(h, Mix(k))) by {
      assert [Mix(k)][..0] == [];
    }
  }
}
