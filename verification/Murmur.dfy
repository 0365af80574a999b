/** Murmur mixing of machine words.  Every step can be undone, so on words of the right width the
    hash is a bijection for every seed: two different keys never share their full hash. */
module Murmur {

  import opened Words

  const W64: nat := 0x1_0000_0000_0000_0000
  const W32: nat := 0x1_0000_0000

  lemma Byte()
    ensures Shift(8) == 0x100
  {}

  lemma Widths()
    ensures Shift(64) == W64 && Shift(32) == W32
  {
    hide Shift;
    Byte();
    ShiftAdds(8, 8);
    ShiftAdds(16, 16);
    ShiftAdds(32, 32);
  }

  // ---- 64-bit words: MurmurHash64A of one word

  const M: nat := 0xc6a4a7935bd1e995
  const M_INVERSE: nat := 0x5f7a0ea7e59b19bd

  function Scale(x: nat): (y: nat)
    ensures y < W64
  {
    Times(x, M, W64)
  }

  function Unscale(x: nat): (y: nat)
    ensures y < W64
  {
    Times(x, M_INVERSE, W64)
  }

  function Fold(x: nat): nat { XorShift(x, 47) }

  function Start(seed: nat): nat { Xor(Xor(seed, 0x8445d61a4e774912), 8 * M % W64) }

  lemma ScaleInverse(x: nat)
    requires x < W64
    ensures Unscale(Scale(x)) == x && Scale(Unscale(x)) == x
  {
    TimesInverse(x, M, M_INVERSE, 0x4a15d006d409ab6f, W64);
    TimesInverse(x, M_INVERSE, M, 0x4a15d006d409ab6f, W64);
  }

  lemma FoldInverse(x: nat)
    requires x < W64
    ensures Fold(x) < W64 && Fold(Fold(x)) == x
  {
    hide Shift, XorShift;
    Widths();
    XorShiftTwice(x, 47, 64);
    XorShiftBound(x, 47, 64);
  }

  lemma XorFits(x: nat, y: nat)
    requires x < W64 && y < W64
    ensures Xor(x, y) < W64
  {
    hide Shift, Xor;
    Widths();
    XorBound(x, y, 64);
  }

  lemma StartFits(seed: nat)
    requires seed < W64
    ensures Start(seed) < W64
  {
    hide Xor;
    XorFits(seed, 0x8445d61a4e774912);
    XorFits(Xor(seed, 0x8445d61a4e774912), 8 * M % W64);
  }

  function Hash64(k: nat, seed: nat): nat {
    Fold(Scale(Fold(Scale(Xor(Start(seed), Scale(Fold(Scale(k))))))))
  }

  /** The key that has a given hash. */
  function Unhash64(h: nat, seed: nat): nat {
    Unscale(Fold(Unscale(Xor(Start(seed), Unscale(Fold(Unscale(Fold(h))))))))
  }

  method HashKey64(key: nat, seed: nat) returns (h: nat)
    requires key < W64 && seed < W64
    ensures h == Hash64(key, seed) < W64
    ensures key == Unhash64(h, seed)
  {
    hide Unhash64, Xor, ShiftRight;
    var m: nat := M;
    var k := key;
    h := Xor(Xor(seed, 0x8445d61a4e774912), 8 * m % W64);
    k := Times(k, m, W64);
    k := Xor(k, ShiftRight(k, 47));
    k := Times(k, m, W64);
    h := Xor(h, k);
    h := Times(h, m, W64);
    h := Xor(h, ShiftRight(h, 47));
    h := Times(h, m, W64);
    h := Xor(h, ShiftRight(h, 47));
    UnhashHash64(key, seed);
  }

  /** For every seed, hashing 64-bit words is a bijection: hashing, then unhashing ... */
  lemma UnhashHash64(k: nat, seed: nat)
    requires k < W64 && seed < W64
    ensures Hash64(k, seed) < W64 && Unhash64(Hash64(k, seed), seed) == k
  {
    hide Scale, Unscale, Fold, Start, Xor;
    var a := Scale(Fold(Scale(k)));
    var b := Xor(Start(seed), a);
    StartFits(seed);
    XorFits(Start(seed), a);
    FoldInverse(Scale(Fold(Scale(b))));
    FoldInverse(Scale(b));
    ScaleInverse(Fold(Scale(b)));
    ScaleInverse(b);
    XorTwice(Start(seed), a);
    FoldInverse(Scale(k));
    ScaleInverse(Fold(Scale(k)));
    ScaleInverse(k);
  }

  /** ... and unhashing, then hashing, gives every word back. */
  lemma HashUnhash64(h: nat, seed: nat)
    requires h < W64 && seed < W64
    ensures Unhash64(h, seed) < W64 && Hash64(Unhash64(h, seed), seed) == h
  {
    hide Scale, Unscale, Fold, Start, Xor;
    var c := Unscale(Fold(Unscale(Fold(h))));
    var d := Xor(Start(seed), c);
    StartFits(seed);
    XorFits(Start(seed), c);
    FoldInverse(h);
    FoldInverse(Unscale(Fold(h)));
    FoldInverse(Unscale(d));
    ScaleInverse(Fold(Unscale(d)));
    ScaleInverse(d);
    XorTwice(Start(seed), c);
    ScaleInverse(Fold(Unscale(Fold(h))));
    ScaleInverse(Fold(h));
  }

  /** Different keys have different hashes: the injectivity that group lookup relies on. */
  lemma NoCollision64(k: nat, l: nat, seed: nat)
    requires k < W64 && l < W64 && seed < W64
    ensures Hash64(k, seed) == Hash64(l, seed) <==> k == l
  {
    hide Hash64, Unhash64;
    UnhashHash64(k, seed);
    UnhashHash64(l, seed);
  }

  // ---- words of at most 32 bits: MurmurHash3 with its finaliser

  const C1: nat := 0xcc9e2d51
  const C1_INVERSE: nat := 0xdee13bb1
  const C2: nat := 0x1b873593
  const C2_INVERSE: nat := 0x56ed309b
  const D1: nat := 0x85ebca6b
  const D1_INVERSE: nat := 0xa5cb9243
  const D2: nat := 0xc2b2ae35
  const D2_INVERSE: nat := 0x7ed1b41d
  const ADD: nat := 0xe6546b64

  function Times32(x: nat, m: nat): (y: nat)
    ensures y < W32
  {
    Times(x, m, W32)
  }

  /** Every constant factor has an inverse. */
  lemma FactorInverses(x: nat)
    requires x < W32
    ensures Times32(Times32(x, C1), C1_INVERSE) == x == Times32(Times32(x, C1_INVERSE), C1)
    ensures Times32(Times32(x, C2), C2_INVERSE) == x == Times32(Times32(x, C2_INVERSE), C2)
    ensures Times32(Times32(x, D1), D1_INVERSE) == x == Times32(Times32(x, D1_INVERSE), D1)
    ensures Times32(Times32(x, D2), D2_INVERSE) == x == Times32(Times32(x, D2_INVERSE), D2)
    ensures Times32(Times32(x, 5), 0xcccccccd) == x == Times32(Times32(x, 0xcccccccd), 5)
  {
    hide Times;
    TimesInverse(x, C1, C1_INVERSE, 0xb2253208, W32);
    TimesInverse(x, C1_INVERSE, C1, 0xb2253208, W32);
    TimesInverse(x, C2, C2_INVERSE, 0x958ed66, W32);
    TimesInverse(x, C2_INVERSE, C2, 0x958ed66, W32);
    TimesInverse(x, D1, D1_INVERSE, 0x56bb77f4, W32);
    TimesInverse(x, D1_INVERSE, D1, 0x56bb77f4, W32);
    TimesInverse(x, D2, D2_INVERSE, 0x60736e9a, W32);
    TimesInverse(x, D2_INVERSE, D2, 0x60736e9a, W32);
    TimesInverse(x, 5, 0xcccccccd, 0x4, W32);
    TimesInverse(x, 0xcccccccd, 5, 0x4, W32);
  }

  function Rotl32(x: nat, r: nat): nat
    requires r <= 32
  {
    Rotate(x, r, 32)
  }

  lemma RotlInverse(x: nat, r: nat)
    requires x < W32 && r <= 32
    ensures Rotl32(x, r) < W32 && Rotl32(Rotl32(x, r), 32 - r) == x
  {
    hide Shift, Rotate;
    Widths();
    RotateInverse(x, r, 32);
    RotateBound(x, r, 32);
  }

  lemma XorFits32(x: nat, y: nat)
    requires x < W32 && y < W32
    ensures Xor(x, y) < W32
  {
    hide Shift, Xor;
    Widths();
    XorBound(x, y, 32);
  }

  /** The finaliser. */
  function Fmix32(h: nat): nat {
    XorShift(Times32(XorShift(Times32(XorShift(h, 16), D1), 13), D2), 16)
  }

  function Unfmix32(h: nat): nat {
    XorShift(Times32(Unshift(Times32(XorShift(h, 16), D2_INVERSE), 13), D1_INVERSE), 16)
  }

  lemma ShiftsInverse(x: nat)
    requires x < W32
    ensures XorShift(x, 16) < W32 && XorShift(x, 13) < W32 && Unshift(x, 13) < W32
    ensures XorShift(XorShift(x, 16), 16) == x
    ensures Unshift(XorShift(x, 13), 13) == x == XorShift(Unshift(x, 13), 13)
  {
    hide Shift, Xor, ShiftRight;
    Widths();
    XorShiftTwice(x, 16, 32);
    XorShiftBound(x, 16, 32);
    XorShiftBound(x, 13, 32);
    UnshiftInverse(x, 13, 32);
    ShiftRightBound(x, 26, 6);
    ShiftGrows(6, 32);
    XorFits32(XorShift(x, 13), ShiftRight(x, 26));
  }

  lemma FmixInverse(x: nat)
    requires x < W32
    ensures Fmix32(x) < W32 && Unfmix32(Fmix32(x)) == x
    ensures Unfmix32(x) < W32 && Fmix32(Unfmix32(x)) == x
  {
    hide XorShift, Unshift, Times32;
    var a, b := Times32(XorShift(x, 16), D1), Times32(XorShift(x, 16), D2_INVERSE);
    ShiftsInverse(x);
    FactorInverses(XorShift(x, 16));
    ShiftsInverse(a);
    FactorInverses(XorShift(a, 13));
    ShiftsInverse(Times32(XorShift(a, 13), D2));
    ShiftsInverse(b);
    FactorInverses(Unshift(b, 13));
    ShiftsInverse(Times32(Unshift(b, 13), D1_INVERSE));
  }

  function Mix1(k: nat): (r: nat)
    ensures r < W32
  {
    Times32(Rotl32(Times32(k, C1), 15), C2)
  }

  function Unmix1(k: nat): (r: nat)
    ensures r < W32
  {
    Times32(Rotl32(Times32(k, C2_INVERSE), 17), C1_INVERSE)
  }

  lemma Mix1Inverse(k: nat)
    requires k < W32
    ensures Unmix1(Mix1(k)) == k && Mix1(Unmix1(k)) == k
  {
    hide Rotl32, Times32;
    RotlInverse(Times32(k, C1), 15);
    FactorInverses(Rotl32(Times32(k, C1), 15));
    FactorInverses(k);
    RotlInverse(Times32(k, C2_INVERSE), 17);
    FactorInverses(Rotl32(Times32(k, C2_INVERSE), 17));
  }

  function Mix2(h: nat): (r: nat)
    ensures r < W32
  {
    (Times32(Rotl32(h, 13), 5) + ADD) % W32
  }

  function Unmix2(h: nat): nat {
    Rotl32(Times32((h + (W32 - ADD)) % W32, 0xcccccccd), 19)
  }

  lemma Mix2Inverse(h: nat)
    requires h < W32
    ensures Unmix2(h) < W32 && Unmix2(Mix2(h)) == h && Mix2(Unmix2(h)) == h
  {
    hide Rotl32, Times32;
    RotlInverse(h, 13);
    FactorInverses(Rotl32(h, 13));
    var d := (h + (W32 - ADD)) % W32;
    FactorInverses(d);
    RotlInverse(Times32(d, 0xcccccccd), 19);
  }

  function Hash32(k: nat, seed: nat): nat { Fmix32(Mix2(Xor(seed, Mix1(k)))) }

  function Unhash32(h: nat, seed: nat): nat { Unmix1(Xor(seed, Unmix2(Unfmix32(h)))) }

  /** The caller's 64-bit seed is cut to 32 bits. */
  method HashKey32(k: nat, seed: nat) returns (h: nat)
    requires k < W32 && seed < W64
    ensures h == Hash32(k, seed % W32) < W32
    ensures k == Unhash32(h, seed % W32)
  {
    hide Unhash32, Xor, Rotl32, Times;
    var h1 := seed % W32;
    var k1 := k;
    k1 := Times(k1, C1, W32);
    k1 := Rotl32(k1, 15);
    k1 := Times(k1, C2, W32);
    h1 := Xor(h1, k1);
    h1 := Rotl32(h1, 13);
    h1 := (Times(h1, 5, W32) + ADD) % W32;
    h := Fmix32(h1);
    UnhashHash32(k, seed % W32);
  }

  /** For every seed, hashing 32-bit words is a bijection: hashing, then unhashing ... */
  lemma UnhashHash32(k: nat, seed: nat)
    requires k < W32 && seed < W32
    ensures Hash32(k, seed) < W32 && Unhash32(Hash32(k, seed), seed) == k
  {
    hide Fmix32, Unfmix32, Mix1, Unmix1, Mix2, Unmix2, Xor;
    XorFits32(seed, Mix1(k));
    FmixInverse(Mix2(Xor(seed, Mix1(k))));
    Mix2Inverse(Xor(seed, Mix1(k)));
    XorTwice(seed, Mix1(k));
    Mix1Inverse(k);
  }

  /** ... and unhashing, then hashing, gives every word back. */
  lemma HashUnhash32(h: nat, seed: nat)
    requires h < W32 && seed < W32
    ensures Unhash32(h, seed) < W32 && Hash32(Unhash32(h, seed), seed) == h
  {
    hide Fmix32, Unfmix32, Mix1, Unmix1, Mix2, Unmix2, Xor;
    FmixInverse(h);
    Mix2Inverse(Unfmix32(h));
    XorFits32(seed, Unmix2(Unfmix32(h)));
    Mix1Inverse(Xor(seed, Unmix2(Unfmix32(h))));
    XorTwice(seed, Unmix2(Unfmix32(h)));
  }

  // ---- 64-bit words hashed to 32 bits: the high half is scaled, but not rotated

  function Mix3(k: nat): (r: nat)
    ensures r < W32
  {
    Times32(Times32(k, C1), C2)
  }

  function Unmix3(k: nat): (r: nat)
    ensures r < W32
  {
    Times32(Times32(k, C2_INVERSE), C1_INVERSE)
  }

  lemma Mix3Inverse(k: nat)
    requires k < W32
    ensures Unmix3(Mix3(k)) == k && Mix3(Unmix3(k)) == k
  {
    hide Times32;
    FactorInverses(Times32(k, C1));
    FactorInverses(k);
    FactorInverses(Times32(k, C2_INVERSE));
  }

  /** Take in one more half. */
  function Join(h: nat, k: nat): (r: nat)
    ensures r < W32
  {
    Mix2(Xor(h, k))
  }

  /** What was taken in, and into what. */
  lemma JoinInverse(h: nat, k: nat, g: nat)
    requires h < W32 && k < W32 && g < W32
    ensures Xor(h, Unmix2(g)) < W32 && (Join(h, k) == g <==> k == Xor(h, Unmix2(g)))
    ensures Xor(k, Unmix2(g)) < W32 && (Join(h, k) == g <==> h == Xor(k, Unmix2(g)))
  {
    hide Xor, Mix2, Unmix2;
    XorFits32(h, k);
    Mix2Inverse(Xor(h, k));
    Mix2Inverse(g);
    XorTwice(h, k);
    XorTwice(h, Unmix2(g));
    XorTwice(k, Unmix2(g));
    XorFits32(h, Unmix2(g));
    XorFits32(k, Unmix2(g));
    XorCommutes(h, k);
    XorCommutes(k, Unmix2(g));
  }

  function HashWide(k: nat, seed: nat): nat {
    Fmix32(Join(Join(seed, Mix1(k % W32)), Mix3(k / W32)))
  }

  /** The caller's 64-bit seed is cut to 32 bits.  The second rotation is of the first half again. */
  method HashKeyWide(k: nat, seed: nat) returns (h: nat)
    requires k < W64 && seed < W64
    ensures h == HashWide(k, seed % W32) < W32
  {
    hide Xor, Rotl32, Times, Fmix32;
    var h1 := seed % W32;
    var k1, k2 := k % W32, k / W32;
    k1 := Times(k1, C1, W32);
    k1 := Rotl32(k1, 15);
    k1 := Times(k1, C2, W32);
    h1 := Xor(h1, k1);
    h1 := Rotl32(h1, 13);
    h1 := (Times(h1, 5, W32) + ADD) % W32;
    k2 := Times(k2, C1, W32);
    k1 := Rotl32(k1, 15);
    k2 := Times(k2, C2, W32);
    h1 := Xor(h1, k2);
    h1 := Rotl32(h1, 13);
    h1 := (Times(h1, 5, W32) + ADD) % W32;
    FmixInverse(h1);
    h := Fmix32(h1);
  }

  /** The low half that leads to hash g, given the high half. */
  function LowFor(g: nat, high: nat, seed: nat): nat {
    Unmix1(Xor(seed, Unmix2(Xor(Mix3(high), Unmix2(Unfmix32(g))))))
  }

  /** The high half that leads to hash g, given the low half. */
  function HighFor(g: nat, low: nat, seed: nat): nat {
    Unmix3(Xor(Join(seed, Mix1(low)), Unmix2(Unfmix32(g))))
  }

  /** With one half fixed, the other half and the hash determine each other. */
  lemma HalfDecides(k: nat, g: nat, seed: nat)
    requires k < W64 && g < W32 && seed < W32
    ensures HashWide(k, seed) < W32 && LowFor(g, k / W32, seed) < W32 && HighFor(g, k % W32, seed) < W32
    ensures HashWide(k, seed) == g <==> k % W32 == LowFor(g, k / W32, seed)
    ensures HashWide(k, seed) == g <==> k / W32 == HighFor(g, k % W32, seed)
  {
    hide Xor, Fmix32, Unfmix32, Mix1, Unmix1, Unmix2, Mix3, Unmix3, Join;
    var a, b, f := Mix1(k % W32), Mix3(k / W32), Unfmix32(g);
    var h := Join(seed, a);
    FmixInverse(Join(h, b));
    FmixInverse(g);
    JoinInverse(h, b, f);
    JoinInverse(seed, a, Xor(b, Unmix2(f)));
    Mix1Inverse(k % W32);
    Mix1Inverse(Xor(seed, Unmix2(Xor(b, Unmix2(f)))));
    Mix3Inverse(k / W32);
    Mix3Inverse(Xor(h, Unmix2(f)));
  }

  /** No two different keys of at most n bits share their hash. */
  ghost predicate NoWideCollision(n: nat, seed: nat) {
    forall k: nat, l: nat {:trigger HashWide(k, seed), HashWide(l, seed)} ::
      k < Shift(n) && l < Shift(n) && HashWide(k, seed) == HashWide(l, seed) ==> k == l
  }

  /** For every seed, keys are told apart exactly as long as they have at most 32 bits. */
  lemma NoWideCollisionIff(n: nat, seed: nat)
    requires n <= 64 && seed < W32
    ensures NoWideCollision(n, seed) <==> n <= 32
  {
    hide HashWide, LowFor, HighFor, Shift;
    Widths();
    ShiftGrows(n, 64);
    if n <= 32 {
      ShiftGrows(n, 32);
      forall k: nat, l: nat | k < Shift(n) && l < Shift(n) && HashWide(k, seed) == HashWide(l, seed)
        ensures k == l
      {
        HalfDecides(k, 0, seed);
        HalfDecides(k, HashWide(k, seed), seed);
        HalfDecides(l, HashWide(k, seed), seed);
      }
    } else {
      ShiftGrows(33, n);
      var l := Colliding(seed);
    }
  }

  /** For every seed a key of 33 bits collides with 0. */
  lemma Colliding(seed: nat) returns (l: nat)
    requires seed < W32
    ensures W32 <= l < Shift(33) && HashWide(l, seed) == HashWide(0, seed)
  {
    hide HashWide, LowFor, HighFor, Shift;
    Widths();
    ShiftAdds(1, 32);
    assert Shift(1) == 2 by { OneShift(); }
    HalfDecides(0, 0, seed);
    var g := HashWide(0, seed);
    HalfDecides(W32, g, seed);
    l := W32 + LowFor(g, 1, seed);
    HalfDecides(l, g, seed);
  }

  lemma OneShift()
    ensures Shift(1) == 2
  {}
}
