/** Machine words as naturals below a power of two, with the bit operations written out. */
module Words {

  /** 1 << e */
  function Shift(e: nat): (r: nat)
    ensures r > 0
  {
    if e == 0 then 1 else 2 * Shift(e - 1)
  }

  /** a >> n */
  function ShiftRight(a: nat, n: nat): nat {
    if n == 0 then a else ShiftRight(a, n - 1) / 2
  }

  /** a ^ b */
  function Xor(a: nat, b: nat): nat
    decreases a + b
  {
    if a == 0 && b == 0 then 0 else 2 * Xor(a / 2, b / 2) + (a % 2 + b % 2) % 2
  }

  /** a | b */
  function Or(a: nat, b: nat): nat
    decreases a + b
  {
    if a == 0 && b == 0 then 0 else 2 * Or(a / 2, b / 2) + if a % 2 + b % 2 > 0 then 1 else 0
  }

  lemma {:induction false} ShiftRightBound(a: nat, n: nat, e: nat)
    requires a < Shift(n + e)
    ensures ShiftRight(a, n) < Shift(e)
  {
    if n > 0 { ShiftRightBound(a, n - 1, e + 1); }
  }

  lemma ShiftRightAll(a: nat, n: nat)
    requires a < Shift(n)
    ensures ShiftRight(a, n) == 0
  {
    ShiftRightBound(a, n, 0);
  }

  lemma {:induction false} ShiftRightTwice(a: nat, m: nat, n: nat)
    ensures ShiftRight(ShiftRight(a, m), n) == ShiftRight(a, m + n)
  {
    if n > 0 { ShiftRightTwice(a, m, n - 1); }
  }

  lemma {:induction false} XorBound(a: nat, b: nat, e: nat)
    requires a < Shift(e) && b < Shift(e)
    ensures Xor(a, b) < Shift(e)
  {
    if e > 0 { XorBound(a / 2, b / 2, e - 1); }
  }

  lemma {:induction false} XorZero(a: nat)
    ensures Xor(a, 0) == a == Xor(0, a)
  {
    if a > 0 { XorZero(a / 2); }
  }

  lemma {:induction false} XorSelf(a: nat)
    ensures Xor(a, a) == 0
  {
    if a > 0 { XorSelf(a / 2); }
  }

  lemma {:induction false} XorCommutes(a: nat, b: nat)
    ensures Xor(a, b) == Xor(b, a)
    decreases a + b
  {
    if a > 0 || b > 0 { XorCommutes(a / 2, b / 2); }
  }

  lemma {:induction false} XorAssoc(a: nat, b: nat, c: nat)
    ensures Xor(Xor(a, b), c) == Xor(a, Xor(b, c))
    decreases a + b + c
  {
    hide Xor;
    if a == 0 && b == 0 && c == 0 {
      XorZero(0);
    } else {
      LeftParts(a, b, c);
      RightParts(a, b, c);
      XorAssoc(a / 2, b / 2, c / 2);
      BitsAssoc(a % 2, b % 2, c % 2);
      SameParts(Xor(Xor(a, b), c), Xor(a, Xor(b, c)));
    }
  }

  lemma LeftParts(a: nat, b: nat, c: nat)
    ensures Xor(Xor(a, b), c) / 2 == Xor(Xor(a / 2, b / 2), c / 2)
    ensures Xor(Xor(a, b), c) % 2 == ((a % 2 + b % 2) % 2 + c % 2) % 2
  {
    hide Xor;
    XorParts(a, b);
    XorParts(Xor(a, b), c);
  }

  lemma RightParts(a: nat, b: nat, c: nat)
    ensures Xor(a, Xor(b, c)) / 2 == Xor(a / 2, Xor(b / 2, c / 2))
    ensures Xor(a, Xor(b, c)) % 2 == (a % 2 + (b % 2 + c % 2) % 2) % 2
  {
    hide Xor;
    XorParts(b, c);
    XorParts(a, Xor(b, c));
  }

  lemma BitsAssoc(x: nat, y: nat, z: nat)
    requires x < 2 && y < 2 && z < 2
    ensures ((x + y) % 2 + z) % 2 == (x + (y + z) % 2) % 2
  {}

  /** Halves and lowest bits. */
  lemma XorParts(a: nat, b: nat)
    ensures Xor(a, b) / 2 == Xor(a / 2, b / 2) && Xor(a, b) % 2 == (a % 2 + b % 2) % 2
  {}

  lemma SameParts(a: nat, b: nat)
    requires a / 2 == b / 2 && a % 2 == b % 2
    ensures a == b
  {}

  /** Applying the same mask twice cancels out. */
  lemma XorTwice(a: nat, b: nat)
    ensures Xor(Xor(a, b), b) == a && Xor(a, Xor(a, b)) == b
  {
    XorAssoc(a, b, b);
    XorSelf(b);
    XorZero(a);
    XorAssoc(a, a, b);
    XorSelf(a);
    XorZero(b);
  }

  lemma {:induction false} ShiftRightXor(a: nat, b: nat, n: nat)
    ensures ShiftRight(Xor(a, b), n) == Xor(ShiftRight(a, n), ShiftRight(b, n))
  {
    if n > 0 { ShiftRightXor(a, b, n - 1); }
  }

  // ---- x ^= x >> n

  function XorShift(x: nat, n: nat): nat { Xor(x, ShiftRight(x, n)) }

  lemma XorShiftBound(x: nat, n: nat, e: nat)
    requires n <= e && x < Shift(e)
    ensures XorShift(x, n) < Shift(e)
  {
    ShiftGrows(e - n, e);
    ShiftRightBound(x, n, e - n);
    XorBound(x, ShiftRight(x, n), e);
  }

  lemma {:induction false} ShiftGrows(a: nat, b: nat)
    requires a <= b
    ensures Shift(a) <= Shift(b)
  {
    if a < b { ShiftGrows(a, b - 1); }
  }

  /** A shift by at least half the width undoes itself. */
  lemma XorShiftTwice(x: nat, n: nat, e: nat)
    requires x < Shift(e) && e <= 2 * n
    ensures XorShift(XorShift(x, n), n) == x
  {
    var s := ShiftRight(x, n);
    ShiftRightXor(x, s, n);
    ShiftRightTwice(x, n, n);
    ShiftGrows(e, n + n);
    ShiftRightAll(x, n + n);
    XorZero(s);
    XorTwice(x, s);
  }

  /** A shift by at least a third of the width is undone by shifting once and twice as far. */
  function Unshift(x: nat, n: nat): nat { Xor(XorShift(x, n), ShiftRight(x, 2 * n)) }

  lemma UnshiftInverse(x: nat, n: nat, e: nat)
    requires x < Shift(e) && e <= 3 * n
    ensures Unshift(XorShift(x, n), n) == x && XorShift(Unshift(x, n), n) == x
  {
    hide Xor, ShiftRight, Shift;
    var s, t := ShiftRight(x, n), ShiftRight(x, 2 * n);
    ShiftRightTwice(x, n, n);
    ShiftRightTwice(x, 2 * n, n);
    ShiftRightTwice(x, n, 2 * n);
    ShiftRightTwice(x, 2 * n, 2 * n);
    ShiftGrows(e, 3 * n);
    ShiftGrows(e, 4 * n);
    ShiftRightAll(x, 3 * n);
    ShiftRightAll(x, 4 * n);
    XorZero(t);
    XorZero(s);
    var y := Xor(x, s);
    ShiftRightXor(x, s, n);
    ShiftRightXor(x, s, 2 * n);
    // y ^ y >> n == x ^ s ^ (s ^ t) == x ^ t
    XorAssoc(x, s, Xor(s, t));
    XorTwice(s, t);
    XorTwice(x, t);
    // z >> n == s ^ t and z ^ z >> n == x ^ s ^ t ^ (s ^ t) == x
    ShiftRightXor(y, t, n);
    XorZero(Xor(s, t));
    XorAssoc(x, s, t);
    XorTwice(x, Xor(s, t));
  }

  // ---- multiplication with wrap-around

  function Times(x: nat, m: nat, w: nat): (r: nat)
    requires w > 0
    ensures r < w
  {
    x * m % w
  }

  /** If m * n is 1 modulo w, multiplying by n undoes multiplying by m. */
  lemma TimesInverse(x: nat, m: nat, n: nat, q: nat, w: nat)
    requires x < w && m * n == 1 + q * w
    ensures Times(Times(x, m, w), n, w) == x
  {
    var t, r := x * m / w, x * m % w;
    DivMod(x * m, w);
    assert r * n == x + w * (x * q - t * n) by {
      assert r == x * m - t * w;
      assert r * n == x * m * n - t * w * n;
      assert x * m * n == x * (1 + q * w);
    }
    ModOfSum(x, x * q - t * n, w);
  }

  lemma DivMod(a: nat, w: nat)
    requires w > 0
    ensures a == a / w * w + a % w
  {}

  lemma ModOfSum(x: nat, k: int, w: nat)
    requires x < w
    ensures (x + w * k) % w == x
  {
    var a := x + w * k;
    DivModInt(a, w);
    assert (a / w - k) * w == x - a % w;
    SmallMultiple(a / w - k, w);
  }

  lemma DivModInt(a: int, w: nat)
    requires w > 0
    ensures a == a / w * w + a % w && 0 <= a % w < w
  {}

  lemma SmallMultiple(d: int, w: int)
    requires -w < d * w < w
    ensures d == 0
  {}

  // ---- rotation

  /** x << r | x >> (e - r) in a word of e bits. */
  function Rotate(x: nat, r: nat, e: nat): nat
    requires r <= e
  {
    Or(x * Shift(r) % Shift(e), ShiftRight(x, e - r))
  }

  lemma {:induction false} ShiftAdds(a: nat, b: nat)
    ensures Shift(a) * Shift(b) == Shift(a + b)
  {
    if a > 0 {
      ShiftAdds(a - 1, b);
      assert 2 * Shift(a - 1) * Shift(b) == 2 * (Shift(a - 1) * Shift(b));
    }
  }

  /** A word splits at bit n. */
  lemma {:induction false} ShiftRightIs(hi: nat, lo: nat, n: nat)
    requires lo < Shift(n)
    ensures hi * Shift(n) + lo >= 0 && ShiftRight(hi * Shift(n) + lo, n) == hi
    decreases n
  {
    hide Shift;
    if n == 0 {
      NoShift();
    } else {
      var p := Shift(n - 1);
      ShiftStep(n);
      var b := if lo >= p then 1 else 0;
      ShiftRightIs(2 * hi + b, lo - b * p, n - 1);
      Rebalance(hi, lo, b, p);
    }
  }

  lemma NoShift()
    ensures Shift(0) == 1
  {}

  lemma ShiftStep(n: nat)
    requires n > 0
    ensures Shift(n) == 2 * Shift(n - 1)
  {}

  lemma Rebalance(hi: nat, lo: nat, b: nat, p: nat)
    requires b < 2
    ensures (2 * hi + b) * p + (lo - b * p) == hi * (2 * p) + lo
  {}

  lemma {:induction false} WordSplits(x: nat, n: nat) returns (lo: nat)
    ensures lo < Shift(n) && x == ShiftRight(x, n) * Shift(n) + lo
  {
    if n == 0 {
      lo := 0;
    } else {
      lo := WordSplits(x, n - 1);
      var s := ShiftRight(x, n - 1);
      Halve(s, Shift(n - 1));
      lo := if s % 2 == 1 then lo + Shift(n - 1) else lo;
    }
  }

  lemma Halve(s: nat, p: nat)
    ensures s * p == s / 2 * (2 * p) + if s % 2 == 1 then p else 0
  {
    assert s == 2 * (s / 2) + s % 2;
    if s % 2 == 1 {
      assert (2 * (s / 2) + 1) * p == 2 * (s / 2) * p + p;
    } else {
      assert 2 * (s / 2) * p == s / 2 * (2 * p);
    }
  }

  lemma OrParts(a: nat, b: nat)
    ensures Or(2 * a, b) == 2 * Or(a, b / 2) + b % 2
  {}

  lemma {:induction false} OrDisjoint(a: nat, b: nat, n: nat)
    requires b < Shift(n)
    ensures a * Shift(n) >= 0 && Or(a * Shift(n), b) == a * Shift(n) + b
  {
    hide Or;
    if n == 0 {
      OrZero(a);
    } else {
      OrDisjoint(a, b / 2, n - 1);
      OrParts(a * Shift(n - 1), b);
    }
  }

  lemma XorPartsEven(a: nat, b: nat)
    ensures Xor(2 * a, b) == 2 * Xor(a, b / 2) + b % 2
  {
    assert 2 * a / 2 == a && 2 * a % 2 == 0;
  }

  /** Words without a common bit add up. */
  lemma {:induction false} XorDisjoint(a: nat, b: nat, n: nat)
    requires b < Shift(n)
    ensures a * Shift(n) >= 0 && Xor(a * Shift(n), b) == a * Shift(n) + b
  {
    hide Xor;
    if n == 0 {
      XorZero(a);
    } else {
      XorDisjoint(a, b / 2, n - 1);
      XorPartsEven(a * Shift(n - 1), b);
    }
  }

  lemma {:induction false} OrZero(a: nat)
    ensures Or(a, 0) == a
  {
    if a > 0 { OrZero(a / 2); }
  }

  /** Rotating exchanges the two parts of the word. */
  lemma RotateIs(hi: nat, lo: nat, r: nat, e: nat)
    requires r <= e && hi < Shift(r) && lo < Shift(e - r)
    ensures hi * Shift(e - r) + lo >= 0 && Rotate(hi * Shift(e - r) + lo, r, e) == lo * Shift(r) + hi
  {
    hide Shift, Or, ShiftRight;
    var x, p, q := hi * Shift(e - r) + lo, Shift(r), Shift(e - r);
    ShiftAdds(r, e - r);
    ShiftRightIs(hi, lo, e - r);
    assert x * p == lo * p + (p * q) * hi;
    Bounded(lo, q, p);
    ModOfSum(lo * p, hi, p * q);
    OrDisjoint(lo, hi, r);
  }

  lemma Bounded(a: nat, b: nat, c: nat)
    requires a < b && c > 0
    ensures 0 <= a * c < c * b
  {}

  /** Rotating by r and by the rest of the width cancel out. */
  lemma RotateInverse(x: nat, r: nat, e: nat)
    requires r <= e && x < Shift(e)
    ensures Rotate(Rotate(x, r, e), e - r, e) == x
  {
    hide Shift, Rotate, ShiftRight;
    var lo := WordSplits(x, e - r);
    var hi := ShiftRight(x, e - r);
    ShiftRightBound(x, e - r, r);
    RotateIs(hi, lo, r, e);
    RotateIs(lo, hi, e - r, e);
  }

  lemma RotateBound(x: nat, r: nat, e: nat)
    requires r <= e && x < Shift(e)
    ensures Rotate(x, r, e) < Shift(e)
  {
    hide Shift, Rotate, ShiftRight;
    var lo := WordSplits(x, e - r);
    var hi := ShiftRight(x, e - r);
    ShiftRightBound(x, e - r, r);
    RotateIs(hi, lo, r, e);
    ShiftAdds(e - r, r);
    Combined(lo, hi, Shift(r), Shift(e - r));
  }

  lemma Combined(lo: nat, hi: nat, p: nat, q: nat)
    requires lo < q && hi < p
    ensures lo * p + hi < q * p
  {
    assert (lo + 1) * p <= q * p;
  }
}
