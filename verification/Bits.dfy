/** Bitwise operations of the source, on natural numbers, bit by bit.
    A 64-bit word is a natural below 2^64. */
module Bits {

  function Pow2(n: nat): (p: nat)
    ensures p >= 1
  {
    if n == 0 then 1 else 2 * Pow2(n - 1)
  }

  /** `w >> k`. */
  function Shr(w: nat, k: nat): nat
    decreases k
  {
    if k == 0 then w else Shr(w / 2, k - 1)
  }

  /** A right shift is division by a power of two. */
  lemma {:induction false} ShrBounds(w: nat, k: nat)
    ensures Shr(w, k) * Pow2(k) <= w < (Shr(w, k) + 1) * Pow2(k)
    decreases k
  {
    if k > 0 {
      ShrBounds(w / 2, k - 1);
      MulTwo(Shr(w / 2, k - 1), Pow2(k - 1));
      MulTwo(Shr(w / 2, k - 1) + 1, Pow2(k - 1));
    }
  }

  lemma MulTwo(q: nat, p: nat)
    ensures q * (2 * p) == 2 * (q * p)
  {}

  lemma Halve(r: nat, x: nat)
    requires r < 2
    ensures (r + 2 * x) / 2 == x && (r + 2 * x) % 2 == r
  {}

  /** Bit `i` of `w`: what `w & (1ULL << i)` tests. */
  predicate Bit(w: nat, i: nat)
    decreases i
  {
    if i == 0 then w % 2 == 1 else Bit(w / 2, i - 1)
  }

  function Xor(a: nat, b: nat): nat
    decreases a + b
  {
    if a == 0 && b == 0 then 0 else (a + b) % 2 + 2 * Xor(a / 2, b / 2)
  }

  function And(a: nat, b: nat): nat
    decreases a
  {
    if a == 0 then 0 else (if a % 2 == 1 && b % 2 == 1 then 1 else 0) + 2 * And(a / 2, b / 2)
  }

  function Or(a: nat, b: nat): nat
    decreases a + b
  {
    if a == 0 && b == 0 then 0
    else (if a % 2 == 1 || b % 2 == 1 then 1 else 0) + 2 * Or(a / 2, b / 2)
  }

  /** The complement of `a` as an `n`-bit word. */
  function Not(a: nat, n: nat): nat
    decreases n
  {
    if n == 0 then 0 else (1 - a % 2) + 2 * Not(a / 2, n - 1)
  }

  // ---- Bits of each operation -------------------------------------------

  lemma {:induction false} XorBit(a: nat, b: nat, i: nat)
    ensures Bit(Xor(a, b), i) <==> (Bit(a, i) != Bit(b, i))
    decreases i
  {
    if a == 0 && b == 0 {
      ZeroBit(i);
    } else if i == 0 {
      XorHalves(a, b);
    } else {
      XorHalves(a, b);
      XorBit(a / 2, b / 2, i - 1);
    }
  }

  lemma {:induction false} XorHalves(a: nat, b: nat)
    ensures Xor(a, b) / 2 == Xor(a / 2, b / 2)
    ensures Xor(a, b) % 2 == (a + b) % 2
  {
    if a != 0 || b != 0 {
      var low, high := (a + b) % 2, Xor(a / 2, b / 2);
      assert Xor(a, b) == low + 2 * high;
      Halve(low, high);
    }
  }

  lemma {:induction false} AndBit(a: nat, b: nat, i: nat)
    ensures Bit(And(a, b), i) <==> (Bit(a, i) && Bit(b, i))
    decreases i
  {
    if a == 0 { ZeroBit(i); return; }
    Halve(if a % 2 == 1 && b % 2 == 1 then 1 else 0, And(a / 2, b / 2));
    if i > 0 { AndBit(a / 2, b / 2, i - 1); }
  }

  lemma {:induction false} OrBit(a: nat, b: nat, i: nat)
    ensures Bit(Or(a, b), i) <==> (Bit(a, i) || Bit(b, i))
    decreases i
  {
    if a == 0 && b == 0 { ZeroBit(i); return; }
    Halve(if a % 2 == 1 || b % 2 == 1 then 1 else 0, Or(a / 2, b / 2));
    if i > 0 { OrBit(a / 2, b / 2, i - 1); }
  }

  lemma {:induction false} NotBit(a: nat, n: nat, i: nat)
    ensures Bit(Not(a, n), i) <==> (i < n && !Bit(a, i))
    decreases i
  {
    if n == 0 { ZeroBit(i); return; }
    Halve(1 - a % 2, Not(a / 2, n - 1));
    if i > 0 { NotBit(a / 2, n - 1, i - 1); }
  }

  lemma {:induction false} ZeroBit(i: nat)
    ensures !Bit(0, i)
  {
    if i > 0 { ZeroBit(i - 1); }
  }

  lemma {:induction false} Pow2Bit(n: nat, i: nat)
    ensures Bit(Pow2(n), i) <==> i == n
    decreases i
  {
    if n == 0 {
      if i > 0 { ZeroBit(i - 1); }
    } else if i > 0 {
      Pow2Bit(n - 1, i - 1);
    }
  }

  /** Setting one bit of a word, the source's `w |= 1ULL << j`. */
  lemma SetBit(w: nat, j: nat, i: nat)
    ensures Bit(Or(w, Pow2(j)), i) <==> (i == j || Bit(w, i))
  {
    OrBit(w, Pow2(j), i);
    Pow2Bit(j, i);
  }

  /** Clearing one bit of a 64-bit word, the source's `w &= ~(1ULL << j)`. */
  lemma ClearBit(w: nat, j: nat, i: nat)
    requires i < 64
    ensures Bit(And(w, Not(Pow2(j), 64)), i) <==> (i != j && Bit(w, i))
  {
    AndBit(w, Not(Pow2(j), 64), i);
    NotBit(Pow2(j), 64, i);
    Pow2Bit(j, i);
  }

  // ---- Algebra of exclusive or ------------------------------------------

  lemma {:induction false} XorComm(a: nat, b: nat)
    ensures Xor(a, b) == Xor(b, a)
    decreases a + b
  {
    if a != 0 || b != 0 { XorComm(a / 2, b / 2); }
  }

  lemma XorAssoc(a: nat, b: nat, c: nat)
    ensures Xor(Xor(a, b), c) == Xor(a, Xor(b, c))
  {
    forall i: nat ensures Bit(Xor(Xor(a, b), c), i) == Bit(Xor(a, Xor(b, c)), i) {
      XorBit(a, b, i);
      XorBit(b, c, i);
      XorBit(Xor(a, b), c, i);
      XorBit(a, Xor(b, c), i);
    }
    SameBits(Xor(Xor(a, b), c), Xor(a, Xor(b, c)));
  }

  /** A natural number is determined by its bits. */
  lemma {:induction false} SameBits(x: nat, y: nat)
    requires forall i: nat :: Bit(x, i) == Bit(y, i)
    ensures x == y
    decreases x + y
  {
    assert Bit(x, 0) == Bit(y, 0);
    if x > 0 || y > 0 {
      forall i: nat ensures Bit(x / 2, i) == Bit(y / 2, i) {
        assert Bit(x, i + 1) == Bit(y, i + 1);
      }
      SameBits(x / 2, y / 2);
    }
  }

  lemma {:induction false} XorSelf(a: nat)
    ensures Xor(a, a) == 0
  {
    if a != 0 { XorSelf(a / 2); }
  }

  lemma {:induction false} XorZero(a: nat)
    ensures Xor(a, 0) == a
  {
    if a != 0 { XorZero(a / 2); }
  }

  /** Words stay words under exclusive or. */
  lemma {:induction false} XorRange(a: nat, b: nat, n: nat)
    requires a < Pow2(n) && b < Pow2(n)
    ensures Xor(a, b) < Pow2(n)
    decreases n
  {
    if n > 0 { XorRange(a / 2, b / 2, n - 1); }
  }

  // ---- Masks and alignment ----------------------------------------------

  /** `x & ~(2^k - 1)` on `n`-bit words clears the low `k` bits. */
  lemma {:induction false} MaskLow(x: nat, k: nat, n: nat)
    requires x < Pow2(n) && k <= n
    ensures And(x, Not(Pow2(k) - 1, n)) == x - x % Pow2(k)
    decreases n
  {
    if k == 0 {
      AllOnes(x, n);
    } else {
      var p := Pow2(k - 1);
      assert Pow2(k) == 2 * p && x / 2 < Pow2(n - 1);
      MaskLow(x / 2, k - 1, n - 1);
      MaskStep(x, p, n);
    }
  }

  lemma MaskStep(x: nat, p: nat, n: nat)
    requires n >= 1 && p >= 1
    requires And(x / 2, Not(p - 1, n - 1)) == x / 2 - x / 2 % p
    ensures And(x, Not(2 * p - 1, n)) == x - x % (2 * p)
  {
    NotOdd(p - 1, n);
    AndEven(x, Not(p - 1, n - 1));
    HalfMod(x, p);
  }

  lemma AndEven(x: nat, y: nat)
    ensures And(x, 2 * y) == 2 * And(x / 2, y)
  {
    assert 2 * y / 2 == y && 2 * y % 2 == 0;
  }

  lemma NotOdd(y: nat, n: nat)
    requires n >= 1
    ensures Not(2 * y + 1, n) == 2 * Not(y, n - 1)
  {
    assert (2 * y + 1) / 2 == y;
  }

  /** `x & (2^k - 1)` keeps the low `k` bits. */
  lemma {:induction false} MaskRemainder(x: nat, k: nat)
    ensures And(x, Pow2(k) - 1) == x % Pow2(k)
    decreases k
  {
    if k == 0 {
      AndZero(x);
    } else {
      var p := Pow2(k - 1);
      MaskRemainder(x / 2, k - 1);
      AndOdd(x, p - 1);
      HalfMod(x, p);
      assert Pow2(k) - 1 == 2 * (p - 1) + 1;
    }
  }

  lemma AndZero(x: nat)
    ensures And(x, 0) == 0
  {}

  lemma AndOdd(x: nat, y: nat)
    ensures And(x, 2 * y + 1) == 2 * And(x / 2, y) + x % 2
  {
    assert (2 * y + 1) / 2 == y && (2 * y + 1) % 2 == 1;
  }

  lemma ShrIsDivision(w: nat, k: nat)
    ensures Shr(w, k) == w / Pow2(k)
  {
    ShrBounds(w, k);
    var q := Shr(w, k);
    assert (q + 1) * Pow2(k) == q * Pow2(k) + Pow2(k);
    ModUnique(w, Pow2(k), q, w - q * Pow2(k));
  }

  lemma {:induction false} AllOnes(x: nat, n: nat)
    requires x < Pow2(n)
    ensures And(x, Not(0, n)) == x
    decreases n
  {
    if x != 0 { AllOnes(x / 2, n - 1); }
  }

  lemma HalfMod(x: nat, p: nat)
    requires p >= 1
    ensures x % (2 * p) == 2 * (x / 2 % p) + x % 2
  {
    var q, r := x / 2 / p, x / 2 % p;
    assert x / 2 == p * q + r;
    assert x == (2 * p) * q + (2 * r + x % 2);
    ModUnique(x, 2 * p, q, 2 * r + x % 2);
  }

  lemma ModUnique(x: nat, d: nat, q: nat, r: nat)
    requires d >= 1 && r < d && x == d * q + r
    ensures x / d == q && x % d == r
  {
    var q', r' := x / d, x % d;
    assert x == d * q' + r';
    assert d * (q' - q) == r - r';
    if q' != q { MulGap(d, q' - q); }
  }

  lemma MulGap(d: int, z: int)
    requires d >= 1 && z != 0
    ensures d * z >= d || d * z <= -d
  {
  }

  /** The source's test `x != 0 && (x & (x - 1)) == 0`. */
  predicate PowerOfTwoTest(x: nat) {
    x != 0 && And(x, x - 1) == 0
  }

  /** The test accepts exactly the powers of two. */
  lemma {:induction false} PowerOfTwoExact(x: nat)
    ensures PowerOfTwoTest(x) <==> exists k: nat :: x == Pow2(k)
  {
    if PowerOfTwoTest(x) {
      var k := Exponent(x);
      assert x == Pow2(k);
    }
    if k: nat :| x == Pow2(k) {
      PowerPasses(k);
    }
  }

  lemma {:induction false} Exponent(x: nat) returns (k: nat)
    requires PowerOfTwoTest(x)
    ensures x == Pow2(k)
    decreases x
  {
    if x % 2 == 1 {
      assert (x - 1) / 2 == x / 2;
      AndIdem(x / 2);
      k := 0;
      assert Pow2(0) == 1;
    } else {
      assert (x - 1) / 2 == x / 2 - 1;
      var j := Exponent(x / 2);
      k := j + 1;
    }
  }

  lemma {:induction false} AndIdem(x: nat)
    ensures And(x, x) == x
  {
    if x != 0 { AndIdem(x / 2); }
  }

  lemma {:induction false} PowerPasses(k: nat)
    ensures PowerOfTwoTest(Pow2(k))
  {
    if k > 0 {
      PowerPasses(k - 1);
      assert (Pow2(k) - 1) / 2 == Pow2(k - 1) - 1;
    }
  }

  /** LZ_ALIGN_UP with the 64-bit wrap of its addition left to the caller. */
  function AlignUp(x: nat, a: nat): (r: nat)
    requires a >= 1
  {
    (x + (a - 1)) - (x + (a - 1)) % a
  }

  /** The macro's mask form computes the same number for every power of two. */
  lemma AlignUpMask(x: nat, k: nat, n: nat)
    requires k <= n && x + (Pow2(k) - 1) < Pow2(n)
    ensures And(x + (Pow2(k) - 1), Not(Pow2(k) - 1, n)) == AlignUp(x, Pow2(k))
  {
    MaskLow(x + (Pow2(k) - 1), k, n);
  }

  /** AlignUp is the least multiple of `a` at or above `x`. */
  lemma AlignUpLeast(x: nat, a: nat)
    requires a >= 1
    ensures AlignUp(x, a) % a == 0
    ensures x <= AlignUp(x, a) < x + a
    ensures x % a == 0 ==> AlignUp(x, a) == x
  {
    var y := x + (a - 1);
    var q, r := y / a, y % a;
    assert y == a * q + r;
    ModUnique(a * q, a, q, 0);
    if x % a == 0 {
      var p := x / a;
      assert x == a * p;
      ModUnique(y, a, p, a - 1);
    }
  }

  lemma {:induction false} Pow2Add(a: nat, b: nat)
    ensures Pow2(a + b) == Pow2(a) * Pow2(b)
  {
    if a > 0 { Pow2Add(a - 1, b); }
  }

  lemma WordIsPower()
    ensures Pow2(64) == 0x1_0000_0000_0000_0000
  {
    assert Pow2(8) == 256;
    Pow2Add(8, 8);
    Pow2Add(16, 16);
    Pow2Add(32, 32);
  }

  lemma {:induction false} Pow2Monotone(a: nat, b: nat)
    requires a <= b
    ensures Pow2(a) <= Pow2(b)
    decreases b
  {
    if a < b { Pow2Monotone(a, b - 1); }
  }
}
