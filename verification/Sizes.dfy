/** Size-class mathematics (src/internal/sizes.h). */
module Sizes {
  import opened Common
  import opened Bits

  /** Index of the most significant set bit; 0 for 0. */
  function Fls(x: nat): nat {
    if x < 2 then 0 else 1 + Fls(x / 2)
  }

  function SizeToClass(size: nat): nat {
    if size <= 16 then 0
    else
      var s := size - 1;
      if s < 128 then s / 16
      else
        var msb := Fls(s);
        FlsBounds(s);
        LogRange(s);
        8 + (msb - 7) * 4 + Shr(s, msb - 2) % 4
  }

  /** The size of a class before truncation to 64 bits. */
  function FullSize(c: nat): nat {
    if c < 8 then (c + 1) * 16
    else (5 + (c - 8) % 4) * Pow2((c - 8) / 4 + 5)
  }

  function ClassToSize(c: nat): nat {
    FullSize(c) % WORD
  }

  lemma {:induction false} FlsBounds(x: nat)
    requires x >= 1
    ensures Pow2(Fls(x)) <= x < Pow2(Fls(x) + 1)
  {
    if x >= 2 { FlsBounds(x / 2); }
  }

  lemma LogRange(s: nat)
    requires s >= 128
    ensures Fls(s) >= 7
  {
    FlsBounds(s);
    if Fls(s) < 7 { Pow2Monotone(Fls(s) + 1, 7); }
  }

  /** Above 128 bytes the class is read off the top three bits of `size - 1`:
      `n` lies in (lo, lo + p], whose end points are consecutive class sizes. */
  lemma LogShape(n: nat) returns (lo: nat, p: nat)
    requires n > 128
    ensures lo < n <= lo + p && 4 * p <= lo && p >= 1
    ensures SizeToClass(n) >= 8
    ensures FullSize(SizeToClass(n)) == lo + p && FullSize(SizeToClass(n) - 1) == lo
  {
    var m, q;
    m, p, q := LogSizes(n);
    lo := q * p;
    assert (q + 1) * p == lo + p;
    assert 4 * p <= q * p;
  }

  lemma LogSizes(n: nat) returns (m: nat, p: nat, q: nat)
    requires n > 128
    ensures m >= 7 && p == Pow2(m - 2) && p >= 32 && n <= Pow2(m + 1)
    ensures 4 <= q < 8 && q * p < n <= (q + 1) * p
    ensures SizeToClass(n) >= 8
    ensures FullSize(SizeToClass(n)) == (q + 1) * p && FullSize(SizeToClass(n) - 1) == q * p
  {
    m, p, q := TopBits(n - 1);
    LogDefinition(n - 1);
    LogSizesOf(SizeToClass(n), m, q);
  }

  lemma LogSizesOf(c: nat, m: nat, q: nat)
    requires m >= 7 && 4 <= q < 8 && c == 8 + (m - 7) * 4 + q % 4
    ensures FullSize(c) == (q + 1) * Pow2(m - 2) && FullSize(c - 1) == q * Pow2(m - 2)
  {
    assert q % 4 == q - 4;
    LogClass(m, q - 4);
  }

  lemma TopBits(s: nat) returns (m: nat, p: nat, q: nat)
    requires s >= 128
    ensures m >= 7 && p == Pow2(m - 2) && p >= 32 && s < Pow2(m + 1)
    ensures 4 <= q < 8 && q * p <= s < (q + 1) * p
    ensures m == Fls(s) && q == Shr(s, m - 2)
  {
    m := Fls(s);
    FlsBounds(s);
    LogRange(s);
    p := Pow2(m - 2);
    Quarter(m);
    q := Shr(s, m - 2);
    ShrBounds(s, m - 2);
    QuotientRange(s, p, q);
  }

  lemma LogDefinition(s: nat)
    requires s >= 128
    ensures Fls(s) >= 7
    ensures SizeToClass(s + 1) == 8 + (Fls(s) - 7) * 4 + Shr(s, Fls(s) - 2) % 4
  {
    LogRange(s);
  }

  /** Sizes of a logarithmic class and of the class before it. */
  lemma LogClass(m: nat, off: nat)
    requires m >= 7 && off < 4
    ensures FullSize(8 + (m - 7) * 4 + off) == (5 + off) * Pow2(m - 2)
    ensures FullSize(8 + (m - 7) * 4 + off - 1) == (4 + off) * Pow2(m - 2)
  {
    var c := 8 + (m - 7) * 4 + off;
    assert (c - 8) / 4 == m - 7 && (c - 8) % 4 == off;
    if off > 0 {
      assert (c - 1 - 8) / 4 == m - 7 && (c - 1 - 8) % 4 == off - 1;
    } else if m > 7 {
      assert (c - 1 - 8) / 4 == m - 8 && (c - 1 - 8) % 4 == 3;
      assert Pow2(m - 8 + 5) * 2 == Pow2(m - 2);
    } else {
      assert Pow2(5) == 32;
    }
  }

  lemma Quarter(m: nat)
    requires m >= 7
    ensures Pow2(m) == 4 * Pow2(m - 2) && Pow2(m + 1) == 8 * Pow2(m - 2) && Pow2(m - 2) >= 32
  {
    Pow2Monotone(5, m - 2);
  }

  lemma QuotientRange(s: nat, p: nat, q: nat)
    requires p >= 1 && q * p <= s < (q + 1) * p && 4 * p <= s < 8 * p
    ensures 4 <= q < 8
  {
    if q + 1 <= 4 { MulMono(q + 1, 4, p); }
    if q >= 8 { MulMono(8, q, p); }
  }

  lemma MulMono(x: nat, y: nat, p: nat)
    requires x <= y
    ensures x * p <= y * p
  {
  }

  lemma {:induction false} MultipleOf64(k: nat)
    requires k >= 6
    ensures Pow2(k) % 64 == 0
  {
    if k > 6 { MultipleOf64(k - 1); }
  }

  // ---- The class sizes grow strictly -------------------------------------

  lemma SizeStep(c: nat)
    ensures FullSize(c) < FullSize(c + 1)
  {
    if c >= 8 {
      var g, o := (c - 8) / 4, (c - 8) % 4;
      if o < 3 {
        assert (c + 1 - 8) / 4 == g && (c + 1 - 8) % 4 == o + 1;
      } else {
        assert (c + 1 - 8) / 4 == g + 1 && (c + 1 - 8) % 4 == 0;
        assert Pow2(g + 1 + 5) == 2 * Pow2(g + 5);
      }
    }
  }

  lemma {:induction false} SizeMonotone(c: nat, d: nat)
    requires c < d
    ensures FullSize(c) < FullSize(d)
    decreases d
  {
    SizeStep(d - 1);
    if c < d - 1 { SizeMonotone(c, d - 1); }
  }

  /** The class of `n` is the least class that holds `n`. */
  lemma ClassBrackets(n: nat)
    requires n >= 1
    ensures n <= FullSize(SizeToClass(n))
    ensures SizeToClass(n) > 0 ==> FullSize(SizeToClass(n) - 1) < n
  {
    if n > 128 { var lo, p := LogShape(n); } else { Linear(n); }
  }

  lemma ClassIsLeastFull(n: nat, c: nat)
    requires n >= 1
    ensures n <= FullSize(c) <==> SizeToClass(n) <= c
  {
    ClassBrackets(n);
    var k := SizeToClass(n);
    if k < c { SizeMonotone(k, c); }
    if c < k && c < k - 1 { SizeMonotone(c, k - 1); }
  }

  /** Only the classes from 235 on are too large for 64 bits. */
  lemma FitsWord(c: nat)
    requires c <= 234
    ensures ClassToSize(c) == FullSize(c)
  {
    TopSizes();
    FitsBelow(c, 235);
  }

  lemma FitsBelow(c: nat, d: nat)
    requires c < d && FullSize(d) == WORD
    ensures ClassToSize(c) == FullSize(c)
  {
    SizeMonotone(c, d);
  }

  lemma Pow2Values()
    ensures Pow2(60) == 0x1000_0000_0000_0000
    ensures Pow2(61) == 0x2000_0000_0000_0000
    ensures Pow2(64) == WORD
  {
    Pow2Of30();
    Pow2Add(30, 30);
  }

  lemma Pow2Of30()
    ensures Pow2(30) == 0x4000_0000
  {
    assert Pow2(10) == 1024;
    Pow2Add(10, 10);
    Pow2Add(20, 10);
  }

  // ---- Main results ------------------------------------------------------

  /** Galois connection: a class holds a size exactly when it is at or above the class
      of that size.  Up to 2^63, the domain on which both functions are exact. */
  lemma ClassIsLeast(n: nat, c: nat)
    requires 1 <= n <= 0x8000_0000_0000_0000 && c <= 234
    ensures n <= ClassToSize(c) <==> SizeToClass(n) <= c
    ensures SizeToClass(n) <= 231
  {
    FitsWord(c);
    ClassIsLeastFull(n, c);
    assert FullSize(231) == 8 * Pow2(60) by { assert (231 - 8) / 4 == 55 && (231 - 8) % 4 == 3; }
    Pow2Values();
    ClassIsLeastFull(n, 231);
  }

  /** The class function inverts the size function. */
  lemma ClassOfSize(c: nat)
    requires c <= 231
    ensures SizeToClass(ClassToSize(c)) == c
  {
    FitsWord(c);
    ClassIsLeastFull(FullSize(c), c);
    var k := SizeToClass(FullSize(c));
    ClassIsLeastFull(FullSize(c), k);
    if k < c { SizeMonotone(k, c); }
  }

  lemma ClassMonotone(m: nat, n: nat)
    requires 1 <= m <= n
    ensures SizeToClass(m) <= SizeToClass(n)
  {
    ClassBrackets(n);
    ClassIsLeastFull(m, SizeToClass(n));
  }

  /** Over the whole range of size_t the block holds the request exactly up to 7 * 2^61:
      above it the class size has wrapped to zero. */
  lemma HoldsExactly(n: nat)
    requires 1 <= n < WORD
    ensures n <= ClassToSize(SizeToClass(n)) <==> n <= 7 * 0x2000_0000_0000_0000
  {
    TopSizes();
    ClassIsLeastFull(n, 234);
    ClassIsLeastFull(n, 235);
    ClassBrackets(n);
    WrapCase(n, SizeToClass(n));
  }

  lemma WrapCase(n: nat, k: nat)
    requires n >= 1 && k <= 235 && n <= FullSize(k)
    ensures n <= ClassToSize(k) <==> k <= 234
  {
    TopSizes();
    if k <= 234 { FitsWord(k); }
  }

  lemma TopSizes()
    ensures FullSize(234) == 7 * 0x2000_0000_0000_0000 && FullSize(235) == WORD
  {
    assert (234 - 8) / 4 == 56 && (234 - 8) % 4 == 2 && (235 - 8) % 4 == 3;
    Pow2Values();
  }

  /** Internal fragmentation: under 16 bytes up to 128, under a quarter above. */
  lemma Slack(n: nat)
    requires n >= 1
    ensures n <= 128 ==> FullSize(SizeToClass(n)) - n < 16
    ensures n > 128 ==> 4 * (FullSize(SizeToClass(n)) - n) < n
  {
    if n > 128 { var lo, p := LogShape(n); } else { Linear(n); }
  }

  /** Requests served by slabs use classes 0 to 39, and blocks of 16 to 32768 bytes. */
  lemma SlabClasses(n: nat)
    requires n <= MAX_SLAB_OBJ
    ensures SizeToClass(n) < 40
    ensures 16 <= ClassToSize(SizeToClass(n)) <= MAX_SLAB_OBJ
    ensures n <= ClassToSize(SizeToClass(n))
  {
    assert FullSize(39) == 32768 by {
      assert (39 - 8) / 4 == 7 && (39 - 8) % 4 == 3;
      assert Pow2(12) == 4096;
    }
    if n >= 1 { ClassIsLeastFull(n, 39); ClassBrackets(n); }
    var k := SizeToClass(n);
    FitsWord(k);
    if k < 39 { SizeMonotone(k, 39); }
    if k > 0 { SizeMonotone(0, k); }
  }

  /** A request that is a multiple of a power of two a <= 64 gets a block size that is
      a multiple of a: the slab route of aligned allocation relies on it. */
  lemma ClassKeepsAlignment(n: nat, a: nat)
    requires a in {1, 2, 4, 8, 16, 32, 64}
    requires n >= 1 && n % a == 0
    ensures FullSize(SizeToClass(n)) % a == 0
  {
    if n > 256 {
      BigClass(n);
      Coarser(FullSize(SizeToClass(n)), a);
    } else if n > 128 {
      SmallLog(n);
      RoundedMultiple(n, 32, a);
    } else {
      Linear(n);
      RoundedMultiple(n, 16, a);
    }
  }

  lemma BigClass(n: nat)
    requires n > 256
    ensures FullSize(SizeToClass(n)) % 64 == 0
  {
    var m, p, q := LogSizes(n);
    assert m >= 8 by { assert Pow2(7 + 1) == 256; }
    MultipleOf64(m - 2);
    TimesMultiple(q + 1, p, 64);
  }

  lemma Coarser(x: nat, a: nat)
    requires a in {1, 2, 4, 8, 16, 32, 64} && x % 64 == 0
    ensures x % a == 0
  {
    assert 64 % a == 0;
    assert x == x / 64 * 64;
    TimesMultiple(x / 64, 64, a);
  }

  lemma Linear(n: nat)
    requires 1 <= n <= 128
    ensures FullSize(SizeToClass(n)) == ((n - 1) / 16 + 1) * 16
  {}

  lemma SmallLog(n: nat)
    requires 128 < n <= 256
    ensures FullSize(SizeToClass(n)) == ((n - 1) / 32 + 1) * 32
  {
    FlsBounds(n - 1);
    LogRange(n - 1);
    if Fls(n - 1) > 7 { Pow2Monotone(8, Fls(n - 1)); }
    assert Pow2(5) == 32;
    var o := (n - 1) / 32 % 4;
    assert (n - 1) / 32 == 4 + o;
    assert SizeToClass(n) == 8 + o;
    assert (8 + o - 8) / 4 == 0 && (8 + o - 8) % 4 == o;
  }

  /** Rounding a multiple of a up to a multiple of b gives a multiple of a. */
  lemma RoundedMultiple(n: nat, b: nat, a: nat)
    requires b in {16, 32} && a in {1, 2, 4, 8, 16, 32, 64}
    requires n >= 1 && n % a == 0
    ensures ((n - 1) / b + 1) * b % a == 0
  {
    var r := ((n - 1) / b + 1) * b;
    if a <= b {
      assert b % a == 0;
      TimesMultiple((n - 1) / b + 1, b, a);
    } else {
      assert n % b == 0;
      assert r == n;
    }
  }

  lemma TimesMultiple(x: nat, y: nat, m: nat)
    requires m >= 1 && y % m == 0
    ensures x * y % m == 0
  {
    var q := y / m;
    assert y == m * q;
    assert x * y == m * (x * q) by { assert x * (m * q) == m * (x * q); }
    ModUnique(x * y, m, x * q, 0);
  }
}
