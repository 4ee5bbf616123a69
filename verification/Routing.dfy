/** Which engine serves a request, and what it promises (src/hooks/lzmalloc.c:187-229, 299-345, 379-404). */
module Routing {
  import opened Common
  import opened Bits
  import Sizes
  import SlabBlocks
  import SpanEngine

  /** `ToDirect` maps `total` bytes of its own, with the payload at `offset`. */
  datatype Route =
    | ToSlab(class_: nat)
    | ToSpan(pages: nat)
    | ToDirect(offset: nat, total: nat, size: nat)
    | Refused

  /** Bytes mapped for a direct allocation, in 64-bit arithmetic. */
  function DirectTotal(offset: nat, size: nat): nat {
    var x := ((offset + size) % WORD + (CHUNK - 1)) % WORD;
    x - x % CHUNK
  }

  function MallocRoute(size: nat): Route {
    var n := if size == 0 then 1 else size;
    if n <= MAX_SLAB_OBJ then ToSlab(Sizes.SizeToClass(n))
    else if n <= MAX_SPAN_OBJ then ToSpan(SpanEngine.RequiredPages(n))
    else ToDirect(128, DirectTotal(128, n), n)
  }

  function MemalignRoute(align: nat, size: nat): Route {
    if !PowerOfTwoTest(align) then Refused
    else if align <= 64 && size <= MAX_SLAB_OBJ then MallocRoute(AlignUp(size, align))
    else if align <= PAGE && size <= MAX_SPAN_OBJ then ToSpan(SpanEngine.RequiredPages(size))
    else ToDirect(AlignUp(128, align), DirectTotal(AlignUp(128, align), size), size)
  }

  /** The bytes the route promises: the block size of the class, the pages, or the payload of the mapping. */
  function Usable(r: Route): nat {
    match r
    case ToSlab(c) => Sizes.ClassToSize(c)
    case ToSpan(pages) => pages * PAGE
    case ToDirect(_, _, size) => size
    case Refused => 0
  }

  /** The address returned: block or page `slot` of chunk number `chunk`, or the payload of a mapping. */
  function Address(r: Route, chunk: nat, slot: nat): nat {
    match r
    case ToSlab(c) => SlabBlocks.Addr(chunk, Sizes.ClassToSize(c), slot)
    case ToSpan(_) => chunk * CHUNK + slot * PAGE
    case ToDirect(offset, _, _) => chunk * CHUNK + offset
    case Refused => 0
  }

  // ---- Sizes --------------------------------------------------------------------------

  /** The mapping holds the payload exactly when the two additions do not wrap. */
  lemma DirectFits(offset: nat, size: nat)
    requires offset < WORD && size < WORD
    ensures offset + size <= DirectTotal(offset, size) <==> offset + size + (CHUNK - 1) < WORD
    ensures offset + size + (CHUNK - 1) < WORD ==> DirectTotal(offset, size) == AlignUp(offset + size, CHUNK)
    ensures DirectTotal(offset, size) % CHUNK == 0
  {
    var y := offset + size;
    WrapOnce(y);
    WrapOnce(y % WORD + (CHUNK - 1));
    Floor((y % WORD + (CHUNK - 1)) % WORD);
    if y + (CHUNK - 1) < WORD { AlignUpLeast(y, CHUNK); }
  }

  lemma WrapOnce(y: nat)
    requires y < 2 * WORD
    ensures y % WORD == if y < WORD then y else y - WORD
  {
    if y >= WORD { ModUnique(y, WORD, 1, y - WORD); }
  }

  lemma Floor(x: nat)
    ensures 0 <= x - x % CHUNK <= x && (x - x % CHUNK) % CHUNK == 0
  {
    assert x == CHUNK * (x / CHUNK) + x % CHUNK;
    ModUnique(CHUNK * (x / CHUNK), CHUNK, x / CHUNK, 0);
  }

  /** Bytes given beyond those asked for: under 16 up to 128 bytes, under a quarter up to 32 KB, under a page up to
      1 MB, none above. */
  predicate Frugal(n: nat, usable: nat) {
    if n <= 128 then usable < n + 16
    else if n <= MAX_SLAB_OBJ then 4 * (usable - n) < n
    else if n <= MAX_SPAN_OBJ then usable < n + PAGE
    else usable == n
  }

  /** Every route gives the bytes asked for and not many more, and a direct mapping holds them and wastes less than
      one chunk. */
  lemma MallocUsable(n: nat)
    requires 1 <= n && 128 + n + (CHUNK - 1) < WORD
    ensures Usable(MallocRoute(n)) >= n && Frugal(n, Usable(MallocRoute(n)))
    ensures (MallocRoute(n).ToSlab? <==> n <= MAX_SLAB_OBJ) && (MallocRoute(n).ToDirect? <==> n > MAX_SPAN_OBJ)
    ensures MallocRoute(n).ToDirect? ==> MallocRoute(n).total < 128 + n + CHUNK
    ensures MallocRoute(n).ToDirect? ==> 128 + n <= MallocRoute(n).total
    ensures MallocRoute(n).ToSlab? ==> MallocRoute(n).class_ < 40
    ensures MallocRoute(n).ToSpan? ==> 1 <= MallocRoute(n).pages < SPAN_PAGES
  {
    if n <= MAX_SLAB_OBJ {
      Sizes.SlabClasses(n);
      Sizes.FitsWord(Sizes.SizeToClass(n));
      Sizes.Slack(n);
    } else if n <= MAX_SPAN_OBJ {
      SpanEngine.RequiredExact(n);
    } else {
      DirectFits(128, n);
      AlignUpLeast(128 + n, CHUNK);
    }
  }

  // ---- Alignment ------------------------------------------------------------------------

  lemma {:induction false} PowersDivide(j: nat, k: nat)
    requires Pow2(j) <= Pow2(k)
    ensures Pow2(k) % Pow2(j) == 0
  {
    if j <= k {
      Pow2Add(k - j, j);
      ModUnique(Pow2(k), Pow2(j), Pow2(k - j), 0);
    } else {
      Pow2Monotone(k, j);
      ModUnique(Pow2(k), Pow2(j), 1, 0);
    }
  }

  /** A power of two divides every larger one. */
  lemma AlignDivides(a: nat, k: nat)
    requires PowerOfTwoTest(a) && a <= Pow2(k)
    ensures a >= 1 && Pow2(k) % a == 0
  {
    PowerOfTwoExact(a);
    var j: nat :| a == Pow2(j);
    PowersDivide(j, k);
  }

  lemma SumDivides(x: nat, y: nat, a: nat)
    requires a >= 1 && x % a == 0 && y % a == 0
    ensures (x + y) % a == 0
  {
    var p, q := x / a, y / a;
    assert x == a * p && y == a * q;
    assert x + y == a * (p + q);
    ModUnique(x + y, a, p + q, 0);
  }

  lemma Constants()
    ensures Pow2(6) == 64 && Pow2(7) == 128 && Pow2(12) == PAGE && Pow2(21) == CHUNK
  {
    Pow2Add(6, 6);
    Pow2Add(12, 9);
    assert Pow2(9) == 512;
  }

  lemma SmallPower(a: nat)
    requires PowerOfTwoTest(a) && a <= 64
    ensures a in {1, 2, 4, 8, 16, 32, 64}
  {
    PowerOfTwoExact(a);
    var k: nat :| a == Pow2(k);
    Constants();
    if k > 6 { Pow2Monotone(7, k); }
  }

  lemma ChunkAligned(chunk: nat, x: nat, a: nat)
    requires PowerOfTwoTest(a) && a <= CHUNK && x % a == 0
    ensures (chunk * CHUNK + x) % a == 0
  {
    Constants();
    AlignDivides(a, 21);
    Sizes.TimesMultiple(chunk, CHUNK, a);
    SumDivides(chunk * CHUNK, x, a);
  }

  lemma SlabAligned(a: nat, n: nat, chunk: nat, slot: nat)
    requires PowerOfTwoTest(a) && a <= 64 && 1 <= n <= MAX_SLAB_OBJ && n % a == 0
    ensures SlabBlocks.Addr(chunk, Sizes.ClassToSize(Sizes.SizeToClass(n)), slot) % a == 0
  {
    var c := Sizes.SizeToClass(n);
    SmallPower(a);
    Sizes.SlabClasses(n);
    Sizes.FitsWord(c);
    Sizes.ClassKeepsAlignment(n, a);
    Sizes.TimesMultiple(slot, Sizes.ClassToSize(c), a);
    Constants();
    AlignDivides(a, 7);
    SumDivides(128, slot * Sizes.ClassToSize(c), a);
    ChunkAligned(chunk, 128 + slot * Sizes.ClassToSize(c), a);
  }

  lemma SpanAligned(a: nat, chunk: nat, slot: nat)
    requires PowerOfTwoTest(a) && a <= PAGE
    ensures (chunk * CHUNK + slot * PAGE) % a == 0
  {
    Constants();
    AlignDivides(a, 12);
    Sizes.TimesMultiple(slot, PAGE, a);
    ChunkAligned(chunk, slot * PAGE, a);
  }

  lemma Promoted(a: nat, n: nat)
    requires PowerOfTwoTest(a) && a <= 64 && 1 <= n <= MAX_SLAB_OBJ
    ensures n <= AlignUp(n, a) <= MAX_SLAB_OBJ && AlignUp(n, a) % a == 0
  {
    AlignUpLeast(n, a);
    AlignDivides(a, 15);
    assert Pow2(15) == MAX_SLAB_OBJ;
    Sizes.TimesMultiple(1, MAX_SLAB_OBJ, a);
    UpToMultiple(n, a, MAX_SLAB_OBJ);
  }

  /** Rounding up does not pass a multiple. */
  lemma UpToMultiple(n: nat, a: nat, m: nat)
    requires a >= 1 && n <= m && m % a == 0
    ensures AlignUp(n, a) <= m
  {
    AlignUpLeast(n, a);
    var p, q := AlignUp(n, a) / a, m / a;
    assert AlignUp(n, a) == a * p && m == a * q;
    if p > q { Sizes.MulMono(q + 1, p, a); }
  }

  /** lz_memalign refuses exactly what is no power of two, and for alignments up to a chunk and sizes from one byte
      returns an aligned address, whatever chunk and slot its engine picks. */
  lemma MemalignAligned(a: nat, n: nat, chunk: nat, slot: nat)
    requires n >= 1 && a <= CHUNK
    ensures MemalignRoute(a, n) == Refused <==> !exists k: nat :: a == Pow2(k)
    ensures MemalignRoute(a, n) != Refused ==> a >= 1 && Address(MemalignRoute(a, n), chunk, slot) % a == 0
  {
    PowerOfTwoExact(a);
    if PowerOfTwoTest(a) {
      if a <= 64 && n <= MAX_SLAB_OBJ {
        Promoted(a, n);
        SlabAligned(a, AlignUp(n, a), chunk, slot);
      } else if a <= PAGE && n <= MAX_SPAN_OBJ {
        SpanAligned(a, chunk, slot);
      } else {
        AlignUpLeast(128, a);
        ChunkAligned(chunk, AlignUp(128, a), a);
      }
    }
  }

  /** And the block holds the bytes asked for. */
  lemma MemalignUsable(a: nat, n: nat)
    requires PowerOfTwoTest(a) && a <= CHUNK && 1 <= n && CHUNK + n + (CHUNK - 1) < WORD
    ensures Usable(MemalignRoute(a, n)) >= n
    ensures if a <= 64 && n <= MAX_SLAB_OBJ then AlignUp(n, a) < n + a && Frugal(AlignUp(n, a), Usable(MemalignRoute(a, n)))
            else if a <= PAGE && n <= MAX_SPAN_OBJ then Usable(MemalignRoute(a, n)) < n + PAGE
            else MemalignRoute(a, n).ToDirect? && Usable(MemalignRoute(a, n)) == n
    ensures MemalignRoute(a, n).ToSlab? <==> a <= 64 && n <= MAX_SLAB_OBJ
    ensures MemalignRoute(a, n).ToDirect? <==> a > PAGE || n > MAX_SPAN_OBJ
    ensures MemalignRoute(a, n).ToDirect? ==> MemalignRoute(a, n).offset + n <= MemalignRoute(a, n).total
    ensures MemalignRoute(a, n).ToDirect? ==> MemalignRoute(a, n).offset < 128 + a
    ensures MemalignRoute(a, n).ToDirect? ==> MemalignRoute(a, n).total < MemalignRoute(a, n).offset + n + CHUNK
    ensures MemalignRoute(a, n).ToDirect? ==> 128 <= MemalignRoute(a, n).offset <= CHUNK
  {
    if a <= 64 && n <= MAX_SLAB_OBJ {
      Promoted(a, n);
      AlignUpLeast(n, a);
      MallocUsable(AlignUp(n, a));
    } else if a <= PAGE && n <= MAX_SPAN_OBJ {
      SpanEngine.RequiredExact(n);
    } else {
      Constants();
      AlignUpLeast(128, a);
      AlignDivides(a, 21);
      UpToMultiple(128, a, CHUNK);
      DirectFits(AlignUp(128, a), n);
      AlignUpLeast(AlignUp(128, a) + n, CHUNK);
    }
  }

  // ---- Where the alignment promise ends ----------------------------------------------------

  /** Every address the route can return is aligned. */
  ghost predicate AlwaysAligned(r: Route, a: nat)
    requires a >= 1
  {
    forall chunk: nat, slot: nat :: Address(r, chunk, slot) % a == 0
  }

  /** For sizes from one byte the promise holds exactly for alignments up to a chunk: a larger one also needs luck
      with the place of the mapping. */
  lemma MemalignExactly(a: nat, n: nat)
    requires PowerOfTwoTest(a) && n >= 1
    ensures AlwaysAligned(MemalignRoute(a, n), a) <==> a <= CHUNK
  {
    if a <= CHUNK {
      forall chunk: nat, slot: nat ensures Address(MemalignRoute(a, n), chunk, slot) % a == 0 {
        MemalignAligned(a, n, chunk, slot);
      }
    } else {
      AlignUpLeast(128, a);
      OneMultiple(AlignUp(128, a), a);
      ModUnique(CHUNK + a, a, 1, CHUNK);
      assert Address(MemalignRoute(a, n), 1, 0) == CHUNK + a;
    }
  }

  /** The only multiple of `a` in (0, 2a) is `a`. */
  lemma OneMultiple(x: nat, a: nat)
    requires a >= 1 && 0 < x < 2 * a && x % a == 0
    ensures x == a
  {
    var q := x / a;
    assert x == a * q;
    if q >= 2 { Sizes.MulMono(2, q, a); }
  }

  /** A zero-byte request of small alignment gets a 16-byte block, so the promise holds exactly up to 16. */
  lemma MemalignZero(a: nat)
    requires PowerOfTwoTest(a) && a <= 64
    ensures AlwaysAligned(MemalignRoute(a, 0), a) <==> a <= 16
  {
    ZeroRoute(a);
    SmallPower(a);
    if a <= 16 {
      forall chunk: nat, slot: nat ensures Address(ToSlab(0), chunk, slot) % a == 0 {
        SlabAligned(a, 16, chunk, slot);
      }
    } else {
      var x := Address(ToSlab(0), 0, 1);
      assert x == 144;
      assert x % a == 16;
    }
  }

  lemma ZeroRoute(a: nat)
    requires PowerOfTwoTest(a) && a <= 64
    ensures MemalignRoute(a, 0) == ToSlab(0) && Sizes.ClassToSize(0) == 16
  {
    AlignUpLeast(0, a);
  }
}
