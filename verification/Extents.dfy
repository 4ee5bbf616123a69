/** The bytes of blocks: where each handed-out block of a heap lies, that it lies in its own chunk behind the headers
    (src/engines/slab.c:33-52, src/engines/span.c:86, 116-117), and that no two share a byte. */
module Extents {
  import opened Common
  import opened Bits
  import opened Heaps
  import opened Spans
  import opened ThreadHeap
  import Sizes
  import SlabBlocks

  /** Chunk header and span header: 64 bytes, then links, bitmap, counter and length table. */
  const SPAN_HEADER: nat := 64 + 16 + 64 + 8 + 1024

  /** Block size of a slab class. */
  function SizeOf(sc: nat): (n: nat)
    ensures 16 <= n <= MAX_SLAB_OBJ
  {
    if sc < 40 then SlabHoldsMany(sc); Sizes.ClassToSize(sc) else 16
  }

  // ---- Capacities ---------------------------------------------------------------------

  ghost predicate BinSized(b: Bin, max: nat) {
    forall c :: c in b.slabs ==> b.slabs[c].max == max
  }

  /** Every slab has the capacity that its block size gives it, and only slab classes have slabs. */
  ghost predicate HeapSized(h: Heap) {
    forall sc: nat :: sc < |h.bins| ==>
      BinSized(h.bins[sc], SlabBlocks.Capacity(SizeOf(sc))) && (sc >= 40 ==> h.bins[sc].slabs == map[])
  }

  lemma FreeSized(b: Bin, c: nat, k: nat, max: nat)
    requires BinSized(b, max) && c in b.slabs
    ensures BinSized(FreeBlock(b, c, k), max)
  {}

  lemma FastSized(b: Bin, max: nat)
    requires BinSized(b, max) && AllocFast(b).Some?
    ensures BinSized(AllocFast(b).value.bin, max)
  {}

  lemma WarmSized(b: Bin, max: nat)
    requires BinSized(b, max)
    ensures BinSized(AllocWarm(b).0, max) && (AllocWarm(b).1.Some? ==> BinSized(AllocWarm(b).1.value.bin, max))
  {}

  lemma SlowSized(b: Bin, spare: Option<nat>, max: nat)
    requires BinSized(b, max) && AllocSlow(b, spare, max).Some?
    ensures BinSized(AllocSlow(b, spare, max).value.bin, max)
  {}

  lemma BinReplaced(h: Heap, h': Heap, sc: nat, bin: Bin)
    requires HeapSized(h) && sc < |h.bins| && sc < 40 && h'.bins == h.bins[sc := bin]
    requires BinSized(bin, SlabBlocks.Capacity(SizeOf(sc)))
    ensures HeapSized(h')
  {}

  lemma TakeBackSized(h: Heap, b: Block)
    requires HeapInv(h) && Out(h, b) && HeapSized(h)
    ensures HeapSized(TakeBack(h, b))
  {
    match h.kinds[b.chunk]
    case SlabOf(sc) =>
      assert b.chunk in h.bins[sc].slabs;
      FreeSized(h.bins[sc], b.chunk, b.slot, SlabBlocks.Capacity(SizeOf(sc)));
      BinReplaced(h, TakeBack(h, b), sc, FreeBlock(h.bins[sc], b.chunk, b.slot));
    case SpanChunk => assert TakeBack(h, b).bins == h.bins;
  }

  lemma FastBlockSized(h: Heap, sc: nat)
    requires HeapSized(h) && sc < |h.bins| && sc < 40 && FastBlock(h, sc).Some?
    ensures HeapSized(FastBlock(h, sc).value.0)
  {
    FastSized(h.bins[sc], SlabBlocks.Capacity(SizeOf(sc)));
    BinReplaced(h, FastBlock(h, sc).value.0, sc, AllocFast(h.bins[sc]).value.bin);
  }

  lemma FinishSized(h: Heap, sc: nat, spare: Option<nat>)
    requires HeapSized(h) && sc < |h.bins| && sc < 40 && Sizes.ClassToSize(sc) > 0
    ensures HeapSized(FinishAlloc(h, sc, spare).0)
  {
    var max := SlabBlocks.Capacity(SizeOf(sc));
    assert MaxObjects(sc) == max;
    WarmSized(h.bins[sc], max);
    var w := AllocWarm(h.bins[sc]);
    if w.1.Some? {
      BinReplaced(h, FinishAlloc(h, sc, spare).0, sc, w.1.value.bin);
    } else if AllocSlow(w.0, spare, max).Some? {
      SlowSized(w.0, spare, max);
      BinReplaced(h, FinishAlloc(h, sc, spare).0, sc, AllocSlow(w.0, spare, max).value.bin);
    } else {
      BinReplaced(h, FinishAlloc(h, sc, spare).0, sc, w.0);
    }
  }

  lemma SpanBlockSized(h: Heap, n: nat, spare: Option<nat>)
    requires HeapSized(h) && n >= 1
    ensures HeapSized(SpanBlock(h, n, spare).0)
  {
    assert SpanBlock(h, n, spare).0.bins == h.bins;
  }

  // ---- Extents ---------------------------------------------------------------------------

  /** Bytes in front of the first block of a chunk. */
  function Prefix(k: Kind): nat {
    if k.SlabOf? then SlabBlocks.DATA else SPAN_HEADER
  }

  /** The address of a block. */
  function Begin(h: Heap, b: Block): nat
    requires b.chunk in h.kinds
  {
    match h.kinds[b.chunk]
    case SlabOf(sc) => SlabBlocks.Addr(b.chunk, SizeOf(sc), b.slot)
    case SpanChunk => b.chunk * CHUNK + b.slot * PAGE
  }

  /** The number of its bytes: the block size of the slab, or the pages recorded in the span's table. */
  function Len(h: Heap, b: Block): nat
    requires b.chunk in h.kinds
  {
    match h.kinds[b.chunk]
    case SlabOf(sc) => SizeOf(sc)
    case SpanChunk =>
      if b.chunk in h.spans && b.slot < |h.spans[b.chunk].lens| then h.spans[b.chunk].lens[b.slot] * PAGE else 0
  }

  /** A block that is out lies in its chunk, behind the headers. */
  lemma InsideChunk(h: Heap, b: Block)
    requires HeapInv(h) && HeapSized(h) && Out(h, b)
    ensures b.chunk * CHUNK + Prefix(h.kinds[b.chunk]) <= Begin(h, b)
    ensures Begin(h, b) + Len(h, b) <= (b.chunk + 1) * CHUNK && Len(h, b) >= 16
  {
    match h.kinds[b.chunk]
    case SlabOf(sc) =>
      SlotCarved(h, sc, b);
      SlotInside(b.chunk, SizeOf(sc), b.slot);
    case SpanChunk =>
      assert SpanOk(h.spans[b.chunk]);
      PagesInside(b.chunk, b.slot, h.spans[b.chunk].lens[b.slot]);
  }

  lemma SlotCarved(h: Heap, sc: nat, b: Block)
    requires HeapInv(h) && HeapSized(h) && Out(h, b) && h.kinds[b.chunk] == SlabOf(sc)
    ensures sc < 40 && b.slot < SlabBlocks.Capacity(SizeOf(sc))
  {
    assert IsSlab(h, b.chunk, sc);
    assert BinInv(h.bins[sc]) && BinSized(h.bins[sc], SlabBlocks.Capacity(SizeOf(sc)));
    assert SlabOk(h.bins[sc].slabs[b.chunk]);
  }

  lemma SlotInside(chunk: nat, size: nat, slot: nat)
    requires size >= 1 && slot < SlabBlocks.Capacity(size)
    ensures chunk * CHUNK + SlabBlocks.DATA <= SlabBlocks.Addr(chunk, size, slot)
    ensures SlabBlocks.Addr(chunk, size, slot) + size <= (chunk + 1) * CHUNK
  {
    SlabBlocks.CursorBound(chunk, size, slot);
    Sizes.MulMono(0, slot, size);
  }

  lemma PagesInside(chunk: nat, slot: nat, n: nat)
    requires slot >= 1 && n >= 1 && slot + n <= SPAN_PAGES
    ensures chunk * CHUNK + SPAN_HEADER <= chunk * CHUNK + slot * PAGE
    ensures chunk * CHUNK + slot * PAGE + n * PAGE <= (chunk + 1) * CHUNK && n * PAGE >= 16
  {
    assert (chunk + 1) * CHUNK == chunk * CHUNK + CHUNK;
  }

  /** Two blocks of one heap that are out share no byte. */
  lemma HeapApart(h: Heap, b: Block, d: Block)
    requires HeapInv(h) && HeapSized(h) && Out(h, b) && Out(h, d) && b != d
    ensures Begin(h, b) + Len(h, b) <= Begin(h, d) || Begin(h, d) + Len(h, d) <= Begin(h, b)
  {
    InsideChunk(h, b);
    InsideChunk(h, d);
    if b.chunk != d.chunk {
      ChunksApart(b.chunk, d.chunk);
    } else {
      match h.kinds[b.chunk]
      case SlabOf(sc) => SlotsApart(b.chunk, SizeOf(sc), b.slot, d.slot);
      case SpanChunk => PagesApart(h.spans[b.chunk], b.chunk, b.slot, d.slot);
    }
  }

  lemma ChunksApart(c: nat, d: nat)
    requires c != d
    ensures (c + 1) * CHUNK <= d * CHUNK || (d + 1) * CHUNK <= c * CHUNK
  {
    if c < d { Sizes.MulMono(c + 1, d, CHUNK); } else { Sizes.MulMono(d + 1, c, CHUNK); }
  }

  lemma SlotsApart(chunk: nat, size: nat, j: nat, k: nat)
    requires j != k
    ensures SlabBlocks.Addr(chunk, size, j) + size <= SlabBlocks.Addr(chunk, size, k)
         || SlabBlocks.Addr(chunk, size, k) + size <= SlabBlocks.Addr(chunk, size, j)
  {
    if j < k { SlabBlocks.AddrApart(chunk, size, j, k); } else { SlabBlocks.AddrApart(chunk, size, k, j); }
  }

  lemma PagesApart(s: Span, chunk: nat, i: nat, j: nat)
    requires SpanOk(s) && i < SPAN_PAGES && j < SPAN_PAGES && i != j && s.lens[i] > 0 && s.lens[j] > 0
    ensures chunk * CHUNK + i * PAGE + s.lens[i] * PAGE <= chunk * CHUNK + j * PAGE
         || chunk * CHUNK + j * PAGE + s.lens[j] * PAGE <= chunk * CHUNK + i * PAGE
  {
    assert if i < j then i + s.lens[i] <= j else j + s.lens[j] <= i;
  }

  // ---- Blocks keep their bytes ----------------------------------------------------------------

  /** Whatever is out before and after has the same address and length. */
  ghost predicate SameExtents(h: Heap, h': Heap) {
    forall x :: Out(h, x) && Out(h', x) ==> SameExtent(h, h', x)
  }

  predicate SameExtent(h: Heap, h': Heap, x: Block) {
    x.chunk in h.kinds && x.chunk in h'.kinds && Begin(h', x) == Begin(h, x) && Len(h', x) == Len(h, x)
  }

  /** Chunks that stay keep their kind, and allocations that stay keep their length. */
  ghost predicate Steady(h: Heap, h': Heap) {
    && (forall c :: c in h.kinds && c in h'.kinds ==> h'.kinds[c] == h.kinds[c])
    && (forall c, i: nat :: c in h.spans && c in h'.spans && PagesAt(h.spans[c], i) > 0 && PagesAt(h'.spans[c], i) > 0 ==>
          PagesAt(h'.spans[c], i) == PagesAt(h.spans[c], i))
  }

  function PagesAt(s: Span, i: nat): nat {
    if i < |s.lens| then s.lens[i] else 0
  }

  lemma SteadyExtents(h: Heap, h': Heap)
    requires Steady(h, h')
    ensures SameExtents(h, h')
  {
    forall x | Out(h, x) && Out(h', x) ensures SameExtent(h, h', x) {
      if h.kinds[x.chunk].SpanChunk? {
        assert PagesAt(h.spans[x.chunk], x.slot) > 0 && PagesAt(h'.spans[x.chunk], x.slot) > 0;
      }
    }
  }

  lemma FastExtents(h: Heap, sc: nat)
    requires HeapInv(h) && sc < SIZE_CLASSES && FastBlock(h, sc).Some?
    ensures SameExtents(h, FastBlock(h, sc).value.0)
    ensures FastBlock(h, sc).value.1.chunk in FastBlock(h, sc).value.0.kinds
    ensures FastBlock(h, sc).value.0.kinds[FastBlock(h, sc).value.1.chunk] == SlabOf(sc)
  {
    FastBlockOk(h, sc);
  }

  lemma FinishExtents(h: Heap, sc: nat, spare: Option<nat>)
    requires HeapInv(h) && sc < 40 && (spare.Some? ==> spare.value !in h.kinds)
    ensures Sizes.ClassToSize(sc) > 0
    ensures SameExtents(h, FinishAlloc(h, sc, spare).0)
    ensures FinishAlloc(h, sc, spare).1.Some? ==>
              var (h', b) := (FinishAlloc(h, sc, spare).0, FinishAlloc(h, sc, spare).1.value);
              b.chunk in h'.kinds && h'.kinds[b.chunk] == SlabOf(sc)
  {
    SlabHoldsMany(sc);
    FinishKinds(h, sc, spare);
    SteadyExtents(h, FinishAlloc(h, sc, spare).0);
  }

  /** The chunk a slab block is taken from is a slab of its class, or new. */
  lemma FinishKinds(h: Heap, sc: nat, spare: Option<nat>)
    requires HeapInv(h) && sc < 40 && (spare.Some? ==> spare.value !in h.kinds) && Sizes.ClassToSize(sc) > 0
    ensures var r := FinishAlloc(h, sc, spare);
            && r.0.spans == h.spans
            && (r.1.None? ==> r.0.kinds == h.kinds)
            && (r.1.Some? ==> r.0.kinds == h.kinds[r.1.value.chunk := SlabOf(sc)])
            && (r.1.Some? && r.1.value.chunk in h.kinds ==> h.kinds[r.1.value.chunk] == SlabOf(sc))
  {
    AllocWarmTakes(h.bins[sc]);
    var w := AllocWarm(h.bins[sc]);
    if w.1.Some? {
      assert IsSlab(h, w.1.value.chunk, sc);
    } else {
      SlabHoldsMany(sc);
      NotYet(h, sc, spare, w.0);
      SlowGives(w.0, spare, MaxObjects(sc));
      var t := AllocSlow(w.0, spare, MaxObjects(sc));
      if t.Some? && t.value.chunk in w.0.slabs { assert IsSlab(h, t.value.chunk, sc); }
    }
  }

  lemma NotYet(h: Heap, sc: nat, spare: Option<nat>, bin: Bin)
    requires HeapInv(h) && sc < 40 && (spare.Some? ==> spare.value !in h.kinds) && SameBlocks(h.bins[sc], bin)
    ensures spare.Some? ==> spare.value !in bin.slabs
    ensures forall c :: c in bin.slabs ==> IsSlab(h, c, sc)
  {
    forall c ensures c in bin.slabs ==> IsSlab(h, c, sc) { assert c in bin.slabs <==> c in bin.slabs.Keys; }
  }

  lemma SpanExtents(h: Heap, n: nat, spare: Option<nat>)
    requires HeapInv(h) && n >= 1 && (spare.Some? ==> spare.value !in h.kinds)
    ensures SameExtents(h, SpanBlock(h, n, spare).0)
    ensures SpanBlock(h, n, spare).1.Some? ==>
              var (h', b) := (SpanBlock(h, n, spare).0, SpanBlock(h, n, spare).1.value);
              b.chunk in h'.kinds && h'.kinds[b.chunk] == SpanChunk && Len(h', b) == n * PAGE
  {
    var r := SpanBlock(h, n, spare);
    if n < SPAN_PAGES && FindSpan(h.list, h.spans, n).Some? {
      var c := FindSpan(h.list, h.spans, n).value;
      var i := FitFrom(h.spans[c].free, n, 0).value;
      FitFromLowest(h.spans[c].free, n, 0);
      ReservedSteady(h, c, i, n);
      SteadyExtents(h, Reserved(h, c, i, n));
    } else if n < SPAN_PAGES && spare.Some? {
      ListedSteady(h, spare.value, n);
      SteadyExtents(h, FromChunk(h, spare.value, n));
    }
  }

  lemma ReservedSteady(h: Heap, c: nat, i: nat, n: nat)
    requires HeapInv(h) && c in h.spans && n >= 1 && RunFree(h.spans[c].free, i, n)
    ensures i < |h.spans[c].lens| && i + n <= |h.spans[c].free|
    ensures Steady(h, Reserved(h, c, i, n)) && c in h.kinds && h.kinds[c] == SpanChunk
    ensures Len(Reserved(h, c, i, n), Block(c, i)) == n * PAGE
  {
    assert SpanOk(h.spans[c]);
    FreePageUncovered(h.spans[c], i);
  }

  lemma ListedSteady(h: Heap, c: nat, n: nat)
    requires HeapInv(h) && c !in h.kinds && 1 <= n < SPAN_PAGES
    ensures Steady(h, FromChunk(h, c, n)) && Len(FromChunk(h, c, n), Block(c, 1)) == n * PAGE
  {
    var h' := FromChunk(h, c, n);
    assert c !in h.spans;
    assert h'.spans[c].lens[1] == n;
  }

  lemma TakeBackExtents(h: Heap, b: Block)
    requires HeapInv(h) && Out(h, b)
    ensures SameExtents(h, TakeBack(h, b))
  {
    TakeBackSteady(h, b);
    SteadyExtents(h, TakeBack(h, b));
  }

  lemma TakeBackSteady(h: Heap, b: Block)
    requires HeapInv(h) && Out(h, b)
    ensures Steady(h, TakeBack(h, b))
  {
    var h' := TakeBack(h, b);
    if h.kinds[b.chunk].SpanChunk? {
      var s := h.spans[b.chunk];
      assert SpanOk(s);
      assert forall i: nat :: PagesAt(Release(s, b.slot), i) > 0 ==> PagesAt(Release(s, b.slot), i) == PagesAt(s, i);
    }
  }

  // ---- Where a block comes from -----------------------------------------------------------------

  lemma FinishChunk(h: Heap, sc: nat, spare: Option<nat>)
    requires HeapInv(h) && sc < 40 && (spare.Some? ==> spare.value !in h.kinds) && Sizes.ClassToSize(sc) > 0
    requires FinishAlloc(h, sc, spare).1.Some?
    ensures FinishAlloc(h, sc, spare).1.value.chunk in h.kinds || spare == Some(FinishAlloc(h, sc, spare).1.value.chunk)
    ensures !Out(h, FinishAlloc(h, sc, spare).1.value)
  {
    FinishAllocOk(h, sc, spare);
  }

  lemma PagesChunk(h: Heap, n: nat, spare: Option<nat>)
    requires HeapInv(h) && n >= 1 && (spare.Some? ==> spare.value !in h.kinds) && SpanBlock(h, n, spare).1.Some?
    ensures SpanBlock(h, n, spare).1.value.chunk in h.kinds || spare == Some(SpanBlock(h, n, spare).1.value.chunk)
    ensures !Out(h, SpanBlock(h, n, spare).1.value)
  {
    SpanBlockOk(h, n, spare);
  }

  lemma FastChunk(h: Heap, sc: nat)
    requires HeapInv(h) && sc < SIZE_CLASSES && FastBlock(h, sc).Some?
    ensures FastBlock(h, sc).value.1.chunk in h.kinds && !Out(h, FastBlock(h, sc).value.1)
  {
    FastBlockOk(h, sc);
  }
}
