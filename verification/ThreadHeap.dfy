/** One thread-local heap as a value: the bins of its slabs, its page spans and the chunk
    headers that tell a block's engine (src/tlh/tlh.c, src/engines/span.c). */
module ThreadHeap {
  import opened Common
  import opened Heaps
  import opened Spans
  import Sizes

  /** `slot` is the index of a slab block, or the first page of a span allocation. */
  datatype Block = Block(chunk: nat, slot: nat)

  /** What the chunk header records: chunk_type and, for a slab, size_class. */
  datatype Kind = SlabOf(class_: nat) | SpanChunk

  /** `list` is the active_spans list from its head. */
  datatype Heap = Heap(bins: seq<Bin>, list: seq<nat>, spans: map<nat, Span>, kinds: map<nat, Kind>)

  function EmptyHeap(): Heap {
    Heap(seq(SIZE_CLASSES, _ => EmptyBin), [], map[], map[])
  }

  /** Payload of a slab: 64 bytes of chunk header, 64 of slab header, then blocks. */
  function MaxObjects(sc: nat): nat
    requires Sizes.ClassToSize(sc) > 0
  {
    (CHUNK - 128) / Sizes.ClassToSize(sc)
  }

  lemma SlabHoldsMany(sc: nat)
    requires sc < 40
    ensures 16 <= Sizes.ClassToSize(sc) <= MAX_SLAB_OBJ
    ensures MaxObjects(sc) >= 63
  {
    Sizes.FitsWord(sc);
    Sizes.FitsWord(39);
    Sizes.SlabClasses(MAX_SLAB_OBJ);
    assert Sizes.FullSize(39) == 32768 by {
      assert (39 - 8) / 4 == 7 && (39 - 8) % 4 == 3;
      assert Sizes.Bits.Pow2(12) == 4096;
    }
    if sc < 39 { Sizes.SizeMonotone(sc, 39); }
    if sc > 0 { Sizes.SizeMonotone(0, sc); }
    DivAtLeast(CHUNK - 128, Sizes.ClassToSize(sc), 63);
  }

  lemma DivAtLeast(x: nat, d: nat, q: nat)
    requires d >= 1 && q * d <= x
    ensures x / d >= q
  {
    assert x == d * (x / d) + x % d;
    if x / d < q { Sizes.MulMono(x / d + 1, q, d); }
  }

  // ---- Invariant ----------------------------------------------------------------

  ghost predicate HeapInv(h: Heap) {
    BinsOk(h) && SpansOk(h)
  }

  /** Every bin is well formed and holds exactly the slabs whose headers name its class. */
  ghost predicate BinsOk(h: Heap) {
    && |h.bins| == SIZE_CLASSES
    && (forall sc :: 0 <= sc < SIZE_CLASSES ==> BinInv(h.bins[sc]))
    && (forall sc: nat, c :: sc < SIZE_CLASSES && c in h.bins[sc].slabs ==> IsSlab(h, c, sc))
    && (forall sc: nat, c :: IsSlab(h, c, sc) ==> sc < SIZE_CLASSES && c in h.bins[sc].slabs)
  }

  predicate IsSlab(h: Heap, c: nat, sc: nat) {
    c in h.kinds && h.kinds[c] == SlabOf(sc)
  }

  /** The span chunks are well formed and listed once each. */
  ghost predicate SpansOk(h: Heap) {
    && h.spans.Keys == (set c | c in h.kinds && h.kinds[c] == SpanChunk)
    && (forall c :: c in h.spans ==> SpanOk(h.spans[c]))
    && NoDup(h.list)
    && (forall c :: c in h.list <==> c in h.spans)
  }

  /** Handed out and not yet taken back by the owner. */
  predicate Out(h: Heap, b: Block) {
    && b.chunk in h.kinds
    && match h.kinds[b.chunk] {
         case SlabOf(sc) => sc < |h.bins| && InUse(h.bins[sc], b.chunk, b.slot)
         case SpanChunk => b.chunk in h.spans && b.slot < |h.spans[b.chunk].lens| && h.spans[b.chunk].lens[b.slot] > 0
       }
  }

  lemma EmptyHeapInv()
    ensures HeapInv(EmptyHeap()) && forall b :: !Out(EmptyHeap(), b)
  {}

  // ---- Taking a block back ---------------------------------------------------------

  /** The owner's side of a free: lz_tlh_free on its own chunk, one turn of lz_tlh_reap. */
  function TakeBack(h: Heap, b: Block): Heap
    requires HeapInv(h) && Out(h, b)
  {
    var c := b.chunk;
    match h.kinds[c]
    case SlabOf(sc) =>
      WithBin(h, sc, c, FreeBlock(h.bins[sc], c, b.slot))
    case SpanChunk =>
      WithSpan(h, c, Release(h.spans[c], b.slot))
  }

  /** Store the new bin; a chunk that left the bin leaves the heap. */
  function WithBin(h: Heap, sc: nat, c: nat, bin: Bin): Heap
    requires sc < |h.bins|
  {
    h.(bins := h.bins[sc := bin], kinds := if c in bin.slabs then h.kinds else h.kinds - {c})
  }

  /** Store the new span; an empty one leaves the list and the heap. */
  function WithSpan(h: Heap, c: nat, s: Span): Heap {
    if s.used == 1 then
      h.(list := Without(h.list, c), spans := h.spans - {c}, kinds := h.kinds - {c})
    else
      h.(spans := h.spans[c := s])
  }

  /** Exactly `b` came back; a chunk that leaves the heap had no other block out. */
  ghost predicate TookBack(h: Heap, h': Heap, b: Block) {
    && HeapInv(h')
    && (forall x :: Out(h', x) <==> Out(h, x) && x != b)
    && (h'.kinds.Keys == h.kinds.Keys || h'.kinds.Keys == h.kinds.Keys - {b.chunk})
  }

  /** No other block of its chunk is out. */
  ghost predicate OnlyOut(h: Heap, b: Block) {
    forall x :: Out(h, x) && x.chunk == b.chunk ==> x == b
  }

  /** A slab that is kept although it is empty: the current one of a bin without partial slabs. */
  predicate Retained(h: Heap, c: nat) {
    && c in h.kinds && h.kinds[c].SlabOf? && h.kinds[c].class_ < |h.bins|
    && h.bins[h.kinds[c].class_].current == Some(c) && h.bins[h.kinds[c].class_].partial == []
  }

  /** Exactly `b` comes back, and its chunk leaves the heap exactly when no other block of it is out and it is not
      the slab that the bin keeps. */
  lemma TakeBackOk(h: Heap, b: Block)
    requires HeapInv(h) && Out(h, b)
    ensures TookBack(h, TakeBack(h, b), b)
    ensures b.chunk !in TakeBack(h, b).kinds <==> OnlyOut(h, b) && !Retained(h, b.chunk)
  {
    if h.kinds[b.chunk].SpanChunk? {
      TakeBackSpan(h, b);
      SpanReleases(h, b);
    } else {
      TakeBackSlab(h, b);
      SlabReleases(h, b);
    }
  }

  lemma SlabReleases(h: Heap, b: Block)
    requires HeapInv(h) && Out(h, b) && h.kinds[b.chunk].SlabOf?
    ensures b.chunk !in TakeBack(h, b).kinds <==> OnlyOut(h, b) && !Retained(h, b.chunk)
  {
    var c, sc := b.chunk, h.kinds[b.chunk].class_;
    assert IsSlab(h, c, sc);
    var s := h.bins[sc].slabs[c];
    FreeReleases(h.bins[sc], c, b.slot);
    OneOut(s, b.slot);
    forall j | 0 <= j < s.carved && j !in s.free ensures Out(h, Block(c, j)) {}
  }

  lemma SpanReleases(h: Heap, b: Block)
    requires HeapInv(h) && Out(h, b) && h.kinds[b.chunk].SpanChunk?
    ensures b.chunk !in TakeBack(h, b).kinds <==> OnlyOut(h, b) && !Retained(h, b.chunk)
  {
    var s := h.spans[b.chunk];
    SpanOutAfter(s, b.slot, 0);
    ReleaseOk(s, b.slot);
    EmptyExactly(Release(s, b.slot));
    forall i: nat | i < SPAN_PAGES && s.lens[i] > 0 ensures Out(h, Block(b.chunk, i)) {}
    forall i: nat | i < SPAN_PAGES ensures Release(s, b.slot).lens[i] > 0 <==> s.lens[i] > 0 && i != b.slot {
      SpanOutAfter(s, b.slot, i);
    }
  }

  /** Replacing the bin of class `sc`; the headers change for chunk `c` only. */
  lemma SetBin(h: Heap, h': Heap, sc: nat, bin': Bin, c: nat)
    requires HeapInv(h) && sc < SIZE_CLASSES && BinInv(bin')
    requires c in h.kinds ==> h.kinds[c] == SlabOf(sc)
    requires h' == h.(bins := h.bins[sc := bin'], kinds := h'.kinds)
    requires (h'.kinds == h.kinds && bin'.slabs.Keys == h.bins[sc].slabs.Keys)
          || (h'.kinds == h.kinds - {c} && bin'.slabs.Keys == h.bins[sc].slabs.Keys - {c})
          || (h'.kinds == h.kinds[c := SlabOf(sc)] && bin'.slabs.Keys == h.bins[sc].slabs.Keys + {c})
    ensures HeapInv(h')
  {
    forall d: nat, x: nat ensures IsSlab(h', x, d) <==> (if d == sc then x in bin'.slabs else IsSlab(h, x, d)) {
      KindAfter(h, h', sc, bin', c, x, d);
    }
    SetBinBins(h, h', sc, bin');
    assert SpansOk(h');
  }

  lemma KindAfter(h: Heap, h': Heap, sc: nat, bin': Bin, c: nat, x: nat, d: nat)
    requires BinsOk(h) && sc < SIZE_CLASSES
    requires c in h.kinds ==> h.kinds[c] == SlabOf(sc)
    requires (h'.kinds == h.kinds && bin'.slabs.Keys == h.bins[sc].slabs.Keys)
          || (h'.kinds == h.kinds - {c} && bin'.slabs.Keys == h.bins[sc].slabs.Keys - {c})
          || (h'.kinds == h.kinds[c := SlabOf(sc)] && bin'.slabs.Keys == h.bins[sc].slabs.Keys + {c})
    ensures IsSlab(h', x, d) <==> (if d == sc then x in bin'.slabs else IsSlab(h, x, d))
  {
    assert x in bin'.slabs <==> x in bin'.slabs.Keys;
    assert IsSlab(h, x, sc) <==> x in h.bins[sc].slabs;
  }

  lemma SetBinBins(h: Heap, h': Heap, sc: nat, bin': Bin)
    requires BinsOk(h) && sc < SIZE_CLASSES && BinInv(bin') && h'.bins == h.bins[sc := bin']
    requires forall d: nat, x: nat :: IsSlab(h', x, d) <==> (if d == sc then x in bin'.slabs else IsSlab(h, x, d))
    ensures BinsOk(h')
  {}

  lemma TakeBackSlab(h: Heap, b: Block)
    requires HeapInv(h) && Out(h, b) && h.kinds[b.chunk].SlabOf?
    ensures TookBack(h, TakeBack(h, b), b)
  {
    var c, sc := b.chunk, h.kinds[b.chunk].class_;
    assert IsSlab(h, c, sc);
    FreeBlockReturns(h.bins[sc], c, b.slot);
    StoreBin(h, sc, b, FreeBlock(h.bins[sc], c, b.slot));
  }

  lemma StoreBin(h: Heap, sc: nat, b: Block, bin': Bin)
    requires HeapInv(h) && IsSlab(h, b.chunk, sc) && InUse(h.bins[sc], b.chunk, b.slot)
    requires Returns(h.bins[sc], bin', b.chunk, b.slot)
    ensures TookBack(h, WithBin(h, sc, b.chunk, bin'), b)
  {
    var h' := WithBin(h, sc, b.chunk, bin');
    var bin := h.bins[sc];
    ReturnedKeys(bin, bin', b.chunk, b.slot);
    SetBin(h, h', sc, bin', b.chunk);
    forall x ensures Out(h', x) <==> Out(h, x) && x != b {
      if IsSlab(h, x.chunk, sc) { SlabOutAfter(bin, bin', b.chunk, b.slot, x); }
    }
  }

  lemma ReturnedKeys(bin: Bin, bin': Bin, c: nat, k: nat)
    requires Returns(bin, bin', c, k) && c in bin.slabs
    ensures bin'.slabs.Keys == if c in bin'.slabs then bin.slabs.Keys else bin.slabs.Keys - {c}
  {}

  lemma SlabOutAfter(bin: Bin, bin': Bin, c: nat, k: nat, x: Block)
    requires Returns(bin, bin', c, k) && InUse(bin, c, k) && x.chunk in bin.slabs
    ensures InUse(bin', x.chunk, x.slot) <==> InUse(bin, x.chunk, x.slot) && x != Block(c, k)
  {}

  lemma TakeBackSpan(h: Heap, b: Block)
    requires HeapInv(h) && Out(h, b) && h.kinds[b.chunk].SpanChunk?
    ensures TookBack(h, TakeBack(h, b), b)
  {
    var c := b.chunk;
    ReleaseOk(h.spans[c], b.slot);
    StoreSpan(h, b, Release(h.spans[c], b.slot));
  }

  lemma StoreSpan(h: Heap, b: Block, s': Span)
    requires HeapInv(h) && b.chunk in h.spans && b.slot < SPAN_PAGES && h.spans[b.chunk].lens[b.slot] > 0
    requires SpanOk(h.spans[b.chunk])
    requires SpanOk(s') && s' == Release(h.spans[b.chunk], b.slot)
    ensures TookBack(h, WithSpan(h, b.chunk, s'), b)
  {
    var c, s := b.chunk, h.spans[b.chunk];
    var h' := WithSpan(h, c, s');
    if s'.used == 1 { DropSpan(h, h', c); } else { SetSpan(h, h', c, s'); }
    forall x ensures Out(h', x) <==> Out(h, x) && x != b {
      if x.chunk == c { SpanOutAfter(s, b.slot, x.slot); }
    }
  }

  lemma SpanOutAfter(s: Span, p: nat, q: nat)
    requires SpanOk(s) && p < SPAN_PAGES && s.lens[p] > 0
    ensures q < SPAN_PAGES ==> (Release(s, p).lens[q] > 0 <==> s.lens[q] > 0 && q != p)
    ensures Release(s, p).used == 1 ==> forall i :: 0 <= i < SPAN_PAGES && i != p ==> s.lens[i] == 0
  {
    ReleaseOk(s, p);
    EmptyExactly(Release(s, p));
    if Release(s, p).used == 1 {
      forall i | 0 <= i < SPAN_PAGES && i != p ensures s.lens[i] == 0 {
        assert Release(s, p).lens[i] == 0;
      }
    }
  }

  lemma DropSpan(h: Heap, h': Heap, c: nat)
    requires HeapInv(h) && c in h.spans
    requires h' == h.(list := Without(h.list, c), spans := h.spans - {c}, kinds := h.kinds - {c})
    ensures HeapInv(h')
  {
    WithoutMembers(h.list, c);
    forall d, x ensures IsSlab(h', x, d) <==> IsSlab(h, x, d) {}
    assert BinsOk(h');
  }

  lemma SetSpan(h: Heap, h': Heap, c: nat, s: Span)
    requires HeapInv(h) && c in h.spans && SpanOk(s) && h' == h.(spans := h.spans[c := s])
    ensures HeapInv(h')
  {
    forall d, x ensures IsSlab(h', x, d) <==> IsSlab(h, x, d) {}
    assert BinsOk(h');
  }

  // ---- Handing a block out -----------------------------------------------------------

  /** Exactly `b`, which nobody held, was handed out, from a chunk of the heap or from the new one. */
  ghost predicate HandedOut(h: Heap, h': Heap, b: Block, spare: Option<nat>) {
    && HeapInv(h')
    && !Out(h, b)
    && (forall x :: Out(h', x) <==> Out(h, x) || x == b)
    && h'.kinds.Keys == h.kinds.Keys + {b.chunk}
    && (b.chunk in h.kinds || spare == Some(b.chunk))
  }

  /** Nothing was handed out or taken back. */
  ghost predicate SameOut(h: Heap, h': Heap) {
    && HeapInv(h')
    && (forall x :: Out(h', x) <==> Out(h, x))
    && h'.kinds.Keys == h.kinds.Keys
  }

  function FastBlock(h: Heap, sc: nat): Option<(Heap, Block)>
    requires sc < |h.bins|
  {
    match AllocFast(h.bins[sc])
    case None => None
    case Some(t) => Some((WithTaken(h, sc, t), Block(t.chunk, t.slot)))
  }

  /** A block taken from bin `sc`, possibly from a chunk that just joined it. */
  function WithTaken(h: Heap, sc: nat, t: Taken): Heap
    requires sc < |h.bins|
  {
    h.(bins := h.bins[sc := t.bin], kinds := h.kinds[t.chunk := SlabOf(sc)])
  }

  lemma BinHandsOut(h: Heap, sc: nat, t: Taken)
    requires HeapInv(h) && sc < SIZE_CLASSES && Takes(h.bins[sc], t.bin, t.chunk, t.slot)
    requires t.chunk in h.kinds ==> h.kinds[t.chunk] == SlabOf(sc)
    ensures HandedOut(h, WithTaken(h, sc, t), Block(t.chunk, t.slot), Some(t.chunk))
  {
    var h' := WithTaken(h, sc, t);
    var b := Block(t.chunk, t.slot);
    SetBin(h, h', sc, t.bin, t.chunk);
    forall x ensures Out(h', x) <==> Out(h, x) || x == b {
      TakenOut(h.bins[sc], t, x);
      if IsSlab(h, x.chunk, sc) { assert x.chunk in h.bins[sc].slabs; }
    }
  }

  lemma TakenOut(bin: Bin, t: Taken, x: Block)
    requires Takes(bin, t.bin, t.chunk, t.slot)
    ensures InUse(t.bin, x.chunk, x.slot) <==> InUse(bin, x.chunk, x.slot) || x == Block(t.chunk, t.slot)
  {}

  lemma FastBlockOk(h: Heap, sc: nat)
    requires HeapInv(h) && sc < SIZE_CLASSES && FastBlock(h, sc).Some?
    ensures HandedOut(h, FastBlock(h, sc).value.0, FastBlock(h, sc).value.1, None)
    ensures FastBlock(h, sc).value.0.kinds == h.kinds
  {
    var t := AllocFast(h.bins[sc]).value;
    AllocFastTakes(h.bins[sc]);
    assert IsSlab(h, t.chunk, sc);
    BinHandsOut(h, sc, t);
  }

  function WithClass(h: Heap, sc: nat, bin: Bin): Heap
    requires sc < |h.bins|
  {
    h.(bins := h.bins[sc := bin])
  }

  /** The rest of lz_tlh_alloc once the mailbox is drained: warm path, then slow path with
      `spare` as what the VMM answers if it is asked for a chunk. */
  function FinishAlloc(h: Heap, sc: nat, spare: Option<nat>): (Heap, Option<Block>)
    requires sc < |h.bins| && Sizes.ClassToSize(sc) > 0
  {
    match AllocWarm(h.bins[sc]).1
    case Some(t) => (WithTaken(h, sc, t), Some(Block(t.chunk, t.slot)))
    case None => SlowBlock(h, sc, AllocWarm(h.bins[sc]).0, spare)
  }

  function SlowBlock(h: Heap, sc: nat, bin: Bin, spare: Option<nat>): (Heap, Option<Block>)
    requires sc < |h.bins| && Sizes.ClassToSize(sc) > 0
  {
    match AllocSlow(bin, spare, MaxObjects(sc))
    case Some(t) => (WithTaken(h, sc, t), Some(Block(t.chunk, t.slot)))
    case None => (WithClass(h, sc, bin), None)
  }

  lemma FinishAllocOk(h: Heap, sc: nat, spare: Option<nat>)
    requires HeapInv(h) && sc < 40
    requires spare.Some? ==> spare.value !in h.kinds
    ensures Sizes.ClassToSize(sc) > 0
    ensures FinishAlloc(h, sc, spare).1.Some? ==>
              HandedOut(h, FinishAlloc(h, sc, spare).0, FinishAlloc(h, sc, spare).1.value, spare)
    ensures FinishAlloc(h, sc, spare).1.None? ==> SameOut(h, FinishAlloc(h, sc, spare).0)
    ensures FinishAlloc(h, sc, spare).1.None? <==> spare.None? && AllFull(h.bins[sc])
    ensures FinishAlloc(h, sc, spare).1.Some? ==>
              (FinishAlloc(h, sc, spare).1.value.chunk !in h.kinds <==> AllFull(h.bins[sc]))
  {
    FinishFails(h, sc, spare);
    AllocWarmTakes(h.bins[sc]);
    SlabHoldsMany(sc);
    var r := AllocWarm(h.bins[sc]).1;
    if r.Some? {
      WarmOk(h, sc, r.value, spare);
    } else {
      SlowOk(h, sc, AllocWarm(h.bins[sc]).0, spare);
    }
  }

  /** The heap's allocation is the one that module SlabBins does in place on the bin. */
  lemma FinishIsFinished(h: Heap, sc: nat, spare: Option<nat>)
    requires sc < |h.bins| && Sizes.ClassToSize(sc) > 0
    ensures var r := Finished(h.bins[sc], spare, MaxObjects(sc));
            FinishAlloc(h, sc, spare) ==
            match r.1
            case Some(t) => (WithTaken(h, sc, t), Some(Block(t.chunk, t.slot)))
            case None => (WithClass(h, sc, r.0), None)
  {}

  /** It fails exactly when every slab of the class is full and the VMM gives nothing, and takes a new chunk exactly
      when every slab is full. */
  lemma FinishFails(h: Heap, sc: nat, spare: Option<nat>)
    requires HeapInv(h) && sc < 40 && (spare.Some? ==> spare.value !in h.kinds)
    ensures Sizes.ClassToSize(sc) > 0
    ensures FinishAlloc(h, sc, spare).1.None? <==> spare.None? && AllFull(h.bins[sc])
    ensures FinishAlloc(h, sc, spare).1.Some? ==>
              (FinishAlloc(h, sc, spare).1.value.chunk !in h.kinds <==> AllFull(h.bins[sc]))
  {
    SlabHoldsMany(sc);
    FinishIsFinished(h, sc, spare);
    var bin := h.bins[sc];
    if spare.Some? { assert !IsSlab(h, spare.value, sc); }
    FinishedExact(bin, spare, MaxObjects(sc));
    var t := Finished(bin, spare, MaxObjects(sc)).1;
    if t.Some? && t.value.chunk in bin.slabs { assert IsSlab(h, t.value.chunk, sc); }
    if t.Some? && t.value.chunk !in bin.slabs { FullExactly(bin); }
  }

  /** Which slab serves: the current one while it has a block, then the first partial one, then a new one. */
  lemma FinishChooses(h: Heap, sc: nat, spare: Option<nat>)
    requires HeapInv(h) && sc < 40 && (spare.Some? ==> spare.value !in h.kinds)
    ensures Sizes.ClassToSize(sc) > 0
    ensures FinishAlloc(h, sc, spare).1.Some? ==>
              FinishAlloc(h, sc, spare).1.value.chunk ==
              if CurrentHasRoom(h.bins[sc]) then h.bins[sc].current.value
              else if h.bins[sc].partial != [] then h.bins[sc].partial[0] else spare.value
  {
    SlabHoldsMany(sc);
    FinishIsFinished(h, sc, spare);
    if spare.Some? { assert !IsSlab(h, spare.value, sc); }
    FinishedExact(h.bins[sc], spare, MaxObjects(sc));
  }

  lemma WarmOk(h: Heap, sc: nat, t: Taken, spare: Option<nat>)
    requires HeapInv(h) && sc < 40 && Takes(h.bins[sc], t.bin, t.chunk, t.slot)
    requires t.chunk in h.bins[sc].slabs || (Some(t.chunk) == spare && t.chunk !in h.kinds)
    ensures HandedOut(h, WithTaken(h, sc, t), Block(t.chunk, t.slot), spare)
  {
    if t.chunk in h.bins[sc].slabs { assert IsSlab(h, t.chunk, sc); }
    BinHandsOut(h, sc, t);
  }

  lemma SlowOk(h: Heap, sc: nat, bin: Bin, spare: Option<nat>)
    requires HeapInv(h) && sc < 40 && BinInv(bin) && Exhausted(bin) && SameBlocks(h.bins[sc], bin)
    requires spare.Some? ==> spare.value !in h.kinds
    ensures Sizes.ClassToSize(sc) > 0
    ensures SlowBlock(h, sc, bin, spare).1.None? ==> spare.None? && SameOut(h, SlowBlock(h, sc, bin, spare).0)
    ensures SlowBlock(h, sc, bin, spare).1.Some? ==>
              HandedOut(h, SlowBlock(h, sc, bin, spare).0, SlowBlock(h, sc, bin, spare).1.value, spare)
  {
    SlabHoldsMany(sc);
    var h1 := WithClass(h, sc, bin);
    RelaxBin(h, h1, sc, bin);
    assert spare.Some? ==> !IsSlab(h1, spare.value, sc);
    SlowGives(bin, spare, MaxObjects(sc));
    var r := AllocSlow(bin, spare, MaxObjects(sc));
    if r.Some? {
      WarmOk(h1, sc, r.value, spare);
      SameTaken(h, h1, sc, bin, r.value, spare);
    }
  }

  lemma SameTaken(h: Heap, h1: Heap, sc: nat, bin: Bin, t: Taken, spare: Option<nat>)
    requires sc < |h.bins| && h1 == WithClass(h, sc, bin) && SameOut(h, h1)
    requires HandedOut(h1, WithTaken(h1, sc, t), Block(t.chunk, t.slot), spare)
    ensures HandedOut(h, WithTaken(h, sc, t), Block(t.chunk, t.slot), spare)
  {
    assert WithTaken(h1, sc, t) == WithTaken(h, sc, t);
  }

  lemma SlowGives(bin: Bin, spare: Option<nat>, max: nat)
    requires BinInv(bin) && Exhausted(bin) && max >= 2
    requires spare.Some? ==> spare.value !in bin.slabs
    ensures AllocSlow(bin, spare, max).None? ==> spare.None?
    ensures AllocSlow(bin, spare, max).Some? ==>
              var t := AllocSlow(bin, spare, max).value;
              Gives(bin, t) && (t.chunk in bin.slabs || spare == Some(t.chunk))
  {
    AllocSlowTakes(bin, spare, max);
  }

  lemma RelaxBin(h: Heap, h1: Heap, sc: nat, bin: Bin)
    requires HeapInv(h) && sc < SIZE_CLASSES && BinInv(bin) && SameBlocks(h.bins[sc], bin)
    requires h1 == WithClass(h, sc, bin)
    ensures SameOut(h, h1)
  {
    forall d: nat, x: nat ensures IsSlab(h1, x, d) <==> (if d == sc then x in bin.slabs else IsSlab(h, x, d)) {
      assert x in bin.slabs <==> x in bin.slabs.Keys;
    }
    SetBinBins(h, h1, sc, bin);
    forall x ensures Out(h1, x) <==> Out(h, x) {
      assert Carved(bin, x.chunk, x.slot) <==> Carved(h.bins[sc], x.chunk, x.slot);
    }
  }

  // ---- Page spans -----------------------------------------------------------------

  /** The search condition of lz_span_alloc for one span. */
  ghost predicate Serves(s: Span, n: nat) {
    SPAN_PAGES - s.used >= n && FitFrom(s.free, n, 0).Some?
  }

  /** The first span of the list that passes the page-count test and has a run. */
  ghost function FindSpan(list: seq<nat>, spans: map<nat, Span>, n: nat): (r: Option<nat>)
    ensures r.Some? ==> r.value in list && r.value in spans && Serves(spans[r.value], n)
  {
    if list == [] then None
    else if list[0] in spans && Serves(spans[list[0]], n) then Some(list[0])
    else
      assert list == [list[0]] + list[1..];
      FindSpan(list[1..], spans, n)
  }

  /** Reserve the lowest run of span `c`. */
  ghost function FromSpan(h: Heap, c: nat, n: nat): (Heap, Option<Block>)
    requires c in h.spans && Serves(h.spans[c], n)
  {
    var i := FitFrom(h.spans[c].free, n, 0).value;
    if i < |h.spans[c].lens| then (Reserved(h, c, i, n), Some(Block(c, i))) else (h, None)
  }

  function Reserved(h: Heap, c: nat, i: nat, n: nat): Heap
    requires c in h.spans && i < |h.spans[c].lens| && i + n <= |h.spans[c].free|
  {
    h.(spans := h.spans[c := Reserve(h.spans[c], i, n)])
  }

  /** Format chunk `c` as a span, put it at the head of the list and reserve its first pages. */
  ghost function FromChunk(h: Heap, c: nat, n: nat): Heap
    requires n < SPAN_PAGES
  {
    Heap(h.bins, [c] + h.list, h.spans[c := FirstReserve(n)], h.kinds[c := SpanChunk])
  }

  /** lz_span_alloc for `n` pages; `spare` is what the VMM answers if it is asked. */
  ghost function SpanBlock(h: Heap, n: nat, spare: Option<nat>): (Heap, Option<Block>)
    requires n >= 1
  {
    if n >= SPAN_PAGES then (h, None)
    else if FindSpan(h.list, h.spans, n).Some? then FromSpan(h, FindSpan(h.list, h.spans, n).value, n)
    else if spare.None? then (h, None)
    else (FromChunk(h, spare.value, n), Some(Block(spare.value, 1)))
  }

  /** The search fails exactly when no active span has a run of `n` free pages: the page-count
      test hides no fit, and a new chunk is requested only then. */
  lemma {:induction false} FindSpanExact(list: seq<nat>, spans: map<nat, Span>, n: nat)
    requires forall c :: c in list ==> c in spans && SpanOk(spans[c])
    ensures FindSpan(list, spans, n).None? <==> forall c :: c in list ==> !Fits(spans[c].free, n)
  {
    if list != [] {
      var c := list[0];
      assert list == [c] + list[1..];
      FindSpanExact(list[1..], spans, n);
      ServesExactly(spans[c], n);
    }
  }

  lemma ServesExactly(s: Span, n: nat)
    requires SpanOk(s)
    ensures Serves(s, n) <==> Fits(s.free, n)
  {
    FitFromLowest(s.free, n, 0);
    if Fits(s.free, n) { PruneIsSafe(s, n); }
  }

  lemma SpanBlockOk(h: Heap, n: nat, spare: Option<nat>)
    requires HeapInv(h) && n >= 1
    requires spare.Some? ==> spare.value !in h.kinds
    ensures SpanBlock(h, n, spare).1.Some? ==>
              HandedOut(h, SpanBlock(h, n, spare).0, SpanBlock(h, n, spare).1.value, spare)
    ensures SpanBlock(h, n, spare).1.None? ==> SpanBlock(h, n, spare).0 == h
    ensures n < SPAN_PAGES ==> (SpanBlock(h, n, spare).1.None? <==>
              spare.None? && forall c :: c in h.spans ==> !Fits(h.spans[c].free, n))
  {
    if n < SPAN_PAGES {
      FindSpanExact(h.list, h.spans, n);
      var f := FindSpan(h.list, h.spans, n);
      if f.Some? {
        FitFromLowest(h.spans[f.value].free, n, 0);
        SpanFromList(h, f.value, FitFrom(h.spans[f.value].free, n, 0).value, n, spare);
      } else if spare.Some? {
        SpanFromChunk(h, spare.value, n);
      }
    }
  }

  lemma SpanFromList(h: Heap, c: nat, i: nat, n: nat, spare: Option<nat>)
    requires HeapInv(h) && c in h.spans && n >= 1 && RunFree(h.spans[c].free, i, n)
    ensures i < SPAN_PAGES
    ensures HandedOut(h, Reserved(h, c, i, n), Block(c, i), spare)
  {
    ReserveOk(h.spans[c], i, n);
    var h' := Reserved(h, c, i, n);
    SetSpan(h, h', c, Reserve(h.spans[c], i, n));
    assert c in h.kinds && h.kinds[c] == SpanChunk;
  }

  lemma SpanFromChunk(h: Heap, c: nat, n: nat)
    requires HeapInv(h) && c !in h.kinds && 1 <= n < SPAN_PAGES
    ensures HandedOut(h, FromChunk(h, c, n), Block(c, 1), Some(c))
  {
    FirstReserveOk(n);
    AddSpan(h, FromChunk(h, c, n), c, FirstReserve(n));
    AddedOut(h, FromChunk(h, c, n), c, FirstReserve(n));
  }

  lemma AddedOut(h: Heap, h': Heap, c: nat, s: Span)
    requires HeapInv(h) && c !in h.kinds && SpanOk(s)
    requires forall i :: 0 <= i < SPAN_PAGES ==> (s.lens[i] > 0 <==> i == 1)
    requires h' == Heap(h.bins, [c] + h.list, h.spans[c := s], h.kinds[c := SpanChunk])
    ensures forall x :: Out(h', x) <==> Out(h, x) || x == Block(c, 1)
  {
    forall x ensures Out(h', x) <==> Out(h, x) || x == Block(c, 1) {
      if x.chunk != c { assert x.chunk in h'.kinds <==> x.chunk in h.kinds; }
    }
  }

  lemma AddSpan(h: Heap, h': Heap, c: nat, s: Span)
    requires HeapInv(h) && c !in h.kinds && SpanOk(s)
    requires h' == Heap(h.bins, [c] + h.list, h.spans[c := s], h.kinds[c := SpanChunk])
    ensures HeapInv(h')
  {
    forall d, x ensures IsSlab(h', x, d) <==> IsSlab(h, x, d) {}
    assert BinsOk(h');
    NoDupPrepend(c, h.list);
    assert SpansOk(h');
  }
}
