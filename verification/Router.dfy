/** The index that leads from any returned address to its chunk header, as the router keeps it between calls
    (src/hooks/lzmalloc.c:198-259, 379-404; src/engines/slab.c:23-33, 70; src/engines/span.c:80-86, 163). */
module Router {
  import opened Common
  import opened Bits
  import opened Routing
  import Radix
  import Sizes

  /** What a chunk header says: a chunk of a slab or a span, or the first of a direct mapping of `total` bytes. */
  datatype Chunk = HeapChunk | DirectChunk(total: nat)

  /** 2 MB blocks that belong to the header. */
  function Blocks(c: Chunk): nat {
    if c.DirectChunk? then c.total / CHUNK else 1
  }

  predicate Covers(chunks: map<nat, Chunk>, h: nat, k: nat) {
    h in chunks && h <= k < h + Blocks(chunks[h])
  }

  function Look(index: map<nat, nat>, k: nat): Option<nat> {
    if k in index then Some(index[k]) else None
  }

  /** The index maps exactly the blocks of the live chunks, each to its header. */
  ghost predicate IndexExact(index: map<nat, nat>, chunks: map<nat, Chunk>) {
    forall k: nat, h: nat :: Look(index, k) == Some(h) <==> Covers(chunks, h, k)
  }

  ghost predicate ChunksOk(chunks: map<nat, Chunk>) {
    forall h :: h in chunks ==>
      && (chunks[h].DirectChunk? ==> chunks[h].total % CHUNK == 0)
      && Blocks(chunks[h]) >= 1 && h + Blocks(chunks[h]) <= Radix.KEYS
  }

  /** The loop over [base, base + n) that sets the index. */
  function SetAll(index: map<nat, nat>, base: nat, n: nat, h: nat): map<nat, nat> {
    if n == 0 then index else SetAll(index, base, n - 1, h)[base + (n - 1) := h]
  }

  function ClearAll(index: map<nat, nat>, base: nat, n: nat): map<nat, nat> {
    if n == 0 then index else ClearAll(index, base, n - 1) - {base + (n - 1)}
  }

  lemma {:induction false} SetAllLook(index: map<nat, nat>, base: nat, n: nat, h: nat, k: nat)
    ensures Look(SetAll(index, base, n, h), k) == if base <= k < base + n then Some(h) else Look(index, k)
  {
    if n > 0 { SetAllLook(index, base, n - 1, h, k); }
  }

  lemma {:induction false} ClearAllLook(index: map<nat, nat>, base: nat, n: nat, k: nat)
    ensures Look(ClearAll(index, base, n), k) == if base <= k < base + n then None else Look(index, k)
  {
    if n > 0 { ClearAllLook(index, base, n - 1, k); }
  }

  lemma SameLook(m: map<nat, nat>, m': map<nat, nat>)
    requires forall k: nat :: Look(m, k) == Look(m', k)
    ensures m == m'
  {
    assert forall k: nat :: k in m <==> Look(m, k).Some?;
    forall k: nat | k in m ensures k in m' && m[k] == m'[k] { assert Look(m, k) == Look(m', k); }
    forall k: nat | k in m' ensures k in m { assert Look(m, k) == Look(m', k); }
  }

  /** Clearing what was just set restores the index, if the blocks were not in it. */
  lemma ClearUndoesSet(index: map<nat, nat>, base: nat, n: nat, h: nat)
    requires forall k: nat :: base <= k < base + n ==> k !in index
    ensures ClearAll(SetAll(index, base, n, h), base, n) == index
  {
    var m := ClearAll(SetAll(index, base, n, h), base, n);
    forall k: nat ensures Look(m, k) == Look(index, k) {
      ClearAllLook(SetAll(index, base, n, h), base, n, k);
      SetAllLook(index, base, n, h, k);
    }
    SameLook(m, index);
  }

  // ---- Keeping the index exact --------------------------------------------------------------

  lemma AddExact(index: map<nat, nat>, chunks: map<nat, Chunk>, h: nat, c: Chunk)
    requires IndexExact(index, chunks) && ChunksOk(chunks) && Blocks(c) >= 1
    requires forall k: nat :: h <= k < h + Blocks(c) ==> k !in index
    ensures h !in chunks && IndexExact(SetAll(index, h, Blocks(c), h), chunks[h := c])
  {
    if h in chunks { assert Covers(chunks, h, h); }
    forall k: nat, g: nat
      ensures Look(SetAll(index, h, Blocks(c), h), k) == Some(g) <==> Covers(chunks[h := c], g, k)
    {
      SetAllLook(index, h, Blocks(c), h, k);
      assert Look(index, k) == Some(g) <==> Covers(chunks, g, k);
    }
  }

  lemma RemoveExact(index: map<nat, nat>, chunks: map<nat, Chunk>, h: nat)
    requires IndexExact(index, chunks) && h in chunks
    ensures IndexExact(ClearAll(index, h, Blocks(chunks[h])), chunks - {h})
  {
    forall k: nat, g: nat
      ensures Look(ClearAll(index, h, Blocks(chunks[h])), k) == Some(g) <==> Covers(chunks - {h}, g, k)
    {
      ClearAllLook(index, h, Blocks(chunks[h]), k);
      assert Look(index, k) == Some(g) <==> Covers(chunks, g, k);
      assert Look(index, k) == Some(h) <==> Covers(chunks, h, k);
    }
  }

  // ---- The router ------------------------------------------------------------------------------

  /** What lz_free does with an address. */
  datatype Freed = Ignored | Unmapped(header: nat) | ToOwner(header: nat)

  /** `index` is the radix tree as a map from slots, `chunks` the headers by chunk number. */
  class Index {
    var index: map<nat, nat>
    var chunks: map<nat, Chunk>

    constructor ()
      ensures Valid() && index == map[] && chunks == map[]
    {
      index, chunks := map[], map[];
    }

    ghost predicate Valid()
      reads this
    {
      IndexExact(index, chunks) && ChunksOk(chunks)
    }

    /** lz_rtree_get and its second try on the chunk's base address. */
    method Resolve(ptr: nat) returns (header: Option<nat>)
      requires Valid() && ptr < CHUNK * Radix.KEYS
      ensures forall h: nat :: header == Some(h) <==> Covers(chunks, h, ptr / CHUNK)
    {
      header := Look(index, Radix.Key(ptr));
      KeyOf(ptr);
      if header.None? {
        var base := ptr - ptr % CHUNK;
        KeyOf(base);
        header := Look(index, Radix.Key(base));
      }
    }

    /** The direct path of lz_malloc and lz_memalign: `base` is the chunk number of the mapping the system gave. */
    method AllocDirect(base: nat, offset: nat, size: nat) returns (ptr: nat)
      requires Valid() && offset + size >= 1 && offset + size + (CHUNK - 1) < WORD
      requires forall k: nat :: base <= k < base + DirectTotal(offset, size) / CHUNK ==> k !in index
      requires base + DirectTotal(offset, size) / CHUNK <= Radix.KEYS
      modifies this
      ensures Valid() && ptr == base * CHUNK + offset
      ensures chunks == old(chunks)[base := DirectChunk(DirectTotal(offset, size))]
      ensures index == SetAll(old(index), base, DirectTotal(offset, size) / CHUNK, base)
    {
      var total := DirectTotal(offset, size);
      DirectBlocks(offset, size);
      AddExact(index, chunks, base, DirectChunk(total));
      chunks := chunks[base := DirectChunk(total)];
      SetLoop(base, total);
      ptr := base * CHUNK + offset;
    }

    method SetLoop(base: nat, total: nat)
      requires total % CHUNK == 0 && base + total / CHUNK <= Radix.KEYS
      modifies this`index
      ensures index == SetAll(old(index), base, total / CHUNK, base)
    {
      var offset := 0;
      while offset < total
        invariant offset % CHUNK == 0 && offset <= total
        invariant index == SetAll(old(index), base, offset / CHUNK, base)
        decreases total - offset
      {
        NextBlock(base, offset, total);
        index := index[Radix.Key(base * CHUNK + offset) := base];
        offset := offset + CHUNK;
      }
    }

    method ClearLoop(base: nat, total: nat)
      requires total % CHUNK == 0 && base + total / CHUNK <= Radix.KEYS
      modifies this`index
      ensures index == ClearAll(old(index), base, total / CHUNK)
    {
      var offset := 0;
      while offset < total
        invariant offset % CHUNK == 0 && offset <= total
        invariant index == ClearAll(old(index), base, offset / CHUNK)
        decreases total - offset
      {
        NextBlock(base, offset, total);
        index := index - {Radix.Key(base * CHUNK + offset)};
        offset := offset + CHUNK;
      }
    }

    /** lz_free: a direct mapping leaves the index and is unmapped; any other known address goes to the heaps. */
    method Free(ptr: nat) returns (r: Freed)
      requires Valid() && ptr < CHUNK * Radix.KEYS
      modifies this
      ensures Valid()
      ensures forall h: nat :: (r == Unmapped(h) || r == ToOwner(h)) <==> ptr != 0 && Covers(old(chunks), h, ptr / CHUNK)
      ensures r.Unmapped? ==> r.header in old(chunks) && old(chunks)[r.header].DirectChunk?
      ensures r.Unmapped? ==> chunks == old(chunks) - {r.header}
      ensures r.Unmapped? ==> index == ClearAll(old(index), r.header, Blocks(old(chunks)[r.header]))
      ensures !r.Unmapped? ==> chunks == old(chunks) && index == old(index)
      ensures r.ToOwner? ==> !chunks[r.header].DirectChunk?
    {
      if ptr == 0 { return Ignored; }
      var h := Resolve(ptr);
      if h.None? { return Ignored; }
      assert Covers(chunks, h.value, ptr / CHUNK);
      if !chunks[h.value].DirectChunk? { return ToOwner(h.value); }
      RemoveExact(index, chunks, h.value);
      ClearLoop(h.value, chunks[h.value].total);
      chunks := chunks - {h.value};
      r := Unmapped(h.value);
    }

    /** lz_slab_create and lz_span_alloc enter a chunk the VMM gave them. */
    method Enter(h: nat)
      requires Valid() && h !in index && h < Radix.KEYS
      modifies this
      ensures Valid() && chunks == old(chunks)[h := HeapChunk] && index == old(index)[h := h]
    {
      AddExact(index, chunks, h, HeapChunk);
      OneBlock(index, h);
      ChunkKey(h);
      index := index[Radix.Key(h * CHUNK) := h];
      chunks := chunks[h := HeapChunk];
    }

    /** lz_slab_destroy and lz_span_free_local take a chunk out again. */
    method Leave(h: nat)
      requires Valid() && h in chunks && !chunks[h].DirectChunk?
      modifies this
      ensures Valid() && chunks == old(chunks) - {h} && index == old(index) - {h}
    {
      RemoveExact(index, chunks, h);
      OneBlock(index, h);
      ChunkKey(h);
      index := index - {Radix.Key(h * CHUNK)};
      chunks := chunks - {h};
    }

    /** A direct allocation followed by its free leaves the index and the headers as they were, even when the
        payload starts past the first 2 MB. */
    method DirectRoundTrip(base: nat, offset: nat, size: nat)
      requires Valid() && base >= 1 && size >= 1 && offset + size + (CHUNK - 1) < WORD
      requires forall k: nat :: base <= k < base + DirectTotal(offset, size) / CHUNK ==> k !in index
      requires base + DirectTotal(offset, size) / CHUNK <= Radix.KEYS
      modifies this
      ensures Valid() && index == old(index) && chunks == old(chunks)
    {
      var n := DirectTotal(offset, size) / CHUNK;
      DirectBlocks(offset, size);
      AddExact(index, chunks, base, DirectChunk(DirectTotal(offset, size)));
      ClearUndoesSet(index, base, n, base);
      DirectPayload(base, offset, size);
      var ptr := AllocDirect(base, offset, size);
      assert Covers(chunks, base, ptr / CHUNK);
      var r := Free(ptr);
      assert r == Unmapped(base) || r == ToOwner(base);
    }
  }

  /** The payload starts inside the mapping. */
  lemma DirectPayload(base: nat, offset: nat, size: nat)
    requires size >= 1 && offset + size + (CHUNK - 1) < WORD
    requires base + DirectTotal(offset, size) / CHUNK <= Radix.KEYS
    ensures base <= (base * CHUNK + offset) / CHUNK < base + DirectTotal(offset, size) / CHUNK
    ensures base * CHUNK + offset < CHUNK * Radix.KEYS
  {
    DirectFits(offset, size);
    var q, r, t := offset / CHUNK, offset % CHUNK, DirectTotal(offset, size) / CHUNK;
    assert base * CHUNK + offset == CHUNK * (base + q) + r;
    ModUnique(base * CHUNK + offset, CHUNK, base + q, r);
    assert DirectTotal(offset, size) == CHUNK * t;
  }

  /** On 48-bit addresses the slot is the chunk number, and every address of a chunk shares it. */
  lemma KeyOf(ptr: nat)
    requires ptr < CHUNK * Radix.KEYS
    ensures Radix.Key(ptr) == ptr / CHUNK && (ptr - ptr % CHUNK) / CHUNK == ptr / CHUNK
  {
    Radix.KeyIs(ptr);
    Radix.ChunkNumber(ptr);
  }

  lemma ChunkKey(h: nat)
    requires h < Radix.KEYS
    ensures Radix.Key(h * CHUNK) == h
  {
    ModUnique(h * CHUNK, CHUNK, h, 0);
    KeyOf(h * CHUNK);
  }

  lemma OneBlock(index: map<nat, nat>, h: nat)
    ensures SetAll(index, h, 1, h) == index[h := h] && ClearAll(index, h, 1) == index - {h}
  {
    assert SetAll(index, h, 0, h) == index && ClearAll(index, h, 0) == index;
  }

  lemma NextBlock(base: nat, offset: nat, total: nat)
    requires offset % CHUNK == 0 && total % CHUNK == 0 && offset < total && base + total / CHUNK <= Radix.KEYS
    ensures offset + CHUNK <= total && (offset + CHUNK) % CHUNK == 0 && (offset + CHUNK) / CHUNK == offset / CHUNK + 1
    ensures Radix.Key(base * CHUNK + offset) == base + offset / CHUNK
  {
    var q, t := offset / CHUNK, total / CHUNK;
    assert offset == CHUNK * q && total == CHUNK * t;
    ModUnique(offset + CHUNK, CHUNK, q + 1, 0);
    var x := base * CHUNK + offset;
    assert x == CHUNK * (base + q);
    ModUnique(x, CHUNK, base + q, 0);
    KeyOf(x);
  }

  lemma DirectBlocks(offset: nat, size: nat)
    requires offset + size >= 1 && offset + size + (CHUNK - 1) < WORD
    ensures DirectTotal(offset, size) % CHUNK == 0 && DirectTotal(offset, size) / CHUNK >= 1
  {
    DirectFits(offset, size);
  }
}
