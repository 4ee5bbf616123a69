/** One slab in place (src/engines/slab.c, src/tlh/tlh.c): block addresses, the bump cursor and the free list whose
    links are stored encoded inside the free blocks (src/core/security.h). */
module SlabBlocks {
  import opened Common
  import opened Bits
  import opened Heaps

  // ---- Encoded links -----------------------------------------------------------------

  /** lz_ptr_obfuscate: the same expression encodes and decodes. */
  function Obfuscate(ptr: nat, at: nat, secret: nat): nat {
    Xor(Xor(ptr, secret), at)
  }

  /** Decoding at the storing address recovers the pointer, null included, for any secret. */
  lemma ObfuscateTwice(ptr: nat, at: nat, secret: nat)
    ensures Obfuscate(Obfuscate(ptr, at, secret), at, secret) == ptr
  {
    var x := Xor(ptr, secret);
    calc {
      Xor(Xor(Xor(x, at), secret), at);
      { XorComm(Xor(x, at), secret); XorAssoc(secret, x, at); }
      Xor(Xor(Xor(secret, x), at), at);
      { XorAssoc(Xor(secret, x), at, at); XorSelf(at); XorZero(Xor(secret, x)); }
      Xor(secret, x);
      { XorComm(ptr, secret); XorAssoc(secret, secret, ptr); XorSelf(secret); XorComm(0, ptr); XorZero(ptr); }
      ptr;
    }
  }

  /** The word depends on secret and address: decoding it with another secret or at another address recovers the
      pointer exactly when the two masks happen to be the same. */
  lemma ObfuscateHides(ptr: nat, at: nat, secret: nat, word: nat, at': nat, secret': nat)
    requires word == Obfuscate(ptr, at, secret)
    ensures Obfuscate(word, at', secret') == ptr <==> Xor(secret, at) == Xor(secret', at')
  {
    var k, k' := Mask(ptr, at, secret, word), Mask(word, at', secret', Obfuscate(word, at', secret'));
    MasksAgree(ptr, k, k', word, Obfuscate(word, at', secret'));
  }

  /** The mask that turns the pointer into the word. */
  function Mask(ptr: nat, at: nat, secret: nat, word: nat): (k: nat)
    requires word == Obfuscate(ptr, at, secret)
    ensures k == Xor(secret, at) && word == Xor(ptr, k)
  {
    XorAssoc(ptr, secret, at);
    Xor(secret, at)
  }

  lemma MasksAgree(ptr: nat, k: nat, k': nat, u: nat, v: nat)
    requires u == Xor(ptr, k) && v == Xor(u, k')
    ensures v == ptr <==> k == k'
  {
    XorAssoc(ptr, k, k');
    Unmasked(ptr, Xor(k, k'));
    SameMask(k, k');
  }

  lemma SameMask(k: nat, k': nat)
    ensures Xor(k, k') == 0 <==> k == k'
  {
    XorSelf(k);
    if Xor(k, k') == 0 {
      XorAssoc(k, k, k');
      XorZero(k);
      XorComm(0, k');
      XorZero(k');
    }
  }

  lemma Unmasked(ptr: nat, d: nat)
    ensures Xor(ptr, d) == ptr <==> d == 0
  {
    XorZero(ptr);
    if Xor(ptr, d) == ptr {
      XorAssoc(ptr, ptr, d);
      XorSelf(ptr);
      XorComm(0, d);
      XorZero(d);
    }
  }

  // ---- Block addresses -----------------------------------------------------------------

  /** 64 bytes of chunk header and 64 of slab header come before the first block. */
  const DATA: nat := 128

  /** Address of block `k` of a slab of `size`-byte blocks in chunk number `chunk`. */
  function Addr(chunk: nat, size: nat, k: nat): nat {
    chunk * CHUNK + DATA + k * size
  }

  /** max_objects. */
  function Capacity(size: nat): nat
    requires size >= 1
  {
    (CHUNK - DATA) / size
  }

  lemma Times(j: nat, k: nat, size: nat)
    requires j < k
    ensures j * size + size <= k * size
  {
    assert (k - j - 1) * size >= 0;
    assert k * size == j * size + size + (k - j - 1) * size;
  }

  /** Distinct blocks do not overlap. */
  lemma AddrApart(chunk: nat, size: nat, j: nat, k: nat)
    requires j < k
    ensures Addr(chunk, size, j) + size <= Addr(chunk, size, k)
  {
    Times(j, k, size);
  }

  /** The bound test of the bump cursor is exactly the test against max_objects. */
  lemma CursorBound(chunk: nat, size: nat, k: nat)
    requires size >= 1
    ensures Addr(chunk, size, k) + size <= (chunk + 1) * CHUNK <==> k < Capacity(size)
  {
    var q, r := Capacity(size), (CHUNK - DATA) % size;
    assert CHUNK - DATA == size * q + r;
    assert (chunk + 1) * CHUNK == chunk * CHUNK + CHUNK;
    if k < q {
      Times(k, q, size);
    } else if k > q {
      Times(q, k, size);
    }
  }

  // ---- The encoded chain --------------------------------------------------------------------

  /** From head `h`, decoding each stored link at its own address visits exactly the slots `free`. */
  ghost predicate Chain(words: map<nat, nat>, secret: nat, chunk: nat, size: nat, h: nat, free: seq<nat>)
    decreases |free|
  {
    if free == [] then h == 0
    else
      && h == Addr(chunk, size, free[0]) && h in words
      && Chain(words, secret, chunk, size, Obfuscate(words[h], h, secret), free[1..])
  }

  /** The chain depends on the words of its own blocks only. */
  lemma {:induction false} ChainFrame(words: map<nat, nat>, words': map<nat, nat>, secret: nat, chunk: nat, size: nat,
                                      h: nat, free: seq<nat>)
    requires Chain(words, secret, chunk, size, h, free)
    requires forall k :: k in free && Addr(chunk, size, k) in words ==>
               Addr(chunk, size, k) in words' && words'[Addr(chunk, size, k)] == words[Addr(chunk, size, k)]
    ensures Chain(words', secret, chunk, size, h, free)
    decreases |free|
  {
    if free != [] {
      assert free[0] in free && free == [free[0]] + free[1..];
      ChainFrame(words, words', secret, chunk, size, Obfuscate(words[h], h, secret), free[1..]);
    }
  }

  /** Writing into a block that is not on the list leaves the list alone. */
  lemma WriteElsewhere(words: map<nat, nat>, secret: nat, chunk: nat, size: nat, h: nat, free: seq<nat>, k: nat, w: nat)
    requires Chain(words, secret, chunk, size, h, free) && k !in free && size >= 1
    ensures Chain(words[Addr(chunk, size, k) := w], secret, chunk, size, h, free)
  {
    forall j | j in free ensures Addr(chunk, size, j) != Addr(chunk, size, k) {
      if j < k { AddrApart(chunk, size, j, k); } else { AddrApart(chunk, size, k, j); }
    }
    ChainFrame(words, words[Addr(chunk, size, k) := w], secret, chunk, size, h, free);
  }

  lemma PushChain(words: map<nat, nat>, secret: nat, chunk: nat, size: nat, h: nat, free: seq<nat>, k: nat)
    requires Chain(words, secret, chunk, size, h, free) && k !in free && size >= 1
    ensures var at := Addr(chunk, size, k);
            Chain(words[at := Obfuscate(h, at, secret)], secret, chunk, size, at, [k] + free)
  {
    var at := Addr(chunk, size, k);
    WriteElsewhere(words, secret, chunk, size, h, free, k, Obfuscate(h, at, secret));
    ObfuscateTwice(h, at, secret);
    assert ([k] + free)[1..] == free;
  }

  // ---- The slab -------------------------------------------------------------------------------

  /** lz_slab_t without its links, in its chunk.  `words` is the first word of each block; pointers are addresses, 0 is NULL. */
  class SlabHeader {
    const chunk: nat
    const size: nat
    const max: nat
    const secret: nat
    var bump: nat
    var head: nat
    var used: int
    var words: map<nat, nat>

    ghost var carved: nat
    ghost var free: seq<nat>

    /** The cursor is NULL or stands at the first uncarved block, and the encoded links spell the free list. */
    ghost predicate Valid()
      reads this`bump, this`head, this`words, this`carved, this`free
    {
      && chunk >= 1 && size >= 1 && max == Capacity(size)
      && (bump == 0 || bump == Addr(chunk, size, carved))
      && Chain(words, secret, chunk, size, head, free)
    }

    ghost function View(): Slab
      reads this`bump, this`used, this`carved, this`free
    {
      Slab(max, carved, bump != 0, free, used)
    }

    /** lz_slab_create on a chunk the VMM gave. */
    constructor (chunk: nat, size: nat, secret: nat)
      requires chunk >= 1 && size >= 1
      ensures Valid() && View() == Slab(Capacity(size), 0, true, [], 0)
      ensures this.chunk == chunk && this.size == size && this.secret == secret
    {
      this.chunk, this.size, this.secret := chunk, size, secret;
      max := (chunk * CHUNK + CHUNK - (chunk * CHUNK + DATA)) / size;
      bump, head, used := chunk * CHUNK + DATA, 0, 0;
      words := map[];
      carved, free := 0, [];
    }

    /** Unlinks the first free block. */
    method Pop() returns (ptr: nat)
      requires Valid() && head != 0
      modifies this`head, this`used, this`free
      ensures Valid() && old(free) != [] && View() == PopFree(old(View())) && ptr == Addr(chunk, size, old(free)[0])
    {
      ptr := head;
      head := Obfuscate(words[ptr], ptr, secret);
      used := used + 1;
      free := free[1..];
    }

    /** Links block `k` in front of the free list. */
    method Push(ptr: nat, ghost k: nat)
      requires Valid() && ptr == Addr(chunk, size, k) && k !in free
      modifies this`head, this`used, this`free, this`words
      ensures Valid() && View() == PushFree(old(View()), k)
    {
      PushChain(words, secret, chunk, size, head, free, k);
      words := words[ptr := Obfuscate(head, ptr, secret)];
      head := ptr;
      used := used - 1;
      free := [k] + free;
    }

    /** The warm path's carving: the next block, or NULL and no cursor once every block is carved. */
    method Carve() returns (ptr: nat)
      requires Valid() && bump != 0
      modifies this`bump, this`used, this`carved
      ensures Valid()
      ensures old(carved) < max ==> ptr == Addr(chunk, size, old(carved))
      ensures old(carved) < max ==> View() == old(View()).(carved := old(carved) + 1, used := old(used) + 1)
      ensures old(carved) >= max ==> ptr == 0 && View() == old(View()).(cursor := false)
    {
      ptr := bump;
      var nextBump := ptr + size;
      CursorBound(chunk, size, carved);
      if nextBump <= (chunk + 1) * CHUNK {
        bump := nextBump;
        used := used + 1;
        carved := carved + 1;
      } else {
        bump, ptr := 0, 0;
      }
    }

    /** The slow path's first block of a new slab, taken without a bound test. */
    method First() returns (ptr: nat)
      requires Valid() && bump != 0
      modifies this`bump, this`used, this`carved
      ensures Valid() && ptr == Addr(chunk, size, old(carved))
      ensures View() == old(View()).(carved := old(carved) + 1, used := old(used) + 1)
    {
      ptr := bump;
      bump := ptr + size;
      used := used + 1;
      carved := carved + 1;
    }

    /** A client writes into a block that is not free. */
    method ClientWrites(k: nat, w: nat)
      requires Valid() && k !in free
      modifies this`words
      ensures Valid() && View() == old(View())
    {
      WriteElsewhere(words, secret, chunk, size, head, free, k, w);
      words := words[Addr(chunk, size, k) := w];
    }
  }

  /** An empty free list is exactly a NULL head: no block has address 0. */
  lemma HeadNull(x: SlabHeader)
    requires x.Valid()
    ensures x.head == 0 <==> x.free == []
  {
    assert x.chunk * CHUNK >= CHUNK;
  }
}
