/** Slabs and size-class bins of one thread-local heap, as values
    (src/tlh/tlh.c, src/engines/slab.c).  A block is a slot number inside its slab.  Module SlabBins does these
    operations in place, and module Interleaving runs them beside the frees of other threads. */
module Heaps {
  import opened Common

  /** `carved` blocks have been taken off the bump cursor so far, `cursor` says whether the
      cursor is still non-NULL, `free` is the free list from its head, `used` the
      counter `used_objects`. */
  datatype Slab = Slab(max: nat, carved: nat, cursor: bool, free: seq<nat>, used: int)

  /** One bin: its lists name slabs by chunk, `slabs` holds their state. */
  datatype Bin = Bin(current: Option<nat>, partial: seq<nat>, full: seq<nat>, slabs: map<nat, Slab>)

  // ---- Well-formedness ----------------------------------------------------

  /** Uncarved slots, free list and used blocks partition the slots of the slab. */
  ghost predicate SlabOk(s: Slab) {
    && s.max >= 2
    && s.carved <= s.max
    && NoDup(s.free)
    && (forall k :: k in s.free ==> k < s.carved)
    && s.used >= 0 && s.used + |s.free| == s.carved
    && (!s.cursor ==> s.carved == s.max)
  }

  /** The two lists and the current slab are disjoint and name exactly the bin's slabs. */
  ghost predicate Shape(b: Bin) {
    && NoDup(b.partial) && NoDup(b.full)
    && (forall c :: c in b.partial ==> c !in b.full && b.current != Some(c))
    && (forall c :: c in b.full ==> b.current != Some(c))
    && (forall c :: c in b.slabs <==> b.current == Some(c) || c in b.partial || c in b.full)
  }

  ghost predicate BinInv(b: Bin) {
    && Shape(b)
    && (forall c :: c in b.slabs ==> SlabOk(b.slabs[c]))
    && (forall c :: c in b.partial ==> b.slabs[c].used < b.slabs[c].max && !b.slabs[c].cursor)
    && (forall c :: c in b.full ==> b.slabs[c].used == b.slabs[c].max && !b.slabs[c].cursor)
  }

  const EmptyBin := Bin(None, [], [], map[])

  // ---- Which blocks exist, and which are on a free list --------------------

  predicate Carved(b: Bin, c: nat, k: nat) {
    c in b.slabs && k < b.slabs[c].carved
  }

  predicate OnFreeList(b: Bin, c: nat, k: nat) {
    c in b.slabs && k in b.slabs[c].free
  }

  /** Handed out: carved and not on the free list.  In transit counts as handed out. */
  predicate InUse(b: Bin, c: nat, k: nat) {
    Carved(b, c, k) && !OnFreeList(b, c, k)
  }

  // ---- Freeing -------------------------------------------------------------

  function PushFree(s: Slab, k: nat): Slab {
    s.(free := [k] + s.free, used := s.used - 1)
  }

  /** lz_tlh_rescue_from_full */
  function Rescue(b: Bin, c: nat): Bin {
    if b.current == Some(c) then b
    else b.(full := Without(b.full, c), partial := [c] + b.partial)
  }

  /** lz_tlh_recycle_empty_slab: the new bin; the slab's chunk goes back to the VMM
      exactly when it leaves `slabs`. */
  function Recycle(b: Bin, c: nat): Bin {
    if b.current == Some(c) then
      if b.partial == [] then b
      else b.(current := Some(b.partial[0]), partial := b.partial[1..], slabs := b.slabs - {c})
    else
      b.(partial := Without(b.partial, c), full := Without(b.full, c), slabs := b.slabs - {c})
  }

  /** The owner takes block `k` of slab `c` back (lz_tlh_free and one turn of lz_tlh_reap). */
  function FreeBlock(b: Bin, c: nat, k: nat): Bin
    requires c in b.slabs
  {
    Settle(b.(slabs := b.slabs[c := PushFree(b.slabs[c], k)]), c)
  }

  /** After the push: rescue a slab that was full, recycle one that became empty. */
  function Settle(b: Bin, c: nat): Bin
    requires c in b.slabs
  {
    var s := b.slabs[c];
    var b2 := if s.used == s.max - 1 then Rescue(b, c) else b;
    if s.used == 0 then Recycle(b2, c) else b2
  }

  // ---- Allocating ----------------------------------------------------------

  function PopFree(s: Slab): Slab
    requires s.free != []
  {
    s.(free := s.free[1..], used := s.used + 1)
  }

  /** Block taken from slab `chunk`, slot `slot`. */
  datatype Taken = Taken(bin: Bin, chunk: nat, slot: nat)

  /** The fast path: pop the free list of the current slab. */
  function AllocFast(b: Bin): Option<Taken> {
    if b.current.Some? && b.current.value in b.slabs && b.slabs[b.current.value].free != [] then
      var c := b.current.value;
      Some(Taken(b.(slabs := b.slabs[c := PopFree(b.slabs[c])]), c, b.slabs[c].free[0]))
    else None
  }

  /** The warm path, after the mailbox was drained: pop, else bump.  Without a block, the
      bin is still changed: an overrun cursor becomes NULL. */
  function AllocWarm(b: Bin): (Bin, Option<Taken>) {
    if AllocFast(b).Some? then (b, AllocFast(b))
    else if b.current.Some? && b.current.value in b.slabs && b.slabs[b.current.value].cursor then
      var c := b.current.value;
      var s := b.slabs[c];
      if s.carved < s.max then
        (b, Some(Taken(b.(slabs := b.slabs[c := s.(carved := s.carved + 1, used := s.used + 1)]), c, s.carved)))
      else
        (b.(slabs := b.slabs[c := s.(cursor := false)]), None)
    else (b, None)
  }

  /** The current slab goes to the head of the full list. */
  function Retire(b: Bin): Bin {
    if b.current.Some? then b.(full := [b.current.value] + b.full, current := None) else b
  }

  /** The first partial slab has a block to give: what the slow path's dereference needs. */
  predicate PartialServes(b: Bin) {
    b.partial != [] ==> b.partial[0] in b.slabs && b.slabs[b.partial[0]].free != []
  }

  /** The slow path: promote the first partial slab, else format chunk `spare`. */
  function AllocSlow(b: Bin, spare: Option<nat>, max: nat): Option<Taken> {
    if b.partial != [] then
      if PartialServes(b) then Some(Promote(b, b.partial[0])) else None
    else if spare.Some? then Some(Format(b, spare.value, max))
    else None
  }

  function Promote(b: Bin, c: nat): Taken
    requires b.partial != [] && c in b.slabs && b.slabs[c].free != []
  {
    Taken(Bin(Some(c), b.partial[1..], Retire(b).full, b.slabs[c := PopFree(b.slabs[c])]), c, b.slabs[c].free[0])
  }

  function Format(b: Bin, c: nat, max: nat): Taken {
    Taken(Bin(Some(c), b.partial, Retire(b).full, b.slabs[c := Slab(max, 1, true, [], 1)]), c, 0)
  }

  // ---- What each operation does to the blocks ------------------------------

  /** Exactly one block, which nobody held, became handed out. */
  ghost predicate Takes(b: Bin, b': Bin, c: nat, k: nat) {
    && BinInv(b')
    && b'.slabs.Keys == b.slabs.Keys + {c}
    && !InUse(b, c, k)
    && Carved(b', c, k)
    && (forall d, j :: Carved(b', d, j) <==> Carved(b, d, j) || (d == c && j == k))
    && (forall d, j :: OnFreeList(b', d, j) <==> OnFreeList(b, d, j) && !(d == c && j == k))
  }

  ghost predicate Gives(b: Bin, t: Taken) {
    Takes(b, t.bin, t.chunk, t.slot)
  }

  /** Exactly one handed-out block came back; if the slab's chunk was released, every one
      of its blocks was on the free list by then. */
  ghost predicate Returns(b: Bin, b': Bin, c: nat, k: nat) {
    && BinInv(b')
    && (forall d :: d in b'.slabs ==> d in b.slabs)
    && (forall d :: d in b.slabs && d != c ==> d in b'.slabs)
    && (forall d, j :: d in b'.slabs ==> (Carved(b', d, j) <==> Carved(b, d, j)))
    && (forall d, j :: d in b'.slabs ==> (OnFreeList(b', d, j) <==> OnFreeList(b, d, j) || (d == c && j == k)))
    && (c !in b'.slabs ==> forall j :: InUse(b, c, j) ==> j == k)
  }

  // ---- Freeing keeps the invariant -----------------------------------------

  lemma PushFreeOk(s: Slab, k: nat)
    requires SlabOk(s) && k < s.carved && k !in s.free
    ensures s.used > 0 && SlabOk(PushFree(s, k))
  {
    NoDupPrepend(k, s.free);
    if s.used == 0 {
      Pigeonhole(s.free, s.carved);
    }
  }

  /** A count that drops to max - 1 belongs to the current slab or to one in the full list. */
  lemma RescuedSlabWasFull(b: Bin, c: nat, k: nat)
    requires BinInv(b) && InUse(b, c, k)
    requires b.slabs[c].used - 1 == b.slabs[c].max - 1
    ensures b.current == Some(c) || c in b.full
  {}

  /** Everything but the list conditions on slab `c` itself. */
  ghost predicate Almost(b: Bin, c: nat) {
    && Shape(b) && c in b.slabs
    && (forall d :: d in b.slabs ==> SlabOk(b.slabs[d]))
    && (forall d :: d in b.partial && d != c ==> b.slabs[d].used < b.slabs[d].max && !b.slabs[d].cursor)
    && (forall d :: d in b.full && d != c ==> b.slabs[d].used == b.slabs[d].max && !b.slabs[d].cursor)
    && (b.current != Some(c) ==> !b.slabs[c].cursor && b.slabs[c].used < b.slabs[c].max)
  }

  lemma RescueOk(b: Bin, c: nat)
    requires Almost(b, c) && (b.current == Some(c) || c in b.full)
    ensures BinInv(Rescue(b, c)) && Rescue(b, c).slabs == b.slabs && Rescue(b, c).current == b.current
  {
    if b.current != Some(c) {
      WithoutMembers(b.full, c);
      NoDupPrepend(c, b.partial);
    }
  }

  lemma RecycleOk(b: Bin, c: nat)
    requires BinInv(b) && c in b.slabs
    ensures BinInv(Recycle(b, c))
    ensures Recycle(b, c).slabs == b.slabs || Recycle(b, c).slabs == b.slabs - {c}
    ensures Recycle(b, c).slabs == b.slabs <==> b.current == Some(c) && b.partial == []
  {
    if b.current == Some(c) {
      if b.partial != [] { TailMembers(b.partial); }
    } else {
      WithoutMembers(b.partial, c);
      WithoutMembers(b.full, c);
      assert c in b.slabs && c !in b.slabs - {c};
    }
  }

  /** Taking a handed-out block back: the bin stays well formed, exactly that block moves to
      the free list, and the chunk is released only when no other block was out. */
  lemma FreeBlockReturns(b: Bin, c: nat, k: nat)
    requires BinInv(b) && InUse(b, c, k)
    ensures b.slabs[c].used > 0
    ensures Returns(b, FreeBlock(b, c, k), c, k)
    ensures c !in FreeBlock(b, c, k).slabs ==> b.slabs[c].used == 1
  {
    var s := b.slabs[c];
    PushFreeOk(s, k);
    var b1 := b.(slabs := b.slabs[c := PushFree(s, k)]);
    PushedAlmost(b, c, k);
    FreeSettles(b1, c);
    if s.used == 1 { LastBlock(s, k); }
    FreeViews(b, b1, FreeBlock(b, c, k), c, k);
  }

  lemma PushedAlmost(b: Bin, c: nat, k: nat)
    requires BinInv(b) && InUse(b, c, k)
    requires SlabOk(PushFree(b.slabs[c], k))
    ensures Almost(b.(slabs := b.slabs[c := PushFree(b.slabs[c], k)]), c)
    ensures b.slabs[c].used == b.slabs[c].max ==> b.current == Some(c) || c in b.full
    ensures b.slabs[c].used < b.slabs[c].max ==> c !in b.full
  {}

  lemma FreeSettles(b1: Bin, c: nat)
    requires Almost(b1, c)
    requires b1.slabs[c].used == b1.slabs[c].max - 1 ==> b1.current == Some(c) || c in b1.full
    requires b1.slabs[c].used < b1.slabs[c].max - 1 ==> c !in b1.full
    ensures BinInv(Settle(b1, c))
    ensures Settle(b1, c).slabs == b1.slabs || (b1.slabs[c].used == 0 && Settle(b1, c).slabs == b1.slabs - {c})
  {
    var s := b1.slabs[c];
    var b2 := if s.used == s.max - 1 then Rescue(b1, c) else b1;
    if s.used == s.max - 1 { RescueOk(b1, c); }
    assert BinInv(b2) && b2.slabs == b1.slabs;
    if s.used == 0 { RecycleOk(b2, c); }
  }

  lemma FreeViews(b: Bin, b1: Bin, b': Bin, c: nat, k: nat)
    requires InUse(b, c, k) && BinInv(b')
    requires b1 == b.(slabs := b.slabs[c := PushFree(b.slabs[c], k)])
    requires b'.slabs == b1.slabs
          || (b'.slabs == b1.slabs - {c} && forall j :: InUse(b, c, j) ==> j == k)
    ensures Returns(b, b', c, k)
  {
    forall d, j | d in b'.slabs
      ensures Carved(b', d, j) <==> Carved(b, d, j)
      ensures OnFreeList(b', d, j) <==> OnFreeList(b, d, j) || (d == c && j == k)
    {
      assert b'.slabs[d] == b1.slabs[d];
    }
  }

  /** With one block counted as used, no other carved block is off the free list. */
  lemma LastBlock(s: Slab, k: nat)
    requires SlabOk(s) && s.used == 1 && k < s.carved && k !in s.free
    ensures forall j :: 0 <= j < s.carved && j != k ==> j in s.free
  {
    NoDupPrepend(k, s.free);
    var out: seq<nat> := [k] + s.free;
    Pigeonhole(out, s.carved);
    forall j | 0 <= j < s.carved && j != k ensures j in s.free { assert j in out; }
  }

  /** `used_objects` is the number of blocks handed out. */
  lemma UsedCountsBlocks(s: Slab)
    requires SlabOk(s)
    ensures s.used == |set k | 0 <= k < s.carved && k !in s.free|
  {
    var out := set k | 0 <= k < s.carved && k !in s.free;
    ElementsCount(s.free);
    assert out == Below(s.carved) - Elements(s.free);
    DifferenceSize(Below(s.carved), Elements(s.free));
  }

  lemma DifferenceSize(a: set<nat>, b: set<nat>)
    requires b <= a
    ensures |a - b| == |a| - |b|
  {
    assert a == (a - b) + b;
  }

  ghost function Below(n: nat): (r: set<nat>)
    ensures |r| == n && forall k: nat :: k in r <==> k < n
  {
    if n == 0 then {} else Below(n - 1) + {n - 1}
  }

  ghost function Elements(s: seq<nat>): set<nat> {
    set k | k in s
  }

  lemma {:induction false} ElementsCount(s: seq<nat>)
    requires NoDup(s)
    ensures |Elements(s)| == |s|
    decreases |s|
  {
    if s != [] {
      var n := |s| - 1;
      ElementsCount(s[..n]);
      assert s[n] !in s[..n];
      assert s == s[..n] + [s[n]];
      assert Elements(s) == Elements(s[..n]) + {s[n]};
    }
  }

  // ---- Allocating keeps the invariant ----------------------------------------

  lemma PopFreeOk(s: Slab)
    requires SlabOk(s) && s.free != []
    ensures SlabOk(PopFree(s))
    ensures s.free[0] < s.carved && s.free[0] !in s.free[1..]
    ensures forall j :: j in s.free <==> j in s.free[1..] || j == s.free[0]
  {
    var rest := s.free[1..];
    assert s.free == [s.free[0]] + rest;
    assert s.free[0] in s.free;
    assert forall j :: j in rest ==> j in s.free;
  }

  /** Replacing one slab by one with exactly block `k` more out takes that block. */
  lemma TakesViews(b: Bin, b': Bin, c: nat, k: nat)
    requires BinInv(b) && BinInv(b')
    requires c in b.slabs && k in b.slabs[c].free
    requires b'.slabs == b.slabs[c := PopFree(b.slabs[c])] && k == b.slabs[c].free[0]
    ensures Takes(b, b', c, k)
  {
    PopFreeOk(b.slabs[c]);
    forall d, j
      ensures Carved(b', d, j) <==> Carved(b, d, j) || (d == c && j == k)
      ensures OnFreeList(b', d, j) <==> OnFreeList(b, d, j) && !(d == c && j == k)
    {
    }
  }

  lemma AllocFastTakes(b: Bin)
    requires BinInv(b) && AllocFast(b).Some?
    ensures Gives(b, AllocFast(b).value)
  {
    var t := AllocFast(b).value;
    PopFreeOk(b.slabs[t.chunk]);
    TakesViews(b, t.bin, t.chunk, t.slot);
  }

  /** Ready for the slow path: the current slab, if any, has nothing left to give. */
  ghost predicate Exhausted(b: Bin) {
    b.current.Some? ==>
      && b.current.value in b.slabs
      && b.slabs[b.current.value].free == []
      && !b.slabs[b.current.value].cursor
  }

  lemma AllocWarmTakes(b: Bin)
    requires BinInv(b)
    ensures AllocWarm(b).1.Some? ==> Gives(b, AllocWarm(b).1.value) && AllocWarm(b).1.value.chunk in b.slabs
    ensures AllocWarm(b).1.None? ==>
              BinInv(AllocWarm(b).0) && Exhausted(AllocWarm(b).0) && SameBlocks(b, AllocWarm(b).0)
  {
    if AllocFast(b).Some? {
      AllocFastTakes(b);
    } else if b.current.Some? && b.slabs[b.current.value].cursor {
      var c := b.current.value;
      var s := b.slabs[c];
      if s.carved < s.max { BumpTakes(b); }
    }
  }

  /** Same slabs, same blocks, same free lists. */
  ghost predicate SameBlocks(b: Bin, b': Bin) {
    && b'.slabs.Keys == b.slabs.Keys
    && (forall d, j :: Carved(b', d, j) <==> Carved(b, d, j))
    && (forall d, j :: OnFreeList(b', d, j) <==> OnFreeList(b, d, j))
  }

  lemma BumpTakes(b: Bin)
    requires BinInv(b) && b.current.Some? && AllocFast(b).None?
    requires var s := b.slabs[b.current.value]; s.cursor && s.carved < s.max
    ensures Gives(b, AllocWarm(b).1.value)
  {
    var t := AllocWarm(b).1.value;
    var c, k := t.chunk, t.slot;
    assert BinInv(t.bin);
    forall d, j
      ensures Carved(t.bin, d, j) <==> Carved(b, d, j) || (d == c && j == k)
      ensures OnFreeList(t.bin, d, j) <==> OnFreeList(b, d, j) && !(d == c && j == k)
    {
    }
  }

  /** A partial slab can always serve: the slow path's first dereference is safe. */
  lemma PartialCanServe(b: Bin)
    requires BinInv(b) && b.partial != []
    ensures PartialServes(b)
  {
    assert b.partial[0] in b.partial;
  }

  /** Only a full slab is retired. */
  lemma RetiredIsFull(b: Bin)
    requires BinInv(b) && Exhausted(b) && b.current.Some?
    ensures b.slabs[b.current.value].used == b.slabs[b.current.value].max
  {}

  lemma AllocSlowTakes(b: Bin, spare: Option<nat>, max: nat)
    requires BinInv(b) && Exhausted(b) && max >= 2
    requires spare.Some? ==> spare.value !in b.slabs
    ensures PartialServes(b)
    ensures AllocSlow(b, spare, max).Some? <==> b.partial != [] || spare.Some?
    ensures AllocSlow(b, spare, max).Some? ==> Gives(b, AllocSlow(b, spare, max).value)
  {
    if b.partial != [] {
      PartialCanServe(b);
      PromoteTakes(b, spare, max);
    } else if spare.Some? {
      FormatTakes(b, spare.value, max);
    }
  }

  lemma RetireShape(b: Bin)
    requires BinInv(b) && Exhausted(b) && b.current.Some?
    ensures NoDup(Retire(b).full)
    ensures forall d :: d in Retire(b).full <==> d in b.full || d == b.current.value
  {
    NoDupPrepend(b.current.value, b.full);
  }

  lemma PromoteTakes(b: Bin, spare: Option<nat>, max: nat)
    requires BinInv(b) && Exhausted(b) && b.partial != []
    requires PartialServes(b)
    ensures Gives(b, AllocSlow(b, spare, max).value)
  {
    var t := AllocSlow(b, spare, max).value;
    var c := t.chunk;
    TailMembers(b.partial);
    PopFreeOk(b.slabs[c]);
    if b.current.Some? { RetireShape(b); }
    assert c in b.partial;
    assert Shape(t.bin);
    assert BinInv(t.bin);
    TakesViews(b, t.bin, c, t.slot);
  }

  lemma FormatTakes(b: Bin, c: nat, max: nat)
    requires BinInv(b) && Exhausted(b) && b.partial == [] && c !in b.slabs && max >= 2
    ensures Gives(b, AllocSlow(b, Some(c), max).value)
  {
    var t := AllocSlow(b, Some(c), max).value;
    if b.current.Some? { RetireShape(b); }
    assert Shape(t.bin);
    assert BinInv(t.bin);
    forall d, j
      ensures Carved(t.bin, d, j) <==> Carved(b, d, j) || (d == c && j == 0)
      ensures OnFreeList(t.bin, d, j) <==> OnFreeList(b, d, j) && !(d == c && j == 0)
    {
    }
  }

  // ---- When an allocation succeeds, and from which slab ------------------------

  /** The warm path and, where it gives nothing, the slow path. */
  function Finished(b: Bin, spare: Option<nat>, max: nat): (Bin, Option<Taken>) {
    if AllocWarm(b).1.Some? then AllocWarm(b)
    else (AllocWarm(b).0, AllocSlow(AllocWarm(b).0, spare, max))
  }

  ghost predicate CurrentHasFree(b: Bin) {
    b.current.Some? && exists k: nat :: OnFreeList(b, b.current.value, k)
  }

  /** The fast path serves exactly when the current slab has a block on its free list. */
  lemma FastExact(b: Bin)
    requires BinInv(b)
    ensures AllocFast(b).Some? <==> CurrentHasFree(b)
    ensures AllocFast(b).Some? ==> AllocFast(b).value.chunk == b.current.value
  {
    if AllocFast(b).Some? { assert OnFreeList(b, b.current.value, AllocFast(b).value.slot); }
  }

  /** Every block of every slab is handed out. */
  ghost predicate AllFull(b: Bin) {
    forall c :: c in b.slabs ==> b.slabs[c].used == b.slabs[c].max
  }

  predicate CurrentHasRoom(b: Bin) {
    b.current.Some? && b.current.value in b.slabs && b.slabs[b.current.value].used < b.slabs[b.current.value].max
  }

  /** The warm path serves exactly when the current slab has a block left, carved or not, and from that slab. */
  lemma WarmExact(b: Bin)
    requires BinInv(b)
    ensures AllocWarm(b).1.Some? <==> CurrentHasRoom(b)
    ensures AllocWarm(b).1.Some? ==> AllocWarm(b).1.value.chunk == b.current.value
    ensures AllocWarm(b).1.None? ==> AllocWarm(b).0.partial == b.partial && AllocWarm(b).0.slabs.Keys == b.slabs.Keys
  {
    if b.current.Some? { assert SlabOk(b.slabs[b.current.value]); }
  }

  lemma FullExactly(b: Bin)
    requires BinInv(b)
    ensures AllFull(b) <==> !CurrentHasRoom(b) && b.partial == []
  {
    if b.partial != [] { assert b.partial[0] in b.partial; }
    forall c | c in b.slabs && !CurrentHasRoom(b) && b.partial == [] ensures b.slabs[c].used == b.slabs[c].max {
      assert SlabOk(b.slabs[c]);
    }
  }

  /** An allocation fails exactly when every slab is full and the VMM gives nothing.  It takes from the current slab
      if that has a block, else from the first partial slab, and from a new chunk only if every slab is full. */
  lemma FinishedExact(b: Bin, spare: Option<nat>, max: nat)
    requires BinInv(b) && max >= 2 && (spare.Some? ==> spare.value !in b.slabs)
    ensures Finished(b, spare, max).1.None? <==> spare.None? && AllFull(b)
    ensures Finished(b, spare, max).1.Some? ==>
              Finished(b, spare, max).1.value.chunk ==
              if CurrentHasRoom(b) then b.current.value else if b.partial != [] then b.partial[0] else spare.value
    ensures Finished(b, spare, max).1.Some? ==>
              (Finished(b, spare, max).1.value.chunk !in b.slabs <==> AllFull(b))
  {
    AllocWarmTakes(b);
    WarmExact(b);
    FullExactly(b);
    if AllocWarm(b).1.None? { AllocSlowTakes(AllocWarm(b).0, spare, max); }
    if b.partial != [] { assert b.partial[0] in b.partial; }
  }

  /** A free lets its chunk go exactly when the block was the last one out, unless the slab is the current one and no
      partial slab can replace it. */
  lemma FreeReleases(b: Bin, c: nat, k: nat)
    requires BinInv(b) && InUse(b, c, k)
    ensures c !in FreeBlock(b, c, k).slabs <==> b.slabs[c].used == 1 && !(b.current == Some(c) && b.partial == [])
  {
    PushFreeOk(b.slabs[c], k);
    PushedAlmost(b, c, k);
    var b1 := b.(slabs := b.slabs[c := PushFree(b.slabs[c], k)]);
    var s := b1.slabs[c];
    if s.used == s.max - 1 { RescueOk(b1, c); }
    if s.used == 0 { RecycleOk(if s.used == s.max - 1 then Rescue(b1, c) else b1, c); }
  }

  /** One block counted as used means exactly one is out. */
  lemma OneOut(s: Slab, k: nat)
    requires SlabOk(s) && k < s.carved && k !in s.free
    ensures s.used == 1 <==> forall j :: 0 <= j < s.carved && j !in s.free ==> j == k
  {
    if s.used == 1 {
      LastBlock(s, k);
    } else if forall j :: 0 <= j < s.carved && j !in s.free ==> j == k {
      NoDupPrepend(k, s.free);
      PushFreeOk(s, k);
      AllListed([k] + s.free, s.carved);
    }
  }

  lemma AllListed(q: seq<nat>, n: nat)
    requires NoDup(q) && forall j :: 0 <= j < n ==> j in q
    ensures n <= |q|
  {
    ElementsCount(q);
    SubsetSize(Below(n), Elements(q));
  }

  lemma SubsetSize(a: set<nat>, b: set<nat>)
    requires a <= b
    ensures |a| <= |b|
  {
    DifferenceSize(b, a);
  }
}
