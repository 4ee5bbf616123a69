/** One size-class bin in place (src/tlh/tlh.c): the current slab and the linked partial and full lists, each
    operation proved against the values of module Heaps. */
module SlabBins {
  import opened Common
  import opened Heaps
  import opened Links
  import opened SlabBlocks

  /** The headers are those of the chunks `list`, in order. */
  ghost predicate Named(bodies: seq<SlabHeader>, list: seq<nat>, headers: set<SlabHeader>) {
    |bodies| == |list| && forall k :: 0 <= k < |bodies| ==> bodies[k].chunk == list[k] && bodies[k] in headers
  }

  /** Each header holds the slab of its chunk. */
  ghost predicate Hold(headers: set<SlabHeader>, slabs: map<nat, Slab>)
    reads headers
  {
    forall x :: x in headers ==> Holds(x, slabs)
  }

  /** One header for each chunk. */
  ghost predicate Distinct(headers: set<SlabHeader>) {
    forall x, y :: x in headers && y in headers && x.chunk == y.chunk ==> x == y
  }

  /** Where a slab of the bin is. */
  datatype Where = Now | InPartial(at: nat) | InFull(at: nat)

  /** lz_bin_t. */
  class SlabBin {
    var current: Node?<SlabHeader>
    const partial: List<SlabHeader>
    const full: List<SlabHeader>

    /** Block size of the class, and the secret of the link encoding. */
    const size: nat
    const secret: nat

    /** The headers of the bin's slabs. */
    ghost var headers: set<SlabHeader>

    constructor (size: nat, secret: nat)
      requires 1 <= size <= MAX_SLAB_OBJ
      ensures Valid() && Names(EmptyBin) && Hold(headers, EmptyBin.slabs) && this.size == size && this.secret == secret
    {
      this.size, this.secret := size, secret;
      current := null;
      partial := new List();
      full := new List();
      headers := {};
    }

    /** The two lists are separate, and the current slab is in neither. */
    ghost predicate Valid()
      reads this, partial, partial.items, full, full.items
    {
      && partial != full && partial.Valid() && full.Valid()
      && Distinct(headers) && 1 <= size <= MAX_SLAB_OBJ && (forall x :: x in headers ==> x.size == size)
      && (forall k :: 0 <= k < |partial.items| ==> partial.items[k] !in full.items)
      && (current != null ==> current !in partial.items && current !in full.items)
    }

    /** The current slab and the lists are those of `b`. */
    ghost predicate Names(b: Bin)
      reads this, partial, full
    {
      && (current == null <==> b.current.None?)
      && (current != null ==> current.body.chunk == b.current.value && current.body in headers)
      && Named(partial.bodies, b.partial, headers)
      && Named(full.bodies, b.full, headers)
    }

    ghost predicate At(node: Node<SlabHeader>, w: Where)
      reads this, partial, full
    {
      match w
      case Now => node == current
      case InPartial(at) => at < |partial.items| && node == partial.items[at]
      case InFull(at) => at < |full.items| && node == full.items[at]
    }

    // ---- Moving slabs between the lists ---------------------------------------------------

    /** A slab goes from the full list to the head of the partial list. */
    method FullToPartial(node: Node<SlabHeader>, ghost at: nat)
      requires Valid() && at < |full.items| && node == full.items[at]
      modifies partial`head, partial`items, partial`bodies, partial.items`prev
      modifies full`head, full`items, full`bodies, full.items`next, full.items`prev
      ensures Valid() && partial.items == [node] + old(partial.items) && partial.bodies == [node.body] + old(partial.bodies)
      ensures full.bodies == old(full.bodies[..at] + full.bodies[at + 1..])
      ensures forall x :: x in full.items ==> x in old(full.items)
    {
      MembersWithout(full.items, at);
      full.Remove(node, at);
      assert partial.Valid();
      partial.PushFront(node);
    }

    /** The first partial slab becomes the current one. */
    method PartialToCurrent()
      requires Valid() && partial.head != null
      modifies this`current, partial`head, partial`items, partial`bodies, partial.items`next, partial.items`prev
      ensures old(partial.bodies) != [] && current != null && current == old(partial.head)
      ensures current.body == old(partial.bodies)[0] && partial.bodies == old(partial.bodies)[1..]
      ensures Valid() && current.next == null && current.prev == null
    {
      current := partial.PopFront();
      assert full.Valid();
    }

    /** The current slab, if any, goes to the head of the full list. */
    method CurrentToFull()
      requires Valid()
      modifies this`current, full`head, full`items, full`bodies, full.items`prev
      modifies (if current == null then {} else {current})`next, (if current == null then {} else {current})`prev
      ensures Valid() && current == null
      ensures full.bodies == (if old(current) == null then [] else [old(current).body]) + old(full.bodies)
    {
      if current != null {
        full.PushFront(current);
        assert partial.Valid();
        current := null;
      }
    }

    /** A slab leaves the list it is in. */
    method Unlink(node: Node<SlabHeader>, ghost w: Where)
      requires Valid() && At(node, w) && !w.Now?
      modifies partial`head, partial`items, partial`bodies, partial.items`next, partial.items`prev
      modifies full`head, full`items, full`bodies, full.items`next, full.items`prev
      ensures Valid()
      ensures w.InPartial? ==> full.bodies == old(full.bodies)
      ensures w.InPartial? ==> partial.bodies == old(partial.bodies[..w.at] + partial.bodies[w.at + 1..])
      ensures w.InFull? ==> partial.bodies == old(partial.bodies)
      ensures w.InFull? ==> full.bodies == old(full.bodies[..w.at] + full.bodies[w.at + 1..])
    {
      ghost var from := if w.InPartial? then partial else full;
      MembersWithout(from.items, w.at);
      RemoveFrom(node, partial, full, from, w.at);
      assert w.InPartial? ==> full.Valid();
      assert w.InFull? ==> partial.Valid();
    }

    // ---- Freeing ------------------------------------------------------------------------------

    /** lz_tlh_rescue_from_full */
    method RescueFromFull(ghost b: Bin, node: Node<SlabHeader>, ghost w: Where) returns (ghost w': Where)
      requires Valid() && Names(b) && NoDup(b.full) && At(node, w) && !w.InPartial?
      requires node != current ==> b.current != Some(node.body.chunk)
      modifies partial`head, partial`items, partial`bodies, partial.items`prev
      modifies full`head, full`items, full`bodies, full.items`next, full.items`prev
      ensures Valid() && Names(Rescue(b, node.body.chunk)) && At(node, w')
      ensures w' == if node == current then Now else InPartial(0)
      ensures partial.items == old(partial.items) || (partial.items == [node] + old(partial.items) && node in old(full.items))
      ensures forall x :: x in full.items ==> x in old(full.items)
    {
      w' := Now;
      if node == current { return; }
      NamedWithout(full.bodies, b.full, headers, w.at);
      FullToPartial(node, w.at);
      w' := InPartial(0);
    }

    /** The emptied current slab is replaced by the first partial one. */
    method RecycleCurrent(ghost b: Bin, node: Node<SlabHeader>)
      requires Valid() && Names(b) && Shape(b) && node == current && partial.head != null
      modifies this`current, this`headers
      modifies partial`head, partial`items, partial`bodies, partial.items`next, partial.items`prev
      ensures Valid() && Names(Recycle(b, node.body.chunk)) && headers == old(headers) - {node.body}
    {
      NamedShrink(partial.bodies, b.partial, headers, node.body);
      NamedShrink(full.bodies, b.full, headers, node.body);
      NamedTail(partial.bodies, b.partial, headers - {node.body});
      PartialToCurrent();
      headers := headers - {node.body};
    }

    /** An emptied slab leaves its list. */
    method RecycleListed(ghost b: Bin, node: Node<SlabHeader>, ghost w: Where)
      requires Valid() && Names(b) && Shape(b) && At(node, w) && !w.Now?
      modifies this`headers
      modifies partial`head, partial`items, partial`bodies, partial.items`next, partial.items`prev
      modifies full`head, full`items, full`bodies, full.items`next, full.items`prev
      ensures Valid() && Names(Recycle(b, node.body.chunk)) && headers == old(headers) - {node.body}
    {
      AtHeader(b, node, w);
      if w.InPartial? {
        NamedShrink(full.bodies, b.full, headers, node.body);
        NamedWithout(partial.bodies, b.partial, headers, w.at);
      } else {
        NamedShrink(partial.bodies, b.partial, headers, node.body);
        NamedWithout(full.bodies, b.full, headers, w.at);
      }
      Unlink(node, w);
      headers := headers - {node.body};
    }

    /** lz_tlh_recycle_empty_slab; `released` tells whether the chunk went back to the VMM. */
    method RecycleEmpty(ghost b: Bin, node: Node<SlabHeader>, ghost w: Where) returns (released: bool)
      requires Valid() && Names(b) && Shape(b) && At(node, w)
      modifies this`current, this`headers
      modifies partial`head, partial`items, partial`bodies, partial.items`next, partial.items`prev
      modifies full`head, full`items, full`bodies, full.items`next, full.items`prev
      ensures Valid() && Names(Recycle(b, node.body.chunk))
      ensures released <==> !(b.current == Some(node.body.chunk) && b.partial == [])
      ensures headers == if released then old(headers) - {node.body} else old(headers)
    {
      AtHeader(b, node, w);
      released := node != current || partial.head != null;
      if node != current {
        RecycleListed(b, node, w);
      } else if partial.head != null {
        RecycleCurrent(b, node);
      }
    }

    /** The header of a slab of the bin is one of its headers, and is that of its chunk. */
    lemma AtHeader(b: Bin, node: Node<SlabHeader>, w: Where)
      requires Valid() && Names(b) && Shape(b) && At(node, w)
      ensures node.body in headers && node.body.chunk in b.slabs
      ensures w.Now? <==> b.current == Some(node.body.chunk)
      ensures w.InPartial? <==> node.body.chunk in b.partial
      ensures w.InFull? <==> node.body.chunk in b.full
    {
      match w
      case Now =>
      case InPartial(at) => assert node.body == partial.bodies[at] && b.partial[at] in b.partial;
      case InFull(at) => assert node.body == full.bodies[at] && b.full[at] in b.full;
    }

    /** A slab that was full before the push is rescued. */
    method RescueIfFull(ghost b: Bin, node: Node<SlabHeader>, ghost w: Where) returns (ghost w': Where)
      requires Valid() && Names(b) && Shape(b) && At(node, w) && Holds(node.body, b.slabs)
      requires node.body.used == node.body.max - 1 ==> !w.InPartial?
      requires node.body.used < node.body.max - 1 ==> !w.InFull?
      modifies partial`head, partial`items, partial`bodies, partial.items`prev
      modifies full`head, full`items, full`bodies, full.items`next, full.items`prev
      ensures Valid() && Names(Rescued(b, node.body.chunk)) && At(node, w')
      ensures node.body.used <= node.body.max - 1 ==> !w'.InFull?
      ensures partial.items == old(partial.items) || (partial.items == [node] + old(partial.items) && node in old(full.items))
      ensures forall x :: x in full.items ==> x in old(full.items)
    {
      AtHeader(b, node, w);
      w' := w;
      if node.body.used == node.body.max - 1 { w' := RescueFromFull(b, node, w); }
    }

    /** What follows the push: a slab that was full is rescued, one that became empty is recycled. */
    method SettleSlab(ghost b: Bin, node: Node<SlabHeader>, ghost w: Where) returns (released: bool)
      requires Valid() && Names(b) && Shape(b) && At(node, w) && Holds(node.body, b.slabs) && node.body.max >= 2
      requires node.body.used == node.body.max - 1 ==> !w.InPartial?
      requires node.body.used < node.body.max - 1 ==> !w.InFull?
      requires Shape(Rescued(b, node.body.chunk))
      modifies this`current, this`headers
      modifies partial`head, partial`items, partial`bodies, partial.items`next, partial.items`prev
      modifies full`head, full`items, full`bodies, full.items`next, full.items`prev
      ensures Valid() && Names(Settle(b, node.body.chunk))
      ensures headers == if released then old(headers) - {node.body} else old(headers)
      ensures Settle(b, node.body.chunk).slabs == if released then b.slabs - {node.body.chunk} else b.slabs
    {
      SettleCases(b, node.body.chunk);
      ghost var w' := RescueIfFull(b, node, w);
      released := false;
      assert forall k :: 0 <= k < |full.items| ==> full.items[k] in old(full.items);
      assert forall k :: 0 <= k < |partial.items| ==> partial.items[k] in old(partial.items + full.items);
      if node.body.used == 0 { released := RecycleEmpty(Rescued(b, node.body.chunk), node, w'); }
    }

    method SettleHeld(ghost b: Bin, node: Node<SlabHeader>, ghost w: Where) returns (released: bool)
      requires Valid() && Names(b) && Shape(b) && At(node, w) && Hold(headers, b.slabs) && node.body in headers
      requires Holds(node.body, b.slabs) && node.body.max >= 2 && Shape(Rescued(b, node.body.chunk))
      requires node.body.used == node.body.max - 1 ==> !w.InPartial?
      requires node.body.used < node.body.max - 1 ==> !w.InFull?
      modifies this`current, this`headers
      modifies partial`head, partial`items, partial`bodies, partial.items`next, partial.items`prev
      modifies full`head, full`items, full`bodies, full.items`next, full.items`prev
      ensures Valid() && Names(Settle(b, node.body.chunk)) && Hold(headers, Settle(b, node.body.chunk).slabs)
      ensures released <==> node.body.chunk !in Settle(b, node.body.chunk).slabs
    {
      ghost var was := headers;
      released := SettleSlab(b, node, w);
      forall x | x in was ensures Holds(x, b.slabs) { assert old(Holds(x, b.slabs)); }
      if released { HoldShrink(was, b.slabs, node.body); }
    }

    /** The header's side of a free. */
    method GiveBack(ghost b: Bin, x: SlabHeader, ptr: nat, ghost k: nat)
      requires Valid() && Names(b) && Hold(headers, b.slabs) && x in headers && InUse(b, x.chunk, k)
      requires ptr == Addr(x.chunk, size, k)
      modifies x
      ensures Valid() && Names(b) && Hold(headers, b.slabs[x.chunk := PushFree(b.slabs[x.chunk], k)])
    {
      x.Push(ptr, k);
      forall y | y in headers ensures Holds(y, b.slabs[x.chunk := PushFree(b.slabs[x.chunk], k)]) {
        if y != x { assert y.chunk != x.chunk && old(Holds(y, b.slabs)); }
      }
    }

    /** Owner's free of block `k` (src/tlh/tlh.c:293-311), and one turn of the reap loop on a slab block. */
    method Free(ghost b: Bin, node: Node<SlabHeader>, ghost w: Where, ptr: nat, ghost k: nat) returns (released: bool)
      requires Valid() && Names(b) && Hold(headers, b.slabs) && BinInv(b) && At(node, w)
      requires InUse(b, node.body.chunk, k) && ptr == Addr(node.body.chunk, size, k)
      modifies this`current, this`headers, node.body
      modifies partial`head, partial`items, partial`bodies, partial.items`next, partial.items`prev
      modifies full`head, full`items, full`bodies, full.items`next, full.items`prev
      ensures Valid() && Names(FreeBlock(b, node.body.chunk, k)) && Hold(headers, FreeBlock(b, node.body.chunk, k).slabs)
      ensures released <==> node.body.chunk !in FreeBlock(b, node.body.chunk, k).slabs
    {
      ghost var c := node.body.chunk;
      AtHeader(b, node, w);
      FreeFacts(b, c, k);
      GiveBack(b, node.body, ptr, k);
      ghost var b1 := b.(slabs := b.slabs[c := PushFree(b.slabs[c], k)]);
      assert Holds(node.body, b1.slabs);
      released := SettleHeld(b1, node, w);
    }

    // ---- Allocating ---------------------------------------------------------------------------

    ghost function Body(): set<SlabHeader>
      reads this
    {
      if current == null then {} else {current.body}
    }

    /** Pops the free list of header `x`. */
    method TakeFree(ghost b: Bin, x: SlabHeader) returns (ptr: nat)
      requires Valid() && Names(b) && Hold(headers, b.slabs) && x in headers && x.head != 0
      modifies x`head, x`used, x`free
      ensures b.slabs[x.chunk].free != [] && ptr == Addr(x.chunk, size, b.slabs[x.chunk].free[0])
      ensures Valid() && Names(b) && Hold(headers, b.slabs[x.chunk := PopFree(b.slabs[x.chunk])])
    {
      assert Holds(x, b.slabs);
      ptr := x.Pop();
      forall y | y in headers ensures Holds(y, b.slabs[x.chunk := PopFree(b.slabs[x.chunk])]) {
        if y != x { assert y.chunk != x.chunk && old(Holds(y, b.slabs)); }
      }
    }

    /** The fast path of lz_tlh_alloc. */
    method TryFast(ghost b: Bin) returns (ptr: nat)
      requires Valid() && Names(b) && Hold(headers, b.slabs)
      modifies Body()`head, Body()`used, Body()`free
      ensures Valid() && current == old(current) && (ptr == 0 <==> AllocFast(b).None?)
      ensures ptr == 0 ==> Names(b) && Hold(headers, b.slabs)
      ensures ptr != 0 ==> Took(AllocFast(b).value, ptr)
    {
      if current == null { return 0; }
      assert Holds(current.body, b.slabs);
      HeadNull(current.body);
      if current.body.head == 0 { return 0; }
      ptr := TakeFree(b, current.body);
    }

    /** Carves the next block of header `x`, or clears its cursor once every block is carved. */
    method CarveFrom(ghost b: Bin, x: SlabHeader) returns (ptr: nat)
      requires Valid() && Names(b) && Hold(headers, b.slabs) && x in headers && x.bump != 0
      modifies x`bump, x`used, x`carved
      ensures Valid() && Names(b)
      ensures var s := b.slabs[x.chunk];
              if s.carved < s.max then
                && ptr == Addr(x.chunk, size, s.carved)
                && Hold(headers, b.slabs[x.chunk := s.(carved := s.carved + 1, used := s.used + 1)])
              else ptr == 0 && Hold(headers, b.slabs[x.chunk := s.(cursor := false)])
    {
      ghost var s := b.slabs[x.chunk];
      assert Holds(x, b.slabs);
      ptr := x.Carve();
      ghost var s' := x.View();
      forall y | y in headers ensures Holds(y, b.slabs[x.chunk := s']) {
        if y != x { assert y.chunk != x.chunk && old(Holds(y, b.slabs)); }
      }
    }

    /** The warm path of lz_tlh_alloc, after the mailbox was drained. */
    method TryWarm(ghost b: Bin) returns (ptr: nat)
      requires Valid() && Names(b) && Hold(headers, b.slabs)
      modifies Body()`bump, Body()`head, Body()`used, Body()`carved, Body()`free
      ensures Valid() && current == old(current) && (ptr == 0 <==> AllocWarm(b).1.None?)
      ensures ptr == 0 ==> Names(AllocWarm(b).0) && Hold(headers, AllocWarm(b).0.slabs)
      ensures ptr != 0 ==> Took(AllocWarm(b).1.value, ptr)
    {
      ptr := TryFast(b);
      if ptr == 0 { ptr := TryBump(b); }
    }

    /** The bump allocation of the warm path, once the free list was found empty. */
    method TryBump(ghost b: Bin) returns (ptr: nat)
      requires Valid() && Names(b) && Hold(headers, b.slabs) && AllocFast(b).None?
      modifies Body()`bump, Body()`head, Body()`used, Body()`carved, Body()`free
      ensures Valid() && current == old(current) && (ptr == 0 <==> AllocWarm(b).1.None?)
      ensures ptr == 0 ==> Names(AllocWarm(b).0) && Hold(headers, AllocWarm(b).0.slabs)
      ensures ptr != 0 ==> Took(AllocWarm(b).1.value, ptr)
    {
      ptr := 0;
      if current != null {
        assert Holds(current.body, b.slabs);
        if current.body.bump != 0 { ptr := CarveFrom(b, current.body); }
      }
    }

    /** The current slab, if any, is retired to the full list. */
    method RetireCurrent(ghost b: Bin)
      requires Valid() && Names(b) && Hold(headers, b.slabs)
      modifies this`current, full`head, full`items, full`bodies, full.items`prev
      modifies (if current == null then {} else {current})`next, (if current == null then {} else {current})`prev
      ensures Valid() && current == null && Names(Retire(b)) && Hold(headers, b.slabs)
    {
      if current != null { NamedCons(current.body, full.bodies, b.full, headers); }
      CurrentToFull();
      forall x | x in headers ensures Holds(x, b.slabs) { assert old(Holds(x, b.slabs)); }
    }

    /** The first partial slab becomes the current one. */
    method PromoteFirst(ghost b: Bin)
      requires Valid() && Names(b) && Hold(headers, b.slabs) && b.partial != []
      modifies this`current, partial`head, partial`items, partial`bodies, partial.items`next, partial.items`prev
      ensures Valid() && current != null && Hold(headers, b.slabs)
      ensures Names(b.(current := Some(b.partial[0]), partial := b.partial[1..]))
    {
      NamedTail(partial.bodies, b.partial, headers);
      PartialToCurrent();
      forall x | x in headers ensures Holds(x, b.slabs) { assert old(Holds(x, b.slabs)); }
    }

    /** A new slab becomes the current one. */
    method Install(ghost b: Bin, slab: SlabHeader)
      requires Valid() && Names(b) && Hold(headers, b.slabs) && current == null
      requires slab.Valid() && slab.size == size && slab.chunk !in b.slabs
      modifies this`current, this`headers
      ensures Valid() && Names(b.(current := Some(slab.chunk))) && Hold(headers, b.slabs[slab.chunk := slab.View()])
    {
      forall y | y in headers ensures y.chunk != slab.chunk && Holds(y, b.slabs[slab.chunk := slab.View()]) {
        assert Holds(y, b.slabs);
      }
      current := new Node(slab);
      headers := headers + {slab};
    }

    /** The slow path's promotion of the first partial slab. */
    method AllocFromLists(ghost b: Bin) returns (ptr: nat)
      requires Valid() && Names(b) && Hold(headers, b.slabs) && b.partial != [] && PartialServes(b)
      modifies this`current, headers`head, headers`used, headers`free
      modifies partial`head, partial`items, partial`bodies, partial.items`next, partial.items`prev
      modifies full`head, full`items, full`bodies, full.items`prev
      modifies (if current == null then {} else {current})`next, (if current == null then {} else {current})`prev
      ensures Valid() && Took(Promote(b, b.partial[0]), ptr)
    {
      RetireCurrent(b);
      PromoteFirst(Retire(b));
      ghost var b' := Retire(b).(current := Some(b.partial[0]), partial := b.partial[1..]);
      assert current.body.chunk == b.partial[0] && Holds(current.body, b'.slabs);
      HeadNull(current.body);
      ptr := TakeFree(b', current.body);
    }

    /** The slow path's new slab. */
    method AllocFromChunk(ghost b: Bin, chunk: nat) returns (ptr: nat)
      requires Valid() && Names(b) && Hold(headers, b.slabs) && chunk >= 1 && chunk !in b.slabs
      modifies this`current, this`headers
      modifies full`head, full`items, full`bodies, full.items`prev
      modifies (if current == null then {} else {current})`next, (if current == null then {} else {current})`prev
      ensures Valid() && Took(Format(b, chunk, Capacity(size)), ptr)
    {
      RetireCurrent(b);
      var slab;
      slab, ptr := CreateSlab(chunk, size, secret);
      Install(Retire(b), slab);
    }

    /** lz_tlh_alloc_slow: `spare` is what the VMM answers if it is asked for a chunk. */
    method AllocCold(ghost b: Bin, spare: Option<nat>) returns (ptr: nat)
      requires Valid() && Names(b) && Hold(headers, b.slabs) && PartialServes(b)
      requires spare.Some? ==> spare.value >= 1 && spare.value !in b.slabs
      modifies this`current, this`headers, headers`head, headers`used, headers`free
      modifies partial`head, partial`items, partial`bodies, partial.items`next, partial.items`prev
      modifies full`head, full`items, full`bodies, full.items`prev
      modifies (if current == null then {} else {current})`next, (if current == null then {} else {current})`prev
      ensures Valid()
      ensures AllocSlow(b, spare, Capacity(size)).None? ==> ptr == 0 && Names(b) && Hold(headers, b.slabs)
      ensures AllocSlow(b, spare, Capacity(size)).Some? ==> Took(AllocSlow(b, spare, Capacity(size)).value, ptr)
    {
      if partial.head != null {
        ptr := AllocFromLists(b);
      } else if spare.Some? {
        ptr := AllocFromChunk(b, spare.value);
      } else {
        ptr := 0;
      }
    }

    /** The rest of lz_tlh_alloc once the mailbox was drained. */
    method FinishAlloc(ghost b: Bin, spare: Option<nat>) returns (ptr: nat)
      requires Valid() && Names(b) && Hold(headers, b.slabs) && BinInv(b)
      requires spare.Some? ==> spare.value >= 1 && spare.value !in b.slabs
      modifies this`current, this`headers, headers`head, headers`used, headers`free
      modifies partial`head, partial`items, partial`bodies, partial.items`next, partial.items`prev
      modifies full`head, full`items, full`bodies, full.items`prev
      modifies (if current == null then {} else {current})`next, (if current == null then {} else {current})`prev
      modifies Body()`bump, Body()`head, Body()`used, Body()`carved, Body()`free
      ensures Valid()
      ensures Finished(b, spare, Capacity(size)).1.None? ==>
                && ptr == 0 && Names(Finished(b, spare, Capacity(size)).0)
                && Hold(headers, Finished(b, spare, Capacity(size)).0.slabs)
      ensures Finished(b, spare, Capacity(size)).1.Some? ==> Took(Finished(b, spare, Capacity(size)).1.value, ptr)
    {
      AllocWarmTakes(b);
      ptr := TryWarm(b);
      if ptr == 0 {
        ghost var b1 := AllocWarm(b).0;
        if b1.partial != [] { PartialCanServe(b1); }
        ptr := AllocCold(b1, spare);
      }
    }

    /** The bin is that of `t` and `ptr` the address of its block. */
    ghost predicate Took(t: Taken, ptr: nat)
      reads this, partial, full, headers
    {
      Names(t.bin) && Hold(headers, t.bin.slabs) && ptr == Addr(t.chunk, size, t.slot)
    }
  }

  /** lz_slab_create and the first block of the new slab. */
  method CreateSlab(chunk: nat, size: nat, secret: nat) returns (slab: SlabHeader, ptr: nat)
    requires chunk >= 1 && size >= 1
    ensures fresh(slab) && slab.Valid() && slab.chunk == chunk && slab.size == size && ptr == Addr(chunk, size, 0)
    ensures slab.View() == Slab(Capacity(size), 1, true, [], 1)
  {
    slab := new SlabHeader(chunk, size, secret);
    ptr := slab.First();
  }

  function Rescued(b: Bin, c: nat): Bin
    requires c in b.slabs
  {
    if b.slabs[c].used == b.slabs[c].max - 1 then Rescue(b, c) else b
  }

  lemma SettleCases(b: Bin, c: nat)
    requires c in b.slabs
    ensures var b' := Rescued(b, c);
            && Settle(b, c) == (if b.slabs[c].used == 0 then Recycle(b', c) else b')
            && b'.current == b.current && b'.slabs == b.slabs
            && Recycle(b', c).slabs == if b.current == Some(c) && b'.partial == [] then b.slabs else b.slabs - {c}
  {}

  ghost predicate Holds(x: SlabHeader, slabs: map<nat, Slab>)
    reads x
  {
    x.Valid() && x.chunk in slabs && x.View() == slabs[x.chunk]
  }

  lemma HoldShrink(headers: set<SlabHeader>, slabs: map<nat, Slab>, x: SlabHeader)
    requires Hold(headers, slabs) && Distinct(headers) && x in headers
    ensures Hold(headers - {x}, slabs - {x.chunk})
  {
    forall y | y in headers - {x} ensures Holds(y, slabs - {x.chunk}) { assert Holds(y, slabs); }
  }

  /** What the invariant says at a free: the rescued slab was full, the recycled one was not, and each slab has at
      least two blocks. */
  lemma FreeFacts(b: Bin, c: nat, k: nat)
    requires BinInv(b) && InUse(b, c, k)
    ensures var b1 := b.(slabs := b.slabs[c := PushFree(b.slabs[c], k)]);
            && Shape(b1) && b.slabs[c].max >= 2
            && (b1.slabs[c].used == b1.slabs[c].max - 1 ==> c !in b.partial) && Shape(Rescued(b1, c))
            && (b1.slabs[c].used < b1.slabs[c].max - 1 ==> c !in b.full)
  {
    PushFreeOk(b.slabs[c], k);
    PushedAlmost(b, c, k);
    var b1 := b.(slabs := b.slabs[c := PushFree(b.slabs[c], k)]);
    if b1.slabs[c].used == b1.slabs[c].max - 1 { RescueOk(b1, c); }
  }

  lemma NamedWithout(bodies: seq<SlabHeader>, list: seq<nat>, headers: set<SlabHeader>, at: nat)
    requires Named(bodies, list, headers) && NoDup(list) && at < |list|
    ensures Named(bodies[..at] + bodies[at + 1..], Without(list, bodies[at].chunk), headers - {bodies[at]})
  {
    WithoutAt(list, at);
    var rest, left := bodies[..at] + bodies[at + 1..], list[..at] + list[at + 1..];
    forall k | 0 <= k < |rest| ensures rest[k].chunk == left[k] && rest[k] in headers - {bodies[at]} {
      var j := if k < at then k else k + 1;
      assert rest[k] == bodies[j] && left[k] == list[j] && list[j] != list[at];
    }
  }

  lemma NamedShrink(bodies: seq<SlabHeader>, list: seq<nat>, headers: set<SlabHeader>, x: SlabHeader)
    requires Named(bodies, list, headers) && x.chunk !in list
    ensures Named(bodies, list, headers - {x}) && Without(list, x.chunk) == list
  {
    WithoutAbsent(list, x.chunk);
  }

  lemma {:induction false} WithoutAbsent(list: seq<nat>, c: nat)
    requires c !in list
    ensures Without(list, c) == list
  {
    if list != [] { WithoutAbsent(list[1..], c); }
  }

  lemma NamedTail(bodies: seq<SlabHeader>, list: seq<nat>, headers: set<SlabHeader>)
    requires Named(bodies, list, headers) && list != []
    ensures Named(bodies[1..], list[1..], headers) && bodies[0].chunk == list[0] && bodies[0] in headers
  {}

  lemma NamedCons(x: SlabHeader, bodies: seq<SlabHeader>, list: seq<nat>, headers: set<SlabHeader>)
    requires Named(bodies, list, headers) && x in headers
    ensures Named([x] + bodies, [x.chunk] + list, headers)
  {}
}
