/** The bytes of blocks in every run of the free protocol: extents of handed-out blocks never overlap, never move,
    and the protocol writes its links into returned blocks only. */
module BlockBytes {
  import opened Common
  import opened ThreadHeap
  import opened Interleaving
  import opened Extents
  import P = ProtocolRuns
  import Linearization
  import L = RemoteFree
  import Sizes
  import Bits

  // ---- The heap a step changes -------------------------------------------------------------

  /** The heap of thread `a.t` after the step. */
  ghost function NewHeap(c: Sys, a: Action): Heap
    requires Guard(c, a) && Safe(c, a)
  {
    match a
    case Start(t) => EmptyHeap()
    case Scribble(_, _) => EmptyHeap()
    case AllocFast(t, sc) => Popped(c, t, sc).value.0
    case ReapNode(t, _) => TakeBack(c.tlhs[t].heap, c.tlhs[t].pc.cursor.value)
    case ReapDone(t, spare) =>
      (match c.tlhs[t].pc.sc
       case Some(sc) => FinishAlloc(c.tlhs[t].heap, sc, spare).0
       case None => c.tlhs[t].heap)
    case AllocPages(t, n, spare) => SpanBlock(c.tlhs[t].heap, n, spare).0
    case FreeLocal(t, b, _) => TakeBack(c.tlhs[t].heap, b)
    case _ => c.tlhs[a.t].heap
  }

  lemma HeapsAfter(c: Sys, a: Action, u: nat)
    requires Guard(c, a) && Safe(c, a)
    ensures u in Apply(c, a).tlhs <==> u in c.tlhs || a == Start(u)
    ensures u in Apply(c, a).tlhs ==>
              Apply(c, a).tlhs[u].heap == if !a.Scribble? && u == a.t then NewHeap(c, a) else c.tlhs[u].heap
  {
    if a.Cas? { assert TargetExists(c, a.t); }
  }

  lemma SpareIsForeign(c: Sys, s: L.Ledger, a: Action)
    requires Linearization.Rel(c, s) && Guard(c, a) && (a.ReapDone? || a.AllocPages?)
    ensures HeapInv(c.tlhs[a.t].heap) && (a.spare.Some? ==> a.spare.value !in c.tlhs[a.t].heap.kinds)
  {
    Linearization.RelAt(c, s, a.t);
  }

  // ---- What each step does to its heap ----------------------------------------------------------

  /** Capacities stay right, and blocks that stay out keep their extents. */
  ghost predicate Sound(h: Heap, h': Heap) {
    (HeapSized(h) ==> HeapSized(h')) && SameExtents(h, h')
  }

  lemma FastSound(h: Heap, sc: nat)
    requires HeapInv(h) && sc < 40 && FastBlock(h, sc).Some?
    ensures Sound(h, FastBlock(h, sc).value.0)
  {
    if HeapSized(h) { FastBlockSized(h, sc); }
    FastExtents(h, sc);
  }

  lemma FinishSound(h: Heap, sc: nat, spare: Option<nat>)
    requires HeapInv(h) && sc < 40 && (spare.Some? ==> spare.value !in h.kinds) && Sizes.ClassToSize(sc) > 0
    ensures Sound(h, FinishAlloc(h, sc, spare).0)
  {
    if HeapSized(h) { FinishSized(h, sc, spare); }
    FinishExtents(h, sc, spare);
  }

  lemma PagesSound(h: Heap, n: nat, spare: Option<nat>)
    requires HeapInv(h) && n >= 1 && (spare.Some? ==> spare.value !in h.kinds)
    ensures Sound(h, SpanBlock(h, n, spare).0)
  {
    if HeapSized(h) { SpanBlockSized(h, n, spare); }
    SpanExtents(h, n, spare);
  }

  lemma BackSound(h: Heap, b: Block)
    requires HeapInv(h) && Out(h, b)
    ensures Sound(h, TakeBack(h, b))
  {
    if HeapSized(h) { TakeBackSized(h, b); }
    TakeBackExtents(h, b);
  }

  /** A reap pass was started by an allocation of a slab class. */
  lemma ReapClass(c: Sys, s: L.Ledger, t: nat)
    requires Linearization.Rel(c, s) && t in c.tlhs && c.tlhs[t].pc.Reaping? && c.tlhs[t].pc.sc.Some?
    ensures c.tlhs[t].pc.sc.value < 40
  {
    Linearization.RelAt(c, s, t);
    ReapingClass(c.mem, c.tlhs[t], s.tlhs[t]);
  }

  lemma ReapingClass(mem: Memory, x: Thread, q: L.Queues)
    requires Linearization.QueueRel(mem, x, q) && x.pc.Reaping? && x.pc.sc.Some?
    ensures x.pc.sc.value < 40
  {}

  lemma DoneSound(c: Sys, s: L.Ledger, a: Action)
    requires Linearization.Rel(c, s) && Guard(c, a) && Safe(c, a) && a.ReapDone?
    ensures Sound(c.tlhs[a.t].heap, NewHeap(c, a))
  {
    SpareIsForeign(c, s, a);
    if c.tlhs[a.t].pc.sc.Some? {
      ReapClass(c, s, a.t);
      FinishSound(c.tlhs[a.t].heap, c.tlhs[a.t].pc.sc.value, a.spare);
    }
  }

  lemma HeapOk(c: Sys, s: L.Ledger, t: nat)
    requires Linearization.Rel(c, s) && t in c.tlhs
    ensures HeapInv(c.tlhs[t].heap)
  {
    Linearization.RelAt(c, s, t);
  }

  lemma FastStep(c: Sys, s: L.Ledger, a: Action)
    requires Linearization.Rel(c, s) && Guard(c, a) && Safe(c, a) && a.AllocFast?
    ensures Sound(c.tlhs[a.t].heap, NewHeap(c, a))
  {
    HeapOk(c, s, a.t);
    FastSound(c.tlhs[a.t].heap, a.sc);
  }

  lemma PagesStep(c: Sys, s: L.Ledger, a: Action)
    requires Linearization.Rel(c, s) && Guard(c, a) && Safe(c, a) && a.AllocPages?
    ensures Sound(c.tlhs[a.t].heap, NewHeap(c, a))
  {
    SpareIsForeign(c, s, a);
    PagesSound(c.tlhs[a.t].heap, a.pages, a.spare);
  }

  lemma BackStep(c: Sys, a: Action)
    requires Guard(c, a) && Safe(c, a) && (a.ReapNode? || a.FreeLocal?)
    ensures Sound(c.tlhs[a.t].heap, NewHeap(c, a))
  {
    BackSound(c.tlhs[a.t].heap, if a.ReapNode? then c.tlhs[a.t].pc.cursor.value else a.b);
  }

  /** The step takes a block from its heap or gives one back. */
  predicate OnHeap(a: Action) {
    a.AllocFast? || a.ReapNode? || a.ReapDone? || a.AllocPages? || a.FreeLocal?
  }

  lemma OffHeap(c: Sys, a: Action)
    requires Guard(c, a) && Safe(c, a) && !OnHeap(a) && !a.Scribble? && !a.Start?
    ensures a.t in c.tlhs && NewHeap(c, a) == c.tlhs[a.t].heap
  {}

  lemma StepSound(c: Sys, s: L.Ledger, a: Action)
    requires Linearization.Rel(c, s) && Guard(c, a) && Safe(c, a) && !a.Scribble? && !a.Start?
    ensures a.t in c.tlhs && Sound(c.tlhs[a.t].heap, NewHeap(c, a))
  {
    if a.AllocFast? { FastStep(c, s, a); }
    else if a.AllocPages? { PagesStep(c, s, a); }
    else if a.ReapDone? { DoneSound(c, s, a); }
    else if a.ReapNode? || a.FreeLocal? { BackStep(c, a); }
    else { OffHeap(c, a); }
  }

  // ---- Capacities in every run ----------------------------------------------------------------

  ghost predicate AllSized(c: Sys) {
    forall t :: t in c.tlhs ==> HeapSized(c.tlhs[t].heap)
  }

  lemma SizedStep(c: Sys, s: L.Ledger, a: Action)
    requires Linearization.Rel(c, s) && Guard(c, a) && Safe(c, a) && AllSized(c)
    ensures AllSized(Apply(c, a))
  {
    if !a.Scribble? && !a.Start? { StepSound(c, s, a); }
    forall u | u in Apply(c, a).tlhs ensures HeapSized(Apply(c, a).tlhs[u].heap) { HeapsAfter(c, a, u); }
  }

  lemma {:induction false} RunSized(c: Sys, s: L.Ledger, acts: seq<Action>, c': Sys)
    requires Linearization.Rel(c, s) && AllSized(c) && P.Exec(c, acts) == Some(c')
    ensures AllSized(c')
    decreases |acts|
  {
    if acts != [] {
      SizedStep(c, s, acts[0]);
      var s1 := P.Step(c, s, acts[0]);
      RunSized(Apply(c, acts[0]), s1, acts[1..], c');
    }
  }

  /** In every run the slabs of every heap have exactly the capacity that fits their chunk. */
  lemma EveryHeapSized(c: Sys)
    requires P.Reachable(c)
    ensures AllSized(c)
  {
    var acts :| P.Exec(Initial, acts) == Some(c);
    P.InitialRel();
    RunSized(Initial, L.Ledger(map[], map[], map[]), acts, c);
  }

  // ---- Extents in every run ----------------------------------------------------------------------

  function HeapOf(c: Sys, b: Block): Heap
    requires Outstanding(c, b)
  {
    c.tlhs[c.owner[b.chunk]].heap
  }

  /** Byte `x` belongs to block `b`. */
  predicate InBlock(c: Sys, b: Block, x: nat) {
    Outstanding(c, b) && Begin(HeapOf(c, b), b) <= x < Begin(HeapOf(c, b), b) + Len(HeapOf(c, b), b)
  }

  lemma OutIn(c: Sys, b: Block)
    requires P.Reachable(c) && Outstanding(c, b)
    ensures HeapInv(HeapOf(c, b)) && HeapSized(HeapOf(c, b)) && Out(HeapOf(c, b), b)
  {
    var s := P.EveryRun(c);
    Linearization.RelAt(c, s, c.owner[b.chunk]);
    EveryHeapSized(c);
  }

  /** In every run a block that is out lies inside its own chunk, behind chunk, slab and span headers, and is at least
      as large as the link that a free writes into it. */
  lemma BlockInside(c: Sys, b: Block)
    requires P.Reachable(c) && Outstanding(c, b)
    ensures b.chunk * CHUNK + Prefix(HeapOf(c, b).kinds[b.chunk]) <= Begin(HeapOf(c, b), b)
    ensures Begin(HeapOf(c, b), b) + Len(HeapOf(c, b), b) <= (b.chunk + 1) * CHUNK && Len(HeapOf(c, b), b) >= 16
  {
    OutIn(c, b);
    InsideChunk(HeapOf(c, b), b);
  }

  /** In every run no byte belongs to two blocks that are out, whatever heaps they belong to. */
  lemma BlocksApart(c: Sys, b: Block, d: Block, x: nat)
    requires P.Reachable(c) && InBlock(c, b, x) && InBlock(c, d, x)
    ensures b == d
  {
    BlockInside(c, b);
    BlockInside(c, d);
    if b.chunk != d.chunk {
      ChunksApart(b.chunk, d.chunk);
    } else if b != d {
      OutIn(c, b);
      OutIn(c, d);
      HeapApart(HeapOf(c, b), b, d);
    }
  }

  // ---- Extents do not move ---------------------------------------------------------------------------

  /** A block that stays out keeps its owner, its address and its length. */
  lemma ExtentKept(c: Sys, a: Action, b: Block)
    requires P.Reachable(c) && Guard(c, a) && Safe(c, a) && Outstanding(c, b) && Outstanding(Apply(c, a), b)
    ensures Apply(c, a).owner[b.chunk] == c.owner[b.chunk]
    ensures SameExtent(HeapOf(c, b), HeapOf(Apply(c, a), b), b)
  {
    var s := P.EveryRun(c);
    var t := c.owner[b.chunk];
    OwnerKept(c, a, b.chunk);
    HeapsAfter(c, a, t);
    Linearization.RelAt(c, s, t);
    if !a.Scribble? && a.t == t { StepSound(c, s, a); }
  }

  /** A chunk that has an owner keeps it until it is released. */
  lemma OwnerKept(c: Sys, a: Action, ch: nat)
    requires P.Reachable(c) && Guard(c, a) && Safe(c, a) && ch in c.owner && ch in Apply(c, a).owner
    ensures Apply(c, a).owner[ch] == c.owner[ch]
  {
    var s := P.EveryRun(c);
    var u := c.owner[ch];
    OwnerIsOld(c, a, ch);
    if a.Scribble? || a.t != u {
      OwnedKind(c, s, ch);
      HeapsAfter(c, a, u);
      var s' := P.Step(c, s, a);
      KindOwned(Apply(c, a), s', u, ch);
    }
  }

  lemma OwnerIsOld(c: Sys, a: Action, ch: nat)
    requires Guard(c, a) && Safe(c, a) && ch in c.owner && ch in Apply(c, a).owner
    ensures Apply(c, a).owner[ch] == c.owner[ch] || (!a.Scribble? && Apply(c, a).owner[ch] == a.t)
  {}

  lemma OwnedKind(c: Sys, s: L.Ledger, ch: nat)
    requires Linearization.Rel(c, s) && ch in c.owner
    ensures c.owner[ch] in c.tlhs && ch in c.tlhs[c.owner[ch]].heap.kinds
  {
    assert c.owner[ch] in s.tlhs;
    Linearization.RelAt(c, s, c.owner[ch]);
  }

  lemma KindOwned(c: Sys, s: L.Ledger, t: nat, ch: nat)
    requires Linearization.Rel(c, s) && t in c.tlhs && ch in c.tlhs[t].heap.kinds
    ensures ch in c.owner && c.owner[ch] == t
  {
    Linearization.RelAt(c, s, t);
  }

  // ---- Where links are written -----------------------------------------------------------------------

  /** A link is written only into a block that is out and that no client keeps: never into a free-listed block, an
      uncarved slot or a released chunk. */
  lemma LinksInReturned(c: Sys, a: Action, b: Block)
    requires P.Reachable(c) && Guard(c, a) && Safe(c, a) && !a.Scribble? && P.Written(c, a) == Some(b)
    ensures Outstanding(c, b) && b !in Apply(c, a).live
  {
    var s := P.EveryRun(c);
    P.OutstandingInLedger(c, s, b);
    if a.FreeLocal? || a.FreeRemote? {
      P.FreedIsNotLive(c, a);
      assert L.At(s.loc, b, L.Client);
    } else {
      P.WrittenIsNotLive(c, s, a);
      LinkedIsOut(c, s, a, b);
    }
  }

  lemma LinkedIsOut(c: Sys, s: L.Ledger, a: Action, b: Block)
    requires Linearization.Rel(c, s) && Guard(c, a) && Safe(c, a) && (a.ReapNode? || a.LinkTail? || a.AppendHeld?)
    requires P.Written(c, a) == Some(b)
    ensures b in s.loc && (b !in c.live ==> b !in Apply(c, a).live)
  {
    Linearization.RelAt(c, s, a.t);
    if a.LinkTail? {
      P.TailIsBatched(c.mem, c.tlhs[a.t], s, a.t);
    } else if a.AppendHeld? {
      P.HeldFacts(c.mem, s, a.t, c.tlhs[a.t]);
    } else {
      Linearization.ReapFacts(c, s, a.t);
    }
  }

  // ---- Every byte a step may write ---------------------------------------------------------------------

  const LINK_BYTES: nat := 8

  function SpareOf(a: Action): Option<nat> {
    if a.ReapDone? || a.AllocPages? then a.spare else None
  }

  /** Byte `x` is in the headers of a chunk of heap `t`. */
  predicate InHeader(c: Sys, t: nat, x: nat) {
    && x / CHUNK in c.owner && c.owner[x / CHUNK] == t && t in c.tlhs && x / CHUNK in c.tlhs[t].heap.kinds
    && x % CHUNK < Prefix(c.tlhs[t].heap.kinds[x / CHUNK])
  }

  /** Byte `x` is in the first word of block `b`, where a link goes. */
  predicate InLink(c: Sys, b: Block, x: nat) {
    && b.chunk in c.owner && c.owner[b.chunk] in c.tlhs && b.chunk in c.tlhs[c.owner[b.chunk]].heap.kinds
    && var p := Begin(c.tlhs[c.owner[b.chunk]].heap, b);
       p <= x < p + LINK_BYTES
  }

  /** The bytes that a step may write: headers of its own heap's chunks, the link of the block it handles, a chunk it
      formats; for a client's write, the bytes of the block. */
  ghost predicate Touches(c: Sys, a: Action, x: nat)
    requires Guard(c, a) && Safe(c, a)
  {
    if a.Scribble? then InBlock(c, a.b, x)
    else
      || (OnHeap(a) && InHeader(c, a.t, x))
      || (P.Written(c, a).Some? && InLink(c, P.Written(c, a).value, x))
      || SpareOf(a) == Some(x / CHUNK)
  }

  lemma InChunk(ch: nat, x: nat)
    requires ch * CHUNK <= x < (ch + 1) * CHUNK
    ensures x / CHUNK == ch && x % CHUNK == x - ch * CHUNK
  {
    Bits.ModUnique(x, CHUNK, ch, x - ch * CHUNK);
  }

  /** A byte of a block is in the block's chunk and in no header. */
  lemma BlockByte(c: Sys, b: Block, x: nat)
    requires P.Reachable(c) && InBlock(c, b, x)
    ensures x / CHUNK == b.chunk && b.chunk in c.owner && forall t :: !InHeader(c, t, x)
  {
    BlockInside(c, b);
    InChunk(b.chunk, x);
  }

  /** The link of a returned block is inside the block. */
  lemma LinkInBlock(c: Sys, b: Block, x: nat)
    requires P.Reachable(c) && Outstanding(c, b) && InLink(c, b, x)
    ensures InBlock(c, b, x)
  {
    BlockInside(c, b);
  }

  /** In every run no step of the allocator writes a byte of a block that its client keeps. */
  lemma LiveBytesUntouched(c: Sys, a: Action, b: Block, x: nat)
    requires P.Reachable(c) && Guard(c, a) && Safe(c, a) && !a.Scribble? && Touches(c, a, x)
    requires b in c.live && b in Apply(c, a).live
    ensures !InBlock(c, b, x)
  {
    if InBlock(c, b, x) {
      BlockByte(c, b, x);
      if P.Written(c, a).Some? && InLink(c, P.Written(c, a).value, x) {
        LinksInReturned(c, a, P.Written(c, a).value);
        LinkInBlock(c, P.Written(c, a).value, x);
        BlocksApart(c, P.Written(c, a).value, b, x);
      }
    }
  }

  /** A step writes only into chunks that heaps own, and into the chunk it formats. */
  lemma TouchesChunks(c: Sys, a: Action, x: nat)
    requires P.Reachable(c) && Guard(c, a) && Safe(c, a) && Touches(c, a, x)
    ensures x / CHUNK in c.owner || SpareOf(a) == Some(x / CHUNK)
  {
    if a.Scribble? {
      BlockByte(c, a.b, x);
    } else if P.Written(c, a).Some? && InLink(c, P.Written(c, a).value, x) {
      LinksInReturned(c, a, P.Written(c, a).value);
      LinkInBlock(c, P.Written(c, a).value, x);
      BlockByte(c, P.Written(c, a).value, x);
    }
  }

  // ---- How chunks change hands ----------------------------------------------------------------------------

  /** The block that the step hands out. */
  ghost function Handed(c: Sys, a: Action): Option<Block>
    requires Guard(c, a) && Safe(c, a)
  {
    match a
    case AllocFast(t, sc) => Some(Popped(c, t, sc).value.1)
    case ReapDone(t, spare) =>
      (match c.tlhs[t].pc.sc
       case Some(sc) => FinishAlloc(c.tlhs[t].heap, sc, spare).1
       case None => None)
    case AllocPages(t, n, spare) => SpanBlock(c.tlhs[t].heap, n, spare).1
    case _ => None
  }

  lemma HandedChunk(c: Sys, s: L.Ledger, a: Action)
    requires Linearization.Rel(c, s) && Guard(c, a) && Safe(c, a) && Handed(c, a).Some?
    ensures Handed(c, a).value.chunk in c.tlhs[a.t].heap.kinds || SpareOf(a) == Some(Handed(c, a).value.chunk)
    ensures !Out(c.tlhs[a.t].heap, Handed(c, a).value)
  {
    if a.AllocFast? {
      HeapOk(c, s, a.t);
      FastChunk(c.tlhs[a.t].heap, a.sc);
    } else {
      SpareIsForeign(c, s, a);
      if a.ReapDone? {
        ReapClass(c, s, a.t);
        FinishChunk(c.tlhs[a.t].heap, c.tlhs[a.t].pc.sc.value, a.spare);
      } else {
        PagesChunk(c.tlhs[a.t].heap, a.pages, a.spare);
      }
    }
  }

  lemma OwnersAfter(c: Sys, a: Action, ch: nat)
    requires Guard(c, a) && Safe(c, a) && ch in Apply(c, a).owner && ch !in c.owner
    ensures Handed(c, a).Some? && Handed(c, a).value.chunk == ch
  {}

  /** A chunk joins the heaps only as the chunk that an allocation formats. */
  lemma OwnerGrows(c: Sys, a: Action, ch: nat)
    requires P.Reachable(c) && Guard(c, a) && Safe(c, a) && ch in Apply(c, a).owner && ch !in c.owner
    ensures SpareOf(a) == Some(ch)
  {
    var s := P.EveryRun(c);
    OwnersAfter(c, a, ch);
    HandedChunk(c, s, a);
    if ch in c.tlhs[a.t].heap.kinds { KindOwned(c, s, a.t, ch); }
  }

  /** What was handed out is live and out, with the kind and length of its engine. */
  lemma HandedIsLive(c: Sys, a: Action)
    requires P.Reachable(c) && Guard(c, a) && Safe(c, a) && Handed(c, a).Some?
    ensures Handed(c, a).value in Apply(c, a).live && Handed(c, a).value !in c.live
    ensures Outstanding(Apply(c, a), Handed(c, a).value) && !Outstanding(c, Handed(c, a).value)
    ensures HeapOf(Apply(c, a), Handed(c, a).value) == NewHeap(c, a)
  {
    var b := Handed(c, a).value;
    HandedOwner(c, a);
    HeapsAfter(c, a, a.t);
    var s := P.EveryRun(c);
    NotOutYet(c, s, a);
    var s' := P.Step(c, s, a);
    P.OutstandingInLedger(Apply(c, a), s', b);
    assert L.At(s'.loc, b, L.Client);
    P.OutstandingInLedger(c, s, b);
  }

  lemma HandedOwner(c: Sys, a: Action)
    requires Guard(c, a) && Safe(c, a) && Handed(c, a).Some?
    ensures Handed(c, a).value in Apply(c, a).live
    ensures Handed(c, a).value.chunk in Apply(c, a).owner && Apply(c, a).owner[Handed(c, a).value.chunk] == a.t
    ensures a.t in Apply(c, a).tlhs
  {}

  lemma NotOutYet(c: Sys, s: L.Ledger, a: Action)
    requires Linearization.Rel(c, s) && Guard(c, a) && Safe(c, a) && Handed(c, a).Some?
    ensures !Outstanding(c, Handed(c, a).value) && Handed(c, a).value !in c.live
  {
    var b := Handed(c, a).value;
    HandedChunk(c, s, a);
    if b.chunk in c.tlhs[a.t].heap.kinds { KindOwned(c, s, a.t, b.chunk); }
    P.OutstandingInLedger(c, s, b);
    assert b in c.live ==> L.At(s.loc, b, L.Client);
  }

  /** The bytes of the request's class, or its pages. */
  function HandedBytes(c: Sys, a: Action): nat
    requires a.ReapDone? ==> a.t in c.tlhs
  {
    match a
    case AllocFast(_, sc) => SizeOf(sc)
    case ReapDone(t, _) => if c.tlhs[t].pc.Reaping? && c.tlhs[t].pc.sc.Some? then SizeOf(c.tlhs[t].pc.sc.value) else 0
    case AllocPages(_, n, _) => n * PAGE
    case _ => 0
  }

  lemma HandedLen(c: Sys, a: Action)
    requires P.Reachable(c) && Guard(c, a) && Safe(c, a) && Handed(c, a).Some?
    ensures Handed(c, a).value.chunk in NewHeap(c, a).kinds
    ensures Len(NewHeap(c, a), Handed(c, a).value) == HandedBytes(c, a)
  {
    var s := P.EveryRun(c);
    if a.AllocFast? {
      HeapOk(c, s, a.t);
      FastExtents(c.tlhs[a.t].heap, a.sc);
    } else {
      SpareIsForeign(c, s, a);
      if a.ReapDone? {
        ReapClass(c, s, a.t);
        FinishExtents(c.tlhs[a.t].heap, c.tlhs[a.t].pc.sc.value, a.spare);
      } else {
        SpanExtents(c.tlhs[a.t].heap, a.pages, a.spare);
      }
    }
  }

  /** The kind of chunk a block comes from. */
  lemma HandedKind(c: Sys, a: Action)
    requires P.Reachable(c) && Guard(c, a) && Safe(c, a) && Handed(c, a).Some?
    ensures Handed(c, a).value.chunk in NewHeap(c, a).kinds
    ensures NewHeap(c, a).kinds[Handed(c, a).value.chunk] ==
            match a
            case AllocFast(_, sc) => SlabOf(sc)
            case ReapDone(t, _) => SlabOf(c.tlhs[t].pc.sc.value)
            case _ => SpanChunk
  {
    var s := P.EveryRun(c);
    if a.AllocFast? {
      HeapOk(c, s, a.t);
      FastExtents(c.tlhs[a.t].heap, a.sc);
    } else {
      SpareIsForeign(c, s, a);
      if a.ReapDone? {
        ReapClass(c, s, a.t);
        FinishExtents(c.tlhs[a.t].heap, c.tlhs[a.t].pc.sc.value, a.spare);
      } else {
        SpanExtents(c.tlhs[a.t].heap, a.pages, a.spare);
      }
    }
  }
}
