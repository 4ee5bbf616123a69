/** The cross-thread free protocol step by step (src/tlh/tlh.c): any number of thread-local
    heaps, each running its own thread, over shared memory.  Links are words inside the
    freed blocks, the mailbox is one head pointer, and the flush loop is split into
    load, link and compare-and-swap.  Memory is sequentially consistent. */
module Interleaving {
  import opened Common
  import opened ThreadHeap
  import Sizes

  /** The first word of a block: a clear link, or anything else (client data, encoded links). */
  datatype Word = Link(next: Option<Block>) | Data(bits: nat)

  type Memory = map<Block, Word>

  function Read(mem: Memory, b: Block): Word {
    if b in mem then mem[b] else Data(0)
  }

  /** What a flush was called for: itself, or a remote free that waits to be batched. */
  datatype Then = Done | ThenBatch(b: Block)

  /** Control points.  `seen` is the local variable old_head of the flush loop, `cursor` the local
      variable head of the reap loop; `sc` is the size class of the allocation that reaps, if any. */
  datatype Pc =
    | Idle
    | Flushing(then_: Then)
    | Loaded(then_: Then, seen: Option<Block>)
    | Linked(then_: Then, seen: Option<Block>)
    | Appending(held: Block)
    | Reaping(cursor: Option<Block>, sc: Option<nat>)

  datatype Thread = Thread(heap: Heap, target: Option<nat>, head: Option<Block>, tail: Option<Block>,
                           count: nat, mailbox: Option<Block>, pc: Pc)

  /** `owner` is the owning_tlh field of the chunk headers, `live` what clients hold. */
  datatype Sys = Sys(tlhs: map<nat, Thread>, owner: map<nat, nat>, live: set<Block>, mem: Memory)

  datatype Action =
    | Start(t: nat)
    | AllocFast(t: nat, sc: nat)
    | DrainMailbox(t: nat, sc_: Option<nat>)
    | ReapNode(t: nat, junk: nat)
    | ReapDone(t: nat, spare: Option<nat>)
    | AllocPages(t: nat, pages: nat, spare: Option<nat>)
    | FreeLocal(t: nat, b: Block, junk: nat)
    | FreeRemote(t: nat, b: Block)
    | FlushStart(t: nat)
    | LoadHead(t: nat)
    | LinkTail(t: nat)
    | Cas(t: nat, spurious: bool)
    | AppendHeld(t: nat)
    | Scribble(b: Block, w: Word)

  const Initial := Sys(map[], map[], {}, map[])

  // ---- Guards: where each thread is, and what a well-behaved client does -------------

  ghost predicate Guard(c: Sys, a: Action) {
    match a
    case Start(t) => t !in c.tlhs
    case AllocFast(t, sc) => t in c.tlhs && c.tlhs[t].pc.Idle? && sc < 40 && Popped(c, t, sc).Some?
    case DrainMailbox(t, sc) =>
      && t in c.tlhs && c.tlhs[t].pc.Idle?
      && (sc.Some? ==> sc.value < 40 && Popped(c, t, sc.value).None?)
    case ReapNode(t, _) => t in c.tlhs && c.tlhs[t].pc.Reaping? && c.tlhs[t].pc.cursor.Some?
    case ReapDone(t, spare) =>
      && t in c.tlhs && c.tlhs[t].pc.Reaping? && c.tlhs[t].pc.cursor.None?
      && (spare.Some? ==> spare.value !in c.owner)
    case AllocPages(t, n, spare) =>
      && t in c.tlhs && c.tlhs[t].pc.Idle? && n >= 1
      && (spare.Some? ==> spare.value !in c.owner)
    case FreeLocal(t, b, _) =>
      t in c.tlhs && c.tlhs[t].pc.Idle? && b in c.live && b.chunk in c.owner && c.owner[b.chunk] == t
    case FreeRemote(t, b) =>
      t in c.tlhs && c.tlhs[t].pc.Idle? && b in c.live && b.chunk in c.owner && c.owner[b.chunk] != t
    case FlushStart(t) => t in c.tlhs && c.tlhs[t].pc.Idle? && !NothingToFlush(c.tlhs[t])
    case LoadHead(t) => t in c.tlhs && c.tlhs[t].pc.Flushing?
    case LinkTail(t) => t in c.tlhs && c.tlhs[t].pc.Loaded?
    case Cas(t, _) => t in c.tlhs && c.tlhs[t].pc.Linked?
    case AppendHeld(t) => t in c.tlhs && c.tlhs[t].pc.Appending?
    case Scribble(b, _) => b in c.live || !Outstanding(c, b)
  }

  predicate NothingToFlush(x: Thread) {
    x.count == 0 || x.target.None?
  }

  function Popped(c: Sys, t: nat, sc: nat): Option<(Heap, Block)>
    requires t in c.tlhs
  {
    if sc < |c.tlhs[t].heap.bins| then FastBlock(c.tlhs[t].heap, sc) else None
  }

  /** Handed out by the heap that owns the chunk. */
  predicate Outstanding(c: Sys, b: Block) {
    b.chunk in c.owner && c.owner[b.chunk] in c.tlhs && Out(c.tlhs[c.owner[b.chunk]].heap, b)
  }

  // ---- Safety: what the step relies on ------------------------------------------------

  /** The dereferences of the step find what they need: the reaped node is a block of a live chunk of
      this heap and still carries a clear link, the batch has a tail and an existing target. */
  ghost predicate Safe(c: Sys, a: Action)
    requires Guard(c, a)
  {
    match a
    case ReapNode(t, _) =>
      var b := c.tlhs[t].pc.cursor.value;
      && b.chunk in c.owner && c.owner[b.chunk] == t
      && HeapInv(c.tlhs[t].heap) && Out(c.tlhs[t].heap, b)
      && Read(c.mem, b).Link?
    case ReapDone(t, _) =>
      && (c.tlhs[t].pc.sc.Some? ==> c.tlhs[t].pc.sc.value < |c.tlhs[t].heap.bins|)
      && (c.tlhs[t].pc.sc.Some? ==> Sizes.ClassToSize(c.tlhs[t].pc.sc.value) > 0)
    case FreeLocal(t, b, _) => HeapInv(c.tlhs[t].heap) && Out(c.tlhs[t].heap, b)
    case LoadHead(t) => TargetExists(c, t)
    case LinkTail(t) => c.tlhs[t].tail.Some?
    case Cas(t, _) => TargetExists(c, t)
    case AppendHeld(t) => c.tlhs[t].pc.held.chunk in c.owner
    case _ => true
  }

  predicate TargetExists(c: Sys, t: nat)
    requires t in c.tlhs
  {
    c.tlhs[t].target.Some? && c.tlhs[t].target.value in c.tlhs
  }

  // ---- Effects ---------------------------------------------------------------------------

  function SetThread(c: Sys, t: nat, x: Thread): Sys {
    Sys(c.tlhs[t := x], c.owner, c.live, c.mem)
  }

  function SetPc(c: Sys, t: nat, pc: Pc): Sys
    requires t in c.tlhs
  {
    SetThread(c, t, c.tlhs[t].(pc := pc))
  }

  /** The heap becomes `h` and its client gets `b`; a new chunk's header names `t`. */
  function Hand(c: Sys, t: nat, h: Heap, b: Block, pc: Pc): Sys
    requires t in c.tlhs
  {
    Sys(c.tlhs[t := c.tlhs[t].(heap := h, pc := pc)], c.owner[b.chunk := t], c.live + {b}, c.mem)
  }

  /** `t` takes `b` back; a slab block gets an encoded link (`junk`), a span block is not written. */
  function TakeIn(c: Sys, t: nat, b: Block, junk: nat, pc: Pc): Sys
    requires t in c.tlhs && HeapInv(c.tlhs[t].heap) && Out(c.tlhs[t].heap, b)
  {
    var h := TakeBack(c.tlhs[t].heap, b);
    Sys(c.tlhs[t := c.tlhs[t].(heap := h, pc := pc)],
        if b.chunk in h.kinds then c.owner else c.owner - {b.chunk},
        c.live - {b},
        if c.tlhs[t].heap.kinds[b.chunk].SlabOf? then c.mem[b := Data(junk)] else c.mem)
  }

  /** The end of a remote free: link the block in front of the batch. */
  function Enqueue(c: Sys, t: nat, b: Block): Sys
    requires t in c.tlhs && b.chunk in c.owner
  {
    var x := c.tlhs[t];
    Sys(c.tlhs[t := x.(target := Some(c.owner[b.chunk]), head := Some(b),
                       tail := if x.count == 0 then Some(b) else x.tail, count := x.count + 1, pc := Idle)],
        c.owner, c.live - {b}, c.mem[b := Link(x.head)])
  }

  /** Owner and room agree: the batch takes the block without a flush. */
  predicate Joins(x: Thread, owner: nat) {
    x.target == Some(owner) && x.count < BATCH_MAX
  }

  function RemoteStep(c: Sys, t: nat, b: Block): Sys
    requires t in c.tlhs && b.chunk in c.owner
  {
    var x := c.tlhs[t];
    if Joins(x, c.owner[b.chunk]) || NothingToFlush(x) then Enqueue(c, t, b)
    else Sys(c.tlhs[t := x.(pc := Flushing(ThenBatch(b)))], c.owner, c.live - {b}, c.mem[b := Link(None)])
  }

  function AfterFlush(then_: Then): Pc {
    match then_
    case Done => Idle
    case ThenBatch(b) => Appending(b)
  }

  /** A successful compare-and-swap publishes the batch; the thread then clears it. */
  function Publish(c: Sys, t: nat): Sys
    requires t in c.tlhs && c.tlhs[t].pc.Linked? && TargetExists(c, t)
  {
    var x, u := c.tlhs[t], c.tlhs[t].target.value;
    var c1 := SetThread(c, u, c.tlhs[u].(mailbox := x.head));
    SetThread(c1, t, c1.tlhs[t].(target := None, head := None, tail := None, count := 0, pc := AfterFlush(x.pc.then_)))
  }

  /** The weak compare-and-swap succeeds only on the value seen, and may fail on it too. */
  function CasStep(c: Sys, t: nat, spurious: bool): Sys
    requires t in c.tlhs && c.tlhs[t].pc.Linked? && TargetExists(c, t)
  {
    var x := c.tlhs[t];
    var now := c.tlhs[x.target.value].mailbox;
    if spurious || now != x.pc.seen then SetPc(c, t, Loaded(x.pc.then_, now)) else Publish(c, t)
  }

  ghost function Allocated(c: Sys, t: nat, r: (Heap, Option<Block>)): Sys
    requires t in c.tlhs
  {
    match r.1
    case Some(b) => Hand(c, t, r.0, b, Idle)
    case None => SetThread(c, t, c.tlhs[t].(heap := r.0, pc := Idle))
  }

  ghost function Apply(c: Sys, a: Action): Sys
    requires Guard(c, a) && Safe(c, a)
  {
    match a
    case Start(t) => SetThread(c, t, Thread(EmptyHeap(), None, None, None, 0, None, Idle))
    case AllocFast(t, sc) => Hand(c, t, Popped(c, t, sc).value.0, Popped(c, t, sc).value.1, Idle)
    case DrainMailbox(t, sc) =>
      SetThread(c, t, c.tlhs[t].(mailbox := None, pc := Reaping(c.tlhs[t].mailbox, sc)))
    case ReapNode(t, junk) =>
      var b := c.tlhs[t].pc.cursor.value;
      TakeIn(c, t, b, junk, Reaping(Read(c.mem, b).next, c.tlhs[t].pc.sc))
    case ReapDone(t, spare) =>
      (match c.tlhs[t].pc.sc
       case Some(sc) => Allocated(c, t, FinishAlloc(c.tlhs[t].heap, sc, spare))
       case None => SetPc(c, t, Idle))
    case AllocPages(t, n, spare) => Allocated(c, t, SpanBlock(c.tlhs[t].heap, n, spare))
    case FreeLocal(t, b, junk) => TakeIn(c, t, b, junk, Idle)
    case FreeRemote(t, b) => RemoteStep(c, t, b)
    case FlushStart(t) => SetPc(c, t, Flushing(Done))
    case LoadHead(t) => SetPc(c, t, Loaded(c.tlhs[t].pc.then_, c.tlhs[c.tlhs[t].target.value].mailbox))
    case LinkTail(t) =>
      Sys(c.tlhs[t := c.tlhs[t].(pc := Linked(c.tlhs[t].pc.then_, c.tlhs[t].pc.seen))], c.owner, c.live,
          c.mem[c.tlhs[t].tail.value := Link(c.tlhs[t].pc.seen)])
    case Cas(t, spurious) => CasStep(c, t, spurious)
    case AppendHeld(t) => Enqueue(c, t, c.tlhs[t].pc.held)
    case Scribble(b, w) => Sys(c.tlhs, c.owner, c.live, c.mem[b := w])
  }
}
