/** Every interleaving of the step system follows the atomic ledger: heads and links in memory spell
    the queues, a successful compare-and-swap is the atomic prepend, the exchange is the
    atomic take-all, and nothing else in the flush loop moves a block. */
module Linearization {
  import opened Common
  import opened ThreadHeap
  import opened Interleaving
  import L = RemoteFree

  // ---- Chains of clear links --------------------------------------------------------

  function Last(q: seq<Block>): Option<Block> {
    if q == [] then None else Some(q[|q| - 1])
  }

  ghost predicate Chained(mem: Memory, q: seq<Block>) {
    forall i :: 0 <= i < |q| - 1 ==> Read(mem, q[i]) == Link(Some(q[i + 1]))
  }

  /** Following links from `h` visits exactly the blocks of `q`, in order, and ends. */
  ghost predicate Chain(mem: Memory, h: Option<Block>, q: seq<Block>) {
    && h == First(q)
    && Chained(mem, q)
    && (q != [] ==> Read(mem, q[|q| - 1]) == Link(None))
  }

  // ---- The relation between memory and ledger ------------------------------------------

  ghost predicate PcRel(mem: Memory, pc: Pc, q: L.Queues) {
    match pc
    case Idle => q.work == []
    case Flushing(_) => q.work == [] && q.batch != []
    case Loaded(_, _) => q.work == [] && q.batch != []
    case Linked(_, seen) => q.work == [] && q.batch != [] && Read(mem, q.batch[|q.batch| - 1]) == Link(seen)
    case Appending(_) => q.work == [] && q.batch == []
    case Reaping(cursor, sc) => Chain(mem, cursor, q.work) && (sc.Some? ==> sc.value < 40)
  }

  ghost predicate QueueRel(mem: Memory, x: Thread, q: L.Queues) {
    && x.target == q.target && x.count == |q.batch|
    && x.head == First(q.batch) && x.tail == Last(q.batch) && Chained(mem, q.batch)
    && Chain(mem, x.mailbox, q.mail)
    && PcRel(mem, x.pc, q)
  }

  /** The thread holds `b`, which waits to be batched until the flush is done. */
  predicate Holding(pc: Pc, b: Block) {
    || ((pc.Flushing? || pc.Loaded? || pc.Linked?) && pc.then_ == ThenBatch(b))
    || pc == Appending(b)
  }

  ghost predicate HandRel(s: L.Ledger, t: nat, pc: Pc) {
    && (forall b :: L.At(s.loc, b, L.Hand(t)) <==> Holding(pc, b))
    && (forall b :: Holding(pc, b) ==> !L.OwnedBy(s.owner, b, t))
  }

  /** The heap's chunks and its handed-out blocks are the ones the ledger knows. */
  ghost predicate HeapRel(s: L.Ledger, t: nat, h: Heap) {
    && HeapInv(h)
    && (forall ch :: ch in h.kinds <==> ch in s.owner && s.owner[ch] == t)
    && (forall b :: Out(h, b) <==> b in s.loc && L.OwnedBy(s.owner, b, t))
  }

  ghost predicate LiveRel(c: Sys, s: L.Ledger) {
    forall b :: b in c.live <==> L.At(s.loc, b, L.Client)
  }

  ghost predicate ThreadRel(c: Sys, s: L.Ledger, t: nat)
    requires t in c.tlhs && t in s.tlhs
  {
    && HeapRel(s, t, c.tlhs[t].heap)
    && QueueRel(c.mem, c.tlhs[t], s.tlhs[t])
    && HandRel(s, t, c.tlhs[t].pc)
  }

  ghost predicate Threads(c: Sys, s: L.Ledger) {
    && (forall t :: t in s.tlhs ==> t in c.tlhs)
    && (forall t :: t in c.tlhs ==> t in s.tlhs && ThreadRel(c, s, t))
  }

  ghost predicate Rel(c: Sys, s: L.Ledger) {
    && L.Inv(s)
    && c.owner == s.owner
    && LiveRel(c, s)
    && Threads(c, s)
  }

  // ---- Frames ----------------------------------------------------------------------------

  lemma ChainFrame(mem: Memory, mem': Memory, h: Option<Block>, q: seq<Block>)
    requires Chain(mem, h, q)
    requires forall b :: b in q ==> Read(mem', b) == Read(mem, b)
    ensures Chain(mem', h, q)
  {}

  /** Memory that agrees on the queues of a thread spells the same queues. */
  lemma QueueFrame(mem: Memory, mem': Memory, x: Thread, q: L.Queues)
    requires QueueRel(mem, x, q)
    requires forall b :: b in q.batch || b in q.mail || b in q.work ==> Read(mem', b) == Read(mem, b)
    ensures QueueRel(mem', x, q)
  {
    ChainFrame(mem, mem', x.mailbox, q.mail);
    if x.pc.Reaping? { ChainFrame(mem, mem', x.pc.cursor, q.work); }
    assert Chained(mem', q.batch);
  }

  /** A write to a block that is in none of the thread's queues. */
  lemma WriteFrame(s: L.Ledger, mem: Memory, x: Thread, t: nat, b: Block, w: Word)
    requires t in s.tlhs && L.Lists(s.loc, t, s.tlhs[t]) && QueueRel(mem, x, s.tlhs[t])
    requires !L.At(s.loc, b, L.Batch(t)) && !L.At(s.loc, b, L.Mail(t)) && !L.At(s.loc, b, L.Work(t))
    ensures QueueRel(mem[b := w], x, s.tlhs[t])
  {
    QueueFrame(mem, mem[b := w], x, s.tlhs[t]);
  }

  /** A step that leaves thread `u`, its queues, their links and its heap's ledger entries alone. */
  ghost predicate Undisturbed(c: Sys, s: L.Ledger, c': Sys, s': L.Ledger, u: nat) {
    && u in c.tlhs && u in s.tlhs && u in c'.tlhs && u in s'.tlhs
    && c'.tlhs[u] == c.tlhs[u] && s'.tlhs[u] == s.tlhs[u]
    && (forall b :: L.At(s.loc, b, L.Batch(u)) || L.At(s.loc, b, L.Mail(u)) || L.At(s.loc, b, L.Work(u))
                    ==> Read(c'.mem, b) == Read(c.mem, b))
    && SameHeapEntries(s, s', u)
    && (forall b :: L.At(s'.loc, b, L.Hand(u)) <==> L.At(s.loc, b, L.Hand(u)))
  }

  ghost predicate SameHeapEntries(s: L.Ledger, s': L.Ledger, u: nat) {
    && (forall ch :: (ch in s'.owner && s'.owner[ch] == u) <==> (ch in s.owner && s.owner[ch] == u))
    && (forall b :: (b in s'.loc && L.OwnedBy(s'.owner, b, u)) <==> (b in s.loc && L.OwnedBy(s.owner, b, u)))
  }

  lemma OtherThread(c: Sys, s: L.Ledger, c': Sys, s': L.Ledger, u: nat)
    requires Rel(c, s) && Undisturbed(c, s, c', s', u)
    ensures ThreadRel(c', s', u)
  {
    RelAt(c, s, u);
    HeapFrame(s, s', u, c.tlhs[u].heap);
    HandFrame(s, s', u, c.tlhs[u].pc);
    QueueFrame(c.mem, c'.mem, c.tlhs[u], s.tlhs[u]);
  }

  /** What a related pair of states says about one thread. */
  lemma RelAt(c: Sys, s: L.Ledger, t: nat)
    requires Rel(c, s) && t in c.tlhs
    ensures t in s.tlhs
    ensures HeapRel(s, t, c.tlhs[t].heap)
    ensures QueueRel(c.mem, c.tlhs[t], s.tlhs[t])
    ensures HandRel(s, t, c.tlhs[t].pc)
    ensures L.Lists(s.loc, t, s.tlhs[t]) && L.Routes(s.owner, t, s.tlhs[t])
    ensures forall x :: x in s.loc ==> x.chunk in s.owner
  {
    assert t in s.tlhs;
  }

  lemma HeapFrame(s: L.Ledger, s': L.Ledger, t: nat, h: Heap)
    requires HeapRel(s, t, h) && SameHeapEntries(s, s', t)
    ensures HeapRel(s', t, h)
  {}

  lemma HandFrame(s: L.Ledger, s': L.Ledger, t: nat, pc: Pc)
    requires HandRel(s, t, pc) && SameHeapEntries(s, s', t)
    requires forall b :: L.At(s'.loc, b, L.Hand(t)) <==> L.At(s.loc, b, L.Hand(t))
    ensures HandRel(s', t, pc)
  {
    forall b | Holding(pc, b) ensures !L.OwnedBy(s'.owner, b, t) {
      assert L.At(s.loc, b, L.Hand(t)) && L.At(s'.loc, b, L.Hand(t));
    }
  }

  /** All threads but `t` are undisturbed and `t` is related: the states are related. */
  lemma Assemble(c: Sys, s: L.Ledger, c': Sys, s': L.Ledger, t: nat)
    requires Rel(c, s) && L.Inv(s') && c'.owner == s'.owner && LiveRel(c', s')
    requires t in c'.tlhs && t in s'.tlhs && ThreadRel(c', s', t)
    requires forall u :: u in c'.tlhs && u != t ==> Undisturbed(c, s, c', s', u)
    requires forall u :: u in s'.tlhs ==> u in c'.tlhs
    ensures Rel(c', s')
  {
    forall u | u in c'.tlhs ensures u in s'.tlhs && ThreadRel(c', s', u) {
      if u != t { OtherThread(c, s, c', s', u); }
    }
  }

  // ---- A block is handed out --------------------------------------------------------------

  lemma GiveHeaps(s: L.Ledger, t: nat, h: Heap, h': Heap, b: Block, spare: Option<nat>)
    requires HeapRel(s, t, h) && HandedOut(h, h', b, spare)
    requires spare.Some? ==> spare.value !in s.owner
    requires forall x :: x in s.loc ==> x.chunk in s.owner
    ensures b !in s.loc
    ensures b.chunk in s.owner ==> s.owner[b.chunk] == t
    ensures HeapRel(L.Give(s, t, b), t, h')
  {
    var s' := L.Give(s, t, b);
    assert b.chunk in h.kinds || b.chunk !in s.owner;
    forall ch ensures ch in h'.kinds <==> ch in s'.owner && s'.owner[ch] == t {
      assert ch in h'.kinds <==> ch in h.kinds || ch == b.chunk;
    }
    forall x ensures Out(h', x) <==> x in s'.loc && L.OwnedBy(s'.owner, x, t) {
      assert Out(h', x) <==> Out(h, x) || x == b;
    }
  }

  lemma HandSimulates(c: Sys, s: L.Ledger, t: nat, h': Heap, b: Block, spare: Option<nat>)
    requires Rel(c, s) && t in c.tlhs && HandedOut(c.tlhs[t].heap, h', b, spare)
    requires spare.Some? ==> spare.value !in c.owner
    requires c.tlhs[t].pc.Idle? || (c.tlhs[t].pc.Reaping? && c.tlhs[t].pc.cursor.None?)
    ensures b !in s.loc
    ensures Rel(Hand(c, t, h', b, Idle), L.Give(s, t, b))
  {
    var c', s' := Hand(c, t, h', b, Idle), L.Give(s, t, b);
    HandFacts(c, s, t, h', b, spare);
    HandLive(c, s, t, h', b);
    Assemble(c, s, c', s', t);
  }

  lemma HandFacts(c: Sys, s: L.Ledger, t: nat, h': Heap, b: Block, spare: Option<nat>)
    requires Rel(c, s) && t in c.tlhs && HandedOut(c.tlhs[t].heap, h', b, spare)
    requires spare.Some? ==> spare.value !in c.owner
    requires c.tlhs[t].pc.Idle? || (c.tlhs[t].pc.Reaping? && c.tlhs[t].pc.cursor.None?)
    ensures t in s.tlhs && b !in s.loc && L.Inv(L.Give(s, t, b))
    ensures ThreadRel(Hand(c, t, h', b, Idle), L.Give(s, t, b), t)
    ensures forall u :: u in c.tlhs && u != t ==> Undisturbed(c, s, Hand(c, t, h', b, Idle), L.Give(s, t, b), u)
  {
    RelAt(c, s, t);
    GiveHeaps(s, t, c.tlhs[t].heap, h', b, spare);
    L.GiveInv(s, t, b);
    HandOwn(c, s, t, h', b);
    forall u | u in c.tlhs && u != t ensures Undisturbed(c, s, Hand(c, t, h', b, Idle), L.Give(s, t, b), u) {
      HandOther(c, s, t, h', b, u);
    }
  }

  lemma HandOther(c: Sys, s: L.Ledger, t: nat, h': Heap, b: Block, u: nat)
    requires t in c.tlhs && u in c.tlhs && u in s.tlhs && u != t && b !in s.loc
    requires b.chunk in s.owner ==> s.owner[b.chunk] == t
    ensures Undisturbed(c, s, Hand(c, t, h', b, Idle), L.Give(s, t, b), u)
  {}

  lemma HandOwn(c: Sys, s: L.Ledger, t: nat, h': Heap, b: Block)
    requires t in c.tlhs && t in s.tlhs && b !in s.loc
    requires HeapRel(L.Give(s, t, b), t, h')
    requires QueueRel(c.mem, c.tlhs[t], s.tlhs[t]) && HandRel(s, t, c.tlhs[t].pc)
    requires c.tlhs[t].pc.Idle? || (c.tlhs[t].pc.Reaping? && c.tlhs[t].pc.cursor.None?)
    ensures ThreadRel(Hand(c, t, h', b, Idle), L.Give(s, t, b), t)
  {
    forall x ensures !L.At(L.Give(s, t, b).loc, x, L.Hand(t)) {
      assert !L.At(s.loc, x, L.Hand(t));
    }
  }

  lemma HandLive(c: Sys, s: L.Ledger, t: nat, h': Heap, b: Block)
    requires t in c.tlhs && LiveRel(c, s)
    ensures LiveRel(Hand(c, t, h', b, Idle), L.Give(s, t, b))
  {
    var c', s' := Hand(c, t, h', b, Idle), L.Give(s, t, b);
    forall x ensures x in c'.live <==> L.At(s'.loc, x, L.Client) {
      assert x in c.live <==> L.At(s.loc, x, L.Client);
    }
  }

  // ---- Steps of one thread that move no block ----------------------------------------------

  lemma PcSimulates(c: Sys, s: L.Ledger, t: nat, pc: Pc)
    requires Rel(c, s) && t in c.tlhs && t in s.tlhs
    requires PcRel(c.mem, pc, s.tlhs[t]) && HandRel(s, t, pc)
    ensures Rel(SetPc(c, t, pc), s)
  {
    RelAt(c, s, t);
    LocalStep(c, s, t, c.tlhs[t].(pc := pc));
  }

  /** A step that changes one thread's own fields and nothing else. */
  lemma LocalStep(c: Sys, s: L.Ledger, t: nat, x: Thread)
    requires Rel(c, s) && t in c.tlhs && t in s.tlhs
    requires HeapRel(s, t, x.heap) && QueueRel(c.mem, x, s.tlhs[t]) && HandRel(s, t, x.pc)
    ensures Rel(SetThread(c, t, x), s)
  {
    var c' := SetThread(c, t, x);
    forall u | u in c'.tlhs && u != t ensures Undisturbed(c, s, c', s, u) {
      assert u in c.tlhs;
      LocalOther(c, s, t, x, u);
    }
    assert LiveRel(c', s) by { assert c'.live == c.live; }
    Assemble(c, s, c', s, t);
  }

  lemma LocalOther(c: Sys, s: L.Ledger, t: nat, x: Thread, u: nat)
    requires u in c.tlhs && u in s.tlhs && u != t
    ensures Undisturbed(c, s, SetThread(c, t, x), s, u)
  {}

  /** A failed allocation may still retire an overrun cursor. */
  lemma KeepSimulates(c: Sys, s: L.Ledger, t: nat, h': Heap)
    requires Rel(c, s) && t in c.tlhs && SameOut(c.tlhs[t].heap, h')
    requires c.tlhs[t].pc.Idle? || (c.tlhs[t].pc.Reaping? && c.tlhs[t].pc.cursor.None?)
    ensures Rel(SetThread(c, t, c.tlhs[t].(heap := h', pc := Idle)), s)
  {
    RelAt(c, s, t);
    SameOutRel(s, t, c.tlhs[t].heap, h');
    Settled(c.mem, s, t, c.tlhs[t], h');
    LocalStep(c, s, t, c.tlhs[t].(heap := h', pc := Idle));
  }

  lemma Settled(mem: Memory, s: L.Ledger, t: nat, x: Thread, h': Heap)
    requires t in s.tlhs && QueueRel(mem, x, s.tlhs[t]) && HandRel(s, t, x.pc)
    requires x.pc.Idle? || (x.pc.Reaping? && x.pc.cursor.None?)
    ensures QueueRel(mem, x.(heap := h', pc := Idle), s.tlhs[t]) && HandRel(s, t, Idle)
  {}

  lemma SameOutRel(s: L.Ledger, t: nat, h: Heap, h': Heap)
    requires HeapRel(s, t, h) && SameOut(h, h')
    ensures HeapRel(s, t, h')
  {
    forall ch ensures ch in h'.kinds <==> ch in s.owner && s.owner[ch] == t {
      assert ch in h'.kinds.Keys <==> ch in h.kinds.Keys;
    }
  }

  // ---- Taking the mailbox: the exchange ------------------------------------------------------

  function Drained(c: Sys, t: nat, sc: Option<nat>): Sys
    requires t in c.tlhs
  {
    SetThread(c, t, c.tlhs[t].(mailbox := None, pc := Reaping(c.tlhs[t].mailbox, sc)))
  }

  lemma DrainSimulates(c: Sys, s: L.Ledger, t: nat, sc: Option<nat>)
    requires Rel(c, s) && t in c.tlhs && c.tlhs[t].pc.Idle? && (sc.Some? ==> sc.value < 40)
    ensures t in s.tlhs && Rel(Drained(c, t, sc), L.Drain(s, t))
  {
    RelAt(c, s, t);
    var c', s' := Drained(c, t, sc), L.Drain(s, t);
    L.DrainInv(s, t);
    DrainOwn(c, s, t, sc);
    forall u | u in c'.tlhs && u != t ensures Undisturbed(c, s, c', s', u) {
      assert u in c.tlhs;
      RelAt(c, s, u);
      DrainOther(c, s, t, sc, u);
    }
    DrainLive(c, s, t, sc);
    Assemble(c, s, c', s', t);
  }

  lemma DrainLive(c: Sys, s: L.Ledger, t: nat, sc: Option<nat>)
    requires t in c.tlhs && t in s.tlhs && LiveRel(c, s)
    ensures LiveRel(Drained(c, t, sc), L.Drain(s, t))
  {
    forall b ensures L.At(L.Drain(s, t).loc, b, L.Client) <==> L.At(s.loc, b, L.Client) {}
  }

  lemma DrainOwn(c: Sys, s: L.Ledger, t: nat, sc: Option<nat>)
    requires t in c.tlhs && t in s.tlhs && c.tlhs[t].pc.Idle? && (sc.Some? ==> sc.value < 40)
    requires ThreadRel(c, s, t)
    ensures ThreadRel(Drained(c, t, sc), L.Drain(s, t), t)
  {
    MovedEntries(s, L.Drain(s, t), t);
    HeapFrame(s, L.Drain(s, t), t, c.tlhs[t].heap);
    HandFrame(s, L.Drain(s, t), t, Idle);
  }

  /** Moving blocks between queues changes no owner and no set of handed-out blocks. */
  lemma MovedEntries(s: L.Ledger, s': L.Ledger, u: nat)
    requires s'.owner == s.owner && s'.loc.Keys == s.loc.Keys
    ensures SameHeapEntries(s, s', u)
  {
    forall b ensures b in s'.loc <==> b in s.loc {
      assert b in s'.loc.Keys <==> b in s.loc.Keys;
    }
  }

  lemma DrainOther(c: Sys, s: L.Ledger, t: nat, sc: Option<nat>, u: nat)
    requires t in c.tlhs && t in s.tlhs && u in c.tlhs && u in s.tlhs && u != t
    ensures Undisturbed(c, s, Drained(c, t, sc), L.Drain(s, t), u)
  {
    MovedEntries(s, L.Drain(s, t), u);
  }

  // ---- Taking a block back ----------------------------------------------------------------------

  /** The chunk of `b` leaves the heap when `b` is taken back. */
  predicate Leaves(h: Heap, b: Block)
    requires HeapInv(h) && Out(h, b)
  {
    b.chunk !in TakeBack(h, b).kinds
  }

  lemma TakeInHeaps(s: L.Ledger, t: nat, h: Heap, b: Block)
    requires HeapRel(s, t, h) && b in s.loc && L.OwnedBy(s.owner, b, t)
    requires forall x :: x in s.loc ==> x.chunk in s.owner
    ensures Out(h, b)
    ensures Leaves(h, b) ==> L.LastOut(s, b)
    ensures HeapRel(L.TakeIn(s, b, Leaves(h, b)), t, TakeBack(h, b))
  {
    TakeBackOk(h, b);
    TakenHeaps(s, t, h, TakeBack(h, b), b, Leaves(h, b));
  }

  lemma TakenHeaps(s: L.Ledger, t: nat, h: Heap, h': Heap, b: Block, lv: bool)
    requires HeapRel(s, t, h) && b in s.loc && L.OwnedBy(s.owner, b, t) && TookBack(h, h', b)
    requires lv <==> b.chunk !in h'.kinds
    ensures lv ==> L.LastOut(s, b)
    ensures HeapRel(L.TakeIn(s, b, lv), t, h')
  {
    var s' := L.TakeIn(s, b, lv);
    if lv {
      forall x | x in s.loc && x.chunk == b.chunk ensures x == b {
        assert Out(h, x) && !Out(h', x);
      }
    }
    forall ch ensures ch in h'.kinds <==> ch in s'.owner && s'.owner[ch] == t {
      assert ch in h'.kinds <==> ch in h.kinds && (ch == b.chunk ==> b.chunk in h'.kinds);
    }
    forall x ensures Out(h', x) <==> x in s'.loc && L.OwnedBy(s'.owner, x, t) {
      assert Out(h', x) <==> Out(h, x) && x != b;
    }
  }

  /** What a free by `t` leaves alone. */
  ghost predicate OnlyFrees(c: Sys, c': Sys, t: nat, b: Block) {
    && (forall u :: u in c'.tlhs <==> u in c.tlhs)
    && (forall u :: u in c.tlhs && u != t ==> c'.tlhs[u] == c.tlhs[u])
    && (forall x :: x != b ==> Read(c'.mem, x) == Read(c.mem, x))
    && (forall x :: x in c'.live <==> x in c.live && x != b)
  }

  lemma TakeInShape(c: Sys, t: nat, b: Block, junk: nat, pc: Pc)
    requires t in c.tlhs && HeapInv(c.tlhs[t].heap) && Out(c.tlhs[t].heap, b)
    ensures OnlyFrees(c, TakeIn(c, t, b, junk, pc), t, b)
    ensures TakeIn(c, t, b, junk, pc).tlhs[t] == c.tlhs[t].(heap := TakeBack(c.tlhs[t].heap, b), pc := pc)
  {}

  lemma TakeInOther(c: Sys, s: L.Ledger, c': Sys, s': L.Ledger, t: nat, b: Block, u: nat)
    requires OnlyFrees(c, c', t, b) && u in c.tlhs && u in s.tlhs && u != t
    requires L.OwnedBy(s.owner, b, t) && b in s.loc && (s.loc[b] == L.Client || s.loc[b] == L.Work(t))
    requires u in s'.tlhs && s'.tlhs[u] == s.tlhs[u]
    requires s'.owner == s.owner || s'.owner == s.owner - {b.chunk}
    requires s'.loc == s.loc - {b}
    ensures Undisturbed(c, s, c', s', u)
  {}

  lemma TakeInLive(c: Sys, s: L.Ledger, c': Sys, s': L.Ledger, t: nat, b: Block)
    requires OnlyFrees(c, c', t, b) && LiveRel(c, s) && s'.loc == s.loc - {b}
    ensures LiveRel(c', s')
  {
    forall x ensures x in c'.live <==> L.At(s'.loc, x, L.Client) {
      assert x in c.live <==> L.At(s.loc, x, L.Client);
    }
  }

  /** The other threads and the clients, after `t` took `b` back. */
  lemma TakeInRest(c: Sys, s: L.Ledger, c': Sys, s': L.Ledger, t: nat, b: Block)
    requires Rel(c, s) && t in c.tlhs && OnlyFrees(c, c', t, b) && L.Inv(s')
    requires c'.owner == s'.owner && t in c'.tlhs && t in s'.tlhs && ThreadRel(c', s', t)
    requires L.OwnedBy(s.owner, b, t) && b in s.loc && (s.loc[b] == L.Client || s.loc[b] == L.Work(t))
    requires forall u :: u in s'.tlhs <==> u in s.tlhs
    requires forall u :: u in s.tlhs && u != t ==> s'.tlhs[u] == s.tlhs[u]
    requires s'.owner == s.owner || s'.owner == s.owner - {b.chunk}
    requires s'.loc == s.loc - {b}
    ensures Rel(c', s')
  {
    forall u | u in c'.tlhs && u != t ensures Undisturbed(c, s, c', s', u) {
      RelAt(c, s, u);
      TakeInOther(c, s, c', s', t, b, u);
    }
    TakeInLive(c, s, c', s', t, b);
    Assemble(c, s, c', s', t);
  }

  // ---- Local free

  lemma FreeLocalSimulates(c: Sys, s: L.Ledger, t: nat, b: Block, junk: nat)
    requires Rel(c, s) && t in c.tlhs && c.tlhs[t].pc.Idle? && b in c.live
    requires L.OwnedBy(c.owner, b, t)
    ensures HeapInv(c.tlhs[t].heap) && Out(c.tlhs[t].heap, b)
    ensures Rel(TakeIn(c, t, b, junk, Idle), L.TakeIn(s, b, Leaves(c.tlhs[t].heap, b)))
  {
    RelAt(c, s, t);
    assert L.At(s.loc, b, L.Client);
    TakeInHeaps(s, t, c.tlhs[t].heap, b);
    var c', s' := TakeIn(c, t, b, junk, Idle), L.TakeIn(s, b, Leaves(c.tlhs[t].heap, b));
    L.FreeInv(s, b, Leaves(c.tlhs[t].heap, b));
    FreeLocalOwn(c, s, s', t, b, junk);
    TakeInShape(c, t, b, junk, Idle);
    TakeInRest(c, s, c', s', t, b);
  }

  lemma FreeLocalOwn(c: Sys, s: L.Ledger, s': L.Ledger, t: nat, b: Block, junk: nat)
    requires t in c.tlhs && t in s.tlhs && t in s'.tlhs && s'.tlhs[t] == s.tlhs[t] && c.tlhs[t].pc.Idle?
    requires HeapInv(c.tlhs[t].heap) && Out(c.tlhs[t].heap, b) && L.At(s.loc, b, L.Client)
    requires s'.loc == s.loc - {b} && HeapRel(s', t, TakeBack(c.tlhs[t].heap, b))
    requires L.Lists(s.loc, t, s.tlhs[t]) && QueueRel(c.mem, c.tlhs[t], s.tlhs[t]) && HandRel(s, t, Idle)
    ensures ThreadRel(TakeIn(c, t, b, junk, Idle), s', t)
  {
    WriteFrame(s, c.mem, c.tlhs[t], t, b, Data(junk));
    forall x ensures !L.At(s'.loc, x, L.Hand(t)) { assert !L.At(s.loc, x, L.Hand(t)); }
  }

  // ---- One turn of the reap loop

  /** The cursor is the first block of the worklist, still linked to the second. */
  lemma CursorIsFirst(mem: Memory, cursor: Option<Block>, work: seq<Block>)
    requires Chain(mem, cursor, work) && cursor.Some? && NoDup(work)
    ensures work != [] && cursor.value == work[0]
    ensures Read(mem, work[0]).Link?
    ensures Chain(mem, Read(mem, work[0]).next, work[1..])
    ensures work[0] !in work[1..]
  {
    var rest := work[1..];
    assert |work| > 1 ==> Read(mem, work[0]) == Link(Some(work[0 + 1]));
    forall i | 0 <= i < |rest| - 1 ensures Read(mem, rest[i]) == Link(Some(rest[i + 1])) {
      assert rest[i] == work[i + 1] && rest[i + 1] == work[i + 2];
    }
  }

  function Reaped(c: Sys, t: nat, b: Block, junk: nat): Sys
    requires t in c.tlhs && HeapInv(c.tlhs[t].heap) && Out(c.tlhs[t].heap, b)
    requires c.tlhs[t].pc.Reaping? && Read(c.mem, b).Link?
  {
    TakeIn(c, t, b, junk, Reaping(Read(c.mem, b).next, c.tlhs[t].pc.sc))
  }

  lemma ReapSimulates(c: Sys, s: L.Ledger, t: nat, b: Block, junk: nat)
    requires Rel(c, s) && t in c.tlhs && c.tlhs[t].pc.Reaping? && c.tlhs[t].pc.cursor == Some(b)
    ensures t in s.tlhs && s.tlhs[t].work != [] && s.tlhs[t].work[0] == b
    ensures HeapInv(c.tlhs[t].heap) && Out(c.tlhs[t].heap, b) && Read(c.mem, b).Link?
    ensures Rel(Reaped(c, t, b, junk), L.ReapOne(s, t, Leaves(c.tlhs[t].heap, b)))
  {
    ReapPrepared(c, s, t, b, junk);
    ReapShape(s, t, Leaves(c.tlhs[t].heap, b));
    TakeInRest(c, s, Reaped(c, t, b, junk), L.ReapOne(s, t, Leaves(c.tlhs[t].heap, b)), t, b);
  }

  lemma ReapShape(s: L.Ledger, t: nat, lv: bool)
    requires t in s.tlhs && s.tlhs[t].work != []
    ensures var s', b := L.ReapOne(s, t, lv), s.tlhs[t].work[0];
            && (forall u :: u in s'.tlhs <==> u in s.tlhs)
            && (forall u :: u in s.tlhs && u != t ==> s'.tlhs[u] == s.tlhs[u])
            && (s'.owner == s.owner || s'.owner == s.owner - {b.chunk})
            && s'.loc == s.loc - {b}
  {}

  lemma ReapPrepared(c: Sys, s: L.Ledger, t: nat, b: Block, junk: nat)
    requires Rel(c, s) && t in c.tlhs && c.tlhs[t].pc.Reaping? && c.tlhs[t].pc.cursor == Some(b)
    ensures t in s.tlhs && s.tlhs[t].work != [] && s.tlhs[t].work[0] == b
    ensures L.At(s.loc, b, L.Work(t)) && L.OwnedBy(s.owner, b, t)
    ensures HeapInv(c.tlhs[t].heap) && Out(c.tlhs[t].heap, b) && Read(c.mem, b).Link?
    ensures L.Inv(L.ReapOne(s, t, Leaves(c.tlhs[t].heap, b)))
    ensures OnlyFrees(c, Reaped(c, t, b, junk), t, b) && t in Reaped(c, t, b, junk).tlhs
    ensures Reaped(c, t, b, junk).owner == L.ReapOne(s, t, Leaves(c.tlhs[t].heap, b)).owner
    ensures ThreadRel(Reaped(c, t, b, junk), L.ReapOne(s, t, Leaves(c.tlhs[t].heap, b)), t)
  {
    ReapFacts(c, s, t);
    RelAt(c, s, t);
    L.ReapOneInv(s, t, Leaves(c.tlhs[t].heap, b));
    ReapOwn(c, s, t, b, junk);
    TakeInShape(c, t, b, junk, Reaping(Read(c.mem, b).next, c.tlhs[t].pc.sc));
  }

  lemma ReapFacts(c: Sys, s: L.Ledger, t: nat)
    requires Rel(c, s) && t in c.tlhs && c.tlhs[t].pc.Reaping? && c.tlhs[t].pc.cursor.Some?
    ensures t in s.tlhs && s.tlhs[t].work != [] && s.tlhs[t].work[0] == c.tlhs[t].pc.cursor.value
    ensures var b := s.tlhs[t].work[0];
            && L.At(s.loc, b, L.Work(t)) && L.OwnedBy(c.owner, b, t) && Read(c.mem, b).Link?
            && HeapInv(c.tlhs[t].heap) && Out(c.tlhs[t].heap, b)
            && (Leaves(c.tlhs[t].heap, b) ==> L.LastOut(s, b))
            && HeapRel(L.TakeIn(s, b, Leaves(c.tlhs[t].heap, b)), t, TakeBack(c.tlhs[t].heap, b))
  {
    RelAt(c, s, t);
    CursorIsFirst(c.mem, c.tlhs[t].pc.cursor, s.tlhs[t].work);
    var b := s.tlhs[t].work[0];
    assert b in s.tlhs[t].work;
    TakeInHeaps(s, t, c.tlhs[t].heap, b);
  }

  lemma ReapOwn(c: Sys, s: L.Ledger, t: nat, b: Block, junk: nat)
    requires t in c.tlhs && t in s.tlhs && L.Lists(s.loc, t, s.tlhs[t])
    requires QueueRel(c.mem, c.tlhs[t], s.tlhs[t]) && HandRel(s, t, c.tlhs[t].pc)
    requires c.tlhs[t].pc.Reaping? && c.tlhs[t].pc.cursor == Some(b) && Read(c.mem, b).Link?
    requires s.tlhs[t].work != [] && b == s.tlhs[t].work[0]
    requires HeapInv(c.tlhs[t].heap) && Out(c.tlhs[t].heap, b)
    requires HeapRel(L.TakeIn(s, b, Leaves(c.tlhs[t].heap, b)), t, TakeBack(c.tlhs[t].heap, b))
    ensures ThreadRel(Reaped(c, t, b, junk), L.ReapOne(s, t, Leaves(c.tlhs[t].heap, b)), t)
  {
    var lv := Leaves(c.tlhs[t].heap, b);
    ReapOwnHeap(s, t, b, TakeBack(c.tlhs[t].heap, b), lv);
    assert b in s.tlhs[t].work;
    ReapQueues(c.mem, c.tlhs[t], s.tlhs[t], b, Reaped(c, t, b, junk).mem, TakeBack(c.tlhs[t].heap, b));
    ReapOwnHand(s, t, c.tlhs[t].pc, b, lv, Reaped(c, t, b, junk).tlhs[t].pc);
  }

  lemma ReapOwnHeap(s: L.Ledger, t: nat, b: Block, h': Heap, lv: bool)
    requires t in s.tlhs && s.tlhs[t].work != [] && b == s.tlhs[t].work[0]
    requires HeapRel(L.TakeIn(s, b, lv), t, h')
    ensures HeapRel(L.ReapOne(s, t, lv), t, h')
  {
    HeapFrame(L.TakeIn(s, b, lv), L.ReapOne(s, t, lv), t, h');
  }

  lemma ReapOwnHand(s: L.Ledger, t: nat, pc: Pc, b: Block, lv: bool, pc': Pc)
    requires t in s.tlhs && s.tlhs[t].work != [] && b == s.tlhs[t].work[0]
    requires HandRel(s, t, pc) && pc.Reaping? && pc'.Reaping?
    ensures HandRel(L.ReapOne(s, t, lv), t, pc')
  {
    forall y ensures !L.At(L.ReapOne(s, t, lv).loc, y, L.Hand(t)) { assert !L.At(s.loc, y, L.Hand(t)); }
  }

  lemma ReapQueues(mem: Memory, x: Thread, q: L.Queues, b: Block, mem': Memory, h': Heap)
    requires QueueRel(mem, x, q) && x.pc.Reaping? && x.pc.cursor == Some(b) && Read(mem, b).Link?
    requires NoDup(q.work) && q.work != [] && b == q.work[0] && b !in q.batch && b !in q.mail
    requires forall y :: y != b ==> Read(mem', y) == Read(mem, y)
    ensures QueueRel(mem', x.(heap := h', pc := Reaping(Read(mem, b).next, x.pc.sc)), q.(work := q.work[1..]))
  {
    CursorIsFirst(mem, x.pc.cursor, q.work);
    ChainFrame(mem, mem', Read(mem, b).next, q.work[1..]);
    ChainFrame(mem, mem', x.mailbox, q.mail);
    assert Chained(mem', q.batch);
  }

  // ---- Remote frees ----------------------------------------------------------------------------

  /** What `t` leaves alone when it writes its own fields and the link of block `b`. */
  ghost predicate OnlyWrites(c: Sys, c': Sys, t: nat, b: Block) {
    && (forall u :: u in c'.tlhs <==> u in c.tlhs)
    && (forall u :: u in c.tlhs && u != t ==> c'.tlhs[u] == c.tlhs[u])
    && (forall x :: x != b ==> Read(c'.mem, x) == Read(c.mem, x))
    && c'.owner == c.owner
  }

  /** The ledger changes the place of `b` only, and `b` is nobody else's. */
  ghost predicate OnlyMoves(s: L.Ledger, s': L.Ledger, t: nat, b: Block) {
    && (forall u :: u in s'.tlhs <==> u in s.tlhs)
    && (forall u :: u in s.tlhs && u != t ==> s'.tlhs[u] == s.tlhs[u])
    && s'.owner == s.owner && s'.loc.Keys == s.loc.Keys
    && (forall x :: x in s.loc && x != b ==> s'.loc[x] == s.loc[x])
    && b in s.loc && (s.loc[b] == L.Client || s.loc[b].t == t) && s'.loc[b] != L.Client && s'.loc[b].t == t
  }

  lemma MoveOther(c: Sys, s: L.Ledger, c': Sys, s': L.Ledger, t: nat, b: Block, u: nat)
    requires OnlyWrites(c, c', t, b) && OnlyMoves(s, s', t, b) && u in c.tlhs && u in s.tlhs && u != t
    ensures Undisturbed(c, s, c', s', u)
  {
    MovedEntries(s, s', u);
    forall x ensures L.At(s'.loc, x, L.Hand(u)) <==> L.At(s.loc, x, L.Hand(u)) {
      assert x in s'.loc <==> x in s.loc;
    }
  }

  lemma MoveRest(c: Sys, s: L.Ledger, c': Sys, s': L.Ledger, t: nat, b: Block)
    requires Rel(c, s) && t in c.tlhs && OnlyWrites(c, c', t, b) && OnlyMoves(s, s', t, b) && L.Inv(s')
    requires t in c'.tlhs && t in s'.tlhs && ThreadRel(c', s', t) && LiveRel(c', s')
    ensures Rel(c', s')
  {
    forall u | u in c'.tlhs && u != t ensures Undisturbed(c, s, c', s', u) {
      RelAt(c, s, u);
      MoveOther(c, s, c', s', t, b, u);
    }
    Assemble(c, s, c', s', t);
  }

  /** Linking a block in front of the batch. */
  lemma EnqueueChain(mem: Memory, q: seq<Block>, b: Block)
    requires Chained(mem, q) && b !in q
    ensures Chained(mem[b := Link(First(q))], [b] + q)
  {
    var mem', q' := mem[b := Link(First(q))], [b] + q;
    forall i | 0 <= i < |q'| - 1 ensures Read(mem', q'[i]) == Link(Some(q'[i + 1])) {
      if i > 0 { assert q'[i] == q[i - 1] && q'[i] in q && q'[i + 1] == q[i - 1 + 1]; }
    }
  }

  /** The block is acceptable for the batch of `t` without a flush. */
  ghost predicate Batchable(c: Sys, s: L.Ledger, t: nat, b: Block) {
    && t in c.tlhs && t in s.tlhs && b in s.loc && b.chunk in s.owner && s.owner[b.chunk] != t
    && ((s.loc[b] == L.Client && c.tlhs[t].pc.Idle?) || (s.loc[b] == L.Hand(t) && c.tlhs[t].pc == Appending(b)))
    && (s.tlhs[t].batch == [] || (|s.tlhs[t].batch| < BATCH_MAX && s.tlhs[t].target == Some(s.owner[b.chunk])))
  }

  lemma EnqueueSimulates(c: Sys, s: L.Ledger, t: nat, b: Block)
    requires Rel(c, s) && Batchable(c, s, t, b)
    ensures Rel(Enqueue(c, t, b), L.Append(s, t, b))
  {
    RelAt(c, s, t);
    L.AppendInv(s, t, b);
    EnqueueOwn(c, s, t, b);
    EnqueueLive(c, s, t, b);
    EnqueueShape(c, s, t, b);
    MoveRest(c, s, Enqueue(c, t, b), L.Append(s, t, b), t, b);
  }

  lemma EnqueueShape(c: Sys, s: L.Ledger, t: nat, b: Block)
    requires Batchable(c, s, t, b) && c.owner == s.owner
    ensures OnlyWrites(c, Enqueue(c, t, b), t, b) && OnlyMoves(s, L.Append(s, t, b), t, b)
  {}

  lemma EnqueueLive(c: Sys, s: L.Ledger, t: nat, b: Block)
    requires Batchable(c, s, t, b) && c.owner == s.owner && LiveRel(c, s)
    ensures LiveRel(Enqueue(c, t, b), L.Append(s, t, b))
  {
    var c', s' := Enqueue(c, t, b), L.Append(s, t, b);
    forall x ensures x in c'.live <==> L.At(s'.loc, x, L.Client) {
      assert x in c.live <==> L.At(s.loc, x, L.Client);
    }
  }

  lemma EnqueueOwn(c: Sys, s: L.Ledger, t: nat, b: Block)
    requires Batchable(c, s, t, b) && c.owner == s.owner
    requires ThreadRel(c, s, t) && L.Lists(s.loc, t, s.tlhs[t])
    ensures ThreadRel(Enqueue(c, t, b), L.Append(s, t, b), t)
  {
    var x, q := c.tlhs[t], s.tlhs[t];
    EnqueueShape(c, s, t, b);
    MovedEntries(s, L.Append(s, t, b), t);
    HeapFrame(s, L.Append(s, t, b), t, x.heap);
    EnqueueQueues(c.mem, x, q, s.owner[b.chunk], b);
    EnqueueHand(s, t, x.pc, b);
  }

  lemma EnqueueQueues(mem: Memory, x: Thread, q: L.Queues, u: nat, b: Block)
    requires QueueRel(mem, x, q) && q.work == [] && b !in q.batch && b !in q.mail
    ensures QueueRel(mem[b := Link(x.head)],
                     x.(target := Some(u), head := Some(b), tail := if x.count == 0 then Some(b) else x.tail,
                        count := x.count + 1, pc := Idle),
                     q.(batch := [b] + q.batch, target := Some(u)))
  {
    EnqueueChain(mem, q.batch, b);
    ChainFrame(mem, mem[b := Link(x.head)], x.mailbox, q.mail);
  }

  lemma EnqueueHand(s: L.Ledger, t: nat, pc: Pc, b: Block)
    requires t in s.tlhs && b in s.loc && b.chunk in s.owner && HandRel(s, t, pc)
    requires (s.loc[b] == L.Client && pc.Idle?) || (s.loc[b] == L.Hand(t) && pc == Appending(b))
    ensures HandRel(L.Append(s, t, b), t, Idle)
  {
    forall x ensures !L.At(L.Append(s, t, b).loc, x, L.Hand(t)) {
      assert L.At(s.loc, x, L.Hand(t)) ==> Holding(pc, x);
    }
  }

  /** A remote free that must flush first: the thread holds the block. */
  function PickedUp(c: Sys, t: nat, b: Block): Sys
    requires t in c.tlhs
  {
    Sys(c.tlhs[t := c.tlhs[t].(pc := Flushing(ThenBatch(b)))], c.owner, c.live - {b}, c.mem[b := Link(None)])
  }

  lemma PickUpSimulates(c: Sys, s: L.Ledger, t: nat, b: Block)
    requires Rel(c, s) && t in c.tlhs && t in s.tlhs && c.tlhs[t].pc.Idle? && L.At(s.loc, b, L.Client)
    requires !L.OwnedBy(s.owner, b, t) && s.tlhs[t].batch != []
    ensures Rel(PickedUp(c, t, b), L.PickUp(s, t, b))
  {
    RelAt(c, s, t);
    L.PickUpInv(s, t, b);
    PickUpOwn(c, s, t, b);
    PickUpLive(c, s, t, b);
    PickUpShape(c, s, t, b);
    MoveRest(c, s, PickedUp(c, t, b), L.PickUp(s, t, b), t, b);
  }

  lemma PickUpShape(c: Sys, s: L.Ledger, t: nat, b: Block)
    requires t in c.tlhs && t in s.tlhs && L.At(s.loc, b, L.Client)
    ensures OnlyWrites(c, PickedUp(c, t, b), t, b) && OnlyMoves(s, L.PickUp(s, t, b), t, b)
  {}

  lemma PickUpLive(c: Sys, s: L.Ledger, t: nat, b: Block)
    requires t in c.tlhs && L.At(s.loc, b, L.Client) && LiveRel(c, s)
    ensures LiveRel(PickedUp(c, t, b), L.PickUp(s, t, b))
  {
    var c', s' := PickedUp(c, t, b), L.PickUp(s, t, b);
    forall x ensures x in c'.live <==> L.At(s'.loc, x, L.Client) {
      assert x in c.live <==> L.At(s.loc, x, L.Client);
    }
  }

  lemma PickUpOwn(c: Sys, s: L.Ledger, t: nat, b: Block)
    requires t in c.tlhs && t in s.tlhs && c.tlhs[t].pc.Idle? && L.At(s.loc, b, L.Client)
    requires !L.OwnedBy(s.owner, b, t) && s.tlhs[t].batch != []
    requires ThreadRel(c, s, t) && L.Lists(s.loc, t, s.tlhs[t])
    ensures ThreadRel(PickedUp(c, t, b), L.PickUp(s, t, b), t)
  {
    PickUpShape(c, s, t, b);
    MovedEntries(s, L.PickUp(s, t, b), t);
    HeapFrame(s, L.PickUp(s, t, b), t, c.tlhs[t].heap);
    WriteFrame(s, c.mem, c.tlhs[t], t, b, Link(None));
    PickUpHand(s, t, b);
  }

  lemma PickUpHand(s: L.Ledger, t: nat, b: Block)
    requires HandRel(s, t, Idle) && L.At(s.loc, b, L.Client) && !L.OwnedBy(s.owner, b, t)
    ensures HandRel(L.PickUp(s, t, b), t, Flushing(ThenBatch(b)))
  {
    forall x ensures L.At(L.PickUp(s, t, b).loc, x, L.Hand(t)) <==> x == b {
      assert !L.At(s.loc, x, L.Hand(t));
    }
  }

  // ---- The flush loop -----------------------------------------------------------------------------

  function TailLinked(c: Sys, t: nat, b: Block): Sys
    requires t in c.tlhs && c.tlhs[t].pc.Loaded?
  {
    Sys(c.tlhs[t := c.tlhs[t].(pc := Linked(c.tlhs[t].pc.then_, c.tlhs[t].pc.seen))], c.owner, c.live,
        c.mem[b := Link(c.tlhs[t].pc.seen)])
  }

  /** Linking the tail moves no block. */
  lemma LinkSimulates(c: Sys, s: L.Ledger, t: nat)
    requires Rel(c, s) && t in c.tlhs && c.tlhs[t].pc.Loaded?
    ensures c.tlhs[t].tail.Some? && Rel(TailLinked(c, t, c.tlhs[t].tail.value), s)
  {
    RelAt(c, s, t);
    var b := s.tlhs[t].batch[|s.tlhs[t].batch| - 1];
    assert b in s.tlhs[t].batch && L.At(s.loc, b, L.Batch(t));
    LinkOwn(c, s, t, b);
    var c' := TailLinked(c, t, b);
    forall u | u in c'.tlhs && u != t ensures Undisturbed(c, s, c', s, u) {
      assert u in c.tlhs;
      RelAt(c, s, u);
      LinkOther(c, s, t, b, u);
    }
    assert LiveRel(c', s) by { assert c'.live == c.live; }
    Assemble(c, s, c', s, t);
  }

  lemma LinkOther(c: Sys, s: L.Ledger, t: nat, b: Block, u: nat)
    requires t in c.tlhs && c.tlhs[t].pc.Loaded? && u in c.tlhs && u in s.tlhs && u != t
    requires L.At(s.loc, b, L.Batch(t))
    ensures Undisturbed(c, s, TailLinked(c, t, b), s, u)
  {}

  lemma LinkOwn(c: Sys, s: L.Ledger, t: nat, b: Block)
    requires t in c.tlhs && t in s.tlhs && c.tlhs[t].pc.Loaded? && s.tlhs[t].batch != []
    requires ThreadRel(c, s, t) && L.Lists(s.loc, t, s.tlhs[t])
    requires b == s.tlhs[t].batch[|s.tlhs[t].batch| - 1] && L.At(s.loc, b, L.Batch(t))
    ensures ThreadRel(TailLinked(c, t, b), s, t)
  {
    LinkQueues(c.mem, c.tlhs[t], s.tlhs[t], b);
    assert HandRel(s, t, TailLinked(c, t, b).tlhs[t].pc);
  }

  lemma LinkQueues(mem: Memory, x: Thread, q: L.Queues, b: Block)
    requires QueueRel(mem, x, q) && x.pc.Loaded? && q.batch != [] && NoDup(q.batch)
    requires b == q.batch[|q.batch| - 1] && b !in q.mail
    ensures QueueRel(mem[b := Link(x.pc.seen)], x.(pc := Linked(x.pc.then_, x.pc.seen)), q)
  {
    ChainFrame(mem, mem[b := Link(x.pc.seen)], x.mailbox, q.mail);
  }

  /** A batch whose tail links to the head of a chain is one chain with it: whatever the mailbox
      went through since it was read, equality of the heads is enough. */
  lemma JoinChains(mem: Memory, batch: seq<Block>, h: Option<Block>, mail: seq<Block>)
    requires batch != [] && Chained(mem, batch) && Read(mem, batch[|batch| - 1]) == Link(h)
    requires Chain(mem, h, mail)
    ensures Chain(mem, First(batch), batch + mail)
  {
    var q := batch + mail;
    forall i | 0 <= i < |q| - 1 ensures Read(mem, q[i]) == Link(Some(q[i + 1])) {
      if i >= |batch| { assert q[i] == mail[i - |batch|] && q[i + 1] == mail[i - |batch| + 1]; }
    }
  }

  lemma PublishSimulates(c: Sys, s: L.Ledger, t: nat)
    requires Rel(c, s) && t in c.tlhs && c.tlhs[t].pc.Linked? && TargetExists(c, t)
    requires c.tlhs[c.tlhs[t].target.value].mailbox == c.tlhs[t].pc.seen
    ensures t in s.tlhs && s.tlhs[t].target == c.tlhs[t].target && c.tlhs[t].target.value in s.tlhs
    ensures Rel(Publish(c, t), L.Push(s, t))
  {
    var u := c.tlhs[t].target.value;
    PublishFacts(c, s, t, u);
    var c', s' := Publish(c, t), L.Push(s, t);
    PublishShape(c, s, t, u);
    PublishOwn(c, s, t, u);
    PublishTarget(c, s, t, u);
    forall v | v in c'.tlhs && v != t && v != u ensures Undisturbed(c, s, c', s', v) {
      RelAt(c, s, v);
      PublishOther(c, s, t, u, v);
    }
    PublishLive(c, s, t, u);
    AssembleTwo(c, s, c', s', t, u);
  }

  lemma PublishShape(c: Sys, s: L.Ledger, t: nat, u: nat)
    requires t in c.tlhs && t in s.tlhs && u in c.tlhs && u in s.tlhs && c.owner == s.owner
    requires c.tlhs[t].pc.Linked? && c.tlhs[t].target == Some(u) && s.tlhs[t].target == Some(u)
    ensures forall v :: v in Publish(c, t).tlhs <==> v in c.tlhs
    ensures forall v :: v in L.Push(s, t).tlhs <==> v in s.tlhs
    ensures Publish(c, t).owner == L.Push(s, t).owner
  {}

  lemma AssembleTwo(c: Sys, s: L.Ledger, c': Sys, s': L.Ledger, t: nat, u: nat)
    requires Rel(c, s) && L.Inv(s') && c'.owner == s'.owner && LiveRel(c', s')
    requires t in c'.tlhs && t in s'.tlhs && ThreadRel(c', s', t)
    requires u in c'.tlhs && u in s'.tlhs && ThreadRel(c', s', u)
    requires forall v :: v in c'.tlhs && v != t && v != u ==> Undisturbed(c, s, c', s', v)
    requires forall v :: v in s'.tlhs ==> v in c'.tlhs
    ensures Rel(c', s')
  {
    forall v | v in c'.tlhs ensures v in s'.tlhs && ThreadRel(c', s', v) {
      if v != t && v != u { OtherThread(c, s, c', s', v); }
    }
  }

  lemma PublishFacts(c: Sys, s: L.Ledger, t: nat, u: nat)
    requires Rel(c, s) && t in c.tlhs && c.tlhs[t].pc.Linked? && c.tlhs[t].target == Some(u) && u in c.tlhs
    ensures t in s.tlhs && u in s.tlhs && t != u && s.tlhs[t].target == Some(u) && s.tlhs[t].batch != []
    ensures ThreadRel(c, s, t) && ThreadRel(c, s, u)
    ensures L.Inv(L.Push(s, t))
  {
    RelAt(c, s, t);
    RelAt(c, s, u);
    L.PushInv(s, t);
  }

  lemma PushEntries(s: L.Ledger, t: nat, u: nat, v: nat)
    requires t in s.tlhs && u in s.tlhs && s.tlhs[t].target == Some(u)
    ensures SameHeapEntries(s, L.Push(s, t), v)
    ensures forall b :: L.At(L.Push(s, t).loc, b, L.Hand(v)) <==> L.At(s.loc, b, L.Hand(v))
  {
    MovedEntries(s, L.Push(s, t), v);
  }

  lemma PublishOwn(c: Sys, s: L.Ledger, t: nat, u: nat)
    requires t in c.tlhs && t in s.tlhs && u in c.tlhs && u in s.tlhs && t != u
    requires c.tlhs[t].pc.Linked? && c.tlhs[t].target == Some(u) && s.tlhs[t].target == Some(u)
    requires ThreadRel(c, s, t)
    ensures ThreadRel(Publish(c, t), L.Push(s, t), t)
  {
    PushEntries(s, t, u, t);
    HeapFrame(s, L.Push(s, t), t, c.tlhs[t].heap);
    HandFrame(s, L.Push(s, t), t, c.tlhs[t].pc);
    SameHolding(L.Push(s, t), t, c.tlhs[t].pc);
  }

  lemma SameHolding(s: L.Ledger, t: nat, pc: Pc)
    requires pc.Linked? && HandRel(s, t, pc)
    ensures HandRel(s, t, AfterFlush(pc.then_))
  {
    forall b ensures Holding(AfterFlush(pc.then_), b) <==> Holding(pc, b) {}
  }

  lemma PublishTarget(c: Sys, s: L.Ledger, t: nat, u: nat)
    requires t in c.tlhs && t in s.tlhs && u in c.tlhs && u in s.tlhs && t != u
    requires c.tlhs[t].pc.Linked? && c.tlhs[t].target == Some(u) && s.tlhs[t].target == Some(u)
    requires ThreadRel(c, s, t) && ThreadRel(c, s, u) && c.tlhs[u].mailbox == c.tlhs[t].pc.seen
    ensures ThreadRel(Publish(c, t), L.Push(s, t), u)
  {
    PushEntries(s, t, u, u);
    HeapFrame(s, L.Push(s, t), u, c.tlhs[u].heap);
    HandFrame(s, L.Push(s, t), u, c.tlhs[u].pc);
    JoinChains(c.mem, s.tlhs[t].batch, c.tlhs[u].mailbox, s.tlhs[u].mail);
  }

  lemma PublishOther(c: Sys, s: L.Ledger, t: nat, u: nat, v: nat)
    requires t in c.tlhs && t in s.tlhs && u in c.tlhs && u in s.tlhs && v in c.tlhs && v in s.tlhs
    requires c.tlhs[t].pc.Linked? && c.tlhs[t].target == Some(u) && s.tlhs[t].target == Some(u) && v != t && v != u
    ensures Undisturbed(c, s, Publish(c, t), L.Push(s, t), v)
  {
    PushEntries(s, t, u, v);
  }

  lemma PublishLive(c: Sys, s: L.Ledger, t: nat, u: nat)
    requires t in c.tlhs && t in s.tlhs && u in c.tlhs && u in s.tlhs && LiveRel(c, s)
    requires c.tlhs[t].pc.Linked? && c.tlhs[t].target == Some(u) && s.tlhs[t].target == Some(u)
    ensures LiveRel(Publish(c, t), L.Push(s, t))
  {
    forall b ensures L.At(L.Push(s, t).loc, b, L.Client) <==> L.At(s.loc, b, L.Client) {}
  }

  // ---- New threads and foreign writes ---------------------------------------------------------------

  lemma StartSimulates(c: Sys, s: L.Ledger, t: nat, x: Thread)
    requires Rel(c, s) && t !in c.tlhs && x == Thread(EmptyHeap(), None, None, None, 0, None, Idle)
    ensures Rel(SetThread(c, t, x), L.NewTlh(s, t))
  {
    var c', s' := SetThread(c, t, x), L.NewTlh(s, t);
    L.NewTlhInv(s, t);
    StartOwn(s, t);
    forall u | u in c'.tlhs && u != t ensures Undisturbed(c, s, c', s', u) {
      assert u in c.tlhs;
      RelAt(c, s, u);
      StartOther(c, s, t, x, u);
    }
    assert LiveRel(c', s') by { assert c'.live == c.live; }
    assert QueueRel(c'.mem, x, L.NoQueues);
    Assemble(c, s, c', s', t);
  }

  lemma StartOwn(s: L.Ledger, t: nat)
    requires L.Inv(s) && t !in s.tlhs
    ensures HeapRel(L.NewTlh(s, t), t, EmptyHeap()) && HandRel(L.NewTlh(s, t), t, Idle)
  {
    EmptyHeapInv();
    forall b ensures !L.At(s.loc, b, L.Hand(t)) {}
  }

  lemma StartOther(c: Sys, s: L.Ledger, t: nat, x: Thread, u: nat)
    requires u in c.tlhs && u in s.tlhs && u != t
    ensures Undisturbed(c, s, SetThread(c, t, x), L.NewTlh(s, t), u)
  {}

  function Scribbled(c: Sys, b: Block, w: Word): Sys {
    Sys(c.tlhs, c.owner, c.live, c.mem[b := w])
  }

  lemma ScribbleSimulates(c: Sys, s: L.Ledger, b: Block, w: Word)
    requires Rel(c, s) && (b in c.live || !Outstanding(c, b))
    ensures Rel(Scribbled(c, b, w), s)
  {
    var c' := Scribbled(c, b, w);
    NotQueued(c, s, b);
    forall u | u in c'.tlhs ensures u in s.tlhs && ThreadRel(c', s, u) {
      RelAt(c, s, u);
      ScribbleOther(c, s, b, w, u);
      OtherThread(c, s, c', s, u);
    }
    assert LiveRel(c', s) by { assert c'.live == c.live; }
  }

  lemma NotQueued(c: Sys, s: L.Ledger, b: Block)
    requires Rel(c, s) && (b in c.live || !Outstanding(c, b))
    ensures b in s.loc ==> s.loc[b] == L.Client
  {
    if b in c.live {
      assert L.At(s.loc, b, L.Client);
    } else if b in s.loc {
      RelAt(c, s, s.owner[b.chunk]);
    }
  }

  lemma ScribbleOther(c: Sys, s: L.Ledger, b: Block, w: Word, u: nat)
    requires u in c.tlhs && u in s.tlhs && (b in s.loc ==> s.loc[b] == L.Client)
    ensures Undisturbed(c, s, Scribbled(c, b, w), s, u)
  {}
}
