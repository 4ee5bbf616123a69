/** Whole runs of the cross-thread free protocol: safety, exclusive places, safe release of chunks,
    untouched client blocks and the end of every reap pass. */
module ProtocolRuns {
  import opened Common
  import H = Heaps
  import opened ThreadHeap
  import opened Interleaving
  import opened Linearization
  import L = RemoteFree
  import Sizes

  // ---- One step ---------------------------------------------------------------------

  /** The compare-and-swap of `t` would succeed now. */
  predicate CasSucceeds(c: Sys, t: nat, spurious: bool)
    requires t in c.tlhs && c.tlhs[t].pc.Linked? && TargetExists(c, t)
  {
    !spurious && c.tlhs[c.tlhs[t].target.value].mailbox == c.tlhs[t].pc.seen
  }

  /** Some block that was not handed out is given to a client. */
  ghost predicate Gives(s: L.Ledger, t: nat, s': L.Ledger) {
    exists b :: b !in s.loc && s' == L.Give(s, t, b)
  }

  /** The atomic step that an action is.  Loading, linking and a failed compare-and-swap are none. */
  ghost predicate Follows(c: Sys, s: L.Ledger, a: Action, s': L.Ledger)
    requires Guard(c, a) && Safe(c, a)
  {
    match a
    case Start(t) => s' == L.NewTlh(s, t)
    case AllocFast(t, sc) => Gives(s, t, s')
    case DrainMailbox(t, _) => t in s.tlhs && s' == L.Drain(s, t)
    case ReapNode(t, _) =>
      t in s.tlhs && s.tlhs[t].work != [] && s' == L.ReapOne(s, t, Leaves(c.tlhs[t].heap, c.tlhs[t].pc.cursor.value))
    case ReapDone(t, _) => s' == s || Gives(s, t, s')
    case AllocPages(t, _, _) => s' == s || Gives(s, t, s')
    case FreeLocal(t, b, _) => s' == L.TakeIn(s, b, Leaves(c.tlhs[t].heap, b))
    case FreeRemote(t, b) =>
      t in s.tlhs && b.chunk in s.owner && (s' == L.Append(s, t, b) || s' == L.PickUp(s, t, b))
    case FlushStart(_) => s' == s
    case LoadHead(_) => s' == s
    case LinkTail(_) => s' == s
    case Cas(t, spurious) =>
      && t in s.tlhs && s.tlhs[t].target == c.tlhs[t].target && c.tlhs[t].target.value in s.tlhs
      && s' == if CasSucceeds(c, t, spurious) then L.Push(s, t) else s
    case AppendHeld(t) => t in s.tlhs && c.tlhs[t].pc.held.chunk in s.owner && s' == L.Append(s, t, c.tlhs[t].pc.held)
    case Scribble(_, _) => s' == s
  }

  lemma AllocFastStep(c: Sys, s: L.Ledger, t: nat, sc: nat) returns (s': L.Ledger)
    requires Rel(c, s) && Guard(c, AllocFast(t, sc))
    ensures Rel(Apply(c, AllocFast(t, sc)), s') && Follows(c, s, AllocFast(t, sc), s')
  {
    RelAt(c, s, t);
    var r := Popped(c, t, sc).value;
    FastBlockOk(c.tlhs[t].heap, sc);
    HandSimulates(c, s, t, r.0, r.1, None);
    s' := L.Give(s, t, r.1);
  }

  lemma ReapDoneStep(c: Sys, s: L.Ledger, t: nat, spare: Option<nat>) returns (s': L.Ledger)
    requires Rel(c, s) && Guard(c, ReapDone(t, spare))
    ensures Safe(c, ReapDone(t, spare))
    ensures Rel(Apply(c, ReapDone(t, spare)), s') && Follows(c, s, ReapDone(t, spare), s')
  {
    if c.tlhs[t].pc.sc.None? {
      ReapOver(c, s, t);
      s' := s;
    } else {
      s' := ReapDoneAlloc(c, s, t, c.tlhs[t].pc.sc.value, spare);
    }
  }

  lemma ReapOver(c: Sys, s: L.Ledger, t: nat)
    requires Rel(c, s) && t in c.tlhs && c.tlhs[t].pc.Reaping? && c.tlhs[t].pc.cursor.None?
    ensures Rel(SetPc(c, t, Idle), s)
  {
    RelAt(c, s, t);
    Settled(c.mem, s, t, c.tlhs[t], c.tlhs[t].heap);
    PcSimulates(c, s, t, Idle);
  }

  lemma ReapDoneAlloc(c: Sys, s: L.Ledger, t: nat, sc: nat, spare: Option<nat>) returns (s': L.Ledger)
    requires Rel(c, s) && t in c.tlhs && c.tlhs[t].pc == Reaping(None, Some(sc))
    requires spare.Some? ==> spare.value !in c.owner
    ensures sc < |c.tlhs[t].heap.bins| && Sizes.ClassToSize(sc) > 0
    ensures Rel(Allocated(c, t, FinishAlloc(c.tlhs[t].heap, sc, spare)), s')
    ensures s' == s || Gives(s, t, s')
  {
    RelAt(c, s, t);
    SpareIsNew(s, t, c.tlhs[t].heap, spare);
    FinishAllocOk(c.tlhs[t].heap, sc, spare);
    s' := AllocatedStep(c, s, t, FinishAlloc(c.tlhs[t].heap, sc, spare), spare);
  }

  lemma SpareIsNew(s: L.Ledger, t: nat, h: Heap, spare: Option<nat>)
    requires HeapRel(s, t, h) && (spare.Some? ==> spare.value !in s.owner)
    ensures spare.Some? ==> spare.value !in h.kinds
  {}

  lemma AllocatedStep(c: Sys, s: L.Ledger, t: nat, r: (Heap, Option<Block>), spare: Option<nat>) returns (s': L.Ledger)
    requires Rel(c, s) && t in c.tlhs
    requires c.tlhs[t].pc.Idle? || (c.tlhs[t].pc.Reaping? && c.tlhs[t].pc.cursor.None?)
    requires spare.Some? ==> spare.value !in c.owner
    requires r.1.Some? ==> HandedOut(c.tlhs[t].heap, r.0, r.1.value, spare)
    requires r.1.None? ==> SameOut(c.tlhs[t].heap, r.0)
    ensures Rel(Allocated(c, t, r), s')
    ensures s' == s || Gives(s, t, s')
  {
    if r.1.Some? {
      HandSimulates(c, s, t, r.0, r.1.value, spare);
      s' := L.Give(s, t, r.1.value);
    } else {
      KeepSimulates(c, s, t, r.0);
      s' := s;
    }
  }

  lemma AllocPagesStep(c: Sys, s: L.Ledger, t: nat, n: nat, spare: Option<nat>) returns (s': L.Ledger)
    requires Rel(c, s) && Guard(c, AllocPages(t, n, spare))
    ensures Rel(Apply(c, AllocPages(t, n, spare)), s') && Follows(c, s, AllocPages(t, n, spare), s')
  {
    RelAt(c, s, t);
    SpareIsNew(s, t, c.tlhs[t].heap, spare);
    SpanBlockOk(c.tlhs[t].heap, n, spare);
    s' := AllocatedStep(c, s, t, SpanBlock(c.tlhs[t].heap, n, spare), spare);
  }

  lemma FreeRemoteStep(c: Sys, s: L.Ledger, t: nat, b: Block) returns (s': L.Ledger)
    requires Rel(c, s) && Guard(c, FreeRemote(t, b))
    ensures Rel(Apply(c, FreeRemote(t, b)), s') && Follows(c, s, FreeRemote(t, b), s')
  {
    RelAt(c, s, t);
    assert L.At(s.loc, b, L.Client);
    var x := c.tlhs[t];
    if Joins(x, c.owner[b.chunk]) || NothingToFlush(x) {
      EnqueueSimulates(c, s, t, b);
      s' := L.Append(s, t, b);
    } else {
      PickUpSimulates(c, s, t, b);
      s' := L.PickUp(s, t, b);
    }
  }

  lemma CasOutcome(c: Sys, s: L.Ledger, t: nat, spurious: bool) returns (s': L.Ledger)
    requires Rel(c, s) && Guard(c, Cas(t, spurious))
    ensures Safe(c, Cas(t, spurious))
    ensures Rel(Apply(c, Cas(t, spurious)), s') && Follows(c, s, Cas(t, spurious), s')
  {
    TargetKnown(c, s, t);
    RelAt(c, s, t);
    if CasSucceeds(c, t, spurious) {
      PublishSimulates(c, s, t);
      s' := L.Push(s, t);
    } else {
      var x := c.tlhs[t];
      PcSimulates(c, s, t, Loaded(x.pc.then_, c.tlhs[x.target.value].mailbox));
      s' := s;
    }
  }

  /** A thread inside the flush loop has a non-empty batch for a heap that exists. */
  lemma TargetKnown(c: Sys, s: L.Ledger, t: nat)
    requires Rel(c, s) && t in c.tlhs
    requires c.tlhs[t].pc.Flushing? || c.tlhs[t].pc.Loaded? || c.tlhs[t].pc.Linked?
    ensures TargetExists(c, t) && t in s.tlhs && s.tlhs[t].target == c.tlhs[t].target
    ensures c.tlhs[t].target.value in s.tlhs
  {
    RelAt(c, s, t);
    var q := s.tlhs[t].batch;
    assert q[0] in q;
    assert L.OwnedBy(s.owner, q[0], s.tlhs[t].target.value);
  }

  lemma ReapNodeStep(c: Sys, s: L.Ledger, t: nat, junk: nat) returns (s': L.Ledger)
    requires Rel(c, s) && Guard(c, ReapNode(t, junk))
    ensures Safe(c, ReapNode(t, junk))
    ensures Rel(Apply(c, ReapNode(t, junk)), s') && Follows(c, s, ReapNode(t, junk), s')
  {
    var b := c.tlhs[t].pc.cursor.value;
    ReapPrepared(c, s, t, b, junk);
    ReapSimulates(c, s, t, b, junk);
    s' := L.ReapOne(s, t, Leaves(c.tlhs[t].heap, b));
  }

  lemma FreeLocalStep(c: Sys, s: L.Ledger, t: nat, b: Block, junk: nat) returns (s': L.Ledger)
    requires Rel(c, s) && Guard(c, FreeLocal(t, b, junk))
    ensures Safe(c, FreeLocal(t, b, junk))
    ensures Rel(Apply(c, FreeLocal(t, b, junk)), s') && Follows(c, s, FreeLocal(t, b, junk), s')
  {
    FreeLocalSimulates(c, s, t, b, junk);
    s' := L.TakeIn(s, b, Leaves(c.tlhs[t].heap, b));
  }

  lemma AppendHeldStep(c: Sys, s: L.Ledger, t: nat) returns (s': L.Ledger)
    requires Rel(c, s) && Guard(c, AppendHeld(t))
    ensures Safe(c, AppendHeld(t))
    ensures Rel(Apply(c, AppendHeld(t)), s') && Follows(c, s, AppendHeld(t), s')
  {
    HeldIsBatchable(c, s, t);
    EnqueueSimulates(c, s, t, c.tlhs[t].pc.held);
    s' := L.Append(s, t, c.tlhs[t].pc.held);
  }

  lemma HeldIsBatchable(c: Sys, s: L.Ledger, t: nat)
    requires Rel(c, s) && t in c.tlhs && c.tlhs[t].pc.Appending?
    ensures Batchable(c, s, t, c.tlhs[t].pc.held)
  {
    RelAt(c, s, t);
    HeldFacts(c.mem, s, t, c.tlhs[t]);
  }

  lemma HeldFacts(mem: Memory, s: L.Ledger, t: nat, x: Thread)
    requires x.pc.Appending? && t in s.tlhs && HandRel(s, t, x.pc) && QueueRel(mem, x, s.tlhs[t])
    ensures L.At(s.loc, x.pc.held, L.Hand(t)) && !L.OwnedBy(s.owner, x.pc.held, t) && s.tlhs[t].batch == []
  {
    assert Holding(x.pc, x.pc.held);
  }

  lemma FlushStartStep(c: Sys, s: L.Ledger, t: nat)
    requires Rel(c, s) && t in c.tlhs && c.tlhs[t].pc.Idle? && !NothingToFlush(c.tlhs[t])
    ensures Rel(SetPc(c, t, Flushing(Done)), s)
  {
    RelAt(c, s, t);
    FlushStartFacts(c.mem, s, t, c.tlhs[t]);
    PcSimulates(c, s, t, Flushing(Done));
  }

  lemma FlushStartFacts(mem: Memory, s: L.Ledger, t: nat, x: Thread)
    requires t in s.tlhs && x.pc.Idle? && !NothingToFlush(x) && HandRel(s, t, x.pc) && QueueRel(mem, x, s.tlhs[t])
    ensures PcRel(mem, Flushing(Done), s.tlhs[t]) && HandRel(s, t, Flushing(Done))
  {
    forall b ensures !Holding(Flushing(Done), b) && !Holding(Idle, b) {}
  }

  /** Control points that hold the same block, or none, are alike to the ledger. */
  lemma HandUnheld(s: L.Ledger, t: nat, pc: Pc, pc': Pc)
    requires HandRel(s, t, pc) && forall b :: Holding(pc', b) <==> Holding(pc, b)
    ensures HandRel(s, t, pc')
  {}

  lemma LoadHeadStep(c: Sys, s: L.Ledger, t: nat)
    requires Rel(c, s) && t in c.tlhs && c.tlhs[t].pc.Flushing?
    ensures TargetExists(c, t)
    ensures Rel(SetPc(c, t, Loaded(c.tlhs[t].pc.then_, c.tlhs[c.tlhs[t].target.value].mailbox)), s)
  {
    TargetKnown(c, s, t);
    RelAt(c, s, t);
    var pc := Loaded(c.tlhs[t].pc.then_, c.tlhs[c.tlhs[t].target.value].mailbox);
    HandUnheld(s, t, c.tlhs[t].pc, pc);
    PcSimulates(c, s, t, pc);
  }

  /** Linearization: whatever action is possible, it is safe, and its effect on the shared state is
      its atomic step on the ledger. */
  lemma Step(c: Sys, s: L.Ledger, a: Action) returns (s': L.Ledger)
    requires Rel(c, s) && Guard(c, a)
    ensures Safe(c, a)
    ensures Rel(Apply(c, a), s')
    ensures Follows(c, s, a, s')
  {
    match a
    case Start(t) => s' := L.NewTlh(s, t); StartSimulates(c, s, t, Thread(EmptyHeap(), None, None, None, 0, None, Idle));
    case AllocFast(t, sc) => s' := AllocFastStep(c, s, t, sc);
    case DrainMailbox(t, sc) => DrainSimulates(c, s, t, sc); s' := L.Drain(s, t);
    case ReapNode(t, junk) => s' := ReapNodeStep(c, s, t, junk);
    case ReapDone(t, spare) => s' := ReapDoneStep(c, s, t, spare);
    case AllocPages(t, n, spare) => s' := AllocPagesStep(c, s, t, n, spare);
    case FreeLocal(t, b, junk) => s' := FreeLocalStep(c, s, t, b, junk);
    case FreeRemote(t, b) => s' := FreeRemoteStep(c, s, t, b);
    case FlushStart(t) => FlushStartStep(c, s, t); s' := s;
    case LoadHead(t) => LoadHeadStep(c, s, t); s' := s;
    case LinkTail(t) => LinkSimulates(c, s, t); s' := s;
    case Cas(t, spurious) => s' := CasOutcome(c, s, t, spurious);
    case AppendHeld(t) => s' := AppendHeldStep(c, s, t);
    case Scribble(b, w) => ScribbleSimulates(c, s, b, w); s' := s;
  }

  // ---- Runs --------------------------------------------------------------------------

  /** The state after the actions, if every one of them was possible and went well. */
  ghost function Exec(c: Sys, acts: seq<Action>): Option<Sys>
    decreases |acts|
  {
    if acts == [] then Some(c)
    else if Guard(c, acts[0]) && Safe(c, acts[0]) then Exec(Apply(c, acts[0]), acts[1..])
    else None
  }

  ghost predicate Reachable(c: Sys) {
    exists acts :: Exec(Initial, acts) == Some(c)
  }

  lemma {:induction false} RunFollows(c: Sys, s: L.Ledger, acts: seq<Action>, c': Sys) returns (s': L.Ledger)
    requires Rel(c, s) && Exec(c, acts) == Some(c')
    ensures Rel(c', s')
    decreases |acts|
  {
    if acts == [] {
      s' := s;
    } else {
      var s1 := Step(c, s, acts[0]);
      s' := RunFollows(Apply(c, acts[0]), s1, acts[1..], c');
    }
  }

  lemma {:induction false} ExecAppend(c: Sys, acts: seq<Action>, c': Sys, a: Action)
    requires Exec(c, acts) == Some(c') && Guard(c', a) && Safe(c', a)
    ensures Exec(c, acts + [a]) == Some(Apply(c', a))
    decreases |acts|
  {
    var all := acts + [a];
    if acts == [] {
      assert all[1..] == [];
      assert Exec(Apply(c, a), all[1..]) == Some(Apply(c, a));
    } else {
      ExecAppend(Apply(c, acts[0]), acts[1..], c', a);
      assert all[0] == acts[0] && all[1..] == acts[1..] + [a];
    }
  }

  lemma ReachableStep(c: Sys, a: Action)
    requires Reachable(c) && Guard(c, a) && Safe(c, a)
    ensures Reachable(Apply(c, a))
  {
    var acts :| Exec(Initial, acts) == Some(c);
    ExecAppend(Initial, acts, c, a);
  }

  lemma InitialRel()
    ensures Rel(Initial, L.Ledger(map[], map[], map[]))
  {}

  /** Every run of every interleaving has a ledger that the memory spells out. */
  lemma EveryRun(c: Sys) returns (s: L.Ledger)
    requires Reachable(c)
    ensures Rel(c, s)
  {
    var acts :| Exec(Initial, acts) == Some(c);
    InitialRel();
    s := RunFollows(Initial, L.Ledger(map[], map[], map[]), acts, c);
  }

  /** No run goes wrong: in a reachable state, every possible action is safe.  In particular, a reap pass
      never reads a node of a chunk that was released, nor a link that was overwritten. */
  lemma NeverWrong(c: Sys, a: Action)
    requires Reachable(c) && Guard(c, a)
    ensures Safe(c, a)
  {
    var s := EveryRun(c);
    var s' := Step(c, s, a);
  }

  // ---- Places, read off the memory -------------------------------------------------------

  ghost predicate OnChain(mem: Memory, h: Option<Block>, b: Block) {
    exists q :: Chain(mem, h, q) && b in q
  }

  /** The first `n` blocks from the head of a batch. */
  ghost predicate Spells(mem: Memory, h: Option<Block>, n: nat, q: seq<Block>) {
    |q| == n && h == First(q) && Chained(mem, q)
  }

  ghost predicate InBatch(mem: Memory, x: Thread, b: Block) {
    exists q :: Spells(mem, x.head, x.count, q) && b in q
  }

  /** Block `b` sits at place `p`, by what pointers and memory say. */
  ghost predicate Sits(c: Sys, b: Block, p: L.Place) {
    match p
    case Client => b in c.live
    case Hand(t) => t in c.tlhs && Holding(c.tlhs[t].pc, b)
    case Batch(t) => t in c.tlhs && InBatch(c.mem, c.tlhs[t], b)
    case Mail(t) => t in c.tlhs && OnChain(c.mem, c.tlhs[t].mailbox, b)
    case Work(t) => t in c.tlhs && c.tlhs[t].pc.Reaping? && OnChain(c.mem, c.tlhs[t].pc.cursor, b)
  }

  /** Memory determines the chain: acyclic, finite, one way to read it. */
  lemma {:induction false} ChainUnique(mem: Memory, h: Option<Block>, q: seq<Block>, r: seq<Block>)
    requires Chain(mem, h, q) && Chain(mem, h, r)
    ensures q == r
    decreases |q|
  {
    if q != [] {
      ChainTail(mem, h, q);
      ChainTail(mem, h, r);
      ChainUnique(mem, Read(mem, q[0]).next, q[1..], r[1..]);
      assert q == [q[0]] + q[1..] && r == [r[0]] + r[1..];
    }
  }

  lemma ChainTail(mem: Memory, h: Option<Block>, q: seq<Block>)
    requires Chain(mem, h, q) && q != []
    ensures Read(mem, q[0]).Link? && Chain(mem, Read(mem, q[0]).next, q[1..])
  {
    var rest := q[1..];
    assert |q| > 1 ==> Read(mem, q[0]) == Link(Some(q[0 + 1]));
    forall i | 0 <= i < |rest| - 1 ensures Read(mem, rest[i]) == Link(Some(rest[i + 1])) {
      assert rest[i] == q[i + 1] && rest[i + 1] == q[i + 2];
    }
  }

  lemma {:induction false} BatchUnique(mem: Memory, h: Option<Block>, n: nat, q: seq<Block>, r: seq<Block>)
    requires Spells(mem, h, n, q) && Spells(mem, h, n, r)
    ensures q == r
  {
    var i := 0;
    while i < n
      invariant 0 <= i <= n
      invariant q[..i] == r[..i]
    {
      if i > 0 {
        assert q[i - 1] == q[..i][i - 1] == r[i - 1];
        assert Read(mem, q[i - 1]) == Link(Some(q[i - 1 + 1])) && Read(mem, r[i - 1]) == Link(Some(r[i - 1 + 1]));
      }
      assert q[..i + 1] == q[..i] + [q[i]] && r[..i + 1] == r[..i] + [r[i]];
      i := i + 1;
    }
    assert q == q[..n] && r == r[..n];
  }

  lemma SitsAtLedger(c: Sys, s: L.Ledger, b: Block, p: L.Place)
    requires Rel(c, s)
    ensures Sits(c, b, p) <==> L.At(s.loc, b, p)
  {
    if p.Client? {
    } else if p.t !in c.tlhs {
      assert p.t !in s.tlhs;
    } else {
      RelAt(c, s, p.t);
      SitsAtThread(c.mem, c.tlhs[p.t], s, b, p);
    }
  }

  lemma SitsAtThread(mem: Memory, x: Thread, s: L.Ledger, b: Block, p: L.Place)
    requires !p.Client? && p.t in s.tlhs && QueueRel(mem, x, s.tlhs[p.t]) && HandRel(s, p.t, x.pc)
    requires L.Lists(s.loc, p.t, s.tlhs[p.t])
    ensures p.Hand? ==> (Holding(x.pc, b) <==> L.At(s.loc, b, p))
    ensures p.Batch? ==> (InBatch(mem, x, b) <==> L.At(s.loc, b, p))
    ensures p.Mail? ==> (OnChain(mem, x.mailbox, b) <==> L.At(s.loc, b, p))
    ensures p.Work? ==> (x.pc.Reaping? && OnChain(mem, x.pc.cursor, b) <==> L.At(s.loc, b, p))
  {
    var q := s.tlhs[p.t];
    if p.Batch? {
      assert Spells(mem, x.head, x.count, q.batch);
      if r :| Spells(mem, x.head, x.count, r) && b in r { BatchUnique(mem, x.head, x.count, q.batch, r); }
    } else if p.Mail? {
      if r :| Chain(mem, x.mailbox, r) && b in r { ChainUnique(mem, x.mailbox, q.mail, r); }
    } else if p.Work? && x.pc.Reaping? {
      if r :| Chain(mem, x.pc.cursor, r) && b in r { ChainUnique(mem, x.pc.cursor, q.work, r); }
    }
  }

  /** In every reachable state, a block that is handed out is at exactly one place, and any other
      block is at none. */
  lemma OnePlace(c: Sys, b: Block)
    requires Reachable(c)
    ensures Outstanding(c, b) <==> exists p :: Sits(c, b, p)
    ensures forall p, p' :: Sits(c, b, p) && Sits(c, b, p') ==> p == p'
  {
    var s := EveryRun(c);
    forall p ensures Sits(c, b, p) <==> L.At(s.loc, b, p) { SitsAtLedger(c, s, b, p); }
    OutstandingInLedger(c, s, b);
    if b in s.loc { assert Sits(c, b, s.loc[b]); }
  }

  lemma OutstandingInLedger(c: Sys, s: L.Ledger, b: Block)
    requires Rel(c, s)
    ensures Outstanding(c, b) <==> b in s.loc
  {
    if b.chunk in c.owner && c.owner[b.chunk] in c.tlhs { RelAt(c, s, c.owner[b.chunk]); }
  }

  // ---- The mailbox -----------------------------------------------------------------------------

  /** However often the head was drained, pushed to or returned to an old value since it was loaded, a
      compare-and-swap that succeeds leaves a mailbox that is the batch followed by the mailbox of that moment, each
      node once; the batch is empty afterwards. */
  lemma CasPrepends(c: Sys, t: nat) returns (batch: seq<Block>, mail: seq<Block>)
    requires Reachable(c) && Guard(c, Cas(t, false)) && Safe(c, Cas(t, false)) && CasSucceeds(c, t, false)
    ensures Spells(c.mem, c.tlhs[t].head, c.tlhs[t].count, batch) && batch != []
    ensures Chain(c.mem, c.tlhs[c.tlhs[t].target.value].mailbox, mail)
    ensures var c', u := Apply(c, Cas(t, false)), c.tlhs[t].target.value;
            && u in c'.tlhs && Chain(c'.mem, c'.tlhs[u].mailbox, batch + mail) && NoDup(batch + mail)
            && t in c'.tlhs && c'.tlhs[t].count == 0
  {
    var u := c.tlhs[t].target.value;
    var s := EveryRun(c);
    RelAt(c, s, t);
    RelAt(c, s, u);
    batch, mail := s.tlhs[t].batch, s.tlhs[u].mail;
    var s' := Step(c, s, Cas(t, false));
    PushedMail(s, t);
    RelAt(Apply(c, Cas(t, false)), s', u);
  }

  lemma PushedMail(s: L.Ledger, t: nat)
    requires t in s.tlhs && s.tlhs[t].target.Some? && s.tlhs[t].target.value in s.tlhs && s.tlhs[t].target.value != t
    ensures L.Push(s, t).tlhs[s.tlhs[t].target.value].mail == s.tlhs[t].batch + s.tlhs[s.tlhs[t].target.value].mail
  {}

  /** One exchange takes the whole mailbox: it becomes the worklist, in order, and the mailbox is empty. */
  lemma DrainTakesAll(c: Sys, t: nat, sc: Option<nat>) returns (mail: seq<Block>)
    requires Reachable(c) && Guard(c, DrainMailbox(t, sc))
    ensures Chain(c.mem, c.tlhs[t].mailbox, mail) && NoDup(mail)
    ensures var c' := Apply(c, DrainMailbox(t, sc));
            t in c'.tlhs && c'.tlhs[t].mailbox.None? && c'.tlhs[t].pc.Reaping? && Chain(c'.mem, c'.tlhs[t].pc.cursor, mail)
  {
    var s := EveryRun(c);
    RelAt(c, s, t);
    mail := s.tlhs[t].mail;
  }

  /** What other heaps do to a mailbox is to put whole batches in front of it. */
  lemma MailGrows(c: Sys, a: Action, t: nat, mail: seq<Block>) returns (pushed: seq<Block>)
    requires Reachable(c) && Guard(c, a) && Safe(c, a) && (a.Scribble? || a.t != t)
    requires t in c.tlhs && Chain(c.mem, c.tlhs[t].mailbox, mail)
    ensures t in Apply(c, a).tlhs && Chain(Apply(c, a).mem, Apply(c, a).tlhs[t].mailbox, pushed + mail)
  {
    var s := EveryRun(c);
    RelAt(c, s, t);
    ChainUnique(c.mem, c.tlhs[t].mailbox, mail, s.tlhs[t].mail);
    var s' := Step(c, s, a);
    pushed := PushedBefore(c, s, a, s', t);
    HeapStays(c, a, t);
    RelAt(Apply(c, a), s', t);
  }

  lemma PushedBefore(c: Sys, s: L.Ledger, a: Action, s': L.Ledger, t: nat) returns (pushed: seq<Block>)
    requires Guard(c, a) && Safe(c, a) && Follows(c, s, a, s') && (a.Scribble? || a.t != t) && t in s.tlhs
    ensures t in s'.tlhs && s'.tlhs[t].mail == pushed + s.tlhs[t].mail
  {
    pushed := if a.Cas? && s' != s && s.tlhs[a.t].target == Some(t) then s.tlhs[a.t].batch else [];
  }

  lemma HeapStays(c: Sys, a: Action, t: nat)
    requires Guard(c, a) && Safe(c, a) && t in c.tlhs
    ensures t in Apply(c, a).tlhs
  {}

  // ---- Releasing chunks -----------------------------------------------------------------------

  /** A chunk goes back to the VMM only as its owner takes back its last block: afterwards no block of
      the chunk is live, held, batched, in a mailbox or ahead in a worklist. */
  lemma ReleaseIsSafe(c: Sys, a: Action, ch: nat, b: Block, p: L.Place)
    requires Reachable(c) && Guard(c, a) && Safe(c, a)
    requires ch in c.owner && ch !in Apply(c, a).owner && b.chunk == ch
    ensures a.ReapNode? || a.FreeLocal?
    ensures !Sits(Apply(c, a), b, p)
  {
    OnlyFreesRelease(c, a, ch);
    var s := EveryRun(c);
    var s' := Step(c, s, a);
    UnownedIsNowhere(Apply(c, a), s', b, p);
  }

  lemma OnlyFreesRelease(c: Sys, a: Action, ch: nat)
    requires Guard(c, a) && Safe(c, a) && ch in c.owner && ch !in Apply(c, a).owner
    ensures a.ReapNode? || a.FreeLocal?
  {}

  lemma UnownedIsNowhere(c: Sys, s: L.Ledger, b: Block, p: L.Place)
    requires Rel(c, s) && b.chunk !in c.owner
    ensures !Sits(c, b, p)
  {
    SitsAtLedger(c, s, b, p);
  }

  // ---- Client memory ------------------------------------------------------------------------------

  /** The one block whose first word an action may write. */
  ghost function Written(c: Sys, a: Action): Option<Block>
    requires Guard(c, a) && Safe(c, a)
  {
    match a
    case ReapNode(t, _) => c.tlhs[t].pc.cursor
    case FreeLocal(_, b, _) => Some(b)
    case FreeRemote(_, b) => Some(b)
    case LinkTail(t) => c.tlhs[t].tail
    case AppendHeld(t) => Some(c.tlhs[t].pc.held)
    case Scribble(b, _) => Some(b)
    case _ => None
  }

  lemma WritesOne(c: Sys, a: Action, b: Block)
    requires Guard(c, a) && Safe(c, a) && Written(c, a) != Some(b)
    ensures Read(Apply(c, a).mem, b) == Read(c.mem, b)
  {}

  /** No step of the allocator writes into a block its client keeps. */
  lemma LiveUntouched(c: Sys, a: Action, b: Block)
    requires Reachable(c) && Guard(c, a) && Safe(c, a) && !a.Scribble?
    requires b in c.live && b in Apply(c, a).live
    ensures Read(Apply(c, a).mem, b) == Read(c.mem, b)
  {
    var s := EveryRun(c);
    if Written(c, a) == Some(b) {
      if a.FreeLocal? || a.FreeRemote? {
        FreedIsNotLive(c, a);
      } else {
        WrittenIsNotLive(c, s, a);
      }
    } else {
      WritesOne(c, a, b);
    }
  }

  lemma FreedIsNotLive(c: Sys, a: Action)
    requires Guard(c, a) && Safe(c, a) && (a.FreeLocal? || a.FreeRemote?)
    ensures a.b !in Apply(c, a).live
  {}

  lemma WrittenIsNotLive(c: Sys, s: L.Ledger, a: Action)
    requires Rel(c, s) && Guard(c, a) && Safe(c, a) && (a.ReapNode? || a.LinkTail? || a.AppendHeld?)
    ensures Written(c, a).Some? && Written(c, a).value !in c.live
  {
    if a.LinkTail? {
      RelAt(c, s, a.t);
      TailIsBatched(c.mem, c.tlhs[a.t], s, a.t);
    } else if a.AppendHeld? {
      RelAt(c, s, a.t);
      HeldFacts(c.mem, s, a.t, c.tlhs[a.t]);
    } else {
      ReapFacts(c, s, a.t);
    }
  }

  lemma TailIsBatched(mem: Memory, x: Thread, s: L.Ledger, t: nat)
    requires t in s.tlhs && x.pc.Loaded? && QueueRel(mem, x, s.tlhs[t]) && L.Lists(s.loc, t, s.tlhs[t])
    ensures x.tail.Some? && L.At(s.loc, x.tail.value, L.Batch(t))
  {
    var q := s.tlhs[t].batch;
    assert q[|q| - 1] in q;
  }

  // ---- Counting and conservation ------------------------------------------------------------------

  /** `used_objects` of every slab is the number of its blocks that are at some place: with clients and
      in transit alike. */
  lemma UsedCountsPlaces(c: Sys, t: nat, sc: nat, ch: nat)
    requires Reachable(c) && t in c.tlhs && sc < |c.tlhs[t].heap.bins| && ch in c.tlhs[t].heap.bins[sc].slabs
    ensures var slab := c.tlhs[t].heap.bins[sc].slabs[ch];
            slab.used == |set k | 0 <= k < slab.carved && Outstanding(c, Block(ch, k))|
  {
    var s := EveryRun(c);
    RelAt(c, s, t);
    SlabFacts(s, t, c.tlhs[t].heap, sc, ch);
    CountOutstanding(c, t, sc, ch);
  }

  lemma CountOutstanding(c: Sys, t: nat, sc: nat, ch: nat)
    requires t in c.tlhs && sc < |c.tlhs[t].heap.bins| && IsSlab(c.tlhs[t].heap, ch, sc)
    requires ch in c.tlhs[t].heap.bins[sc].slabs && H.SlabOk(c.tlhs[t].heap.bins[sc].slabs[ch])
    requires ch in c.owner && c.owner[ch] == t
    ensures var slab := c.tlhs[t].heap.bins[sc].slabs[ch];
            slab.used == |set k | 0 <= k < slab.carved && Outstanding(c, Block(ch, k))|
  {
    var slab := c.tlhs[t].heap.bins[sc].slabs[ch];
    H.UsedCountsBlocks(slab);
    forall k: nat | k < slab.carved ensures Outstanding(c, Block(ch, k)) <==> k !in slab.free {}
    assert (set k | 0 <= k < slab.carved && Outstanding(c, Block(ch, k)))
        == (set k | 0 <= k < slab.carved && k !in slab.free);
  }

  lemma SlabFacts(s: L.Ledger, t: nat, h: Heap, sc: nat, ch: nat)
    requires HeapRel(s, t, h) && sc < |h.bins| && ch in h.bins[sc].slabs
    ensures IsSlab(h, ch, sc) && H.SlabOk(h.bins[sc].slabs[ch])
    ensures ch in s.owner && s.owner[ch] == t
  {
    assert H.BinInv(h.bins[sc]);
    assert IsSlab(h, ch, sc);
  }

  /** A handed-out block stops being one only when its owner takes it back, by a local free of it or as the
      first node of a reap pass: no pending free is ever lost. */
  lemma NothingIsLost(c: Sys, a: Action, b: Block)
    requires Reachable(c) && Guard(c, a) && Safe(c, a)
    requires Outstanding(c, b) && !Outstanding(Apply(c, a), b)
    ensures (a.FreeLocal? && a.b == b) || (a.ReapNode? && c.tlhs[a.t].pc.cursor == Some(b))
  {
    var s := EveryRun(c);
    var s' := Step(c, s, a);
    OutstandingInLedger(c, s, b);
    OutstandingInLedger(Apply(c, a), s', b);
    if a.ReapNode? { ReapFacts(c, s, a.t); }
    StaysOut(c, s, a, s', b);
  }

  lemma StaysOut(c: Sys, s: L.Ledger, a: Action, s': L.Ledger, b: Block)
    requires Guard(c, a) && Safe(c, a) && Follows(c, s, a, s') && b in s.loc && b !in s'.loc
    ensures a.FreeLocal? || a.ReapNode?
    ensures a.FreeLocal? ==> a.b == b
    ensures a.ReapNode? ==> a.t in s.tlhs && s.tlhs[a.t].work != [] && s.tlhs[a.t].work[0] == b
  {}

  /** A block becomes handed out only by an allocation, to a client, and never while it is out. */
  lemma NothingIsDuplicated(c: Sys, a: Action, b: Block)
    requires Reachable(c) && Guard(c, a) && Safe(c, a)
    requires b !in c.live && b in Apply(c, a).live
    ensures !Outstanding(c, b)
    ensures a.AllocFast? || a.ReapDone? || a.AllocPages?
  {
    var s := EveryRun(c);
    var s' := Step(c, s, a);
    OutstandingInLedger(c, s, b);
    assert L.At(s'.loc, b, L.Client) && !L.At(s.loc, b, L.Client);
    GivenIsNew(c, s, a, s', b);
  }

  lemma GivenIsNew(c: Sys, s: L.Ledger, a: Action, s': L.Ledger, b: Block)
    requires Guard(c, a) && Safe(c, a) && Follows(c, s, a, s')
    requires L.At(s'.loc, b, L.Client) && !L.At(s.loc, b, L.Client)
    ensures a.AllocFast? || a.ReapDone? || a.AllocPages?
    ensures b !in s.loc
  {}

  // ---- Reap passes end --------------------------------------------------------------------------------

  /** The worklist of a reap pass is a finite chain; the pass removes its first node each turn, and no
      action of anyone else changes it. */
  lemma ReapAdvances(c: Sys, a: Action, t: nat) returns (q: seq<Block>)
    requires Reachable(c) && Guard(c, a) && Safe(c, a) && t in c.tlhs && c.tlhs[t].pc.Reaping?
    ensures Chain(c.mem, c.tlhs[t].pc.cursor, q)
    ensures a.ReapNode? && a.t == t ==>
              q != [] && t in Apply(c, a).tlhs && Apply(c, a).tlhs[t].pc.Reaping?
              && Chain(Apply(c, a).mem, Apply(c, a).tlhs[t].pc.cursor, q[1..])
    ensures a.Scribble? || a.t != t ==>
              t in Apply(c, a).tlhs && Apply(c, a).tlhs[t].pc == c.tlhs[t].pc
              && Chain(Apply(c, a).mem, c.tlhs[t].pc.cursor, q)
  {
    var s := EveryRun(c);
    var s' := Step(c, s, a);
    q := WorkChain(c, s, t);
    ThreadKept(c, a, t);
    WorkKept(c, s, a, s', t);
    if Apply(c, a).tlhs[t].pc.Reaping? {
      var q' := WorkChain(Apply(c, a), s', t);
    }
  }

  lemma WorkChain(c: Sys, s: L.Ledger, t: nat) returns (q: seq<Block>)
    requires Rel(c, s) && t in c.tlhs && c.tlhs[t].pc.Reaping?
    ensures t in s.tlhs && q == s.tlhs[t].work && Chain(c.mem, c.tlhs[t].pc.cursor, q)
  {
    RelAt(c, s, t);
    q := s.tlhs[t].work;
  }

  lemma ThreadKept(c: Sys, a: Action, t: nat)
    requires Guard(c, a) && Safe(c, a) && t in c.tlhs && c.tlhs[t].pc.Reaping?
    ensures t in Apply(c, a).tlhs
    ensures a.Scribble? || a.t != t ==> Apply(c, a).tlhs[t].pc == c.tlhs[t].pc
    ensures a.ReapNode? && a.t == t ==> Apply(c, a).tlhs[t].pc.Reaping?
  {}

  lemma WorkKept(c: Sys, s: L.Ledger, a: Action, s': L.Ledger, t: nat)
    requires Guard(c, a) && Safe(c, a) && Follows(c, s, a, s') && t in c.tlhs && t in s.tlhs
    ensures t in s'.tlhs
    ensures a.Scribble? || a.t != t ==> s'.tlhs[t].work == s.tlhs[t].work
    ensures a.ReapNode? && a.t == t ==> s.tlhs[t].work != [] && s'.tlhs[t].work == s.tlhs[t].work[1..]
  {}

  // ---- Mail stays --------------------------------------------------------------------------------------

  /** Only the owner takes a block out of its mailbox. */
  lemma MailStays(c: Sys, a: Action, t: nat, b: Block)
    requires Reachable(c) && Guard(c, a) && Safe(c, a) && (a.Scribble? || a.t != t)
    requires Sits(c, b, L.Mail(t))
    ensures Sits(Apply(c, a), b, L.Mail(t))
  {
    var s := EveryRun(c);
    var s' := Step(c, s, a);
    SitsAtLedger(c, s, b, L.Mail(t));
    MovedFrom(c, s, a, b, t);
    MailKept(c, s, a, s', t, b);
    SitsAtLedger(Apply(c, a), s', b, L.Mail(t));
  }

  /** The block an action of a heap takes hold of was not in another heap's mailbox. */
  lemma MovedFrom(c: Sys, s: L.Ledger, a: Action, b: Block, t: nat)
    requires Rel(c, s) && Guard(c, a) && Safe(c, a) && L.At(s.loc, b, L.Mail(t))
    ensures a.FreeLocal? || a.FreeRemote? ==> a.b != b
    ensures a.AppendHeld? ==> c.tlhs[a.t].pc.held != b
    ensures a.ReapNode? ==> a.t in s.tlhs && s.tlhs[a.t].work != [] && s.tlhs[a.t].work[0] != b
  {
    if a.FreeLocal? || a.FreeRemote? {
      assert L.At(s.loc, a.b, L.Client);
    } else if a.AppendHeld? {
      RelAt(c, s, a.t);
      HeldFacts(c.mem, s, a.t, c.tlhs[a.t]);
    } else if a.ReapNode? {
      ReapFacts(c, s, a.t);
    }
  }

  lemma MailKept(c: Sys, s: L.Ledger, a: Action, s': L.Ledger, t: nat, b: Block)
    requires Guard(c, a) && Safe(c, a) && Follows(c, s, a, s') && (a.Scribble? || a.t != t)
    requires L.At(s.loc, b, L.Mail(t))
    requires a.FreeLocal? || a.FreeRemote? ==> a.b != b
    requires a.AppendHeld? ==> c.tlhs[a.t].pc.held != b
    requires a.ReapNode? ==> a.t in s.tlhs && s.tlhs[a.t].work != [] && s.tlhs[a.t].work[0] != b
    ensures L.At(s'.loc, b, L.Mail(t))
  {}
}
