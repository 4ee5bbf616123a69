/** What calls achieve in every run of the free protocol: when an allocation answers NULL, when a chunk is released,
    when a remote free flushes, and that no call gets stuck. */
module ProtocolCalls {
  import opened Common
  import opened ThreadHeap
  import opened Interleaving
  import opened Linearization
  import opened ProtocolRuns
  import H = Heaps
  import S = Spans
  import L = RemoteFree
  import Sizes

  // ---- Releases ---------------------------------------------------------------------------

  /** The block that its owner takes back in the step. */
  ghost function FreedBy(c: Sys, a: Action): Option<Block>
    requires Guard(c, a)
  {
    match a
    case ReapNode(t, _) => c.tlhs[t].pc.cursor
    case FreeLocal(_, b, _) => Some(b)
    case _ => None
  }

  /** In every run a chunk goes back to the VMM exactly when its owner takes back the only block of it that is out,
      unless it is the current slab of a bin that has no partial one. */
  lemma ReleaseExactly(c: Sys, a: Action, ch: nat)
    requires Reachable(c) && Guard(c, a) && Safe(c, a) && ch in c.owner
    ensures ch !in Apply(c, a).owner <==>
              && FreedBy(c, a).Some? && FreedBy(c, a).value.chunk == ch
              && (forall x :: Outstanding(c, x) && x.chunk == ch ==> x == FreedBy(c, a).value)
              && !Retained(c.tlhs[a.t].heap, ch)
  {
    var s := EveryRun(c);
    if a.ReapNode? || a.FreeLocal? {
      var b := FreedBy(c, a).value;
      OwnedHere(c, s, a, b);
      TakeBackOk(c.tlhs[a.t].heap, b);
      forall x: Block | x.chunk == b.chunk ensures Outstanding(c, x) <==> Out(c.tlhs[a.t].heap, x) {}
      OwnerAfterFree(c, a, b, ch);
    } else if ch !in Apply(c, a).owner {
      OnlyFreesRelease(c, a, ch);
    }
  }

  lemma OwnedHere(c: Sys, s: L.Ledger, a: Action, b: Block)
    requires Rel(c, s) && Guard(c, a) && Safe(c, a) && (a.ReapNode? || a.FreeLocal?) && FreedBy(c, a) == Some(b)
    ensures a.t in c.tlhs && b.chunk in c.owner && c.owner[b.chunk] == a.t
    ensures HeapInv(c.tlhs[a.t].heap) && Out(c.tlhs[a.t].heap, b)
  {}

  lemma OwnerAfterFree(c: Sys, a: Action, b: Block, ch: nat)
    requires Guard(c, a) && Safe(c, a) && (a.ReapNode? || a.FreeLocal?) && FreedBy(c, a) == Some(b) && ch in c.owner
    ensures ch !in Apply(c, a).owner <==> ch == b.chunk && b.chunk !in TakeBack(c.tlhs[a.t].heap, b).kinds
  {}

  // ---- Answers of an allocation -------------------------------------------------------------

  /** In every run a slab allocation answers NULL exactly when every slab of its class is full and the VMM gave
      nothing, and uses the VMM's chunk exactly when every slab is full. */
  lemma SlabAnswers(c: Sys, t: nat, sc: nat, spare: Option<nat>)
    requires Reachable(c) && Guard(c, ReapDone(t, spare)) && c.tlhs[t].pc.sc == Some(sc)
    ensures Safe(c, ReapDone(t, spare)) && sc < |c.tlhs[t].heap.bins|
    ensures Apply(c, ReapDone(t, spare)).live == c.live <==> spare.None? && H.AllFull(c.tlhs[t].heap.bins[sc])
    ensures spare.Some? ==>
              (spare.value in Apply(c, ReapDone(t, spare)).owner <==> H.AllFull(c.tlhs[t].heap.bins[sc]))
  {
    NeverWrong(c, ReapDone(t, spare));
    var s := EveryRun(c);
    RelAt(c, s, t);
    SpareIsNew(s, t, c.tlhs[t].heap, spare);
    FinishAllocOk(c.tlhs[t].heap, sc, spare);
    NewlyLive(c, s, t, FinishAlloc(c.tlhs[t].heap, sc, spare), spare);
  }

  /** A page allocation answers NULL exactly when it needs a whole chunk or more, or no active span has a run and the
      VMM gave nothing; it uses the VMM's chunk exactly when no active span has a run. */
  lemma PagesAnswers(c: Sys, t: nat, n: nat, spare: Option<nat>)
    requires Reachable(c) && Guard(c, AllocPages(t, n, spare))
    ensures Apply(c, AllocPages(t, n, spare)).live == c.live <==>
              n >= SPAN_PAGES || (spare.None? && NoRun(c.tlhs[t].heap, n))
    ensures spare.Some? ==>
              (spare.value in Apply(c, AllocPages(t, n, spare)).owner <==> n < SPAN_PAGES && NoRun(c.tlhs[t].heap, n))
  {
    var s := EveryRun(c);
    RelAt(c, s, t);
    var h := c.tlhs[t].heap;
    SpareIsNew(s, t, h, spare);
    SpanBlockOk(h, n, spare);
    SpanChunkExact(h, n, spare);
    NewlyLive(c, s, t, SpanBlock(h, n, spare), spare);
  }

  ghost predicate NoRun(h: Heap, n: nat) {
    forall c :: c in h.spans ==> !S.Fits(h.spans[c].free, n)
  }

  lemma SpanChunkExact(h: Heap, n: nat, spare: Option<nat>)
    requires HeapInv(h) && n >= 1 && (spare.Some? ==> spare.value !in h.kinds)
    ensures n >= SPAN_PAGES ==> SpanBlock(h, n, spare).1.None?
    ensures SpanBlock(h, n, spare).1.Some? ==> (SpanBlock(h, n, spare).1.value.chunk !in h.kinds <==> NoRun(h, n))
  {
    FindSpanExact(h.list, h.spans, n);
    if SpanBlock(h, n, spare).1.Some? && FindSpan(h.list, h.spans, n).Some? {
      assert FindSpan(h.list, h.spans, n).value in h.list;
    }
  }

  lemma NewlyLive(c: Sys, s: L.Ledger, t: nat, r: (Heap, Option<Block>), spare: Option<nat>)
    requires Rel(c, s) && t in c.tlhs && (r.1.Some? ==> HandedOut(c.tlhs[t].heap, r.0, r.1.value, spare))
    requires spare.Some? ==> spare.value !in c.owner
    ensures Allocated(c, t, r).live == c.live <==> r.1.None?
    ensures spare.Some? ==>
              (spare.value in Allocated(c, t, r).owner <==> r.1.Some? && r.1.value.chunk !in c.tlhs[t].heap.kinds)
  {
    RelAt(c, s, t);
    if r.1.Some? {
      var b := r.1.value;
      if b in c.live {
        assert L.At(s.loc, b, L.Client);
        OutstandingInLedger(c, s, b);
      }
      assert b in Allocated(c, t, r).live;
    }
  }

  // ---- Batches ---------------------------------------------------------------------------------

  lemma EmptyBatch(mem: Memory, s: L.Ledger, t: nat, x: Thread)
    requires t in s.tlhs && QueueRel(mem, x, s.tlhs[t]) && L.Routes(s.owner, t, s.tlhs[t])
    ensures NothingToFlush(x) <==> x.count == 0
  {}

  /** In every run an outgoing batch holds at most 64 blocks. */
  lemma BatchBounded(c: Sys, t: nat)
    requires Reachable(c) && t in c.tlhs
    ensures c.tlhs[t].count <= BATCH_MAX
  {
    var s := EveryRun(c);
    RelAt(c, s, t);
  }

  /** A remote free first flushes the batch exactly when the batch holds 64 blocks or holds blocks of another owner;
      otherwise the block goes in front of it and the call is over. */
  lemma RemoteFreeBatches(c: Sys, t: nat, b: Block) returns (batch: seq<Block>)
    requires Reachable(c) && Guard(c, FreeRemote(t, b))
    ensures Spells(c.mem, c.tlhs[t].head, c.tlhs[t].count, batch)
    ensures var (c', x) := (Apply(c, FreeRemote(t, b)), c.tlhs[t]);
            && t in c'.tlhs && b !in c'.live
            && (if batch != [] && (|batch| == BATCH_MAX || x.target != Some(c.owner[b.chunk]))
                then c'.tlhs[t] == x.(pc := Flushing(ThenBatch(b)))
                else c'.tlhs[t].pc.Idle? && c'.tlhs[t].target == Some(c.owner[b.chunk])
                     && Spells(c'.mem, c'.tlhs[t].head, c'.tlhs[t].count, [b] + batch))
  {
    var s := EveryRun(c);
    RelAt(c, s, t);
    BatchBounded(c, t);
    batch := s.tlhs[t].batch;
    EmptyBatch(c.mem, s, t, c.tlhs[t]);
    var s' := Step(c, s, FreeRemote(t, b));
    RelAt(Apply(c, FreeRemote(t, b)), s', t);
    if Joins(c.tlhs[t], c.owner[b.chunk]) || NothingToFlush(c.tlhs[t]) {
      assert L.At(s.loc, b, L.Client);
      BatchAfter(c, s, s', t, b);
    }
  }

  lemma BatchAfter(c: Sys, s: L.Ledger, s': L.Ledger, t: nat, b: Block)
    requires Rel(c, s) && Guard(c, FreeRemote(t, b)) && Rel(Apply(c, FreeRemote(t, b)), s')
    requires t in s.tlhs && b.chunk in s.owner && (s' == L.Append(s, t, b) || s' == L.PickUp(s, t, b)) && t in s'.tlhs
    requires Joins(c.tlhs[t], c.owner[b.chunk]) || NothingToFlush(c.tlhs[t])
    ensures s'.tlhs[t].batch == [b] + s.tlhs[t].batch
  {
    RelAt(Apply(c, FreeRemote(t, b)), s', t);
    RelAt(c, s, t);
    assert Apply(c, FreeRemote(t, b)) == Enqueue(c, t, b);
  }

  // ---- No call gets stuck ------------------------------------------------------------------------

  /** In every run the thread that is inside a call can take the call's next step. */
  lemma NeverStuck(c: Sys, t: nat) returns (a: Action)
    requires Reachable(c) && t in c.tlhs && !c.tlhs[t].pc.Idle?
    ensures Guard(c, a) && Safe(c, a) && !a.Scribble? && a.t == t
  {
    match c.tlhs[t].pc {
      case Flushing(_) => a := LoadHead(t);
      case Loaded(_, _) => a := LinkTail(t);
      case Linked(_, _) => a := Cas(t, false);
      case Appending(_) => a := AppendHeld(t);
      case Reaping(cursor, _) => a := if cursor.Some? then ReapNode(t, 0) else ReapDone(t, None);
    }
    NeverWrong(c, a);
  }

  /** In every run any idle thread can free any live block, as its owner or as somebody else. */
  lemma AnyoneCanFree(c: Sys, t: nat, b: Block) returns (a: Action)
    requires Reachable(c) && t in c.tlhs && c.tlhs[t].pc.Idle? && b in c.live
    ensures Guard(c, a) && Safe(c, a) && (a == FreeLocal(t, b, 0) || a == FreeRemote(t, b))
    ensures b !in Apply(c, a).live
  {
    var s := EveryRun(c);
    RelAt(c, s, t);
    assert L.At(s.loc, b, L.Client);
    a := if c.owner[b.chunk] == t then FreeLocal(t, b, 0) else FreeRemote(t, b);
    NeverWrong(c, a);
    FreedIsNotLive(c, a);
  }

  /** In every run an idle thread can start an allocation of any slab class: on the fast path exactly when the
      current slab has a block on its free list, and otherwise with a drain of its mailbox. */
  lemma AllocCanStart(c: Sys, t: nat, sc: nat)
    requires Reachable(c) && t in c.tlhs && c.tlhs[t].pc.Idle? && sc < 40
    ensures sc < |c.tlhs[t].heap.bins|
    ensures Guard(c, AllocFast(t, sc)) <==> H.CurrentHasFree(c.tlhs[t].heap.bins[sc])
    ensures Guard(c, DrainMailbox(t, Some(sc))) <==> !Guard(c, AllocFast(t, sc))
  {
    var s := EveryRun(c);
    RelAt(c, s, t);
    FastStarts(c.tlhs[t].heap, sc);
    StartGuards(c, t, sc);
  }

  lemma StartGuards(c: Sys, t: nat, sc: nat)
    requires t in c.tlhs && c.tlhs[t].pc.Idle? && sc < 40 && sc < |c.tlhs[t].heap.bins|
    ensures Guard(c, AllocFast(t, sc)) <==> FastBlock(c.tlhs[t].heap, sc).Some?
    ensures Guard(c, DrainMailbox(t, Some(sc))) <==> !Guard(c, AllocFast(t, sc))
  {}

  lemma FastStarts(h: Heap, sc: nat)
    requires HeapInv(h) && sc < 40
    ensures sc < |h.bins|
    ensures FastBlock(h, sc).Some? <==> H.CurrentHasFree(h.bins[sc])
  {
    H.FastExact(h.bins[sc]);
  }

  // ---- A whole flush and a whole reap pass ----------------------------------------------------------

  /** Undisturbed, a flush takes three steps to put the whole batch in front of its target's mailbox. */
  lemma FlushCall(c: Sys, t: nat) returns (batch: seq<Block>, mail: seq<Block>, c': Sys)
    requires Reachable(c) && t in c.tlhs && c.tlhs[t].pc.Flushing?
    ensures TargetExists(c, t) && Exec(c, [LoadHead(t), LinkTail(t), Cas(t, false)]) == Some(c')
    ensures Spells(c.mem, c.tlhs[t].head, c.tlhs[t].count, batch) && batch != []
    ensures Chain(c.mem, c.tlhs[c.tlhs[t].target.value].mailbox, mail)
    ensures var u := c.tlhs[t].target.value;
            && u in c'.tlhs && Chain(c'.mem, c'.tlhs[u].mailbox, batch + mail)
            && t in c'.tlhs && c'.tlhs[t].count == 0 && c'.tlhs[t].pc == AfterFlush(c.tlhs[t].pc.then_)
  {
    NeverWrong(c, LoadHead(t));
    var c1 := Apply(c, LoadHead(t));
    ReachableStep(c, LoadHead(t));
    NeverWrong(c1, LinkTail(t));
    var c2 := Apply(c1, LinkTail(t));
    ReachableStep(c1, LinkTail(t));
    NeverWrong(c2, Cas(t, false));
    batch, mail := CasPrepends(c2, t);
    c' := Apply(c2, Cas(t, false));
    ThreeSteps(c, LoadHead(t), c1, LinkTail(t), c2, Cas(t, false), c');
    LinkQueues(c1, c2, t, batch, mail);
  }

  lemma ThreeSteps(c: Sys, a: Action, c1: Sys, a1: Action, c2: Sys, a2: Action, c3: Sys)
    requires Guard(c, a) && Safe(c, a) && c1 == Apply(c, a)
    requires Guard(c1, a1) && Safe(c1, a1) && c2 == Apply(c1, a1)
    requires Guard(c2, a2) && Safe(c2, a2) && c3 == Apply(c2, a2)
    ensures Exec(c, [a, a1, a2]) == Some(c3)
  {
    assert Exec(c3, []) == Some(c3);
    assert [a2][1..] == [] && Exec(c2, [a2]) == Some(c3);
    assert [a1, a2][1..] == [a2] && Exec(c1, [a1, a2]) == Some(c3);
    assert [a, a1, a2][1..] == [a1, a2];
  }

  /** A compare-and-swap that fails leaves the thread with the head of that moment, so that, undisturbed, the next
      round publishes the batch. */
  lemma FlushRetries(c: Sys, t: nat, spurious: bool) returns (batch: seq<Block>, mail: seq<Block>, c': Sys)
    requires Reachable(c) && Guard(c, Cas(t, spurious)) && Safe(c, Cas(t, spurious)) && !CasSucceeds(c, t, spurious)
    ensures Exec(c, [Cas(t, spurious), LinkTail(t), Cas(t, false)]) == Some(c')
    ensures Spells(c.mem, c.tlhs[t].head, c.tlhs[t].count, batch) && batch != []
    ensures Chain(c.mem, c.tlhs[c.tlhs[t].target.value].mailbox, mail)
    ensures var u := c.tlhs[t].target.value;
            && u in c'.tlhs && Chain(c'.mem, c'.tlhs[u].mailbox, batch + mail)
            && t in c'.tlhs && c'.tlhs[t].count == 0 && c'.tlhs[t].pc == AfterFlush(c.tlhs[t].pc.then_)
  {
    var c1 := Apply(c, Cas(t, spurious));
    ReachableStep(c, Cas(t, spurious));
    NeverWrong(c1, LinkTail(t));
    var c2 := Apply(c1, LinkTail(t));
    ReachableStep(c1, LinkTail(t));
    NeverWrong(c2, Cas(t, false));
    batch, mail := CasPrepends(c2, t);
    c' := Apply(c2, Cas(t, false));
    ThreeSteps(c, Cas(t, spurious), c1, LinkTail(t), c2, Cas(t, false), c');
    LinkQueues(c1, c2, t, batch, mail);
  }

  /** Linking the tail changes neither the batch nor the mailbox. */
  lemma LinkQueues(c1: Sys, c2: Sys, t: nat, batch: seq<Block>, mail: seq<Block>)
    requires Reachable(c1) && Guard(c1, LinkTail(t)) && Safe(c1, LinkTail(t)) && c2 == Apply(c1, LinkTail(t)) && TargetExists(c1, t)
    requires t in c2.tlhs && Spells(c2.mem, c2.tlhs[t].head, c2.tlhs[t].count, batch)
    requires Chain(c2.mem, c2.tlhs[c1.tlhs[t].target.value].mailbox, mail)
    ensures Spells(c1.mem, c1.tlhs[t].head, c1.tlhs[t].count, batch)
    ensures Chain(c1.mem, c1.tlhs[c1.tlhs[t].target.value].mailbox, mail)
  {
    var u := c1.tlhs[t].target.value;
    var s := EveryRun(c1);
    RelAt(c1, s, t);
    RelAt(c1, s, u);
    LinkSimulates(c1, s, t);
    RelAt(c2, s, t);
    RelAt(c2, s, u);
    BatchUnique(c2.mem, c2.tlhs[t].head, c2.tlhs[t].count, batch, s.tlhs[t].batch);
    ChainUnique(c2.mem, c2.tlhs[u].mailbox, mail, s.tlhs[u].mail);
  }

  function Reaps(t: nat, n: nat): seq<Action> {
    seq(n, _ => ReapNode(t, 0))
  }

  /** Undisturbed, a reap pass takes back every block of its worklist, one step each. */
  lemma {:induction false} ReapCall(c: Sys, t: nat, q: seq<Block>) returns (c': Sys)
    requires Reachable(c) && t in c.tlhs && c.tlhs[t].pc.Reaping? && Chain(c.mem, c.tlhs[t].pc.cursor, q)
    ensures Exec(c, Reaps(t, |q|)) == Some(c') && Reachable(c')
    ensures t in c'.tlhs && c'.tlhs[t].pc == Reaping(None, c.tlhs[t].pc.sc)
    ensures forall b :: Outstanding(c', b) <==> Outstanding(c, b) && b !in q
    decreases |q|
  {
    if q == [] {
      c' := c;
    } else {
      var c1 := ReapTurn(c, t, q);
      c' := ReapCall(c1, t, q[1..]);
      ReapsAre(t, |q|);
      Members(q);
    }
  }

  lemma ReapsAre(t: nat, n: nat)
    requires n > 0
    ensures Reaps(t, n) != [] && Reaps(t, n)[0] == ReapNode(t, 0) && Reaps(t, n)[1..] == Reaps(t, n - 1)
  {}

  lemma Members(q: seq<Block>)
    requires q != []
    ensures forall b :: b in q <==> b == q[0] || b in q[1..]
  {
    assert q == [q[0]] + q[1..];
  }

  lemma ReapTurn(c: Sys, t: nat, q: seq<Block>) returns (c1: Sys)
    requires Reachable(c) && t in c.tlhs && c.tlhs[t].pc.Reaping? && Chain(c.mem, c.tlhs[t].pc.cursor, q) && q != []
    ensures Guard(c, ReapNode(t, 0)) && Safe(c, ReapNode(t, 0)) && c1 == Apply(c, ReapNode(t, 0)) && Reachable(c1)
    ensures t in c1.tlhs && c1.tlhs[t].pc.Reaping? && c1.tlhs[t].pc.sc == c.tlhs[t].pc.sc
    ensures Chain(c1.mem, c1.tlhs[t].pc.cursor, q[1..])
    ensures forall x :: Outstanding(c1, x) <==> Outstanding(c, x) && x != q[0]
  {
    var a := ReapNode(t, 0);
    NeverWrong(c, a);
    c1 := Apply(c, a);
    ReachableStep(c, a);
    var q0 := ReapAdvances(c, a, t);
    ChainUnique(c.mem, c.tlhs[t].pc.cursor, q, q0);
    ReapedOne(c, t, q[0]);
  }

  lemma ReapedOne(c: Sys, t: nat, b: Block)
    requires Reachable(c) && Guard(c, ReapNode(t, 0)) && Safe(c, ReapNode(t, 0)) && c.tlhs[t].pc.cursor == Some(b)
    ensures t in Apply(c, ReapNode(t, 0)).tlhs && Apply(c, ReapNode(t, 0)).tlhs[t].pc.Reaping?
    ensures Apply(c, ReapNode(t, 0)).tlhs[t].pc.sc == c.tlhs[t].pc.sc
    ensures forall x :: Outstanding(Apply(c, ReapNode(t, 0)), x) <==> Outstanding(c, x) && x != b
  {
    var a := ReapNode(t, 0);
    var s := EveryRun(c);
    var s' := Step(c, s, a);
    ReapFacts(c, s, t);
    ReapedLedger(c, s, a, s', b);
    forall x ensures Outstanding(Apply(c, a), x) <==> Outstanding(c, x) && x != b {
      OutstandingInLedger(c, s, x);
      OutstandingInLedger(Apply(c, a), s', x);
    }
  }

  lemma ReapedLedger(c: Sys, s: L.Ledger, a: Action, s': L.Ledger, b: Block)
    requires Guard(c, a) && Safe(c, a) && Follows(c, s, a, s') && a.ReapNode? && a.t in s.tlhs
    requires s.tlhs[a.t].work != [] && s.tlhs[a.t].work[0] == b
    ensures forall x :: x in s'.loc <==> x in s.loc && x != b
    ensures a.t in Apply(c, a).tlhs && Apply(c, a).tlhs[a.t].pc.Reaping? && Apply(c, a).tlhs[a.t].pc.sc == c.tlhs[a.t].pc.sc
  {}

  // ---- A whole slab allocation off the fast path ---------------------------------------------------------

  /** The steps of lz_tlh_alloc when the fast path gives nothing and `n` blocks are in the mailbox. */
  function SlabSteps(t: nat, sc: nat, n: nat, spare: Option<nat>): seq<Action> {
    [DrainMailbox(t, Some(sc))] + Reaps(t, n) + [ReapDone(t, spare)]
  }

  lemma {:induction false} ExecJoin(c: Sys, p: seq<Action>, c1: Sys, q: seq<Action>)
    requires Exec(c, p) == Some(c1)
    ensures Exec(c, p + q) == Exec(c1, q)
    decreases |p|
  {
    if p == [] {
      assert p + q == q;
    } else {
      ExecJoin(Apply(c, p[0]), p[1..], c1, q);
      assert (p + q)[0] == p[0] && (p + q)[1..] == p[1..] + q;
    }
  }

  lemma ExecOne(c: Sys, a: Action)
    requires Guard(c, a) && Safe(c, a)
    ensures Exec(c, [a]) == Some(Apply(c, a))
  {
    assert [a][1..] == [] && Exec(Apply(c, a), []) == Some(Apply(c, a));
  }

  /** Undisturbed, an allocation of class `sc` that the fast path cannot serve takes back everything in its mailbox,
      and then gives its client a block of a slab of that class, or none exactly when, with those blocks back, every
      slab of the class is full and the VMM gave nothing. */
  lemma SlabCall(c: Sys, t: nat, sc: nat, spare: Option<nat>) returns (mail: seq<Block>, c2: Sys, c': Sys)
    requires Reachable(c) && Guard(c, DrainMailbox(t, Some(sc)))
    requires spare.Some? ==> spare.value !in c.owner
    ensures Chain(c.mem, c.tlhs[t].mailbox, mail)
    ensures Exec(c, SlabSteps(t, sc, |mail|, spare)) == Some(c') && t in c'.tlhs && c'.tlhs[t].pc.Idle?
    ensures t in c2.tlhs && sc < |c2.tlhs[t].heap.bins| && (forall b :: Outstanding(c2, b) <==> Outstanding(c, b) && b !in mail)
    ensures c'.live == c2.live <==> spare.None? && H.AllFull(c2.tlhs[t].heap.bins[sc])
    ensures forall b :: b in c'.live && b !in c2.live ==> IsSlab(c'.tlhs[t].heap, b.chunk, sc) && !Outstanding(c2, b)
  {
    mail := DrainTakesAll(c, t, Some(sc));
    var a := DrainMailbox(t, Some(sc));
    var c1 := Apply(c, a);
    ReachableStep(c, a);
    c2 := ReapCall(c1, t, mail);
    DrainQuiet(c, a);
    SpareStays(c, a, t, |mail|, c2, spare);
    SlabAnswers(c2, t, sc, spare);
    c' := Apply(c2, ReapDone(t, spare));
    SlabGiven(c2, t, sc, spare);
    SlabRun(c, t, sc, c1, |mail|, c2, spare);
  }

  lemma SlabRun(c: Sys, t: nat, sc: nat, c1: Sys, n: nat, c2: Sys, spare: Option<nat>)
    requires Guard(c, DrainMailbox(t, Some(sc))) && c1 == Apply(c, DrainMailbox(t, Some(sc)))
    requires Exec(c1, Reaps(t, n)) == Some(c2) && Guard(c2, ReapDone(t, spare)) && Safe(c2, ReapDone(t, spare))
    ensures Exec(c, SlabSteps(t, sc, n, spare)) == Some(Apply(c2, ReapDone(t, spare)))
  {
    var a := DrainMailbox(t, Some(sc));
    ExecOne(c, a);
    ExecOne(c2, ReapDone(t, spare));
    ExecJoin(c, [a], c1, Reaps(t, n) + [ReapDone(t, spare)]);
    ExecJoin(c1, Reaps(t, n), c2, [ReapDone(t, spare)]);
    assert SlabSteps(t, sc, n, spare) == [a] + (Reaps(t, n) + [ReapDone(t, spare)]);
  }

  lemma DrainQuiet(c: Sys, a: Action)
    requires Guard(c, a) && a.DrainMailbox?
    ensures forall b :: Outstanding(Apply(c, a), b) <==> Outstanding(c, b)
    ensures Apply(c, a).owner == c.owner
  {}

  lemma {:induction false} ReapsShrink(c: Sys, t: nat, n: nat, c': Sys, ch: nat)
    requires Exec(c, Reaps(t, n)) == Some(c') && ch !in c.owner
    ensures ch !in c'.owner
    decreases n
  {
    if n > 0 {
      assert Reaps(t, n)[1..] == Reaps(t, n - 1) && Reaps(t, n)[0] == ReapNode(t, 0);
      OneReapShrinks(c, t, ch);
      ReapsShrink(Apply(c, ReapNode(t, 0)), t, n - 1, c', ch);
    }
  }

  lemma OneReapShrinks(c: Sys, t: nat, ch: nat)
    requires Guard(c, ReapNode(t, 0)) && Safe(c, ReapNode(t, 0)) && ch !in c.owner
    ensures ch !in Apply(c, ReapNode(t, 0)).owner
  {}

  lemma SpareStays(c: Sys, a: Action, t: nat, n: nat, c2: Sys, spare: Option<nat>)
    requires Guard(c, a) && a.DrainMailbox? && Exec(Apply(c, a), Reaps(t, n)) == Some(c2)
    requires spare.Some? ==> spare.value !in c.owner
    ensures spare.Some? ==> spare.value !in c2.owner
  {
    if spare.Some? { ReapsShrink(Apply(c, a), t, n, c2, spare.value); }
  }

  /** What the last step of the allocation hands out comes from a slab of the class. */
  lemma SlabGiven(c: Sys, t: nat, sc: nat, spare: Option<nat>)
    requires Reachable(c) && Guard(c, ReapDone(t, spare)) && Safe(c, ReapDone(t, spare)) && c.tlhs[t].pc.sc == Some(sc)
    ensures t in Apply(c, ReapDone(t, spare)).tlhs && Apply(c, ReapDone(t, spare)).tlhs[t].pc.Idle?
    ensures forall b :: b in Apply(c, ReapDone(t, spare)).live && b !in c.live ==>
              IsSlab(Apply(c, ReapDone(t, spare)).tlhs[t].heap, b.chunk, sc) && !Outstanding(c, b)
  {
    var c' := Apply(c, ReapDone(t, spare));
    var r := FinishAlloc(c.tlhs[t].heap, sc, spare);
    FinishIsFinished(c.tlhs[t].heap, sc, spare);
    forall b | b in c'.live && b !in c.live ensures IsSlab(c'.tlhs[t].heap, b.chunk, sc) && !Outstanding(c, b) {
      NothingIsDuplicated(c, ReapDone(t, spare), b);
    }
  }

  /** In every run an idle thread can begin any call: a page allocation, a flush of a non-empty batch, a reap. */
  lemma IdleCanCall(c: Sys, t: nat, n: nat)
    requires Reachable(c) && t in c.tlhs && c.tlhs[t].pc.Idle? && n >= 1
    ensures Guard(c, AllocPages(t, n, None)) && Guard(c, DrainMailbox(t, None))
    ensures Guard(c, FlushStart(t)) <==> c.tlhs[t].count > 0
  {
    var s := EveryRun(c);
    RelAt(c, s, t);
    EmptyBatch(c.mem, s, t, c.tlhs[t]);
    IdleGuards(c, t, n);
  }

  lemma IdleGuards(c: Sys, t: nat, n: nat)
    requires t in c.tlhs && c.tlhs[t].pc.Idle? && n >= 1
    ensures Guard(c, AllocPages(t, n, None)) && Guard(c, DrainMailbox(t, None))
    ensures Guard(c, FlushStart(t)) <==> !NothingToFlush(c.tlhs[t])
  {}
}
