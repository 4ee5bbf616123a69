/** The cross-thread free protocol on its atomic level (src/tlh/tlh.c:66-134, 283-343):
    every thread-local heap has an outgoing batch, a mailbox that others prepend whole
    batches to, and a worklist of the blocks its reap pass has taken out of the mailbox.
    A ledger says where each handed-out block is. */
module RemoteFree {
  import opened Common
  import opened ThreadHeap

  /** Where a handed-out block is: with the client, held by a thread between accepting a remote
      free and batching it, in a batch, in a mailbox, or ahead in a reap worklist. */
  datatype Place = Client | Hand(t: nat) | Batch(t: nat) | Mail(t: nat) | Work(t: nat)

  datatype Queues = Queues(target: Option<nat>, batch: seq<Block>, mail: seq<Block>, work: seq<Block>)

  type Places = map<Block, Place>

  /** `owner` is the owning_tlh field of the chunk headers; `loc` has one entry for each block
      that is handed out. */
  datatype Ledger = Ledger(tlhs: map<nat, Queues>, owner: map<nat, nat>, loc: Places)

  // ---- Invariant ----------------------------------------------------------------

  predicate At(loc: Places, b: Block, p: Place) {
    b in loc && loc[b] == p
  }

  predicate OwnedBy(owner: map<nat, nat>, b: Block, t: nat) {
    b.chunk in owner && owner[b.chunk] == t
  }

  /** The queue holds exactly the blocks the ledger places there, once each. */
  ghost predicate Holds(loc: Places, p: Place, q: seq<Block>) {
    NoDup(q) && forall b :: b in q <==> At(loc, b, p)
  }

  ghost predicate AllOwned(owner: map<nat, nat>, q: seq<Block>, t: nat) {
    forall b :: b in q ==> OwnedBy(owner, b, t)
  }

  ghost predicate Lists(loc: Places, t: nat, x: Queues) {
    Holds(loc, Batch(t), x.batch) && Holds(loc, Mail(t), x.mail) && Holds(loc, Work(t), x.work)
  }

  /** Mail and work belong to `t`; a batch goes to one other heap and is bounded. */
  ghost predicate Routes(owner: map<nat, nat>, t: nat, x: Queues) {
    && AllOwned(owner, x.mail, t)
    && AllOwned(owner, x.work, t)
    && |x.batch| <= BATCH_MAX
    && (x.batch != [] ==> x.target.Some? && x.target.value != t && AllOwned(owner, x.batch, x.target.value))
  }

  ghost predicate Inv(s: Ledger) {
    && (forall c :: c in s.owner ==> s.owner[c] in s.tlhs)
    && (forall b :: b in s.loc ==> b.chunk in s.owner)
    && (forall b :: b in s.loc && s.loc[b] != Client ==> s.loc[b].t in s.tlhs)
    && (forall t :: t in s.tlhs ==> Lists(s.loc, t, s.tlhs[t]))
    && (forall t :: t in s.tlhs ==> Routes(s.owner, t, s.tlhs[t]))
  }

  // ---- Steps -----------------------------------------------------------------------

  const NoQueues := Queues(None, [], [], [])

  function NewTlh(s: Ledger, t: nat): Ledger {
    s.(tlhs := s.tlhs[t := NoQueues])
  }

  /** Heap `t` hands block `b` to a client; a chunk nobody owned joins the heap. */
  function Give(s: Ledger, t: nat, b: Block): Ledger {
    s.(owner := s.owner[b.chunk := t], loc := s.loc[b := Client])
  }

  /** The owner takes `b` back; `leaves` says whether its chunk goes back to the VMM. */
  function TakeIn(s: Ledger, b: Block, leaves: bool): Ledger {
    s.(owner := if leaves then s.owner - {b.chunk} else s.owner, loc := s.loc - {b})
  }

  /** No other block of the chunk is handed out: what a release requires. */
  ghost predicate LastOut(s: Ledger, b: Block) {
    forall x :: x in s.loc && x.chunk == b.chunk ==> x == b
  }

  /** One turn of the reap loop: the first block of the worklist goes back. */
  function ReapOne(s: Ledger, t: nat, leaves: bool): Ledger
    requires t in s.tlhs && s.tlhs[t].work != []
  {
    var s1 := TakeIn(s, s.tlhs[t].work[0], leaves);
    s1.(tlhs := s.tlhs[t := s.tlhs[t].(work := s.tlhs[t].work[1..])])
  }

  /** A thread accepts a remote free and holds the block while it flushes its batch. */
  function PickUp(s: Ledger, t: nat, b: Block): Ledger {
    s.(loc := s.loc[b := Hand(t)])
  }

  /** A block goes to the head of the outgoing batch. */
  function Append(s: Ledger, t: nat, b: Block): Ledger
    requires t in s.tlhs && b.chunk in s.owner
  {
    var x := s.tlhs[t];
    s.(tlhs := s.tlhs[t := x.(batch := [b] + x.batch, target := Some(s.owner[b.chunk]))],
       loc := s.loc[b := Batch(t)])
  }

  function MoveAll(loc: Places, from: Place, to: Place): Places {
    map b | b in loc :: if loc[b] == from then to else loc[b]
  }

  /** Atomic prepend: the whole batch enters the target's mailbox, in order, before its content. */
  function Push(s: Ledger, t: nat): Ledger
    requires t in s.tlhs && s.tlhs[t].target.Some? && s.tlhs[t].target.value in s.tlhs
  {
    var x, u := s.tlhs[t], s.tlhs[t].target.value;
    var y := s.tlhs[u];
    s.(tlhs := s.tlhs[u := y.(mail := x.batch + y.mail)][t := x.(batch := [], target := None)],
       loc := MoveAll(s.loc, Batch(t), Mail(u)))
  }

  /** Atomic take-all: the mailbox becomes the worklist. */
  function Drain(s: Ledger, t: nat): Ledger
    requires t in s.tlhs
  {
    var x := s.tlhs[t];
    s.(tlhs := s.tlhs[t := x.(mail := [], work := x.mail)], loc := MoveAll(s.loc, Mail(t), Work(t)))
  }

  // ---- Every step keeps the invariant ----------------------------------------------

  lemma NewTlhInv(s: Ledger, t: nat)
    requires Inv(s) && t !in s.tlhs
    ensures Inv(NewTlh(s, t))
  {
    var s' := NewTlh(s, t);
    forall b ensures !At(s.loc, b, Batch(t)) && !At(s.loc, b, Mail(t)) && !At(s.loc, b, Work(t)) {}
    assert Lists(s.loc, t, NoQueues);
  }

  lemma GiveInv(s: Ledger, t: nat, b: Block)
    requires Inv(s) && t in s.tlhs && b !in s.loc
    requires b.chunk in s.owner ==> s.owner[b.chunk] == t
    ensures Inv(Give(s, t, b))
  {
    var s' := Give(s, t, b);
    forall u | u in s.tlhs ensures Lists(s'.loc, u, s.tlhs[u]) && Routes(s'.owner, u, s.tlhs[u]) {
      assert Lists(s.loc, u, s.tlhs[u]) && Routes(s.owner, u, s.tlhs[u]);
      forall x: Block, p: Place | p != Client ensures At(s'.loc, x, p) <==> At(s.loc, x, p) {}
    }
  }

  /** Releasing a chunk with no other block out keeps every remaining entry owned. */
  lemma TakeInRoutes(s: Ledger, b: Block, leaves: bool, q: seq<Block>, t: nat)
    requires AllOwned(s.owner, q, t) && b !in q
    requires forall x :: x in q ==> x in s.loc
    requires leaves ==> LastOut(s, b)
    ensures AllOwned(TakeIn(s, b, leaves).owner, q, t)
  {}

  lemma TakeInOthers(s: Ledger, b: Block, leaves: bool, t: nat)
    requires Inv(s) && t in s.tlhs
    requires leaves ==> LastOut(s, b)
    requires !At(s.loc, b, Batch(t)) && !At(s.loc, b, Mail(t)) && !At(s.loc, b, Work(t))
    ensures Lists(TakeIn(s, b, leaves).loc, t, s.tlhs[t])
    ensures Routes(TakeIn(s, b, leaves).owner, t, s.tlhs[t])
  {
    var x := s.tlhs[t];
    assert Lists(s.loc, t, x) && Routes(s.owner, t, x);
    TakeInRoutes(s, b, leaves, x.mail, t);
    TakeInRoutes(s, b, leaves, x.work, t);
    if x.batch != [] { TakeInRoutes(s, b, leaves, x.batch, x.target.value); }
  }

  lemma FreeInv(s: Ledger, b: Block, leaves: bool)
    requires Inv(s) && At(s.loc, b, Client)
    requires leaves ==> LastOut(s, b)
    ensures Inv(TakeIn(s, b, leaves))
  {
    var s' := TakeIn(s, b, leaves);
    forall t | t in s.tlhs ensures Lists(s'.loc, t, s.tlhs[t]) && Routes(s'.owner, t, s.tlhs[t]) {
      TakeInOthers(s, b, leaves, t);
    }
  }

  lemma ReapOneInv(s: Ledger, t: nat, leaves: bool)
    requires Inv(s) && t in s.tlhs && s.tlhs[t].work != []
    requires leaves ==> LastOut(s, s.tlhs[t].work[0])
    ensures Inv(ReapOne(s, t, leaves))
  {
    var b := s.tlhs[t].work[0];
    var s' := ReapOne(s, t, leaves);
    assert b in s.tlhs[t].work && At(s.loc, b, Work(t));
    forall u | u in s.tlhs && u != t ensures Lists(s'.loc, u, s.tlhs[u]) && Routes(s'.owner, u, s.tlhs[u]) {
      TakeInOthers(s, b, leaves, u);
    }
    ReapOneOwn(s, t, leaves);
  }

  lemma ReapOneOwn(s: Ledger, t: nat, leaves: bool)
    requires Inv(s) && t in s.tlhs && s.tlhs[t].work != []
    requires leaves ==> LastOut(s, s.tlhs[t].work[0])
    ensures var s' := ReapOne(s, t, leaves); Lists(s'.loc, t, s'.tlhs[t]) && Routes(s'.owner, t, s'.tlhs[t])
  {
    var x, b, rest := s.tlhs[t], s.tlhs[t].work[0], s.tlhs[t].work[1..];
    var s' := ReapOne(s, t, leaves);
    assert Lists(s.loc, t, x) && Routes(s.owner, t, x);
    TailMembers(x.work);
    assert At(s.loc, b, Work(t));
    TakeInRoutes(s, b, leaves, x.mail, t);
    TakeInRoutes(s, b, leaves, rest, t);
    if x.batch != [] { TakeInRoutes(s, b, leaves, x.batch, x.target.value); }
  }

  /** Changing the place of one block that is in no queue. */
  lemma MoveOne(s: Ledger, b: Block, p: Place, t: nat)
    requires Inv(s) && t in s.tlhs && b in s.loc
    requires s.loc[b].Client? || s.loc[b].Hand?
    requires p == Client || p.Hand? || p.t != t
    ensures Lists(s.loc[b := p], t, s.tlhs[t])
  {
    assert Lists(s.loc, t, s.tlhs[t]);
  }

  lemma PickUpInv(s: Ledger, t: nat, b: Block)
    requires Inv(s) && t in s.tlhs && At(s.loc, b, Client)
    ensures Inv(PickUp(s, t, b))
  {
    forall u | u in s.tlhs ensures Lists(s.loc[b := Hand(t)], u, s.tlhs[u]) { MoveOne(s, b, Hand(t), u); }
  }

  lemma AppendInv(s: Ledger, t: nat, b: Block)
    requires Inv(s) && t in s.tlhs && b in s.loc
    requires s.loc[b] == Client || s.loc[b] == Hand(t)
    requires s.owner[b.chunk] != t
    requires s.tlhs[t].batch == [] ||
             (|s.tlhs[t].batch| < BATCH_MAX && s.tlhs[t].target == Some(s.owner[b.chunk]))
    ensures Inv(Append(s, t, b))
  {
    var s', x := Append(s, t, b), s.tlhs[t];
    forall u | u in s.tlhs && u != t ensures Lists(s'.loc, u, s.tlhs[u]) { MoveOne(s, b, Batch(t), u); }
    AppendOwn(s, t, b);
  }

  lemma AppendOwn(s: Ledger, t: nat, b: Block)
    requires Inv(s) && t in s.tlhs && b in s.loc
    requires s.loc[b] == Client || s.loc[b] == Hand(t)
    requires s.owner[b.chunk] != t
    requires s.tlhs[t].batch == [] ||
             (|s.tlhs[t].batch| < BATCH_MAX && s.tlhs[t].target == Some(s.owner[b.chunk]))
    ensures var s' := Append(s, t, b); Lists(s'.loc, t, s'.tlhs[t]) && Routes(s'.owner, t, s'.tlhs[t])
  {
    var x := s.tlhs[t];
    assert Lists(s.loc, t, x) && Routes(s.owner, t, x);
    NoDupPrepend(b, x.batch);
  }

  /** Moving a whole queue to another place of the ledger. */
  lemma MoveAllHolds(loc: Places, from: Place, to: Place, p: Place, q: seq<Block>)
    requires Holds(loc, p, q) && p != from && p != to
    ensures Holds(MoveAll(loc, from, to), p, q)
  {
    forall b ensures At(MoveAll(loc, from, to), b, p) <==> At(loc, b, p) {}
  }

  lemma MoveAllEmpties(loc: Places, from: Place, to: Place)
    requires from != to
    ensures Holds(MoveAll(loc, from, to), from, [])
  {}

  lemma MoveAllJoins(loc: Places, from: Place, to: Place, q: seq<Block>, r: seq<Block>)
    requires Holds(loc, from, q) && Holds(loc, to, r) && from != to
    ensures Holds(MoveAll(loc, from, to), to, q + r)
  {
    var j := q + r;
    forall i, k | 0 <= i < k < |j| ensures j[i] != j[k] {
      if i < |q| <= k { assert j[i] in q && j[k] in r; }
    }
    forall b ensures b in j <==> At(MoveAll(loc, from, to), b, to) {
      assert b in j <==> b in q || b in r;
    }
  }

  lemma PushInv(s: Ledger, t: nat)
    requires Inv(s) && t in s.tlhs && s.tlhs[t].batch != []
    ensures s.tlhs[t].target.Some? && s.tlhs[t].target.value in s.tlhs
    ensures Inv(Push(s, t))
  {
    var x := s.tlhs[t];
    assert Lists(s.loc, t, x) && Routes(s.owner, t, x);
    var u := x.target.value;
    assert x.batch[0] in x.batch && OwnedBy(s.owner, x.batch[0], u);
    var s' := Push(s, t);
    forall v | v in s.tlhs ensures Lists(s'.loc, v, s'.tlhs[v]) && Routes(s'.owner, v, s'.tlhs[v]) {
      PushLists(s, t, u, v);
    }
  }

  lemma PushLists(s: Ledger, t: nat, u: nat, v: nat)
    requires Inv(s) && t in s.tlhs && u in s.tlhs && v in s.tlhs && t != u
    requires s.tlhs[t].batch != [] && s.tlhs[t].target == Some(u)
    ensures var s' := Push(s, t); Lists(s'.loc, v, s'.tlhs[v]) && Routes(s'.owner, v, s'.tlhs[v])
  {
    var x, y, z := s.tlhs[t], s.tlhs[u], s.tlhs[v];
    assert Lists(s.loc, v, z) && Routes(s.owner, v, z);
    MoveAllHolds(s.loc, Batch(t), Mail(u), Work(v), z.work);
    if v == t { MoveAllEmpties(s.loc, Batch(t), Mail(u)); }
    else { MoveAllHolds(s.loc, Batch(t), Mail(u), Batch(v), z.batch); }
    if v == u {
      assert Lists(s.loc, t, x) && Routes(s.owner, t, x);
      MoveAllJoins(s.loc, Batch(t), Mail(u), x.batch, y.mail);
    } else {
      MoveAllHolds(s.loc, Batch(t), Mail(u), Mail(v), z.mail);
    }
  }

  lemma DrainInv(s: Ledger, t: nat)
    requires Inv(s) && t in s.tlhs && s.tlhs[t].work == []
    ensures Inv(Drain(s, t))
  {
    var s' := Drain(s, t);
    forall v | v in s.tlhs ensures Lists(s'.loc, v, s'.tlhs[v]) && Routes(s'.owner, v, s'.tlhs[v]) {
      DrainLists(s, t, v);
    }
  }

  lemma DrainLists(s: Ledger, t: nat, v: nat)
    requires Inv(s) && t in s.tlhs && v in s.tlhs && s.tlhs[t].work == []
    ensures var s' := Drain(s, t); Lists(s'.loc, v, s'.tlhs[v]) && Routes(s'.owner, v, s'.tlhs[v])
  {
    var z := s.tlhs[v];
    assert Lists(s.loc, v, z) && Routes(s.owner, v, z);
    MoveAllHolds(s.loc, Mail(t), Work(t), Batch(v), z.batch);
    if v == t {
      MoveAllEmpties(s.loc, Mail(t), Work(t));
      MoveAllJoins(s.loc, Mail(t), Work(t), z.mail, z.work);
      assert z.mail + z.work == z.mail;
    } else {
      MoveAllHolds(s.loc, Mail(t), Work(t), Mail(v), z.mail);
      MoveAllHolds(s.loc, Mail(t), Work(t), Work(v), z.work);
    }
  }
}
