/** The chunk cache seen as a ledger: where every mapped chunk is, how the pointers spell each place, and what
    one step leaves alone. */
module VmmPlaces {
  import opened Common
  import opened Vmm

  /** Where a mapped chunk is. */
  datatype Place = Client | Pool(n: nat) | Global | Hand(th: nat)

  /** A ledger of places, and for each place but the clients its chunks in order. */
  datatype View = View(where_: map<nat, Place>, at: map<Place, seq<nat>>)

  function Q(v: View, p: Place): seq<nat> {
    if p in v.at then v.at[p] else []
  }

  predicate Is(v: View, x: nat, p: Place) {
    x in v.where_ && v.where_[x] == p
  }

  // ---- Chains ------------------------------------------------------------------------

  /** Following the header links from `h` visits exactly `q`. */
  ghost predicate Chain(next: map<nat, Option<nat>>, h: Option<nat>, q: seq<nat>)
    decreases |q|
  {
    h == First(q) && (q != [] ==> Chain(next, NextOf(next, q[0]), q[1..]))
  }

  lemma {:induction false} ChainFrame(next: map<nat, Option<nat>>, next': map<nat, Option<nat>>, h: Option<nat>, q: seq<nat>)
    requires Chain(next, h, q) && forall x :: x in q ==> NextOf(next', x) == NextOf(next, x)
    ensures Chain(next', h, q)
    decreases |q|
  {
    if q != [] {
      assert q == [q[0]] + q[1..];
      ChainFrame(next, next', NextOf(next, q[0]), q[1..]);
    }
  }

  // ---- The relation -------------------------------------------------------------------

  /** The chunk that a control point holds in a local variable. */
  function One(pc: Pc): Option<nat> {
    match pc
    case ACount(_, x) => Some(x)
    case ARelease(_, got) => got
    case AReturn(_, x) => Some(x)
    case GRelease(_, got) => got
    case AInit(_, x) => Some(x)
    case FWait(_, x) => Some(x)
    case FLook(_, x) => Some(x)
    case FRelease(_, back) => back
    case FGWait(x) => Some(x)
    case FGPush(x) => Some(x)
    case _ => None
  }

  function Single(o: Option<nat>): seq<nat> {
    match o case None => [] case Some(x) => [x]
  }

  /** The chunks in a thread's hand. */
  ghost predicate HandIs(next: map<nat, Option<nat>>, pc: Pc, q: seq<nat>) {
    match pc
    case EWait(_, rest) => q == rest
    case EPush(_, rest) => q == rest
    case PCount(_, h) => Chain(next, h, q)
    case PRelease(_, h) => Chain(next, h, q)
    case PNext(_, h) => Chain(next, h, q)
    case PGWait(_, x, after) => q != [] && q[0] == x && Chain(next, after, q[1..])
    case PGPush(_, x, after) => q != [] && q[0] == x && Chain(next, after, q[1..])
    case PGRelease(_, after) => Chain(next, after, q)
    case _ => q == Single(One(pc))
  }

  /** The pointers spell the contents of the place. */
  ghost predicate Shape(c: Vm, p: Place, q: seq<nat>) {
    match p
    case Client => true
    case Pool(n) => if n < |c.tops| then Chain(c.next, c.tops[n], q) else q == []
    case Global => Chain(c.next, c.global, q)
    case Hand(th) => HandIs(c.next, PcOf(c, th), q)
  }

  ghost predicate Holds(v: View, p: Place) {
    NoDup(Q(v, p)) && forall x :: x in Q(v, p) <==> Is(v, x, p)
  }

  ghost predicate Places(c: Vm, v: View) {
    && (forall p :: p != Client ==> Holds(v, p))
    && (forall p :: p != Client ==> Shape(c, p, Q(v, p)))
    && (forall x :: x in c.clients <==> Is(v, x, Client))
    && (forall x :: x in c.mapped <==> x in v.where_)
  }

  ghost predicate Sized(c: Vm) {
    |c.tops| == NODES && |c.counts| == NODES && |c.locks| == NODES
  }

  ghost predicate PoolLocks(c: Vm) {
    && (forall th: nat :: PoolHeld(PcOf(c, th)).Some? ==>
          PoolHeld(PcOf(c, th)).value < |c.locks| && c.locks[PoolHeld(PcOf(c, th)).value] == Some(th))
    && (forall n :: 0 <= n < |c.locks| && c.locks[n].Some? ==> PoolHeld(PcOf(c, c.locks[n].value)) == Some(n))
  }

  ghost predicate GlobalLock(c: Vm) {
    forall th: nat :: GlobalHeld(PcOf(c, th)) <==> c.glock == Some(th)
  }

  /** The locks are held exactly by the threads inside their critical sections. */
  ghost predicate Locks(c: Vm) {
    Sized(c) && PoolLocks(c) && GlobalLock(c)
  }

  /** The pool's count is off its stack only inside the critical section that is updating it. */
  ghost predicate CountOk(c: Vm, v: View, n: nat)
    requires Sized(c) && n < NODES
  {
    var size := |Q(v, Pool(n))|;
    && size <= MAX_CACHED && 0 <= c.counts[n] <= MAX_CACHED
    && (c.locks[n].None? ==> c.counts[n] == size)
    && (c.locks[n].Some? ==>
          match PcOf(c, c.locks[n].value)
          case ACount(_, _) => c.counts[n] == size + 1
          case FCount(_) => c.counts[n] + 1 == size
          case PCount(_, _) => size == 0
          case _ => c.counts[n] == size)
  }

  ghost predicate Counts(c: Vm, v: View) {
    Sized(c) && forall n :: 0 <= n < NODES ==> CountOk(c, v, n)
  }

  /** The node a control point names exists, and a chunk that came from a pool or is on its way to one carries
      that node and the magic. */
  ghost predicate PcMeta(c: Vm, pc: Pc) {
    && (pc.Idle? || pc.FGWait? || pc.FGPush? || pc.FGRelease? || pc.n < NODES)
    && (pc.ACount? || pc.AReturn? || pc.FWait? || pc.FLook? ==> Carries(c, pc.c, pc.n))
    && (pc.ARelease? && pc.got.Some? ==> Carries(c, pc.got.value, pc.n))
  }

  predicate Carries(c: Vm, x: nat, n: nat) {
    n < NODES && x in c.magic && NodeOf(c, x) == n
  }

  ghost predicate Meta(c: Vm, v: View) {
    && (forall x :: x in v.where_ && v.where_[x].Pool? ==> Carries(c, x, v.where_[x].n))
    && (forall x :: Is(v, x, Client) ==> Carries(c, x, NodeOf(c, x)))
    && (forall th: nat :: PcMeta(c, PcOf(c, th)))
  }

  ghost predicate Rel(c: Vm, v: View) {
    Places(c, v) && Locks(c) && Counts(c, v) && Meta(c, v)
  }

  // ---- Ledger moves --------------------------------------------------------------------

  /** The head of one place goes to the head of another. */
  function MoveHead(v: View, from: Place, to: Place): View
    requires Q(v, from) != []
  {
    var x := Q(v, from)[0];
    View(v.where_[x := to], v.at[from := Q(v, from)[1..]][to := [x] + Q(v, to)])
  }

  /** Two views agree about place `p`. */
  ghost predicate SamePlace(v: View, v': View, p: Place) {
    Q(v', p) == Q(v, p) && forall x :: Is(v', x, p) <==> Is(v, x, p)
  }

  lemma MoveHeadHolds(v: View, from: Place, to: Place)
    requires Holds(v, from) && Holds(v, to) && Q(v, from) != [] && from != to
    ensures Holds(MoveHead(v, from, to), from) && Holds(MoveHead(v, from, to), to)
    ensures forall p :: p != from && p != to ==> SamePlace(v, MoveHead(v, from, to), p)
    ensures Is(v, Q(v, from)[0], from)
  {
    var x := Q(v, from)[0];
    assert x in Q(v, from);
    TailMembers(Q(v, from));
    assert x !in Q(v, to);
    NoDupPrepend(x, Q(v, to));
    forall p | p != from && p != to ensures SamePlace(v, MoveHead(v, from, to), p) {
      assert !Is(v, x, p);
    }
  }

  /** Steps that leave the anchor of `p` alone: its top pointer, or the thread's control point. */
  ghost predicate SameAnchor(c: Vm, c': Vm, p: Place) {
    match p
    case Client => true
    case Pool(n) => |c'.tops| == |c.tops| && (n < |c.tops| ==> c'.tops[n] == c.tops[n])
    case Global => c'.global == c.global
    case Hand(th) => PcOf(c', th) == PcOf(c, th)
  }

  lemma HandFrame(next: map<nat, Option<nat>>, next': map<nat, Option<nat>>, pc: Pc, q: seq<nat>)
    requires HandIs(next, pc, q) && forall x :: x in q ==> NextOf(next', x) == NextOf(next, x)
    ensures HandIs(next', pc, q)
  {
    match pc
    case PCount(_, h) => ChainFrame(next, next', h, q);
    case PRelease(_, h) => ChainFrame(next, next', h, q);
    case PNext(_, h) => ChainFrame(next, next', h, q);
    case PGWait(_, x, after) => assert q == [q[0]] + q[1..]; ChainFrame(next, next', after, q[1..]);
    case PGPush(_, x, after) => assert q == [q[0]] + q[1..]; ChainFrame(next, next', after, q[1..]);
    case PGRelease(_, after) => ChainFrame(next, next', after, q);
    case _ =>
  }

  lemma ShapeFrame(c: Vm, c': Vm, p: Place, q: seq<nat>)
    requires Shape(c, p, q) && SameAnchor(c, c', p)
    requires forall x :: x in q ==> NextOf(c'.next, x) == NextOf(c.next, x)
    ensures Shape(c', p, q)
  {
    match p
    case Client =>
    case Pool(n) => if n < |c.tops| { ChainFrame(c.next, c'.next, c.tops[n], q); }
    case Global => ChainFrame(c.next, c'.next, c.global, q);
    case Hand(th) => HandFrame(c.next, c'.next, PcOf(c, th), q);
  }

  // ---- What a step of one thread leaves alone ---------------------------------------------

  ghost predicate OnlyThread(c: Vm, c': Vm, th: nat) {
    forall u: nat :: u != th ==> PcOf(c', u) == PcOf(c, u)
  }

  ghost predicate PoolLockMove(c: Vm, c': Vm, th: nat) {
    var a, b := PoolHeld(PcOf(c, th)), PoolHeld(PcOf(c', th));
    if a == b then c'.locks == c.locks
    else if a.None? then b.value < |c.locks| && c.locks[b.value].None? && c'.locks == c.locks[b.value := Some(th)]
    else b.None? && a.value < |c.locks| && c'.locks == c.locks[a.value := None]
  }

  ghost predicate GlobalLockMove(c: Vm, c': Vm, th: nat) {
    if GlobalHeld(PcOf(c, th)) == GlobalHeld(PcOf(c', th)) then c'.glock == c.glock
    else if GlobalHeld(PcOf(c', th)) then c.glock.None? && c'.glock == Some(th)
    else c'.glock.None?
  }

  /** The step takes a lock, releases one, or neither, as its control points say. */
  ghost predicate LockMove(c: Vm, c': Vm, th: nat) {
    && OnlyThread(c, c', th) && Sized(c) && Sized(c')
    && PoolLockMove(c, c', th) && GlobalLockMove(c, c', th)
  }

  lemma PoolLocksStep(c: Vm, c': Vm, th: nat)
    requires PoolLocks(c) && OnlyThread(c, c', th) && PoolLockMove(c, c', th)
    ensures PoolLocks(c')
  {
    forall u: nat | PoolHeld(PcOf(c', u)).Some?
      ensures PoolHeld(PcOf(c', u)).value < |c'.locks| && c'.locks[PoolHeld(PcOf(c', u)).value] == Some(u)
    {
      if u != th { assert PcOf(c', u) == PcOf(c, u); }
    }
    forall n | 0 <= n < |c'.locks| && c'.locks[n].Some? ensures PoolHeld(PcOf(c', c'.locks[n].value)) == Some(n) {
      assert c'.locks[n] == c.locks[n] || c'.locks[n] == Some(th);
    }
  }

  lemma GlobalLockStep(c: Vm, c': Vm, th: nat)
    requires GlobalLock(c) && OnlyThread(c, c', th) && GlobalLockMove(c, c', th)
    ensures GlobalLock(c')
  {
    forall u: nat ensures GlobalHeld(PcOf(c', u)) <==> c'.glock == Some(u) {
      if u != th { assert GlobalHeld(PcOf(c, u)) <==> c.glock == Some(u); }
    }
  }

  lemma LocksStep(c: Vm, c': Vm, th: nat)
    requires Locks(c) && LockMove(c, c', th)
    ensures Locks(c')
  {
    PoolLocksStep(c, c', th);
    GlobalLockStep(c, c', th);
  }

  /** `m` is the pool, if any, whose lock the thread holds before or after the step. */
  ghost predicate Touches(c: Vm, c': Vm, th: nat, m: Option<nat>) {
    && (PoolHeld(PcOf(c, th)) == m || PoolHeld(PcOf(c, th)).None?)
    && (PoolHeld(PcOf(c', th)) == m || PoolHeld(PcOf(c', th)).None?)
    && (m.Some? ==> m.value < NODES)
  }

  /** Counts of the pools whose lock the thread neither holds nor takes. */
  lemma CountsStep(c: Vm, c': Vm, v: View, v': View, th: nat, m: Option<nat>)
    requires Counts(c, v) && Locks(c) && LockMove(c, c', th) && Touches(c, c', th, m)
    requires forall n :: 0 <= n < NODES && m != Some(n) ==>
               c'.counts[n] == c.counts[n] && Q(v', Pool(n)) == Q(v, Pool(n))
    requires m.Some? ==> CountOk(c', v', m.value)
    ensures Counts(c', v')
  {
    forall n | 0 <= n < NODES ensures CountOk(c', v', n) {
      assert CountOk(c, v, n);
      if m != Some(n) && c.locks[n].Some? { assert PoolHeld(PcOf(c, c.locks[n].value)) == Some(n); }
    }
  }

  lemma MetaStep(c: Vm, c': Vm, v: View, v': View, th: nat)
    requires Meta(c, v) && OnlyThread(c, c', th) && c'.node == c.node && c'.magic == c.magic
    requires PcMeta(c', PcOf(c', th))
    requires forall x :: x in v'.where_ && v'.where_[x].Pool? ==> Carries(c', x, v'.where_[x].n)
    requires forall x :: Is(v', x, Client) ==> Carries(c', x, NodeOf(c', x))
    ensures Meta(c', v')
  {
    forall u: nat ensures PcMeta(c', PcOf(c', u)) {
      assert PcMeta(c, PcOf(c, u));
    }
  }

  /** Places when only control points, counts and locks change. */
  lemma ControlPlaces(c: Vm, c': Vm, v: View, th: nat)
    requires Places(c, v) && OnlyThread(c, c', th)
    requires c'.next == c.next && c'.tops == c.tops && c'.global == c.global
    requires c'.clients == c.clients && c'.mapped == c.mapped
    requires HandIs(c.next, PcOf(c', th), Q(v, Hand(th)))
    ensures Places(c', v)
  {
    forall p | p != Client ensures Shape(c', p, Q(v, p)) {
      assert Shape(c, p, Q(v, p));
      if p != Hand(th) { ShapeFrame(c, c', p, Q(v, p)); }
    }
  }

  /** A step that moves no chunk. */
  lemma ControlStep(c: Vm, c': Vm, v: View, th: nat, m: Option<nat>)
    requires Rel(c, v) && LockMove(c, c', th)
    requires c'.next == c.next && c'.tops == c.tops && c'.global == c.global
    requires c'.clients == c.clients && c'.mapped == c.mapped && c'.node == c.node && c'.magic == c.magic
    requires HandIs(c.next, PcOf(c', th), Q(v, Hand(th)))
    requires PcMeta(c', PcOf(c', th))
    requires Touches(c, c', th, m) && (m.Some? ==> CountOk(c', v, m.value))
    requires forall n :: 0 <= n < NODES && m != Some(n) ==> c'.counts[n] == c.counts[n]
    ensures Rel(c', v)
  {
    LocksStep(c, c', th);
    ControlPlaces(c, c', v, th);
    CountsStep(c, c', v, v, th, m);
    MetaStep(c, c', v, v, th);
  }

  // ---- Steps that move a chunk ---------------------------------------------------------------

  /** Places when the head `x` of one place became the head of another. */
  lemma MovePlaces(c: Vm, c': Vm, v: View, th: nat, from: Place, to: Place, x: nat)
    requires Places(c, v) && from != to && from != Client && to != Client && Q(v, from) != [] && x == Q(v, from)[0]
    requires forall p :: p != from && p != to ==> SameAnchor(c, c', p)
    requires forall y :: y != x ==> NextOf(c'.next, y) == NextOf(c.next, y)
    requires Shape(c', from, Q(v, from)[1..]) && Shape(c', to, [x] + Q(v, to))
    requires c'.clients == c.clients && c'.mapped == c.mapped
    ensures Places(c', MoveHead(v, from, to))
  {
    var v' := MoveHead(v, from, to);
    MoveHeadHolds(v, from, to);
    forall p | p != Client ensures Holds(v', p) && Shape(c', p, Q(v', p)) {
      assert Holds(v, p) && Shape(c, p, Q(v, p));
      if p != from && p != to {
        assert SamePlace(v, v', p);
        assert x !in Q(v, p);
        ShapeFrame(c, c', p, Q(v, p));
      }
    }
    MoveKeys(c, c', v, from, to);
  }

  lemma MoveKeys(c: Vm, c': Vm, v: View, from: Place, to: Place)
    requires Places(c, v) && Holds(v, from) && from != Client && to != Client && Q(v, from) != []
    requires c'.clients == c.clients && c'.mapped == c.mapped
    ensures forall x :: x in c'.clients <==> Is(MoveHead(v, from, to), x, Client)
    ensures forall x :: x in c'.mapped <==> x in MoveHead(v, from, to).where_
  {
    var y := Q(v, from)[0];
    assert y in Q(v, from) && Is(v, y, from);
    forall x ensures Is(MoveHead(v, from, to), x, Client) <==> Is(v, x, Client) {}
  }

  /** What a move from one place to another leaves of the rest of the relation. */
  lemma MoveRest(c: Vm, c': Vm, v: View, th: nat, from: Place, to: Place, m: Option<nat>)
    requires Locks(c) && Counts(c, v) && Meta(c, v) && LockMove(c, c', th)
    requires from != Client && to != Client && Q(v, from) != []
    requires c'.node == c.node && c'.magic == c.magic && c'.counts == c.counts
    requires PcMeta(c', PcOf(c', th)) && (to.Pool? ==> Carries(c, Q(v, from)[0], to.n))
    requires (from.Pool? ==> m == Some(from.n)) && (to.Pool? ==> m == Some(to.n))
    requires Touches(c, c', th, m) && (m.Some? ==> CountOk(c', MoveHead(v, from, to), m.value))
    ensures Locks(c') && Counts(c', MoveHead(v, from, to)) && Meta(c', MoveHead(v, from, to))
  {
    var v' := MoveHead(v, from, to);
    LocksStep(c, c', th);
    CountsStep(c, c', v, v', th, m);
    MoveMeta(c, c', v, from, to);
    MetaStep(c, c', v, v', th);
  }

  lemma MoveMeta(c: Vm, c': Vm, v: View, from: Place, to: Place)
    requires Meta(c, v) && to != Client && Q(v, from) != [] && c'.node == c.node && c'.magic == c.magic
    requires to.Pool? ==> Carries(c, Q(v, from)[0], to.n)
    ensures forall y :: y in MoveHead(v, from, to).where_ && MoveHead(v, from, to).where_[y].Pool? ==>
              Carries(c', y, MoveHead(v, from, to).where_[y].n)
    ensures forall y :: Is(MoveHead(v, from, to), y, Client) ==> Carries(c', y, NodeOf(c', y))
  {
    forall y | Is(MoveHead(v, from, to), y, Client) ensures Carries(c', y, NodeOf(c', y)) {
      assert Is(v, y, Client);
    }
  }

  // ---- Steps at the clients' boundary ----------------------------------------------------------

  /** The chunk in the thread's hand goes to the client. */
  function Lend(v: View, th: nat, x: nat): View {
    View(v.where_[x := Client], v.at[Hand(th) := []])
  }

  /** The client's chunk comes into the thread's hand. */
  function Accept(v: View, th: nat, x: nat): View {
    View(v.where_[x := Hand(th)], v.at[Hand(th) := [x]])
  }

  lemma LendPlaces(c: Vm, c': Vm, v: View, th: nat, x: nat)
    requires Places(c, v) && Q(v, Hand(th)) == [x] && OnlyThread(c, c', th) && PcOf(c', th).Idle?
    requires c'.tops == c.tops && c'.global == c.global && c'.mapped == c.mapped && c'.clients == c.clients + {x}
    requires forall y :: y != x ==> NextOf(c'.next, y) == NextOf(c.next, y)
    ensures Places(c', Lend(v, th, x)) && Is(v, x, Hand(th))
  {
    var v' := Lend(v, th, x);
    assert Holds(v, Hand(th)) && x in Q(v, Hand(th));
    forall p | p != Client ensures Holds(v', p) && Shape(c', p, Q(v', p)) {
      assert Holds(v, p) && Shape(c, p, Q(v, p));
      if p != Hand(th) {
        assert Q(v', p) == Q(v, p);
        assert !Is(v, x, p);
        assert forall y :: Is(v', y, p) <==> Is(v, y, p);
        ShapeFrame(c, c', p, Q(v, p));
      } else {
        forall y ensures !Is(v', y, p) { assert Is(v, y, p) ==> y == x; }
      }
    }
    forall y ensures y in c'.clients <==> Is(v', y, Client) {}
  }

  lemma AcceptPlaces(c: Vm, c': Vm, v: View, th: nat, x: nat, n: nat)
    requires Places(c, v) && Q(v, Hand(th)) == [] && OnlyThread(c, c', th) && PcOf(c', th) == FWait(n, x)
    requires x in c.clients && c'.clients == c.clients - {x} && c'.mapped == c.mapped
    requires c'.next == c.next && c'.tops == c.tops && c'.global == c.global
    ensures Places(c', Accept(v, th, x))
  {
    var v' := Accept(v, th, x);
    assert Is(v, x, Client);
    assert Holds(v, Hand(th));
    forall p | p != Client ensures Holds(v', p) && Shape(c', p, Q(v', p)) {
      assert Holds(v, p) && Shape(c, p, Q(v, p));
      if p != Hand(th) {
        assert Q(v', p) == Q(v, p);
        assert forall y :: Is(v', y, p) <==> Is(v, y, p);
        ShapeFrame(c, c', p, Q(v, p));
      } else {
        forall y ensures Is(v', y, p) <==> y == x { assert !Is(v, y, p); }
      }
    }
    forall y ensures y in c'.clients <==> Is(v', y, Client) {}
  }

  // ---- Steps that move many chunks ----------------------------------------------------------------

  /** Everything in pool `n` comes into the thread's hand. */
  function Drain(v: View, n: nat, th: nat): View {
    View(map x | x in v.where_ :: if v.where_[x] == Pool(n) then Hand(th) else v.where_[x],
         v.at[Pool(n) := []][Hand(th) := Q(v, Pool(n))])
  }

  /** New chunks come into the thread's hand. */
  function Provision(v: View, th: nat, q: seq<nat>): View {
    View(v.where_ + (map x | x in q :: Hand(th)), v.at[Hand(th) := q])
  }

  lemma DrainPlaces(c: Vm, c': Vm, v: View, th: nat, n: nat)
    requires Places(c, v) && Q(v, Hand(th)) == [] && OnlyThread(c, c', th) && n < |c.tops|
    requires PcOf(c', th) == PCount(n, c.tops[n]) && c'.tops == c.tops[n := None]
    requires c'.clients == c.clients && c'.mapped == c.mapped && c'.next == c.next && c'.global == c.global
    ensures Places(c', Drain(v, n, th))
  {
    var v' := Drain(v, n, th);
    assert Holds(v, Hand(th)) && Holds(v, Pool(n)) && Shape(c, Pool(n), Q(v, Pool(n)));
    forall p | p != Client ensures Holds(v', p) && Shape(c', p, Q(v', p)) {
      assert Holds(v, p) && Shape(c, p, Q(v, p));
      if p != Hand(th) && p != Pool(n) {
        assert Q(v', p) == Q(v, p);
        assert forall y :: Is(v', y, p) <==> Is(v, y, p);
        ShapeFrame(c, c', p, Q(v, p));
      } else if p == Hand(th) {
        forall y ensures Is(v', y, p) <==> Is(v, y, Pool(n)) { assert !Is(v, y, p); }
      }
    }
    forall y ensures Is(v', y, Client) <==> Is(v, y, Client) {}
  }

  lemma ProvisionPlaces(c: Vm, c': Vm, v: View, th: nat, q: seq<nat>, n: nat)
    requires Places(c, v) && Q(v, Hand(th)) == [] && OnlyThread(c, c', th) && FreshExtent(c, q)
    requires PcOf(c', th) == EWait(n, q) && c'.mapped == c.mapped + (set x | x in q)
    requires c'.clients == c.clients && c'.next == c.next && c'.global == c.global && c'.tops == c.tops
    ensures Places(c', Provision(v, th, q))
  {
    var v' := Provision(v, th, q);
    assert Holds(v, Hand(th));
    assert forall y :: y in q ==> y !in v.where_;
    forall p | p != Client ensures Holds(v', p) && Shape(c', p, Q(v', p)) {
      assert Holds(v, p) && Shape(c, p, Q(v, p));
      if p != Hand(th) {
        assert Q(v', p) == Q(v, p);
        assert forall y :: Is(v', y, p) <==> Is(v, y, p);
        ShapeFrame(c, c', p, Q(v, p));
      } else {
        forall y ensures Is(v', y, p) <==> y in q { assert !Is(v, y, p); }
      }
    }
    forall y ensures Is(v', y, Client) <==> Is(v, y, Client) {}
  }
}
