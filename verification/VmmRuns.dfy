/** Whole runs of the chunk cache: every chunk the system ever mapped is in exactly one place, the pools stay
    within their bound, and the locks cannot deadlock. */
module VmmRuns {
  import opened Common
  import opened Vmm
  import opened VmmPlaces

  // ---- Steps that move no chunk -----------------------------------------------------------

  lemma HandAt(c: Vm, v: View, th: nat)
    requires Rel(c, v)
    ensures HandIs(c.next, PcOf(c, th), Q(v, Hand(th))) && PcMeta(c, PcOf(c, th)) && Holds(v, Hand(th))
    ensures Sized(c)
    ensures PoolHeld(PcOf(c, th)).Some? ==>
              PoolHeld(PcOf(c, th)).value < NODES && c.locks[PoolHeld(PcOf(c, th)).value] == Some(th)
  {
    assert Shape(c, Hand(th), Q(v, Hand(th)));
  }

  lemma CountAt(c: Vm, v: View, n: nat)
    requires Rel(c, v) && n < NODES
    ensures Sized(c) && CountOk(c, v, n)
  {}

  lemma AWaitStep(c: Vm, v: View, th: nat)
    requires Rel(c, v) && CanGo(c, th) && PcOf(c, th).AWait?
    ensures Rel(GoStep(c, th), v)
  {
    var c', n := GoStep(c, th), PcOf(c, th).n;
    HandAt(c, v, th);
    CountAt(c, v, n);
    assert PcOf(c', th) == APop(n);
    ControlStep(c, c', v, th, Some(n));
  }

  lemma FWaitStep(c: Vm, v: View, th: nat)
    requires Rel(c, v) && CanGo(c, th) && PcOf(c, th).FWait?
    ensures Rel(GoStep(c, th), v)
  {
    var c', n := GoStep(c, th), PcOf(c, th).n;
    HandAt(c, v, th);
    CountAt(c, v, n);
    assert PcOf(c', th) == FLook(n, PcOf(c, th).c);
    ControlStep(c, c', v, th, Some(n));
  }

  lemma PWaitStep(c: Vm, v: View, th: nat)
    requires Rel(c, v) && CanGo(c, th) && PcOf(c, th).PWait?
    ensures Rel(GoStep(c, th), v)
  {
    var c', n := GoStep(c, th), PcOf(c, th).n;
    HandAt(c, v, th);
    CountAt(c, v, n);
    assert PcOf(c', th) == PTake(n);
    ControlStep(c, c', v, th, Some(n));
  }

  lemma ACountStep(c: Vm, v: View, th: nat)
    requires Rel(c, v) && CanGo(c, th) && PcOf(c, th).ACount?
    ensures Rel(GoStep(c, th), v)
  {
    var c', n := GoStep(c, th), PcOf(c, th).n;
    HandAt(c, v, th);
    CountAt(c, v, n);
    assert PcOf(c', th) == ARelease(n, Some(PcOf(c, th).c));
    ControlStep(c, c', v, th, Some(n));
  }

  lemma FCountStep(c: Vm, v: View, th: nat)
    requires Rel(c, v) && CanGo(c, th) && PcOf(c, th).FCount?
    ensures Rel(GoStep(c, th), v)
  {
    var c', n := GoStep(c, th), PcOf(c, th).n;
    HandAt(c, v, th);
    CountAt(c, v, n);
    assert PcOf(c', th) == FRelease(n, None);
    ControlStep(c, c', v, th, Some(n));
  }

  lemma PCountStep(c: Vm, v: View, th: nat)
    requires Rel(c, v) && CanGo(c, th) && PcOf(c, th).PCount?
    ensures Rel(GoStep(c, th), v)
  {
    var c', n := GoStep(c, th), PcOf(c, th).n;
    HandAt(c, v, th);
    CountAt(c, v, n);
    assert PcOf(c', th) == PRelease(n, PcOf(c, th).h);
    ControlStep(c, c', v, th, Some(n));
  }

  lemma AReleaseStep(c: Vm, v: View, th: nat)
    requires Rel(c, v) && CanGo(c, th) && PcOf(c, th).ARelease?
    ensures Rel(GoStep(c, th), v)
  {
    var c', n := GoStep(c, th), PcOf(c, th).n;
    HandAt(c, v, th);
    CountAt(c, v, n);
    ControlStep(c, c', v, th, Some(n));
  }

  lemma FReleaseStep(c: Vm, v: View, th: nat)
    requires Rel(c, v) && CanGo(c, th) && PcOf(c, th).FRelease?
    ensures Rel(GoStep(c, th), v)
  {
    var c', n := GoStep(c, th), PcOf(c, th).n;
    HandAt(c, v, th);
    CountAt(c, v, n);
    ControlStep(c, c', v, th, Some(n));
  }

  lemma PReleaseStep(c: Vm, v: View, th: nat)
    requires Rel(c, v) && CanGo(c, th) && PcOf(c, th).PRelease?
    ensures Rel(GoStep(c, th), v)
  {
    var c', n := GoStep(c, th), PcOf(c, th).n;
    HandAt(c, v, th);
    CountAt(c, v, n);
    assert PcOf(c', th) == PNext(n, PcOf(c, th).h);
    ControlStep(c, c', v, th, Some(n));
  }

  lemma APopEmptyStep(c: Vm, v: View, th: nat)
    requires Rel(c, v) && CanGo(c, th) && PcOf(c, th).APop? && c.tops[PcOf(c, th).n].None?
    ensures Rel(GoStep(c, th), v)
  {
    var c', n := GoStep(c, th), PcOf(c, th).n;
    HandAt(c, v, th);
    CountAt(c, v, n);
    assert PcOf(c', th) == ARelease(n, None);
    ControlStep(c, c', v, th, Some(n));
  }

  lemma FLookFullStep(c: Vm, v: View, th: nat)
    requires Rel(c, v) && CanGo(c, th) && PcOf(c, th).FLook? && c.counts[PcOf(c, th).n] >= MAX_CACHED
    ensures Rel(GoStep(c, th), v)
  {
    var c', n := GoStep(c, th), PcOf(c, th).n;
    HandAt(c, v, th);
    CountAt(c, v, n);
    assert PcOf(c', th) == FRelease(n, Some(PcOf(c, th).c));
    ControlStep(c, c', v, th, Some(n));
  }

  lemma GlobalWaitSteps(c: Vm, v: View, th: nat)
    requires Rel(c, v) && CanGo(c, th) && (PcOf(c, th).GWait? || PcOf(c, th).FGWait?)
    ensures Rel(GoStep(c, th), v)
  {
    var c' := GoStep(c, th);
    HandAt(c, v, th);
    ControlStep(c, c', v, th, None);
  }

  lemma BulkWaitSteps(c: Vm, v: View, th: nat)
    requires Rel(c, v) && CanGo(c, th) && (PcOf(c, th).EWait? || PcOf(c, th).PGWait?)
    ensures Rel(GoStep(c, th), v)
  {
    var c' := GoStep(c, th);
    HandAt(c, v, th);
    ControlStep(c, c', v, th, None);
  }

  lemma GlobalLeaveSteps(c: Vm, v: View, th: nat)
    requires Rel(c, v) && CanGo(c, th) && (PcOf(c, th).GLeave? || PcOf(c, th).FGRelease? || PcOf(c, th).PGRelease?)
    ensures Rel(GoStep(c, th), v)
  {
    var c' := GoStep(c, th);
    HandAt(c, v, th);
    ControlStep(c, c', v, th, None);
  }

  lemma GReleaseStep(c: Vm, v: View, th: nat)
    requires Rel(c, v) && CanGo(c, th) && PcOf(c, th).GRelease?
    ensures Rel(GoStep(c, th), v)
  {
    var c' := GoStep(c, th);
    HandAt(c, v, th);
    ControlStep(c, c', v, th, None);
  }

  lemma GLookEmptyStep(c: Vm, v: View, th: nat)
    requires Rel(c, v) && CanGo(c, th) && PcOf(c, th).GLook? && c.global.None?
    ensures Rel(GoStep(c, th), v)
  {
    var c' := GoStep(c, th);
    HandAt(c, v, th);
    ControlStep(c, c', v, th, None);
  }

  lemma EPushDoneStep(c: Vm, v: View, th: nat)
    requires Rel(c, v) && CanGo(c, th) && PcOf(c, th).EPush? && PcOf(c, th).rest == []
    ensures Rel(GoStep(c, th), v)
  {
    var c' := GoStep(c, th);
    HandAt(c, v, th);
    assert PcOf(c', th) == GWait(PcOf(c, th).n, true);
    ControlStep(c, c', v, th, None);
  }

  lemma PNextStep(c: Vm, v: View, th: nat)
    requires Rel(c, v) && CanGo(c, th) && PcOf(c, th).PNext?
    ensures Rel(GoStep(c, th), v)
  {
    var c' := GoStep(c, th);
    HandAt(c, v, th);
    ControlStep(c, c', v, th, None);
  }

  // ---- Steps that move a chunk -------------------------------------------------------------------

  lemma PoolAt(c: Vm, v: View, n: nat)
    requires Rel(c, v) && n < NODES
    ensures Sized(c) && Chain(c.next, c.tops[n], Q(v, Pool(n))) && Holds(v, Pool(n)) && CountOk(c, v, n)
  {
    assert Shape(c, Pool(n), Q(v, Pool(n)));
  }

  lemma GlobalAt(c: Vm, v: View)
    requires Rel(c, v)
    ensures Chain(c.next, c.global, Q(v, Global)) && Holds(v, Global)
  {
    assert Shape(c, Global, Q(v, Global));
  }

  lemma APopStep(c: Vm, v: View, th: nat) returns (v': View)
    requires Rel(c, v) && CanGo(c, th) && PcOf(c, th).APop? && c.tops[PcOf(c, th).n].Some?
    ensures Rel(GoStep(c, th), v')
  {
    var c', n, x := GoStep(c, th), PcOf(c, th).n, c.tops[PcOf(c, th).n].value;
    HandAt(c, v, th);
    PoolAt(c, v, n);
    v' := MoveHead(v, Pool(n), Hand(th));
    assert PcOf(c', th) == ACount(n, x);
    assert x in Q(v, Pool(n)) && Is(v, x, Pool(n)) && Carries(c, x, n);
    MovePlaces(c, c', v, th, Pool(n), Hand(th), x);
    MoveRest(c, c', v, th, Pool(n), Hand(th), Some(n));
  }

  /** Linking a new node in front of a stack. */
  lemma PushChain(next: map<nat, Option<nat>>, h: Option<nat>, q: seq<nat>, x: nat)
    requires Chain(next, h, q) && x !in q
    ensures Chain(next[x := h], Some(x), [x] + q)
  {
    ChainFrame(next, next[x := h], h, q);
    assert ([x] + q)[1..] == q;
  }

  lemma Apart(v: View, p: Place, p': Place, x: nat)
    requires Holds(v, p) && Holds(v, p') && p != p' && x in Q(v, p)
    ensures x !in Q(v, p')
  {}

  /** Pushing the head of the hand on a pool or the global stack. */
  lemma PushPlaces(c: Vm, c': Vm, v: View, th: nat, x: nat, to: Place, h: Option<nat>)
    requires Places(c, v) && Q(v, Hand(th)) != [] && Q(v, Hand(th))[0] == x && OnlyThread(c, c', th)
    requires to == Global || (to.Pool? && to.n < |c.tops|)
    requires if to == Global then c'.tops == c.tops && h == c.global && c'.global == Some(x)
             else c'.global == c.global && h == c.tops[to.n] && c'.tops == c.tops[to.n := Some(x)]
    requires c'.next == c.next[x := h] && c'.clients == c.clients && c'.mapped == c.mapped
    requires HandIs(c.next, PcOf(c', th), Q(v, Hand(th))[1..])
    ensures Places(c', MoveHead(v, Hand(th), to))
  {
    assert Holds(v, Hand(th)) && Holds(v, to) && Shape(c, to, Q(v, to));
    Apart(v, Hand(th), to, x);
    PushChain(c.next, h, Q(v, to), x);
    TailMembers(Q(v, Hand(th)));
    HandFrame(c.next, c'.next, PcOf(c', th), Q(v, Hand(th))[1..]);
    MovePlaces(c, c', v, th, Hand(th), to, x);
  }

  lemma FLookStep(c: Vm, v: View, th: nat) returns (v': View)
    requires Rel(c, v) && CanGo(c, th) && PcOf(c, th).FLook? && c.counts[PcOf(c, th).n] < MAX_CACHED
    ensures Rel(GoStep(c, th), v')
  {
    var c', n, x := GoStep(c, th), PcOf(c, th).n, PcOf(c, th).c;
    HandAt(c, v, th);
    PoolAt(c, v, n);
    v' := MoveHead(v, Hand(th), Pool(n));
    assert PcOf(c', th) == FCount(n);
    PushPlaces(c, c', v, th, x, Pool(n), c.tops[n]);
    MoveRest(c, c', v, th, Hand(th), Pool(n), Some(n));
  }

  lemma GLookStep(c: Vm, v: View, th: nat) returns (v': View)
    requires Rel(c, v) && CanGo(c, th) && PcOf(c, th).GLook? && c.global.Some?
    ensures Rel(GoStep(c, th), v')
  {
    var c', n, x := GoStep(c, th), PcOf(c, th).n, c.global.value;
    HandAt(c, v, th);
    GlobalAt(c, v);
    v' := MoveHead(v, Global, Hand(th));
    assert PcOf(c', th) == GRelease(n, Some(x));
    MovePlaces(c, c', v, th, Global, Hand(th), x);
    MoveRest(c, c', v, th, Global, Hand(th), None);
  }

  /** Pushing the head of the hand on the global stack. */
  lemma PushStep(c: Vm, v: View, th: nat, x: nat, pc': Pc) returns (v': View)
    requires Rel(c, v) && GlobalHeld(PcOf(c, th)) && GlobalHeld(pc') && Q(v, Hand(th)) != [] && Q(v, Hand(th))[0] == x
    requires PcMeta(c, pc') && HandIs(c.next, pc', Q(v, Hand(th))[1..])
    ensures Rel(At(PushGlobal(c, x), th, pc'), v')
  {
    var c' := At(PushGlobal(c, x), th, pc');
    HandAt(c, v, th);
    v' := MoveHead(v, Hand(th), Global);
    PushPlaces(c, c', v, th, x, Global, c.global);
    MoveRest(c, c', v, th, Hand(th), Global, None);
  }

  lemma PushSteps(c: Vm, v: View, th: nat) returns (v': View)
    requires Rel(c, v) && CanGo(c, th)
    requires var pc := PcOf(c, th); (pc.EPush? && pc.rest != []) || pc.FGPush? || pc.PGPush?
    ensures Rel(GoStep(c, th), v')
  {
    HandAt(c, v, th);
    v' := PushStep(c, v, th, Q(v, Hand(th))[0], PcOf(GoStep(c, th), th));
  }

  // ---- Steps at the clients' boundary ----------------------------------------------------------------

  lemma LendMeta(c: Vm, c': Vm, v: View, th: nat, x: nat)
    requires Meta(c, v) && Holds(v, Hand(th)) && OnlyThread(c, c', th) && PcOf(c', th).Idle?
    requires forall y :: y != x ==> NodeOf(c', y) == NodeOf(c, y) && (y in c'.magic <==> y in c.magic)
    requires Carries(c', x, NodeOf(c', x)) && Is(v, x, Hand(th))
    requires forall u: nat :: u != th ==> PcMeta(c', PcOf(c, u))
    ensures Meta(c', Lend(v, th, x))
  {
    var v' := Lend(v, th, x);
    forall y | y in v'.where_ && v'.where_[y].Pool? ensures Carries(c', y, v'.where_[y].n) {
      assert Carries(c, y, v.where_[y].n);
    }
    forall y | Is(v', y, Client) ensures Carries(c', y, NodeOf(c', y)) {
      if y != x { assert Is(v, y, Client); }
    }
  }

  /** Writing the header of the chunk in one thread's hand changes nothing another thread relies on. */
  lemma OthersMeta(c: Vm, c': Vm, v: View, th: nat, x: nat)
    requires Places(c, v) && Meta(c, v) && Is(v, x, Hand(th))
    requires forall y :: y != x ==> NodeOf(c', y) == NodeOf(c, y) && (y in c'.magic <==> y in c.magic)
    ensures forall u: nat :: u != th ==> PcMeta(c', PcOf(c, u))
  {
    forall u: nat | u != th ensures PcMeta(c', PcOf(c, u)) {
      assert PcMeta(c, PcOf(c, u)) && Holds(v, Hand(u)) && Shape(c, Hand(u), Q(v, Hand(u)));
      assert !Is(v, x, Hand(u));
      OneInHand(c.next, PcOf(c, u), Q(v, Hand(u)));
    }
  }

  lemma OneInHand(next: map<nat, Option<nat>>, pc: Pc, q: seq<nat>)
    requires HandIs(next, pc, q)
    ensures One(pc).Some? ==> One(pc).value in q
  {}

  /** Locks and counts when a step touches neither. */
  lemma QuietStep(c: Vm, c': Vm, v: View, v': View, th: nat)
    requires Locks(c) && Counts(c, v) && OnlyThread(c, c', th)
    requires c'.counts == c.counts && c'.locks == c.locks && c'.glock == c.glock && |c'.tops| == |c.tops|
    requires PoolHeld(PcOf(c, th)).None? && PoolHeld(PcOf(c', th)).None?
    requires GlobalHeld(PcOf(c', th)) == GlobalHeld(PcOf(c, th))
    requires forall n :: 0 <= n < NODES ==> Q(v', Pool(n)) == Q(v, Pool(n))
    ensures Locks(c') && Counts(c', v')
  {
    LocksStep(c, c', th);
    CountsStep(c, c', v, v', th, None);
  }

  lemma LendSteps(c: Vm, v: View, th: nat) returns (v': View)
    requires Rel(c, v) && CanGo(c, th) && (PcOf(c, th).AReturn? || PcOf(c, th).AInit?)
    ensures Rel(GoStep(c, th), v')
  {
    var c', x := GoStep(c, th), PcOf(c, th).c;
    HandAt(c, v, th);
    v' := Lend(v, th, x);
    QuietStep(c, c', v, v', th);
    LendPlaces(c, c', v, th, x);
    OthersMeta(c, c', v, th, x);
    LendMeta(c, c', v, th, x);
  }

  lemma CallFreeStep(c: Vm, v: View, th: nat, x: nat) returns (v': View)
    requires Rel(c, v) && PcOf(c, th).Idle? && x in c.clients
    ensures Rel(Apply(c, CallFree(th, x)), v')
    ensures x in c.magic
  {
    var c' := Apply(c, CallFree(th, x));
    assert Is(v, x, Client) && Carries(c, x, NodeOf(c, x));
    HandAt(c, v, th);
    v' := Accept(v, th, x);
    QuietStep(c, c', v, v', th);
    AcceptPlaces(c, c', v, th, x, NodeOf(c, x));
    AcceptMeta(c, c', v, th, x);
  }

  lemma AcceptMeta(c: Vm, c': Vm, v: View, th: nat, x: nat)
    requires Meta(c, v) && OnlyThread(c, c', th) && c'.node == c.node && c'.magic == c.magic
    requires PcMeta(c', PcOf(c', th))
    ensures Meta(c', Accept(v, th, x))
  {
    var v' := Accept(v, th, x);
    forall y | Is(v', y, Client) ensures Carries(c', y, NodeOf(c', y)) { assert Is(v, y, Client); }
    MetaStep(c, c', v, v', th);
  }

  // ---- Steps that move many chunks ---------------------------------------------------------------------

  lemma PTakeStep(c: Vm, v: View, th: nat) returns (v': View)
    requires Rel(c, v) && CanGo(c, th) && PcOf(c, th).PTake?
    ensures Rel(GoStep(c, th), v')
  {
    var c', n := GoStep(c, th), PcOf(c, th).n;
    HandAt(c, v, th);
    CountAt(c, v, n);
    v' := Drain(v, n, th);
    assert c' == At(c, th, PCount(n, c.tops[n])).(tops := c.tops[n := None]);
    DrainPlaces(c, c', v, th, n);
    DrainRest(c, c', v, th, n);
  }

  lemma DrainRest(c: Vm, c': Vm, v: View, th: nat, n: nat)
    requires Locks(c) && Counts(c, v) && Meta(c, v) && LockMove(c, c', th) && Touches(c, c', th, Some(n))
    requires c'.node == c.node && c'.magic == c.magic && c'.counts == c.counts
    requires PcMeta(c', PcOf(c', th)) && CountOk(c', Drain(v, n, th), n)
    ensures Locks(c') && Counts(c', Drain(v, n, th)) && Meta(c', Drain(v, n, th))
  {
    var v' := Drain(v, n, th);
    LocksStep(c, c', th);
    CountsStep(c, c', v, v', th, Some(n));
    forall y | Is(v', y, Client) ensures Carries(c', y, NodeOf(c', y)) { assert Is(v, y, Client); }
    MetaStep(c, c', v, v', th);
  }

  lemma MappedStep(c: Vm, v: View, th: nat, q: seq<nat>) returns (v': View)
    requires Rel(c, v) && PcOf(c, th).EMap? && FreshExtent(c, q)
    ensures Rel(Apply(c, Mapped(th, q)), v')
  {
    var c' := Apply(c, Mapped(th, q));
    HandAt(c, v, th);
    v' := Provision(v, th, q);
    QuietStep(c, c', v, v', th);
    ProvisionPlaces(c, c', v, th, q, PcOf(c, th).n);
    ProvisionMeta(c, c', v, th, q);
  }

  lemma ProvisionMeta(c: Vm, c': Vm, v: View, th: nat, q: seq<nat>)
    requires Meta(c, v) && OnlyThread(c, c', th) && c'.node == c.node && c'.magic == c.magic
    requires PcMeta(c', PcOf(c', th))
    ensures Meta(c', Provision(v, th, q))
  {
    var v' := Provision(v, th, q);
    forall y | Is(v', y, Client) ensures Carries(c', y, NodeOf(c', y)) { assert Is(v, y, Client); }
    MetaStep(c, c', v, v', th);
  }

  lemma CallSteps(c: Vm, v: View, a: Action)
    requires Rel(c, v) && Guard(c, a) && (a.CallAlloc? || a.CallPurge? || a.MapFails?)
    ensures Rel(Apply(c, a), v)
  {
    HandAt(c, v, a.th);
    ControlStep(c, Apply(c, a), v, a.th, None);
  }

  // ---- Whole runs ------------------------------------------------------------------------------------------

  lemma GoKeeps(c: Vm, v: View, th: nat) returns (v': View)
    requires Rel(c, v) && CanGo(c, th)
    ensures Rel(GoStep(c, th), v')
  {
    v' := v;
    match PcOf(c, th)
    case AWait(_) => AWaitStep(c, v, th);
    case APop(n) => if c.tops[n].None? { APopEmptyStep(c, v, th); } else { v' := APopStep(c, v, th); }
    case ACount(_, _) => ACountStep(c, v, th);
    case ARelease(_, _) => AReleaseStep(c, v, th);
    case AReturn(_, _) => v' := LendSteps(c, v, th);
    case GWait(_, _) => GlobalWaitSteps(c, v, th);
    case GLook(_, _) => if c.global.None? { GLookEmptyStep(c, v, th); } else { v' := GLookStep(c, v, th); }
    case GLeave(_) => GlobalLeaveSteps(c, v, th);
    case GRelease(_, _) => GReleaseStep(c, v, th);
    case AInit(_, _) => v' := LendSteps(c, v, th);
    case EWait(_, _) => BulkWaitSteps(c, v, th);
    case EPush(_, rest) => if rest == [] { EPushDoneStep(c, v, th); } else { v' := PushSteps(c, v, th); }
    case FWait(_, _) => FWaitStep(c, v, th);
    case FLook(n, _) =>
      if c.counts[n] >= MAX_CACHED { FLookFullStep(c, v, th); } else { v' := FLookStep(c, v, th); }
    case FCount(_) => FCountStep(c, v, th);
    case FRelease(_, _) => FReleaseStep(c, v, th);
    case FGWait(_) => GlobalWaitSteps(c, v, th);
    case FGPush(_) => v' := PushSteps(c, v, th);
    case FGRelease => GlobalLeaveSteps(c, v, th);
    case PWait(_) => PWaitStep(c, v, th);
    case PTake(_) => v' := PTakeStep(c, v, th);
    case PCount(_, _) => PCountStep(c, v, th);
    case PRelease(_, _) => PReleaseStep(c, v, th);
    case PNext(_, _) => PNextStep(c, v, th);
    case PGWait(_, _, _) => BulkWaitSteps(c, v, th);
    case PGPush(_, _, _) => v' := PushSteps(c, v, th);
    case PGRelease(_, _) => GlobalLeaveSteps(c, v, th);
  }

  lemma StepKeeps(c: Vm, v: View, a: Action) returns (v': View)
    requires Rel(c, v) && Guard(c, a)
    ensures Rel(Apply(c, a), v')
  {
    v' := v;
    match a
    case CallFree(th, x) => v' := CallFreeStep(c, v, th, x);
    case Mapped(th, q) => v' := MappedStep(c, v, th, q);
    case Go(th) => v' := GoKeeps(c, v, th);
    case _ => CallSteps(c, v, a);
  }

  /** The state after a run, if each action was possible when it was taken. */
  ghost function Exec(c: Vm, acts: seq<Action>): Option<Vm>
    decreases |acts|
  {
    if acts == [] then Some(c)
    else if Guard(c, acts[0]) then Exec(Apply(c, acts[0]), acts[1..])
    else None
  }

  ghost predicate Reachable(c: Vm) {
    exists acts :: Exec(Start(), acts) == Some(c)
  }

  lemma {:induction false} RunKeeps(c: Vm, v: View, acts: seq<Action>, c': Vm) returns (v': View)
    requires Rel(c, v) && Exec(c, acts) == Some(c')
    ensures Rel(c', v')
    decreases |acts|
  {
    v' := v;
    if acts != [] {
      v' := StepKeeps(c, v, acts[0]);
      v' := RunKeeps(Apply(c, acts[0]), v', acts[1..], c');
    }
  }

  lemma StartRel()
    ensures Rel(Start(), View(map[], map[]))
  {
    var c, v := Start(), View(map[], map[]);
    forall p | p != Client ensures Holds(v, p) && Shape(c, p, Q(v, p)) {}
  }

  /** In every interleaving of allocations, frees and purges the pointers spell a ledger of places. */
  lemma EveryRun(c: Vm) returns (v: View)
    requires Reachable(c)
    ensures Rel(c, v)
  {
    var acts :| Exec(Start(), acts) == Some(c);
    StartRel();
    v := RunKeeps(Start(), View(map[], map[]), acts, c);
  }

  lemma {:induction false} ExecAppend(c: Vm, acts: seq<Action>, c': Vm, a: Action)
    requires Exec(c, acts) == Some(c') && Guard(c', a)
    ensures Exec(c, acts + [a]) == Some(Apply(c', a))
    decreases |acts|
  {
    var all := acts + [a];
    if acts == [] {
      assert all[1..] == [];
      assert Exec(Apply(c, a), all[1..]) == Some(Apply(c, a));
    } else {
      ExecAppend(Apply(c, acts[0]), acts[1..], c', a);
      assert all[0] == acts[0] && all[1..] == acts[1..] + [a];
    }
  }

  lemma ReachableStep(c: Vm, a: Action)
    requires Reachable(c) && Guard(c, a)
    ensures Reachable(Apply(c, a))
  {
    var acts :| Exec(Start(), acts) == Some(c);
    ExecAppend(Start(), acts, c, a);
  }

  // ---- What every run keeps -------------------------------------------------------------------------------

  ghost predicate OnStack(next: map<nat, Option<nat>>, h: Option<nat>, x: nat) {
    exists q :: Chain(next, h, q) && x in q
  }

  /** Where the pointers say chunk `x` is. */
  ghost predicate Sits(c: Vm, x: nat, p: Place) {
    match p
    case Client => x in c.clients
    case Pool(n) => n < |c.tops| && OnStack(c.next, c.tops[n], x)
    case Global => OnStack(c.next, c.global, x)
    case Hand(th) => exists q :: HandIs(c.next, PcOf(c, th), q) && x in q
  }

  lemma {:induction false} ChainUnique(next: map<nat, Option<nat>>, h: Option<nat>, q: seq<nat>, r: seq<nat>)
    requires Chain(next, h, q) && Chain(next, h, r)
    ensures q == r
    decreases |q|
  {
    if q != [] && r != [] {
      ChainUnique(next, NextOf(next, q[0]), q[1..], r[1..]);
      assert q == [q[0]] + q[1..] && r == [r[0]] + r[1..];
    }
  }

  lemma HandUnique(next: map<nat, Option<nat>>, pc: Pc, q: seq<nat>, r: seq<nat>)
    requires HandIs(next, pc, q) && HandIs(next, pc, r)
    ensures q == r
  {
    match pc
    case PCount(_, h) => ChainUnique(next, h, q, r);
    case PRelease(_, h) => ChainUnique(next, h, q, r);
    case PNext(_, h) => ChainUnique(next, h, q, r);
    case PGWait(_, x, after) => ChainUnique(next, after, q[1..], r[1..]); assert q == [x] + q[1..] && r == [x] + r[1..];
    case PGPush(_, x, after) => ChainUnique(next, after, q[1..], r[1..]); assert q == [x] + q[1..] && r == [x] + r[1..];
    case PGRelease(_, after) => ChainUnique(next, after, q, r);
    case _ =>
  }

  lemma SitsAsLedger(c: Vm, v: View, x: nat, p: Place)
    requires Rel(c, v)
    ensures Sits(c, x, p) <==> Is(v, x, p)
  {
    if p != Client {
      var r := Q(v, p);
      assert Holds(v, p) && Shape(c, p, r);
      match p
      case Pool(n) =>
        forall q | n < |c.tops| && Chain(c.next, c.tops[n], q) ensures q == r { ChainUnique(c.next, c.tops[n], q, r); }
      case Global =>
        forall q | Chain(c.next, c.global, q) ensures q == r { ChainUnique(c.next, c.global, q, r); }
      case Hand(th) =>
        forall q | HandIs(c.next, PcOf(c, th), q) ensures q == r { HandUnique(c.next, PcOf(c, th), q, r); }
    }
  }

  /** No chunk is lost and none is in two places: the mapped chunks are exactly those that sit somewhere. */
  lemma Conservation(c: Vm, x: nat)
    requires Reachable(c)
    ensures x in c.mapped <==> exists p :: Sits(c, x, p)
    ensures forall p, p' :: Sits(c, x, p) && Sits(c, x, p') ==> p == p'
  {
    var v := EveryRun(c);
    forall p ensures Sits(c, x, p) <==> Is(v, x, p) { SitsAsLedger(c, v, x, p); }
    if x in c.mapped {
      assert Is(v, x, v.where_[x]);
      assert Sits(c, x, v.where_[x]);
    }
  }

  /** A pool whose lock is free counts its stack exactly, within the bound, and holds only its own node's chunks. */
  lemma PoolExact(c: Vm, n: nat) returns (q: seq<nat>)
    requires Reachable(c) && n < NODES
    ensures Sized(c) && Chain(c.next, c.tops[n], q) && NoDup(q) && |q| <= MAX_CACHED
    ensures c.locks[n].None? ==> c.counts[n] == |q|
    ensures forall x :: x in q ==> x in c.mapped && x in c.magic && NodeOf(c, x) == n
  {
    var v := EveryRun(c);
    PoolAt(c, v, n);
    q := Q(v, Pool(n));
    forall x | x in q ensures x in c.mapped && x in c.magic && NodeOf(c, x) == n {
      assert Is(v, x, Pool(n)) && Carries(c, x, n);
    }
  }

  /** The chunk an allocation returns was in nobody's use, and carries the caller's node, the magic and no link. */
  lemma ReturnedChunk(c: Vm, th: nat)
    requires Reachable(c) && (PcOf(c, th).AReturn? || PcOf(c, th).AInit?)
    ensures CanGo(c, th) && PcOf(c, th).c !in c.clients && PcOf(c, th).c in c.mapped
    ensures var (c', x) := (GoStep(c, th), PcOf(c, th).c);
            c'.clients == c.clients + {x} && Carries(c', x, PcOf(c, th).n) && NextOf(c'.next, x).None?
  {
    var v := EveryRun(c);
    HandAt(c, v, th);
    assert PcOf(c, th).c in Q(v, Hand(th)) && Is(v, PcOf(c, th).c, Hand(th));
  }

  /** What clients hold always passes the magic test of the next free, and names an existing pool. */
  lemma FreeAccepts(c: Vm, x: nat)
    requires Reachable(c) && x in c.clients
    ensures Carries(c, x, NodeOf(c, x))
  {
    var v := EveryRun(c);
    assert Is(v, x, Client);
  }

  /** Clients hold mapped chunks only. */
  lemma ClientsMapped(c: Vm, x: nat)
    requires Reachable(c) && x in c.clients
    ensures x in c.mapped
  {
    var v := EveryRun(c);
    assert Is(v, x, Client);
  }

  /** Header fields are written only while a chunk is in no client's hands. */
  lemma HeadersUnowned(c: Vm, a: Action, x: nat)
    requires Reachable(c) && Guard(c, a) && x in c.clients
    ensures NextOf(Apply(c, a).next, x) == NextOf(c.next, x)
    ensures NodeOf(Apply(c, a), x) == NodeOf(c, x) && (x in Apply(c, a).magic <==> x in c.magic)
  {
    var v := EveryRun(c);
    assert Is(v, x, Client);
    if a.Go? {
      HandAt(c, v, a.th);
      HeaderInHand(c.next, PcOf(c, a.th), Q(v, Hand(a.th)));
      OtherHeaders(c, a.th, x);
    }
  }

  /** The chunk whose header the next step writes, if any. */
  function HeaderOf(pc: Pc): Option<nat> {
    match pc
    case AReturn(_, x) => Some(x)
    case AInit(_, x) => Some(x)
    case EPush(_, rest) => First(rest)
    case FLook(_, x) => Some(x)
    case FGPush(x) => Some(x)
    case PGPush(_, x, _) => Some(x)
    case _ => None
  }

  lemma HeaderInHand(next: map<nat, Option<nat>>, pc: Pc, q: seq<nat>)
    requires HandIs(next, pc, q)
    ensures HeaderOf(pc).Some? ==> HeaderOf(pc).value in q
  {}

  lemma OtherHeaders(c: Vm, th: nat, x: nat)
    requires CanGo(c, th) && HeaderOf(PcOf(c, th)) != Some(x)
    ensures NextOf(GoStep(c, th).next, x) == NextOf(c.next, x)
    ensures NodeOf(GoStep(c, th), x) == NodeOf(c, x) && (x in GoStep(c, th).magic <==> x in c.magic)
  {
    if HeaderOf(PcOf(c, th)).None? { NoHeader(c, th); } else { OneHeader(c, th); }
  }

  lemma NoHeader(c: Vm, th: nat)
    requires CanGo(c, th) && HeaderOf(PcOf(c, th)).None?
    ensures GoStep(c, th).next == c.next && GoStep(c, th).node == c.node && GoStep(c, th).magic == c.magic
  {
    if Waits(PcOf(c, th)) { NoHeaderWaiting(c, th); } else { NoHeaderInside(c, th); }
  }

  predicate Waits(pc: Pc) {
    pc.AWait? || pc.GWait? || pc.EWait? || pc.FWait? || pc.FGWait? || pc.PWait? || pc.PGWait?
  }

  lemma NoHeaderWaiting(c: Vm, th: nat)
    requires CanGo(c, th) && Waits(PcOf(c, th))
    ensures GoStep(c, th).next == c.next && GoStep(c, th).node == c.node && GoStep(c, th).magic == c.magic
  {}

  lemma NoHeaderInside(c: Vm, th: nat)
    requires CanGo(c, th) && HeaderOf(PcOf(c, th)).None? && !Waits(PcOf(c, th))
    ensures GoStep(c, th).next == c.next && GoStep(c, th).node == c.node && GoStep(c, th).magic == c.magic
  {}

  lemma OneHeader(c: Vm, th: nat)
    requires CanGo(c, th) && HeaderOf(PcOf(c, th)).Some?
    ensures var (c', y) := (GoStep(c, th), HeaderOf(PcOf(c, th)).value);
            forall x: nat :: x != y ==>
              NextOf(c'.next, x) == NextOf(c.next, x) && NodeOf(c', x) == NodeOf(c, x) && (x in c'.magic <==> x in c.magic)
  {}

  // ---- Locks ----------------------------------------------------------------------------------------------

  lemma MutualExclusion(c: Vm, th: nat, u: nat)
    requires Reachable(c) && th != u
    ensures !(GlobalHeld(PcOf(c, th)) && GlobalHeld(PcOf(c, u)))
    ensures PoolHeld(PcOf(c, th)).Some? ==> PoolHeld(PcOf(c, u)) != PoolHeld(PcOf(c, th))
  {
    var v := EveryRun(c);
  }

  /** A lock's holder never waits: it can take its next step. */
  lemma HolderCanGo(c: Vm, v: View, th: nat)
    requires Rel(c, v) && (PoolHeld(PcOf(c, th)).Some? || GlobalHeld(PcOf(c, th)))
    ensures CanGo(c, th)
  {
    HandAt(c, v, th);
  }

  /** No thread waits for a lock while it holds one. */
  lemma WaiterHoldsNothing(c: Vm, th: nat)
    requires Reachable(c) && (PoolWanted(PcOf(c, th)).Some? || GlobalWanted(PcOf(c, th)))
    ensures PoolHeld(PcOf(c, th)).None? && !GlobalHeld(PcOf(c, th))
    ensures c.glock != Some(th) && Sized(c) && forall n :: 0 <= n < NODES ==> c.locks[n] != Some(th)
  {
    var v := EveryRun(c);
  }

  /** The thread itself can move, or the one that holds the very lock it waits for can: no deadlock. */
  lemma NoDeadlock(c: Vm, th: nat) returns (u: nat)
    requires Reachable(c) && !PcOf(c, th).Idle? && !PcOf(c, th).EMap?
    ensures CanGo(c, u)
    ensures u != th ==>
              || (PoolWanted(PcOf(c, th)).Some? && PoolHeld(PcOf(c, u)) == PoolWanted(PcOf(c, th)))
              || (GlobalWanted(PcOf(c, th)) && GlobalHeld(PcOf(c, u)))
  {
    var v := EveryRun(c);
    HandAt(c, v, th);
    u := th;
    if !CanGo(c, th) {
      var w := PoolWanted(PcOf(c, th));
      u := if w.Some? then c.locks[w.value].value else c.glock.value;
      HolderCanGo(c, v, u);
    }
  }

  /** Steps left in the critical section. */
  function Left(pc: Pc): nat {
    match pc
    case APop(_) => 2
    case ACount(_, _) => 1
    case FLook(_, _) => 2
    case FCount(_) => 1
    case PTake(_) => 2
    case PCount(_, _) => 1
    case GLook(_, _) => 1
    case EPush(_, rest) => |rest|
    case FGPush(_) => 1
    case PGPush(_, _, _) => 1
    case _ => 0
  }

  /** Every critical section is finite: the holder's own steps release the lock after `Left` more of them. */
  lemma PoolSectionEnds(c: Vm, th: nat)
    requires CanGo(c, th) && PoolHeld(PcOf(c, th)).Some?
    ensures if Left(PcOf(c, th)) == 0 then GoStep(c, th).locks == c.locks[PoolHeld(PcOf(c, th)).value := None]
            else PoolHeld(PcOf(GoStep(c, th), th)) == PoolHeld(PcOf(c, th)) && Left(PcOf(GoStep(c, th), th)) < Left(PcOf(c, th))
  {}

  lemma GlobalSectionEnds(c: Vm, th: nat)
    requires CanGo(c, th) && GlobalHeld(PcOf(c, th))
    ensures if Left(PcOf(c, th)) == 0 then GoStep(c, th).glock.None?
            else GlobalHeld(PcOf(GoStep(c, th), th)) && Left(PcOf(GoStep(c, th), th)) < Left(PcOf(c, th))
  {}

  // ---- One call on its own ------------------------------------------------------------------------------

  function Gone(c: Vm, th: nat): Option<Vm> {
    if CanGo(c, th) then Some(GoStep(c, th)) else None
  }

  /** `k` steps of one thread while the others stand still. */
  function Alone(c: Vm, th: nat, k: nat): Option<Vm> {
    Iterate((x: Vm) => Gone(x, th), c, k)
  }

  /** The thread's own steps lead from `c` to `c'`. */
  ghost predicate Leads(c: Vm, th: nat, c': Vm) {
    exists k: nat :: Alone(c, th, k) == Some(c')
  }

  lemma LeadsHere(c: Vm, th: nat)
    ensures Leads(c, th, c)
  {
    assert Alone(c, th, 0) == Some(c);
  }

  lemma LeadsOn(c: Vm, th: nat, c1: Vm, c': Vm)
    requires CanGo(c, th) && GoStep(c, th) == c1 && Leads(c1, th, c')
    ensures Leads(c, th, c')
  {
    var k: nat :| Alone(c1, th, k) == Some(c');
    assert Alone(c, th, k + 1) == Some(c');
  }

  function Freed(c: Vm, th: nat, x: nat, n: nat): Vm
    requires n < |c.tops| && n < |c.counts|
  {
    At(c, th, Idle).(next := c.next[x := c.tops[n]], tops := c.tops[n := Some(x)],
                     counts := c.counts[n := c.counts[n] + 1])
  }

  function Spilled(c: Vm, th: nat, x: nat): Vm {
    At(c, th, Idle).(next := c.next[x := c.global], global := Some(x))
  }

  function Given(c: Vm, th: nat, x: nat, n: nat): Vm
    requires n < |c.tops| && n < |c.counts|
  {
    At(c, th, Idle).(next := c.next[x := None], tops := c.tops[n := NextOf(c.next, x)],
                     counts := c.counts[n := c.counts[n] - 1], clients := c.clients + {x})
  }

  lemma FreeCounts(c: Vm, th: nat, n: nat)
    requires Sized(c) && n < NODES && PcOf(c, th) == FCount(n)
    ensures Leads(c, th, At(c, th, Idle).(counts := c.counts[n := c.counts[n] + 1], locks := c.locks[n := None]))
  {
    var c1 := At(c, th, FRelease(n, None)).(counts := c.counts[n := c.counts[n] + 1]);
    var c2 := At(c, th, Idle).(counts := c1.counts, locks := c.locks[n := None]);
    LeadsHere(c2, th);
    LeadsOn(c1, th, c2, c2);
    LeadsOn(c, th, c1, c2);
  }

  lemma FreePushes(c: Vm, th: nat, x: nat, n: nat)
    requires Sized(c) && n < NODES && PcOf(c, th) == FLook(n, x) && c.counts[n] < MAX_CACHED
    ensures Leads(c, th, Freed(c, th, x, n).(locks := c.locks[n := None]))
  {
    var c1 := At(c, th, FCount(n)).(next := c.next[x := c.tops[n]], tops := c.tops[n := Some(x)]);
    FreeCounts(c1, th, n);
    assert At(c1, th, Idle).threads == At(c, th, Idle).threads;
    LeadsOn(c, th, c1, Freed(c, th, x, n).(locks := c.locks[n := None]));
  }

  /** A free that finds room puts the chunk on top of its own node's pool, and counts it. */
  lemma FreeToPool(c: Vm, th: nat, x: nat, n: nat)
    requires Sized(c) && n < NODES && PcOf(c, th) == FWait(n, x) && c.locks[n].None? && c.counts[n] < MAX_CACHED
    ensures Leads(c, th, Freed(c, th, x, n))
  {
    var c1 := At(c, th, FLook(n, x)).(locks := c.locks[n := Some(th)]);
    FreePushes(c1, th, x, n);
    assert At(c1, th, Idle).threads == At(c, th, Idle).threads && c1.locks[n := None] == c.locks;
    LeadsOn(c, th, c1, Freed(c, th, x, n));
  }

  lemma FreeGlobal(c: Vm, th: nat, x: nat)
    requires PcOf(c, th) == FGWait(x) && c.glock.None?
    ensures Leads(c, th, Spilled(c, th, x))
  {
    var c1 := At(c, th, FGPush(x)).(glock := Some(th));
    SpillPushes(c1, th, x);
    assert At(c1, th, Idle).threads == At(c, th, Idle).threads;
    LeadsOn(c, th, c1, Spilled(c, th, x));
  }

  lemma SpillPushes(c: Vm, th: nat, x: nat)
    requires PcOf(c, th) == FGPush(x)
    ensures Leads(c, th, Spilled(c, th, x).(glock := None))
  {
    var c2 := At(c, th, FGRelease).(next := c.next[x := c.global], global := Some(x));
    var c3 := Spilled(c, th, x).(glock := None);
    LeadsHere(c3, th);
    LeadsOn(c2, th, c3, c3);
    LeadsOn(c, th, c2, c3);
  }

  lemma FreeOverflows(c: Vm, th: nat, x: nat, n: nat)
    requires Sized(c) && n < NODES && PcOf(c, th) == FLook(n, x) && c.counts[n] >= MAX_CACHED && c.glock.None?
    ensures Leads(c, th, Spilled(c, th, x).(locks := c.locks[n := None]))
  {
    var c1 := At(c, th, FRelease(n, Some(x)));
    var c2 := At(c, th, FGWait(x)).(locks := c.locks[n := None]);
    var c3 := Spilled(c, th, x).(locks := c.locks[n := None]);
    FreeGlobal(c2, th, x);
    assert At(c2, th, Idle).threads == At(c, th, Idle).threads;
    LeadsOn(c1, th, c2, c3);
    LeadsOn(c, th, c1, c3);
  }

  /** A free that finds the pool at its bound puts the chunk on top of the global pool. */
  lemma FreeToGlobal(c: Vm, th: nat, x: nat, n: nat)
    requires Sized(c) && n < NODES && PcOf(c, th) == FWait(n, x) && c.locks[n].None? && c.glock.None?
    requires c.counts[n] >= MAX_CACHED
    ensures Leads(c, th, Spilled(c, th, x))
  {
    var c1 := At(c, th, FLook(n, x)).(locks := c.locks[n := Some(th)]);
    FreeOverflows(c1, th, x, n);
    assert At(c1, th, Idle).threads == At(c, th, Idle).threads && c1.locks[n := None] == c.locks;
    LeadsOn(c, th, c1, Spilled(c, th, x));
  }

  lemma AllocReturns(c: Vm, th: nat, x: nat, n: nat)
    requires Sized(c) && n < NODES && PcOf(c, th) == ARelease(n, Some(x))
    ensures Leads(c, th, At(c, th, Idle).(next := c.next[x := None], locks := c.locks[n := None],
                                          clients := c.clients + {x}))
  {
    var c1 := At(c, th, AReturn(n, x)).(locks := c.locks[n := None]);
    var c2 := At(c, th, Idle).(next := c.next[x := None], locks := c1.locks, clients := c.clients + {x});
    LeadsHere(c2, th);
    LeadsOn(c1, th, c2, c2);
    LeadsOn(c, th, c1, c2);
  }

  lemma AllocPops(c: Vm, th: nat, x: nat, n: nat)
    requires Sized(c) && n < NODES && PcOf(c, th) == APop(n) && c.tops[n] == Some(x)
    ensures Leads(c, th, Given(c, th, x, n).(locks := c.locks[n := None]))
  {
    var c1 := At(c, th, ACount(n, x)).(tops := c.tops[n := NextOf(c.next, x)]);
    var c2 := At(c, th, ARelease(n, Some(x))).(tops := c1.tops, counts := c.counts[n := c.counts[n] - 1]);
    var c3 := Given(c, th, x, n).(locks := c.locks[n := None]);
    AllocReturns(c2, th, x, n);
    assert At(c2, th, Idle).threads == At(c, th, Idle).threads;
    LeadsOn(c1, th, c2, c3);
    LeadsOn(c, th, c1, c3);
  }

  /** An allocation on a node whose pool holds a chunk takes the one on top. */
  lemma AllocFromPool(c: Vm, th: nat, x: nat, n: nat)
    requires Sized(c) && n < NODES && PcOf(c, th) == AWait(n) && c.locks[n].None? && c.tops[n] == Some(x)
    ensures Leads(c, th, Given(c, th, x, n))
  {
    var c1 := At(c, th, APop(n)).(locks := c.locks[n := Some(th)]);
    AllocPops(c1, th, x, n);
    assert At(c1, th, Idle).threads == At(c, th, Idle).threads && c1.locks[n := None] == c.locks;
    LeadsOn(c, th, c1, Given(c, th, x, n));
  }

  /** Freeing a chunk and allocating on its node, undisturbed and with room in the pool, gives the same chunk back
      and leaves pools, counts and clients as they were. */
  lemma FreeThenAlloc(c: Vm, th: nat, x: nat, n: nat) returns (c1: Vm, c2: Vm)
    requires Reachable(c) && PcOf(c, th).Idle? && x in c.clients && n == NodeOf(c, x)
    requires Sized(c) && n < NODES && c.locks[n].None? && c.counts[n] < MAX_CACHED
    ensures Leads(Apply(c, CallFree(th, x)), th, c1)
    ensures Guard(c1, CallAlloc(th, n)) && x !in c1.clients && Sized(c1) && c1.tops[n] == Some(x)
    ensures Leads(Apply(c1, CallAlloc(th, n)), th, c2)
    ensures c2.tops == c.tops && c2.counts == c.counts && c2.clients == c.clients && c2.global == c.global
  {
    FreeAccepts(c, x);
    c1 := FreeCall(c, th, x, n);
    c2 := AllocCall(c1, th, x, n);
    assert c2.tops == c.tops[n := Some(x)][n := c.tops[n]];
    assert c2.counts == c.counts[n := c.counts[n] + 1][n := c.counts[n]];
    assert c2.clients == c.clients - {x} + {x};
  }

  lemma FreeCall(c: Vm, th: nat, x: nat, n: nat) returns (c1: Vm)
    requires PcOf(c, th).Idle? && x in c.clients && x in c.magic && n == NodeOf(c, x)
    requires Sized(c) && n < NODES && c.locks[n].None? && c.counts[n] < MAX_CACHED
    ensures Leads(Apply(c, CallFree(th, x)), th, c1) && PcOf(c1, th).Idle? && Sized(c1) && c1.locks == c.locks
    ensures c1.tops == c.tops[n := Some(x)] && NextOf(c1.next, x) == c.tops[n] && c1.global == c.global
    ensures c1.counts == c.counts[n := c.counts[n] + 1] && c1.clients == c.clients - {x}
  {
    var d := Apply(c, CallFree(th, x));
    FreeToPool(d, th, x, n);
    c1 := Freed(d, th, x, n);
  }

  lemma AllocCall(c: Vm, th: nat, x: nat, n: nat) returns (c2: Vm)
    requires PcOf(c, th).Idle? && Sized(c) && n < NODES && c.locks[n].None? && c.tops[n] == Some(x)
    ensures Leads(Apply(c, CallAlloc(th, n)), th, c2)
    ensures c2.tops == c.tops[n := NextOf(c.next, x)] && c2.counts == c.counts[n := c.counts[n] - 1]
    ensures c2.clients == c.clients + {x} && c2.global == c.global
  {
    var e := Apply(c, CallAlloc(th, n));
    AllocFromPool(e, th, x, n);
    c2 := Given(e, th, x, n);
  }
}
