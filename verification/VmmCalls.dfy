/** Whole calls of the chunk cache: what an allocation does when its node's pool is empty, when it may answer NULL, and
    what a purge leaves behind (src/engines/vmm.c:122-166, 213-244). */
module VmmCalls {
  import opened Common
  import opened Vmm
  import opened VmmPlaces
  import opened VmmRuns

  // ---- Undisturbed steps one after the other -----------------------------------------------

  lemma LeadsFurther(c: Vm, th: nat, c1: Vm, c': Vm)
    requires Leads(c, th, c1) && Leads(c1, th, c')
    ensures Leads(c, th, c')
  {
    var j: nat :| Alone(c, th, j) == Some(c1);
    var k: nat :| Alone(c1, th, k) == Some(c');
    IterateMore((x: Vm) => Gone(x, th), c, j, c1, k);
    assert Alone(c, th, j + k) == Some(c');
  }

  lemma LeadsOne(c: Vm, th: nat, c': Vm)
    requires CanGo(c, th) && GoStep(c, th) == c'
    ensures Leads(c, th, c')
  {
    LeadsHere(c', th);
    LeadsOn(c, th, c', c');
  }

  lemma AtAgain(c: Vm, th: nat, pc: Pc, pc': Pc)
    ensures At(At(c, th, pc), th, pc') == At(c, th, pc')
  {
    assert c.threads[th := pc][th := pc'] == c.threads[th := pc'];
  }

  // ---- Pushing chunks on the global stack -----------------------------------------------------

  /** The chunks pushed one after the other. */
  function PushAll(c: Vm, q: seq<nat>): Vm
    decreases |q|
  {
    if q == [] then c else PushAll(PushGlobal(c, q[0]), q[1..])
  }

  function Reversed(q: seq<nat>): (r: seq<nat>)
    ensures |r| == |q| && forall x :: x in r <==> x in q
    decreases |q|
  {
    if q == [] then []
    else
      assert q == [q[0]] + q[1..];
      Reversed(q[1..]) + [q[0]]
  }

  /** Nothing but the global stack and the links of the chunks changes. */
  lemma {:induction false} PushAllKeeps(c: Vm, q: seq<nat>)
    ensures var c' := PushAll(c, q);
            && c' == c.(next := c'.next, global := c'.global)
            && forall x :: x !in q ==> NextOf(c'.next, x) == NextOf(c.next, x)
    decreases |q|
  {
    if q != [] {
      PushAllKeeps(PushGlobal(c, q[0]), q[1..]);
      assert q == [q[0]] + q[1..];
    }
  }

  /** The last one pushed is on top. */
  lemma {:induction false} PushAllChain(c: Vm, q: seq<nat>, g: seq<nat>)
    requires Chain(c.next, c.global, g) && NoDup(q) && forall x :: x in q ==> x !in g
    ensures Chain(PushAll(c, q).next, PushAll(c, q).global, Reversed(q) + g)
    decreases |q|
  {
    if q == [] {
      assert Reversed(q) + g == g;
    } else {
      var c1 := PushGlobal(c, q[0]);
      assert q == [q[0]] + q[1..] && q[0] in q;
      ChainFrame(c.next, c1.next, c.global, g);
      assert ([q[0]] + g)[1..] == g;
      assert Chain(c1.next, c1.global, [q[0]] + g);
      TailMembers(q);
      PushAllChain(c1, q[1..], [q[0]] + g);
      assert Reversed(q) + g == Reversed(q[1..]) + ([q[0]] + g);
    }
  }

  // ---- Allocating past an empty pool --------------------------------------------------------------

  /** The pool was found empty: the lock is free again and the thread turns to the global pool. */
  lemma PoolEmpty(c: Vm, th: nat, n: nat)
    requires Sized(c) && n < NODES && PcOf(c, th) == AWait(n) && c.locks[n].None? && c.tops[n].None?
    ensures Leads(c, th, At(c, th, GWait(n, false)))
  {
    var c1 := At(c, th, APop(n)).(locks := c.locks[n := Some(th)]);
    var c2 := At(c, th, ARelease(n, None)).(locks := c1.locks);
    var c3 := At(c, th, GWait(n, false));
    AtAgain(c, th, APop(n), ARelease(n, None));
    AtAgain(c, th, ARelease(n, None), GWait(n, false));
    assert c1.locks[n := None] == c.locks;
    LeadsOne(c2, th, c3);
    LeadsOn(c1, th, c2, c3);
    LeadsOn(c, th, c1, c3);
  }

  /** The chunk on top of the global pool is at the client, with node, magic and no link. */
  function Drawn(c: Vm, th: nat, x: nat, n: nat): Vm {
    At(c, th, Idle).(next := c.next[x := None], node := c.node[x := n], magic := c.magic + {x},
                     clients := c.clients + {x}, global := NextOf(c.next, x))
  }

  lemma GlobalGives(c: Vm, th: nat, x: nat, n: nat, again: bool)
    requires PcOf(c, th) == GWait(n, again) && c.glock.None? && c.global == Some(x)
    ensures Leads(c, th, Drawn(c, th, x, n))
  {
    var c1 := At(c, th, GLook(n, again)).(glock := Some(th));
    var c2 := At(c, th, GRelease(n, Some(x))).(glock := Some(th), global := NextOf(c.next, x));
    var c3 := At(c, th, AInit(n, x)).(global := NextOf(c.next, x));
    AtAgain(c, th, GLook(n, again), GRelease(n, Some(x)));
    AtAgain(c, th, GRelease(n, Some(x)), AInit(n, x));
    AtAgain(c, th, AInit(n, x), Idle);
    LeadsOne(c3, th, Drawn(c, th, x, n));
    LeadsOn(c2, th, c3, Drawn(c, th, x, n));
    LeadsOn(c1, th, c2, Drawn(c, th, x, n));
    LeadsOn(c, th, c1, Drawn(c, th, x, n));
  }

  /** An allocation that finds its node's pool empty takes the chunk on top of the global pool. */
  lemma AllocFromGlobal(c: Vm, th: nat, x: nat, n: nat)
    requires Sized(c) && Guard(c, CallAlloc(th, n)) && c.locks[n].None? && c.tops[n].None?
    requires c.glock.None? && c.global == Some(x)
    ensures Leads(Apply(c, CallAlloc(th, n)), th, Drawn(c, th, x, n))
  {
    var c0 := Apply(c, CallAlloc(th, n));
    var c1 := At(c, th, GWait(n, false));
    PoolEmpty(c0, th, n);
    AtAgain(c, th, AWait(n), GWait(n, false));
    GlobalGives(c1, th, x, n, false);
    AtAgain(c, th, GWait(n, false), Idle);
    LeadsFurther(c0, th, c1, Drawn(c, th, x, n));
  }

  /** With both pools empty it asks the system for an extent, and holds no lock then. */
  lemma AllocAsks(c: Vm, th: nat, n: nat)
    requires Sized(c) && Guard(c, CallAlloc(th, n)) && c.locks[n].None? && c.tops[n].None?
    requires c.glock.None? && c.global.None?
    ensures Leads(Apply(c, CallAlloc(th, n)), th, At(c, th, EMap(n)))
  {
    var c0 := Apply(c, CallAlloc(th, n));
    PoolEmpty(c0, th, n);
    AtAgain(c, th, AWait(n), GWait(n, false));
    GlobalEmpty(c, th, n);
    LeadsFurther(c0, th, At(c, th, GWait(n, false)), At(c, th, EMap(n)));
  }

  lemma GlobalEmpty(c: Vm, th: nat, n: nat)
    requires c.glock.None? && c.global.None?
    ensures Leads(At(c, th, GWait(n, false)), th, At(c, th, EMap(n)))
  {
    var c0 := At(c, th, GWait(n, false));
    var c1 := At(c, th, GLook(n, false)).(glock := Some(th));
    var c2 := At(c, th, GLeave(n)).(glock := Some(th));
    var c3 := At(c, th, EMap(n));
    AtAgain(c, th, GWait(n, false), GLook(n, false));
    AtAgain(c, th, GLook(n, false), GLeave(n));
    AtAgain(c, th, GLeave(n), EMap(n));
    LeadsOne(c2, th, c3);
    LeadsOn(c1, th, c2, c3);
    LeadsOn(c0, th, c1, c3);
  }

  lemma {:induction false} ExtentPushed(c: Vm, th: nat, n: nat, rest: seq<nat>)
    requires PcOf(c, th) == EPush(n, rest)
    ensures Leads(c, th, At(PushAll(c, rest), th, EPush(n, [])))
    decreases |rest|
  {
    if rest == [] {
      assert At(c, th, EPush(n, [])).threads == c.threads by { assert th in c.threads; }
      LeadsHere(c, th);
    } else {
      var c1 := At(PushGlobal(c, rest[0]), th, EPush(n, rest[1..]));
      ExtentPushed(c1, th, n, rest[1..]);
      PushAllAt(PushGlobal(c, rest[0]), th, EPush(n, rest[1..]), rest[1..]);
      AtAgain(PushAll(c, rest), th, EPush(n, rest[1..]), EPush(n, []));
      LeadsOn(c, th, c1, At(PushAll(c, rest), th, EPush(n, [])));
    }
  }

  /** Control points and pushes do not mind each other. */
  lemma {:induction false} PushAllAt(c: Vm, th: nat, pc: Pc, q: seq<nat>)
    ensures PushAll(At(c, th, pc), q) == At(PushAll(c, q), th, pc)
    decreases |q|
  {
    if q != [] { PushAllAt(PushGlobal(c, q[0]), th, pc, q[1..]); }
  }

  lemma {:induction false} PushAllLocked(c: Vm, lock: Option<nat>, q: seq<nat>)
    ensures PushAll(c.(glock := lock), q) == PushAll(c, q).(glock := lock)
    decreases |q|
  {
    if q != [] { PushAllLocked(PushGlobal(c, q[0]), lock, q[1..]); }
  }

  /** From the answer of the system to the second look at the global pool. */
  lemma ExtentStacked(c: Vm, th: nat, n: nat, q: seq<nat>)
    requires PcOf(c, th) == EWait(n, q) && c.glock.None?
    ensures Leads(c, th, At(PushAll(c, q), th, GWait(n, true)))
  {
    var c1 := At(c, th, EPush(n, q)).(glock := Some(th));
    var c2 := At(PushAll(c1, q), th, EPush(n, []));
    var c3 := At(PushAll(c, q), th, GWait(n, true));
    ExtentPushed(c1, th, n, q);
    PushAllKeeps(c, q);
    PushAllLocked(At(c, th, EPush(n, q)), Some(th), q);
    PushAllAt(c, th, EPush(n, q), q);
    AtAgain(PushAll(c, q), th, EPush(n, q), EPush(n, []));
    AtAgain(PushAll(c, q), th, EPush(n, []), GWait(n, true));
    LeadsOne(c2, th, c3);
    LeadsFurther(c1, th, c2, c3);
    LeadsOn(c, th, c1, c3);
  }

  /** The last chunk of the extent is at the client, with node, magic and no link, and the other 31 are the global
      pool, the later ones on top; pools and counts are as they were. */
  ghost predicate Provisioned(c: Vm, th: nat, n: nat, q: seq<nat>, c': Vm) {
    && |q| == EXTENT_CHUNKS && PcOf(c', th).Idle?
    && c'.clients == c.clients + {q[|q| - 1]} && Carries(c', q[|q| - 1], n) && NextOf(c'.next, q[|q| - 1]).None?
    && Chain(c'.next, c'.global, Reversed(q[..|q| - 1]))
    && c'.mapped == c.mapped + (set x | x in q)
    && c'.tops == c.tops && c'.counts == c.counts && c'.locks == c.locks && c'.glock == c.glock
  }

  /** With both pools empty, the system's extent provides the chunk and fills the global pool. */
  lemma AllocProvisions(c: Vm, th: nat, n: nat, q: seq<nat>) returns (c': Vm)
    requires PcOf(c, th) == EMap(n) && n < NODES && c.glock.None? && c.global.None? && FreshExtent(c, q)
    ensures Guard(c, Mapped(th, q)) && Leads(Apply(c, Mapped(th, q)), th, c') && Provisioned(c, th, n, q, c')
  {
    var c1 := Apply(c, Mapped(th, q));
    var c2 := At(PushAll(c1, q), th, GWait(n, true));
    var x := q[|q| - 1];
    ExtentStacked(c1, th, n, q);
    PushAllKeeps(c1, q);
    PushAllChain(c1, q, []);
    ReversedLast(q);
    assert Reversed(q) + [] == Reversed(q);
    GlobalGives(c2, th, x, n, true);
    c' := Drawn(c2, th, x, n);
    LeadsFurther(c1, th, c2, c');
    DrawnChain(c2, th, n, Reversed(q[..|q| - 1]), x);
    assert c'.mapped == c.mapped + (set y | y in q);
  }

  lemma {:induction false} ReversedLast(q: seq<nat>)
    requires q != []
    ensures Reversed(q) == [q[|q| - 1]] + Reversed(q[..|q| - 1])
    ensures Reversed(q)[1..] == Reversed(q[..|q| - 1])
    decreases |q|
  {
    if |q| > 1 {
      ReversedLast(q[1..]);
      assert q[1..][..|q| - 2] == q[..|q| - 1][1..];
    }
  }

  lemma DrawnChain(c: Vm, th: nat, n: nat, g: seq<nat>, x: nat)
    requires Chain(c.next, c.global, [x] + g) && x !in g
    ensures Chain(Drawn(c, th, x, n).next, Drawn(c, th, x, n).global, g)
  {
    assert ([x] + g)[1..] == g;
    ChainFrame(c.next, Drawn(c, th, x, n).next, NextOf(c.next, x), g);
  }

  /** If the system refuses and the global pool is still empty, the call ends with nothing changed. */
  lemma AllocRefused(c: Vm, th: nat, n: nat)
    requires PcOf(c, th) == EMap(n) && c.glock.None? && c.global.None?
    ensures Guard(c, MapFails(th)) && Leads(Apply(c, MapFails(th)), th, At(c, th, Idle))
  {
    var c0 := Apply(c, MapFails(th));
    var c1 := At(c, th, GLook(n, true)).(glock := Some(th));
    var c2 := At(c, th, GRelease(n, None)).(glock := Some(th));
    var c3 := At(c, th, Idle);
    AtAgain(c, th, GWait(n, true), GLook(n, true));
    AtAgain(c, th, GLook(n, true), GRelease(n, None));
    AtAgain(c, th, GRelease(n, None), Idle);
    LeadsOne(c2, th, c3);
    LeadsOn(c1, th, c2, c3);
    LeadsOn(c0, th, c1, c3);
  }

  /** If others filled the global pool meanwhile, the call still takes its top. */
  lemma AllocAfterRefusal(c: Vm, th: nat, x: nat, n: nat)
    requires PcOf(c, th) == EMap(n) && c.glock.None? && c.global == Some(x)
    ensures Guard(c, MapFails(th)) && Leads(Apply(c, MapFails(th)), th, Drawn(c, th, x, n))
  {
    GlobalGives(Apply(c, MapFails(th)), th, x, n, true);
    AtAgain(c, th, GWait(n, true), Idle);
  }

  // ---- NULL only after the system was asked -----------------------------------------------------------

  /** The system answered the thread since its latest allocation call; `was` says so of what came before. */
  function Answered(acts: seq<Action>, th: nat, was: bool): bool
    decreases |acts|
  {
    if acts == [] then was else Answered(acts[1..], th, AnsweredBy(acts[0], th, was))
  }

  function AnsweredBy(a: Action, th: nat, was: bool): bool {
    match a
    case CallAlloc(u, _) => if u == th then false else was
    case Mapped(u, _) => u == th || was
    case MapFails(u) => u == th || was
    case _ => was
  }

  /** Control points behind the system's answer. */
  predicate Behind(pc: Pc) {
    match pc
    case GWait(_, again) => again
    case GLook(_, again) => again
    case GRelease(_, got) => got.None?
    case EWait(_, _) => true
    case EPush(_, _) => true
    case _ => false
  }

  predicate Allocating(pc: Pc) {
    || pc.AWait? || pc.APop? || pc.ACount? || pc.ARelease? || pc.AReturn?
    || pc.GWait? || pc.GLook? || pc.GLeave? || pc.GRelease? || pc.AInit? || pc.EMap? || pc.EWait? || pc.EPush?
  }

  lemma GoBehind(c: Vm, th: nat)
    requires CanGo(c, th)
    ensures Behind(PcOf(GoStep(c, th), th)) ==> Behind(PcOf(c, th))
  {}

  lemma StepBehind(c: Vm, a: Action, th: nat, was: bool)
    requires Guard(c, a) && (Behind(PcOf(c, th)) ==> was)
    ensures Behind(PcOf(Apply(c, a), th)) ==> AnsweredBy(a, th, was)
  {
    if a.Go? {
      if a.th == th { GoBehind(c, th); } else { GoesAlone(c, a.th, th); }
    }
  }

  lemma GoesAlone(c: Vm, u: nat, th: nat)
    requires CanGo(c, u) && u != th
    ensures PcOf(GoStep(c, u), th) == PcOf(c, th)
  {
    if Waits(PcOf(c, u)) { WaiterAlone(c, u, th); }
    else if Allocating(PcOf(c, u)) { AllocatorAlone(c, u, th); }
    else { FreerAlone(c, u, th); }
  }

  lemma WaiterAlone(c: Vm, u: nat, th: nat)
    requires CanGo(c, u) && u != th && Waits(PcOf(c, u))
    ensures PcOf(GoStep(c, u), th) == PcOf(c, th)
  {}

  lemma AllocatorAlone(c: Vm, u: nat, th: nat)
    requires CanGo(c, u) && u != th && !Waits(PcOf(c, u)) && Allocating(PcOf(c, u))
    ensures PcOf(GoStep(c, u), th) == PcOf(c, th)
  {}

  lemma FreerAlone(c: Vm, u: nat, th: nat)
    requires CanGo(c, u) && u != th && !Waits(PcOf(c, u)) && !Allocating(PcOf(c, u))
    ensures PcOf(GoStep(c, u), th) == PcOf(c, th)
  {}

  lemma {:induction false} RunBehind(c: Vm, acts: seq<Action>, c': Vm, th: nat, was: bool)
    requires Exec(c, acts) == Some(c') && (Behind(PcOf(c, th)) ==> was)
    ensures Behind(PcOf(c', th)) ==> Answered(acts, th, was)
    decreases |acts|
  {
    if acts != [] {
      StepBehind(c, acts[0], th, was);
      RunBehind(Apply(c, acts[0]), acts[1..], c', th, AnsweredBy(acts[0], th, was));
    }
  }

  /** In every run an allocation ends with a chunk for the client, or with NULL and then only after the system gave or
      refused an extent during that same call. */
  lemma NullOnlyAfterAsking(acts: seq<Action>, c: Vm, th: nat)
    requires Exec(Start(), acts) == Some(c) && CanGo(c, th) && Allocating(PcOf(c, th)) && PcOf(GoStep(c, th), th).Idle?
    ensures GoStep(c, th).clients == c.clients ==> Answered(acts, th, false)
    ensures GoStep(c, th).clients != c.clients ==>
              (PcOf(c, th).AReturn? || PcOf(c, th).AInit?) && GoStep(c, th).clients == c.clients + {PcOf(c, th).c}
  {
    RunBehind(Start(), acts, c, th, false);
    AllocEnds(c, th);
    if PcOf(c, th).AReturn? || PcOf(c, th).AInit? { ReturnedChunk(c, th); }
  }

  lemma AllocEnds(c: Vm, th: nat)
    requires CanGo(c, th) && Allocating(PcOf(c, th)) && PcOf(GoStep(c, th), th).Idle?
    ensures PcOf(c, th).AReturn? || PcOf(c, th).AInit? || (Behind(PcOf(c, th)) && GoStep(c, th).clients == c.clients)
    ensures PcOf(c, th).AReturn? || PcOf(c, th).AInit? ==> GoStep(c, th).clients == c.clients + {PcOf(c, th).c}
  {}

  // ---- A whole purge --------------------------------------------------------------------------------------

  /** What is left of one node's drained stack goes to the global pool, chunk by chunk. */
  lemma {:induction false} PurgeRoutes(c: Vm, th: nat, n: nat, h: Option<nat>, q: seq<nat>)
    requires PcOf(c, th) == PNext(n, h) && c.glock.None? && Chain(c.next, h, q) && NoDup(q)
    ensures Leads(c, th, At(PushAll(c, q), th, PNext(n, None)))
    decreases |q|
  {
    if q == [] {
      assert At(c, th, PNext(n, None)).threads == c.threads by { assert th in c.threads; }
      LeadsHere(c, th);
    } else {
      var after := NextOf(c.next, q[0]);
      var c1 := At(PushGlobal(c, q[0]), th, PNext(n, after));
      PurgeOne(c, th, n, q[0]);
      TailMembers(q);
      ChainFrame(c.next, c1.next, after, q[1..]);
      PurgeRoutes(c1, th, n, after, q[1..]);
      PushAllAt(PushGlobal(c, q[0]), th, PNext(n, after), q[1..]);
      AtAgain(PushAll(c, q), th, PNext(n, after), PNext(n, None));
      LeadsFurther(c, th, c1, At(PushAll(c, q), th, PNext(n, None)));
    }
  }

  lemma PurgeOne(c: Vm, th: nat, n: nat, x: nat)
    requires PcOf(c, th) == PNext(n, Some(x)) && c.glock.None?
    ensures Leads(c, th, At(PushGlobal(c, x), th, PNext(n, NextOf(c.next, x))))
  {
    var after := NextOf(c.next, x);
    var c1 := At(c, th, PGWait(n, x, after));
    PurgePush(c1, th, n, x, after);
    AtAgain(PushGlobal(c, x), th, PGWait(n, x, after), PNext(n, after));
    LeadsOn(c, th, c1, At(PushGlobal(c, x), th, PNext(n, after)));
  }

  lemma PurgePush(c: Vm, th: nat, n: nat, x: nat, after: Option<nat>)
    requires PcOf(c, th) == PGWait(n, x, after) && c.glock.None?
    ensures Leads(c, th, At(PushGlobal(c, x), th, PNext(n, after)))
  {
    var c2 := At(c, th, PGPush(n, x, after)).(glock := Some(th));
    PurgePushes(c2, th, n, x, after);
    AtAgain(PushGlobal(c, x), th, PGPush(n, x, after), PNext(n, after));
    LeadsOn(c, th, c2, At(PushGlobal(c, x), th, PNext(n, after)));
  }

  lemma PurgePushes(c: Vm, th: nat, n: nat, x: nat, after: Option<nat>)
    requires PcOf(c, th) == PGPush(n, x, after)
    ensures Leads(c, th, At(PushGlobal(c, x), th, PNext(n, after)).(glock := None))
  {
    var c3 := At(PushGlobal(c, x), th, PGRelease(n, after));
    var c4 := At(PushGlobal(c, x), th, PNext(n, after)).(glock := None);
    AtAgain(PushGlobal(c, x), th, PGRelease(n, after), PNext(n, after));
    LeadsOne(c3, th, c4);
    LeadsOn(c, th, c3, c4);
  }

  /** The pool of node `n` is empty and counted so. */
  function Emptied(c: Vm, n: nat): Vm
    requires n < |c.tops| && n < |c.counts|
  {
    c.(tops := c.tops[n := None], counts := c.counts[n := 0])
  }

  lemma PurgeDrains(c: Vm, th: nat, n: nat)
    requires Sized(c) && n < NODES && PcOf(c, th) == PWait(n) && c.locks[n].None?
    ensures Leads(c, th, At(Emptied(c, n), th, PNext(n, c.tops[n])))
  {
    var h := c.tops[n];
    var c1 := At(c, th, PTake(n)).(locks := c.locks[n := Some(th)]);
    PurgeTakes(c1, th, n);
    AtAgain(Emptied(c, n), th, PTake(n), PNext(n, h));
    assert c1.locks[n := None] == c.locks;
    LeadsOn(c, th, c1, At(Emptied(c, n), th, PNext(n, h)));
  }

  lemma PurgeTakes(c: Vm, th: nat, n: nat)
    requires Sized(c) && n < NODES && PcOf(c, th) == PTake(n)
    ensures Leads(c, th, At(Emptied(c, n), th, PNext(n, c.tops[n])).(locks := c.locks[n := None]))
  {
    var h := c.tops[n];
    var c2 := At(c, th, PCount(n, h)).(tops := c.tops[n := None]);
    PurgeCounts(c2, th, n, h);
    AtAgain(Emptied(c, n), th, PCount(n, h), PNext(n, h));
    LeadsOn(c, th, c2, At(Emptied(c, n), th, PNext(n, h)).(locks := c.locks[n := None]));
  }

  lemma PurgeCounts(c: Vm, th: nat, n: nat, h: Option<nat>)
    requires Sized(c) && n < NODES && PcOf(c, th) == PCount(n, h)
    ensures Leads(c, th, At(c, th, PNext(n, h)).(counts := c.counts[n := 0], locks := c.locks[n := None]))
  {
    var c3 := At(c, th, PRelease(n, h)).(counts := c.counts[n := 0]);
    var c4 := At(c, th, PNext(n, h)).(counts := c.counts[n := 0], locks := c.locks[n := None]);
    AtAgain(c, th, PRelease(n, h), PNext(n, h));
    LeadsOne(c3, th, c4);
    LeadsOn(c, th, c3, c4);
  }

  /** One node's turn. */
  lemma PurgeTurn(c: Vm, th: nat, n: nat, q: seq<nat>)
    requires Sized(c) && n < NODES && PcOf(c, th) == PWait(n) && c.locks[n].None? && c.glock.None?
    requires Chain(c.next, c.tops[n], q) && NoDup(q)
    ensures Leads(c, th, At(PushAll(Emptied(c, n), q), th, if n + 1 < NODES then PWait(n + 1) else Idle))
  {
    var h := c.tops[n];
    var c1 := At(Emptied(c, n), th, PNext(n, h));
    var c2 := At(PushAll(c1, q), th, PNext(n, None));
    var pc := if n + 1 < NODES then PWait(n + 1) else Idle;
    var c3 := At(PushAll(Emptied(c, n), q), th, pc);
    PurgeDrains(c, th, n);
    PurgeRoutes(c1, th, n, h, q);
    PushAllAt(Emptied(c, n), th, PNext(n, h), q);
    AtAgain(PushAll(Emptied(c, n), q), th, PNext(n, h), PNext(n, None));
    AtAgain(PushAll(Emptied(c, n), q), th, PNext(n, None), pc);
    PurgeMoves(c2, th, n);
    LeadsFurther(c1, th, c2, c3);
    LeadsFurther(c, th, c1, c3);
  }

  lemma PurgeMoves(c: Vm, th: nat, n: nat)
    requires PcOf(c, th) == PNext(n, None)
    ensures Leads(c, th, At(c, th, if n + 1 < NODES then PWait(n + 1) else Idle))
  {
    LeadsOne(c, th, At(c, th, if n + 1 < NODES then PWait(n + 1) else Idle));
  }

  /** The stacks from node `n` on, all different, and the global one. */
  ghost predicate Stacks(c: Vm, n: nat, pools: seq<seq<nat>>, g: seq<nat>) {
    && Sized(c) && |pools| == NODES && Chain(c.next, c.global, g) && NoDup(g)
    && (forall k :: n <= k < NODES ==> StackAt(c, k, pools[k], g))
    && (forall j, k, x :: n <= j < k < NODES && x in pools[j] ==> x !in pools[k])
  }

  ghost predicate StackAt(c: Vm, k: nat, q: seq<nat>, g: seq<nat>)
    requires k < |c.tops|
  {
    Chain(c.next, c.tops[k], q) && NoDup(q) && forall x :: x in q ==> x !in g
  }

  ghost predicate Unlocked(c: Vm) {
    Sized(c) && c.glock.None? && forall k :: 0 <= k < NODES ==> c.locks[k].None?
  }

  /** The chunk is in one of the pools from `n` on. */
  ghost predicate Cached(pools: seq<seq<nat>>, n: nat, x: nat) {
    exists k :: n <= k < |pools| && x in pools[k]
  }

  lemma TurnStacks(c: Vm, c': Vm, n: nat, pools: seq<seq<nat>>, g: seq<nat>) returns (g': seq<nat>)
    requires n < NODES && Stacks(c, n, pools, g) && c'.tops == c.tops[n := None] && c'.counts == c.counts[n := 0]
    requires c'.locks == c.locks && PushAll(Emptied(c, n), pools[n]).next == c'.next
    requires PushAll(Emptied(c, n), pools[n]).global == c'.global
    ensures Stacks(c', n + 1, pools, g') && forall x :: x in g' <==> x in g || x in pools[n]
  {
    var q := pools[n];
    assert StackAt(c, n, q, g);
    PushAllKeeps(Emptied(c, n), q);
    PushAllChain(Emptied(c, n), q, g);
    g' := Reversed(q) + g;
    ReversedNoDup(q);
    JoinNoDup(Reversed(q), g);
    forall k | n + 1 <= k < NODES ensures StackAt(c', k, pools[k], g') {
      assert StackAt(c, k, pools[k], g);
      ChainFrame(c.next, c'.next, c.tops[k], pools[k]);
    }
  }

  lemma {:induction false} ReversedNoDup(q: seq<nat>)
    requires NoDup(q)
    ensures NoDup(Reversed(q))
    decreases |q|
  {
    if q != [] {
      TailMembers(q);
      ReversedNoDup(q[1..]);
      JoinNoDup(Reversed(q[1..]), [q[0]]);
    }
  }

  lemma JoinNoDup(p: seq<nat>, q: seq<nat>)
    requires NoDup(p) && NoDup(q) && forall x :: x in p ==> x !in q
    ensures NoDup(p + q)
  {
    forall i, j | 0 <= i < j < |p + q| ensures (p + q)[i] != (p + q)[j] {
      if i < |p| <= j { assert p[i] in p && q[j - |p|] in q; }
    }
  }

  /** All pools empty, all counts zero, and the global pool holds what it held and every chunk that was cached, each
      once; clients keep theirs. */
  ghost predicate Purged(c: Vm, th: nat, n: nat, pools: seq<seq<nat>>, g: seq<nat>, c': Vm, g': seq<nat>) {
    && Sized(c) && Sized(c') && PcOf(c', th).Idle? && c'.clients == c.clients && c'.mapped == c.mapped
    && (forall k :: 0 <= k < NODES ==> c'.tops[k] == if k < n then c.tops[k] else None)
    && (forall k :: 0 <= k < NODES ==> c'.counts[k] == if k < n then c.counts[k] else 0)
    && Chain(c'.next, c'.global, g') && NoDup(g') && (forall x :: x in g' <==> x in g || Cached(pools, n, x))
    && Unlocked(c')
  }

  lemma {:induction false} PurgeFrom(c: Vm, th: nat, n: nat, pools: seq<seq<nat>>, g: seq<nat>) returns (c': Vm, g': seq<nat>)
    requires n < NODES && PcOf(c, th) == PWait(n) && Unlocked(c) && Stacks(c, n, pools, g)
    ensures Leads(c, th, c') && Purged(c, th, n, pools, g, c', g')
    decreases NODES - n
  {
    var pc := if n + 1 < NODES then PWait(n + 1) else Idle;
    var c0 := PushAll(Emptied(c, n), pools[n]);
    var c1 := At(c0, th, pc);
    assert StackAt(c, n, pools[n], g);
    PurgeTurn(c, th, n, pools[n]);
    PushAllKeeps(Emptied(c, n), pools[n]);
    var g1 := TurnStacks(c, c1, n, pools, g);
    if n + 1 < NODES {
      c', g' := PurgeFrom(c1, th, n + 1, pools, g1);
      LeadsFurther(c, th, c1, c');
      PurgedMore(c, th, n, pools, g, c1, g1, c', g');
    } else {
      c', g' := c1, g1;
      forall x ensures Cached(pools, n, x) <==> x in pools[n] {}
    }
  }

  lemma PurgedMore(c: Vm, th: nat, n: nat, pools: seq<seq<nat>>, g: seq<nat>, c1: Vm, g1: seq<nat>, c': Vm, g': seq<nat>)
    requires n + 1 < NODES && |pools| == NODES && Purged(c1, th, n + 1, pools, g1, c', g') && Sized(c)
    requires c1.tops == c.tops[n := None] && c1.counts == c.counts[n := 0] && c1.clients == c.clients && c1.mapped == c.mapped
    requires forall x :: x in g1 <==> x in g || x in pools[n]
    ensures Purged(c, th, n, pools, g, c', g')
  {
    forall x ensures Cached(pools, n, x) <==> x in pools[n] || Cached(pools, n + 1, x) {
      if Cached(pools, n, x) && x !in pools[n] {
        var k :| n <= k < |pools| && x in pools[k];
        assert n + 1 <= k;
      }
    }
  }

  /** An undisturbed purge visits all sixteen nodes: every pool is empty and counted so, and the global pool holds
      what it held and every chunk that was cached. */
  lemma PurgeCall(c: Vm, th: nat) returns (pools: seq<seq<nat>>, g: seq<nat>, c': Vm, g': seq<nat>)
    requires Reachable(c) && PcOf(c, th).Idle? && Unlocked(c)
    ensures Leads(Apply(c, CallPurge(th)), th, c')
    ensures |pools| == NODES && (forall k :: 0 <= k < NODES ==> Chain(c.next, c.tops[k], pools[k])) && Chain(c.next, c.global, g)
    ensures Purged(c, th, 0, pools, g, c', g')
  {
    var v := EveryRun(c);
    pools := seq(NODES, k requires 0 <= k < NODES => Q(v, Pool(k)));
    g := Q(v, Global);
    var c0 := Apply(c, CallPurge(th));
    GlobalAt(c, v);
    forall k: nat | k < NODES ensures StackAt(c, k, pools[k], g) {
      PoolAt(c, v, k);
      forall x | x in pools[k] ensures x !in g { assert Is(v, x, Pool(k)) && !Is(v, x, Global); }
    }
    forall j: nat, k: nat, x | j < k < NODES && x in pools[j] ensures x !in pools[k] {
      PoolAt(c, v, j);
      PoolAt(c, v, k);
      assert Is(v, x, Pool(j)) && !Is(v, x, Pool(k));
    }
    assert Stacks(c0, 0, pools, g) by { assert forall k: nat :: k < NODES ==> StackAt(c, k, pools[k], g); }
    c', g' := PurgeFrom(c0, th, 0, pools, g);
  }
}
