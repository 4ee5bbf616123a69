/** Threads and their heaps (src/hooks/lzmalloc.c:71-82, 111-134, 154-172): a thread adopts a heap from
    the zombie list or makes one, runs the free protocol with it, and on exit flushes its
    batch and puts the heap on the zombie list.  The list is linked through the heaps and
    guarded by one spinlock. */
module Lifecycle {
  import opened Common
  import opened Interleaving
  import P = ProtocolRuns
  import Linearization
  import ThreadHeap
  import PC = ProtocolCalls
  import H = Heaps

  /** Control points of a thread; `t` is the heap it holds. */
  datatype Life =
    | Fresh                            // no heap yet
    | Seeking                          // spins for the lock to look at the list
    | Taking                           // has the lock, about to take the head
    | Taken(found: Option<nat>)        // has the lock, took the head
    | Making                           // found none, will map a new heap
    | Running(t: nat)
    | Exiting(t: nat)                  // the destructor flushes
    | Burying(t: nat)                  // has the lock, about to link the heap
    | Buried(t: nat)                   // has the lock, linked the heap to the old head
    | Leaving                          // published the heap, still has the lock
    | Gone

  /** `next` is next_zombie, `head` g_zombie_tlhs, `lock` the holder of g_zombie_lock. */
  datatype World = World(sys: Sys, lives: map<nat, Life>, next: map<nat, Option<nat>>, head: Option<nat>,
                         lock: Option<nat>)

  datatype Event =
    | Want(th: nat)
    | Lock(th: nat)
    | Take(th: nat)
    | Unlock(th: nat)
    | Make(th: nat, new_: nat)
    | Run(th: nat, a: Action)
    | Exit(th: nat)
    | Bury(th: nat)
    | LinkZombie(th: nat)
    | PublishZombie(th: nat)
    | ClientWrite(b: ThreadHeap.Block, w: Word)

  predicate Critical(l: Life) {
    l.Taking? || l.Taken? || l.Burying? || l.Buried? || l.Leaving?
  }

  /** The heap the thread has to itself. */
  function Held(l: Life): Option<nat> {
    match l
    case Taken(f) => f
    case Running(t) => Some(t)
    case Exiting(t) => Some(t)
    case Burying(t) => Some(t)
    case Buried(t) => Some(t)
    case _ => None
  }

  predicate FlushAction(a: Action) {
    a.FlushStart? || a.LoadHead? || a.LinkTail? || a.Cas?
  }

  /** A heap at rest: no call in progress and nothing in the outgoing batch. */
  predicate Quiet(c: Sys, t: nat) {
    t in c.tlhs && c.tlhs[t].pc.Idle? && NothingToFlush(c.tlhs[t])
  }

  ghost predicate Enabled(w: World, e: Event) {
    match e
    case Want(th) => th !in w.lives || w.lives[th].Fresh?
    case Lock(th) => th in w.lives && w.lives[th].Seeking? && w.lock.None?
    case Take(th) => th in w.lives && w.lives[th].Taking?
    case Unlock(th) => th in w.lives && (w.lives[th].Taken? || w.lives[th].Leaving?)
    case Make(th, t) => th in w.lives && w.lives[th].Making? && Guard(w.sys, Start(t))
    case Run(th, a) =>
      && th in w.lives && !a.Start? && !a.Scribble? && Guard(w.sys, a)
      && (w.lives[th] == Running(a.t) || (w.lives[th] == Exiting(a.t) && FlushAction(a)))
    case Exit(th) => th in w.lives && w.lives[th].Running? && Idling(w.sys, w.lives[th].t)
    case Bury(th) => th in w.lives && w.lives[th].Exiting? && Quiet(w.sys, w.lives[th].t) && w.lock.None?
    case LinkZombie(th) => th in w.lives && w.lives[th].Burying?
    case PublishZombie(th) => th in w.lives && w.lives[th].Buried?
    case ClientWrite(b, x) => Guard(w.sys, Scribble(b, x))
  }

  predicate Idling(c: Sys, t: nat) {
    t in c.tlhs && c.tlhs[t].pc.Idle?
  }

  /** Protocol steps are safe in every reachable state, so the event may take them. */
  ghost predicate StepSafe(w: World, e: Event)
    requires Enabled(w, e)
  {
    match e
    case Make(_, t) => Safe(w.sys, Start(t))
    case Run(_, a) => Safe(w.sys, a)
    case ClientWrite(b, x) => Safe(w.sys, Scribble(b, x))
    case _ => true
  }

  function SetLife(w: World, th: nat, l: Life): World {
    w.(lives := w.lives[th := l])
  }

  ghost function Perform(w: World, e: Event): World
    requires Enabled(w, e) && StepSafe(w, e)
  {
    match e
    case Want(th) => SetLife(w, th, Seeking)
    case Lock(th) => SetLife(w, th, Taking).(lock := Some(th))
    case Take(th) =>
      (match w.head
       case None => SetLife(w, th, Taken(None))
       case Some(t) => SetLife(w, th, Taken(Some(t))).(head := NextOf(w.next, t), next := w.next[t := None]))
    case Unlock(th) =>
      SetLife(w, th, match w.lives[th]
                     case Taken(Some(t)) => Running(t)
                     case Taken(None) => Making
                     case _ => Gone).(lock := None)
    case Make(th, t) => SetLife(w, th, Running(t)).(sys := Apply(w.sys, Start(t)), next := w.next[t := None])
    case Run(th, a) => w.(sys := Apply(w.sys, a))
    case Exit(th) => SetLife(w, th, Exiting(w.lives[th].t))
    case Bury(th) => SetLife(w, th, Burying(w.lives[th].t)).(lock := Some(th))
    case LinkZombie(th) => SetLife(w, th, Buried(w.lives[th].t)).(next := w.next[w.lives[th].t := w.head])
    case PublishZombie(th) => SetLife(w, th, Leaving).(head := Some(w.lives[th].t))
    case ClientWrite(b, x) => w.(sys := Apply(w.sys, Scribble(b, x)))
  }

  const Genesis := World(Initial, map[], map[], None, None)

  // ---- Invariant ---------------------------------------------------------------------

  /** The list from `head` is `zs`. */
  ghost predicate ZombieList(next: map<nat, Option<nat>>, head: Option<nat>, zs: seq<nat>) {
    && head == First(zs)
    && NoDup(zs)
    && (forall i :: 0 <= i < |zs| ==> NextOf(next, zs[i]) == First(zs[i + 1..]))
  }

  predicate Holds(w: World, th: nat, t: nat) {
    th in w.lives && Held(w.lives[th]) == Some(t)
  }

  /** Every heap is held by exactly one thread or on the list exactly once. */
  ghost predicate Homes(w: World, zs: seq<nat>) {
    && (forall th, t :: Holds(w, th, t) ==> t in w.sys.tlhs && t !in zs)
    && (forall th, th', t :: Holds(w, th, t) && Holds(w, th', t) ==> th == th')
    && (forall t :: t in zs ==> t in w.sys.tlhs)
    && (forall t :: t in w.sys.tlhs ==> t in zs || exists th :: Holds(w, th, t))
  }

  ghost predicate Locking(w: World) {
    forall th :: w.lock == Some(th) <==> th in w.lives && Critical(w.lives[th])
  }

  /** Heaps on the list, on their way to it and just taken from it are at rest. */
  ghost predicate Rests(w: World, zs: seq<nat>) {
    && (forall t :: t in zs ==> Quiet(w.sys, t))
    && (forall th :: th in w.lives && Critical(w.lives[th]) && Held(w.lives[th]).Some? ==>
          Quiet(w.sys, Held(w.lives[th]).value))
  }

  ghost predicate Burial(w: World) {
    forall th :: th in w.lives && w.lives[th].Buried? ==> NextOf(w.next, w.lives[th].t) == w.head
  }

  ghost predicate WInv(w: World, zs: seq<nat>) {
    && ZombieList(w.next, w.head, zs)
    && Homes(w, zs)
    && Locking(w)
    && Rests(w, zs)
    && Burial(w)
    && P.Reachable(w.sys)
  }

  // ---- Events keep the invariant ---------------------------------------------------------

  /** A thread changes its control point but not the heap it holds; sys, list and links stay. */
  lemma LifeStep(w: World, zs: seq<nat>, th: nat, l: Life, lock: Option<nat>)
    requires WInv(w, zs)
    requires Held(l) == if th in w.lives then Held(w.lives[th]) else None
    requires !l.Buried?
    requires Locking(SetLife(w, th, l).(lock := lock))
    requires Critical(l) && Held(l).Some? ==> Quiet(w.sys, Held(l).value)
    ensures WInv(SetLife(w, th, l).(lock := lock), zs)
  {
    var w' := SetLife(w, th, l).(lock := lock);
    forall u, t ensures Holds(w', u, t) <==> Holds(w, u, t) {}
    HomesStay(w, w', zs);
  }

  lemma HomesStay(w: World, w': World, zs: seq<nat>)
    requires Homes(w, zs) && (forall t :: t in w'.sys.tlhs <==> t in w.sys.tlhs)
    requires forall u, t :: Holds(w', u, t) <==> Holds(w, u, t)
    ensures Homes(w', zs)
  {
    forall t | t in w'.sys.tlhs ensures t in zs || exists th :: Holds(w', th, t) {
      if t !in zs {
        var th :| Holds(w, th, t);
        assert Holds(w', th, t);
      }
    }
  }

  /** Steps of other heaps leave a heap at rest at rest: they can only add to its mailbox. */
  lemma QuietKept(c: Sys, a: Action, t: nat)
    requires Guard(c, a) && Safe(c, a) && Quiet(c, t) && (a.Scribble? || a.t != t)
    ensures Quiet(Apply(c, a), t)
  {}

  lemma TlhsKept(c: Sys, a: Action, t: nat)
    requires Guard(c, a) && Safe(c, a) && !a.Start?
    ensures t in Apply(c, a).tlhs <==> t in c.tlhs
  {
    if a.Cas? { assert TargetExists(c, a.t); }
  }

  lemma SysStep(w: World, zs: seq<nat>, a: Action)
    requires WInv(w, zs) && Guard(w.sys, a) && Safe(w.sys, a) && !a.Start?
    requires a.Scribble? || (a.t !in zs && forall th :: Holds(w, th, a.t) ==> !Critical(w.lives[th]))
    ensures WInv(w.(sys := Apply(w.sys, a)), zs)
  {
    var w' := w.(sys := Apply(w.sys, a));
    P.ReachableStep(w.sys, a);
    forall t ensures t in w'.sys.tlhs <==> t in w.sys.tlhs { TlhsKept(w.sys, a, t); }
    forall u, t ensures Holds(w', u, t) <==> Holds(w, u, t) {}
    HomesStay(w, w', zs);
    forall t | t in zs ensures Quiet(w'.sys, t) { QuietKept(w.sys, a, t); }
    forall th | th in w'.lives && Critical(w'.lives[th]) && Held(w'.lives[th]).Some?
      ensures Quiet(w'.sys, Held(w'.lives[th]).value)
    {
      assert Holds(w, th, Held(w.lives[th]).value);
      QuietKept(w.sys, a, Held(w.lives[th]).value);
    }
  }

  /** Only one thread is between taking and releasing the lock. */
  lemma OneCritical(w: World, th: nat)
    requires Locking(w) && th in w.lives && Critical(w.lives[th])
    ensures forall u :: u in w.lives && u != th ==> !Critical(w.lives[u])
  {
    assert w.lock == Some(th);
  }

  lemma TakeList(next: map<nat, Option<nat>>, head: Option<nat>, zs: seq<nat>)
    requires ZombieList(next, head, zs) && zs != []
    ensures ZombieList(next[zs[0] := None], NextOf(next, zs[0]), zs[1..])
    ensures forall t :: t in zs[1..] <==> t in zs && t != zs[0]
  {
    TailMembers(zs);
    var rest, next' := zs[1..], next[zs[0] := None];
    forall i | 0 <= i < |rest| ensures NextOf(next', rest[i]) == First(rest[i + 1..]) {
      assert rest[i] == zs[i + 1] && rest[i + 1..] == zs[i + 2..];
      assert rest[i] in rest;
    }
  }

  lemma TakeStep(w: World, zs: seq<nat>, th: nat) returns (zs': seq<nat>)
    requires WInv(w, zs) && Enabled(w, Take(th))
    ensures WInv(Perform(w, Take(th)), zs')
  {
    var w' := Perform(w, Take(th));
    if zs == [] {
      zs' := zs;
      LifeStep(w, zs, th, Taken(None), w.lock);
      assert w' == SetLife(w, th, Taken(None)).(lock := w.lock);
    } else {
      zs' := zs[1..];
      TakeList(w.next, w.head, zs);
      TakeHomes(w, w', zs, th);
      TakeRests(w, w', zs, th);
    }
  }

  lemma TakeHomes(w: World, w': World, zs: seq<nat>, th: nat)
    requires WInv(w, zs) && zs != [] && th in w.lives && w.lives[th].Taking?
    requires forall t :: t in zs[1..] <==> t in zs && t != zs[0]
    requires w'.lives == w.lives[th := Taken(Some(zs[0]))] && w'.sys == w.sys
    ensures Homes(w', zs[1..])
  {
    assert zs[0] in zs;
    forall u, t ensures Holds(w', u, t) <==> Holds(w, u, t) || (u == th && t == zs[0]) {}
    forall t | t in w'.sys.tlhs ensures t in zs[1..] || exists u :: Holds(w', u, t) {
      if t == zs[0] {
        assert Holds(w', th, t);
      } else if t !in zs {
        var u :| Holds(w, u, t);
        assert Holds(w', u, t);
      }
    }
  }

  lemma TakeRests(w: World, w': World, zs: seq<nat>, th: nat)
    requires WInv(w, zs) && zs != [] && th in w.lives && w.lives[th].Taking?
    requires w'.lives == w.lives[th := Taken(Some(zs[0]))] && w'.sys == w.sys && w'.lock == w.lock
    requires forall t :: t in zs[1..] <==> t in zs && t != zs[0]
    ensures Rests(w', zs[1..]) && Locking(w') && Burial(w')
  {
    assert zs[0] in zs;
    OneCritical(w, th);
  }

  lemma MakeStep(w: World, zs: seq<nat>, th: nat, t: nat)
    requires WInv(w, zs) && Enabled(w, Make(th, t))
    ensures StepSafe(w, Make(th, t)) && WInv(Perform(w, Make(th, t)), zs)
  {
    var w' := Perform(w, Make(th, t));
    P.ReachableStep(w.sys, Start(t));
    assert forall x :: x in w'.sys.tlhs <==> x in w.sys.tlhs || x == t;
    forall u, x ensures Holds(w', u, x) <==> Holds(w, u, x) || (u == th && x == t) {}
    forall x | x in w'.sys.tlhs ensures x in zs || exists u :: Holds(w', u, x) {
      if x == t {
        assert Holds(w', th, x);
      } else if x !in zs {
        var u :| Holds(w, u, x);
        assert Holds(w', u, x);
      }
    }
    assert Homes(w', zs);
    forall i | 0 <= i < |zs| ensures NextOf(w'.next, zs[i]) == First(zs[i + 1..]) {
      assert zs[i] in zs;
    }
    MakeRests(w, w', zs, th, t);
  }

  lemma MakeRests(w: World, w': World, zs: seq<nat>, th: nat, t: nat)
    requires WInv(w, zs) && th in w.lives && w.lives[th].Making? && t !in w.sys.tlhs
    requires w'.lives == w.lives[th := Running(t)] && w'.lock == w.lock && w'.head == w.head
    requires w'.next == w.next[t := None]
    requires forall x :: x in w.sys.tlhs ==> x in w'.sys.tlhs && w'.sys.tlhs[x] == w.sys.tlhs[x]
    ensures Rests(w', zs) && Locking(w') && Burial(w')
  {
    forall u | u in w'.lives && w'.lives[u].Buried? ensures NextOf(w'.next, w'.lives[u].t) == w'.head {
      assert Holds(w, u, w.lives[u].t);
    }
  }

  lemma LinkStep(w: World, zs: seq<nat>, th: nat)
    requires WInv(w, zs) && Enabled(w, LinkZombie(th))
    ensures WInv(Perform(w, LinkZombie(th)), zs)
  {
    var w', t := Perform(w, LinkZombie(th)), w.lives[th].t;
    assert Holds(w, th, t);
    forall u, x ensures Holds(w', u, x) <==> Holds(w, u, x) {}
    HomesStay(w, w', zs);
    forall i | 0 <= i < |zs| ensures NextOf(w'.next, zs[i]) == First(zs[i + 1..]) {
      assert zs[i] in zs;
    }
    OneCritical(w, th);
  }

  lemma PublishStep(w: World, zs: seq<nat>, th: nat) returns (zs': seq<nat>)
    requires WInv(w, zs) && Enabled(w, PublishZombie(th))
    ensures WInv(Perform(w, PublishZombie(th)), zs')
    ensures zs' == [w.lives[th].t] + zs
  {
    var w', t := Perform(w, PublishZombie(th)), w.lives[th].t;
    assert Holds(w, th, t);
    zs' := [t] + zs;
    NoDupPrepend(t, zs);
    forall i | 0 <= i < |zs'| ensures NextOf(w'.next, zs'[i]) == First(zs'[i + 1..]) {
      if i == 0 { assert zs'[1..] == zs; }
      else { assert zs'[i] == zs[i - 1] && zs'[i + 1..] == zs[i - 1 + 1..]; }
    }
    PublishHomes(w, w', zs, th, t);
    OneCritical(w, th);
  }

  lemma PublishHomes(w: World, w': World, zs: seq<nat>, th: nat, t: nat)
    requires Homes(w, zs) && Holds(w, th, t) && w'.lives == w.lives[th := Leaving] && w'.sys == w.sys
    ensures Homes(w', [t] + zs)
  {
    forall u, x ensures Holds(w', u, x) <==> Holds(w, u, x) && u != th {}
    forall x | x in w'.sys.tlhs ensures x in [t] + zs || exists u :: Holds(w', u, x) {
      if x != t && x !in zs {
        var u :| Holds(w, u, x);
        assert Holds(w', u, x);
      }
    }
  }

  // ---- Runs --------------------------------------------------------------------------------

  lemma LockSteps(w: World, zs: seq<nat>, e: Event)
    requires WInv(w, zs) && Enabled(w, e) && (e.Want? || e.Lock? || e.Exit? || e.Bury?)
    ensures WInv(Perform(w, e), zs)
  {
    var w' := Perform(w, e);
    var th := e.th;
    assert w' == SetLife(w, th, w'.lives[th]).(lock := w'.lock);
    LifeStep(w, zs, th, w'.lives[th], w'.lock);
  }

  lemma UnlockStep(w: World, zs: seq<nat>, th: nat)
    requires WInv(w, zs) && Enabled(w, Unlock(th))
    ensures WInv(Perform(w, Unlock(th)), zs)
  {
    var w' := Perform(w, Unlock(th));
    OneCritical(w, th);
    assert w' == SetLife(w, th, w'.lives[th]).(lock := None);
    LifeStep(w, zs, th, w'.lives[th], None);
  }

  lemma RunStep(w: World, zs: seq<nat>, th: nat, a: Action)
    requires WInv(w, zs) && Enabled(w, Run(th, a))
    ensures StepSafe(w, Run(th, a)) && WInv(Perform(w, Run(th, a)), zs)
  {
    P.NeverWrong(w.sys, a);
    assert Holds(w, th, a.t);
    SysStep(w, zs, a);
  }

  /** Every event is safe and keeps heaps, list, lock and rests in order. */
  lemma EventStep(w: World, zs: seq<nat>, e: Event) returns (zs': seq<nat>)
    requires WInv(w, zs) && Enabled(w, e)
    ensures StepSafe(w, e)
    ensures WInv(Perform(w, e), zs')
  {
    zs' := zs;
    match e
    case Want(th) => LockSteps(w, zs, e);
    case Lock(th) => LockSteps(w, zs, e);
    case Exit(th) => LockSteps(w, zs, e);
    case Bury(th) => LockSteps(w, zs, e);
    case Unlock(th) => UnlockStep(w, zs, th);
    case Take(th) => zs' := TakeStep(w, zs, th);
    case Make(th, t) => MakeStep(w, zs, th, t);
    case Run(th, a) => RunStep(w, zs, th, a);
    case LinkZombie(th) => LinkStep(w, zs, th);
    case PublishZombie(th) => zs' := PublishStep(w, zs, th);
    case ClientWrite(b, x) => P.NeverWrong(w.sys, Scribble(b, x)); SysStep(w, zs, Scribble(b, x));
  }

  ghost function History(w: World, es: seq<Event>): Option<World>
    decreases |es|
  {
    if es == [] then Some(w)
    else if Enabled(w, es[0]) && StepSafe(w, es[0]) then History(Perform(w, es[0]), es[1..])
    else None
  }

  lemma {:induction false} HistoryKeeps(w: World, zs: seq<nat>, es: seq<Event>, w': World) returns (zs': seq<nat>)
    requires WInv(w, zs) && History(w, es) == Some(w')
    ensures WInv(w', zs')
    decreases |es|
  {
    if es == [] {
      zs' := zs;
    } else {
      var zs1 := EventStep(w, zs, es[0]);
      zs' := HistoryKeeps(Perform(w, es[0]), zs1, es[1..], w');
    }
  }

  lemma GenesisInv()
    ensures WInv(Genesis, [])
  {
    assert P.Exec(Initial, []) == Some(Initial);
  }

  /** After any history: each heap is held by exactly one thread or is exactly once on the list, which is
      finite and acyclic; a heap on the list has no call in progress and an empty outgoing
      batch; and the heaps together are in a reachable state of the free protocol, so
      nothing that was freed to a zombie is lost. */
  lemma EveryHeapHasOneHome(es: seq<Event>, w: World) returns (zs: seq<nat>)
    requires History(Genesis, es) == Some(w)
    ensures ZombieList(w.next, w.head, zs)
    ensures forall t :: t in w.sys.tlhs <==> t in zs || exists th :: Holds(w, th, t)
    ensures forall th, th', t :: Holds(w, th, t) && Holds(w, th', t) ==> th == th'
    ensures forall th, t :: Holds(w, th, t) ==> t !in zs
    ensures forall t :: t in zs ==> w.sys.tlhs[t].pc.Idle? && w.sys.tlhs[t].count == 0
    ensures P.Reachable(w.sys)
  {
    GenesisInv();
    zs := HistoryKeeps(Genesis, [], es, w);
    forall t | t in zs ensures w.sys.tlhs[t].pc.Idle? && w.sys.tlhs[t].count == 0 {
      QuietMeansEmpty(w.sys, t);
    }
  }

  lemma QuietMeansEmpty(c: Sys, t: nat)
    requires P.Reachable(c) && Quiet(c, t)
    ensures c.tlhs[t].count == 0
  {
    var s := P.EveryRun(c);
    Linearization.RelAt(c, s, t);
  }

  // ---- Mail to a zombie --------------------------------------------------------------------

  /** The heap is on the zombie list, or its adopter took it off and has not released the lock. */
  ghost predicate Waiting(w: World, t: nat) {
    || (exists zs :: ZombieList(w.next, w.head, zs) && t in zs)
    || (exists th :: th in w.lives && w.lives[th] == Taken(Some(t)))
  }

  /** The heap is waiting before each of the events: the last one may be the release of the lock by its adopter. */
  ghost predicate WaitsThrough(w: World, es: seq<Event>, t: nat)
    decreases |es|
  {
    es != [] ==>
      && Waiting(w, t)
      && (Enabled(w, es[0]) && StepSafe(w, es[0]) ==> WaitsThrough(Perform(w, es[0]), es[1..], t))
  }

  lemma {:induction false} ListUnique(next: map<nat, Option<nat>>, head: Option<nat>, zs: seq<nat>, ys: seq<nat>)
    requires ZombieList(next, head, zs) && ZombieList(next, head, ys)
    ensures zs == ys
    decreases |zs|
  {
    if zs != [] {
      ListTail(next, head, zs);
      ListTail(next, head, ys);
      ListUnique(next, NextOf(next, zs[0]), zs[1..], ys[1..]);
      assert zs == [zs[0]] + zs[1..] && ys == [ys[0]] + ys[1..];
    }
  }

  lemma ListTail(next: map<nat, Option<nat>>, head: Option<nat>, zs: seq<nat>)
    requires ZombieList(next, head, zs) && zs != []
    ensures ZombieList(next, NextOf(next, zs[0]), zs[1..])
  {
    var rest := zs[1..];
    forall i | 0 <= i < |rest| ensures NextOf(next, rest[i]) == First(rest[i + 1..]) {
      assert rest[i] == zs[i + 1] && rest[i + 1..] == zs[i + 2..];
    }
  }

  /** Nobody runs a heap that is waiting. */
  lemma WaitingIsStill(w: World, zs: seq<nat>, e: Event, t: nat)
    requires WInv(w, zs) && Enabled(w, e) && Waiting(w, t)
    ensures t in w.sys.tlhs && (e.Run? ==> e.a.t != t)
  {
    if ys :| ZombieList(w.next, w.head, ys) && t in ys {
      ListUnique(w.next, w.head, zs, ys);
    } else {
      var th :| th in w.lives && w.lives[th] == Taken(Some(t));
      assert Holds(w, th, t);
    }
    if e.Run? { assert Holds(w, e.th, e.a.t); }
  }

  /** The protocol step of an event, if it is one. */
  function StepOf(e: Event): Option<Action> {
    match e
    case Make(_, u) => Some(Start(u))
    case Run(_, a) => Some(a)
    case ClientWrite(b, x) => Some(Scribble(b, x))
    case _ => None
  }

  lemma SysOf(w: World, e: Event)
    requires Enabled(w, e) && StepSafe(w, e)
    ensures StepOf(e).Some? ==> Guard(w.sys, StepOf(e).value) && Safe(w.sys, StepOf(e).value)
    ensures Perform(w, e).sys == if StepOf(e).Some? then Apply(w.sys, StepOf(e).value) else w.sys
  {}

  lemma EventMail(w: World, e: Event, t: nat, mail: seq<ThreadHeap.Block>) returns (pushed: seq<ThreadHeap.Block>)
    requires P.Reachable(w.sys) && Enabled(w, e) && StepSafe(w, e)
    requires t in w.sys.tlhs && (e.Run? ==> e.a.t != t) && Linearization.Chain(w.sys.mem, w.sys.tlhs[t].mailbox, mail)
    ensures t in Perform(w, e).sys.tlhs
    ensures Linearization.Chain(Perform(w, e).sys.mem, Perform(w, e).sys.tlhs[t].mailbox, pushed + mail)
  {
    SysOf(w, e);
    if StepOf(e).Some? {
      assert StepOf(e).value.Scribble? || StepOf(e).value.t != t;
      pushed := P.MailGrows(w.sys, StepOf(e).value, t, mail);
    } else {
      pushed := [];
      assert pushed + mail == mail;
    }
  }

  lemma WaitingStep(w: World, zs: seq<nat>, e: Event, t: nat, mail: seq<ThreadHeap.Block>)
    returns (zs': seq<nat>, pushed: seq<ThreadHeap.Block>)
    requires WInv(w, zs) && Enabled(w, e) && StepSafe(w, e) && Waiting(w, t)
    requires t in w.sys.tlhs && Linearization.Chain(w.sys.mem, w.sys.tlhs[t].mailbox, mail)
    ensures WInv(Perform(w, e), zs') && t in Perform(w, e).sys.tlhs
    ensures Linearization.Chain(Perform(w, e).sys.mem, Perform(w, e).sys.tlhs[t].mailbox, pushed + mail)
  {
    WaitingIsStill(w, zs, e, t);
    pushed := EventMail(w, e, t, mail);
    zs' := EventStep(w, zs, e);
  }

  lemma Appended<T>(p: seq<T>, q: seq<T>, r: seq<T>)
    ensures (p + q) + r == p + (q + r)
  {}

  lemma {:induction false} HistoryMail(w: World, zs: seq<nat>, es: seq<Event>, w': World, t: nat,
                                       mail: seq<ThreadHeap.Block>) returns (pushed: seq<ThreadHeap.Block>)
    requires WInv(w, zs) && History(w, es) == Some(w') && WaitsThrough(w, es, t)
    requires t in w.sys.tlhs && Linearization.Chain(w.sys.mem, w.sys.tlhs[t].mailbox, mail)
    ensures t in w'.sys.tlhs && Linearization.Chain(w'.sys.mem, w'.sys.tlhs[t].mailbox, pushed + mail)
    decreases |es|
  {
    if es == [] {
      pushed := [];
      assert pushed + mail == mail;
    } else {
      var zs1, first := WaitingStep(w, zs, es[0], t, mail);
      var w1 := Perform(w, es[0]);
      var more := HistoryMail(w1, zs1, es[1..], w', t, first + mail);
      pushed := more + first;
      Appended(more, first, mail);
    }
  }

  /** Thread exit loses no pending free.  Take any history to a state in which heap `t` is on the zombie list, and
      any events from there while it waits, up to and including the adoption.  Its mailbox is then the one it had,
      behind whatever was pushed meanwhile, and the first drain by its adopter takes all of it. */
  lemma MailWaits(past: seq<Event>, w: World, es: seq<Event>, w': World, t: nat, mail: seq<ThreadHeap.Block>)
    returns (pushed: seq<ThreadHeap.Block>)
    requires History(Genesis, past) == Some(w) && History(w, es) == Some(w') && WaitsThrough(w, es, t)
    requires t in w.sys.tlhs && Linearization.Chain(w.sys.mem, w.sys.tlhs[t].mailbox, mail)
    ensures t in w'.sys.tlhs && Linearization.Chain(w'.sys.mem, w'.sys.tlhs[t].mailbox, pushed + mail)
    ensures forall th, sc :: Enabled(w', Run(th, DrainMailbox(t, sc))) ==>
              DrainedAll(w', Run(th, DrainMailbox(t, sc)), t, pushed + mail)
  {
    GenesisInv();
    var zs := HistoryKeeps(Genesis, [], past, w);
    pushed := HistoryMail(w, zs, es, w', t, mail);
    var zs' := HistoryKeeps(w, zs, es, w');
    forall th, sc | Enabled(w', Run(th, DrainMailbox(t, sc)))
      ensures DrainedAll(w', Run(th, DrainMailbox(t, sc)), t, pushed + mail)
    {
      var all := P.DrainTakesAll(w'.sys, t, sc);
      P.ChainUnique(w'.sys.mem, w'.sys.tlhs[t].mailbox, all, pushed + mail);
    }
  }

  /** The event leaves heap `t` with an empty mailbox and `q` as the worklist of its reap pass. */
  ghost predicate DrainedAll(w: World, e: Event, t: nat, q: seq<ThreadHeap.Block>) {
    && Enabled(w, e) && StepSafe(w, e)
    && var c := Perform(w, e).sys;
       t in c.tlhs && c.tlhs[t].mailbox.None? && c.tlhs[t].pc.Reaping? && Linearization.Chain(c.mem, c.tlhs[t].pc.cursor, q)
  }

  // ---- Adoption ------------------------------------------------------------------------------

  /** After any history, a thread that looks at the zombie list takes its first heap, which leaves the list, and runs
      with it once it releases the lock; it finds none exactly when the list is empty, and makes one then. */
  lemma AdoptsFirst(past: seq<Event>, w: World, th: nat) returns (zs: seq<nat>)
    requires History(Genesis, past) == Some(w) && Enabled(w, Take(th))
    ensures ZombieList(w.next, w.head, zs)
    ensures var w' := Perform(w, Take(th));
            && th in w'.lives && Enabled(w', Unlock(th)) && w'.lock == Some(th)
            && (if zs == [] then ZombieList(w'.next, w'.head, [])
                else Holds(w', th, zs[0]) && ZombieList(w'.next, w'.head, zs[1..]))
            && var w2 := Perform(w', Unlock(th));
               && th in w2.lives && w2.lock.None?
               && w2.lives[th] == if zs == [] then Making else Running(zs[0])
  {
    GenesisInv();
    zs := HistoryKeeps(Genesis, [], past, w);
    if zs != [] { TakeList(w.next, w.head, zs); }
  }

  /** The thread's latest look at the list found it empty; `was` says so of what came before. */
  ghost function SawNone(w: World, es: seq<Event>, th: nat, was: bool): bool
    decreases |es|
  {
    if es == [] then was
    else
      var now := if es[0] == Take(th) then w.head.None? else was;
      if Enabled(w, es[0]) && StepSafe(w, es[0]) then SawNone(Perform(w, es[0]), es[1..], th, now) else now
  }

  predicate NoneFound(w: World, th: nat) {
    th in w.lives && (w.lives[th] == Taken(None) || w.lives[th].Making?)
  }

  lemma StepFinds(w: World, e: Event, th: nat, was: bool)
    requires Enabled(w, e) && StepSafe(w, e) && (NoneFound(w, th) ==> was)
    ensures NoneFound(Perform(w, e), th) ==> if e == Take(th) then w.head.None? else was
  {}

  lemma {:induction false} HistoryFinds(w: World, es: seq<Event>, w': World, th: nat, was: bool)
    requires History(w, es) == Some(w') && (NoneFound(w, th) ==> was)
    ensures NoneFound(w', th) ==> SawNone(w, es, th, was)
    decreases |es|
  {
    if es != [] {
      StepFinds(w, es[0], th, was);
      var w1 := Perform(w, es[0]);
      HistoryFinds(w1, es[1..], w', th, if es[0] == Take(th) then w.head.None? else was);
    }
  }

  /** A new heap is made only by a thread whose look at the zombie list found it empty. */
  lemma MadeOnlyWithoutZombies(past: seq<Event>, w: World, th: nat, t: nat)
    requires History(Genesis, past) == Some(w) && Enabled(w, Make(th, t))
    ensures SawNone(Genesis, past, th, false)
  {
    HistoryFinds(Genesis, past, w, th, false);
  }

  // ---- No thread is stuck ------------------------------------------------------------------------

  /** An exiting thread is idle or inside the flush that its exit asked for. */
  predicate ExitPc(pc: Pc) {
    pc.Idle? || ((pc.Flushing? || pc.Loaded? || pc.Linked?) && pc.then_.Done?)
  }

  predicate ExitOk(w: World, th: nat) {
    th in w.lives && w.lives[th].Exiting? ==> w.lives[th].t in w.sys.tlhs && ExitPc(w.sys.tlhs[w.lives[th].t].pc)
  }

  lemma ProtocolExit(c: Sys, a: Action, t: nat)
    requires Guard(c, a) && Safe(c, a) && t in c.tlhs && ExitPc(c.tlhs[t].pc) && (a.Scribble? || a.t != t || FlushAction(a))
    ensures t in Apply(c, a).tlhs && ExitPc(Apply(c, a).tlhs[t].pc)
  {}

  lemma ExitStep(w: World, zs: seq<nat>, e: Event, th: nat)
    requires WInv(w, zs) && Enabled(w, e) && StepSafe(w, e) && ExitOk(w, th)
    ensures ExitOk(Perform(w, e), th)
  {
    if StepOf(e).Some? && th in w.lives && w.lives[th].Exiting? {
      var t := w.lives[th].t;
      assert Holds(w, th, t);
      if e.Run? && e.a.t == t { assert Holds(w, e.th, t); }
      SysOf(w, e);
      ProtocolExit(w.sys, StepOf(e).value, t);
    }
  }

  lemma {:induction false} HistoryExit(w: World, zs: seq<nat>, es: seq<Event>, w': World, th: nat)
    requires WInv(w, zs) && History(w, es) == Some(w') && ExitOk(w, th)
    ensures ExitOk(w', th)
    decreases |es|
  {
    if es != [] {
      ExitStep(w, zs, es[0], th);
      var zs1 := EventStep(w, zs, es[0]);
      var w1 := Perform(w, es[0]);
      HistoryExit(w1, zs1, es[1..], w', th);
    }
  }

  lemma NewName(s: set<nat>) returns (t: nat)
    ensures t !in s
  {
    t := |s|;
    if t in s {
      var k: nat :| k <= |s| && k !in s by {
        if forall k: nat :: k <= |s| ==> k in s { H.SubsetSize(H.Below(|s| + 1), s); }
      }
      t := k;
    }
  }

  /** The thread whose event it is. */
  function Doer(e: Event): Option<nat> {
    if e.ClientWrite? then None else Some(e.th)
  }

  /** The holder of the zombie lock can go on. */
  lemma HolderGoesOn(w: World, zs: seq<nat>, u: nat) returns (e: Event)
    requires WInv(w, zs) && w.lock == Some(u)
    ensures Enabled(w, e) && StepSafe(w, e) && Doer(e) == Some(u)
  {
    match w.lives[u] {
      case Taking => e := Take(u);
      case Taken(_) => e := Unlock(u);
      case Burying(_) => e := LinkZombie(u);
      case Buried(_) => e := PublishZombie(u);
      case Leaving => e := Unlock(u);
    }
  }

  /** After any history each thread that is not gone can go on with its life, or it waits for the zombie lock and the
      holder of that lock can. */
  lemma NeverBlocked(past: seq<Event>, w: World, th: nat) returns (e: Event)
    requires History(Genesis, past) == Some(w) && th in w.lives && !w.lives[th].Gone?
    ensures Enabled(w, e) && StepSafe(w, e)
    ensures Doer(e) == Some(th) || (w.lock.Some? && Doer(e) == w.lock && (w.lives[th].Seeking? || w.lives[th].Exiting?))
  {
    GenesisInv();
    var zs := HistoryKeeps(Genesis, [], past, w);
    HistoryExit(Genesis, [], past, w, th);
    var l := w.lives[th];
    if w.lock == Some(th) {
      e := HolderGoesOn(w, zs, th);
    } else if l.Running? || l.Exiting? {
      assert Holds(w, th, l.t);
      e := HeapGoesOn(w, zs, th);
    } else if l.Seeking? && w.lock.Some? {
      e := HolderGoesOn(w, zs, w.lock.value);
    } else {
      var t := NewName(w.sys.tlhs.Keys);
      e := if l.Fresh? then Want(th) else if l.Seeking? then Lock(th) else Make(th, t);
      assert l.Fresh? || l.Seeking? || l.Making?;
    }
  }

  lemma HeapGoesOn(w: World, zs: seq<nat>, th: nat) returns (e: Event)
    requires WInv(w, zs) && th in w.lives && (w.lives[th].Running? || w.lives[th].Exiting?) && ExitOk(w, th)
    requires w.lives[th].t in w.sys.tlhs
    ensures Enabled(w, e) && StepSafe(w, e)
    ensures Doer(e) == Some(th) || (w.lock.Some? && Doer(e) == w.lock && w.lives[th].Exiting?)
  {
    var t := w.lives[th].t;
    if !w.sys.tlhs[t].pc.Idle? {
      var a := PC.NeverStuck(w.sys, t);
      e := Run(th, a);
      FlushGoesOn(w.sys, t, a);
    } else if w.lives[th].Running? {
      e := Exit(th);
    } else if !NothingToFlush(w.sys.tlhs[t]) {
      e := Run(th, FlushStart(t));
    } else if w.lock.None? {
      e := Bury(th);
    } else {
      e := HolderGoesOn(w, zs, w.lock.value);
    }
  }

  lemma FlushGoesOn(c: Sys, t: nat, a: Action)
    requires t in c.tlhs && Guard(c, a) && !a.Scribble? && a.t == t && !c.tlhs[t].pc.Idle?
    ensures !a.Start? && (ExitPc(c.tlhs[t].pc) ==> FlushAction(a))
  {}

  /** The heap of a thread that exits becomes the first of the list. */
  lemma BuriedFirst(past: seq<Event>, w: World, th: nat) returns (zs: seq<nat>)
    requires History(Genesis, past) == Some(w) && Enabled(w, PublishZombie(th))
    ensures ZombieList(w.next, w.head, zs)
    ensures var w' := Perform(w, PublishZombie(th));
            ZombieList(w'.next, w'.head, [w.lives[th].t] + zs)
  {
    GenesisInv();
    zs := HistoryKeeps(Genesis, [], past, w);
    var t := w.lives[th].t;
    assert Holds(w, th, t);
    NoDupPrepend(t, zs);
    var all := [t] + zs;
    forall i | 0 <= i < |all| ensures NextOf(w.next, all[i]) == First(all[i + 1..]) {
      if i == 0 { assert all[1..] == zs; } else { assert all[i] == zs[i - 1] && all[i + 1..] == zs[i..]; }
    }
  }
}
