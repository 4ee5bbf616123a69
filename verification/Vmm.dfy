/** The chunk cache (src/engines/vmm.c) as an interleaved step system: sixteen bounded node pools and one
    global pool, each an intrusive stack under its own spinlock.  Between critical sections
    a chunk, a drained stack or a fresh extent is held by one thread only. */
module Vmm {
  import opened Common

  /** Control points; `n` is the node, `c` a chunk in the thread's hand. */
  datatype Pc =
    | Idle
    // lz_vmm_alloc_chunk
    | AWait(n: nat)
    | APop(n: nat)
    | ACount(n: nat, c: nat)
    | ARelease(n: nat, got: Option<nat>)
    | AReturn(n: nat, c: nat)
    | GWait(n: nat, again: bool)
    | GLook(n: nat, again: bool)
    | GLeave(n: nat)
    | GRelease(n: nat, got: Option<nat>)
    | AInit(n: nat, c: nat)
    // sys_alloc_extent
    | EMap(n: nat)
    | EWait(n: nat, rest: seq<nat>)
    | EPush(n: nat, rest: seq<nat>)
    // lz_vmm_free_chunk
    | FWait(n: nat, c: nat)
    | FLook(n: nat, c: nat)
    | FCount(n: nat)
    | FRelease(n: nat, back: Option<nat>)
    | FGWait(c: nat)
    | FGPush(c: nat)
    | FGRelease
    // lz_vmm_purge_all_caches
    | PWait(n: nat)
    | PTake(n: nat)
    | PCount(n: nat, h: Option<nat>)
    | PRelease(n: nat, h: Option<nat>)
    | PNext(n: nat, h: Option<nat>)
    | PGWait(n: nat, c: nat, after: Option<nat>)
    | PGPush(n: nat, c: nat, after: Option<nat>)
    | PGRelease(n: nat, after: Option<nat>)

  /** `next` is the link inside the chunk headers, `node` and `magic` their node_id and magic fields. */
  datatype Vm = Vm(threads: map<nat, Pc>, tops: seq<Option<nat>>, counts: seq<int>, locks: seq<Option<nat>>,
                   global: Option<nat>, glock: Option<nat>, next: map<nat, Option<nat>>,
                   node: map<nat, nat>, magic: set<nat>, clients: set<nat>, mapped: set<nat>)

  /** Calls of clients, answers of the system, and the next step of a thread. */
  datatype Action =
    | CallAlloc(th: nat, node_: nat)
    | CallFree(th: nat, chunk: nat)
    | CallPurge(th: nat)
    | Mapped(th: nat, extent: seq<nat>)
    | MapFails(th: nat)
    | Go(th: nat)

  function Start(): Vm {
    Vm(map[], seq(NODES, _ => None), seq(NODES, _ => 0), seq(NODES, _ => None), None, None, map[], map[], {}, {}, {})
  }

  function PcOf(c: Vm, th: nat): Pc {
    if th in c.threads then c.threads[th] else Idle
  }

  function NodeOf(c: Vm, x: nat): nat {
    if x in c.node then c.node[x] else 0
  }

  // ---- Locks ------------------------------------------------------------------------

  /** The node pool whose lock the control point holds. */
  function PoolHeld(pc: Pc): Option<nat> {
    match pc
    case APop(n) => Some(n)
    case ACount(n, _) => Some(n)
    case ARelease(n, _) => Some(n)
    case FLook(n, _) => Some(n)
    case FCount(n) => Some(n)
    case FRelease(n, _) => Some(n)
    case PTake(n) => Some(n)
    case PCount(n, _) => Some(n)
    case PRelease(n, _) => Some(n)
    case _ => None
  }

  predicate GlobalHeld(pc: Pc) {
    pc.GLook? || pc.GLeave? || pc.GRelease? || pc.EPush? || pc.FGPush? || pc.FGRelease? || pc.PGPush? || pc.PGRelease?
  }

  /** The control point spins for a node pool's lock. */
  function PoolWanted(pc: Pc): Option<nat> {
    match pc
    case AWait(n) => Some(n)
    case FWait(n, _) => Some(n)
    case PWait(n) => Some(n)
    case _ => None
  }

  predicate GlobalWanted(pc: Pc) {
    pc.GWait? || pc.EWait? || pc.FGWait? || pc.PGWait?
  }

  // ---- Steps --------------------------------------------------------------------------

  /** The thread can take its own next step: it is inside a call, not at the system's mercy, and the lock it
      spins for, if any, is free. */
  predicate CanGo(c: Vm, th: nat) {
    var pc := PcOf(c, th);
    && !pc.Idle? && !pc.EMap?
    && (PoolWanted(pc).Some? ==> PoolWanted(pc).value < |c.locks| && c.locks[PoolWanted(pc).value].None?)
    && (GlobalWanted(pc) ==> c.glock.None?)
    && (PoolHeld(pc).Some? ==> PoolHeld(pc).value < |c.locks| && |c.locks| == |c.tops| == |c.counts|)
  }

  /** mmap answers with an extent of distinct chunks nobody knew. */
  ghost predicate FreshExtent(c: Vm, q: seq<nat>) {
    |q| == EXTENT_CHUNKS && NoDup(q) && forall x :: x in q ==> x !in c.mapped
  }

  ghost predicate Guard(c: Vm, a: Action) {
    match a
    case CallAlloc(th, n) => PcOf(c, th).Idle? && n < NODES
    case CallFree(th, x) => PcOf(c, th).Idle? && x in c.clients
    case CallPurge(th) => PcOf(c, th).Idle?
    case Mapped(th, q) => PcOf(c, th).EMap? && FreshExtent(c, q)
    case MapFails(th) => PcOf(c, th).EMap?
    case Go(th) => CanGo(c, th)
  }

  function At(c: Vm, th: nat, pc: Pc): Vm {
    c.(threads := c.threads[th := pc])
  }

  function PushGlobal(c: Vm, x: nat): Vm {
    c.(next := c.next[x := c.global], global := Some(x))
  }

  function GoStep(c: Vm, th: nat): Vm
    requires CanGo(c, th)
  {
    match PcOf(c, th)
    case AWait(n) => At(c, th, APop(n)).(locks := c.locks[n := Some(th)])
    case APop(n) =>
      (match c.tops[n]
       case None => At(c, th, ARelease(n, None))
       case Some(x) => At(c, th, ACount(n, x)).(tops := c.tops[n := NextOf(c.next, x)]))
    case ACount(n, x) => At(c, th, ARelease(n, Some(x))).(counts := c.counts[n := c.counts[n] - 1])
    case ARelease(n, got) =>
      At(c, th, match got case None => GWait(n, false) case Some(x) => AReturn(n, x)).(locks := c.locks[n := None])
    case AReturn(n, x) => At(c, th, Idle).(next := c.next[x := None], clients := c.clients + {x})
    case GWait(n, again) => At(c, th, GLook(n, again)).(glock := Some(th))
    case GLook(n, again) =>
      (match c.global
       case None => At(c, th, if again then GRelease(n, None) else GLeave(n))
       case Some(x) => At(c, th, GRelease(n, Some(x))).(global := NextOf(c.next, x)))
    case GLeave(n) => At(c, th, EMap(n)).(glock := None)
    case GRelease(n, got) =>
      At(c, th, match got case None => Idle case Some(x) => AInit(n, x)).(glock := None)
    case AInit(n, x) =>
      At(c, th, Idle).(next := c.next[x := None], node := c.node[x := n], magic := c.magic + {x},
                       clients := c.clients + {x})
    case EWait(n, rest) => At(c, th, EPush(n, rest)).(glock := Some(th))
    case EPush(n, rest) =>
      if rest == [] then At(c, th, GWait(n, true)).(glock := None)
      else At(PushGlobal(c, rest[0]), th, EPush(n, rest[1..]))
    case FWait(n, x) => At(c, th, FLook(n, x)).(locks := c.locks[n := Some(th)])
    case FLook(n, x) =>
      if c.counts[n] < MAX_CACHED then
        At(c, th, FCount(n)).(next := c.next[x := c.tops[n]], tops := c.tops[n := Some(x)])
      else At(c, th, FRelease(n, Some(x)))
    case FCount(n) => At(c, th, FRelease(n, None)).(counts := c.counts[n := c.counts[n] + 1])
    case FRelease(n, back) =>
      At(c, th, match back case None => Idle case Some(x) => FGWait(x)).(locks := c.locks[n := None])
    case FGWait(x) => At(c, th, FGPush(x)).(glock := Some(th))
    case FGPush(x) => At(PushGlobal(c, x), th, FGRelease)
    case FGRelease => At(c, th, Idle).(glock := None)
    case PWait(n) => At(c, th, PTake(n)).(locks := c.locks[n := Some(th)])
    case PTake(n) => At(c, th, PCount(n, c.tops[n])).(tops := c.tops[n := None])
    case PCount(n, h) => At(c, th, PRelease(n, h)).(counts := c.counts[n := 0])
    case PRelease(n, h) => At(c, th, PNext(n, h)).(locks := c.locks[n := None])
    case PNext(n, h) =>
      At(c, th, match h
                case None => if n + 1 < NODES then PWait(n + 1) else Idle
                case Some(x) => PGWait(n, x, NextOf(c.next, x)))
    case PGWait(n, x, after) => At(c, th, PGPush(n, x, after)).(glock := Some(th))
    case PGPush(n, x, after) => At(PushGlobal(c, x), th, PGRelease(n, after))
    case PGRelease(n, after) => At(c, th, PNext(n, after)).(glock := None)
  }

  ghost function Apply(c: Vm, a: Action): Vm
    requires Guard(c, a)
  {
    match a
    case CallAlloc(th, n) => At(c, th, AWait(n))
    case CallFree(th, x) =>
      if x !in c.magic then c
      else At(c, th, FWait(NodeOf(c, x), x)).(clients := c.clients - {x})
    case CallPurge(th) => At(c, th, PWait(0))
    case Mapped(th, q) => At(c, th, EWait(PcOf(c, th).n, q)).(mapped := c.mapped + (set x | x in q))
    case MapFails(th) => At(c, th, GWait(PcOf(c, th).n, true))
    case Go(th) => GoStep(c, th)
  }
}
