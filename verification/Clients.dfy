/** What clients can rely on in every run of the machine: addresses that resolve, sizes that suffice, blocks that share
    no byte, and contents that only their client changes. */
module Clients {
  import opened Common
  import opened ThreadHeap
  import opened Bytes
  import opened Machine
  import opened MachineRuns
  import I = Interleaving
  import P = ProtocolRuns
  import B = BlockBytes
  import R = Router
  import V = Vmm
  import Radix
  import Routing
  import Extents
  import Sizes
  import Bits

  // ---- Addresses ----------------------------------------------------------------------------

  /** After any run the index maps exactly the chunks of live slabs and spans, each to itself, and every 2 MB block of
      each live direct mapping to the mapping's header. */
  lemma IndexIsExact(m: Machine, k: nat, h: nat)
    requires Reachable(m)
    ensures R.Look(m.index, k) == Some(h) <==> (k == h && h in m.sys.owner) || InMapping(m, h, k)
  {
    EveryRun(m);
    LookAt(m, k, h);
  }

  lemma KeyOf(x: nat)
    requires x / CHUNK < Radix.KEYS
    ensures Radix.Key(x) == x / CHUNK
  {
    Radix.KeyIs(x);
  }

  /** Bytes of a place lie in blocks of its header. */
  lemma PlaceBlocks(m: Machine, p: Place, x: nat)
    requires Inv(m) && InPlace(m, p, x)
    ensures match p
            case HeapBlock(b) => x / CHUNK == b.chunk && b.chunk in m.sys.owner
            case Mapping(h) => InMapping(m, h, x / CHUNK)
    ensures 1 <= x / CHUNK < Radix.KEYS
  {
    match p
    case HeapBlock(b) =>
      B.BlockByte(m.sys, b, x);
      OwnedMapped(m, b.chunk);
    case Mapping(h) =>
      assert MappingOk(m, h);
      PayloadBlock(m, h, x);
  }

  lemma SizePositive(m: Machine, p: Place)
    requires Inv(m) && Held(m, p)
    ensures Size(m, p) >= 1
  {
    match p
    case HeapBlock(b) => B.BlockInside(m.sys, b);
    case Mapping(h) => assert MappingOk(m, h);
  }

  /** The address of a place leads through the index to its own header, even when the payload of a mapping starts
      past its first 2 MB. */
  lemma AddressResolves(m: Machine, p: Place)
    requires Inv(m) && Held(m, p)
    ensures From(m, p) != 0 && R.Look(m.index, Radix.Key(From(m, p))) == Some(Header(p))
  {
    SizePositive(m, p);
    PlaceBlocks(m, p, From(m, p));
    KeyOf(From(m, p));
    LookAt(m, From(m, p) / CHUNK, Header(p));
  }

  /** The page of a span address. */
  lemma PageOf(chunk: nat, slot: nat)
    ensures (chunk * CHUNK + slot * PAGE - chunk * CHUNK) / PAGE == slot
  {
    Bits.ModUnique(slot * PAGE, PAGE, slot, 0);
  }

  lemma EngineSizeIsLen(h: Heap, b: Block)
    requires HeapInv(h) && Out(h, b)
    ensures EngineSize(h, b.chunk, Extents.Begin(h, b)) == Extents.Len(h, b)
  {
    if h.kinds[b.chunk].SpanChunk? { PageOf(b.chunk, b.slot); }
  }

  /** In every run, what lz_malloc_usable_size finds for the address of a place is the size of the place. */
  lemma UsableIsSize(m: Machine, p: Place)
    requires Reachable(m) && Held(m, p)
    ensures R.Look(m.index, Radix.Key(From(m, p))) == Some(Header(p))
    ensures UsableAt(m, From(m, p)) == Size(m, p)
  {
    EveryRun(m);
    AddressResolves(m, p);
    match p
    case HeapBlock(b) =>
      B.OutIn(m.sys, b);
      NotDirect(m, b.chunk);
      EngineSizeIsLen(B.HeapOf(m.sys, b), b);
    case Mapping(h) => assert MappingOk(m, h);
  }

  /** An address outside every chunk of a heap and every direct mapping has no usable size. */
  lemma UsableNowhere(m: Machine, x: nat)
    requires Reachable(m) && x / CHUNK < Radix.KEYS
    requires x == 0 || (x / CHUNK !in m.sys.owner && forall h: nat :: !InMapping(m, h, x / CHUNK))
    ensures UsableAt(m, x) == 0
  {
    KeyOf(x);
    if x != 0 && R.Look(m.index, x / CHUNK).Some? { IndexIsExact(m, x / CHUNK, R.Look(m.index, x / CHUNK).value); }
  }

  lemma NotDirect(m: Machine, k: nat)
    requires Inv(m) && k in m.sys.owner
    ensures k !in m.direct
  {
    OwnedMapped(m, k);
    if k in m.direct {
      assert MappingOk(m, k);
      BlocksOf(m.direct[k]);
    }
    assert !InMapping(m, k, k);
  }

  /** In every run no byte belongs to two places. */
  lemma PlacesApart(m: Machine, p: Place, q: Place, x: nat)
    requires Reachable(m) && InPlace(m, p, x) && InPlace(m, q, x)
    ensures p == q
  {
    EveryRun(m);
    PlaceBlocks(m, p, x);
    PlaceBlocks(m, q, x);
    if p.HeapBlock? && q.HeapBlock? { B.BlocksApart(m.sys, p.b, q.b, x); }
    if p.HeapBlock? { OwnedMapped(m, p.b.chunk); }
    if q.HeapBlock? { OwnedMapped(m, q.b.chunk); }
  }

  // ---- Places stay where they are --------------------------------------------------------------

  /** Through any event a place that stays held keeps its address and its size. */
  lemma PlaceKept(m: Machine, e: Event, p: Place)
    requires Inv(m) && Guard(m, e) && Fine(m, e) && Held(m, p) && Held(Apply(m, e), p)
    ensures From(Apply(m, e), p) == From(m, p) && Size(Apply(m, e), p) == Size(m, p)
  {
    match p
    case HeapBlock(b) =>
      if e.Step? { StepParts(m, e); B.ExtentKept(m.sys, e.a, b); } else { SameSys(m, e); }
    case Mapping(h) =>
      DirectAfter(m, e);
      if e.MapDirect? { NewMapping(m, e.base, Payload(e.offset, e.size)); }
  }

  lemma SameSys(m: Machine, e: Event)
    requires Guard(m, e) && Fine(m, e) && !e.Step?
    ensures Apply(m, e).sys == m.sys
  {}

  ghost predicate HeldThrough(m: Machine, es: seq<Event>, p: Place)
    decreases |es|
  {
    Held(m, p) && (es != [] && Next(m, es[0]).Some? ==> HeldThrough(Next(m, es[0]).value, es[1..], p))
  }

  lemma {:induction false} RunKeepsPlace(m: Machine, es: seq<Event>, m': Machine, p: Place)
    requires Inv(m) && Exec(m, es) == Some(m') && HeldThrough(m, es, p)
    ensures Inv(m') && Held(m', p) && From(m', p) == From(m, p) && Size(m', p) == Size(m, p)
    decreases |es|
  {
    if es != [] {
      NextInv(m, es[0]);
      PlaceKept(m, es[0], p);
      RunKeepsPlace(Next(m, es[0]).value, es[1..], m', p);
    }
  }

  lemma ReachableRun(m: Machine, es: seq<Event>, m': Machine)
    requires Reachable(m) && Exec(m, es) == Some(m')
    ensures Reachable(m')
  {
    var past :| Exec(Boot(), past) == Some(m);
    FoldMore((x, e) => Next(x, e), Boot(), past, m, es);
    assert Exec(Boot(), past + es) == Some(m');
  }

  lemma ReachableEvent(m: Machine, e: Event)
    requires Reachable(m) && Guard(m, e) && Fine(m, e)
    ensures Reachable(Apply(m, e))
  {
    FoldOne((x, a) => Next(x, a), m, e);
    assert Exec(m, [e]) == Some(Apply(m, e));
    ReachableRun(m, [e], Apply(m, e));
  }

  // ---- Answers -------------------------------------------------------------------------------------

  /** The event answers a request on route `r` with place `p`. */
  ghost predicate Answers(m: Machine, e: Event, r: Routing.Route, p: Place)
    requires Guard(m, e) && Fine(m, e)
  {
    match e
    case Step(a, _) => p.HeapBlock? && B.Handed(m.sys, a) == Some(p.b) && r == RouteOf(m.sys, a)
    case MapDirect(base, offset, size) =>
      p == Mapping(base) && r == Routing.ToDirect(offset, Total(Payload(offset, size)), size)
    case _ => false
  }

  /** The request that an allocation step serves. */
  function RouteOf(c: I.Sys, a: I.Action): Routing.Route {
    match a
    case AllocFast(_, sc) => Routing.ToSlab(sc)
    case ReapDone(t, _) =>
      if t in c.tlhs && c.tlhs[t].pc.Reaping? && c.tlhs[t].pc.sc.Some? then Routing.ToSlab(c.tlhs[t].pc.sc.value)
      else Routing.Refused
    case AllocPages(_, n, _) => Routing.ToSpan(n)
    case _ => Routing.Refused
  }

  /** The slot number that the route's address formula uses. */
  function SlotOf(p: Place): nat {
    if p.HeapBlock? then p.b.slot else 0
  }

  lemma HandedRoute(c: I.Sys, a: I.Action)
    requires P.Reachable(c) && I.Guard(c, a) && I.Safe(c, a) && B.Handed(c, a).Some?
    ensures var b := B.Handed(c, a).value;
            && b.chunk in B.NewHeap(c, a).kinds
            && Extents.Len(B.NewHeap(c, a), b) == Routing.Usable(RouteOf(c, a))
            && Extents.Begin(B.NewHeap(c, a), b) == Routing.Address(RouteOf(c, a), b.chunk, b.slot)
  {
    B.HandedLen(c, a);
    B.HandedKind(c, a);
    if a.ReapDone? {
      var s := P.EveryRun(c);
      B.ReapClass(c, s, a.t);
    }
  }

  /** What an event answers was nobody's, is now with its client, and has the address and the size of its route. */
  lemma AnswerSize(m: Machine, e: Event, r: Routing.Route, p: Place)
    requires Reachable(m) && Guard(m, e) && Fine(m, e) && Answers(m, e, r, p)
    ensures !Held(m, p) && Held(Apply(m, e), p) && Live(Apply(m, e), p)
    ensures Size(Apply(m, e), p) == Routing.Usable(r)
    ensures From(Apply(m, e), p) == Routing.Address(r, Header(p), SlotOf(p))
  {
    EveryRun(m);
    if e.Step? {
      StepParts(m, e);
      B.HandedIsLive(m.sys, e.a);
      HandedRoute(m.sys, e.a);
    } else {
      NewMapping(m, e.base, Payload(e.offset, e.size));
      DirectAfter(m, e);
    }
  }

  /** lz_malloc_usable_size(lz_malloc(n)) >= n on all three routes: the address resolves to its own header, and the
      size read there is at least the request. */
  lemma MallocServes(m: Machine, e: Event, n: nat, p: Place)
    requires Reachable(m) && Guard(m, e) && Fine(m, e) && Answers(m, e, Routing.MallocRoute(n), p)
    requires 1 <= n && 128 + n + (CHUNK - 1) < WORD
    ensures Held(Apply(m, e), p)
    ensures var (m', x) := (Apply(m, e), From(Apply(m, e), p));
            R.Look(m'.index, Radix.Key(x)) == Some(Header(p)) && UsableAt(m', x) >= n
  {
    AnswerSize(m, e, Routing.MallocRoute(n), p);
    ReachableEvent(m, e);
    UsableIsSize(Apply(m, e), p);
    Routing.MallocUsable(n);
  }

  /** The same for lz_memalign, with the alignment asked for. */
  lemma MemalignServes(m: Machine, e: Event, a: nat, n: nat, p: Place)
    requires Reachable(m) && Guard(m, e) && Fine(m, e) && Answers(m, e, Routing.MemalignRoute(a, n), p)
    requires Bits.PowerOfTwoTest(a) && a <= CHUNK && 1 <= n && CHUNK + n + (CHUNK - 1) < WORD
    ensures Held(Apply(m, e), p)
    ensures var (m', x) := (Apply(m, e), From(Apply(m, e), p));
            R.Look(m'.index, Radix.Key(x)) == Some(Header(p)) && UsableAt(m', x) >= n && x % a == 0
  {
    AnswerSize(m, e, Routing.MemalignRoute(a, n), p);
    ReachableEvent(m, e);
    UsableIsSize(Apply(m, e), p);
    Routing.MemalignUsable(a, n);
    Routing.MemalignAligned(a, n, Header(p), SlotOf(p));
  }

  /** And it stays so, whatever anybody does, until the block is taken back or the mapping unmapped. */
  lemma StaysUsable(m: Machine, es: seq<Event>, m': Machine, p: Place)
    requires Reachable(m) && Exec(m, es) == Some(m') && HeldThrough(m, es, p)
    ensures Held(m', p) && From(m', p) == From(m, p)
    ensures R.Look(m'.index, Radix.Key(From(m, p))) == Some(Header(p)) && UsableAt(m', From(m, p)) == UsableAt(m, From(m, p))
  {
    EveryRun(m);
    RunKeepsPlace(m, es, m', p);
    ReachableRun(m, es, m');
    UsableIsSize(m, p);
    UsableIsSize(m', p);
  }
}
