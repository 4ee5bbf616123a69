/** The calls a program makes (src/hooks/lzmalloc.c:187-297), each by its effect on the machine.  A call is its own
    events; between them other threads and clients may do anything. */
module Calls {
  import opened Common
  import opened Bytes
  import opened Machine
  import opened MachineRuns
  import opened Clients
  import opened Contents
  import I = Interleaving
  import P = ProtocolRuns
  import PC = ProtocolCalls
  import B = BlockBytes
  import R = Router
  import H = Heaps
  import T = ThreadHeap
  import Radix
  import Routing
  import Sizes

  // ---- What others hold -----------------------------------------------------------------------

  /** The place is with its client before and after, at the same address, with the same size and the same bytes. */
  ghost predicate Kept(m: Machine, m': Machine, o: Place) {
    && Live(m, o) && Live(m', o) && Held(m, o) && Held(m', o)
    && From(m', o) == From(m, o) && Size(m', o) == Size(m, o)
    && Same(m.bytes, From(m, o), m'.bytes, From(m, o), Size(m, o))
  }

  lemma KeptOn(m: Machine, m1: Machine, m': Machine, o: Place)
    requires Kept(m, m1, o) && Kept(m1, m', o)
    ensures Kept(m, m', o)
  {
    SameTrans(m.bytes, From(m, o), m1.bytes, From(m, o), m'.bytes, From(m, o), Size(m, o));
  }

  lemma KeptByRun(m: Machine, es: seq<Event>, m': Machine, o: Place)
    requires Reachable(m) && Exec(m, es) == Some(m') && Undisturbed(m, es, o)
    ensures Kept(m, m', o) && Reachable(m')
  {
    EveryRun(m);
    RunKeepsBytes(m, es, m', o);
    ReachableRun(m, es, m');
  }

  // ---- lz_malloc ---------------------------------------------------------------------------

  /** How the engine that serves a request answers: a place, nothing, or no mapping from the system. */
  datatype Malloc = Got(e: Event, q: Place) | Empty(e: Event) | NoMap

  /** lz_malloc(n) takes its answer in state `m`; `x` is what it returns. */
  ghost predicate MallocCall(m: Machine, n: nat, c: Malloc, m': Machine, x: nat) {
    match c
    case Got(e, q) =>
      && Guard(m, e) && Fine(m, e) && Answers(m, e, Routing.MallocRoute(n), q)
      && m' == Apply(m, e) && Held(m', q) && x == From(m', q)
    case Empty(e) =>
      && Guard(m, e) && Fine(m, e) && e.Step? && B.Handed(m.sys, e.a).None?
      && RouteOf(m.sys, e.a) == Routing.MallocRoute(n) && m' == Apply(m, e) && x == 0
    case NoMap => Routing.MallocRoute(n).ToDirect? && m' == m && x == 0
  }

  /** The bytes a request stands for. */
  function AtLeastOne(n: nat): nat {
    if n == 0 then 1 else n
  }

  /** The place that serves a request of `n` bytes: new, with the client, found by its address, and large enough but
      not much larger. */
  ghost predicate Serves(m: Machine, m': Machine, n: nat, q: Place, x: nat) {
    && !Held(m, q) && Live(m', q) && Held(m', q) && x == From(m', q) && x != 0
    && R.Look(m'.index, Radix.Key(x)) == Some(Header(q))
    && UsableAt(m', x) >= AtLeastOne(n) && Routing.Frugal(AtLeastOne(n), UsableAt(m', x))
  }

  /** lz_malloc answers a place that serves the request, or NULL; in the latter case nothing was there to give. */
  lemma MallocOutcome(m: Machine, n: nat, c: Malloc, m': Machine, x: nat)
    requires Reachable(m) && MallocCall(m, n, c, m', x) && 128 + n + (CHUNK - 1) < WORD
    ensures Reachable(m') && (x == 0 <==> !c.Got?)
    ensures c.Got? ==> Serves(m, m', n, c.q, x)
    ensures c.Empty? ==> NothingLeft(m, c.e)
  {
    EveryRun(m);
    if c.Got? {
      ReachableEvent(m, c.e);
      GotServes(m, n, c.e, c.q);
    } else if c.Empty? {
      ReachableEvent(m, c.e);
      EmptyMeans(m, c.e, n);
    }
  }

  lemma GotServes(m: Machine, n: nat, e: Event, q: Place)
    requires Reachable(m) && Guard(m, e) && Fine(m, e) && Answers(m, e, Routing.MallocRoute(n), q)
    requires 128 + n + (CHUNK - 1) < WORD && Held(Apply(m, e), q)
    ensures Serves(m, Apply(m, e), n, q, From(Apply(m, e), q))
  {
    var k := AtLeastOne(n);
    assert Routing.MallocRoute(k) == Routing.MallocRoute(n);
    EveryRun(m);
    AnswerSize(m, e, Routing.MallocRoute(k), q);
    Routing.MallocUsable(k);
    ReachableEvent(m, e);
    UsableIsSize(Apply(m, e), q);
    EveryRun(Apply(m, e));
    AddressResolves(Apply(m, e), q);
  }

  /** The VMM gave no chunk, and every slab of the class is full or no active span has a run. */
  ghost predicate NothingLeft(m: Machine, e: Event) {
    && e.Step? && B.SpareOf(e.a).None?
    && match e.a
       case ReapDone(t, _) =>
         t in m.sys.tlhs && m.sys.tlhs[t].pc.Reaping? && m.sys.tlhs[t].pc.sc.Some?
         && m.sys.tlhs[t].pc.sc.value < |m.sys.tlhs[t].heap.bins|
         && H.AllFull(m.sys.tlhs[t].heap.bins[m.sys.tlhs[t].pc.sc.value])
       case AllocPages(t, n, _) => t in m.sys.tlhs && PC.NoRun(m.sys.tlhs[t].heap, n)
       case _ => false
  }

  lemma EmptyMeans(m: Machine, e: Event, n: nat)
    requires Reachable(m) && Inv(m) && Guard(m, e) && Fine(m, e) && e.Step? && B.Handed(m.sys, e.a).None?
    requires RouteOf(m.sys, e.a) == Routing.MallocRoute(n) && 128 + n + (CHUNK - 1) < WORD
    ensures NothingLeft(m, e)
  {
    assert Routing.MallocRoute(AtLeastOne(n)) == Routing.MallocRoute(n);
    Routing.MallocUsable(AtLeastOne(n));
    SysEmpty(m.sys, e.a);
  }

  lemma SysEmpty(c: I.Sys, a: I.Action)
    requires P.Reachable(c) && I.Guard(c, a) && I.Safe(c, a) && B.Handed(c, a).None?
    requires RouteOf(c, a).ToSlab? || (RouteOf(c, a).ToSpan? && RouteOf(c, a).pages < SPAN_PAGES)
    ensures B.SpareOf(a).None?
    ensures a.ReapDone? || a.AllocPages?
    ensures a.ReapDone? ==>
              c.tlhs[a.t].pc.sc.Some? && c.tlhs[a.t].pc.sc.value < |c.tlhs[a.t].heap.bins|
              && H.AllFull(c.tlhs[a.t].heap.bins[c.tlhs[a.t].pc.sc.value])
    ensures a.AllocPages? ==> PC.NoRun(c.tlhs[a.t].heap, a.pages)
  {
    if a.ReapDone? {
      PC.SlabAnswers(c, a.t, c.tlhs[a.t].pc.sc.value, a.spare);
    } else if a.AllocPages? {
      PC.PagesAnswers(c, a.t, a.pages, a.spare);
    }
  }

  /** What was live stays so through a malloc, and the malloc is no client's write. */
  lemma MallocKeepsLive(m: Machine, n: nat, c: Malloc, m': Machine, x: nat, o: Place)
    requires Reachable(m) && MallocCall(m, n, c, m', x) && Live(m, o)
    ensures Kept(m, m', o)
  {
    EveryRun(m);
    LiveIsHeld(m, o);
    if !c.NoMap? {
      AllocEventLive(m, c.e, o);
      EventKeepsPlace(m, c.e, o);
    }
  }

  lemma AllocEventLive(m: Machine, e: Event, o: Place)
    requires Guard(m, e) && Fine(m, e) && Live(m, o)
    requires (e.Step? && (e.a.AllocFast? || e.a.ReapDone? || e.a.AllocPages?)) || e.MapDirect?
    ensures Live(Apply(m, e), o) && !ClientWrites(e, o)
  {}

  // ---- The call can be made ---------------------------------------------------------------------

  predicate Reaping(a: I.Action) {
    a.DrainMailbox? || a.ReapNode?
  }

  lemma ReapEvent(m: Machine, a: I.Action)
    requires I.Guard(m.sys, a) && I.Safe(m.sys, a) && Reaping(a)
    ensures Guard(m, Step(a, map[])) && Fine(m, Step(a, map[])) && Apply(m, Step(a, map[])).sys == I.Apply(m.sys, a)
    ensures forall k :: k in m.held && k !in m.sys.owner ==>
              k in Apply(m, Step(a, map[])).held && k !in I.Apply(m.sys, a).owner
  {}

  /** Steps of a drain and a reap pass, as events of the machine; chunks on their way stay there. */
  lemma {:induction false} ReapRun(m: Machine, acts: seq<I.Action>, c': I.Sys) returns (es: seq<Event>, m': Machine)
    requires P.Exec(m.sys, acts) == Some(c') && forall a :: a in acts ==> Reaping(a)
    ensures Exec(m, es) == Some(m') && m'.sys == c'
    ensures forall k :: k in m.held && k !in m.sys.owner ==> k in m'.held && k !in m'.sys.owner
    decreases |acts|
  {
    if acts == [] {
      es, m' := [], m;
    } else {
      var e := Step(acts[0], map[]);
      ReapEvent(m, acts[0]);
      var rest;
      rest, m' := ReapRun(Apply(m, e), acts[1..], c');
      es := [e] + rest;
      ExecFirst(m, e, rest);
    }
  }

  lemma ExecFirst(m: Machine, e: Event, rest: seq<Event>)
    requires Guard(m, e) && Fine(m, e)
    ensures Exec(m, [e] + rest) == Exec(Apply(m, e), rest)
  {
    FoldOne((x, a) => Next(x, a), m, e);
    FoldMore((x, a) => Next(x, a), m, [e], Apply(m, e), rest);
  }

  /** The last event of an allocation from a heap, with what it answers. */
  lemma HeapAnswer(m: Machine, n: nat, a: I.Action) returns (c: Malloc, m': Machine, x: nat)
    requires Reachable(m) && (a.AllocFast? || a.ReapDone? || a.AllocPages?) && I.Guard(m.sys, a)
    requires B.SpareOf(a).Some? ==> B.SpareOf(a).value in m.held
    requires RouteOf(m.sys, a) == Routing.MallocRoute(n)
    ensures I.Safe(m.sys, a) && MallocCall(m, n, c, m', x) && (c.Got? <==> B.Handed(m.sys, a).Some?)
  {
    var e := Step(a, map[]);
    EveryRun(m);
    P.NeverWrong(m.sys, a);
    AllocEvent(m, a);
    m' := Apply(m, e);
    if B.Handed(m.sys, a).Some? {
      var q := HeapBlock(B.Handed(m.sys, a).value);
      c := Got(e, q);
      AnswerSize(m, e, Routing.MallocRoute(n), q);
      x := From(m', q);
    } else {
      c, x := Empty(e), 0;
    }
  }

  lemma AllocEvent(m: Machine, a: I.Action)
    requires (a.AllocFast? || a.ReapDone? || a.AllocPages?) && I.Guard(m.sys, a) && I.Safe(m.sys, a)
    requires B.SpareOf(a).Some? ==> B.SpareOf(a).value in m.held
    ensures Guard(m, Step(a, map[])) && Fine(m, Step(a, map[]))
  {}

  /** In every run an idle thread can complete a malloc of up to 1 MB on its own, and it succeeds if the cache gave a
      chunk. */
  lemma MallocPossible(m: Machine, t: nat, n: nat, spare: Option<nat>)
    returns (es: seq<Event>, m1: Machine, c: Malloc, m': Machine, x: nat)
    requires Reachable(m) && t in m.sys.tlhs && m.sys.tlhs[t].pc.Idle? && n <= MAX_SPAN_OBJ
    requires spare.Some? ==> spare.value in m.held
    ensures Exec(m, es) == Some(m1) && MallocCall(m1, n, c, m', x) && (spare.Some? ==> c.Got?)
  {
    assert Routing.MallocRoute(AtLeastOne(n)) == Routing.MallocRoute(n);
    Routing.MallocUsable(AtLeastOne(n));
    if AtLeastOne(n) <= MAX_SLAB_OBJ {
      es, m1, c, m', x := SlabPossible(m, t, n, Routing.MallocRoute(n).class_, spare);
    } else {
      es, m1 := [], m;
      c, m', x := SpanPossible(m, t, n, Routing.MallocRoute(n).pages, spare);
    }
  }

  lemma SlabPossible(m: Machine, t: nat, n: nat, sc: nat, spare: Option<nat>)
    returns (es: seq<Event>, m1: Machine, c: Malloc, m': Machine, x: nat)
    requires Reachable(m) && t in m.sys.tlhs && m.sys.tlhs[t].pc.Idle? && Routing.MallocRoute(n) == Routing.ToSlab(sc) && sc < 40
    requires spare.Some? ==> spare.value in m.held
    ensures Exec(m, es) == Some(m1) && MallocCall(m1, n, c, m', x) && (spare.Some? ==> c.Got?)
  {
    EveryRun(m);
    PC.AllocCanStart(m.sys, t, sc);
    if I.Guard(m.sys, I.AllocFast(t, sc)) {
      es, m1 := [], m;
      c, m', x := HeapAnswer(m, n, I.AllocFast(t, sc));
    } else {
      es, m1 := DrainRun(m, t, sc);
      ReachableRun(m, es, m1);
      c, m', x := SlabEnds(m1, t, n, sc, spare);
    }
  }

  lemma SlabEnds(m: Machine, t: nat, n: nat, sc: nat, spare: Option<nat>) returns (c: Malloc, m': Machine, x: nat)
    requires Reachable(m) && t in m.sys.tlhs && m.sys.tlhs[t].pc == I.Reaping(None, Some(sc))
    requires Routing.MallocRoute(n) == Routing.ToSlab(sc) && (spare.Some? ==> spare.value in m.held && spare.value !in m.sys.owner)
    ensures MallocCall(m, n, c, m', x) && (spare.Some? ==> c.Got?)
  {
    EveryRun(m);
    c, m', x := HeapAnswer(m, n, I.ReapDone(t, spare));
    SlabSucceeds(m.sys, t, sc, spare);
  }

  lemma SpanPossible(m: Machine, t: nat, n: nat, pages: nat, spare: Option<nat>) returns (c: Malloc, m': Machine, x: nat)
    requires Reachable(m) && t in m.sys.tlhs && m.sys.tlhs[t].pc.Idle?
    requires Routing.MallocRoute(n) == Routing.ToSpan(pages) && 1 <= pages < SPAN_PAGES && (spare.Some? ==> spare.value in m.held)
    ensures MallocCall(m, n, c, m', x) && (spare.Some? ==> c.Got?)
  {
    EveryRun(m);
    c, m', x := HeapAnswer(m, n, I.AllocPages(t, pages, spare));
    PagesSucceed(m.sys, t, pages, spare);
  }

  lemma SlabSucceeds(c: I.Sys, t: nat, sc: nat, spare: Option<nat>)
    requires P.Reachable(c) && I.Guard(c, I.ReapDone(t, spare)) && I.Safe(c, I.ReapDone(t, spare)) && c.tlhs[t].pc.sc == Some(sc)
    ensures spare.Some? ==> B.Handed(c, I.ReapDone(t, spare)).Some?
  {
    PC.SlabAnswers(c, t, sc, spare);
  }

  lemma PagesSucceed(c: I.Sys, t: nat, n: nat, spare: Option<nat>)
    requires P.Reachable(c) && I.Guard(c, I.AllocPages(t, n, spare)) && n < SPAN_PAGES
    ensures spare.Some? ==> B.Handed(c, I.AllocPages(t, n, spare)).Some?
  {
    PC.PagesAnswers(c, t, n, spare);
  }

  /** The drain and the reap pass in front of a slab allocation. */
  lemma DrainRun(m: Machine, t: nat, sc: nat) returns (es: seq<Event>, m1: Machine)
    requires Reachable(m) && Inv(m) && I.Guard(m.sys, I.DrainMailbox(t, Some(sc)))
    ensures Exec(m, es) == Some(m1) && t in m1.sys.tlhs && m1.sys.tlhs[t].pc.Reaping?
    ensures m1.sys.tlhs[t].pc.cursor.None? && m1.sys.tlhs[t].pc.sc == Some(sc)
    ensures forall k :: k in m.held ==> k in m1.held && k !in m1.sys.owner
  {
    var a := I.DrainMailbox(t, Some(sc));
    var mail := P.DrainTakesAll(m.sys, t, Some(sc));
    P.ReachableStep(m.sys, a);
    var c2 := PC.ReapCall(I.Apply(m.sys, a), t, mail);
    PC.ExecOne(m.sys, a);
    PC.ExecJoin(m.sys, [a], I.Apply(m.sys, a), PC.Reaps(t, |mail|));
    es, m1 := ReapRun(m, [a] + PC.Reaps(t, |mail|), c2);
  }

  /** A direct malloc succeeds whenever the system has unmapped memory for it in the 48-bit range. */
  lemma DirectPossible(m: Machine, n: nat, base: nat) returns (m': Machine, x: nat)
    requires Reachable(m) && n > MAX_SPAN_OBJ && 128 + n + (CHUNK - 1) < WORD
    requires base >= 1 && base + Total(Payload(128, n)) / CHUNK <= Radix.KEYS
    requires forall k: nat :: base <= k < base + Total(Payload(128, n)) / CHUNK ==> Unmapped(m, k)
    ensures MallocCall(m, n, Got(MapDirect(base, 128, n), Mapping(base)), m', x) && x == base * CHUNK + 128
  {
    EveryRun(m);
    m' := Apply(m, MapDirect(base, 128, n));
    AnswerSize(m, MapDirect(base, 128, n), Routing.MallocRoute(n), Mapping(base));
    x := From(m', Mapping(base));
  }

  // ---- lz_free --------------------------------------------------------------------------------

  /** The event is what lz_free(x) does: through the index to the header, and there the unmapping of a direct
      mapping, or the free of the block at that address. */
  ghost predicate FreesAt(m: Machine, e: Event, x: nat) {
    && Guard(m, e) && Fine(m, e)
    && match R.Look(m.index, Radix.Key(x))
       case None => false
       case Some(h) =>
         if h in m.direct then e == Unmap(h)
         else
           && e.Step? && (e.a.FreeLocal? || e.a.FreeRemote?)
           && e.a.b.chunk == h && Held(m, HeapBlock(e.a.b)) && From(m, HeapBlock(e.a.b)) == x
  }

  /** lz_free(x): nothing for NULL and for addresses that lead to no header. */
  ghost predicate FreeCall(m: Machine, x: nat, e: Option<Event>, m': Machine) {
    if x == 0 || R.Look(m.index, Radix.Key(x)).None? then e.None? && m' == m
    else e.Some? && FreesAt(m, e.value, x) && m' == Apply(m, e.value)
  }

  lemma SameAddress(m: Machine, p: Place, q: Place)
    requires Reachable(m) && Held(m, p) && Held(m, q) && From(m, p) == From(m, q)
    ensures p == q
  {
    EveryRun(m);
    SizePositive(m, p);
    SizePositive(m, q);
    PlacesApart(m, p, q, From(m, p));
  }

  /** The event frees exactly the place at that address. */
  lemma FreesThat(m: Machine, e: Event, p: Place)
    requires Reachable(m) && Held(m, p) && FreesAt(m, e, From(m, p))
    ensures p.Mapping? ==> e == Unmap(p.h)
    ensures p.HeapBlock? ==> e.Step? && (e.a.FreeLocal? || e.a.FreeRemote?) && e.a.b == p.b
  {
    EveryRun(m);
    AddressResolves(m, p);
    if p.HeapBlock? {
      B.OutIn(m.sys, p.b);
      NotDirect(m, p.b.chunk);
      SameAddress(m, p, HeapBlock(e.a.b));
    }
  }

  /** A client's free ends its hold on exactly that place: NULL is ignored, the place is no longer live, a mapping
      is gone altogether, and what others hold stays as it was. */
  lemma FreeOutcome(m: Machine, p: Place, e: Option<Event>, m': Machine)
    requires Reachable(m) && Live(m, p) && Held(m, p) && FreeCall(m, From(m, p), e, m')
    ensures e.Some? && Reachable(m') && !Live(m', p) && (p.Mapping? ==> !Held(m', p))
  {
    EveryRun(m);
    AddressResolves(m, p);
    FreesThat(m, e.value, p);
    ReachableEvent(m, e.value);
    FreedPlace(m, e.value, p);
  }

  lemma FreedPlace(m: Machine, e: Event, p: Place)
    requires Guard(m, e) && Fine(m, e)
    requires p.Mapping? ==> e == Unmap(p.h)
    requires p.HeapBlock? ==> e.Step? && (e.a.FreeLocal? || e.a.FreeRemote?) && e.a.b == p.b
    ensures !Live(Apply(m, e), p) && (p.Mapping? ==> !Held(Apply(m, e), p))
  {}

  lemma FreeKeepsOthers(m: Machine, p: Place, e: Option<Event>, m': Machine, o: Place)
    requires Reachable(m) && Live(m, p) && Held(m, p) && FreeCall(m, From(m, p), e, m') && Live(m, o) && o != p
    ensures Kept(m, m', o)
  {
    EveryRun(m);
    AddressResolves(m, p);
    FreesThat(m, e.value, p);
    OthersStayLive(m, e.value, p, o);
    EventKeepsPlace(m, e.value, o);
  }

  lemma OthersStayLive(m: Machine, e: Event, p: Place, o: Place)
    requires Guard(m, e) && Fine(m, e) && Live(m, o) && o != p
    requires p.Mapping? ==> e == Unmap(p.h)
    requires p.HeapBlock? ==> e.Step? && (e.a.FreeLocal? || e.a.FreeRemote?) && e.a.b == p.b
    ensures Live(Apply(m, e), o) && !ClientWrites(e, o)
  {}

  lemma NullIsIgnored(m: Machine, e: Option<Event>, m': Machine)
    requires FreeCall(m, 0, e, m')
    ensures e.None? && m' == m
  {}

  /** Any idle thread can make the call: no state of the machine keeps a client from freeing what it holds. */
  lemma FreePossible(m: Machine, t: nat, p: Place) returns (e: Event)
    requires Reachable(m) && Live(m, p) && Held(m, p) && t in m.sys.tlhs && m.sys.tlhs[t].pc.Idle?
    ensures FreesAt(m, e, From(m, p))
  {
    EveryRun(m);
    AddressResolves(m, p);
    match p {
      case Mapping(h) => e := Unmap(h);
      case HeapBlock(b) =>
        var a := PC.AnyoneCanFree(m.sys, t, b);
        e := Step(a, map[]);
        NotDirect(m, b.chunk);
        FreeAllowed(m, a, b);
    }
  }

  lemma FreeAllowed(m: Machine, a: I.Action, b: T.Block)
    requires I.Guard(m.sys, a) && I.Safe(m.sys, a) && (a.FreeLocal? || a.FreeRemote?) && a.b == b
    ensures Guard(m, Step(a, map[])) && Fine(m, Step(a, map[]))
  {}

  // ---- lz_calloc ---------------------------------------------------------------------------------

  /** What a calloc did: nothing, an allocation that answered NULL or needed no clearing, or an allocation whose bytes
      `clear` are then written. */
  datatype CallocRun = AtOnce | Plain(c: Malloc) | Cleared(c: Malloc, m1: Machine, clear: Memory)

  /** The part of lz_calloc that follows the overflow test. */
  ghost predicate Fetches(m: Machine, n: nat, run: CallocRun, m': Machine, x: nat) {
    match run
    case AtOnce => false
    case Plain(c) => MallocCall(m, n, c, m', x) && (c.Got? ==> n > MAX_SPAN_OBJ)
    case Cleared(c, m1, clear) =>
      && MallocCall(m, n, c, m1, x) && c.Got? && n <= MAX_SPAN_OBJ
      && Covers(clear, x, n) && AllZero(m1.bytes + clear, x, n) && Next(m1, WriteEvent(c.q, clear)) == Some(m')
  }

  /** lz_calloc(num, size) from the state in which its malloc is answered; `x` is what it returns. */
  ghost predicate CallocCall(m: Machine, num: nat, size: nat, run: CallocRun, m': Machine, x: nat) {
    match CallocRequest(num, size)
    case None => run.AtOnce? && m' == m && x == 0
    case Some(n) => Fetches(m, n, run, m', x)
  }

  function MallocOf(run: CallocRun): Option<Malloc> {
    match run
    case AtOnce => None
    case Plain(c) => Some(c)
    case Cleared(c, _, _) => Some(c)
  }

  /** The answer of a calloc: NULL exactly when malloc's is, else a new place with `n` zero bytes. */
  ghost predicate Zeroes(m: Machine, n: nat, run: CallocRun, m': Machine, x: nat) {
    && MallocOf(run).Some? && (x == 0 <==> !MallocOf(run).value.Got?)
    && (x != 0 ==>
          var q := MallocOf(run).value.q;
          && Live(m', q) && Held(m', q) && x == From(m', q) && !Held(m, q)
          && UsableAt(m', x) >= n && AllZero(m'.bytes, x, n))
  }

  /** lz_calloc returns NULL at once exactly when the product does not fit, NULL when malloc does, and otherwise a new
      place of at least that many bytes, all of them zero. */
  lemma CallocOutcome(m: Machine, num: nat, size: nat, total: nat, run: CallocRun, m': Machine, x: nat)
    requires Reachable(m) && CallocCall(m, num, size, run, m', x) && total == num * size
    requires total > SIZE_MAX || 129 + total + (CHUNK - 1) < WORD
    ensures if total > SIZE_MAX then x == 0 && m' == m else Zeroes(m, total, run, m', x)
  {
    var n := CallocTotal(num, size, total);
    if total <= SIZE_MAX {
      FetchOutcome(m, n, run, m', x);
      ZeroPrefix(m'.bytes, x, n, total);
    }
  }

  lemma CallocTotal(num: nat, size: nat, total: nat) returns (n: nat)
    requires total == num * size
    ensures total > SIZE_MAX ==> CallocRequest(num, size).None?
    ensures total <= SIZE_MAX ==> CallocRequest(num, size) == Some(n) && 1 <= n && total <= n <= total + 1
  {
    CallocAsks(num, size);
    n := if num == 0 || size == 0 then 1 else total;
    if total <= SIZE_MAX { RequestCovers(num, size, n); }
  }

  lemma FetchOutcome(m: Machine, n: nat, run: CallocRun, m': Machine, x: nat)
    requires Reachable(m) && Fetches(m, n, run, m', x) && 1 <= n && 128 + n + (CHUNK - 1) < WORD
    ensures Zeroes(m, n, run, m', x)
  {
    if run.Plain? {
      MallocOutcome(m, n, run.c, m', x);
      if run.c.Got? { ZeroAnswer(m, n, run.c.e, run.c.q, m'); }
    } else {
      MallocOutcome(m, n, run.c, run.m1, x);
      ClearedZero(run.m1, run.c.q, run.clear, n, m');
    }
  }

  lemma ClearedZero(m: Machine, q: Place, clear: Memory, n: nat, m': Machine)
    requires Reachable(m) && Live(m, q) && Held(m, q) && n <= UsableAt(m, From(m, q))
    requires Covers(clear, From(m, q), n) && AllZero(m.bytes + clear, From(m, q), n) && Next(m, WriteEvent(q, clear)) == Some(m')
    ensures Live(m', q) && Held(m', q) && From(m', q) == From(m, q) && AllZero(m'.bytes, From(m, q), n)
    ensures UsableAt(m', From(m', q)) == UsableAt(m, From(m, q))
  {
    EveryRun(m);
    UsableIsSize(m, q);
    WriteHappens(m, q, clear, n);
    ClearArrives(m, q, clear, n);
    ReachableStepOn(m, WriteEvent(q, clear), m');
    PlaceKept(m, WriteEvent(q, clear), q);
    UsableIsSize(m', q);
  }

  lemma ZeroPrefix(m: Memory, x: nat, n: nat, k: nat)
    requires k <= n
    ensures AllZero(m, x, n) ==> AllZero(m, x, k)
  {}

  // ---- lz_realloc --------------------------------------------------------------------------------------

  /** What a realloc did after the run `es` of others: nothing, a malloc, a free, or a move: a malloc, the copy, and
      after the run `mid` of others the free. */
  datatype ReallocRun =
    | Still
    | Asking(es: seq<Event>, m1: Machine, c: Malloc)
    | Ending(es: seq<Event>, m1: Machine, f: Option<Event>)
    | Moving(es: seq<Event>, m1: Machine, c: Malloc, m2: Machine, copy: Memory, m3: Machine, mid: seq<Event>, m4: Machine,
             f: Option<Event>)

  ghost predicate Moved(m: Machine, x: nat, n: nat, run: ReallocRun, m': Machine, r: nat)
    requires run.Moving?
  {
    && Exec(m, run.es) == Some(run.m1) && run.c.Got? && MallocCall(run.m1, n, run.c, run.m2, r)
    && Covers(run.copy, r, UsableAt(m, x)) && Same(run.m2.bytes, x, run.m2.bytes + run.copy, r, UsableAt(m, x))
    && Next(run.m2, WriteEvent(run.c.q, run.copy)) == Some(run.m3)
    && Exec(run.m3, run.mid) == Some(run.m4) && FreeCall(run.m4, x, run.f, m')
  }

  /** lz_realloc(x, n); `r` is what it returns. */
  ghost predicate ReallocCall(m: Machine, x: nat, n: nat, run: ReallocRun, m': Machine, r: nat) {
    match ReallocPath(m, x, n)
    case Mallocs => run.Asking? && Exec(m, run.es) == Some(run.m1) && MallocCall(run.m1, n, run.c, m', r)
    case Frees => run.Ending? && Exec(m, run.es) == Some(run.m1) && FreeCall(run.m1, x, run.f, m') && r == 0
    case Fails => run.Still? && m' == m && r == 0
    case Keeps => run.Still? && m' == m && r == x
    case Moves =>
      || (run.Asking? && Exec(m, run.es) == Some(run.m1) && MallocCall(run.m1, n, run.c, m', r) && !run.c.Got?)
      || (run.Moving? && Moved(m, x, n, run, m', r))
  }

  /** The others leave the place alone while the call lasts. */
  ghost predicate LeftAlone(m: Machine, run: ReallocRun, o: Place) {
    match run
    case Still => Live(m, o)
    case Asking(es, _, _) => Undisturbed(m, es, o)
    case Ending(es, _, _) => Undisturbed(m, es, o)
    case Moving(es, _, _, _, _, m3, mid, _, _) => Undisturbed(m, es, o) && Undisturbed(m3, mid, o)
  }

  /** realloc(NULL, n) is malloc(n). */
  lemma ReallocNull(m: Machine, n: nat, run: ReallocRun, m': Machine, r: nat)
    requires Reachable(m) && ReallocCall(m, 0, n, run, m', r) && 128 + n + (CHUNK - 1) < WORD
    ensures run.Asking? && (r == 0 <==> !run.c.Got?)
    ensures run.c.Got? ==> Serves(run.m1, m', n, run.c.q, r)
  {
    ReachableRun(m, run.es, run.m1);
    MallocOutcome(run.m1, n, run.c, m', r);
  }

  /** realloc(p, 0) frees p and returns NULL. */
  lemma ReallocZero(m: Machine, p: Place, run: ReallocRun, m': Machine, r: nat)
    requires Reachable(m) && Live(m, p) && Held(m, p) && ReallocCall(m, From(m, p), 0, run, m', r) && LeftAlone(m, run, p)
    ensures run.Ending? && r == 0 && !Live(m', p)
  {
    EveryRun(m);
    AddressResolves(m, p);
    KeptByRun(m, run.es, run.m1, p);
    FreeOutcome(run.m1, p, run.f, m');
  }

  /** A size that fits changes nothing. */
  lemma ReallocInPlace(m: Machine, p: Place, n: nat, run: ReallocRun, m': Machine, r: nat)
    requires Reachable(m) && Held(m, p) && 1 <= n <= Size(m, p) && ReallocCall(m, From(m, p), n, run, m', r)
    ensures m' == m && r == From(m, p)
  {
    ReallocDecides(m, p, n);
  }

  /** An address that no header covers is refused. */
  lemma ReallocForeign(m: Machine, x: nat, n: nat, run: ReallocRun, m': Machine, r: nat)
    requires x != 0 && n >= 1 && R.Look(m.index, Radix.Key(x)).None? && ReallocCall(m, x, n, run, m', r)
    ensures m' == m && r == 0
  {}

  /** A larger size moves the contents to a new place of at least that size and frees the old one, or, if malloc gives
      nothing, returns NULL and leaves the old place as it was. */
  lemma ReallocGrows(m: Machine, p: Place, n: nat, run: ReallocRun, m': Machine, r: nat)
    requires Reachable(m) && Live(m, p) && Held(m, p) && n > Size(m, p) && 128 + n + (CHUNK - 1) < WORD
    requires ReallocCall(m, From(m, p), n, run, m', r) && LeftAlone(m, run, p)
    requires run.Moving? && run.c.Got? ==> Undisturbed(run.m3, run.mid, run.c.q)
    ensures run.Asking? || run.Moving?
    ensures run.Asking? ==> r == 0 && Kept(m, m', p)
    ensures run.Moving? ==>
              && run.c.Got? && !Live(m', p) && Live(m', run.c.q) && Held(m', run.c.q) && r == From(m', run.c.q)
              && UsableAt(m', r) >= n && Same(m.bytes, From(m, p), m'.bytes, r, Size(m, p))
  {
    ReallocDecides(m, p, n);
    KeptByRun(m, run.es, run.m1, p);
    if run.Asking? {
      MallocKeepsLive(run.m1, n, run.c, m', r, p);
      KeptOn(m, run.m1, m', p);
    } else {
      UsableIsSize(m, p);
      MoveArrives(m, p, n, run, m', r);
      MoveFrees(m, p, n, run, m', r);
    }
  }

  /** Up to the free: the new place has the contents. */
  lemma MoveArrives(m: Machine, p: Place, n: nat, run: ReallocRun, m': Machine, r: nat)
    requires Reachable(m) && Live(m, p) && Held(m, p) && n > Size(m, p) && 128 + n + (CHUNK - 1) < WORD
    requires ReallocPath(m, From(m, p), n) == Moves && UsableAt(m, From(m, p)) == Size(m, p)
    requires run.Moving? && Moved(m, From(m, p), n, run, m', r) && LeftAlone(m, run, p)
    requires Undisturbed(run.m3, run.mid, run.c.q)
    ensures Live(run.m4, run.c.q) && Held(run.m4, run.c.q) && From(run.m4, run.c.q) == r && Reachable(run.m4)
    ensures UsableAt(run.m4, r) >= n && Same(m.bytes, From(m, p), run.m4.bytes, r, Size(m, p))
  {
    KeptByRun(m, run.es, run.m1, p);
    MallocOutcome(run.m1, n, run.c, run.m2, r);
    MallocKeepsLive(run.m1, n, run.c, run.m2, r, p);
    ReallocKeepsPrefix(m, p, n, run.es, run.m1, run.c.e, run.c.q, run.m2, run.copy, run.m3, run.mid, run.m4);
    ReachableStepOn(run.m2, WriteEvent(run.c.q, run.copy), run.m3);
    ReachableRun(run.m3, run.mid, run.m4);
    NewPlaceStays(run.m2, run.c.q, run.copy, run.m3, run.mid, run.m4);
  }

  lemma NewPlaceStays(m2: Machine, q: Place, copy: Memory, m3: Machine, mid: seq<Event>, m4: Machine)
    requires Reachable(m2) && Held(m2, q) && Next(m2, WriteEvent(q, copy)) == Some(m3) && Exec(m3, mid) == Some(m4)
    requires Undisturbed(m3, mid, q)
    ensures Held(m4, q) && From(m4, q) == From(m2, q)
  {
    EveryRun(m2);
    NextInv(m2, WriteEvent(q, copy));
    LiveIsHeld(m3, q);
    PlaceKept(m2, WriteEvent(q, copy), q);
    RunKeepsBytes(m3, mid, m4, q);
  }

  /** The free at the end of a move ends the old place and keeps the new one. */
  lemma MoveFrees(m: Machine, p: Place, n: nat, run: ReallocRun, m': Machine, r: nat)
    requires Reachable(m) && Live(m, p) && Held(m, p) && run.Moving? && Moved(m, From(m, p), n, run, m', r)
    requires LeftAlone(m, run, p) && Kept(m, run.m1, p) && Reachable(run.m1) && 128 + n + (CHUNK - 1) < WORD
    requires Reachable(run.m4) && Live(run.m4, run.c.q) && Held(run.m4, run.c.q) && From(run.m4, run.c.q) == r
    requires UsableAt(run.m4, r) >= n && Same(m.bytes, From(m, p), run.m4.bytes, r, Size(m, p)) && n > Size(m, p)
    ensures !Live(m', p) && Live(m', run.c.q) && Held(m', run.c.q) && r == From(m', run.c.q)
    ensures UsableAt(m', r) >= n && Same(m.bytes, From(m, p), m'.bytes, r, Size(m, p))
  {
    OldPlaceStays(m, From(m, p), p, n, run, m', r);
    FreeOutcome(run.m4, p, run.f, m');
    FreeKeepsOthers(run.m4, p, run.f, m', run.c.q);
    UsableIsSize(run.m4, run.c.q);
    UsableIsSize(m', run.c.q);
    SamePrefix(run.m4.bytes, m'.bytes, r, Size(run.m4, run.c.q), Size(m, p));
    SameTrans(m.bytes, From(m, p), run.m4.bytes, r, m'.bytes, r, Size(m, p));
  }

  /** Until the free, a move keeps every place that the others leave alone. */
  lemma OldPlaceStays(m: Machine, x: nat, p: Place, n: nat, run: ReallocRun, m': Machine, r: nat)
    requires Reachable(m) && run.Moving? && Moved(m, x, n, run, m', r)
    requires LeftAlone(m, run, p) && Kept(m, run.m1, p) && Reachable(run.m1) && 128 + n + (CHUNK - 1) < WORD
    ensures Kept(m, run.m4, p) && p != run.c.q
  {
    MallocOutcome(run.m1, n, run.c, run.m2, r);
    MallocKeepsLive(run.m1, n, run.c, run.m2, r, p);
    KeptOn(m, run.m1, run.m2, p);
    CopyKeeps(run.m2, run.c.q, run.copy, run.m3, p);
    KeptOn(m, run.m2, run.m3, p);
    KeptByRun(run.m3, run.mid, run.m4, p);
    KeptOn(m, run.m3, run.m4, p);
  }

  /** The client's own write into one place keeps the others. */
  lemma CopyKeeps(m: Machine, q: Place, copy: Memory, m': Machine, o: Place)
    requires Reachable(m) && Next(m, WriteEvent(q, copy)) == Some(m') && Live(m, o) && o != q
    ensures Kept(m, m', o) && Reachable(m')
  {
    EveryRun(m);
    WriteKeepsLive(m, q, copy, o);
    NextKeepsPlace(m, WriteEvent(q, copy), o);
    ReachableStepOn(m, WriteEvent(q, copy), m');
  }

  lemma WriteKeepsLive(m: Machine, q: Place, copy: Memory, o: Place)
    requires Next(m, WriteEvent(q, copy)).Some? && Live(m, o) && o != q
    ensures Live(Next(m, WriteEvent(q, copy)).value, o) && !ClientWrites(WriteEvent(q, copy), o)
  {}

  /** Whatever a realloc does, it leaves what others hold. */
  lemma ReallocKeepsOthers(m: Machine, x: nat, n: nat, run: ReallocRun, m': Machine, r: nat, p: Place, o: Place)
    requires Reachable(m) && ReallocCall(m, x, n, run, m', r) && 128 + n + (CHUNK - 1) < WORD
    requires x != 0 ==> Live(m, p) && Held(m, p) && x == From(m, p) && LeftAlone(m, run, p) && o != p
    requires LeftAlone(m, run, o)
    ensures Kept(m, m', o)
  {
    EveryRun(m);
    match run {
      case Still => LiveIsHeld(m, o);
      case Asking(es, m1, c) =>
        KeptByRun(m, es, m1, o);
        MallocKeepsLive(m1, n, c, m', r, o);
        KeptOn(m, m1, m', o);
      case Ending(es, m1, f) => EndKeepsOthers(m, es, m1, p, f, m', o);
      case Moving(_, _, _, _, _, _, _, _, _) => MoveKeepsOthers(m, p, n, run, m', r, o);
    }
  }

  lemma EndKeepsOthers(m: Machine, es: seq<Event>, m1: Machine, p: Place, f: Option<Event>, m': Machine, o: Place)
    requires Reachable(m) && Live(m, p) && Held(m, p) && Exec(m, es) == Some(m1) && FreeCall(m1, From(m, p), f, m')
    requires Undisturbed(m, es, p) && Undisturbed(m, es, o) && o != p
    ensures Kept(m, m', o)
  {
    KeptByRun(m, es, m1, o);
    KeptByRun(m, es, m1, p);
    FreeKeepsOthers(m1, p, f, m', o);
    KeptOn(m, m1, m', o);
  }

  lemma MoveKeepsOthers(m: Machine, p: Place, n: nat, run: ReallocRun, m': Machine, r: nat, o: Place)
    requires Reachable(m) && Live(m, p) && Held(m, p) && run.Moving? && Moved(m, From(m, p), n, run, m', r)
    requires LeftAlone(m, run, p) && LeftAlone(m, run, o) && o != p && 128 + n + (CHUNK - 1) < WORD
    ensures Kept(m, m', o)
  {
    KeptByRun(m, run.es, run.m1, o);
    KeptByRun(m, run.es, run.m1, p);
    OldPlaceStays(m, From(m, p), o, n, run, m', r);
    OldPlaceStays(m, From(m, p), p, n, run, m', r);
    MoveReachable(m, From(m, p), n, run, m', r);
    FreeKeepsOthers(run.m4, p, run.f, m', o);
    KeptOn(m, run.m4, m', o);
  }

  lemma MoveReachable(m: Machine, x: nat, n: nat, run: ReallocRun, m': Machine, r: nat)
    requires Reachable(m) && run.Moving? && Moved(m, x, n, run, m', r) && 128 + n + (CHUNK - 1) < WORD
    ensures Reachable(run.m4)
  {
    ReachableRun(m, run.es, run.m1);
    MallocOutcome(run.m1, n, run.c, run.m2, r);
    ReachableStepOn(run.m2, WriteEvent(run.c.q, run.copy), run.m3);
    ReachableRun(run.m3, run.mid, run.m4);
  }
}
