/** Contents of client blocks in every run of the machine, through lz_realloc and lz_calloc
    (src/hooks/lzmalloc.c:261-297). */
module Contents {
  import opened Common
  import opened Bytes
  import opened Machine
  import opened MachineRuns
  import opened Clients
  import I = Interleaving
  import P = ProtocolRuns
  import B = BlockBytes
  import R = Router
  import V = Vmm
  import L = RemoteFree
  import Radix
  import Routing

  // ---- Only the client writes its bytes --------------------------------------------------------

  /** The event is the client's own write into the place. */
  predicate ClientWrites(e: Event, p: Place) {
    (e.Step? && e.a.Scribble? && p == HeapBlock(e.a.b)) || (e.Write? && p == Mapping(e.base))
  }

  lemma LiveIsHeld(m: Machine, p: Place)
    requires Inv(m) && Live(m, p)
    ensures Held(m, p)
  {
    if p.HeapBlock? {
      var s := P.EveryRun(m.sys);
      P.OutstandingInLedger(m.sys, s, p.b);
      assert L.At(s.loc, p.b, L.Client);
    }
  }

  /** A step of the protocol leaves the bytes of a block that stays with its client. */
  lemma StepLeaves(c: I.Sys, a: I.Action, b: ThreadHeap.Block, x: nat)
    requires P.Reachable(c) && I.Guard(c, a) && I.Safe(c, a) && B.InBlock(c, b, x)
    requires b in c.live && b in I.Apply(c, a).live && !(a.Scribble? && a.b == b)
    ensures !B.Touches(c, a, x)
  {
    if B.Touches(c, a, x) {
      if a.Scribble? { B.BlocksApart(c, a.b, b, x); } else { B.LiveBytesUntouched(c, a, b, x); }
    }
  }

  lemma StepKeepsBlock(m: Machine, e: Event, b: ThreadHeap.Block, x: nat)
    requires Inv(m) && Guard(m, e) && Fine(m, e) && e.Step? && B.InBlock(m.sys, b, x)
    requires b in m.sys.live && b in Apply(m, e).sys.live && !ClientWrites(e, HeapBlock(b))
    ensures Byte(Apply(m, e).bytes, x) == Byte(m.bytes, x)
  {
    StepParts(m, e);
    StepLeaves(m.sys, e.a, b, x);
  }

  /** Events outside the heaps leave chunks that heaps own alone. */
  lemma OutsideKeepsBlock(m: Machine, e: Event, x: nat)
    requires Inv(m) && Guard(m, e) && Fine(m, e) && !e.Step? && x / CHUNK in m.sys.owner
    ensures Byte(Apply(m, e).bytes, x) == Byte(m.bytes, x)
  {
    OwnedMapped(m, x / CHUNK);
    if e.MapDirect? {
      MapBytes(m, e.base, Payload(e.offset, e.size));
      MapNotOwned(m, e, x / CHUNK);
      MapElsewhere(m, e.base, Payload(e.offset, e.size), x);
    } else if e.Unmap? {
      UnmapBytes(m, e.base);
      UnmapElsewhere(m, e.base, x);
    } else if e.Write? {
      WriteNotOwned(m, e, x);
    }
  }

  lemma MapNotOwned(m: Machine, e: Event, k: nat)
    requires Guard(m, e) && e.MapDirect? && k in m.vm.mapped
    ensures !(e.base <= k < e.base + Total(Payload(e.offset, e.size)) / CHUNK)
  {
    assert e.base <= k < e.base + Total(Payload(e.offset, e.size)) / CHUNK ==> Unmapped(m, k);
  }

  lemma WriteNotOwned(m: Machine, e: Event, x: nat)
    requires Mappings(m) && Guard(m, e) && e.Write? && x / CHUNK in m.vm.mapped
    ensures x !in e.writes
  {
    if x in e.writes {
      assert MappingOk(m, e.base);
      PayloadBlock(m, e.base, x);
    }
  }

  lemma WriteElsewhere(m: Machine, e: Event, h: nat, x: nat)
    requires Mappings(m) && Guard(m, e) && e.Write? && e.base != h && InMapping(m, h, x / CHUNK)
    ensures x !in e.writes
  {
    if x in e.writes {
      assert MappingOk(m, e.base);
      PayloadBlock(m, e.base, x);
    }
  }

  lemma EventKeepsMapping(m: Machine, e: Event, h: nat, x: nat)
    requires Inv(m) && Guard(m, e) && Fine(m, e) && h in m.direct && h in Apply(m, e).direct
    requires InPlace(m, Mapping(h), x) && !ClientWrites(e, Mapping(h))
    ensures Byte(Apply(m, e).bytes, x) == Byte(m.bytes, x)
  {
    DirectAfter(m, e);
    PlaceBlocks(m, Mapping(h), x);
    if e.Write? { WriteElsewhere(m, e, h, x); } else { MappingByte(m, e, h, x); }
  }

  /** In every run an event leaves every byte of a place that stays with its client, unless it is the client's own
      write into that place: no link, no header and no purge ever lands there. */
  lemma EventKeepsByte(m: Machine, e: Event, p: Place, x: nat)
    requires Inv(m) && Guard(m, e) && Fine(m, e) && Live(m, p) && Live(Apply(m, e), p)
    requires InPlace(m, p, x) && !ClientWrites(e, p)
    ensures Byte(Apply(m, e).bytes, x) == Byte(m.bytes, x)
  {
    match p
    case HeapBlock(b) =>
      PlaceBlocks(m, p, x);
      if e.Step? { StepKeepsBlock(m, e, b, x); } else { OutsideKeepsBlock(m, e, x); }
    case Mapping(h) => EventKeepsMapping(m, e, h, x);
  }

  /** The place stays with its client, who does not write into it. */
  ghost predicate Undisturbed(m: Machine, es: seq<Event>, p: Place)
    decreases |es|
  {
    && Live(m, p)
    && (es != [] && Next(m, es[0]).Some? ==> !ClientWrites(es[0], p) && Undisturbed(Next(m, es[0]).value, es[1..], p))
  }

  lemma EventKeepsPlace(m: Machine, e: Event, p: Place)
    requires Inv(m) && Guard(m, e) && Fine(m, e) && Live(m, p) && Live(Apply(m, e), p) && !ClientWrites(e, p)
    ensures Held(m, p) && Held(Apply(m, e), p)
    ensures From(Apply(m, e), p) == From(m, p) && Size(Apply(m, e), p) == Size(m, p)
    ensures Same(m.bytes, From(m, p), Apply(m, e).bytes, From(m, p), Size(m, p))
  {
    LiveIsHeld(m, p);
    EventInv(m, e);
    LiveIsHeld(Apply(m, e), p);
    PlaceKept(m, e, p);
    forall x: nat | From(m, p) <= x < From(m, p) + Size(m, p)
      ensures Byte(Apply(m, e).bytes, x) == Byte(m.bytes, x - From(m, p) + From(m, p))
    {
      EventKeepsByte(m, e, p, x);
    }
  }

  /** Over any run, whatever the other threads and clients do, an undisturbed place keeps address, size and every
      byte. */
  lemma {:induction false} RunKeepsBytes(m: Machine, es: seq<Event>, m': Machine, p: Place)
    requires Inv(m) && Exec(m, es) == Some(m') && Undisturbed(m, es, p)
    ensures Inv(m') && Live(m', p) && Held(m, p) && Held(m', p)
    ensures From(m', p) == From(m, p) && Size(m', p) == Size(m, p)
    ensures Same(m.bytes, From(m, p), m'.bytes, From(m, p), Size(m, p))
    decreases |es|
  {
    LiveIsHeld(m, p);
    if es != [] {
      var m1 := Next(m, es[0]).value;
      NextInv(m, es[0]);
      RunKeepsBytes(m1, es[1..], m', p);
      NextKeepsPlace(m, es[0], p);
      SameTrans(m.bytes, From(m, p), m1.bytes, From(m, p), m'.bytes, From(m, p), Size(m, p));
    }
  }

  lemma NextKeepsPlace(m: Machine, e: Event, p: Place)
    requires Inv(m) && Next(m, e).Some? && Live(m, p) && Live(Next(m, e).value, p) && !ClientWrites(e, p)
    ensures Held(m, p) && Held(Next(m, e).value, p)
    ensures From(Next(m, e).value, p) == From(m, p) && Size(Next(m, e).value, p) == Size(m, p)
    ensures Same(m.bytes, From(m, p), Next(m, e).value.bytes, From(m, p), Size(m, p))
  {
    EventKeepsPlace(m, e, p);
  }

  // ---- The client's writes -------------------------------------------------------------------------

  /** The client's write of some bytes of its place. */
  function WriteEvent(p: Place, writes: Memory): Event {
    match p
    case HeapBlock(b) => Step(I.Scribble(b, I.Data(0)), writes)
    case Mapping(h) => Write(h, writes)
  }

  /** The client may write its place at any time; memory takes the bytes, and every place stays. */
  lemma WriteHappens(m: Machine, p: Place, writes: Memory, n: nat)
    requires Inv(m) && Live(m, p) && Held(m, p) && n <= Size(m, p) && Covers(writes, From(m, p), n)
    ensures Next(m, WriteEvent(p, writes)).Some? && Next(m, WriteEvent(p, writes)).value.bytes == m.bytes + writes
    ensures forall q :: Live(m, q) ==> Live(Next(m, WriteEvent(p, writes)).value, q)
  {
    match p
    case HeapBlock(b) => BlockWrite(m, b, writes);
    case Mapping(h) => PayloadWrite(m, h, writes);
  }

  lemma BlockWrite(m: Machine, b: ThreadHeap.Block, writes: Memory)
    requires Inv(m) && b in m.sys.live && forall x :: x in writes ==> B.InBlock(m.sys, b, x)
    ensures Next(m, WriteEvent(HeapBlock(b), writes)).Some?
    ensures Next(m, WriteEvent(HeapBlock(b), writes)).value.bytes == m.bytes + writes
    ensures forall q :: Live(m, q) ==> Live(Next(m, WriteEvent(HeapBlock(b), writes)).value, q)
  {
    var a := I.Scribble(b, I.Data(0));
    assert I.Guard(m.sys, a) && I.Safe(m.sys, a);
    assert Guard(m, Step(a, writes));
  }

  lemma PayloadWrite(m: Machine, h: nat, writes: Memory)
    requires h in m.direct && forall x :: x in writes ==> InPayload(m, h, x)
    ensures Next(m, Write(h, writes)).Some? && Next(m, Write(h, writes)).value.bytes == m.bytes + writes
    ensures forall q :: Live(m, q) ==> Live(Next(m, Write(h, writes)).value, q)
  {}

  // ---- lz_realloc ------------------------------------------------------------------------------------

  /** What lz_realloc does with an address and a size. */
  datatype Path = Mallocs | Frees | Fails | Keeps | Moves

  function ReallocPath(m: Machine, x: nat, n: nat): Path {
    if x == 0 then Mallocs
    else if n == 0 then Frees
    else if UsableAt(m, x) == 0 then Fails
    else if n <= UsableAt(m, x) then Keeps
    else Moves
  }

  /** For a block of the client it never fails for want of a size, and it keeps the block exactly when the new size
      fits into it. */
  lemma ReallocDecides(m: Machine, p: Place, n: nat)
    requires Reachable(m) && Held(m, p) && n >= 1
    ensures ReallocPath(m, From(m, p), n) == if n <= Size(m, p) then Keeps else Moves
  {
    EveryRun(m);
    UsableIsSize(m, p);
    SizePositive(m, p);
    AddressResolves(m, p);
  }

  /** The moving path.  From `m` a run leads to `m1`, in which the event `e` answers malloc(n) with place `q`; the
      client copies the usable bytes of `p` (`copy` is what memcpy writes); another run, which may free `p`, leads to
      `m'`.  Other threads and clients may do anything meanwhile.  Then `q` has room for n bytes and begins with the
      bytes that `p` had at the start. */
  lemma ReallocKeepsPrefix(m: Machine, p: Place, n: nat, es: seq<Event>, m1: Machine, e: Event, q: Place, m2: Machine,
                           copy: Memory, m3: Machine, after: seq<Event>, m': Machine)
    requires Reachable(m) && Held(m, p) && ReallocPath(m, From(m, p), n) == Moves && 128 + n + (CHUNK - 1) < WORD
    requires Exec(m, es) == Some(m1) && Undisturbed(m, es, p)
    requires Guard(m1, e) && Fine(m1, e) && Answers(m1, e, Routing.MallocRoute(n), q) && m2 == Apply(m1, e) && Live(m2, p)
    requires Held(m2, p) && Held(m2, q)
    requires Covers(copy, From(m2, q), Size(m, p))
    requires Same(m2.bytes, From(m2, p), m2.bytes + copy, From(m2, q), Size(m, p))
    requires Next(m2, WriteEvent(q, copy)) == Some(m3) && Exec(m3, after) == Some(m') && Undisturbed(m3, after, q)
    ensures Live(m', q) && Held(m', q) && UsableAt(m', From(m', q)) >= n
    ensures Same(m.bytes, From(m, p), m'.bytes, From(m', q), Size(m, p))
  {
    var u := Size(m, p);
    ReallocDecides(m, p, n);
    OldBlockKept(m, p, es, m1, e, Routing.MallocRoute(n), q, m2);
    NewBlockServes(m1, e, n, q, m2);
    CopyArrives(m2, p, q, copy, m3, u);
    SameTrans(m.bytes, From(m, p), m2.bytes, From(m, p), m3.bytes, From(m2, q), u);
    NewBlockKept(m2, q, copy, m3, after, m', u);
    SameTrans(m.bytes, From(m, p), m3.bytes, From(m2, q), m'.bytes, From(m2, q), u);
  }

  /** The old and the new block do not overlap, so memcpy may be used; this is what it writes. */
  method CopyBlock(m: Machine, p: Place, q: Place, u: nat) returns (copy: Memory)
    requires Reachable(m) && Held(m, p) && Held(m, q) && p != q && u <= Size(m, p) && u <= Size(m, q)
    ensures Covers(copy, From(m, q), u) && Same(m.bytes, From(m, p), m.bytes + copy, From(m, q), u)
  {
    PlacesDisjoint(m, p, q);
    copy := Copy(m.bytes, From(m, q), From(m, p), u);
  }

  lemma PlacesDisjoint(m: Machine, p: Place, q: Place)
    requires Reachable(m) && Held(m, p) && Held(m, q) && p != q
    ensures Apart(From(m, q), Size(m, q), From(m, p), Size(m, p))
  {
    EveryRun(m);
    SizePositive(m, p);
    SizePositive(m, q);
    var x := if From(m, p) <= From(m, q) then From(m, q) else From(m, p);
    if InPlace(m, p, x) && InPlace(m, q, x) { PlacesApart(m, p, q, x); }
  }

  /** Up to the answer the old block is as it was. */
  lemma OldBlockKept(m: Machine, p: Place, es: seq<Event>, m1: Machine, e: Event, r: Routing.Route, q: Place, m2: Machine)
    requires Reachable(m) && Held(m, p) && Exec(m, es) == Some(m1) && Undisturbed(m, es, p)
    requires Guard(m1, e) && Fine(m1, e) && Answers(m1, e, r, q) && m2 == Apply(m1, e) && Live(m2, p)
    ensures Reachable(m1) && Reachable(m2) && Inv(m2) && Held(m2, p) && From(m2, p) == From(m, p)
    ensures Same(m.bytes, From(m, p), m2.bytes, From(m, p), Size(m, p))
  {
    EveryRun(m);
    RunKeepsBytes(m, es, m1, p);
    ReachableRun(m, es, m1);
    AnswerIsNoWrite(m1, e, r, q, p);
    EventKeepsPlace(m1, e, p);
    ReachableEvent(m1, e);
    EveryRun(m2);
    SameTrans(m.bytes, From(m, p), m1.bytes, From(m, p), m2.bytes, From(m, p), Size(m, p));
  }

  lemma NewBlockServes(m: Machine, e: Event, n: nat, q: Place, m2: Machine)
    requires Reachable(m) && Guard(m, e) && Fine(m, e) && Answers(m, e, Routing.MallocRoute(n), q) && m2 == Apply(m, e)
    requires 1 <= n && 128 + n + (CHUNK - 1) < WORD
    ensures Held(m2, q) && Live(m2, q) && Size(m2, q) >= n
  {
    AnswerSize(m, e, Routing.MallocRoute(n), q);
    Routing.MallocUsable(n);
  }

  /** From the copy on the new block is as it was. */
  lemma NewBlockKept(m2: Machine, q: Place, copy: Memory, m3: Machine, after: seq<Event>, m': Machine, u: nat)
    requires Reachable(m2) && Next(m2, WriteEvent(q, copy)) == Some(m3) && Exec(m3, after) == Some(m')
    requires Undisturbed(m3, after, q) && Held(m2, q) && Held(m3, q) && u <= Size(m2, q)
    requires From(m3, q) == From(m2, q) && Size(m3, q) == Size(m2, q)
    ensures Live(m', q) && Held(m', q) && From(m', q) == From(m2, q) && UsableAt(m', From(m', q)) == Size(m2, q)
    ensures Same(m3.bytes, From(m2, q), m'.bytes, From(m2, q), u)
  {
    ReachableStepOn(m2, WriteEvent(q, copy), m3);
    EveryRun(m3);
    RunKeepsBytes(m3, after, m', q);
    ReachableRun(m3, after, m');
    UsableIsSize(m', q);
    SamePrefix(m3.bytes, m'.bytes, From(m3, q), Size(m3, q), u);
  }

  lemma ReachableStepOn(m: Machine, e: Event, m': Machine)
    requires Reachable(m) && Next(m, e) == Some(m')
    ensures Reachable(m')
  {
    ReachableEvent(m, e);
  }

  lemma AnswerIsNoWrite(m: Machine, e: Event, r: Routing.Route, q: Place, p: Place)
    requires Guard(m, e) && Fine(m, e) && Answers(m, e, r, q)
    ensures !ClientWrites(e, p)
  {}

  lemma SamePrefix(m: Memory, m': Memory, p: nat, n: nat, k: nat)
    requires Same(m, p, m', p, n) && k <= n
    ensures Same(m, p, m', p, k)
  {}

  lemma CopyArrives(m: Machine, p: Place, q: Place, copy: Memory, m': Machine, u: nat)
    requires Inv(m) && Live(m, q) && Held(m, p) && Held(m, q) && u <= Size(m, q) && Covers(copy, From(m, q), u)
    requires Same(m.bytes, From(m, p), m.bytes + copy, From(m, q), u) && Next(m, WriteEvent(q, copy)) == Some(m')
    ensures Inv(m') && Held(m', q) && From(m', q) == From(m, q) && Size(m', q) == Size(m, q)
    ensures Same(m.bytes, From(m, p), m'.bytes, From(m, q), u)
  {
    WriteHappens(m, q, copy, u);
    NextInv(m, WriteEvent(q, copy));
    LiveIsHeld(m', q);
    PlaceKept(m, WriteEvent(q, copy), q);
  }

  // ---- lz_calloc ---------------------------------------------------------------------------------------

  /** The size lz_calloc asks lz_malloc for, in 64-bit arithmetic, or None where it returns NULL at once. */
  function CallocRequest(num: nat, size: nat): Option<nat> {
    var n, k := if num == 0 || size == 0 then 1 else num, if num == 0 || size == 0 then 1 else size;
    if SIZE_MAX / n < k then None else Some(n * k % WORD)
  }

  /** It refuses exactly the products that do not fit, and asks for the true product of the others, one byte for an
      empty one. */
  lemma CallocAsks(num: nat, size: nat)
    ensures CallocRequest(num, size) ==
            if num * size > SIZE_MAX then None else Some(if num == 0 || size == 0 then 1 else num * size)
  {
    if num >= 1 && size >= 1 { OverflowTest(num, size); } else { OverflowTest(1, 1); }
  }

  /** The payload of a direct allocation is zero although nobody clears it: the mapping is, and the header writes stay
      in front of it. */
  lemma DirectIsZero(m: Machine, base: nat, p: Payload)
    requires Inv(m) && Guard(m, MapDirect(base, p.offset, p.size))
    ensures AllZero(Apply(m, MapDirect(base, p.offset, p.size)).bytes, base * CHUNK + p.offset, p.size)
  {
    MapBytes(m, base, p);
    BlocksOf(p);
    forall x: nat | base * CHUNK + p.offset <= x < base * CHUNK + p.offset + p.size
      ensures Byte(Prepared(m.bytes, base * CHUNK, Total(p), p.size), x) == 0
    {
      PreparedByte(m.bytes, base * CHUNK, Total(p), p.size, x);
    }
  }

  /** lz_calloc on all three routes: above 1 MB the answer of malloc is zero as it is; up to there it is once the
      client's memset (`clear` is what it writes) is done.  OthersKeep says what others keep. */
  lemma CallocIsZero(m: Machine, num: nat, size: nat, n: nat, e: Event, q: Place, m1: Machine, clear: Memory)
    requires Reachable(m) && CallocRequest(num, size) == Some(n) && 128 + n + (CHUNK - 1) < WORD
    requires Guard(m, e) && Fine(m, e) && Answers(m, e, Routing.MallocRoute(n), q)
    requires m1 == Apply(m, e) && Held(m1, q)
    requires Covers(clear, From(m1, q), n) && AllZero(m1.bytes + clear, From(m1, q), n)
    ensures num * size <= n <= Size(m1, q)
    ensures n > MAX_SPAN_OBJ ==> AllZero(m1.bytes, From(m1, q), n)
    ensures var m2 := Next(m1, WriteEvent(q, clear));
            && m2.Some? && Held(m2.value, q) && From(m2.value, q) == From(m1, q)
            && AllZero(m2.value.bytes, From(m1, q), n)
  {
    RequestCovers(num, size, n);
    ZeroAnswer(m, n, e, q, m1);
    ClearArrives(m1, q, clear, n);
  }

  lemma ZeroAnswer(m: Machine, n: nat, e: Event, q: Place, m1: Machine)
    requires Reachable(m) && 1 <= n && 128 + n + (CHUNK - 1) < WORD
    requires Guard(m, e) && Fine(m, e) && Answers(m, e, Routing.MallocRoute(n), q) && m1 == Apply(m, e)
    ensures Reachable(m1) && !Held(m, q) && Live(m1, q) && Held(m1, q) && n <= Size(m1, q)
    ensures n > MAX_SPAN_OBJ ==> AllZero(m1.bytes, From(m1, q), n)
  {
    EveryRun(m);
    AnswerSize(m, e, Routing.MallocRoute(n), q);
    Routing.MallocUsable(n);
    ReachableEvent(m, e);
    if n > MAX_SPAN_OBJ {
      DirectAnswer(m, e, n, q);
      DirectIsZero(m, e.base, Payload(e.offset, e.size));
    }
  }

  lemma ClearArrives(m: Machine, q: Place, clear: Memory, n: nat)
    requires Reachable(m) && Live(m, q) && Held(m, q) && n <= Size(m, q)
    requires Covers(clear, From(m, q), n) && AllZero(m.bytes + clear, From(m, q), n)
    ensures var m' := Next(m, WriteEvent(q, clear));
            && m'.Some? && Held(m'.value, q) && From(m'.value, q) == From(m, q)
            && AllZero(m'.value.bytes, From(m, q), n)
  {
    EveryRun(m);
    WriteHappens(m, q, clear, n);
    NextInv(m, WriteEvent(q, clear));
    LiveIsHeld(Next(m, WriteEvent(q, clear)).value, q);
    PlaceKept(m, WriteEvent(q, clear), q);
  }

  /** The allocation of `q` and the client's write into it leave what others hold. */
  lemma OthersKeep(m: Machine, e: Event, q: Place, m1: Machine, writes: Memory, n: nat, o: Place, x: nat)
    requires Reachable(m) && Guard(m, e) && Fine(m, e) && m1 == Apply(m, e) && Held(m1, q) && Live(m1, q) && !Held(m, q)
    requires !ClientWrites(e, o) && n <= Size(m1, q) && Covers(writes, From(m1, q), n)
    requires Live(m, o) && Live(m1, o) && InPlace(m, o, x)
    ensures Next(m1, WriteEvent(q, writes)).Some? && Byte(Next(m1, WriteEvent(q, writes)).value.bytes, x) == Byte(m.bytes, x)
  {
    EveryRun(m);
    EventKeepsPlace(m, e, o);
    ReachableEvent(m, e);
    EveryRun(m1);
    WriteHappens(m1, q, writes, n);
    EventKeepsByte(m, e, o, x);
    EventKeepsByte(m1, WriteEvent(q, writes), o, x);
  }

  /** What calloc's memset writes. */
  method ClearBlock(m: Machine, q: Place, n: nat) returns (clear: Memory)
    requires Held(m, q) && n <= Size(m, q)
    ensures Covers(clear, From(m, q), n) && AllZero(m.bytes + clear, From(m, q), n)
  {
    clear := Clear(m.bytes, From(m, q), n);
  }

  lemma RequestCovers(num: nat, size: nat, n: nat)
    requires CallocRequest(num, size) == Some(n)
    ensures 1 <= n && num * size <= n
  {
    CallocAsks(num, size);
    if num >= 1 && size >= 1 { MulLe(num, 1, size); }
  }

  lemma DirectAnswer(m: Machine, e: Event, n: nat, q: Place)
    requires Guard(m, e) && Fine(m, e) && Answers(m, e, Routing.MallocRoute(n), q) && n > MAX_SPAN_OBJ
    ensures e.MapDirect? && e.offset == 128 && e.size == n && q == Mapping(e.base)
  {}
}
