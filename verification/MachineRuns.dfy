/** Whole runs of the machine: the index is exact, every place a client holds is found through it with its full size,
    no two places share a byte, and nobody but the client writes into one. */
module MachineRuns {
  import opened Common
  import opened ThreadHeap
  import opened Bytes
  import opened Machine
  import I = Interleaving
  import V = Vmm
  import P = ProtocolRuns
  import VR = VmmRuns
  import B = BlockBytes
  import R = Router
  import Radix
  import Routing
  import Extents
  import Bits

  // ---- Invariant -------------------------------------------------------------------------

  /** The chunks that clients of the cache have are those of the heaps and those on their way. */
  ghost predicate Supply(m: Machine) {
    && P.Reachable(m.sys) && VR.Reachable(m.vm)
    && (forall k :: k in m.vm.clients <==> k in m.sys.owner || k in m.held)
    && (forall k :: k in m.held ==> k !in m.sys.owner)
    && (forall k :: k in m.vm.mapped ==> 1 <= k < Radix.KEYS)
  }

  /** A mapping lies in 48 bits and apart from the cache's chunks, and its header holds its sizes. */
  ghost predicate MappingOk(m: Machine, h: nat)
    requires h in m.direct
  {
    var p := m.direct[h];
    && h >= 1 && Fits(p) && h + Total(p) / CHUNK <= Radix.KEYS
    && TotalAt(m.bytes, h) == Total(p) && SizeAt(m.bytes, h) == p.size
  }

  ghost predicate Mappings(m: Machine) {
    && (forall h :: h in m.direct ==> MappingOk(m, h))
    && (forall h, k :: InMapping(m, h, k) ==> k !in m.vm.mapped)
    && (forall h, g, k :: InMapping(m, h, k) && InMapping(m, g, k) ==> h == g)
  }

  /** The index maps exactly the chunks of the heaps and the blocks of the mappings. */
  ghost predicate IndexOk(m: Machine) {
    forall k: nat, h: nat :: R.Look(m.index, k) == Some(h) <==> (k == h && h in m.sys.owner) || InMapping(m, h, k)
  }

  ghost predicate Inv(m: Machine) {
    Supply(m) && Mappings(m) && IndexOk(m)
  }

  // ---- Chunks change hands -------------------------------------------------------------------

  /** A chunk that the cache gave is nobody's: the guard of the protocol's allocation steps. */
  lemma StepAllowed(m: Machine, a: I.Action)
    requires Supply(m) && StepGuard(m, a)
    ensures I.Guard(m.sys, a) && I.Safe(m.sys, a)
  {
    SpareAllowed(m.sys, m.held, a);
    P.NeverWrong(m.sys, a);
  }

  lemma SpareAllowed(c: I.Sys, held: set<nat>, a: I.Action)
    requires I.Guard(c, Unspared(a)) && (B.SpareOf(a).Some? ==> B.SpareOf(a).value in held)
    requires forall k :: k in held ==> k !in c.owner
    ensures I.Guard(c, a)
  {}

  lemma StepSupply(m: Machine, a: I.Action, w: Memory)
    requires Supply(m) && Guard(m, Step(a, w)) && Fine(m, Step(a, w))
    ensures Supply(Apply(m, Step(a, w)))
  {
    var m' := Apply(m, Step(a, w));
    P.ReachableStep(m.sys, a);
    forall k ensures k in m'.vm.clients <==> k in m'.sys.owner || k in m'.held {
      if k in m'.sys.owner && k !in m.sys.owner { B.OwnerGrows(m.sys, a, k); }
    }
  }

  lemma ClientsGrow(vm: V.Vm, v: V.Action, k: nat)
    requires V.Guard(vm, v) && !v.CallFree?
    ensures k in vm.clients ==> k in V.Apply(vm, v).clients
    ensures k in vm.mapped ==> k in V.Apply(vm, v).mapped
    ensures k in V.Apply(vm, v).mapped ==> k in vm.mapped || (v.Mapped? && k in v.extent)
  {}

  lemma CacheSupply(m: Machine, v: V.Action, w: Memory)
    requires Supply(m) && Guard(m, Cache(v, w))
    ensures Supply(Apply(m, Cache(v, w)))
  {
    VR.ReachableStep(m.vm, v);
    forall k ensures k in m.vm.clients ==> k in V.Apply(m.vm, v).clients { ClientsGrow(m.vm, v, k); }
    forall k | k in V.Apply(m.vm, v).mapped ensures 1 <= k < Radix.KEYS { ClientsGrow(m.vm, v, k); }
  }

  lemma ReturnFine(m: Machine, th: nat, x: nat)
    requires Supply(m) && Guard(m, Return(th, x))
    ensures Fine(m, Return(th, x)) && x in m.vm.magic
  {
    VR.FreeAccepts(m.vm, x);
  }

  lemma ReturnSupply(m: Machine, th: nat, x: nat)
    requires Supply(m) && Guard(m, Return(th, x)) && Fine(m, Return(th, x)) && x in m.vm.magic
    ensures Supply(Apply(m, Return(th, x))) && Apply(m, Return(th, x)).vm.mapped == m.vm.mapped
  {
    VR.ReachableStep(m.vm, V.CallFree(th, x));
  }

  /** Heaps own mapped chunks only. */
  lemma OwnedMapped(m: Machine, k: nat)
    requires Supply(m) && (k in m.sys.owner || k in m.held)
    ensures k in m.vm.mapped && k in m.vm.clients
  {
    VR.ClientsMapped(m.vm, k);
  }

  // ---- Bytes of mappings ------------------------------------------------------------------------

  /** Behind its 80 header bytes a fresh mapping is zero, and other memory is as it was. */
  lemma PreparedByte(m: Memory, p: nat, total: nat, size: nat, x: nat)
    requires x < p || p + 80 <= x
    ensures Byte(Prepared(m, p, total, size), x) == if p <= x < p + total then 0 else Byte(m, x)
  {
    StoreAllElsewhere(Zeroed(m, p, p + total), p, DirectHeader(total, size), 80, x);
    ZeroedByte(m, p, p + total, x);
  }

  lemma FieldsRead(m: Memory, p: nat, fs: seq<Field>, total: nat, size: nat)
    requires |fs| == 9 && fs[7] == Field(64, 72, total) && fs[8] == Field(72, 80, size) && total < WORD && size < WORD
    ensures Load(StoreAll(m, p, fs), p + 64, p + 72) == total && Load(StoreAll(m, p, fs), p + 72, p + 80) == size
  {
    WordRange();
    StoreAllRead(m, p, fs, 7);
    StoreAllRead(m, p, fs, 8);
  }

  /** The two sizes behind the header are read back as they were stored. */
  lemma PreparedReads(m: Memory, p: nat, total: nat, size: nat)
    requires total < WORD && size < WORD
    ensures Load(Prepared(m, p, total, size), p + 64, p + 72) == total
    ensures Load(Prepared(m, p, total, size), p + 72, p + 80) == size
  {
    FieldsRead(Zeroed(m, p, p + total), p, DirectHeader(total, size), total, size);
  }

  lemma BlocksOf(p: Payload)
    requires Fits(p)
    ensures Total(p) % CHUNK == 0 && Total(p) / CHUNK >= 1 && Total(p) < WORD && p.offset + p.size <= Total(p)
    ensures Total(p) == Total(p) / CHUNK * CHUNK
  {
    Routing.DirectFits(p.offset, p.size);
    Routing.Floor(((p.offset + p.size) % WORD + (CHUNK - 1)) % WORD);
  }

  /** Addresses and blocks of a mapping. */
  lemma InBlocks(h: nat, n: nat, x: nat)
    ensures h * CHUNK <= x < h * CHUNK + n * CHUNK <==> h <= x / CHUNK < h + n
  {
    var q, r := x / CHUNK, x % CHUNK;
    assert x == CHUNK * q + r;
    assert (h + n) * CHUNK == h * CHUNK + n * CHUNK;
    if q < h { Bits.MulGap(1, 1); MulUp(q + 1, h); } else { MulUp(h, q); }
    if q < h + n { MulUp(q + 1, h + n); } else { MulUp(h + n, q); }
  }

  lemma MulUp(x: nat, y: nat)
    requires x <= y
    ensures x * CHUNK <= y * CHUNK
  {}

  lemma StepMappingByte(m: Machine, a: I.Action, w: Memory, h: nat, x: nat)
    requires Supply(m) && Mappings(m) && I.Guard(m.sys, a) && I.Safe(m.sys, a) && InMapping(m, h, x / CHUNK) && x in w
    requires B.SpareOf(a).Some? ==> B.SpareOf(a).value in m.held
    ensures !B.Touches(m.sys, a, x)
  {
    if B.Touches(m.sys, a, x) {
      B.TouchesChunks(m.sys, a, x);
      OwnedMapped(m, x / CHUNK);
    }
  }

  lemma CacheMappingByte(m: Machine, v: V.Action, h: nat, x: nat)
    requires Mappings(m) && V.Guard(m.vm, v) && !v.CallFree? && InMapping(m, h, x / CHUNK)
    requires v.Mapped? ==> forall k :: k in v.extent ==> Unmapped(m, k)
    ensures !CacheTouches(m.vm, v, x)
  {
    ClientsGrow(m.vm, v, x / CHUNK);
  }

  lemma StepByte(m: Machine, e: Event, h: nat, x: nat)
    requires Inv(m) && Guard(m, e) && Fine(m, e) && e.Step? && InMapping(m, h, x / CHUNK)
    ensures Byte(Apply(m, e).bytes, x) == Byte(m.bytes, x)
  {
    if x in e.writes { StepMappingByte(m, e.a, e.writes, h, x); }
  }

  lemma CacheByte(m: Machine, e: Event, h: nat, x: nat)
    requires Inv(m) && Guard(m, e) && Fine(m, e) && (e.Cache? || e.Return?) && InMapping(m, h, x / CHUNK)
    ensures Byte(Apply(m, e).bytes, x) == Byte(m.bytes, x)
  {
    if e.Cache? { CacheMappingByte(m, e.v, h, x); }
  }

  /** Memory after an event of the direct path. */
  lemma MapBytes(m: Machine, base: nat, p: Payload)
    requires Guard(m, MapDirect(base, p.offset, p.size))
    ensures Apply(m, MapDirect(base, p.offset, p.size)).bytes == Prepared(m.bytes, base * CHUNK, Total(p), p.size)
    ensures Fits(p)
    ensures forall h: nat, k: nat :: InMapping(m, h, k) ==> !(base <= k < base + Total(p) / CHUNK)
  {
    forall h: nat, k: nat | InMapping(m, h, k) ensures !(base <= k < base + Total(p) / CHUNK) {
      assert base <= k < base + Total(p) / CHUNK ==> Unmapped(m, k);
    }
  }

  lemma UnmapBytes(m: Machine, g: nat)
    requires Guard(m, Unmap(g))
    ensures g in m.direct
    ensures Apply(m, Unmap(g)).bytes == Zeroed(m.bytes, g * CHUNK, g * CHUNK + TotalAt(m.bytes, g))
  {}

  lemma DirectByte(m: Machine, e: Event, h: nat, x: nat)
    requires Inv(m) && Guard(m, e) && Fine(m, e) && (e.MapDirect? || e.Unmap?) && e != Unmap(h)
    requires InMapping(m, h, x / CHUNK)
    ensures Byte(Apply(m, e).bytes, x) == Byte(m.bytes, x)
  {
    if e.MapDirect? {
      MapBytes(m, e.base, Payload(e.offset, e.size));
      MapElsewhere(m, e.base, Payload(e.offset, e.size), x);
    } else {
      UnmapBytes(m, e.base);
      UnmapElsewhere(m, e.base, x);
    }
  }

  /** Nobody but an unmapping and its own client writes into a mapping. */
  lemma MappingByte(m: Machine, e: Event, h: nat, x: nat)
    requires Inv(m) && Guard(m, e) && Fine(m, e) && InMapping(m, h, x / CHUNK) && e != Unmap(h) && !e.Write?
    ensures Byte(Apply(m, e).bytes, x) == Byte(m.bytes, x)
  {
    if e.Step? { StepByte(m, e, h, x); }
    else if e.Cache? || e.Return? { CacheByte(m, e, h, x); }
    else { DirectByte(m, e, h, x); }
  }

  lemma MapElsewhere(m: Machine, base: nat, p: Payload, x: nat)
    requires Fits(p)
    requires !(base <= x / CHUNK < base + Total(p) / CHUNK)
    ensures Byte(Prepared(m.bytes, base * CHUNK, Total(p), p.size), x) == Byte(m.bytes, x)
  {
    BlocksOf(p);
    InBlocks(base, Total(p) / CHUNK, x);
    PreparedByte(m.bytes, base * CHUNK, Total(p), p.size, x);
  }

  lemma UnmapElsewhere(m: Machine, g: nat, x: nat)
    requires Mappings(m) && g in m.direct && !InMapping(m, g, x / CHUNK)
    ensures Byte(Zeroed(m.bytes, g * CHUNK, g * CHUNK + TotalAt(m.bytes, g)), x) == Byte(m.bytes, x)
  {
    assert MappingOk(m, g);
    BlocksOf(m.direct[g]);
    InBlocks(g, Total(m.direct[g]) / CHUNK, x);
    ZeroedByte(m.bytes, g * CHUNK, g * CHUNK + Total(m.direct[g]), x);
  }

  // ---- Mappings stay as they are ----------------------------------------------------------------------

  /** Bytes of the header are in the first block of the mapping. */
  lemma HeaderBlock(m: Machine, h: nat, x: nat)
    requires h in m.direct && MappingOk(m, h) && h * CHUNK <= x < h * CHUNK + 128
    ensures x / CHUNK == h && InMapping(m, h, x / CHUNK)
  {
    BlocksOf(m.direct[h]);
    InBlocks(h, 1, x);
  }

  /** Bytes of the payload are in the mapping, behind the header. */
  lemma PayloadBlock(m: Machine, h: nat, x: nat)
    requires h in m.direct && MappingOk(m, h) && InPayload(m, h, x)
    ensures InMapping(m, h, x / CHUNK) && x >= h * CHUNK + 128
  {
    BlocksOf(m.direct[h]);
    InBlocks(h, Total(m.direct[h]) / CHUNK, x);
  }

  lemma HeaderByteKept(m: Machine, e: Event, h: nat, x: nat)
    requires Inv(m) && Guard(m, e) && Fine(m, e) && h in m.direct && e != Unmap(h) && h * CHUNK <= x < h * CHUNK + 128
    ensures Byte(Apply(m, e).bytes, x) == Byte(m.bytes, x)
  {
    assert MappingOk(m, h);
    HeaderBlock(m, h, x);
    if !e.Write? { MappingByte(m, e, h, x); } else if x in e.writes { WriteApart(m, e.base, h, x); }
  }

  /** A payload byte is in no header. */
  lemma WriteApart(m: Machine, base: nat, h: nat, x: nat)
    requires Mappings(m) && InMapping(m, h, x / CHUNK) && h * CHUNK <= x < h * CHUNK + 128
    ensures !InPayload(m, base, x)
  {
    if InPayload(m, base, x) {
      assert MappingOk(m, base);
      PayloadBlock(m, base, x);
    }
  }

  lemma HeaderKept(m: Machine, e: Event, h: nat)
    requires Inv(m) && Guard(m, e) && Fine(m, e) && h in m.direct && e != Unmap(h)
    ensures TotalAt(Apply(m, e).bytes, h) == TotalAt(m.bytes, h) && SizeAt(Apply(m, e).bytes, h) == SizeAt(m.bytes, h)
  {
    var b, b' := m.bytes, Apply(m, e).bytes;
    forall x: nat | h * CHUNK <= x < h * CHUNK + 128 ensures Byte(b', x) == Byte(b, x) { HeaderByteKept(m, e, h, x); }
    SizesKept(b, b', h);
  }

  lemma SizesKept(b: Memory, b': Memory, h: nat)
    requires forall x: nat :: h * CHUNK <= x < h * CHUNK + 128 ==> Byte(b', x) == Byte(b, x)
    ensures TotalAt(b', h) == TotalAt(b, h) && SizeAt(b', h) == SizeAt(b, h)
  {
    LoadFrame(b, b', h * CHUNK + 64, h * CHUNK + 72);
    LoadFrame(b, b', h * CHUNK + 72, h * CHUNK + 80);
  }

  lemma DirectAfter(m: Machine, e: Event)
    requires Guard(m, e) && Fine(m, e)
    ensures Apply(m, e).direct ==
            if e.MapDirect? then m.direct[e.base := Payload(e.offset, e.size)]
            else if e.Unmap? then m.direct - {e.base} else m.direct
    ensures !e.Cache? && !e.Return? ==> Apply(m, e).vm == m.vm
    ensures e.Cache? ==> Apply(m, e).vm == V.Apply(m.vm, e.v)
  {}

  /** A mapping that stays keeps its header. */
  lemma MappingStays(m: Machine, e: Event, h: nat)
    requires Inv(m) && Guard(m, e) && Fine(m, e) && h in m.direct && e != Unmap(h)
    requires e.MapDirect? ==> e.base != h
    ensures h in Apply(m, e).direct && Apply(m, e).direct[h] == m.direct[h] && MappingOk(Apply(m, e), h)
  {
    assert MappingOk(m, h);
    DirectAfter(m, e);
    HeaderKept(m, e, h);
  }

  lemma NewHeader(b: Memory, base: nat, p: Payload)
    requires Fits(p)
    ensures TotalAt(Prepared(b, base * CHUNK, Total(p), p.size), base) == Total(p)
    ensures SizeAt(Prepared(b, base * CHUNK, Total(p), p.size), base) == p.size
  {
    BlocksOf(p);
    PreparedReads(b, base * CHUNK, Total(p), p.size);
  }

  lemma NewMapping(m: Machine, base: nat, p: Payload)
    requires Mappings(m) && MapGuard(m, base, p)
    ensures base !in m.direct
    ensures forall h: nat, k: nat :: InMapping(m, h, k) ==> !(base <= k < base + Total(p) / CHUNK)
  {
    BlocksOf(p);
    assert Unmapped(m, base);
    if base in m.direct {
      assert MappingOk(m, base);
      BlocksOf(m.direct[base]);
    }
    assert !InMapping(m, base, base);
    forall h: nat, k: nat | InMapping(m, h, k) ensures !(base <= k < base + Total(p) / CHUNK) {
      assert base <= k < base + Total(p) / CHUNK ==> Unmapped(m, k);
    }
  }

  lemma MapMappings(m: Machine, e: Event)
    requires Inv(m) && Guard(m, e) && Fine(m, e) && e.MapDirect?
    ensures Mappings(Apply(m, e))
  {
    var m', p := Apply(m, e), Payload(e.offset, e.size);
    NewMapping(m, e.base, p);
    NewHeader(m.bytes, e.base, p);
    forall h | h in m'.direct ensures MappingOk(m', h) { if h != e.base { MappingStays(m, e, h); } }
    forall h: nat, k: nat ensures InMapping(m', h, k) <==>
      if h == e.base then e.base <= k < e.base + Total(p) / CHUNK else InMapping(m, h, k) {}
    forall h: nat, k: nat | InMapping(m', h, k) ensures k !in m'.vm.mapped {
      if h == e.base { assert Unmapped(m, k); }
    }
  }

  lemma OtherMappings(m: Machine, e: Event)
    requires Inv(m) && Guard(m, e) && Fine(m, e) && !e.MapDirect? && !e.Cache? && !e.Return?
    ensures Mappings(Apply(m, e))
  {
    var m' := Apply(m, e);
    DirectAfter(m, e);
    forall h | h in m'.direct ensures MappingOk(m', h) { MappingStays(m, e, h); }
    forall h: nat, k: nat | InMapping(m', h, k) ensures InMapping(m, h, k) {}
  }

  lemma CacheMappings(m: Machine, e: Event)
    requires Inv(m) && Guard(m, e) && Fine(m, e) && (e.Cache? || e.Return?)
    ensures Mappings(Apply(m, e))
  {
    var m' := Apply(m, e);
    DirectAfter(m, e);
    forall h | h in m'.direct ensures MappingOk(m', h) { MappingStays(m, e, h); }
    forall h: nat, k: nat ensures InMapping(m', h, k) <==> InMapping(m, h, k) {}
    forall h: nat, k: nat | InMapping(m', h, k) ensures k !in m'.vm.mapped {
      if e.Cache? { ClientsGrow(m.vm, e.v, k); } else { ReturnFine(m, e.th, e.chunk); }
    }
  }

  // ---- The index stays exact -----------------------------------------------------------------------------

  lemma ReindexedLook(index: map<nat, nat>, owner: map<nat, nat>, owner': map<nat, nat>, k: nat)
    ensures R.Look(Reindexed(index, owner, owner'), k) ==
            if k in owner' && k !in owner then Some(k)
            else if k in owner && k !in owner' then None else R.Look(index, k)
  {
    assert k in owner.Keys - owner'.Keys <==> k in owner && k !in owner';
  }

  lemma LookAt(m: Machine, k: nat, h: nat)
    requires IndexOk(m)
    ensures R.Look(m.index, k) == Some(h) <==> (k == h && h in m.sys.owner) || InMapping(m, h, k)
  {}

  /** A chunk that a step brings to the heaps or takes from them is in no mapping. */
  lemma MovedChunk(m: Machine, a: I.Action, k: nat, h: nat)
    requires Supply(m) && Mappings(m) && I.Guard(m.sys, a) && I.Safe(m.sys, a)
    requires B.SpareOf(a).Some? ==> B.SpareOf(a).value in m.held
    requires k in m.sys.owner || k in I.Apply(m.sys, a).owner
    ensures !InMapping(m, h, k)
  {
    if k !in m.sys.owner { B.OwnerGrows(m.sys, a, k); }
    OwnedMapped(m, k);
  }

  lemma StepLook(m: Machine, a: I.Action, k: nat, h: nat)
    requires Inv(m) && I.Guard(m.sys, a) && I.Safe(m.sys, a)
    requires B.SpareOf(a).Some? ==> B.SpareOf(a).value in m.held
    ensures R.Look(Reindexed(m.index, m.sys.owner, I.Apply(m.sys, a).owner), k) == Some(h) <==>
              (k == h && h in I.Apply(m.sys, a).owner) || InMapping(m, h, k)
  {
    var owner' := I.Apply(m.sys, a).owner;
    ReindexedLook(m.index, m.sys.owner, owner', k);
    LookAt(m, k, h);
    if k in m.sys.owner || k in owner' { MovedChunk(m, a, k, h); }
  }

  lemma StepParts(m: Machine, e: Event)
    requires Guard(m, e) && Fine(m, e) && e.Step?
    ensures Apply(m, e).direct == m.direct && Apply(m, e).sys == I.Apply(m.sys, e.a)
    ensures Apply(m, e).index == Reindexed(m.index, m.sys.owner, I.Apply(m.sys, e.a).owner)
    ensures B.SpareOf(e.a).Some? ==> B.SpareOf(e.a).value in m.held
  {}

  lemma IndexFrom(m: Machine, m': Machine, a: I.Action)
    requires Inv(m) && I.Guard(m.sys, a) && I.Safe(m.sys, a)
    requires B.SpareOf(a).Some? ==> B.SpareOf(a).value in m.held
    requires m'.direct == m.direct && m'.sys == I.Apply(m.sys, a)
    requires m'.index == Reindexed(m.index, m.sys.owner, I.Apply(m.sys, a).owner)
    ensures IndexOk(m')
  {
    forall k: nat, h: nat ensures R.Look(m'.index, k) == Some(h) <==> (k == h && h in m'.sys.owner) || InMapping(m', h, k) {
      StepLook(m, a, k, h);
    }
  }

  lemma StepIndex(m: Machine, e: Event)
    requires Inv(m) && Guard(m, e) && Fine(m, e) && e.Step?
    ensures IndexOk(Apply(m, e))
  {
    StepParts(m, e);
    IndexFrom(m, Apply(m, e), e.a);
  }

  lemma MapIndex(m: Machine, e: Event)
    requires Inv(m) && Guard(m, e) && Fine(m, e) && e.MapDirect?
    ensures IndexOk(Apply(m, e))
  {
    var m', p := Apply(m, e), Payload(e.offset, e.size);
    var n := Total(p) / CHUNK;
    NewMapping(m, e.base, p);
    forall k: nat, h: nat ensures R.Look(m'.index, k) == Some(h) <==> (k == h && h in m'.sys.owner) || InMapping(m', h, k) {
      R.SetAllLook(m.index, e.base, n, e.base, k);
      LookAt(m, k, h);
      assert InMapping(m', h, k) <==> if h == e.base then e.base <= k < e.base + n else InMapping(m, h, k);
      if e.base <= k < e.base + n && k in m.sys.owner { assert Unmapped(m, k); OwnedMapped(m, k); }
    }
  }

  lemma UnmapIndex(m: Machine, e: Event)
    requires Inv(m) && Guard(m, e) && Fine(m, e) && e.Unmap?
    ensures IndexOk(Apply(m, e))
  {
    var m', g := Apply(m, e), e.base;
    assert MappingOk(m, g);
    var n := Total(m.direct[g]) / CHUNK;
    forall k: nat, h: nat ensures R.Look(m'.index, k) == Some(h) <==> (k == h && h in m'.sys.owner) || InMapping(m', h, k) {
      R.ClearAllLook(m.index, g, n, k);
      LookAt(m, k, h);
      assert InMapping(m', h, k) <==> h != g && InMapping(m, h, k);
      if InMapping(m, g, k) && k in m.sys.owner { OwnedMapped(m, k); }
    }
  }

  lemma QuietIndex(m: Machine, e: Event)
    requires Inv(m) && Guard(m, e) && Fine(m, e) && (e.Cache? || e.Return? || e.Write?)
    ensures IndexOk(Apply(m, e))
  {
    var m' := Apply(m, e);
    forall h: nat, k: nat ensures InMapping(m', h, k) <==> InMapping(m, h, k) {}
    forall k: nat, h: nat ensures R.Look(m'.index, k) == Some(h) <==> (k == h && h in m'.sys.owner) || InMapping(m', h, k) {
      LookAt(m, k, h);
    }
  }

  // ---- Every event --------------------------------------------------------------------------------------------

  /** In a machine that is in order every possible event is fine: the chunk an allocation formats is nobody's, what
      the protocol dereferences is there, and a released chunk passes the cache's tests. */
  lemma EventFine(m: Machine, e: Event)
    requires Inv(m) && Guard(m, e)
    ensures Fine(m, e)
  {
    match e
    case Step(a, _) => StepAllowed(m, a);
    case Return(th, x) => ReturnFine(m, th, x);
    case _ =>
  }

  lemma QuietSupply(m: Machine, e: Event)
    requires Supply(m) && Guard(m, e) && Fine(m, e) && (e.MapDirect? || e.Unmap? || e.Write?)
    ensures Supply(Apply(m, e))
  {}

  lemma EventSupply(m: Machine, e: Event)
    requires Supply(m) && Guard(m, e) && Fine(m, e)
    ensures Supply(Apply(m, e))
  {
    match e
    case Step(a, w) => StepSupply(m, a, w);
    case Cache(v, w) => CacheSupply(m, v, w);
    case Return(th, x) => ReturnFine(m, th, x); ReturnSupply(m, th, x);
    case _ => QuietSupply(m, e);
  }

  lemma EventMappings(m: Machine, e: Event)
    requires Inv(m) && Guard(m, e) && Fine(m, e)
    ensures Mappings(Apply(m, e))
  {
    if e.MapDirect? { MapMappings(m, e); }
    else if e.Cache? || e.Return? { CacheMappings(m, e); }
    else { OtherMappings(m, e); }
  }

  lemma EventIndex(m: Machine, e: Event)
    requires Inv(m) && Guard(m, e) && Fine(m, e)
    ensures IndexOk(Apply(m, e))
  {
    if e.Step? { StepIndex(m, e); }
    else if e.MapDirect? { MapIndex(m, e); }
    else if e.Unmap? { UnmapIndex(m, e); }
    else { QuietIndex(m, e); }
  }

  lemma EventInv(m: Machine, e: Event)
    requires Inv(m) && Guard(m, e) && Fine(m, e)
    ensures Inv(Apply(m, e))
  {
    EventSupply(m, e);
    EventMappings(m, e);
    EventIndex(m, e);
  }

  // ---- Runs -----------------------------------------------------------------------------------------------------

  ghost function Next(m: Machine, e: Event): Option<Machine> {
    if Guard(m, e) && Fine(m, e) then Some(Apply(m, e)) else None
  }

  ghost function Exec(m: Machine, es: seq<Event>): Option<Machine> {
    Fold((x, e) => Next(x, e), m, es)
  }

  ghost predicate Reachable(m: Machine) {
    exists es :: Exec(Boot(), es) == Some(m)
  }

  lemma NextInv(m: Machine, e: Event)
    requires Inv(m) && Next(m, e).Some?
    ensures Inv(Next(m, e).value)
  {
    EventInv(m, e);
  }

  lemma {:induction false} RunInv(m: Machine, es: seq<Event>, m': Machine)
    requires Inv(m) && Exec(m, es) == Some(m')
    ensures Inv(m')
    decreases |es|
  {
    if es != [] {
      NextInv(m, es[0]);
      RunInv(Next(m, es[0]).value, es[1..], m');
    }
  }

  lemma BootInv()
    ensures Inv(Boot())
  {
    assert P.Exec(I.Initial, []) == Some(I.Initial);
    assert VR.Exec(V.Start(), []) == Some(V.Start());
  }

  lemma EveryRun(m: Machine)
    requires Reachable(m)
    ensures Inv(m)
  {
    var es :| Exec(Boot(), es) == Some(m);
    BootInv();
    RunInv(Boot(), es, m);
  }
}
