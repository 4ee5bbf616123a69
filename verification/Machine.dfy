/** The allocator as one machine: thread-local heaps with their free protocol, the chunk cache under them, direct
    mappings, the index and byte-addressed memory, in any interleaving of steps.  Whole calls of the engines enter
    and take out chunks of the index as src/engines/slab.c:30, 70, src/engines/span.c:84, 163 and
    src/hooks/lzmalloc.c:222-225, 246-253 do. */
module Machine {
  import opened Common
  import opened ThreadHeap
  import opened Bytes
  import I = Interleaving
  import V = Vmm
  import P = ProtocolRuns
  import VR = VmmRuns
  import B = BlockBytes
  import R = Router
  import Radix
  import Routing
  import Extents

  /** A direct allocation: where its payload is in the mapping, and how long. */
  datatype Payload = Payload(offset: nat, size: nat)

  /** `held` are the chunks on their way between the cache and the heaps: given by lz_vmm_alloc_chunk and not yet
      formatted, or released and not yet given to lz_vmm_free_chunk.  `direct` is keyed by the chunk number of the
      mapping's header. */
  datatype Machine = Machine(sys: I.Sys, vm: V.Vm, held: set<nat>, direct: map<nat, Payload>, index: map<nat, nat>,
                             bytes: Memory)

  /** Steps of the heaps and of the cache, with the bytes they write; a released chunk given back; the direct path;
      a client's write into the payload of mapping `base`. */
  datatype Event =
    | Step(a: I.Action, writes: Memory)
    | Cache(v: V.Action, writes: Memory)
    | Return(th: nat, chunk: nat)
    | MapDirect(base: nat, offset: nat, size: nat)
    | Unmap(base: nat)
    | Write(base: nat, writes: Memory)

  function Boot(): Machine {
    Machine(I.Initial, V.Start(), {}, map[], map[], map[])
  }

  // ---- Direct mappings ------------------------------------------------------------------------

  function Total(p: Payload): nat {
    Routing.DirectTotal(p.offset, p.size)
  }

  /** 2 MB block `k` belongs to mapping `h`. */
  predicate InMapping(m: Machine, h: nat, k: nat) {
    h in m.direct && h <= k < h + Total(m.direct[h]) / CHUNK
  }

  predicate InPayload(m: Machine, h: nat, x: nat) {
    h in m.direct && h * CHUNK + m.direct[h].offset <= x < h * CHUNK + m.direct[h].offset + m.direct[h].size
  }

  const MAGIC: nat := 0x434F4C4C414D5A4C
  const DIRECT_TYPE: nat := 2

  /** The stores of the direct path at the start of its mapping, in order: magic, owner, type, node, canary, next and
      checksum of the chunk header, then the two sizes behind it. */
  function DirectHeader(total: nat, size: nat): seq<Field> {
    [Field(16, 24, MAGIC), Field(8, 16, 0), Field(40, 44, DIRECT_TYPE), Field(32, 36, 0), Field(24, 32, 0), Field(0, 8, 0),
     Field(36, 40, 0), Field(64, 72, total), Field(72, 80, size)]
  }

  /** A fresh mapping of `total` zero bytes at `p`, with its header written. */
  function Prepared(m: Memory, p: nat, total: nat, size: nat): Memory {
    StoreAll(Zeroed(m, p, p + total), p, DirectHeader(total, size))
  }

  function TotalAt(m: Memory, h: nat): nat {
    Load(m, h * CHUNK + 64, h * CHUNK + 72)
  }

  function SizeAt(m: Memory, h: nat): nat {
    Load(m, h * CHUNK + 72, h * CHUNK + 80)
  }

  // ---- Guards ------------------------------------------------------------------------------------

  function Unspared(a: I.Action): I.Action {
    match a
    case ReapDone(t, _) => I.ReapDone(t, None)
    case AllocPages(t, n, _) => I.AllocPages(t, n, None)
    case _ => a
  }

  /** The step is possible, and the chunk it may format is one the cache gave. */
  ghost predicate StepGuard(m: Machine, a: I.Action) {
    && I.Guard(m.sys, Unspared(a))
    && (B.SpareOf(a).Some? ==> B.SpareOf(a).value in m.held)
    && (a.Scribble? ==> a.b in m.sys.live)
  }

  /** The cache handles chunks that no client has. */
  ghost predicate CacheTouches(vm: V.Vm, v: V.Action, x: nat)
    requires V.Guard(vm, v)
  {
    x / CHUNK in V.Apply(vm, v).mapped && x / CHUNK !in vm.clients
  }

  /** The system maps memory that nothing is mapped at. */
  ghost predicate Unmapped(m: Machine, k: nat) {
    k !in m.vm.mapped && forall h :: !InMapping(m, h, k)
  }

  ghost predicate MapGuard(m: Machine, base: nat, p: Payload) {
    && base >= 1 && Fits(p) && base + Total(p) / CHUNK <= Radix.KEYS
    && (forall k: nat :: base <= k < base + Total(p) / CHUNK ==> Unmapped(m, k))
  }

  /** The payload is behind the headers, and the sums of the direct path do not wrap. */
  predicate Fits(p: Payload) {
    p.size >= 1 && 128 <= p.offset && p.offset + p.size + (CHUNK - 1) < WORD
  }

  ghost predicate Guard(m: Machine, e: Event) {
    match e
    case Step(a, w) =>
      StepGuard(m, a) && (I.Guard(m.sys, a) && I.Safe(m.sys, a) ==> forall x :: x in w ==> B.Touches(m.sys, a, x))
    case Cache(v, w) =>
      && V.Guard(m.vm, v) && !v.CallFree?
      && (v.Mapped? ==> forall k :: k in v.extent ==> Unmapped(m, k) && 1 <= k < Radix.KEYS)
      && (forall x :: x in w ==> CacheTouches(m.vm, v, x))
    case Return(th, x) => x in m.held && V.PcOf(m.vm, th).Idle?
    case MapDirect(base, offset, size) => MapGuard(m, base, Payload(offset, size))
    case Unmap(base) => base in m.direct
    case Write(base, w) => base in m.direct && forall x :: x in w ==> InPayload(m, base, x)
  }

  /** What the event relies on. */
  ghost predicate Fine(m: Machine, e: Event) {
    match e
    case Step(a, _) => I.Guard(m.sys, a) && I.Safe(m.sys, a)
    case Cache(v, _) => V.Guard(m.vm, v)
    case Return(th, x) => V.Guard(m.vm, V.CallFree(th, x))
    case _ => true
  }

  // ---- Effects -----------------------------------------------------------------------------------------

  /** A chunk that joined the heaps is entered, one that left them is taken out. */
  function Reindexed(index: map<nat, nat>, owner: map<nat, nat>, owner': map<nat, nat>): map<nat, nat> {
    (index - (owner.Keys - owner'.Keys)) + (map k | k in owner' && k !in owner :: k)
  }

  ghost function Apply(m: Machine, e: Event): Machine
    requires Guard(m, e) && Fine(m, e)
  {
    match e
    case Step(a, w) =>
      var s := I.Apply(m.sys, a);
      m.(sys := s, held := (m.held - s.owner.Keys) + (m.sys.owner.Keys - s.owner.Keys),
         index := Reindexed(m.index, m.sys.owner, s.owner), bytes := m.bytes + w)
    case Cache(v, w) =>
      var vm := V.Apply(m.vm, v);
      m.(vm := vm, held := m.held + (vm.clients - m.vm.clients), bytes := m.bytes + w)
    case Return(th, x) => m.(vm := V.Apply(m.vm, V.CallFree(th, x)), held := m.held - {x})
    case MapDirect(base, offset, size) =>
      var total := Total(Payload(offset, size));
      m.(direct := m.direct[base := Payload(offset, size)], index := R.SetAll(m.index, base, total / CHUNK, base),
         bytes := Prepared(m.bytes, base * CHUNK, total, size))
    case Unmap(base) =>
      var total := TotalAt(m.bytes, base);
      m.(direct := m.direct - {base}, index := R.ClearAll(m.index, base, total / CHUNK),
         bytes := Zeroed(m.bytes, base * CHUNK, base * CHUNK + total))
    case Write(_, w) => m.(bytes := m.bytes + w)
  }

  // ---- What the client sees --------------------------------------------------------------------------------

  /** A block of a heap, or a direct mapping. */
  datatype Place = HeapBlock(b: Block) | Mapping(h: nat)

  /** Not yet taken back by its owner, or not yet unmapped. */
  predicate Held(m: Machine, p: Place) {
    match p
    case HeapBlock(b) => I.Outstanding(m.sys, b)
    case Mapping(h) => h in m.direct
  }

  /** With its client. */
  predicate Live(m: Machine, p: Place) {
    match p
    case HeapBlock(b) => b in m.sys.live
    case Mapping(h) => h in m.direct
  }

  /** The address the client got. */
  function From(m: Machine, p: Place): nat
    requires Held(m, p)
  {
    match p
    case HeapBlock(b) => Extents.Begin(B.HeapOf(m.sys, b), b)
    case Mapping(h) => h * CHUNK + m.direct[h].offset
  }

  /** Its bytes from there on. */
  function Size(m: Machine, p: Place): nat
    requires Held(m, p)
  {
    match p
    case HeapBlock(b) => Extents.Len(B.HeapOf(m.sys, b), b)
    case Mapping(h) => m.direct[h].size
  }

  /** The chunk number of its header. */
  function Header(p: Place): nat {
    match p
    case HeapBlock(b) => b.chunk
    case Mapping(h) => h
  }

  predicate InPlace(m: Machine, p: Place, x: nat) {
    Held(m, p) && From(m, p) <= x < From(m, p) + Size(m, p)
  }

  /** lz_malloc_usable_size: through the index to the header, and there to the direct size, the slab's block size or
      the span's table. */
  function UsableAt(m: Machine, x: nat): nat {
    if x == 0 then 0
    else
      match R.Look(m.index, Radix.Key(x))
      case None => 0
      case Some(h) =>
        if h in m.direct then SizeAt(m.bytes, h)
        else if h in m.sys.owner && m.sys.owner[h] in m.sys.tlhs then EngineSize(m.sys.tlhs[m.sys.owner[h]].heap, h, x)
        else 0
  }

  function EngineSize(heap: Heap, h: nat, x: nat): nat {
    if h !in heap.kinds then 0
    else
      match heap.kinds[h]
      case SlabOf(sc) => Extents.SizeOf(sc)
      case SpanChunk =>
        if h in heap.spans && h * CHUNK <= x && (x - h * CHUNK) / PAGE < |heap.spans[h].lens|
        then heap.spans[h].lens[(x - h * CHUNK) / PAGE] * PAGE
        else 0
  }
}
