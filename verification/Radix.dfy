/** The two-level index from chunk addresses to chunk headers (src/core/rtree.h, src/core/rtree.c), with racing
    setters and readers, against an atomic map. */
module Radix {
  import opened Common
  import opened Bits

  // ---- The index split --------------------------------------------------------------

  const L1_BITS: nat := 13
  const L2_BITS: nat := 14
  const CHUNK_SHIFT: nat := 21
  const L1_ENTRIES: nat := 8192
  const L2_ENTRIES: nat := 16384
  const KEYS: nat := 134217728        // 2^27 slots in all leaves together

  function L2(addr: nat): nat {
    And(Shr(addr, CHUNK_SHIFT), Pow2(L2_BITS) - 1)
  }

  function L1(addr: nat): nat {
    And(Shr(Shr(addr, CHUNK_SHIFT), L2_BITS), Pow2(L1_BITS) - 1)
  }

  lemma Powers()
    ensures Pow2(CHUNK_SHIFT) == CHUNK && Pow2(L2_BITS) == L2_ENTRIES && Pow2(L1_BITS) == L1_ENTRIES
  {
    assert Pow2(4) == 16;
    Pow2Add(4, 4);
    Pow2Add(8, 4);
    assert Pow2(12) == 4096;
    Pow2Add(12, 8);
    assert Pow2(13) == 8192;
    assert Pow2(14) == 16384;
    assert Pow2(20) == 1048576;
    assert Pow2(21) == 2097152;
  }

  lemma Indexes(addr: nat)
    ensures L2(addr) == addr / CHUNK % L2_ENTRIES
    ensures L1(addr) == addr / CHUNK / L2_ENTRIES % L1_ENTRIES
  {
    Powers();
    ShrIsDivision(addr, CHUNK_SHIFT);
    ShrIsDivision(addr / CHUNK, L2_BITS);
    MaskRemainder(addr / CHUNK, L2_BITS);
    MaskRemainder(addr / CHUNK / L2_ENTRIES, L1_BITS);
  }

  /** The slot an address reaches. */
  function Key(addr: nat): nat {
    L1(addr) * L2_ENTRIES + L2(addr)
  }

  /** The two indexes are within their tables, and are read back from the slot. */
  lemma KeySplits(addr: nat)
    ensures L1(addr) < L1_ENTRIES && L2(addr) < L2_ENTRIES
    ensures Key(addr) < KEYS && Key(addr) / L2_ENTRIES == L1(addr) && Key(addr) % L2_ENTRIES == L2(addr)
  {
    Indexes(addr);
  }

  /** A slot is the chunk number modulo 2^27. */
  lemma KeyIs(addr: nat)
    ensures Key(addr) == addr / CHUNK % KEYS
  {
    Indexes(addr);
    SplitMod(addr / CHUNK);
  }

  lemma SplitMod(b: nat)
    ensures b / L2_ENTRIES % L1_ENTRIES * L2_ENTRIES + b % L2_ENTRIES == b % KEYS
  {
  }

  /** Two addresses share a slot exactly when their chunk numbers agree modulo 2^27. */
  lemma SplitExact(a: nat, b: nat)
    ensures L1(a) == L1(b) && L2(a) == L2(b) <==> a / CHUNK % KEYS == b / CHUNK % KEYS
  {
    KeyIs(a);
    KeyIs(b);
    KeySplits(a);
    KeySplits(b);
  }

  lemma ChunkNumber(a: nat)
    requires a < CHUNK * KEYS
    ensures a / CHUNK % KEYS == a / CHUNK
  {}

  /** On 48-bit addresses the split is injective: one slot for each chunk. */
  lemma SplitInjective(a: nat, b: nat)
    requires a < CHUNK * KEYS && b < CHUNK * KEYS
    ensures L1(a) == L1(b) && L2(a) == L2(b) <==> a / CHUNK == b / CHUNK
  {
    SplitExact(a, b);
    ChunkNumber(a);
    ChunkNumber(b);
  }

  // ---- Racing threads --------------------------------------------------------------------

  /** Control points of lz_rtree_set and lz_rtree_get. */
  datatype Pc =
    | Idle
    | SetLoad(addr: nat, meta: Option<nat>)
    | SetMap(addr: nat, meta: Option<nat>)
    | SetCas(addr: nat, meta: Option<nat>, mine: nat)
    | SetStore(addr: nat, meta: Option<nat>, leaf: nat)
    | GetLoad(addr: nat)
    | GetEntry(addr: nat, leaf: nat)

  /** `root` holds the leaf pointers that are not null; `leaves` the mapped leaves, each with its entries that are
      not null. */
  datatype Tree = Tree(root: map<nat, nat>, leaves: map<nat, map<nat, nat>>, threads: map<nat, Pc>)

  /** Calls, the system's answers to a request for a leaf, and the next step of a thread. */
  datatype Action =
    | CallSet(th: nat, addr: nat, meta: Option<nat>)
    | CallGet(th: nat, addr: nat)
    | Mapped(th: nat, fresh_: nat)
    | MapFails(th: nat)
    | Go(th: nat)

  const START := Tree(map[], map[], map[])

  function PcOf(c: Tree, th: nat): Pc {
    if th in c.threads then c.threads[th] else Idle
  }

  function At(c: Tree, th: nat, pc: Pc): Tree {
    c.(threads := c.threads[th := pc])
  }

  predicate Guard(c: Tree, a: Action) {
    match a
    case CallSet(th, _, _) => PcOf(c, th).Idle?
    case CallGet(th, _) => PcOf(c, th).Idle?
    case Mapped(th, x) => PcOf(c, th).SetMap? && x !in c.leaves
    case MapFails(th) => PcOf(c, th).SetMap?
    case Go(th) =>
      var pc := PcOf(c, th);
      pc.SetLoad? || pc.SetCas? || pc.SetStore? || pc.GetLoad? || pc.GetEntry?
  }

  function Entry(leaf: map<nat, nat>, i: nat): Option<nat> {
    if i in leaf then Some(leaf[i]) else None
  }

  function Store(leaf: map<nat, nat>, i: nat, meta: Option<nat>): map<nat, nat> {
    match meta case None => leaf - {i} case Some(m) => leaf[i := m]
  }

  /** A pointer to a leaf that is gone would be a fault. */
  predicate Safe(c: Tree, a: Action) {
    a.Go? ==> (PcOf(c, a.th).SetStore? || PcOf(c, a.th).GetEntry? ==> PcOf(c, a.th).leaf in c.leaves)
  }

  function Apply(c: Tree, a: Action): Tree
    requires Guard(c, a) && Safe(c, a)
  {
    match a
    case CallSet(th, addr, meta) => At(c, th, SetLoad(addr, meta))
    case CallGet(th, addr) => At(c, th, GetLoad(addr))
    case Mapped(th, x) => At(c, th, SetCas(PcOf(c, th).addr, PcOf(c, th).meta, x)).(leaves := c.leaves[x := map[]])
    case MapFails(th) => At(c, th, Idle)
    case Go(th) =>
      match PcOf(c, th)
      case SetLoad(addr, meta) =>
        if L1(addr) in c.root then At(c, th, SetStore(addr, meta, c.root[L1(addr)]))
        else if meta.None? then At(c, th, Idle)
        else At(c, th, SetMap(addr, meta))
      case SetCas(addr, meta, mine) =>
        if L1(addr) in c.root then At(c, th, SetStore(addr, meta, c.root[L1(addr)])).(leaves := c.leaves - {mine})
        else At(c, th, SetStore(addr, meta, mine)).(root := c.root[L1(addr) := mine])
      case SetStore(addr, meta, leaf) =>
        At(c, th, Idle).(leaves := c.leaves[leaf := Store(c.leaves[leaf], L2(addr), meta)])
      case GetLoad(addr) => At(c, th, if L1(addr) in c.root then GetEntry(addr, c.root[L1(addr)]) else Idle)
      case GetEntry(_, _) => At(c, th, Idle)
      case _ => c
  }

  // ---- The atomic map ------------------------------------------------------------------------

  /** The effect of a call on a map from slots to headers: a store, or a read and what it returned. */
  datatype Event = Put(key: nat, meta: Option<nat>) | Got(key: nat, meta: Option<nat>)

  /** The effect that a step is, if it is the one at which its call takes effect. */
  function Emits(c: Tree, a: Action): seq<Event>
    requires Guard(c, a) && Safe(c, a)
  {
    if !a.Go? then []
    else
      match PcOf(c, a.th)
      case SetLoad(addr, meta) => if L1(addr) !in c.root && meta.None? then [Put(Key(addr), None)] else []
      case SetStore(addr, meta, _) => [Put(Key(addr), meta)]
      case GetLoad(addr) => if L1(addr) in c.root then [] else [Got(Key(addr), None)]
      case GetEntry(addr, leaf) => [Got(Key(addr), Entry(c.leaves[leaf], L2(addr)))]
      case _ => []
  }

  /** What a reader that starts and ends now would find. */
  function Find(c: Tree, key: nat): Option<nat> {
    if key / L2_ENTRIES in c.root && c.root[key / L2_ENTRIES] in c.leaves
    then Entry(c.leaves[c.root[key / L2_ENTRIES]], key % L2_ENTRIES)
    else None
  }

  function Look(m: map<nat, nat>, key: nat): Option<nat> {
    if key in m then Some(m[key]) else None
  }

  /** The events are what a sequential map starting as `m` would do and answer. */
  ghost predicate Legal(m: map<nat, nat>, events: seq<Event>)
    decreases |events|
  {
    events == [] ||
    (match events[0]
     case Put(k, meta) => Legal(Store(m, k, meta), events[1..])
     case Got(k, meta) => meta == Look(m, k) && Legal(m, events[1..]))
  }

  function After(m: map<nat, nat>, events: seq<Event>): map<nat, nat>
    decreases |events|
  {
    if events == [] then m
    else After(if events[0].Put? then Store(m, events[0].key, events[0].meta) else m, events[1..])
  }

  // ---- The invariant ---------------------------------------------------------------------------

  ghost predicate RootOk(c: Tree) {
    && (forall i :: i in c.root ==> c.root[i] in c.leaves)
    && (forall i, j :: i in c.root && j in c.root && i != j ==> c.root[i] != c.root[j])
  }

  ghost predicate PcOk(c: Tree, th: nat) {
    match PcOf(c, th)
    case SetCas(_, _, mine) =>
      && mine in c.leaves && c.leaves[mine] == map[]
      && (forall i :: i in c.root ==> c.root[i] != mine)
      && (forall u: nat :: u != th && PcOf(c, u).SetCas? ==> PcOf(c, u).mine != mine)
    case SetStore(addr, _, leaf) => L1(addr) in c.root && c.root[L1(addr)] == leaf
    case GetEntry(addr, leaf) => L1(addr) in c.root && c.root[L1(addr)] == leaf
    case _ => true
  }

  ghost predicate Inv(c: Tree) {
    RootOk(c) && forall th: nat :: PcOk(c, th)
  }

  lemma StepSafe(c: Tree, a: Action)
    requires Inv(c) && Guard(c, a)
    ensures Safe(c, a)
  {
    assert PcOk(c, a.th);
  }

  lemma StepInv(c: Tree, a: Action)
    requires Inv(c) && Guard(c, a) && Safe(c, a)
    ensures Inv(Apply(c, a))
  {
    assert PcOk(c, a.th);
    RootStep(c, a);
    forall th: nat ensures PcOk(Apply(c, a), th) {
      assert PcOk(c, th);
      if th == a.th { OwnStep(c, a); } else { OtherStep(c, a, th); }
    }
  }

  lemma RootStep(c: Tree, a: Action)
    requires RootOk(c) && Guard(c, a) && Safe(c, a) && PcOk(c, a.th)
    ensures RootOk(Apply(c, a))
  {}

  lemma OwnStep(c: Tree, a: Action)
    requires RootOk(c) && Guard(c, a) && Safe(c, a) && forall th: nat :: PcOk(c, th)
    ensures PcOk(Apply(c, a), a.th)
  {
    var c' := Apply(c, a);
    if a.Mapped? {
      forall i | i in c'.root ensures c'.root[i] != a.fresh_ { assert c.root[i] in c.leaves; }
      forall u: nat | u != a.th && PcOf(c', u).SetCas? ensures PcOf(c', u).mine != a.fresh_ { assert PcOk(c, u); }
    }
    assert PcOk(c, a.th);
  }

  lemma OtherStep(c: Tree, a: Action, th: nat)
    requires RootOk(c) && Guard(c, a) && Safe(c, a) && PcOk(c, a.th) && PcOk(c, th) && th != a.th
    ensures PcOk(Apply(c, a), th)
  {
    var c' := Apply(c, a);
    assert PcOf(c', th) == PcOf(c, th);
    if PcOf(c, th).SetCas? { OtherCas(c, a, th); }
  }

  lemma OtherCas(c: Tree, a: Action, th: nat)
    requires RootOk(c) && Guard(c, a) && Safe(c, a) && PcOk(c, a.th) && PcOk(c, th) && th != a.th && PcOf(c, th).SetCas?
    ensures PcOk(Apply(c, a), th)
  {
    var c', mine := Apply(c, a), PcOf(c, th).mine;
    assert PcOf(c, a.th).SetStore? ==> c.root[L1(PcOf(c, a.th).addr)] != mine;
    assert c'.leaves[mine] == c.leaves[mine];
    forall i | i in c'.root ensures c'.root[i] != mine {
      assert i in c.root || PcOf(c, a.th).SetCas?;
    }
    forall u: nat | u != th && PcOf(c', u).SetCas? ensures PcOf(c', u).mine != mine {
      if u != a.th { assert PcOf(c', u) == PcOf(c, u); }
    }
  }

  /** An installed leaf is never replaced or unmapped. */
  lemma LeafStays(c: Tree, a: Action, i: nat)
    requires Inv(c) && Guard(c, a) && Safe(c, a) && i in c.root
    ensures i in Apply(c, a).root && Apply(c, a).root[i] == c.root[i] && c.root[i] in Apply(c, a).leaves
  {
    assert PcOk(c, a.th);
  }

  // ---- Refinement ------------------------------------------------------------------------------------

  /** The tree and the map give the same answers. */
  ghost predicate Agrees(c: Tree, m: map<nat, nat>) {
    && (forall k: nat :: k < KEYS ==> Find(c, k) == Look(m, k))
    && (forall k :: k in m ==> k < KEYS)
  }

  /** A store reaches every later reader: it changes the answer for its slot and for no other. */
  lemma StoreFound(c: Tree, th: nat, key: nat)
    requires Inv(c) && PcOf(c, th).SetStore? && Safe(c, Go(th)) && key < KEYS
    ensures Find(Apply(c, Go(th)), key) == if key == Key(PcOf(c, th).addr) then PcOf(c, th).meta else Find(c, key)
  {
    var addr := PcOf(c, th).addr;
    assert PcOk(c, th);
    KeySplits(addr);
    assert key / L2_ENTRIES == L1(addr) && key % L2_ENTRIES == L2(addr) ==> key == Key(addr);
  }

  /** Every other step leaves every answer alone, the installation of an empty leaf included. */
  lemma QuietFound(c: Tree, a: Action, key: nat)
    requires Inv(c) && Guard(c, a) && Safe(c, a) && (a.Go? ==> !PcOf(c, a.th).SetStore?)
    ensures Find(Apply(c, a), key) == Find(c, key)
  {
    assert PcOk(c, a.th);
  }

  /** One step of any thread is the event it emits on the atomic map, or nothing. */
  lemma StepRefines(c: Tree, m: map<nat, nat>, a: Action)
    requires Inv(c) && Agrees(c, m) && Guard(c, a) && Safe(c, a)
    ensures Legal(m, Emits(c, a)) && Agrees(Apply(c, a), After(m, Emits(c, a)))
  {
    var c', es := Apply(c, a), Emits(c, a);
    if a.Go? { assert PcOk(c, a.th); KeySplits(KeyAddr(PcOf(c, a.th))); }
    if a.Go? && PcOf(c, a.th).SetStore? {
      forall k: nat | k < KEYS ensures Find(c', k) == Look(After(m, es), k) { StoreFound(c, a.th, k); }
    } else {
      ReadLegal(c, m, a);
      forall k: nat | k < KEYS ensures Find(c', k) == Look(After(m, es), k) { QuietFound(c, a, k); }
    }
  }

  function KeyAddr(pc: Pc): nat {
    if pc.Idle? then 0 else pc.addr
  }

  /** A read answers what the map holds, and a clear that finds no leaf has nothing to clear. */
  lemma ReadLegal(c: Tree, m: map<nat, nat>, a: Action)
    requires Inv(c) && Agrees(c, m) && Guard(c, a) && Safe(c, a) && (a.Go? ==> !PcOf(c, a.th).SetStore?)
    ensures Legal(m, Emits(c, a)) && After(m, Emits(c, a)) == m
  {
    if a.Go? {
      var addr := KeyAddr(PcOf(c, a.th));
      assert PcOk(c, a.th);
      KeySplits(addr);
      assert Find(c, Key(addr)) == Look(m, Key(addr));
      var es := Emits(c, a);
      if es != [] { assert es[1..] == []; }
    }
  }

  /** The run and the events it emits, if each action was possible when it was taken. */
  ghost function Run(c: Tree, acts: seq<Action>): Option<(Tree, seq<Event>)>
    decreases |acts|
  {
    if acts == [] then Some((c, []))
    else if Guard(c, acts[0]) && Safe(c, acts[0]) then
      (match Run(Apply(c, acts[0]), acts[1..])
       case None => None
       case Some(r) => Some((r.0, Emits(c, acts[0]) + r.1)))
    else None
  }

  /** An action that its guard allows never touches an unmapped leaf, whatever ran before. */
  lemma {:induction false} RunRefines(c: Tree, m: map<nat, nat>, acts: seq<Action>, c': Tree, es: seq<Event>)
    requires Inv(c) && Agrees(c, m) && Run(c, acts) == Some((c', es))
    ensures Inv(c') && Legal(m, es) && Agrees(c', After(m, es))
    decreases |acts|
  {
    if acts != [] {
      var d, e := Apply(c, acts[0]), Emits(c, acts[0]);
      var r := Run(d, acts[1..]).value.1;
      StepInv(c, acts[0]);
      StepRefines(c, m, acts[0]);
      RunRefines(d, After(m, e), acts[1..], c', r);
      Concat(m, e, r);
    }
  }

  lemma Concat(m: map<nat, nat>, e: seq<Event>, r: seq<Event>)
    requires |e| <= 1 && Legal(m, e) && Legal(After(m, e), r)
    ensures Legal(m, e + r) && After(m, e + r) == After(After(m, e), r)
  {
    if e == [] { assert e + r == r; } else { Cons(m, e[0], r); assert e == [e[0]]; }
  }

  lemma Cons(m: map<nat, nat>, e: Event, r: seq<Event>)
    requires (e.Got? ==> e.meta == Look(m, e.key)) && Legal(After(m, [e]), r)
    ensures Legal(m, [e] + r) && After(m, [e] + r) == After(After(m, [e]), r)
  {
    var m' := if e.Put? then Store(m, e.key, e.meta) else m;
    assert ([e] + r)[1..] == r && [e][1..] == [];
    assert After(m, [e]) == After(m', []);
    assert After(m', []) == m';
  }

  /** Linearizability: in every interleaving the calls take effect one after the other on a plain map, each at one
      of its own steps, every answer is that map's, and no installed update is lost. */
  lemma Linearizable(acts: seq<Action>, c: Tree, es: seq<Event>)
    requires Run(START, acts) == Some((c, es))
    ensures Legal(map[], es) && forall k: nat :: k < KEYS ==> Find(c, k) == Look(After(map[], es), k)
  {
    RunRefines(START, map[], acts, c, es);
  }

  /** A call takes effect exactly once, at its last step, on its own slot and with its own value; it ends without
      effect only when the system refuses a leaf. */
  lemma OneEffect(c: Tree, a: Action)
    requires Guard(c, a) && Safe(c, a) && !PcOf(c, a.th).Idle?
    ensures PcOf(Apply(c, a), a.th).Idle? <==> Emits(c, a) != [] || a.MapFails?
    ensures Emits(c, a) != [] ==>
              && |Emits(c, a)| == 1 && Emits(c, a)[0].key == Key(PcOf(c, a.th).addr)
              && (PcOf(c, a.th).SetLoad? || PcOf(c, a.th).SetStore? ==>
                    Emits(c, a)[0] == Put(Key(PcOf(c, a.th).addr), PcOf(c, a.th).meta))
    ensures Emits(c, a) == [] && !a.MapFails? ==> PcOf(Apply(c, a), a.th).addr == PcOf(c, a.th).addr
  {}

  lemma NeverFaults(acts: seq<Action>, c: Tree, es: seq<Event>, a: Action)
    requires Run(START, acts) == Some((c, es)) && Guard(c, a)
    ensures Safe(c, a)
  {
    RunRefines(START, map[], acts, c, es);
    StepSafe(c, a);
  }

  // ---- What was asked -----------------------------------------------------------------------------------

  predicate IsCall(a: Action, th: nat) {
    a.th == th && (a.CallSet? || a.CallGet?)
  }

  /** The thread's latest call in the run; `was` is the one before it. */
  function Latest(acts: seq<Action>, th: nat, was: Option<Action>): Option<Action>
    decreases |acts|
  {
    if acts == [] then was else Latest(acts[1..], th, if IsCall(acts[0], th) then Some(acts[0]) else was)
  }

  /** The control point is one of the call, with its arguments. */
  predicate Carries(pc: Pc, th: nat, call: Option<Action>) {
    match pc
    case Idle => true
    case SetLoad(addr, meta) => call == Some(CallSet(th, addr, meta))
    case SetMap(addr, meta) => call == Some(CallSet(th, addr, meta)) && meta.Some?
    case SetCas(addr, meta, _) => call == Some(CallSet(th, addr, meta)) && meta.Some?
    case SetStore(addr, meta, _) => call == Some(CallSet(th, addr, meta))
    case GetLoad(addr) => call == Some(CallGet(th, addr))
    case GetEntry(addr, _) => call == Some(CallGet(th, addr))
  }

  lemma StepCarries(c: Tree, a: Action, th: nat, call: Option<Action>)
    requires Guard(c, a) && Safe(c, a) && Carries(PcOf(c, th), th, call)
    ensures Carries(PcOf(Apply(c, a), th), th, if IsCall(a, th) then Some(a) else call)
  {
    if a.th != th { assert PcOf(Apply(c, a), th) == PcOf(c, th); }
  }

  lemma {:induction false} RunCarries(c: Tree, acts: seq<Action>, c': Tree, es: seq<Event>, th: nat, call: Option<Action>)
    requires Run(c, acts) == Some((c', es)) && Carries(PcOf(c, th), th, call)
    ensures Carries(PcOf(c', th), th, Latest(acts, th, call))
    decreases |acts|
  {
    if acts != [] {
      StepCarries(c, acts[0], th, call);
      var d := Apply(c, acts[0]);
      RunCarries(d, acts[1..], c', Run(d, acts[1..]).value.1, th, if IsCall(acts[0], th) then Some(acts[0]) else call);
    }
  }

  /** In every run a call ends with the one effect it was called for: a set stores its own value into the slot of its
      own address, a get reads that slot; only a set of a header can end without effect, when the system refuses a
      leaf. */
  lemma EffectAsAsked(acts: seq<Action>, c: Tree, es: seq<Event>, a: Action)
    requires Run(START, acts) == Some((c, es)) && Guard(c, a) && Safe(c, a) && !PcOf(c, a.th).Idle?
    ensures Latest(acts, a.th, None).Some?
    ensures PcOf(Apply(c, a), a.th).Idle? <==> Emits(c, a) != [] || a.MapFails?
    ensures match Latest(acts, a.th, None).value
            case CallSet(_, addr, meta) =>
              (Emits(c, a) == [] || Emits(c, a) == [Put(Key(addr), meta)]) && (a.MapFails? ==> meta.Some?)
            case CallGet(_, addr) =>
              !a.MapFails? && (Emits(c, a) != [] ==> |Emits(c, a)| == 1 && Emits(c, a)[0] == Got(Key(addr), Find(c, Key(addr))))
            case _ => false
  {
    RunCarries(START, acts, c, es, a.th, None);
    RunRefines(START, map[], acts, c, es);
    if PcOf(c, a.th).GetLoad? || PcOf(c, a.th).GetEntry? {
      KeySplits(PcOf(c, a.th).addr);
      assert PcOk(c, a.th);
    }
  }

  /** A mapped leaf is installed, or in the hand of a thread about to install it. */
  ghost predicate Placed(c: Tree, x: nat) {
    (exists i: nat :: Installed(c, i, x)) || exists th: nat :: Brings(c, th, x)
  }

  predicate Installed(c: Tree, i: nat, x: nat) {
    i in c.root && c.root[i] == x
  }

  predicate Brings(c: Tree, th: nat, x: nat) {
    PcOf(c, th).SetCas? && PcOf(c, th).mine == x
  }

  lemma StepPlaced(c: Tree, a: Action, x: nat)
    requires Inv(c) && Guard(c, a) && Safe(c, a) && x in Apply(c, a).leaves && (x in c.leaves ==> Placed(c, x))
    ensures Placed(Apply(c, a), x)
  {
    if x !in c.leaves {
      NewLeaf(c, a, x);
    } else if i: nat :| Installed(c, i, x) {
      LeafStays(c, a, i);
      assert Installed(Apply(c, a), i, x);
    } else {
      var th: nat :| Brings(c, th, x);
      BroughtLeaf(c, a, th, x);
    }
  }

  lemma NewLeaf(c: Tree, a: Action, x: nat)
    requires Inv(c) && Guard(c, a) && Safe(c, a) && x in Apply(c, a).leaves && x !in c.leaves
    ensures Placed(Apply(c, a), x)
  {
    assert PcOk(c, a.th);
    assert Brings(Apply(c, a), a.th, x);
  }

  lemma BroughtLeaf(c: Tree, a: Action, th: nat, x: nat)
    requires Guard(c, a) && Safe(c, a) && x in Apply(c, a).leaves && Brings(c, th, x)
    ensures Placed(Apply(c, a), x)
  {
    if th != a.th {
      assert Brings(Apply(c, a), th, x);
    } else {
      assert Installed(Apply(c, a), L1(PcOf(c, th).addr), x);
    }
  }

  lemma {:induction false} RunPlaced(c: Tree, acts: seq<Action>, c': Tree, es: seq<Event>, x: nat)
    requires Inv(c) && Run(c, acts) == Some((c', es)) && (x in c.leaves ==> Placed(c, x)) && x in c'.leaves
    ensures Placed(c', x)
    decreases |acts|
  {
    if acts != [] {
      var d := Apply(c, acts[0]);
      if x in d.leaves { StepPlaced(c, acts[0], x); }
      StepInv(c, acts[0]);
      RunPlaced(d, acts[1..], c', Run(d, acts[1..]).value.1, x);
    }
  }

  /** No leaf leaks: in every run each mapped leaf is installed or about to be, so the loser of a race has unmapped
      its own. */
  lemma NoLeafLeaks(acts: seq<Action>, c: Tree, es: seq<Event>, x: nat)
    requires Run(START, acts) == Some((c, es)) && x in c.leaves
    ensures Placed(c, x)
  {
    RunPlaced(START, acts, c, es, x);
  }
}
