/** The bootstrap allocator (src/hooks/posix_hooks.c:38-64): racing threads bump one offset over a static heap with
    a compare-and-swap loop. */
module BaseHeap {
  import opened Common
  import opened Bits

  const HEAP_BYTES: nat := 4194304
  const ABI_ALIGN: nat := 16
  const HEADER: nat := 16

  /** A region taken by a successful exchange: the header at `at`, then the payload. */
  datatype Claim = Claim(at: nat, align: nat, size: nat)

  datatype Pc = Idle | Trying(align: nat, size: nat, seen: nat) | Won(mine: nat)

  /** `base` is the heap's address; `claims` lists the successful exchanges in order, and `returned` the positions
      of those whose block was given to its caller. */
  datatype Base = Base(base: nat, offset: nat, claims: seq<Claim>, returned: set<nat>, threads: map<nat, Pc>,
                       trapped: bool)

  /** A call up to its load of the offset, one round of the exchange loop, and the rest of the call. */
  datatype Action = Call(th: nat, align: nat, size: nat) | Exchange(th: nat, spurious: bool) | Finish(th: nat)

  function Start(base: nat): Base {
    Base(base, 0, [], {}, map[], false)
  }

  function PcOf(c: Base, th: nat): Pc {
    if th in c.threads then c.threads[th] else Idle
  }

  /** The offset of the header for a request made at offset `seen`. */
  function Place(base: nat, seen: nat, align: nat): int
    requires align >= 1
  {
    AlignUp(base + seen + HEADER, align) - HEADER - base
  }

  function End(c: Claim): nat {
    c.at + HEADER + AlignUp(c.size, ABI_ALIGN)
  }

  predicate Guard(c: Base, a: Action) {
    && !c.trapped
    && match a
       case Call(th, align, _) => PcOf(c, th).Idle? && PowerOfTwoTest(align)
       case Exchange(th, _) => PcOf(c, th).Trying?
       case Finish(th) => PcOf(c, th).Won?
  }

  predicate Safe(c: Base, a: Action) {
    match a
    case Call(_, _, _) => true
    case Exchange(th, _) =>
      PcOf(c, th).Trying? ==> PcOf(c, th).align >= 1 && Place(c.base, PcOf(c, th).seen, PcOf(c, th).align) >= 0
    case Finish(th) => PcOf(c, th).Won? ==> PcOf(c, th).mine < |c.claims|
  }

  function At(c: Base, th: nat, pc: Pc): Base {
    c.(threads := c.threads[th := pc])
  }

  function Apply(c: Base, a: Action): Base
    requires Guard(c, a) && Safe(c, a)
  {
    match a
    case Call(th, align, size) =>
      At(c, th, Trying(if align < ABI_ALIGN then ABI_ALIGN else align, if size == 0 then ABI_ALIGN else size, c.offset))
    case Exchange(th, spurious) =>
      var pc := PcOf(c, th);
      var claim := Claim(Place(c.base, pc.seen, pc.align), pc.align, pc.size);
      if spurious || c.offset != pc.seen then At(c, th, Trying(pc.align, pc.size, c.offset))
      else At(c, th, Won(|c.claims|)).(offset := End(claim), claims := c.claims + [claim])
    case Finish(th) =>
      var i := PcOf(c, th).mine;
      if End(c.claims[i]) > HEAP_BYTES then c.(trapped := true)
      else At(c, th, Idle).(returned := c.returned + {i})
  }

  // ---- The invariant ----------------------------------------------------------------------

  ghost predicate ClaimOk(base: nat, c: Claim) {
    && c.align >= ABI_ALIGN && c.at % ABI_ALIGN == 0 && c.size >= 1
    && (base + c.at + HEADER) % c.align == 0
  }

  /** The offset at which claim `i` was made. */
  function Before(claims: seq<Claim>, i: nat): nat
    requires i <= |claims|
  {
    if i == 0 then 0 else End(claims[i - 1])
  }

  /** Less than its alignment is skipped in front of a claim. */
  predicate TightAt(claims: seq<Claim>, i: nat)
    requires i < |claims|
  {
    claims[i].at < Before(claims, i) + claims[i].align
  }

  ghost predicate Tight(claims: seq<Claim>) {
    forall i: nat :: i < |claims| ==> TightAt(claims, i)
  }

  /** Each region starts at or after the end of every earlier one, and the offset is the end of the last. */
  ghost predicate Stacked(c: Base) {
    && (forall i :: 0 <= i < |c.claims| ==> ClaimOk(c.base, c.claims[i]) && End(c.claims[i]) <= c.offset)
    && (forall i, j :: 0 <= i < j < |c.claims| ==> End(c.claims[i]) <= c.claims[j].at)
    && c.offset % ABI_ALIGN == 0
    && c.offset == if c.claims == [] then 0 else End(c.claims[|c.claims| - 1])
  }

  ghost predicate PcOk(c: Base, pc: Pc) {
    match pc
    case Idle => true
    case Trying(align, size, seen) =>
      size >= 1 && align >= ABI_ALIGN && seen <= c.offset && seen % ABI_ALIGN == 0 && IsPower(align)
    case Won(i) => i < |c.claims| && i !in c.returned
  }

  ghost predicate IsPower(a: nat) {
    exists k: nat :: a == Pow2(k)
  }

  /** No other thread won the same region. */
  ghost predicate Alone(c: Base, th: nat) {
    PcOf(c, th).Won? ==> forall u: nat :: u != th && PcOf(c, u).Won? ==> PcOf(c, u).mine != PcOf(c, th).mine
  }

  ghost predicate Inv(c: Base) {
    && c.base % ABI_ALIGN == 0 && Stacked(c) && Tight(c.claims)
    && (forall th: nat :: PcOk(c, PcOf(c, th)))
    && (forall th: nat :: Alone(c, th))
    && (forall i :: i in c.returned ==> i < |c.claims| && End(c.claims[i]) <= HEAP_BYTES)
  }

  // ---- Arithmetic of one claim ---------------------------------------------------------------

  /** Every power of two from 16 up is a multiple of 16. */
  lemma {:induction false} PowerMultiple(k: nat)
    requires Pow2(k) >= ABI_ALIGN
    ensures Pow2(k) % ABI_ALIGN == 0
  {
    assert Pow2(3) == 8 && Pow2(4) == 16;
    if k <= 3 {
      Pow2Monotone(k, 3);
    } else {
      Pow2Add(k - 4, 4);
    }
  }

  lemma MultipleOf(x: nat, a: nat)
    requires a >= 1 && a % ABI_ALIGN == 0 && x % a == 0
    ensures x % ABI_ALIGN == 0
  {
    var q, p := x / a, a / ABI_ALIGN;
    assert x == a * q && a == ABI_ALIGN * p;
    assert x == ABI_ALIGN * (p * q);
    ModUnique(x, ABI_ALIGN, p * q, 0);
  }

  lemma Difference(y: nat, base: nat)
    requires y % ABI_ALIGN == 0 && base % ABI_ALIGN == 0
    ensures (y - HEADER - base) % ABI_ALIGN == 0
  {}

  /** The next multiple of a power of two from 16 up is a multiple of 16 too. */
  lemma AlignedBoth(x: nat, align: nat)
    requires align >= ABI_ALIGN && IsPower(align)
    ensures x <= AlignUp(x, align) < x + align && AlignUp(x, align) % align == 0 && AlignUp(x, align) % ABI_ALIGN == 0
  {
    var k: nat :| align == Pow2(k);
    PowerMultiple(k);
    AlignUpLeast(x, align);
    MultipleOf(AlignUp(x, align), align);
  }

  /** A request at an offset that is a multiple of 16 is placed at or after it, on a multiple of 16, with its
      payload aligned. */
  lemma PlaceOk(base: nat, seen: nat, align: nat)
    requires align >= ABI_ALIGN && IsPower(align) && base % ABI_ALIGN == 0 && seen % ABI_ALIGN == 0
    ensures seen <= Place(base, seen, align) < seen + align && Place(base, seen, align) % ABI_ALIGN == 0
    ensures (base + Place(base, seen, align) + HEADER) % align == 0
  {
    var y := AlignUp(base + seen + HEADER, align);
    AlignedBoth(base + seen + HEADER, align);
    Difference(y, base);
    assert base + Place(base, seen, align) + HEADER == y;
  }

  lemma EndOk(c: Claim)
    requires c.at % ABI_ALIGN == 0 && c.size >= 1
    ensures End(c) % ABI_ALIGN == 0 && End(c) >= c.at + HEADER + c.size && End(c) >= c.at + 2 * ABI_ALIGN
  {
    AlignUpLeast(c.size, ABI_ALIGN);
  }

  // ---- Every step ------------------------------------------------------------------------------

  lemma StepSafe(c: Base, a: Action)
    requires Inv(c)
    ensures Safe(c, a)
  {
    assert PcOk(c, PcOf(c, a.th));
    if a.Exchange? && PcOf(c, a.th).Trying? { PlaceOk(c.base, PcOf(c, a.th).seen, PcOf(c, a.th).align); }
  }

  /** Threads other than the one that moves. */
  lemma OthersOk(c: Base, c': Base, th: nat)
    requires Inv(c) && c'.threads == c.threads[th := PcOf(c', th)] && c'.offset >= c.offset && |c'.claims| >= |c.claims|
    requires forall i :: i in c'.returned ==> i in c.returned || PcOf(c, th) == Won(i)
    requires PcOk(c', PcOf(c', th))
    requires PcOf(c', th).Won? ==> PcOf(c', th).mine >= |c.claims|
    ensures forall u: nat :: PcOk(c', PcOf(c', u)) && Alone(c', u)
  {
    forall u: nat ensures PcOk(c', PcOf(c', u)) && Alone(c', u) {
      assert PcOk(c, PcOf(c, u)) && Alone(c, u);
      forall w: nat | w != u && PcOf(c', u).Won? && PcOf(c', w).Won? ensures PcOf(c', w).mine != PcOf(c', u).mine {
        assert PcOk(c, PcOf(c, w)) && Alone(c, w);
      }
    }
  }

  lemma CallInv(c: Base, th: nat, align: nat, size: nat)
    requires Inv(c) && Guard(c, Call(th, align, size))
    ensures Inv(Apply(c, Call(th, align, size)))
  {
    PowerOfTwoExact(align);
    assert Pow2(4) == ABI_ALIGN;
    OthersOk(c, Apply(c, Call(th, align, size)), th);
  }

  lemma WinStacked(c: Base, claim: Claim)
    requires Stacked(c) && ClaimOk(c.base, claim) && claim.at >= c.offset
    ensures Stacked(c.(offset := End(claim), claims := c.claims + [claim])) && End(claim) > c.offset
  {
    EndOk(claim);
  }

  lemma WinTight(c: Base, claim: Claim)
    requires Stacked(c) && Tight(c.claims) && claim.at < c.offset + claim.align
    ensures Tight(c.claims + [claim])
  {
    forall i: nat | i < |c.claims + [claim]| ensures TightAt(c.claims + [claim], i) {
      if i < |c.claims| { assert TightAt(c.claims, i); }
    }
  }

  lemma ExchangeInv(c: Base, th: nat, spurious: bool)
    requires Inv(c) && Guard(c, Exchange(th, spurious)) && Safe(c, Exchange(th, spurious))
    ensures Inv(Apply(c, Exchange(th, spurious)))
  {
    var c', pc := Apply(c, Exchange(th, spurious)), PcOf(c, th);
    assert PcOk(c, pc);
    if !spurious && c.offset == pc.seen {
      PlaceOk(c.base, pc.seen, pc.align);
      WinInv(c, c', th, Claim(Place(c.base, pc.seen, pc.align), pc.align, pc.size));
    } else {
      OthersOk(c, c', th);
    }
  }

  lemma WinInv(c: Base, c': Base, th: nat, claim: Claim)
    requires Inv(c) && PcOf(c, th).Trying? && ClaimOk(c.base, claim) && c.offset <= claim.at < c.offset + claim.align
    requires c' == At(c, th, Won(|c.claims|)).(offset := End(claim), claims := c.claims + [claim])
    ensures Inv(c')
  {
    WinStacked(c, claim);
    WinTight(c, claim);
    OthersOk(c, c', th);
    assert forall i :: 0 <= i < |c.claims| ==> c'.claims[i] == c.claims[i];
  }

  lemma FinishInv(c: Base, th: nat)
    requires Inv(c) && Guard(c, Finish(th)) && Safe(c, Finish(th))
    ensures Inv(Apply(c, Finish(th)))
  {
    var c' := Apply(c, Finish(th));
    assert PcOk(c, PcOf(c, th));
    forall u: nat ensures PcOk(c', PcOf(c', u)) && Alone(c', u) {
      assert PcOk(c, PcOf(c, u)) && Alone(c, u) && Alone(c, th);
      forall w: nat | w != u && PcOf(c', u).Won? && PcOf(c', w).Won? ensures PcOf(c', w).mine != PcOf(c', u).mine {
        assert PcOf(c', u) == PcOf(c, u) && PcOf(c', w) == PcOf(c, w);
      }
    }
  }

  // ---- Whole runs --------------------------------------------------------------------------------

  ghost function Exec(c: Base, acts: seq<Action>): Option<Base>
    decreases |acts|
  {
    if acts == [] then Some(c)
    else if Guard(c, acts[0]) && Safe(c, acts[0]) then Exec(Apply(c, acts[0]), acts[1..])
    else None
  }

  ghost predicate Reachable(c: Base) {
    exists base: nat, acts :: base % ABI_ALIGN == 0 && Exec(Start(base), acts) == Some(c)
  }

  lemma {:induction false} RunInv(c: Base, acts: seq<Action>, c': Base)
    requires Inv(c) && Exec(c, acts) == Some(c')
    ensures Inv(c')
    decreases |acts|
  {
    if acts != [] {
      StepInv(c, acts[0]);
      RunInv(Apply(c, acts[0]), acts[1..], c');
    }
  }

  lemma StepInv(c: Base, a: Action)
    requires Inv(c) && Guard(c, a) && Safe(c, a)
    ensures Inv(Apply(c, a))
  {
    match a
    case Call(th, align, size) => CallInv(c, th, align, size);
    case Exchange(th, spurious) => ExchangeInv(c, th, spurious);
    case Finish(th) => FinishInv(c, th);
  }

  lemma EveryRun(c: Base)
    requires Reachable(c)
    ensures Inv(c)
  {
    var base: nat, acts :| base % ABI_ALIGN == 0 && Exec(Start(base), acts) == Some(c);
    RunInv(Start(base), acts, c);
  }

  /** Two returned blocks, with their headers, share no byte; each lies inside the heap, holds its size and is
      aligned as asked. */
  lemma BlocksApart(c: Base, i: nat, j: nat)
    requires Reachable(c) && i in c.returned && j in c.returned
    ensures i < |c.claims| && j < |c.claims| && c.claims[i].align >= ABI_ALIGN
    ensures i != j ==> End(c.claims[i]) <= c.claims[j].at || End(c.claims[j]) <= c.claims[i].at
    ensures c.claims[i].at + HEADER + c.claims[i].size <= End(c.claims[i]) <= HEAP_BYTES
    ensures (c.base + c.claims[i].at + HEADER) % c.claims[i].align == 0
  {
    EveryRun(c);
    assert ClaimOk(c.base, c.claims[i]);
    EndOk(c.claims[i]);
  }

  /** The offset is always a multiple of 16, never decreases, and grows with every successful exchange. */
  lemma OffsetGrows(c: Base, a: Action)
    requires Reachable(c) && Guard(c, a)
    ensures Safe(c, a) && c.offset % ABI_ALIGN == 0
    ensures Apply(c, a).offset >= c.offset
    ensures |Apply(c, a).claims| > |c.claims| <==> Apply(c, a).offset > c.offset
  {
    EveryRun(c);
    StepSafe(c, a);
    if a.Exchange? {
      var pc := PcOf(c, a.th);
      assert PcOk(c, pc);
      PlaceOk(c.base, pc.seen, pc.align);
      EndOk(Claim(Place(c.base, pc.seen, pc.align), pc.align, pc.size));
    }
  }

  /** The loop is lock-free: an exchange that fails for another reason than a spurious one lost to a claim made
      since the offset was read. */
  lemma LostToAnother(c: Base, th: nat)
    requires Reachable(c) && PcOf(c, th).Trying? && c.offset != PcOf(c, th).seen
    ensures c.offset > PcOf(c, th).seen && c.claims != [] && End(c.claims[|c.claims| - 1]) > PcOf(c, th).seen
  {
    EveryRun(c);
    assert PcOk(c, PcOf(c, th));
  }

  // ---- What was asked ------------------------------------------------------------------------------

  datatype Request = Request(align: nat, size: nat)

  /** The arguments of the thread's latest call in the run; `was` are those before it. */
  function Asked(acts: seq<Action>, th: nat, was: Option<Request>): Option<Request>
    decreases |acts|
  {
    if acts == [] then was
    else Asked(acts[1..], th, if acts[0].Call? && acts[0].th == th then Some(Request(acts[0].align, acts[0].size)) else was)
  }

  /** The alignment in use is a multiple of the one asked for, and no larger than that or 16; the size is the one
      asked for, or 16 for none. */
  predicate Meets(align: nat, size: nat, r: Request) {
    && r.align >= 1 && align % r.align == 0 && align <= (if r.align < ABI_ALIGN then ABI_ALIGN else r.align)
    && size == if r.size == 0 then ABI_ALIGN else r.size
  }

  predicate PcMeets(c: Base, pc: Pc, r: Option<Request>) {
    match pc
    case Idle => true
    case Trying(align, size, _) => r.Some? && Meets(align, size, r.value)
    case Won(i) => r.Some? && i < |c.claims| && Meets(c.claims[i].align, c.claims[i].size, r.value)
  }

  /** Powers of two below 16 divide 16. */
  lemma SmallPower(align: nat)
    requires PowerOfTwoTest(align) && align < ABI_ALIGN
    ensures ABI_ALIGN % align == 0
  {
    PowerOfTwoExact(align);
    var k: nat :| align == Pow2(k);
    assert Pow2(4) == ABI_ALIGN;
    if k >= 4 { Pow2Monotone(4, k); }
    assert Pow2(0) == 1 && Pow2(1) == 2 && Pow2(2) == 4 && Pow2(3) == 8;
  }

  lemma StepMeets(c: Base, a: Action, th: nat, r: Option<Request>)
    requires Inv(c) && Guard(c, a) && Safe(c, a) && PcMeets(c, PcOf(c, th), r)
    ensures PcMeets(Apply(c, a), PcOf(Apply(c, a), th),
                    if a.Call? && a.th == th then Some(Request(a.align, a.size)) else r)
  {
    assert PcOk(c, PcOf(c, th));
    if a.Call? && a.th == th && a.align < ABI_ALIGN { SmallPower(a.align); }
  }

  lemma {:induction false} RunMeets(c: Base, acts: seq<Action>, c': Base, th: nat, r: Option<Request>)
    requires Inv(c) && Exec(c, acts) == Some(c') && PcMeets(c, PcOf(c, th), r)
    ensures PcMeets(c', PcOf(c', th), Asked(acts, th, r))
    decreases |acts|
  {
    if acts != [] {
      StepMeets(c, acts[0], th, r);
      StepInv(c, acts[0]);
      RunMeets(Apply(c, acts[0]), acts[1..], c', th,
               if acts[0].Call? && acts[0].th == th then Some(Request(acts[0].align, acts[0].size)) else r);
    }
  }

  lemma MultipleDown(x: nat, a: nat, b: nat)
    requires a >= 1 && b >= 1 && x % a == 0 && a % b == 0
    ensures x % b == 0
  {
    var q, p := x / a, a / b;
    assert x == a * q && a == b * p;
    assert x == b * (p * q);
    ModUnique(x, b, p * q, 0);
  }

  /** In every run the block that a call returns is aligned as that call asked and holds the bytes it asked for, and
      its header records that size; little is wasted; and the process is stopped exactly when the block does not fit
      into the heap. */
  lemma ServedAsAsked(base: nat, acts: seq<Action>, c: Base, th: nat, align: nat, size: nat)
    requires base % ABI_ALIGN == 0 && Exec(Start(base), acts) == Some(c) && Guard(c, Finish(th))
    requires Asked(acts, th, None) == Some(Request(align, size))
    ensures align >= 1 && Safe(c, Finish(th))
    ensures var i := PcOf(c, th).mine;
            var block := c.claims[i];
            && (c.base + block.at + HEADER) % align == 0
            && block.size == (if size == 0 then ABI_ALIGN else size)
            && block.at + HEADER + size <= End(block)
            && End(block) <= Before(c.claims, i) + (if align < ABI_ALIGN then ABI_ALIGN else align) + HEADER + size + ABI_ALIGN
            && (Apply(c, Finish(th)).trapped <==> End(block) > HEAP_BYTES)
            && (End(block) <= HEAP_BYTES ==> Apply(c, Finish(th)).returned == c.returned + {i})
  {
    RunInv(Start(base), acts, c);
    RunMeets(Start(base), acts, c, th, None);
    StepSafe(c, Finish(th));
    var i := PcOf(c, th).mine;
    assert ClaimOk(c.base, c.claims[i]) && TightAt(c.claims, i);
    BlockServes(c.base, c.claims[i], Before(c.claims, i), Request(align, size));
  }

  lemma BlockServes(base: nat, block: Claim, before: nat, r: Request)
    requires ClaimOk(base, block) && block.at < before + block.align && Meets(block.align, block.size, r)
    ensures (base + block.at + HEADER) % r.align == 0 && block.at + HEADER + r.size <= End(block)
    ensures End(block) <= before + (if r.align < ABI_ALIGN then ABI_ALIGN else r.align) + HEADER + r.size + ABI_ALIGN
  {
    MultipleDown(base + block.at + HEADER, block.align, r.align);
    AlignUpLeast(block.size, ABI_ALIGN);
  }

  /** A call that nobody disturbs takes one round of the loop: it claims the next region and, if that fits into the
      heap, returns it. */
  lemma CallCompletes(c: Base, th: nat, align: nat, size: nat) returns (c': Base)
    requires Reachable(c) && Guard(c, Call(th, align, size))
    ensures Exec(c, [Call(th, align, size), Exchange(th, false), Finish(th)]) == Some(c')
    ensures |c'.claims| == |c.claims| + 1 && c'.claims[..|c.claims|] == c.claims
    ensures End(c'.claims[|c.claims|]) <= HEAP_BYTES ==> !c'.trapped && |c.claims| in c'.returned && PcOf(c', th).Idle?
    ensures End(c'.claims[|c.claims|]) > HEAP_BYTES ==> c'.trapped
  {
    EveryRun(c);
    var c1 := Apply(c, Call(th, align, size));
    CallInv(c, th, align, size);
    StepSafe(c1, Exchange(th, false));
    var c2 := Apply(c1, Exchange(th, false));
    StepInv(c1, Exchange(th, false));
    StepSafe(c2, Finish(th));
    c' := Apply(c2, Finish(th));
    ThreeSteps(c, Call(th, align, size), c1, Exchange(th, false), c2, Finish(th), c');
  }

  lemma ThreeSteps(c: Base, a: Action, c1: Base, a1: Action, c2: Base, a2: Action, c3: Base)
    requires Guard(c, a) && Safe(c, a) && c1 == Apply(c, a)
    requires Guard(c1, a1) && Safe(c1, a1) && c2 == Apply(c1, a1)
    requires Guard(c2, a2) && Safe(c2, a2) && c3 == Apply(c2, a2)
    ensures Exec(c, [a, a1, a2]) == Some(c3)
  {
    assert Exec(c3, []) == Some(c3);
    assert [a2][1..] == [] && Exec(c2, [a2]) == Some(c3);
    assert [a1, a2][1..] == [a2] && Exec(c1, [a1, a2]) == Some(c3);
    assert [a, a1, a2][1..] == [a1, a2];
  }

  /** After a failed round the loop has the current offset, so only another thread's success or a spurious failure
      can make it fail again. */
  lemma RetrySeesCurrent(c: Base, th: nat, spurious: bool)
    requires Reachable(c) && Guard(c, Exchange(th, spurious))
    ensures Safe(c, Exchange(th, spurious))
    ensures var c' := Apply(c, Exchange(th, spurious));
            if !spurious && c.offset == PcOf(c, th).seen then PcOf(c', th) == Won(|c.claims|) && |c'.claims| == |c.claims| + 1
            else PcOf(c', th).Trying? && PcOf(c', th).seen == c'.offset && c'.claims == c.claims
  {
    EveryRun(c);
    StepSafe(c, Exchange(th, spurious));
  }
}
