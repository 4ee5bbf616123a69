/** Page spans as values (src/engines/span.c): one 2 MB chunk of 512 pages whose occupancy is
    kept three times, as a bitmap, as a table of lengths and as a page counter. */
module Spans {
  import opened Common

  datatype Span = Span(free: seq<bool>, lens: seq<nat>, used: int)

  // ---- The three representations --------------------------------------------

  function Sum(s: seq<nat>): nat {
    if s == [] then 0 else s[0] + Sum(s[1..])
  }

  function Zeros(s: seq<bool>): nat {
    if s == [] then 0 else (if s[0] then 0 else 1) + Zeros(s[1..])
  }

  /** Page `p` lies in the allocation that starts at page `i`. */
  predicate Covers(lens: seq<nat>, i: nat, p: nat) {
    i < |lens| && i <= p < i + lens[i]
  }

  ghost predicate Covered(lens: seq<nat>, p: nat) {
    exists i :: Covers(lens, i, p)
  }

  ghost predicate Disjoint(lens: seq<nat>) {
    forall i, j :: 0 <= i < j < |lens| && lens[i] > 0 && lens[j] > 0 ==> i + lens[i] <= j
  }

  /** The bitmap, the length table and the counter describe the same disjoint intervals. */
  ghost predicate SpanOk(s: Span) {
    && |s.free| == SPAN_PAGES && |s.lens| == SPAN_PAGES
    && s.lens[0] == 0
    && (forall i :: 0 <= i < SPAN_PAGES ==> i + s.lens[i] <= SPAN_PAGES)
    && Disjoint(s.lens)
    && (forall p :: 0 <= p < SPAN_PAGES ==> (!s.free[p] <==> p == 0 || Covered(s.lens, p)))
    && s.used == 1 + Sum(s.lens)
    && s.used == Zeros(s.free)
  }

  function EmptySpan(): Span {
    Span([false] + seq(SPAN_PAGES - 1, _ => true), seq(SPAN_PAGES, _ => 0), 1)
  }

  // ---- Runs of free pages ------------------------------------------------------

  ghost predicate RunFree(free: seq<bool>, i: nat, n: nat) {
    i + n <= |free| && forall p :: i <= p < i + n ==> free[p]
  }

  ghost predicate Fits(free: seq<bool>, n: nat) {
    exists i: nat :: RunFree(free, i, n)
  }

  /** `i` is the lowest start of a run of `n` free pages. */
  ghost predicate FirstFit(free: seq<bool>, n: nat, i: nat) {
    RunFree(free, i, n) && forall j: nat :: j < i ==> !RunFree(free, j, n)
  }

  /** `free` with the pages [i, i + n) set to `v`. */
  function Mark(free: seq<bool>, i: nat, n: nat, v: bool): seq<bool>
    requires i + n <= |free|
  {
    free[..i] + seq(n, _ => v) + free[i + n..]
  }

  // ---- Operations ----------------------------------------------------------------

  function Reserve(s: Span, i: nat, n: nat): Span
    requires i < |s.lens| && i + n <= |s.free|
  {
    Span(Mark(s.free, i, n, false), s.lens[i := n], s.used + n)
  }

  /** A pristine chunk with its first `n` pages after the metadata page reserved. */
  function FirstReserve(n: nat): Span
    requires n < SPAN_PAGES
  {
    Reserve(EmptySpan(), 1, n)
  }

  /** lz_span_free_local on the span itself: page 0, a page beyond the chunk and a page where no
      allocation starts leave it as it is. */
  function Release(s: Span, p: nat): Span
    requires SpanOk(s)
  {
    if p == 0 || p >= SPAN_PAGES || s.lens[p] == 0 then s
    else Span(Mark(s.free, p, s.lens[p], true), s.lens[p := 0], s.used - s.lens[p])
  }

  // ---- Counting -------------------------------------------------------------------

  lemma {:induction false} SumUpdate(s: seq<nat>, i: nat, v: nat)
    requires i < |s|
    ensures Sum(s[i := v]) == Sum(s) - s[i] + v
  {
    if i == 0 {
      assert s[0 := v][1..] == s[1..];
    } else {
      SumUpdate(s[1..], i - 1, v);
      assert s[i := v][1..] == s[1..][i - 1 := v];
    }
  }

  lemma {:induction false} SumBounds(s: seq<nat>, i: nat)
    requires i < |s|
    ensures s[i] <= Sum(s)
  {
    if i > 0 { SumBounds(s[1..], i - 1); }
  }

  lemma {:induction false} SumZero(s: seq<nat>)
    ensures Sum(s) == 0 <==> forall i :: 0 <= i < |s| ==> s[i] == 0
  {
    if s != [] {
      SumZero(s[1..]);
      if Sum(s) == 0 {
        forall i | 0 <= i < |s| ensures s[i] == 0 { if i > 0 { assert s[i] == s[1..][i - 1]; } }
      }
    }
  }

  lemma {:induction false} ZerosAppend(s: seq<bool>, t: seq<bool>)
    ensures Zeros(s + t) == Zeros(s) + Zeros(t)
  {
    if s == [] {
      assert s + t == t;
    } else {
      ZerosAppend(s[1..], t);
      assert (s + t)[1..] == s[1..] + t;
    }
  }

  lemma {:induction false} ZerosConstant(s: seq<bool>, v: bool)
    requires forall p :: 0 <= p < |s| ==> s[p] == v
    ensures Zeros(s) == if v then 0 else |s|
  {
    if s != [] { ZerosConstant(s[1..], v); }
  }

  /** Flipping a uniform run changes the zero count by its length. */
  lemma ZerosMark(free: seq<bool>, i: nat, n: nat, v: bool)
    requires i + n <= |free|
    requires forall p :: i <= p < i + n ==> free[p] == !v
    ensures Zeros(Mark(free, i, n, v)) == if v then Zeros(free) - n else Zeros(free) + n
    ensures v ==> n <= Zeros(free)
  {
    var lo, was, hi := free[..i], free[i..i + n], free[i + n..];
    assert free == lo + was + hi;
    ZerosThree(lo, was, hi);
    ZerosConstant(was, !v);
    ZerosOfMark(free, i, n, v);
  }

  lemma ZerosOfMark(free: seq<bool>, i: nat, n: nat, v: bool)
    requires i + n <= |free|
    ensures Zeros(Mark(free, i, n, v)) == Zeros(free[..i]) + (if v then 0 else n) + Zeros(free[i + n..])
  {
    var now := seq(n, _ => v);
    ZerosThree(free[..i], now, free[i + n..]);
    ZerosConstant(now, v);
  }

  lemma ZerosThree(a: seq<bool>, b: seq<bool>, c: seq<bool>)
    ensures Zeros(a + b + c) == Zeros(a) + Zeros(b) + Zeros(c)
  {
    ZerosAppend(a + b, c);
    ZerosAppend(a, b);
  }

  lemma {:induction false} ZerosAtMost(s: seq<bool>)
    ensures Zeros(s) <= |s|
  {
    if s != [] { ZerosAtMost(s[1..]); }
  }

  /** The page-count test never skips a span that has a run long enough. */
  lemma PruneIsSafe(s: Span, n: nat)
    requires SpanOk(s) && Fits(s.free, n)
    ensures SPAN_PAGES - s.used >= n
  {
    var i: nat :| RunFree(s.free, i, n);
    ZerosMark(s.free, i, n, false);
    ZerosAtMost(Mark(s.free, i, n, false));
  }

  // ---- Reserving and releasing keep the three representations in step ---------------

  /** A free page starts no allocation and is inside none. */
  lemma FreePageUncovered(s: Span, p: nat)
    requires SpanOk(s) && p < SPAN_PAGES && s.free[p]
    ensures p != 0 && s.lens[p] == 0 && forall i :: !Covers(s.lens, i, p)
  {
    assert !Covers(s.lens, p, p);
  }

  lemma ReserveOk(s: Span, i: nat, n: nat)
    requires SpanOk(s) && n >= 1 && RunFree(s.free, i, n)
    ensures SpanOk(Reserve(s, i, n))
    ensures s.lens[i] == 0
  {
    var s' := Reserve(s, i, n);
    FreePageUncovered(s, i);
    SumUpdate(s.lens, i, n);
    ZerosMark(s.free, i, n, false);
    ReserveDisjoint(s, i, n);
    forall p | 0 <= p < SPAN_PAGES
      ensures !s'.free[p] <==> p == 0 || Covered(s'.lens, p)
    {
      if i <= p < i + n {
        assert Covers(s'.lens, i, p);
      } else {
        if j: nat :| Covers(s'.lens, j, p) { assert Covers(s.lens, j, p); }
        if j: nat :| Covers(s.lens, j, p) { assert j != i && Covers(s'.lens, j, p); }
      }
    }
  }

  lemma ReserveDisjoint(s: Span, i: nat, n: nat)
    requires SpanOk(s) && n >= 1 && RunFree(s.free, i, n)
    ensures i < SPAN_PAGES
    ensures Disjoint(s.lens[i := n])
  {
    var l := s.lens[i := n];
    forall j, k | 0 <= j < k < |l| && l[j] > 0 && l[k] > 0 ensures j + l[j] <= k {
      if j == i {
        if k < i + n { FreePageUncovered(s, k); }
      } else if k == i {
        FreePageUncovered(s, i);
        assert !Covers(s.lens, j, i);
      }
    }
  }

  /** An allocated interval is used throughout. */
  lemma AllocatedIsUsed(s: Span, p: nat)
    requires SpanOk(s) && p < SPAN_PAGES
    ensures p + s.lens[p] <= SPAN_PAGES && s.lens[p] < s.used
    ensures forall q :: p <= q < p + s.lens[p] ==> !s.free[q]
  {
    SumBounds(s.lens, p);
    forall q | p <= q < p + s.lens[p] ensures !s.free[q] { assert Covers(s.lens, p, q); }
  }

  lemma ReleaseOk(s: Span, p: nat)
    requires SpanOk(s)
    ensures SpanOk(Release(s, p))
  {
    if p < SPAN_PAGES {
      AllocatedIsUsed(s, p);
      if s.lens[p] > 0 { ReleaseAllocated(s, p); }
    }
  }

  lemma ReleaseAllocated(s: Span, i: nat)
    requires SpanOk(s) && i < SPAN_PAGES && s.lens[i] > 0
    requires forall q :: i <= q < i + s.lens[i] ==> !s.free[q]
    ensures SpanOk(Release(s, i))
  {
    var s', n := Release(s, i), s.lens[i];
    SumUpdate(s.lens, i, 0);
    ZerosMark(s.free, i, n, true);
    assert Disjoint(s'.lens);
    forall p: nat | p < SPAN_PAGES
      ensures !s'.free[p] <==> p == 0 || Covered(s'.lens, p)
    {
      ReleaseCovers(s, i, p);
    }
  }

  /** Clearing the length at `i` uncovers exactly the pages of that allocation. */
  lemma ReleaseCovers(s: Span, i: nat, p: nat)
    requires SpanOk(s) && i < SPAN_PAGES && s.lens[i] > 0
    ensures Covered(s.lens[i := 0], p) <==> Covered(s.lens, p) && !Covers(s.lens, i, p)
  {
    var l := s.lens[i := 0];
    if j: nat :| Covers(l, j, p) {
      assert Covers(s.lens, j, p) && j != i;
      assert s.lens[j] > 0;
    }
    if !Covers(s.lens, i, p) {
      if j: nat :| Covers(s.lens, j, p) { assert Covers(l, j, p); }
    }
  }

  // ---- Main results -----------------------------------------------------------------

  /** Releasing what was just reserved restores the span. */
  lemma ReserveRelease(s: Span, i: nat, n: nat)
    requires SpanOk(s) && n >= 1 && RunFree(s.free, i, n)
    ensures SpanOk(Reserve(s, i, n)) && Release(Reserve(s, i, n), i) == s
  {
    ReserveOk(s, i, n);
    FreePageUncovered(s, i);
    var r := Release(Reserve(s, i, n), i);
    assert r.lens == s.lens;
    assert r.free == s.free;
  }

  /** Freeing changes the span exactly when an allocation starts at the page: interior pages,
      free pages, page 0 and pages beyond the chunk are no-ops. */
  lemma ReleaseChangesExactly(s: Span, p: nat)
    requires SpanOk(s)
    ensures Release(s, p) == s <==> !(p < SPAN_PAGES && s.lens[p] > 0)
  {
    ReleaseOk(s, p);
  }

  /** No allocation starts at an interior page of another one. */
  lemma InteriorStartsNothing(s: Span, i: nat, p: nat)
    requires SpanOk(s) && Covers(s.lens, i, p) && p != i
    ensures s.lens[p] == 0
  {}

  /** The count is 1 exactly when nothing is allocated: the release condition of the chunk. */
  lemma EmptyExactly(s: Span)
    requires SpanOk(s)
    ensures s.used == 1 <==> forall i :: 0 <= i < SPAN_PAGES ==> s.lens[i] == 0
  {
    SumZero(s.lens);
  }

  lemma EmptySpanOk()
    ensures SpanOk(EmptySpan())
  {
    EmptyLike(EmptySpan());
  }

  lemma EmptyLike(s: Span)
    requires |s.free| == SPAN_PAGES && |s.lens| == SPAN_PAGES && s.used == 1
    requires forall p :: 0 <= p < SPAN_PAGES ==> s.lens[p] == 0 && (s.free[p] <==> p != 0)
    ensures SpanOk(s)
  {
    SumZero(s.lens);
    assert s.free == [s.free[0]] + s.free[1..];
    ZerosConstant(s.free[1..], true);
  }

  /** A pristine chunk serves every request of 1 to 511 pages, from page 1. */
  lemma EmptySpanFits(n: nat)
    requires 1 <= n < SPAN_PAGES
    ensures FirstFit(EmptySpan().free, n, 1)
  {
    assert !EmptySpan().free[0];
  }

  lemma FirstReserveOk(n: nat)
    requires 1 <= n < SPAN_PAGES
    ensures SpanOk(FirstReserve(n))
    ensures forall i :: 0 <= i < SPAN_PAGES ==> (FirstReserve(n).lens[i] > 0 <==> i == 1)
  {
    EmptySpanOk();
    EmptySpanFits(n);
    ReserveOk(EmptySpan(), 1, n);
  }

  /** The lowest fit at or after page `i`. */
  ghost function FitFrom(free: seq<bool>, n: nat, i: nat): (r: Option<nat>)
    ensures r.Some? ==> r.value + n <= |free|
    decreases |free| - i
  {
    if i + n > |free| then None
    else if RunFree(free, i, n) then Some(i)
    else if i == |free| then None
    else FitFrom(free, n, i + 1)
  }

  lemma {:induction false} FitFromLowest(free: seq<bool>, n: nat, i: nat)
    ensures FitFrom(free, n, i).Some? ==> RunFree(free, FitFrom(free, n, i).value, n)
    ensures FitFrom(free, n, i).Some? ==> forall j: nat :: i <= j < FitFrom(free, n, i).value ==> !RunFree(free, j, n)
    ensures FitFrom(free, n, i).None? ==> forall j: nat :: i <= j ==> !RunFree(free, j, n)
    decreases |free| - i
  {
    if i + n <= |free| && !RunFree(free, i, n) && i < |free| { FitFromLowest(free, n, i + 1); }
  }

  lemma FirstFitUnique(free: seq<bool>, n: nat, i: nat, j: nat)
    requires FirstFit(free, n, i) && FirstFit(free, n, j)
    ensures i == j
  {}
}
