/** The span engine in place (src/engines/span.c): bitmap words, length tables and the linked list of span headers,
    each operation proved against the values of modules Spans and ThreadHeap. */
module SpanEngine {
  import opened Common
  import opened Bits
  import opened Spans
  import opened ThreadHeap
  import opened Links

  const WORDS: nat := 8

  // ---- Pages as bits of words ---------------------------------------------------------

  /** Page `p` is free: bit p % 64 of word p / 64. */
  predicate Page(words: seq<nat>, p: nat)
    requires |words| == WORDS && p < SPAN_PAGES
  {
    Bit(words[p / 64], p % 64)
  }

  ghost function Pages(words: seq<nat>): (free: seq<bool>)
    requires |words| == WORDS
    ensures |free| == SPAN_PAGES && forall p :: 0 <= p < SPAN_PAGES ==> free[p] == Page(words, p)
  {
    seq(SPAN_PAGES, p requires 0 <= p < SPAN_PAGES => Page(words, p))
  }

  function Cleared(words: seq<nat>, j: nat): seq<nat>
    requires |words| == WORDS && j < SPAN_PAGES
  {
    words[j / 64 := And(words[j / 64], Not(Pow2(j % 64), 64))]
  }

  function Set(words: seq<nat>, j: nat): seq<nat>
    requires |words| == WORDS && j < SPAN_PAGES
  {
    words[j / 64 := Or(words[j / 64], Pow2(j % 64))]
  }

  lemma ClearedPage(words: seq<nat>, j: nat)
    requires |words| == WORDS && j < SPAN_PAGES
    ensures Pages(Cleared(words, j)) == Pages(words)[j := false]
  {
    forall p | 0 <= p < SPAN_PAGES ensures Page(Cleared(words, j), p) == (p != j && Page(words, p)) {
      if p / 64 == j / 64 { ClearBit(words[j / 64], j % 64, p % 64); }
    }
  }

  lemma SetPage(words: seq<nat>, j: nat)
    requires |words| == WORDS && j < SPAN_PAGES
    ensures Pages(Set(words, j)) == Pages(words)[j := true]
  {
    forall p | 0 <= p < SPAN_PAGES ensures Page(Set(words, j), p) == (p == j || Page(words, p)) {
      if p / 64 == j / 64 { SetBit(words[j / 64], j % 64, p % 64); }
    }
  }

  /** The source's test `word & (1ULL << i)`. */
  lemma TestBit(w: nat, i: nat)
    ensures And(w, Pow2(i)) != 0 <==> Bit(w, i)
  {
    forall k: nat ensures Bit(And(w, Pow2(i)), k) <==> Bit(w, k) && k == i {
      AndBit(w, Pow2(i), k);
      Pow2Bit(i, k);
    }
    ZeroBit(i);
    if !Bit(w, i) {
      forall k: nat ensures Bit(And(w, Pow2(i)), k) == Bit(0, k) { ZeroBit(k); }
      SameBits(And(w, Pow2(i)), 0);
    }
  }

  lemma ZeroWord(words: seq<nat>, i: nat)
    requires |words| == WORDS && i < WORDS && words[i] == 0
    ensures forall p :: 64 * i <= p < 64 * i + 64 ==> !Pages(words)[p]
  {
    forall p | 64 * i <= p < 64 * i + 64 ensures !Pages(words)[p] {
      assert p / 64 == i;
      ZeroBit(p % 64);
    }
  }

  // ---- The scan --------------------------------------------------------------------------

  /** What the scan knows before page `p`: `consecutive` free pages end there, and no run of `n` ended earlier. */
  ghost predicate Scanned(free: seq<bool>, n: nat, p: nat, consecutive: nat, start: int) {
    && consecutive <= p <= |free|
    && RunFree(free, p - consecutive, consecutive)
    && (consecutive > 0 ==> start == p - consecutive)
    && (consecutive < p ==> !free[p - consecutive - 1])
    && (n > 0 ==> consecutive < n && forall j: nat :: j + n <= p ==> !RunFree(free, j, n))
  }

  /** Pages that are in use end the run, one page or a whole word of them. */
  lemma ScanUsed(free: seq<bool>, n: nat, p: nat, q: nat, consecutive: nat, start: int)
    requires Scanned(free, n, p, consecutive, start) && p < q <= |free|
    requires forall k :: p <= k < q ==> !free[k]
    ensures Scanned(free, n, q, 0, start)
  {
    if n > 0 {
      forall j: nat | j + n <= q ensures !RunFree(free, j, n) {
        if j + n > p { assert !free[j + n - 1]; }
      }
    }
  }

  lemma ScanFree(free: seq<bool>, n: nat, p: nat, consecutive: nat, start: int)
    requires Scanned(free, n, p, consecutive, start) && p < |free| && free[p] && consecutive + 1 != n
    ensures Scanned(free, n, p + 1, consecutive + 1, p - consecutive)
  {
    if n > 0 {
      forall j: nat | j + n <= p + 1 ensures !RunFree(free, j, n) {
        if j + n == p + 1 { assert !free[p - consecutive - 1]; }
      }
    }
  }

  lemma ScanFound(free: seq<bool>, n: nat, p: nat, consecutive: nat, start: int)
    requires Scanned(free, n, p, consecutive, start) && p < |free| && free[p] && consecutive + 1 == n
    ensures FirstFit(free, n, p - consecutive)
  {}

  // ---- The bitmap in place ------------------------------------------------------------------

  /** Clears the bits of pages [start, start + n). */
  method MarkUsed(bitmap: array<nat>, start: nat, n: nat)
    requires bitmap.Length == WORDS && start + n <= SPAN_PAGES
    modifies bitmap
    ensures Pages(bitmap[..]) == Mark(old(Pages(bitmap[..])), start, n, false)
  {
    ghost var free := Pages(bitmap[..]);
    MarkNone(free, start, false);
    for j := start to start + n
      invariant Pages(bitmap[..]) == Mark(free, start, j - start, false)
    {
      ghost var words := bitmap[..];
      ClearedPage(words, j);
      bitmap[j / 64] := And(bitmap[j / 64], Not(Pow2(j % 64), 64));
      assert bitmap[..] == Cleared(words, j);
      MarkOne(free, start, j, false);
    }
  }

  /** Sets the bits of pages [start, start + n). */
  method MarkFree(bitmap: array<nat>, start: nat, n: nat)
    requires bitmap.Length == WORDS && start + n <= SPAN_PAGES
    modifies bitmap
    ensures Pages(bitmap[..]) == Mark(old(Pages(bitmap[..])), start, n, true)
  {
    ghost var free := Pages(bitmap[..]);
    MarkNone(free, start, true);
    for j := start to start + n
      invariant Pages(bitmap[..]) == Mark(free, start, j - start, true)
    {
      ghost var words := bitmap[..];
      SetPage(words, j);
      bitmap[j / 64] := Or(bitmap[j / 64], Pow2(j % 64));
      assert bitmap[..] == Set(words, j);
      MarkOne(free, start, j, true);
    }
  }

  lemma MarkNone(free: seq<bool>, start: nat, v: bool)
    requires start <= |free|
    ensures Mark(free, start, 0, v) == free
  {}

  lemma MarkOne(free: seq<bool>, start: nat, j: nat, v: bool)
    requires start <= j < |free|
    ensures Mark(free, start, j - start, v)[j := v] == Mark(free, start, j + 1 - start, v)
  {}

  predicate Tests(word: nat, bit: nat) {
    And(word, Pow2(bit)) != 0
  }

  /** The word holds the pages from `base` on. */
  ghost predicate Reads(free: seq<bool>, word: nat, base: nat) {
    base + 64 <= |free| && forall bit: nat :: bit < 64 ==> Tests(word, bit) == free[base + bit]
  }

  /** One bit of the scan. */
  method ScanBit(ghost free: seq<bool>, p: nat, set_: bool, n: nat, before: nat, start: int)
    returns (consecutive: nat, startIdx: int)
    requires p < |free| && set_ == free[p] && Scanned(free, n, p, before, start)
    ensures set_ && before + 1 == n ==> consecutive == n && startIdx >= 0 && FirstFit(free, n, startIdx)
    ensures !(set_ && before + 1 == n) ==> Scanned(free, n, p + 1, consecutive, startIdx) && (n > 0 ==> consecutive != n)
  {
    consecutive, startIdx := before, start;
    if set_ {
      if consecutive == 0 { startIdx := p; }
      consecutive := consecutive + 1;
      if consecutive == n { ScanFound(free, n, p, before, start); } else { ScanFree(free, n, p, before, start); }
    } else {
      ScanUsed(free, n, p, p + 1, before, start);
      consecutive := 0;
    }
  }

  /** The scan of one word: stops on the bit that completes a run of `n`. */
  method ScanWord(ghost free: seq<bool>, i: nat, word: nat, n: nat, before: nat, start: int)
    returns (hit: bool, consecutive: nat, startIdx: int)
    requires Reads(free, word, 64 * i) && Scanned(free, n, 64 * i, before, start)
    ensures hit ==> startIdx >= 0 && n > 0 && FirstFit(free, n, startIdx)
    ensures !hit ==> Scanned(free, n, 64 * i + 64, consecutive, startIdx)
  {
    consecutive, startIdx := before, start;
    for bit := 0 to 64
      invariant Scanned(free, n, 64 * i + bit, consecutive, startIdx)
    {
      var set_ := Tests(word, bit);
      consecutive, startIdx := ScanBit(free, 64 * i + bit, set_, n, consecutive, startIdx);
      if set_ && consecutive == n { return true, consecutive, startIdx; }
    }
    hit := false;
  }

  /** The scanning part of find_contiguous_pages: the lowest run of `n` free pages, across word boundaries, or -1,
      which it returns exactly when there is no run or none was asked for. */
  method Scan(bitmap: array<nat>, n: nat) returns (found: int)
    requires bitmap.Length == WORDS
    ensures found >= -1
    ensures found == -1 <==> n == 0 || !Fits(Pages(bitmap[..]), n)
    ensures found >= 0 ==> FirstFit(Pages(bitmap[..]), n, found)
  {
    ghost var words := bitmap[..];
    var consecutive, startIdx := 0, -1;
    for i := 0 to WORDS
      invariant Scanned(Pages(words), n, 64 * i, consecutive, startIdx)
    {
      var word := bitmap[i];
      if word == 0 {
        ZeroWord(words, i);
        ScanUsed(Pages(words), n, 64 * i, 64 * i + 64, consecutive, startIdx);
        consecutive := 0;
      } else {
        WordReads(words, i);
        var hit;
        hit, consecutive, startIdx := ScanWord(Pages(words), i, word, n, consecutive, startIdx);
        if hit { return startIdx; }
      }
    }
    found := -1;
  }

  /** find_contiguous_pages: the scan, then the marking of what it found. */
  method FindContiguous(bitmap: array<nat>, n: nat) returns (found: int)
    requires bitmap.Length == WORDS
    modifies bitmap
    ensures found >= -1
    ensures found == -1 <==> n == 0 || !Fits(old(Pages(bitmap[..])), n)
    ensures found == -1 ==> bitmap[..] == old(bitmap[..])
    ensures found >= 0 ==> FirstFit(old(Pages(bitmap[..])), n, found)
    ensures found >= 0 ==> Pages(bitmap[..]) == Mark(old(Pages(bitmap[..])), found, n, false)
  {
    found := Scan(bitmap, n);
    if found != -1 { MarkUsed(bitmap, found, n); }
  }

  lemma WordReads(words: seq<nat>, i: nat)
    requires |words| == WORDS && i < WORDS
    ensures Reads(Pages(words), words[i], 64 * i)
  {
    forall bit: nat | bit < 64 ensures Tests(words[i], bit) == Pages(words)[64 * i + bit] {
      TestBit(words[i], bit);
      assert (64 * i + bit) / 64 == i && (64 * i + bit) % 64 == bit;
    }
  }

  // ---- Headers and their list -----------------------------------------------------------------

  /** lz_span_t without its links, in page 0 of chunk number `chunk`. */
  class SpanHeader {
    const chunk: nat
    const bitmap: array<nat>
    const lens: array<nat>
    var used: int

    /** A chunk fresh from the VMM, formatted as a span: every page free but the first. */
    constructor (chunk: nat)
      ensures this.chunk == chunk && Shaped() && View() == EmptySpan()
      ensures fresh(bitmap) && fresh(lens)
    {
      this.chunk := chunk;
      bitmap := new nat[WORDS];
      lens := new nat[SPAN_PAGES](_ => 0);
      used := 1;
      new;
      FormatBitmap(bitmap);
      assert lens[..] == EmptySpan().lens;
    }

    ghost predicate Shaped() {
      bitmap.Length == WORDS && lens.Length == SPAN_PAGES
    }

    ghost function View(): Span
      requires Shaped()
      reads this`used, bitmap, lens
    {
      Span(Pages(bitmap[..]), lens[..], used)
    }

    /** The run found at `page` is marked, counted and given its length. */
    method Take(page: nat, n: nat)
      requires Shaped() && page < SPAN_PAGES && page + n <= SPAN_PAGES
      modifies this`used, bitmap, lens
      ensures View() == Reserve(old(View()), page, n)
    {
      MarkUsed(bitmap, page, n);
      used := used + n;
      lens[page] := n;
    }

    /** The allocation from a chunk just formatted: the search finds and marks the run that starts at page 1. */
    method TakeFirst(n: nat) returns (page: int)
      requires Shaped() && n < SPAN_PAGES && View() == EmptySpan()
      modifies this`used, bitmap, lens
      ensures page == if n == 0 then -1 else 1
      ensures View() == if n == 0 then EmptySpan() else FirstReserve(n)
    {
      if n >= 1 { EmptySpanFits(n); }
      page := FindContiguous(bitmap, n);
      if page != -1 {
        FirstFitUnique(EmptySpan().free, n, 1, page);
        used := used + n;
        lens[page] := n;
      }
    }

    /** The bitmap, table and counter of a free; `n` tells whether an allocation started at the page. */
    method Give(page: nat) returns (n: nat)
      requires Shaped() && SpanOk(View())
      modifies this`used, bitmap, lens
      ensures View() == Release(old(View()), page)
      ensures n > 0 <==> page < SPAN_PAGES && old(View()).lens[page] > 0
    {
      if page == 0 || page >= SPAN_PAGES { return 0; }
      n := lens[page];
      if n == 0 { return; }
      MarkFree(bitmap, page, n);
      lens[page] := 0;
      used := used - n;
    }
  }

  method FormatBitmap(bitmap: array<nat>)
    requires bitmap.Length == WORDS
    modifies bitmap
    ensures Pages(bitmap[..]) == EmptySpan().free
  {
    bitmap[0] := WORD - 2;
    for i := 1 to WORDS
      invariant bitmap[0] == WORD - 2 && forall k :: 1 <= k < i ==> bitmap[k] == WORD - 1
    {
      bitmap[i] := WORD - 1;
    }
    PristinePages(bitmap[..]);
  }

  lemma PristinePages(words: seq<nat>)
    requires |words| == WORDS && words[0] == WORD - 2 && forall i :: 1 <= i < WORDS ==> words[i] == WORD - 1
    ensures Pages(words) == EmptySpan().free
  {
    forall p: nat | p < SPAN_PAGES ensures Page(words, p) == (p != 0) {
      PristineBit(p % 64);
      assert p < 64 || words[p / 64] == WORD - 1;
    }
  }

  /** The words ~0 and ~1. */
  lemma PristineBit(b: nat)
    requires b < 64
    ensures Bit(WORD - 1, b) && (Bit(WORD - 2, b) <==> b != 0)
  {
    WordIsPower();
    AllSet(64, b);
    if b > 0 {
      AllSet(63, b - 1);
      assert (Pow2(64) - 2) / 2 == Pow2(63) - 1;
    }
  }

  lemma {:induction false} AllSet(n: nat, b: nat)
    requires b < n
    ensures Bit(Pow2(n) - 1, b)
    decreases b
  {
    if b > 0 {
      AllSet(n - 1, b - 1);
      assert (Pow2(n) - 1) / 2 == Pow2(n - 1) - 1;
    }
  }

  // ---- The list of a heap's spans ----------------------------------------------------------------

  /** No table is shared. */
  ghost predicate Separate(bodies: seq<SpanHeader>) {
    forall i, j :: 0 <= i < j < |bodies| ==>
      bodies[i] != bodies[j] && bodies[i].bitmap != bodies[j].bitmap && bodies[i].lens != bodies[j].lens
  }

  /** The headers hold the list and the spans of heap `h`. */
  ghost predicate Shows(bodies: seq<SpanHeader>, h: Heap)
    reads bodies, set x | x in bodies :: x.bitmap, set x | x in bodies :: x.lens
  {
    && |h.list| == |bodies|
    && forall k :: 0 <= k < |bodies| ==> Holds(bodies[k], h, h.list[k])
  }

  ghost predicate Holds(x: SpanHeader, h: Heap, c: nat)
    reads x, x.bitmap, x.lens
  {
    x.Shaped() && x.chunk == c && c in h.spans && x.View() == h.spans[c]
  }

  datatype Outcome = Null | Gave(block: Block) | Fatal

  /** active_spans of one thread-local heap. */
  class SpanList {
    const spans: List<SpanHeader>

    constructor ()
      ensures Valid() && spans.bodies == []
    {
      spans := new List();
    }

    ghost predicate Valid()
      reads spans, spans.items
    {
      spans.Valid() && Separate(spans.bodies)
    }

    /** The search of the fast path: the first span of the list that passes the page-count test and has a run. */
    method Search(ghost h: Heap, n: nat) returns (current: Node?<SpanHeader>, page: int, ghost at: nat)
      requires Valid() && Shows(spans.bodies, h)
      ensures page >= -1 && (n == 0 ==> page == -1)
      ensures page == -1 && n >= 1 ==> FindSpan(h.list, h.spans, n).None?
      ensures page >= 0 ==> at < |spans.items| && current == spans.items[at] && FindSpan(h.list, h.spans, n) == Some(h.list[at])
      ensures page >= 0 ==> FirstFit(h.spans[h.list[at]].free, n, page)
    {
      current, page, at := spans.head, -1, 0;
      while current != null
        invariant at <= |spans.items| && current == ItemAt(spans.items, at) && page == -1
        invariant n >= 1 ==> FindSpan(h.list, h.spans, n) == FindSpan(h.list[at..], h.spans, n)
        decreases |spans.items| - at
      {
        var next := current.next;
        assert current.body == spans.bodies[at] && Holds(spans.bodies[at], h, h.list[at]);
        page := Try(current.body, n, h.spans[h.list[at]]);
        SearchStep(h, n, at);
        if page != -1 { return; }
        at := at + 1;
        current := next;
      }
    }

    /** The allocation from a listed span: its pages are marked, counted and given their length. */
    method FromList(ghost h: Heap, current: SpanHeader, ghost at: nat, page: nat, n: nat)
      requires Valid() && Shows(spans.bodies, h) && at < |spans.bodies| && current == spans.bodies[at] && NoDup(h.list)
      requires page < SPAN_PAGES && page + n <= SPAN_PAGES
      modifies current, current.bitmap, current.lens
      ensures Valid() && Shows(spans.bodies, Reserved(h, h.list[at], page, n))
    {
      assert Holds(current, h, h.list[at]);
      current.Take(page, n);
      forall k | 0 <= k < |spans.bodies| && k != at ensures Holds(spans.bodies[k], h, h.list[k]) {
        ghost var x := spans.bodies[k];
        assert x != current && old(Holds(x, h, h.list[k]));
        assert x.bitmap != current.bitmap && x.lens != current.lens;
      }
      ChangedOne(spans.bodies, h, at);
    }

    /** A formatted header goes to the head of the list. */
    method AddHead(ghost h: Heap, current: SpanHeader)
      requires Valid() && Separate([current] + spans.bodies) && Shows([current] + spans.bodies, h)
      modifies spans, spans.items
      ensures Valid() && spans.bodies == [current] + old(spans.bodies) && Shows(spans.bodies, h)
    {
      var node := new Node(current);
      spans.PushFront(node);
      forall k | 0 <= k < |spans.bodies| ensures Holds(spans.bodies[k], h, h.list[k]) {
        ghost var x := spans.bodies[k];
        assert x == old([current] + spans.bodies)[k] && old(Holds(x, h, h.list[k]));
        assert x.used == old(x.used) && x.bitmap[..] == old(x.bitmap[..]) && x.lens[..] == old(x.lens[..]);
      }
    }

    /** A chunk the VMM gave is formatted and listed. */
    method NewHead(ghost h: Heap, chunk: nat) returns (current: SpanHeader)
      requires Valid() && Shows(spans.bodies, h) && chunk !in h.list
      modifies spans, spans.items
      ensures Valid() && spans.bodies == [current] + old(spans.bodies) && Shows(spans.bodies, Listed(h, chunk, EmptySpan()))
      ensures fresh(current) && fresh(current.bitmap) && fresh(current.lens)
    {
      current := new SpanHeader(chunk);
      ListedShows(spans.bodies, current, h, EmptySpan());
      AddHead(Listed(h, chunk, EmptySpan()), current);
    }

    /** The search of the pristine chunk at the head. */
    method FromHead(ghost h: Heap, current: SpanHeader, n: nat) returns (page: int)
      requires Valid() && Shows(spans.bodies, h) && spans.bodies != [] && current == spans.bodies[0] && NoDup(h.list)
      requires n < SPAN_PAGES && h.spans[h.list[0]] == EmptySpan()
      modifies current, current.bitmap, current.lens
      ensures Valid() && page == if n == 0 then -1 else 1
      ensures n == 0 ==> Shows(spans.bodies, h)
      ensures n >= 1 ==> Shows(spans.bodies, Reserved(h, h.list[0], 1, n))
    {
      assert Holds(current, h, h.list[0]);
      page := current.TakeFirst(n);
      forall k | 0 < k < |spans.bodies| ensures Holds(spans.bodies[k], h, h.list[k]) {
        ghost var x := spans.bodies[k];
        assert x != current && old(Holds(x, h, h.list[k]));
        assert x.bitmap != current.bitmap && x.lens != current.lens;
      }
      if n >= 1 { ChangedOne(spans.bodies, h, 0); }
    }

    /** The slow path on a chunk the VMM gave: the failsafe is reached exactly when no page is asked for. */
    method FromChunk(ghost h: Heap, chunk: nat, n: nat) returns (r: Outcome)
      requires Valid() && Shows(spans.bodies, h) && chunk !in h.list && n < SPAN_PAGES && NoDup(h.list)
      modifies spans, spans.items
      ensures Valid() && r == if n == 0 then Fatal else Gave(Block(chunk, 1))
      ensures Shows(spans.bodies, Listed(h, chunk, if n == 0 then EmptySpan() else FirstReserve(n)))
    {
      var current := NewHead(h, chunk);
      ListedTwice(h, chunk, n);
      var page := FromHead(Listed(h, chunk, EmptySpan()), current, n);
      r := if page == -1 then Fatal else Gave(Block(chunk, page));
    }

    /** lz_span_alloc, with `spare` as what the VMM answers if it is asked for a chunk. */
    method Alloc(ghost h: Heap, size: nat, spare: Option<nat>) returns (r: Outcome)
      requires Valid() && Shows(spans.bodies, h) && NoDup(h.list)
      requires forall c :: c in h.list ==> c in h.spans && SpanOk(h.spans[c])
      requires spare.Some? ==> spare.value !in h.list
      modifies spans, spans.items, spans.bodies, set x | x in spans.bodies :: x.bitmap, set x | x in spans.bodies :: x.lens
      ensures Valid() && Shows(spans.bodies, Allocated(h, RequiredPages(size), spare).0)
      ensures r == Allocated(h, RequiredPages(size), spare).1
    {
      r := AllocPages(h, RequiredPages(size), spare);
    }

    method AllocPages(ghost h: Heap, n: nat, spare: Option<nat>) returns (r: Outcome)
      requires Valid() && Shows(spans.bodies, h) && NoDup(h.list)
      requires forall c :: c in h.list ==> c in h.spans && SpanOk(h.spans[c])
      requires spare.Some? ==> spare.value !in h.list
      modifies spans, spans.items, spans.bodies, set x | x in spans.bodies :: x.bitmap, set x | x in spans.bodies :: x.lens
      ensures Valid() && Shows(spans.bodies, Allocated(h, n, spare).0) && r == Allocated(h, n, spare).1
    {
      if n >= SPAN_PAGES { return Null; }
      var current, page, at := Search(h, n);
      if page != -1 {
        AllocatedFromList(h, n, spare, at, page);
        assert current.body == spans.bodies[at] && Holds(spans.bodies[at], h, h.list[at]);
        FromList(h, current.body, at, page, n);
        return Gave(Block(current.body.chunk, page));
      }
      AllocatedFromChunk(h, n, spare);
      if spare.None? { return Null; }
      r := FromChunk(h, spare.value, n);
    }

    /** The header's side of a free. */
    method GiveBack(ghost h: Heap, current: SpanHeader, ghost at: nat, page: nat) returns (n: nat)
      requires Valid() && Shows(spans.bodies, h) && at < |spans.bodies| && current == spans.bodies[at]
      requires h.list[at] in h.spans && SpanOk(h.spans[h.list[at]])
      modifies current, current.bitmap, current.lens
      ensures Valid() && Others(spans.bodies, h, at) && current.Shaped()
      ensures current.View() == Release(h.spans[h.list[at]], page) && current.chunk == h.list[at]
      ensures n > 0 <==> page < SPAN_PAGES && h.spans[h.list[at]].lens[page] > 0
    {
      assert Holds(current, h, h.list[at]);
      n := current.Give(page);
      forall k | 0 <= k < |spans.bodies| && k != at ensures Holds(spans.bodies[k], h, h.list[k]) {
        ghost var x := spans.bodies[k];
        assert x != current && old(Holds(x, h, h.list[k]));
        assert x.bitmap != current.bitmap && x.lens != current.lens;
      }
    }

    /** The emptied span leaves the list; its chunk goes back to the VMM. */
    method Drop(ghost h: Heap, node: Node<SpanHeader>, ghost at: nat)
      requires Valid() && at < |spans.items| && node == spans.items[at] && NoDup(h.list) && Others(spans.bodies, h, at)
      modifies spans, spans.items
      ensures Valid() && Shows(spans.bodies, Dropped(h, h.list[at]))
    {
      ghost var was := spans.bodies;
      SeparateWithout(was, at);
      spans.Remove(node, at);
      forall k | 0 <= k < |was| && k != at ensures Holds(was[k], h, h.list[k]) {
        ghost var x := was[k];
        assert old(Holds(x, h, h.list[k]));
        assert x.used == old(x.used) && x.bitmap[..] == old(x.bitmap[..]) && x.lens[..] == old(x.lens[..]);
      }
      DroppedOne(was, h, at);
    }

    /** lz_span_free_local: `offset` is the distance of the address from its chunk. */
    method Free(ghost h: Heap, node: Node<SpanHeader>, ghost at: nat, offset: nat) returns (released: bool)
      requires Valid() && Shows(spans.bodies, h) && at < |spans.items| && node == spans.items[at] && NoDup(h.list)
      requires h.list[at] in h.spans && SpanOk(h.spans[h.list[at]])
      modifies spans, spans.items, node.body, node.body.bitmap, node.body.lens
      ensures Valid() && Shows(spans.bodies, Freed(h, h.list[at], offset / PAGE))
      ensures released <==> h.list[at] !in Freed(h, h.list[at], offset / PAGE).spans
    {
      assert node.body == spans.bodies[at];
      var n := GiveBack(h, node.body, at, offset / PAGE);
      FreedCases(h, h.list[at], offset / PAGE);
      released := n > 0 && node.body.used == 1;
      if released { Drop(h, node, at); } else { ChangedOne(spans.bodies, h, at); }
    }
  }

  lemma ListedShows(was: seq<SpanHeader>, current: SpanHeader, h: Heap, s: Span)
    requires Shows(was, h) && current.Shaped() && current.View() == s && current.chunk !in h.list
    ensures Shows([current] + was, Listed(h, current.chunk, s))
  {
    var h' := Listed(h, current.chunk, s);
    assert Holds(current, h', current.chunk);
    forall k | 0 <= k < |was| ensures Holds(was[k], h', h.list[k]) { assert Holds(was[k], h, h.list[k]); }
  }

  lemma SeparateWithout(bodies: seq<SpanHeader>, at: nat)
    requires Separate(bodies) && at < |bodies|
    ensures Separate(bodies[..at] + bodies[at + 1..])
  {}

  ghost predicate Others(items: seq<SpanHeader>, h: Heap, at: nat)
    reads items, set x | x in items :: x.bitmap, set x | x in items :: x.lens
  {
    |items| == |h.list| && forall k :: 0 <= k < |items| && k != at ==> Holds(items[k], h, h.list[k])
  }

  lemma FreedCases(h: Heap, c: nat, page: nat)
    requires c in h.spans && SpanOk(h.spans[c])
    ensures var s := Release(h.spans[c], page);
            Freed(h, c, page) == if s.used == 1 && page < SPAN_PAGES && h.spans[c].lens[page] > 0 then Dropped(h, c)
                                 else h.(spans := h.spans[c := s])
  {
    if Freed(h, c, page) == h { assert h.spans[c := h.spans[c]] == h.spans; }
  }

  /** What lz_span_free_local leaves behind for the page at which the address lies. */
  ghost function Freed(h: Heap, c: nat, page: nat): Heap
    requires c in h.spans && SpanOk(h.spans[c])
  {
    if page == 0 || page >= SPAN_PAGES || h.spans[c].lens[page] == 0 then h
    else WithSpan(h, c, Release(h.spans[c], page))
  }

  /** Freeing takes back exactly the allocation that starts at the page, and does nothing where none starts. */
  lemma FreedOk(h: Heap, c: nat, page: nat)
    requires HeapInv(h) && c in h.spans
    ensures if Out(h, Block(c, page)) then TookBack(h, Freed(h, c, page), Block(c, page)) else Freed(h, c, page) == h
  {
    assert c in h.kinds && h.kinds[c] == SpanChunk;
    if Out(h, Block(c, page)) { TakeBackSpan(h, Block(c, page)); }
  }

  /** The page count of a request, in the source's 64-bit and 32-bit arithmetic. */
  function RequiredPages(size: nat): nat {
    (size + (PAGE - 1)) % WORD / PAGE % 0x1_0000_0000
  }

  /** On the sizes that are routed here the wraps do not matter: the count is the least that holds the size, and is
      zero for size zero only. */
  lemma RequiredExact(size: nat)
    requires size <= MAX_SPAN_OBJ
    ensures size <= RequiredPages(size) * PAGE < size + PAGE
    ensures RequiredPages(size) <= 256 && (RequiredPages(size) == 0 <==> size == 0)
  {}

  /** The answer of lz_span_alloc, exactly: the failsafe is reached only by a request for no page that gets a new
      chunk, and an allocation fails only when the VMM does and no listed span has a run. */
  lemma AllocatedExact(h: Heap, n: nat, spare: Option<nat>)
    requires HeapInv(h) && (spare.Some? ==> spare.value !in h.kinds)
    ensures Allocated(h, n, spare).1 == Fatal <==> n == 0 && spare.Some?
    ensures Allocated(h, n, spare).1 == Null <==>
              n >= SPAN_PAGES || (spare.None? && (n == 0 || forall c :: c in h.spans ==> !Fits(h.spans[c].free, n)))
    ensures Allocated(h, n, spare).1.Gave? ==>
              HandedOut(h, Allocated(h, n, spare).0, Allocated(h, n, spare).1.block, spare)
    ensures Allocated(h, n, spare).1 == Null ==> Allocated(h, n, spare).0 == h
  {
    if n >= 1 { SpanBlockOk(h, n, spare); }
  }

  lemma AllocatedFromList(h: Heap, n: nat, spare: Option<nat>, at: nat, page: nat)
    requires 1 <= n < SPAN_PAGES && at < |h.list| && FindSpan(h.list, h.spans, n) == Some(h.list[at])
    requires FirstFit(h.spans[h.list[at]].free, n, page) && SpanOk(h.spans[h.list[at]])
    ensures page < SPAN_PAGES && page + n <= SPAN_PAGES
    ensures Allocated(h, n, spare) == (Reserved(h, h.list[at], page, n), Gave(Block(h.list[at], page)))
  {
    var s := h.spans[h.list[at]];
    FitFromLowest(s.free, n, 0);
    FirstFitUnique(s.free, n, page, FitFrom(s.free, n, 0).value);
  }

  lemma AllocatedFromChunk(h: Heap, n: nat, spare: Option<nat>)
    requires n < SPAN_PAGES && (n >= 1 ==> FindSpan(h.list, h.spans, n).None?)
    ensures Allocated(h, n, spare) ==
            if spare.None? then (h, Null)
            else if n == 0 then (Listed(h, spare.value, EmptySpan()), Fatal)
            else (Listed(h, spare.value, FirstReserve(n)), Gave(Block(spare.value, 1)))
  {}

  /** One header changed: the heap with its new view. */
  lemma ChangedOne(items: seq<SpanHeader>, h: Heap, at: nat)
    requires at < |items| && NoDup(h.list) && Others(items, h, at)
    requires items[at].Shaped() && items[at].chunk == h.list[at]
    ensures Shows(items, h.(spans := h.spans[h.list[at] := items[at].View()]))
  {
    var h' := h.(spans := h.spans[h.list[at] := items[at].View()]);
    forall k | 0 <= k < |items| ensures Holds(items[k], h', h.list[k]) {
      if k != at { assert Holds(items[k], h, h.list[k]) && h.list[k] != h.list[at]; }
    }
  }

  /** One header left the list and the heap. */
  lemma DroppedOne(was: seq<SpanHeader>, h: Heap, at: nat)
    requires at < |was| && NoDup(h.list) && Others(was, h, at)
    ensures Shows(was[..at] + was[at + 1..], Dropped(h, h.list[at]))
  {
    var items, h' := was[..at] + was[at + 1..], Dropped(h, h.list[at]);
    WithoutAt(h.list, at);
    forall k | 0 <= k < |items| ensures Holds(items[k], h', h'.list[k]) {
      var j := if k < at then k else k + 1;
      assert items[k] == was[j] && h'.list[k] == h.list[j] && Holds(was[j], h, h.list[j]);
    }
  }

  ghost function Dropped(h: Heap, c: nat): Heap {
    h.(list := Without(h.list, c), spans := h.spans - {c}, kinds := h.kinds - {c})
  }

  lemma ListedTwice(h: Heap, c: nat, n: nat)
    requires n < SPAN_PAGES && NoDup(h.list) && c !in h.list
    ensures Reserved(Listed(h, c, EmptySpan()), c, 1, n) == Listed(h, c, FirstReserve(n))
    ensures NoDup(Listed(h, c, EmptySpan()).list)
  {
    NoDupPrepend(c, h.list);
  }

  /** What lz_span_alloc leaves behind for `n` pages, and what it returns. */
  ghost function Allocated(h: Heap, n: nat, spare: Option<nat>): (Heap, Outcome) {
    if n >= 1 then
      (SpanBlock(h, n, spare).0, match SpanBlock(h, n, spare).1 case None => Null case Some(b) => Gave(b))
    else if spare.None? then (h, Null)
    else (Listed(h, spare.value, EmptySpan()), Fatal)
  }

  /** Heap `h` with chunk `c` at the head of its list as span `s`. */
  ghost function Listed(h: Heap, c: nat, s: Span): Heap {
    Heap(h.bins, [c] + h.list, h.spans[c := s], h.kinds[c := SpanChunk])
  }

  lemma SearchStep(h: Heap, n: nat, at: nat)
    requires at < |h.list| && h.list[at] in h.spans
    ensures FindSpan(h.list[at..], h.spans, n) ==
            if Serves(h.spans[h.list[at]], n) then Some(h.list[at]) else FindSpan(h.list[at + 1..], h.spans, n)
  {
    assert h.list[at..][1..] == h.list[at + 1..];
  }

  /** One turn of the search: the page-count test, then the scan. */
  method Try(current: SpanHeader, n: nat, ghost s: Span) returns (page: int)
    requires current.Shaped() && current.View() == s
    ensures page >= -1 && (page == -1 <==> n == 0 || !Serves(s, n))
    ensures page >= 0 ==> FirstFit(s.free, n, page)
  {
    FitFromLowest(s.free, n, 0);
    page := -1;
    if SPAN_PAGES - current.used >= n { page := Scan(current.bitmap, n); }
  }
}
