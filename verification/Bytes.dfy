/** Byte-addressed memory: little-endian stores and loads, fresh mappings, memcpy and memset. */
module Bytes {
  import opened Common

  type Memory = map<nat, nat>

  /** Memory that nothing was written to reads as zero. */
  function Byte(m: Memory, a: nat): nat {
    if a in m then m[a] else 0
  }

  /** The bytes of [a, end), least significant first. */
  function Store(m: Memory, a: nat, end: nat, v: nat): Memory
    decreases end - a
  {
    if a >= end then m else Store(m[a := v % 256], a + 1, end, v / 256)
  }

  function Load(m: Memory, a: nat, end: nat): nat
    decreases end - a
  {
    if a >= end then 0 else Byte(m, a) + 256 * Load(m, a + 1, end)
  }

  /** Values of `n` bytes are below this. */
  function Range(n: nat): nat {
    if n == 0 then 1 else 256 * Range(n - 1)
  }

  lemma {:induction false} StoreElsewhere(m: Memory, a: nat, end: nat, v: nat, x: nat)
    requires x < a || end <= x
    ensures Byte(Store(m, a, end, v), x) == Byte(m, x)
    decreases end - a
  {
    if a < end { StoreElsewhere(m[a := v % 256], a + 1, end, v / 256, x); }
  }

  lemma {:induction false} StoreLoad(m: Memory, a: nat, end: nat, v: nat)
    requires a <= end && v < Range(end - a)
    ensures Load(Store(m, a, end, v), a, end) == v
    decreases end - a
  {
    if a < end {
      var m1 := m[a := v % 256];
      StoreLoad(m1, a + 1, end, v / 256);
      StoreElsewhere(m1, a + 1, end, v / 256, a);
    }
  }

  lemma {:induction false} LoadFrame(m: Memory, m': Memory, a: nat, end: nat)
    requires forall x: nat :: a <= x < end ==> Byte(m', x) == Byte(m, x)
    ensures Load(m', a, end) == Load(m, a, end)
    decreases end - a
  {
    if a < end { LoadFrame(m, m', a + 1, end); }
  }

  lemma WordRange()
    ensures Range(8) == WORD
  {
    assert Range(4) == 0x1_0000_0000;
    assert Range(6) == 0x1_0000_0000_0000;
    assert Range(7) == 0x100_0000_0000_0000;
  }

  /** A field of a structure: where it starts and ends, and the value stored there. */
  datatype Field = Field(at: nat, end: nat, value: nat)

  /** The fields stored one after the other into the structure at `p`. */
  function StoreAll(m: Memory, p: nat, fs: seq<Field>): Memory {
    if fs == [] then m
    else
      var f := fs[|fs| - 1];
      Store(StoreAll(m, p, fs[..|fs| - 1]), p + f.at, p + f.end, f.value)
  }

  lemma {:induction false} StoreAllElsewhere(m: Memory, p: nat, fs: seq<Field>, len: nat, x: nat)
    requires (forall f :: f in fs ==> f.end <= len) && (x < p || p + len <= x)
    ensures Byte(StoreAll(m, p, fs), x) == Byte(m, x)
  {
    if fs != [] {
      var f, rest := fs[|fs| - 1], fs[..|fs| - 1];
      assert f in fs && forall g :: g in rest ==> g in fs;
      StoreAllElsewhere(m, p, rest, len, x);
      StoreElsewhere(StoreAll(m, p, rest), p + f.at, p + f.end, f.value, x);
    }
  }

  /** A field is read back if no later one overlaps it. */
  lemma {:induction false} StoreAllRead(m: Memory, p: nat, fs: seq<Field>, i: nat)
    requires i < |fs| && fs[i].at <= fs[i].end && fs[i].value < Range(fs[i].end - fs[i].at)
    requires forall j :: i < j < |fs| ==> fs[i].end <= fs[j].at || fs[j].end <= fs[i].at
    ensures Load(StoreAll(m, p, fs), p + fs[i].at, p + fs[i].end) == fs[i].value
    decreases |fs|
  {
    var f, rest := fs[|fs| - 1], fs[..|fs| - 1];
    var m1 := StoreAll(m, p, rest);
    if i == |fs| - 1 {
      StoreLoad(m1, p + f.at, p + f.end, f.value);
    } else {
      assert rest[i] == fs[i] && forall j :: i < j < |rest| ==> rest[j] == fs[j];
      StoreAllRead(m, p, rest, i);
      var m2 := Store(m1, p + f.at, p + f.end, f.value);
      forall x: nat | p + fs[i].at <= x < p + fs[i].end ensures Byte(m2, x) == Byte(m1, x) {
        StoreElsewhere(m1, p + f.at, p + f.end, f.value, x);
      }
      LoadFrame(m1, m2, p + fs[i].at, p + fs[i].end);
    }
  }

  /** What the system maps, or takes back: [lo, hi) reads as zero. */
  function Zeroed(m: Memory, lo: nat, hi: nat): Memory {
    map x | x in m && !(lo <= x < hi) :: m[x]
  }

  lemma ZeroedByte(m: Memory, lo: nat, hi: nat, x: nat)
    ensures Byte(Zeroed(m, lo, hi), x) == if lo <= x < hi then 0 else Byte(m, x)
  {}

  // ---- memcpy and memset -----------------------------------------------------------------

  /** The `n` bytes at `p` in `m'` are those that were at `q` in `m`. */
  ghost predicate Same(m: Memory, q: nat, m': Memory, p: nat, n: nat) {
    forall x: nat :: p <= x < p + n ==> Byte(m', x) == Byte(m, x - p + q)
  }

  predicate Apart(p: nat, n: nat, q: nat, k: nat) {
    p + n <= q || q + k <= p
  }

  /** memcpy between ranges that do not overlap: the bytes it writes. */
  method Copy(m: Memory, to: nat, from: nat, n: nat) returns (writes: Memory)
    requires Apart(to, n, from, n)
    ensures Covers(writes, to, n) && Same(m, from, m + writes, to, n)
  {
    writes := map[];
    for i := 0 to n
      invariant Covers(writes, to, i) && Same(m, from, m + writes, to, i)
    {
      ghost var was := writes;
      writes := writes[to + i := Byte(m + writes, from + i)];
      assert forall x: nat :: x != to + i ==> Byte(m + writes, x) == Byte(m + was, x);
    }
  }

  /** memset to zero: the bytes it writes. */
  method Clear(m: Memory, p: nat, n: nat) returns (writes: Memory)
    ensures Covers(writes, p, n) && AllZero(m + writes, p, n)
  {
    writes := map[];
    for i := 0 to n
      invariant Covers(writes, p, i) && AllZero(m + writes, p, i)
    {
      ghost var was := writes;
      writes := writes[p + i := 0];
      assert forall x: nat :: x != p + i ==> Byte(m + writes, x) == Byte(m + was, x);
    }
  }

  /** The bytes of [p, p + n) are written, and no others. */
  ghost predicate Covers(writes: Memory, p: nat, n: nat) {
    forall x: nat :: x in writes <==> p <= x < p + n
  }

  ghost predicate AllZero(m: Memory, p: nat, n: nat) {
    forall x: nat :: p <= x < p + n ==> Byte(m, x) == 0
  }

  lemma SameTrans(m: Memory, p: nat, m1: Memory, q: nat, m2: Memory, r: nat, n: nat)
    requires Same(m, p, m1, q, n) && Same(m1, q, m2, r, n)
    ensures Same(m, p, m2, r, n)
  {
    forall x: nat | r <= x < r + n ensures Byte(m2, x) == Byte(m, x - r + p) {
      assert Byte(m2, x) == Byte(m1, x - r + q);
    }
  }

  // ---- calloc's overflow test ----------------------------------------------------------------

  const SIZE_MAX: nat := WORD - 1

  /** The source's test SIZE_MAX / num < size is exactly overflow of the product. */
  lemma OverflowTest(num: nat, size: nat)
    requires num >= 1
    ensures SIZE_MAX / num < size <==> num * size > SIZE_MAX
  {
    var q := SIZE_MAX / num;
    assert SIZE_MAX == num * q + SIZE_MAX % num;
    if size <= q { MulLe(num, size, q); } else { MulLe(num, q + 1, size); }
  }

  lemma MulLe(n: nat, x: nat, y: nat)
    requires x <= y
    ensures n * x <= n * y
  {}
}
