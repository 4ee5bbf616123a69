/** Shared vocabulary: optional pointers, duplicate-free sequences and the
    build constants of the default Linux profile. */
module Common {

  datatype Option<+T> = None | Some(value: T)

  // ---- Build constants --------------------------------------------------

  const WORD: nat := 0x1_0000_0000_0000_0000   // 2^64, the range of size_t and uintptr_t
  const CHUNK: nat := 2097152                  // LZ_HUGE_PAGE_SIZE == 1 << LZ_CHUNK_SHIFT
  const PAGE: nat := 4096
  const MAX_SLAB_OBJ: nat := 32768
  const MAX_SPAN_OBJ: nat := 1048576
  const SIZE_CLASSES: nat := 88
  const BATCH_MAX: nat := 64
  const NODES: nat := 16
  const MAX_CACHED: nat := 32
  const EXTENT_CHUNKS: nat := 32
  const SPAN_PAGES: nat := 512

  // ---- Sequences without repetition -------------------------------------

  ghost predicate NoDup<T>(s: seq<T>) {
    forall i, j :: 0 <= i < j < |s| ==> s[i] != s[j]
  }

  /** `s` without the first occurrence of `x`. */
  function Without<T(==)>(s: seq<T>, x: T): seq<T> {
    if s == [] then []
    else if s[0] == x then s[1..]
    else [s[0]] + Without(s[1..], x)
  }

  lemma {:induction false} WithoutAt<T>(s: seq<T>, i: nat)
    requires i < |s| && NoDup(s)
    ensures Without(s, s[i]) == s[..i] + s[i + 1..]
  {
    if i > 0 {
      WithoutAt(s[1..], i - 1);
      assert s[1..][..i - 1] == s[1..i] && s[1..][i..] == s[i + 1..];
      assert s[..i] == [s[0]] + s[1..i];
    }
  }

  /** Removing an element keeps order and distinctness and removes exactly that element. */
  lemma {:induction false} WithoutMembers<T>(s: seq<T>, x: T)
    requires NoDup(s)
    ensures NoDup(Without(s, x))
    ensures forall y :: y in Without(s, x) <==> y in s && y != x
    ensures |Without(s, x)| == if x in s then |s| - 1 else |s|
  {
    if s != [] {
      assert s == [s[0]] + s[1..];
      if s[0] != x {
        WithoutMembers(s[1..], x);
        var w := Without(s[1..], x);
        assert s[0] !in s[1..];
        forall i, j | 0 <= i < j < |w| + 1 ensures ([s[0]] + w)[i] != ([s[0]] + w)[j] {
          assert ([s[0]] + w)[j] == w[j - 1] && w[j - 1] in w;
        }
      } else {
        forall y ensures y in s[1..] <==> y in s && y != x {
          if y in s && y != x { var i :| 0 <= i < |s| && s[i] == y; assert s[1..][i - 1] == y; }
        }
      }
    }
  }

  lemma NoDupPrepend<T>(x: T, s: seq<T>)
    requires NoDup(s) && x !in s
    ensures NoDup([x] + s)
  {}

  lemma TailMembers<T>(s: seq<T>)
    requires NoDup(s) && s != []
    ensures NoDup(s[1..])
    ensures forall y :: y in s[1..] <==> y in s && y != s[0]
  {
    assert s == [s[0]] + s[1..];
    forall y | y in s && y != s[0] ensures y in s[1..] {
      var i :| 0 <= i < |s| && s[i] == y;
      assert s[1..][i - 1] == y;
    }
  }

  /** Pigeonhole: n distinct numbers below n are all the numbers below n. */
  lemma {:induction false} Pigeonhole(s: seq<nat>, n: nat)
    requires NoDup(s) && |s| == n && forall x :: x in s ==> x < n
    ensures forall k :: 0 <= k < n ==> k in s
    decreases n
  {
    if n > 0 && n - 1 in s {
      var w := Without<nat>(s, n - 1);
      WithoutMembers<nat>(s, n - 1);
      Pigeonhole(w, n - 1);
    } else if n > 0 {
      DistinctBelow(s, n - 1);
    }
  }

  /** Distinct numbers below n number at most n. */
  lemma {:induction false} DistinctBelow(s: seq<nat>, n: nat)
    requires NoDup(s) && forall x :: x in s ==> x < n
    ensures |s| <= n
    decreases n
  {
    if s != [] {
      assert s[0] in s && n > 0;
      WithoutMembers<nat>(s, n - 1);
      DistinctBelow(Without<nat>(s, n - 1), n - 1);
    }
  }

  // ---- Links ------------------------------------------------------------------

  function First<T>(q: seq<T>): Option<T> {
    if q == [] then None else Some(q[0])
  }

  /** The link stored for `x`; none was stored yet reads as null. */
  function NextOf(next: map<nat, Option<nat>>, x: nat): Option<nat> {
    if x in next then next[x] else None
  }

  // ---- Runs of a step function ----------------------------------------------

  /** The state after the steps, if each of them was possible when it was taken. */
  function Fold<S, E>(step: (S, E) -> Option<S>, s: S, es: seq<E>): Option<S>
    decreases |es|
  {
    if es == [] then Some(s)
    else
      match step(s, es[0])
      case None => None
      case Some(t) => Fold(step, t, es[1..])
  }

  /** `k` steps. */
  function Iterate<S>(step: S -> Option<S>, s: S, k: nat): Option<S>
    decreases k
  {
    if k == 0 then Some(s)
    else
      match step(s)
      case None => None
      case Some(t) => Iterate(step, t, k - 1)
  }

  lemma {:induction false} IterateMore<S>(step: S -> Option<S>, s: S, j: nat, t: S, k: nat)
    requires Iterate(step, s, j) == Some(t)
    ensures Iterate(step, s, j + k) == Iterate(step, t, k)
    decreases j
  {
    if j > 0 { IterateMore(step, step(s).value, j - 1, t, k); }
  }

  lemma {:induction false} FoldMore<S, E>(step: (S, E) -> Option<S>, s: S, past: seq<E>, t: S, es: seq<E>)
    requires Fold(step, s, past) == Some(t)
    ensures Fold(step, s, past + es) == Fold(step, t, es)
    decreases |past|
  {
    if past == [] {
      assert past + es == es;
    } else {
      FoldMore(step, step(s, past[0]).value, past[1..], t, es);
      assert (past + es)[1..] == past[1..] + es;
    }
  }

  lemma FoldOne<S, E>(step: (S, E) -> Option<S>, s: S, e: E)
    ensures Fold(step, s, [e]) == step(s, e)
  {
    if step(s, e).Some? { assert Fold(step, step(s, e).value, [e][1..]) == Some(step(s, e).value); }
  }
}
