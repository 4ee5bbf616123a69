/** Cutting an aligned region out of a mapping that is one chunk too large (src/engines/vmm.c:68-107,
    src/hooks/lzmalloc.c:37-65). */
module Mappings {
  import opened Common
  import opened Bits
  import Radix
  import Vmm

  /** Unmapped bytes in front, kept bytes, unmapped bytes behind. */
  datatype Cut = Cut(prefix: nat, kept: nat, suffix: nat)

  /** The mapping is [raw, raw + keep + CHUNK). */
  function CutOf(raw: nat, keep: nat): Cut {
    if And(raw, CHUNK - 1) == 0 then Cut(0, keep, CHUNK)
    else
      AlignUpLeast(raw, CHUNK);
      var aligned := AlignUp(raw, CHUNK);
      Cut(aligned - raw, keep, (keep + CHUNK) - (aligned - raw) - keep)
  }

  /** The three parts partition the mapping, the kept one starts on a chunk boundary, and for a page-aligned mapping
      both unmapped parts are whole pages. */
  lemma CutExact(raw: nat, keep: nat)
    ensures var c := CutOf(raw, keep);
            && c.kept == keep && c.prefix + c.kept + c.suffix == keep + CHUNK && c.prefix < CHUNK
            && (raw + c.prefix) % CHUNK == 0
            && (raw % PAGE == 0 ==> c.prefix % PAGE == 0 && c.suffix % PAGE == 0)
            && (c.prefix == 0 <==> raw % CHUNK == 0)
  {
    Radix.Powers();
    MaskRemainder(raw, 21);
    AlignUpLeast(raw, CHUNK);
    PageDifference(raw, AlignUp(raw, CHUNK));
  }

  /** For a mapping inside the 64-bit range, the kept part starts where LZ_ALIGN_UP's add-and-mask puts it, whether
      or not the mapping was aligned already. */
  lemma KeptStart(raw: nat, keep: nat)
    requires raw + keep + CHUNK <= WORD
    ensures raw + CutOf(raw, keep).prefix == And(raw + (CHUNK - 1), Not(CHUNK - 1, 64))
  {
    Radix.Powers();
    WordIsPower();
    MaskRemainder(raw, 21);
    AlignUpLeast(raw, CHUNK);
    AlignUpMask(raw, 21, 64);
  }

  lemma PageDifference(raw: nat, aligned: nat)
    requires raw <= aligned && aligned % CHUNK == 0
    ensures raw % PAGE == 0 ==> (aligned - raw) % PAGE == 0 && (CHUNK - (aligned - raw)) % PAGE == 0
  {
    assert CHUNK == 512 * PAGE;
    var q := aligned / CHUNK;
    assert aligned == PAGE * (512 * q);
    ModUnique(aligned, PAGE, 512 * q, 0);
  }

  /** The chunk numbers of an extent cut out of the mapping at `raw`. */
  function Extent(raw: nat): seq<nat> {
    var first := (raw + CutOf(raw, EXTENT_CHUNKS * CHUNK).prefix) / CHUNK;
    seq(EXTENT_CHUNKS, i requires 0 <= i => var x: nat := first + i; x)
  }

  /** Chunk number `x` overlaps [lo, hi). */
  predicate Overlaps(x: nat, lo: nat, hi: nat) {
    x * CHUNK < hi && lo < (x + 1) * CHUNK
  }

  predicate Inside(x: nat, lo: nat, hi: nat) {
    lo <= x * CHUNK && (x + 1) * CHUNK <= hi
  }

  /** If the system gave memory that no known chunk lies in, the extent is one the chunk cache may provision: its
      chunks are new, distinct and inside the mapping. */
  lemma ExtentFresh(c: Vmm.Vm, raw: nat)
    requires forall x :: x in c.mapped ==> !Overlaps(x, raw, raw + (EXTENT_CHUNKS + 1) * CHUNK)
    ensures Vmm.FreshExtent(c, Extent(raw))
    ensures forall x :: x in Extent(raw) ==> Inside(x, raw, raw + (EXTENT_CHUNKS + 1) * CHUNK)
  {
    var p := CutOf(raw, EXTENT_CHUNKS * CHUNK).prefix;
    CutExact(raw, EXTENT_CHUNKS * CHUNK);
    var first := (raw + p) / CHUNK;
    assert raw + p == CHUNK * first;
    forall x | x in Extent(raw) ensures Inside(x, raw, raw + (EXTENT_CHUNKS + 1) * CHUNK) && x !in c.mapped {
      var i :| 0 <= i < EXTENT_CHUNKS && Extent(raw)[i] == x;
      assert x == first + i && x * CHUNK == raw + p + i * CHUNK;
      assert Overlaps(x, raw, raw + (EXTENT_CHUNKS + 1) * CHUNK);
    }
  }
}
