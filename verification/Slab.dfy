/** The slab allocator (slab.c): zones of equal chunks, cut from pages.

    A zone is named by the number of its first page, a chunk by its number in the zone;
    the free-chunk list, linked through the chunks in memory, is a sequence of chunk
    numbers. Addresses count from the start of the heap.
 */
module Slab {

  import opened Lists
  import opened Pages
  import opened Words

  const PAGE: nat := 4096
  const NZONES: nat := 72
  const HEADER: nat := 36             // sizeof(slab_zone)
  const MIN_ZONE: nat := 0x8000
  const MAX_ZONE: nat := 0x2_0000
  const ZONE_LIMIT: nat := 0x4000
  const RELEASE_THRESH: nat := 2

  // ----- size classes -----

  /** (n + m - 1) & ~(m - 1) for a power of two m. */
  function RoundUp(n: nat, m: nat): (r: nat)
    requires m > 0
  {
    (n + m - 1) / m * m
  }

  /** zoneindex: the zone list for a request and the request rounded to its chunks. */
  function ZoneIndex(n: nat): (int, nat) {
    if n < 128 then var b := RoundUp(n, 8); (b / 8 - 1, b)
    else if n < 256 then var b := RoundUp(n, 16); (b / 16 + 7, b)
    else if n < 8192 then
      if n < 512 then var b := RoundUp(n, 32); (b / 32 + 15, b)
      else if n < 1024 then var b := RoundUp(n, 64); (b / 64 + 23, b)
      else if n < 2048 then var b := RoundUp(n, 128); (b / 128 + 31, b)
      else if n < 4096 then var b := RoundUp(n, 256); (b / 256 + 39, b)
      else var b := RoundUp(n, 512); (b / 512 + 47, b)
    else if n < 16384 then var b := RoundUp(n, 1024); (b / 1024 + 55, b)
    else (0, n)
  }

  /** The chunk size that a zone list stands for. */
  function ChunkSize(zi: nat): nat
    requires zi < NZONES
  {
    if zi < 16 then (zi + 1) * 8
    else if zi < 24 then (zi - 7) * 16
    else if zi < 32 then (zi - 15) * 32
    else if zi < 40 then (zi - 23) * 64
    else if zi < 48 then (zi - 31) * 128
    else if zi < 56 then (zi - 39) * 256
    else if zi < 64 then (zi - 47) * 512
    else (zi - 55) * 1024
  }

  lemma RoundUpIs(n: nat, m: nat) returns (q: nat)
    requires m > 0
    ensures RoundUp(n, m) == q * m && n <= q * m < n + m
  {
    q := (n + m - 1) / m;
    DivTimes(n + m - 1, m);
  }

  lemma DivTimes(x: nat, m: nat)
    requires m > 0
    ensures x - m < x / m * m <= x
  {
  }

  /** The granule of a request and the offset of its branch. */
  ghost function BranchOf(n: nat): (nat, int) {
    if n < 128 then (8, -1) else if n < 256 then (16, 7) else if n < 512 then (32, 15) else if n < 1024 then (64, 23)
    else if n < 2048 then (128, 31) else if n < 4096 then (256, 39) else if n < 8192 then (512, 47) else (1024, 55)
  }

  lemma SmallBranch(n: nat) returns (m: nat, q: nat, base: int)
    requires 1 <= n < 1024
    ensures ZoneIndex(n) == (q + base, q * m) && n <= q * m < n + m && (m, base) == BranchOf(n)
  {
    hide RoundUp;
    if n < 128 {
      m, base := 8, -1;
      q := RoundUpIs(n, 8);
    } else if n < 256 {
      m, base := 16, 7;
      q := RoundUpIs(n, 16);
    } else if n < 512 {
      m, base := 32, 15;
      q := RoundUpIs(n, 32);
    } else {
      m, base := 64, 23;
      q := RoundUpIs(n, 64);
    }
  }

  lemma LargeBranch(n: nat) returns (m: nat, q: nat, base: int)
    requires 1024 <= n < 16384
    ensures ZoneIndex(n) == (q + base, q * m) && n <= q * m < n + m && (m, base) == BranchOf(n)
  {
    hide RoundUp;
    if n < 2048 {
      m, base := 128, 31;
      q := RoundUpIs(n, 128);
    } else if n < 4096 {
      m, base := 256, 39;
      q := RoundUpIs(n, 256);
    } else if n < 8192 {
      m, base := 512, 47;
      q := RoundUpIs(n, 512);
    } else {
      m, base := 1024, 55;
      q := RoundUpIs(n, 1024);
    }
  }

  /** In each branch the request is q granules of m bytes, and the index is q plus the
      offset of the branch. */
  lemma Branch(n: nat) returns (m: nat, q: nat, base: int)
    requires 1 <= n < 16384
    ensures ZoneIndex(n) == (q + base, q * m) && n <= q * m < n + m && (m, base) == BranchOf(n)
  {
    if n < 1024 {
      m, q, base := SmallBranch(n);
    } else {
      m, q, base := LargeBranch(n);
    }
    hide ZoneIndex;
  }

  lemma ChunkSizesAscend(j: nat, k: nat)
    requires j <= k < NZONES
    ensures ChunkSize(j) <= ChunkSize(k) && (j < k ==> ChunkSize(j) < ChunkSize(k))
  {
  }

  lemma SameClass(j: nat, k: nat)
    requires j < NZONES && k < NZONES
    ensures ChunkSize(j) == ChunkSize(k) ==> j == k
  {
    if j < k { ChunkSizesAscend(j, k); } else if k < j { ChunkSizesAscend(k, j); }
  }

  /** The index alone determines the chunk size, and it is the smallest size class that
      holds the request. */
  lemma ZoneIndexIsBestFit(n: nat)
    requires 1 <= n < 16384
    ensures var (zi, b) := ZoneIndex(n);
            0 <= zi < NZONES && b == ChunkSize(zi) && n <= b && forall k :: 0 <= k < zi ==> ChunkSize(k) < n
  {
    var m, q, base := Branch(n);
    hide ZoneIndex;
    var zi: nat := q + base;
    assert ChunkSize(zi) == q * m;
    assert zi > 0 ==> ChunkSize(zi - 1) < n;
    forall k | 0 <= k < zi
      ensures ChunkSize(k) < n
    {
      ChunkSizesAscend(k, zi - 1);
    }
  }

  ghost predicate LeastClass(size: nat, n: nat) {
    && (exists k: nat :: k < NZONES && n == ChunkSize(k))
    && forall k: nat :: k < NZONES && size <= ChunkSize(k) ==> n <= ChunkSize(k)
  }

  lemma ZoneIndexIsLeast(n: nat)
    requires 1 <= n < 16384
    ensures LeastClass(n, ZoneIndex(n).1)
  {
    ZoneIndexIsBestFit(n);
    var (zi, b) := ZoneIndex(n);
    hide ZoneIndex;
    forall k: nat | k < NZONES && n <= ChunkSize(k)
      ensures b <= ChunkSize(k)
    {
      ChunkSizesAscend(zi, k);
    }
  }

  /** At most an eighth of a request of 128 bytes or more is wasted, and less than 8 bytes of
      a smaller one. */
  lemma ZoneIndexWaste(n: nat)
    requires 1 <= n < 16384
    ensures n >= 128 ==> (ZoneIndex(n).1 - n) * 8 < n
    ensures n < 128 ==> ZoneIndex(n).1 < n + 8 && ZoneIndex(n).1 % 8 == 0
  {
    var m, q, base := Branch(n);
    hide ZoneIndex;
  }

  /** Rounding again changes nothing. */
  lemma ZoneIndexAgain(n: nat)
    requires 1 <= n < 16384 && ZoneIndex(n).1 < 16384
    ensures ZoneIndex(ZoneIndex(n).1) == ZoneIndex(n)
  {
    ZoneIndexIsBestFit(n);
    var (zi, b) := ZoneIndex(n);
    ZoneIndexIsBestFit(b);
    var (zj, c) := ZoneIndex(b);
    assert ChunkSize(zi) == b && ChunkSize(zj) == c;
    hide ZoneIndex, ChunkSize;
  }

  /** A request below the limit of a zone gets chunks within the limit. */
  lemma ZoneIndexLimit(n: nat, limit: nat)
    requires 1 <= n < limit && (limit == 0x2000 || limit == 0x4000)
    ensures ZoneIndex(n).1 <= limit
  {
    var m, q, base := Branch(n);
    hide ZoneIndex;
  }

  // ----- one zone -----

  /** The header of a zone; freed is its free-chunk list. */
  datatype Zone = Zone(nfree: int, nmax: nat, base: nat, uindex: nat, chunk: nat, zi: nat, freed: seq<nat>)

  /** Chunks up to uindex were handed out once; those on the free list came back. */
  ghost predicate IsLive(z: Zone, i: nat) {
    i <= z.uindex && i !in z.freed
  }

  /** Chunks of this size start at the offset. */
  ghost predicate StartsAt(base: nat, size: nat) {
    size > 0 && base == FirstOffset(size)
  }

  /** nfree counts what was never handed out and what came back. */
  ghost predicate ZoneFits(z: Zone, zoneSize: nat) {
    && z.uindex < z.nmax && z.nfree == z.nmax - 1 - z.uindex + |z.freed|
    && Distinct(z.freed) && (forall i :: i in z.freed ==> i <= z.uindex)
    && z.zi < NZONES && z.chunk == ChunkSize(z.zi) && StartsAt(z.base, z.chunk) && z.base >= HEADER
    && z.base + z.nmax * z.chunk <= zoneSize < z.base + (z.nmax + 1) * z.chunk
  }

  /** The chunk taken from a zone with room, and the header after. */
  function Take(z: Zone): (Zone, nat)
    requires z.uindex + 1 == z.nmax ==> z.freed != []
  {
    if z.uindex + 1 != z.nmax then (z.(nfree := z.nfree - 1, uindex := z.uindex + 1), z.uindex + 1)
    else (z.(nfree := z.nfree - 1, freed := z.freed[1..]), z.freed[0])
  }

  function Give(z: Zone, i: nat): Zone {
    z.(nfree := z.nfree + 1, freed := [i] + z.freed)
  }

  /** When no chunk is left that was never handed out, nfree promises a chunk on the free
      list: the head that is popped is never null. */
  lemma FreeListHasHead(z: Zone, zoneSize: nat)
    requires ZoneFits(z, zoneSize) && z.nfree > 0
    ensures z.uindex + 1 == z.nmax ==> z.freed != []
  {
  }

  /** The chunk a zone gives next: one after the other, and when all were handed out once, the
      one freed last. */
  ghost function Next(z: Zone): nat {
    if z.uindex + 1 < z.nmax then z.uindex + 1 else if z.freed != [] then z.freed[0] else 0
  }

  /** A chunk that comes back to a zone with no other chunk left is the next one. */
  lemma GiveThenTake(z: Zone, zoneSize: nat, i: nat)
    requires ZoneFits(z, zoneSize) && z.nfree == 0 && IsLive(z, i)
    ensures Take(Give(z, i)) == (z, i)
  {
  }

  /** The chunk taken was not live, it is now, and no other chunk changes. */
  lemma TakeFits(z: Zone, zoneSize: nat)
    requires ZoneFits(z, zoneSize) && z.nfree > 0
    ensures z.uindex + 1 == z.nmax ==> z.freed != []
    ensures var (z', i) := Take(z);
            ZoneFits(z', zoneSize) && i < z.nmax && !IsLive(z, i) && forall j: nat :: IsLive(z', j) <==>
              j == i || IsLive(z, j)
  {
    if z.uindex + 1 == z.nmax {
      assert z.freed == [z.freed[0]] + z.freed[1..];
      assert z.freed[0] in z.freed && forall j :: j in z.freed[1..] ==> j in z.freed;
    }
  }

  lemma TakeIsNext(z: Zone, zoneSize: nat)
    requires ZoneFits(z, zoneSize) && z.nfree > 0
    ensures (z.uindex + 1 == z.nmax ==> z.freed != []) && Take(z).1 == Next(z)
  {
  }

  lemma GiveFits(z: Zone, zoneSize: nat, i: nat)
    requires ZoneFits(z, zoneSize) && IsLive(z, i)
    ensures ZoneFits(Give(z, i), zoneSize) && forall j: nat :: IsLive(Give(z, i), j) <==> j != i && IsLive(z, j)
  {
  }

  ghost function Below(n: nat): (b: set<nat>)
    ensures |b| == n && forall i: nat :: i in b <==> i < n
  {
    if n == 0 then {} else Below(n - 1) + {n - 1}
  }

  lemma {:induction false} ElementCount(s: seq<nat>)
    requires Distinct(s)
    ensures |Elements(s)| == |s|
  {
    if s != [] {
      ElementCount(s[1..]);
      assert s == [s[0]] + s[1..];
      assert Elements(s) == {s[0]} + Elements(s[1..]);
      assert s[0] !in s[1..];
    }
  }

  lemma SameSize(a: set<nat>, b: set<nat>)
    requires a <= b && |a| == |b|
    ensures a == b
  {
    assert b == a + (b - a);
    assert |b| == |a| + |b - a|;
  }

  /** A zone that counts nmax free chunks has no live one. */
  lemma WholeZoneFree(z: Zone, zoneSize: nat, i: nat)
    requires ZoneFits(z, zoneSize) && z.nfree == z.nmax
    ensures !IsLive(z, i)
  {
    ElementCount(z.freed);
    SameSize(Elements(z.freed), Below(z.uindex + 1));
    assert i <= z.uindex ==> i in Below(z.uindex + 1);
  }

  /** Offset of chunk i in its zone. */
  function Offset(z: Zone, i: nat): nat {
    z.base + i * z.chunk
  }

  lemma ChunkInside(z: Zone, zoneSize: nat, i: nat)
    requires ZoneFits(z, zoneSize) && i < z.nmax
    ensures z.chunk > 0 && HEADER <= Offset(z, i) && Offset(z, i) + z.chunk <= zoneSize
  {
    TimesLess(i, z.nmax, z.chunk);
  }

  lemma TimesLess(i: nat, j: nat, m: nat)
    requires i < j
    ensures i * m + m <= j * m
  {
    assert (j - i) * m == j * m - i * m;
    assert (j - i - 1) * m >= 0;
  }

  lemma ChunksApart(z: Zone, i: nat, j: nat)
    requires i < j
    ensures Offset(z, i) + z.chunk <= Offset(z, j)
  {
    TimesLess(i, j, z.chunk);
  }

  // ----- the layout of a new zone -----

  predicate PowerOfTwo(n: nat) {
    n == 1 || (n > 1 && n % 2 == 0 && PowerOfTwo(n / 2))
  }

  function Two(k: nat): (n: nat)
    ensures n > 0
  {
    if k == 0 then 1 else 2 * Two(k - 1)
  }

  lemma {:induction false} PowerIs(n: nat) returns (k: nat)
    requires PowerOfTwo(n)
    ensures n == Two(k)
  {
    k := 0;
    if n > 1 {
      k := PowerIs(n / 2);
      k := k + 1;
    }
  }

  lemma {:induction false} TwoIsPower(k: nat)
    ensures PowerOfTwo(Two(k))
  {
    if k > 0 { TwoIsPower(k - 1); }
  }

  lemma {:induction false} TwoGrows(j: nat, k: nat)
    requires j <= k
    ensures Two(j) <= Two(k)
    decreases k
  {
    if j < k { TwoGrows(j, k - 1); }
  }

  /** The word with bit k. */
  function Single(k: nat): bv32
    requires k < 32
  {
    1 << k
  }

  lemma {:induction false} SingleIsTwo(k: nat)
    requires k < 32
    ensures Single(k) as nat == Two(k)
  {
    if k > 0 {
      SingleIsTwo(k - 1);
      SingleDoubles(k - 1);
      hide Single;
    }
  }

  lemma SingleDoubles(k: nat)
    requires k < 31
    ensures Single(k + 1) as nat == 2 * Single(k) as nat
  {
    SingleShifts(k);
    ShiftDoubles(Single(k));
    hide Single;
  }

  lemma SingleShifts(k: nat)
    requires k < 31
    ensures Single(k + 1) == Single(k) << 1 && Single(k) < 0x8000_0000
  {
  }

  lemma ShiftDoubles(b: bv32)
    requires b < 0x8000_0000
    ensures (b << 1) as nat == 2 * b as nat
  {
  }

  predicate NoOtherBit(b: bv32) {
    b & (b - 1) == 0
  }

  lemma Halves(b: bv32)
    requires NoOtherBit(b) && b > 1
    ensures var h := b >> 1; NoOtherBit(h) && 0 < h < b && b == h << 1
  {
  }

  lemma SingleMore(h: bv32, k: nat)
    requires k < 32 && h == Single(k) && h << 1 != 0
    ensures k < 31 && h << 1 == Single(k + 1)
  {
  }

  /** A word with one bit. */
  lemma {:induction false} OneBit(b: bv32) returns (k: nat)
    requires b != 0 && NoOtherBit(b)
    ensures k < 32 && b == Single(k)
    decreases b
  {
    k := 0;
    if b > 1 {
      Halves(b);
      k := OneBit(b >> 1);
      SingleMore(b >> 1, k);
      k := k + 1;
      hide Single;
    }
  }

  lemma SingleBit(k: nat)
    requires k < 32
    ensures NoOtherBit(Single(k))
  {
  }

  lemma SameWord(b: bv32, c: bv32)
    requires b as nat == c as nat
    ensures b == c
  {
    assert (b as nat) as bv32 == b;
    assert (c as nat) as bv32 == c;
  }

  lemma PowerBelow(k: nat)
    requires Two(k) < 0x1_0000_0000
    ensures k < 32
  {
    assert Two(8) == 0x100 && Two(16) == 0x1_0000 && Two(24) == 0x100_0000 && Two(32) == 0x1_0000_0000;
    if k >= 32 { TwoGrows(32, k); }
  }

  lemma PowerIsSingle(b: bv32) returns (k: nat)
    requires PowerOfTwo(b as nat)
    ensures k < 32 && b == Single(k)
  {
    k := PowerIs(b as nat);
    PowerBelow(k);
    SingleIsTwo(k);
    hide Single;
    SameWord(b, Single(k));
  }

  lemma OneBitIsPower(b: bv32)
    requires b != 0
    ensures NoOtherBit(b) <==> PowerOfTwo(b as nat)
  {
    hide Single, NoOtherBit, PowerOfTwo, Two;
    if NoOtherBit(b) {
      var k := OneBit(b);
      SingleIsTwo(k);
      TwoIsPower(k);
    }
    if PowerOfTwo(b as nat) {
      var k := PowerIsSingle(b);
      SingleBit(k);
    }
  }

  lemma BitTest(b: bv32)
    requires 0 < b < 0x8000_0000
    ensures (b | (b - 1)) + 1 == b << 1 <==> NoOtherBit(b)
  {
  }

  /** The test of rt_malloc, (size | (size - 1)) + 1 == (size << 1), singles out exactly the
      powers of two. */
  lemma PowerTest(b: bv32)
    requires 0 < b < 0x8000_0000
    ensures (b | (b - 1)) + 1 == b << 1 <==> PowerOfTwo(b as nat)
  {
    BitTest(b);
    OneBitIsPower(b);
  }

  /** Chunks whose size is a power of two are aligned to it within the zone, others to 8
      bytes. */
  function FirstOffset(size: nat): nat
    requires size > 0
  {
    if PowerOfTwo(size) then RoundUp(HEADER, size) else RoundUp(HEADER, 8)
  }

  function NewZone(zoneSize: nat, zi: nat, size: nat): Zone
    requires size > 0 && FirstOffset(size) <= zoneSize
  {
    var nmax := Quotient(zoneSize - FirstOffset(size), size);
    Zone(nmax - 1, nmax, FirstOffset(size), 0, size, zi, [])
  }

  function Quotient(x: nat, m: nat): nat
    requires m > 0
  {
    x / m
  }

  lemma FirstOffsetNear(size: nat)
    requires size > 0
    ensures HEADER <= FirstOffset(size) < HEADER + size + 8
  {
    var q := RoundUpIs(HEADER, size);
    var r := RoundUpIs(HEADER, 8);
    hide RoundUp, PowerOfTwo;
  }

  /** Chunks start at the first multiple of their alignment behind the header. */
  lemma FirstOffsetIsLeast(size: nat, off: nat)
    requires size > 0
    ensures var m := if PowerOfTwo(size) then size else 8;
            HEADER <= FirstOffset(size) && Multiple(FirstOffset(size), m) &&
            (HEADER <= off && Multiple(off, m) ==> FirstOffset(size) <= off)
  {
    hide RoundUp, PowerOfTwo, Multiple;
    RoundUpIsLeast(HEADER, size, off);
    RoundUpIsLeast(HEADER, 8, off);
  }

  lemma RoundUpIsLeast(n: nat, m: nat, off: nat)
    requires m > 0
    ensures n <= RoundUp(n, m) && Multiple(RoundUp(n, m), m) && (n <= off && Multiple(off, m) ==> RoundUp(n, m) <= off)
  {
    var q := RoundUpIs(n, m);
    hide RoundUp;
    if n <= off && Multiple(off, m) {
      var k: nat :| off == k * m;
      if k < q { TimesLess(k, q, m); }
    }
  }

  lemma NewZoneFits(zoneSize: nat, zi: nat, size: nat)
    requires zi < NZONES && size == ChunkSize(zi) && size > 0 && 4 * size <= zoneSize && zoneSize >= MIN_ZONE
    ensures FirstOffset(size) <= zoneSize
    ensures var z := NewZone(zoneSize, zi, size);
            ZoneFits(z, zoneSize) && z.nfree > 0 && forall i: nat :: IsLive(z, i) <==> i == 0
  {
    hide ChunkSize, FirstOffset;
    FirstOffsetNear(size);
    var off := FirstOffset(size);
    DivTimes(zoneSize - off, size);
    var nmax := (zoneSize - off) / size;
    if nmax < 2 { TimesLess(nmax, 2, size); }
  }

  lemma TimesAdd(a: nat, b: nat, m: nat)
    ensures a * m + b * m == (a + b) * m
  {
  }

  /** A chunk whose size is a power of two starts at a multiple of it, within its zone. */
  lemma PowersAligned(x: Zone, zoneSize: nat, i: nat)
    requires ZoneFits(x, zoneSize) && PowerOfTwo(x.chunk)
    ensures x.chunk > 0 && Multiple(Offset(x, i), x.chunk)
  {
    var q := RoundUpIs(HEADER, x.chunk);
    assert x.base == q * x.chunk;
    hide RoundUp, PowerOfTwo, FirstOffset;
    TimesAdd(q, i, x.chunk);
    assert Offset(x, i) == (q + i) * x.chunk;
  }

  ghost predicate Multiple(x: nat, m: nat) {
    exists k: nat :: x == k * m
  }

  lemma MultiplesAdd(x: nat, y: nat, m: nat)
    requires Multiple(y, m) && m > 0
    ensures Multiple(x + y, m) <==> Multiple(x, m)
  {
    var k: nat :| y == k * m;
    if Multiple(x, m) {
      var j: nat :| x == j * m;
      TimesAdd(j, k, m);
      assert x + y == (j + k) * m;
    }
    if Multiple(x + y, m) {
      var j: nat :| x + y == j * m;
      if j < k { TimesLess(j, k, m); }
      TimesAdd(j - k, k, m);
      assert x == (j - k) * m;
    }
  }

  /** Its address is a multiple of its size if and only if the zone starts at one; every
      page does for sizes up to a page. */
  lemma AddressAligned(z: nat, x: Zone, zoneSize: nat, i: nat)
    requires ZoneFits(x, zoneSize) && PowerOfTwo(x.chunk)
    ensures Multiple(z * PAGE + Offset(x, i), x.chunk) <==> Multiple(z * PAGE, x.chunk)
    ensures x.chunk <= PAGE ==> Multiple(z * PAGE, x.chunk)
  {
    PowersAligned(x, zoneSize, i);
    MultiplesAdd(z * PAGE, Offset(x, i), x.chunk);
    if x.chunk <= PAGE { PagesMultiple(z, x.chunk); }
    hide PowerOfTwo, Multiple, FirstOffset, ChunkSize;
  }

  /** Every chunk is 8-byte aligned. */
  lemma ChunkEven(z: nat, x: Zone, zoneSize: nat, i: nat)
    requires ZoneFits(x, zoneSize)
    ensures Multiple(z * PAGE + Offset(x, i), 8)
  {
    var c := SizesEven(x.zi);
    FirstOffsetIsLeast(x.chunk, 0);
    var m := if PowerOfTwo(x.chunk) then x.chunk else 8;
    var q: nat :| x.base == q * m;
    hide PowerOfTwo, FirstOffset, Multiple, ChunkSize, StartsAt;
    var b := if PowerOfTwo(x.chunk) then q * c else q;
    TimesTimes(q, c, 8);
    TimesTimes(i, c, 8);
    EightFold(z * PAGE + Offset(x, i), z * 512 + b + i * c);
  }

  lemma EightFold(a: nat, k: nat)
    requires a == k * 8
    ensures Multiple(a, 8)
  {
  }

  lemma SizesEven(zi: nat) returns (c: nat)
    requires zi < NZONES
    ensures ChunkSize(zi) == c * 8 && c > 0
  {
    c := ChunkSize(zi) / 8;
  }

  lemma PagesMultiple(z: nat, n: nat)
    requires PowerOfTwo(n) && n <= PAGE
    ensures Multiple(z * PAGE, n)
  {
    var m := PageMultiple(n);
    TimesTimes(z, m, n);
  }

  lemma TimesTimes(z: nat, m: nat, n: nat)
    ensures z * (m * n) == (z * m) * n
  {
  }

  lemma PageMultiple(size: nat) returns (m: nat)
    requires PowerOfTwo(size) && size <= PAGE
    ensures PAGE == m * size
  {
    var j := PowerIs(size);
    assert Two(6) == 64 && Two(12) == PAGE && Two(13) == 2 * PAGE;
    if j > 12 { TwoGrows(13, j); }
    TwoAdds(j, 12 - j);
    m := Two(12 - j);
  }

  lemma {:induction false} TwoAdds(j: nat, k: nat)
    ensures Two(j + k) == Two(k) * Two(j)
  {
    if k > 0 { TwoAdds(j, k - 1); }
  }

  // ----- who owns which page -----

  /** memusage: what a page is the start or part of. */
  datatype Usage = FREE | SMALL(offset: nat) | LARGE(pages: nat)

  /** What a live address was allocated as. */
  datatype Home = Chunk(zone: nat, index: nat) | Large(first: nat)

  type Zones = map<nat, Zone>
  type Spans = map<nat, nat>

  /** Spans of pages in use do not overlap. */
  ghost predicate Apart(spans: Spans) {
    && (forall a :: a in spans ==> spans[a] > 0)
    && (forall a, b :: a in spans && b in spans && a < b ==> a + spans[a] <= b)
  }

  /** No page in use is on the free list, and there are `total` pages. */
  ghost predicate Reserved(spans: Spans, runs: seq<Run>, total: nat) {
    && (forall a, p: nat :: a in spans && Within(a, spans[a], p) ==> p < total && !IsFree(runs, p))
    && (forall p: nat :: IsFree(runs, p) ==> p < total)
  }

  ghost predicate ZonesFit(zones: Zones, spans: Spans, zonePages: nat) {
    forall z :: z in zones ==> ZoneFits(zones[z], zonePages * PAGE) && z in spans && spans[z] == zonePages
  }

  /** A zone is in the list of its index exactly when it has free chunks and is not
      parked. */
  ghost predicate Listed(table: seq<seq<nat>>, parked: seq<nat>, zones: Zones) {
    && |table| == NZONES && Distinct(parked)
    && (forall z :: z in parked ==> z in zones)
    && (forall k :: 0 <= k < NZONES ==> Distinct(table[k]))
    && (forall k, z :: 0 <= k < NZONES && z in table[k] ==>
      z in zones && z !in parked && zones[z].zi == k && zones[z].nfree > 0)
    && (forall z :: z in zones && z !in parked && zones[z].zi < NZONES && zones[z].nfree > 0 ==>
      z in table[zones[z].zi])
  }

  /** memusage leads from every page of a zone to its first page. */
  ghost predicate Traced(usage: seq<Usage>, zones: Zones, zonePages: nat) {
    forall z, p: nat :: z in zones && Within(z, zonePages, p) ==> p < |usage| && usage[p] == SMALL(p - z)
  }

  ghost predicate HomeFits(a: nat, h: Home, zones: Zones, parked: seq<nat>, spans: Spans, usage: seq<Usage>) {
    match h
    case Chunk(z, i) => z in zones && z !in parked && IsLive(zones[z], i) && a == z * PAGE + Offset(zones[z], i)
    case Large(p) => a == p * PAGE && p in spans && p !in zones && p < |usage| && usage[p] == LARGE(spans[p])
  }

  /** Live chunk i of zone z, with header x, is a live address. */
  ghost predicate IsHome(home: map<nat, Home>, z: nat, x: Zone, i: nat) {
    z * PAGE + Offset(x, i) in home && home[z * PAGE + Offset(x, i)] == Chunk(z, i)
  }

  /** The live addresses are exactly the live chunks of the zones and the large blocks. */
  ghost predicate Homed(home: map<nat, Home>, zones: Zones, parked: seq<nat>, spans: Spans, usage: seq<Usage>) {
    && (forall a :: a in home ==> HomeFits(a, home[a], zones, parked, spans, usage))
    && (forall z, i: nat :: z in zones && z !in parked && IsLive(zones[z], i) ==> IsHome(home, z, zones[z], i))
  }

  ghost function BlockSize(h: Home, zones: Zones, spans: Spans): nat {
    match h
    case Chunk(z, _) => if z in zones then zones[z].chunk else 0
    case Large(p) => if p in spans then spans[p] * PAGE else 0
  }

  lemma SameSpan(spans: Spans, a: nat, b: nat, p: nat)
    requires Apart(spans) && a in spans && b in spans && Within(a, spans[a], p) && Within(b, spans[b], p)
    ensures a == b
  {
  }

  lemma SpansOrder(spans: Spans, a: nat, b: nat)
    requires Apart(spans) && a in spans && b in spans
    ensures a == b || a + spans[a] <= b || b + spans[b] <= a
  {
  }

  /** The pages of a chunk are pages of its zone. */
  lemma ChunkPages(z: nat, x: Zone, zonePages: nat, i: nat)
    requires ZoneFits(x, zonePages * PAGE) && i < x.nmax
    ensures var a := z * PAGE + Offset(x, i);
            a / PAGE == z + Offset(x, i) / PAGE && Within(z, zonePages, a / PAGE) &&
              a + x.chunk <= (z + zonePages) * PAGE && x.chunk > 0
  {
    ChunkInside(x, zonePages * PAGE, i);
    hide ZoneFits, Offset;
  }

  /** Live blocks lie inside their spans. */
  lemma BlockInSpan(a: nat, h: Home, zones: Zones, parked: seq<nat>, spans: Spans, usage: seq<Usage>, zonePages: nat)
      returns (s: nat)
    requires HomeFits(a, h, zones, parked, spans, usage) && ZonesFit(zones, spans, zonePages) && Apart(spans)
    ensures s in spans && s * PAGE <= a && a + BlockSize(h, zones, spans) <= (s + spans[s]) * PAGE &&
      BlockSize(h, zones, spans) > 0
    ensures h.Chunk? ==> s == h.zone
    ensures h.Large? ==> s == h.first
  {
    match h
    case Chunk(z, i) =>
      s := z;
      ChunkPages(z, zones[z], zonePages, i);
    case Large(p) =>
      s := p;
  }

  /** Two live blocks never overlap. */
  lemma LiveBlocksApart(home: map<nat, Home>, zones: Zones, parked: seq<nat>, spans: Spans,
                        usage: seq<Usage>, zonePages: nat, a: nat, b: nat)
    requires Homed(home, zones, parked, spans, usage) && ZonesFit(zones, spans, zonePages) && Apart(spans)
    requires a in home && b in home && a < b
    ensures a + BlockSize(home[a], zones, spans) <= b
  {
    var s := BlockInSpan(a, home[a], zones, parked, spans, usage, zonePages);
    var t := BlockInSpan(b, home[b], zones, parked, spans, usage, zonePages);
    SpansOrder(spans, s, t);
    if s == t {
      SameSpanBlocks(home, zones, parked, spans, usage, a, b, s);
    }
    hide ZonesFit;
  }

  lemma SameSpanBlocks(home: map<nat, Home>, zones: Zones, parked: seq<nat>, spans: Spans, usage: seq<Usage>, a: nat,
                       b: nat, s: nat)
    requires Homed(home, zones, parked, spans, usage) && a in home && b in home && a < b
    requires (home[a].Chunk? && home[a].zone == s) || (home[a].Large? && home[a].first == s)
    requires (home[b].Chunk? && home[b].zone == s) || (home[b].Large? && home[b].first == s)
    ensures a + BlockSize(home[a], zones, spans) <= b
  {
    assert HomeFits(a, home[a], zones, parked, spans, usage) && HomeFits(b, home[b], zones, parked, spans, usage);
    if home[a].Chunk? {
      var i, j := home[a].index, home[b].index;
      if i < j {
        ChunksApart(zones[s], i, j);
      } else if j < i {
        ChunksApart(zones[s], j, i);
      }
    }
    hide Homed;
  }

  /** Everything but the free pages. */
  datatype Heap = Heap(zones: Zones, parked: seq<nat>, table: seq<seq<nat>>, spans: Spans,
                       usage: seq<Usage>, home: map<nat, Home>)

  ghost predicate HeapFits(h: Heap, zonePages: nat) {
    && Apart(h.spans) && ZonesFit(h.zones, h.spans, zonePages) && Listed(h.table, h.parked, h.zones)
    && Traced(h.usage, h.zones, zonePages) && Homed(h.home, h.zones, h.parked, h.spans, h.usage)
  }

  // ----- steps -----

  /** An address whose page belongs to span s is the address of no block of another
      span. */
  lemma HomeInSpan(home: map<nat, Home>, zones: Zones, parked: seq<nat>, spans: Spans,
                   usage: seq<Usage>, zonePages: nat, a: nat, s: nat)
    requires Homed(home, zones, parked, spans, usage) && ZonesFit(zones, spans, zonePages) && Apart(spans)
    requires s in spans && s * PAGE <= a < (s + spans[s]) * PAGE && a in home
    ensures (home[a].Chunk? && home[a].zone == s) || (home[a].Large? && home[a].first == s)
  {
    var t := BlockInSpan(a, home[a], zones, parked, spans, usage, zonePages);
    SpansOrder(spans, s, t);
    hide ZonesFit;
  }

  /** A chunk that is not live has an address that is not live. */
  lemma ChunkNotHome(home: map<nat, Home>, zones: Zones, parked: seq<nat>, spans: Spans,
                     usage: seq<Usage>, zonePages: nat, z: nat, x: Zone, i: nat)
    requires Homed(home, zones, parked, spans, usage) && ZonesFit(zones, spans, zonePages) && Apart(spans)
    requires z in zones && ZoneFits(x, zonePages * PAGE) && i < x.nmax
    requires z !in parked ==> x.base == zones[z].base && x.chunk == zones[z].chunk && !IsLive(zones[z], i)
    ensures z * PAGE + Offset(x, i) !in home
  {
    var a := z * PAGE + Offset(x, i);
    ChunkPages(z, x, zonePages, i);
    if a in home {
      HomeInSpan(home, zones, parked, spans, usage, zonePages, a, z);
      SameChunk(home, zones, parked, spans, usage, z, x, i);
    }
    hide Homed;
  }

  lemma SameChunk(home: map<nat, Home>, zones: Zones, parked: seq<nat>, spans: Spans, usage: seq<Usage>, z: nat,
                  x: Zone, i: nat)
    requires Homed(home, zones, parked, spans, usage) && z in zones && x.chunk > 0
    requires var a := z * PAGE + Offset(x, i);
      a in home && ((home[a].Chunk? && home[a].zone == z) || (home[a].Large? && home[a].first == z))
    requires z !in parked ==> x.base == zones[z].base && x.chunk == zones[z].chunk
    ensures z !in parked && IsLive(zones[z], i)
  {
    var a := z * PAGE + Offset(x, i);
    assert HomeFits(a, home[a], zones, parked, spans, usage);
    var j := home[a].index;
    if i < j { ChunksApart(x, i, j); } else if j < i { ChunksApart(x, j, i); }
    hide Homed, IsLive;
  }

  /** z alone comes or goes, at the head of one list. */
  ghost predicate AtHead(table: seq<seq<nat>>, table': seq<seq<nat>>, z: nat) {
    |table'| == |table| && exists k :: 0 <= k < |table| && AtHeadOf(table, table', z, k)
  }

  ghost predicate AtHeadOf(table: seq<seq<nat>>, table': seq<seq<nat>>, z: nat, k: nat)
    requires |table'| == |table| && k < |table|
  {
    && (table'[k] == table[k] || table'[k] == [z] + table[k] || table[k] == [z] + table'[k])
    && forall j :: 0 <= j < |table| && j != k ==> table'[j] == table[j]
  }

  /** The zone list after a chunk was taken from the head zone. */
  function AfterTake(table: seq<seq<nat>>, zi: nat, nfree: int): seq<seq<nat>>
    requires zi < |table| && table[zi] != []
  {
    if nfree == 0 then table[zi := table[zi][1..]] else table
  }

  lemma TakeAtHead(table: seq<seq<nat>>, zi: nat, nfree: int)
    requires zi < |table| && table[zi] != []
    ensures AtHead(table, AfterTake(table, zi, nfree), table[zi][0])
  {
    assert table[zi] == [table[zi][0]] + table[zi][1..];
    assert AtHeadOf(table, AfterTake(table, zi, nfree), table[zi][0], zi);
  }

  lemma TakeListed(table: seq<seq<nat>>, parked: seq<nat>, zones: Zones, zi: nat, x: Zone)
    requires Listed(table, parked, zones) && zi < NZONES && table[zi] != []
    requires table[zi][0] in zones && x.zi == zi && x.nfree == zones[table[zi][0]].nfree - 1
    ensures Listed(AfterTake(table, zi, x.nfree), parked, zones[table[zi][0] := x])
  {
    var z := table[zi][0];
    assert z in table[zi];
    assert table[zi] == [z] + table[zi][1..];
  }

  /** Chunks lie where they lay. */
  ghost predicate SameGrid(x: Zone, y: Zone) {
    x.base == y.base && x.chunk == y.chunk
  }

  lemma ZoneUpdated(zones: Zones, spans: Spans, usage: seq<Usage>, zonePages: nat, z: nat, x: Zone)
    requires ZonesFit(zones, spans, zonePages) && Traced(usage, zones, zonePages) && z in zones &&
      ZoneFits(x, zonePages * PAGE)
    ensures ZonesFit(zones[z := x], spans, zonePages) && Traced(usage, zones[z := x], zonePages)
  {
  }

  lemma ZoneOf(zones: Zones, spans: Spans, zonePages: nat, z: nat)
    requires ZonesFit(zones, spans, zonePages) && z in zones
    ensures ZoneFits(zones[z], zonePages * PAGE) && z in spans && spans[z] == zonePages
  {
  }

  /** A block stays where it is while its zone, or its span, stays. */
  lemma HomeStays(a: nat, b: Home, zones: Zones, parked: seq<nat>, spans: Spans,
                  usage: seq<Usage>, zones': Zones, parked': seq<nat>, spans': Spans, usage': seq<Usage>)
    requires HomeFits(a, b, zones, parked, spans, usage)
    requires b.Chunk? ==> b.zone in zones' && b.zone !in parked' && IsLive(zones'[b.zone], b.index)
    requires b.Chunk? && b.zone in zones && b.zone in zones' ==> SameGrid(zones[b.zone], zones'[b.zone])
    requires b.Large? ==>
      b.first !in zones' && b.first in spans' && (b.first in spans ==> spans'[b.first] == spans[b.first])
    requires b.Large? ==> b.first < |usage'| && (b.first < |usage| ==> usage'[b.first] == usage[b.first])
    ensures HomeFits(a, b, zones', parked', spans', usage')
  {
  }

  lemma ChunkIsLive(a: nat, b: Home, zones: Zones, parked: seq<nat>, spans: Spans, usage: seq<Usage>)
    requires HomeFits(a, b, zones, parked, spans, usage)
    ensures b.Chunk? ==>
      b.zone in zones && b.zone !in parked && IsLive(zones[b.zone], b.index) &&
      a == b.zone * PAGE + Offset(zones[b.zone], b.index)
    ensures b.Large? ==>
      a == b.first * PAGE && b.first !in zones && b.first in spans && b.first < |usage| &&
      usage[b.first] == LARGE(spans[b.first])
  {
  }

  lemma TakeHomed(h: Heap, zonePages: nat, z: nat, x: Zone, i: nat)
    requires HeapFits(h, zonePages) && z in h.zones && z !in h.parked && ZoneFits(x, zonePages * PAGE) && i < x.nmax
    requires x.base == h.zones[z].base && x.chunk == h.zones[z].chunk && !IsLive(h.zones[z], i)
    requires forall j: nat :: IsLive(x, j) <==> j == i || IsLive(h.zones[z], j)
    ensures var a := z * PAGE + Offset(x, i);
            a !in h.home && Homed(h.home[a := Chunk(z, i)], h.zones[z := x], h.parked, h.spans, h.usage)
  {
    hide Apart, ZonesFit, Listed, Traced, IsLive, HomeFits, Offset, ZoneFits;
    ChunkNotHome(h.home, h.zones, h.parked, h.spans, h.usage, zonePages, z, x, i);
    var a := z * PAGE + Offset(x, i);
    NewHomeFits(a, z, x, i, h.zones[z := x], h.parked, h.spans, h.usage);
    forall b | b in h.home
      ensures HomeFits(b, h.home[b], h.zones[z := x], h.parked, h.spans, h.usage)
    {
      ChunkIsLive(b, h.home[b], h.zones, h.parked, h.spans, h.usage);
      HomeStays(b, h.home[b], h.zones, h.parked, h.spans, h.usage, h.zones[z := x], h.parked, h.spans, h.usage);
    }
    var zones' := h.zones[z := x];
    forall y, j: nat | y in zones' && y !in h.parked && IsLive(zones'[y], j)
      ensures IsHome(h.home[a := Chunk(z, i)], y, zones'[y], j)
    {
      if y != z || j != i {
        assert IsLive(h.zones[y], j);
        SameOffset(h.zones[y], zones'[y], j);
        assert IsHome(h.home, y, h.zones[y], j);
      }
    }
  }

  lemma NewHomeFits(a: nat, z: nat, x: Zone, i: nat, zones: Zones, parked: seq<nat>, spans: Spans, usage: seq<Usage>)
    requires z in zones && zones[z] == x && z !in parked && IsLive(x, i) && a == z * PAGE + Offset(x, i)
    ensures HomeFits(a, Chunk(z, i), zones, parked, spans, usage)
  {
  }

  lemma SameOffset(x: Zone, y: Zone, i: nat)
    requires x.base == y.base && x.chunk == y.chunk
    ensures Offset(x, i) == Offset(y, i)
  {
  }

  /** The first zone of a list has a chunk to give, and is of the list's class. */
  lemma HeadZone(h: Heap, zonePages: nat, zi: nat)
    requires HeapFits(h, zonePages) && zi < NZONES && |h.table| == NZONES && h.table[zi] != []
    ensures var z := h.table[zi][0];
            && z in h.zones && z !in h.parked && h.zones[z].nfree > 0 && h.zones[z].zi == zi
            && h.zones[z].chunk == ChunkSize(zi)
            && (h.zones[z].uindex + 1 == h.zones[z].nmax ==> h.zones[z].freed != [])
            && ZoneFits(h.zones[z], zonePages * PAGE)
  {
    assert h.table[zi][0] in h.table[zi];
    ZoneOf(h.zones, h.spans, zonePages, h.table[zi][0]);
    FreeListHasHead(h.zones[h.table[zi][0]], zonePages * PAGE);
  }

  /** rt_malloc takes a chunk from the first zone of its list. */
  lemma TakeStep(h: Heap, zonePages: nat, zi: nat)
    requires HeapFits(h, zonePages) && zi < NZONES && |h.table| == NZONES && h.table[zi] != []
    requires h.table[zi][0] in h.zones
    requires var x := h.zones[h.table[zi][0]]; x.uindex + 1 == x.nmax ==> x.freed != []
    ensures var z := h.table[zi][0];
            var (x, i) := Take(h.zones[z]);
            var a := z * PAGE + Offset(x, i);
            && a !in h.home
            && HeapFits(h.(zones := h.zones[z := x], table := AfterTake(h.table, zi, x.nfree),
              home := h.home[a := Chunk(z, i)]), zonePages)
  {
    hide IsLive, AfterTake, ZonesFit, Traced, Apart, Offset, ChunkSize;
    HeadZone(h, zonePages, zi);
    var z := h.table[zi][0];
    TakeFits(h.zones[z], zonePages * PAGE);
    hide ZoneFits;
    var (x, i) := Take(h.zones[z]);
    TakeListed(h.table, h.parked, h.zones, zi, x);
    TakeHomed(h, zonePages, z, x, i);
    ZoneUpdated(h.zones, h.spans, h.usage, zonePages, z, x);
    hide Listed, Homed;
  }

  // Opening a parked zone.

  lemma OpenListed(table: seq<seq<nat>>, parked: seq<nat>, zones: Zones, x: Zone)
    requires Listed(table, parked, zones) && parked != [] && x.zi < NZONES && x.nfree > 0
    ensures parked[0] in zones
    ensures Listed(table[x.zi := [parked[0]] + table[x.zi]], parked[1..], zones[parked[0] := x])
  {
    var z := parked[0];
    assert z in parked && parked == [z] + parked[1..];
    assert z !in table[x.zi];
    forall k | 0 <= k < NZONES
      ensures z !in table[k]
    {
    }
  }

  lemma OpenHomed(h: Heap, zonePages: nat, x: Zone)
    requires HeapFits(h, zonePages) && h.parked != [] && ZoneFits(x, zonePages * PAGE) && x.nfree > 0
    requires forall i: nat :: IsLive(x, i) <==> i == 0
    ensures var z := h.parked[0]; var a := z * PAGE + Offset(x, 0);
            a !in h.home && Homed(h.home[a := Chunk(z, 0)], h.zones[z := x], h.parked[1..], h.spans, h.usage)
  {
    hide Apart, ZonesFit, Traced, IsLive, HomeFits, Offset, ZoneFits;
    var z := h.parked[0];
    assert h.parked == [z] + h.parked[1..];
    assert z in h.parked && z !in h.parked[1..];
    assert IsLive(x, 0);
    LiveBelow(x, zonePages * PAGE, 0);
    ChunkNotHome(h.home, h.zones, h.parked, h.spans, h.usage, zonePages, z, x, 0);
    var a := z * PAGE + Offset(x, 0);
    var zones' := h.zones[z := x];
    var home' := h.home[a := Chunk(z, 0)];
    NewHomeFits(a, z, x, 0, zones', h.parked[1..], h.spans, h.usage);
    forall b | b in h.home
      ensures HomeFits(b, h.home[b], zones', h.parked[1..], h.spans, h.usage)
    {
      ChunkIsLive(b, h.home[b], h.zones, h.parked, h.spans, h.usage);
      HomeStays(b, h.home[b], h.zones, h.parked, h.spans, h.usage, zones', h.parked[1..], h.spans, h.usage);
    }
    forall y, j: nat | y in zones' && y !in h.parked[1..] && IsLive(zones'[y], j)
      ensures IsHome(home', y, zones'[y], j)
    {
      if y != z {
        assert IsLive(h.zones[y], j) && y !in h.parked;
        assert IsHome(h.home, y, h.zones[y], j);
      }
    }
  }

  lemma LiveBelow(x: Zone, zoneSize: nat, i: nat)
    requires ZoneFits(x, zoneSize) && IsLive(x, i)
    ensures i < x.nmax
  {
  }

  /** rt_malloc makes the first parked zone a new zone of class zi. */
  lemma OpenStep(h: Heap, zonePages: nat, x: Zone)
    requires HeapFits(h, zonePages) && h.parked != [] && ZoneFits(x, zonePages * PAGE) && x.nfree > 0 &&
      x.zi < |h.table|
    requires forall i: nat :: IsLive(x, i) <==> i == 0
    ensures var z := h.parked[0]; var a := z * PAGE + Offset(x, 0);
            && a !in h.home
            && HeapFits(h.(zones := h.zones[z := x], parked := h.parked[1..],
              table := h.table[x.zi := [z] + h.table[x.zi]],
                           home := h.home[a := Chunk(z, 0)]), zonePages)
  {
    hide IsLive, ZonesFit, Traced, Apart, Offset, ChunkSize, Homed;
    OpenListed(h.table, h.parked, h.zones, x);
    OpenHomed(h, zonePages, x);
    ZoneUpdated(h.zones, h.spans, h.usage, zonePages, h.parked[0], x);
    hide Listed, ZoneFits;
  }

  lemma OpenAtHead(table: seq<seq<nat>>, zi: nat, z: nat)
    requires zi < |table|
    ensures AtHead(table, table[zi := [z] + table[zi]], z)
  {
    assert AtHeadOf(table, table[zi := [z] + table[zi]], z, zi);
  }

  // Giving a chunk back.

  function AfterGive(table: seq<seq<nat>>, z: nat, x: Zone): seq<seq<nat>>
    requires x.zi < |table|
  {
    if x.nfree == 0 then table[x.zi := [z] + table[x.zi]] else table
  }

  lemma GiveLeft(table: seq<seq<nat>>, z: nat, x: Zone)
    requires x.zi < |table|
    ensures var mid := AfterGive(table, z, x);
            Left(table, mid[x.zi := Without(mid[x.zi], z)], z, x.zi)
  {
  }

  lemma GiveOthers(table: seq<seq<nat>>, z: nat, x: Zone)
    requires x.zi < |table| && Distinct(table[x.zi])
    requires z in AfterGive(table, z, x)[x.zi] && Distinct(AfterGive(table, z, x)[x.zi])
    ensures AfterGive(table, z, x)[x.zi] != [z] <==> exists y :: y in table[x.zi] && y != z
  {
    var s := AfterGive(table, z, x)[x.zi];
    if s != [z] {
      assert |s| > 1;
      assert s[0] in s && s[1] in s && s[0] != s[1];
      var y := if s[0] == z then s[1] else s[0];
      assert y in table[x.zi];
    }
  }

  /** z leaves list k, whose order stays, and no other list changes. */
  ghost predicate Left(table: seq<seq<nat>>, table': seq<seq<nat>>, z: nat, k: nat) {
    && |table'| == |table| && k < |table| && table'[k] == Without(table[k], z)
    && forall j :: 0 <= j < |table| && j != k ==> table'[j] == table[j]
  }

  lemma GiveAtHead(table: seq<seq<nat>>, z: nat, x: Zone)
    requires x.zi < |table|
    ensures AtHead(table, AfterGive(table, z, x), z)
  {
    assert AtHeadOf(table, AfterGive(table, z, x), z, x.zi);
  }

  lemma GiveListed(table: seq<seq<nat>>, parked: seq<nat>, zones: Zones, z: nat, x: Zone, zoneSize: nat)
    requires Listed(table, parked, zones) && z in zones && z !in parked && zones[z].zi < NZONES
    requires ZoneFits(zones[z], zoneSize) && x.zi == zones[z].zi && x.nfree == zones[z].nfree + 1
    ensures zones[z].zi < |table| && Listed(AfterGive(table, z, zones[z]), parked, zones[z := x])
  {
    hide ChunkSize;
  }

  lemma GiveHomed(h: Heap, zonePages: nat, z: nat, i: nat)
    requires HeapFits(h, zonePages) && z in h.zones && z !in h.parked && IsLive(h.zones[z], i)
    ensures var x := h.zones[z]; var a := z * PAGE + Offset(x, i);
            a in h.home && Homed(h.home - {a}, h.zones[z := Give(x, i)], h.parked, h.spans, h.usage)
  {
    hide Apart, ZonesFit, Listed, Traced, HomeFits, Offset, ZoneFits;
    var x := h.zones[z];
    var zones' := h.zones[z := Give(x, i)];
    var a := z * PAGE + Offset(x, i);
    assert IsHome(h.home, z, x, i);
    forall b | b in h.home - {a}
      ensures HomeFits(b, (h.home - {a})[b], zones', h.parked, h.spans, h.usage)
    {
      ChunkIsLive(b, h.home[b], h.zones, h.parked, h.spans, h.usage);
      HomeStays(b, h.home[b], h.zones, h.parked, h.spans, h.usage, zones', h.parked, h.spans, h.usage);
    }
    forall y, j: nat | y in zones' && y !in h.parked && IsLive(zones'[y], j)
      ensures IsHome(h.home - {a}, y, zones'[y], j)
    {
      assert IsLive(h.zones[y], j);
      assert IsHome(h.home, y, h.zones[y], j);
      SameOffset(h.zones[y], zones'[y], j);
    }
  }

  /** rt_free gives a chunk back to its zone. */
  lemma GiveStep(h: Heap, zonePages: nat, z: nat, i: nat)
    requires HeapFits(h, zonePages) && z in h.zones && z !in h.parked && IsLive(h.zones[z], i)
    ensures h.zones[z].zi < |h.table| && ZoneFits(Give(h.zones[z], i), zonePages * PAGE)
    ensures var x := h.zones[z]; var a := z * PAGE + Offset(x, i);
            HeapFits(h.(zones := h.zones[z := Give(x, i)], table := AfterGive(h.table, z, x), home := h.home - {a}),
              zonePages)
  {
    hide ZonesFit, Traced, Apart, Offset, ChunkSize, Homed, AfterGive;
    ZoneOf(h.zones, h.spans, zonePages, z);
    GiveFits(h.zones[z], zonePages * PAGE, i);
    GiveListed(h.table, h.parked, h.zones, z, Give(h.zones[z], i), zonePages * PAGE);
    GiveHomed(h, zonePages, z, i);
    ZoneUpdated(h.zones, h.spans, h.usage, zonePages, z, Give(h.zones[z], i));
    hide Listed, IsLive, Give;
  }

  /** A zone without live chunks leaves its list and is parked. */
  lemma ParkStep(h: Heap, zonePages: nat, z: nat)
    requires HeapFits(h, zonePages) && z in h.zones && z !in h.parked && h.zones[z].nfree == h.zones[z].nmax
    requires h.zones[z].zi < |h.table|
    ensures var zi := h.zones[z].zi;
            HeapFits(h.(table := h.table[zi := Without(h.table[zi], z)], parked := [z] + h.parked), zonePages)
  {
    hide ZonesFit, Traced, Apart, Offset, ChunkSize;
    ZoneOf(h.zones, h.spans, zonePages, z);
    ParkListed(h.table, h.parked, h.zones, z);
    forall i: nat
      ensures !IsLive(h.zones[z], i)
    {
      WholeZoneFree(h.zones[z], zonePages * PAGE, i);
    }
    ParkHomed(h, z);
    hide Listed, Homed, ZoneFits;
  }

  lemma ParkListed(table: seq<seq<nat>>, parked: seq<nat>, zones: Zones, z: nat)
    requires Listed(table, parked, zones) && z in zones && z !in parked && zones[z].zi < NZONES
    ensures Listed(table[zones[z].zi := Without(table[zones[z].zi], z)], [z] + parked, zones)
  {
    WithoutDistinct(table[zones[z].zi], z);
  }

  lemma ParkHomed(h: Heap, z: nat)
    requires Homed(h.home, h.zones, h.parked, h.spans, h.usage) && forall i: nat :: z in h.zones ==>
      !IsLive(h.zones[z], i)
    ensures Homed(h.home, h.zones, [z] + h.parked, h.spans, h.usage)
  {
    hide IsLive, Offset, IsHome;
  }

  // Pages that come and go.

  /** usage' differs from usage at most within the n pages from s on. */
  ghost predicate UsageBut(usage: seq<Usage>, usage': seq<Usage>, s: nat, n: nat) {
    |usage'| == |usage| && forall p: nat :: p < |usage| && !Within(s, n, p) ==> usage'[p] == usage[p]
  }

  lemma TracedBut(usage: seq<Usage>, usage': seq<Usage>, zones: Zones, spans: Spans, zonePages: nat, s: nat)
    requires Traced(usage, zones, zonePages) && Apart(spans) && s in spans && s !in zones
    requires (forall z :: z in zones ==> z in spans && spans[z] == zonePages) && UsageBut(usage, usage', s, spans[s])
    ensures Traced(usage', zones, zonePages)
  {
    forall z, p: nat | z in zones && Within(z, zonePages, p)
      ensures p < |usage'| && usage'[p] == SMALL(p - z)
    {
      if Within(s, spans[s], p) { SameSpan(spans, z, s, p); }
    }
  }

  lemma NotWithin(spans: Spans, a: nat, b: nat)
    requires Apart(spans) && a in spans && b in spans && a != b
    ensures !Within(b, spans[b], a)
  {
  }

  /** The blocks of other spans do not notice. */
  lemma HomedBut(home: map<nat, Home>, zones: Zones, parked: seq<nat>, spans: Spans,
                 usage: seq<Usage>, zones': Zones, parked': seq<nat>, spans': Spans, usage': seq<Usage>, s: nat,
                 all: Spans)
    requires Homed(home, zones, parked, spans, usage) && Apart(all) && s in all && UsageBut(usage, usage', s, all[s])
    requires forall b :: b in spans ==> b in all && all[b] == spans[b]
    requires forall b :: b in spans && b != s ==> b in spans' && spans'[b] == spans[b]
    requires forall z :: z != s ==>
      (z in zones <==> z in zones') && (z in parked <==> z in parked') && (z in zones ==> zones'[z] == zones[z])
    requires (s in zones ==> s in parked) && (s in zones' ==> s in parked')
    requires forall a :: a in home && home[a].Large? ==> home[a].first != s
    ensures Homed(home, zones', parked', spans', usage')
  {
    hide IsLive, HomeFits, IsHome;
    forall b | b in home
      ensures HomeFits(b, home[b], zones', parked', spans', usage')
    {
      ChunkIsLive(b, home[b], zones, parked, spans, usage);
      if home[b].Large? { NotWithin(all, home[b].first, s); }
      HomeStays(b, home[b], zones, parked, spans, usage, zones', parked', spans', usage');
    }
    forall z, i: nat | z in zones' && z !in parked' && IsLive(zones'[z], i)
      ensures IsHome(home, z, zones'[z], i)
    {
      assert z in zones && z !in parked && IsLive(zones[z], i);
    }
  }

  /** Pages from the page allocator become a parked zone; rt_malloc opens it at once. */
  lemma AdoptStep(h: Heap, zonePages: nat, z: nat, x: Zone, usage': seq<Usage>)
    requires HeapFits(h, zonePages) && z !in h.spans && Apart(h.spans[z := zonePages]) && ZoneFits(x, zonePages * PAGE)
    requires UsageBut(h.usage, usage', z, zonePages) && forall p: nat :: Within(z, zonePages, p) ==>
      p < |usage'| && usage'[p] == SMALL(p - z)
    ensures HeapFits(h.(spans := h.spans[z := zonePages], zones := h.zones[z := x], parked := [z] + h.parked,
      usage := usage'), zonePages)
  {
    hide IsLive, ZoneFits, HomeFits, IsHome, ChunkSize;
    var spans' := h.spans[z := zonePages];
    assert z !in h.zones;
    TracedBut(h.usage, usage', h.zones, spans', zonePages, z);
    forall a | a in h.home && h.home[a].Large?
      ensures h.home[a].first != z
    {
      ChunkIsLive(a, h.home[a], h.zones, h.parked, h.spans, h.usage);
    }
    AdoptListed(h.table, h.parked, h.zones, z, x);
    HomedBut(h.home, h.zones, h.parked, h.spans, h.usage, h.zones[z := x], [z] + h.parked, spans', usage', z, spans');
    hide Homed, Listed, Apart;
  }

  lemma AdoptListed(table: seq<seq<nat>>, parked: seq<nat>, zones: Zones, z: nat, x: Zone)
    requires Listed(table, parked, zones) && z !in zones
    ensures Listed(table, [z] + parked, zones[z := x])
  {
  }

  /** The first parked zone goes back to the page allocator. */
  lemma ReleaseStep(h: Heap, zonePages: nat, usage': seq<Usage>)
    requires HeapFits(h, zonePages) && h.parked != [] && UsageBut(h.usage, usage', h.parked[0], zonePages)
    ensures var z := h.parked[0];
            && z in h.zones && z in h.spans && h.spans[z] == zonePages
            && HeapFits(h.(spans := h.spans - {z}, zones := h.zones - {z}, parked := h.parked[1..], usage := usage'),
              zonePages)
  {
    hide IsLive, ZoneFits, HomeFits, IsHome, ChunkSize;
    var z := h.parked[0];
    assert z in h.parked && h.parked == [z] + h.parked[1..];
    ReleaseListed(h.table, h.parked, h.zones);
    forall a | a in h.home && h.home[a].Large?
      ensures h.home[a].first != z
    {
      ChunkIsLive(a, h.home[a], h.zones, h.parked, h.spans, h.usage);
    }
    TracedLess(h.usage, h.zones, zonePages, z);
    TracedBut(h.usage, usage', h.zones - {z}, h.spans, zonePages, z);
    HomedBut(h.home, h.zones, h.parked, h.spans, h.usage, h.zones - {z}, h.parked[1..], h.spans - {z}, usage', z,
      h.spans);
    hide Homed, Listed, Traced;
  }

  lemma TracedLess(usage: seq<Usage>, zones: Zones, zonePages: nat, z: nat)
    requires Traced(usage, zones, zonePages)
    ensures Traced(usage, zones - {z}, zonePages)
  {
  }

  lemma ReleaseListed(table: seq<seq<nat>>, parked: seq<nat>, zones: Zones)
    requires Listed(table, parked, zones) && parked != []
    ensures parked[0] in zones && Listed(table, parked[1..], zones - {parked[0]})
  {
    assert parked[0] in parked && parked == [parked[0]] + parked[1..];
  }

  /** rt_malloc hands out whole pages. */
  lemma LargeStep(h: Heap, zonePages: nat, p: nat, n: nat)
    requires HeapFits(h, zonePages) && p !in h.spans && Apart(h.spans[p := n]) && p < |h.usage|
    ensures p * PAGE !in h.home
    ensures HeapFits(h.(spans := h.spans[p := n], usage := h.usage[p := LARGE(n)],
      home := h.home[p * PAGE := Large(p)]), zonePages)
  {
    hide IsLive, ZoneFits, HomeFits, IsHome, ChunkSize;
    var spans' := h.spans[p := n];
    var usage' := h.usage[p := LARGE(n)];
    assert p !in h.zones;
    TracedBut(h.usage, usage', h.zones, spans', zonePages, p);
    forall a | a in h.home && h.home[a].Large?
      ensures h.home[a].first != p
    {
      ChunkIsLive(a, h.home[a], h.zones, h.parked, h.spans, h.usage);
    }
    HomedBut(h.home, h.zones, h.parked, h.spans, h.usage, h.zones, h.parked, spans', usage', p, spans');
    LargeHome(h.home, h.zones, h.parked, spans', usage', zonePages, p);
    hide Homed, Listed, Apart, Traced;
  }

  lemma LargeHome(home: map<nat, Home>, zones: Zones, parked: seq<nat>, spans: Spans,
                  usage: seq<Usage>, zonePages: nat, p: nat)
    requires Homed(home, zones, parked, spans, usage) && ZonesFit(zones, spans, zonePages) && Apart(spans)
    requires p in spans && p !in zones && p < |usage| && usage[p] == LARGE(spans[p])
    requires forall a :: a in home && home[a].Large? ==> home[a].first != p
    ensures p * PAGE !in home && Homed(home[p * PAGE := Large(p)], zones, parked, spans, usage)
  {
    if p * PAGE in home {
      HomeInSpan(home, zones, parked, spans, usage, zonePages, p * PAGE, p);
      ChunkIsLive(p * PAGE, home[p * PAGE], zones, parked, spans, usage);
    }
    hide ZonesFit, IsLive, Offset;
  }

  /** rt_free takes a large block back. */
  lemma LargeFreeStep(h: Heap, zonePages: nat, p: nat, u: Usage)
    requires HeapFits(h, zonePages) && p * PAGE in h.home && h.home[p * PAGE] == Large(p)
    ensures p in h.spans && p < |h.usage| && h.usage[p] == LARGE(h.spans[p])
    ensures HeapFits(h.(spans := h.spans - {p}, usage := h.usage[p := u], home := h.home - {p * PAGE}), zonePages)
  {
    hide IsLive, ZoneFits, HomeFits, IsHome, ChunkSize;
    ChunkIsLive(p * PAGE, h.home[p * PAGE], h.zones, h.parked, h.spans, h.usage);
    var usage' := h.usage[p := u];
    TracedBut(h.usage, usage', h.zones, h.spans, zonePages, p);
    LargeLess(h.home, h.zones, h.parked, h.spans, h.usage, p);
    HomedBut(h.home - {p * PAGE}, h.zones, h.parked, h.spans, h.usage, h.zones, h.parked, h.spans - {p}, usage', p,
      h.spans);
    hide Homed, Listed, Traced;
  }

  lemma LargeLess(home: map<nat, Home>, zones: Zones, parked: seq<nat>, spans: Spans, usage: seq<Usage>, p: nat)
    requires Homed(home, zones, parked, spans, usage) && p * PAGE in home && home[p * PAGE] == Large(p)
    ensures Homed(home - {p * PAGE}, zones, parked, spans, usage)
    ensures forall a :: a in home - {p * PAGE} && home[a].Large? ==> home[a].first != p
  {
    hide IsLive, Offset;
  }

  // Free pages and pages in use.

  lemma SpanBlocked(spans: Spans, runs: seq<Run>, total: nat, a: nat, p: nat)
    requires Reserved(spans, runs, total) && a in spans
    ensures Within(a, spans[a], p) ==> p < total && !IsFree(runs, p)
  {
  }

  /** A span of free pages is apart from every span in use. */
  lemma FreeSpanApart(spans: Spans, runs: seq<Run>, total: nat, p: nat, n: nat, a: nat)
    requires Apart(spans) && Reserved(spans, runs, total) && n > 0 && SpanFree(runs, p, n) && a in spans
    ensures a != p && (a < p ==> a + spans[a] <= p) && (p < a ==> p + n <= a)
  {
    hide IsFree;
    SpanHas(runs, p, n, p);
    SpanHas(runs, p, n, a);
    SpanBlocked(spans, runs, total, a, a);
    SpanBlocked(spans, runs, total, a, p);
    hide SpanFree, Reserved;
  }

  lemma AllocReserved(spans: Spans, runs: seq<Run>, runs': seq<Run>, total: nat, p: nat, n: nat)
    requires Apart(spans) && Reserved(spans, runs, total) && n > 0 && SpanFree(runs, p, n)
    requires forall q: nat :: IsFree(runs', q) <==> IsFree(runs, q) && !Within(p, n, q)
    ensures p !in spans && p + n <= total && Apart(spans[p := n]) && Reserved(spans[p := n], runs', total)
  {
    hide IsFree;
    SpanHas(runs, p, n, p + n - 1);
    forall a | a in spans
      ensures a != p && (a < p ==> a + spans[a] <= p) && (p < a ==> p + n <= a)
    {
      FreeSpanApart(spans, runs, total, p, n, a);
    }
    assert IsFree(runs, p + n - 1);
    forall q: nat | Within(p, n, q)
      ensures q < total && !IsFree(runs', q)
    {
      SpanHas(runs, p, n, q);
    }
    hide SpanFree;
  }

  lemma FreeReserved(spans: Spans, runs: seq<Run>, runs': seq<Run>, total: nat, p: nat)
    requires Apart(spans) && Reserved(spans, runs, total) && p in spans
    requires forall q: nat :: IsFree(runs', q) <==> IsFree(runs, q) || Within(p, spans[p], q)
    ensures Reserved(spans - {p}, runs', total)
  {
    hide IsFree;
    var rest := spans - {p};
    forall a: nat, q: nat {:trigger Within(a, rest[a], q)} | a in rest && Within(a, rest[a], q)
      ensures q < total && !IsFree(runs', q)
    {
      assert Within(a, spans[a], q);
      if Within(p, spans[p], q) { SameSpan(spans, a, p, q); }
    }
  }

  // ----- the allocator -----

  datatype Pointer = Null | At(addr: nat)

  ghost function Total(m: map<nat, nat>): nat
    decreases |m|
  {
    if m == map[] then 0
    else
      var a :| a in m;
      assert |m - {a}| < |m| by { assert (m - {a}).Keys == m.Keys - {a}; }
      m[a] + Total(m - {a})
  }

  lemma {:induction false} TotalDrops(m: map<nat, nat>, a: nat)
    requires a in m
    ensures Total(m) == m[a] + Total(m - {a})
    decreases |m|
  {
    var b :| b in m && Total(m) == m[b] + Total(m - {b});
    if b != a {
      assert (m - {b}).Keys == m.Keys - {b} && (m - {a}).Keys == m.Keys - {a};
      TotalDrops(m - {b}, a);
      TotalDrops(m - {a}, b);
      assert m - {b} - {a} == m - {a} - {b};
    }
  }

  lemma TotalAdds(m: map<nat, nat>, a: nat, n: nat)
    requires a !in m
    ensures Total(m[a := n]) == Total(m) + n
  {
    TotalDrops(m[a := n], a);
    assert m[a := n] - {a} == m;
  }

  ghost predicate LowestSpan(runs: seq<Run>, p: nat, n: nat) {
    SpanFree(runs, p, n) && forall s: nat :: s < p ==> !SpanFree(runs, s, n)
  }

  /** RT_ALIGN to whole pages; the addition wraps. */
  function PagesFor(size: nat): nat {
    (size + PAGE - 1) % WORD / PAGE
  }

  ghost function BlocksOf(home: map<nat, Home>, zones: Zones, spans: Spans): map<nat, nat> {
    map a | a in home :: BlockSize(home[a], zones, spans)
  }

  /** The loop of rt_system_heap_init: the zone size doubles while twice of it is less
      than a 1024th of the heap. */
  method ZoneSizeFor(limsize: nat) returns (size: nat)
    ensures size == MIN_ZONE || size == 2 * MIN_ZONE || size == MAX_ZONE
    ensures size < MAX_ZONE ==> 2 * size >= limsize / 1024
    ensures size > MIN_ZONE ==> size < limsize / 1024
  {
    size := MIN_ZONE;
    while size < MAX_ZONE && size * 2 < limsize / 1024
      invariant size == MIN_ZONE || size == 2 * MIN_ZONE || size == MAX_ZONE
      invariant size > MIN_ZONE ==> size < limsize / 1024
      decreases MAX_ZONE - size
    {
      size := size * 2;
    }
  }

  lemma StartFits(spans: Spans, usage: seq<Usage>, zonePages: nat)
    requires Apart(spans)
    ensures HeapFits(Heap(map[], [], seq(NZONES, i => []), spans, usage, map[]), zonePages)
  {
  }

  lemma UsagePages(npages: nat)
    requires 0 < npages && npages * PAGE < WORD
    ensures 0 < PagesFor(npages * 4) <= npages
  {
  }

  class Allocator {
    const pages: PageList
    const zoneSize: nat
    const zoneLimit: nat
    const zonePages: nat          // zone_page_cnt
    var table: seq<seq<nat>>      // zone_array
    var parked: seq<nat>          // zone_free; zone_free_cnt is its length
    var zones: Zones              // the zone headers
    var usage: seq<Usage>         // memusage
    ghost var spans: Spans
    ghost var home: map<nat, Home>
    var used: nat                 // used_mem
    var maxUsed: nat              // max_mem

    ghost function State(): Heap
      reads this`zones, this`parked, this`table, this`spans, this`usage, this`home
    {
      Heap(zones, parked, table, spans, usage, home)
    }

    ghost predicate Sizes() {
      && zoneSize == zonePages * PAGE && (zonePages == 8 || zonePages == 16 || zonePages == 32)
      && zoneLimit == if zonePages == 8 then 0x2000 else ZONE_LIMIT
    }

    ghost predicate Fits()
      reads this, pages
    {
      && Sizes() && pages.Valid() && HeapFits(State(), zonePages) && Reserved(spans, pages.runs, |usage|)
    }

    ghost predicate Valid()
      reads this, pages
    {
      Fits() && |parked| <= RELEASE_THRESH
    }

    /** The live blocks: address and size. */
    ghost function Blocks(): map<nat, nat>
      reads this`home, this`zones, this`spans
    {
      BlocksOf(home, zones, spans)
    }

    /** used_mem is the size of all live blocks, as far as it fits in a word. */
    ghost predicate Accounted()
      reads this`used, this`home, this`zones, this`spans
    {
      used == Total(Blocks()) % WORD
    }

    /** rt_system_heap_init for a heap of npages whole pages. */
    constructor (npages: nat)
      requires 0 < npages && npages * PAGE < WORD
      ensures Valid() && Blocks() == map[] && |usage| == npages && fresh(pages) && zones == map[] && parked == [] &&
        Accounted() && used == 0 && maxUsed == 0
      ensures forall p: nat :: IsFree(pages.runs, p) <==> PagesFor(npages * 4) <= p < npages
      ensures zoneSize > MIN_ZONE ==> zoneSize < npages * PAGE / 1024
    {
      hide HeapFits;
      var list := new PageList();
      list.Free(0, npages);
      var size := ZoneSizeFor(npages * PAGE);
      pages := list;
      zoneSize, zonePages := size, size / PAGE;
      zoneLimit := if size / 4 > ZONE_LIMIT then ZONE_LIMIT else size / 4;
      UsagePages(npages);
      ghost var runs := list.runs;
      var own := list.Alloc(PagesFor(npages * 4));
      var u := seq(npages, i => FREE);
      table, parked, zones, usage := seq(NZONES, i => []), [], map[], u;
      home := map[];
      used, maxUsed := 0, 0;
      assert forall p: nat :: IsFree(runs, p) <==> p < npages || IsFree([], p);
      assert SpanFree(runs, 0, PagesFor(npages * 4));
      AllocReserved(map[], runs, list.runs, npages, own.page, PagesFor(npages * 4));
      spans := map[own.page := PagesFor(npages * 4)];
      assert map[][own.page := PagesFor(npages * 4)] == map[own.page := PagesFor(npages * 4)];
      StartFits(map[own.page := PagesFor(npages * 4)], u, size / PAGE);
    }

    /** A chunk from the first zone of list zi. */
    method TakeChunk(zi: nat) returns (a: nat)
      requires Valid() && zi < NZONES && |table| == NZONES && table[zi] != []
      modifies this`table, this`zones, this`home
      ensures Valid() && a !in old(home) && Blocks() == old(Blocks())[a := ChunkSize(zi)]
      ensures a in home && home[a].Chunk? && a == old(NextChunk(zi)) && AtHead(old(table), table, old(Source(zi)))
    {
      hide HeapFits, Reserved, ChunkSize, Take, AfterTake, AtHead, Next;
      ghost var h := State();
      HeadZone(h, zonePages, zi);
      TakeStep(h, zonePages, zi);
      var z: nat := table[zi][0];
      var (x, i) := Take(zones[z]);
      TakeGrid(zones[z]);
      TakeIsNext(zones[z], zonePages * PAGE);
      TakeAtHead(table, zi, x.nfree);
      a := z * PAGE + Offset(x, i);
      TakeBlocks(home, zones, spans, z, x, i, a);
      table := AfterTake(table, zi, x.nfree);
      zones := zones[z := x];
      home := home[a := Chunk(z, i)];
    }

    /** The first parked zone becomes a zone of list zi. */
    method OpenParked(zi: nat) returns (a: nat)
      requires Valid() && zi < NZONES && |table| == NZONES && parked != [] && 4 * ChunkSize(zi) <= zoneSize &&
        ChunkSize(zi) > 0
      modifies this`table, this`parked, this`zones, this`home
      ensures Valid() && a !in old(home) && Blocks() == old(Blocks())[a := ChunkSize(zi)]
      ensures parked == old(parked)[1..] && AtHead(old(table), table, old(parked)[0])
      ensures a in home && home[a].Chunk? && a == old(parked)[0] * PAGE + FirstOffset(ChunkSize(zi))
    {
      hide HeapFits, Reserved, ChunkSize, NewZone, FirstOffset, AtHead;
      var size := ChunkSize(zi);
      NewZoneFits(zoneSize, zi, size);
      var z: nat := parked[0];
      var x := NewZone(zoneSize, zi, size);
      NewZoneClass(zoneSize, zi, size);
      OpenStep(State(), zonePages, x);
      OpenBlocks(State(), zonePages, x);
      a := z * PAGE + Offset(x, 0);
      OpenAtHead(table, zi, z);
      parked := parked[1..];
      zones := zones[z := x];
      table := table[zi := [z] + table[zi]];
      home := home[a := Chunk(z, 0)];
    }

    /** A new zone of list zi from the page allocator. */
    method OpenNew(zi: nat) returns (r: Pointer)
      requires Valid() && zi < NZONES && |table| == NZONES && 4 * ChunkSize(zi) <= zoneSize && ChunkSize(zi) > 0
      modifies this`table, this`zones, this`usage, this`spans, this`home, pages
      ensures Valid()
      ensures r == Null <==> forall s: nat :: !SpanFree(old(pages.runs), s, zonePages)
      ensures r == Null ==> Blocks() == old(Blocks()) && table == old(table) && pages.runs == old(pages.runs)
      ensures r.At? ==> r.addr !in old(home) && Blocks() == old(Blocks())[r.addr := ChunkSize(zi)]
      ensures r.At? ==> r.addr in home && home[r.addr].Chunk?
      ensures r.At? ==> FirstOfZone(r.addr, ChunkSize(zi), old(pages.runs), old(table))
    {
      hide HeapFits, Reserved, ChunkSize, NewZone, FirstOffset, Coalesced, IsFree, UsageBut, Apart, AtHead;
      var size := ChunkSize(zi);
      NewZoneFits(zoneSize, zi, size);
      NewZoneClass(zoneSize, zi, size);
      var x := NewZone(zoneSize, zi, size);
      SpansApart();
      ghost var runs := pages.runs;
      ghost var h := State();
      var span := pages.Alloc(zonePages);
      if span == None { return Null; }
      var z := span.page;
      AllocReserved(spans, runs, pages.runs, |usage|, z, zonePages);
      Trace(z);
      AdoptStep(h, zonePages, z, x, usage);
      ghost var g := h.(spans := h.spans[z := zonePages], zones := h.zones[z := x], parked := [z] + h.parked,
                        usage := usage);
      OpenStep(g, zonePages, x);
      NewBlocks(h, zonePages, z, x);
      assert g.parked[1..] == parked && g.zones[z := x] == g.zones;
      r := At(z * PAGE + Offset(x, 0));
      OpenAtHead(table, zi, z);
      table := table[zi := [z] + table[zi]];
      zones := zones[z := x];
      spans := spans[z := zonePages];
      home := home[r.addr := Chunk(z, 0)];
      assert Claimed(z, zonePages, runs);
    }

    /** Whole pages for a large request. */
    method AllocLarge(npages: nat) returns (r: Pointer)
      requires Valid()
      modifies this`usage, this`spans, this`home, pages
      ensures Valid()
      ensures r == Null <==> npages == 0 || forall s: nat :: !SpanFree(old(pages.runs), s, npages)
      ensures r == Null ==> Blocks() == old(Blocks()) && pages.runs == old(pages.runs)
      ensures r.At? ==> r.addr !in old(home) && Blocks() == old(Blocks())[r.addr := npages * PAGE]
      ensures r.At? ==> WholePages(r.addr, npages, old(pages.runs)) && r.addr in home && home[r.addr].Large?
    {
      hide HeapFits, Reserved, Coalesced, IsFree, Apart;
      SpansApart();
      ghost var runs := pages.runs;
      ghost var h := State();
      var span := pages.Alloc(npages);
      if span == None { return Null; }
      var p := span.page;
      AllocReserved(spans, runs, pages.runs, |usage|, p, npages);
      LargeStep(h, zonePages, p, npages);
      LargeBlocks(h, zonePages, p, npages);
      r := At(p * PAGE);
      usage := usage[p := LARGE(npages)];
      spans := spans[p := npages];
      home := home[p * PAGE := Large(p)];
      assert Claimed(p, npages, runs);
    }

    /** rt_malloc. The block is none of the live ones and is large enough; NULL is
        returned only when there is neither a chunk nor a zone nor a run of pages for
        the request. */
    method Malloc(size: nat) returns (r: Pointer)
      requires Valid() && size < WORD
      modifies this, pages
      ensures Valid()
      ensures r == Null <==> size == 0 || old(Starved(size))
      ensures r == Null ==> Blocks() == old(Blocks())
      ensures r.At? ==>
        r.addr !in old(Blocks()) && Blocks() == old(Blocks())[r.addr := SizeFor(size)] && Snug(size, SizeFor(size))
      ensures r.At? && PowerOfTwo(SizeFor(size)) && SizeFor(size) <= PAGE ==> Multiple(r.addr, SizeFor(size))
      ensures old(Accounted()) ==> Accounted()
      ensures r.At? ==>
        used == (old(used) + SizeFor(size)) % WORD && maxUsed == if used > old(maxUsed) then used else old(maxUsed)
      ensures r == Null ==> used == old(used) && maxUsed == old(maxUsed)
      ensures r.At? ==> Served(size, r.addr) && r.addr in home && (home[r.addr].Large? <==> size >= zoneLimit)
      ensures r == Null ==> table == old(table) && parked == old(parked) && pages.runs == old(pages.runs)
    {
      hide HeapFits, Reserved, PowerOfTwo, Snug, ZoneIndex, Coalesced, IsFree;
      r := Fetch(size);
      if r.At? { Count(SizeFor(size), r.addr, old(Blocks())); }
    }

    /** The statistics of rt_malloc. */
    method Count(n: nat, ghost a: nat, ghost before: map<nat, nat>)
      requires a !in before && Blocks() == before[a := n]
      modifies this`used, this`maxUsed
      ensures old(used) == Total(before) % WORD ==> Accounted()
      ensures used == (old(used) + n) % WORD && maxUsed == if used > old(maxUsed) then used else old(maxUsed)
    {
      hide Total;
      TotalAdds(before, a, n);
      used := (used + n) % WORD;
      if used > maxUsed { maxUsed := used; }
    }

    /** rt_malloc without its statistics. */
    method Fetch(size: nat) returns (r: Pointer)
      requires Valid() && size < WORD
      modifies this`table, this`parked, this`zones, this`usage, this`spans, this`home, pages
      ensures Valid()
      ensures r == Null <==> size == 0 || old(Starved(size))
      ensures r == Null ==> Blocks() == old(Blocks())
      ensures r.At? ==>
        r.addr !in old(Blocks()) && Blocks() == old(Blocks())[r.addr := SizeFor(size)] && Snug(size, SizeFor(size))
      ensures r.At? && PowerOfTwo(SizeFor(size)) && SizeFor(size) <= PAGE ==> Multiple(r.addr, SizeFor(size))
      ensures r.At? ==> Served(size, r.addr) && r.addr in home && (home[r.addr].Large? <==> size >= zoneLimit)
      ensures r == Null ==> table == old(table) && parked == old(parked) && pages.runs == old(pages.runs)
    {
      hide HeapFits, Reserved, ZoneIndex, ChunkSize, Coalesced, IsFree, LeastClass, AtHead, Next, FirstOffset;
      if size == 0 { return Null; }
      if size >= zoneLimit {
        EnoughPages(size);
        r := AllocLarge(PagesFor(size));
      } else {
        ZoneIndexIsBestFit(size);
        ZoneIndexIsLeast(size);
        ZoneIndexLimit(size, zoneLimit);
        var (zi, chunk) := ZoneIndex(size);
        TableSize();
        NoneLeft(zi);
        if table[zi] != [] {
          var a := TakeChunk(zi);
          r := At(a);
        } else if parked != [] {
          var a := OpenParked(zi);
          r := At(a);
        } else {
          r := OpenNew(zi);
        }
      }
      if r.At? && PowerOfTwo(SizeFor(size)) { BlockAligned(r.addr); }
    }

    /** No larger than it has to be: the smallest size class, or less than a page more. */
    ghost predicate Snug(size: nat, n: nat) {
      size <= n && if size >= zoneLimit then n < size + PAGE else LeastClass(size, n)
    }

    /** Where the block for a request lies: in the lowest run of pages if it is large, in the
        first zone with room if there is one, and else at the start of a new zone. */
    twostate predicate Served(size: nat, a: nat)
      reads this`table, this`parked, pages
    {
      var zi := ZoneIndex(size).0;
      if size >= zoneLimit then
        table == old(table) && parked == old(parked) && WholePages(a, PagesFor(size), old(pages.runs))
      else if old(NoRoom(size)) then
        parked == old(parked) && FirstOfZone(a, SizeFor(size), old(pages.runs), old(table))
      else
        && 0 <= zi < NZONES && a == old(NextChunk(zi)) && pages.runs == old(pages.runs)
        && AtHead(old(table), table, old(Source(zi)))
        && if zi < |old(table)| && old(table)[zi] == [] then old(parked) == [old(Source(zi))] + parked
           else parked == old(parked)
    }

    /** The first chunk of a zone that lies in the lowest run of pages and joins its list. */
    ghost predicate FirstOfZone(a: nat, size: nat, runs: seq<Run>, lists: seq<seq<nat>>)
      reads this`table, pages
    {
      exists z: nat ::
        Claimed(z, zonePages, runs) && size > 0 && a == z * PAGE + FirstOffset(size) && AtHead(lists, table, z)
    }

    /** The lowest run of n pages is in use now. */
    ghost predicate Claimed(p: nat, n: nat, runs: seq<Run>)
      reads pages
    {
      LowestSpan(runs, p, n) && forall q: nat :: IsFree(pages.runs, q) <==> IsFree(runs, q) && !Within(p, n, q)
    }

    ghost predicate WholePages(a: nat, n: nat, runs: seq<Run>)
      reads pages
    {
      exists p: nat :: Claimed(p, n, runs) && a == p * PAGE
    }

    /** Where the next block of a class comes from: the first zone of its list, or else the
        first parked one. */
    ghost function Source(zi: int): nat
      reads this`table, this`parked
    {
      if 0 <= zi < |table| && table[zi] != [] then table[zi][0] else if parked != [] then parked[0] else 0
    }

    /** The next chunk of that zone, and the first one of a zone that was parked. */
    ghost function NextChunk(zi: int): nat
      requires 0 <= zi < NZONES
      reads this`table, this`parked, this`zones
    {
      var z := Source(zi);
      z * PAGE + if zi < |table| && table[zi] != [] && z in zones then Offset(zones[z], Next(zones[z]))
                 else if ChunkSize(zi) > 0 then FirstOffset(ChunkSize(zi)) else 0
    }

    /** No zone has room for the request. */
    ghost predicate NoRoom(size: nat)
      reads this
    {
      parked == [] && forall z :: z in zones && z !in parked && zones[z].chunk == ZoneIndex(size).1 ==>
        zones[z].nfree == 0
    }

    /** Bytes in the block that answers a request. */
    function SizeFor(size: nat): nat
    {
      if size >= zoneLimit then PagesFor(size) * PAGE else ZoneIndex(size).1
    }

    /** No memory for a request of this size. */
    ghost predicate Starved(size: nat)
      requires Valid() && 0 < size
      reads this, pages
    {
      if size >= zoneLimit then PagesFor(size) == 0 || forall s: nat :: !SpanFree(pages.runs, s, PagesFor(size))
      else NoRoom(size) && forall s: nat :: !SpanFree(pages.runs, s, zonePages)
    }

    /** An empty list means that every zone of the class is used up. */
    lemma NoneLeft(zi: nat)
      requires Valid() && zi < NZONES && |table| == NZONES
      ensures table[zi] == [] <==>
        forall z :: z in zones && z !in parked && zones[z].chunk == ChunkSize(zi) ==> zones[z].nfree == 0
    {
      if table[zi] == [] {
        forall z | z in zones && z !in parked && zones[z].chunk == ChunkSize(zi)
          ensures zones[z].nfree == 0
        {
          ZoneOf(zones, spans, zonePages, z);
          SameClass(zones[z].zi, zi);
        }
      } else {
        HeadZone(State(), zonePages, zi);
      }
      hide ChunkSize, Homed;
    }

    lemma TableSize()
      requires Valid()
      ensures |table| == NZONES
    {
    }

    /** Live blocks never overlap. */
    lemma NoOverlap(a: nat, b: nat)
      requires Valid() && a in Blocks() && b in Blocks() && a < b
      ensures a + Blocks()[a] <= b
    {
      LiveBlocksApart(home, zones, parked, spans, usage, zonePages, a, b);
      hide Homed, ZonesFit, Listed;
    }

    /** Live blocks whose size is a power of two are aligned to it up to the size of a page, and
        above it exactly when their zone is. */
    lemma BlockAligned(a: nat)
      requires Valid() && a in Blocks() && PowerOfTwo(Blocks()[a])
      ensures Blocks()[a] <= PAGE ==> Multiple(a, Blocks()[a])
      ensures a in home && (home[a].Chunk? ==>
        (Multiple(a, Blocks()[a]) <==> Multiple(home[a].zone * PAGE, Blocks()[a])))
    {
      hide HeapFits, PowerOfTwo, Reserved, ZoneFits, ChunkSize, Offset;
      if home[a].Chunk? {
        GiveFacts(home[a].zone, a);
        AddressAligned(home[a].zone, zones[home[a].zone], zonePages * PAGE, home[a].index);
      } else {
        var p := LargeAt(a);
        if spans[p] > 1 { TimesLess(1, spans[p], PAGE); }
        assert Blocks()[a] <= PAGE ==> Blocks()[a] == PAGE && a == p * Blocks()[a];
      }
    }

    /** Every live block is 8-byte aligned. */
    lemma BlockEven(a: nat)
      requires Valid() && a in Blocks()
      ensures Multiple(a, 8)
    {
      hide HeapFits, Reserved, ZoneFits, ChunkSize, Offset, Multiple;
      if home[a].Chunk? {
        GiveFacts(home[a].zone, a);
        ChunkEven(home[a].zone, zones[home[a].zone], zonePages * PAGE, home[a].index);
      } else {
        var p := LargeAt(a);
        EightFold(a, p * 512);
      }
    }

    lemma LargeAt(a: nat) returns (p: nat)
      requires Valid() && a in home && home[a].Large?
      ensures home[a] == Large(p) && a == p * PAGE && p in spans && spans[p] > 0
    {
      p := home[a].first;
      ChunkIsLive(a, home[a], zones, parked, spans, usage);
      hide Homed, Listed;
    }

    lemma SpansApart()
      requires Fits()
      ensures Apart(spans)
    {
    }

    /** rt_free of a large block. */
    method FreeLarge(p: nat)
      requires Valid() && p * PAGE in home && home[p * PAGE] == Large(p)
      modifies this`usage, this`spans, this`home, pages
      ensures Valid() && Blocks() == old(Blocks()) - {p * PAGE}
      ensures old(Blocks())[p * PAGE] > 0
      ensures ReturnedPages(p, old(Blocks())[p * PAGE] / PAGE, old(pages.runs))
    {
      hide HeapFits, Reserved, Coalesced, IsFree, Apart;
      SpansApart();
      LargeFreeStep(State(), zonePages, p, LARGE(0));
      LargeGone(State(), zonePages, p);
      ghost var runs := pages.runs;
      ReservedPages(spans, runs, |usage|, p);
      var n := usage[p].pages;
      usage := usage[p := LARGE(0)];
      pages.Free(p, n);
      FreeReserved(spans, runs, pages.runs, |usage|, p);
      spans := spans - {p};
      home := home - {p * PAGE};
    }

    /** rt_free of a chunk up to the moment when its zone may have become free. */
    method GiveChunk(z: nat, a: nat)
      requires Valid() && a in home && home[a].Chunk? && home[a].zone == z && z in zones
      modifies this`table, this`zones, this`home
      ensures Valid() && Blocks() == old(Blocks()) - {a}
      ensures z in old(zones) && old(zones)[z].zi < |old(table)| && Distinct(old(table)[old(zones)[z].zi])
      ensures z in zones && z !in parked && zones[z].zi < |table| && zones[z].nfree > 0
      ensures zones == old(zones)[z := Give(old(zones)[z], old(home)[a].index)]
      ensures table == AfterGive(old(table), z, old(zones)[z])
    {
      hide HeapFits, Reserved, Give;
      ghost var i := home[a].index;
      GiveFacts(z, a);
      ZoneListed(z);
      GiveStep(State(), zonePages, z, i);
      GiveBlocks(home, zones, spans, z, i, a);
      var x := zones[z];
      IndexBack(x, i);
      var k := (a - z * PAGE - x.base) / x.chunk;
      GiveGrid(x, k);
      zones := zones[z := Give(x, k)];
      table := AfterGive(table, z, x);
      home := home - {a};
    }

    /** A zone without live chunks that is not the only one of its list is parked; when
        too many are, one goes back to the page allocator. */
    method Park(z: nat)
      requires Valid() && z in zones && z !in parked && zones[z].zi < |table| && zones[z].nfree == zones[z].nmax
      modifies this`table, this`parked, this`zones, this`usage, this`spans, pages
      ensures Valid() && Blocks() == old(Blocks())
      ensures |old(parked)| < RELEASE_THRESH ==>
        parked == [z] + old(parked) && zones == old(zones) && pages.runs == old(pages.runs)
      ensures |old(parked)| == RELEASE_THRESH ==>
        parked == old(parked) && zones == old(zones) - {z} && ReturnedPages(z, zonePages, old(pages.runs))
      ensures var zi := old(zones)[z].zi; table == old(table)[zi := Without(old(table)[zi], z)]
    {
      hide HeapFits, Reserved, Coalesced, IsFree, Apart, UsageBut;
      ParkStep(State(), zonePages, z);
      var zi := zones[z].zi;
      table := table[zi := Without(table[zi], z)];
      parked := [z] + parked;
      if |parked| > RELEASE_THRESH {
        ReleaseParked();
      }
    }

    /** The zone parked last goes back to the page allocator. */
    method ReleaseParked()
      requires Fits() && parked != []
      modifies this`parked, this`zones, this`usage, this`spans, pages
      ensures Fits() && Blocks() == old(Blocks())
      ensures parked == old(parked)[1..] && zones == old(zones) - {old(parked)[0]} &&
        ReturnedPages(old(parked)[0], zonePages, old(pages.runs))
    {
      hide HeapFits, Reserved, Coalesced, IsFree, Apart, UsageBut;
      SpansApart();
      ghost var h := State();
      ghost var runs := pages.runs;
      ParkedPages();
      var z: nat := parked[0];
      Untrace(z);
      ReleaseStep(h, zonePages, usage);
      ReleaseBlocks(h, zonePages);
      ReservedPages(spans, runs, |usage|, z);
      parked := parked[1..];
      zones := zones - {z};
      pages.Free(z, zonePages);
      FreeReserved(spans, runs, pages.runs, |usage|, z);
      spans := spans - {z};
    }

    ghost predicate ReturnedPages(z: nat, n: nat, runs: seq<Run>)
      reads pages
    {
      forall p: nat :: IsFree(pages.runs, p) <==> IsFree(runs, p) || Within(z, n, p)
    }

    lemma ParkedPages()
      requires Fits() && parked != []
      ensures parked[0] in spans && spans[parked[0]] == zonePages && parked[0] + zonePages <= |usage|
    {
      var z: nat := parked[0];
      assert z in parked;
      ZoneOf(zones, spans, zonePages, z);
      SpanBlocked(spans, pages.runs, |usage|, z, z + zonePages - 1);
      hide Homed, IsFree;
    }

    /** rt_free. */
    method Free(r: Pointer)
      requires Valid() && (r.At? ==> r.addr in home)
      modifies this, pages
      ensures Valid()
      ensures Blocks() == if r == Null then old(Blocks()) else old(Blocks()) - {r.addr}
      ensures r.At? && old(home)[r.addr].Chunk? ==> NotIdle(old(home)[r.addr].zone)
      ensures if r == Null then table == old(table) && parked == old(parked) && pages.runs == old(pages.runs)
              else Returned(r.addr)
      ensures (old(Accounted()) ==> Accounted()) && maxUsed == old(maxUsed)
    {
      hide HeapFits, Reserved, Coalesced, IsFree, NotIdle, Total, AtHead, Left;
      if r == Null { return; }
      UsageOf(r.addr);
      TotalDrops(Blocks(), r.addr);
      ghost var n := Blocks()[r.addr];
      Uncount(r.addr);
      Return(r.addr);
      DropsWrap(Total(old(Blocks())), n);
    }

    /** rt_free undoes rt_malloc: the live blocks and used_mem are as before, and for a large block
        the page allocator has the same runs. */
    method MallocThenFree(size: nat)
      requires Valid() && size < WORD && Accounted()
      modifies this, pages
      ensures Valid() && Blocks() == old(Blocks()) && used == old(used)
      ensures size >= zoneLimit ==> pages.runs == old(pages.runs)
    {
      hide HeapFits, Reserved, NotIdle, Snug, AtHead, Left, PowerOfTwo, IsFree, Coalesced, Total;
      ghost var runs := pages.runs;
      var r := Malloc(size);
      if r == Null { return; }
      ghost var taken := pages.runs;
      ghost var n := PagesFor(size);
      ghost var p: nat := r.addr / PAGE;
      if size >= zoneLimit {
        ghost var q := LargeAt(r.addr);
        assert Claimed(p, n, runs);
      }
      Free(r);
      assert Blocks() == old(Blocks());
      if size >= zoneLimit {
        FreeUndoesAlloc(runs, taken, pages.runs, p, n);
      }
    }

    lemma DropsWrap(total: int, n: int)
      ensures (total % WORD - n) % WORD == (total - n) % WORD
    {
    }

    /** The statistics of rt_free. */
    method Uncount(a: nat)
      requires Valid() && a in home
      modifies this`used
      ensures used == (old(used) - Blocks()[a]) % WORD
    {
      hide HeapFits, Reserved;
      UsageOf(a);
      var page := a / PAGE;
      match usage[page] {
        case LARGE(n) => used := (used - n * PAGE) % WORD;
        case SMALL(offset) => used := (used - zones[page - offset].chunk) % WORD;
      }
    }

    /** rt_free without its statistics. */
    method Return(a: nat)
      requires Valid() && a in home
      modifies this`table, this`parked, this`zones, this`usage, this`spans, this`home, pages
      ensures Valid() && Blocks() == old(Blocks()) - {a}
      ensures old(home)[a].Chunk? ==> NotIdle(old(home)[a].zone)
      ensures Returned(a)
    {
      hide HeapFits, Reserved, Coalesced, IsFree, Apart, ZoneFits, IsLive, AtHead, Left, AfterGive, Distinct;
      var page := a / PAGE;
      UsageOf(a);
      match usage[page] {
        case LARGE(_) =>
          FreeLarge(page);
        case SMALL(offset) =>
          var z := page - offset;
          GiveChunk(z, a);
          ghost var x := old(zones)[z];
          ZoneListed(z);
          GiveAtHead(old(table), z, x);
          GiveLeft(old(table), z, x);
          GiveOthers(old(table), z, x);
          if zones[z].nfree == zones[z].nmax && table[zones[z].zi] != [z] {
            Park(z);
          }
      }
    }

    /** The only live chunk of a zone that is not the only one of its list. */
    ghost predicate LastOne(z: nat)
      reads this`zones, this`table
    {
      z in zones && zones[z].nfree + 1 == zones[z].nmax && zones[z].zi < |table| &&
      exists y :: y in table[zones[z].zi] && y != z
    }

    /** What rt_free does with the pages and the zones: the pages of a large block become free;
        a zone that gives its last chunk back is parked, or its pages become free when two are
        parked; any other zone is the first of its list if it was full. */
    twostate predicate Returned(a: nat)
      requires a in old(home)
      reads this`zones, this`table, this`parked, pages
    {
      match old(home)[a]
      case Large(p) =>
        && ReturnedPages(p, old(Blocks())[a] / PAGE, old(pages.runs))
        && zones == old(zones) && table == old(table) && parked == old(parked)
      case Chunk(z, _) =>
        if !old(LastOne(z)) then
          AtHead(old(table), table, z) && parked == old(parked) && pages.runs == old(pages.runs)
        else
          && Left(old(table), table, z, old(zones)[z].zi)
          && if |old(parked)| < RELEASE_THRESH then parked == [z] + old(parked) && pages.runs == old(pages.runs)
             else parked == old(parked) && z !in zones && ReturnedPages(z, zonePages, old(pages.runs))
    }

    lemma ZoneListed(z: nat)
      requires Valid() && z in zones && z !in parked
      ensures zones[z].zi < |table| && Distinct(table[zones[z].zi]) && zones[z].nfree >= 0
      ensures zones[z].nfree > 0 ==> z in table[zones[z].zi]
    {
    }

    /** Zone z, if it has no live chunk, is parked, given back, or the only one of its
        list. */
    ghost predicate NotIdle(z: nat)
      reads this
    {
      z in zones && z !in parked && zones[z].nfree == zones[z].nmax ==>
        zones[z].zi < |table| && table[zones[z].zi] == [z]
    }

    /** memusage tells what a live address is. */
    lemma UsageOf(a: nat)
      requires Valid() && a in home
      ensures a / PAGE < |usage| && !usage[a / PAGE].FREE?
      ensures usage[a / PAGE].LARGE? ==> a == a / PAGE * PAGE && home[a] == Large(a / PAGE)
      ensures usage[a / PAGE].LARGE? ==> usage[a / PAGE].pages * PAGE == Blocks()[a]
      ensures usage[a / PAGE].SMALL? ==>
        home[a].Chunk? && home[a].zone in zones && zones[home[a].zone].chunk == Blocks()[a]
      ensures usage[a / PAGE].SMALL? ==>
        home[a].Chunk? && home[a].zone in zones && home[a].zone == a / PAGE - usage[a / PAGE].offset
    {
      if home[a].Chunk? {
        GiveFacts(home[a].zone, a);
      } else {
        ChunkIsLive(a, home[a], zones, parked, spans, usage);
      }
      hide Homed, Listed, IsLive, ZoneFits;
    }

    lemma GiveFacts(z: nat, a: nat)
      requires Valid() && a in home && home[a].Chunk? && home[a].zone == z
      ensures z in zones && z !in parked && IsLive(zones[z], home[a].index) &&
        a == z * PAGE + Offset(zones[z], home[a].index)
      ensures zones[z].chunk > 0 && ZoneFits(zones[z], zonePages * PAGE) && a / PAGE < |usage| &&
        usage[a / PAGE] == SMALL(a / PAGE - z)
    {
      hide StartsAt, ChunkSize;
      ChunkIsLive(a, home[a], zones, parked, spans, usage);
      ZoneOf(zones, spans, zonePages, z);
      ChunkPages(z, zones[z], zonePages, home[a].index);
      hide IsLive, Homed, Listed;
    }

    /** memusage of a new zone. */
    method Trace(z: nat)
      requires z + zonePages <= |usage|
      modifies this`usage
      ensures UsageBut(old(usage), usage, z, zonePages)
      ensures forall p: nat :: Within(z, zonePages, p) ==> p < |usage| && usage[p] == SMALL(p - z)
    {
      for off := 0 to zonePages
        invariant UsageBut(old(usage), usage, z, zonePages)
        invariant forall p: nat :: Within(z, off, p) ==> p < |usage| && usage[p] == SMALL(p - z)
      {
        usage := usage[z + off := SMALL(off)];
      }
    }

    /** memusage of a zone that goes back to the page allocator. */
    method Untrace(z: nat)
      requires z + zonePages <= |usage|
      modifies this`usage
      ensures UsageBut(old(usage), usage, z, zonePages)
    {
      for i := 0 to zonePages
        invariant UsageBut(old(usage), usage, z, zonePages)
      {
        usage := usage[z + i := FREE];
      }
    }
  }

  lemma NewZoneClass(zoneSize: nat, zi: nat, size: nat)
    requires size > 0 && FirstOffset(size) <= zoneSize
    ensures NewZone(zoneSize, zi, size).zi == zi && NewZone(zoneSize, zi, size).chunk == size
    ensures Offset(NewZone(zoneSize, zi, size), 0) == FirstOffset(size)
  {
    hide FirstOffset;
  }

  function FirstChunk(h: Heap, x: Zone): nat
    requires h.parked != []
  {
    h.parked[0] * PAGE + Offset(x, 0)
  }

  lemma OpenBlocks(h: Heap, zonePages: nat, x: Zone)
    requires HeapFits(h, zonePages) && h.parked != []
    requires FirstChunk(h, x) !in h.home
    ensures BlocksOf(h.home[FirstChunk(h, x) := Chunk(h.parked[0], 0)], h.zones[h.parked[0] := x], h.spans)
         == BlocksOf(h.home, h.zones, h.spans)[FirstChunk(h, x) := x.chunk]
  {
    hide IsLive, IsHome, Offset;
    forall b | b in h.home
      ensures BlockSize(h.home[b], h.zones[h.parked[0] := x], h.spans) == BlockSize(h.home[b], h.zones, h.spans)
    {
      assert h.parked[0] in h.parked;
      ChunkIsLive(b, h.home[b], h.zones, h.parked, h.spans, h.usage);
    }
  }

  lemma NewBlocks(h: Heap, zonePages: nat, z: nat, x: Zone)
    requires HeapFits(h, zonePages) && z !in h.spans && z * PAGE + Offset(x, 0) !in h.home
    ensures BlocksOf(h.home[z * PAGE + Offset(x, 0) := Chunk(z, 0)], h.zones[z := x], h.spans[z := zonePages])
         == BlocksOf(h.home, h.zones, h.spans)[z * PAGE + Offset(x, 0) := x.chunk]
  {
    hide IsLive, IsHome, Offset;
    assert z !in h.zones;
    forall b | b in h.home
      ensures BlockSize(h.home[b], h.zones[z := x], h.spans[z := zonePages]) == BlockSize(h.home[b], h.zones, h.spans)
    {
      ChunkIsLive(b, h.home[b], h.zones, h.parked, h.spans, h.usage);
    }
  }

  lemma LargeBlocks(h: Heap, zonePages: nat, p: nat, n: nat)
    requires HeapFits(h, zonePages) && p !in h.spans && p * PAGE !in h.home
    ensures BlocksOf(h.home[p * PAGE := Large(p)], h.zones, h.spans[p := n]) == BlocksOf(h.home, h.zones,
      h.spans)[p * PAGE := n * PAGE]
  {
    hide IsLive, IsHome, Offset;
    forall b | b in h.home
      ensures BlockSize(h.home[b], h.zones, h.spans[p := n]) == BlockSize(h.home[b], h.zones, h.spans)
    {
      ChunkIsLive(b, h.home[b], h.zones, h.parked, h.spans, h.usage);
    }
  }

  lemma EnoughPages(size: nat)
    requires size < WORD
    ensures PagesFor(size) > 0 ==> size <= PagesFor(size) * PAGE < size + PAGE
    ensures PagesFor(size) > 0 <==> 0 < size <= WORD - PAGE
  {
  }

  lemma ReservedPages(spans: Spans, runs: seq<Run>, total: nat, p: nat)
    requires Reserved(spans, runs, total) && p in spans
    ensures forall q: nat :: Within(p, spans[p], q) ==> !IsFree(runs, q)
    ensures Apart(spans) ==> spans[p] > 0
  {
  }

  lemma LargeGone(h: Heap, zonePages: nat, p: nat)
    requires HeapFits(h, zonePages) && p * PAGE in h.home && h.home[p * PAGE] == Large(p)
    ensures BlocksOf(h.home - {p * PAGE}, h.zones, h.spans - {p}) == BlocksOf(h.home, h.zones, h.spans) - {p * PAGE}
  {
    hide IsLive, IsHome, Offset;
    LargeLess(h.home, h.zones, h.parked, h.spans, h.usage, p);
    forall b | b in h.home && b != p * PAGE
      ensures BlockSize(h.home[b], h.zones, h.spans - {p}) == BlockSize(h.home[b], h.zones, h.spans)
    {
      assert b in h.home - {p * PAGE};
    }
  }

  lemma GiveGrid(x: Zone, i: nat)
    ensures SameGrid(x, Give(x, i)) && Give(x, i).zi == x.zi && Give(x, i).nfree == x.nfree + 1
  {
  }

  lemma GiveBlocks(home: map<nat, Home>, zones: Zones, spans: Spans, z: nat, i: nat, a: nat)
    requires z in zones
    ensures BlocksOf(home - {a}, zones[z := Give(zones[z], i)], spans) == BlocksOf(home, zones, spans) - {a}
  {
  }

  /** The division recovers the number of a chunk from its place in the zone. */
  lemma IndexBack(x: Zone, i: nat)
    requires x.chunk > 0
    ensures (Offset(x, i) - x.base) / x.chunk == i
  {
    var q := (i * x.chunk) / x.chunk;
    DivTimes(i * x.chunk, x.chunk);
    if q < i { TimesLess(q, i, x.chunk); } else if i < q { TimesLess(i, q, x.chunk); }
  }

  lemma ReleaseBlocks(h: Heap, zonePages: nat)
    requires HeapFits(h, zonePages) && h.parked != []
    ensures var z := h.parked[0]; BlocksOf(h.home, h.zones - {z}, h.spans - {z}) == BlocksOf(h.home, h.zones, h.spans)
  {
    hide IsLive, IsHome, Offset;
    var z := h.parked[0];
    assert z in h.parked && z in h.zones;
    forall b | b in h.home
      ensures BlockSize(h.home[b], h.zones - {z}, h.spans - {z}) == BlockSize(h.home[b], h.zones, h.spans)
    {
      ChunkIsLive(b, h.home[b], h.zones, h.parked, h.spans, h.usage);
    }
  }

  lemma TakeGrid(x: Zone)
    requires x.uindex + 1 == x.nmax ==> x.freed != []
    ensures SameGrid(x, Take(x).0) && Take(x).0.zi == x.zi
  {
  }

  /** A zone whose chunks keep their size leaves the sizes of other blocks alone. */
  lemma TakeBlocks(home: map<nat, Home>, zones: Zones, spans: Spans, z: nat, x: Zone, i: nat, a: nat)
    requires a !in home && z in zones && SameGrid(zones[z], x)
    ensures BlocksOf(home[a := Chunk(z, i)], zones[z := x], spans) == BlocksOf(home, zones, spans)[a := x.chunk]
  {
  }

  /** On a heap of 64 pages the first block for 8000 bytes has 8192, is the first of a zone at
      page 1, and is not aligned to its size. */
  method TwoPagesMisaligned() returns (h: Allocator, r: Pointer)
    ensures h.Valid() && r.At? && r.addr in h.Blocks() && h.Blocks()[r.addr] == 8192 && PowerOfTwo(8192) &&
      !Multiple(r.addr, 8192)
  {
    hide HeapFits, Reserved, Coalesced, IsFree, PowerOfTwo, FirstOffset;
    h := new Allocator(64);
    ghost var runs := h.pages.runs;
    assert PagesFor(64 * 4) == 1 && h.zonePages == 8;
    assert SpanFree(runs, 1, 8) && !IsFree(runs, 0);
    assert ZoneIndex(8000).1 == 8192;
    r := h.Malloc(8000);
    ghost var z: nat :| LowestSpan(runs, z, 8) && r.addr == z * PAGE + FirstOffset(8192);
    PageOneIsLowest(runs, z);
    FirstChunkMisaligned();
  }

  lemma PageOneIsLowest(runs: seq<Run>, z: nat)
    requires LowestSpan(runs, z, 8) && SpanFree(runs, 1, 8) && !IsFree(runs, 0)
    ensures z == 1
  {
    hide IsFree;
  }

  lemma FirstChunkMisaligned()
    ensures PowerOfTwo(8192) && !Multiple(PAGE + FirstOffset(8192), 8192)
  {
    TwoIsPower(13);
    assert Two(6) == 64 && Two(13) == 8192;
    var q := RoundUpIs(HEADER, 8192);
    hide FirstOffset, PowerOfTwo, RoundUp;
    assert Multiple(FirstOffset(8192), 8192);
    MultiplesAdd(PAGE, FirstOffset(8192), 8192);
  }
}
