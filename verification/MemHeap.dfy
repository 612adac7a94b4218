/** The memory-heap object: a ring of all blocks in address order that is closed
    by a zero-length used block at the end of the pool, and a second ring that
    strings the free blocks on the header kept in the heap object.

    Offsets are relative to start_addr. The block links and flag of an item are in
    `hdr`, its free links in `free`; both lie in the HEADER bytes of the item,
    which `data` marks as overwritten when the item is written. Magic and pool
    pointer are constant and not represented.
 */
module MemHeap {
  import opened Blocks
  import opened Lists
  import opened Ring
  import opened Words

  const HEADER: nat := 24
  const MINIALLOC: nat := 12
  const FREE_HEADER: int := -1
  const NULL: int := -2

  datatype Item = Item(used: bool, next: nat, prev: nat)

  function Need(size: nat): nat
    requires size < WORD
  {
    if AlignUp(size) < MINIALLOC then MINIALLOC else AlignUp(size)
  }

  function Payload(b: Block): int {
    b.size - HEADER
  }

  ghost predicate Layout(v: seq<Block>, tail: nat) {
    Tiles(v, 0, tail, HEADER)
  }

  // ----- the block ring agrees with the view -----

  ghost predicate Node(h: map<nat, Item>, v: seq<Block>, tail: nat, k: nat)
    requires k < |v|
  {
    v[k].addr in h && h[v[k].addr] == Item(v[k].used, v[k].End(), if k == 0 then tail else v[k - 1].addr)
  }

  ghost predicate BlockRing(h: map<nat, Item>, v: seq<Block>, tail: nat) {
    && |v| > 0
    && (forall k :: 0 <= k < |v| ==> Node(h, v, tail, k))
    && tail in h && h[tail] == Item(true, 0, v[|v| - 1].addr)
  }

  // ----- the free ring agrees with the view -----

  ghost function FreeSet(v: seq<Block>): set<int> {
    set b | b in v && !b.used :: b.addr
  }

  /** f lists each free block of v once, on the ring of the heap object. */
  ghost predicate FreeRing(m: Store, f: seq<int>, v: seq<Block>) {
    IsRing(m, FREE_HEADER, f) && Elements(f) == FreeSet(v)
  }

  // ----- header updates, as the code writes them -----

  ghost function CarveItems(h: map<nat, Item>, a: nat, n: nat): map<nat, Item>
    requires a in h && h[a].next in h
  {
    var next := h[a].next;
    var g := h[a + n := Item(false, next, a)];
    var g' := g[next := g[next].(prev := a + n)];
    g'[a := g'[a].(next := a + n)]
  }

  ghost function MergeItems(h: map<nat, Item>, a: nat): map<nat, Item>
    requires a in h && h[a].next in h && h[h[a].next].next in h
  {
    var after := h[h[a].next].next;
    var g := h[after := h[after].(prev := a)];
    g[a := g[a].(next := after)]
  }

  lemma ItemAt(h: map<nat, Item>, v: seq<Block>, tail: nat, i: nat)
    requires BlockRing(h, v, tail) && i < |v|
    ensures v[i].addr in h && h[v[i].addr].next == v[i].End()
  {
    assert Node(h, v, tail, i);
  }

  /** What the code reads through `next` and `prev` of block i. */
  lemma Around(h: map<nat, Item>, v: seq<Block>, tail: nat, i: nat)
    requires Layout(v, tail) && BlockRing(h, v, tail) && i < |v|
    ensures Node(h, v, tail, i) && v[i].addr + HEADER < v[i].End() <= tail
    ensures v[i].End() == (if i + 1 < |v| then v[i + 1].addr else tail) && v[i].End() in h
    ensures h[v[i].End()].used == !(i + 1 < |v| && !v[i + 1].used)
    ensures i + 1 < |v| ==> h[v[i].End()].next == v[i + 1].End() && v[i + 1].End() in h && v[i + 1].End() <= tail
    ensures h[v[i].addr].prev in h && h[h[v[i].addr].prev].used == !(i > 0 && !v[i - 1].used)
    ensures i > 0 ==> h[h[v[i].addr].prev].next == v[i].addr
  {
    OrderedAll(v, 0, tail, HEADER);
    assert Node(h, v, tail, i);
    if i + 1 < |v| { assert Node(h, v, tail, i + 1); }
    if i + 2 < |v| { assert Node(h, v, tail, i + 2); }
    if i > 0 { assert Node(h, v, tail, i - 1); }
  }

  lemma CarveNode(h: map<nat, Item>, v: seq<Block>, tail: nat, i: nat, n: nat, k: nat)
    requires Layout(v, tail) && BlockRing(h, v, tail) && i < |v| && HEADER < n && n + HEADER < v[i].size && k <= |v|
    requires Node(h, v, tail, i) && v[i].End() in h
    requires v[i].used
    ensures Node(CarveItems(h, v[i].addr, n), Carve(v, i, n), tail, k)
  {
    OrderedAll(v, 0, tail, HEADER);
    if k <= i {
      assert Node(h, v, tail, k);
    } else if k > i + 1 {
      assert Carve(v, i, n)[k] == v[k - 1];
      assert Node(h, v, tail, k - 1);
    }
  }

  lemma CarveRing(h: map<nat, Item>, v: seq<Block>, tail: nat, i: nat, n: nat)
    requires Layout(v, tail) && BlockRing(h, v, tail) && i < |v| && HEADER < n && n + HEADER < v[i].size && v[i].used
    ensures v[i].addr in h && h[v[i].addr].next in h
    ensures BlockRing(CarveItems(h, v[i].addr, n), Carve(v, i, n), tail)
  {
    Around(h, v, tail, i);
    forall k | 0 <= k < |v| + 1
      ensures Node(CarveItems(h, v[i].addr, n), Carve(v, i, n), tail, k)
    {
      CarveNode(h, v, tail, i, n, k);
    }
    Around(h, v, tail, |v| - 1);
  }

  lemma MergeNode(h: map<nat, Item>, v: seq<Block>, tail: nat, i: nat, k: nat)
    requires Layout(v, tail) && BlockRing(h, v, tail) && i + 1 < |v| && k + 1 < |v|
    requires Node(h, v, tail, i) && Node(h, v, tail, i + 1) && v[i + 1].End() in h
    ensures Node(MergeItems(h, v[i].addr), MergeNext(v, i), tail, k)
  {
    OrderedAll(v, 0, tail, HEADER);
    if k <= i {
      assert Node(h, v, tail, k);
    } else {
      assert MergeNext(v, i)[k] == v[k + 1];
      assert Node(h, v, tail, k + 1);
    }
  }

  lemma MergeRing(h: map<nat, Item>, v: seq<Block>, tail: nat, i: nat)
    requires Layout(v, tail) && BlockRing(h, v, tail) && i + 1 < |v|
    ensures v[i].addr in h && h[v[i].addr].next == v[i + 1].addr && v[i + 1].addr in h
    ensures h[v[i + 1].addr].next == v[i + 1].End() && v[i + 1].End() in h
    ensures BlockRing(MergeItems(h, v[i].addr), MergeNext(v, i), tail)
  {
    Around(h, v, tail, i);
    Around(h, v, tail, i + 1);
    forall k | 0 <= k < |v| - 1
      ensures Node(MergeItems(h, v[i].addr), MergeNext(v, i), tail, k)
    {
      MergeNode(h, v, tail, i, k);
    }
    Around(h, v, tail, |v| - 1);
  }

  lemma FlagRing(h: map<nat, Item>, v: seq<Block>, tail: nat, i: nat, used: bool)
    requires Layout(v, tail) && BlockRing(h, v, tail) && i < |v|
    ensures v[i].addr in h && v[i].addr != tail
    ensures BlockRing(h[v[i].addr := h[v[i].addr].(used := used)], v[i := v[i].(used := used)], tail)
  {
    OrderedAll(v, 0, tail, HEADER);
    assert Node(h, v, tail, i);
    var w := v[i := v[i].(used := used)];
    var g := h[v[i].addr := h[v[i].addr].(used := used)];
    forall k | 0 <= k < |w|
      ensures Node(g, w, tail, k)
    {
      assert Node(h, v, tail, k);
    }
  }

  // ----- free blocks under the view functions -----

  lemma FreeParts(x: seq<Block>, y: seq<Block>, z: seq<Block>)
    ensures FreeSet(x + y + z) == FreeSet(x) + FreeSet(y) + FreeSet(z)
  {
    forall a
      ensures a in FreeSet(x + y + z) <==> a in FreeSet(x) + FreeSet(y) + FreeSet(z)
    {
      if a in FreeSet(x + y + z) {
        var b :| b in x + y + z && !b.used && b.addr == a;
        assert b in x || b in y || b in z;
      }
      if a in FreeSet(x) { var b :| b in x && !b.used && b.addr == a; assert b in x + y + z; }
      if a in FreeSet(y) { var b :| b in y && !b.used && b.addr == a; assert b in x + y + z; }
      if a in FreeSet(z) { var b :| b in z && !b.used && b.addr == a; assert b in x + y + z; }
    }
  }

  lemma AddrElsewhere(v: seq<Block>, tail: nat, i: nat, j: nat, b: Block, c: Block)
    requires Layout(v, tail) && i <= j <= |v| && b in v[i..j] && (c in v[..i] || c in v[j..])
    ensures b.addr != c.addr
  {
    OrderedAll(v, 0, tail, HEADER);
    var k :| i <= k < j && v[k] == b;
    if c in v[..i] {
      var m :| 0 <= m < i && v[m] == c;
    } else {
      var m :| j <= m < |v| && v[m] == c;
    }
  }

  /** Replacing the window [i, j) replaces its free blocks. */
  lemma FreeWindow(v: seq<Block>, tail: nat, i: nat, j: nat, mid: seq<Block>)
    requires Layout(v, tail) && i <= j <= |v|
    ensures FreeSet(v[..i] + mid + v[j..]) == FreeSet(v) - FreeSet(v[i..j]) + FreeSet(mid)
  {
    var x, y, z := v[..i], v[i..j], v[j..];
    assert v == x + y + z;
    FreeParts(x, y, z);
    FreeParts(x, mid, z);
    forall a | a in FreeSet(y)
      ensures a !in FreeSet(x) && a !in FreeSet(z)
    {
      var b :| b in y && !b.used && b.addr == a;
      forall c | c in x || c in z
        ensures c.addr != a
      {
        AddrElsewhere(v, tail, i, j, b, c);
      }
    }
  }

  lemma FreeCarve(v: seq<Block>, tail: nat, i: nat, n: nat)
    requires Layout(v, tail) && i < |v| && n <= v[i].size
    ensures FreeSet(Carve(v, i, n)) == FreeSet(v) - {v[i].addr} + {v[i].addr + n}
  {
    var x, y := Block(v[i].addr, n, true), Block(v[i].addr + n, v[i].size - n, false);
    FreeWindow(v, tail, i, i + 1, [x, y]);
    assert v[i..i + 1] == [v[i]];
    assert y in [x, y];
    assert FreeSet([x, y]) == {y.addr};
    UsedNotFree(v, tail, i);
  }

  /** No free block starts where a used one does. */
  lemma UsedNotFree(v: seq<Block>, tail: nat, i: nat)
    requires Layout(v, tail) && i < |v|
    ensures v[i].addr in FreeSet(v) <==> !v[i].used
    ensures FreeSet([v[i]]) == if v[i].used then {} else {v[i].addr}
  {
    OrderedAll(v, 0, tail, HEADER);
  }

  lemma FreeFlag(v: seq<Block>, tail: nat, i: nat, used: bool)
    requires Layout(v, tail) && i < |v|
    ensures FreeSet(v[i := v[i].(used := used)]) == FreeSet(v) - {v[i].addr} + (if used then {} else {v[i].addr})
  {
    var b := v[i].(used := used);
    assert v[i := b] == v[..i] + [b] + v[i + 1..];
    FreeWindow(v, tail, i, i + 1, [b]);
    assert v[i..i + 1] == [v[i]];
    assert b in [b];
    UsedNotFree(v, tail, i);
  }

  /** A merge absorbs the right block: it is no longer a free block of its own. */
  lemma FreeMerge(v: seq<Block>, tail: nat, i: nat)
    requires Layout(v, tail) && i + 1 < |v|
    ensures FreeSet(MergeNext(v, i)) == FreeSet(v) - {v[i + 1].addr}
  {
    var b := Block(v[i].addr, v[i].size + v[i + 1].size, v[i].used);
    FreeWindow(v, tail, i, i + 2, [b]);
    assert v[i..i + 2] == [v[i]] + [v[i + 1]] + [];
    FreeParts([v[i]], [v[i + 1]], []);
    UsedNotFree(v, tail, i);
    UsedNotFree(v, tail, i + 1);
    assert b in [b];
    OrderedAll(v, 0, tail, HEADER);
  }

  lemma FreeIndex(v: seq<Block>, a: int) returns (i: nat)
    requires a in FreeSet(v)
    ensures i < |v| && v[i].addr == a && !v[i].used
  {
    var b :| b in v && !b.used && b.addr == a;
    i :| i < |v| && v[i] == b;
  }

  // ----- what rt_memheap_alloc does -----

  /** First fit in free-list order: position k of f is the first whose block has
      room for n bytes, and it is block i of v. */
  ghost predicate FirstListed(v: seq<Block>, f: seq<int>, i: nat, k: nat, n: nat) {
    && i < |v| && k < |f| && v[i].addr == f[k] && !v[i].used && Payload(v[i]) >= n
    && forall m, j :: 0 <= m < k && 0 <= j < |v| && v[j].addr == f[m] ==> Payload(v[j]) < n
  }

  ghost predicate NoFit(v: seq<Block>, n: nat) {
    forall j :: 0 <= j < |v| && !v[j].used ==> Payload(v[j]) < n
  }

  ghost predicate Splits(b: Block, n: nat) {
    Payload(b) >= n + HEADER + MINIALLOC
  }

  ghost function Allocated(v: seq<Block>, i: nat, n: nat): seq<Block>
    requires i < |v| && Payload(v[i]) >= n
  {
    if Splits(v[i], n) then Carve(v, i, n + HEADER) else Claim(v, i)
  }

  ghost function AllocatedList(v: seq<Block>, f: seq<int>, i: nat, k: nat, n: nat): seq<int>
    requires i < |v| && k < |f|
  {
    if Splits(v[i], n) then [v[i].addr + n + HEADER] + Removed(f, k) else Removed(f, k)
  }

  /** Block i answers a request for n bytes: cut to size if what remains holds an item and a
      minimal block, used as a whole otherwise. What is used, an item of a new block included,
      is available no more. */
  ghost predicate HandedOut(v: seq<Block>, w: seq<Block>, i: nat, n: nat, available0: int, available: int) {
    i < |v| &&
      if Payload(v[i]) >= n + HEADER + MINIALLOC then
        CutAt(v, w, i, n + HEADER) && available == available0 - n - HEADER
      else TakenAt(v, w, i) && available == available0 - Payload(v[i])
  }

  lemma AllocatedHandsOut(v: seq<Block>, i: nat, n: nat, available: int)
    requires i < |v| && Payload(v[i]) >= n
    ensures HandedOut(v, Allocated(v, i, n), i, n, available,
      available - if Splits(v[i], n) then n + HEADER else Payload(v[i]))
  {
    if Splits(v[i], n) {
      CarveCuts(v, i, n + HEADER);
    } else {
      ClaimTakes(v, i);
    }
  }

  lemma ListedBlock(h: map<nat, Item>, v: seq<Block>, f: seq<int>, k: nat, tail: nat) returns (i: nat)
    requires Layout(v, tail) && BlockRing(h, v, tail) && k < |f| && Elements(f) == FreeSet(v)
    ensures i < |v| && v[i].addr == f[k] && !v[i].used && Node(h, v, tail, i)
    ensures forall j :: 0 <= j < |v| && v[j].addr == f[k] ==> j == i
  {
    assert f[k] in Elements(f);
    i := FreeIndex(v, f[k]);
    OrderedAll(v, 0, tail, HEADER);
  }

  lemma AllTooSmall(v: seq<Block>, f: seq<int>, n: nat)
    requires Elements(f) == FreeSet(v)
    requires forall m, j :: 0 <= m < |f| && 0 <= j < |v| && v[j].addr == f[m] ==> Payload(v[j]) < n
    ensures NoFit(v, n)
  {
    forall j | 0 <= j < |v| && !v[j].used
      ensures Payload(v[j]) < n
    {
      assert v[j] in v && v[j].addr in FreeSet(v);
      var m :| 0 <= m < |f| && f[m] == v[j].addr;
    }
  }

  lemma AllocatedCoalesced(v: seq<Block>, i: nat, n: nat)
    requires Coalesced(v) && i < |v| && !v[i].used && Payload(v[i]) >= n
    ensures Coalesced(Allocated(v, i, n))
  {
    if Splits(v[i], n) { CarveCoalesced(v, i, n + HEADER); } else { ClaimCoalesced(v, i); }
  }

  lemma AllocatedBytes(v: seq<Block>, i: nat, n: nat)
    requires i < |v| && !v[i].used && Payload(v[i]) >= n
    ensures FreePayload(Allocated(v, i, n), HEADER)
         == FreePayload(v, HEADER) - (if Splits(v[i], n) then n + HEADER else Payload(v[i]))
  {
    if Splits(v[i], n) { CarveBytes(v, i, n + HEADER, HEADER); } else { FlagBytes(v, i, true, HEADER); }
  }

  lemma AllocatedLive(v: seq<Block>, i: nat, n: nat, tail: nat)
    requires Layout(v, tail) && i < |v| && !v[i].used && Payload(v[i]) >= n
    ensures Live(Allocated(v, i, n)) == Live(v) + {Allocated(v, i, n)[i]}
  {
    if Splits(v[i], n) { LiveCarve(v, 0, tail, HEADER, i, n + HEADER); } else { LiveClaim(v, i); }
  }

  lemma CarveOfClaim(v: seq<Block>, i: nat, n: nat)
    requires i < |v| && n <= v[i].size
    ensures Carve(Claim(v, i), i, n) == Carve(v, i, n)
  {
  }

  lemma FrontTaken(v: seq<Block>, i: nat, n: nat, tail: nat)
    requires Layout(v, tail) && i < |v| && !v[i].used && n <= v[i].size
    ensures FreeSet(Carve(v, i, n)) == FreeSet(v) - {v[i].addr} + {v[i].addr + n}
    ensures Live(v) <= Live(Carve(v, i, n))
  {
    FreeCarve(v, tail, i, n);
    LiveCarve(v, 0, tail, HEADER, i, n);
  }

  /** An offset inside a block starts no free block. */
  lemma FreshAddress(v: seq<Block>, i: nat, n: nat, tail: nat)
    requires Layout(v, tail) && i < |v| && 0 < n < v[i].size
    ensures v[i].addr + n !in FreeSet(v)
  {
    OrderedAll(v, 0, tail, HEADER);
  }

  // ----- what rt_memheap_free does -----

  lemma WithoutIsRemoved(f: seq<int>, a: int) returns (k: nat)
    requires Distinct(f) && a in f
    ensures k < |f| && f[k] == a && Without(f, a) == Removed(f, k)
  {
    k :| k < |f| && f[k] == a;
    WithoutAt(f, k);
  }

  /** A freed block goes to the front of the list unless it melts into a free left
      neighbour, which keeps its place; a free right neighbour leaves the list. */
  ghost function ReleasedList(v: seq<Block>, f: seq<int>, i: nat): seq<int>
    requires i < |v|
  {
    (if i > 0 && !v[i - 1].used then [] else [v[i].addr])
    + (if i + 1 < |v| && !v[i + 1].used then Without(f, v[i + 1].addr) else f)
  }

  lemma HeadDropped(f: seq<int>, k: nat, a: int)
    requires k < |f| && a !in f
    ensures Without([a] + Removed(f, k), a) == Removed(f, k)
  {
    assert a !in Removed(f, k);
    WithoutAbsent(Removed(f, k), a);
    assert ([a] + Removed(f, k))[1..] == Removed(f, k);
  }

  /** A used block between used neighbours goes to the front of the list; a free right
      neighbour at the front of it leaves. */
  lemma ReleasedAlone(w: seq<Block>, g: seq<int>, i: nat)
    requires i < |w| && (i > 0 ==> w[i - 1].used)
    ensures ReleasedList(w, g, i) == [w[i].addr] + if i + 1 < |w| && !w[i + 1].used then Without(g, w[i + 1].addr)
      else g
  {
  }

  lemma TakenAround(v: seq<Block>, i: nat, n: nat)
    requires Coalesced(v) && i < |v| && !v[i].used && Payload(v[i]) >= n
    ensures var w := Allocated(v, i, n);
      && i < |w| && w[i].addr == v[i].addr && (i > 0 ==> w[i - 1].used)
      && (Splits(v[i], n) ==> i + 1 < |w| && !w[i + 1].used && w[i + 1].addr == v[i].addr + n + HEADER)
      && (!Splits(v[i], n) && i + 1 < |w| ==> w[i + 1].used)
  {
  }

  /** A block allocated and freed at once is the first of the free list; the others keep
      their order. */
  lemma ListAfterFree(v: seq<Block>, f: seq<int>, i: nat, k: nat, n: nat)
    requires Coalesced(v) && i < |v| && !v[i].used && Payload(v[i]) >= n && k < |f| && f[k] == v[i].addr
    requires Splits(v[i], n) ==> v[i].addr + n + HEADER !in f
    ensures ReleasedList(Allocated(v, i, n), AllocatedList(v, f, i, k, n), i) == [f[k]] + Removed(f, k)
  {
    hide Coalesced, Allocated, Without, Removed, ReleasedList;
    TakenAround(v, i, n);
    if Splits(v[i], n) { HeadDropped(f, k, v[i].addr + n + HEADER); }
    ReleasedAlone(Allocated(v, i, n), AllocatedList(v, f, i, k, n), i);
  }

  /** No free block is listed inside the one that was found. */
  lemma NotListedInside(v: seq<Block>, f: seq<int>, i: nat, n: nat, tail: nat)
    requires Layout(v, tail) && i < |v| && Elements(f) == FreeSet(v) && Splits(v[i], n)
    ensures v[i].addr + n + HEADER !in f
  {
    FreshAddress(v, i, n + HEADER, tail);
    hide FreeSet;
    assert v[i].addr + n + HEADER !in Elements(f);
  }

  /** Merging left before right, as the code does, gives the same view. */
  ghost function Rejoined(a: seq<Block>, i: nat): seq<Block>
    requires i < |a|
  {
    PlugForward(PlugBackward(a, i), if i > 0 && !a[i - 1].used then i - 1 else i)
  }

  /** What becomes available: the payload, and the item of each free neighbour. */
  ghost function GivenBack(v: seq<Block>, i: nat): int
    requires i < |v|
  {
    Payload(v[i]) + (if FreeAt(v, i - 1) then HEADER else 0) + (if FreeAt(v, i + 1) then HEADER else 0)
  }

  lemma ReleaseFacts(v: seq<Block>, i: nat) returns (w: seq<Block>)
    requires Coalesced(v) && i < |v| && v[i].used
    ensures w == Release(v, i) == Rejoined(v[i := v[i].(used := false)], i) && Coalesced(w)
    ensures FreePayload(w, HEADER) == FreePayload(v, HEADER) + Payload(v[i])
              + (if i + 1 < |v| && !v[i + 1].used then HEADER else 0)
              + (if i > 0 && !v[i - 1].used then HEADER else 0)
  {
    w := Release(v, i);
    ReleaseCoalesced(v, i);
    ReleaseBytes(v, i, HEADER);
    ReleaseIsRejoined(v, i);
  }

  lemma LeftJoined(a: seq<Block>, i: nat)
    requires i < |a|
    ensures var b, j := PlugBackward(a, i), if i > 0 && !a[i - 1].used then i - 1 else i;
      j < |b| && (j + 1 < |b| <==> i + 1 < |a|) && (i + 1 < |a| ==> b[j + 1] == a[i + 1])
  {
  }

  lemma ReleaseIsRejoined(v: seq<Block>, i: nat)
    requires i < |v|
    ensures Rejoined(v[i := v[i].(used := false)], i) == Release(v, i)
  {
    var a := v[i := v[i].(used := false)];
    if i > 0 && !v[i - 1].used && i + 1 < |v| && !v[i + 1].used {
      var b := MergeNext(a, i - 1);
      assert b[i] == a[i + 1];
      var c := MergeNext(a, i);
      assert c[i - 1] == a[i - 1];
      assert MergeNext(b, i - 1) == MergeNext(c, i - 1);
    } else if i > 0 && !v[i - 1].used {
      var b := MergeNext(a, i - 1);
      assert i < |b| ==> b[i] == a[i + 1];
    }
  }

  // ----- what rt_memheap_realloc does -----

  lemma GrowIsMergeThenCarve(v: seq<Block>, i: nat, n: nat)
    requires i + 1 < |v| && n <= v[i].size + v[i + 1].size
    ensures Carve(MergeNext(v, i), i, n) == Grow(v, i, n)
  {
  }

  /** Of what is cut off an item is not available, unless it melts with the right neighbour's. */
  lemma ShrinkGives(v: seq<Block>, i: nat, n: nat, tail: nat)
    requires Layout(v, tail) && i < |v| && n + HEADER <= v[i].size
    ensures i + 1 < |Shrink(v, i, n + HEADER)|
    ensures Payload(Shrink(v, i, n + HEADER)[i + 1]) - (if FreeAt(v, i + 1) then Payload(v[i + 1]) else 0)
      == Payload(v[i]) - n - (if FreeAt(v, i + 1) then 0 else HEADER)
  {
  }

  ghost function ShrunkList(v: seq<Block>, f: seq<int>, i: nat, n: nat): seq<int>
    requires i < |v|
  {
    [v[i].addr + n] + (if i + 1 < |v| && !v[i + 1].used then Without(f, v[i + 1].addr) else f)
  }

  lemma ShrinkFacts(v: seq<Block>, i: nat, n: nat, tail: nat) returns (w: seq<Block>)
    requires Layout(v, tail) && Coalesced(v) && i < |v| && v[i].used && HEADER < n && n + HEADER < v[i].size
    ensures w == Shrink(v, i, n) && Coalesced(w) && i + 1 < |w|
    ensures FreePayload(w, HEADER) == FreePayload(v, HEADER) + Payload(w[i + 1])
              - (if i + 1 < |v| && !v[i + 1].used then Payload(v[i + 1]) else 0)
  {
    w := Shrink(v, i, n);
    ShrinkCoalesced(v, i, n);
    ShrinkBytes(v, i, n, HEADER);
  }

  /** The bytes of every block that was live survive a growth of block i. */
  lemma IntactWider(d: Memory, e: Memory, f: Memory, v: seq<Block>, w: seq<Block>, i: nat, n: nat, tail: nat)
    requires Layout(v, tail) && i + 1 < |v| && v[i].used && !v[i + 1].used
    requires v[i].size <= n <= v[i].size + v[i + 1].size && w == Grow(v, i, n)
    requires Intact(d, e, Live(v), HEADER) && Intact(e, f, Live(w), HEADER) && |d| == tail + HEADER
    ensures Intact(d, f, Live(v), HEADER)
  {
    OrderedAll(v, 0, tail, HEADER);
    LiveGrow(v, 0, tail, HEADER, i, n);
    forall b | b in Live(v)
      ensures SamePayload(d, f, b, HEADER)
    {
      assert SamePayload(d, e, b, HEADER);
      assert b == v[i] || b in Live(w);
      if b == v[i] {
        assert SamePayload(e, f, Block(b.addr, n, true), HEADER);
      }
    }
  }

  /** Where block i sits after block j was allocated. */
  ghost function Shifted(v: seq<Block>, j: nat, n: nat, i: nat): nat
    requires j < |v|
  {
    if j < i && Splits(v[j], n) then i + 1 else i
  }

  lemma ShiftedBlock(v: seq<Block>, i: nat, j: nat, n: nat, tail: nat)
    requires Layout(v, tail) && i < |v| && j < |v| && v[i].used && !v[j].used && Payload(v[j]) >= n
    ensures var w := Allocated(v, j, n);
      Shifted(v, j, n, i) < |w| && w[Shifted(v, j, n, i)] == v[i]
  {
  }

  /** The block just allocated is none of the blocks that were live. */
  lemma TakenIsNew(v: seq<Block>, j: nat, n: nat, tail: nat)
    requires Layout(v, tail) && j < |v| && !v[j].used && Payload(v[j]) >= n
    ensures Allocated(v, j, n)[j] !in Live(v) && Payload(Allocated(v, j, n)[j]) >= n
  {
    var c := Allocated(v, j, n)[j];
    if c in Live(v) {
      Apart(v, 0, tail, HEADER, c, v[j]);
    }
  }

  /** Block i was moved to offset off: the first listed fit for n bytes was taken,
      the old block freed, the old payload copied, and every other live block
      kept with its bytes. */
  ghost predicate Moved(v: seq<Block>, f: seq<int>, d: Memory, w: seq<Block>, g: seq<int>, e: Memory,
                        i: nat, j: nat, k: nat, n: nat, off: nat)
  {
    && i < |v| && v[i].size >= HEADER && FirstListed(v, f, j, k, n) && off == v[j].addr + HEADER
    && var x, m := Allocated(v, j, n), Shifted(v, j, n, i);
    && m < |x|
    && w == Release(x, m) && g == ReleasedList(x, AllocatedList(v, f, j, k, n), m)
    && Live(w) == Live(v) - {v[i]} + {x[j]}
    && Carried(d, e, v[i].addr + HEADER, off, if v[i].size - HEADER < n then v[i].size - HEADER else n)
    && Intact(d, e, Live(v) - {v[i]}, HEADER)
  }

  /** What rt_memheap_realloc to n bytes does with live block i. */
  ghost predicate Resized(v: seq<Block>, f: seq<int>, d: Memory, available: int, w: seq<Block>, g: seq<int>, e: Memory,
                          i: nat, j: nat, k: nat, n: nat, ptr: Ptr, p: Ptr)
  {
    && i < |v| && v[i].size >= HEADER
    && if n > Payload(v[i]) then
         if i + 1 < |v| && !v[i + 1].used && Payload(v[i + 1]) + Payload(v[i]) > n + MINIALLOC then
           // grown in place: all live bytes stay where they are
           && p == ptr && n + HEADER <= v[i].size + v[i + 1].size && w == Grow(v, i, n + HEADER)
           && g == [v[i].addr + HEADER + n] + Without(f, v[i + 1].addr)
           && Intact(d, e, Live(v), HEADER)
         else if n >= available || NoFit(v, n) then
           // refused: the old block stays live
           p.Null? && w == v && g == f && e == d
         else
           p.Addr? && Moved(v, f, d, w, g, e, i, j, k, n, p.off)
       else if n + HEADER + MINIALLOC >= Payload(v[i]) then
         p == ptr && w == v && g == f && e == d
       else
         // cut: what is live afterwards keeps its bytes
         p == ptr && w == Shrink(v, i, n + HEADER) && g == ShrunkList(v, f, i, n + HEADER) &&
           Intact(d, e, Live(w), HEADER)
  }

  /** One free block in front of the closing item. */
  lemma FreshPool(tail: nat, h: map<nat, Item>, m: Store, v: seq<Block>, f: seq<int>)
    requires tail > HEADER && h == map[0 := Item(false, tail, tail), tail := Item(true, 0, 0)]
    requires m == map[FREE_HEADER := Links(0, 0), 0 := Links(FREE_HEADER, FREE_HEADER)]
    requires v == [Block(0, tail, false)] && f == [0]
    ensures Layout(v, tail) && BlockRing(h, v, tail) && FreeRing(m, f, v) && Coalesced(v) &&
      FreePayload(v, HEADER) == tail - HEADER
  {
    assert Node(h, v, tail, 0);
    assert Edge(m, FREE_HEADER, f, -1) && Edge(m, FREE_HEADER, f, 0);
    assert v[0] in v;
    assert FreeSet(v) == {0} == Elements(f);
  }

  /** An offset inside the header of used block i starts no block after a merge. */
  lemma NotAStart(w: seq<Block>, i: nat, a: nat, tail: nat)
    requires Layout(w, tail) && i < |w| && w[i].addr < a < w[i].addr + HEADER
    ensures a !in FreeSet(w)
  {
    FreshAddress(w, i, a - w[i].addr, tail);
  }

  // ----- the heap object -----

  datatype Ptr = Null | Addr(off: nat)

  class Heap {
    var hdr: map<nat, Item>
    var free: Store
    var poolSize: nat
    var available: int
    var maxUsed: int
    var data: Memory
    ghost var view: seq<Block>
    ghost var frees: seq<int>

    ghost function Tail(): int
      reads this
    {
      poolSize - HEADER
    }

    /** Both rings agree with the view. */
    ghost predicate Woven()
      reads this
    {
      && 2 * HEADER < poolSize < WORD && |data| == poolSize
      && Layout(view, Tail()) && BlockRing(hdr, view, Tail()) && FreeRing(free, frees, view)
    }

    ghost predicate Valid()
      reads this
    {
      && Woven() && Coalesced(view)
      && available == FreePayload(view, HEADER)
      && poolSize - available <= maxUsed
    }

    /** rt_memheap_init. The source does not check that the pool has room for two items and
        a byte: in a smaller one available_size wraps around, and the heap is not valid. */
    constructor (size: nat)
      requires size < WORD
      ensures Valid() <==> 2 * HEADER < AlignDown(size)
      ensures poolSize == AlignDown(size) && available == (poolSize - 2 * HEADER) % WORD && maxUsed == 2 * HEADER
      ensures Valid() ==> view == [Block(0, poolSize - HEADER, false)] && frees == [0]
      ensures AlignDown(size) < 2 * HEADER ==> available >= poolSize
    {
      var pool := AlignDown(size);
      poolSize := pool;
      available := (pool - 2 * HEADER) % WORD;
      maxUsed := 2 * HEADER;
      data := seq(pool, _ => 0);
      var tail: nat := (pool - HEADER) % WORD;
      hdr := map[0 := Item(false, tail, tail), tail := Item(true, 0, 0)];
      free := map[FREE_HEADER := Links(0, 0), 0 := Links(FREE_HEADER, FREE_HEADER)];
      view := [Block(0, tail, false)];
      frees := [0];
      new;
      hide Layout, BlockRing, FreeRing, FreePayload, Coalesced;
      if 2 * HEADER < pool { FreshPool(pool - HEADER, hdr, free, view, frees); }
    }

    /** Write the item at a, the start of a block of w or the closing item. */
    method SetItem(a: nat, it: Item, ghost w: seq<Block>)
      requires 2 * HEADER < poolSize == |data| && Layout(w, Tail())
      requires a == Tail() || exists k :: 0 <= k < |w| && w[k].addr == a
      modifies this`hdr, this`data
      ensures hdr == old(hdr)[a := it] && |data| == poolSize
      ensures a + HEADER <= |old(data)| && data == Scribble(old(data), a, HEADER)
      ensures Intact(old(data), data, Live(w), HEADER)
    {
      ghost var k := 0;
      if a != Tail() {
        k :| 0 <= k < |w| && w[k].addr == a;
      }
      OrderedAll(w, 0, Tail(), HEADER);
      ScribbleIntact(data, w, 0, Tail(), HEADER, k, a);
      hdr := hdr[a := it];
      data := Scribble(data, a, HEADER);
    }

    /** Insert item a at the head of the free list. */
    method FreeInsert(a: nat)
      requires IsRing(free, FREE_HEADER, frees) && a !in frees
      modifies this`free, this`frees
      ensures IsRing(free, FREE_HEADER, frees) && frees == [a] + old(frees)
      ensures Elements(frees) == Elements(old(frees)) + {a}
    {
      ghost var m := free;
      EdgeAt(free, FREE_HEADER, frees, -1);
      LinkAfterRing(free, FREE_HEADER, frees, -1, a);
      free := free[a := Links(free[FREE_HEADER].next, FREE_HEADER)];
      free := free[free[FREE_HEADER].next := free[free[FREE_HEADER].next].(prev := a)];
      free := free[FREE_HEADER := free[FREE_HEADER].(next := a)];
      assert free == LinkAfter(m, FREE_HEADER, a);
      assert Inserted(frees, -1, a) == [a] + frees;
      frees := [a] + frees;
    }

    /** Unlink the item at position k from the free list. */
    method FreeRemove(a: nat, ghost k: nat)
      requires IsRing(free, FREE_HEADER, frees) && k < |frees| && frees[k] == a
      modifies this`free, this`frees
      ensures IsRing(free, FREE_HEADER, frees) && frees == Removed(old(frees), k)
      ensures a !in frees && Elements(frees) == Elements(old(frees)) - {a}
    {
      EdgeAt(free, FREE_HEADER, frees, k);
      UnlinkRing(free, FREE_HEADER, frees, k);
      RemovedElements(frees, k);
      free := free[free[a].next := free[free[a].next].(prev := free[a].prev)];
      free := free[free[a].prev := free[free[a].prev].(next := free[a].next)];
      frees := Removed(frees, k);
    }

    /** Insert a new free block after block i: the relinking that every split does. */
    method SplitAfter(a: nat, n: nat, ghost i: nat)
      requires 2 * HEADER < poolSize == |data| && Layout(view, Tail()) && BlockRing(hdr, view, Tail())
      requires i < |view| && view[i].used && view[i].addr == a && HEADER < n && n + HEADER < view[i].size
      modifies this`hdr, this`data, this`view
      ensures Layout(view, Tail()) && BlockRing(hdr, view, Tail()) && |data| == poolSize
      ensures view == Carve(old(view), i, n) && Intact(old(data), data, Live(view), HEADER)
    {
      ghost var h, v, w, tail := hdr, view, Carve(view, i, n), Tail();
      Around(h, v, tail, i);
      CarveRing(h, v, tail, i, n);
      CarveTiles(v, 0, tail, HEADER, i, n);
      assert w[i].addr == a && w[i + 1].addr == a + n && (i + 2 < |w| ==> w[i + 2] == v[i + 1]);
      var next := hdr[a].next;
      SetItem(a + n, Item(false, next, a), w);
      SetItem(next, hdr[next].(prev := a + n), w);
      SetItem(a, hdr[a].(next := a + n), w);
      assert hdr == CarveItems(h, a, n);
      view := w;
    }

    /** Take the right neighbour of block i out of the block ring. */
    method Absorb(a: nat, ghost i: nat)
      requires 2 * HEADER < poolSize == |data| && Layout(view, Tail()) && BlockRing(hdr, view, Tail())
      requires i + 1 < |view| && view[i].addr == a && !view[i + 1].used
      modifies this`hdr, this`data, this`view
      ensures Layout(view, Tail()) && BlockRing(hdr, view, Tail()) && |data| == poolSize
      ensures view == MergeNext(old(view), i) && Intact(old(data), data, old(Live(view)), HEADER)
    {
      ghost var h, v, tail := hdr, view, Tail();
      Around(h, v, tail, i);
      Around(h, v, tail, i + 1);
      MergeRing(h, v, tail, i);
      MergeTiles(v, 0, tail, HEADER, i);
      var next := hdr[hdr[a].next].next;
      SetItem(next, hdr[next].(prev := a), v);
      SetItem(a, hdr[a].(next := next), v);
      assert hdr == MergeItems(h, a);
      view := MergeNext(v, i);
    }

    /** The search loop of rt_memheap_alloc along the free list. */
    method Search(size: nat) returns (found: bool, header: int, ghost i: nat, ghost k: nat)
      requires Woven() && size > 0
      ensures found ==> FirstListed(view, frees, i, k, size) && header == view[i].addr
      ensures !found ==> NoFit(view, size)
    {
      ghost var v, f, tail := view, frees, Tail();
      k, i := 0, 0;
      EdgeAt(free, FREE_HEADER, f, -1);
      var freeSize := 0;
      header := free[FREE_HEADER].next;
      while header != FREE_HEADER && freeSize < size
        invariant k <= |f| && header == At(FREE_HEADER, f, k) && header in free
        invariant forall m, j :: 0 <= m < k && 0 <= j < |v| && v[j].addr == f[m] ==> Payload(v[j]) < size
        invariant freeSize >= size ==> FirstListed(v, f, i, k, size) && header == v[i].addr
        decreases |f| - k, freeSize < size
      {
        i := ListedBlock(hdr, v, f, k, tail);
        EdgeAt(free, FREE_HEADER, f, k);
        freeSize := hdr[header].next - header - HEADER;
        if freeSize < size {
          header := free[header].next;
          k := k + 1;
        }
      }
      found := freeSize >= size;
      if !found { AllTooSmall(v, f, size); }
    }

    /** rt_memheap_alloc once a block is found. */
    method Occupy(header: nat, size: nat, ghost i: nat, ghost k: nat)
      requires Valid() && FirstListed(view, frees, i, k, size) && header == view[i].addr && size >= MINIALLOC
      modifies this
      ensures Valid() && poolSize == old(poolSize)
      ensures view == Allocated(old(view), i, size) && frees == AllocatedList(old(view), old(frees), i, k, size)
      ensures HandedOut(old(view), view, i, size, old(available), available)
      ensures maxUsed == if poolSize - available > old(maxUsed) then poolSize - available else old(maxUsed)
      ensures Intact(old(data), data, old(Live(view)), HEADER)
    {
      hide CutAt, TakenAt, Intact, Live, FreeRing, FreePayload, UsedBytes, Coalesced, Tiles, BlockRing;
      Around(hdr, view, Tail(), i);
      AllocatedCoalesced(view, i, size);
      AllocatedBytes(view, i, size);
      AllocatedHandsOut(view, i, size, available);
      var freeSize := hdr[header].next - header - HEADER;
      if freeSize >= size + HEADER + MINIALLOC {
        TakeFront(header, size, i, k);
        available := available - size - HEADER;
      } else {
        TakeOff(header, i, k);
        available := available - freeSize;
      }
      if poolSize - available > maxUsed { maxUsed := poolSize - available; }
    }

    /** The splitting branch of rt_memheap_alloc. */
    method TakeFront(header: nat, size: nat, ghost i: nat, ghost k: nat)
      requires Woven() && i < |view| && k < |frees| && view[i].addr == frees[k] == header && !view[i].used
      requires Splits(view[i], size) && size > 0
      modifies this`hdr, this`data, this`free, this`frees, this`view
      ensures Woven() && view == Carve(old(view), i, size + HEADER)
      ensures frees == [header + size + HEADER] + Removed(old(frees), k)
      ensures Intact(old(data), data, old(Live(view)), HEADER)
    {
      hide Intact, Live, BlockRing, Carve, Tiles;
      ghost var v, n := view, size + HEADER;
      ghost var d := data;
      FreshAddress(v, i, n, Tail());
      TakeOff(header, i, k);
      assert header + n !in Elements(frees);
      ghost var e := data;
      SplitAfter(header, size + HEADER, i);
      FreeInsert(header + size + HEADER);
      CarveOfClaim(v, i, n);
      FrontTaken(v, i, n, Tail());
      IntactThrough(d, e, data, Live(v), Live(view), HEADER);
    }

    /** Unlink block i from the free list, clear its free links, mark it used. */
    method TakeOff(header: nat, ghost i: nat, ghost k: nat)
      requires Woven() && i < |view| && k < |frees| && view[i].addr == frees[k] == header && !view[i].used
      modifies this`hdr, this`data, this`free, this`frees, this`view
      ensures Woven() && Elements(frees) == Elements(old(frees)) - {header}
      ensures view == Claim(old(view), i) && frees == Removed(old(frees), k)
      ensures header in free && free[header] == Links(NULL, NULL)
      ensures Intact(old(data), data, old(Live(view)), HEADER)
    {
      FreeRemove(header, k);
      ghost var m := free;
      free := free[header := Links(NULL, NULL)];
      RingFrame(m, free, FREE_HEADER, frees);
      FreeFlag(view, Tail(), i, true);
      FlagRing(hdr, view, Tail(), i, true);
      ClaimTiles(view, 0, Tail(), HEADER, i);
      SetItem(header, hdr[header].(used := true), view);
      view := Claim(view, i);
    }

    /** rt_memheap_alloc. */
    method Alloc(size: nat) returns (p: Ptr, ghost i: nat, ghost k: nat)
      requires Valid() && size < WORD
      modifies this
      ensures Valid() && poolSize == old(poolSize)
      ensures p.Null? <==> Need(size) >= old(available) || NoFit(old(view), Need(size))
      ensures p.Null? ==> unchanged(this)
      ensures p.Addr? ==> FirstListed(old(view), old(frees), i, k, Need(size)) && p.off == old(view)[i].addr + HEADER
      ensures p.Addr? ==> view == Allocated(old(view), i, Need(size))
      ensures p.Addr? ==> HandedOut(old(view), view, i, Need(size), old(available), available)
      ensures p.Addr? ==> frees == AllocatedList(old(view), old(frees), i, k, Need(size))
      ensures maxUsed == if poolSize - available > old(maxUsed) then poolSize - available else old(maxUsed)
      ensures Intact(old(data), data, old(Live(view)), HEADER)
    {
      hide Allocated, AllocatedList, CutAt, TakenAt;
      i, k := 0, 0;
      var n := AlignUp(size);
      n := if n < MINIALLOC then MINIALLOC else n;
      if n < available {
        var found, header;
        found, header, i, k := Search(n);
        if found {
          Occupy(header, n, i, k);
          return Addr(header + HEADER), i, k;
        }
      }
      p := Null;
    }

    /** The caller's pointer is NULL or the payload of live block i. */
    ghost predicate Owns(p: Ptr, i: nat)
      reads this
    {
      p.Addr? ==> i < |view| && view[i].used && p.off == view[i].addr + HEADER
    }

    /** rt_memheap_free. */
    method Free(ptr: Ptr, ghost i: nat)
      requires Valid() && Owns(ptr, i)
      modifies this
      ensures Valid() && poolSize == old(poolSize) && maxUsed == old(maxUsed)
      ensures ptr.Null? ==> unchanged(this)
      ensures ptr.Addr? ==> view == Release(old(view), i) && frees == ReleasedList(old(view), old(frees), i)
      ensures ptr.Addr? ==> Live(view) == old(Live(view)) - {old(view)[i]}
      ensures ptr.Addr? ==> FreedAt(old(view), view, i) && available == old(available) + GivenBack(old(view), i)
      ensures Intact(old(data), data, Live(view), HEADER)
    {
      if ptr.Null? { return; }
      FreeBlock(ptr.off - HEADER, i);
    }

    /** rt_memheap_free past its NULL check. */
    method FreeBlock(h: nat, ghost i: nat)
      requires Valid() && i < |view| && view[i].used && h == view[i].addr
      modifies this
      ensures Valid() && poolSize == old(poolSize) && maxUsed == old(maxUsed)
      ensures view == Release(old(view), i) && frees == ReleasedList(old(view), old(frees), i)
      ensures FreedAt(old(view), view, i) && available == old(available) + GivenBack(old(view), i)
      ensures Live(view) == old(Live(view)) - {old(view)[i]}
      ensures Intact(old(data), data, Live(view), HEADER)
    {
      hide Intact, Live, Tiles, Coalesced, FreePayload, BlockRing, FreeRing, FreedAt, Release;
      ReleaseFrees(view, i, 0, Tail(), HEADER);
      ghost var v, f, d := view, frees, data;
      ghost var w := ReleaseFacts(v, i);
      Around(hdr, v, Tail(), i);
      available := available + (hdr[h].next - h - HEADER);
      ClearFlag(h, i);
      ghost var e := data;
      assert ReleasedList(view, f, i) == ReleasedList(v, f, i);
      Rejoin(h, i);
      IntactThrough(d, e, data, Live(view), Live(view), HEADER);
    }

    /** The merges and the list insertion of rt_memheap_free. */
    method Rejoin(h: nat, ghost i: nat)
      requires Limbo(i) && h == view[i].addr
      modifies this`hdr, this`data, this`view, this`free, this`frees, this`available
      ensures Woven() && view == Rejoined(old(view), i)
      ensures frees == ReleasedList(old(view), old(frees), i)
      ensures available == old(available) + (if i > 0 && !old(view)[i - 1].used then HEADER else 0)
                         + (if i + 1 < |old(view)| && !old(view)[i + 1].used then HEADER else 0)
      ensures Live(view) == old(Live(view)) && Intact(old(data), data, Live(view), HEADER)
    {
      hide Intact, Live, Tiles, BlockRing;
      ghost var a, d, s := view, data, Live(view);
      var header, insert, merged := JoinLeft(h, i);
      ghost var e := data;
      if merged { available := available + HEADER; }
      ghost var j := if merged then i - 1 else i;
      LeftJoined(a, i);
      FinishRight(header, insert, j);
      IntactThrough(d, e, data, s, s, HEADER);
    }

    /** The right merge, then the list insertion when there was no left merge. */
    method FinishRight(header: nat, insert: bool, ghost j: nat)
      requires if insert then Limbo(j) else Woven() && j < |view| && !view[j].used
      requires header == view[j].addr
      modifies this`hdr, this`data, this`view, this`free, this`frees, this`available
      ensures Woven() && view == PlugForward(old(view), j)
      ensures var right := j + 1 < |old(view)| && !old(view)[j + 1].used;
        && frees == (if insert then [header] else [])
                  + (if right then Without(old(frees), old(view)[j + 1].addr) else old(frees))
        && available == old(available) + (if right then HEADER else 0)
      ensures Live(view) == old(Live(view)) && Intact(old(data), data, Live(view), HEADER)
    {
      hide Intact, Live, Tiles, BlockRing, FreeRing, Without;
      var merged := JoinRight(header, insert, j);
      if merged { available := available + HEADER; }
      if insert { InsertLoose(header, j); }
    }

    /** The block freed and not merged to the left enters the free list. */
    method InsertLoose(header: nat, ghost i: nat)
      requires Limbo(i) && header == view[i].addr
      modifies this`free, this`frees
      ensures Woven() && frees == [header] + old(frees)
    {
      UsedNotFree(view, Tail(), i);
      FreeInsert(header);
    }

    /** Block i has just been marked free and is not in the free list yet. */
    ghost predicate Limbo(i: nat)
      reads this
    {
      && 2 * HEADER < poolSize < WORD && |data| == poolSize
      && Layout(view, Tail()) && BlockRing(hdr, view, Tail()) && IsRing(free, FREE_HEADER, frees)
      && i < |view| && !view[i].used && Elements(frees) == FreeSet(view) - {view[i].addr}
    }

    method ClearFlag(h: nat, ghost i: nat)
      requires Woven() && i < |view| && view[i].used && h == view[i].addr
      modifies this`hdr, this`data, this`view
      ensures Limbo(i) && view == old(view)[i := old(view)[i].(used := false)]
      ensures Live(view) == old(Live(view)) - {old(view)[i]}
      ensures Intact(old(data), data, Live(view), HEADER)
    {
      ghost var v := view;
      FlagRing(hdr, v, Tail(), i, false);
      FreeFlag(v, Tail(), i, false);
      UsedNotFree(v, Tail(), i);
      LiveFlag(v, 0, Tail(), HEADER, i);
      SetItem(h, hdr[h].(used := false), v);
      view := v[i := v[i].(used := false)];
    }

    /** The left merge of rt_memheap_free. */
    method JoinLeft(h: nat, ghost i: nat) returns (header: nat, insert: bool, merged: bool)
      requires Limbo(i) && h == view[i].addr
      modifies this`hdr, this`data, this`view
      ensures merged == (i > 0 && !old(view)[i - 1].used) && insert == !merged
      ensures view == PlugBackward(old(view), i)
      ensures !merged ==> header == h && Limbo(i)
      ensures merged ==> Woven() && header == view[i - 1].addr && i - 1 < |view| && !view[i - 1].used
      ensures Live(view) == old(Live(view)) && Intact(old(data), data, Live(view), HEADER)
    {
      Around(hdr, view, Tail(), i);
      merged := !hdr[hdr[h].prev].used;
      insert := !merged;
      header := h;
      if merged {
        header := hdr[h].prev;
        FreeMerge(view, Tail(), i - 1);
        LiveMerge(view, 0, Tail(), HEADER, i - 1);
        UsedNotFree(view, Tail(), i);
        assert Node(hdr, view, Tail(), i);
        Absorb(header, i - 1);
      }
    }

    /** The right merge of rt_memheap_free. */
    method JoinRight(header: nat, loose: bool, ghost i: nat) returns (merged: bool)
      requires if loose then Limbo(i) else Woven() && i < |view| && !view[i].used
      requires header == view[i].addr
      modifies this`hdr, this`data, this`view, this`free, this`frees
      ensures merged == (i + 1 < |old(view)| && !old(view)[i + 1].used)
      ensures view == PlugForward(old(view), i) && (header !in frees <==> loose)
      ensures if loose then Limbo(i) else Woven() && i < |view| && !view[i].used
      ensures i < |view| && view[i].addr == header
      ensures frees == if merged then Without(old(frees), old(view)[i + 1].addr) else old(frees)
      ensures Live(view) == old(Live(view)) && Intact(old(data), data, Live(view), HEADER)
    {
      Around(hdr, view, Tail(), i);
      UsedNotFree(view, Tail(), i);
      merged := !hdr[hdr[header].next].used;
      if merged {
        MergeRight(header, loose, i);
      }
    }

    /** The free block i takes over its free right neighbour. */
    method MergeRight(header: nat, loose: bool, ghost i: nat)
      requires if loose then Limbo(i) else Woven() && i < |view| && !view[i].used
      requires header == view[i].addr && i + 1 < |view| && !view[i + 1].used
      modifies this`hdr, this`data, this`view, this`free, this`frees
      ensures view == MergeNext(old(view), i) && (header !in frees <==> loose)
      ensures if loose then Limbo(i) else Woven() && i < |view| && !view[i].used
      ensures i < |view| && view[i].addr == header
      ensures frees == Without(old(frees), old(view)[i + 1].addr)
      ensures Live(view) == old(Live(view)) && Intact(old(data), data, Live(view), HEADER)
    {
      Around(hdr, view, Tail(), i);
      UsedNotFree(view, Tail(), i);
      FreeMerge(view, Tail(), i);
      LiveMerge(view, 0, Tail(), HEADER, i);
      UsedNotFree(view, Tail(), i + 1);
      var right := hdr[header].next;
      assert right in Elements(frees);
      ghost var k := WithoutIsRemoved(frees, right);
      Absorb(header, i);
      FreeRemove(right, k);
    }

    /** rt_memheap_free right after rt_memheap_alloc: both rings, the accounting and every
        live payload are as before, but that the block is now the first of the free list. */
    method AllocThenFree(size: nat) returns (p: Ptr, ghost k: nat)
      requires Valid() && size < WORD
      modifies this
      ensures Valid() && poolSize == old(poolSize) && view == old(view) && available == old(available)
      ensures p.Null? ==> unchanged(this)
      ensures p.Addr? ==>
        k < |old(frees)| && old(frees)[k] == p.off - HEADER && frees == [old(frees)[k]] + Removed(old(frees), k)
      ensures Intact(old(data), data, Live(view), HEADER)
    {
      hide Intact, Live, Tiles, BlockRing, Coalesced, FreePayload, NoFit, Allocated, AllocatedList, Release,
        ReleasedList;
      ghost var v, f, d := view, frees, data;
      ghost var i;
      p, i, k := Alloc(size);
      if p.Null? {
        IntactSelf(d, Live(v), HEADER);
        return;
      }
      ghost var e := data;
      AllocatedBlock(v, i, Need(size));
      FreeUndoesAlloc(v, i, Need(size));
      if Splits(v[i], Need(size)) { NotListedInside(v, f, i, Need(size), Tail()); }
      ListAfterFree(v, f, i, k, Need(size));
      Free(p, i);
      IntactThrough(d, e, data, Live(v), Live(v), HEADER);
    }

    /** rt_memheap_realloc, growing into a free right neighbour. */
    method GrowInPlace(h: nat, newsize: nat, ghost i: nat)
      requires Valid() && i + 1 < |view| && view[i].used && !view[i + 1].used && h == view[i].addr
      requires Payload(view[i]) < newsize && Payload(view[i]) + Payload(view[i + 1]) > newsize + MINIALLOC
      modifies this
      ensures Valid() && poolSize == old(poolSize)
      ensures view == Grow(old(view), i, newsize + HEADER) && ShrunkAt(old(view), view, i, newsize + HEADER)
      ensures available == old(available) - (newsize - Payload(old(view)[i]))
      ensures frees == [h + HEADER + newsize] + Without(old(frees), old(view)[i + 1].addr)
      ensures maxUsed == if poolSize - available > old(maxUsed) then poolSize - available else old(maxUsed)
      ensures Intact(old(data), data, old(Live(view)), HEADER)
    {
      hide Intact, Live, FreeRing, Without, FreePayload, UsedBytes, ShrunkAt, Grow, Tiles;
      GrowShrinks(view, i, newsize + HEADER, 0, Tail(), HEADER);
      ghost var v := view;
      GrowCoalesced(v, i, newsize + HEADER);
      GrowBytes(v, i, newsize + HEADER, HEADER);
      Around(hdr, v, Tail(), i);
      var oldsize := hdr[h].next - h - HEADER;
      available := available - (newsize - oldsize);
      if poolSize - available > maxUsed { maxUsed := poolSize - available; }
      Stretch(h, newsize, i);
    }

    /** The relinking of GrowInPlace. */
    method Stretch(h: nat, newsize: nat, ghost i: nat)
      requires Woven() && i + 1 < |view| && view[i].used && !view[i + 1].used && h == view[i].addr
      requires Payload(view[i]) < newsize && Payload(view[i]) + Payload(view[i + 1]) > newsize
      modifies this`hdr, this`data, this`view, this`free, this`frees
      ensures Woven() && view == Grow(old(view), i, newsize + HEADER)
      ensures frees == [h + HEADER + newsize] + Without(old(frees), old(view)[i + 1].addr)
      ensures Intact(old(data), data, old(Live(view)), HEADER)
    {
      ghost var v, d, n, tail := view, data, newsize + HEADER, Tail();
      EatRight(h, i);
      ghost var e := data;
      CutOff(h, newsize, i);
      InsertLoose(h + newsize + HEADER, i + 1);
      GrowIsMergeThenCarve(v, i, n);
      IntactWider(d, e, data, v, view, i, n, tail);
    }

    /** Take the free right neighbour off the list and into used block i. */
    method EatRight(h: nat, ghost i: nat)
      requires Woven() && i + 1 < |view| && view[i].used && !view[i + 1].used && h == view[i].addr
      modifies this`hdr, this`data, this`view, this`free, this`frees
      ensures Woven() && view == MergeNext(old(view), i)
      ensures frees == Without(old(frees), old(view)[i + 1].addr)
      ensures Intact(old(data), data, old(Live(view)), HEADER)
    {
      Around(hdr, view, Tail(), i);
      UsedNotFree(view, Tail(), i + 1);
      FreeMerge(view, Tail(), i);
      var right := hdr[h].next;
      assert right in Elements(frees);
      ghost var k := WithoutIsRemoved(frees, right);
      FreeRemove(right, k);
      Absorb(h, i);
    }

    /** rt_memheap_realloc, splitting off the tail of the block. */
    method ShrinkInPlace(h: nat, newsize: nat, ghost i: nat)
      requires Valid() && i < |view| && view[i].used && h == view[i].addr
      requires 0 < newsize && newsize + HEADER + MINIALLOC < Payload(view[i])
      modifies this
      ensures Valid() && poolSize == old(poolSize) && maxUsed == old(maxUsed)
      ensures view == Shrink(old(view), i, newsize + HEADER) && ShrunkAt(old(view), view, i, newsize + HEADER)
      ensures available == old(available) + (Payload(old(view)[i]) - newsize) -
        if FreeAt(old(view), i + 1) then 0 else HEADER
      ensures frees == ShrunkList(old(view), old(frees), i, newsize + HEADER)
      ensures Intact(old(data), data, Live(view), HEADER)
    {
      hide Intact, Live, Tiles, Coalesced, FreePayload, FreeRing, ShrunkAt, Shrink;
      ShrinkCuts(view, i, newsize + HEADER, 0, Tail(), HEADER);
      ShrinkGives(view, i, newsize, Tail());
      ghost var w := ShrinkFacts(view, i, newsize + HEADER, Tail());
      Around(hdr, view, Tail(), i);
      var right := hdr[h].next;
      if !hdr[right].used {
        available := available - (hdr[right].next - right - HEADER);
      }
      Trim(h, newsize, i);
      var new_ := h + newsize + HEADER;
      ItemAt(hdr, view, Tail(), i + 1);
      available := available + (hdr[new_].next - new_ - HEADER);
    }

    /** The relinking of ShrinkInPlace. */
    method Trim(h: nat, newsize: nat, ghost i: nat)
      requires Woven() && i < |view| && view[i].used && h == view[i].addr
      requires 0 < newsize && newsize + HEADER < Payload(view[i])
      modifies this`hdr, this`data, this`view, this`free, this`frees
      ensures Woven() && view == Shrink(old(view), i, newsize + HEADER)
      ensures frees == ShrunkList(old(view), old(frees), i, newsize + HEADER)
      ensures Intact(old(data), data, Live(view), HEADER)
    {
      hide Intact, Live, Tiles, BlockRing, FreeSet, Elements;
      ghost var d := data;
      CutOff(h, newsize, i);
      ghost var e := data;
      var merged := JoinRight(h + newsize + HEADER, true, i + 1);
      InsertLoose(h + newsize + HEADER, i + 1);
      IntactThrough(d, e, data, Live(view), Live(view), HEADER);
    }

    /** The split of ShrinkInPlace; the new block is not listed yet. */
    method CutOff(h: nat, newsize: nat, ghost i: nat)
      requires Woven() && i < |view| && view[i].used && h == view[i].addr
      requires 0 < newsize && newsize + HEADER < Payload(view[i])
      modifies this`hdr, this`data, this`view
      ensures Limbo(i + 1) && view == Carve(old(view), i, newsize + HEADER)
      ensures Intact(old(data), data, Live(view), HEADER)
    {
      ghost var v, n := view, newsize + HEADER;
      FreeCarve(v, Tail(), i, n);
      FreshAddress(v, i, n, Tail());
      UsedNotFree(v, Tail(), i);
      SplitAfter(h, newsize + HEADER, i);
    }

    /** The memcpy from live block b to live block c. */
    method CopyPayload(src: nat, dst: nat, n: nat, ghost b: Block, ghost c: Block)
      requires Valid() && b in Live(view) && c in Live(view) && b != c
      requires src == b.addr + HEADER && dst == c.addr + HEADER && n <= Payload(b) && n <= Payload(c)
      modifies this`data
      ensures Valid() && Carried(old(data), data, src, dst, n)
      ensures Intact(old(data), data, Live(view) - {c}, HEADER)
    {
      hide Intact, Live, Coalesced, BlockRing, FreeRing, FreePayload, Tiles;
      LiveBound(view, 0, Tail(), HEADER, b);
      LiveBound(view, 0, Tail(), HEADER, c);
      CopyIntact(data, view, 0, Tail(), HEADER, b, c, n);
      data := Copy(data, dst, src, n);
    }

    /** Copy n bytes from live block i to live block c, then free block i. */
    method Relocate(src: nat, dst: nat, n: nat, ghost i: nat, ghost c: Block)
      requires Valid() && i < |view| && view[i].used && src == view[i].addr + HEADER
      requires dst == c.addr + HEADER && c in Live(view) && c != view[i]
      requires n <= Payload(view[i]) && n <= Payload(c)
      modifies this
      ensures Valid() && poolSize == old(poolSize) && maxUsed == old(maxUsed)
      ensures view == Release(old(view), i) && frees == ReleasedList(old(view), old(frees), i)
      ensures Live(view) == old(Live(view)) - {old(view)[i]}
      ensures Carried(old(data), data, src, dst, n)
      ensures Intact(old(data), data, Live(view) - {c}, HEADER)
    {
      hide Intact, Live, Coalesced, Release, ReleasedList, BlockRing, FreeRing, FreePayload, Tiles, Carried;
      ghost var w, d := view, data;
      LiveAt(w, i);
      LiveBound(w, 0, Tail(), HEADER, c);
      CopyPayload(src, dst, n, view[i], c);
      ghost var e := data;
      FreeBlock(src - HEADER, i);
      CarriedIntact(d, e, data, c, src, n, Live(view), HEADER);
      RelocatedIntact(d, e, data, Live(w), Live(view), w[i], c, HEADER);
    }

    /** rt_memheap_realloc, moving the block. */
    method Move(ptr: Ptr, oldsize: nat, newsize: nat, ghost i: nat) returns (p: Ptr, ghost j: nat, ghost k: nat)
      requires Valid() && ptr.Addr? && Owns(ptr, i) && oldsize == Payload(view[i])
      requires oldsize < newsize < WORD && Need(newsize) == newsize
      modifies this
      ensures Valid() && poolSize == old(poolSize)
      ensures p.Null? <==> newsize >= old(available) || NoFit(old(view), newsize)
      ensures p.Null? ==> unchanged(this)
      ensures p.Addr? ==> Moved(old(view), old(frees), old(data), view, frees, data, i, j, k, newsize, p.off)
    {
      hide Intact, Live, BlockRing, FreeRing, Tiles, Coalesced, FreePayload, Carried, NoFit, Release, ReleasedList,
        AllocatedList;
      ghost var v, f, d, tail := view, frees, data, Tail();
      LiveAt(v, i);
      LiveBound(v, 0, tail, HEADER, v[i]);
      p, j, k := Alloc(newsize);
      if p.Null? { return; }
      ghost var e, m, c, s := data, Shifted(v, j, newsize, i), view[j], Live(view);
      ShiftedBlock(v, i, j, newsize, tail);
      TakenIsNew(v, j, newsize, tail);
      AllocatedLive(v, j, newsize, tail);
      var n := if oldsize < newsize then oldsize else newsize;
      Relocate(ptr.off, p.off, n, m, c);
      IntactCarried(d, e, data, v[i], p.off, n, Live(v), HEADER);
      MovedIntact(d, e, data, Live(v), s, Live(view), v[i], c, HEADER);
    }

    /** No list of blocks describes the items from the one at h on. */
    ghost predicate Torn(h: nat)
      reads this
    {
      forall v: seq<Block>, tail: nat :: Layout(v, tail) && BlockRing(hdr, v, tail) ==>
        forall k :: 0 <= k < |v| ==> v[k].addr != h
    }

    lemma WrapsOnce(a: int, oldsize: int, newsize: int)
      ensures (a - (newsize - oldsize)) % WORD == (a + oldsize + (WORD - newsize)) % WORD
    {
    }

    /** The path of GrowInPlace when newsize + MINIALLOC wraps around: newsize is taken for
        little. The free right neighbour leaves both rings, and the new item goes in front of
        the payload it should follow, across the header and the first bytes of the live
        block. */
    method GrowAcross(h: nat, newsize: nat, ghost i: nat) returns (across: nat, ghost d: Memory)
      requires Valid() && i + 1 < |view| && view[i].used && !view[i + 1].used && h == view[i].addr
      requires newsize < WORD <= newsize + MINIALLOC
      modifies this
      ensures poolSize == old(poolSize) && Torn(h) && !Valid()
      ensures across == h + HEADER + newsize - WORD && h < across < h + HEADER < across + HEADER
      ensures across in hdr && !hdr[across].used && frees == [across] + Without(old(frees), old(view)[i + 1].addr)
      ensures available == (old(available) + Payload(old(view)[i]) + (WORD - newsize)) % WORD
      ensures var inUse := (poolSize - available) % WORD;
              maxUsed == if inUse > old(maxUsed) then inUse else old(maxUsed)
      ensures Intact(old(data), d, old(Live(view)), HEADER) && across + HEADER <= |d| &&
        data == Scribble(d, across, HEADER)
    {
      hide Intact, Live, Tiles, Coalesced, FreeRing, FreePayload, UsedBytes, Torn, Without;
      Around(hdr, view, Tail(), i);
      var oldsize := hdr[h].next - h - HEADER;
      WrapsOnce(available, oldsize, newsize);
      available := (available - (newsize - oldsize)) % WORD;
      if (poolSize - available) % WORD > maxUsed { maxUsed := (poolSize - available) % WORD; }
      EatRight(h, i);
      d := data;
      across := LinkAcross(h, newsize, i);
    }

    /** The new item of GrowAcross enters both rings. */
    method LinkAcross(h: nat, newsize: nat, ghost i: nat) returns (across: nat)
      requires Woven() && i < |view| && view[i].used && h == view[i].addr
      requires newsize < WORD <= newsize + MINIALLOC
      modifies this`hdr, this`data, this`free, this`frees
      ensures Torn(h) && !Woven()
      ensures across == h + HEADER + newsize - WORD && h < across < h + HEADER < across + HEADER
      ensures h in old(hdr) && old(hdr)[h].next in hdr && hdr[old(hdr)[h].next].prev == across
      ensures across in hdr && hdr[across] == Item(false, old(hdr)[h].next, h) && h in hdr && hdr[h].next == across
      ensures frees == [across] + old(frees)
      ensures across + HEADER <= |old(data)| && data == Scribble(old(data), across, HEADER)
    {
      Around(hdr, view, Tail(), i);
      across := (h + HEADER + newsize) % WORD;
      assert across == h + HEADER + newsize - WORD;
      NotAStart(view, i, across, Tail());
      hide Layout, FreeSet;
      var next := hdr[h].next;
      hdr := hdr[across := Item(false, next, h)];
      hdr := hdr[next := hdr[next].(prev := across)];
      hdr := hdr[h := hdr[h].(next := across)];
      data := Scribble(data, across, HEADER);
      assert across !in Elements(frees);
      FreeInsert(across);
      TornAt(h, across);
    }

    lemma TornAt(h: nat, a: nat)
      requires h in hdr && hdr[h].next == a && a <= h + HEADER
      ensures Torn(h)
    {
      forall v: seq<Block>, tail: nat, k | Layout(v, tail) && BlockRing(hdr, v, tail) && 0 <= k < |v|
        ensures v[k].addr != h
      {
        ItemAt(hdr, v, tail, k);
      }
    }

    /** The growing branch of rt_memheap_realloc up to the move. */
    method TryGrow(h: nat, oldsize: nat, newsize: nat, ghost i: nat) returns (grown: bool)
      requires Valid() && i < |view| && view[i].used && h == view[i].addr &&
        oldsize == Payload(view[i]) < newsize < WORD
      modifies this
      ensures poolSize == old(poolSize)
      ensures grown <==>
        (i + 1 < |old(view)| && !old(view)[i + 1].used
          && (Payload(old(view)[i]) + Payload(old(view)[i + 1]) > newsize + MINIALLOC || Wraps(old(view), i, newsize)))
      ensures !grown ==> unchanged(this)
      ensures grown && !Wraps(old(view), i, newsize) ==>
        && Valid() && view == Grow(old(view), i, newsize + HEADER)
        && frees == [h + HEADER + newsize] + Without(old(frees), old(view)[i + 1].addr)
        && Intact(old(data), data, old(Live(view)), HEADER)
      ensures Wraps(old(view), i, newsize) ==> Torn(h) && !Valid()
    {
      hide Torn, Intact, Live, Coalesced, FreeRing, FreePayload, Tiles, BlockRing, Grow, Without, Exceeds;
      Around(hdr, view, Tail(), i);
      SizesFit(view, Tail(), i);
      var next := hdr[h].next;
      grown := false;
      if !hdr[next].used {
        var nextsize := hdr[next].next - next - HEADER;
        ExceedsIff(oldsize, nextsize, newsize);
        if Exceeds(oldsize, nextsize, newsize) {
          grown := true;
          if newsize + MINIALLOC < WORD {
            GrowInPlace(h, newsize, i);
          } else {
            var _, _ := GrowAcross(h, newsize, i);
          }
        }
      }
    }

    /** rt_memheap_realloc on a live block. */
    method ReallocLive(ptr: Ptr, newsize: nat, ghost i: nat) returns (p: Ptr, ghost j: nat, ghost k: nat)
      requires Valid() && ptr.Addr? && Owns(ptr, i) && newsize < WORD && Need(newsize) == newsize
      modifies this
      ensures poolSize == old(poolSize)
      ensures Valid() <==> !Wraps(old(view), i, newsize)
      ensures Wraps(old(view), i, newsize) ==> p == ptr && Torn(ptr.off - HEADER)
      ensures !Wraps(old(view), i, newsize) ==>
        Resized(old(view), old(frees), old(data), old(available), view, frees, data, i, j, k, newsize, ptr, p)
      ensures p.Null? ==> unchanged(this)
    {
      hide Torn, Intact, Live, Coalesced, FreeRing, FreePayload, NoFit, Moved;
      j, k := 0, 0;
      var h := ptr.off - HEADER;
      Around(hdr, view, Tail(), i);
      var oldsize := hdr[h].next - h - HEADER;
      if newsize > oldsize {
        var grown := TryGrow(h, oldsize, newsize, i);
        if grown { return ptr, j, k; }
        p, j, k := Move(ptr, oldsize, newsize, i);
        return;
      }
      if newsize + HEADER + MINIALLOC >= oldsize { return ptr, j, k; }
      ShrinkInPlace(h, newsize, i);
      p := ptr;
    }

    /** rt_memheap_realloc. It keeps the heap valid exactly when the 32-bit sum in the guard
        for growing in place does not let a request through that it should not. */
    method Realloc(ptr: Ptr, newsize: nat, ghost i: nat) returns (p: Ptr, ghost j: nat, ghost k: nat)
      requires Valid() && Owns(ptr, i) && newsize < WORD
      modifies this
      ensures poolSize == old(poolSize)
      ensures Valid() <==> !(newsize > 0 && ptr.Addr? && Wraps(old(view), i, Need(newsize)))
      ensures newsize == 0 ==> p.Null?
      ensures newsize == 0 && ptr.Null? ==> unchanged(this)
      ensures newsize == 0 && ptr.Addr? ==> view == Release(old(view), i)
      ensures newsize > 0 && ptr.Null? ==>
        (p.Null? <==> Need(newsize) >= old(available) || NoFit(old(view), Need(newsize)))
      ensures newsize > 0 && ptr.Null? && p.Addr? ==>
        FirstListed(old(view), old(frees), j, k, Need(newsize)) && view == Allocated(old(view), j, Need(newsize))
      ensures newsize > 0 && ptr.Addr? && !Wraps(old(view), i, Need(newsize)) ==>
        Resized(old(view), old(frees), old(data), old(available), view, frees, data, i, j, k, Need(newsize), ptr, p)
      ensures newsize > 0 && ptr.Addr? && Wraps(old(view), i, Need(newsize)) ==> p == ptr && Torn(ptr.off - HEADER)
      ensures newsize > 0 && p.Null? ==> unchanged(this)
    {
      hide NoFit, FirstListed, Allocated, Resized, Release, Intact, Live, Tiles, Coalesced, BlockRing, FreeRing, Torn,
        Wraps;
      j, k := 0, 0;
      if newsize == 0 {
        Free(ptr, i);
        return Null, j, k;
      }
      var n := AlignUp(newsize);
      n := if n < MINIALLOC then MINIALLOC else n;
      if ptr.Null? {
        p, j, k := Alloc(n);
        return;
      }
      NeedAgain(newsize);
      p, j, k := ReallocLive(ptr, n, i);
    }
  }

  /** The sum newsize + MINIALLOC wraps around, and the space at hand exceeds what is left
      of it. */
  ghost predicate Wraps(v: seq<Block>, i: nat, n: nat) {
    && i + 1 < |v| && !v[i + 1].used && n > Payload(v[i]) && n + MINIALLOC >= WORD
    && Payload(v[i]) + Payload(v[i + 1]) > n + MINIALLOC - WORD
  }

  /** The guard for growing in place, on 32-bit words. */
  predicate Exceeds(oldsize: nat, nextsize: nat, newsize: nat) {
    (nextsize + oldsize) % WORD > (newsize + MINIALLOC) % WORD
  }

  lemma ExceedsIff(oldsize: nat, nextsize: nat, newsize: nat)
    requires oldsize + nextsize < WORD && newsize < WORD
    ensures Exceeds(oldsize, nextsize, newsize) <==>
      nextsize + oldsize > if newsize + MINIALLOC < WORD then newsize + MINIALLOC else newsize + MINIALLOC - WORD
  {
  }

  lemma NeedAgain(size: nat)
    requires size < WORD
    ensures Need(size) < WORD && Need(Need(size)) == Need(size)
  {
  }

  /** For which requests the sum wraps around. */
  lemma WrappingSizes(size: nat)
    requires size < WORD
    ensures Need(size) + MINIALLOC >= WORD <==> WORD - 16 < size <= WORD - 4
  {
  }

  /** A resized block holds the request exactly when rounding the request up does not wrap
      around; the last three sizes leave a block of the smallest size and report success. */
  lemma ResizeHonoured(v: seq<Block>, f: seq<int>, d: Memory, available: int, w: seq<Block>, g: seq<int>, e: Memory,
                       i: nat, j: nat, k: nat, size: nat, ptr: Ptr, p: Ptr, tail: nat)
    requires 0 < size < WORD && Layout(v, tail) && tail + HEADER < WORD
    requires Resized(v, f, d, available, w, g, e, i, j, k, Need(size), ptr, p) && p == ptr && ptr.Addr?
    requires Payload(v[i]) >= MINIALLOC
    requires Need(size) <= Payload(v[i]) ||
      (i + 1 < |v| && !v[i + 1].used && Payload(v[i + 1]) + Payload(v[i]) > Need(size) + MINIALLOC)
    ensures i < |w| && (Payload(w[i]) >= size <==> size + ALIGN <= WORD)
    ensures size + ALIGN > WORD && Payload(v[i]) > MINIALLOC + HEADER + MINIALLOC ==> Payload(w[i]) == MINIALLOC
  {
    OrderedAll(v, 0, tail, HEADER);
    hide Intact, Live, NoFit, Moved;
  }

  lemma SizesFit(v: seq<Block>, tail: nat, i: nat)
    requires Layout(v, tail) && i < |v|
    ensures Payload(v[i]) > 0
    ensures i + 1 < |v| ==> Payload(v[i + 1]) > 0 && Payload(v[i]) + Payload(v[i + 1]) < tail
  {
    OrderedAll(v, 0, tail, HEADER);
  }

  /** In a pool of 256 bytes a live block of 16 bytes is resized to 2^32 - 12 bytes: the
      call reports success and the heap is torn. */
  method WrappedGrowth() returns (heap: Heap, p: Ptr)
    ensures p.Addr? && p.off >= HEADER && heap.Torn(p.off - HEADER) && !heap.Valid()
  {
    hide Heap.Valid, Heap.Torn, Resized, Intact, Live;
    heap := new Heap(256);
    ghost var i, j, k;
    assert Payload(heap.view[0]) == 208 && !NoFit(heap.view, 16);
    p, i, k := heap.Alloc(16);
    assert p.Addr? && i == 0 && p.off == HEADER;
    p, j, k := heap.Realloc(p, WORD - 12, i);
  }

  lemma RemovedElements(f: seq<int>, k: nat)
    requires Distinct(f) && k < |f|
    ensures f[k] !in Removed(f, k) && Elements(Removed(f, k)) == Elements(f) - {f[k]}
  {
    assert f == f[..k] + [f[k]] + f[k + 1..];
    forall a | a in f && a != f[k]
      ensures a in Removed(f, k)
    {
      assert a in f[..k] || a in f[k + 1..];
    }
  }

  // ----- what callers may rely on -----

  /** The item reached by following `next` k times from start_addr. */
  ghost function Walk(h: map<nat, Item>, k: nat): nat {
    if k == 0 then 0 else var a := Walk(h, k - 1); if a in h then h[a].next else a
  }

  /** The walk visits the view in address order, ends at the closing item, and the
      items met before it cover the pool up to it without gap or overlap. */
  lemma {:induction false} WalkTilesPool(h: map<nat, Item>, v: seq<Block>, tail: nat, k: nat)
    requires Layout(v, tail) && BlockRing(h, v, tail) && k <= |v|
    ensures Walk(h, k) == (if k < |v| then v[k].addr else tail)
    ensures k < |v| ==> v[k].addr in h && h[v[k].addr].used == v[k].used
  {
    if k > 0 {
      WalkTilesPool(h, v, tail, k - 1);
      ItemAt(h, v, tail, k - 1);
    }
    if k < |v| { assert Node(h, v, tail, k); }
  }

  lemma AllocatedBlock(v: seq<Block>, i: nat, n: nat)
    requires i < |v| && Payload(v[i]) >= n
    ensures var w := Allocated(v, i, n); i < |w| && w[i].used && w[i].addr == v[i].addr
  {
  }

  /** An allocated block that is freed at once restores layout and accounting. */
  lemma FreeUndoesAlloc(v: seq<Block>, i: nat, n: nat)
    requires Coalesced(v) && i < |v| && !v[i].used && Payload(v[i]) >= n
    ensures Release(Allocated(v, i, n), i) == v
  {
    if Splits(v[i], n) {
      ReleaseUndoesCarve(v, i, n + HEADER);
    } else {
      ReleaseUndoesClaim(v, i);
    }
  }

  /** The guard for growing in place adds 32-bit unsigned values. It decides like
      the exact sum iff the right side does not wrap, or wraps to a value that the
      free bytes do not exceed either. */
  lemma GrowGuardWraps(oldsize: nat, nextsize: nat, newsize: nat)
    requires oldsize + nextsize < WORD && newsize < WORD
    ensures (Exceeds(oldsize, nextsize, newsize) <==> nextsize + oldsize > newsize + MINIALLOC)
      <==> (newsize + MINIALLOC < WORD || nextsize + oldsize <= newsize + MINIALLOC - WORD)
  {
  }
}
