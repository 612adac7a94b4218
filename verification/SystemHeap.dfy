/** The small-memory system heap: first fit over headers that are linked by
    offsets, with hole plugging on free.

    Offsets are relative to `heap_ptr`. `hdr` maps an offset to the header last
    written there, so a header that a merge swallowed stays in the map, as it
    stays in memory. The magic field is always written with the same constant
    and is not represented.
 */
module SystemHeap {
  import opened Blocks
  import opened Words

  const HEADER: nat := 12
  const MIN_SIZE: nat := 12

  datatype Header = Header(used: bool, next: nat, prev: nat)

  /** A pointer handed out by the heap, as an offset from heap_ptr. */
  datatype Ptr = Null | At(off: int)

  /** Payload bytes that a request for `size` bytes really asks for. */
  function Need(size: nat): nat
    requires size < WORD
  {
    if AlignUp(size) < MIN_SIZE then MIN_SIZE else AlignUp(size)
  }

  function Payload(b: Block): int {
    b.size - HEADER
  }

  function AddrAt(v: seq<Block>, k: nat, end: nat): nat {
    if k < |v| then v[k].addr else end
  }

  // ----- the headers agree with the view -----

  ghost predicate Node(h: map<nat, Header>, v: seq<Block>, k: nat)
    requires k < |v|
  {
    && v[k].addr in h
    && h[v[k].addr] == Header(v[k].used, v[k].End(), if k == 0 then v[0].addr else v[k - 1].addr)
  }

  /** Walking `next` from offset 0 visits the view and stops at heap_end, and
      every `prev` but heap_end's leads back. */
  ghost predicate Linked(h: map<nat, Header>, v: seq<Block>, end: nat) {
    && (forall k :: 0 <= k < |v| ==> Node(h, v, k))
    && end in h && h[end].used && h[end].next == end
  }

  /** l is the lowest free block, or heap_end when there is none. */
  ghost predicate LowestFree(v: seq<Block>, l: int, end: nat) {
    && (l == end || exists k :: 0 <= k < |v| && v[k].addr == l && !v[k].used)
    && (forall k :: 0 <= k < |v| && v[k].addr < l ==> v[k].used)
  }

  ghost predicate Aligned(v: seq<Block>) {
    forall i :: 0 <= i < |v| ==> v[i].size % ALIGN == 0
  }

  ghost predicate Layout(v: seq<Block>, end: nat) {
    Tiles(v, 0, end, HEADER) && Aligned(v)
  }

  // ----- what rt_malloc does to the view -----

  /** Block i is the lowest free block below `bound` with room for need bytes. */
  ghost predicate FirstFit(v: seq<Block>, i: nat, need: nat, bound: int) {
    && i < |v| && !v[i].used && Payload(v[i]) >= need && v[i].addr < bound
    && forall j :: 0 <= j < i ==> v[j].used || Payload(v[j]) < need
  }

  ghost predicate NoFit(v: seq<Block>, need: nat, bound: int) {
    forall j :: 0 <= j < |v| && !v[j].used && v[j].addr < bound ==> Payload(v[j]) < need
  }

  ghost function Allocated(v: seq<Block>, i: nat, need: nat): seq<Block>
    requires i < |v| && Payload(v[i]) >= need
  {
    if Payload(v[i]) >= need + HEADER + MIN_SIZE then Carve(v, i, need + HEADER) else Claim(v, i)
  }

  /** Block i answers a request for n bytes: cut to size if what remains holds a header and a
      minimal block, used as a whole otherwise. What is used then counts as used. */
  ghost predicate HandedOut(v: seq<Block>, w: seq<Block>, i: nat, n: nat, used0: int, used: int) {
    i < |v| &&
      if Payload(v[i]) >= n + HEADER + MIN_SIZE then CutAt(v, w, i, n + HEADER) && used == used0 + n + HEADER
      else TakenAt(v, w, i) && used == used0 + v[i].size
  }

  lemma AllocatedHandsOut(v: seq<Block>, i: nat, n: nat, used: int)
    requires i < |v| && Payload(v[i]) >= n
    ensures i < |Allocated(v, i, n)|
    ensures HandedOut(v, Allocated(v, i, n), i, n, used, used + Allocated(v, i, n)[i].size)
  {
    if Payload(v[i]) >= n + HEADER + MIN_SIZE {
      CarveCuts(v, i, n + HEADER);
    } else {
      ClaimTakes(v, i);
    }
  }

  // ----- header updates, as the code writes them -----

  ghost function CarveHeaders(h: map<nat, Header>, a: nat, n: nat, end: nat): map<nat, Header>
    requires a in h && h[a].next in h
  {
    var next := h[a].next;
    var g := h[a + n := Header(false, next, a)][a := Header(true, a + n, h[a].prev)];
    if next != end then g[next := g[next].(prev := a + n)] else g
  }

  ghost function MergeHeaders(h: map<nat, Header>, a: nat): map<nat, Header>
    requires a in h && h[a].next in h && h[h[a].next].next in h
  {
    var after := h[h[a].next].next;
    var g := h[a := h[a].(next := after)];
    g[after := g[after].(prev := a)]
  }

  lemma NextAt(h: map<nat, Header>, v: seq<Block>, end: nat, i: nat)
    requires Layout(v, end) && Linked(h, v, end) && i < |v|
    ensures Node(h, v, i)
    ensures v[i].End() == AddrAt(v, i + 1, end) && v[i].End() in h
  {
    if i + 1 < |v| { assert Node(h, v, i + 1); }
  }

  lemma CarveNode(h: map<nat, Header>, v: seq<Block>, end: nat, i: nat, n: nat, k: nat)
    requires Layout(v, end) && Linked(h, v, end) && i < |v| && HEADER < n && n + HEADER < v[i].size && k <= |v|
    requires v[i].addr in h && v[i].End() == h[v[i].addr].next && v[i].End() in h
    ensures Node(CarveHeaders(h, v[i].addr, n, end), Carve(v, i, n), k)
  {
    var w := Carve(v, i, n);
    NextAt(h, v, end, i);
    OrderedAll(v, 0, end, HEADER);
    if k < i {
      assert Node(h, v, k);
    } else if k == i {
      assert Node(h, v, i);
    } else if k > i + 1 {
      assert w[k] == v[k - 1];
      assert Node(h, v, k - 1);
    }
  }

  lemma CarveLinked(h: map<nat, Header>, v: seq<Block>, end: nat, i: nat, n: nat)
    requires Layout(v, end) && Linked(h, v, end) && i < |v| && HEADER < n && n + HEADER < v[i].size
    ensures v[i].addr in h && v[i].End() == h[v[i].addr].next && v[i].End() in h
    ensures Linked(CarveHeaders(h, v[i].addr, n, end), Carve(v, i, n), end)
  {
    NextInfo(h, v, end, i);
    forall k | 0 <= k < |v| + 1
      ensures Node(CarveHeaders(h, v[i].addr, n, end), Carve(v, i, n), k)
    {
      CarveNode(h, v, end, i, n, k);
    }
  }

  lemma FlagLinked(h: map<nat, Header>, v: seq<Block>, end: nat, i: nat, used: bool)
    requires Layout(v, end) && Linked(h, v, end) && i < |v|
    ensures v[i].addr in h
    ensures Linked(h[v[i].addr := h[v[i].addr].(used := used)], v[i := v[i].(used := used)], end)
  {
    NextAt(h, v, end, i);
    OrderedAll(v, 0, end, HEADER);
    var w := v[i := v[i].(used := used)];
    var g := h[v[i].addr := h[v[i].addr].(used := used)];
    forall k | 0 <= k < |w|
      ensures Node(g, w, k)
    {
      assert Node(h, v, k);
    }
  }

  lemma MergeNode(h: map<nat, Header>, v: seq<Block>, end: nat, i: nat, k: nat)
    requires Layout(v, end) && Linked(h, v, end) && i + 1 < |v| && k + 1 < |v|
    requires v[i].addr in h && v[i].End() == v[i + 1].addr == h[v[i].addr].next
    requires v[i + 1].addr in h && v[i + 1].End() == h[v[i + 1].addr].next && v[i + 1].End() in h
    ensures Node(MergeHeaders(h, v[i].addr), MergeNext(v, i), k)
  {
    NextAt(h, v, end, i + 1);
    OrderedAll(v, 0, end, HEADER);
    if k <= i {
      assert Node(h, v, k);
    } else {
      assert MergeNext(v, i)[k] == v[k + 1];
      assert Node(h, v, k + 1);
    }
  }

  lemma MergeLinked(h: map<nat, Header>, v: seq<Block>, end: nat, i: nat)
    requires Layout(v, end) && Linked(h, v, end) && i + 1 < |v|
    ensures v[i].addr in h && v[i].End() == v[i + 1].addr == h[v[i].addr].next
    ensures v[i + 1].addr in h && v[i + 1].End() == h[v[i + 1].addr].next && v[i + 1].End() in h
    ensures Linked(MergeHeaders(h, v[i].addr), MergeNext(v, i), end)
  {
    NextInfo(h, v, end, i);
    NextInfo(h, v, end, i + 1);
    forall k | 0 <= k < |v| - 1
      ensures Node(MergeHeaders(h, v[i].addr), MergeNext(v, i), k)
    {
      MergeNode(h, v, end, i, k);
    }
  }

  // ----- lfree -----

  lemma LowestUnique(v: seq<Block>, l: int, m: int, end: nat)
    requires Layout(v, end) && LowestFree(v, l, end) && LowestFree(v, m, end)
    ensures l == m
  {
    OrderedAll(v, 0, end, HEADER);
  }

  /** Merging free neighbours never moves the lowest free block. */
  lemma LowestMerge(v: seq<Block>, i: nat, l: int, end: nat)
    requires Layout(v, end) && LowestFree(v, l, end) && i + 1 < |v| && !v[i].used && !v[i + 1].used
    ensures l <= v[i].addr && LowestFree(MergeNext(v, i), l, end)
  {
    OrderedAll(v, 0, end, HEADER);
    var w := MergeNext(v, i);
    forall k | 0 <= k < |w| && w[k].addr < l
      ensures w[k].used
    {
      assert k < i;
    }
    var k :| 0 <= k < |v| && v[k].addr == l && !v[k].used;
    assert w[k].addr == l && !w[k].used;
  }

  /** Freeing block i lowers lfree to it when it lies below. */
  lemma LowestFreed(v: seq<Block>, i: nat, l: int, end: nat)
    requires Layout(v, end) && LowestFree(v, l, end) && i < |v|
    ensures LowestFree(v[i := v[i].(used := false)], if v[i].addr < l then v[i].addr else l, end)
  {
    OrderedAll(v, 0, end, HEADER);
    var w := v[i := v[i].(used := false)];
    if l != end {
      var k :| 0 <= k < |v| && v[k].addr == l && !v[k].used;
      assert w[k].addr == l && !w[k].used;
    }
    assert w[i].addr == v[i].addr && !w[i].used;
  }

  /** What the code reads through `next` of block i. */
  lemma NextInfo(h: map<nat, Header>, v: seq<Block>, end: nat, i: nat)
    requires Layout(v, end) && Linked(h, v, end) && i < |v|
    ensures v[i].addr in h && h[v[i].addr].used == v[i].used
    ensures h[v[i].addr].next == v[i].End() == AddrAt(v, i + 1, end)
    ensures v[i].End() in h && v[i].addr < v[i].End() <= end && (v[i].End() == end <==> i + 1 == |v|)
    ensures i + 1 < |v| ==> h[v[i].End()].used == v[i + 1].used
    ensures i + 1 < |v| ==> h[v[i].End()].next == v[i + 1].End() && v[i + 1].End() in h
  {
    NextAt(h, v, end, i);
    OrderedAll(v, 0, end, HEADER);
    if i + 1 < |v| { NextAt(h, v, end, i + 1); }
  }

  /** What the code reads through `prev` of block i. */
  lemma PrevInfo(h: map<nat, Header>, v: seq<Block>, end: nat, i: nat)
    requires Layout(v, end) && Linked(h, v, end) && i < |v|
    ensures v[i].addr in h && h[v[i].addr].next == v[i].End() && v[i].End() in h
    ensures h[v[i].addr].prev in h && (h[v[i].addr].prev == v[i].addr <==> i == 0)
    ensures i > 0 ==> h[v[i].addr].prev == v[i - 1].addr && v[i - 1].addr in h
    ensures i > 0 ==> h[v[i - 1].addr].used == v[i - 1].used && h[v[i - 1].addr].next == v[i].addr
  {
    NextAt(h, v, end, i);
    if i > 0 { NextAt(h, v, end, i - 1); }
  }

  /** The two header writes of a merge overwrite no live payload. */
  lemma MergeIntact(d: Memory, v: seq<Block>, end: nat, i: nat)
    requires Layout(v, end) && i + 1 < |v| && !v[i].used && !v[i + 1].used && |d| == end + HEADER
    ensures v[i].addr + HEADER <= |d| && v[i + 1].End() + HEADER <= |d|
    ensures Live(MergeNext(v, i)) == Live(v)
    ensures Intact(d, Scribble(Scribble(d, v[i].addr, HEADER), v[i + 1].End(), HEADER), Live(v), HEADER)
  {
    LiveMerge(v, 0, end, HEADER, i);
    HeaderRoom(v, end, i);
    HeaderRoom(v, end, i + 1);
    var e := Scribble(d, v[i].addr, HEADER);
    ScribbleIntact(d, v, 0, end, HEADER, i, v[i].addr);
    if i + 2 < |v| {
      ScribbleIntact(e, v, 0, end, HEADER, i + 2, v[i + 1].End());
    } else {
      ScribbleIntact(e, v, 0, end, HEADER, 0, end);
    }
  }

  /** The header writes of a split overwrite no payload that is live after it. */
  lemma CarveIntact(d: Memory, v: seq<Block>, end: nat, i: nat, n: nat)
    requires Layout(v, end) && i < |v| && HEADER < n && n + HEADER < v[i].size && |d| == end + HEADER
    ensures v[i].addr + n + HEADER < v[i].End() <= end
    ensures var e := Scribble(Scribble(d, v[i].addr + n, HEADER), v[i].addr, HEADER);
      && Intact(d, e, Live(Carve(v, i, n)), HEADER)
      && Intact(d, Scribble(e, v[i].End(), HEADER), Live(Carve(v, i, n)), HEADER)
  {
    HeaderRoom(v, end, i);
    CarveTiles(v, 0, end, HEADER, i, n);
    var c := Carve(v, i, n);
    ScribbleIntact(d, c, 0, end, HEADER, i + 1, v[i].addr + n);
    var e := Scribble(d, v[i].addr + n, HEADER);
    ScribbleIntact(e, c, 0, end, HEADER, i, v[i].addr);
    var f := Scribble(e, v[i].addr, HEADER);
    if i + 2 < |c| {
      ScribbleIntact(f, c, 0, end, HEADER, i + 2, v[i].End());
    } else {
      ScribbleIntact(f, c, 0, end, HEADER, 0, end);
    }
  }

  lemma HeaderRoom(v: seq<Block>, end: nat, i: nat)
    requires Layout(v, end) && i < |v|
    ensures v[i].addr + HEADER < v[i].End() <= end
  {
    OrderedAll(v, 0, end, HEADER);
  }

  lemma MergeWoven(h: map<nat, Header>, v: seq<Block>, l: int, end: nat, i: nat)
    requires Layout(v, end) && Linked(h, v, end) && LowestFree(v, l, end)
    requires i + 1 < |v| && !v[i].used && !v[i + 1].used
    ensures v[i].addr in h && v[i + 1].addr == h[v[i].addr].next && v[i + 1].addr in h && h[v[i + 1].addr].next in h
    ensures Layout(MergeNext(v, i), end) && LowestFree(MergeNext(v, i), l, end)
    ensures Linked(MergeHeaders(h, v[i].addr), MergeNext(v, i), end)
    ensures l <= v[i].addr < v[i + 1].addr
  {
    NextAt(h, v, end, i);
    LowestMerge(v, i, l, end);
    MergeLinked(h, v, end, i);
    MergeTiles(v, 0, end, HEADER, i);
  }

  lemma CarveLayout(v: seq<Block>, i: nat, n: nat, end: nat)
    requires Layout(v, end) && i < |v| && HEADER < n && n + HEADER < v[i].size && n % ALIGN == 0
    ensures Layout(Carve(v, i, n), end)
  {
    CarveTiles(v, 0, end, HEADER, i, n);
    assert (v[i].size - n) % ALIGN == 0;
  }

  lemma ClaimLayout(v: seq<Block>, i: nat, end: nat)
    requires Layout(v, end) && i < |v|
    ensures Layout(Claim(v, i), end)
  {
    ClaimTiles(v, 0, end, HEADER, i);
  }

  lemma AllocatedCoalesced(v: seq<Block>, i: nat, need: nat)
    requires Coalesced(v) && i < |v| && !v[i].used && Payload(v[i]) >= need
    ensures Coalesced(Allocated(v, i, need))
  {
    if Payload(v[i]) >= need + HEADER + MIN_SIZE {
      CarveCoalesced(v, i, need + HEADER);
    } else {
      ClaimCoalesced(v, i);
    }
  }

  lemma AllocatedBytes(v: seq<Block>, i: nat, need: nat)
    requires i < |v| && !v[i].used && Payload(v[i]) >= need
    ensures UsedBytes(Allocated(v, i, need)) == UsedBytes(v) + Allocated(v, i, need)[i].size
  {
    hide UsedBytes, FreePayload;
    if Payload(v[i]) >= need + HEADER + MIN_SIZE {
      CarveBytes(v, i, need + HEADER, HEADER);
    } else {
      FlagBytes(v, i, true, HEADER);
    }
  }

  lemma AllocatedLive(v: seq<Block>, i: nat, need: nat, end: nat)
    requires Layout(v, end) && i < |v| && !v[i].used && Payload(v[i]) >= need
    ensures Live(Allocated(v, i, need)) == Live(v) + {Allocated(v, i, need)[i]}
  {
    if Payload(v[i]) >= need + HEADER + MIN_SIZE {
      LiveCarve(v, 0, end, HEADER, i, need + HEADER);
    } else {
      LiveClaim(v, i);
    }
  }

  /** Taking block i leaves lfree right unless lfree was block i itself. */
  lemma AllocatedBelow(v: seq<Block>, i: nat, need: nat, l: int, end: nat)
    requires Layout(v, end) && LowestFree(v, l, end) && i < |v| && !v[i].used && Payload(v[i]) >= need
    ensures var w := Allocated(v, i, need);
      && w[i].addr == v[i].addr
      && (l == v[i].addr ==> forall k :: 0 <= k < i ==> w[k].used)
      && (l != v[i].addr ==> LowestFree(w, l, end))
  {
    OrderedAll(v, 0, end, HEADER);
    var w := Allocated(v, i, need);
    if l != v[i].addr {
      var k :| 0 <= k < |v| && v[k].addr == l && !v[k].used;
      assert l < v[i].addr && w[k] == v[k];
      forall m | 0 <= m < |w| && w[m].addr < l
        ensures w[m].used
      {
        assert m < i;
      }
    }
  }

  lemma LowestIndex(v: seq<Block>, l: int, end: nat) returns (i: nat)
    requires Layout(v, end) && LowestFree(v, l, end)
    ensures i <= |v| && AddrAt(v, i, end) == l
    ensures forall j :: 0 <= j < i ==> v[j].used
  {
    OrderedAll(v, 0, end, HEADER);
    if l == end {
      i := |v|;
    } else {
      var k :| 0 <= k < |v| && v[k].addr == l && !v[k].used;
      i := k;
    }
  }

  lemma NoFitBeyond(v: seq<Block>, i: nat, need: nat, bound: int, end: nat)
    requires Layout(v, end) && i <= |v| && AddrAt(v, i, end) >= bound
    requires forall j :: 0 <= j < i ==> v[j].used || Payload(v[j]) < need
    ensures NoFit(v, need, bound)
  {
    OrderedAll(v, 0, end, HEADER);
  }

  // ----- rt_realloc -----

  lemma ShrinkByPlugging(v: seq<Block>, i: nat, n: nat)
    requires i < |v| && n <= v[i].size
    ensures PlugBackward(PlugForward(Carve(v, i, n), i + 1), i + 1) == Shrink(v, i, n)
  {
    assert PlugForward(Carve(v, i, n), i + 1)[i].used;
  }

  lemma LowestSplit(v: seq<Block>, i: nat, n: nat, l: int, end: nat)
    requires Layout(v, end) && LowestFree(v, l, end) && i < |v| && v[i].used && n <= v[i].size
    ensures LowestFree(Carve(v, i, n), if v[i].addr + n < l then v[i].addr + n else l, end)
  {
    OrderedAll(v, 0, end, HEADER);
    var w := Carve(v, i, n);
    assert w[i + 1].addr == v[i].addr + n && !w[i + 1].used;
    if l != end {
      var k :| 0 <= k < |v| && v[k].addr == l && !v[k].used;
      assert w[if k < i then k else k + 1] == v[k];
    }
  }

  /** Where block i sits after block j was allocated. */
  ghost function Shifted(v: seq<Block>, j: nat, need: nat, i: nat): nat
    requires j < |v|
  {
    if j < i && Payload(v[j]) >= need + HEADER + MIN_SIZE then i + 1 else i
  }

  lemma ShiftedBlock(v: seq<Block>, i: nat, j: nat, need: nat, end: nat)
    requires Layout(v, end) && i < |v| && j < |v| && v[i].used && !v[j].used && Payload(v[j]) >= need
    ensures var w := Allocated(v, j, need);
      Shifted(v, j, need, i) < |w| && w[Shifted(v, j, need, i)] == v[i]
  {
  }

  /** The block that malloc took is none of the blocks that were live. */
  lemma TakenIsNew(v: seq<Block>, j: nat, need: nat, end: nat)
    requires Layout(v, end) && j < |v| && !v[j].used && Payload(v[j]) >= need
    ensures Allocated(v, j, need)[j] !in Live(v) && Payload(Allocated(v, j, need)[j]) >= need
  {
    var c := Allocated(v, j, need)[j];
    if c in Live(v) {
      Apart(v, 0, end, HEADER, c, v[j]);
    }
  }

  /** Block i of view v with memory d was moved to offset off: the first fit for n
      bytes was taken, the old block freed, the common prefix copied, and every
      other live block kept with its bytes. */
  ghost predicate Moved(v: seq<Block>, d: Memory, w: seq<Block>, e: Memory, i: nat, j: nat, n: nat, memSize: nat,
                        off: int)
    requires n < WORD
  {
    && i < |v| && v[i].size >= HEADER && FirstFit(v, j, Need(n), memSize - Need(n))
    && off == v[j].addr + HEADER
    && Shifted(v, j, Need(n), i) < |Allocated(v, j, Need(n))|
    && w == Release(Allocated(v, j, Need(n)), Shifted(v, j, Need(n), i))
    && Live(w) == Live(v) - {v[i]} + {Allocated(v, j, Need(n))[j]}
    && Carried(d, e, v[i].addr + HEADER, off, if v[i].size - HEADER < n then v[i].size - HEADER else n)
    && Intact(d, e, Live(v) - {v[i]}, HEADER)
  }

  /** What rt_realloc to n > 0 aligned bytes does with live block i. */
  ghost predicate Resized(v: seq<Block>, d: Memory, w: seq<Block>, e: Memory, i: nat, j: nat, n: nat, memSize: nat,
                          rmem: Ptr, p: Ptr)
    requires i < |v| && n < WORD && v[i].size >= HEADER
  {
    if Payload(v[i]) == n then
      p == rmem && w == v && e == d
    else if n + HEADER + MIN_SIZE < Payload(v[i]) then
      p == rmem && w == Shrink(v, i, n + HEADER) && Intact(d, e, Live(w), HEADER)
    else if p.Null? then
      w == v && e == d && NoFit(v, Need(n), memSize - Need(n))
    else
      Moved(v, d, w, e, i, j, n, memSize, p.off)
  }

  /** What rt_realloc to n aligned bytes does: too large is refused, zero frees,
      NULL allocates, a foreign pointer is handed back, a live block is resized. */
  ghost predicate Reallocated(v: seq<Block>, d: Memory, w: seq<Block>, e: Memory, i: nat, j: nat, n: nat, memSize: nat,
                              rmem: Ptr, p: Ptr)
    requires n < WORD
  {
    var inside := rmem.At? && 0 <= rmem.off < memSize + HEADER;
    if n > memSize then
      p.Null? && w == v && e == d
    else if n == 0 then
      && p.Null?
      && if !inside then w == v && e == d
         else i < |v| && w == Release(v, i) && Intact(d, e, Live(v) - {v[i]}, HEADER)
    else if rmem.Null? then
      if p.Null? then w == v && e == d && NoFit(v, Need(n), memSize - Need(n))
      else
        && FirstFit(v, j, Need(n), memSize - Need(n)) && p.off == v[j].addr + HEADER
        && w == Allocated(v, j, Need(n)) && Intact(d, e, Live(v), HEADER)
    else if !inside then
      p == rmem && w == v && e == d
    else
      i < |v| && v[i].size >= HEADER && Resized(v, d, w, e, i, j, n, memSize, rmem, p)
  }

  // ----- the heap object -----

  class Heap {
    var hdr: map<nat, Header>
    var lfree: int
    var memSize: nat
    var usedMem: nat
    var maxMem: nat
    var data: Memory
    ghost var view: seq<Block>

    ghost function End(): nat
      reads this
    {
      memSize + HEADER
    }

    /** What holds between heap operations; the part plug_holes relies on. */
    ghost predicate Woven()
      reads this
    {
      && MIN_SIZE <= memSize && memSize + 2 * HEADER < WORD
      && Layout(view, End())
      && Linked(hdr, view, End())
      && LowestFree(view, lfree, End())
      && |data| == End() + HEADER
    }

    /** Write the header at offset a. */
    method SetHeader(a: nat, h: Header)
      requires a + HEADER <= |data|
      modifies this`hdr, this`data
      ensures hdr == old(hdr)[a := h] && data == Scribble(old(data), a, HEADER)
    {
      hdr := hdr[a := h];
      data := Scribble(data, a, HEADER);
    }

    ghost predicate Valid()
      reads this
    {
      && Woven()
      && Coalesced(view)
      && usedMem == UsedBytes(view) <= maxMem
    }

    /** Static storage starts zeroed. */
    constructor ()
      ensures usedMem == 0 && maxMem == 0
    {
      hdr, lfree, memSize, usedMem, maxMem := map[], 0, 0, 0, 0;
      view, data := [], [];
    }

    /** rt_system_heap_init. The heap is usable iff at least MIN_SIZE bytes remain
        between the two headers; see TinyHeapSearchNeverStops for the rest. */
    method Init(begin: nat, end: nat) returns (ok: bool)
      requires begin < WORD && end < WORD && usedMem == 0
      modifies this
      ensures ok == (AlignDown(end) > 2 * HEADER && AlignDown(end) - 2 * HEADER >= AlignUp(begin))
      ensures !ok ==> unchanged(this)
      ensures ok ==> memSize == AlignDown(end) - AlignUp(begin) - 2 * HEADER
      ensures ok ==> lfree == 0 && hdr == InitHeaders(memSize) && view == [Block(0, End(), false)]
      ensures ok && memSize >= MIN_SIZE ==> Valid()
    {
      var b, e := AlignUp(begin), AlignDown(end);
      if e > 2 * HEADER && e - 2 * HEADER >= b {
        memSize := e - b - 2 * HEADER;
      } else {
        return false;
      }
      hdr := map[0 := Header(false, memSize + HEADER, 0)];
      hdr := hdr[memSize + HEADER := Header(true, memSize + HEADER, memSize + HEADER)];
      lfree := 0;
      data := seq(memSize + 2 * HEADER, _ => 0);
      view := [Block(0, End(), false)];
      ok := true;
      assert Node(hdr, view, 0);
      assert view[0].addr == 0;
    }

    /** plug_holes. The two lfree corrections never fire, since lfree is already
        at or below the block being plugged. */
    method PlugHoles(mem: nat, ghost i: nat)
      requires Woven() && i < |view| && mem == view[i].addr && !view[i].used
      modifies this`hdr, this`lfree, this`view, this`data
      ensures Woven() && view == PlugBackward(PlugForward(old(view), i), i)
      ensures lfree == old(lfree)
      ensures Live(view) == old(Live(view)) && Intact(old(data), data, Live(view), HEADER)
    {
      ghost var h, v, end := hdr, view, End();
      NextInfo(h, v, end, i);
      var nmem := hdr[mem].next;
      if mem != nmem && !hdr[nmem].used && nmem != memSize + HEADER {
        MergeWoven(h, v, lfree, end, i);
        MergeIntact(data, v, end, i);
        lfree := if lfree == nmem then mem else lfree;
        SetHeader(mem, hdr[mem].(next := hdr[nmem].next));
        SetHeader(hdr[nmem].next, hdr[hdr[nmem].next].(prev := mem));
        assert hdr == MergeHeaders(h, mem);
        view := MergeNext(v, i);
      }
      PlugBack(mem, i);
    }

    /** The backward half of plug_holes. */
    method PlugBack(mem: nat, ghost i: nat)
      requires Woven() && i < |view| && mem == view[i].addr && !view[i].used
      modifies this`hdr, this`lfree, this`view, this`data
      ensures Woven() && view == PlugBackward(old(view), i)
      ensures lfree == old(lfree)
      ensures Live(view) == old(Live(view)) && Intact(old(data), data, Live(view), HEADER)
    {
      hide Linked, Tiles;
      ghost var h, v, end := hdr, view, End();
      PrevInfo(h, v, end, i);
      var pmem := hdr[mem].prev;
      if pmem != mem && !hdr[pmem].used {
        MergeWoven(h, v, lfree, end, i - 1);
        MergeIntact(data, v, end, i - 1);
        lfree := if lfree == mem then pmem else lfree;
        SetHeader(pmem, hdr[pmem].(next := hdr[mem].next));
        SetHeader(hdr[mem].next, hdr[hdr[mem].next].(prev := pmem));
        assert hdr == MergeHeaders(h, pmem);
        view := MergeNext(v, i - 1);
      }
    }

    /** The search loop of rt_malloc, starting at lfree. */
    method Search(size: nat) returns (found: bool, ptr: nat, ghost i: nat)
      requires Woven() && size <= memSize
      ensures found ==> FirstFit(view, i, size, memSize - size) && ptr == view[i].addr
      ensures !found ==> NoFit(view, size, memSize - size)
    {
      ghost var v, end := view, End();
      i := LowestIndex(v, lfree, end);
      ptr := lfree;
      while ptr < memSize - size
        invariant i <= |v| && ptr == AddrAt(v, i, end)
        invariant forall j :: 0 <= j < i ==> v[j].used || Payload(v[j]) < size
        decreases |v| - i
      {
        NextInfo(hdr, v, end, i);
        if !hdr[ptr].used && hdr[ptr].next - (ptr + HEADER) >= size {
          return true, ptr, i;
        }
        ptr := hdr[ptr].next;
        i := i + 1;
      }
      found := false;
      NoFitBeyond(v, i, size, memSize - size, end);
    }

    /** The inner loop of rt_malloc: move lfree up to the next free block. */
    method AdvanceLowest(ghost i: nat)
      requires memSize + 2 * HEADER < WORD && Layout(view, End()) && Linked(hdr, view, End())
      requires i < |view| && lfree == view[i].addr
      requires forall k :: 0 <= k < i ==> view[k].used
      modifies this`lfree
      ensures LowestFree(view, lfree, End())
    {
      ghost var v, end, k := view, End(), i;
      OrderedAll(v, 0, end, HEADER);
      NextInfo(hdr, v, end, i);
      while hdr[lfree].used && lfree != memSize + HEADER
        invariant k <= |v| && lfree == AddrAt(v, k, end) && lfree in hdr
        invariant forall j :: 0 <= j < k ==> v[j].used
        decreases |v| - k
      {
        assert k < |v|;
        NextInfo(hdr, v, end, k);
        lfree := hdr[lfree].next;
        k := k + 1;
      }
      if k < |v| {
        NextInfo(hdr, v, end, k);
        assert !v[k].used;
      }
    }

    /** Split block i: it becomes (or stays) used with `size` payload bytes, and a
        free block follows. The same statements stand in rt_malloc and rt_realloc. */
    method SplitBlock(ptr: nat, size: nat, ghost i: nat)
      requires Layout(view, End()) && Linked(hdr, view, End()) && |data| == End() + HEADER
      requires i < |view| && ptr == view[i].addr && size > 0
      requires size % ALIGN == 0 && size + HEADER < Payload(view[i])
      modifies this`hdr, this`view, this`data
      ensures Layout(view, End()) && Linked(hdr, view, End()) && |data| == End() + HEADER
      ensures view == Carve(old(view), i, size + HEADER)
      ensures Intact(old(data), data, Live(view), HEADER)
    {
      hide Intact, Live, Linked, Carve, Layout;
      ghost var h, v, end := hdr, view, End();
      CarveLinked(h, v, end, i, size + HEADER);
      CarveLayout(v, i, size + HEADER, end);
      CarveIntact(data, v, end, i, size + HEADER);
      var ptr2 := ptr + HEADER + size;
      SetHeader(ptr2, Header(false, hdr[ptr].next, ptr));
      SetHeader(ptr, Header(true, ptr2, hdr[ptr].prev));
      if hdr[ptr2].next != memSize + HEADER {
        SetHeader(hdr[ptr2].next, hdr[hdr[ptr2].next].(prev := ptr2));
      }
      assert hdr == CarveHeaders(h, ptr, size + HEADER, end);
      view := Carve(v, i, size + HEADER);
    }

    /** The branch of rt_malloc that hands out the block found as a whole. */
    method UseWhole(ptr: nat, ghost i: nat)
      requires Layout(view, End()) && Linked(hdr, view, End()) && |data| == End() + HEADER
      requires i < |view| && ptr == view[i].addr && !view[i].used
      modifies this`hdr, this`usedMem, this`view, this`data
      ensures Layout(view, End()) && Linked(hdr, view, End()) && |data| == End() + HEADER
      ensures view == Claim(old(view), i)
      ensures usedMem == old(usedMem) + view[i].size
      ensures Intact(old(data), data, old(Live(view)), HEADER)
    {
      ghost var h, v, end := hdr, view, End();
      NextInfo(h, v, end, i);
      FlagLinked(h, v, end, i, true);
      ClaimLayout(v, i, end);
      HeaderRoom(v, end, i);
      ScribbleIntact(data, v, 0, end, HEADER, i, ptr);
      SetHeader(ptr, hdr[ptr].(used := true));
      usedMem := usedMem + (hdr[ptr].next - ptr);
      view := Claim(v, i);
    }

    /** rt_malloc once a block is found: take it and account for it. */
    method TakeBlock(ptr: nat, size: nat, ghost i: nat)
      requires Layout(view, End()) && Linked(hdr, view, End()) && |data| == End() + HEADER
      requires i < |view| && ptr == view[i].addr && !view[i].used
      requires MIN_SIZE <= size <= Payload(view[i]) && size % ALIGN == 0
      modifies this`hdr, this`usedMem, this`maxMem, this`view, this`data
      ensures Layout(view, End()) && Linked(hdr, view, End()) && |data| == End() + HEADER
      ensures view == Allocated(old(view), i, size) && HandedOut(old(view), view, i, size, old(usedMem), usedMem)
      ensures usedMem == old(usedMem) + view[i].size
      ensures maxMem == if usedMem > old(maxMem) then usedMem else old(maxMem)
      ensures Intact(old(data), data, old(Live(view)), HEADER)
    {
      NextInfo(hdr, view, End(), i);
      AllocatedLive(view, i, size, End());
      AllocatedHandsOut(view, i, size, usedMem);
      if hdr[ptr].next - (ptr + HEADER) >= size + HEADER + MIN_SIZE {
        SplitBlock(ptr, size, i);
        usedMem := usedMem + (size + HEADER);
      } else {
        UseWhole(ptr, i);
      }
      if maxMem < usedMem { maxMem := usedMem; }
    }

    /** TakeBlock, and lfree moved up when it was the block taken. */
    method Occupy(ptr: nat, size: nat, ghost i: nat)
      requires Valid() && i < |view| && ptr == view[i].addr && !view[i].used
      requires MIN_SIZE <= size <= Payload(view[i]) && size % ALIGN == 0
      modifies this
      ensures Valid() && memSize == old(memSize)
      ensures view == Allocated(old(view), i, size) && view[i].addr == ptr
      ensures HandedOut(old(view), view, i, size, old(usedMem), usedMem)
      ensures maxMem == if usedMem > old(maxMem) then usedMem else old(maxMem)
      ensures Intact(old(data), data, old(Live(view)), HEADER)
    {
      AllocatedCoalesced(view, i, size);
      AllocatedBytes(view, i, size);
      AllocatedBelow(view, i, size, lfree, End());
      TakeBlock(ptr, size, i);
      if ptr == lfree {
        AdvanceLowest(i);
      }
    }

    /** rt_malloc. */
    method Malloc(size: nat) returns (p: Ptr, ghost i: nat)
      requires Valid() && size < WORD
      modifies this
      ensures Valid() && memSize == old(memSize)
      ensures p.Null? ==> unchanged(this)
      ensures p.Null? ==> size == 0 || AlignUp(size) > memSize || NoFit(view, Need(size), memSize - Need(size))
      ensures p.At? ==> size != 0 && AlignUp(size) <= memSize
      ensures p.At? ==> FirstFit(old(view), i, Need(size), memSize - Need(size))
      ensures p.At? ==> view == Allocated(old(view), i, Need(size)) && p.off == view[i].addr + HEADER
      ensures p.At? ==> HandedOut(old(view), view, i, Need(size), old(usedMem), usedMem)
      ensures p.At? ==> Live(view) == old(Live(view)) + {view[i]}
      ensures maxMem == if usedMem > old(maxMem) then usedMem else old(maxMem)
      ensures Intact(old(data), data, old(Live(view)), HEADER)
    {
      i := 0;
      if size == 0 { return Null, i; }
      var n := AlignUp(size);
      if n > memSize { return Null, i; }
      n := if n < MIN_SIZE then MIN_SIZE else n;
      var found, ptr;
      found, ptr, i := Search(n);
      if !found { return Null, i; }
      AllocatedLive(view, i, n, End());
      Occupy(ptr, n, i);
      p := At(ptr + HEADER);
    }

    /** The caller's pointer: NULL, outside the heap, or the payload of live block i. */
    ghost predicate Owns(rmem: Ptr, i: nat)
      reads this
    {
      rmem.At? && 0 <= rmem.off < End() ==> i < |view| && view[i].used && rmem.off == view[i].addr + HEADER
    }

    /** rt_free. */
    method Free(rmem: Ptr, ghost i: nat)
      requires Valid() && Owns(rmem, i)
      modifies this
      ensures Valid() && memSize == old(memSize) && maxMem == old(maxMem)
      ensures rmem.Null? || rmem.off < 0 || rmem.off >= End() ==> unchanged(this)
      ensures rmem.At? && 0 <= rmem.off < End() ==> view == Release(old(view), i) && FreedAt(old(view), view, i)
      ensures rmem.At? && 0 <= rmem.off < End() ==> i < |old(view)| && usedMem == old(usedMem) - old(view)[i].size
      ensures rmem.At? && 0 <= rmem.off < End() ==> Live(view) == old(Live(view)) - {old(view)[i]}
      ensures Intact(old(data), data, Live(view), HEADER)
    {
      if rmem.Null? { return; }
      if rmem.off < 0 || rmem.off >= memSize + HEADER { return; }
      FreeBlock(rmem.off - HEADER, i);
    }

    /** rt_free right after rt_malloc: layout, used flags, accounting, lfree and every live
        payload are as before. */
    method MallocThenFree(size: nat) returns (p: Ptr)
      requires Valid() && size < WORD
      modifies this
      ensures Valid() && memSize == old(memSize)
      ensures view == old(view) && lfree == old(lfree) && usedMem == old(usedMem)
      ensures Intact(old(data), data, Live(view), HEADER)
    {
      hide Intact, Live, Tiles, Linked, Coalesced, UsedBytes, NoFit, Allocated, Release;
      ghost var v, d, l := view, data, lfree;
      ghost var i;
      p, i := Malloc(size);
      ghost var e := data;
      if p.At? {
        AllocatedBlock(v, i, Need(size), End());
        ReleaseUndoesAllocated(v, i, Need(size));
        Free(p, i);
        LowestUnique(v, l, lfree, End());
      }
      IntactSelf(e, Live(v), HEADER);
      IntactThrough(d, e, data, Live(v), Live(v), HEADER);
    }

    /** rt_free past its pointer checks. */
    method FreeBlock(mem: nat, ghost i: nat)
      requires Valid() && i < |view| && mem == view[i].addr && view[i].used
      modifies this
      ensures Valid() && memSize == old(memSize) && maxMem == old(maxMem)
      ensures view == Release(old(view), i) && FreedAt(old(view), view, i)
      ensures usedMem == old(usedMem) - old(view)[i].size
      ensures Live(view) == old(Live(view)) - {old(view)[i]}
      ensures Intact(old(data), data, Live(view), HEADER)
    {
      hide Intact, Live, Linked, Tiles, Coalesced, UsedBytes, FreedAt;
      ReleaseFrees(view, i, 0, End(), HEADER);
      ReleaseCoalesced(view, i);
      ReleaseBytes(view, i, HEADER);
      ghost var d := data;
      MarkFree(mem, i);
      ghost var e := data;
      usedMem := usedMem - (hdr[mem].next - mem);
      PlugHoles(mem, i);
      IntactThrough(d, e, data, Live(view), Live(view), HEADER);
    }

    /** The part of rt_free before plug_holes: clear the flag, lower lfree. */
    method MarkFree(mem: nat, ghost i: nat)
      requires Woven() && i < |view| && mem == view[i].addr && view[i].used
      modifies this`hdr, this`lfree, this`view, this`data
      ensures Woven() && view == old(view)[i := old(view)[i].(used := false)]
      ensures mem in hdr && hdr[mem].next == view[i].End()
      ensures Live(view) == old(Live(view)) - {old(view)[i]}
      ensures Intact(old(data), data, Live(view), HEADER)
    {
      ghost var v, end := view, End();
      NextInfo(hdr, v, end, i);
      FlagLinked(hdr, v, end, i, false);
      LiveFlag(v, 0, end, HEADER, i);
      LowestFreed(v, i, lfree, end);
      HeaderRoom(v, end, i);
      ScribbleIntact(data, v, 0, end, HEADER, i, mem);
      SetHeader(mem, hdr[mem].(used := false));
      if mem < lfree { lfree := mem; }
      view := v[i := v[i].(used := false)];
    }

    /** The shrinking branch of rt_realloc up to plug_holes. */
    method SplitOff(mem: nat, newsize: nat, ghost i: nat)
      requires Woven() && i < |view| && mem == view[i].addr && view[i].used
      requires newsize > 0 && newsize % ALIGN == 0 && newsize + HEADER < Payload(view[i])
      modifies this`hdr, this`lfree, this`view, this`data
      ensures Woven() && view == Carve(old(view), i, newsize + HEADER)
      ensures Intact(old(data), data, Live(view), HEADER)
    {
      LowestSplit(view, i, newsize + HEADER, lfree, End());
      SplitBlock(mem, newsize, i);
      var mem2 := mem + HEADER + newsize;
      if mem2 < lfree { lfree := mem2; }
    }

    /** The shrinking branch of rt_realloc. */
    method SplitUsed(mem: nat, newsize: nat, ghost i: nat)
      requires Valid() && i < |view| && mem == view[i].addr && view[i].used
      requires newsize > 0 && newsize % ALIGN == 0 && newsize + HEADER + MIN_SIZE < Payload(view[i])
      modifies this
      ensures Valid() && memSize == old(memSize) && maxMem == old(maxMem)
      ensures view == Shrink(old(view), i, newsize + HEADER) && ShrunkAt(old(view), view, i, newsize + HEADER)
      ensures usedMem == old(usedMem) - (old(view)[i].size - newsize - HEADER)
      ensures Intact(old(data), data, Live(view), HEADER)
    {
      hide Intact, Live, Coalesced, Linked, UsedBytes, Tiles, Shrink, LowestFree, ShrunkAt;
      ShrinkCuts(view, i, newsize + HEADER, 0, End(), HEADER);
      ghost var v, n := view, newsize + HEADER;
      ShrinkBytes(v, i, n, HEADER);
      ShrinkCoalesced(v, i, n);
      NextInfo(hdr, v, End(), i);
      usedMem := usedMem - (hdr[mem].next - mem - HEADER - newsize);
      ghost var d := data;
      SplitOff(mem, newsize, i);
      ghost var e := data;
      PlugHoles(mem + HEADER + newsize, i + 1);
      ShrinkByPlugging(v, i, n);
      IntactThrough(d, e, data, Live(view), Live(view), HEADER);
    }

    /** The memcpy from live block b to live block c. */
    method CopyPayload(src: nat, dst: nat, n: nat, ghost b: Block, ghost c: Block)
      requires Valid() && b in Live(view) && c in Live(view) && b != c
      requires src == b.addr + HEADER && dst == c.addr + HEADER && n <= Payload(b) && n <= Payload(c)
      modifies this`data
      ensures Valid() && Carried(old(data), data, src, dst, n)
      ensures Intact(old(data), data, Live(view) - {c}, HEADER)
    {
      hide Intact, Live, Coalesced, Linked, UsedBytes, Tiles;
      LiveBound(view, 0, End(), HEADER, b);
      LiveBound(view, 0, End(), HEADER, c);
      CopyIntact(data, view, 0, End(), HEADER, b, c, n);
      data := Copy(data, dst, src, n);
    }

    /** Copy n bytes from live block i to live block c, then free block i. */
    method Relocate(src: nat, dst: nat, n: nat, ghost i: nat, ghost c: Block)
      requires Valid() && i < |view| && view[i].used && src == view[i].addr + HEADER
      requires dst == c.addr + HEADER && c in Live(view) && c != view[i]
      requires n <= Payload(view[i]) && n <= Payload(c)
      modifies this
      ensures Valid() && memSize == old(memSize) && maxMem == old(maxMem)
      ensures view == Release(old(view), i) && Live(view) == old(Live(view)) - {old(view)[i]}
      ensures Carried(old(data), data, src, dst, n)
      ensures Intact(old(data), data, Live(view) - {c}, HEADER)
    {
      hide Intact, Live, Coalesced, Release, Linked, UsedBytes, Tiles, Carried;
      ghost var w, d := view, data;
      LiveAt(w, i);
      LiveBound(w, 0, End(), HEADER, c);
      CopyPayload(src, dst, n, view[i], c);
      ghost var e := data;
      FreeBlock(src - HEADER, i);
      CarriedIntact(d, e, data, c, src, n, Live(view), HEADER);
      RelocatedIntact(d, e, data, Live(w), Live(view), w[i], c, HEADER);
    }

    /** The moving branch of rt_realloc: allocate, copy, free. */
    method Move(rmem: Ptr, size: nat, newsize: nat, ghost i: nat) returns (p: Ptr, ghost j: nat)
      requires Valid() && rmem.At? && 0 <= rmem.off < End() && Owns(rmem, i)
      requires size == Payload(view[i]) && 0 < newsize <= memSize && newsize % ALIGN == 0
      modifies this
      ensures Valid() && memSize == old(memSize)
      ensures p.Null? ==> unchanged(this) && NoFit(view, Need(newsize), memSize - Need(newsize))
      ensures p.At? ==> Moved(old(view), old(data), view, data, i, j, newsize, memSize, p.off)
    {
      hide Intact, Live, Linked, Tiles, Coalesced, UsedBytes, Carried, LowestFree, NoFit, Release;
      ghost var v, d, end := view, data, End();
      LiveAt(v, i);
      LiveBound(v, 0, end, HEADER, v[i]);
      p, j := Malloc(newsize);
      if p.Null? { return; }
      ghost var e, k := data, Shifted(v, j, Need(newsize), i);
      ShiftedBlock(v, i, j, Need(newsize), end);
      TakenIsNew(v, j, Need(newsize), end);
      var n := if size < newsize then size else newsize;
      ghost var c, s := view[j], Live(view);
      Relocate(rmem.off, p.off, n, k, c);
      IntactCarried(d, e, data, v[i], p.off, n, Live(v), HEADER);
      MovedIntact(d, e, data, Live(v), s, Live(view), v[i], c, HEADER);
    }

    /** rt_realloc. */
    method Realloc(rmem: Ptr, newsize: nat, ghost i: nat) returns (p: Ptr, ghost j: nat)
      requires Valid() && Owns(rmem, i) && newsize < WORD
      modifies this
      ensures Valid() && memSize == old(memSize)
      ensures Reallocated(old(view), old(data), view, data, i, j, AlignUp(newsize), memSize, rmem, p)
    {
      j := 0;
      var n := AlignUp(newsize);
      if n > memSize { return Null, j; }
      if n == 0 {
        Free(rmem, i);
        return Null, j;
      }
      if rmem.Null? {
        p, j := Malloc(n);
        return;
      }
      if rmem.off < 0 || rmem.off >= memSize + HEADER { return rmem, j; }
      p, j := ReallocLive(rmem, n, i);
    }

    ghost predicate Inside(rmem: Ptr)
      reads this
    {
      rmem.At? && 0 <= rmem.off < End()
    }

    /** rt_realloc on a live block. */
    method ReallocLive(rmem: Ptr, n: nat, ghost i: nat) returns (p: Ptr, ghost j: nat)
      requires Valid() && Inside(rmem) && Owns(rmem, i) && 0 < n <= memSize && n % ALIGN == 0
      modifies this
      ensures Valid() && memSize == old(memSize)
      ensures Resized(old(view), old(data), view, data, i, j, n, memSize, rmem, p)
      ensures p.Null? ==> unchanged(this)
    {
      j := 0;
      NextInfo(hdr, view, End(), i);
      var mem := rmem.off - HEADER;
      var size := hdr[mem].next - mem - HEADER;
      if size == n { return rmem, j; }
      if n + HEADER + MIN_SIZE < size {
        SplitUsed(mem, n, i);
        return rmem, j;
      }
      p, j := Move(rmem, size, n, i);
    }
  }

  ghost function InitHeaders(memSize: nat): map<nat, Header> {
    map[0 := Header(false, memSize + HEADER, 0), memSize + HEADER := Header(true, memSize + HEADER, memSize + HEADER)]
  }

  // ----- what callers may rely on -----

  /** The offset reached by following `next` k times from offset 0. */
  ghost function Walk(h: map<nat, Header>, k: nat): nat {
    Probe(h, 0, k)
  }

  /** The walk visits the view in address order and ends at heap_end: the headers
      met on the way cover the heap without gap or overlap. */
  lemma {:induction false} WalkTilesHeap(h: map<nat, Header>, v: seq<Block>, end: nat, k: nat)
    requires Layout(v, end) && Linked(h, v, end) && k <= |v|
    ensures Walk(h, k) == AddrAt(v, k, end)
    ensures k < |v| ==> v[k].addr in h && h[v[k].addr].used == v[k].used
  {
    if k > 0 {
      WalkTilesHeap(h, v, end, k - 1);
      NextInfo(h, v, end, k - 1);
    }
    if k < |v| { NextInfo(h, v, end, k); }
  }

  lemma AllocatedBlock(v: seq<Block>, i: nat, need: nat, end: nat)
    requires Layout(v, end) && i < |v| && Payload(v[i]) >= need
    ensures var w := Allocated(v, i, need); i < |w| && w[i].used && w[i].addr == v[i].addr && v[i].addr + HEADER < end
  {
    OrderedAll(v, 0, end, HEADER);
  }

  lemma ReleaseUndoesAllocated(v: seq<Block>, i: nat, need: nat)
    requires Coalesced(v) && i < |v| && !v[i].used && Payload(v[i]) >= need
    ensures Release(Allocated(v, i, need), i) == v
  {
    if Payload(v[i]) >= need + HEADER + MIN_SIZE {
      ReleaseUndoesCarve(v, i, need + HEADER);
    } else {
      ReleaseUndoesClaim(v, i);
    }
  }

  /** rt_free right after rt_malloc restores the layout, every used flag, the
      accounting and lfree. */
  lemma FreeUndoesMalloc(v: seq<Block>, i: nat, need: nat, bound: int, end: nat, l: int, m: int)
    requires Layout(v, end) && Coalesced(v) && FirstFit(v, i, need, bound) && LowestFree(v, l, end)
    requires LowestFree(Release(Allocated(v, i, need), i), m, end)
    ensures Release(Allocated(v, i, need), i) == v && l == m
  {
    ReleaseUndoesAllocated(v, i, need);
    LowestUnique(v, l, m, end);
  }

  /** The strict bound of the search costs exactly one case: the last block of the
      heap when it fits the request exactly. In every other case NULL means that
      no free block is large enough. */
  lemma OnlyExactTailIsMissed(v: seq<Block>, need: nat, memSize: nat)
    requires Layout(v, memSize + HEADER)
    ensures NoFit(v, need, memSize - need) <==>
      forall i :: 0 <= i < |v| && !v[i].used && Payload(v[i]) >= need ==> i == |v| - 1 && Payload(v[i]) == need
  {
    OrderedAll(v, 0, memSize + HEADER, HEADER);
    forall i | 0 <= i < |v| && !v[i].used && Payload(v[i]) >= need
      ensures v[i].addr >= memSize - need <==> i == |v| - 1 && Payload(v[i]) == need
    {
      if i < |v| - 1 {
        assert v[i].End() <= v[|v| - 1].addr < memSize + HEADER;
      }
    }
  }

  /** The block handed out holds the requested bytes iff rounding the request up
      did not wrap around 32 bits; a request within three bytes of 2^32 is
      rounded to zero and served with a minimum-size block. */
  lemma RequestHonoured(v: seq<Block>, i: nat, size: nat, memSize: nat)
    requires 0 < size < WORD && Layout(v, memSize + HEADER) && memSize + 2 * HEADER < WORD
    requires i < |v| && !v[i].used && Payload(v[i]) >= Need(size)
    ensures Payload(Allocated(v, i, Need(size))[i]) >= size <==> size + ALIGN <= WORD
  {
    OrderedAll(v, 0, memSize + HEADER, HEADER);
  }

  /** The n-th offset the search visits from `start`. */
  ghost function Probe(h: map<nat, Header>, start: nat, n: nat): nat {
    if n == 0 then start
    else var p := Probe(h, start, n - 1); if p in h then h[p].next else p
  }

  /** Why init must leave MIN_SIZE bytes: in a smaller heap the request, raised to
      MIN_SIZE, exceeds mem_size_aligned, the unsigned bound wraps, and the search
      visits heap_end for ever without a fit. Requests that round up to 0 are no
      exception. Nothing is ever handed out, so the heap stays as init left it. */
  lemma {:induction false} TinyHeapSearchNeverStops(memSize: nat, size: nat, n: nat)
    requires size < WORD && memSize < MIN_SIZE && 0 < size && AlignUp(size) <= memSize
    ensures var h, p := InitHeaders(memSize), Probe(InitHeaders(memSize), 0, n);
      && p in h
      && p < (memSize - Need(size)) % WORD
      && (h[p].used || h[p].next - (p + HEADER) < Need(size))
  {
    if n > 0 {
      TinyHeapSearchNeverStops(memSize, size, n - 1);
      var q := Probe(InitHeaders(memSize), 0, n - 1);
      assert q == 0 || q == memSize + HEADER by {
        assert q in InitHeaders(memSize);
      }
    }
  }
}
