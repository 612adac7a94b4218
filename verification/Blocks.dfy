/** Address-ordered views of a heap.

    Both allocators that keep a header in front of every block (mem.c and
    memheap.c) are specified by the sequence of blocks that a walk over the
    `next` links visits. A block's size counts its header. The functions below
    are what one allocator step does to that sequence.
 */
module Blocks {

  datatype Block = Block(addr: nat, size: nat, used: bool)
  {
    function End(): nat { addr + size }
  }

  /** The blocks cover [lo, hi) without gap or overlap, and each has room for
      a header of `header` bytes. */
  ghost predicate Tiles(v: seq<Block>, lo: nat, hi: nat, header: nat) {
    && |v| > 0
    && v[0].addr == lo
    && v[|v| - 1].End() == hi
    && (forall i :: 0 <= i < |v| ==> v[i].size > header)
    && (forall i, j :: 0 <= i && j == i + 1 && j < |v| ==> v[i].End() == v[j].addr)
  }

  /** No two neighbours are both free. */
  ghost predicate Coalesced(v: seq<Block>) {
    forall i, j :: 0 <= i && j == i + 1 && j < |v| ==> v[i].used || v[j].used
  }

  /** Bytes in used blocks, headers included. */
  ghost function UsedBytes(v: seq<Block>): nat {
    if v == [] then 0 else (if v[0].used then v[0].size else 0) + UsedBytes(v[1..])
  }

  /** Bytes a caller could still be given from free blocks, headers excluded. */
  ghost function FreePayload(v: seq<Block>, header: nat): int {
    if v == [] then 0 else (if v[0].used then 0 else v[0].size - header) + FreePayload(v[1..], header)
  }

  // ----- one allocator step on the view -----

  /** Block i becomes a used block of n bytes followed by a free remainder. */
  ghost function Carve(v: seq<Block>, i: nat, n: nat): seq<Block>
    requires i < |v| && n <= v[i].size
  {
    v[..i] + [Block(v[i].addr, n, true), Block(v[i].addr + n, v[i].size - n, false)] + v[i + 1..]
  }

  /** Block i becomes used as a whole. */
  ghost function Claim(v: seq<Block>, i: nat): seq<Block>
    requires i < |v|
  {
    v[i := v[i].(used := true)]
  }

  /** Blocks i and i + 1 become one block with the flag of block i. */
  ghost function MergeNext(v: seq<Block>, i: nat): seq<Block>
    requires i + 1 < |v|
  {
    v[..i] + [Block(v[i].addr, v[i].size + v[i + 1].size, v[i].used)] + v[i + 2..]
  }

  /** Merge block i with its right neighbour if that one is free. */
  ghost function PlugForward(v: seq<Block>, i: nat): seq<Block>
    requires i < |v|
  {
    if i + 1 < |v| && !v[i + 1].used then MergeNext(v, i) else v
  }

  /** Merge block i into its left neighbour if that one is free. */
  ghost function PlugBackward(v: seq<Block>, i: nat): seq<Block>
    requires i < |v|
  {
    if i > 0 && !v[i - 1].used then MergeNext(v, i - 1) else v
  }

  /** Block i is given back and merged with whichever neighbours are free. */
  ghost function Release(v: seq<Block>, i: nat): seq<Block>
    requires i < |v|
  {
    PlugBackward(PlugForward(v[i := v[i].(used := false)], i), i)
  }

  /** Used block i keeps n bytes; the rest is split off, and merged with a free
      right neighbour. */
  ghost function Shrink(v: seq<Block>, i: nat, n: nat): seq<Block>
    requires i < |v| && n <= v[i].size
  {
    PlugForward(Carve(v, i, n), i + 1)
  }

  /** Used block i takes what it needs from its free right neighbour. */
  ghost function Grow(v: seq<Block>, i: nat, n: nat): seq<Block>
    requires i + 1 < |v| && n <= v[i].size + v[i + 1].size
  {
    v[..i] + [Block(v[i].addr, n, true), Block(v[i].addr + n, v[i].size + v[i + 1].size - n, false)] + v[i + 2..]
  }

  // ----- the same steps in addresses and sizes -----

  /** Block i is used and has n bytes; a free block follows, up to where it ended before. */
  ghost predicate CutAt(v: seq<Block>, w: seq<Block>, i: nat, n: nat) {
    && i < |v| && |w| == |v| + 1 && w[..i] == v[..i] && w[i + 2..] == v[i + 1..]
    && w[i] == Block(v[i].addr, n, true)
    && !w[i + 1].used && w[i + 1].addr == w[i].End() && w[i + 1].End() == v[i].End()
  }

  /** Block i is used and keeps its size. */
  ghost predicate TakenAt(v: seq<Block>, w: seq<Block>, i: nat) {
    && i < |v| && |w| == |v| && w[..i] == v[..i] && w[i + 1..] == v[i + 1..]
    && w[i] == Block(v[i].addr, v[i].size, true)
  }

  ghost predicate FreeAt(v: seq<Block>, i: int) {
    0 <= i < |v| && !v[i].used
  }

  /** Where block i was, there is one free block from the start of its free left neighbour, if it
      has one, to the end of its free right neighbour. */
  ghost predicate FreedAt(v: seq<Block>, w: seq<Block>, i: nat) {
    && i < |v|
    && var k := if FreeAt(v, i - 1) then i - 1 else i;
    && var last := if FreeAt(v, i + 1) then i + 1 else i;
    && |w| == |v| - (last - k) && w[..k] == v[..k] && w[k + 1..] == v[last + 1..]
    && !w[k].used && w[k].addr == v[k].addr && w[k].End() == v[last].End()
  }

  /** Block i is used and has n bytes; behind it is one free block, up to where it ended before
      or to the end of its free right neighbour. */
  ghost predicate ShrunkAt(v: seq<Block>, w: seq<Block>, i: nat, n: nat) {
    && i < |v|
    && var last := if FreeAt(v, i + 1) then i + 1 else i;
    && |w| == |v| + 1 - (last - i) && w[..i] == v[..i] && w[i + 2..] == v[last + 1..]
    && w[i] == Block(v[i].addr, n, true)
    && !w[i + 1].used && w[i + 1].addr == w[i].End() && w[i + 1].End() == v[last].End()
  }

  lemma CarveCuts(v: seq<Block>, i: nat, n: nat)
    requires i < |v| && n <= v[i].size
    ensures CutAt(v, Carve(v, i, n), i, n)
  {
  }

  lemma ClaimTakes(v: seq<Block>, i: nat)
    requires i < |v|
    ensures TakenAt(v, Claim(v, i), i)
  {
  }

  /** A block given back melts with its free neighbours, whatever there are of them. */
  lemma ReleaseFrees(v: seq<Block>, i: nat, lo: nat, hi: nat, header: nat)
    requires Tiles(v, lo, hi, header) && i < |v|
    ensures FreedAt(v, Release(v, i), i)
  {
  }

  lemma ShrinkCuts(v: seq<Block>, i: nat, n: nat, lo: nat, hi: nat, header: nat)
    requires Tiles(v, lo, hi, header) && i < |v| && n <= v[i].size
    ensures ShrunkAt(v, Shrink(v, i, n), i, n)
  {
  }

  /** Growing into the free right neighbour is a cut of both together. */
  lemma GrowShrinks(v: seq<Block>, i: nat, n: nat, lo: nat, hi: nat, header: nat)
    requires Tiles(v, lo, hi, header) && FreeAt(v, i + 1) && n <= v[i].size + v[i + 1].size
    ensures ShrunkAt(v, Grow(v, i, n), i, n)
  {
  }

  // ----- what every view satisfies -----

  lemma {:induction false} Ordered(v: seq<Block>, lo: nat, hi: nat, header: nat, i: nat, j: nat)
    requires Tiles(v, lo, hi, header) && i < j < |v|
    ensures v[i].End() <= v[j].addr
    decreases j
  {
    if j > i + 1 {
      Ordered(v, lo, hi, header, i, j - 1);
    }
  }

  lemma OrderedAll(v: seq<Block>, lo: nat, hi: nat, header: nat)
    requires Tiles(v, lo, hi, header)
    ensures forall i, j :: 0 <= i < j < |v| ==> v[i].End() <= v[j].addr
    ensures forall i :: 0 <= i < |v| ==> lo <= v[i].addr && v[i].End() <= hi
  {
    forall i, j | 0 <= i < j < |v|
      ensures v[i].End() <= v[j].addr
    {
      Ordered(v, lo, hi, header, i, j);
    }
    forall i | 0 <= i < |v|
      ensures lo <= v[i].addr && v[i].End() <= hi
    {
      if i > 0 { Ordered(v, lo, hi, header, 0, i); }
      if i < |v| - 1 { Ordered(v, lo, hi, header, i, |v| - 1); }
    }
  }

  lemma CarveTiles(v: seq<Block>, lo: nat, hi: nat, header: nat, i: nat, n: nat)
    requires Tiles(v, lo, hi, header) && i < |v| && header < n && n + header < v[i].size
    ensures Tiles(Carve(v, i, n), lo, hi, header)
  {
  }

  lemma ClaimTiles(v: seq<Block>, lo: nat, hi: nat, header: nat, i: nat)
    requires Tiles(v, lo, hi, header) && i < |v|
    ensures Tiles(Claim(v, i), lo, hi, header)
  {
  }

  lemma MergeTiles(v: seq<Block>, lo: nat, hi: nat, header: nat, i: nat)
    requires Tiles(v, lo, hi, header) && i + 1 < |v|
    ensures Tiles(MergeNext(v, i), lo, hi, header)
  {
  }

  /** Giving a block back leaves no two free neighbours. */
  lemma ReleaseCoalesced(v: seq<Block>, i: nat)
    requires Coalesced(v) && i < |v| && v[i].used
    ensures Coalesced(Release(v, i))
  {
  }

  lemma CarveCoalesced(v: seq<Block>, i: nat, n: nat)
    requires Coalesced(v) && i < |v| && !v[i].used && n <= v[i].size
    ensures Coalesced(Carve(v, i, n))
  {
  }

  lemma ClaimCoalesced(v: seq<Block>, i: nat)
    requires Coalesced(v) && i < |v|
    ensures Coalesced(Claim(v, i))
  {
  }

  lemma ShrinkCoalesced(v: seq<Block>, i: nat, n: nat)
    requires Coalesced(v) && i < |v| && v[i].used && n <= v[i].size
    ensures Coalesced(Shrink(v, i, n))
  {
  }

  lemma GrowCoalesced(v: seq<Block>, i: nat, n: nat)
    requires Coalesced(v) && i + 1 < |v| && !v[i + 1].used && n <= v[i].size + v[i + 1].size
    ensures Coalesced(Grow(v, i, n))
  {
  }

  // ----- freeing undoes allocating -----

  /** In a coalesced view a freed block merges back into exactly the free block
      it was carved from. */
  lemma ReleaseUndoesCarve(v: seq<Block>, i: nat, n: nat)
    requires Coalesced(v) && i < |v| && !v[i].used && n <= v[i].size
    ensures Release(Carve(v, i, n), i) == v
  {
    var c := Carve(v, i, n);
    var a := c[i := c[i].(used := false)];
    assert PlugForward(a, i) == v;
  }

  lemma ReleaseUndoesClaim(v: seq<Block>, i: nat)
    requires Coalesced(v) && i < |v| && !v[i].used
    ensures Release(Claim(v, i), i) == v
  {
    var c := Claim(v, i);
    var a := c[i := c[i].(used := false)];
    assert a == v;
  }

  /** Shrinking back undoes growing in place. */
  lemma ShrinkUndoesGrow(v: seq<Block>, i: nat, n: nat)
    requires Coalesced(v) && i + 1 < |v| && v[i].used && !v[i + 1].used && v[i].End() == v[i + 1].addr
    requires v[i].size <= n <= v[i].size + v[i + 1].size
    ensures Shrink(Grow(v, i, n), i, v[i].size) == v
  {
    var g := Grow(v, i, n);
    var c := Carve(g, i, v[i].size);
    assert c[i + 2] == g[i + 1];
    assert PlugForward(c, i + 1) == v;
  }

  // ----- byte accounting -----

  lemma {:induction false} UsedConcat(a: seq<Block>, b: seq<Block>)
    ensures UsedBytes(a + b) == UsedBytes(a) + UsedBytes(b)
  {
    if a == [] {
      assert a + b == b;
    } else {
      assert (a + b)[1..] == a[1..] + b;
      UsedConcat(a[1..], b);
    }
  }

  lemma {:induction false} FreeConcat(a: seq<Block>, b: seq<Block>, header: nat)
    ensures FreePayload(a + b, header) == FreePayload(a, header) + FreePayload(b, header)
  {
    if a == [] {
      assert a + b == b;
    } else {
      assert (a + b)[1..] == a[1..] + b;
      FreeConcat(a[1..], b, header);
    }
  }

  /** Replacing the window [i, j) changes both sums by what the window changes. */
  lemma Splice(v: seq<Block>, i: nat, j: nat, mid: seq<Block>, header: nat)
    requires i <= j <= |v|
    ensures UsedBytes(v[..i] + mid + v[j..]) == UsedBytes(v) - UsedBytes(v[i..j]) + UsedBytes(mid)
    ensures FreePayload(v[..i] + mid + v[j..], header)
         == FreePayload(v, header) - FreePayload(v[i..j], header) + FreePayload(mid, header)
  {
    assert v == v[..i] + v[i..j] + v[j..];
    UsedConcat(v[..i] + v[i..j], v[j..]);
    UsedConcat(v[..i], v[i..j]);
    FreeConcat(v[..i] + v[i..j], v[j..], header);
    FreeConcat(v[..i], v[i..j], header);
    UsedConcat(v[..i] + mid, v[j..]);
    UsedConcat(v[..i], mid);
    FreeConcat(v[..i] + mid, v[j..], header);
    FreeConcat(v[..i], mid, header);
  }

  ghost function One(b: Block, header: nat): (r: (nat, int))
    ensures r == (UsedBytes([b]), FreePayload([b], header))
  {
    if b.used then (b.size, 0) else (0, b.size - header)
  }

  lemma Two(b: Block, c: Block, header: nat)
    ensures UsedBytes([b, c]) == One(b, header).0 + One(c, header).0
    ensures FreePayload([b, c], header) == One(b, header).1 + One(c, header).1
  {
    assert [b, c] == [b] + [c];
    UsedConcat([b], [c]);
    FreeConcat([b], [c], header);
  }

  lemma CarveBytes(v: seq<Block>, i: nat, n: nat, header: nat)
    requires i < |v| && n <= v[i].size
    ensures UsedBytes(Carve(v, i, n)) == UsedBytes(v) - One(v[i], header).0 + n
    ensures FreePayload(Carve(v, i, n), header)
         == FreePayload(v, header) - One(v[i], header).1 + (v[i].size - n - header)
  {
    var x, y := Block(v[i].addr, n, true), Block(v[i].addr + n, v[i].size - n, false);
    assert v[i..i + 1] == [v[i]];
    Splice(v, i, i + 1, [x, y], header);
    Two(x, y, header);
  }

  /** Setting the flag of block i moves its bytes from one sum to the other. */
  lemma FlagBytes(v: seq<Block>, i: nat, used: bool, header: nat)
    requires i < |v|
    ensures var w := v[i := v[i].(used := used)];
            && UsedBytes(w) == UsedBytes(v) - One(v[i], header).0 + One(w[i], header).0
            && FreePayload(w, header) == FreePayload(v, header) - One(v[i], header).1 + One(w[i], header).1
  {
    var b := v[i].(used := used);
    assert v[i..i + 1] == [v[i]];
    assert v[i := b] == v[..i] + [b] + v[i + 1..];
    Splice(v, i, i + 1, [b], header);
  }

  /** Merging two free blocks frees one header. */
  lemma MergeBytes(v: seq<Block>, i: nat, header: nat)
    requires i + 1 < |v| && !v[i].used && !v[i + 1].used
    ensures UsedBytes(MergeNext(v, i)) == UsedBytes(v)
    ensures FreePayload(MergeNext(v, i), header) == FreePayload(v, header) + header
  {
    var b := Block(v[i].addr, v[i].size + v[i + 1].size, false);
    assert v[i..i + 2] == [v[i], v[i + 1]];
    Splice(v, i, i + 2, [b], header);
    Two(v[i], v[i + 1], header);
  }

  lemma ReleaseBytes(v: seq<Block>, i: nat, header: nat)
    requires i < |v| && v[i].used
    ensures UsedBytes(Release(v, i)) == UsedBytes(v) - v[i].size
    ensures FreePayload(Release(v, i), header) == FreePayload(v, header) + v[i].size - header
              + (if i + 1 < |v| && !v[i + 1].used then header else 0)
              + (if i > 0 && !v[i - 1].used then header else 0)
  {
    var a := v[i := v[i].(used := false)];
    FlagBytes(v, i, false, header);
    if i + 1 < |a| && !a[i + 1].used { MergeBytes(a, i, header); }
    var b := PlugForward(a, i);
    if i > 0 && !b[i - 1].used { MergeBytes(b, i - 1, header); }
  }

  lemma ShrinkBytes(v: seq<Block>, i: nat, n: nat, header: nat)
    requires i < |v| && v[i].used && n <= v[i].size
    ensures UsedBytes(Shrink(v, i, n)) == UsedBytes(v) - v[i].size + n
    ensures FreePayload(Shrink(v, i, n), header) == FreePayload(v, header) + v[i].size - n - header
              + (if i + 1 < |v| && !v[i + 1].used then header else 0)
  {
    CarveBytes(v, i, n, header);
    var c := Carve(v, i, n);
    if i + 2 < |c| && !c[i + 2].used { MergeBytes(c, i + 1, header); }
  }

  lemma GrowBytes(v: seq<Block>, i: nat, n: nat, header: nat)
    requires i + 1 < |v| && v[i].used && !v[i + 1].used && n <= v[i].size + v[i + 1].size
    ensures UsedBytes(Grow(v, i, n)) == UsedBytes(v) - v[i].size + n
    ensures FreePayload(Grow(v, i, n), header) == FreePayload(v, header) + v[i].size - n
  {
    var x := Block(v[i].addr, n, true);
    var y := Block(v[i].addr + n, v[i].size + v[i + 1].size - n, false);
    assert v[i..i + 2] == [v[i], v[i + 1]];
    Splice(v, i, i + 2, [x, y], header);
    Two(v[i], v[i + 1], header);
    Two(x, y, header);
  }

  /** Used blocks never hold more than the whole pool. */
  lemma {:induction false} UsedBound(v: seq<Block>, lo: nat, hi: nat, header: nat)
    requires Tiles(v, lo, hi, header)
    ensures UsedBytes(v) <= hi - lo
  {
    if |v| > 1 {
      UsedBound(v[1..], v[1].addr, hi, header);
    }
  }

  // ----- live blocks and their bytes -----

  /** The blocks callers hold. */
  ghost function Live(v: seq<Block>): set<Block> {
    set b | b in v && b.used
  }

  lemma LiveAt(v: seq<Block>, i: nat)
    requires i < |v| && v[i].used
    ensures v[i] in Live(v)
  {
  }

  lemma LiveBound(v: seq<Block>, lo: nat, hi: nat, header: nat, b: Block)
    requires Tiles(v, lo, hi, header) && b in Live(v)
    ensures lo <= b.addr && header < b.size && b.End() <= hi
  {
    OrderedAll(v, lo, hi, header);
  }

  lemma LiveClaim(v: seq<Block>, i: nat)
    requires i < |v| && !v[i].used
    ensures Live(Claim(v, i)) == Live(v) + {v[i].(used := true)}
  {
    var w := Claim(v, i);
    forall b | b in Live(v)
      ensures b in w
    {
      var k :| 0 <= k < |v| && v[k] == b;
      assert w[k] == b;
    }
    assert w[i] in w;
  }

  lemma LiveCarve(v: seq<Block>, lo: nat, hi: nat, header: nat, i: nat, n: nat)
    requires Tiles(v, lo, hi, header) && i < |v| && n <= v[i].size
    ensures Live(Carve(v, i, n)) == Live(v) - {v[i]} + {Block(v[i].addr, n, true)}
  {
    LiveWindow(v, lo, hi, header, i, i + 1, [Block(v[i].addr, n, true), Block(v[i].addr + n, v[i].size - n, false)]);
    assert v[i..i + 1] == [v[i]];
  }

  /** A block occurs once: not both inside and outside a window. */
  lemma Elsewhere(v: seq<Block>, lo: nat, hi: nat, header: nat, i: nat, j: nat, b: Block)
    requires Tiles(v, lo, hi, header) && i <= j <= |v| && b in v[i..j]
    ensures b !in v[..i] && b !in v[j..]
  {
    var k :| i <= k < j && v[k] == b;
    if b in v[..i] {
      var m :| 0 <= m < i && v[m] == b;
      Ordered(v, lo, hi, header, m, k);
    }
    if b in v[j..] {
      var m :| j <= m < |v| && v[m] == b;
      Ordered(v, lo, hi, header, k, m);
    }
  }

  /** Replacing the window [i, j) replaces its live blocks. */
  lemma LiveWindow(v: seq<Block>, lo: nat, hi: nat, header: nat, i: nat, j: nat, mid: seq<Block>)
    requires Tiles(v, lo, hi, header) && i <= j <= |v|
    ensures Live(v[..i] + mid + v[j..]) == Live(v) - Live(v[i..j]) + Live(mid)
  {
    var x, y, z := v[..i], v[i..j], v[j..];
    assert v == x + y + z;
    forall b | b in y
      ensures b !in x && b !in z
    {
      Elsewhere(v, lo, hi, header, i, j, b);
    }
    LiveParts(x, y, z);
    LiveParts(x, mid, z);
    assert Live(x) !! Live(y) && Live(z) !! Live(y);
  }

  lemma LiveParts(x: seq<Block>, y: seq<Block>, z: seq<Block>)
    ensures Live(x + y + z) == Live(x) + Live(y) + Live(z)
  {
  }

  lemma LiveMerge(v: seq<Block>, lo: nat, hi: nat, header: nat, i: nat)
    requires Tiles(v, lo, hi, header) && i + 1 < |v| && !v[i].used && !v[i + 1].used
    ensures Live(MergeNext(v, i)) == Live(v)
  {
    var mid := [Block(v[i].addr, v[i].size + v[i + 1].size, false)];
    LiveWindow(v, lo, hi, header, i, i + 2, mid);
    assert v[i..i + 2] == [v[i], v[i + 1]];
    assert Live(v[i..i + 2]) == {} == Live(mid);
  }

  lemma LiveFlag(v: seq<Block>, lo: nat, hi: nat, header: nat, i: nat)
    requires Tiles(v, lo, hi, header) && i < |v|
    ensures var a := v[i := v[i].(used := false)]; Live(a) == Live(v) - {v[i]} && Tiles(a, lo, hi, header)
  {
    var a := v[i := v[i].(used := false)];
    LiveWindow(v, lo, hi, header, i, i + 1, [a[i]]);
    assert v[i..i + 1] == [v[i]];
    assert a == v[..i] + [a[i]] + v[i + 1..];
  }

  lemma LiveGrow(v: seq<Block>, lo: nat, hi: nat, header: nat, i: nat, n: nat)
    requires Tiles(v, lo, hi, header) && i + 1 < |v| && v[i].used && !v[i + 1].used
    requires n <= v[i].size + v[i + 1].size
    ensures Live(Grow(v, i, n)) == Live(v) - {v[i]} + {Block(v[i].addr, n, true)}
  {
    var mid := [Block(v[i].addr, n, true), Block(v[i].addr + n, v[i].size + v[i + 1].size - n, false)];
    LiveWindow(v, lo, hi, header, i, i + 2, mid);
    assert v[i..i + 2] == [v[i], v[i + 1]];
    assert Live(v[i..i + 2]) == {v[i]};
  }

  type Memory = seq<bv8>

  ghost predicate SamePayload(d: Memory, e: Memory, b: Block, header: nat) {
    forall a :: b.addr + header <= a < b.End() && a < |d| && a < |e| ==> e[a] == d[a]
  }

  /** The payload bytes of the blocks in s are the same in d and e. */
  ghost predicate Intact(d: Memory, e: Memory, s: set<Block>, header: nat) {
    |e| == |d| && forall b :: b in s ==> SamePayload(d, e, b, header)
  }

  /** Memory after a header is written at a; what the header holds does not
      matter here, only where it lies. */
  function Scribble(d: Memory, a: nat, header: nat): (e: Memory)
    requires a + header <= |d|
    ensures |e| == |d|
    ensures forall k :: 0 <= k < |d| && !(a <= k < a + header) ==> e[k] == d[k]
  {
    d[..a] + seq(header, _ => 0) + d[a + header..]
  }

  /** memcpy of n bytes between regions that do not overlap. */
  function Copy(d: Memory, dst: nat, src: nat, n: nat): (e: Memory)
    requires dst + n <= |d| && src + n <= |d|
    ensures |e| == |d|
    ensures e[dst..dst + n] == d[src..src + n]
    ensures forall k :: 0 <= k < |d| && !(dst <= k < dst + n) ==> e[k] == d[k]
  {
    d[..dst] + d[src..src + n] + d[dst + n..]
  }

  /** A header at the start of a block, or inside a free block, or at the end of
      the pool overwrites no live payload. */
  lemma ScribbleIntact(d: Memory, v: seq<Block>, lo: nat, hi: nat, header: nat, k: nat, a: nat)
    requires Tiles(v, lo, hi, header) && a + header <= |d|
    requires a == hi || (k < |v| && (a == v[k].addr || (!v[k].used && v[k].addr <= a && a + header <= v[k].End())))
    ensures Intact(d, Scribble(d, a, header), Live(v), header)
  {
    OrderedAll(v, lo, hi, header);
    forall b | b in Live(v)
      ensures SamePayload(d, Scribble(d, a, header), b, header)
    {
      var m :| 0 <= m < |v| && v[m] == b;
      if a != hi {
        if m < k { assert v[m].End() <= v[k].addr; }
        if k < m { assert v[k].End() <= v[m].addr; }
      }
    }
  }

  lemma IntactSelf(d: Memory, s: set<Block>, header: nat)
    ensures Intact(d, d, s, header)
  {
  }

  lemma IntactThrough(d: Memory, e: Memory, f: Memory, s: set<Block>, t: set<Block>, header: nat)
    requires Intact(d, e, s, header) && Intact(e, f, t, header) && s <= t
    ensures Intact(d, f, s, header)
  {
  }

  lemma Apart(v: seq<Block>, lo: nat, hi: nat, header: nat, x: Block, c: Block)
    requires Tiles(v, lo, hi, header) && x in v && c in v && x != c
    ensures x.End() <= c.addr || c.End() <= x.addr
  {
    var k :| 0 <= k < |v| && v[k] == x;
    var m :| 0 <= m < |v| && v[m] == c;
    if k < m { Ordered(v, lo, hi, header, k, m); }
    if m < k { Ordered(v, lo, hi, header, m, k); }
  }

  /** n bytes at src in d are the bytes at dst in e. */
  ghost predicate Carried(d: Memory, e: Memory, src: int, dst: int, n: nat) {
    0 <= src && src + n <= |d| && 0 <= dst && dst + n <= |e| && e[dst..dst + n] == d[src..src + n]
  }

  /** Copying from live block b into live block c touches c only. */
  lemma CopyIntact(d: Memory, v: seq<Block>, lo: nat, hi: nat, header: nat, b: Block, c: Block, n: nat)
    requires Tiles(v, lo, hi, header) && b in Live(v) && c in Live(v) && b != c && hi <= |d|
    requires header + n <= b.size && header + n <= c.size
    ensures b.addr + header + n <= |d| && c.addr + header + n <= |d|
    ensures Intact(d, Copy(d, c.addr + header, b.addr + header, n), Live(v) - {c}, header)
  {
    OrderedAll(v, lo, hi, header);
    var f := Copy(d, c.addr + header, b.addr + header, n);
    forall x | x in Live(v) - {c}
      ensures SamePayload(d, f, x, header)
    {
      Apart(v, lo, hi, header, x, c);
    }
  }

  lemma CarriedIntact(d: Memory, e: Memory, f: Memory, c: Block, src: int, n: nat, s: set<Block>, header: nat)
    requires Carried(d, e, src, c.addr + header, n) && Intact(e, f, s, header) && c in s
    requires header + n <= c.size && c.End() <= |e|
    ensures Carried(d, f, src, c.addr + header, n)
  {
    var dst := c.addr + header;
    assert SamePayload(e, f, c, header);
    assert f[dst..dst + n] == e[dst..dst + n];
  }

  lemma IntactCarried(d: Memory, e: Memory, f: Memory, b: Block, dst: int, n: nat, s: set<Block>, header: nat)
    requires Intact(d, e, s, header) && b in s && header + n <= b.size && b.End() <= |d|
    requires Carried(e, f, b.addr + header, dst, n)
    ensures Carried(d, f, b.addr + header, dst, n)
  {
    var src := b.addr + header;
    assert SamePayload(d, e, b, header);
    assert e[src..src + n] == d[src..src + n];
  }

  /** Bytes kept by a copy into c and then by a release of b. */
  lemma RelocatedIntact(d: Memory, e: Memory, f: Memory, s: set<Block>, t: set<Block>, b: Block, c: Block, header: nat)
    requires Intact(d, e, s - {c}, header) && Intact(e, f, t, header) && t == s - {b}
    ensures Intact(d, f, t - {c}, header)
  {
    forall x | x in t - {c}
      ensures SamePayload(d, f, x, header)
    {
      assert x in s - {c};
    }
  }

  /** Blocks and bytes kept by allocating c, copying into it, and releasing b. */
  lemma MovedIntact(d: Memory, e: Memory, f: Memory, s: set<Block>, t: set<Block>, u: set<Block>, b: Block, c: Block,
                    header: nat)
    requires t == s + {c} && u == t - {b} && c !in s && b in s
    requires Intact(d, e, s, header) && Intact(e, f, u - {c}, header)
    ensures u == s - {b} + {c} && Intact(d, f, s - {b}, header)
  {
    forall x | x in s - {b}
      ensures SamePayload(d, f, x, header)
    {
      assert x in u - {c};
    }
  }
}
