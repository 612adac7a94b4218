/** The page allocator under the slab allocator (slab.c): a list of runs of free pages,
    sorted by address. Pages are numbered from the start of the heap.
 */
module Pages {

  datatype Run = Run(start: nat, count: nat)

  datatype MaybePage = None | Some(page: nat)

  function End(r: Run): nat {
    r.start + r.count
  }

  /** Runs are not empty, ascend, and never touch. */
  ghost predicate Coalesced(runs: seq<Run>) {
    && (forall i :: 0 <= i < |runs| ==> runs[i].count > 0)
    && (forall i, j :: 0 <= i < j < |runs| ==> End(runs[i]) < runs[j].start)
  }

  ghost predicate Covers(r: Run, p: nat) {
    r.start <= p < End(r)
  }

  ghost predicate IsFree(runs: seq<Run>, p: nat) {
    exists i :: 0 <= i < |runs| && Covers(runs[i], p)
  }

  /** n consecutive pages from s on are free. */
  ghost predicate SpanFree(runs: seq<Run>, s: nat, n: nat) {
    forall p :: s <= p < s + n ==> IsFree(runs, p)
  }

  ghost predicate Within(s: nat, n: nat, p: nat) {
    s <= p < s + n
  }

  // ----- lists of runs taken apart -----

  lemma FreeIn(a: seq<Run>, b: seq<Run>, p: nat)
    ensures IsFree(a + b, p) <==> IsFree(a, p) || IsFree(b, p)
  {
    if IsFree(a, p) {
      var i :| 0 <= i < |a| && Covers(a[i], p);
      assert (a + b)[i] == a[i];
    }
    if IsFree(b, p) {
      var i :| 0 <= i < |b| && Covers(b[i], p);
      assert (a + b)[|a| + i] == b[i];
    }
  }

  lemma FreeInOne(r: Run, p: nat)
    ensures IsFree([r], p) <==> Covers(r, p)
  {
    if Covers(r, p) { assert [r][0] == r; }
  }

  /** The list with the run at i replaced by others. */
  function Swap(runs: seq<Run>, i: nat, j: nat, mid: seq<Run>): seq<Run>
    requires i <= j <= |runs|
  {
    runs[..i] + mid + runs[j..]
  }

  lemma FreeInSwap(runs: seq<Run>, i: nat, j: nat, mid: seq<Run>, p: nat)
    requires i <= j <= |runs|
    ensures IsFree(Swap(runs, i, j, mid), p) <==> IsFree(runs[..i], p) || IsFree(mid, p) || IsFree(runs[j..], p)
    ensures IsFree(runs, p) <==> IsFree(runs[..i], p) || IsFree(runs[i..j], p) || IsFree(runs[j..], p)
  {
    FreeIn(runs[..i] + mid, runs[j..], p);
    FreeIn(runs[..i], mid, p);
    FreeIn(runs[..i] + runs[i..j], runs[j..], p);
    FreeIn(runs[..i], runs[i..j], p);
    assert runs == runs[..i] + runs[i..j] + runs[j..];
  }

  /** What comes before position i ends below, and what comes from j on starts above. */
  lemma SwapCoalesced(runs: seq<Run>, i: nat, j: nat, mid: seq<Run>)
    requires Coalesced(runs) && i <= j <= |runs| && Coalesced(mid)
    requires mid != [] && (i > 0 ==> End(runs[i - 1]) < mid[0].start) &&
      (j < |runs| ==> End(mid[|mid| - 1]) < runs[j].start)
    ensures Coalesced(Swap(runs, i, j, mid))
  {
    var s := Swap(runs, i, j, mid);
    forall a, b | 0 <= a < b < |s|
      ensures End(s[a]) < s[b].start
    {
      if a < i && b >= i {
        assert a < i - 1 ==> End(runs[a]) < runs[i - 1].start;
        assert b >= i + |mid| ==> s[b] == runs[j + (b - i - |mid|)];
        assert b < i + |mid| ==> s[b] == mid[b - i];
      } else if a >= i && a < i + |mid| && b >= i + |mid| {
        assert s[a] == mid[a - i] && s[b] == runs[j + (b - i - |mid|)];
        assert a - i < |mid| - 1 ==> End(mid[a - i]) < mid[|mid| - 1].start;
      }
    }
  }

  lemma CutCoalesced(runs: seq<Run>, i: nat)
    requires Coalesced(runs) && i < |runs|
    ensures Coalesced(Swap(runs, i, i + 1, []))
  {
  }

  /** The page after a run is not free. */
  lemma EndNotFree(runs: seq<Run>, i: nat)
    requires Coalesced(runs) && i < |runs|
    ensures !IsFree(runs, End(runs[i]))
  {
    forall j | 0 <= j < |runs|
      ensures !Covers(runs[j], End(runs[i]))
    {
      assert j < i ==> End(runs[j]) < runs[i].start;
    }
  }

  lemma SpanHas(runs: seq<Run>, s: nat, n: nat, p: nat)
    requires SpanFree(runs, s, n)
    ensures Within(s, n, p) ==> IsFree(runs, p)
  {
  }

  /** In a coalesced list a span of free pages lies inside one run. */
  lemma SpanInRun(runs: seq<Run>, s: nat, n: nat) returns (i: nat)
    requires Coalesced(runs) && n > 0 && SpanFree(runs, s, n)
    ensures i < |runs| && runs[i].start <= s && s + n <= End(runs[i])
  {
    SpanHas(runs, s, n, s);
    i :| 0 <= i < |runs| && Covers(runs[i], s);
    EndNotFree(runs, i);
    SpanHas(runs, s, n, End(runs[i]));
  }

  lemma RunIsFree(runs: seq<Run>, i: nat, p: nat)
    requires i < |runs|
    ensures Covers(runs[i], p) ==> IsFree(runs, p)
  {
  }

  // ----- the list is determined by its pages -----

  lemma LeastFree(runs: seq<Run>, p: nat)
    requires Coalesced(runs) && IsFree(runs, p)
    ensures runs != [] && runs[0].start <= p
  {
    var i :| 0 <= i < |runs| && Covers(runs[i], p);
  }

  lemma TailFree(runs: seq<Run>, p: nat)
    requires Coalesced(runs) && runs != []
    ensures IsFree(runs[1..], p) <==> IsFree(runs, p) && !Covers(runs[0], p)
    ensures Coalesced(runs[1..]) && !IsFree(runs, End(runs[0]))
  {
    FreeIn([runs[0]], runs[1..], p);
    FreeInOne(runs[0], p);
    assert runs == [runs[0]] + runs[1..];
    if IsFree(runs[1..], p) {
      var i :| 0 <= i < |runs[1..]| && Covers(runs[1..][i], p);
      assert End(runs[0]) < runs[i + 1].start;
    }
    EndNotFree(runs, 0);
  }

  /** Two lists of the same free pages are the same list. */
  lemma {:induction false} SamePagesSameRuns(a: seq<Run>, b: seq<Run>)
    requires Coalesced(a) && Coalesced(b) && forall p :: IsFree(a, p) <==> IsFree(b, p)
    ensures a == b
  {
    if a == [] {
      if b != [] { RunIsFree(b, 0, b[0].start); }
    } else {
      RunIsFree(a, 0, a[0].start);
      LeastFree(b, a[0].start);
      RunIsFree(b, 0, b[0].start);
      LeastFree(a, b[0].start);
      TailFree(a, 0);
      TailFree(b, 0);
      RunIsFree(b, 0, End(a[0]));
      RunIsFree(a, 0, End(b[0]));
      forall p
        ensures IsFree(a[1..], p) <==> IsFree(b[1..], p)
      {
        TailFree(a, p);
        TailFree(b, p);
      }
      SamePagesSameRuns(a[1..], b[1..]);
    }
  }

  // ----- the allocator -----

  class PageList {
    var runs: seq<Run>  // rt_page_list

    ghost predicate Valid()
      reads this
    {
      Coalesced(runs)
    }

    constructor ()
      ensures Valid() && runs == []
    {
      runs := [];
    }

    /** rt_page_alloc. */
    method Alloc(n: nat) returns (r: MaybePage)
      requires Valid()
      modifies this
      ensures Valid()
      ensures r == None <==> n == 0 || forall s :: !SpanFree(old(runs), s, n)
      ensures r == None ==> runs == old(runs)
      ensures r.Some? ==> SpanFree(old(runs), r.page, n) && forall s: nat :: s < r.page ==> !SpanFree(old(runs), s, n)
      ensures r.Some? ==> forall p :: IsFree(runs, p) <==> IsFree(old(runs), p) && !Within(r.page, n, p)
    {
      hide Coalesced, IsFree;
      if n == 0 { return None; }
      var i := 0;
      while i < |runs| && runs[i].count < n
        invariant i <= |runs| && runs == old(runs) && forall k :: 0 <= k < i ==> runs[k].count < n
      {
        i := i + 1;
      }
      if i == |runs| {
        NoSpan(runs, n);
        return None;
      }
      var b := runs[i];
      FirstFit(runs, n, i);
      if b.count > n {
        SplitRun(runs, i, n);
        runs := Swap(runs, i, i + 1, [Run(b.start + n, b.count - n)]);
      } else {
        TakeRun(runs, i);
        runs := Swap(runs, i, i + 1, []);
      }
      r := Some(b.start);
    }

    /** rt_page_free. The source asserts that the pages are none of the free ones. */
    method Free(addr: nat, n: nat)
      requires Valid() && n != 0 && forall p :: Within(addr, n, p) ==> !IsFree(runs, p)
      modifies this
      ensures Valid()
      ensures forall p :: IsFree(runs, p) <==> IsFree(old(runs), p) || Within(addr, n, p)
    {
      hide Coalesced, IsFree;
      var i := 0;
      while i < |runs| && End(runs[i]) != addr && runs[i].start < addr + n
        invariant i <= |runs| && runs == old(runs)
        invariant forall k :: 0 <= k < i ==> End(runs[k]) < addr
      {
        Passes(runs, i, addr, n);
        i := i + 1;
      }
      EmptyFirst(runs, addr, n);
      hide FitsAt;
      if i < |runs| && End(runs[i]) == addr {
        if i + 1 < |runs| && addr + n == runs[i + 1].start {
          FreeBetween(runs, i, addr, n);
          runs := Swap(runs, i, i + 2, [Run(runs[i].start, runs[i].count + n + runs[i + 1].count)]);
        } else {
          FreeAfter(runs, i, addr, n);
          runs := Swap(runs, i, i + 1, [Run(runs[i].start, runs[i].count + n)]);
        }
      } else if i < |runs| && runs[i].start == addr + n {
        FreeBefore(runs, i, addr, n);
        runs := Swap(runs, i, i + 1, [Run(addr, runs[i].count + n)]);
      } else {
        FreeAlone(runs, i, addr, n);
        runs := Swap(runs, i, i, [Run(addr, n)]);
      }
    }
  }

  lemma NoSpan(runs: seq<Run>, n: nat)
    requires Coalesced(runs) && n > 0 && forall k :: 0 <= k < |runs| ==> runs[k].count < n
    ensures forall s :: !SpanFree(runs, s, n)
  {
    forall s
      ensures !SpanFree(runs, s, n)
    {
      if SpanFree(runs, s, n) { var i := SpanInRun(runs, s, n); }
    }
  }

  lemma FirstFit(runs: seq<Run>, n: nat, i: nat)
    requires Coalesced(runs) && n > 0 && i < |runs| && runs[i].count >= n && forall k :: 0 <= k < i ==>
      runs[k].count < n
    ensures SpanFree(runs, runs[i].start, n)
    ensures forall s: nat :: s < runs[i].start ==> !SpanFree(runs, s, n)
  {
    forall p | runs[i].start <= p < runs[i].start + n
      ensures IsFree(runs, p)
    {
      RunIsFree(runs, i, p);
    }
    forall s: nat | s < runs[i].start
      ensures !SpanFree(runs, s, n)
    {
      if SpanFree(runs, s, n) { var j := SpanInRun(runs, s, n); }
    }
  }

  /** Every page of a run is in no other run. */
  lemma OnlyRun(runs: seq<Run>, i: nat, p: nat)
    requires Coalesced(runs) && i < |runs| && Covers(runs[i], p)
    ensures !IsFree(runs[..i], p) && !IsFree(runs[i + 1..], p)
  {
  }

  lemma SplitRun(runs: seq<Run>, i: nat, n: nat)
    requires Coalesced(runs) && 0 < n && i < |runs| && runs[i].count > n
    ensures var after := Swap(runs, i, i + 1, [Run(runs[i].start + n, runs[i].count - n)]);
            Coalesced(after) && forall p :: IsFree(after, p) <==> IsFree(runs, p) && !Within(runs[i].start, n, p)
  {
    var mid := [Run(runs[i].start + n, runs[i].count - n)];
    SwapCoalesced(runs, i, i + 1, mid);
    forall p
      ensures IsFree(Swap(runs, i, i + 1, mid), p) <==> IsFree(runs, p) && !Within(runs[i].start, n, p)
    {
      FreeInSwap(runs, i, i + 1, mid, p);
      FreeInOne(mid[0], p);
      FreeInOne(runs[i], p);
      assert runs[i..i + 1] == [runs[i]];
      if Covers(runs[i], p) { OnlyRun(runs, i, p); }
    }
  }

  lemma TakeRun(runs: seq<Run>, i: nat)
    requires Coalesced(runs) && i < |runs|
    ensures var after := Swap(runs, i, i + 1, []);
            Coalesced(after) && forall p :: IsFree(after, p) <==>
              IsFree(runs, p) && !Within(runs[i].start, runs[i].count, p)
  {
    CutCoalesced(runs, i);
    forall p
      ensures IsFree(Swap(runs, i, i + 1, []), p) <==> IsFree(runs, p) && !Within(runs[i].start, runs[i].count, p)
    {
      FreeInSwap(runs, i, i + 1, [], p);
      FreeInOne(runs[i], p);
      assert runs[i..i + 1] == [runs[i]];
      if Covers(runs[i], p) { OnlyRun(runs, i, p); }
    }
  }

  /** A run that neither touches nor lies above the freed pages ends below them. */
  lemma Passes(runs: seq<Run>, i: nat, addr: nat, n: nat)
    requires Coalesced(runs) && i < |runs| && n > 0 && forall p :: Within(addr, n, p) ==> !IsFree(runs, p)
    requires End(runs[i]) != addr && runs[i].start < addr + n
    ensures End(runs[i]) < addr
  {
    RunIsFree(runs, i, addr);
    RunIsFree(runs, i, runs[i].start);
    assert Within(addr, n, addr);
    assert addr <= runs[i].start ==> Within(addr, n, runs[i].start);
  }

  ghost predicate Freed(before: seq<Run>, after: seq<Run>, addr: nat, n: nat) {
    Coalesced(after) && forall p :: IsFree(after, p) <==> IsFree(before, p) || Within(addr, n, p)
  }

  /** A run that joins the runs from i to j with the freed pages. */
  lemma JoinRuns(runs: seq<Run>, i: nat, j: nat, r: Run, addr: nat, n: nat)
    requires Coalesced(runs) && i <= j <= |runs| && r.count > 0
    requires (i > 0 ==> End(runs[i - 1]) < r.start) && (j < |runs| ==> End(r) < runs[j].start)
    requires forall p :: Covers(r, p) <==> IsFree(runs[i..j], p) || Within(addr, n, p)
    ensures Freed(runs, Swap(runs, i, j, [r]), addr, n)
  {
    SwapCoalesced(runs, i, j, [r]);
    forall p
      ensures IsFree(Swap(runs, i, j, [r]), p) <==> IsFree(runs, p) || Within(addr, n, p)
    {
      FreeInSwap(runs, i, j, [r], p);
      FreeInOne(r, p);
    }
    hide Coalesced, Swap, IsFree;
  }

  /** The freed pages lie between the runs before i and the run at i, which may touch
      them. */
  ghost predicate FitsAt(runs: seq<Run>, i: nat, addr: nat, n: nat) {
    && Coalesced(runs) && n > 0 && i <= |runs|
    && (forall k :: 0 <= k < i ==> End(runs[k]) < addr)
    && (i < |runs| ==> End(runs[i]) == addr || runs[i].start >= addr + n)
    && (forall p :: Within(addr, n, p) ==> !IsFree(runs, p))
  }

  lemma NextAbove(runs: seq<Run>, i: nat, addr: nat, n: nat)
    requires FitsAt(runs, i, addr, n) && i + 1 < |runs| && End(runs[i]) == addr
    ensures runs[i + 1].start >= addr + n
  {
    RunIsFree(runs, i + 1, runs[i + 1].start);
    assert runs[i + 1].start < addr + n ==> Within(addr, n, runs[i + 1].start);
  }

  lemma FreeBetween(runs: seq<Run>, i: nat, addr: nat, n: nat)
    requires FitsAt(runs, i, addr, n) && i + 1 < |runs| && End(runs[i]) == addr && addr + n == runs[i + 1].start
    ensures Freed(runs, Swap(runs, i, i + 2, [Run(runs[i].start, runs[i].count + n + runs[i + 1].count)]), addr, n)
  {
    forall p
      ensures IsFree(runs[i..i + 2], p) <==> Covers(runs[i], p) || Covers(runs[i + 1], p)
    {
      FreeIn([runs[i]], [runs[i + 1]], p);
      FreeInOne(runs[i], p);
      FreeInOne(runs[i + 1], p);
      assert runs[i..i + 2] == [runs[i]] + [runs[i + 1]];
    }
    JoinRuns(runs, i, i + 2, Run(runs[i].start, runs[i].count + n + runs[i + 1].count), addr, n);
  }

  lemma FreeOne(runs: seq<Run>, i: nat)
    requires i < |runs|
    ensures forall p :: IsFree(runs[i..i + 1], p) <==> Covers(runs[i], p)
  {
    forall p
      ensures IsFree(runs[i..i + 1], p) <==> Covers(runs[i], p)
    {
      FreeInOne(runs[i], p);
      assert runs[i..i + 1] == [runs[i]];
    }
  }

  lemma FreeAfter(runs: seq<Run>, i: nat, addr: nat, n: nat)
    requires FitsAt(runs, i, addr, n) && i < |runs| && End(runs[i]) == addr &&
      (i + 1 < |runs| ==> addr + n != runs[i + 1].start)
    ensures Freed(runs, Swap(runs, i, i + 1, [Run(runs[i].start, runs[i].count + n)]), addr, n)
  {
    if i + 1 < |runs| { NextAbove(runs, i, addr, n); }
    FreeOne(runs, i);
    JoinRuns(runs, i, i + 1, Run(runs[i].start, runs[i].count + n), addr, n);
  }

  lemma FreeBefore(runs: seq<Run>, i: nat, addr: nat, n: nat)
    requires FitsAt(runs, i, addr, n) && i < |runs| && End(runs[i]) != addr && runs[i].start == addr + n
    ensures Freed(runs, Swap(runs, i, i + 1, [Run(addr, runs[i].count + n)]), addr, n)
  {
    FreeOne(runs, i);
    JoinRuns(runs, i, i + 1, Run(addr, runs[i].count + n), addr, n);
  }

  lemma FreeAlone(runs: seq<Run>, i: nat, addr: nat, n: nat)
    requires FitsAt(runs, i, addr, n) && (i < |runs| ==> End(runs[i]) != addr && runs[i].start != addr + n)
    ensures Freed(runs, Swap(runs, i, i, [Run(addr, n)]), addr, n)
  {
    assert forall p :: !IsFree(runs[i..i], p);
    JoinRuns(runs, i, i, Run(addr, n), addr, n);
  }

  lemma EmptyFirst(runs: seq<Run>, addr: nat, n: nat)
    requires Coalesced(runs) && n > 0 && forall p :: Within(addr, n, p) ==> !IsFree(runs, p)
    ensures forall i: nat :: (i <= |runs| && (forall k :: 0 <= k < i ==> End(runs[k]) < addr)
              && (i < |runs| ==> End(runs[i]) == addr || runs[i].start >= addr + n)) ==> FitsAt(runs, i, addr, n)
  {
  }

  /** What was allocated and is freed again leaves the list as it was. */
  lemma FreeUndoesAlloc(before: seq<Run>, mid: seq<Run>, after: seq<Run>, addr: nat, n: nat)
    requires Coalesced(before) && Coalesced(after) && SpanFree(before, addr, n)
    requires forall p :: IsFree(mid, p) <==> IsFree(before, p) && !Within(addr, n, p)
    requires forall p :: IsFree(after, p) <==> IsFree(mid, p) || Within(addr, n, p)
    ensures after == before
  {
    forall p
      ensures IsFree(after, p) <==> IsFree(before, p)
    {
    }
    SamePagesSameRuns(after, before);
  }
}
