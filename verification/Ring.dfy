/** Circular doubly linked lists with a head node, as declared in rtservice.h and
    as used by hand in the free list of memheap.c.

    A store maps node addresses to their two links. `Ring(m, head, s)` says that
    the nodes of s, in that order, hang on `head`.
 */
module Ring {

  import opened Lists

  datatype Links = Links(next: int, prev: int)

  type Store = map<int, Links>

  /** Position k of the ring; positions -1 and |s| are the head. */
  function At(head: int, s: seq<int>, k: int): int {
    if 0 <= k < |s| then s[k] else head
  }

  ghost predicate Edge(m: Store, head: int, s: seq<int>, k: int) {
    var a, b := At(head, s, k), At(head, s, k + 1);
    a in m && b in m && m[a].next == b && m[b].prev == a
  }

  ghost predicate IsRing(m: Store, head: int, s: seq<int>) {
    Distinct(s) && head !in s && forall k :: -1 <= k < |s| ==> Edge(m, head, s, k)
  }

  // ----- the statements of rtservice.h, in order -----

  ghost function LinkAfter(m: Store, l: int, n: int): Store
    requires l in m && m[l].next in m
  {
    var next := m[l].next;
    var m1 := m[next := m[next].(prev := n)];
    var m2 := m1[n := Links(next, l)];
    m2[l := m2[l].(next := n)]
  }

  ghost function Unlink(m: Store, n: int): Store
    requires n in m && m[n].next in m && m[n].prev in m
  {
    var m1 := m[m[n].next := m[m[n].next].(prev := m[n].prev)];
    m1[m1[n].prev := m1[m1[n].prev].(next := m1[n].next)]
  }

  ghost function Inserted(s: seq<int>, k: int, n: int): seq<int>
    requires -1 <= k < |s|
  {
    s[..k + 1] + [n] + s[k + 1..]
  }

  ghost function Removed(s: seq<int>, k: nat): seq<int>
    requires k < |s|
  {
    s[..k] + s[k + 1..]
  }

  // ----- what they do to a ring -----

  lemma EdgeAt(m: Store, head: int, s: seq<int>, k: int)
    requires IsRing(m, head, s) && -1 <= k < |s|
    ensures Edge(m, head, s, k)
  {
  }

  /** Two positions hold the same node only when they are the same position. */
  lemma SamePosition(m: Store, head: int, s: seq<int>, i: int, j: int)
    requires IsRing(m, head, s) && -1 <= i <= |s| && -1 <= j <= |s| && At(head, s, i) == At(head, s, j)
    ensures i == j || (i in {-1, |s|} && j in {-1, |s|})
  {
  }

  lemma LinkAfterEdge(m: Store, head: int, s: seq<int>, k: int, n: int, e: int)
    requires IsRing(m, head, s) && -1 <= k < |s| && n !in s && n != head
    requires At(head, s, k) in m && m[At(head, s, k)].next in m
    requires -1 <= e <= |s|
    ensures Edge(LinkAfter(m, At(head, s, k), n), head, Inserted(s, k, n), e)
  {
    var r, g := Inserted(s, k, n), LinkAfter(m, At(head, s, k), n);
    EdgeAt(m, head, s, k);
    if e < k {
      assert At(head, r, e) == At(head, s, e) && At(head, r, e + 1) == At(head, s, e + 1);
      EdgeAt(m, head, s, e);
      if At(head, s, e) == At(head, s, k) { SamePosition(m, head, s, e, k); }
      if At(head, s, e + 1) == At(head, s, k + 1) { SamePosition(m, head, s, e + 1, k + 1); }
    } else if e > k + 1 {
      assert At(head, r, e) == At(head, s, e - 1) && At(head, r, e + 1) == At(head, s, e);
      EdgeAt(m, head, s, e - 1);
      if At(head, s, e - 1) == At(head, s, k) { SamePosition(m, head, s, e - 1, k); }
      if At(head, s, e) == At(head, s, k + 1) { SamePosition(m, head, s, e, k + 1); }
    }
  }

  lemma LinkAfterRing(m: Store, head: int, s: seq<int>, k: int, n: int)
    requires IsRing(m, head, s) && -1 <= k < |s| && n !in s && n != head
    ensures At(head, s, k) in m && m[At(head, s, k)].next in m
    ensures IsRing(LinkAfter(m, At(head, s, k), n), head, Inserted(s, k, n))
  {
    EdgeAt(m, head, s, k);
    forall e | -1 <= e < |s| + 1
      ensures Edge(LinkAfter(m, At(head, s, k), n), head, Inserted(s, k, n), e)
    {
      LinkAfterEdge(m, head, s, k, n, e);
    }
  }

  lemma UnlinkEdge(m: Store, head: int, s: seq<int>, k: nat, e: int)
    requires IsRing(m, head, s) && k < |s| && -1 <= e < |s| - 1
    requires s[k] in m && m[s[k]].next in m && m[s[k]].prev in m
    ensures Edge(Unlink(m, s[k]), head, Removed(s, k), e)
  {
    var r, g := Removed(s, k), Unlink(m, s[k]);
    EdgeAt(m, head, s, k - 1);
    EdgeAt(m, head, s, k);
    if e < k - 1 {
      assert At(head, r, e) == At(head, s, e) && At(head, r, e + 1) == At(head, s, e + 1);
      EdgeAt(m, head, s, e);
      if At(head, s, e) == At(head, s, k - 1) { SamePosition(m, head, s, e, k - 1); }
      if At(head, s, e + 1) == At(head, s, k + 1) { SamePosition(m, head, s, e + 1, k + 1); }
    } else if e > k - 1 {
      assert At(head, r, e) == At(head, s, e + 1) && At(head, r, e + 1) == At(head, s, e + 2);
      EdgeAt(m, head, s, e + 1);
      if At(head, s, e + 1) == At(head, s, k - 1) { SamePosition(m, head, s, e + 1, k - 1); }
      if At(head, s, e + 2) == At(head, s, k + 1) { SamePosition(m, head, s, e + 2, k + 1); }
    }
  }

  lemma UnlinkRing(m: Store, head: int, s: seq<int>, k: nat)
    requires IsRing(m, head, s) && k < |s|
    ensures s[k] in m && m[s[k]].next in m && m[s[k]].prev in m
    ensures IsRing(Unlink(m, s[k]), head, Removed(s, k))
  {
    EdgeAt(m, head, s, k - 1);
    EdgeAt(m, head, s, k);
    forall e | -1 <= e < |s| - 1
      ensures Edge(Unlink(m, s[k]), head, Removed(s, k), e)
    {
      UnlinkEdge(m, head, s, k, e);
    }
  }

  /** A ring depends on its own nodes only. */
  lemma RingFrame(m: Store, g: Store, head: int, s: seq<int>)
    requires IsRing(m, head, s) && m.Keys <= g.Keys
    requires forall a :: a in m && (a == head || a in s) ==> g[a] == m[a]
    ensures IsRing(g, head, s)
  {
    forall k | -1 <= k < |s|
      ensures Edge(g, head, s, k)
    {
      EdgeAt(m, head, s, k);
    }
  }

  // ----- a node that is linked in although it is in a ring already -----

  /** The statements of rt_list_insert_before, in order. */
  ghost function LinkBefore(m: Store, l: int, n: int): Store
    requires l in m && m[l].prev in m && n in m
  {
    var m1 := m[m[l].prev := m[m[l].prev].(next := n)];
    var m2 := m1[n := m1[n].(prev := m1[l].prev)];
    var m3 := m2[l := m2[l].(prev := n)];
    m3[n := m3[n].(next := l)]
  }

  lemma LinkBeforeRing(m: Store, head: int, s: seq<int>, k: int, n: int)
    requires IsRing(m, head, s) && -1 <= k < |s| && n !in s && n != head && n in m
    ensures var l := At(head, s, k + 1);
      l in m && m[l].prev in m && IsRing(LinkBefore(m, l, n), head, Inserted(s, k, n))
    ensures var l, p := At(head, s, k + 1), At(head, s, k);
      forall a :: a in m && a != l && a != p && a != n ==> LinkBefore(m, l, n)[a] == m[a]
    ensures LinkBefore(m, At(head, s, k + 1), n).Keys == m.Keys
  {
    EdgeAt(m, head, s, k);
    LinkAfterRing(m, head, s, k, n);
    assert LinkBefore(m, At(head, s, k + 1), n) == LinkAfter(m, At(head, s, k), n);
  }

  /** Following `next` never leaves a ring, and `prev` leads back. */
  lemma InRing(m: Store, head: int, s: seq<int>, a: int)
    requires IsRing(m, head, s) && (a == head || a in s)
    ensures a in m && (m[a].next == head || m[a].next in s) && m[a].next in m && m[m[a].next].prev == a
  {
    if a == head {
      EdgeAt(m, head, s, -1);
    } else {
      var k :| 0 <= k < |s| && s[k] == a;
      EdgeAt(m, head, s, k);
    }
  }

  /** What the insertion does to links when n already stands behind q, and l behind p. */
  lemma Relinked(m: Store, l: int, n: int, q: int)
    requires l in m && n in m && q in m && m[q].next == n && m[n].prev == q && q != n
    requires m[l].prev in m && m[m[l].prev].next == l
    ensures var m', p := LinkBefore(m, l, n), m[l].prev;
      && m'.Keys == m.Keys && m'[q].next == n && m'[n].prev != q && m'[n].next == l
      && forall a :: a in m && a != n && a != p ==> m'[a].next == m[a].next
  {
  }

  /** Whatever ring n stands in is torn: no sequence of nodes hangs on its head. */
  lemma {:induction false} RelinkTears(m: Store, head: int, s: seq<int>, i: nat, l: int, t: seq<int>)
    requires IsRing(m, head, s) && i < |s| && l in m && m[l].prev in m && m[m[l].prev].next == l
    ensures s[i] in m && !IsRing(LinkBefore(m, l, s[i]), head, t)
  {
    var n, q := s[i], At(head, s, i - 1);
    EdgeAt(m, head, s, i - 1);
    EdgeAt(m, head, s, i);
    Relinked(m, l, n, q);
    var m' := LinkBefore(m, l, n);
    if IsRing(m', head, t) {
      Reaches(m, head, s, i, l, t, i - 1);
      InRing(m', head, t, q);
      assert false;
    }
  }

  /** A ring on the same head would still hold the nodes in front of n. */
  lemma {:induction false} Reaches(m: Store, head: int, s: seq<int>, i: nat, l: int, t: seq<int>, j: int)
    requires IsRing(m, head, s) && i < |s| && -1 <= j < i && l in m && m[l].prev in m && m[m[l].prev].next == l
    requires s[i] in m && At(head, s, i - 1) in m && m[At(head, s, i - 1)].next == s[i] &&
      m[s[i]].prev == At(head, s, i - 1)
    requires IsRing(LinkBefore(m, l, s[i]), head, t)
    ensures At(head, s, j) == head || At(head, s, j) in t
    decreases j + 1
  {
    if j >= 0 {
      var n, a := s[i], At(head, s, j - 1);
      Reaches(m, head, s, i, l, t, j - 1);
      EdgeAt(m, head, s, j - 1);
      if a == n { SamePosition(m, head, s, j - 1, i); }
      Relinked(m, l, n, At(head, s, i - 1));
      InRing(LinkBefore(m, l, n), head, t, a);
      if a == m[l].prev { InRing(LinkBefore(m, l, n), head, t, n); }
    }
  }

  // ----- rtservice.h -----

  /** The links of every list node in memory. */
  class ListStore {
    var links: Store

    constructor ()
      ensures links == map[]
    {
      links := map[];
    }

    /** rt_list_init. */
    method Init(l: int)
      modifies this
      ensures links == old(links)[l := Links(l, l)] && IsRing(links, l, [])
    {
      links := links[l := Links(l, l)];
      assert Edge(links, l, [], -1);
    }

    /** rt_list_insert_after: l stands at position k of the ring on `head`. */
    method InsertAfter(l: int, n: int, ghost head: int, ghost s: seq<int>, ghost k: int)
      requires IsRing(links, head, s) && -1 <= k < |s| && l == At(head, s, k) && n !in s && n != head
      modifies this
      ensures IsRing(links, head, Inserted(s, k, n))
      ensures forall a :: a in old(links) && a !in {l, At(head, s, k + 1), n} ==>
        a in links && links[a] == old(links)[a]
    {
      EdgeAt(links, head, s, k);
      LinkAfterRing(links, head, s, k, n);
      links := links[links[l].next := links[links[l].next].(prev := n)];
      links := links[n := Links(links[l].next, l)];
      links := links[l := links[l].(next := n)];
    }

    /** rt_list_insert_before: inserting before position k + 1 is inserting after
        position k, and before the head is at the end of the list. */
    method InsertBefore(l: int, n: int, ghost head: int, ghost s: seq<int>, ghost k: int)
      requires IsRing(links, head, s) && -1 <= k < |s| && l == At(head, s, k + 1) && n !in s && n != head
      modifies this
      ensures IsRing(links, head, Inserted(s, k, n))
      ensures l == head && k == |s| - 1 ==> Inserted(s, k, n) == s + [n]
      ensures forall a :: a in old(links) && a !in {l, At(head, s, k), n} ==> a in links && links[a] == old(links)[a]
    {
      ghost var m := links;
      EdgeAt(links, head, s, k);
      LinkAfterRing(links, head, s, k, n);
      links := links[links[l].prev := links[links[l].prev].(next := n)];
      links := links[n := Links(l, links[l].prev)];
      links := links[l := links[l].(prev := n)];
      assert links == LinkAfter(m, At(head, s, k), n);
    }

    /** rt_list_insert_before with a node n that stands in a ring already: that ring is torn,
        whether it is the one inserted into or another. */
    method InsertLinked(l: int, n: int, ghost head: int, ghost s: seq<int>, ghost i: nat)
      requires IsRing(links, head, s) && i < |s| && n == s[i] && l in links && links[l].prev in links &&
        links[links[l].prev].next == l
      modifies this
      ensures n in old(links) && links == LinkBefore(old(links), l, n)
      ensures forall t :: !IsRing(links, head, t)
    {
      ghost var m := links;
      EdgeAt(links, head, s, i);
      links := links[links[l].prev := links[links[l].prev].(next := n)];
      links := links[n := links[n].(prev := links[l].prev)];
      links := links[l := links[l].(prev := n)];
      links := links[n := links[n].(next := l)];
      assert links == LinkBefore(m, l, n);
      forall t
        ensures !IsRing(links, head, t)
      {
        RelinkTears(m, head, s, i, l, t);
      }
    }

    /** rt_list_remove: the node leaves its ring and becomes a ring of its own. */
    method Remove(n: int, ghost head: int, ghost s: seq<int>, ghost k: nat)
      requires IsRing(links, head, s) && k < |s| && n == s[k]
      modifies this
      ensures IsRing(links, head, Removed(s, k)) && IsRing(links, n, [])
      ensures forall a :: a in old(links) && a !in {n, At(head, s, k - 1), At(head, s, k + 1)} ==>
        a in links && links[a] == old(links)[a]
    {
      ghost var m := links;
      EdgeAt(links, head, s, k - 1);
      EdgeAt(links, head, s, k);
      UnlinkRing(links, head, s, k);
      links := links[links[n].next := links[links[n].next].(prev := links[n].prev)];
      links := links[links[n].prev := links[links[n].prev].(next := links[n].next)];
      ghost var g := links;
      assert g == Unlink(m, n);
      links := links[n := Links(n, n)];
      RingFrame(g, links, head, Removed(s, k));
      assert Edge(links, n, [], -1);
    }

    /** rt_list_remove on a node that is in no list changes nothing. */
    method RemoveDetached(n: int)
      requires IsRing(links, n, [])
      modifies this
      ensures links == old(links)
    {
      EdgeAt(links, n, [], -1);
      links := links[links[n].next := links[links[n].next].(prev := links[n].prev)];
      links := links[links[n].prev := links[links[n].prev].(next := links[n].next)];
      links := links[n := Links(n, n)];
    }

    /** rt_list_isempty. */
    method IsEmpty(l: int, ghost s: seq<int>) returns (empty: bool)
      requires IsRing(links, l, s)
      ensures empty <==> s == []
    {
      EdgeAt(links, l, s, -1);
      empty := links[l].next == l;
    }

    /** rt_list_len. */
    method Len(l: int, ghost s: seq<int>) returns (len: nat)
      requires IsRing(links, l, s)
      ensures len == |s|
    {
      len := 0;
      var p := l;
      EdgeAt(links, l, s, -1);
      while links[p].next != l
        invariant len <= |s| && p == At(l, s, len - 1) && p in links
        invariant links[p].next == At(l, s, len)
        decreases |s| - len
      {
        p := links[p].next;
        len := len + 1;
        EdgeAt(links, l, s, len - 1);
      }
    }
  }
}
