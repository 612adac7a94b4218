/** The list nodes of threads: what linking a thread into a wait list does to the links
    themselves.
 */
module Nodes {

  import opened Ids
  import opened Ring
  import opened Threads

  /** Where the head of a list lies; the node of thread t lies at t. */
  function Head(l: Place): int {
    match l
    case ReadyList(p) => -2 * p - 1
    case WaitList(o) => -2 * o - 2
  }

  /** Every list hangs on its head, in order. */
  ghost predicate Represents(m: Store, lists: Table) {
    forall l :: l in lists ==> IsRing(m, Head(l), lists[l])
  }

  lemma HeadsApart(k: Place, l: Place, t: Tid)
    ensures Head(l) < 0 <= t
    ensures Head(k) == Head(l) ==> k == l
  {
  }

  /** Where rt_ipc_list_suspend links a node: before the k-th thread, or the head. */
  function Before(lists: Table, o: Oid, k: nat): int
    requires WaitList(o) in lists
  {
    At(Head(WaitList(o)), lists[WaitList(o)], k)
  }

  lemma Anchored(m: Store, lists: Table, o: Oid, k: nat)
    requires Represents(m, lists) && WaitList(o) in lists && k <= |lists[WaitList(o)]|
    ensures var l := Before(lists, o, k); l in m && m[l].prev in m && m[m[l].prev].next == l
  {
    EdgeAt(m, Head(WaitList(o)), lists[WaitList(o)], k - 1);
  }

  /** A node in no list joins the wait list, and the links represent just that. */
  lemma JoinsRing(m: Store, lists: Table, link: Threads.Links, t: Tid, o: Oid, k: nat)
    requires Represents(m, lists) && Linked(lists, link) && t !in link && t in m
    requires WaitList(o) in lists && k <= |lists[WaitList(o)]|
    ensures var l := Before(lists, o, k);
      l in m && m[l].prev in m && Represents(LinkBefore(m, l, t), Put(lists, WaitList(o), k, t))
  {
    Anchored(m, lists, o, k);
    var w := WaitList(o);
    var l, after := Before(lists, o, k), Put(lists, w, k, t);
    HeadsApart(w, w, t);
    assert t !in lists[w];
    LinkBeforeRing(m, Head(w), lists[w], k - 1, t);
    assert Inserted(lists[w], k - 1, t) == after[w];
    forall q | q in after
      ensures IsRing(LinkBefore(m, l, t), Head(q), after[q])
    {
      if q != w { OtherRing(m, lists, link, t, o, k, q); }
    }
  }

  lemma OtherRing(m: Store, lists: Table, link: Threads.Links, t: Tid, o: Oid, k: nat, q: Place)
    requires Represents(m, lists) && Linked(lists, link) && t !in link && t in m
    requires WaitList(o) in lists && k <= |lists[WaitList(o)]| && q in lists && q != WaitList(o)
    ensures var l := Before(lists, o, k); l in m && m[l].prev in m && IsRing(LinkBefore(m, l, t), Head(q), lists[q])
  {
    Anchored(m, lists, o, k);
    var w := WaitList(o);
    var l := Before(lists, o, k);
    LinkBeforeRing(m, Head(w), lists[w], k - 1, t);
    HeadsApart(q, w, t);
    forall a | a in m && (a == Head(q) || a in lists[q])
      ensures LinkBefore(m, l, t)[a] == m[a]
    {
      NotInOther(lists, link, q, w, a);
    }
    RingFrame(m, LinkBefore(m, l, t), Head(q), lists[q]);
  }

  /** A node of one list, its head included, is none of another. */
  lemma NotInOther(lists: Table, link: Threads.Links, q: Place, w: Place, a: int)
    requires Linked(lists, link) && q in lists && w in lists && q != w && (a == Head(q) || a in lists[q])
    ensures forall i :: -1 <= i <= |lists[w]| ==> At(Head(w), lists[w], i) != a
  {
    HeadsApart(q, w, 0);
    forall i | -1 <= i <= |lists[w]|
      ensures At(Head(w), lists[w], i) != a
    {
      if 0 <= i < |lists[w]| {
        var t: Tid := lists[w][i];
        assert t in lists[w] && link[t] == w;
        if a in lists[q] {
          var j :| 0 <= j < |lists[q]| && lists[q][j] == a;
          var u: Tid := lists[q][j];
          assert u in lists[q] && link[u] == q;
        }
      }
    }
  }

  /** Linking the node of t into a wait list leaves links that represent lists if and only if
      t was in no list. */
  lemma RelinkKeepsRings(m: Store, lists: Table, link: Threads.Links, t: Tid, o: Oid, k: nat)
    requires Represents(m, lists) && Linked(lists, link) && t in m
    requires WaitList(o) in lists && k <= |lists[WaitList(o)]|
    ensures var l := Before(lists, o, k);
      && l in m && m[l].prev in m
      && ((exists after: Table :: after.Keys == lists.Keys && Represents(LinkBefore(m, l, t), after)) <==> t !in link)
  {
    Anchored(m, lists, o, k);
    var l := Before(lists, o, k);
    if t !in link {
      JoinsRing(m, lists, link, t, o, k);
      assert Put(lists, WaitList(o), k, t).Keys == lists.Keys;
    } else {
      var q := link[t];
      var i :| 0 <= i < |lists[q]| && lists[q][i] == t;
      forall after: Table | after.Keys == lists.Keys
        ensures !Represents(LinkBefore(m, l, t), after)
      {
        RelinkTears(m, Head(q), lists[q], i, l, after[q]);
      }
    }
  }

  /** rt_sem_take of a second empty semaphore under a locked scheduler: thread 1 hangs on the
      head of semaphore 0 alone and is linked to the head of semaphore 1, whose list is
      empty. The second list is what it should be; nothing hangs on the first head. */
  method TwoSemaphores() returns (s: ListStore)
    ensures IsRing(s.links, Head(WaitList(1)), [1])
    ensures forall t :: !IsRing(s.links, Head(WaitList(0)), t)
  {
    var a, b := Head(WaitList(0)), Head(WaitList(1));
    s := new ListStore();
    s.Init(a);
    s.Init(1);
    s.Init(b);
    RingFrame(map[a := Ring.Links(a, a)], s.links, a, []);
    s.InsertBefore(a, 1, a, [], -1);
    assert Inserted([], -1, 1) == [1];
    assert Edge(s.links, a, [1], -1) && Edge(s.links, a, [1], 0);
    assert IsRing(s.links, b, []);
    s.InsertLinked(b, 1, a, [1], 0);
    assert Edge(s.links, b, [1], -1) && Edge(s.links, b, [1], 0);
  }
}
