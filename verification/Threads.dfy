/** Threads, the rings that link them, and what the scheduler keeps true of both.

    Every thread has one list node. `link` says which ring that node is linked
    in, `lists` what each ring holds, in order.
 */
module Threads {

  import opened Bits
  import opened Ids
  import opened Lists

  const PRIORITIES: nat := 32

  type Oid = nat

  /** The heads a thread node can be linked behind. */
  datatype Place = ReadyList(prio: nat) | WaitList(obj: Oid)

  datatype Stat = INIT | READY | SUSPEND | CLOSE

  datatype Thread = Thread(stat: Stat, prio: nat, initPrio: nat, mask: bv32, error: Error, initTick: nat, leftTick: nat)

  type Pool = map<Tid, Thread>
  type Table = map<Place, seq<Tid>>
  type Links = map<Tid, Place>

  // ----- invariants -----

  /** The rings and the nodes agree, so a thread is in at most one ring, once. */
  ghost predicate Linked(lists: Table, link: Links) {
    && (forall l :: l in lists ==> Distinct(lists[l]))
    && (forall t :: t in link ==> link[t] in lists && t in lists[link[t]])
    && (forall l, t :: l in lists && t in lists[l] ==> t in link && link[t] == l)
  }

  /** A READY thread is in the ready list of its current priority; a thread in a wait
      list is SUSPENDed. */
  ghost predicate Placed(thr: Pool, link: Links) {
    && (forall t :: t in link ==> t in thr && PlaceFits(thr[t], link[t]))
    && (forall t :: t in thr && thr[t].stat == READY ==> t in link && link[t] == ReadyList(thr[t].prio))
  }

  ghost predicate PlaceFits(th: Thread, l: Place) {
    match l
    case ReadyList(p) => th.stat == READY && th.prio == p
    case WaitList(_) => th.stat == SUSPEND
  }

  /** Bit p of the ready group is set exactly when ready list p has a thread. */
  ghost predicate Mapped(lists: Table, group: bv32) {
    forall p :: 0 <= p < PRIORITIES ==> ReadyList(p) in lists && (Bit(group, p) <==> lists[ReadyList(p)] != [])
  }

  ghost predicate Masked(thr: Pool) {
    forall t :: t in thr ==> MaskFits(thr[t])
  }

  ghost predicate MaskFits(th: Thread) {
    th.prio < PRIORITIES && th.initPrio < PRIORITIES &&
      (th.stat == READY || th.stat == SUSPEND ==> th.mask == Mask(th.prio))
  }

  /** A running thread timer belongs to a SUSPENDed thread. */
  ghost predicate Armed(thr: Pool, alarm: map<Tid, nat>) {
    forall t :: t in alarm ==> t in thr && thr[t].stat == SUSPEND
  }

  ghost predicate Scheduled(thr: Pool, lists: Table, link: Links, group: bv32, alarm: map<Tid, nat>) {
    Linked(lists, link) && Placed(thr, link) && Mapped(lists, group) && Masked(thr) && Armed(thr, alarm)
  }

  lemma SameMask(a: Thread, b: Thread)
    requires MaskFits(a) && (a.stat == READY || a.stat == SUSPEND) && b.prio == a.prio && b.initPrio == a.initPrio &&
      b.mask == a.mask
    ensures MaskFits(b)
  {
  }

  lemma NewMask(a: Thread, p: nat)
    requires MaskFits(a) && p < PRIORITIES
    ensures MaskFits(a.(prio := p, mask := Mask(p)))
  {
  }

  // ----- linking and unlinking a node -----

  /** rt_list_remove: a node that is linked nowhere stays so. */
  function Dropped(lists: Table, link: Links, t: Tid): Table {
    if t in link && link[t] in lists then lists[link[t] := Without(lists[link[t]], t)] else lists
  }

  function Put(lists: Table, l: Place, k: nat, t: Tid): Table
    requires l in lists && k <= |lists[l]|
  {
    lists[l := Splice(lists[l], k, t)]
  }

  lemma DroppedLinked(lists: Table, link: Links, t: Tid)
    requires Linked(lists, link)
    ensures Linked(Dropped(lists, link, t), link - {t})
  {
    if t in link { WithoutDistinct(lists[link[t]], t); }
  }

  lemma PutLinked(lists: Table, link: Links, l: Place, k: nat, t: Tid)
    requires Linked(lists, link) && t !in link && l in lists && k <= |lists[l]|
    ensures Linked(Put(lists, l, k, t), link[t := l])
  {
    SpliceDistinct(lists[l], k, t);
    SpliceMembers(lists[l], k, t);
  }

  /** The group after a thread of priority p left its ring. */
  function GroupWithout(lists: Table, group: bv32, p: nat, mask: bv32): bv32 {
    if ReadyList(p) in lists && lists[ReadyList(p)] == [] then Minus(group, mask) else group
  }

  lemma DroppedAt(lists: Table, link: Links, t: Tid, q: nat)
    requires Linked(lists, link) && ReadyList(q) in lists
    ensures var d := Dropped(lists, link, t);
            ReadyList(q) in d && (!(t in link && link[t] == ReadyList(q)) ==> d[ReadyList(q)] == lists[ReadyList(q)])
    ensures Dropped(lists, link, t)[ReadyList(q)] != [] ==> lists[ReadyList(q)] != []
  {
  }

  lemma DroppedBit(lists: Table, link: Links, group: bv32, t: Tid, p: nat, q: nat)
    requires Linked(lists, link) && p < PRIORITIES && q < PRIORITIES
    requires ReadyList(p) in lists && (Bit(group, p) <==> lists[ReadyList(p)] != [])
    requires ReadyList(q) in lists && (Bit(group, q) <==> lists[ReadyList(q)] != [])
    requires t in link && link[t].ReadyList? ==> link[t] == ReadyList(p)
    ensures var d := Dropped(lists, link, t);
            ReadyList(q) in d && (Bit(GroupWithout(d, group, p, Mask(p)), q) <==> d[ReadyList(q)] != [])
  {
    hide Bit, Mask, With, Minus, Linked, Dropped;
    BitUpdate(group, p, q);
    DroppedAt(lists, link, t, q);
    DroppedAt(lists, link, t, p);
  }

  lemma DroppedMapped(thr: Pool, lists: Table, link: Links, group: bv32, t: Tid)
    requires Linked(lists, link) && Placed(thr, link) && Mapped(lists, group)
    requires t in thr && thr[t].prio < PRIORITIES && thr[t].mask == Mask(thr[t].prio)
    ensures var d := Dropped(lists, link, t); Mapped(d, GroupWithout(d, group, thr[t].prio, thr[t].mask))
  {
    hide Bit, Mask, With, Minus, Linked, Dropped, GroupWithout;
    forall q | 0 <= q < PRIORITIES
      ensures var d := Dropped(lists, link, t);
        ReadyList(q) in d && (Bit(GroupWithout(d, group, thr[t].prio, thr[t].mask), q) <==> d[ReadyList(q)] != [])
    {
      DroppedBit(lists, link, group, t, thr[t].prio, q);
    }
  }

  lemma PutMapped(lists: Table, group: bv32, p: nat, t: Tid, k: nat)
    requires Mapped(lists, group) && p < PRIORITIES && k <= |lists[ReadyList(p)]|
    ensures Mapped(Put(lists, ReadyList(p), k, t), With(group, Mask(p)))
  {
    hide Bit, Mask, With, Minus;
    forall q | 0 <= q < PRIORITIES
      ensures Bit(With(group, Mask(p)), q) <==> Put(lists, ReadyList(p), k, t)[ReadyList(q)] != []
    {
      BitUpdate(group, p, q);
    }
  }

  /** Linking into a wait list leaves the ready lists alone. */
  lemma PutWaitMapped(lists: Table, group: bv32, o: Oid, t: Tid, k: nat)
    requires Mapped(lists, group) && WaitList(o) in lists && k <= |lists[WaitList(o)]|
    ensures Mapped(Put(lists, WaitList(o), k, t), group)
  {
  }

  // ----- steps that keep the scheduler state -----

  /** rt_schedule_remove_thread and a state other than READY for the thread. */
  lemma Leaves(thr: Pool, lists: Table, link: Links, group: bv32, alarm: map<Tid, nat>, t: Tid, th: Thread,
               alarm': map<Tid, nat>)
    requires Scheduled(thr, lists, link, group, alarm) && t in thr && (thr[t].stat == READY || thr[t].stat == SUSPEND)
    requires th.stat != READY && MaskFits(th)
    requires th.stat == SUSPEND || t !in alarm'
    requires forall u :: u in alarm' ==> u == t || u in alarm
    ensures var d := Dropped(lists, link, t);
            Scheduled(thr[t := th], d, link - {t}, GroupWithout(d, group, thr[t].prio, thr[t].mask), alarm')
  {
    hide Linked, Mapped, Mask;
    DroppedLinked(lists, link, t);
    DroppedMapped(thr, lists, link, group, t);
  }

  /** A SUSPENDed thread is unlinked, which leaves the ready lists alone. */
  lemma Unwaits(thr: Pool, lists: Table, link: Links, group: bv32, alarm: map<Tid, nat>, t: Tid, th: Thread,
                alarm': map<Tid, nat>)
    requires Scheduled(thr, lists, link, group, alarm) && t in thr && thr[t].stat == SUSPEND
    requires th.stat == SUSPEND && MaskFits(th)
    requires forall u :: u in alarm' ==> u == t || u in alarm
    ensures Scheduled(thr[t := th], Dropped(lists, link, t), link - {t}, group, alarm')
  {
    hide Linked, Mask, Bit;
    DroppedLinked(lists, link, t);
    forall q | 0 <= q < PRIORITIES
      ensures ReadyList(q) in Dropped(lists, link, t)
      ensures Dropped(lists, link, t)[ReadyList(q)] == lists[ReadyList(q)]
    {
      DroppedAt(lists, link, t, q);
    }
    hide Dropped;
  }

  /** rt_schedule_insert_thread for a thread that is linked nowhere. */
  lemma Enters(thr: Pool, lists: Table, link: Links, group: bv32, alarm: map<Tid, nat>, t: Tid, th: Thread,
               alarm': map<Tid, nat>)
    requires Scheduled(thr, lists, link, group, alarm) && t in thr && t !in link
    requires th.stat == READY && MaskFits(th)
    requires t !in alarm' && forall u :: u in alarm' ==> u in alarm
    ensures ReadyList(th.prio) in lists
    ensures var l := ReadyList(th.prio);
            Scheduled(thr[t := th], Put(lists, l, |lists[l]|, t), link[t := l], With(group, th.mask), alarm')
  {
    assert th.mask == Mask(th.prio);
    var l := ReadyList(th.prio);
    EntersLists(thr, lists, link, group, th.prio, t);
    hide Linked, Mapped, Mask;
  }

  lemma EntersLists(thr: Pool, lists: Table, link: Links, group: bv32, p: nat, t: Tid)
    requires Linked(lists, link) && Mapped(lists, group) && p < PRIORITIES && t !in link
    ensures ReadyList(p) in lists
    ensures var l := ReadyList(p);
            Linked(Put(lists, l, |lists[l]|, t), link[t := l]) &&
              Mapped(Put(lists, l, |lists[l]|, t), With(group, Mask(p)))
  {
    hide Mask, Bit, With, Minus;
    var l := ReadyList(p);
    PutLinked(lists, link, l, |lists[l]|, t);
    PutMapped(lists, group, p, t, |lists[l]|);
  }

  /** A SUSPENDed thread that is linked nowhere joins a wait list. */
  lemma Joins(thr: Pool, lists: Table, link: Links, group: bv32, alarm: map<Tid, nat>, t: Tid, o: Oid, k: nat)
    requires Scheduled(thr, lists, link, group, alarm) && t in thr && thr[t].stat == SUSPEND && t !in link
    requires WaitList(o) in lists && k <= |lists[WaitList(o)]|
    ensures Scheduled(thr, Put(lists, WaitList(o), k, t), link[t := WaitList(o)], group, alarm)
  {
    hide Mask, Bit, With, Minus;
    PutLinked(lists, link, WaitList(o), k, t);
    PutWaitMapped(lists, group, o, t, k);
    hide Linked, Mapped, Put;
  }

  /** The rings after t moved from where it was linked to the end of ready list p. */
  function Moved(lists: Table, link: Links, t: Tid, p: nat): Table {
    var d := Dropped(lists, link, t);
    var l := ReadyList(p);
    if l in d then Put(d, l, |d[l]|, t) else d
  }

  function ReadyAt(lists: Table, p: nat): seq<Tid> {
    if ReadyList(p) in lists then lists[ReadyList(p)] else []
  }

  const NOWHERE: int := -1

  /** Of the ready lists t is in the one of priority p, last, or in none; the other threads
      are where they were, in order. */
  ghost predicate Requeued(lists: Table, lists': Table, t: Tid, p: int) {
    forall q: nat :: q < PRIORITIES ==>
      ReadyAt(lists', q) == Without(ReadyAt(lists, q), t) + (if q == p then [t] else [])
  }

  lemma DroppedRequeued(lists: Table, link: Links, t: Tid)
    requires Linked(lists, link)
    ensures Requeued(lists, Dropped(lists, link, t), t, NOWHERE)
  {
    forall q: nat | !(t in link && link[t] == ReadyList(q))
      ensures Without(ReadyAt(lists, q), t) == ReadyAt(lists, q)
    {
      WithoutAbsent(ReadyAt(lists, q), t);
    }
  }

  /** A thread that becomes READY goes to the end of the list of its priority, and every other
      ready list keeps its order. */
  lemma MovedRequeued(lists: Table, link: Links, t: Tid, p: nat)
    requires Linked(lists, link) && ReadyList(p) in lists
    ensures Requeued(lists, Moved(lists, link, t, p), t, p)
  {
    DroppedRequeued(lists, link, t);
    hide Linked, Dropped;
    ReadyStays(lists, link, t, p);
  }

  /** A thread alone in its ready list is at the end of it. */
  lemma AloneRequeued(lists: Table, link: Links, t: Tid, p: nat)
    requires Linked(lists, link) && t in link && link[t] == ReadyList(p) && |ReadyAt(lists, p)| <= 1
    ensures Requeued(lists, lists, t, p)
  {
    assert t in ReadyAt(lists, p);
    assert ReadyAt(lists, p) == [t] && Without([t], t) == [];
    forall q: nat | q != p
      ensures Without(ReadyAt(lists, q), t) == ReadyAt(lists, q)
    {
      WithoutAbsent(ReadyAt(lists, q), t);
    }
  }

  lemma ReadyStays(lists: Table, link: Links, t: Tid, p: nat)
    requires ReadyList(p) in lists
    ensures ReadyList(p) in Dropped(lists, link, t)
  {
  }

  /** Linking into a wait list moves nobody in the ready lists. */
  lemma PutReady(before: Table, lists: Table, o: Oid, k: nat, t: Tid)
    requires WaitList(o) in lists && k <= |lists[WaitList(o)]| && Requeued(before, lists, t, NOWHERE)
    ensures Requeued(before, Put(lists, WaitList(o), k, t), t, NOWHERE)
  {
    assert forall q: nat :: ReadyAt(Put(lists, WaitList(o), k, t), q) == ReadyAt(lists, q);
  }

  /** A SUSPENDed thread becomes READY. */
  lemma Wakes(thr: Pool, lists: Table, link: Links, group: bv32, alarm: map<Tid, nat>, t: Tid, th: Thread)
    requires Scheduled(thr, lists, link, group, alarm) && t in thr && thr[t].stat == SUSPEND
    requires th.stat == READY && th.prio == thr[t].prio && MaskFits(th)
    ensures ReadyList(th.prio) in Dropped(lists, link, t)
    ensures Scheduled(thr[t := th], Moved(lists, link, t, th.prio), link[t := ReadyList(th.prio)],
      With(group, th.mask), alarm - {t})
  {
    hide Scheduled, Dropped, MaskFits, Put;
    MaskOf(thr, lists, link, group, alarm, t);
    Unwaits(thr, lists, link, group, alarm, t, thr[t], alarm - {t});
    assert thr[t := thr[t]] == thr;
    Enters(thr, Dropped(lists, link, t), link - {t}, group, alarm - {t}, t, th, alarm - {t});
    assert (link - {t})[t := ReadyList(th.prio)] == link[t := ReadyList(th.prio)];
  }

  lemma MaskOf(thr: Pool, lists: Table, link: Links, group: bv32, alarm: map<Tid, nat>, t: Tid)
    requires Scheduled(thr, lists, link, group, alarm) && t in thr
    ensures MaskFits(thr[t])
  {
  }

  /** A READY thread changes priority and moves to the end of the other list. */
  lemma Shifts(thr: Pool, lists: Table, link: Links, group: bv32, alarm: map<Tid, nat>, t: Tid, th: Thread)
    requires Scheduled(thr, lists, link, group, alarm) && t in thr && thr[t].stat == READY
    requires th.stat == READY && MaskFits(th)
    ensures ReadyList(th.prio) in Dropped(lists, link, t)
    ensures Scheduled(thr[t := th], Moved(lists, link, t, th.prio), link[t := ReadyList(th.prio)],
                      With(GroupWithout(Dropped(lists, link, t), group, thr[t].prio, thr[t].mask), th.mask), alarm)
  {
    hide Dropped, Put, Linked, Mapped, Placed, Masked;
    var asleep := th.(stat := SUSPEND);
    Leaves(thr, lists, link, group, alarm, t, asleep, alarm);
    assert thr[t := asleep][t := th] == thr[t := th];
    Enters(thr[t := asleep], Dropped(lists, link, t), link - {t},
      GroupWithout(Dropped(lists, link, t), group, thr[t].prio, thr[t].mask),
           alarm, t, th, alarm);
    assert (link - {t})[t := ReadyList(th.prio)] == link[t := ReadyList(th.prio)];
  }

  /** A SUSPENDed thread changes priority where it is. */
  lemma Retunes(thr: Pool, lists: Table, link: Links, group: bv32, alarm: map<Tid, nat>, t: Tid, th: Thread)
    requires Scheduled(thr, lists, link, group, alarm) && t in thr && thr[t].stat != READY
    requires th.stat == thr[t].stat && MaskFits(th)
    ensures Scheduled(thr[t := th], lists, link, group, alarm)
  {
    hide Linked, Mapped;
  }

  /** A thread that is in no list, and stays in none. */
  lemma Settles(thr: Pool, lists: Table, link: Links, group: bv32, alarm: map<Tid, nat>, t: Tid, th: Thread)
    requires Scheduled(thr, lists, link, group, alarm) && (t in thr ==> thr[t].stat != READY && thr[t].stat != SUSPEND)
    requires th.stat != READY && MaskFits(th)
    ensures Scheduled(thr[t := th], lists, link, group, alarm - {t})
    ensures t !in link
  {
    hide Linked, Mapped;
  }

  /** rt_thread_yield relinks the thread in its own ready list. */
  lemma Rotates(thr: Pool, lists: Table, link: Links, group: bv32, alarm: map<Tid, nat>, t: Tid)
    requires Scheduled(thr, lists, link, group, alarm) && t in thr && thr[t].stat == READY
    ensures Scheduled(thr, Moved(lists, link, t, thr[t].prio), link, group, alarm)
  {
    hide Bit, Mask, With, Minus;
    var p := thr[t].prio;
    RotatesLinks(lists, link, t, p);
    forall q | 0 <= q < PRIORITIES
      ensures ReadyList(q) in Moved(lists, link, t, p)
      ensures Moved(lists, link, t, p)[ReadyList(q)] == [] <==> lists[ReadyList(q)] == []
    {
      DroppedAt(lists, link, t, q);
    }
    hide Linked, Moved;
  }

  lemma RotatesLinks(lists: Table, link: Links, t: Tid, p: nat)
    requires Linked(lists, link) && t in link && link[t] == ReadyList(p)
    ensures Linked(Moved(lists, link, t, p), link)
    ensures lists[ReadyList(p)] != []
    ensures Moved(lists, link, t, p)[ReadyList(p)] == Without(lists[ReadyList(p)], t) + [t]
  {
    DroppedLinked(lists, link, t);
    var d := Dropped(lists, link, t);
    PutLinked(d, link - {t}, ReadyList(p), |d[ReadyList(p)]|, t);
    assert (link - {t})[t := ReadyList(p)] == link;
  }

  lemma NotArmed(thr: Pool, lists: Table, link: Links, group: bv32, alarm: map<Tid, nat>, t: Tid)
    requires Scheduled(thr, lists, link, group, alarm) && t !in thr
    ensures alarm - {t} == alarm
  {
  }

  lemma StartMask(a: Thread)
    requires MaskFits(a)
    ensures MaskFits(a.(stat := SUSPEND, prio := a.initPrio, mask := Mask(a.initPrio)))
  {
  }

  lemma Reclocks(thr: Pool, lists: Table, link: Links, group: bv32, alarm: map<Tid, nat>, t: Tid, th: Thread)
    requires Scheduled(thr, lists, link, group, alarm) && t in thr && th == thr[t].(leftTick := th.leftTick)
    ensures Scheduled(thr[t := th], lists, link, group, alarm)
  {
    hide Linked, Mapped, Mask;
  }

  /** The timer of a SUSPENDed thread is started. */
  lemma Arms(thr: Pool, lists: Table, link: Links, group: bv32, alarm: map<Tid, nat>, t: Tid, ticks: nat)
    requires Scheduled(thr, lists, link, group, alarm) && t in thr && thr[t].stat == SUSPEND
    ensures Scheduled(thr, lists, link, group, alarm[t := ticks])
  {
    hide Linked, Mapped, Placed, Masked;
  }

  /** The timer of a thread that is not SUSPENDed must not run. */
  lemma ArmsWrongly(thr: Pool, lists: Table, link: Links, group: bv32, alarm: map<Tid, nat>, t: Tid, ticks: nat)
    requires t in thr && thr[t].stat != SUSPEND
    ensures !Scheduled(thr, lists, link, group, alarm[t := ticks])
  {
  }

  /** A node in a wait list, or of a thread that is not SUSPENDed, linked into a wait
      list. */
  lemma Tangles(thr: Pool, lists: Table, link: Links, group: bv32, alarm: map<Tid, nat>, t: Tid, o: Oid, k: nat,
                alarm': map<Tid, nat>)
    requires Scheduled(thr, lists, link, group, alarm) && t in thr && WaitList(o) in lists && k <= |lists[WaitList(o)]|
    requires (t in link && link[t].WaitList?) || thr[t].stat != SUSPEND
    ensures !Scheduled(thr, Put(lists, WaitList(o), k, t), link[t := WaitList(o)], group, alarm')
  {
    var after, at := Put(lists, WaitList(o), k, t), link[t := WaitList(o)];
    SpliceMembers(lists[WaitList(o)], k, t);
    if thr[t].stat == SUSPEND {
      TanglesRings(lists, link, t, o, k);
    } else {
      assert !Placed(thr, at);
    }
  }

  lemma TanglesRings(lists: Table, link: Links, t: Tid, o: Oid, k: nat)
    requires Linked(lists, link) && t in link && link[t].WaitList? && WaitList(o) in lists && k <= |lists[WaitList(o)]|
    ensures !Linked(Put(lists, WaitList(o), k, t), link[t := WaitList(o)])
  {
    var ring, l := lists[WaitList(o)], link[t];
    var after := Put(lists, WaitList(o), k, t);
    SpliceMembers(ring, k, t);
    if l == WaitList(o) {
      var i :| 0 <= i < |ring| && ring[i] == t;
      var s := Splice(ring, k, t);
      assert s[k] == t && s[if i < k then i else i + 1] == t;
      assert after[l] == s && !Distinct(s);
    } else {
      assert t in lists[l] && after[l] == lists[l] && t in after[l];
      assert link[t := WaitList(o)][t] != l;
    }
  }

  lemma Errs(thr: Pool, lists: Table, link: Links, group: bv32, alarm: map<Tid, nat>, t: Tid, e: Error)
    requires Scheduled(thr, lists, link, group, alarm) && t in thr
    ensures Scheduled(thr[t := thr[t].(error := e)], lists, link, group, alarm)
    ensures thr[t := thr[t].(error := e)].Keys == thr.Keys
  {
    hide Linked, Mapped, Mask;
  }

  // ----- what the scheduler picks -----

  /** Ready list p is the first one that is not empty. */
  ghost predicate Top(lists: Table, p: nat) {
    && p < PRIORITIES && ReadyList(p) in lists && lists[ReadyList(p)] != []
    && forall q :: 0 <= q < p ==> ReadyList(q) in lists && lists[ReadyList(q)] == []
  }

  lemma TopNonEmpty(lists: Table, p: nat)
    requires Top(lists, p)
    ensures ReadyList(p) in lists && lists[ReadyList(p)] != []
  {
  }

  /** The bitmap look-up finds the list that a scan over all priorities would find. */
  lemma LookupFindsTop(lists: Table, group: bv32, p: nat)
    requires Mapped(lists, group) && p < PRIORITIES && lists[ReadyList(p)] != []
    ensures 1 <= Ffs(group) <= 32 && Top(lists, Ffs(group) - 1) && Ffs(group) - 1 <= p
  {
    hide Bit, Ffs;
    NoBits(group);
    assert Bit(group, p);
    FfsIsLowest(group);
  }

  // ----- order of a wait list -----

  /** Waiters are served by priority. */
  ghost predicate ByPriority(s: seq<Tid>, thr: Pool) {
    && (forall i :: 0 <= i < |s| ==> s[i] in thr)
    && (forall i, j :: 0 <= i < j < |s| ==> thr[s[i]].prio <= thr[s[j]].prio)
  }

  /** Where rt_ipc_list_suspend links a thread of priority p: before the first thread
      of lower urgency. */
  ghost predicate IsSlot(s: seq<Tid>, thr: Pool, p: nat, k: nat) {
    && k <= |s|
    && (forall i :: 0 <= i < |s| ==> s[i] in thr)
    && (forall i :: 0 <= i < k ==> thr[s[i]].prio <= p)
    && (k < |s| ==> p < thr[s[k]].prio)
  }

  lemma SlotAlike(s: seq<Tid>, thr: Pool, thr': Pool, t: Tid, k: nat)
    requires t in thr && t in thr' && thr == thr'[t := thr[t]] && thr'[t].prio == thr[t].prio
    ensures forall p :: IsSlot(s, thr', p, k) ==> IsSlot(s, thr, p, k)
  {
  }

  lemma SlotKeepsOrder(s: seq<Tid>, thr: Pool, t: Tid, k: nat)
    requires t in thr && ByPriority(s, thr) && IsSlot(s, thr, thr[t].prio, k)
    ensures ByPriority(Splice(s, k, t), thr)
  {
  }

  lemma HeadIsLeast(s: seq<Tid>, thr: Pool, y: Tid)
    requires ByPriority(s, thr) && y in s
    ensures s[0] in thr && y in thr && thr[s[0]].prio <= thr[y].prio
  {
  }

  lemma TailKeepsOrder(s: seq<Tid>, thr: Pool)
    requires ByPriority(s, thr) && s != []
    ensures ByPriority(s[1..], thr)
  {
  }

  lemma ConsKeepsOrder(x: Tid, w: seq<Tid>, thr: Pool)
    requires ByPriority(w, thr) && x in thr && forall j :: 0 <= j < |w| ==> thr[x].prio <= thr[w[j]].prio
    ensures ByPriority([x] + w, thr)
  {
  }

  lemma {:induction false} WithoutKeepsOrder(s: seq<Tid>, thr: Pool, t: Tid)
    requires ByPriority(s, thr)
    ensures ByPriority(Without(s, t), thr)
  {
    if s != [] {
      TailKeepsOrder(s, thr);
      WithoutKeepsOrder(s[1..], thr, t);
      var w := Without(s[1..], t);
      if s[0] != t {
        forall j | 0 <= j < |w|
          ensures w[j] in thr && thr[s[0]].prio <= thr[w[j]].prio
        {
          assert w[j] in s[1..];
          HeadIsLeast(s, thr, w[j]);
        }
        HeadIsLeast(s, thr, s[0]);
        ConsKeepsOrder(s[0], w, thr);
      }
      hide ByPriority;
    }
  }

  // ----- round robin -----

  /** The ready list after its head yielded. */
  function Rotated(s: seq<Tid>): (r: seq<Tid>)
    requires s != []
    ensures |r| == |s|
  {
    s[1..] + [s[0]]
  }

  /** The head of a ready list that yields makes the list rotate. */
  lemma HeadRotates(s: seq<Tid>)
    requires s != [] && Distinct(s)
    ensures Without(s, s[0]) + [s[0]] == Rotated(s)
  {
    WithoutAt(s, 0);
  }

  function Rotations(s: seq<Tid>, n: nat): (r: seq<Tid>)
    requires s != []
    ensures |r| == |s|
  {
    if n == 0 then s else Rotated(Rotations(s, n - 1))
  }

  /** After k yields the thread at position k runs; after as many yields as there are
      threads the order is what it was. */
  lemma {:induction false} RoundRobin(s: seq<Tid>, k: nat)
    requires s != [] && k <= |s|
    ensures Rotations(s, k) == s[k..] + s[..k]
    ensures k < |s| ==> Rotations(s, k)[0] == s[k]
    ensures k == |s| ==> Rotations(s, k) == s
  {
    if k > 0 {
      RoundRobin(s, k - 1);
      assert s[k - 1..][1..] == s[k..];
      assert s[..k] == s[..k - 1] + [s[k - 1]];
    }
  }

  /** The head of ready list p yields. */
  lemma YieldRotates(lists: Table, link: Links, t: Tid, p: nat)
    requires Linked(lists, link) && t in link && link[t] == ReadyList(p) && lists[ReadyList(p)] != [] &&
      lists[ReadyList(p)][0] == t
    ensures Moved(lists, link, t, p) == lists[ReadyList(p) := Rotated(lists[ReadyList(p)])]
  {
    RotatesLinks(lists, link, t, p);
    HeadRotates(lists[ReadyList(p)]);
  }

  lemma TopUnique(lists: Table, p: nat, q: nat)
    requires Top(lists, p) && Top(lists, q)
    ensures p == q
  {
  }

  lemma TopStays(lists: Table, p: nat, s: seq<Tid>)
    requires Top(lists, p) && s != []
    ensures Top(lists[ReadyList(p) := s], p)
  {
  }

  // ----- start -----

  function StartPool(idle: Tid): Pool {
    map[idle := Thread(READY, PRIORITIES - 1, PRIORITIES - 1, Mask(PRIORITIES - 1), EOK, 32, 32)]
  }

  /** The rings of a system in which only the idle thread, of the last priority, is
      ready. */
  function StartLists(idle: Tid, objs: set<Oid>): (lists: Table)
    ensures forall p: nat :: ReadyList(p) in lists <==> p < PRIORITIES
    ensures forall o: nat :: WaitList(o) in lists <==> o in objs
    ensures forall l :: l in lists ==> lists[l] == if l == ReadyList(PRIORITIES - 1) then [idle] else []
  {
    var heads := (set p: nat | p < PRIORITIES :: ReadyList(p)) + set o | o in objs :: WaitList(o);
    map l | l in heads :: if l == ReadyList(PRIORITIES - 1) then [idle] else []
  }

  function StartLinks(idle: Tid): Links {
    map[idle := ReadyList(PRIORITIES - 1)]
  }

  lemma OneBit(p: nat, q: nat)
    requires p < 32 && q < 32
    ensures Bit(Mask(p), q) <==> q == p
  {
    hide Bit, Mask, With, Minus;
    NoBits(0);
    BitUpdate(0, p, q);
    ZeroOr(Mask(p));
  }

  lemma ZeroOr(m: bv32)
    ensures With(0, m) == m
  {
  }

  lemma StartScheduled(idle: Tid, objs: set<Oid>)
    ensures Scheduled(StartPool(idle), StartLists(idle, objs), StartLinks(idle), Mask(PRIORITIES - 1), map[])
  {
    hide Bit, Mask, With, Minus;
    var lists := StartLists(idle, objs);
    forall p | 0 <= p < PRIORITIES
      ensures ReadyList(p) in lists && (Bit(Mask(PRIORITIES - 1), p) <==> lists[ReadyList(p)] != [])
    {
      OneBit(PRIORITIES - 1, p);
    }
    assert Mapped(lists, Mask(PRIORITIES - 1));
    hide Mapped;
  }
}
